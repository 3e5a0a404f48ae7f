// Reading what the admin CLI tool prints (cli_server/ext/admincli_interface.py): the
// `$QUERY = ... $RESULT = ...` line of a network query, the JSON blocks of a command log, and the
// search of those blocks for a key.

module AdminCliInterface {
  import opened Wrappers
  import opened Text

  // ----- NqQueryResult -----

  /** `\$KEY\s*=\s*(\S+)` matched at position `i`: the captured word. Neither `\s*` can give back a
      character to let the match succeed, so the match is unique. */
  function TagAt(s: string, key: string, i: nat): (r: Option<string>)
    requires i <= |s|
    ensures r.Some? ==> IsWord(r.value)
  {
    var tag := "$" + key;
    if !OccursAt(s, tag, i) then None
    else
      var j := SkipSpaces(s, i + |tag|);
      if j == |s| || s[j] != '=' then None
      else
        var k := SkipSpaces(s, j + 1);
        if k == |s| then None
        else Some(s[k..WordLen(s, k)])
  }

  /** `re.search`: the match at the leftmost position from `i` on where one exists. */
  function SearchFrom(s: string, key: string, i: nat): (r: Option<string>)
    requires i <= |s|
    ensures r.Some? ==> IsWord(r.value)
    decreases |s| - i
  {
    if i == |s| then None
    else match TagAt(s, key, i)
      case Some(w) => Some(w)
      case None => SearchFrom(s, key, i + 1)
  }

  /** `match.group(1).strip(" ;")`, or None without a match. */
  function TagValue(s: string, key: string): Option<string>
  {
    match SearchFrom(s, key, 0)
    case None => None
    case Some(w) => Some(StripChars(w, {' ', ';'}))
  }

  predicate IsOctet(t: string)
  {
    1 <= |t| <= 3 && IsDigits(t)
  }

  /** `re.fullmatch(r"\d{1,3}(\.\d{1,3}){3}", t)` */
  predicate IsDottedQuad(t: string)
  {
    var ps := Split(t, ".");
    |ps| == 4 && IsOctet(ps[0]) && IsOctet(ps[1]) && IsOctet(ps[2]) && IsOctet(ps[3])
  }

  /** `extract_query_result`: the query and the result word; a missing or empty result falls back
      to the whole text when that is a bare IPv4 address. */
  function ExtractQueryResult(text: string): (r: (Option<string>, Option<string>))
    ensures r.0 == TagValue(text, "QUERY")
    ensures TagValue(text, "RESULT").Some? && TagValue(text, "RESULT").value != "" ==> r.1 == TagValue(text, "RESULT")
    ensures (TagValue(text, "RESULT").None? || TagValue(text, "RESULT").value == "") ==>
              r.1 == if IsDottedQuad(Strip(text)) then Some(Strip(text)) else TagValue(text, "RESULT")
  {
    var q := TagValue(text, "QUERY");
    var res := TagValue(text, "RESULT");
    if (res.None? || res.value == "") && IsDottedQuad(Strip(text)) then (q, Some(Strip(text)))
    else (q, res)
  }

  /** An `NqQueryResult`: the text it was built from and the two values read from it. */
  datatype NqQueryResult = NqQueryResult(orgStr: string, query: Option<string>, result: Option<string>)

  function NqQueryResultOf(text: string): (r: NqQueryResult)
    ensures r.orgStr == text && (r.query, r.result) == ExtractQueryResult(text)
  {
    var (q, res) := ExtractQueryResult(text);
    NqQueryResult(text, q, res)
  }

  /** `getValue`: only "query" and "result" are known keys. */
  function GetValue(n: NqQueryResult, key: string): (r: Option<string>)
    ensures key != "query" && key != "result" ==> r.None?
  {
    if key == "query" then n.query else if key == "result" then n.result else None
  }

  /** What `getValue` reads back from a parsed text. */
  lemma GetValueOf(text: string)
    ensures GetValue(NqQueryResultOf(text), "query") == TagValue(text, "QUERY")
    ensures GetValue(NqQueryResultOf(text), "result") == ExtractQueryResult(text).1
  {
  }

  /** Without any "$KEY" in the text there is no value. */
  lemma {:induction false} TagAbsent(s: string, key: string, i: nat)
    requires i <= |s| && !Contains(s, "$" + key)
    ensures SearchFrom(s, key, i).None?
    decreases |s| - i
  {
    if i < |s| {
      assert !OccursAt(s, "$" + key, i);
      TagAbsent(s, key, i + 1);
    }
  }

  /** No match starts inside a prefix free of '$'. */
  lemma {:induction false} SearchSkips(s: string, key: string, n: nat, i: nat)
    requires i <= n <= |s| && '$' !in s[..n]
    ensures SearchFrom(s, key, i) == SearchFrom(s, key, n)
    decreases n - i
  {
    if i < n {
      assert s[i] == s[..n][i];
      assert ("$" + key)[0] == '$';
      assert !OccursAt(s, "$" + key, i);
      SearchSkips(s, key, n, i + 1);
    }
  }

  predicate AllSpace(t: string)
  {
    forall q :: 0 <= q < |t| ==> IsSpace(t[q])
  }

  /** A run of whitespace followed by a non-whitespace character is skipped exactly. */
  lemma SkipRun(s: string, i: nat, j: nat)
    requires i <= j < |s| && (forall q :: i <= q < j ==> IsSpace(s[q])) && !IsSpace(s[j])
    ensures SkipSpaces(s, i) == j
  {
  }

  /** A word ends where the whitespace or the text ends. */
  lemma WordRun(s: string, k: nat, e: nat)
    requires k <= e <= |s| && (forall q :: k <= q < e ==> !IsSpace(s[q])) && (e == |s| || IsSpace(s[e]))
    ensures WordLen(s, k) == e
  {
  }

  /** The match at `i` in terms of where its parts lie: the tag, whitespace up to the '=' at `j`,
      whitespace up to the word `s[k..e]`. */
  lemma TagAtParts(s: string, key: string, i: nat, j: nat, k: nat, e: nat)
    requires i + |key| + 1 <= j < k < e <= |s| && OccursAt(s, "$" + key, i)
    requires (forall q :: i + |key| + 1 <= q < j ==> IsSpace(s[q])) && s[j] == '='
    requires (forall q :: j < q < k ==> IsSpace(s[q])) && (forall q :: k <= q < e ==> !IsSpace(s[q]))
    requires e == |s| || IsSpace(s[e])
    ensures TagAt(s, key, i) == Some(s[k..e])
  {
    assert !IsSpace('=');
    SkipRun(s, i + |key| + 1, j);
    SkipRun(s, j + 1, k);
    WordRun(s, k, e);
  }

  /** The text `$KEY sp1 = sp2 word`. */
  function MatchText(key: string, sp1: string, sp2: string, w: string): string
  {
    ("$" + key + sp1 + "=") + (sp2 + w)
  }

  /** The parts of a match laid out from `i`: the tag up to `a`, whitespace up to the '=' at `j`,
      whitespace up to `k` and a word up to `e`, ended by whitespace or the end of the text. */
  lemma TagAtSlices(s: string, key: string, sp1: string, sp2: string, w: string, i: nat, a: nat, j: nat, k: nat, e: nat)
    requires AllSpace(sp1) && AllSpace(sp2) && IsWord(w)
    requires a == i + |key| + 1 && j == a + |sp1| && k == j + 1 + |sp2| && e == k + |w| && e <= |s|
    requires s[i..a] == "$" + key && s[a..j] == sp1 && s[j..j + 1] == "=" && s[j + 1..k] == sp2 && s[k..e] == w
    requires e == |s| || IsSpace(s[e])
    ensures TagAt(s, key, i) == Some(w)
  {
    SliceSpaces(s, a, j);
    SliceSpaces(s, j + 1, k);
    WordChars(s, k, e);
    assert s[j] == s[j..j + 1][0];
    TagAtParts(s, key, i, j, k, e);
  }

  lemma SliceSpaces(s: string, a: nat, b: nat)
    requires a <= b <= |s| && AllSpace(s[a..b])
    ensures forall q :: a <= q < b ==> IsSpace(s[q])
  {
    forall q | a <= q < b ensures IsSpace(s[q]) {
      assert s[q] == s[a..b][q - a];
    }
  }

  lemma WordChars(s: string, k: nat, e: nat)
    requires k <= e <= |s| && IsWord(s[k..e])
    ensures forall q :: k <= q < e ==> !IsSpace(s[q])
  {
    forall q | k <= q < e ensures !IsSpace(s[q]) {
      assert s[q] == s[k..e][q - k];
    }
  }

  /** The value read from a text of the form `p $KEY sp1 = sp2 word rest`, where `p` holds no '$',
      the spacing is whitespace and the word ends at whitespace or at the end, is the word with
      spaces and ';' stripped. */
  lemma TagOfLine(p: string, key: string, sp1: string, sp2: string, w: string, rest: string)
    requires '$' !in p && AllSpace(sp1) && AllSpace(sp2) && IsWord(w) && (rest == [] || IsSpace(rest[0]))
    ensures TagValue(p + MatchText(key, sp1, sp2, w) + rest, key) == Some(StripChars(w, {' ', ';'}))
  {
    var m := MatchText(key, sp1, sp2, w);
    PlacedAt(p, m, rest, |p| + |m|);
    SearchSkips(p + m + rest, key, |p|, 0);
    TagAtPlaced(p, key, sp1, sp2, w, rest);
  }

  /** The match placed after `p` is found there. */
  lemma TagAtPlaced(p: string, key: string, sp1: string, sp2: string, w: string, rest: string)
    requires AllSpace(sp1) && AllSpace(sp2) && IsWord(w) && (rest == [] || IsSpace(rest[0]))
    ensures |p| <= |p + MatchText(key, sp1, sp2, w) + rest|
    ensures TagAt(p + MatchText(key, sp1, sp2, w) + rest, key, |p|) == Some(w)
  {
    var tag := "$" + key;
    var m := MatchText(key, sp1, sp2, w);
    assert m == (tag + sp1 + "=") + (sp2 + w);
    var s := p + m + rest;
    var i := |p|;
    var a := i + |tag|;
    var j := a + |sp1|;
    var k := j + 1 + |sp2|;
    var e := k + |w|;
    PlacedAt(p, m, rest, e);
    SplitCopy(s, tag + sp1 + "=", sp2 + w, i, j + 1, e);
    SplitCopy(s, tag + sp1, "=", i, j, j + 1);
    SplitCopy(s, tag, sp1, i, a, j);
    SplitCopy(s, sp2, w, j + 1, k, e);
    if rest != [] {
      assert s[e] == rest[0];
    }
    TagAtSlices(s, key, sp1, sp2, w, i, a, j, k, e);
  }

  lemma PlacedAt(p: string, m: string, rest: string, e: nat)
    requires e == |p| + |m|
    ensures (p + m + rest)[..|p|] == p && (p + m + rest)[|p|..e] == m
  {
    TakeAppend(p + m, rest, |p|);
    TakeLeft(p, m);
    TakeLeft(p + m, rest);
    DropLeft(p, m);
  }

  // ----- AdminCliResult.extract_json_blocks -----

  /** One line as the scan sees it: stripped, and without a leading "CLI LOG:" tag. */
  function CleanLine(line: string): string
  {
    var l := Strip(line);
    if StartsWith(l, "CLI LOG:") then Strip(l[|"CLI LOG:"|..]) else l
  }

  /** How many more '{' than '}' a text holds. */
  function Balance(s: string): int
  {
    Count(s, '{') as int - Count(s, '}') as int
  }

  /** The scan's state: the texts closed so far, the brace level, the open block, and whether one
      is open. */
  datatype Scan = Scan(closed: seq<string>, level: int, buffer: string, inJson: bool)

  const Start: Scan := Scan([], 0, "", false)

  /** One line of the loop, on its cleaned text. */
  function Step(st: Scan, line: string): Scan
  {
    Advance(st, CleanLine(line))
  }

  /** A '{' opens a block; inside a block the line is added and counted, and a level back at zero
      closes the block. */
  function Advance(st: Scan, l: string): Scan
  {
    var open := st.inJson || '{' in l;
    if !open then st
    else
      var buf := st.buffer + l + "\n";
      var lev := st.level + Balance(l);
      if lev == 0 then Scan(st.closed + [buf], 0, "", false) else Scan(st.closed, lev, buf, true)
  }

  function ScanFrom(st: Scan, lines: seq<string>): Scan
    decreases |lines|
  {
    if lines == [] then st else Step(ScanFrom(st, lines[..|lines| - 1]), lines[|lines| - 1])
  }

  /** The texts handed to the JSON parser, in input order. */
  function Candidates(text: string): seq<string>
  {
    ScanFrom(Start, SplitLines(text)).closed
  }

  /** The parsed candidates, the unparseable ones skipped. */
  function Parsed<J>(cs: seq<string>, parse: string -> Option<J>): (r: seq<J>)
    ensures |r| <= |cs|
    decreases |cs|
  {
    if cs == [] then []
    else
      var n := |cs| - 1;
      Parsed(cs[..n], parse) + (if parse(cs[n]).Some? then [parse(cs[n]).value] else [])
  }

  /** The state the scan keeps: outside a block the level is zero and nothing is buffered; inside,
      the level is the buffer's balance, which is not zero, and the buffer holds a '{'. */
  ghost predicate ScanOk(st: Scan)
  {
    && (!st.inJson ==> st.level == 0 && st.buffer == "")
    && (st.inJson ==> st.level == Balance(st.buffer) && st.level != 0 && '{' in st.buffer)
    && forall k :: 0 <= k < |st.closed| ==> Balance(st.closed[k]) == 0 && '{' in st.closed[k] && EndsWith(st.closed[k], "\n")
  }

  lemma BalanceAppend(a: string, b: string)
    ensures Balance(a + b) == Balance(a) + Balance(b)
  {
    CountAppend(a, b, '{');
    CountAppend(a, b, '}');
  }

  lemma StepOk(st: Scan, line: string)
    requires ScanOk(st)
    ensures ScanOk(Step(st, line))
  {
    AdvanceOk(st, CleanLine(line));
  }

  lemma AdvanceOk(st: Scan, l: string)
    requires ScanOk(st)
    ensures ScanOk(Advance(st, l))
  {
    if st.inJson || '{' in l {
      var buf := st.buffer + l + "\n";
      BufferOk(st, l);
      if st.level + Balance(l) == 0 {
        ClosedOk(st.closed, buf);
      }
    }
  }

  /** The buffer after a line inside a block: its balance is the new level, it holds a '{' and
      ends the line. */
  lemma BufferOk(st: Scan, l: string)
    requires ScanOk(st) && (st.inJson || '{' in l)
    ensures var buf := st.buffer + l + "\n";
            Balance(buf) == st.level + Balance(l) && '{' in buf && EndsWith(buf, "\n")
  {
    var buf := st.buffer + l + "\n";
    BalanceAppend(st.buffer, l);
    BalanceAppend(st.buffer + l, "\n");
    assert Balance("\n") == 0;
    if '{' in st.buffer {
      var q :| 0 <= q < |st.buffer| && st.buffer[q] == '{';
      assert buf[q] == '{';
    } else {
      var q :| 0 <= q < |l| && l[q] == '{';
      assert buf[|st.buffer| + q] == '{';
    }
    DropLeft(st.buffer + l, "\n");
  }

  lemma ClosedOk(cs: seq<string>, c: string)
    requires forall k :: 0 <= k < |cs| ==> Balance(cs[k]) == 0 && '{' in cs[k] && EndsWith(cs[k], "\n")
    requires Balance(c) == 0 && '{' in c && EndsWith(c, "\n")
    ensures var r := cs + [c];
            forall k :: 0 <= k < |r| ==> Balance(r[k]) == 0 && '{' in r[k] && EndsWith(r[k], "\n")
  {
  }

  /** Every candidate is brace-balanced, holds a '{' and ends its last line. */
  lemma {:induction false} ScanFromOk(st: Scan, lines: seq<string>)
    requires ScanOk(st)
    ensures ScanOk(ScanFrom(st, lines))
    decreases |lines|
  {
    if lines != [] {
      ScanFromOk(st, lines[..|lines| - 1]);
      StepOk(ScanFrom(st, lines[..|lines| - 1]), lines[|lines| - 1]);
    }
  }

  lemma CandidatesBalanced(text: string)
    ensures forall k :: 0 <= k < |Candidates(text)| ==>
              Balance(Candidates(text)[k]) == 0 && '{' in Candidates(text)[k] && EndsWith(Candidates(text)[k], "\n")
  {
    ScanFromOk(Start, SplitLines(text));
  }

  /** Only the closed texts depend on what was closed before. */
  lemma {:induction false} ScanShift(cs: seq<string>, level: int, buffer: string, inJson: bool, lines: seq<string>)
    ensures var a := ScanFrom(Scan(cs, level, buffer, inJson), lines);
            var b := ScanFrom(Scan([], level, buffer, inJson), lines);
            a == b.(closed := cs + b.closed)
    decreases |lines|
  {
    if lines != [] {
      var n := |lines| - 1;
      ScanShift(cs, level, buffer, inJson, lines[..n]);
      ShiftStep(cs, ScanFrom(Scan([], level, buffer, inJson), lines[..n]), lines[n]);
    }
  }

  lemma ShiftStep(cs: seq<string>, y: Scan, line: string)
    ensures Step(y.(closed := cs + y.closed), line) == Step(y, line).(closed := cs + Step(y, line).closed)
  {
    var l := CleanLine(line);
    AppendAssoc(cs, y.closed, [y.buffer + l + "\n"]);
  }

  lemma {:induction false} ScanAppend(st: Scan, a: seq<string>, b: seq<string>)
    ensures ScanFrom(st, a + b) == ScanFrom(ScanFrom(st, a), b)
    decreases |b|
  {
    if b == [] {
      assert a + b == a;
    } else {
      var n := |b| - 1;
      assert (a + b)[..|a + b| - 1] == a + b[..n];
      assert (a + b)[|a + b| - 1] == b[n];
      ScanAppend(st, a, b[..n]);
      assert ScanFrom(st, a + b) == Step(ScanFrom(st, a + b[..n]), b[n]);
    }
  }

  /** Blocks come out in input order: after lines that leave no block open, the candidates of what
      follows are appended to theirs. */
  lemma LinesInOrder(a: seq<string>, b: seq<string>)
    requires !ScanFrom(Start, a).inJson
    ensures ScanFrom(Start, a + b).closed == ScanFrom(Start, a).closed + ScanFrom(Start, b).closed
  {
    ScanAppend(Start, a, b);
    ScanFromOk(Start, a);
    ScanShift(ScanFrom(Start, a).closed, 0, "", false, b);
  }

  /** A line with no '{' outside a block, and a blank line, leave the scan where it was. */
  lemma QuietLine(st: Scan, line: string)
    requires ScanOk(st) && !st.inJson && '{' !in CleanLine(line)
    ensures Step(st, line) == st
  {
  }

  /** A single balanced line holding a '{' is a block of its own. */
  lemma OneLineBlock(st: Scan, l: string)
    requires !st.inJson && st.level == 0 && st.buffer == "" && '{' in l && Balance(l) == 0
    ensures Advance(st, l) == st.(closed := st.closed + [l + "\n"])
  {
    assert st.buffer + l == l;
  }

  /** The relation the loop keeps between its variables and the scan's state. */
  ghost predicate Mirrors<J>(st: Scan, blocks: seq<J>, level: int, buffer: string, inJson: bool, parse: string -> Option<J>)
  {
    st.level == level && st.buffer == buffer && st.inJson == inJson && blocks == Parsed(st.closed, parse)
  }

  /** The body of the loop for one cleaned line. */
  method ScanLine<J>(ghost st: Scan, blocks: seq<J>, level: int, buffer: string, inJson: bool, l: string,
                     parse: string -> Option<J>)
    returns (blocks': seq<J>, level': int, buffer': string, inJson': bool)
    requires Mirrors(st, blocks, level, buffer, inJson, parse)
    ensures Mirrors(Advance(st, l), blocks', level', buffer', inJson', parse)
  {
    blocks', level', buffer', inJson' := blocks, level, buffer, inJson;
    if '{' in l {
      inJson' := true;
    }
    if inJson' {
      buffer' := buffer' + l + "\n";
      level' := level' + Count(l, '{') - Count(l, '}');
      if level' == 0 {
        assert (st.closed + [buffer'])[..|st.closed|] == st.closed;
        match parse(buffer') {
          case Some(v) => blocks' := blocks' + [v];
          case None =>
        }
        buffer' := "";
        inJson' := false;
      }
    }
  }

  lemma ScanNext(lines: seq<string>, k: nat)
    requires k < |lines|
    ensures ScanFrom(Start, lines[..k + 1]) == Advance(ScanFrom(Start, lines[..k]), CleanLine(lines[k]))
  {
    assert lines[..k + 1][..k] == lines[..k];
  }

  /** `extract_json_blocks`, the JSON parser given as `parse` (None: `JSONDecodeError`). */
  method ExtractJsonBlocks<J>(text: string, parse: string -> Option<J>) returns (blocks: seq<J>)
    ensures blocks == Parsed(Candidates(text), parse)
  {
    var lines := SplitLines(text);
    blocks := [];
    var level := 0;
    var buffer := "";
    var inJson := false;
    for k := 0 to |lines|
      invariant Mirrors(ScanFrom(Start, lines[..k]), blocks, level, buffer, inJson, parse)
    {
      ScanNext(lines, k);
      var line := CleanLine(lines[k]);
      blocks, level, buffer, inJson := ScanLine(ScanFrom(Start, lines[..k]), blocks, level, buffer, inJson, line, parse);
    }
    assert lines[..|lines|] == lines;
  }

  // ----- AdminCliResult.find_json_with_key -----

  /** A value `json.loads` gives: objects keep their members in order. */
  datatype Json = JObj(members: seq<Member>) | JArr(items: seq<Json>) | JStr(str: string) | JNum(num: int) | JBool(b: bool) | JNull
  datatype Member = Member(key: string, val: Json)

  /** One step of a path: a member key, or a list position (shown as "[i]"). */
  datatype Seg = Key(name: string) | Idx(pos: nat)

  function RenderSeg(g: Seg): string
  {
    match g
    case Key(k) => k
    case Idx(i) => "[" + IntToString(i) + "]"
  }

  /** The path as `find_json_with_key` builds it, one string per step. */
  function RenderPath(p: seq<Seg>): (r: seq<string>)
    ensures |r| == |p| && forall k :: 0 <= k < |p| ==> r[k] == RenderSeg(p[k])
  {
    seq(|p|, k requires 0 <= k < |p| => RenderSeg(p[k]))
  }

  function SumNat(xs: seq<nat>): nat
    decreases |xs|
  {
    if xs == [] then 0 else SumNat(xs[..|xs| - 1]) + xs[|xs| - 1]
  }

  lemma {:induction false} SumNatAppend(a: seq<nat>, b: seq<nat>)
    ensures SumNat(a + b) == SumNat(a) + SumNat(b)
    decreases |b|
  {
    if b == [] {
      assert a + b == a;
    } else {
      assert (a + b)[..|a + b| - 1] == a + b[..|b| - 1];
      SumNatAppend(a, b[..|b| - 1]);
    }
  }

  /** The number of values in a JSON value, itself included. */
  function Size(j: Json): nat
  {
    match j
    case JObj(ms) => 1 + SumNat(seq(|ms|, i requires 0 <= i < |ms| => Size(ms[i].val)))
    case JArr(xs) => 1 + SumNat(seq(|xs|, i requires 0 <= i < |xs| => Size(xs[i])))
    case _ => 1
  }

  /** A value and the path it was reached by. */
  type Frame = (Json, seq<Seg>)

  /** What `find_json_with_key` pushes for a value: its members or items, in order. */
  function Children(x: Json, p: seq<Seg>): (r: seq<Frame>)
  {
    match x
    case JObj(ms) => seq(|ms|, i requires 0 <= i < |ms| => (ms[i].val, p + [Key(ms[i].key)]))
    case JArr(xs) => seq(|xs|, i requires 0 <= i < |xs| => (xs[i], p + [Idx(i)]))
    case _ => []
  }

  /** The matches among the first `n` members, in member order. */
  function DirectUpTo(ms: seq<Member>, p: seq<Seg>, t: string, n: nat): seq<(seq<Seg>, Json)>
    requires n <= |ms|
  {
    if n == 0 then []
    else DirectUpTo(ms, p, t, n - 1) + (if ms[n - 1].key == t then [(p + [Key(t)], ms[n - 1].val)] else [])
  }

  /** What `find_json_with_key` reports for a popped value: its members named `t`. */
  function Direct(x: Json, p: seq<Seg>, t: string): seq<(seq<Seg>, Json)>
  {
    if x.JObj? then DirectUpTo(x.members, p, t, |x.members|) else []
  }

  function Sizes(s: seq<Frame>): (r: seq<nat>)
    ensures |r| == |s|
  {
    seq(|s|, i requires 0 <= i < |s| => Size(s[i].0))
  }

  function StackSize(s: seq<Frame>): nat
  {
    SumNat(Sizes(s))
  }

  lemma ChildrenSize(x: Json, p: seq<Seg>)
    ensures StackSize(Children(x, p)) + 1 == Size(x)
  {
    match x
    case JObj(ms) =>
      assert Sizes(Children(x, p)) == seq(|ms|, i requires 0 <= i < |ms| => Size(ms[i].val));
    case JArr(xs) =>
      assert Sizes(Children(x, p)) == seq(|xs|, i requires 0 <= i < |xs| => Size(xs[i]));
    case _ =>
      assert Sizes(Children(x, p)) == [];
  }

  /** Popping a value and pushing its children shrinks the stack's total size. */
  lemma PopShrinks(s: seq<Frame>)
    requires s != []
    ensures var n := |s| - 1;
            StackSize(s[..n] + Children(s[n].0, s[n].1)) < StackSize(s)
  {
    var n := |s| - 1;
    var c := Children(s[n].0, s[n].1);
    assert Sizes(s[..n] + c) == Sizes(s[..n]) + Sizes(c);
    assert Sizes(s) == Sizes(s[..n]) + [Size(s[n].0)];
    SumNatAppend(Sizes(s[..n]), Sizes(c));
    SumNatAppend(Sizes(s[..n]), [Size(s[n].0)]);
    ChildrenSize(s[n].0, s[n].1);
    assert SumNat([Size(s[n].0)]) == Size(s[n].0) by {
      assert [Size(s[n].0)][..0] == [];
    }
  }

  /** The `while stack` loop: the last frame is popped, its matches reported, its children pushed. */
  function Process(s: seq<Frame>, t: string): seq<(seq<Seg>, Json)>
    decreases StackSize(s)
  {
    if s == [] then []
    else
      var n := |s| - 1;
      PopShrinks(s);
      Direct(s[n].0, s[n].1, t) + Process(s[..n] + Children(s[n].0, s[n].1), t)
  }

  /** `find_json_with_key` over the parsed blocks, in block order. */
  function FindAll(list: seq<Json>, t: string): seq<(seq<Seg>, Json)>
    decreases |list|
  {
    if list == [] then []
    else FindAll(list[..|list| - 1], t) + Process([(list[|list| - 1], [])], t)
  }

  /** The value at a path, looked up one step at a time; an object step takes the first member
      with that key. */
  function At(j: Json, path: seq<Seg>): Option<Json>
    decreases |path|
  {
    if path == [] then Some(j)
    else match At(j, path[..|path| - 1])
      case None => None
      case Some(y) => Into(y, path[|path| - 1])
  }

  function FirstKey(ms: seq<Member>, k: string): (r: Option<nat>)
    ensures r.Some? ==> r.value < |ms| && ms[r.value].key == k && forall i :: 0 <= i < r.value ==> ms[i].key != k
    ensures r.None? ==> forall i :: 0 <= i < |ms| ==> ms[i].key != k
    decreases |ms|
  {
    if ms == [] then None
    else if ms[0].key == k then Some(0)
    else match FirstKey(ms[1..], k)
      case None => None
      case Some(i) => Some(i + 1)
  }

  function Into(y: Json, g: Seg): Option<Json>
  {
    match (y, g)
    case (JObj(ms), Key(k)) => (match FirstKey(ms, k) case None => None case Some(i) => Some(ms[i].val))
    case (JArr(xs), Idx(i)) => if i < |xs| then Some(xs[i]) else None
    case _ => None
  }

  lemma {:induction false} AtCons(x: Json, g: Seg, q: seq<Seg>)
    ensures At(x, [g] + q) == match Into(x, g) case None => None case Some(c) => At(c, q)
    decreases |q|
  {
    if q == [] {
      assert ([g] + q)[..0] == [];
      assert [g] + q == [g];
    } else {
      var n := |q| - 1;
      assert ([g] + q)[..|[g] + q| - 1] == [g] + q[..n];
      assert ([g] + q)[|[g] + q| - 1] == q[n];
      AtCons(x, g, q[..n]);
    }
  }

  /** Object keys are unique at every level, as in a parsed Python dict. */
  predicate WellFormed(j: Json)
  {
    match j
    case JObj(ms) => (forall a, b :: 0 <= a < b < |ms| ==> ms[a].key != ms[b].key) && (forall i :: 0 <= i < |ms| ==> WellFormed(ms[i].val))
    case JArr(xs) => forall i :: 0 <= i < |xs| ==> WellFormed(xs[i])
    case _ => true
  }

  /** Every frame on the stack is a well-formed value found at its path in `root`. */
  ghost predicate FramesAt(root: Json, s: seq<Frame>)
  {
    forall i :: 0 <= i < |s| ==> At(root, s[i].1) == Some(s[i].0) && WellFormed(s[i].0)
  }

  /** A well-formed value's children lie at their paths. */
  lemma ChildrenAt(root: Json, x: Json, p: seq<Seg>)
    requires At(root, p) == Some(x) && WellFormed(x)
    ensures FramesAt(root, Children(x, p))
  {
    var c := Children(x, p);
    forall i | 0 <= i < |c| ensures At(root, c[i].1) == Some(c[i].0) && WellFormed(c[i].0) {
      var q := c[i].1;
      assert q[..|q| - 1] == p;
      match x
      case JObj(ms) =>
        assert FirstKey(ms, ms[i].key) == Some(i);
      case JArr(xs) =>
      case _ =>
    }
  }

  lemma DirectAt(root: Json, ms: seq<Member>, p: seq<Seg>, t: string, n: nat)
    requires n <= |ms| && At(root, p) == Some(JObj(ms)) && WellFormed(JObj(ms))
    ensures forall r :: r in DirectUpTo(ms, p, t, n) ==>
              |r.0| > 0 && r.0[|r.0| - 1] == Key(t) && At(root, r.0) == Some(r.1)
  {
    if n > 0 {
      DirectAt(root, ms, p, t, n - 1);
      ChildrenAt(root, JObj(ms), p);
      assert Children(JObj(ms), p)[n - 1] == (ms[n - 1].val, p + [Key(ms[n - 1].key)]);
    }
  }

  /** Soundness: every reported pair is a value found in `root` at the reported path, which ends
      with the searched key. */
  lemma {:induction false} ProcessSound(root: Json, s: seq<Frame>, t: string)
    requires FramesAt(root, s)
    ensures forall r :: r in Process(s, t) ==> |r.0| > 0 && r.0[|r.0| - 1] == Key(t) && At(root, r.0) == Some(r.1)
    decreases StackSize(s)
  {
    if s != [] {
      var n := |s| - 1;
      var (x, p) := s[n];
      PopShrinks(s);
      PopFramesAt(root, s);
      ProcessSound(root, s[..n] + Children(x, p), t);
      if x.JObj? {
        DirectAt(root, x.members, p, t, |x.members|);
      }
      ProcessUnfold(s, t);
    }
  }

  /** Popping a frame and pushing its children keeps every frame at its path. */
  lemma PopFramesAt(root: Json, s: seq<Frame>)
    requires s != [] && FramesAt(root, s)
    ensures var n := |s| - 1;
            FramesAt(root, s[..n] + Children(s[n].0, s[n].1))
  {
    var n := |s| - 1;
    var (x, p) := s[n];
    ChildrenAt(root, x, p);
    var s' := s[..n] + Children(x, p);
    forall i | 0 <= i < |s'| ensures At(root, s'[i].1) == Some(s'[i].0) && WellFormed(s'[i].0) {
      if i < n { assert s'[i] == s[i]; }
      else { assert s'[i] == Children(x, p)[i - n]; }
    }
  }

  lemma DirectHas(ms: seq<Member>, p: seq<Seg>, t: string, n: nat, i: nat)
    requires i < n <= |ms| && ms[i].key == t
    ensures (p + [Key(t)], ms[i].val) in DirectUpTo(ms, p, t, n)
  {
    if i < n - 1 {
      DirectHas(ms, p, t, n - 1, i);
    }
  }

  /** The child a step leads to is one of the pushed frames. */
  lemma ChildIndex(x: Json, g: Seg, p: seq<Seg>) returns (j: nat)
    requires Into(x, g).Some?
    ensures j < |Children(x, p)| && Children(x, p)[j] == (Into(x, g).value, p + [g])
  {
    match x
    case JObj(xm) =>
      j := FirstKey(xm, g.name).value;
    case JArr(xs) =>
      j := g.pos;
  }

  /** A pair reported for the popped frame, or later, is reported for the stack. */
  lemma ProcessStep(s: seq<Frame>, t: string, r: (seq<Seg>, Json))
    requires s != []
    requires var n := |s| - 1;
             r in Direct(s[n].0, s[n].1, t) || r in Process(s[..n] + Children(s[n].0, s[n].1), t)
    ensures r in Process(s, t)
  {
  }

  /** Completeness: a member named `t` of any object reachable from a frame on the stack is
      reported, including one nested inside another match. */
  lemma {:induction false} ProcessComplete(s: seq<Frame>, t: string, idx: nat, q: seq<Seg>, ms: seq<Member>, i: nat)
    requires idx < |s| && At(s[idx].0, q) == Some(JObj(ms)) && i < |ms| && ms[i].key == t
    ensures (s[idx].1 + q + [Key(t)], ms[i].val) in Process(s, t)
    decreases StackSize(s), |q|
  {
    var n := |s| - 1;
    var x, p := s[n].0, s[n].1;
    PopShrinks(s);
    var s' := s[..n] + Children(x, p);
    var r := (s[idx].1 + q + [Key(t)], ms[i].val);
    if idx < n {
      assert s'[idx] == s[idx];
      ProcessComplete(s', t, idx, q, ms, i);
    } else if q == [] {
      assert s[idx].1 + q == p;
      DirectHas(ms, p, t, |ms|, i);
    } else {
      var j := Descend(s, q, ms);
      ProcessComplete(s', t, n + j, q[1..], ms, i);
    }
    ProcessStep(s, t, r);
  }

  /** The first step of a path from the popped frame leads to one of the pushed frames. */
  lemma Descend(s: seq<Frame>, q: seq<Seg>, ms: seq<Member>) returns (j: nat)
    requires s != [] && q != [] && At(s[|s| - 1].0, q) == Some(JObj(ms))
    ensures var n := |s| - 1;
            var s' := s[..n] + Children(s[n].0, s[n].1);
            n + j < |s'| && At(s'[n + j].0, q[1..]) == Some(JObj(ms)) && s'[n + j].1 + q[1..] == s[n].1 + q
  {
    var n := |s| - 1;
    var x, p := s[n].0, s[n].1;
    var c := Children(x, p);
    var s' := s[..n] + c;
    var g, q' := q[0], q[1..];
    assert q == [g] + q';
    AtCons(x, g, q');
    j := ChildIndex(x, g, p);
    assert s'[n + j] == c[j];
    AppendAssoc(p, [g], q');
  }

  lemma ProcessUnfold(s: seq<Frame>, t: string)
    requires s != []
    ensures var n := |s| - 1;
            Process(s, t) == Direct(s[n].0, s[n].1, t) + Process(s[..n] + Children(s[n].0, s[n].1), t)
  {
  }

  /** The `for key, value in current.items()` loop. */
  method PushMembers(ms: seq<Member>, p: seq<Seg>, t: string, stack: seq<Frame>, results: seq<(seq<Seg>, Json)>)
    returns (stack': seq<Frame>, results': seq<(seq<Seg>, Json)>)
    ensures stack' == stack + Children(JObj(ms), p) && results' == results + Direct(JObj(ms), p, t)
  {
    stack', results' := stack, results;
    ghost var c := Children(JObj(ms), p);
    for i := 0 to |ms|
      invariant results' == results + DirectUpTo(ms, p, t, i)
      invariant stack' == stack + c[..i]
    {
      var cp := p + [Key(ms[i].key)];
      if ms[i].key == t {
        results' := results' + [(cp, ms[i].val)];
      }
      stack' := stack' + [(ms[i].val, cp)];
      assert c[..i + 1] == c[..i] + [(ms[i].val, cp)];
    }
    assert c[..|ms|] == c;
  }

  /** The `for idx, item in enumerate(current)` loop. */
  method PushItems(xs: seq<Json>, p: seq<Seg>, stack: seq<Frame>) returns (stack': seq<Frame>)
    ensures stack' == stack + Children(JArr(xs), p)
  {
    stack' := stack;
    ghost var c := Children(JArr(xs), p);
    for i := 0 to |xs|
      invariant stack' == stack + c[..i]
    {
      stack' := stack' + [(xs[i], p + [Idx(i)])];
      assert c[..i + 1] == c[..i] + [(xs[i], p + [Idx(i)])];
    }
    assert c[..|xs|] == c;
  }

  /** One turn of `while stack`: pop the last frame, report its members named `t` and push its
      members or items, in order. */
  method PopFrame(stack: seq<Frame>, results: seq<(seq<Seg>, Json)>, t: string)
    returns (stack': seq<Frame>, results': seq<(seq<Seg>, Json)>)
    requires stack != []
    ensures results' + Process(stack', t) == results + Process(stack, t)
    ensures StackSize(stack') < StackSize(stack)
  {
    var n := |stack| - 1;
    var x, p := stack[n].0, stack[n].1;
    stack', results' := Expand(x, p, t, stack[..n], results);
    PopShrinks(stack);
    ProcessUnfold(stack, t);
    AppendAssoc(results, Direct(x, p, t), Process(stack', t));
  }

  /** The children of a popped value pushed, and its direct matches reported. */
  method Expand(x: Json, p: seq<Seg>, t: string, stack: seq<Frame>, results: seq<(seq<Seg>, Json)>)
    returns (stack': seq<Frame>, results': seq<(seq<Seg>, Json)>)
    ensures stack' == stack + Children(x, p) && results' == results + Direct(x, p, t)
  {
    stack', results' := stack, results;
    match x {
      case JObj(ms) =>
        stack', results' := PushMembers(ms, p, t, stack', results');
      case JArr(xs) =>
        stack' := PushItems(xs, p, stack');
        assert results' == results + Direct(x, p, t);
      case _ =>
        assert stack' == stack + Children(x, p);
        assert results' == results + Direct(x, p, t);
    }
  }

  /** The search of one parsed block, starting from the block itself at the empty path. */
  method SearchBlock(data: Json, t: string) returns (found: seq<(seq<Seg>, Json)>)
    ensures found == Process([(data, [])], t)
  {
    var stack: seq<Frame> := [(data, [])];
    found := [];
    while stack != []
      invariant found + Process(stack, t) == Process([(data, [])], t)
      decreases StackSize(stack)
    {
      stack, found := PopFrame(stack, found, t);
    }
  }

  /** The reported pairs with their paths as `find_json_with_key` returns them. */
  function Shown(rs: seq<(seq<Seg>, Json)>): (r: seq<(seq<string>, Json)>)
    ensures |r| == |rs| && forall k :: 0 <= k < |rs| ==> r[k] == (RenderPath(rs[k].0), rs[k].1)
  {
    seq(|rs|, k requires 0 <= k < |rs| => (RenderPath(rs[k].0), rs[k].1))
  }

  /** `find_json_with_key(target_key, json_list)` */
  method FindJsonWithKey(t: string, list: seq<Json>) returns (results: seq<(seq<string>, Json)>)
    ensures results == Shown(FindAll(list, t))
  {
    results := [];
    for d := 0 to |list|
      invariant results == Shown(FindAll(list[..d], t))
    {
      var found := SearchBlock(list[d], t);
      FindAllSnoc(list, t, d);
      ShownAppend(FindAll(list[..d], t), found);
      results := results + Shown(found);
    }
    assert list[..|list|] == list;
  }

  /** One more block searched, after the ones before it. */
  lemma FindAllSnoc(list: seq<Json>, t: string, d: nat)
    requires d < |list|
    ensures FindAll(list[..d + 1], t) == FindAll(list[..d], t) + Process([(list[d], [])], t)
  {
    assert list[..d + 1][..d] == list[..d];
  }

  /** Showing distributes over concatenation. */
  lemma ShownAppend(a: seq<(seq<Seg>, Json)>, b: seq<(seq<Seg>, Json)>)
    ensures Shown(a + b) == Shown(a) + Shown(b)
  {
    assert forall k :: 0 <= k < |a + b| ==> Shown(a + b)[k] == (Shown(a) + Shown(b))[k];
  }

  /** Over all blocks: every reported pair is found in some block at its path, which ends with
      the searched key. */
  lemma {:induction false} FindAllSound(list: seq<Json>, t: string)
    requires forall d :: 0 <= d < |list| ==> WellFormed(list[d])
    ensures forall r :: r in FindAll(list, t) ==>
              |r.0| > 0 && r.0[|r.0| - 1] == Key(t) && exists d :: 0 <= d < |list| && At(list[d], r.0) == Some(r.1)
    decreases |list|
  {
    if list != [] {
      var n := |list| - 1;
      FindAllSound(list[..n], t);
      ProcessSound(list[n], [(list[n], [])], t);
      forall r | r in FindAll(list, t)
        ensures |r.0| > 0 && r.0[|r.0| - 1] == Key(t) && exists d :: 0 <= d < |list| && At(list[d], r.0) == Some(r.1)
      {
        if r in FindAll(list[..n], t) {
          var d :| 0 <= d < n && At(list[..n][d], r.0) == Some(r.1);
          assert list[d] == list[..n][d];
        } else {
          assert At(list[n], r.0) == Some(r.1);
        }
      }
    }
  }

  /** Over all blocks: a member named `t` of any object in any block is reported, at its path. */
  lemma {:induction false} FindAllComplete(list: seq<Json>, t: string, d: nat, q: seq<Seg>, ms: seq<Member>, i: nat)
    requires d < |list| && At(list[d], q) == Some(JObj(ms)) && i < |ms| && ms[i].key == t
    ensures (q + [Key(t)], ms[i].val) in FindAll(list, t)
    decreases |list|
  {
    var n := |list| - 1;
    assert FindAll(list, t) == FindAll(list[..n], t) + Process([(list[n], [])], t);
    if d < n {
      assert list[..n][d] == list[d];
      FindAllComplete(list[..n], t, d, q, ms, i);
    } else {
      ProcessComplete([(list[n], [])], t, 0, q, ms, i);
      assert [] + q == q;
    }
  }

  /** A list position is shown as "[i]" and a key as itself. */
  lemma RenderSteps(p: seq<Seg>, k: string, i: nat)
    ensures RenderPath(p + [Key(k)]) == RenderPath(p) + [k]
    ensures RenderPath(p + [Idx(i)]) == RenderPath(p) + ["[" + IntToString(i) + "]"]
  {
  }
}
