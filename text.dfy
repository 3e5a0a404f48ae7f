// String operations of Python's `str` used throughout the tool, over ASCII text.

module Text {
  import opened Wrappers

  // ----- character classes -----

  /** The whitespace characters Python's argument-less `strip()` and `split()` remove (ASCII part). */
  predicate IsSpace(c: char)
  {
    c == ' ' || c == '\t' || c == '\n' || c == '\r' || c as int == 0x0b || c as int == 0x0c
    || (0x1c <= c as int <= 0x1f)
  }

  predicate IsDigitChar(c: char) { '0' <= c <= '9' }
  predicate IsUpperChar(c: char) { 'A' <= c <= 'Z' }
  predicate IsLowerChar(c: char) { 'a' <= c <= 'z' }

  function LowerChar(c: char): char
  {
    if IsUpperChar(c) then (c as int + 32) as char else c
  }

  function UpperChar(c: char): char
  {
    if IsLowerChar(c) then (c as int - 32) as char else c
  }

  /** `s.lower()` */
  function Lower(s: string): (r: string)
    ensures |r| == |s|
    ensures forall i :: 0 <= i < |s| ==> r[i] == LowerChar(s[i])
  {
    if s == [] then [] else [LowerChar(s[0])] + Lower(s[1..])
  }

  /** `s.upper()` */
  function Upper(s: string): (r: string)
    ensures |r| == |s|
    ensures forall i :: 0 <= i < |s| ==> r[i] == UpperChar(s[i])
  {
    if s == [] then [] else [UpperChar(s[0])] + Upper(s[1..])
  }

  /** `s.isupper()`: at least one cased character and no lower-case one. */
  predicate IsUpperStr(s: string)
  {
    (exists i :: 0 <= i < |s| && IsUpperChar(s[i]))
    && (forall i :: 0 <= i < |s| ==> !IsLowerChar(s[i]))
  }

  /** `s.isdigit()`: non-empty and every character a decimal digit. */
  predicate IsDigits(s: string)
  {
    |s| > 0 && forall i :: 0 <= i < |s| ==> IsDigitChar(s[i])
  }

  // ----- prefixes, suffixes, substrings -----

  predicate StartsWith(s: string, p: string) { |p| <= |s| && s[..|p|] == p }
  predicate EndsWith(s: string, p: string) { |p| <= |s| && s[|s| - |p|..] == p }

  /** `sub` occurs in `s` at position `i`. */
  predicate OccursAt(s: string, sub: string, i: int)
  {
    0 <= i <= |s| - |sub| && s[i..i + |sub|] == sub
  }

  /** `sub in s` */
  predicate Contains(s: string, sub: string)
  {
    exists i :: 0 <= i <= |s| && OccursAt(s, sub, i)
  }

  /** `s.find(sub, start)`: the first position at or after `start` where `sub` occurs. */
  function FindFrom(s: string, sub: string, start: nat): (r: Option<nat>)
    decreases |s| - start
    ensures r.Some? ==> start <= r.value && OccursAt(s, sub, r.value)
    ensures r.Some? ==> forall j :: start <= j < r.value ==> !OccursAt(s, sub, j)
    ensures r.None? ==> forall j :: start <= j ==> !OccursAt(s, sub, j)
  {
    if start + |sub| > |s| then None
    else if s[start..start + |sub|] == sub then Some(start)
    else FindFrom(s, sub, start + 1)
  }

  /** `s.index(c)`: the position of the first occurrence of `c`. */
  function IndexOfChar(s: string, c: char): (i: nat)
    requires c in s
    ensures i < |s| && s[i] == c && c !in s[..i]
    decreases |s|
  {
    if s[0] == c then 0
    else
      var j := IndexOfChar(s[1..], c);
      assert s[..j + 1] == [s[0]] + s[1..][..j];
      j + 1
  }

  lemma ContainsIffFind(s: string, sub: string)
    ensures Contains(s, sub) <==> FindFrom(s, sub, 0).Some?
  {
    if FindFrom(s, sub, 0).Some? {
      assert OccursAt(s, sub, FindFrom(s, sub, 0).value);
    }
  }

  // ----- stripping -----

  function LStrip(s: string): (r: string)
    ensures |r| <= |s| && r == s[|s| - |r|..]
    ensures r != [] ==> !IsSpace(r[0])
    ensures forall j :: 0 <= j < |s| - |r| ==> IsSpace(s[j])
  {
    if s != [] && IsSpace(s[0]) then
      var t := LStrip(s[1..]);
      assert s[1..][|s| - 1 - |t|..] == s[|s| - |t|..];
      assert forall j :: 1 <= j < |s| - |t| ==> s[j] == s[1..][j - 1];
      t
    else s
  }

  function RStrip(s: string): (r: string)
    ensures |r| <= |s| && r == s[..|r|]
    ensures r != [] ==> !IsSpace(r[|r| - 1])
    ensures forall j :: |r| <= j < |s| ==> IsSpace(s[j])
  {
    if s != [] && IsSpace(s[|s| - 1]) then RStrip(s[..|s| - 1]) else s
  }

  /** `s.strip()` */
  function Strip(s: string): (r: string)
    ensures |r| <= |s|
    ensures r != [] ==> !IsSpace(r[0]) && !IsSpace(r[|r| - 1])
  {
    RStrip(LStrip(s))
  }

  /** A string is blank when `s.strip()` is empty. */
  predicate IsBlank(s: string) { Strip(s) == [] }

  /** A text holding a non-space character is not blank. */
  lemma NotBlank(s: string, i: nat)
    requires i < |s| && !IsSpace(s[i])
    ensures !IsBlank(s)
  {
    var l := LStrip(s);
    if i >= |s| - |l| {
      assert l[i - (|s| - |l|)] == s[i];
    }
  }

  lemma {:induction false} LStripNoop(s: string)
    requires s == [] || !IsSpace(s[0])
    ensures LStrip(s) == s
  {
  }

  lemma {:induction false} RStripNoop(s: string)
    requires s == [] || !IsSpace(s[|s| - 1])
    ensures RStrip(s) == s
  {
  }

  lemma {:induction false} RStripKeepsFront(s: string)
    requires s != [] && !IsSpace(s[0])
    ensures RStrip(s) != [] && RStrip(s)[0] == s[0]
  {
    if IsSpace(s[|s| - 1]) {
      RStripKeepsFront(s[..|s| - 1]);
    }
  }

  /** `strip` is idempotent. */
  lemma StripIdempotent(s: string)
    ensures Strip(Strip(s)) == Strip(s)
  {
    var r := Strip(s);
    if r != [] {
      LStripNoop(r);
      RStripNoop(r);
    }
  }

  /** `s.strip(chars)` for an explicit set of characters. */
  function StripChars(s: string, chars: set<char>): (r: string)
    ensures |r| <= |s|
    ensures r != [] ==> r[0] !in chars && r[|r| - 1] !in chars
    decreases |s|
  {
    if s != [] && s[0] in chars then StripChars(s[1..], chars)
    else if s != [] && s[|s| - 1] in chars then StripChars(s[..|s| - 1], chars)
    else s
  }

  // ----- splitting and joining -----

  /** `s.split(sep)` for a non-empty separator. */
  function Split(s: string, sep: string): (r: seq<string>)
    requires |sep| > 0
    ensures |r| >= 1
    decreases |s|
  {
    match FindFrom(s, sep, 0)
    case None => [s]
    case Some(i) => [s[..i]] + Split(s[i + |sep|..], sep)
  }

  /** `sep.join(parts)` */
  function Join(parts: seq<string>, sep: string): string
  {
    if parts == [] then []
    else if |parts| == 1 then parts[0]
    else parts[0] + sep + Join(parts[1..], sep)
  }

  /** Splitting and joining back on the same separator gives the original text. */
  lemma {:induction false} JoinSplit(s: string, sep: string)
    requires |sep| > 0
    ensures Join(Split(s, sep), sep) == s
    decreases |s|
  {
    match FindFrom(s, sep, 0)
    case None =>
    case Some(i) =>
      var rest := s[i + |sep|..];
      var tail := Split(rest, sep);
      JoinSplit(rest, sep);
      var parts := [s[..i]] + tail;
      assert Split(s, sep) == parts;
      assert parts[0] == s[..i] && parts[1..] == tail;
      assert Join(parts, sep) == s[..i] + sep + Join(tail, sep);
      assert s == s[..i] + s[i..i + |sep|] + rest;
  }

  /** The first piece of a split is a prefix of the text. */
  lemma SplitHead(s: string, sep: string)
    requires |sep| > 0
    ensures StartsWith(s, Split(s, sep)[0])
  {
  }

  /** The first occurrence is where `FindFrom` stops. */
  lemma FirstOccurrence(s: string, sub: string, i: nat)
    requires OccursAt(s, sub, i)
    requires forall j :: 0 <= j < i ==> !OccursAt(s, sub, j)
    ensures FindFrom(s, sub, 0) == Some(i)
  {
  }

  /** A text whose first `k` characters do not include the first character of `sub` has no
      occurrence of `sub` starting there. */
  lemma NoOccurrenceBefore(s: string, sub: string, k: nat)
    requires 0 < |sub| && k <= |s| && sub[0] !in s[..k]
    ensures forall j :: 0 <= j < k ==> !OccursAt(s, sub, j)
  {
    forall j | 0 <= j < k ensures !OccursAt(s, sub, j) {
      assert s[..k][j] == s[j];
      if j + |sub| <= |s| {
        assert s[j..j + |sub|][0] == s[j];
      }
    }
  }

  /** A text free of the separator character is one piece. */
  lemma SplitFree(s: string, c: char)
    requires c !in s
    ensures Split(s, [c]) == [s]
  {
    forall j | 0 <= j < |s| ensures !OccursAt(s, [c], j) {
      assert s[j..j + 1] == [s[j]];
    }
  }

  /** Where the separator character is first found after appending it and more text. */
  lemma FindSnoc(t: string, c: char, x: string)
    ensures FindFrom(t + [c] + x, [c], 0) == if FindFrom(t, [c], 0).Some? then FindFrom(t, [c], 0) else Some(|t|)
  {
    var s := t + [c] + x;
    forall j | 0 <= j < |t| ensures OccursAt(s, [c], j) == OccursAt(t, [c], j) {
      assert s[j..j + 1] == t[j..j + 1];
    }
    if FindFrom(t, [c], 0).Some? {
      FirstOccurrence(s, [c], FindFrom(t, [c], 0).value);
    } else {
      assert s[|t|..|t| + 1] == [c];
      FirstOccurrence(s, [c], |t|);
    }
  }

  /** Appending the separator character and a piece free of it adds exactly that piece. */
  lemma {:induction false} SplitSnoc(t: string, c: char, x: string)
    requires c !in x
    ensures Split(t + [c] + x, [c]) == Split(t, [c]) + [x]
    decreases |t|
  {
    if FindFrom(t, [c], 0).None? {
      SplitSnocFree(t, c, x);
    } else {
      var i := FindFrom(t, [c], 0).value;
      SplitSnoc(t[i + 1..], c, x);
      SplitSnocStep(t, c, x, i);
    }
  }

  /** `SplitSnoc` when `t` has no separator. */
  lemma SplitSnocFree(t: string, c: char, x: string)
    requires c !in x && FindFrom(t, [c], 0).None?
    ensures Split(t + [c] + x, [c]) == Split(t, [c]) + [x]
  {
    var s := t + [c] + x;
    FindSnoc(t, c, x);
    assert Split(s, [c]) == [s[..|t|]] + Split(s[|t| + 1..], [c]);
    assert s[..|t|] == t;
    assert s[|t| + 1..] == x;
    SplitFree(x, c);
  }

  /** `SplitSnoc` when `t` has a first separator at `i`, given it for the text after `i`. */
  lemma SplitSnocStep(t: string, c: char, x: string, i: nat)
    requires c !in x && FindFrom(t, [c], 0) == Some(i)
    requires Split(t[i + 1..] + [c] + x, [c]) == Split(t[i + 1..], [c]) + [x]
    ensures Split(t + [c] + x, [c]) == Split(t, [c]) + [x]
  {
    var s := t + [c] + x;
    var u := [c] + x;
    FindSnoc(t, c, x);
    AppendAssoc(t, [c], x);
    TakeAppend(t, u, i);
    DropAppend(t, u, i + 1);
    AppendAssoc(t[i + 1..], [c], x);
    assert Split(s, [c]) == [s[..i]] + Split(s[i + 1..], [c]);
    assert Split(t, [c]) == [t[..i]] + Split(t[i + 1..], [c]);
    AppendAssoc([t[..i]], Split(t[i + 1..], [c]), [x]);
  }

  /** Splitting a join of separator-free pieces gives back the pieces. */
  lemma {:induction false} SplitOfJoin(ps: seq<string>, c: char)
    requires ps != [] && forall k :: 0 <= k < |ps| ==> c !in ps[k]
    ensures Split(Join(ps, [c]), [c]) == ps
    decreases |ps|
  {
    if |ps| == 1 {
      SplitFree(ps[0], c);
    } else {
      var init, last := ps[..|ps| - 1], ps[|ps| - 1];
      assert init + [last] == ps;
      SplitOfJoin(init, c);
      JoinSnoc(init, last, [c]);
      var j := Join(init, [c]);
      SplitSnoc(j, c, last);
      assert Split(j + [c] + last, [c]) == init + [last];
    }
  }

  /** Joining one more piece appends the separator and the piece. */
  lemma {:induction false} JoinSnoc(ps: seq<string>, x: string, sep: string)
    requires ps != []
    ensures Join(ps + [x], sep) == Join(ps, sep) + sep + x
    decreases |ps|
  {
    if |ps| == 1 {
      assert (ps + [x])[1..] == [x];
    } else {
      JoinSnoc(ps[1..], x, sep);
      assert (ps + [x])[1..] == ps[1..] + [x];
    }
  }

  /** Non-empty pieces free of the separator character join to a non-empty text that splits
      back into those pieces. */
  lemma JoinLines(ps: seq<string>, c: char)
    ensures (ps != [] && forall k :: 0 <= k < |ps| ==> ps[k] != [] && c !in ps[k]) ==>
              Join(ps, [c]) != [] && Split(Join(ps, [c]), [c]) == ps
  {
    if ps != [] && forall k :: 0 <= k < |ps| ==> ps[k] != [] && c !in ps[k] {
      SplitOfJoin(ps, c);
    }
  }

  lemma AppendAssoc<T>(a: seq<T>, b: seq<T>, c: seq<T>)
    ensures a + b + c == a + (b + c)
  {
  }

  lemma TakeAppend<T>(a: seq<T>, b: seq<T>, k: nat)
    requires k <= |a|
    ensures (a + b)[..k] == a[..k]
  {
  }

  lemma DropAppend<T>(a: seq<T>, b: seq<T>, k: nat)
    requires k <= |a|
    ensures (a + b)[k..] == a[k..] + b
  {
  }

  lemma TakeLeft<T>(a: seq<T>, b: seq<T>)
    ensures (a + b)[..|a|] == a
  {
  }

  lemma DropLeft<T>(a: seq<T>, b: seq<T>)
    ensures (a + b)[|a|..] == b
  {
  }

  lemma DropDrop<T>(s: seq<T>, a: nat, k: nat)
    requires a + k <= |s|
    ensures s[a..][k..] == s[a + k..]
  {
  }

  /** A slice of a copy placed at `i` is the same slice of the copy. */
  lemma SliceWithin<T>(s: seq<T>, m: seq<T>, i: nat, a: nat, b: nat)
    requires i + |m| <= |s| && s[i..i + |m|] == m && a <= b <= |m|
    ensures s[i + a..i + b] == m[a..b]
  {
    var u, v := s[i + a..i + b], m[a..b];
    forall q | 0 <= q < b - a ensures u[q] == v[q] {
      assert s[i + a + q] == s[i..i + |m|][a + q];
    }
    assert u == v;
  }

  /** A copy of `x + y` placed at `i` is a copy of `x` followed by a copy of `y`. */
  lemma SplitCopy<T>(s: seq<T>, x: seq<T>, y: seq<T>, i: nat, j: nat, k: nat)
    requires j == i + |x| && k == j + |y| && k <= |s| && s[i..k] == x + y
    ensures s[i..j] == x && s[j..k] == y
  {
    forall q | 0 <= q < |x| ensures s[i..j][q] == x[q] {
      assert s[i + q] == s[i..k][q];
    }
    forall q | 0 <= q < |y| ensures s[j..k][q] == y[q] {
      assert s[j + q] == s[i..k][|x| + q];
    }
    assert s[i..j] == x;
  }

  /** An occurrence inside a slice is an occurrence in the whole text. */
  lemma OccursInSlice(s: string, sub: string, a: nat, b: nat, j: int)
    requires a <= b <= |s| && OccursAt(s[a..b], sub, j)
    ensures OccursAt(s, sub, a + j)
  {
    var u, v := s[a..b][j..j + |sub|], s[a + j..a + j + |sub|];
    forall k | 0 <= k < |sub| ensures u[k] == v[k] {
    }
    assert u == v;
  }

  /** A slice of a suffix is a slice of the whole text. */
  lemma SliceOfSuffix(s: string, a: nat, j: nat, k: nat)
    requires a + j + k <= |s|
    ensures s[a..][j..j + k] == s[a + j..a + j + k]
  {
    var u, v := s[a..][j..j + k], s[a + j..a + j + k];
    forall m | 0 <= m < k ensures u[m] == v[m] {
    }
    assert u == v;
  }

  /** A suffix that starts after every occurrence contains none. */
  lemma SuffixFree(s: string, sub: string, a: nat)
    requires a <= |s| && forall j :: a <= j ==> !OccursAt(s, sub, j)
    ensures !Contains(s[a..], sub)
  {
    forall j | 0 <= j <= |s| - a ensures !OccursAt(s[a..], sub, j) {
      if j + |sub| <= |s| - a {
        SliceOfSuffix(s, a, j, |sub|);
        assert !OccursAt(s, sub, a + j);
      }
    }
  }

  /** The text before the first occurrence does not contain it. */
  lemma BeforeFirstFree(s: string, sub: string, i: nat)
    requires |sub| > 0 && FindFrom(s, sub, 0) == Some(i)
    ensures !Contains(s[..i], sub)
  {
    forall j | 0 <= j <= i ensures !OccursAt(s[..i], sub, j) {
      if OccursAt(s[0..i], sub, j) {
        OccursInSlice(s, sub, 0, i, j);
      }
    }
  }

  /** A text is its part before `i`, the `k` characters from `i`, and the rest. */
  lemma ThreeParts(s: string, i: nat, k: nat)
    requires i + k <= |s|
    ensures s == s[..i] + s[i..i + k] + s[i + k..]
  {
  }

  /** No piece of a split contains the separator. */
  lemma {:induction false} SplitPiecesFree(s: string, sep: string)
    requires |sep| > 0
    ensures forall k :: 0 <= k < |Split(s, sep)| ==> !Contains(Split(s, sep)[k], sep)
    decreases |s|
  {
    match FindFrom(s, sep, 0)
    case None =>
      ContainsIffFind(s, sep);
    case Some(i) =>
      SplitPiecesFree(s[i + |sep|..], sep);
      BeforeFirstFree(s, sep, i);
  }

  /** `s.split(sep, n)`: at most `n` splits, the rest is kept in the last piece. */
  function SplitN(s: string, sep: string, n: nat): (r: seq<string>)
    requires |sep| > 0
    ensures 1 <= |r| <= n + 1
    decreases n
  {
    if n == 0 then [s]
    else
      match FindFrom(s, sep, 0)
      case None => [s]
      case Some(i) => [s[..i]] + SplitN(s[i + |sep|..], sep, n - 1)
  }

  /** Joining the pieces of a bounded split gives the original text back. */
  lemma {:induction false} JoinSplitN(s: string, sep: string, n: nat)
    requires |sep| > 0
    ensures Join(SplitN(s, sep, n), sep) == s
    decreases n
  {
    if n > 0 && FindFrom(s, sep, 0).Some? {
      var i := FindFrom(s, sep, 0).value;
      JoinSplitN(s[i + |sep|..], sep, n - 1);
      JoinSplitNJoins(s, sep, n, i);
    }
  }

  /** The step of `JoinSplitN`, given the rest after the first separator joins back. */
  lemma JoinSplitNJoins(s: string, sep: string, n: nat, i: nat)
    requires |sep| > 0 && n > 0 && FindFrom(s, sep, 0) == Some(i)
    requires Join(SplitN(s[i + |sep|..], sep, n - 1), sep) == s[i + |sep|..]
    ensures Join(SplitN(s, sep, n), sep) == s
  {
    JoinSplitNStep(s, sep, n, i);
    AroundOccurrence(s, sep, i);
  }

  lemma JoinSplitNStep(s: string, sep: string, n: nat, i: nat)
    requires |sep| > 0 && n > 0 && FindFrom(s, sep, 0) == Some(i)
    ensures Join(SplitN(s, sep, n), sep) == s[..i] + sep + Join(SplitN(s[i + |sep|..], sep, n - 1), sep)
  {
    var t := SplitN(s[i + |sep|..], sep, n - 1);
    assert SplitN(s, sep, n) == [s[..i]] + t;
    JoinCons(s[..i], t, sep);
  }

  lemma EqualChain(a: string, b: string, c: string, d: string)
    requires a == b && b == c && c == d
    ensures a == d
  {
  }

  /** A text is its part before an occurrence, the occurrence and the rest. */
  lemma AroundOccurrence(s: string, sub: string, i: nat)
    requires OccursAt(s, sub, i)
    ensures s[..i] + sub + s[i + |sub|..] == s
  {
    assert s == s[..i] + s[i..i + |sub|] + s[i + |sub|..];
  }

  lemma JoinCons(h: string, t: seq<string>, sep: string)
    requires |t| >= 1
    ensures Join([h] + t, sep) == h + sep + Join(t, sep)
  {
    assert ([h] + t)[1..] == t;
  }

  /** No piece but the last contains the separator, and the last does not either when there
      are at most `n` pieces. */
  ghost predicate PiecesFree(r: seq<string>, sep: string, n: nat)
  {
    (forall k :: 0 <= k < |r| - 1 ==> !Contains(r[k], sep))
    && (0 < |r| <= n ==> !Contains(r[|r| - 1], sep))
  }

  /** Every piece of a bounded split but the last is free of the separator, and so is the last
      when fewer than `n` splits were made. */
  lemma {:induction false} SplitNPiecesFree(s: string, sep: string, n: nat)
    requires |sep| > 0
    ensures PiecesFree(SplitN(s, sep, n), sep, n)
    decreases n
  {
    if n > 0 {
      match FindFrom(s, sep, 0)
      case None =>
        ContainsIffFind(s, sep);
      case Some(i) =>
        SplitNPiecesFree(s[i + |sep|..], sep, n - 1);
        SplitNPiecesFreeStep(s, sep, n, i);
    }
  }

  /** The step of `SplitNPiecesFree`: the piece before the first separator is free of it. */
  lemma SplitNPiecesFreeStep(s: string, sep: string, n: nat, i: nat)
    requires |sep| > 0 && n > 0 && FindFrom(s, sep, 0) == Some(i)
    requires PiecesFree(SplitN(s[i + |sep|..], sep, n - 1), sep, n - 1)
    ensures PiecesFree(SplitN(s, sep, n), sep, n)
  {
    BeforeFirstFree(s, sep, i);
    var t := SplitN(s[i + |sep|..], sep, n - 1);
    var r := SplitN(s, sep, n);
    assert r == [s[..i]] + t;
    forall k | 1 <= k < |r| ensures r[k] == t[k - 1] {
    }
  }

  /** Python's argument-less `s.split()`: maximal runs of non-whitespace characters. */
  function SplitWs(s: string): (r: seq<string>)
    ensures forall k :: 0 <= k < |r| ==> IsWord(r[k])
    decreases |s|
  {
    if s == [] then []
    else if IsSpace(s[0]) then SplitWs(s[1..])
    else
      var w := WordLen(s, 0);
      [s[..w]] + SplitWs(s[w..])
  }

  /** A non-empty run of non-whitespace characters. */
  predicate IsWord(w: string)
  {
    w != [] && forall j :: 0 <= j < |w| ==> !IsSpace(w[j])
  }

  /** The first position from `i` on that is not whitespace (what a regular expression's `\s*`
      consumes). */
  function SkipSpaces(s: string, i: nat): (j: nat)
    requires i <= |s|
    ensures i <= j <= |s| && (j < |s| ==> !IsSpace(s[j]))
    ensures forall q :: i <= q < j ==> IsSpace(s[q])
    decreases |s| - i
  {
    if i < |s| && IsSpace(s[i]) then SkipSpaces(s, i + 1) else i
  }

  /** Length of the run of non-whitespace characters of `t` starting at `i`. */
  function WordLen(t: string, i: nat): (w: nat)
    requires i <= |t|
    ensures i <= w <= |t|
    ensures forall j :: i <= j < w ==> !IsSpace(t[j])
    ensures w < |t| ==> IsSpace(t[w])
    decreases |t| - i
  {
    if i == |t| || IsSpace(t[i]) then i else WordLen(t, i + 1)
  }

  /** `s.replace(pat, rep)`: every non-overlapping occurrence, left to right. */
  function ReplaceAll(s: string, pat: string, rep: string): (r: string)
    requires |pat| > 0
    decreases |s|
  {
    match FindFrom(s, pat, 0)
    case None => s
    case Some(i) => s[..i] + rep + ReplaceAll(s[i + |pat|..], pat, rep)
  }

  /** Replacing at the first occurrence `i`, then in the text `t` that follows it. */
  lemma ReplaceAt(s: string, pat: string, rep: string, i: nat, t: string)
    requires 0 < |pat| && FindFrom(s, pat, 0) == Some(i) && t == s[i + |pat|..]
    ensures ReplaceAll(s, pat, rep) == s[..i] + rep + ReplaceAll(t, pat, rep)
  {
  }

  /** When the pattern's first character does not occur in `h`, the first match is the one right after `h`. */
  lemma ReplaceLead(h: string, pat: string, rep: string, t: string)
    requires 0 < |pat| && pat[0] !in h
    ensures ReplaceAll(h + pat + t, pat, rep) == h + rep + ReplaceAll(t, pat, rep)
  {
    var s := h + pat + t;
    assert s[..|h|] == h;
    NoOccurrenceBefore(s, pat, |h|);
    assert s[|h|..|h| + |pat|] == pat;
    FirstOccurrence(s, pat, |h|);
    assert s[|h| + |pat|..] == t;
    ReplaceAt(s, pat, rep, |h|, t);
  }

  /** Replacing text that does not occur leaves the string unchanged. */
  lemma ReplaceAbsent(s: string, pat: string, rep: string)
    requires |pat| > 0 && !Contains(s, pat)
    ensures ReplaceAll(s, pat, rep) == s
  {
    ContainsIffFind(s, pat);
  }

  /** Replacing text by itself leaves the string unchanged. */
  lemma {:induction false} ReplaceSelf(s: string, pat: string)
    requires |pat| > 0
    ensures ReplaceAll(s, pat, pat) == s
    decreases |s|
  {
    match FindFrom(s, pat, 0)
    case None =>
    case Some(i) =>
      ReplaceSelf(s[i + |pat|..], pat);
      assert s == s[..i] + pat + s[i + |pat|..];
  }

  /** The characters `str.splitlines()` ends a line at. */
  predicate IsLineBreak(c: char)
  {
    c == '\n' || c == '\r' || c as int == 0x0b || c as int == 0x0c || (0x1c <= c as int <= 0x1e)
    || c as int == 0x85 || c as int == 0x2028 || c as int == 0x2029
  }

  /** `text.splitlines()`: a line ends at a line break, "\r\n" counting as one; a final break opens
      no empty line. */
  function SplitLines(s: string): (r: seq<string>)
    ensures forall k :: 0 <= k < |r| ==> NoLineBreak(r[k])
    decreases |s|
  {
    if s == [] then []
    else
      var n := LineLen(s, 0);
      if n == |s| then [s]
      else if s[n] == '\r' && n + 1 < |s| && s[n + 1] == '\n' then [s[..n]] + SplitLines(s[n + 2..])
      else [s[..n]] + SplitLines(s[n + 1..])
  }

  predicate NoLineBreak(line: string)
  {
    forall j :: 0 <= j < |line| ==> !IsLineBreak(line[j])
  }

  function LineLen(s: string, i: nat): (n: nat)
    requires i <= |s|
    ensures i <= n <= |s|
    ensures forall j :: i <= j < n ==> !IsLineBreak(s[j])
    ensures n < |s| ==> IsLineBreak(s[n])
    decreases |s| - i
  {
    if i == |s| || IsLineBreak(s[i]) then i else LineLen(s, i + 1)
  }

  // ----- integers as text -----

  function DigitChar(d: nat): char
    requires d < 10
  {
    "0123456789"[d]
  }

  function DigitVal(c: char): nat
    requires IsDigitChar(c)
  {
    c as int - '0' as int
  }

  /** Decimal digits of a natural number, most significant first, no leading zeros. */
  function NatToDigits(n: nat): (r: string)
    ensures IsDigits(r)
    ensures n > 0 ==> r[0] != '0'
    decreases n
  {
    if n < 10 then [DigitChar(n)] else NatToDigits(n / 10) + [DigitChar(n % 10)]
  }

  /** The value of a digit string. */
  function DigitsValue(s: string): nat
    requires forall i :: 0 <= i < |s| ==> IsDigitChar(s[i])
    decreases |s|
  {
    if s == [] then 0 else 10 * DigitsValue(s[..|s| - 1]) + DigitVal(s[|s| - 1])
  }

  lemma {:induction false} DigitsOfNat(n: nat)
    ensures DigitsValue(NatToDigits(n)) == n
    decreases n
  {
    if n >= 10 {
      DigitsOfNat(n / 10);
      var s := NatToDigits(n);
      assert s[..|s| - 1] == NatToDigits(n / 10);
    }
  }

  /** `str(i)` for an integer. */
  function IntToString(i: int): (r: string)
    ensures r != []
  {
    if i < 0 then "-" + NatToDigits(-i) else NatToDigits(i)
  }

  /** `int(s)` on text: optional surrounding whitespace, optional sign, one or more digits. */
  function ParseInt(s: string): (r: Option<int>)
  {
    var t := Strip(s);
    if IsDigits(t) then Some(DigitsValue(t))
    else if |t| > 1 && (t[0] == '-' || t[0] == '+') && IsDigits(t[1..]) then
      var v: int := DigitsValue(t[1..]);
      Some(if t[0] == '-' then -v else v)
    else None
  }

  /** `int(str(i)) == i` */
  lemma IntRoundTrip(i: int)
    ensures ParseInt(IntToString(i)) == Some(i)
  {
    var s := IntToString(i);
    var d := NatToDigits(if i < 0 then -i else i);
    assert s[0] != ' ' && !IsSpace(s[0]) && !IsSpace(s[|s| - 1]);
    LStripNoop(s);
    RStripNoop(s);
    DigitsOfNat(if i < 0 then -i else i);
    if i < 0 {
      assert s[1..] == d;
    }
  }
}
