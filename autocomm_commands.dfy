// The autocomm commands of the client (cli/common/mixins/autocomm_commands.py): the HEADER and
// BODY regions of a generated script, the layout of the INIT sheets (header fill-forward and
// the grouping of parameter columns under their managed object), the DU-type table, the
// validation of INIT-BTS and INIT-CELL rows and the numbering of the generated script files.

module AutocommCommands {
  import opened Wrappers
  import opened Text
  import opened Session
  import Tree
  import ToolCommands
  import AdminCliCommands

  // ----- script regions -----

  const HeaderMarker := "### HEADER ###"
  const BodyMarker := "### BODY ###"

  const MsgHeaderUsage := "usage: show-script-header <file name>"
  const MsgRunUsage := "usage: autocomm-run-script <file name>"
  const MsgNoHeader := "[notice] the HEADER section is empty or missing."

  function MsgFetchFailed(name: string): string
  {
    "[오류] could not fetch the file from the server: " + name
  }

  /** A stripped line that opens the header or the body. */
  predicate IsMarker(t: string) { t == HeaderMarker || t == BodyMarker }

  /** Every line stripped of surrounding blanks; the markers are recognised on these. */
  function StripAll(lines: seq<string>): (r: seq<string>)
    ensures |r| == |lines|
    decreases |lines|
  {
    if lines == [] then [] else StripAll(lines[..|lines| - 1]) + [Strip(lines[|lines| - 1])]
  }

  lemma {:induction false} StripAllAt(lines: seq<string>, k: nat)
    requires k < |lines|
    ensures StripAll(lines)[k] == Strip(lines[k])
    decreases |lines|
  {
    var n := |lines| - 1;
    assert StripAll(lines) == StripAll(lines[..n]) + [Strip(lines[n])];
    if k < n {
      StripAllAt(lines[..n], k);
      assert lines[..n][k] == lines[k];
    }
  }

  /** Some stripped line before line `j` is the HEADER marker. */
  function SeenHeader(st: seq<string>, j: nat): bool
    requires j <= |st|
  {
    j > 0 && (SeenHeader(st, j - 1) || st[j - 1] == HeaderMarker)
  }

  /** Some stripped line before line `j` is the BODY marker. */
  function SeenBody(st: seq<string>, j: nat): bool
    requires j <= |st|
  {
    j > 0 && (SeenBody(st, j - 1) || st[j - 1] == BodyMarker)
  }

  /** Some stripped line before line `j` is a marker of either kind. */
  function SeenMarker(st: seq<string>, j: nat): bool
    requires j <= |st|
  {
    j > 0 && (SeenMarker(st, j - 1) || IsMarker(st[j - 1]))
  }

  lemma {:induction false} SeenHeaderWitness(st: seq<string>, j: nat)
    requires j <= |st|
    ensures SeenHeader(st, j) <==> exists k :: 0 <= k < j && st[k] == HeaderMarker
    decreases j
  {
    if j > 0 {
      SeenHeaderWitness(st, j - 1);
    }
  }

  lemma {:induction false} SeenBodyWitness(st: seq<string>, j: nat)
    requires j <= |st|
    ensures SeenBody(st, j) <==> exists k :: 0 <= k < j && st[k] == BodyMarker
    decreases j
  {
    if j > 0 {
      SeenBodyWitness(st, j - 1);
    }
  }

  lemma {:induction false} SeenMarkerWitness(st: seq<string>, j: nat)
    requires j <= |st|
    ensures SeenMarker(st, j) <==> exists k :: 0 <= k < j && IsMarker(st[k])
    decreases j
  {
    if j > 0 {
      SeenMarkerWitness(st, j - 1);
    }
  }

  lemma {:induction false} SeenHeaderFrom(st: seq<string>, j: nat)
    requires 0 < j <= |st| && st[0] == HeaderMarker
    ensures SeenHeader(st, j)
    decreases j
  {
    if j > 1 {
      SeenHeaderFrom(st, j - 1);
    }
  }

  lemma {:induction false} NoBodyBefore(st: seq<string>, m: nat)
    requires m <= |st| && forall k :: 0 <= k < m ==> st[k] != BodyMarker
    ensures !SeenBody(st, m)
    decreases m
  {
    if m > 0 {
      NoBodyBefore(st, m - 1);
    }
  }

  lemma {:induction false} SeenBodyAfter(st: seq<string>, n: nat, j: nat)
    requires n < j <= |st| && st[n] == BodyMarker
    ensures SeenBody(st, j)
    decreases j
  {
    if j > n + 1 {
      SeenBodyAfter(st, n, j - 1);
    }
  }

  lemma {:induction false} NoMarkerYet(st: seq<string>, m: nat)
    requires m <= |st| && forall k :: 0 <= k < m ==> !IsMarker(st[k])
    ensures !SeenMarker(st, m)
    decreases m
  {
    if m > 0 {
      NoMarkerYet(st, m - 1);
    }
  }

  /** Behind a marker-free preamble, a line has seen a marker exactly when it has in the rest. */
  lemma {:induction false} SeenMarkerShift(pre: seq<string>, rest: seq<string>, j: nat)
    requires j <= |rest| && forall k :: 0 <= k < |pre| ==> !IsMarker(pre[k])
    ensures SeenMarker(pre + rest, |pre| + j) == SeenMarker(rest, j)
    decreases j
  {
    var st := pre + rest;
    if j == 0 {
      forall k | 0 <= k < |pre| ensures !IsMarker(st[k]) {
        assert st[k] == pre[k];
      }
      NoMarkerYet(st, |pre|);
    } else {
      SeenMarkerShift(pre, rest, j - 1);
      assert st[|pre| + j - 1] == rest[j - 1];
    }
  }

  /** What line `j` contributes to the header view: the line without trailing blanks, when it
      lies after a HEADER marker, before every BODY marker, and is not a HEADER marker itself. */
  function HeaderEntry(lines: seq<string>, st: seq<string>, j: nat): Option<string>
    requires |st| == |lines| && j < |lines|
  {
    if !SeenBody(st, j + 1) && SeenHeader(st, j) && st[j] != HeaderMarker
    then Some(RStrip(lines[j])) else None
  }

  function HeaderEntries(lines: seq<string>, st: seq<string>): (r: seq<Option<string>>)
    requires |st| == |lines|
    ensures |r| == |lines|
    ensures forall j :: 0 <= j < |lines| ==> r[j] == HeaderEntry(lines, st, j)
  {
    seq(|lines|, j requires 0 <= j < |lines| => HeaderEntry(lines, st, j))
  }

  /** The header lines `show-script-header` prints. */
  function HeaderView(lines: seq<string>): seq<string>
  {
    Somes(HeaderEntries(lines, StripAll(lines)))
  }

  /** A line is in the header view exactly when some line strictly after a HEADER marker, before
      every BODY marker and not itself a HEADER marker gives it. */
  lemma HeaderViewMembers(lines: seq<string>, st: seq<string>, x: string)
    requires |st| == |lines|
    ensures x in Somes(HeaderEntries(lines, st)) <==>
              exists j :: 0 <= j < |lines| && !SeenBody(st, j + 1) && SeenHeader(st, j)
                          && st[j] != HeaderMarker && RStrip(lines[j]) == x
  {
    var es := HeaderEntries(lines, st);
    SomesMembers(es, x);
    if exists j :: 0 <= j < |lines| && !SeenBody(st, j + 1) && SeenHeader(st, j)
                   && st[j] != HeaderMarker && RStrip(lines[j]) == x {
      var j :| 0 <= j < |lines| && !SeenBody(st, j + 1) && SeenHeader(st, j)
               && st[j] != HeaderMarker && RStrip(lines[j]) == x;
      assert es[j] == Some(x);
    }
  }

  /** Every line with its trailing blanks removed. */
  function RStripAll(lines: seq<string>): (r: seq<string>)
    ensures |r| == |lines| && forall j :: 0 <= j < |lines| ==> r[j] == RStrip(lines[j])
  {
    seq(|lines|, j requires 0 <= j < |lines| => RStrip(lines[j]))
  }

  /** A run of present values gives back the values. */
  lemma {:induction false} SomesAllPresent(es: seq<Option<string>>, xs: seq<string>)
    requires |es| == |xs| && forall j :: 0 <= j < |es| ==> es[j] == Some(xs[j])
    ensures Somes(es) == xs
    decreases |es|
  {
    if es != [] {
      var n := |es| - 1;
      SomesAllPresent(es[..n], xs[..n]);
      assert xs[..n] + [xs[n]] == xs;
    }
  }

  /** On stripped lines opening with the HEADER marker and holding the BODY marker at `n`, the
      header entries are the lines in between, without their trailing blanks. */
  lemma HeaderBetween(lines: seq<string>, st: seq<string>, n: nat)
    requires |st| == |lines| && 0 < n < |st|
    requires st[0] == HeaderMarker && st[n] == BodyMarker
    requires forall k :: 0 < k < n ==> !IsMarker(st[k])
    ensures Somes(HeaderEntries(lines, st)) == RStripAll(lines[1..n])
  {
    var es := HeaderEntries(lines, st);
    SomesThree(es, n);
    assert es[..1][0] == HeaderEntry(lines, st, 0);
    SomesNone(es[..1]);
    HeaderInside(lines, st, n);
    HeaderAfter(lines, st, n);
  }

  /** The present values of the first entry, of those up to `n` and of the rest, in order. */
  lemma SomesThree(es: seq<Option<string>>, n: nat)
    requires 0 < n <= |es|
    ensures Somes(es) == Somes(es[..1]) + Somes(es[1..n]) + Somes(es[n..])
  {
    assert es == es[..1] + es[1..n] + es[n..];
    SomesAppend(es[..1] + es[1..n], es[n..]);
    SomesAppend(es[..1], es[1..n]);
  }

  lemma HeaderInside(lines: seq<string>, st: seq<string>, n: nat)
    requires |st| == |lines| && 0 < n < |st|
    requires st[0] == HeaderMarker && st[n] == BodyMarker
    requires forall k :: 0 < k < n ==> !IsMarker(st[k])
    ensures Somes(HeaderEntries(lines, st)[1..n]) == RStripAll(lines[1..n])
  {
    var es := HeaderEntries(lines, st);
    var mid := es[1..n];
    forall j | 0 <= j < n - 1
      ensures mid[j] == Some(RStripAll(lines[1..n])[j])
    {
      assert lines[1..n][j] == lines[j + 1];
      assert mid[j] == es[j + 1];
      NoBodyBefore(st, j + 2);
      SeenHeaderFrom(st, j + 1);
    }
    SomesAllPresent(mid, RStripAll(lines[1..n]));
  }

  lemma HeaderAfter(lines: seq<string>, st: seq<string>, n: nat)
    requires |st| == |lines| && n < |st| && st[n] == BodyMarker
    ensures Somes(HeaderEntries(lines, st)[n..]) == []
  {
    var es := HeaderEntries(lines, st);
    forall j | 0 <= j < |lines| - n ensures es[n..][j].None? {
      assert es[n..][j] == es[n + j];
      SeenBodyAfter(st, n, n + j + 1);
    }
    SomesNone(es[n..]);
  }

  /** Stripping line by line commutes with joining scripts. */
  lemma {:induction false} StripAllAppend(a: seq<string>, b: seq<string>)
    ensures StripAll(a + b) == StripAll(a) + StripAll(b)
  {
    forall k | 0 <= k < |a + b| ensures StripAll(a + b)[k] == (StripAll(a) + StripAll(b))[k] {
      StripAllAppendAt(a, b, k);
    }
  }

  lemma {:induction false} StripAllAppendAt(a: seq<string>, b: seq<string>, k: nat)
    requires k < |a| + |b|
    ensures StripAll(a + b)[k] == (StripAll(a) + StripAll(b))[k]
  {
    var sa, sb := StripAll(a), StripAll(b);
    StripAllAt(a + b, k);
    if k < |a| {
      assert (a + b)[k] == a[k] && (sa + sb)[k] == sa[k];
      StripAllAt(a, k);
    } else {
      assert (a + b)[k] == b[k - |a|] && (sa + sb)[k] == sb[k - |a|];
      StripAllAt(b, k - |a|);
    }
  }

  /** Between a HEADER marker and a BODY marker, the view is exactly the lines in between,
      without their trailing blanks, whatever follows. */
  lemma HeaderBetweenMarkers(h: string, hs: seq<string>, b: string, rest: seq<string>)
    requires Strip(h) == HeaderMarker && Strip(b) == BodyMarker
    requires forall k :: 0 <= k < |hs| ==> !IsMarker(Strip(hs[k]))
    ensures HeaderView([h] + hs + [b] + rest) == RStripAll(hs)
  {
    var lines := [h] + hs + [b] + rest;
    SandwichMarkers(h, hs, b, rest);
    HeaderBetween(lines, StripAll(lines), |hs| + 1);
    MiddleSlice(h, hs, b, rest);
  }

  lemma MiddleSlice(h: string, hs: seq<string>, b: string, rest: seq<string>)
    ensures ([h] + hs + [b] + rest)[1..|hs| + 1] == hs
  {
  }

  lemma SandwichMarkers(h: string, hs: seq<string>, b: string, rest: seq<string>)
    requires Strip(h) == HeaderMarker && Strip(b) == BodyMarker
    requires forall k :: 0 <= k < |hs| ==> !IsMarker(Strip(hs[k]))
    ensures var st := StripAll([h] + hs + [b] + rest);
            st[0] == HeaderMarker && st[|hs| + 1] == BodyMarker
            && forall k :: 0 < k < |hs| + 1 ==> !IsMarker(st[k])
  {
    var st := StripAll([h] + hs + [b] + rest);
    StrippedSandwich(h, hs, b, rest);
    forall k | 0 < k < |hs| + 1 ensures !IsMarker(st[k]) {
      StripAllAt(hs, k - 1);
    }
  }

  lemma StrippedSandwich(h: string, hs: seq<string>, b: string, rest: seq<string>)
    ensures var st := StripAll([h] + hs + [b] + rest);
            st[0] == Strip(h) && st[|hs| + 1] == Strip(b)
            && forall k :: 0 <= k < |hs| ==> st[k + 1] == StripAll(hs)[k]
  {
    var l := [h] + hs + [b] + rest;
    StripAllAt(l, 0);
    StripAllAt(l, |hs| + 1);
    forall k | 0 <= k < |hs| ensures StripAll(l)[k + 1] == StripAll(hs)[k] {
      StripAllAt(l, k + 1);
      StripAllAt(hs, k);
      assert l[k + 1] == hs[k];
    }
  }

  /** The header scan of `show-script-header`: a HEADER marker opens the header, a BODY marker
      ends the scan. */
  method HeaderLines(lines: seq<string>) returns (header: seq<string>)
    ensures header == HeaderView(lines)
  {
    var st := StripAll(lines);
    ghost var es := HeaderEntries(lines, st);
    header := [];
    var inHeader := false;
    var i := 0;
    while i < |lines|
      invariant 0 <= i <= |lines|
      invariant header == Somes(es[..i])
      invariant inHeader == SeenHeader(st, i)
      invariant !SeenBody(st, i)
    {
      if st[i] == BodyMarker {
        HeaderStopsAtBody(lines, st, i);
        return;
      }
      HeaderStep(lines, st, i);
      if st[i] == HeaderMarker {
        inHeader := true;
      } else if inHeader {
        header := header + [RStrip(lines[i])];
      }
      i := i + 1;
    }
    assert es[..i] == es;
  }

  /** A line before every BODY marker that is not one adds its entry to the view so far. */
  lemma HeaderStep(lines: seq<string>, st: seq<string>, i: nat)
    requires |st| == |lines| && i < |lines| && st[i] != BodyMarker && !SeenBody(st, i)
    ensures var es := HeaderEntries(lines, st);
            Somes(es[..i + 1]) == Somes(es[..i]) + (if st[i] != HeaderMarker && SeenHeader(st, i) then [RStrip(lines[i])] else [])
    ensures !SeenBody(st, i + 1)
    ensures SeenHeader(st, i + 1) == (SeenHeader(st, i) || st[i] == HeaderMarker)
  {
    var es := HeaderEntries(lines, st);
    assert es[..i + 1][..i] == es[..i];
  }

  /** At the first BODY marker the view is complete. */
  lemma HeaderStopsAtBody(lines: seq<string>, st: seq<string>, i: nat)
    requires |st| == |lines| && i < |lines| && st[i] == BodyMarker
    ensures var es := HeaderEntries(lines, st); Somes(es) == Somes(es[..i])
  {
    var es := HeaderEntries(lines, st);
    forall j | i <= j < |lines| ensures es[j].None? {
      SeenBodyWitness(st, j + 1);
    }
    assert es == es[..i] + es[i..];
    SomesAppend(es[..i], es[i..]);
    SomesNone(es[i..]);
  }

  /** `do_show_script_header`: `remote` holds the files the server can send, by name (a
      download fails exactly for the others); the result is the text printed. */
  method ShowScriptHeader(s: CliSession, arg: string, remote: map<string, string>) returns (out: Option<string>)
    modifies s`errors
    ensures Strip(arg) == [] ==> out.None? && s.errors == old(s.errors) + [ErrorLine(MsgHeaderUsage)]
    ensures Strip(arg) != [] && Strip(arg) !in remote ==>
              out.None? && s.errors == old(s.errors) + [ErrorLine(MsgFetchFailed(Strip(arg)))]
    ensures Strip(arg) != [] && Strip(arg) in remote ==>
              var h := HeaderView(SplitLines(remote[Strip(arg)]));
              s.errors == old(s.errors) && out == Some(if h == [] then MsgNoHeader else Join(h, "\n"))
  {
    var filename := Strip(arg);
    if filename == [] {
      s.PerrorM(MsgHeaderUsage);
      return None;
    }
    if filename !in remote {
      s.PerrorM(MsgFetchFailed(filename));
      return None;
    }
    var header := HeaderLines(SplitLines(remote[filename]));
    out := Some(if header == [] then MsgNoHeader else Join(header, "\n"));
  }

  /** Line `j` is a body line: some earlier line is a marker of either kind, and it is not one. */
  predicate InBody(st: seq<string>, j: nat)
    requires j < |st|
  {
    SeenMarker(st, j) && !IsMarker(st[j])
  }

  /** What each line turns into when the script's body runs. */
  function BodyEntries(st: seq<string>, known: set<string>): (r: seq<Option<ToolCommands.ScriptAction>>)
    ensures |r| == |st|
    ensures forall j :: 0 <= j < |st| ==>
              r[j] == if InBody(st, j) then ToolCommands.LineAction(st[j], known) else None
  {
    seq(|st|, j requires 0 <= j < |st| =>
      if InBody(st, j) then ToolCommands.LineAction(st[j], known) else None)
  }

  /** The actions `autocomm-run-script` dispatches, in order. */
  function BodyPlan(lines: seq<string>, known: set<string>): seq<ToolCommands.ScriptAction>
  {
    Somes(BodyEntries(StripAll(lines), known))
  }

  /** The stripped body lines that are neither blank nor comments; the last of them is what
      `last_script_line` ends as. */
  function KeptEntries(st: seq<string>): (r: seq<Option<string>>)
    ensures |r| == |st|
    ensures forall j :: 0 <= j < |st| ==>
              r[j] == if InBody(st, j) && st[j] != [] && st[j][0] != '#' then Some(st[j]) else None
  {
    seq(|st|, j requires 0 <= j < |st| =>
      if InBody(st, j) && st[j] != [] && st[j][0] != '#' then Some(st[j]) else None)
  }

  /** The last of `xs`, or `prev` when there is none. */
  function LastOr(prev: Option<string>, xs: seq<string>): (r: Option<string>)
    ensures xs == [] ==> r == prev
    ensures xs != [] ==> r == Some(xs[|xs| - 1])
  {
    if xs == [] then prev else Some(xs[|xs| - 1])
  }

  /** An action is dispatched exactly when some body line gives it. */
  lemma BodyPlanMembers(st: seq<string>, known: set<string>, a: ToolCommands.ScriptAction)
    ensures a in Somes(BodyEntries(st, known)) <==>
              exists j :: 0 <= j < |st| && InBody(st, j) && ToolCommands.LineAction(st[j], known) == Some(a)
  {
    var es := BodyEntries(st, known);
    SomesMembers(es, a);
    if exists j :: 0 <= j < |st| && InBody(st, j) && ToolCommands.LineAction(st[j], known) == Some(a) {
      var j :| 0 <= j < |st| && InBody(st, j) && ToolCommands.LineAction(st[j], known) == Some(a);
      assert es[j] == Some(a);
    }
  }

  /** Lines before the first marker are ignored: a marker-free preamble changes nothing. */
  lemma PreambleIgnoredOn(pre: seq<string>, rest: seq<string>, known: set<string>)
    requires forall k :: 0 <= k < |pre| ==> !IsMarker(pre[k])
    ensures Somes(BodyEntries(pre + rest, known)) == Somes(BodyEntries(rest, known))
  {
    var es := BodyEntries(pre + rest, known);
    PreambleQuiet(pre, rest, known);
    PreambleShift(pre, rest, known);
    SomesSplit(es, |pre|);
    SomesNone(es[..|pre|]);
  }

  lemma PreambleQuiet(pre: seq<string>, rest: seq<string>, known: set<string>)
    requires forall k :: 0 <= k < |pre| ==> !IsMarker(pre[k])
    ensures forall j :: 0 <= j < |pre| ==> BodyEntries(pre + rest, known)[..|pre|][j].None?
  {
    var st := pre + rest;
    var es := BodyEntries(st, known);
    forall k | 0 <= k < |pre| ensures !IsMarker(st[k]) {
      assert st[k] == pre[k];
    }
    forall j | 0 <= j < |pre| ensures es[..|pre|][j].None? {
      assert es[..|pre|][j] == es[j];
      NoMarkerYet(st, j);
    }
  }

  lemma PreambleShift(pre: seq<string>, rest: seq<string>, known: set<string>)
    requires forall k :: 0 <= k < |pre| ==> !IsMarker(pre[k])
    ensures BodyEntries(pre + rest, known)[|pre|..] == BodyEntries(rest, known)
  {
    var st := pre + rest;
    var es := BodyEntries(st, known);
    var n := |pre|;
    forall j | 0 <= j < |rest| ensures es[n..][j] == BodyEntries(rest, known)[j] {
      assert es[n..][j] == es[n + j];
      SeenMarkerShift(pre, rest, j);
      assert st[n + j] == rest[j];
    }
  }

  /** A script's lines before its first marker are never run. */
  lemma PreambleIgnored(pre: seq<string>, rest: seq<string>, known: set<string>)
    requires forall k :: 0 <= k < |pre| ==> !IsMarker(Strip(pre[k]))
    ensures BodyPlan(pre + rest, known) == BodyPlan(rest, known)
  {
    StripAllAppend(pre, rest);
    forall k | 0 <= k < |pre| ensures !IsMarker(StripAll(pre)[k]) {
      StripAllAt(pre, k);
    }
    PreambleIgnoredOn(StripAll(pre), StripAll(rest), known);
  }

  /** The body loop of `autocomm-run-script` over the stripped lines: the actions to dispatch,
      and `last_script_line`. */
  method RunBody(s: CliSession, st: seq<string>, known: set<string>) returns (plan: seq<ToolCommands.ScriptAction>)
    modifies s`lastScriptLine
    ensures plan == Somes(BodyEntries(st, known))
    ensures s.lastScriptLine == LastOr(old(s.lastScriptLine), Somes(KeptEntries(st)))
  {
    ghost var es := BodyEntries(st, known);
    ghost var ks := KeptEntries(st);
    plan := [];
    var inBody := false;
    var i := 0;
    while i < |st|
      invariant 0 <= i <= |st|
      invariant plan == Somes(es[..i])
      invariant s.lastScriptLine == LastOr(old(s.lastScriptLine), Somes(ks[..i]))
      invariant inBody == SeenMarker(st, i)
    {
      BodyStep(st, known, i);
      var line := st[i];
      if line == BodyMarker || line == HeaderMarker {
        inBody := true;
      } else if inBody && line != [] && line[0] != '#' {
        s.lastScriptLine := Some(line);
        var action := ToolCommands.LineAction(line, known);
        if action.Some? {
          plan := plan + [action.value];
        }
      }
      i := i + 1;
    }
    assert es[..i] == es;
    assert ks[..i] == ks;
  }

  /** One line more of the body loop: its action and its kept text, if any, join the lists. */
  lemma BodyStep(st: seq<string>, known: set<string>, i: nat)
    requires i < |st|
    ensures var es := BodyEntries(st, known);
            Somes(es[..i + 1]) == Somes(es[..i]) + (if es[i].Some? then [es[i].value] else [])
    ensures var ks := KeptEntries(st);
            Somes(ks[..i + 1]) == Somes(ks[..i]) + (if ks[i].Some? then [ks[i].value] else [])
    ensures SeenMarker(st, i + 1) == (SeenMarker(st, i) || IsMarker(st[i]))
  {
    var es := BodyEntries(st, known);
    var ks := KeptEntries(st);
    assert es[..i + 1][..i] == es[..i];
    assert ks[..i + 1][..i] == ks[..i];
  }

  /** What `do_autocomm_run_script` leaves: the actions dispatched, the error log and
      `last_script_line`. A blank argument and a failed download are reported. */
  function RunScriptAfter(arg: string, remote: map<string, string>, known: set<string>,
                          errors: seq<string>, last: Option<string>): (seq<ToolCommands.ScriptAction>, seq<string>, Option<string>)
  {
    var filename := Strip(arg);
    if filename == [] then ([], errors + [ErrorLine(MsgRunUsage)], last)
    else if filename !in remote then ([], errors + [ErrorLine(MsgFetchFailed(filename))], last)
    else
      var lines := SplitLines(remote[filename]);
      (BodyPlan(lines, known), errors, LastOr(last, Somes(KeptEntries(StripAll(lines)))))
  }

  /** `do_autocomm_run_script`: the working tree is replaced by an empty one first, then the
      fetched script's body lines are dispatched; `remote` holds the files the server can send. */
  method AutocommRunScript(s: CliSession, arg: string, remote: map<string, string>, known: set<string>)
    returns (plan: seq<ToolCommands.ScriptAction>)
    modifies s`xml, s`errors, s`lastScriptLine
    ensures (plan, s.errors, s.lastScriptLine) == RunScriptAfter(arg, remote, known, old(s.errors), old(s.lastScriptLine))
    ensures s.xml == Tree.EmptyDoc
  {
    s.xml := Tree.EmptyDoc;
    plan := [];
    var filename := Strip(arg);
    if filename == [] {
      s.PerrorM(MsgRunUsage);
      return;
    }
    if filename !in remote {
      s.PerrorM(MsgFetchFailed(filename));
      return;
    }
    plan := RunBody(s, StripAll(SplitLines(remote[filename])), known);
    assert s.errors == old(s.errors);
  }

  // ----- sheet layout -----

  /** The last column at or before `i` whose header cell holds a value. */
  function LastKnown(h: seq<Option<string>>, i: nat): (r: Option<nat>)
    requires i < |h|
    ensures r.Some? ==> r.value <= i && h[r.value].Some? && forall k :: r.value < k <= i ==> h[k].None?
    ensures r.None? ==> forall k :: 0 <= k <= i ==> h[k].None?
    decreases i
  {
    if h[i].Some? then Some(i) else if i == 0 then None else LastKnown(h, i - 1)
  }

  /** The header row once every empty cell has taken the value on its left. */
  function FilledForward(h: seq<Option<string>>): (r: seq<Option<string>>)
    ensures |r| == |h|
    ensures forall i :: 0 <= i < |h| ==> r[i] == (var k := LastKnown(h, i); if k.Some? then h[k.value] else None)
  {
    seq(|h|, i requires 0 <= i < |h| => var k := LastKnown(h, i); if k.Some? then h[k.value] else None)
  }

  /** The fill-forward loop of `_parse_header_and_key_rows_*`, in place on the header row. */
  method FillForward(a: array<Option<string>>)
    modifies a
    ensures a[..] == FilledForward(old(a[..]))
  {
    ghost var h := a[..];
    ghost var f := FilledForward(h);
    for i := 0 to a.Length
      invariant forall k :: 0 <= k < i ==> a[k] == f[k]
      invariant forall k :: i <= k < a.Length ==> a[k] == h[k]
    {
      if a[i].None? && i > 0 {
        a[i] := a[i - 1];
      }
    }
    assert a[..] == f;
  }

  /** A filled cell keeps its value; an empty one takes the nearest filled cell on its left, and
      stays empty only when every cell up to it is empty. */
  lemma FilledForwardCells(h: seq<Option<string>>, i: nat)
    requires i < |h|
    ensures h[i].Some? ==> FilledForward(h)[i] == h[i]
    ensures h[i].None? && i > 0 ==> FilledForward(h)[i] == FilledForward(h)[i - 1]
    ensures FilledForward(h)[i].None? <==> forall k :: 0 <= k <= i ==> h[k].None?
  {
    var k := LastKnown(h, i);
    if k.Some? {
      assert FilledForward(h)[i] == h[k.value];
    }
  }

  /** Filling forward twice is filling forward once. */
  lemma FillForwardIdempotent(h: seq<Option<string>>)
    ensures FilledForward(FilledForward(h)) == FilledForward(h)
  {
    var f := FilledForward(h);
    forall i | 0 <= i < |h| ensures FilledForward(f)[i] == f[i] {
      FilledForwardCells(h, i);
      FilledForwardCells(f, i);
      if f[i].None? {
        forall k | 0 <= k <= i ensures f[k].None? {
          FilledForwardCells(h, k);
        }
      }
    }
  }

  /** The managed object a column belongs to: the last non-empty header at or before it. */
  function CurrentMo(headers: seq<Option<string>>, c: nat): (r: Option<string>)
    requires c < |headers|
    ensures r.Some? ==> r.value != "" && exists k :: 0 <= k <= c && headers[k] == r
    ensures r.None? ==> forall k :: 0 <= k <= c ==> !Truthy(headers[k])
    decreases c
  {
    if Truthy(headers[c]) then headers[c] else if c == 0 then None else CurrentMo(headers, c - 1)
  }

  /** The non-empty headers, column by column. */
  function HeaderNames(headers: seq<Option<string>>): (r: seq<Option<string>>)
    ensures |r| == |headers|
    ensures forall c :: 0 <= c < |headers| ==> r[c] == if Truthy(headers[c]) then headers[c] else None
  {
    seq(|headers|, c requires 0 <= c < |headers| => if Truthy(headers[c]) then headers[c] else None)
  }

  /** The managed objects of a sheet, in order of first appearance. */
  function MoOrder(headers: seq<Option<string>>): seq<string>
  {
    Dedup(Somes(HeaderNames(headers)))
  }

  /** The (parameter, column) pairs of one managed object, in column order. */
  function ColumnEntries(headers: seq<Option<string>>, keys: seq<Option<string>>, mo: string): (r: seq<Option<(string, nat)>>)
    requires |keys| == |headers|
    ensures |r| == |headers|
    ensures forall c :: 0 <= c < |headers| ==>
              r[c] == if Truthy(keys[c]) && CurrentMo(headers, c) == Some(mo) then Some((keys[c].value, c)) else None
  {
    seq(|headers|, c requires 0 <= c < |headers| =>
      if Truthy(keys[c]) && CurrentMo(headers, c) == Some(mo) then Some((keys[c].value, c)) else None)
  }

  function ColumnsOf(headers: seq<Option<string>>, keys: seq<Option<string>>, mo: string): seq<(string, nat)>
    requires |keys| == |headers|
  {
    Somes(ColumnEntries(headers, keys, mo))
  }

  /** A (parameter, column) pair is listed under `mo` exactly when the column has that key and
      `mo` is the most recent managed object header at that column. */
  lemma ColumnsOfMembers(headers: seq<Option<string>>, keys: seq<Option<string>>, mo: string, p: string, c: nat)
    requires |keys| == |headers|
    ensures (p, c) in ColumnsOf(headers, keys, mo) <==>
              c < |headers| && keys[c] == Some(p) && p != "" && CurrentMo(headers, c) == Some(mo)
  {
    var es := ColumnEntries(headers, keys, mo);
    SomesMembers(es, (p, c));
    if (p, c) in ColumnsOf(headers, keys, mo) {
      var i :| 0 <= i < |es| && es[i] == Some((p, c));
      assert i == c;
    }
    if c < |headers| && keys[c] == Some(p) && p != "" && CurrentMo(headers, c) == Some(mo) {
      assert es[c] == Some((p, c));
    }
  }

  lemma ColumnsSnoc(headers: seq<Option<string>>, keys: seq<Option<string>>, m: string, c: nat)
    requires |keys| == |headers| && c < |headers|
    ensures Somes(ColumnEntries(headers, keys, m)[..c + 1])
            == Somes(ColumnEntries(headers, keys, m)[..c])
               + (if Truthy(keys[c]) && CurrentMo(headers, c) == Some(m) then [(keys[c].value, c)] else [])
  {
    var es := ColumnEntries(headers, keys, m);
    assert es[..c + 1][..c] == es[..c];
  }

  lemma NamesSnoc(headers: seq<Option<string>>, c: nat)
    requires c < |headers|
    ensures var seen := Somes(HeaderNames(headers)[..c]);
            Dedup(Somes(HeaderNames(headers)[..c + 1]))
            == if Truthy(headers[c]) && headers[c].value !in seen then Dedup(seen) + [headers[c].value] else Dedup(seen)
  {
    var names := HeaderNames(headers);
    assert names[..c + 1][..c] == names[..c];
    var seen := Somes(names[..c]);
    assert names[..c + 1][c] == names[c];
    if Truthy(headers[c]) {
      assert Somes(names[..c + 1]) == seen + [headers[c].value];
      DedupSnoc(seen, headers[c].value);
    } else {
      assert Somes(names[..c + 1]) == seen;
    }
  }

  /** A managed object not yet seen among the headers has no columns yet. */
  lemma UnseenMoEmpty(headers: seq<Option<string>>, keys: seq<Option<string>>, m: string, c: nat)
    requires |keys| == |headers| && c <= |headers|
    requires m !in Somes(HeaderNames(headers)[..c])
    ensures Somes(ColumnEntries(headers, keys, m)[..c]) == []
  {
    var names := HeaderNames(headers);
    var es := ColumnEntries(headers, keys, m);
    forall j | 0 <= j < c ensures es[..c][j].None? {
      assert es[..c][j] == es[j];
      var cm := CurrentMo(headers, j);
      if cm == Some(m) {
        var k :| 0 <= k <= j && headers[k] == cm;
        assert names[..c][k] == cm;
        SomesMembers(names[..c], m);
      }
    }
    SomesNone(es[..c]);
  }

  /** One column of `_build_mo_columns_*`. */
  method ColumnStep(headers: seq<Option<string>>, keys: seq<Option<string>>, c: nat,
                    order: seq<string>, cols: map<string, seq<(string, nat)>>, cur: Option<string>)
    returns (order': seq<string>, cols': map<string, seq<(string, nat)>>, cur': Option<string>)
    requires |keys| == |headers| && c < |headers|
    requires order == Dedup(Somes(HeaderNames(headers)[..c]))
    requires forall mo :: mo in cols <==> mo in order
    requires forall mo :: mo in cols ==> cols[mo] == Somes(ColumnEntries(headers, keys, mo)[..c])
    requires cur == if c == 0 then None else CurrentMo(headers, c - 1)
    requires cur.Some? ==> cur.value in cols
    ensures order' == Dedup(Somes(HeaderNames(headers)[..c + 1]))
    ensures forall mo :: mo in cols' <==> mo in order'
    ensures forall mo :: mo in cols' ==> cols'[mo] == Somes(ColumnEntries(headers, keys, mo)[..c + 1])
    ensures cur' == CurrentMo(headers, c)
    ensures cur'.Some? ==> cur'.value in cols'
  {
    order', cols', cur' := ColumnOpen(headers, keys, c, order, cols, cur);
    cols' := ColumnKey(headers, keys, c, cols', cur');
  }

  /** A truthy header opens its managed object, appended to the order when it is new. */
  method ColumnOpen(headers: seq<Option<string>>, keys: seq<Option<string>>, c: nat,
                    order: seq<string>, cols: map<string, seq<(string, nat)>>, cur: Option<string>)
    returns (order': seq<string>, cols': map<string, seq<(string, nat)>>, cur': Option<string>)
    requires |keys| == |headers| && c < |headers|
    requires order == Dedup(Somes(HeaderNames(headers)[..c]))
    requires forall mo :: mo in cols <==> mo in order
    requires forall mo :: mo in cols ==> cols[mo] == Somes(ColumnEntries(headers, keys, mo)[..c])
    requires cur == if c == 0 then None else CurrentMo(headers, c - 1)
    requires cur.Some? ==> cur.value in cols
    ensures order' == Dedup(Somes(HeaderNames(headers)[..c + 1]))
    ensures forall mo :: mo in cols' <==> mo in order'
    ensures forall mo :: mo in cols' ==> cols'[mo] == Somes(ColumnEntries(headers, keys, mo)[..c])
    ensures cur' == CurrentMo(headers, c)
    ensures cur'.Some? ==> cur'.value in cols'
  {
    NamesSnoc(headers, c);
    order', cols', cur' := order, cols, cur;
    var mo := headers[c];
    if Truthy(mo) {
      cur' := mo;
      if mo.value !in cols {
        UnseenMoEmpty(headers, keys, mo.value, c);
        order' := order + [mo.value];
        cols' := cols[mo.value := []];
      }
    }
  }

  /** A truthy parameter key is added to the current managed object's columns. */
  method ColumnKey(headers: seq<Option<string>>, keys: seq<Option<string>>, c: nat,
                   cols: map<string, seq<(string, nat)>>, cur: Option<string>)
    returns (cols': map<string, seq<(string, nat)>>)
    requires |keys| == |headers| && c < |headers|
    requires forall mo :: mo in cols ==> cols[mo] == Somes(ColumnEntries(headers, keys, mo)[..c])
    requires cur == CurrentMo(headers, c) && (cur.Some? ==> cur.value in cols)
    ensures forall mo :: mo in cols' <==> mo in cols
    ensures forall mo :: mo in cols' ==> cols'[mo] == Somes(ColumnEntries(headers, keys, mo)[..c + 1])
  {
    cols' := cols;
    var key := keys[c];
    if cur.Some? && Truthy(key) {
      cols' := cols[cur.value := cols[cur.value] + [(key.value, c)]];
    }
    forall m | m in cols' ensures cols'[m] == Somes(ColumnEntries(headers, keys, m)[..c + 1]) {
      ColumnsSnoc(headers, keys, m, c);
    }
  }

  /** `_build_mo_columns_bts` (and its identical cell-sheet copy): the managed objects in order
      of first appearance, each with its (parameter, column) pairs in column order. */
  method BuildMoColumns(headers: seq<Option<string>>, keys: seq<Option<string>>)
    returns (order: seq<string>, cols: map<string, seq<(string, nat)>>)
    requires |keys| == |headers|
    ensures order == MoOrder(headers)
    ensures forall mo :: mo in cols <==> mo in order
    ensures forall mo :: mo in cols ==> cols[mo] == ColumnsOf(headers, keys, mo)
  {
    order, cols := [], map[];
    var cur: Option<string> := None;
    var c := 0;
    while c < |headers|
      invariant 0 <= c <= |headers|
      invariant order == Dedup(Somes(HeaderNames(headers)[..c]))
      invariant forall mo :: mo in cols <==> mo in order
      invariant forall mo :: mo in cols ==> cols[mo] == Somes(ColumnEntries(headers, keys, mo)[..c])
      invariant cur == if c == 0 then None else CurrentMo(headers, c - 1)
      invariant cur.Some? ==> cur.value in cols
    {
      order, cols, cur := ColumnStep(headers, keys, c, order, cols, cur);
      c := c + 1;
    }
    assert HeaderNames(headers)[..c] == HeaderNames(headers);
    forall mo | mo in cols ensures cols[mo] == ColumnsOf(headers, keys, mo) {
      assert ColumnEntries(headers, keys, mo)[..c] == ColumnEntries(headers, keys, mo);
    }
  }

  // ----- DU type and object aliases -----

  /** A sheet cell as the parser sees it: empty, text, or a whole number. */
  datatype Cell = NoValue | Text(s: string) | Number(n: int)

  /** Python truthiness of a cell. */
  predicate CellTruthy(c: Cell)
  {
    match c
    case NoValue => false
    case Text(t) => t != ""
    case Number(n) => n != 0
  }

  /** `str(c)` */
  function ShowCell(c: Cell): string
  {
    match c
    case NoValue => "None"
    case Text(t) => t
    case Number(n) => IntToString(n)
  }

  /** `_determine_du_type_bts`: non-text product names give no DU type. */
  function DetermineDuType(prod: Cell, rat: string): (r: Option<string>)
    ensures r.Some? ==> prod.Text? && r.value in {"du20", "FSMF", "du10"}
    ensures !prod.Text? ==> r.None?
    ensures Upper(rat) != "4G" && Upper(rat) != "5G" ==> r.None?
  {
    if !prod.Text? then None
    else
      var p := Upper(Strip(prod.s));
      if StartsWith(p, "AS") && Upper(rat) == "4G" then Some("du20")
      else if StartsWith(p, "FS") && Upper(rat) == "4G" then Some("FSMF")
      else if p == "ASIK" && Upper(rat) == "5G" then Some("du10")
      else if p == "ASIL" && Upper(rat) == "5G" then Some("du20")
      else None
  }

  /** An upper-cased text and each of its prefixes are their own upper case. */
  lemma UpperPrefixStable(q: string, k: nat)
    requires k <= |q|
    ensures Upper(Upper(q)[..k]) == Upper(q)[..k]
  {
    var u := Upper(q)[..k];
    forall i | 0 <= i < k ensures Upper(u)[i] == u[i] {
      assert u[i] == UpperChar(q[i]);
    }
  }

  /** The sheet's DU table and the one `admincli` applies to the RU type agree, up to case, for
      every product name. */
  lemma DuTypeTablesAgree(prod: string, rat: string)
    requires Upper(rat) == "4G" || Upper(rat) == "5G"
    ensures var r := DetermineDuType(Text(prod), rat);
            (if r.Some? then Some(Upper(r.value)) else None) == AdminCliCommands.DuOfRu(rat, Upper(Strip(prod)))
  {
    if Upper(rat) == "4G" {
      DuTypeTablesAgree4G(prod, rat);
    } else {
      UpperOfDuNames();
    }
  }

  lemma DuTypeTablesAgree4G(prod: string, rat: string)
    requires Upper(rat) == "4G"
    ensures var r := DetermineDuType(Text(prod), rat);
            (if r.Some? then Some(Upper(r.value)) else None) == AdminCliCommands.DuOfRu(rat, Upper(Strip(prod)))
  {
    UpperOfDuNames();
    var p := Upper(Strip(prod));
    var k := if |p| < 2 then |p| else 2;
    UpperPrefixStable(Strip(prod), k);
    assert StartsWith(p, "AS") <==> p[..k] == "AS";
    assert StartsWith(p, "FS") <==> p[..k] == "FS";
  }

  lemma UpperOfDuNames()
    ensures Upper("du20") == "DU20" && Upper("du10") == "DU10" && Upper("FSMF") == "FSMF"
  {
  }

  /** `_mo_alias_map_for_bts`: on 5G the sheet's LNBTS columns stand for NRBTS. A non-zero
      number has no `strip` (None); `radio_type or ""` makes the other falsy cells "". */
  function MoAlias(rat: Cell): (r: Option<map<string, string>>)
    ensures r.None? <==> rat.Number? && rat.n != 0
    ensures r.Some? ==> r.value.Keys <= {"LNBTS"}
    ensures r.Some? ==> ("LNBTS" in r.value <==> rat.Text? && Upper(Strip(rat.s)) == "5G")
    ensures r.Some? && "LNBTS" in r.value ==> r.value["LNBTS"] == "NRBTS"
  {
    match rat
    case Number(n) => if n != 0 then None else Some(map[])
    case NoValue => Some(map[])
    case Text(t) => if Upper(Strip(t)) == "5G" then Some(map["LNBTS" := "NRBTS"]) else Some(map[])
  }

  /** `mo_alias.get(mo, mo)` */
  function Canon(alias: map<string, string>, mo: string): string
  {
    if mo in alias then alias[mo] else mo
  }

  /** The dummy CABLINK block an LTE BTS script carries: none, the FSMF one that links the
      cabinet's SMOD, or the DU20 one that links the FHS. */
  datatype LteDummy = NoLteDummy | SmodDummy | FhsDummy

  /** `_build_script_bts_lte` as written: its DU20 branch compares the bound method
      `du_type.upper` with a string, which never holds. */
  function LteDummyAsWritten(duType: string): (r: LteDummy)
    ensures r != FhsDummy
    ensures r == SmodDummy <==> Upper(duType) == "FSMF"
  {
    if Upper(duType) == "FSMF" then SmodDummy else NoLteDummy
  }

  /** The dummy block as the DU20 branch evidently means it: chosen on the upper-cased DU type. */
  function LteDummyFor(duType: string): (r: LteDummy)
    ensures r == SmodDummy <==> Upper(duType) == "FSMF"
    ensures r == FhsDummy <==> Upper(duType) == "DU20"
  {
    if Upper(duType) == "FSMF" then SmodDummy
    else if Upper(duType) == "DU20" then FhsDummy
    else NoLteDummy
  }

  /** A DU20 BTS ("du20" or "DU20" in the sheet) gets no dummy block as written, and the FHS one
      once corrected; every other DU type is treated alike by both. */
  lemma Du20DummyDropped(duType: string)
    ensures Upper(duType) == "DU20" ==> LteDummyAsWritten(duType) == NoLteDummy && LteDummyFor(duType) == FhsDummy
    ensures Upper(duType) != "DU20" ==> LteDummyAsWritten(duType) == LteDummyFor(duType)
  {
    if Upper(duType) == "DU20" {
      assert Upper(duType)[0] != "FSMF"[0];
    }
  }
}
