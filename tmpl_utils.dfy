// The template helpers (cli/common/util/tmpl_utils.py): substituting real ids for the `000`
// placeholders of a CLI template, reading a CLI template as rulebook values, cutting the CABLINK
// template into per-id blocks, and merging the two product-code tables.

module TmplUtils {
  import opened Wrappers
  import opened Text
  import opened Tree

  // ----- find_distname_by_class -----

  /** The object's class attribute, namespace removed, is `moClass`; a missing class matches nothing. */
  predicate OfClass(mo: MO, moClass: string)
  {
    mo.cls != "" && ClassTail(mo.cls) == moClass
  }

  /** `found`: the distNames of the objects of the class, in document order */
  function DnsOfClass(mos: seq<MO>, moClass: string): (r: seq<string>)
    ensures |r| <= |mos|
    decreases |mos|
  {
    if mos == [] then []
    else
      var n := |mos| - 1;
      DnsOfClass(mos[..n], moClass) + (if OfClass(mos[n], moClass) then [mos[n].dn] else [])
  }

  /** Index of the first object of the class */
  function FirstOfClass(mos: seq<MO>, moClass: string): (r: Option<nat>)
    ensures r.Some? ==> r.value < |mos| && OfClass(mos[r.value], moClass)
    ensures r.Some? ==> forall j :: 0 <= j < r.value ==> !OfClass(mos[j], moClass)
    ensures r.None? ==> forall j :: 0 <= j < |mos| ==> !OfClass(mos[j], moClass)
    decreases |mos|
  {
    if mos == [] then None
    else if OfClass(mos[0], moClass) then Some(0)
    else
      var rest := FirstOfClass(mos[1..], moClass);
      assert forall j :: 1 <= j < |mos| ==> mos[j] == mos[1..][j - 1];
      if rest.None? then None else Some(rest.value + 1)
  }

  /** The first collected distName is the first object's of the class. */
  lemma {:induction false} DnsOfClassFirst(mos: seq<MO>, moClass: string)
    ensures DnsOfClass(mos, moClass) == [] <==> FirstOfClass(mos, moClass).None?
    ensures DnsOfClass(mos, moClass) != [] ==> DnsOfClass(mos, moClass)[0] == mos[FirstOfClass(mos, moClass).value].dn
    decreases |mos|
  {
    if mos != [] {
      var n := |mos| - 1;
      var t := mos[..n];
      DnsOfClassFirst(t, moClass);
      assert forall j :: 0 <= j < n ==> t[j] == mos[j];
      var f := FirstOfClass(mos, moClass);
      if DnsOfClass(t, moClass) != [] {
        var i := FirstOfClass(t, moClass).value;
        assert OfClass(mos[i], moClass);
        assert f.Some? && f.value == i;
      } else if OfClass(mos[n], moClass) {
        assert f.Some? && f.value == n;
      }
    }
  }

  /** `find_distname_by_class`: the distName of the first object of the class, if any (a missing
      distName reads ""). */
  function DistnameByClass(mos: seq<MO>, moClass: string): Option<string>
  {
    var found := DnsOfClass(mos, moClass);
    if found == [] then None else Some(found[0])
  }

  /** `find_distname_by_class`'s loop */
  method FindDistnameByClass(moClass: string, doc: CmData) returns (r: Option<string>)
    ensures r == DistnameByClass(doc.mos, moClass)
    ensures r.None? <==> FirstOfClass(doc.mos, moClass).None?
    ensures r.Some? ==> r.value == doc.mos[FirstOfClass(doc.mos, moClass).value].dn
  {
    var found: seq<string> := [];
    var i := 0;
    while i < |doc.mos|
      invariant 0 <= i <= |doc.mos| && found == DnsOfClass(doc.mos[..i], moClass)
    {
      assert doc.mos[..i + 1][..i] == doc.mos[..i];
      var mo := doc.mos[i];
      if mo.cls != "" && ClassTail(mo.cls) == moClass {
        found := found + [mo.dn];
      }
      i := i + 1;
    }
    assert doc.mos[..i] == doc.mos;
    DnsOfClassFirst(doc.mos, moClass);
    r := if found == [] then None else Some(found[0]);
  }

  // ----- apply_class_based_mapping -----

  /** A line `<CLASS> 000`: two words, the second "000", the first upper-case. */
  predicate IsPlaceholder(tokens: seq<string>)
  {
    |tokens| == 2 && tokens[1] == "000" && IsUpperStr(tokens[0])
  }

  /** `distname.split("/")[-1].split("-")[-1]` */
  function IdOfDn(dn: string): string
  {
    AfterLast(AfterLast(dn, '/'), '-')
  }

  /** One space per leading whitespace character of the line */
  function Indent(line: string): (r: string)
    ensures |r| == |line| - |LStrip(line)| && forall j :: 0 <= j < |r| ==> r[j] == ' '
  {
    Spaces(|line| - |LStrip(line)|)
  }

  function Spaces(n: nat): (r: string)
    ensures |r| == n && forall j :: 0 <= j < n ==> r[j] == ' '
  {
    if n == 0 then [] else Spaces(n - 1) + " "
  }

  /** One line of `apply_class_based_mapping`: a placeholder line whose class has an object with a
      distName becomes `<indent><CLASS> <id>`; every other line is kept as it is. */
  function MapLine(line: string, mos: seq<MO>): string
  {
    MapTokens(line, SplitWs(Strip(line)), mos)
  }

  /** `MapLine` once the line's words are known */
  function MapTokens(line: string, tokens: seq<string>, mos: seq<MO>): string
  {
    if IsPlaceholder(tokens) then
      var d := DistnameByClass(mos, tokens[0]);
      if d.Some? && d.value != "" then Indent(line) + tokens[0] + " " + IdOfDn(d.value) else line
    else line
  }

  /** Stripping a run of spaces off the front of a text that then starts with a word leaves
      that text. */
  lemma {:induction false} LStripIndent(p: string, rest: string)
    requires rest != [] && !IsSpace(rest[0])
    requires forall j :: 0 <= j < |p| ==> p[j] == ' '
    ensures LStrip(p + rest) == rest
    decreases |p|
  {
    if p != [] {
      assert (p + rest)[1..] == p[1..] + rest;
      LStripIndent(p[1..], rest);
    } else {
      assert p + rest == rest;
    }
  }

  /** A rewritten line keeps the line's indentation width and starts, after it, with the class. */
  lemma MapLineIndent(line: string, mos: seq<MO>)
    ensures var r := MapLine(line, mos);
            |r| - |LStrip(r)| == |line| - |LStrip(line)|
    ensures var tokens := SplitWs(Strip(line));
            MapLine(line, mos) != line ==> IsPlaceholder(tokens) && LStrip(MapLine(line, mos)) == tokens[0] + " " + IdOfDn(DistnameByClass(mos, tokens[0]).value)
  {
    var tokens := SplitWs(Strip(line));
    assert tokens != [] ==> IsWord(tokens[0]);
    MapTokensIndent(line, tokens, mos);
  }

  lemma MapTokensIndent(line: string, tokens: seq<string>, mos: seq<MO>)
    requires tokens != [] ==> IsWord(tokens[0])
    ensures var r := MapTokens(line, tokens, mos);
            |r| - |LStrip(r)| == |line| - |LStrip(line)|
    ensures MapTokens(line, tokens, mos) != line ==>
              IsPlaceholder(tokens)
              && LStrip(MapTokens(line, tokens, mos)) == tokens[0] + " " + IdOfDn(DistnameByClass(mos, tokens[0]).value)
  {
    if IsPlaceholder(tokens) {
      var d := DistnameByClass(mos, tokens[0]);
      if d.Some? && d.value != "" {
        var rest := tokens[0] + " " + IdOfDn(d.value);
        assert rest[0] == tokens[0][0];
        var ind := Indent(line);
        assert MapTokens(line, tokens, mos) == ind + rest;
        LStripIndent(ind, rest);
      }
    }
  }

  /** The mapped lines, one per input line */
  function MappedLines(lines: seq<string>, mos: seq<MO>): (r: seq<string>)
    ensures |r| == |lines|
  {
    seq(|lines|, i requires 0 <= i < |lines| => MapLine(lines[i], mos))
  }

  /** The body of `apply_class_based_mapping`'s loop, for one line */
  method MapOneLine(line: string, doc: CmData) returns (newLine: string)
    ensures newLine == MapLine(line, doc.mos)
  {
    newLine := line;
    var tokens := SplitWs(Strip(line));
    if |tokens| == 2 && tokens[1] == "000" && IsUpperStr(tokens[0]) {
      var distname := FindDistnameByClass(tokens[0], doc);
      if distname.Some? && distname.value != "" {
        var moId := IdOfDn(distname.value);
        newLine := Indent(line) + tokens[0] + " " + moId;
      }
    }
  }

  /** `apply_class_based_mapping`'s loop; the lines are joined back with "\n". */
  method ApplyClassBasedMapping(text: string, doc: CmData) returns (out: string)
    ensures out == Join(MappedLines(SplitLines(text), doc.mos), "\n")
  {
    var lines := SplitLines(text);
    var result: seq<string> := [];
    var i := 0;
    while i < |lines|
      invariant 0 <= i <= |lines| && |result| == i
      invariant forall k :: 0 <= k < i ==> result[k] == MapLine(lines[k], doc.mos)
    {
      var newLine := MapOneLine(lines[i], doc);
      result := result + [newLine];
      i := i + 1;
    }
    assert result == MappedLines(lines, doc.mos);
    out := Join(result, "\n");
  }

  // ----- load_cli_template_as_rule -----

  /** `s.split(maxsplit=1)`: the first word and, if anything follows, the rest after the blanks. */
  function SplitOnce(s: string): (r: seq<string>)
    ensures |r| <= 2
    ensures |r| == 2 ==> IsWord(r[0]) && r[1] != [] && !IsSpace(r[1][0])
  {
    var t := LStrip(s);
    if t == [] then []
    else
      var w := WordLen(t, 0);
      LeadingWord(t);
      var rest := LStrip(t[w..]);
      if rest == [] then [t[..w]] else [t[..w], rest]
  }

  /** A text that starts with a non-blank starts with a word. */
  lemma LeadingWord(t: string)
    requires t != [] && !IsSpace(t[0])
    ensures IsWord(t[..WordLen(t, 0)])
  {
    var w := WordLen(t, 0);
    forall j | 0 <= j < w ensures !IsSpace(t[..w][j]) {
      assert t[..w][j] == t[j];
    }
  }

  /** `val[1:-1]` when the value is wrapped in double or single quotes */
  function Unquote(v: string): (r: string)
    ensures |r| <= |v|
  {
    if |v| > 0 && ((v[0] == '"' && v[|v| - 1] == '"') || (v[0] == '\'' && v[|v| - 1] == '\'')) then
      if |v| >= 2 then v[1..|v| - 1] else []
    else v
  }

  /** What the reader has read so far: class → key → value (the `{"value": v}` record is `v`),
      and the class being filled, if any. */
  datatype TmplState = TmplState(result: map<string, map<string, string>>, current: Option<string>)

  /** The reader's invariant: the current class is an upper-case class of the result. */
  predicate TmplOk(st: TmplState)
  {
    (st.current.Some? ==> st.current.value in st.result && IsUpperStr(st.current.value))
    && forall k :: k in st.result ==> IsUpperStr(k)
  }

  /** What one template line says: nothing (blank, comment, or not two words), `exit-all`,
      a class line `<CLASS> <digits>`, or a parameter line `<key> <value>`. */
  datatype TmplLine = Skip | ExitAll | ClassLine(cls: string) | Pair(key: string, val: string)

  function ClassifyTmpl(raw: string): (r: TmplLine)
    ensures r.ClassLine? ==> IsUpperStr(r.cls)
  {
    var line := Strip(raw);
    if line == [] || line[0] == '#' then Skip
    else if Lower(line) == "exit-all" then ExitAll
    else
      var tokens := SplitOnce(line);
      if |tokens| != 2 then Skip
      else
        var key := tokens[0];
        var val := Unquote(tokens[1]);
        if IsUpperStr(key) && IsDigits(val) then ClassLine(key) else Pair(key, val)
  }

  /** `exit-all`, in any case and with any surrounding blanks, reads as `exit-all`. */
  lemma ExitAllLine(raw: string)
    requires Lower(Strip(raw)) == "exit-all"
    ensures ClassifyTmpl(raw) == ExitAll
  {
    var line := Strip(raw);
    assert |line| == 8;
    assert LowerChar(line[0]) == 'e';
  }

  /** One line of `load_cli_template_as_rule` */
  function TmplStep(st: TmplState, raw: string): (r: TmplState)
    ensures TmplOk(st) ==> TmplOk(r)
  {
    TmplApply(st, ClassifyTmpl(raw))
  }

  /** What a classified line does to the reader */
  function TmplApply(st: TmplState, l: TmplLine): (r: TmplState)
    ensures TmplOk(st) && (l.ClassLine? ==> IsUpperStr(l.cls)) ==> TmplOk(r)
  {
    match l
    case Skip => st
    case ExitAll => st.(current := None)
    case ClassLine(key) =>
      TmplState(if key in st.result then st.result else st.result[key := map[]], Some(key))
    case Pair(key, val) =>
      if st.current.Some? && st.current.value != "" then
        var c := st.current.value;
        var inner := if c in st.result then st.result[c] else map[];
        st.(result := st.result[c := inner[key := val]])
      else st
  }

  /** The reader after every line */
  function TmplFold(lines: seq<string>): (r: TmplState)
    ensures TmplOk(r)
    decreases |lines|
  {
    if lines == [] then TmplState(map[], None)
    else TmplStep(TmplFold(lines[..|lines| - 1]), lines[|lines| - 1])
  }

  /** A parameter line under an open class sets that key of that class, later lines winning over
      earlier ones, and touches no other class. */
  lemma TmplPairSets(st: TmplState, key: string, val: string)
    requires TmplOk(st) && st.current.Some?
    ensures var c := st.current.value;
            var r := TmplApply(st, Pair(key, val));
            r.current == st.current && r.result.Keys == st.result.Keys
            && r.result[c] == st.result[c][key := val]
            && forall k :: k in st.result && k != c ==> r.result[k] == st.result[k]
  {
    assert IsUpperStr(st.current.value);
  }

  /** A class line opens its class and keeps whatever any class already held. */
  lemma TmplClassOpens(st: TmplState, cls: string)
    ensures var r := TmplApply(st, ClassLine(cls));
            r.current == Some(cls) && r.result.Keys == st.result.Keys + {cls}
            && (cls !in st.result ==> r.result[cls] == map[])
            && forall k :: k in st.result ==> r.result[k] == st.result[k]
  {
  }

  /** A parameter line with no open class changes nothing. */
  lemma TmplPairOutsideClass(st: TmplState, key: string, val: string)
    requires st.current.None?
    ensures TmplApply(st, Pair(key, val)) == st
  {
  }

  /** `load_cli_template_as_rule` over the file's lines (the file itself is not modelled). */
  method LoadCliTemplateAsRule(lines: seq<string>) returns (result: map<string, map<string, string>>)
    ensures result == TmplFold(lines).result
    ensures forall k :: k in result ==> IsUpperStr(k)
  {
    result := map[];
    var current: Option<string> := None;
    var i := 0;
    while i < |lines|
      invariant 0 <= i <= |lines| && TmplState(result, current) == TmplFold(lines[..i])
    {
      assert lines[..i + 1][..i] == lines[..i];
      match ClassifyTmpl(lines[i]) {
        case Skip =>
        case ExitAll =>
          current := None;
        case ClassLine(key) =>
          current := Some(key);
          if key !in result {
            result := result[key := map[]];
          }
        case Pair(key, val) =>
          if current.Some? && current.value != "" {
            var c := current.value;
            var inner := if c in result then result[c] else map[];
            result := result[c := inner[key := val]];
          }
      }
      i := i + 1;
    }
    assert lines[..i] == lines;
  }

  // ----- load_cablink_blocks -----

  const CablinkPrefix := "### CABLINK_"

  function Marker(cid: string): string
  {
    CablinkPrefix + cid + " ###"
  }

  /** The text of one CABLINK block: from the first marker of the id up to the next
      "### CABLINK_" after it, or the end of the file. */
  function BlockText(text: string, cid: string): (r: Option<string>)
    ensures r.None? <==> FindFrom(text, Marker(cid), 0).None?
    ensures r.Some? ==>
              var start := FindFrom(text, Marker(cid), 0).value;
              |r.value| >= 1 && start + |r.value| <= |text| && r.value == text[start..start + |r.value|]
              && (start + |r.value| == |text| || OccursAt(text, CablinkPrefix, start + |r.value|))
              && forall j :: 1 <= j ==> !OccursAt(r.value, CablinkPrefix, j)
  {
    match FindFrom(text, Marker(cid), 0)
    case None => None
    case Some(start) =>
      var end := FindFrom(text, CablinkPrefix, start + 1);
      var len := if end.None? then |text| - start else end.value - start;
      var block := text[start..start + len];
      forall j | 1 <= j ensures !OccursAt(block, CablinkPrefix, j) {
        if OccursAt(block, CablinkPrefix, j) {
          OccursInSlice(text, CablinkPrefix, start, start + len, j);
        }
      }
      Some(block)
  }

  /** A block's lines: the block stripped, split into lines, each right-stripped */
  function BlockLines(block: string): (r: seq<string>)
    ensures |r| == |SplitLines(Strip(block))|
  {
    var ls := SplitLines(Strip(block));
    seq(|ls|, i requires 0 <= i < |ls| => RStrip(ls[i]))
  }

  /** `load_cablink_blocks` over the template text (fetching it from the server is not modelled):
      an id has a block exactly when its marker occurs, and the block is the text from the marker
      to the next marker. */
  method LoadCablinkBlocks(text: string, ids: seq<string>) returns (blocks: map<string, seq<string>>)
    ensures forall cid :: cid in blocks <==> cid in ids && FindFrom(text, Marker(cid), 0).Some?
    ensures forall cid :: cid in blocks ==> blocks[cid] == BlockLines(BlockText(text, cid).value)
  {
    blocks := map[];
    var i := 0;
    while i < |ids|
      invariant 0 <= i <= |ids|
      invariant forall cid :: cid in blocks <==> cid in ids[..i] && FindFrom(text, Marker(cid), 0).Some?
      invariant forall cid :: cid in blocks ==> blocks[cid] == BlockLines(BlockText(text, cid).value)
    {
      assert ids[..i + 1] == ids[..i] + [ids[i]];
      var cid := ids[i];
      var block := BlockText(text, cid);
      if block.Some? {
        blocks := blocks[cid := BlockLines(block.value)];
      }
      i := i + 1;
    }
    assert ids[..i] == ids;
  }

  // ----- load_prod_code_maps -----

  /** `{**prod_dict, **rmod_dict}`; a table that could not be loaded is empty. */
  function ProdCodeMaps<V>(prod: Option<map<string, V>>, rmod: Option<map<string, V>>): (r: map<string, V>)
    ensures forall k :: k in r <==> (prod.Some? && k in prod.value) || (rmod.Some? && k in rmod.value)
    ensures forall k :: rmod.Some? && k in rmod.value ==> r[k] == rmod.value[k]
    ensures forall k :: k in r && (rmod.None? || k !in rmod.value) ==> r[k] == prod.value[k]
  {
    var p := if prod.Some? then prod.value else map[];
    var m := if rmod.Some? then rmod.value else map[];
    p + m
  }
}
