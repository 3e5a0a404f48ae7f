// The server's commit helpers (cli_server/common/utils/commit_utils.py): reading the formula
// catalog with its `::`-joined keys split into tuples, and translating the parameters of a
// tree through the server copies of the formula functions (module Formula).

module ServerCommitUtils {
  import opened Wrappers
  import opened Text
  import opened Tree
  import Formula
  import CommitUtils

  /** The server catalog: the formula of each (full class attribute, parameter name). */
  type ServerDict = map<seq<string>, Formula.Formula>

  /** Splitting on `::` loses nothing: distinct keys give distinct tuples. */
  lemma SplitKeyInjective(a: string, b: string)
    requires Split(a, "::") == Split(b, "::")
    ensures a == b
  {
    JoinSplit(a, "::");
    JoinSplit(b, "::");
  }

  /** `load_param_dict`: no file gives the empty catalog; otherwise every key is split on `::`. */
  function LoadParamDict<V>(raw: Option<map<string, V>>): (r: map<seq<string>, V>)
    ensures raw.None? ==> r == map[]
    ensures raw.Some? ==> forall k :: k in raw.value ==> Split(k, "::") in r && r[Split(k, "::")] == raw.value[k]
    ensures raw.Some? ==> forall t :: t in r ==> Join(t, "::") in raw.value && r[t] == raw.value[Join(t, "::")]
  {
    if raw.None? then map[]
    else
      SplitKeysBothWays(raw.value);
      SplitKeys(raw.value)
  }

  /** `{tuple(k.split("::")): v for k, v in raw_dict.items()}` */
  function SplitKeys<V>(m: map<string, V>): map<seq<string>, V>
  {
    SplitInjectiveOn(m);
    map k | k in m :: Split(k, "::") := m[k]
  }

  lemma SplitInjectiveOn<V>(m: map<string, V>)
    ensures forall a, b :: a in m && b in m && Split(a, "::") == Split(b, "::") ==> a == b
  {
    forall a, b | a in m && b in m && Split(a, "::") == Split(b, "::") ensures a == b {
      SplitKeyInjective(a, b);
    }
  }

  lemma SplitKeysBothWays<V>(m: map<string, V>)
    ensures forall k :: k in m ==> Split(k, "::") in SplitKeys(m) && SplitKeys(m)[Split(k, "::")] == m[k]
    ensures forall t :: t in SplitKeys(m) ==> Join(t, "::") in m && SplitKeys(m)[t] == m[Join(t, "::")]
  {
    var r := SplitKeys(m);
    SplitInjectiveOn(m);
    forall t | t in r ensures Join(t, "::") in m && r[t] == m[Join(t, "::")] {
      var k :| k in m && Split(k, "::") == t;
      JoinSplit(k, "::");
    }
  }

  /** The new text of a stripped, non-empty value on the server. */
  function ServerApply(value: string, f: Formula.Formula, mode: CommitUtils.Mode, showFloat: real -> string): string
  {
    match mode
    case Once => Formula.ServerOnce(value, f, showFloat)
    case Twice => Formula.ServerTwice(value, f, showFloat)
    case Reverse => Formula.ServerReverse(value, f, showFloat)
    case OtherMode => value
  }

  /** One object parameter, keyed on the full class attribute */
  function ServerTranslateP(p: P, cls: string, dict: ServerDict, mode: CommitUtils.Mode, showFloat: real -> string): (r: P)
    ensures r.name == p.name
    ensures [cls, p.name] !in dict || Strip(p.text) == "" ==> r == p
  {
    if [cls, p.name] !in dict then p
    else
      var value := Strip(p.text);
      if value == "" then p else P(p.name, ServerApply(value, dict[[cls, p.name]], mode, showFloat))
  }

  function ServerTranslateMo(mo: MO, dict: ServerDict, mode: CommitUtils.Mode, showFloat: real -> string): MO
  {
    mo.(params := seq(|mo.params|, j requires 0 <= j < |mo.params| => ServerTranslateP(mo.params[j], mo.cls, dict, mode, showFloat)))
  }

  function ServerTranslated(doc: CmData, dict: ServerDict, mode: CommitUtils.Mode, showFloat: real -> string): CmData
  {
    doc.(mos := seq(|doc.mos|, i requires 0 <= i < |doc.mos| => ServerTranslateMo(doc.mos[i], dict, mode, showFloat)))
  }

  /** The server `generate_translated_tree`: objects' own `p`s only, on a copy. */
  method ServerTranslateTree(doc: CmData, dict: ServerDict, mode: CommitUtils.Mode, showFloat: real -> string)
    returns (r: CmData)
    ensures r == ServerTranslated(doc, dict, mode, showFloat)
  {
    var mos: seq<MO> := [];
    var i := 0;
    while i < |doc.mos|
      invariant 0 <= i <= |doc.mos| && |mos| == i
      invariant forall k :: 0 <= k < i ==> mos[k] == ServerTranslateMo(doc.mos[k], dict, mode, showFloat)
    {
      var mo := doc.mos[i];
      var ps: seq<P> := [];
      var j := 0;
      while j < |mo.params|
        invariant 0 <= j <= |mo.params| && |ps| == j
        invariant forall k :: 0 <= k < j ==> ps[k] == ServerTranslateP(mo.params[k], mo.cls, dict, mode, showFloat)
      {
        ps := ps + [ServerTranslateP(mo.params[j], mo.cls, dict, mode, showFloat)];
        j := j + 1;
      }
      mos := mos + [mo.(params := ps)];
      i := i + 1;
    }
    r := doc.(mos := mos);
  }

  /** The server leaves every list alone and keeps the objects and parameter names. */
  lemma ServerTranslatedShape(doc: CmData, dict: ServerDict, mode: CommitUtils.Mode, showFloat: real -> string, i: nat)
    requires i < |doc.mos|
    ensures var r := ServerTranslated(doc, dict, mode, showFloat);
            SameSkeleton(doc, r) && r.mos[i].lists == doc.mos[i].lists && |r.mos[i].params| == |doc.mos[i].params|
            && forall j :: 0 <= j < |doc.mos[i].params| ==> r.mos[i].params[j].name == doc.mos[i].params[j].name
  {
  }

  /** Integer text has no surrounding blanks. */
  lemma IntTextStripped(n: int)
    ensures Strip(IntToString(n)) == IntToString(n)
  {
    var s := IntToString(n);
    var m: nat := if n < 0 then -n else n;
    assert !IsSpace(s[0]) && !IsSpace(s[|s| - 1]);
    LStripNoop(s);
    RStripNoop(s);
  }

  /** Encoding a catalogued integer parameter and decoding it again gives the integer back,
      provided the float text of the encoded value reads back as that value. */
  lemma ServerOnceThenReverse(doc: CmData, dict: ServerDict, showFloat: real -> string, i: nat, j: nat, n: int)
    requires i < |doc.mos| && j < |doc.mos[i].params|
    requires doc.mos[i].params[j].text == IntToString(n)
    requires [doc.mos[i].cls, doc.mos[i].params[j].name] in dict
    requires Formula.Invertible(dict[[doc.mos[i].cls, doc.mos[i].params[j].name]])
    requires var x := Formula.Forward(dict[[doc.mos[i].cls, doc.mos[i].params[j].name]], n as real).value;
             showFloat(x) != "" && Strip(showFloat(x)) == showFloat(x) && Formula.ParseDecimal(showFloat(x)) == Some(x)
    ensures var once := ServerTranslated(doc, dict, CommitUtils.Once, showFloat);
            ServerTranslated(once, dict, CommitUtils.Reverse, showFloat).mos[i].params[j] == doc.mos[i].params[j]
  {
    var mo := doc.mos[i];
    var p := mo.params[j];
    var f := dict[[mo.cls, p.name]];
    IntTextStripped(n);
    Formula.ParseIntText(n);
    Formula.ReverseForward(f, n as real);
    var x := Formula.Forward(f, n as real).value;
    assert Formula.ServerOnce(IntToString(n), f, showFloat) == showFloat(x);
    var once := ServerTranslated(doc, dict, CommitUtils.Once, showFloat);
    assert once.mos[i].params[j] == P(p.name, showFloat(x));
    assert once.mos[i].cls == mo.cls;
    Formula.ServerIntegerRoundTrip(n, f, showFloat);
  }
}
