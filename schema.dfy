// The parameter catalog `mo_param_dict`: for each managed-object class, the classes allowed
// below it and the parameters it declares, as the spreadsheet converter of base_tool writes it.

module Schema {
  import opened Wrappers
  import opened Text

  /** A parameter entry: a scalar `{type, default, required, range}`, or a list
      `{type: "list", isList: true, children: {field: entry}}`. */
  datatype ParamEntry =
    | Scalar(ptype: Option<string>, default: Option<string>, required: bool, range: Option<string>)
    | ListParam(fields: seq<(string, ParamEntry)>)

  /** A class entry `{children: [...], params: {...}}`; both keep insertion order. */
  datatype ClassInfo = ClassInfo(children: seq<string>, params: seq<(string, ParamEntry)>)

  type Dict = map<string, ClassInfo>

  /** The entry of the first parameter named `name` */
  function Lookup(ps: seq<(string, ParamEntry)>, name: string): (r: Option<ParamEntry>)
    ensures r.Some? <==> exists j :: 0 <= j < |ps| && ps[j].0 == name
    decreases |ps|
  {
    if ps == [] then None
    else if ps[0].0 == name then Some(ps[0].1)
    else Lookup(ps[1..], name)
  }

  predicate Declares(ps: seq<(string, ParamEntry)>, name: string)
  {
    exists j :: 0 <= j < |ps| && ps[j].0 == name
  }

  /** Overwrite the entry named `name` in place, or append it (Python's `d[name] = e`). */
  function Put(ps: seq<(string, ParamEntry)>, name: string, e: ParamEntry): (r: seq<(string, ParamEntry)>)
    ensures Lookup(r, name) == Some(e)
    ensures forall n :: n != name ==> Lookup(r, n) == Lookup(ps, n)
    ensures Declares(ps, name) ==> |r| == |ps|
    ensures !Declares(ps, name) ==> r == ps + [(name, e)]
    decreases |ps|
  {
    if ps == [] then [(name, e)]
    else if ps[0].0 == name then [(name, e)] + ps[1..]
    else [ps[0]] + Put(ps[1..], name, e)
  }

  // ----- the "Range and step" text of an id parameter -----

  /** End of the run of decimal digits of `s` starting at `i`. */
  function DigitRun(s: string, i: nat): (e: nat)
    requires i <= |s|
    ensures i <= e <= |s|
    ensures forall j :: i <= j < e ==> IsDigitChar(s[j])
    ensures e < |s| ==> !IsDigitChar(s[e])
    decreases |s| - i
  {
    if i == |s| || !IsDigitChar(s[i]) then i else DigitRun(s, i + 1)
  }

  /** A range `min...max, step k` (the pattern `^(\d+)\.\.\.(\d+), step (\d+)$`) */
  datatype IdRange = IdRange(min: nat, max: nat, step: nat)

  /** The text of a range, as the catalog writes it. */
  function RangeText(r: IdRange): string
  {
    NatToDigits(r.min) + "..." + NatToDigits(r.max) + ", step " + NatToDigits(r.step)
  }

  /** Read `min...max, step k`; anything else is not a range. */
  function ParseRange(s: string): (r: Option<IdRange>)
  {
    var a := DigitRun(s, 0);
    if a == 0 || !StartsWith(s[a..], "...") then None
    else
      match ParseMaxStep(s[a + 3..])
      case None => None
      case Some((hi, k)) => Some(IdRange(DigitsValue(s[..a]), hi, k))
  }

  /** The part `max, step k` after the dots. */
  function ParseMaxStep(t: string): Option<(nat, nat)>
  {
    var b := DigitRun(t, 0);
    if b == 0 || !StartsWith(t[b..], ", step ") then None
    else
      var u := t[b + 7..];
      // `$` also matches before one final line break
      if IsDigits(u) then Some((DigitsValue(t[..b]), DigitsValue(u)))
      else if |u| >= 2 && u[|u| - 1] == '\n' && IsDigits(u[..|u| - 1]) then
        Some((DigitsValue(t[..b]), DigitsValue(u[..|u| - 1])))
      else None
  }

  /** The written form of a range reads back as that range. */
  lemma RangeRoundTrip(r: IdRange)
    ensures ParseRange(RangeText(r)) == Some(r)
  {
    var d1, d2, d3 := NatToDigits(r.min), NatToDigits(r.max), NatToDigits(r.step);
    DigitsOfNat(r.min);
    DigitsOfNat(r.max);
    DigitsOfNat(r.step);
    MaxStepOfDigits(d2, d3);
    assert RangeText(r) == d1 + "..." + (d2 + ", step " + d3);
    RangeOfDigits(d1, d2 + ", step " + d3);
  }

  lemma RangeOfDigits(d1: string, t: string)
    requires IsDigits(d1) && ParseMaxStep(t).Some?
    ensures ParseRange(d1 + "..." + t)
            == Some(IdRange(DigitsValue(d1), ParseMaxStep(t).value.0, ParseMaxStep(t).value.1))
  {
    var u := "..." + t;
    AppendAssoc(d1, "...", t);
    DigitRunLead(d1, u);
    TakeLeft(d1, u);
    DropLeft(d1, u);
    TakeLeft("...", t);
    DropLeft("...", t);
    DropDrop(d1 + u, |d1|, 3);
  }

  lemma MaxStepOfDigits(d2: string, d3: string)
    requires IsDigits(d2) && IsDigits(d3)
    ensures ParseMaxStep(d2 + ", step " + d3) == Some((DigitsValue(d2), DigitsValue(d3)))
  {
    var u := ", step " + d3;
    AppendAssoc(d2, ", step ", d3);
    DigitRunLead(d2, u);
    TakeLeft(d2, u);
    DropLeft(d2, u);
    TakeLeft(", step ", d3);
    DropLeft(", step ", d3);
    DropDrop(d2 + u, |d2|, 7);
  }

  /** The digit run at the start covers exactly the leading digits `d`. */
  lemma DigitRunLead(d: string, t: string)
    requires IsDigits(d)
    requires t == [] || !IsDigitChar(t[0])
    ensures DigitRun(d + t, 0) == |d|
  {
    DigitRunConcat([], d, t);
    assert [] + d + t == d + t;
  }

  /** The digit run starting after `x` covers exactly the digits `d` placed there. */
  lemma DigitRunConcat(x: string, d: string, t: string)
    requires IsDigits(d)
    requires t == [] || !IsDigitChar(t[0])
    ensures DigitRun(x + d + t, |x|) == |x| + |d|
  {
    var s := x + d + t;
    forall j | |x| <= j < |x| + |d| ensures IsDigitChar(s[j]) {
      assert s[j] == d[j - |x|];
    }
    if t != [] {
      assert s[|x| + |d|] == t[0];
    }
    DigitRunOver(s, |x|, |x| + |d|);
  }

  /** A run of digits ending at a non-digit, or at the end, is what `DigitRun` finds. */
  lemma {:induction false} DigitRunOver(s: string, i: nat, e: nat)
    requires i <= e <= |s|
    requires forall j :: i <= j < e ==> IsDigitChar(s[j])
    requires e < |s| ==> !IsDigitChar(s[e])
    ensures DigitRun(s, i) == e
    decreases e - i
  {
    if i < e {
      DigitRunOver(s, i + 1, e);
    }
  }
}
