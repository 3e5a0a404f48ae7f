// The rulebook `rulebook_param_dict`: default parameter values per managed object, keyed
// either by class name and then object id, or by a root-normalised distName.

module Rules {
  import opened Wrappers
  import opened Text

  /** A rule for one parameter: a scalar `{value}` (a missing value reads as "0"), or a list
      `{type: "list", children: [...]}` whose children are records of field values. */
  datatype RuleEntry =
    | Scalar(value: Option<string>)
    | ListRule(children: seq<seq<(string, Option<string>)>>)

  /** The parameters of one object, in the order the rulebook lists them. */
  type Record = seq<(string, RuleEntry)>

  /** A top-level entry: a class-level map from object id to record, or one distName's record. */
  datatype TopEntry = ByClass(ids: seq<(string, Record)>) | ByDist(rec: Record)

  type Rulebook = map<string, TopEntry>

  /** `rules.get(id)` on a class-level map */
  function LookupId(ids: seq<(string, Record)>, id: string): (r: Option<Record>)
    ensures r.Some? <==> exists j :: 0 <= j < |ids| && ids[j].0 == id
    ensures r.Some? ==> exists j :: 0 <= j < |ids| && ids[j] == (id, r.value)
    decreases |ids|
  {
    if ids == [] then None
    else if ids[0].0 == id then Some(ids[0].1)
    else LookupId(ids[1..], id)
  }

  /** Python truthiness of a looked-up record: present and non-empty. */
  predicate Truthy(r: Option<Record>)
  {
    r.Some? && r.value != []
  }

  /** `a or b or c`: the first truthy operand, else the last one. */
  function Or3(a: Option<Record>, b: Option<Record>, c: Option<Record>): (r: Option<Record>)
    ensures Truthy(a) ==> r == a
    ensures !Truthy(a) && Truthy(b) ==> r == b
    ensures !Truthy(a) && !Truthy(b) ==> r == c
  {
    if Truthy(a) then a else if Truthy(b) then b else c
  }

  // ----- Python's string order (by code point, a proper prefix first) -----

  predicate StrLess(a: string, b: string)
    decreases |a|
  {
    if a == [] then b != []
    else if b == [] then false
    else if a[0] != b[0] then a[0] < b[0]
    else StrLess(a[1..], b[1..])
  }

  lemma {:induction false} StrLessAsym(a: string, b: string)
    ensures !(StrLess(a, b) && StrLess(b, a))
    decreases |a|
  {
    if a != [] && b != [] && a[0] == b[0] {
      StrLessAsym(a[1..], b[1..]);
    }
  }

  /** If `k < a` then any `m` lies above `k` or below `a`. */
  lemma {:induction false} StrLessSplit(k: string, m: string, a: string)
    requires StrLess(k, a)
    ensures StrLess(k, m) || StrLess(m, a)
    decreases |k|
  {
    if k != [] && m != [] && a != [] && k[0] == m[0] && m[0] == a[0] {
      StrLessSplit(k[1..], m[1..], a[1..]);
    }
  }

  lemma StrLessTrans(a: string, b: string, c: string)
    requires StrLess(a, b) && StrLess(b, c)
    ensures StrLess(a, c)
  {
    StrLessSplit(a, c, b);
    StrLessAsym(b, c);
  }

  /** Two different strings are ordered one way or the other. */
  lemma {:induction false} StrLessTotal(a: string, b: string)
    requires a != b
    ensures StrLess(a, b) || StrLess(b, a)
    decreases |a|
  {
    if a != [] && b != [] && a[0] == b[0] {
      assert a == [a[0]] + a[1..] && b == [b[0]] + b[1..];
      StrLessTotal(a[1..], b[1..]);
    }
  }

  /** Strictly increasing: sorted and free of duplicates */
  predicate StrictlySorted(s: seq<string>)
  {
    forall i, j :: 0 <= i < j < |s| ==> StrLess(s[i], s[j])
  }

  /** Insert `x` into a strictly increasing list unless it is there already. */
  function InsertDistinct(x: string, s: seq<string>): (r: seq<string>)
    ensures forall y :: y in r <==> y in s || y == x
    decreases |s|
  {
    if s == [] then [x]
    else if x == s[0] then s
    else if StrLess(x, s[0]) then [x] + s
    else [s[0]] + InsertDistinct(x, s[1..])
  }

  lemma {:induction false} InsertDistinctSorted(x: string, s: seq<string>)
    requires StrictlySorted(s)
    ensures StrictlySorted(InsertDistinct(x, s))
    decreases |s|
  {
    if s == [] || x == s[0] {
    } else if StrLess(x, s[0]) {
      var r := [x] + s;
      forall i, j | 0 <= i < j < |r| ensures StrLess(r[i], r[j]) {
        if i > 0 { assert r[i] == s[i - 1] && r[j] == s[j - 1]; }
        else if j > 1 { StrLessTrans(x, s[0], s[j - 1]); }
      }
    } else {
      StrLessTotal(x, s[0]);
      var t := InsertDistinct(x, s[1..]);
      assert StrictlySorted(s[1..]) by {
        forall i, j | 0 <= i < j < |s[1..]| ensures StrLess(s[1..][i], s[1..][j]) {
          assert s[1..][i] == s[i + 1] && s[1..][j] == s[j + 1];
        }
      }
      InsertDistinctSorted(x, s[1..]);
      forall j | 0 <= j < |t| ensures StrLess(s[0], t[j]) {
        assert t[j] in t;
        if t[j] != x {
          var k :| 0 <= k < |s[1..]| && s[1..][k] == t[j];
          assert s[k + 1] == t[j];
        }
      }
      var r := [s[0]] + t;
      forall i, j | 0 <= i < j < |r| ensures StrLess(r[i], r[j]) {
        if i > 0 { assert r[i] == t[i - 1] && r[j] == t[j - 1]; }
        else { assert r[j] == t[j - 1]; }
      }
    }
  }

  /** `sorted(set(xs))` */
  function SortedDistinct(xs: seq<string>): (r: seq<string>)
    ensures StrictlySorted(r)
    ensures forall y :: y in r <==> y in xs
    decreases |xs|
  {
    if xs == [] then []
    else
      var t := SortedDistinct(xs[..|xs| - 1]);
      InsertDistinctSorted(xs[|xs| - 1], t);
      assert forall y :: y in xs <==> y in xs[..|xs| - 1] || y == xs[|xs| - 1] by {
        assert xs == xs[..|xs| - 1] + [xs[|xs| - 1]];
      }
      InsertDistinct(xs[|xs| - 1], t)
  }

  /** The smallest of the keys: `sorted(keys)[0]`. */
  function MinKey(ks: seq<string>): (r: string)
    requires |ks| > 0
    ensures r in ks
    ensures forall k :: k in ks ==> !StrLess(k, r)
    decreases |ks|
  {
    if |ks| == 1 then
      StrLessAsym(ks[0], ks[0]);
      ks[0]
    else
      var m := MinKey(ks[1..]);
      assert forall k :: k in ks[1..] ==> !StrLess(k, m);
      if StrLess(m, ks[0]) then
        StrLessAsym(m, ks[0]);
        m
      else
        assert forall k :: k in ks[1..] ==> !StrLess(k, ks[0]) by {
          forall k | k in ks[1..] ensures !StrLess(k, ks[0]) {
            if StrLess(k, ks[0]) { StrLessSplit(k, m, ks[0]); }
          }
        }
        StrLessAsym(ks[0], ks[0]);
        assert forall k :: k in ks ==> k == ks[0] || k in ks[1..];
        ks[0]
  }

  function Keys(ids: seq<(string, Record)>): (r: seq<string>)
    ensures |r| == |ids|
    ensures forall j :: 0 <= j < |ids| ==> r[j] == ids[j].0
  {
    seq(|ids|, j requires 0 <= j < |ids| => ids[j].0)
  }

  /** How many top-level keys end with `suffix` */
  function CountEndingWith(rb: Rulebook, suffix: string): nat
  {
    |set k | k in rb.Keys && EndsWith(k, suffix)|
  }
}
