// The managedObject tree of a configuration document (the cmData element of a RAML file),
// as the editor sees it: an ordered sequence of objects, looked up first-match.

module Tree {
  import opened Wrappers
  import opened Text

  /** A named `<p name="...">text</p>` of an object or of a list item; missing text is "". */
  datatype P = P(name: string, text: string)

  /** A `<list name="...">`: its bare `<p>` values and its `<item>` records, each in document order. */
  datatype PList = PList(name: string, bare: seq<string>, items: seq<seq<P>>)

  /** A `<managedObject>`; a missing attribute is "". */
  datatype MO = MO(cls: string, dn: string, version: string, op: string, params: seq<P>, lists: seq<PList>)

  /** The cmData element: whether it holds a `<header>`, and its objects. */
  datatype CmData = CmData(hasHeader: bool, mos: seq<MO>)

  /** The document `<raml version="2.0"><cmData type="plan"/></raml>`. */
  const EmptyDoc: CmData := CmData(false, [])

  /** What an object is, as opposed to what it holds: class, distName, version and operation. */
  function Identity(mo: MO): (string, string, string, string)
  {
    (mo.cls, mo.dn, mo.version, mo.op)
  }

  /** Two trees with the same objects in the same order, whatever their parameters and lists. */
  predicate SameSkeleton(a: CmData, b: CmData)
  {
    a.hasHeader == b.hasHeader && |a.mos| == |b.mos|
    && forall j :: 0 <= j < |a.mos| ==> Identity(a.mos[j]) == Identity(b.mos[j])
  }

  // ----- attribute helpers -----

  /** `s.split(c)[-1]`: the longest suffix of `s` free of `c`. */
  function AfterLast(s: string, c: char): (r: string)
    ensures |r| <= |s| && c !in r
    decreases |s|
  {
    if s == [] then []
    else if s[|s| - 1] == c then []
    else AfterLast(s[..|s| - 1], c) + [s[|s| - 1]]
  }

  /** The tail is a suffix, and what precedes it, if anything, is the separator. */
  lemma {:induction false} AfterLastSuffix(s: string, c: char)
    ensures var r := AfterLast(s, c);
            r == s[|s| - |r|..] && (|r| < |s| ==> s[|s| - |r| - 1] == c)
    decreases |s|
  {
    if s != [] && s[|s| - 1] != c {
      var t := s[..|s| - 1];
      AfterLastSuffix(t, c);
      var r := AfterLast(t, c);
      assert AfterLast(s, c) == r + [s[|s| - 1]];
      assert s[|s| - |r| - 1..] == t[|t| - |r|..] + [s[|s| - 1]];
      if |r| < |t| {
        assert s[|s| - |r| - 2] == t[|t| - |r| - 1];
      }
    }
  }

  /** The class name after the namespace prefix: `mo.attrib["class"].split(":")[-1]`. */
  function ClassTail(cls: string): (r: string)
    ensures ':' !in r
  {
    AfterLast(cls, ':')
  }

  /** The text after the last separator is what follows the separator that was appended last. */
  lemma {:induction false} AfterLastAppend(prefix: string, c: char, t: string)
    requires c !in t
    ensures AfterLast(prefix + [c] + t, c) == t
    decreases |t|
  {
    var s := prefix + [c] + t;
    if t == [] {
      assert s[|s| - 1] == c;
    } else {
      assert s[..|s| - 1] == prefix + [c] + t[..|t| - 1];
      AfterLastAppend(prefix, c, t[..|t| - 1]);
      assert t[..|t| - 1] + [t[|t| - 1]] == t;
    }
  }

  /** A name without the separator is its own tail. */
  lemma {:induction false} AfterLastFree(s: string, c: char)
    requires c !in s
    ensures AfterLast(s, c) == s
    decreases |s|
  {
    if s != [] {
      AfterLastFree(s[..|s| - 1], c);
      assert s[..|s| - 1] + [s[|s| - 1]] == s;
    }
  }

  // ----- first-match lookups -----

  /** Index of the first object the setters write to (see `IsCurrent`), as the setters'
      `for mo in ...: if ...: break` */
  function FirstCurrent(mos: seq<MO>, cls: string, tail: string): (r: Option<nat>)
    ensures r.Some? ==> r.value < |mos| && IsCurrent(mos[r.value], cls, tail)
    ensures r.Some? ==> forall j :: 0 <= j < r.value ==> !IsCurrent(mos[j], cls, tail)
    ensures r.None? ==> forall j :: 0 <= j < |mos| ==> !IsCurrent(mos[j], cls, tail)
    decreases |mos|
  {
    if mos == [] then None
    else if IsCurrent(mos[0], cls, tail) then Some(0)
    else
      var rest := FirstCurrent(mos[1..], cls, tail);
      assert forall j :: 1 <= j < |mos| ==> mos[j] == mos[1..][j - 1];
      if rest.None? then None else Some(rest.value + 1)
  }

  /** Index of the first object whose distName is exactly `dn` */
  function FirstWithDn(mos: seq<MO>, dn: string): (r: Option<nat>)
    ensures r.Some? ==> r.value < |mos| && mos[r.value].dn == dn
    ensures r.Some? ==> forall j :: 0 <= j < r.value ==> mos[j].dn != dn
    ensures r.None? <==> !HasDn(mos, dn)
    decreases |mos|
  {
    if mos == [] then None
    else if mos[0].dn == dn then Some(0)
    else
      match FirstWithDn(mos[1..], dn)
      case None => None
      case Some(k) => Some(k + 1)
  }

  /** Whether some object has the distName `dn` (`any(mo.attrib.get("distName") == dn ...)`). */
  predicate HasDn(mos: seq<MO>, dn: string)
  {
    exists i :: 0 <= i < |mos| && mos[i].dn == dn
  }

  /** The object the setters write to: class tail equal to the current class, distName ending in the path. */
  predicate IsCurrent(mo: MO, cls: string, tail: string)
  {
    ClassTail(mo.cls) == cls && EndsWith(mo.dn, tail)
  }

  // ----- named p values -----

  /** The text of the first `p` named `name` */
  function LookupP(ps: seq<P>, name: string): (r: Option<string>)
    ensures r.Some? <==> exists j :: 0 <= j < |ps| && ps[j].name == name
    decreases |ps|
  {
    if ps == [] then None
    else if ps[0].name == name then Some(ps[0].text)
    else LookupP(ps[1..], name)
  }

  /** Looking a name up in two runs of `p`: the first run wins. */
  lemma {:induction false} LookupPAppend(ps: seq<P>, qs: seq<P>, k: string)
    ensures LookupP(ps + qs, k) == if LookupP(ps, k).Some? then LookupP(ps, k) else LookupP(qs, k)
    decreases |ps|
  {
    if ps != [] {
      assert (ps + qs)[0] == ps[0];
      if ps[0].name == k {
        assert LookupP(ps + qs, k) == Some(ps[0].text);
      } else {
        assert (ps + qs)[1..] == ps[1..] + qs;
        assert LookupP(ps + qs, k) == LookupP(ps[1..] + qs, k);
        LookupPAppend(ps[1..], qs, k);
      }
    } else {
      assert ps + qs == qs;
    }
  }

  /** Overwrite the first `p` named `name`, or append one. */
  function SetP(ps: seq<P>, name: string, text: string): (r: seq<P>)
    ensures LookupP(r, name) == Some(text)
    ensures forall n :: n != name ==> LookupP(r, n) == LookupP(ps, n)
    ensures |r| == if LookupP(ps, name).Some? then |ps| else |ps| + 1
    ensures LookupP(ps, name).None? ==> r == ps + [P(name, text)]
    decreases |ps|
  {
    if ps == [] then [P(name, text)]
    else if ps[0].name == name then [P(name, text)] + ps[1..]
    else [ps[0]] + SetP(ps[1..], name, text)
  }

  /** Remove the first `p` named `name`. */
  function RemoveP(ps: seq<P>, name: string): (r: seq<P>)
    ensures LookupP(ps, name).None? ==> r == ps
    ensures LookupP(ps, name).Some? ==> |r| == |ps| - 1
    ensures forall n :: n != name ==> LookupP(r, n) == LookupP(ps, n)
    decreases |ps|
  {
    if ps == [] then []
    else if ps[0].name == name then ps[1..]
    else [ps[0]] + RemoveP(ps[1..], name)
  }

  /** Overwriting where the name first occurs: `p.text = value` on the first match. */
  lemma {:induction false} SetPAt(ps: seq<P>, name: string, text: string, j: nat)
    requires j < |ps| && ps[j].name == name
    requires forall k :: 0 <= k < j ==> ps[k].name != name
    ensures SetP(ps, name, text) == ps[j := P(name, text)]
    decreases j
  {
    if j == 0 {
      assert [P(name, text)] + ps[1..] == ps[0 := P(name, text)];
    } else {
      SetPAt(ps[1..], name, text, j - 1);
      assert SetP(ps, name, text) == [ps[0]] + SetP(ps[1..], name, text);
      ConsUpdate(ps[0], ps[1..], j - 1, P(name, text));
      assert [ps[0]] + ps[1..] == ps;
    }
  }

  /** Updating behind a head is updating one place further on. */
  lemma ConsUpdate(a: P, t: seq<P>, i: nat, v: P)
    requires i < |t|
    ensures [a] + t[i := v] == ([a] + t)[i + 1 := v]
  {
  }

  /** Removing where the name first occurs: `mo.remove(p)` on the first match. */
  lemma {:induction false} RemovePAt(ps: seq<P>, name: string, j: nat)
    requires j < |ps| && ps[j].name == name
    requires forall k :: 0 <= k < j ==> ps[k].name != name
    ensures RemoveP(ps, name) == ps[..j] + ps[j + 1..]
    decreases j
  {
    if j > 0 {
      RemovePAt(ps[1..], name, j - 1);
      assert [ps[0]] + (ps[1..][..j - 1] + ps[1..][j..]) == ps[..j] + ps[j + 1..];
    }
  }

  /** Index of the first list named `name` */
  function FindList(ls: seq<PList>, name: string): (r: Option<nat>)
    ensures r.Some? ==> r.value < |ls| && ls[r.value].name == name
    ensures r.Some? ==> forall j :: 0 <= j < r.value ==> ls[j].name != name
    ensures r.None? ==> forall j :: 0 <= j < |ls| ==> ls[j].name != name
    decreases |ls|
  {
    if ls == [] then None
    else if ls[0].name == name then Some(0)
    else
      match FindList(ls[1..], name)
      case None => None
      case Some(k) => Some(k + 1)
  }

  /** Python's `xs[i]` on a sequence of length `n`: a negative index counts from the end. */
  function PyIndex(n: nat, i: int): (r: Option<nat>)
    ensures r.Some? <==> -(n as int) <= i < n
    ensures r.Some? ==> r.value < n && (if i >= 0 then r.value == i else r.value == n + i)
  {
    if 0 <= i < n then Some(i) else if -(n as int) <= i < 0 then Some(n + i) else None
  }

  // ----- paths -----

  /** `dist_name.split("/")` */
  function Segments(dn: string): (r: seq<string>)
    ensures |r| >= 1
  {
    Split(dn, "/")
  }

  /** The branch below the root, lower-cased: `split("/")[1].split("-")[0].lower()`, or "unknown". */
  function Branch(dn: string): string
  {
    var parts := Segments(dn);
    if |parts| >= 2 then Lower(Split(parts[1], "-")[0]) else "unknown"
  }

  /** The class attribute of a non-root object: `NOKLTE:` under an LNBTS branch on 4G, `com.nokia.srbts.<branch>:` otherwise. */
  function ClassValue(ratType: string, dn: string, cls: string): (r: string)
    ensures ratType == "4G" && Branch(dn) == "lnbts" ==> r == "NOKLTE:" + cls
    ensures !(ratType == "4G" && Branch(dn) == "lnbts") ==> r == "com.nokia.srbts." + Branch(dn) + ":" + cls
  {
    if ratType == "4G" && Branch(dn) == "lnbts" then "NOKLTE:" + cls
    else "com.nokia.srbts." + Branch(dn) + ":" + cls
  }

  /** Whatever the branch, the class attribute ends in `:cls`, so its tail is `cls`. */
  lemma ClassValueTail(ratType: string, dn: string, cls: string)
    requires ':' !in cls
    ensures ClassTail(ClassValue(ratType, dn, cls)) == cls
  {
    var v := ClassValue(ratType, dn, cls);
    var prefix := if ratType == "4G" && Branch(dn) == "lnbts" then "NOKLTE" else "com.nokia.srbts." + Branch(dn);
    assert v == prefix + [':'] + cls;
    AfterLastAppend(prefix, ':', cls);
  }
}
