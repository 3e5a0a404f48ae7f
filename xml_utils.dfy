// Server-side XML helpers (cli_server/common/utils/xml_utils.py): dropping namespace
// prefixes from element tags, and dropping blank lines from serialized text.

module XmlUtils {
  import opened Text

  /** An element tag: a string, or the non-string tag of a comment or processing instruction. */
  datatype Tag = StrTag(s: string) | OtherTag

  datatype Elem = Elem(tag: Tag, children: seq<Elem>)

  /** `tag.split('}', 1)[1]` when the tag holds a '}', else the tag itself. */
  function LocalName(t: string): (r: string)
    ensures '}' !in t ==> r == t
    ensures '}' in t ==> exists i :: 0 <= i < |t| && t[i] == '}' && '}' !in t[..i] && r == t[i + 1..]
  {
    if '}' in t then t[IndexOfChar(t, '}') + 1..] else t
  }

  function StripTag(tag: Tag): Tag
  {
    match tag
    case OtherTag => OtherTag
    case StrTag(s) => StrTag(LocalName(s))
  }

  /** `strip_namespace`: every element of the tree, the root included, gets its local tag. */
  function StripNamespace(e: Elem): (r: Elem)
    ensures r.tag == StripTag(e.tag)
    ensures |r.children| == |e.children|
    ensures forall k :: 0 <= k < |e.children| ==> r.children[k] == StripNamespace(e.children[k])
    decreases e
  {
    Elem(StripTag(e.tag), seq(|e.children|, k requires 0 <= k < |e.children| => StripNamespace(e.children[k])))
  }

  /** No tag of the tree holds a '}'. */
  predicate NoBrace(e: Elem)
    decreases e
  {
    (e.tag.StrTag? ==> '}' !in e.tag.s) && forall k :: 0 <= k < |e.children| ==> NoBrace(e.children[k])
  }

  function Size(e: Elem): nat
    decreases e
  {
    1 + SumSizes(e.children)
  }

  function SumSizes(es: seq<Elem>): nat
    decreases es
  {
    if es == [] then 0 else Size(es[0]) + SumSizes(es[1..])
  }

  /** A tree whose tags carry no namespace is left as it is. */
  lemma {:induction false} StripNamespaceNoop(e: Elem)
    requires NoBrace(e)
    ensures StripNamespace(e) == e
    decreases e
  {
    var r := StripNamespace(e);
    forall k | 0 <= k < |e.children| ensures r.children[k] == e.children[k] {
      StripNamespaceNoop(e.children[k]);
    }
    assert r.children == e.children;
  }

  /** Stripping rewrites tags only: the tree keeps its number of elements. */
  lemma {:induction false} StripNamespaceSize(e: Elem)
    ensures Size(StripNamespace(e)) == Size(e)
    decreases e, 1
  {
    SumSizesStrip(e.children, StripNamespace(e).children);
  }

  lemma {:induction false} SumSizesStrip(es: seq<Elem>, rs: seq<Elem>)
    requires |rs| == |es| && forall k :: 0 <= k < |es| ==> rs[k] == StripNamespace(es[k])
    ensures SumSizes(rs) == SumSizes(es)
    decreases es, 0
  {
    if es != [] {
      StripNamespaceSize(es[0]);
      SumSizesStrip(es[1..], rs[1..]);
    }
  }

  // ----- blank lines -----

  /** The non-blank lines, in order. */
  function NonBlank(lines: seq<string>): (r: seq<string>)
    ensures forall k :: 0 <= k < |r| ==> !IsBlank(r[k]) && r[k] in lines
    ensures forall l :: l in lines && !IsBlank(l) ==> l in r
    ensures |r| <= |lines|
  {
    if lines == [] then []
    else if IsBlank(lines[0]) then NonBlank(lines[1..])
    else [lines[0]] + NonBlank(lines[1..])
  }

  /** `remove_empty_lines_from_str` */
  function RemoveEmptyLines(s: string): string
  {
    Join(NonBlank(SplitLines(s)), "\n")
  }

  /** The resulting text consists of exactly the non-blank lines of the input, in order. */
  lemma RemoveEmptyLinesLines(s: string)
    ensures SplitLines(RemoveEmptyLines(s)) == NonBlank(SplitLines(s))
  {
    var ls := NonBlank(SplitLines(s));
    forall k | 0 <= k < |ls| ensures NoLineBreak(ls[k]) && ls[k] != [] {
      assert ls[k] in SplitLines(s);
    }
    SplitLinesJoin(ls);
  }

  /** Removing blank lines twice is removing them once. */
  lemma RemoveEmptyLinesIdempotent(s: string)
    ensures RemoveEmptyLines(RemoveEmptyLines(s)) == RemoveEmptyLines(s)
  {
    RemoveEmptyLinesLines(s);
    NonBlankNoop(NonBlank(SplitLines(s)));
  }

  lemma {:induction false} NonBlankNoop(ls: seq<string>)
    requires forall k :: 0 <= k < |ls| ==> !IsBlank(ls[k])
    ensures NonBlank(ls) == ls
  {
    if ls != [] {
      NonBlankNoop(ls[1..]);
    }
  }

  /** Lines joined by "\n" split back into those lines, when none is empty or holds a break. */
  lemma {:induction false} SplitLinesJoin(ls: seq<string>)
    requires forall k :: 0 <= k < |ls| ==> NoLineBreak(ls[k]) && ls[k] != []
    ensures SplitLines(Join(ls, "\n")) == ls
  {
    if |ls| == 1 {
      LineLenAt(ls[0], 0, |ls[0]|);
    } else if |ls| > 1 {
      var rest := Join(ls[1..], "\n");
      var s := ls[0] + "\n" + rest;
      assert Join(ls, "\n") == s;
      forall j | 0 <= j < |ls[0]| ensures !IsLineBreak(s[j]) {
        assert s[j] == ls[0][j];
      }
      LineLenAt(s, 0, |ls[0]|);
      assert s[..|ls[0]|] == ls[0];
      assert s[|ls[0]| + 1..] == rest;
      SplitLinesJoin(ls[1..]);
    }
  }

  lemma {:induction false} LineLenAt(s: string, i: nat, e: nat)
    requires i <= e <= |s|
    requires forall j :: i <= j < e ==> !IsLineBreak(s[j])
    requires e == |s| || IsLineBreak(s[e])
    ensures LineLen(s, i) == e
    decreases e - i
  {
    if i < e {
      LineLenAt(s, i + 1, e);
    }
  }
}
