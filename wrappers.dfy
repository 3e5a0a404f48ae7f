// Option and outcome types shared by every module of the model.

module Wrappers {

  /** A value that may be missing (Python's `None`). */
  datatype Option<T> = None | Some(value: T)
  {
    predicate IsSome() { this.Some? }

    function GetOr(default: T): (r: T)
      ensures this.Some? ==> r == this.value
      ensures this.None? ==> r == default
    {
      match this
      case Some(v) => v
      case None => default
    }
  }

  /** The result of a command: either a value, or the error message the command reports. */
  datatype Result<T> = Ok(value: T) | Err(msg: string)

  /** The present values, in order */
  function Somes<T>(es: seq<Option<T>>): seq<T>
    decreases |es|
  {
    if es == [] then []
    else
      var n := |es| - 1;
      Somes(es[..n]) + (if es[n].Some? then [es[n].value] else [])
  }

  lemma {:induction false} SomesMembers<T>(es: seq<Option<T>>, y: T)
    ensures y in Somes(es) <==> exists i :: 0 <= i < |es| && es[i] == Some(y)
    decreases |es|
  {
    if es != [] {
      var n := |es| - 1;
      var t := es[..n];
      SomesMembers(t, y);
      if y in Somes(es) && y !in Somes(t) {
        assert es[n] == Some(y);
      }
      if y in Somes(t) {
        var i :| 0 <= i < |t| && t[i] == Some(y);
        assert es[i] == t[i];
      }
      if exists i :: 0 <= i < |es| && es[i] == Some(y) {
        var i :| 0 <= i < |es| && es[i] == Some(y);
        if i < n {
          assert t[i] == es[i];
        }
      }
    }
  }

  lemma {:induction false} SomesNone<T>(es: seq<Option<T>>)
    requires forall i :: 0 <= i < |es| ==> es[i].None?
    ensures Somes(es) == []
    decreases |es|
  {
    if es != [] {
      var n := |es| - 1;
      assert forall i :: 0 <= i < n ==> es[..n][i] == es[i];
      SomesNone(es[..n]);
    }
  }

  /** The present values of two runs are those of each, in order. */
  lemma {:induction false} SomesAppend<T>(a: seq<Option<T>>, b: seq<Option<T>>)
    ensures Somes(a + b) == Somes(a) + Somes(b)
    decreases |b|
  {
    if b != [] {
      var n := |b| - 1;
      assert (a + b)[..|a| + n] == a + b[..n];
      SomesAppend(a, b[..n]);
    } else {
      assert a + b == a;
    }
  }

  /** Cutting a run in two cuts its present values in two. */
  lemma SomesSplit<T>(es: seq<Option<T>>, n: nat)
    requires n <= |es|
    ensures Somes(es) == Somes(es[..n]) + Somes(es[n..])
  {
    assert es == es[..n] + es[n..];
    SomesAppend(es[..n], es[n..]);
  }

  /** No value is present exactly when every entry is missing. */
  lemma SomesEmpty<T>(es: seq<Option<T>>)
    ensures Somes(es) == [] <==> forall i :: 0 <= i < |es| ==> es[i].None?
  {
    if Somes(es) == [] {
      forall i | 0 <= i < |es| ensures es[i].None? {
        if es[i].Some? {
          SomesMembers(es, es[i].value);
        }
      }
    } else {
      SomesMembers(es, Somes(es)[0]);
    }
  }

  /** The first occurrences, in order (`dict.fromkeys(xs)` / an insertion-ordered map's keys). */
  function Dedup<T(==,!new)>(xs: seq<T>): (r: seq<T>)
    ensures forall x :: x in r <==> x in xs
    ensures forall i, j :: 0 <= i < j < |r| ==> r[i] != r[j]
    decreases |xs|
  {
    if xs == [] then []
    else
      var n := |xs| - 1;
      var p := Dedup(xs[..n]);
      if xs[n] in p then p else p + [xs[n]]
  }

  /** One more value extends the first occurrences when it is new. */
  lemma DedupSnoc<T(!new)>(xs: seq<T>, v: T)
    ensures Dedup(xs + [v]) == if v in xs then Dedup(xs) else Dedup(xs) + [v]
  {
    assert (xs + [v])[..|xs|] == xs;
  }

  /** How often `x` occurs in `xs`. */
  function Count<T(==)>(xs: seq<T>, x: T): (r: nat)
    ensures r == 0 <==> x !in xs
    ensures r <= |xs|
    decreases |xs|
  {
    if xs == [] then 0
    else
      var n := |xs| - 1;
      Count(xs[..n], x) + (if xs[n] == x then 1 else 0)
  }

  lemma {:induction false} CountAppend<T>(a: seq<T>, b: seq<T>, x: T)
    ensures Count(a + b, x) == Count(a, x) + Count(b, x)
    decreases |b|
  {
    if b == [] {
      assert a + b == a;
    } else {
      var n := |b| - 1;
      assert (a + b)[..|a| + n] == a + b[..n];
      CountAppend(a, b[..n], x);
    }
  }

  /** The position of the first occurrence of `x` (`xs.index(x)`). */
  function IndexOf<T(==)>(xs: seq<T>, x: T): (r: nat)
    requires x in xs
    ensures r < |xs| && xs[r] == x && x !in xs[..r]
  {
    if xs[0] == x then 0
    else
      var r := 1 + IndexOf(xs[1..], x);
      assert xs[..r] == [xs[0]] + xs[1..][..r - 1];
      r
  }

  /** The first occurrence in a prefix is the first occurrence in the whole. */
  lemma IndexOfPrefix<T>(xs: seq<T>, k: nat, x: T)
    requires k <= |xs| && x in xs[..k]
    ensures IndexOf(xs, x) == IndexOf(xs[..k], x)
  {
    var r := IndexOf(xs, x);
    var q := IndexOf(xs[..k], x);
    assert xs[..k][q] == xs[q];
    assert r < k ==> xs[..k][r] == xs[r];
  }

  /** The first occurrences of a prefix are a prefix of the first occurrences. */
  lemma {:induction false} DedupAppendPrefix<T(!new)>(xs: seq<T>, ys: seq<T>)
    ensures |Dedup(xs)| <= |Dedup(xs + ys)|
    ensures Dedup(xs + ys)[..|Dedup(xs)|] == Dedup(xs)
    decreases |ys|
  {
    if ys == [] {
      assert xs + ys == xs;
    } else {
      var n := |ys| - 1;
      assert xs + ys == (xs + ys[..n]) + [ys[n]];
      DedupAppendPrefix(xs, ys[..n]);
      DedupSnoc(xs + ys[..n], ys[n]);
      var p := Dedup(xs + ys[..n]);
      if ys[n] !in xs + ys[..n] {
        assert (p + [ys[n]])[..|Dedup(xs)|] == p[..|Dedup(xs)|];
      }
    }
  }

  /** On a value already present, the first occurrences of a longer sequence place it where
      a prefix does. */
  lemma DedupIndexPrefix<T(!new)>(xs: seq<T>, ys: seq<T>, x: T)
    requires x in xs
    ensures x in Dedup(xs + ys)
    ensures IndexOf(Dedup(xs + ys), x) == IndexOf(Dedup(xs), x)
  {
    DedupAppendPrefix(xs, ys);
    var d := Dedup(xs + ys);
    assert d[..|Dedup(xs)|] == Dedup(xs);
    IndexOfPrefix(d, |Dedup(xs)|, x);
  }

  /** A value's position among the first occurrences follows the order of first appearance. */
  lemma {:induction false} DedupIndexMono<T(!new)>(xs: seq<T>, a: T, b: T)
    requires a in xs && b in xs && IndexOf(xs, a) < IndexOf(xs, b)
    ensures IndexOf(Dedup(xs), a) < IndexOf(Dedup(xs), b)
    decreases |xs|
  {
    var n := |xs| - 1;
    var pre := xs[..n];
    assert xs == pre + [xs[n]];
    var ia := IndexOf(xs, a);
    assert a in pre by { assert ia < n; assert pre[ia] == a; }
    IndexOfPrefix(xs, n, a);
    DedupIndexPrefix(pre, [xs[n]], a);
    if b in pre {
      IndexOfPrefix(xs, n, b);
      DedupIndexMono(pre, a, b);
      DedupIndexPrefix(pre, [xs[n]], b);
    } else {
      DedupSnoc(pre, xs[n]);
      assert xs[n] == b;
      var d := Dedup(pre);
      assert Dedup(xs) == d + [b];
      assert (d + [b])[|d|] == b;
      assert b !in (d + [b])[..|d|];
      assert IndexOf(Dedup(xs), b) == |d|;
    }
  }

  lemma SliceSnoc<T>(xs: seq<T>, i: nat)
    requires i < |xs|
    ensures xs[..i + 1] == xs[..i] + [xs[i]]
  {
  }
}
