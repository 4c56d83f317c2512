/** Option, Result and the error values that the host-side actors reply with. */
module Wrappers {

  datatype Option<+T> = None | Some(value: T)

  datatype Result<+T, +E> = Ok(value: T) | Err(error: E)

  /** The part of the error taxonomy that the modelled actors produce themselves.
      `Downstream` stands for any error handed through from user-supplied code. */
  datatype GpuError =
    | Unrecoverable(reason: string)
    | GpuRefStale(what: string)
    | Downstream(code: int)

  /** No element occurs twice. */
  ghost predicate NoDup<T>(s: seq<T>) {
    forall i, j :: 0 <= i < j < |s| ==> s[i] != s[j]
  }

  ghost function Elems<T>(s: seq<T>): set<T> {
    set x | x in s
  }

  /** A list without repetitions has as many elements as the set it lists. */
  lemma {:induction false} NoDupCount<T>(s: seq<T>)
    requires NoDup(s)
    ensures |Elems(s)| == |s|
  {
    if s != [] {
      var (t, x) := (s[..|s| - 1], s[|s| - 1]);
      NoDupCount(t);
      ElemsSnoc(t, x);
      assert t + [x] == s;
      assert x !in t && x !in Elems(t);
    }
  }

  lemma ElemsSnoc<T>(t: seq<T>, x: T)
    ensures Elems(t + [x]) == Elems(t) + {x}
  {}

  /** A list without repetitions inside a set of the same size lists all of it. */
  lemma NoDupCovers<T>(s: seq<T>, all: set<T>)
    requires NoDup(s) && Elems(s) <= all
    ensures |s| <= |all|
    ensures |s| == |all| <==> Elems(s) == all
  {
    NoDupCount(s);
    SubsetSize(Elems(s), all);
  }

  lemma SubsetSize<T>(small: set<T>, big: set<T>)
    requires small <= big
    ensures |small| <= |big|
    ensures |small| == |big| ==> small == big
  {
    assert big == small + (big - small);
    assert |big| == |small| + |big - small|;
  }

  /** Pigeonhole: a list longer than the set that holds its elements repeats one. */
  lemma Pigeonhole<T>(s: seq<T>, all: set<T>) returns (i: nat, j: nat)
    requires Elems(s) <= all && |s| > |all|
    ensures i < j < |s| && s[i] == s[j]
  {
    if forall a, b :: 0 <= a < b < |s| ==> s[a] != s[b] {
      NoDupCovers(s, all);
    }
    i, j :| 0 <= i < j < |s| && s[i] == s[j];
  }

  lemma Assoc<T>(a: seq<T>, b: seq<T>, c: seq<T>)
    ensures (a + b) + c == a + (b + c)
  {}
}
