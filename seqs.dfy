/** Sequence helpers shared by the template scanner and the result dictionary. */
module Seqs {

  predicate NoDuplicates<T(==)>(s: seq<T>) {
    forall i, j :: 0 <= i < j < |s| ==> s[i] != s[j]
  }

  /** Index of the first occurrence of `x` in `s`. */
  function FirstIndex<T(==)>(s: seq<T>, x: T): (k: nat)
    requires x in s
    ensures k < |s| && s[k] == x
    ensures forall j :: 0 <= j < k ==> s[j] != x
  {
    if s[0] == x then 0 else 1 + FirstIndex(s[1..], x)
  }

  /** The distinct elements of `s`, each once, in order of first occurrence
      (the "append unless already present" loop, one element at a time). */
  function Dedup<T(==)>(s: seq<T>): seq<T> {
    if s == [] then []
    else
      var d := Dedup(s[..|s| - 1]);
      if s[|s| - 1] in d then d else d + [s[|s| - 1]]
  }

  lemma {:induction false} DedupMembers<T>(s: seq<T>)
    ensures forall x :: x in Dedup(s) <==> x in s
  {
    if s != [] {
      var p := s[..|s| - 1];
      DedupMembers(p);
      assert s == p + [s[|s| - 1]];
    }
  }

  lemma {:induction false} DedupNoDuplicates<T>(s: seq<T>)
    ensures NoDuplicates(Dedup(s))
  {
    if s != [] {
      DedupNoDuplicates(s[..|s| - 1]);
    }
  }

  /** Dedup keeps the order of first occurrence: an element listed earlier
      first occurs earlier in `s`. */
  lemma {:induction false} DedupOrder<T>(s: seq<T>)
    ensures forall x :: x in Dedup(s) ==> x in s
    ensures forall i, j :: 0 <= i < j < |Dedup(s)| ==>
      FirstIndex(s, Dedup(s)[i]) < FirstIndex(s, Dedup(s)[j])
  {
    DedupMembers(s);
    if s != [] {
      var p := s[..|s| - 1];
      var last := s[|s| - 1];
      var d := Dedup(p);
      assert s == p + [last];
      DedupOrder(p);
      DedupMembers(p);
      forall x | x in p ensures FirstIndex(s, x) == FirstIndex(p, x) {
        FirstIndexPrefix(p, last, x);
      }
      var r := Dedup(s);
      if last in d {
        assert r == d;
      } else {
        assert r == d + [last];
        FirstIndexLast(p, last);
        forall i, j | 0 <= i < j < |r|
          ensures FirstIndex(s, r[i]) < FirstIndex(s, r[j])
        {
          assert r[i] == d[i] && r[i] in p;
          if j < |d| {
            assert r[j] == d[j] && r[j] in p;
          } else {
            assert r[j] == last;
          }
        }
      }
    }
  }

  lemma {:induction false} FirstIndexPrefix<T>(p: seq<T>, y: T, x: T)
    requires x in p
    ensures FirstIndex(p + [y], x) == FirstIndex(p, x)
  {
    if p[0] != x {
      assert (p + [y])[1..] == p[1..] + [y];
      FirstIndexPrefix(p[1..], y, x);
    }
  }

  lemma {:induction false} FirstIndexLast<T>(p: seq<T>, y: T)
    requires y !in p
    ensures FirstIndex(p + [y], y) == |p|
  {
    if p != [] {
      assert (p + [y])[1..] == p[1..] + [y];
      FirstIndexLast(p[1..], y);
    }
  }

  /** Dedup of a sequence without repetitions is the sequence itself. */
  lemma {:induction false} DedupOfDistinct<T>(s: seq<T>)
    requires NoDuplicates(s)
    ensures Dedup(s) == s
  {
    if s != [] {
      var p := s[..|s| - 1];
      DedupOfDistinct(p);
      DedupMembers(p);
      assert s == p + [s[|s| - 1]];
    }
  }

  predicate IsPrefix<T(==)>(pre: seq<T>, s: seq<T>) {
    |pre| <= |s| && s[..|pre|] == pre
  }

  /** Concatenation of a sequence of sequences. */
  function Flatten<T>(xs: seq<seq<T>>): seq<T> {
    if xs == [] then [] else xs[0] + Flatten(xs[1..])
  }
}
