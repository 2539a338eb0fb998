/** Sequences without repetition; splitting sequences into pieces and joining them again; sizes
    of subsets. */
module Sequences {
  lemma SubsetSize<T>(a: set<T>, b: set<T>)
    requires a <= b
    ensures |a| <= |b|
  {
    assert b == a + (b - a);
  }

  ghost predicate Distinct<T>(s: seq<T>) {
    forall i, j :: 0 <= i < j < |s| ==> s[i] != s[j]
  }

  lemma {:induction false} DistinctSize<T>(s: seq<T>)
    requires Distinct(s)
    ensures |set x | x in s| == |s|
  {
    if s != [] {
      var front, last := s[..|s| - 1], s[|s| - 1];
      DistinctSize(front);
      assert (set x | x in s) == (set x | x in front) + {last};
    }
  }

  function Flatten<T>(chunks: seq<seq<T>>): seq<T> {
    if chunks == [] then [] else chunks[0] + Flatten(chunks[1..])
  }

  lemma {:induction false} FlattenSplit<T>(a: seq<seq<T>>, b: seq<seq<T>>)
    ensures Flatten(a + b) == Flatten(a) + Flatten(b)
  {
    if a == [] {
      assert a + b == b;
    } else {
      assert (a + b)[1..] == a[1..] + b;
      FlattenSplit(a[1..], b);
    }
  }

  lemma FlattenLast<T>(chunks: seq<seq<T>>, k: nat)
    requires k < |chunks|
    ensures Flatten(chunks[..k + 1]) == Flatten(chunks[..k]) + chunks[k]
  {
    assert chunks[..k + 1] == chunks[..k] + [chunks[k]];
    FlattenSplit(chunks[..k], [chunks[k]]);
    assert Flatten([chunks[k]]) == chunks[k] + Flatten([]);
  }

  lemma OneMore<T>(q: seq<T>, i: nat)
    requires i < |q|
    ensures q[..i + 1] == q[..i] + [q[i]] && q[..i + 1][..i] == q[..i]
  {
  }

  lemma Associates<T>(a: seq<T>, b: seq<T>, c: seq<T>)
    ensures (a + b) + c == a + (b + c)
  {
  }

  /** Consecutive pieces of one size, the last of what is left. */
  function Cut<T>(s: seq<T>, size: nat): (r: seq<seq<T>>)
    requires size > 0
    ensures forall i :: 0 <= i < |r| ==> 0 < |r[i]| <= size
  {
    if |s| <= size then (if s == [] then [] else [s]) else [s[..size]] + Cut(s[size..], size)
  }

  lemma {:induction false} CutFlattens<T>(s: seq<T>, size: nat)
    requires size > 0
    ensures Flatten(Cut(s, size)) == s
    decreases |s|
  {
    if |s| > size {
      CutFlattens(s[size..], size);
    } else if s != [] {
      assert Flatten([s]) == s + Flatten([]);
    }
  }

  lemma CutStep<T>(s: seq<T>, size: nat, n: nat)
    requires size > 0 && s != [] && n == if |s| < size then |s| else size
    ensures Cut(s, size) == [s[..n]] + Cut(s[n..], size)
  {
    if |s| <= size {
      assert s[..n] == s && s[n..] == [];
    }
  }

  function Map<A, B>(f: A -> B, s: seq<A>): (r: seq<B>)
    ensures |r| == |s| && forall i :: 0 <= i < |r| ==> r[i] == f(s[i])
  {
    if s == [] then [] else [f(s[0])] + Map(f, s[1..])
  }

  lemma MapSplit<A, B>(f: A -> B, a: seq<A>, b: seq<A>)
    ensures Map(f, a + b) == Map(f, a) + Map(f, b)
  {
  }
}
