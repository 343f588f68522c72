/** Small facts about sequences shared by several parts of the model. */
module Sequences {

  predicate Distinct<T(==)>(s: seq<T>) {
    forall i, j | 0 <= i < j < |s| :: s[i] != s[j]
  }

  function Elements<T>(s: seq<T>): set<T> {
    set x | x in s
  }

  lemma {:induction false} DistinctElements<T>(s: seq<T>)
    requires Distinct(s)
    ensures |Elements(s)| == |s|
  {
    if s == [] {
    } else {
      var n := |s| - 1;
      DistinctElements(s[..n]);
      assert s == s[..n] + [s[n]];
      assert Elements(s) == Elements(s[..n]) + {s[n]};
      assert s[n] !in Elements(s[..n]);
    }
  }

  lemma ElementsOfPush<T>(s: seq<T>, x: T)
    ensures Elements(s + [x]) == Elements(s) + {x}
  {
  }

  lemma DistinctParts<T>(a: seq<T>, b: seq<T>)
    requires Distinct(a + b)
    ensures Distinct(a) && Distinct(b)
  {
    assert forall i | 0 <= i < |a| :: (a + b)[i] == a[i];
    forall i, j | 0 <= i < j < |b| ensures b[i] != b[j] {
      assert (a + b)[|a| + i] == b[i] && (a + b)[|a| + j] == b[j];
    }
  }

  /** Some `k` elements of a set, listed; `first` among them if any are listed. */
  lemma {:induction false} Listing<T>(s: set<T>, k: nat, first: T) returns (l: seq<T>)
    requires k <= |s| && first in s
    ensures Distinct(l) && |l| == k && forall x | x in l :: x in s
    ensures 1 <= k ==> first in l
  {
    if k == 0 {
      l := [];
    } else if k == 1 {
      l := [first];
    } else {
      var rest := s - {first};
      assert |rest| == |s| - 1;
      var x :| x in rest;
      var m := Listing(rest, k - 1, x);
      l := [first] + m;
    }
  }

  function Flatten<T>(parts: seq<seq<T>>): seq<T> {
    if parts == [] then [] else parts[0] + Flatten(parts[1..])
  }

  lemma {:induction false} FlattenOfAppend<T>(a: seq<seq<T>>, b: seq<seq<T>>)
    ensures Flatten(a + b) == Flatten(a) + Flatten(b)
  {
    if a == [] {
      assert a + b == b;
    } else {
      assert (a + b)[1..] == a[1..] + b;
      FlattenOfAppend(a[1..], b);
    }
  }

  lemma FlattenOfPush<T>(a: seq<seq<T>>, part: seq<T>)
    ensures Flatten(a + [part]) == Flatten(a) + part
  {
    FlattenOfAppend(a, [part]);
    assert Flatten([part]) == part + Flatten<T>([]);
  }

  /** Consecutive chunks of `size`, the last possibly shorter, none empty. */
  function Chunks<T>(s: seq<T>, size: nat): seq<seq<T>>
    requires 1 <= size
    decreases |s|
  {
    if s == [] then []
    else if |s| <= size then [s]
    else [s[..size]] + Chunks(s[size..], size)
  }

  /** Chunking loses, repeats and reorders nothing, and all chunks but the last are full. */
  lemma {:induction false} ChunksPartition<T>(s: seq<T>, size: nat)
    requires 1 <= size
    ensures Flatten(Chunks(s, size)) == s
    ensures forall i | 0 <= i < |Chunks(s, size)| :: 1 <= |Chunks(s, size)[i]| <= size
    ensures forall i | 0 <= i < |Chunks(s, size)| - 1 :: |Chunks(s, size)[i]| == size
    decreases |s|
  {
    var chunks := Chunks(s, size);
    if s == [] {
    } else if |s| <= size {
      assert chunks[1..] == [];
    } else {
      ChunksPartition(s[size..], size);
      assert chunks[1..] == Chunks(s[size..], size);
      assert s == s[..size] + s[size..];
    }
  }

  lemma FirstChunk<T>(s: seq<T>, size: nat)
    requires s != [] && 1 <= size
    ensures var n := if size < |s| then size else |s|;
            Chunks(s, size) == [s[..n]] + Chunks(s[n..], size)
  {
    if |s| <= size {
      assert s[..|s|] == s;
    }
  }
}
