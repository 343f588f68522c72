/** An append-only table whose engine keeps, for each key, one row of maximal version
    (ClickHouse's ReplacingMergeTree).

    `Final` is what a query with FINAL reads: among the rows of a key, the one inserted
    last of those whose version is maximal. Background merges rewrite a contiguous run of
    rows (a part) so that each key keeps only that row; the order of different keys inside
    a rewritten part is the engine's choice. */
module VersionedTable {

  datatype Option<+T> = None | Some(value: T)

  datatype Row<K, V> = Row(key: K, version: nat, value: V)

  type Table<K, V> = seq<Row<K, V>>

  /** Of two candidates for one key, `later` inserted after `earlier`: the one FINAL keeps. */
  function Newer<K(==,!new), V(!new)>(earlier: Option<Row<K, V>>, later: Option<Row<K, V>>): Option<Row<K, V>> {
    if later.None? || (earlier.Some? && later.value.version < earlier.value.version) then earlier else later
  }

  function OnlyIf<K(==,!new), V(!new)>(row: Row<K, V>, k: K): Option<Row<K, V>> {
    if row.key == k then Some(row) else None
  }

  function Final<K(==,!new), V(!new)>(t: Table<K, V>, k: K): (r: Option<Row<K, V>>)
    ensures r.Some? ==> r.value in t && r.value.key == k
  {
    if t == [] then None
    else
      var n := |t| - 1;
      assert t == t[..n] + [t[n]];
      Newer(Final(t[..n], k), OnlyIf(t[n], k))
  }

  /** The row at index `i` is of key `k`, no row of `k` has a larger version, and no later
      row of `k` has an equal one. */
  ghost predicate WinsAt<K(!new), V(!new)>(t: Table<K, V>, k: K, i: int) {
    && 0 <= i < |t| && t[i].key == k
    && forall j | 0 <= j < |t| && t[j].key == k ::
         t[j].version <= t[i].version && (i < j ==> t[j].version < t[i].version)
  }

  lemma {:induction false} FinalIsNone<K(!new), V(!new)>(t: Table<K, V>, k: K)
    ensures Final(t, k).None? <==> forall j | 0 <= j < |t| :: t[j].key != k
  {
    if t == [] {
    } else {
      var n := |t| - 1;
      FinalIsNone(t[..n], k);
      assert forall j | 0 <= j < n :: t[j] == t[..n][j];
    }
  }

  lemma {:induction false} FinalAt<K(!new), V(!new)>(t: Table<K, V>, k: K) returns (i: int)
    requires Final(t, k).Some?
    ensures WinsAt(t, k, i) && t[i] == Final(t, k).value
  {
    var n := |t| - 1;
    var s := t[..n];
    assert forall j | 0 <= j < n :: t[j] == s[j];
    var earlier := Final(s, k);
    if earlier.None? {
      FinalIsNone(s, k);
      i := n;
    } else {
      var m := FinalAt(s, k);
      i := if t[n].key == k && earlier.value.version <= t[n].version then n else m;
    }
  }

  lemma FinalWins<K(!new), V(!new)>(t: Table<K, V>, k: K)
    ensures Final(t, k).None? <==> forall j | 0 <= j < |t| :: t[j].key != k
    ensures Final(t, k).Some? ==> exists i :: WinsAt(t, k, i) && t[i] == Final(t, k).value
  {
    FinalIsNone(t, k);
    if Final(t, k).Some? {
      var i := FinalAt(t, k);
    }
  }

  /** `Final` is exactly the winning row: the recursive reading and the engine's rule agree. */
  lemma FinalIsTheWinner<K(!new), V(!new)>(t: Table<K, V>, k: K, r: Row<K, V>)
    ensures Final(t, k) == Some(r) <==> exists i :: WinsAt(t, k, i) && t[i] == r
  {
    FinalWins(t, k);
    if i :| WinsAt(t, k, i) && t[i] == r {
      var j :| WinsAt(t, k, j) && t[j] == Final(t, k).value;
      assert i == j;
    }
  }

  lemma {:induction false} FinalOfAppend<K(!new), V(!new)>(a: Table<K, V>, b: Table<K, V>, k: K)
    ensures Final(a + b, k) == Newer(Final(a, k), Final(b, k))
  {
    if b == [] {
      assert a + b == a;
    } else {
      var n := |b| - 1;
      FinalOfAppend(a, b[..n], k);
      assert (a + b)[..|a + b| - 1] == a + b[..n];
    }
  }

  lemma FinalOfPush<K(!new), V(!new)>(t: Table<K, V>, r: Row<K, V>, k: K)
    ensures Final(t + [r], k) == Newer(Final(t, k), OnlyIf(r, k))
  {
    assert (t + [r])[..|t|] == t;
  }

  // ---------------------------------------------------------------- background merges

  function RowsOf<K(==,!new), V(!new)>(t: Table<K, V>, k: K): (rows: Table<K, V>) {
    if t == [] then []
    else
      var n := |t| - 1;
      RowsOf(t[..n], k) + (if t[n].key == k then [t[n]] else [])
  }

  lemma {:induction false} RowsOfMembers<K(!new), V(!new)>(t: Table<K, V>, k: K, r: Row<K, V>)
    ensures r in RowsOf(t, k) <==> r in t && r.key == k
  {
    if t == [] {
    } else {
      var n := |t| - 1;
      assert t == t[..n] + [t[n]];
      RowsOfMembers(t[..n], k, r);
    }
  }

  lemma RowsOfPush<K(!new), V(!new)>(t: Table<K, V>, r: Row<K, V>, k: K)
    ensures RowsOf(t + [r], k) == RowsOf(t, k) + (if r.key == k then [r] else [])
  {
    assert (t + [r])[..|t|] == t;
  }

  function Singleton<T>(o: Option<T>): seq<T> {
    if o.None? then [] else [o.value]
  }

  /** `merged` is a legal result of merging `part`: for each key exactly the FINAL row of the
      part, in any order of keys. */
  ghost predicate Collapses<K(!new), V(!new)>(part: Table<K, V>, merged: Table<K, V>) {
    forall k :: RowsOf(merged, k) == Singleton(Final(part, k))
  }

  ghost predicate MergeStep<K(!new), V(!new)>(t: Table<K, V>, u: Table<K, V>) {
    exists a, part, merged, b ::
      t == a + part + b && u == a + merged + b && Collapses(part, merged)
  }

  lemma {:induction false} FinalOfRowsOf<K(!new), V(!new)>(t: Table<K, V>, k: K)
    ensures Final(RowsOf(t, k), k) == Final(t, k)
  {
    if t == [] {
    } else {
      var n := |t| - 1;
      FinalOfRowsOf(t[..n], k);
      if t[n].key == k {
        FinalOfPush(RowsOf(t[..n], k), t[n], k);
      } else {
        assert RowsOf(t, k) == RowsOf(t[..n], k);
      }
    }
  }

  lemma FinalOfMerged<K(!new), V(!new)>(part: Table<K, V>, merged: Table<K, V>, k: K)
    requires Collapses(part, merged)
    ensures Final(merged, k) == Final(part, k)
  {
    FinalOfRowsOf(merged, k);
    assert RowsOf(merged, k) == Singleton(Final(part, k));
    if Final(part, k).Some? {
      assert [Final(part, k).value] == [] + [Final(part, k).value];
      FinalOfPush([], Final(part, k).value, k);
    }
  }

  lemma MergedRowsAreOld<K(!new), V(!new)>(part: Table<K, V>, merged: Table<K, V>, r: Row<K, V>)
    requires Collapses(part, merged) && r in merged
    ensures r in part
  {
    RowsOfMembers(merged, r.key, r);
    assert RowsOf(merged, r.key) == Singleton(Final(part, r.key));
  }

  /** A merge leaves what FINAL reads unchanged and invents no row. */
  lemma MergePreservesFinal<K(!new), V(!new)>(t: Table<K, V>, u: Table<K, V>, k: K)
    requires MergeStep(t, u)
    ensures Final(u, k) == Final(t, k)
    ensures forall r | r in u :: r in t
  {
    var a, part, merged, b :| t == a + part + b && u == a + merged + b && Collapses(part, merged);
    FinalOfAppend(a + part, b, k);
    FinalOfAppend(a + merged, b, k);
    FinalOfAppend(a, part, k);
    FinalOfAppend(a, merged, k);
    FinalOfMerged(part, merged, k);
    forall r | r in u ensures r in t {
      if r in merged { MergedRowsAreOld(part, merged, r); }
    }
  }

  /** Any sequence of background merges leaves what FINAL reads unchanged, for every key. */
  lemma {:induction false} MergesPreserveFinal<K(!new), V(!new)>(run: seq<Table<K, V>>, k: K)
    requires run != [] && forall i | 0 <= i < |run| - 1 :: MergeStep(run[i], run[i + 1])
    ensures Final(run[|run| - 1], k) == Final(run[0], k)
    ensures forall r | r in run[|run| - 1] :: r in run[0]
  {
    if |run| <= 1 {
    } else {
      var n := |run| - 1;
      MergesPreserveFinal(run[..n], k);
      assert MergeStep(run[n - 1], run[n]);
      MergePreservesFinal(run[n - 1], run[n], k);
    }
  }

  /** One particular merge of a part, to show that parts can always be merged. */
  function Collapse<K(==,!new), V(!new)>(part: Table<K, V>): (merged: Table<K, V>) {
    if part == [] then []
    else
      var n := |part| - 1;
      var rest := part[..n];
      var kept := Final(rest, part[n].key);
      if kept.Some? && part[n].version < kept.value.version then Collapse(rest)
      else Without(Collapse(rest), {part[n].key}) + [part[n]]
  }

  lemma {:induction false} CollapseCollapses<K(!new), V(!new)>(part: Table<K, V>)
    ensures Collapses(part, Collapse(part))
  {
    if part == [] {
    } else {
      var n := |part| - 1;
      var rest := part[..n];
      CollapseCollapses(rest);
      forall k ensures RowsOf(Collapse(part), k) == Singleton(Final(part, k)) {
        assert RowsOf(Collapse(rest), k) == Singleton(Final(rest, k));
        WithoutRows(Collapse(rest), {part[n].key}, k);
        RowsOfPush(Without(Collapse(rest), {part[n].key}), part[n], k);
      }
    }
  }

  // ---------------------------------------------------------------- deletes

  function Without<K(==,!new), V(!new)>(t: Table<K, V>, keys: set<K>): (u: Table<K, V>) {
    if t == [] then []
    else
      var n := |t| - 1;
      Without(t[..n], keys) + (if t[n].key in keys then [] else [t[n]])
  }

  lemma {:induction false} WithoutMembers<K(!new), V(!new)>(t: Table<K, V>, keys: set<K>, r: Row<K, V>)
    ensures r in Without(t, keys) <==> r in t && r.key !in keys
  {
    if t == [] {
    } else {
      var n := |t| - 1;
      assert t == t[..n] + [t[n]];
      WithoutMembers(t[..n], keys, r);
    }
  }

  lemma WithoutPush<K(!new), V(!new)>(t: Table<K, V>, r: Row<K, V>, keys: set<K>)
    ensures Without(t + [r], keys) == Without(t, keys) + (if r.key in keys then [] else [r])
  {
    assert (t + [r])[..|t|] == t;
  }

  lemma {:induction false} WithoutRows<K(!new), V(!new)>(t: Table<K, V>, keys: set<K>, k: K)
    ensures RowsOf(Without(t, keys), k) == if k in keys then [] else RowsOf(t, k)
  {
    if t == [] {
    } else {
      var n := |t| - 1;
      WithoutRows(t[..n], keys, k);
      if t[n].key in keys {
        assert Without(t, keys) == Without(t[..n], keys);
        assert k !in keys ==> RowsOf(t, k) == RowsOf(t[..n], k);
      } else {
        RowsOfPush(Without(t[..n], keys), t[n], k);
      }
    }
  }

  /** A delete of all versions removes exactly the named keys from what FINAL reads. */
  lemma FinalOfWithout<K(!new), V(!new)>(t: Table<K, V>, keys: set<K>, k: K)
    ensures Final(Without(t, keys), k) == if k in keys then None else Final(t, k)
  {
    WithoutRows(t, keys, k);
    FinalOfRowsOf(Without(t, keys), k);
    FinalOfRowsOf(t, k);
  }

  lemma FinalAfterDelete<K(!new), V(!new)>(t: Table<K, V>, r: Row<K, V>)
    ensures Final(Without(t, {r.key}) + [r], r.key) == Some(r)
  {
    FinalOfWithout(t, {r.key}, r.key);
    FinalOfPush(Without(t, {r.key}), r, r.key);
  }

  lemma {:induction false} WithoutTwice<K(!new), V(!new)>(t: Table<K, V>, a: set<K>, b: set<K>)
    ensures Without(Without(t, a), b) == Without(t, a + b)
  {
    if t == [] {
    } else {
      var n := |t| - 1;
      WithoutTwice(t[..n], a, b);
      if t[n].key in a {
        assert Without(t, a) == Without(t[..n], a);
        assert Without(t, a + b) == Without(t[..n], a + b);
      } else {
        WithoutPush(Without(t[..n], a), t[n], b);
      }
    }
  }

  // ---------------------------------------------------------------- any number of merges

  ghost predicate MergeRun<K(!new), V(!new)>(run: seq<Table<K, V>>, t: Table<K, V>, u: Table<K, V>) {
    && run != [] && run[0] == t && run[|run| - 1] == u
    && forall i | 0 <= i < |run| - 1 :: MergeStep(run[i], run[i + 1])
  }

  /** Background merges, none or any number of them, turn `t` into `u`. */
  ghost predicate Merges<K(!new), V(!new)>(t: Table<K, V>, u: Table<K, V>) {
    exists run :: MergeRun(run, t, u)
  }

  lemma NoMerges<K(!new), V(!new)>(t: Table<K, V>)
    ensures Merges(t, t)
  {
    assert MergeRun([t], t, t);
  }

  lemma OneMerge<K(!new), V(!new)>(t: Table<K, V>, u: Table<K, V>)
    requires MergeStep(t, u)
    ensures Merges(t, u)
  {
    assert MergeRun([t, u], t, u);
  }

  lemma MoreMerges<K(!new), V(!new)>(t: Table<K, V>, u: Table<K, V>, v: Table<K, V>)
    requires Merges(t, u) && Merges(u, v)
    ensures Merges(t, v)
  {
    var first :| MergeRun(first, t, u);
    var second :| MergeRun(second, u, v);
    var run := first + second[1..];
    forall i | 0 <= i < |run| - 1 ensures MergeStep(run[i], run[i + 1]) {
      if |first| - 1 <= i {
        var j := i + 1 - |first|;
        assert run[i] == second[j] && run[i + 1] == second[j + 1];
      }
    }
    assert MergeRun(run, t, v);
  }

  /** Merges leave what FINAL reads unchanged and invent no row. */
  lemma MergesKeep<K(!new), V(!new)>(t: Table<K, V>, u: Table<K, V>)
    requires Merges(t, u)
    ensures forall k :: Final(u, k) == Final(t, k)
    ensures forall r | r in u :: r in t
  {
    var run :| MergeRun(run, t, u);
    forall k ensures Final(u, k) == Final(t, k) { MergesPreserveFinal(run, k); }
    if r :| r in u { MergesPreserveFinal(run, r.key); }
  }

  lemma {:induction false} WithoutOfAppend<K(!new), V(!new)>(t: Table<K, V>, more: Table<K, V>, keys: set<K>)
    ensures Without(t + more, keys) == Without(t, keys) + Without(more, keys)
  {
    if more == [] {
      assert t + more == t;
    } else {
      var n := |more| - 1;
      assert t + more == t + more[..n] + [more[n]];
      WithoutOfAppend(t, more[..n], keys);
      WithoutPush(t + more[..n], more[n], keys);
    }
  }

  /** A merge before a delete is a merge after it. */
  lemma MergeThenDelete<K(!new), V(!new)>(t: Table<K, V>, u: Table<K, V>, keys: set<K>)
    requires MergeStep(t, u)
    ensures MergeStep(Without(t, keys), Without(u, keys))
  {
    var a, part, merged, b :| t == a + part + b && u == a + merged + b && Collapses(part, merged);
    WithoutOfAppend(a + part, b, keys);
    WithoutOfAppend(a, part, keys);
    WithoutOfAppend(a + merged, b, keys);
    WithoutOfAppend(a, merged, keys);
    var part', merged' := Without(part, keys), Without(merged, keys);
    forall k ensures RowsOf(merged', k) == Singleton(Final(part', k)) {
      WithoutRows(merged, keys, k);
      FinalOfWithout(part, keys, k);
    }
    assert Collapses(part', merged');
    assert Without(t, keys) == Without(a, keys) + part' + Without(b, keys);
  }

  lemma MergesThenDelete<K(!new), V(!new)>(t: Table<K, V>, u: Table<K, V>, keys: set<K>)
    requires Merges(t, u)
    ensures Merges(Without(t, keys), Without(u, keys))
  {
    var run :| MergeRun(run, t, u);
    var without := seq(|run|, i requires 0 <= i < |run| => Without(run[i], keys));
    forall i | 0 <= i < |run| - 1 ensures MergeStep(without[i], without[i + 1]) {
      MergeThenDelete(run[i], run[i + 1], keys);
    }
    assert MergeRun(without, Without(t, keys), Without(u, keys));
  }

  /** The whole table can be merged, down to the rows that FINAL reads. */
  lemma WholeTableMerges<K(!new), V(!new)>(t: Table<K, V>)
    ensures Merges(t, Collapse(t))
    ensures forall r | r in Collapse(t) :: Final(t, r.key) == Some(r)
  {
    CollapseCollapses(t);
    assert t == [] + t + [] && Collapse(t) == [] + Collapse(t) + [];
    assert MergeStep(t, Collapse(t));
    OneMerge(t, Collapse(t));
    forall r | r in Collapse(t) ensures Final(t, r.key) == Some(r) {
      RowsOfMembers(Collapse(t), r.key, r);
      assert RowsOf(Collapse(t), r.key) == Singleton(Final(t, r.key));
    }
  }

  // ---------------------------------------------------------------- insertion order

  /** A row of `k` whose version no other row of `k` exceeds. */
  ghost predicate IsNewest<K(!new), V(!new)>(t: Table<K, V>, k: K, r: Row<K, V>) {
    && r in t && r.key == k
    && forall s | s in t && s.key == k :: s.version <= r.version
  }

  ghost predicate NewestAgree<K(!new), V(!new), X>(t: Table<K, V>, k: K, f: Row<K, V> -> X) {
    forall r, s | IsNewest(t, k, r) && IsNewest(t, k, s) :: f(r) == f(s)
  }

  lemma FinalIsNewest<K(!new), V(!new)>(t: Table<K, V>, k: K)
    ensures Final(t, k).Some? ==> IsNewest(t, k, Final(t, k).value)
    ensures Final(t, k).None? ==> forall r | r in t :: r.key != k
  {
    FinalWins(t, k);
    if Final(t, k).Some? {
      var i :| WinsAt(t, k, i) && t[i] == Final(t, k).value;
    }
  }

  /** Where the rows of maximal version agree on `f`, FINAL's `f` does not depend on the order
      in which the rows were inserted. */
  lemma FinalIgnoresInsertionOrder<K(!new), V(!new), X>(t: Table<K, V>, u: Table<K, V>, k: K, f: Row<K, V> -> X)
    requires multiset(t) == multiset(u) && NewestAgree(t, k, f)
    ensures Final(t, k).Some? <==> Final(u, k).Some?
    ensures Final(t, k).Some? ==>
              && Final(t, k).value.version == Final(u, k).value.version
              && f(Final(t, k).value) == f(Final(u, k).value)
  {
    FinalIsNewest(t, k);
    FinalIsNewest(u, k);
    assert forall r :: r in t <==> r in multiset(t);
    assert forall r :: r in u <==> r in multiset(u);
    if Final(t, k).Some? {
      assert Final(t, k).value in u;
      assert IsNewest(t, k, Final(u, k).value);
    }
  }

  /** The same rows, with one row of maximal version inserted last: FINAL reads that one. */
  lemma NewestCanBeLast<K(!new), V(!new)>(t: Table<K, V>, k: K, r: Row<K, V>) returns (u: Table<K, V>)
    requires IsNewest(t, k, r)
    ensures multiset(u) == multiset(t) && Final(u, k) == Some(r)
  {
    var i :| 0 <= i < |t| && t[i] == r;
    var rest := t[..i] + t[i + 1..];
    assert t == t[..i] + [r] + t[i + 1..];
    u := rest + [r];
    FinalOfPush(rest, r, k);
    assert forall s :: s in rest ==> s in t;
  }

  /** FINAL's `f` depends on the insertion order if and only if two rows of the key's largest
      version disagree on it. */
  lemma OrderMattersIff<K(!new), V(!new), X(!new)>(t: Table<K, V>, k: K, f: Row<K, V> -> X)
    ensures (exists u, v :: multiset(u) == multiset(t) == multiset(v) && Final(u, k).Some? && Final(v, k).Some?
                         && f(Final(u, k).value) != f(Final(v, k).value))
       <==> !NewestAgree(t, k, f)
  {
    if NewestAgree(t, k, f) {
      forall u: Table<K, V>, v: Table<K, V>
        | multiset(u) == multiset(t) == multiset(v) && Final(u, k).Some? && Final(v, k).Some?
        ensures f(Final(u, k).value) == f(Final(v, k).value)
      {
        FinalIgnoresInsertionOrder(t, u, k, f);
        FinalIgnoresInsertionOrder(t, v, k, f);
      }
    } else {
      var r, s :| IsNewest(t, k, r) && IsNewest(t, k, s) && f(r) != f(s);
      var u := NewestCanBeLast(t, k, r);
      var v := NewestCanBeLast(t, k, s);
    }
  }
}
