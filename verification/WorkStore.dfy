/** The store's side of the work queue: the methods that append to `work_items`, and the
    retention that deletes from it. What a query reads is given by a predicate on the table,
    since the engine may return any result that fits it. */
module WorkStore {
  import opened VersionedTable
  import opened WorkLedger
  import opened RecentEnqueues
  import opened Sequences

  datatype Result<+T> = Ok(value: T) | Refused

  const PURGE_DELETE_CHUNK: nat := 3_000

  /** The keys of the batch's dictionary: each id once, where it first occurs. */
  function FirstOccurrences(ids: seq<WorkId>): (keys: seq<WorkId>)
    ensures Distinct(keys) && (keys == [] <==> ids == [])
    ensures forall id :: id in keys <==> id in ids
  {
    if ids == [] then []
    else
      var n := |ids| - 1;
      assert ids == ids[..n] + [ids[n]];
      var keys := FirstOccurrences(ids[..n]);
      if ids[n] in keys then keys else keys + [ids[n]]
  }

  /** The ids come in the order in which they first occur. */
  lemma {:induction false} FirstOccurrencesAreInOrder(ids: seq<WorkId>, i: nat, j: nat) returns (p: nat, q: nat)
    requires i < j < |ids| && ids[i] !in ids[..i] && ids[j] !in ids[..j]
    ensures p < q < |FirstOccurrences(ids)|
    ensures FirstOccurrences(ids)[p] == ids[i] && FirstOccurrences(ids)[q] == ids[j]
  {
    var n := |ids| - 1;
    var earlier := ids[..n];
    assert earlier[..i] == ids[..i];
    if j < n {
      assert earlier[..j] == ids[..j];
      p, q := FirstOccurrencesAreInOrder(earlier, i, j);
    } else {
      assert earlier[i] in earlier;
      p :| 0 <= p < |FirstOccurrences(earlier)| && FirstOccurrences(earlier)[p] == ids[i];
      q := |FirstOccurrences(earlier)|;
    }
  }

  lemma FirstOccurrencesOfOne(x: WorkId)
    ensures FirstOccurrences([x]) == [x]
  {
    assert [x][..0] == [];
  }

  /** What the lease query may return: FINAL rows that are leaseable, one per id. */
  predicate LeaseQuery(rows: Ledger, found: seq<WorkRow>, now: Millis, limit: nat) {
    && |found| <= limit
    && (forall i, j | 0 <= i < j < |found| :: found[i].key != found[j].key)
    && forall i | 0 <= i < |found| :: Final(rows, found[i].key) == Some(found[i]) && Leaseable(found[i], now)
  }

  function ItemsOf(found: seq<WorkRow>): (items: seq<Item>)
    ensures |items| == |found|
    ensures forall i | 0 <= i < |items| :: items[i] == Item(found[i].key, found[i].value.attempts + 1)
  {
    seq(|found|, i requires 0 <= i < |found| => Item(found[i].key, found[i].value.attempts + 1))
  }

  function LeaseRows(items: seq<Item>, now: Millis): (rows: Ledger)
    ensures |rows| == |items| && forall i | 0 <= i < |rows| :: rows[i] == LeaseRow(items[i], now)
  {
    seq(|items|, i requires 0 <= i < |items| => LeaseRow(items[i], now))
  }

  function ReleaseRows(items: seq<Item>, now: Millis): (rows: Ledger)
    ensures |rows| == |items| && forall i | 0 <= i < |rows| :: rows[i] == ReleaseRow(items[i], now)
  {
    seq(|items|, i requires 0 <= i < |items| => ReleaseRow(items[i], now))
  }

  /** Ids with a terminal row written before the cutoff, read without FINAL. */
  function Aged(rows: Ledger, cutoff: Millis): set<WorkId> {
    set r | r in rows && Terminal(r.value.status) && r.value.observedAt < cutoff :: r.key
  }

  /** What the retention query may return: any distinct aged ids, as many as the limit allows. */
  predicate PurgeQuery(rows: Ledger, cutoff: Millis, batch: nat, ids: seq<WorkId>) {
    && Distinct(ids)
    && (forall id | id in ids :: id in Aged(rows, cutoff))
    && |ids| == if |Aged(rows, cutoff)| < batch then |Aged(rows, cutoff)| else batch
  }

  /** Whatever the engine does, it merges. */
  ghost predicate MergesOnly(merge: (nat, Ledger) -> Ledger) {
    forall i: nat, t: Ledger :: Merges(t, merge(i, t))
  }

  /** One batch of retention: the table its query read, the ids it returned, and the table when
      all of them are deleted. */
  datatype Round = Round(queried: Ledger, ids: seq<WorkId>, after: Ledger)

  ghost predicate RoundFits(before: Ledger, cutoff: Millis, batch: nat, round: Round) {
    && Merges(before, round.queried)
    && PurgeQuery(round.queried, cutoff, batch, round.ids)
    && Merges(Without(round.queried, Elements(round.ids)), round.after)
  }

  class Store {
    var rows: Ledger
    var deadLetters: seq<Item>
    /** The id list of every retention DELETE issued. */
    var deleted: seq<seq<WorkId>>
    const recent: RecentEnqueues

    constructor (ttl: Seconds, maxEntries: int)
      ensures rows == [] && deadLetters == [] && deleted == [] && fresh(recent) && recent.Valid()
      ensures recent.config == Config(if ttl < 0.0 then 0.0 else ttl, if maxEntries < 0 then 0 else maxEntries)
      ensures recent.seen == []
    {
      rows, deadLetters, deleted := [], [], [];
      recent := new RecentEnqueues(ttl, maxEntries);
    }

    /** Enqueue each id once, unless the dictionary holds it. The insert may fail (`lands` is
        false): the caller sees the error, but the dictionary keeps the ids. */
    method EnqueueWorkMany(ids: seq<WorkId>, now: Millis, monotonic: Seconds, lands: bool)
        returns (raised: bool, ghost newIds: seq<WorkId>)
      requires recent.Valid()
      modifies this`rows, recent
      ensures recent.Valid() && raised == (newIds != [] && !lands)
      ensures rows == old(rows) + (if lands then EnqueueRows(newIds, now) else [])
      ensures ids == [] ==> newIds == [] && recent.seen == old(recent.seen) && recent.calls == old(recent.calls)
      ensures ids != [] ==>
                var call := Call(FirstOccurrences(ids), monotonic);
                && recent.calls == old(recent.calls) + [call]
                && newIds == Fresh(recent.config, recent.calls, |old(recent.calls)|)
    {
      var keys: seq<WorkId> := [];
      for i := 0 to |ids|
        invariant keys == FirstOccurrences(ids[..i])
      {
        assert ids[..i + 1][..i] == ids[..i];
        if ids[i] !in keys { keys := keys + [ids[i]]; }
      }
      assert ids[..|ids|] == ids;
      if keys == [] {
        assert rows + EnqueueRows([], now) == rows;
        return false, [];
      }
      var taken := recent.TakeNewIds(keys, monotonic);
      newIds := taken;
      if taken == [] {
        assert rows + EnqueueRows([], now) == rows;
        return false, newIds;
      }
      if !lands {
        return true, newIds;
      }
      rows := rows + EnqueueRows(taken, now);
      raised := false;
    }

    /** Lease what the query found in the table it read; others may have written since. The
        whole insert is refused when some attempt count does not fit its column. */
    method LeaseWork(ghost queried: Ledger, found: seq<WorkRow>, read: Millis, limit: nat, now: Millis)
        returns (r: Result<seq<Item>>)
      requires LeaseQuery(queried, found, read, limit)
      modifies this`rows
      ensures r.Refused? <==> exists i :: 0 <= i < |found| && 65_535 <= found[i].value.attempts
      ensures r.Refused? ==> rows == old(rows)
      ensures r.Ok? ==> r.value == ItemsOf(found) && rows == old(rows) + LeaseRows(ItemsOf(found), now)
      ensures r.Ok? ==> |r.value| <= limit && forall i, j | 0 <= i < j < |r.value| :: r.value[i].id != r.value[j].id
      ensures r.Ok? ==> |r.value| == |found| && forall i | 0 <= i < |found| ::
                r.value[i].id == found[i].key && r.value[i].attempts == found[i].value.attempts + 1
    {
      var items: seq<Item>, versions: Ledger, fits := [], [], true;
      for i := 0 to |found|
        invariant items == ItemsOf(found)[..i] && versions == LeaseRows(ItemsOf(found), now)[..i]
        invariant fits <==> forall k | 0 <= k < i :: found[k].value.attempts < MAX_ATTEMPTS
      {
        var attempt := found[i].value.attempts + 1;
        var item := Item(found[i].key, attempt);
        items := items + [item];
        versions := versions + [LeaseRow(item, now)];
        fits := fits && attempt <= MAX_ATTEMPTS;
      }
      if !fits { return Refused; }
      rows := rows + versions;
      r := Ok(items);
    }

    method ReleaseWork(items: seq<Item>, now: Millis)
      modifies this`rows
      ensures rows == old(rows) + ReleaseRows(items, now)
    {
      rows := rows + ReleaseRows(items, now);
    }

    method FinishWork(item: Item, outcome: Outcome, now: Millis)
      modifies this`rows, this`deadLetters
      ensures rows == old(rows) + [FinishRow(item, outcome, now)]
      ensures deadLetters == old(deadLetters) + if outcome.GiveUp? then [item] else []
    {
      rows := rows + [FinishRow(item, outcome, now)];
      if outcome.GiveUp? {
        deadLetters := deadLetters + [item];
      }
    }

    /** Select aged terminal ids and delete every version of them, a chunk per statement. The
        engine may merge before the query, and before and after every statement: its `i`-th
        chance turns a table `t` into `merge(i, t)`. */
    method PurgeFinishedWork(cutoff: Millis, batch: nat, merge: (nat, Ledger) -> Ledger)
        returns (purged: nat, ghost round: Round)
      requires MergesOnly(merge)
      modifies this`rows, this`deleted
      ensures RoundFits(old(rows), cutoff, batch, round) && rows == round.after && purged == |round.ids|
      ensures deleted == old(deleted) + Chunks(round.ids, PURGE_DELETE_CHUNK)
    {
      rows := merge(0, rows);
      PurgeQueryHasAnswers(rows, cutoff, batch);
      var selected :| PurgeQuery(rows, cutoff, batch, selected);
      ghost var queried := rows;
      DeleteInChunks(selected, merge);
      purged, round := |selected|, Round(queried, selected, rows);
    }

    method DeleteInChunks(ids: seq<WorkId>, merge: (nat, Ledger) -> Ledger)
      requires MergesOnly(merge)
      modifies this`rows, this`deleted
      ensures Merges(Without(old(rows), Elements(ids)), rows)
      ensures deleted == old(deleted) + Chunks(ids, PURGE_DELETE_CHUNK)
    {
      var start, statements := 0, 0;
      WithoutNothing(rows);
      NoMerges(rows);
      assert Elements(ids[..0]) == {} && ids[0..] == ids;
      while start < |ids|
        invariant start <= |ids|
        invariant Merges(Without(old(rows), Elements(ids[..start])), rows)
        invariant deleted + Chunks(ids[start..], PURGE_DELETE_CHUNK) == old(deleted) + Chunks(ids, PURGE_DELETE_CHUNK)
        decreases |ids| - start
      {
        var stop := if start + PURGE_DELETE_CHUNK < |ids| then start + PURGE_DELETE_CHUNK else |ids|;
        var chunk := ids[start..stop];
        NextChunk(old(rows), ids, start, stop);
        statements := statements + 1;
        ghost var before := rows;
        rows := merge(statements, rows);
        MoreMerges(Without(old(rows), Elements(ids[..start])), before, rows);
        MergesThenDelete(Without(old(rows), Elements(ids[..start])), rows, Elements(chunk));
        rows := Without(rows, Elements(chunk));
        ghost var rest := Chunks(ids[stop..], PURGE_DELETE_CHUNK);
        assert (deleted + [chunk]) + rest == deleted + ([chunk] + rest);
        deleted := deleted + [chunk];
        start := stop;
      }
      assert ids[..|ids|] == ids;
      ghost var before := rows;
      rows := merge(statements + 1, rows);
      MoreMerges(Without(old(rows), Elements(ids)), before, rows);
    }
  }

  /** Deleting the next chunk of ids, as seen from all ids so far and from those still to come. */
  lemma NextChunk(rows: Ledger, ids: seq<WorkId>, start: nat, stop: nat)
    requires start < |ids| && stop == if start + PURGE_DELETE_CHUNK < |ids| then start + PURGE_DELETE_CHUNK else |ids|
    ensures Without(Without(rows, Elements(ids[..start])), Elements(ids[start..stop])) ==
              Without(rows, Elements(ids[..stop]))
    ensures Chunks(ids[start..], PURGE_DELETE_CHUNK) == [ids[start..stop]] + Chunks(ids[stop..], PURGE_DELETE_CHUNK)
  {
    var chunk := ids[start..stop];
    WithoutTwice(rows, Elements(ids[..start]), Elements(chunk));
    assert ids[..stop] == ids[..start] + chunk;
    assert Elements(ids[..stop]) == Elements(ids[..start]) + Elements(chunk);
    FirstChunk(ids[start..], PURGE_DELETE_CHUNK);
    assert ids[start..][stop - start..] == ids[stop..] && ids[start..][..stop - start] == chunk;
  }

  // ---------------------------------------------------------------- retention

  lemma {:induction false} WithoutNothing(rows: Ledger)
    ensures Without(rows, Elements<WorkId>([])) == rows
    ensures Without(rows, {}) == rows
  {
    if rows == [] {
    } else {
      WithoutNothing(rows[..|rows| - 1]);
      assert rows[..|rows| - 1] + [rows[|rows| - 1]] == rows;
    }
    assert Elements<WorkId>([]) == {};
  }

  lemma PurgeQueryHasAnswers(rows: Ledger, cutoff: Millis, batch: nat)
    ensures exists ids :: PurgeQuery(rows, cutoff, batch, ids)
  {
    var aged := Aged(rows, cutoff);
    if aged == {} {
      assert PurgeQuery(rows, cutoff, batch, []);
    } else {
      var id :| id in aged;
      var ids := Listing(aged, if |aged| < batch then |aged| else batch, id);
      assert PurgeQuery(rows, cutoff, batch, ids);
    }
  }

  /** The FINAL-free selection is exact: it picks only ids whose FINAL is terminal, and any id
      with an aged terminal row may be picked. */
  lemma PurgeSelectsTerminalIds(rows: Ledger, cutoff: Millis, batch: nat, id: WorkId)
    requires WellFormedRows(rows) && 1 <= batch
    ensures id in Aged(rows, cutoff) ==> Final(rows, id).Some? && Terminal(Final(rows, id).value.value.status)
    ensures id in Aged(rows, cutoff) <==> exists ids :: PurgeQuery(rows, cutoff, batch, ids) && id in ids
  {
    if id in Aged(rows, cutoff) {
      var r :| r in rows && r.key == id && Terminal(r.value.status) && r.value.observedAt < cutoff;
      TerminalRowSettles(rows, r);
      var aged := Aged(rows, cutoff);
      var ids := Listing(aged, if |aged| < batch then |aged| else batch, id);
      assert PurgeQuery(rows, cutoff, batch, ids);
    }
  }

  lemma AgedAfterDelete(rows: Ledger, cutoff: Millis, ids: seq<WorkId>)
    ensures Aged(Without(rows, Elements(ids)), cutoff) == Aged(rows, cutoff) - Elements(ids)
  {
    var after := Without(rows, Elements(ids));
    forall r | r in rows || r in after
      ensures r in after <==> r in rows && r.key !in Elements(ids)
    {
      WithoutMembers(rows, Elements(ids), r);
    }
  }

  /** The row FINAL reads for the id is itself aged. */
  predicate FinalIsAged(rows: Ledger, cutoff: Millis, id: WorkId) {
    var final := Final(rows, id);
    final.Some? && Terminal(final.value.value.status) && final.value.value.observedAt < cutoff
  }

  lemma FinalIsAgedIsAged(rows: Ledger, cutoff: Millis, id: WorkId)
    requires FinalIsAged(rows, cutoff, id)
    ensures id in Aged(rows, cutoff)
  {
    FinalIsNewest(rows, id);
  }

  /** Merges may drop aged rows that FINAL does not read, and no others. */
  lemma AgedAfterMerges(t: Ledger, u: Ledger, cutoff: Millis)
    requires Merges(t, u)
    ensures Aged(u, cutoff) <= Aged(t, cutoff)
    ensures forall id | FinalIsAged(t, cutoff, id) :: FinalIsAged(u, cutoff, id)
  {
    MergesKeep(t, u);
  }

  // ---------------------------------------------------------------- the drain

  function TableAfter(start: Ledger, rounds: seq<Round>): Ledger {
    if rounds == [] then start else rounds[|rounds| - 1].after
  }

  /** Every round starts from the table the one before left, and all but the last are full. */
  ghost predicate Drains(start: Ledger, cutoff: Millis, batch: nat, rounds: seq<Round>) {
    && (forall i | 0 <= i < |rounds| :: RoundFits(TableAfter(start, rounds[..i]), cutoff, batch, rounds[i]))
    && forall i | 0 <= i < |rounds| - 1 :: |rounds[i].ids| == batch
  }

  /** A drain ends with the first batch that is not full. */
  ghost predicate Drained(start: Ledger, cutoff: Millis, batch: nat, rounds: seq<Round>) {
    Drains(start, cutoff, batch, rounds) && rounds != [] && |rounds[|rounds| - 1].ids| < batch
  }

  function Total(rounds: seq<Round>): nat {
    if rounds == [] then 0 else Total(rounds[..|rounds| - 1]) + |rounds[|rounds| - 1].ids|
  }

  function Picked(rounds: seq<Round>): set<WorkId> {
    if rounds == [] then {} else Picked(rounds[..|rounds| - 1]) + Elements(rounds[|rounds| - 1].ids)
  }

  lemma DrainsPrefix(start: Ledger, cutoff: Millis, batch: nat, rounds: seq<Round>)
    requires Drains(start, cutoff, batch, rounds) && rounds != []
    ensures Drains(start, cutoff, batch, rounds[..|rounds| - 1])
    ensures RoundFits(TableAfter(start, rounds[..|rounds| - 1]), cutoff, batch, rounds[|rounds| - 1])
  {
    var n := |rounds| - 1;
    forall i | 0 <= i < n ensures RoundFits(TableAfter(start, rounds[..n][..i]), cutoff, batch, rounds[..n][i]) {
      assert rounds[..n][..i] == rounds[..i];
    }
  }

  lemma TotalsNext(start: Ledger, rounds: seq<Round>, round: Round)
    ensures var more := rounds + [round];
            && TableAfter(start, more) == round.after
            && Total(more) == Total(rounds) + |round.ids| && Picked(more) == Picked(rounds) + Elements(round.ids)
  {
    assert (rounds + [round])[..|rounds|] == rounds;
  }

  lemma DrainsNext(start: Ledger, cutoff: Millis, batch: nat, rounds: seq<Round>, round: Round)
    requires Drains(start, cutoff, batch, rounds) && forall r | r in rounds :: |r.ids| == batch
    requires RoundFits(TableAfter(start, rounds), cutoff, batch, round)
    ensures var more := rounds + [round];
            && Drains(start, cutoff, batch, more) && TableAfter(start, more) == round.after
            && Total(more) == Total(rounds) + |round.ids| && Picked(more) == Picked(rounds) + Elements(round.ids)
  {
    var more := rounds + [round];
    TotalsNext(start, rounds, round);
    forall i | 0 <= i < |more| ensures RoundFits(TableAfter(start, more[..i]), cutoff, batch, more[i]) {
      if i < |rounds| {
        assert more[..i] == rounds[..i];
      } else {
        assert more[..i] == rounds;
      }
    }
  }

  /** One round: what is read, what is aged, and what can still be picked afterwards. */
  lemma RoundEffect(before: Ledger, cutoff: Millis, batch: nat, round: Round, id: WorkId)
    requires RoundFits(before, cutoff, batch, round)
    ensures Final(round.after, id) == if id in round.ids then None else Final(before, id)
    ensures forall r | r in round.after :: r in before && r.key !in round.ids
    ensures Elements(round.ids) <= Aged(before, cutoff) && |Elements(round.ids)| == |round.ids|
    ensures Aged(round.after, cutoff) <= Aged(before, cutoff) - Elements(round.ids)
    ensures |round.ids| < batch ==> Aged(round.after, cutoff) == {}
  {
    var without := Without(round.queried, Elements(round.ids));
    MergesKeep(before, round.queried);
    AgedAfterMerges(before, round.queried, cutoff);
    FinalOfWithout(round.queried, Elements(round.ids), id);
    AgedAfterDelete(round.queried, cutoff, round.ids);
    DistinctElements(round.ids);
    MergesKeep(without, round.after);
    AgedAfterMerges(without, round.after, cutoff);
    forall r | r in round.after ensures r in before && r.key !in round.ids {
      WithoutMembers(round.queried, Elements(round.ids), r);
    }
    if |round.ids| < batch {
      AllPicked(Aged(round.queried, cutoff), Elements(round.ids));
    }
  }

  lemma AllPicked(all: set<WorkId>, picked: set<WorkId>)
    requires picked <= all && |picked| == |all|
    ensures all - picked == {}
  {
    if id :| id in all - picked {
      assert |picked + {id}| <= |all| by { SubsetSize(picked + {id}, all); }
    }
  }

  lemma SubsetSize(a: set<WorkId>, b: set<WorkId>)
    requires a <= b
    ensures |a| <= |b|
  {
    assert b == a + (b - a) && |b| == |a| + |b - a|;
  }

  /** What any drain keeps: it deletes only ids that were aged at the start, each once, and
      changes what FINAL reads of no other id. */
  lemma {:induction false} DrainKeeps(start: Ledger, cutoff: Millis, batch: nat, rounds: seq<Round>, id: WorkId)
    requires Drains(start, cutoff, batch, rounds)
    ensures var rows := TableAfter(start, rounds);
            && Final(rows, id) == (if id in Picked(rounds) then None else Final(start, id))
            && (forall r | r in rows :: r in start)
            && Picked(rounds) <= Aged(start, cutoff) && |Picked(rounds)| == Total(rounds)
            && Aged(rows, cutoff) <= Aged(start, cutoff) - Picked(rounds)
  {
    if rounds == [] {
    } else {
      var n := |rounds| - 1;
      DrainsPrefix(start, cutoff, batch, rounds);
      DrainKeeps(start, cutoff, batch, rounds[..n], id);
      RoundEffect(TableAfter(start, rounds[..n]), cutoff, batch, rounds[n], id);
      DisjointUnion(Picked(rounds[..n]), Elements(rounds[n].ids));
    }
  }

  lemma DisjointUnion(a: set<WorkId>, b: set<WorkId>)
    requires a !! b
    ensures |a + b| == |a| + |b|
  {
  }

  /** A drain that has ended leaves nothing aged. Its total lies between the number of ids whose
      FINAL row was aged at the start and the number of all aged ids, as merges let the others
      go. */
  lemma DrainedTotal(start: Ledger, cutoff: Millis, batch: nat, rounds: seq<Round>)
    requires Drained(start, cutoff, batch, rounds)
    ensures Aged(TableAfter(start, rounds), cutoff) == {}
    ensures Total(rounds) <= |Aged(start, cutoff)|
    ensures forall id | FinalIsAged(start, cutoff, id) :: id in Picked(rounds)
  {
    var n := |rounds| - 1;
    DrainsPrefix(start, cutoff, batch, rounds);
    DrainKeeps(start, cutoff, batch, rounds, "");
    RoundEffect(TableAfter(start, rounds[..n]), cutoff, batch, rounds[n], "");
    SubsetSize(Picked(rounds), Aged(start, cutoff));
    forall id | FinalIsAged(start, cutoff, id) ensures id in Picked(rounds) {
      DrainKeeps(start, cutoff, batch, rounds, id);
      if id !in Picked(rounds) { FinalIsAgedIsAged(TableAfter(start, rounds), cutoff, id); }
    }
  }

  /** While the engine does not merge, a drain can always go on to its end. */
  lemma {:induction false} DrainContinues(start: Ledger, cutoff: Millis, batch: nat, rounds: seq<Round>)
      returns (more: seq<Round>)
    requires 1 <= batch && Drains(start, cutoff, batch, rounds) && forall r | r in rounds :: |r.ids| == batch
    ensures Drained(start, cutoff, batch, more) && rounds <= more
    decreases |Aged(TableAfter(start, rounds), cutoff)|
  {
    var t := TableAfter(start, rounds);
    NoMerges(t);
    var round := OneRound(t, t, cutoff, batch);
    DrainsNext(start, cutoff, batch, rounds, round);
    more := rounds + [round];
    if |round.ids| == batch {
      RoundEffect(t, cutoff, batch, round, "");
      FewerAged(t, cutoff, batch, round);
      more := DrainContinues(start, cutoff, batch, more);
    }
  }

  /** A batch after whose query the engine does not merge. */
  lemma OneRound(start: Ledger, queried: Ledger, cutoff: Millis, batch: nat) returns (round: Round)
    requires Merges(start, queried)
    ensures RoundFits(start, cutoff, batch, round) && round.queried == queried
  {
    PurgeQueryHasAnswers(queried, cutoff, batch);
    var ids :| PurgeQuery(queried, cutoff, batch, ids);
    round := Round(queried, ids, Without(queried, Elements(ids)));
    NoMerges(round.after);
  }

  lemma FewerAged(before: Ledger, cutoff: Millis, batch: nat, round: Round)
    requires RoundFits(before, cutoff, batch, round) && round.ids != []
    ensures |Aged(round.after, cutoff)| < |Aged(before, cutoff)|
  {
    RoundEffect(before, cutoff, batch, round, "");
    var id := round.ids[0];
    assert id in Elements(round.ids);
    SubsetSize(Aged(round.after, cutoff) + {id}, Aged(before, cutoff));
  }

  /** A first batch whose query reads `queried`, and no merges after it. */
  lemma FirstRound(start: Ledger, queried: Ledger, cutoff: Millis, batch: nat) returns (rounds: seq<Round>)
    requires 1 <= batch && Merges(start, queried)
    ensures Drained(start, cutoff, batch, rounds) && rounds[0].queried == queried
  {
    var round := OneRound(start, queried, cutoff, batch);
    DrainsNext(start, cutoff, batch, [], round);
    rounds := [] + [round];
    if |round.ids| == batch {
      rounds := DrainContinues(start, cutoff, batch, rounds);
    }
  }

  /** A merge of the whole table before the first query lets every aged id go whose FINAL row is
      not aged. */
  lemma MergeFirst(start: Ledger, cutoff: Millis, batch: nat, id: WorkId) returns (rounds: seq<Round>)
    requires 1 <= batch && id in Aged(start, cutoff) && !FinalIsAged(start, cutoff, id)
    ensures Drained(start, cutoff, batch, rounds) && Total(rounds) < |Aged(start, cutoff)|
  {
    WholeTableMerges(start);
    assert id !in Aged(Collapse(start), cutoff);
    rounds := FirstRound(start, Collapse(start), cutoff, batch);
    NeverPicked(start, cutoff, batch, rounds, id);
    DrainKeeps(start, cutoff, batch, rounds, id);
    FewerPicked(Picked(rounds), Aged(start, cutoff), id);
  }

  lemma FewerPicked(picked: set<WorkId>, aged: set<WorkId>, id: WorkId)
    requires picked <= aged && id in aged && id !in picked
    ensures |picked| < |aged|
  {
    SubsetSize(picked + {id}, aged);
  }

  /** An id that is not aged when the first query reads is never picked. */
  lemma {:induction false} NeverPicked(start: Ledger, cutoff: Millis, batch: nat, rounds: seq<Round>, id: WorkId)
    requires Drains(start, cutoff, batch, rounds) && rounds != [] && id !in Aged(rounds[0].queried, cutoff)
    ensures id !in Picked(rounds) && id !in Aged(TableAfter(start, rounds), cutoff)
  {
    var n := |rounds| - 1;
    DrainsPrefix(start, cutoff, batch, rounds);
    if n == 0 {
      var without := Without(rounds[0].queried, Elements(rounds[0].ids));
      assert rounds[..0] == [] && Picked(rounds) == Picked([]) + Elements(rounds[0].ids);
      AgedAfterDelete(rounds[0].queried, cutoff, rounds[0].ids);
      AgedAfterMerges(without, rounds[0].after, cutoff);
    } else {
      NeverPicked(start, cutoff, batch, rounds[..n], id);
      RoundEffect(TableAfter(start, rounds[..n]), cutoff, batch, rounds[n], id);
    }
  }

  /** Exactly when the drain counts every id that was aged at the start, however the engine
      merges meanwhile: if and only if the FINAL row of each such id is itself aged. */
  lemma DrainTotalIff(start: Ledger, cutoff: Millis, batch: nat)
    requires 1 <= batch
    ensures (forall rounds | Drained(start, cutoff, batch, rounds) :: Total(rounds) == |Aged(start, cutoff)|)
       <==> forall id | id in Aged(start, cutoff) :: FinalIsAged(start, cutoff, id)
  {
    if forall id | id in Aged(start, cutoff) :: FinalIsAged(start, cutoff, id) {
      forall rounds | Drained(start, cutoff, batch, rounds) ensures Total(rounds) == |Aged(start, cutoff)| {
        DrainedTotal(start, cutoff, batch, rounds);
        DrainKeeps(start, cutoff, batch, rounds, "");
        SubsetSize(Aged(start, cutoff), Picked(rounds));
      }
    } else {
      var id :| id in Aged(start, cutoff) && !FinalIsAged(start, cutoff, id);
      var rounds := MergeFirst(start, cutoff, batch, id);
    }
  }

  ghost predicate Unmerged(start: Ledger, rounds: seq<Round>) {
    forall i | 0 <= i < |rounds| :: RoundIsUnmerged(TableAfter(start, rounds[..i]), rounds[i])
  }

  predicate RoundIsUnmerged(before: Ledger, round: Round) {
    round.queried == before && round.after == Without(before, Elements(round.ids))
  }

  lemma UnmergedPrefix(start: Ledger, rounds: seq<Round>)
    requires Unmerged(start, rounds) && rounds != []
    ensures var n := |rounds| - 1;
            Unmerged(start, rounds[..n]) && RoundIsUnmerged(TableAfter(start, rounds[..n]), rounds[n])
  {
    var fewer := rounds[..|rounds| - 1];
    forall i | 0 <= i < |fewer| ensures RoundIsUnmerged(TableAfter(start, fewer[..i]), fewer[i]) {
      assert fewer[..i] == rounds[..i];
    }
  }

  lemma {:induction false} UnmergedDrain(start: Ledger, cutoff: Millis, rounds: seq<Round>)
    requires Unmerged(start, rounds)
    ensures TableAfter(start, rounds) == Without(start, Picked(rounds))
    ensures Aged(TableAfter(start, rounds), cutoff) == Aged(start, cutoff) - Picked(rounds)
  {
    if rounds == [] {
      WithoutNothing(start);
    } else {
      var fewer, ids := rounds[..|rounds| - 1], rounds[|rounds| - 1].ids;
      UnmergedPrefix(start, rounds);
      UnmergedDrain(start, cutoff, fewer);
      WithoutTwice(start, Picked(fewer), Elements(ids));
      AgedAfterDelete(TableAfter(start, fewer), cutoff, ids);
      AgedApart(Aged(start, cutoff), Picked(fewer), Elements(ids));
    }
  }

  lemma AgedApart(aged: set<WorkId>, a: set<WorkId>, b: set<WorkId>)
    ensures aged - a - b == aged - (a + b)
  {
  }

  /** Without merges in between, the drain deletes and counts exactly the ids aged at the start. */
  lemma UnmergedDrainIsExact(start: Ledger, cutoff: Millis, batch: nat, rounds: seq<Round>)
    requires Drained(start, cutoff, batch, rounds) && Unmerged(start, rounds)
    ensures Total(rounds) == |Aged(start, cutoff)|
    ensures TableAfter(start, rounds) == Without(start, Aged(start, cutoff))
  {
    DrainKeeps(start, cutoff, batch, rounds, "");
    DrainedTotal(start, cutoff, batch, rounds);
    UnmergedDrain(start, cutoff, rounds);
    NothingLeft(Aged(start, cutoff), Picked(rounds));
  }

  lemma NothingLeft(all: set<WorkId>, picked: set<WorkId>)
    requires picked <= all && all - picked == {}
    ensures picked == all
  {
    assert all == (all - picked) + picked;
  }

  /** What it deletes and what it keeps, row by row: an id with a done, dead or unavailable row
      from before the cutoff loses every row, and any other id keeps every row. */
  lemma UnmergedDrainDeletesOldWork(start: Ledger, cutoff: Millis, batch: nat, rounds: seq<Round>, id: WorkId)
    requires Drained(start, cutoff, batch, rounds) && Unmerged(start, rounds)
    ensures RowsOf(TableAfter(start, rounds), id) ==
              if exists r :: r in start && r.key == id && r.value.observedAt < cutoff
                             && (r.value.status.Done? || r.value.status.Dead? || r.value.status.Unavailable?)
              then [] else RowsOf(start, id)
  {
    UnmergedDrainIsExact(start, cutoff, batch, rounds);
    WithoutRows(start, Aged(start, cutoff), id);
  }

  /** Retention counts from the end of the work: of an id without aged rows, an outcome recorded at
      `now` is deleted if and only if that lies before the cutoff. */
  lemma FinishedWorkAges(start: Ledger, item: Item, outcome: Outcome, now: Millis, cutoff: Millis, batch: nat,
                         rounds: seq<Round>)
    requires !outcome.RetryAt? && item.id !in Aged(start, cutoff)
    requires Drained(start + [FinishRow(item, outcome, now)], cutoff, batch, rounds)
    requires Unmerged(start + [FinishRow(item, outcome, now)], rounds)
    ensures RowsOf(TableAfter(start + [FinishRow(item, outcome, now)], rounds), item.id) == [] <==> now < cutoff
  {
    var row := FinishRow(item, outcome, now);
    var rows := start + [row];
    assert rows[|start|] == row;
    UnmergedDrainDeletesOldWork(rows, cutoff, batch, rounds, item.id);
    assert row in RowsOf(rows, item.id) by { RowsOfMembers(rows, item.id, row); }
  }

  /** The `purge-work` loop, with other writers paused but the engine merging whenever it likes:
      it ends for any batch size and leaves nothing aged; it deletes only ids that were aged at
      the start, all those among them whose FINAL row was aged, and counts each of them once. */
  method PurgeWork(store: Store, cutoff: Millis, batch: nat, merge: nat -> (nat, Ledger) -> Ledger)
      returns (total: nat, ghost rounds: seq<Round>)
    requires 1 <= batch && forall round: nat :: MergesOnly(merge(round))
    modifies store`rows, store`deleted
    ensures Drained(old(store.rows), cutoff, batch, rounds)
    ensures store.rows == TableAfter(old(store.rows), rounds) && total == Total(rounds)
    ensures Aged(store.rows, cutoff) == {} && total <= |Aged(old(store.rows), cutoff)|
    ensures forall id :: Final(store.rows, id) == if id in Picked(rounds) then None else Final(old(store.rows), id)
    ensures forall id | FinalIsAged(old(store.rows), cutoff, id) :: id in Picked(rounds)
  {
    total, rounds := 0, [];
    ghost var start := store.rows;
    var done: nat := 0;
    while true
      invariant Drains(start, cutoff, batch, rounds) && forall r | r in rounds :: |r.ids| == batch
      invariant store.rows == TableAfter(start, rounds) && total == Total(rounds)
      decreases |Aged(store.rows, cutoff)|
    {
      ghost var before := store.rows;
      var purged;
      ghost var round;
      purged, round := store.PurgeFinishedWork(cutoff, batch, merge(done));
      DrainsNext(start, cutoff, batch, rounds, round);
      rounds := rounds + [round];
      total, done := total + purged, done + 1;
      if purged < batch {
        break;
      }
      FewerAged(before, cutoff, batch, round);
    }
    DrainedTotal(start, cutoff, batch, rounds);
    forall id ensures Final(store.rows, id) == if id in Picked(rounds) then None else Final(start, id) {
      DrainKeeps(start, cutoff, batch, rounds, id);
    }
  }

  /** An id that FINAL reads as open survives retention with every one of its rows. */
  lemma PurgeKeepsOpenIds(rows: Ledger, cutoff: Millis, id: WorkId)
    requires WellFormedRows(rows)
    requires Final(rows, id).Some? && !Terminal(Final(rows, id).value.value.status)
    ensures RowsOf(Without(rows, Aged(rows, cutoff)), id) == RowsOf(rows, id)
    ensures Final(Without(rows, Aged(rows, cutoff)), id) == Final(rows, id)
  {
    if id in Aged(rows, cutoff) {
      PurgeSelectsTerminalIds(rows, cutoff, 1, id);
    }
    WithoutRows(rows, Aged(rows, cutoff), id);
    FinalOfWithout(rows, Aged(rows, cutoff), id);
  }

  // ---------------------------------------------------------------- statement length

  /** The ids of one DELETE, inlined with a quote-comma-quote separator. */
  function IdList(ids: seq<WorkId>): string {
    if ids == [] then ""
    else if |ids| == 1 then ids[0]
    else IdList(ids[..|ids| - 1]) + "','" + ids[|ids| - 1]
  }

  /** Work ids are SHA-256 digests in hex, so a chunk's text has a fixed size per id. */
  lemma {:induction false} IdListLength(ids: seq<WorkId>)
    requires ids != [] && forall id | id in ids :: |id| == 64
    ensures |IdList(ids)| == 67 * |ids| - 3
  {
    if |ids| <= 1 {
    } else {
      IdListLength(ids[..|ids| - 1]);
    }
  }

  /** The statements of one purge name each selected id exactly once, and each id list stays
      within 67 * 3000 - 3 characters, whatever the batch. */
  lemma DeleteStatementsAreBounded(rows: Ledger, cutoff: Millis, batch: nat, ids: seq<WorkId>)
    requires PurgeQuery(rows, cutoff, batch, ids) && forall r | r in rows :: |r.key| == 64
    ensures var statements := Chunks(ids, PURGE_DELETE_CHUNK);
            && Flatten(statements) == ids && Distinct(ids)
            && forall i | 0 <= i < |statements| ::
                 1 <= |statements[i]| <= 3_000 && |IdList(statements[i])| <= 67 * 3_000 - 3
  {
    var statements := Chunks(ids, PURGE_DELETE_CHUNK);
    ChunksPartition(ids, PURGE_DELETE_CHUNK);
    forall i | 0 <= i < |statements| ensures |IdList(statements[i])| <= 67 * PURGE_DELETE_CHUNK - 3 {
      forall id | id in statements[i] ensures |id| == 64 {
        FlattenMember(statements, i, id);
      }
      IdListLength(statements[i]);
    }
  }

  lemma {:induction false} FlattenMember<T>(parts: seq<seq<T>>, i: nat, x: T)
    requires i < |parts| && x in parts[i]
    ensures x in Flatten(parts)
  {
    if i == 0 {
    } else {
      FlattenMember(parts[1..], i - 1, x);
    }
  }

  /** Selection and deletion are separate steps, yet no open work is lost: an id selected as
      aged is still settled whenever the delete runs, whatever others did in between, unless
      another delete came first. */
  lemma SelectedIdsAreSettledWhenDeleted(states: seq<State>, actions: seq<Action>, i: nat, j: nat, cutoff: Millis,
                                         id: WorkId)
    requires Run(states, actions) && Inv(states[0]) && i <= j < |states|
    requires id in Aged(states[i].rows, cutoff)
    requires forall k | i <= k < j :: !Deletes(actions[k], id)
    ensures Final(states[j].rows, id).Some? && Terminal(Final(states[j].rows, id).value.value.status)
  {
    var r :| r in states[i].rows && r.key == id && Terminal(r.value.status) && r.value.observedAt < cutoff;
    TerminalIsAbsorbing(states, actions, i, j, r);
  }

  // ---------------------------------------------------------------- rediscovery

  lemma {:induction false} FinalOfEnqueue(ids: seq<WorkId>, now: Millis, id: WorkId)
    ensures Final(EnqueueRows(ids, now), id) == if id in ids then Some(EnqueueRow(id, now)) else None
  {
    if ids == [] {
    } else {
      var n := |ids| - 1;
      assert ids == ids[..n] + [ids[n]];
      FinalOfEnqueue(ids[..n], now, id);
      assert EnqueueRows(ids, now)[..n] == EnqueueRows(ids[..n], now);
    }
  }

  /** What one more call lets through of an enqueue: the ids that are not remembered. */
  lemma FreshIff(c: Config, calls: seq<Call>, ids: seq<WorkId>, monotonic: Seconds, id: WorkId)
    ensures var after := calls + [Call(FirstOccurrences(ids), monotonic)];
            id in Fresh(c, after, |calls|) <==> id in ids && !Remembers(c, calls, id, monotonic)
  {
    var after := calls + [Call(FirstOccurrences(ids), monotonic)];
    assert after[..|calls|] == calls;
    if Enabled(c) {
      LeftOutExactlyWhenRecentlyReturned(c, after, |calls|, id);
    }
  }

  /** What an enqueue of `id` on a table without it leaves: a pending row, if and only if the
      dictionary does not remember the id from less than a ttl ago and the insert lands. */
  lemma EnqueueRestoresIff(c: Config, calls: seq<Call>, ids: seq<WorkId>, monotonic: Seconds, lands: bool,
                           rows: Ledger, now: Millis, id: WorkId)
    requires Enabled(c) && id in ids && Final(rows, id).None?
    ensures var newIds := TakeNew(c, SeenAfter(c, calls), FirstOccurrences(ids), monotonic).newIds;
            Final(rows + (if lands then EnqueueRows(newIds, now) else []), id) ==
              if lands && !RecentlyReturned(c, calls, id, monotonic) then Some(EnqueueRow(id, now)) else None
  {
    var call := Call(FirstOccurrences(ids), monotonic);
    var after := calls + [call];
    assert after[..|calls|] == calls;
    LeftOutExactlyWhenRecentlyReturned(c, after, |calls|, id);
    FinalOfEnqueue(Fresh(c, after, |calls|), now, id);
    FinalOfAppend(rows, EnqueueRows(Fresh(c, after, |calls|), now), id);
    assert rows + [] == rows;
  }

  /** The action writes a row of the id. */
  predicate Writes(a: Action, id: WorkId) {
    match a
    case Enqueue(ids, _) => id in ids
    case Lease(item, _) => item.id == id
    case Release(item, _) => item.id == id
    case Finish(item, _, _) => item.id == id
    case _ => false
  }

  lemma StepKeepsAbsent(s: State, a: Action, t: State, id: WorkId)
    requires Step(s, a, t) && Final(s.rows, id).None? && !Writes(a, id)
    ensures Final(t.rows, id).None?
  {
    match a
    case Enqueue(ids, now) =>
      FinalOfEnqueue(ids, now, id);
      FinalOfAppend(s.rows, EnqueueRows(ids, now), id);
    case Lease(item, now) => FinalOfPush(s.rows, LeaseRow(item, now), id);
    case Release(item, now) => FinalOfPush(s.rows, ReleaseRow(item, now), id);
    case Finish(item, outcome, now) => FinalOfPush(s.rows, FinishRow(item, outcome, now), id);
    case Merge => MergePreservesFinal(s.rows, t.rows, id);
    case Delete(ids) => FinalOfWithout(s.rows, ids, id);
    case _ =>
  }

  /** Once a delete names an id, it stays gone until someone writes it. */
  lemma {:induction false} DeletedStaysAbsent(states: seq<State>, actions: seq<Action>, p: nat, i: nat, id: WorkId)
    requires Run(states, actions) && p < i < |states| && Deletes(actions[p], id)
    requires forall k | p < k < i :: !Writes(actions[k], id)
    ensures Final(states[i].rows, id).None?
  {
    if i == p + 1 {
      assert Step(states[p], actions[p], states[i]);
      FinalOfWithout(states[p].rows, actions[p].purged, id);
    } else {
      DeletedStaysAbsent(states, actions, p, i - 1, id);
      StepKeepsAbsent(states[i - 1], actions[i - 1], states[i], id);
    }
  }

  /** Rediscovery. In any run in which a delete named the id and nobody wrote it since, a store
      that holds the run's table and last returned the id no later than at `purged` restores a
      pending row at the first enqueue at or after `purged + ttl` whose insert lands. */
  lemma RediscoveryRestoresPurgedWork(states: seq<State>, actions: seq<Action>, p: nat, id: WorkId, c: Config,
                                      calls: seq<Call>,
                                      purged: Seconds, ids: seq<WorkId>, monotonic: Seconds, now: Millis)
    requires Run(states, actions) && p < |actions| && Deletes(actions[p], id)
    requires forall k | p < k < |actions| :: !Writes(actions[k], id)
    requires Enabled(c) && id in ids && purged + c.ttl <= monotonic
    requires LastReturned(c, calls, id).Some? ==> LastReturned(c, calls, id).value <= purged
    ensures var newIds := TakeNew(c, SeenAfter(c, calls), FirstOccurrences(ids), monotonic).newIds;
            Final(states[|actions|].rows + EnqueueRows(newIds, now), id) == Some(EnqueueRow(id, now))
  {
    DeletedStaysAbsent(states, actions, p, |actions|, id);
    EnqueueRestoresIff(c, calls, ids, monotonic, true, states[|actions|].rows, now, id);
  }
}
