/** One enrichment batch: lease, run the items' tasks, and at the deadline release what is not
    finished. The tasks run concurrently and may be cancelled at any await, so a batch is
    driven by the sequence of writes that actually reached the store. */
module Enrichment {
  import opened VersionedTable
  import opened WorkLedger
  import opened WorkStore
  import opened RecentEnqueues
  import opened Sequences

  /** How processing an item ended. */
  datatype Verdict = Processed | CompetitionUnavailable | Raised

  /** A write by the task of leased item `k`. It `completes` the task unless the task is
      cancelled, or raises, between the write and the discard from the pending set; then the
      item still counts as pending although its row is in the table. */
  datatype Event =
    | Fanout(ids: seq<WorkId>, monotonic: Seconds, at: Millis, lands: bool)
    | Wrote(k: nat, verdict: Verdict, completes: bool, at: Millis)

  function Pow2(n: nat): nat {
    if n == 0 then 1 else 2 * Pow2(n - 1)
  }

  /** The outcome recorded for a verdict: a failure is retried until the attempts run out. */
  function OutcomeOf(item: Item, verdict: Verdict, maxAttempts: nat, now: Millis): Outcome {
    match verdict
    case Processed => Success
    case CompetitionUnavailable => NotServed
    case Raised =>
      if maxAttempts <= item.attempts then GiveUp
      else
        var delay := Pow2(item.attempts);
        RetryAt(now + 1000 * (if delay < 3600 then delay else 3600))
  }

  // ---------------------------------------------------------------- what a batch did to an item

  datatype Fate = Untouched | Retried | Settled(rank: nat)

  function FateAfter(fate: Fate, outcome: Outcome): Fate {
    match outcome
    case RetryAt(_) => if fate.Settled? then fate else Retried
    case NotServed => if fate.Settled? then fate else Settled(1)
    case GiveUp => if fate.Settled? && 2 < fate.rank then fate else Settled(2)
    case Success => Settled(3)
  }

  /** Of all outcomes written for item `k`, the one that stands. */
  function FateOf(events: seq<Event>, k: nat, item: Item, maxAttempts: nat): Fate {
    if events == [] then Untouched
    else
      var n := |events| - 1;
      var before := FateOf(events[..n], k, item, maxAttempts);
      if events[n].Wrote? && events[n].k == k
      then FateAfter(before, OutcomeOf(item, events[n].verdict, maxAttempts, events[n].at))
      else before
  }

  predicate Completed(events: seq<Event>, k: int) {
    exists i | 0 <= i < |events| :: events[i].Wrote? && events[i].k == k && events[i].completes
  }

  predicate EventsFit(events: seq<Event>, items: nat) {
    forall i | 0 <= i < |events| && events[i].Wrote? :: events[i].k < items
  }

  /** FINAL's row for an item given the outcomes written since its lease. */
  predicate Shows(final: Option<WorkRow>, item: Item, fate: Fate) {
    && final.Some? && WellFormed(final.value)
    && match fate
       case Settled(rank) => 1 <= rank && Rank(final.value.value.status) == rank
       case Retried =>
         && final.value.value.status.Pending?
         && final.value.version == item.attempts * 10 + 2 && final.value.value.attempts == item.attempts
       case Untouched => !Terminal(final.value.value.status) && final.value.version <= item.attempts * 10 + 2
  }

  /** What the batch leaves behind for an item once its release, if any, is written. */
  predicate Outcomes(final: Option<WorkRow>, item: Item, fate: Fate, released: bool) {
    if fate.Settled? || !released then Shows(final, item, fate)
    else
      && final.Some? && final.value.value.status.Pending?
      && final.value.value.attempts + 1 == item.attempts
  }

  // ---------------------------------------------------------------- while others act

  /** What everyone else does, before the batch's `i`-th write: it turns a table `t` into
      `others(i, t)`. */
  type Others = (nat, Ledger) -> Ledger

  ghost predicate Act(others: Others) {
    forall i: nat, t: Ledger | WellFormedRows(t) :: Reaches(t, others(i, t))
  }

  /** Others never delete the id. */
  ghost predicate Keep(others: Others, id: WorkId) {
    forall i: nat, t: Ledger | WellFormedRows(t) :: ReachesKeeping(t, others(i, t), id)
  }

  /** Others may merge, enqueue the id, and do whatever they like with other ids. */
  ghost predicate Spare(others: Others, id: WorkId) {
    forall i: nat, t: Ledger | WellFormedRows(t) :: ReachesSparing(t, others(i, t), id)
  }

  function RevisionOfRank(rank: nat): nat {
    match rank case 3 => MAX_REVISION case 2 => MAX_REVISION - 1 case _ => UNAVAILABLE_REVISION
  }

  /** The largest revision the batch has written for an item. */
  function Floor(item: Item, fate: Fate, released: bool): nat {
    match fate
    case Settled(rank) => RevisionOfRank(rank)
    case Retried => item.attempts * 10 + 2
    case Untouched => item.attempts * 10 + (if released then 2 else 1)
  }

  /** Where an item of the batch stands. Whoever else writes, FINAL reads at least what the batch
      wrote, unless the id is deleted; if others spare the id, FINAL reads exactly that. */
  ghost predicate Stands(rows: Ledger, item: Item, fate: Fate, released: bool, others: Others) {
    && (Keep(others, item.id) ==> ReadsAtLeast(rows, item.id, Floor(item, fate, released)))
    && (Spare(others, item.id) ==> Outcomes(Final(rows, item.id), item, fate, released))
  }

  lemma SpareKeeps(others: Others, id: WorkId)
    requires Spare(others, id)
    ensures Keep(others, id)
  {
    forall i: nat, t: Ledger | WellFormedRows(t) ensures ReachesKeeping(t, others(i, t), id) {
      SparingKeeps(t, others(i, t), id);
    }
  }

  lemma StandsAfterOthers(rows: Ledger, i: nat, item: Item, fate: Fate, others: Others)
    requires WellFormedRows(rows) && 1 <= item.attempts <= MAX_ATTEMPTS && Stands(rows, item, fate, false, others)
    ensures Stands(others(i, rows), item, fate, false, others)
  {
    var id := item.id;
    if Keep(others, id) {
      KeepingNeverFalls(rows, others(i, rows), id, Floor(item, fate, false));
    }
    if Spare(others, id) {
      SpareKeeps(others, id);
      SparingKeepsFinal(rows, others(i, rows), id);
    }
  }

  lemma StandsAfterWrite(rows: Ledger, item: Item, fate: Fate, outcome: Outcome, now: Millis, others: Others)
    requires 1 <= item.attempts <= MAX_ATTEMPTS && Stands(rows, item, fate, false, others)
    ensures Stands(rows + [FinishRow(item, outcome, now)], item, FateAfter(fate, outcome), false, others)
  {
    FinalOfPush(rows, FinishRow(item, outcome, now), item.id);
    if Spare(others, item.id) {
      ShowsAfterWrite(rows, item, fate, outcome, now);
    }
  }

  lemma StandsAfterRows(rows: Ledger, more: Ledger, item: Item, fate: Fate, others: Others)
    requires 1 <= item.attempts && Stands(rows, item, fate, false, others)
    requires forall r | r in more && r.key == item.id :: r.version == 0 && WellFormed(r)
    ensures Stands(rows + more, item, fate, false, others)
  {
    FinalOfAppend(rows, more, item.id);
    if Spare(others, item.id) {
      ShowsAfterOthers(rows, more, item, fate);
    }
  }

  lemma StandsAfterRelease(rows: Ledger, releases: Ledger, item: Item, fate: Fate, now: Millis, others: Others)
    requires 1 <= item.attempts <= MAX_ATTEMPTS && Stands(rows, item, fate, false, others)
    requires Final(releases, item.id) == Some(ReleaseRow(item, now))
    ensures Stands(rows + releases, item, fate, true, others)
  {
    FinalOfAppend(rows, releases, item.id);
    if Spare(others, item.id) {
      OutcomeAfterRelease(rows, releases, item, fate, now);
    }
  }

  lemma ShowsAfterWrite(rows: Ledger, item: Item, fate: Fate, outcome: Outcome, now: Millis)
    requires 1 <= item.attempts <= MAX_ATTEMPTS && Shows(Final(rows, item.id), item, fate)
    ensures Shows(Final(rows + [FinishRow(item, outcome, now)], item.id), item, FateAfter(fate, outcome))
  {
    FinalOfPush(rows, FinishRow(item, outcome, now), item.id);
    RevisionDeterminesStatus(Final(rows, item.id).value);
  }

  lemma ShowsAfterOthers(rows: Ledger, more: Ledger, item: Item, fate: Fate)
    requires 1 <= item.attempts && Shows(Final(rows, item.id), item, fate)
    requires forall r | r in more && r.key == item.id :: r.version == 0 && WellFormed(r)
    ensures Shows(Final(rows + more, item.id), item, fate)
  {
    FinalOfAppend(rows, more, item.id);
  }

  lemma OutcomeAfterRelease(rows: Ledger, releases: Ledger, item: Item, fate: Fate, now: Millis)
    requires 1 <= item.attempts <= MAX_ATTEMPTS && Shows(Final(rows, item.id), item, fate)
    requires Final(releases, item.id) == Some(ReleaseRow(item, now))
    ensures Outcomes(Final(rows + releases, item.id), item, fate, true)
  {
    FinalOfAppend(rows, releases, item.id);
    RevisionDeterminesStatus(Final(rows, item.id).value);
  }

  lemma FinalOfReleases(items: seq<Item>, now: Millis, id: WorkId)
    requires forall i, j | 0 <= i < j < |items| :: items[i].id != items[j].id
    ensures forall i | 0 <= i < |items| && items[i].id == id ::
              Final(ReleaseRows(items, now), id) == Some(ReleaseRow(items[i], now))
    ensures (forall i | 0 <= i < |items| :: items[i].id != id) ==> Final(ReleaseRows(items, now), id).None?
  {
    var rows := ReleaseRows(items, now);
    FinalWins(rows, id);
    forall i | 0 <= i < |items| && items[i].id == id ensures Final(rows, id) == Some(ReleaseRow(items[i], now)) {
      assert rows[i].key == id;
      var w :| WinsAt(rows, id, w) && rows[w] == Final(rows, id).value;
      assert items[w].id == id;
      assert w == i;
    }
  }

  lemma CompletedStep(events: seq<Event>, i: nat, k: nat)
    requires i < |events|
    ensures Completed(events[..i + 1], k) <==>
              Completed(events[..i], k) || (events[i].Wrote? && events[i].k == k && events[i].completes)
  {
    if Completed(events[..i], k) {
      var j :| 0 <= j < i && events[..i][j].Wrote? && events[..i][j].k == k && events[..i][j].completes;
      assert events[..i + 1][j] == events[j];
    }
    if events[i].Wrote? && events[i].k == k && events[i].completes {
      assert events[..i + 1][i] == events[i];
    }
  }

  lemma {:induction false} CompletedIsNotUntouched(events: seq<Event>, k: nat, item: Item, maxAttempts: nat)
    requires Completed(events, k)
    ensures !FateOf(events, k, item, maxAttempts).Untouched?
  {
    var n := |events| - 1;
    assert events[..n + 1] == events;
    CompletedStep(events, n, k);
    if Completed(events[..n], k) {
      CompletedIsNotUntouched(events[..n], k, item, maxAttempts);
    }
  }

  lemma FinalOfLeases(found: seq<WorkRow>, now: Millis, k: nat)
    requires k < |found| && forall i, j | 0 <= i < j < |found| :: found[i].key != found[j].key
    ensures Final(LeaseRows(ItemsOf(found), now), found[k].key) == Some(LeaseRow(ItemsOf(found)[k], now))
  {
    var leases := LeaseRows(ItemsOf(found), now);
    FinalWins(leases, found[k].key);
    assert leases[k].key == found[k].key;
    var w :| WinsAt(leases, found[k].key, w) && leases[w] == Final(leases, found[k].key).value;
    assert found[w].key == found[k].key;
  }

  /** A leased item stands as leased, whatever others did between the query and the insert. */
  lemma LeasedItemStands(queried: Ledger, rows: Ledger, found: seq<WorkRow>, read: Millis, limit: nat, now: Millis,
                         k: nat, others: Others)
    requires WellFormedRows(queried) && LeaseQuery(queried, found, read, limit) && k < |found|
    requires found[k].value.attempts < MAX_ATTEMPTS && rows == others(0, queried)
    ensures Stands(rows + LeaseRows(ItemsOf(found), now), ItemsOf(found)[k], Untouched, false, others)
  {
    var id, leases := found[k].key, LeaseRows(ItemsOf(found), now);
    FinalOfLeases(found, now, k);
    FinalOfAppend(rows, leases, id);
    if Spare(others, id) {
      RevisionDeterminesStatus(found[k]);
      FoundIsSpared(queried, found[k], id, others);
    }
  }

  /** Enqueues of an id that only has its first row may replace that row by another like it. */
  lemma FoundIsSpared(queried: Ledger, r: WorkRow, id: WorkId, others: Others)
    requires WellFormedRows(queried) && Final(queried, id) == Some(r) && Spare(others, id)
    ensures var final := Final(others(0, queried), id);
            && final.Some?
            && if r.version == 0 then final.value.version == 0 && WellFormed(final.value) else final.value == r
  {
    if r.version == 0 {
      SparingKeepsFirst(queried, others(0, queried), id);
    } else {
      SparingKeepsFinal(queried, others(0, queried), id);
    }
  }

  // ---------------------------------------------------------------- verdicts and statuses

  /** Some task write of item `k` had this verdict. */
  predicate Had(events: seq<Event>, k: nat, verdict: Verdict) {
    exists i | 0 <= i < |events| :: events[i].Wrote? && events[i].k == k && events[i].verdict == verdict
  }

  lemma HadStep(events: seq<Event>, k: nat, verdict: Verdict)
    requires events != []
    ensures var n := |events| - 1;
            Had(events, k, verdict) <==>
              Had(events[..n], k, verdict) || (events[n].Wrote? && events[n].k == k && events[n].verdict == verdict)
  {
    var n := |events| - 1;
    if Had(events[..n], k, verdict) {
      var i :| 0 <= i < n && events[..n][i].Wrote? && events[..n][i].k == k && events[..n][i].verdict == verdict;
      assert events[i] == events[..n][i];
    }
    if i :| 0 <= i < n && events[i].Wrote? && events[i].k == k && events[i].verdict == verdict {
      assert events[..n][i] == events[i];
    }
  }

  /** What the verdicts of an item's tasks come to: processed once is done; else a failure of the
      last allowed attempt is dead; else not served is unavailable; else a failure is retried. */
  lemma {:induction false} FateOfVerdicts(events: seq<Event>, k: nat, item: Item, maxAttempts: nat)
    ensures FateOf(events, k, item, maxAttempts) ==
              if Had(events, k, Processed) then Settled(3)
              else if Had(events, k, Raised) && maxAttempts <= item.attempts then Settled(2)
              else if Had(events, k, CompetitionUnavailable) then Settled(1)
              else if Had(events, k, Raised) then Retried
              else Untouched
  {
    if events == [] {
    } else {
      var n := |events| - 1;
      FateOfVerdicts(events[..n], k, item, maxAttempts);
      HadStep(events, k, Processed);
      HadStep(events, k, Raised);
      HadStep(events, k, CompetitionUnavailable);
    }
  }

  /** What FINAL reads of an item, in terms of its tasks' verdicts alone. `attempts` is the number
      of the attempt, `released` whether the deadline released the item. */
  predicate Judged(final: Option<WorkRow>, events: seq<Event>, k: nat, attempts: nat, maxAttempts: nat,
                   released: bool) {
    && final.Some?
    && var work := final.value.value;
       if Had(events, k, Processed) then work.status.Done?
       else if Had(events, k, Raised) && maxAttempts <= attempts then work.status.Dead?
       else if Had(events, k, CompetitionUnavailable) then work.status.Unavailable?
       else if released then work.status.Pending? && work.attempts + 1 == attempts
       else if Had(events, k, Raised) then work.status.Pending? && work.attempts == attempts
       else work.status.Pending? || work.status.Running?
  }

  lemma StandsAsJudged(rows: Ledger, item: Item, events: seq<Event>, k: nat, maxAttempts: nat, released: bool,
                       others: Others)
    requires WellFormedRows(rows) && Spare(others, item.id)
    requires Stands(rows, item, FateOf(events, k, item, maxAttempts), released, others)
    ensures Judged(Final(rows, item.id), events, k, item.attempts, maxAttempts, released)
  {
    FateOfVerdicts(events, k, item, maxAttempts);
  }

  lemma AllJudged(rows: Ledger, items: seq<Item>, events: seq<Event>, maxAttempts: nat, timedOut: bool, others: Others)
    requires WellFormedRows(rows)
    requires forall k | 0 <= k < |items| ::
               Stands(rows, items[k], FateOf(events, k, items[k], maxAttempts),
                      timedOut && !Completed(events, k), others)
    ensures forall k | 0 <= k < |items| && Spare(others, items[k].id) ::
              Judged(Final(rows, items[k].id), events, k, items[k].attempts, maxAttempts,
                     timedOut && !Completed(events, k))
  {
    forall k | 0 <= k < |items| && Spare(others, items[k].id)
      ensures Judged(Final(rows, items[k].id), events, k, items[k].attempts, maxAttempts,
                     timedOut && !Completed(events, k))
    {
      StandsAsJudged(rows, items[k], events, k, maxAttempts, timedOut && !Completed(events, k), others);
    }
  }

  /** A failed attempt waits two seconds, and each further one twice as long as the one before,
      up to an hour. */
  lemma RetriesBackOff(item: Item, maxAttempts: nat, now: Millis)
    requires 1 <= item.attempts < maxAttempts
    ensures var outcome := OutcomeOf(item, Raised, maxAttempts, now);
            && outcome.RetryAt?
            && (item.attempts == 1 ==> outcome.at == now + 2_000)
            && var next := OutcomeOf(item.(attempts := item.attempts + 1), Raised, maxAttempts + 1, now);
               && next.RetryAt?
               && next.at - now == if 2 * (outcome.at - now) < 3_600_000 then 2 * (outcome.at - now) else 3_600_000
  {
    assert Pow2(item.attempts + 1) == 2 * Pow2(item.attempts);
  }

  // ---------------------------------------------------------------- the batch

  function IdsOf(items: seq<Item>): (ids: seq<WorkId>)
    ensures |ids| == |items| && forall i | 0 <= i < |ids| :: ids[i] == items[i].id
  {
    seq(|items|, i requires 0 <= i < |items| => items[i].id)
  }

  predicate ItemsReady(items: seq<Item>) {
    Distinct(IdsOf(items)) && forall i | 0 <= i < |items| :: 1 <= items[i].attempts <= MAX_ATTEMPTS
  }

  ghost predicate AllStand(rows: Ledger, items: seq<Item>, events: seq<Event>, maxAttempts: nat, others: Others) {
    forall k | 0 <= k < |items| :: Stands(rows, items[k], FateOf(events, k, items[k], maxAttempts), false, others)
  }

  function PendingIds(items: seq<Item>, events: seq<Event>): set<WorkId> {
    set k | 0 <= k < |items| && !Completed(events, k) :: items[k].id
  }

  lemma AllStandAfterOthers(rows: Ledger, j: nat, items: seq<Item>, events: seq<Event>, maxAttempts: nat,
                            others: Others)
    requires WellFormedRows(rows) && ItemsReady(items) && AllStand(rows, items, events, maxAttempts, others)
    ensures AllStand(others(j, rows), items, events, maxAttempts, others)
  {
    forall k | 0 <= k < |items|
      ensures Stands(others(j, rows), items[k], FateOf(events, k, items[k], maxAttempts), false, others)
    {
      StandsAfterOthers(rows, j, items[k], FateOf(events, k, items[k], maxAttempts), others);
    }
  }

  lemma AllStandAfterFanout(rows: Ledger, more: Ledger, items: seq<Item>, events: seq<Event>, i: nat, maxAttempts: nat,
                            others: Others)
    requires i < |events| && events[i].Fanout? && ItemsReady(items)
    requires AllStand(rows, items, events[..i], maxAttempts, others)
    requires forall r | r in more :: r.version == 0 && WellFormed(r)
    ensures AllStand(rows + more, items, events[..i + 1], maxAttempts, others)
  {
    assert events[..i + 1][..i] == events[..i];
    forall j | 0 <= j < |items|
      ensures Stands(rows + more, items[j], FateOf(events[..i + 1], j, items[j], maxAttempts), false, others)
    {
      StandsAfterRows(rows, more, items[j], FateOf(events[..i], j, items[j], maxAttempts), others);
    }
  }

  lemma AllStandAfterWrite(rows: Ledger, items: seq<Item>, events: seq<Event>, i: nat, maxAttempts: nat, others: Others)
    requires i < |events| && events[i].Wrote? && events[i].k < |items|
    requires ItemsReady(items) && AllStand(rows, items, events[..i], maxAttempts, others)
    ensures var item, e := items[events[i].k], events[i];
            var row := FinishRow(item, OutcomeOf(item, e.verdict, maxAttempts, e.at), e.at);
            AllStand(rows + [row], items, events[..i + 1], maxAttempts, others)
  {
    var item, e := items[events[i].k], events[i];
    var row := FinishRow(item, OutcomeOf(item, e.verdict, maxAttempts, e.at), e.at);
    assert events[..i + 1][..i] == events[..i];
    forall j | 0 <= j < |items|
      ensures Stands(rows + [row], items[j], FateOf(events[..i + 1], j, items[j], maxAttempts), false, others)
    {
      var fate := FateOf(events[..i], j, items[j], maxAttempts);
      if j == e.k {
        StandsAfterWrite(rows, item, fate, OutcomeOf(item, e.verdict, maxAttempts, e.at), e.at, others);
      } else {
        assert IdsOf(items)[j] != IdsOf(items)[e.k];
        StandsAfterRows(rows, [row], items[j], fate, others);
      }
    }
  }

  lemma PendingStep(items: seq<Item>, events: seq<Event>, i: nat)
    requires i < |events| && ItemsReady(items) && EventsFit(events, |items|)
    ensures PendingIds(items, events[..i + 1]) ==
              PendingIds(items, events[..i])
              - (if events[i].Wrote? && events[i].completes then {items[events[i].k].id} else {})
  {
    forall k | 0 <= k < |items|
      ensures Completed(events[..i + 1], k) <==>
                Completed(events[..i], k) || (events[i].Wrote? && events[i].k == k && events[i].completes)
    {
      CompletedStep(events, i, k);
    }
    if events[i].Wrote? {
      var e := events[i].k;
      forall k | 0 <= k < |items| && items[k].id == items[e].id ensures k == e {
        assert IdsOf(items)[k] == IdsOf(items)[e];
      }
    }
  }

  function CompletedBelow(events: seq<Event>, n: nat): set<nat> {
    set k: nat | 0 <= k < n && Completed(events, k)
  }

  lemma PendingNext(items: seq<Item>, events: seq<Event>, m: nat)
    requires ItemsReady(items) && m < |items|
    ensures if Completed(events, m)
            then PendingIds(items[..m + 1], events) == PendingIds(items[..m], events)
            else PendingIds(items[..m + 1], events) == PendingIds(items[..m], events) + {items[m].id}
    ensures items[m].id !in PendingIds(items[..m], events)
  {
    assert forall k | 0 <= k < m :: items[..m + 1][k] == items[..m][k];
    assert forall k | 0 <= k < m :: IdsOf(items)[k] != IdsOf(items)[m];
  }

  lemma CompletedNext(events: seq<Event>, m: nat)
    ensures CompletedBelow(events, m + 1) == CompletedBelow(events, m) + (if Completed(events, m) then {m} else {})
    ensures m !in CompletedBelow(events, m)
  {
  }

  lemma {:induction false} PendingCount(items: seq<Item>, events: seq<Event>, n: nat)
    requires ItemsReady(items) && n <= |items|
    ensures |PendingIds(items[..n], events)| + |CompletedBelow(events, n)| == n
  {
    if n == 0 {
      assert CompletedBelow(events, 0) == {};
    } else {
      PendingCount(items, events, n - 1);
      PendingNext(items, events, n - 1);
      CompletedNext(events, n - 1);
    }
  }

  lemma SameIdSameItem(items: seq<Item>, i: nat, j: nat)
    requires ItemsReady(items) && i < |items| && j < |items| && items[i].id == items[j].id
    ensures i == j
  {
    assert IdsOf(items)[i] == IdsOf(items)[j];
  }

  /** The releases write one row for each pending item and none for a completed one. */
  lemma ReleasesArePending(items: seq<Item>, stranded: seq<Item>, events: seq<Event>, now: Millis, k: nat)
    requires ItemsReady(items) && k < |items|
    requires Distinct(IdsOf(stranded)) && Elements(IdsOf(stranded)) == PendingIds(items, events)
    requires forall i | 0 <= i < |stranded| :: stranded[i] in items
    ensures Final(ReleaseRows(stranded, now), items[k].id) ==
              if Completed(events, k) then None else Some(ReleaseRow(items[k], now))
  {
    assert forall i, j | 0 <= i < j < |stranded| :: IdsOf(stranded)[i] != IdsOf(stranded)[j];
    FinalOfReleases(stranded, now, items[k].id);
    if Completed(events, k) {
      forall i | 0 <= i < |stranded| ensures stranded[i].id != items[k].id {
        assert IdsOf(stranded)[i] in PendingIds(items, events);
        var j :| 0 <= j < |items| && !Completed(events, j) && items[j].id == stranded[i].id;
        if items[j].id == items[k].id { SameIdSameItem(items, j, k); }
      }
    } else {
      assert items[k].id in Elements(IdsOf(stranded));
      var i :| 0 <= i < |IdsOf(stranded)| && IdsOf(stranded)[i] == items[k].id;
      var j :| 0 <= j < |items| && items[j] == stranded[i];
      SameIdSameItem(items, j, k);
    }
  }

  lemma ReleasesReach(rows: Ledger, items: seq<Item>, stranded: seq<Item>, events: seq<Event>, maxAttempts: nat,
                      now: Millis, k: nat, others: Others)
    requires ItemsReady(items) && AllStand(rows, items, events, maxAttempts, others) && k < |items|
    requires Distinct(IdsOf(stranded)) && Elements(IdsOf(stranded)) == PendingIds(items, events)
    requires forall i | 0 <= i < |stranded| :: stranded[i] in items
    ensures Stands(rows + ReleaseRows(stranded, now), items[k], FateOf(events, k, items[k], maxAttempts),
                   !Completed(events, k), others)
  {
    ReleasesArePending(items, stranded, events, now, k);
    if Completed(events, k) {
      FinalOfAppend(rows, ReleaseRows(stranded, now), items[k].id);
    } else {
      StandsAfterRelease(rows, ReleaseRows(stranded, now), items[k], FateOf(events, k, items[k], maxAttempts), now,
                         others);
    }
  }

  class EnrichmentService {
    const store: Store
    const maxAttempts: nat

    constructor (store: Store, maxAttempts: nat)
      ensures this.store == store && this.maxAttempts == maxAttempts
    {
      this.store, this.maxAttempts := store, maxAttempts;
    }

    /** Everyone else acts, between two writes of the batch. */
    method LetOthersAct(i: nat, items: seq<Item>, events: seq<Event>, others: Others)
      requires Act(others) && WellFormedRows(store.rows) && ItemsReady(items)
      requires AllStand(store.rows, items, events, maxAttempts, others)
      modifies store`rows
      ensures store.rows == others(i, old(store.rows)) && WellFormedRows(store.rows)
      ensures AllStand(store.rows, items, events, maxAttempts, others)
    {
      ReachedIsWellFormed(store.rows, others(i, store.rows));
      AllStandAfterOthers(store.rows, i, items, events, maxAttempts, others);
      store.rows := others(i, store.rows);
    }

    /** The next write of a task. */
    method RunEvent(items: seq<Item>, events: seq<Event>, i: nat, before: set<WorkId>, ghost others: Others)
        returns (pending: set<WorkId>)
      requires WellFormedRows(store.rows) && store.recent.Valid()
      requires ItemsReady(items) && EventsFit(events, |items|) && i < |events|
      requires AllStand(store.rows, items, events[..i], maxAttempts, others) && before == PendingIds(items, events[..i])
      modifies store`rows, store`deadLetters, store.recent
      ensures WellFormedRows(store.rows) && store.recent.Valid()
      ensures AllStand(store.rows, items, events[..i + 1], maxAttempts, others)
      ensures pending == PendingIds(items, events[..i + 1])
    {
      ghost var rows := store.rows;
      PendingStep(items, events, i);
      pending := before;
      match events[i] {
        case Fanout(ids, monotonic, at, lands) =>
          var _, _ := store.EnqueueWorkMany(ids, at, monotonic, lands);
          assert store.rows == rows + store.rows[|rows|..];
          AllStandAfterFanout(rows, store.rows[|rows|..], items, events, i, maxAttempts, others);
        case Wrote(k, verdict, completes, at) =>
          AllStandAfterWrite(rows, items, events, i, maxAttempts, others);
          store.FinishWork(items[k], OutcomeOf(items[k], verdict, maxAttempts, at), at);
          if completes { pending := pending - {items[k].id}; }
      }
    }

    /** The writes of the tasks, in the order they reach the store, and which items are left
        pending. Before each of them everyone else may act. */
    method RunTasks(items: seq<Item>, events: seq<Event>, others: Others) returns (pending: set<WorkId>)
      requires Act(others) && WellFormedRows(store.rows) && ItemsReady(items) && EventsFit(events, |items|)
      requires AllStand(store.rows, items, [], maxAttempts, others) && store.recent.Valid()
      modifies store`rows, store`deadLetters, store.recent
      ensures WellFormedRows(store.rows) && store.recent.Valid()
      ensures AllStand(store.rows, items, events, maxAttempts, others)
      ensures pending == PendingIds(items, events)
    {
      pending := set k | 0 <= k < |items| :: items[k].id;
      assert events[..0] == [];
      for i := 0 to |events|
        invariant WellFormedRows(store.rows) && store.recent.Valid()
        invariant AllStand(store.rows, items, events[..i], maxAttempts, others)
        invariant pending == PendingIds(items, events[..i])
      {
        LetOthersAct(i + 1, items, events[..i], others);
        pending := RunEvent(items, events, i, pending, others);
      }
      assert events[..|events|] == events;
    }

    /** Lease a batch, run its tasks, and release the unfinished ones if the deadline passed.
        Others may act between the query and the lease, before every write, and before the
        release. */
    method RunOnce(found: seq<WorkRow>, read: Millis, limit: nat, leasedAt: Millis, events: seq<Event>, timedOut: bool,
                   releasedAt: Millis, others: Others)
        returns (done: Result<nat>)
      requires Act(others) && WellFormedRows(store.rows) && LeaseQuery(store.rows, found, read, limit)
      requires EventsFit(events, |found|) && store.recent.Valid()
      modifies store`rows, store`deadLetters, store.recent
      ensures WellFormedRows(store.rows)
      ensures done.Refused? ==> store.rows == others(0, old(store.rows))
      ensures done.Ok? ==> done.value == |CompletedBelow(events, |found|)|
      ensures done.Ok? ==> forall k | 0 <= k < |found| ::
                Stands(store.rows, ItemsOf(found)[k], FateOf(events, k, ItemsOf(found)[k], maxAttempts),
                       timedOut && !Completed(events, k), others)
      ensures done.Ok? ==> forall k | 0 <= k < |found| && Spare(others, found[k].key) ::
                Judged(Final(store.rows, found[k].key), events, k, found[k].value.attempts + 1, maxAttempts,
                       timedOut && !Completed(events, k))
    {
      ghost var queried := store.rows;
      ReachedIsWellFormed(queried, others(0, queried));
      store.rows := others(0, store.rows);
      var leased := store.LeaseWork(queried, found, read, limit, leasedAt);
      if leased.Refused? {
        return Refused;
      }
      var items := leased.value;
      LeasedBatch(queried, others(0, queried), found, read, limit, leasedAt, maxAttempts, others);
      if items == [] {
        assert CompletedBelow(events, |found|) == {};
        return Ok(0);
      }
      var pending := RunTasks(items, events, others);
      PendingCount(items, events, |items|);
      assert items[..|items|] == items;
      done := Ok(|items| - |pending|);
      if timedOut {
        LetOthersAct(|events| + 1, items, events, others);
        ReleaseStranded(items, events, pending, releasedAt, others);
      }
      AllJudged(store.rows, items, events, maxAttempts, timedOut, others);
    }

    /** Release what is still pending at the deadline. */
    method ReleaseStranded(items: seq<Item>, events: seq<Event>, pending: set<WorkId>, releasedAt: Millis,
                           ghost others: Others)
      requires WellFormedRows(store.rows) && ItemsReady(items) && pending == PendingIds(items, events)
      requires AllStand(store.rows, items, events, maxAttempts, others)
      modifies store`rows
      ensures WellFormedRows(store.rows)
      ensures forall k | 0 <= k < |items| ::
                Stands(store.rows, items[k], FateOf(events, k, items[k], maxAttempts), !Completed(events, k), others)
    {
      ghost var before := store.rows;
      var stranded := Stranded(items, pending);
      store.ReleaseWork(stranded, releasedAt);
      forall k | 0 <= k < |items|
        ensures Stands(store.rows, items[k], FateOf(events, k, items[k], maxAttempts), !Completed(events, k), others)
      {
        ReleasesReach(before, items, stranded, events, maxAttempts, releasedAt, k, others);
      }
    }

    /** The pending items, in whatever order the set yields them. */
    method Stranded(items: seq<Item>, pending: set<WorkId>) returns (stranded: seq<Item>)
      requires forall id | id in pending :: id in IdsOf(items)
      ensures Distinct(IdsOf(stranded)) && Elements(IdsOf(stranded)) == pending
      ensures forall i | 0 <= i < |stranded| :: stranded[i] in items
    {
      stranded := [];
      var left := pending;
      while left != {}
        invariant left <= pending
        invariant Distinct(IdsOf(stranded)) && Elements(IdsOf(stranded)) == pending - left
        invariant forall i | 0 <= i < |stranded| :: stranded[i] in items
        decreases left
      {
        var id :| id in left;
        var item := ById(items, id);
        assert IdsOf(stranded + [item]) == IdsOf(stranded) + [id];
        assert id !in Elements(IdsOf(stranded));
        ElementsOfPush(IdsOf(stranded), id);
        stranded := stranded + [item];
        left := left - {id};
      }
    }
  }

  function ById(items: seq<Item>, id: WorkId): (item: Item)
    requires id in IdsOf(items)
    ensures item in items && item.id == id
  {
    if items[0].id == id then items[0]
    else
      assert id in IdsOf(items[1..]) by {
        var k :| 0 <= k < |items| && IdsOf(items)[k] == id;
        assert IdsOf(items[1..])[k - 1] == id;
      }
      ById(items[1..], id)
  }

  lemma LeasedBatch(queried: Ledger, rows: Ledger, found: seq<WorkRow>, read: Millis, limit: nat, now: Millis,
                    maxAttempts: nat, others: Others)
    requires WellFormedRows(queried) && WellFormedRows(rows) && rows == others(0, queried)
    requires LeaseQuery(queried, found, read, limit)
    requires forall i | 0 <= i < |found| :: found[i].value.attempts < MAX_ATTEMPTS
    ensures ItemsReady(ItemsOf(found))
    ensures var leased := rows + LeaseRows(ItemsOf(found), now);
            WellFormedRows(leased) && AllStand(leased, ItemsOf(found), [], maxAttempts, others)
  {
    var items := ItemsOf(found);
    forall k | 0 <= k < |items|
      ensures Stands(rows + LeaseRows(items, now), items[k], Untouched, false, others)
    {
      LeasedItemStands(queried, rows, found, read, limit, now, k, others);
    }
  }

  /** The deadline batch: when the deadline passed, no lease of the batch is left running. Unless
      the id was deleted, FINAL reads running only for a later lease with more attempts, and
      never a status below the best terminal outcome written for the item. If others spared the
      item, it stands exactly at that outcome, or is pending: with the attempt charged if its
      retry completed, without it if it was released. */
  lemma NoneLeftRunning(rows: Ledger, item: Item, events: seq<Event>, k: nat, maxAttempts: nat, others: Others)
    requires WellFormedRows(rows) && 1 <= item.attempts <= MAX_ATTEMPTS
    requires Stands(rows, item, FateOf(events, k, item, maxAttempts), !Completed(events, k), others)
    ensures var fate, final := FateOf(events, k, item, maxAttempts), Final(rows, item.id);
            Keep(others, item.id) ==>
              && ReadsAtLeast(rows, item.id, item.attempts * 10 + 2)
              && (ReadsRunning(rows, item.id) ==> item.attempts < final.value.value.attempts)
              && (fate.Settled? ==> Terminal(final.value.value.status) && fate.rank <= Rank(final.value.value.status))
    ensures var fate, final := FateOf(events, k, item, maxAttempts), Final(rows, item.id);
            Spare(others, item.id) ==>
              && final.Some? && !final.value.value.status.Running?
              && (Terminal(final.value.value.status) <==> fate.Settled?)
              && (fate.Settled? ==> Rank(final.value.value.status) == fate.rank)
              && (final.value.value.status.Pending? ==>
                    final.value.value.attempts == if Completed(events, k) then item.attempts else item.attempts - 1)
  {
    var fate := FateOf(events, k, item, maxAttempts);
    FateIsAnOutcome(events, k, item, maxAttempts);
    if Completed(events, k) {
      CompletedIsNotUntouched(events, k, item, maxAttempts);
    }
    if Keep(others, item.id) {
      FloorMeans(rows, item, fate);
      RunningAboveIsLater(rows, item);
    }
  }

  lemma {:induction false} FateIsAnOutcome(events: seq<Event>, k: nat, item: Item, maxAttempts: nat)
    ensures var fate := FateOf(events, k, item, maxAttempts); fate.Settled? ==> 1 <= fate.rank <= 3
  {
    if events == [] {
    } else {
      FateIsAnOutcome(events[..|events| - 1], k, item, maxAttempts);
    }
  }

  lemma FloorMeans(rows: Ledger, item: Item, fate: Fate)
    requires WellFormedRows(rows) && 1 <= item.attempts <= MAX_ATTEMPTS
    requires ReadsAtLeast(rows, item.id, Floor(item, fate, true))
    requires fate.Settled? ==> 1 <= fate.rank <= 3
    ensures ReadsAtLeast(rows, item.id, item.attempts * 10 + 2)
    ensures var final := Final(rows, item.id).value;
            fate.Settled? ==> Terminal(final.value.status) && fate.rank <= Rank(final.value.status)
  {
    RevisionDeterminesStatus(Final(rows, item.id).value);
  }

  /** And that stays so: whatever run follows the batch, until a delete names the id. */
  lemma BatchStaysEnded(rows: Ledger, item: Item, fate: Fate, states: seq<State>, actions: seq<Action>, j: nat)
    requires Run(states, actions) && Inv(states[0]) && j < |states| && states[0].rows == rows
    requires forall i | 0 <= i < j :: !Deletes(actions[i], item.id)
    requires 1 <= item.attempts <= MAX_ATTEMPTS && (fate.Settled? ==> 1 <= fate.rank <= 3)
    requires ReadsAtLeast(rows, item.id, Floor(item, fate, true))
    ensures var later, final := states[j].rows, Final(states[j].rows, item.id);
            && final.Some? && (ReadsRunning(later, item.id) ==> item.attempts < final.value.value.attempts)
            && (fate.Settled? ==> Terminal(final.value.value.status) && fate.rank <= Rank(final.value.value.status))
  {
    RevisionNeverFalls(states, actions, 0, j, item.id, Floor(item, fate, true));
    RunKeepsInv(states, actions, j);
    FloorMeans(states[j].rows, item, fate);
    RunningAboveIsLater(states[j].rows, item);
  }

  /** Releases do not use up the retry budget: over every run in which an item is only leased
      and released, its holder judges a failure exactly as the first holder would have. It is
      given up, and written `dead`, if and only if the first lease already was the last. */
  lemma ReleasedItemsAreNeverDead(states: seq<State>, actions: seq<Action>, i: nat, item: Item, attempts: nat,
                                  maxAttempts: nat, now: Millis)
    requires Run(states, actions) && Inv(states[0]) && i < |states|
    requires OpenWith(Final(states[0].rows, item.id), attempts) && Idle(states[0], item.id)
    requires !ReadsRunning(states[0].rows, item.id)
    requires forall k | 0 <= k < i :: OnlyLeasedAndReleased(states[k], actions[k], item.id)
    requires item in states[i].held
    ensures OutcomeOf(item, Raised, maxAttempts, now).GiveUp? <==> maxAttempts <= attempts + 1
  {
    ReleaseChargesNothing(states, actions, i, item.id, attempts);
    assert item in states[i].selected + states[i].held;
  }
}
