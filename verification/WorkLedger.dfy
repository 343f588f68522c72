/** The work queue as a protocol.

    `work_items` is append-only: a worker never updates a row, it inserts one whose revision
    says where the item stands, and FINAL keeps the largest revision. Nothing is atomic: a
    lease reads FINAL and inserts later, holders of old leases may still write, background
    merges and retention deletes run at any time. A `State` is the table together with what
    workers have read or hold; `Step` is one write, read, merge or delete by anyone. */
module WorkLedger {
  import opened VersionedTable

  type WorkId = string
  type Millis = int

  datatype Status = Pending | Running | Done | Dead | Unavailable

  datatype Work = Work(status: Status, attempts: nat, nextAttempt: Millis, leaseUntil: Option<Millis>,
                       observedAt: Millis)

  type WorkRow = Row<WorkId, Work>
  type Ledger = Table<WorkId, Work>

  /** A leased item in a worker's memory. */
  datatype Item = Item(id: WorkId, attempts: nat)

  datatype Outcome = Success | NotServed | RetryAt(at: Millis) | GiveUp

  const MAX_REVISION: nat := 0xFFFF_FFFF_FFFF_FFFF
  const UNAVAILABLE_REVISION: nat := MAX_REVISION - 2
  /** `attempts` is a UInt16 column: a row with a larger count cannot be inserted. */
  const MAX_ATTEMPTS: nat := 0xFFFF
  const LEASE_MILLIS: Millis := 300_000

  function EnqueueRow(id: WorkId, now: Millis): WorkRow {
    Row(id, 0, Work(Pending, 0, now, None, now))
  }

  function LeaseRow(item: Item, now: Millis): WorkRow {
    Row(item.id, item.attempts * 10 + 1, Work(Running, item.attempts, now, Some(now + LEASE_MILLIS), now))
  }

  function ReleaseRow(item: Item, now: Millis): WorkRow {
    var attempts := if item.attempts == 0 then 0 else item.attempts - 1;
    Row(item.id, item.attempts * 10 + 2, Work(Pending, attempts, now, None, now))
  }

  function FinishRow(item: Item, outcome: Outcome, now: Millis): WorkRow {
    match outcome
    case NotServed => Row(item.id, UNAVAILABLE_REVISION, Work(Unavailable, item.attempts, now, None, now))
    case Success => Row(item.id, MAX_REVISION, Work(Done, item.attempts, now, None, now))
    case RetryAt(at) => Row(item.id, item.attempts * 10 + 2, Work(Pending, item.attempts, at, None, now))
    case GiveUp => Row(item.id, MAX_REVISION - 1, Work(Dead, item.attempts, now, None, now))
  }

  predicate Terminal(status: Status) {
    status.Done? || status.Dead? || status.Unavailable?
  }

  /** The order in which terminal outcomes win over each other. */
  function Rank(status: Status): nat {
    match status case Unavailable => 1 case Dead => 2 case Done => 3 case _ => 0
  }

  predicate Leaseable(r: WorkRow, now: Millis) {
    || (r.value.status.Pending? && r.value.nextAttempt <= now)
    || (r.value.status.Running? && r.value.leaseUntil.Some? && r.value.leaseUntil.value < now)
  }

  // ---------------------------------------------------------------- the protocol

  datatype State = State(rows: Ledger, selected: set<Item>, held: set<Item>)

  datatype Action =
    | Enqueue(ids: seq<WorkId>, now: Millis)
    | Select(id: WorkId, now: Millis)
    | Lease(item: Item, now: Millis)
    | Release(item: Item, now: Millis)
    | Finish(item: Item, outcome: Outcome, now: Millis)
    | Forget(item: Item)
    | Merge
    | Delete(purged: set<WorkId>)

  function EnqueueRows(ids: seq<WorkId>, now: Millis): Ledger {
    seq(|ids|, i requires 0 <= i < |ids| => EnqueueRow(ids[i], now))
  }

  /** One event. A worker may repeat any write for an item it holds, or lose the item at any
      time (`Forget`: a crash). A `Delete` may name any ids at all. */
  ghost predicate Step(s: State, a: Action, t: State) {
    match a
    case Enqueue(ids, now) =>
      t == s.(rows := s.rows + EnqueueRows(ids, now))
    case Select(id, now) =>
      var r := Final(s.rows, id);
      && r.Some? && Leaseable(r.value, now)
      && t == s.(selected := s.selected + {Item(id, r.value.value.attempts + 1)})
    case Lease(item, now) =>
      && item in s.selected && item.attempts <= MAX_ATTEMPTS
      && t == s.(rows := s.rows + [LeaseRow(item, now)], held := s.held + {item})
    case Release(item, now) =>
      item in s.held && t == s.(rows := s.rows + [ReleaseRow(item, now)])
    case Finish(item, outcome, now) =>
      item in s.held && t == s.(rows := s.rows + [FinishRow(item, outcome, now)])
    case Forget(item) =>
      t == s.(selected := s.selected - {item}, held := s.held - {item})
    case Merge =>
      MergeStep(s.rows, t.rows) && t == s.(rows := t.rows)
    case Delete(ids) =>
      t == s.(rows := Without(s.rows, ids))
  }

  ghost predicate Run(states: seq<State>, actions: seq<Action>) {
    && |states| == |actions| + 1
    && forall i | 0 <= i < |actions| :: Step(states[i], actions[i], states[i + 1])
  }

  // ---------------------------------------------------------------- what every step keeps

  predicate ReleaseShaped(r: WorkRow) {
    var w := r.value;
    && w.status.Pending? && r.version == (w.attempts + 1) * 10 + 2
    && w.leaseUntil.None? && w.nextAttempt == w.observedAt
  }

  /** Every row is of one of the shapes the writers produce. */
  predicate WellFormed(r: WorkRow) {
    var w := r.value;
    && w.attempts <= MAX_ATTEMPTS
    && match w.status
       case Pending =>
         && w.leaseUntil.None?
         && (|| (r.version == 0 && w.attempts == 0 && w.nextAttempt == w.observedAt)
             || (r.version == w.attempts * 10 + 2 && 1 <= w.attempts)
             || (ReleaseShaped(r) && w.attempts < MAX_ATTEMPTS))
       case Running =>
         && r.version == w.attempts * 10 + 1 && 1 <= w.attempts
         && w.leaseUntil == Some(w.observedAt + 300_000) && w.nextAttempt == w.observedAt
       case Unavailable => r.version == UNAVAILABLE_REVISION && w.leaseUntil.None?
       case Dead => r.version == MAX_REVISION - 1 && w.leaseUntil.None?
       case Done => r.version == MAX_REVISION && w.leaseUntil.None?
  }

  predicate WellFormedRows(rows: Ledger) {
    forall r | r in rows :: WellFormed(r)
  }

  predicate Inv(s: State) {
    && WellFormedRows(s.rows)
    && (forall item | item in s.selected :: 1 <= item.attempts)
    && (forall item | item in s.held :: 1 <= item.attempts <= MAX_ATTEMPTS)
  }

  lemma StepKeepsInv(s: State, a: Action, t: State)
    requires Inv(s) && Step(s, a, t)
    ensures Inv(t)
  {
    match a
    case Merge => MergePreservesFinal(s.rows, t.rows, "");
    case Delete(ids) =>
      forall r | r in t.rows ensures WellFormed(r) { WithoutMembers(s.rows, ids, r); }
    case Enqueue(ids, now) =>
    case _ =>
  }

  lemma {:induction false} RunKeepsInv(states: seq<State>, actions: seq<Action>, i: nat)
    requires Run(states, actions) && i < |states| && Inv(states[0])
    ensures Inv(states[i])
  {
    if i == 0 {
    } else {
      RunKeepsInv(states, actions, i - 1);
      StepKeepsInv(states[i - 1], actions[i - 1], states[i]);
    }
  }

  /** The status a revision stands for. */
  function StatusOf(revision: nat): Status {
    if revision == MAX_REVISION then Done
    else if revision == MAX_REVISION - 1 then Dead
    else if revision == UNAVAILABLE_REVISION then Unavailable
    else if revision % 10 == 1 then Running
    else Pending
  }

  /** The revision alone determines the status, because the revision of an open row stays
      below the three terminal ones. */
  lemma RevisionDeterminesStatus(r: WorkRow)
    requires WellFormed(r)
    ensures r.value.status == StatusOf(r.version)
    ensures Terminal(r.value.status) <==> 18_446_744_073_709_551_613 <= r.version <= 18_446_744_073_709_551_615
    ensures !Terminal(r.value.status) ==> r.version <= 655_352
  {
    var a := r.value.attempts;
    assert (a * 10 + 1) % 10 == 1;
    assert (a * 10 + 2) % 10 == 2;
    assert ((a + 1) * 10 + 2) % 10 == 2;
  }

  lemma RankFollowsRevision(r: WorkRow, s: WorkRow)
    requires WellFormed(r) && WellFormed(s) && r.version <= s.version && Terminal(r.value.status)
    ensures Terminal(s.value.status) && Rank(r.value.status) <= Rank(s.value.status)
  {
    RevisionDeterminesStatus(r);
    RevisionDeterminesStatus(s);
  }

  /** Terminal, and at least as high as `status`. */
  predicate SettledAtLeast(final: Option<WorkRow>, status: Status) {
    final.Some? && Terminal(final.value.value.status) && Rank(status) <= Rank(final.value.value.status)
  }

  predicate Deletes(a: Action, id: WorkId) {
    a.Delete? && id in a.purged
  }

  predicate ReadsRunning(rows: Ledger, id: WorkId) {
    Final(rows, id).Some? && Final(rows, id).value.value.status.Running?
  }

  /** FINAL reads a row of at least this revision. */
  predicate ReadsAtLeast(rows: Ledger, id: WorkId, revision: nat) {
    Final(rows, id).Some? && revision <= Final(rows, id).value.version
  }

  lemma StepKeepsRevision(s: State, a: Action, t: State, id: WorkId, revision: nat)
    requires Step(s, a, t) && !Deletes(a, id) && ReadsAtLeast(s.rows, id, revision)
    ensures ReadsAtLeast(t.rows, id, revision)
  {
    match a
    case Enqueue(ids, now) => FinalOfAppend(s.rows, EnqueueRows(ids, now), id);
    case Lease(item, now) => FinalOfPush(s.rows, LeaseRow(item, now), id);
    case Release(item, now) => FinalOfPush(s.rows, ReleaseRow(item, now), id);
    case Finish(item, outcome, now) => FinalOfPush(s.rows, FinishRow(item, outcome, now), id);
    case Merge => MergePreservesFinal(s.rows, t.rows, id);
    case Delete(ids) => FinalOfWithout(s.rows, ids, id);
    case _ =>
  }

  /** Whoever acts, the revision FINAL reads never falls until a delete names the id. */
  lemma {:induction false} RevisionNeverFalls(states: seq<State>, actions: seq<Action>, i: nat, j: nat, id: WorkId,
                                              revision: nat)
    requires Run(states, actions) && i <= j < |states| && ReadsAtLeast(states[i].rows, id, revision)
    requires forall k | i <= k < j :: !Deletes(actions[k], id)
    ensures ReadsAtLeast(states[j].rows, id, revision)
  {
    if i == j {
    } else {
      RevisionNeverFalls(states, actions, i, j - 1, id, revision);
      StepKeepsRevision(states[j - 1], actions[j - 1], states[j], id, revision);
    }
  }

  lemma WrittenIsRead(rows: Ledger, r: WorkRow)
    requires r in rows
    ensures ReadsAtLeast(rows, r.key, r.version)
  {
    FinalIsNewest(rows, r.key);
  }

  lemma TerminalRowSettles(rows: Ledger, r: WorkRow)
    requires WellFormedRows(rows) && r in rows && Terminal(r.value.status)
    ensures SettledAtLeast(Final(rows, r.key), r.value.status)
  {
    FinalWins(rows, r.key);
    RankFollowsRevision(r, Final(rows, r.key).value);
  }

  /** Terminal absorption. Once any terminal row of an id is in the table, FINAL reads a
      terminal status for it, never a lower one, through every interleaving of workers,
      stale holders, enqueues and merges, until a delete names the id. */
  lemma TerminalIsAbsorbing(states: seq<State>, actions: seq<Action>, i: nat, j: nat, r: WorkRow)
    requires Run(states, actions) && Inv(states[0])
    requires i <= j < |states| && r in states[i].rows && Terminal(r.value.status)
    requires forall k | i <= k < j :: !Deletes(actions[k], r.key)
    ensures SettledAtLeast(Final(states[j].rows, r.key), r.value.status)
  {
    WrittenIsRead(states[i].rows, r);
    RevisionNeverFalls(states, actions, i, j, r.key, r.version);
    RunKeepsInv(states, actions, i);
    RunKeepsInv(states, actions, j);
    RankFollowsRevision(r, Final(states[j].rows, r.key).value);
  }

  lemma RunningAboveIsLater(rows: Ledger, item: Item)
    requires WellFormedRows(rows) && ReadsAtLeast(rows, item.id, item.attempts * 10 + 2)
    ensures ReadsRunning(rows, item.id) ==> item.attempts < Final(rows, item.id).value.value.attempts
  {
  }

  /** Once its holder has released or finished an item, the lease never reads as running again:
      whatever anyone does, until a delete names the id, FINAL reads running only for a later
      lease with more attempts. */
  lemma EndedLeaseNeverRunsAgain(states: seq<State>, actions: seq<Action>, i: nat, j: nat, item: Item)
    requires Run(states, actions) && Inv(states[0]) && i < j < |states|
    requires (actions[i].Release? || actions[i].Finish?) && actions[i].item == item
    requires forall k | i < k < j :: !Deletes(actions[k], item.id)
    ensures ReadsAtLeast(states[j].rows, item.id, item.attempts * 10 + 2)
    ensures ReadsRunning(states[j].rows, item.id) ==>
              item.attempts < Final(states[j].rows, item.id).value.value.attempts
  {
    var a, rows := actions[i], states[i + 1].rows;
    assert Step(states[i], a, states[i + 1]);
    RunKeepsInv(states, actions, i);
    WrittenIsRead(rows, if a.Release? then ReleaseRow(item, a.now) else FinishRow(item, a.outcome, a.now));
    RevisionNeverFalls(states, actions, i + 1, j, item.id, item.attempts * 10 + 2);
    RunKeepsInv(states, actions, j);
    RunningAboveIsLater(states[j].rows, item);
  }

  // ---------------------------------------------------------------- what others do meanwhile

  ghost predicate Leads(states: seq<State>, actions: seq<Action>, t: Ledger, u: Ledger) {
    Run(states, actions) && Inv(states[0]) && states[0].rows == t && states[|actions|].rows == u
  }

  /** Anything that any workers, with any claims, and the engine may do turns `t` into `u`. */
  ghost predicate Reaches(t: Ledger, u: Ledger) {
    exists states, actions :: Leads(states, actions, t, u)
  }

  /** The same without a delete that names the id. */
  ghost predicate ReachesKeeping(t: Ledger, u: Ledger, id: WorkId) {
    exists states, actions :: Leads(states, actions, t, u) && forall a | a in actions :: !Deletes(a, id)
  }

  /** Merges and enqueues, and writes and deletes of other ids. */
  predicate Spares(a: Action, id: WorkId) {
    match a
    case Lease(item, _) => item.id != id
    case Release(item, _) => item.id != id
    case Finish(item, _, _) => item.id != id
    case Delete(purged) => id !in purged
    case _ => true
  }

  ghost predicate ReachesSparing(t: Ledger, u: Ledger, id: WorkId) {
    exists states, actions :: Leads(states, actions, t, u) && forall a | a in actions :: Spares(a, id)
  }

  lemma SparingKeeps(t: Ledger, u: Ledger, id: WorkId)
    requires ReachesSparing(t, u, id)
    ensures ReachesKeeping(t, u, id)
  {
    var states, actions :| Leads(states, actions, t, u) && forall a | a in actions :: Spares(a, id);
    assert forall a | a in actions :: !Deletes(a, id);
  }

  lemma ReachedIsWellFormed(t: Ledger, u: Ledger)
    requires Reaches(t, u)
    ensures WellFormedRows(u)
  {
    var states, actions :| Leads(states, actions, t, u);
    RunKeepsInv(states, actions, |actions|);
  }

  lemma KeepingNeverFalls(t: Ledger, u: Ledger, id: WorkId, revision: nat)
    requires ReachesKeeping(t, u, id) && ReadsAtLeast(t, id, revision)
    ensures ReadsAtLeast(u, id, revision)
  {
    var states, actions :| Leads(states, actions, t, u) && forall a | a in actions :: !Deletes(a, id);
    RevisionNeverFalls(states, actions, 0, |actions|, id, revision);
  }

  lemma AppendSparing(rows: Ledger, more: Ledger, id: WorkId)
    requires ReadsAtLeast(rows, id, 1) && forall r | r in more && r.key == id :: r.version == 0
    ensures Final(rows + more, id) == Final(rows, id)
  {
    FinalOfAppend(rows, more, id);
    FinalIsNewest(more, id);
  }

  lemma StepSparing(s: State, a: Action, t: State, id: WorkId)
    requires Step(s, a, t) && Spares(a, id) && ReadsAtLeast(s.rows, id, 1)
    ensures Final(t.rows, id) == Final(s.rows, id)
  {
    match a
    case Enqueue(ids, now) => AppendSparing(s.rows, EnqueueRows(ids, now), id);
    case Lease(item, now) => AppendSparing(s.rows, [LeaseRow(item, now)], id);
    case Release(item, now) => AppendSparing(s.rows, [ReleaseRow(item, now)], id);
    case Finish(item, outcome, now) => AppendSparing(s.rows, [FinishRow(item, outcome, now)], id);
    case Merge => MergePreservesFinal(s.rows, t.rows, id);
    case Delete(ids) => FinalOfWithout(s.rows, ids, id);
    case _ =>
  }

  lemma {:induction false} RunSparing(states: seq<State>, actions: seq<Action>, i: nat, id: WorkId)
    requires Run(states, actions) && i < |states| && ReadsAtLeast(states[0].rows, id, 1)
    requires forall a | a in actions :: Spares(a, id)
    ensures Final(states[i].rows, id) == Final(states[0].rows, id)
  {
    if i == 0 {
    } else {
      RunSparing(states, actions, i - 1, id);
      StepSparing(states[i - 1], actions[i - 1], states[i], id);
    }
  }

  predicate ReadsFirst(rows: Ledger, id: WorkId) {
    Final(rows, id).Some? && Final(rows, id).value.version == 0 && WellFormed(Final(rows, id).value)
  }

  lemma AppendSparingFirst(rows: Ledger, more: Ledger, id: WorkId)
    requires ReadsFirst(rows, id) && forall r | r in more && r.key == id :: r.version == 0 && WellFormed(r)
    ensures ReadsFirst(rows + more, id)
  {
    FinalOfAppend(rows, more, id);
    FinalIsNewest(more, id);
  }

  lemma StepSparingFirst(s: State, a: Action, t: State, id: WorkId)
    requires Step(s, a, t) && Spares(a, id) && ReadsFirst(s.rows, id)
    ensures ReadsFirst(t.rows, id)
  {
    match a
    case Enqueue(ids, now) => AppendSparingFirst(s.rows, EnqueueRows(ids, now), id);
    case Lease(item, now) => AppendSparingFirst(s.rows, [LeaseRow(item, now)], id);
    case Release(item, now) => AppendSparingFirst(s.rows, [ReleaseRow(item, now)], id);
    case Finish(item, outcome, now) => AppendSparingFirst(s.rows, [FinishRow(item, outcome, now)], id);
    case Merge => MergePreservesFinal(s.rows, t.rows, id);
    case Delete(ids) => FinalOfWithout(s.rows, ids, id);
    case _ =>
  }

  lemma {:induction false} RunSparingFirst(states: seq<State>, actions: seq<Action>, i: nat, id: WorkId)
    requires Run(states, actions) && i < |states| && ReadsFirst(states[0].rows, id)
    requires forall a | a in actions :: Spares(a, id)
    ensures ReadsFirst(states[i].rows, id)
  {
    if i == 0 {
    } else {
      RunSparingFirst(states, actions, i - 1, id);
      StepSparingFirst(states[i - 1], actions[i - 1], states[i], id);
    }
  }

  /** An id that has only been enqueued still has, when everyone spares it. */
  lemma SparingKeepsFirst(t: Ledger, u: Ledger, id: WorkId)
    requires ReachesSparing(t, u, id) && ReadsFirst(t, id)
    ensures ReadsFirst(u, id)
  {
    var states, actions :| Leads(states, actions, t, u) && forall a | a in actions :: Spares(a, id);
    RunSparingFirst(states, actions, |actions|, id);
  }

  lemma SparingKeepsFinal(t: Ledger, u: Ledger, id: WorkId)
    requires ReachesSparing(t, u, id) && ReadsAtLeast(t, id, 1)
    ensures Final(u, id) == Final(t, id)
  {
    var states, actions :| Leads(states, actions, t, u) && forall a | a in actions :: Spares(a, id);
    RunSparing(states, actions, |actions|, id);
  }

  // ---------------------------------------------------------------- insertion order

  function StatusIn(r: WorkRow): Status {
    r.value.status
  }

  /** FINAL's status is a function of the largest revision, so it does not depend on the
      order in which the rows of a reachable table were inserted. */
  lemma StatusIgnoresInsertionOrder(rows: Ledger, reordered: Ledger, id: WorkId)
    requires WellFormedRows(rows) && multiset(rows) == multiset(reordered)
    ensures Final(rows, id).Some? <==> Final(reordered, id).Some?
    ensures Final(rows, id).Some? ==>
              && Final(rows, id).value.value.status == StatusOf(Final(rows, id).value.version)
              && Final(reordered, id).value.value.status == Final(rows, id).value.value.status
  {
    forall r | r in rows ensures StatusIn(r) == StatusOf(r.version) { RevisionDeterminesStatus(r); }
    FinalIgnoresInsertionOrder(rows, reordered, id, StatusIn);
  }

  function AttemptsOf(r: WorkRow): nat {
    r.value.attempts
  }

  /** The attempt count does depend on it, if and only if two rows of the id's largest revision
      carry different counts. */
  lemma AttemptsDependOnInsertionOrderIff(rows: Ledger, id: WorkId)
    ensures (exists u, v :: multiset(u) == multiset(rows) == multiset(v) && Final(u, id).Some? && Final(v, id).Some?
                         && AttemptsOf(Final(u, id).value) != AttemptsOf(Final(v, id).value))
       <==> exists r, s :: IsNewest(rows, id, r) && IsNewest(rows, id, s) && AttemptsOf(r) != AttemptsOf(s)
  {
    OrderMattersIff(rows, id, AttemptsOf);
  }

  const NEW := State([], {}, {})

  lemma ExtendRun(states: seq<State>, actions: seq<Action>, a: Action, t: State)
    requires Run(states, actions) && Step(states[|states| - 1], a, t)
    ensures Run(states + [t], actions + [a])
  {
  }

  /** A run on a new table in which `id` is enqueued and leased once. */
  lemma FirstLease(id: WorkId, now: Millis) returns (states: seq<State>, actions: seq<Action>)
    ensures Run(states, actions) && states[0] == NEW
    ensures states[|states| - 1] == State([EnqueueRow(id, now), LeaseRow(Item(id, 1), now)], {Item(id, 1)},
                                          {Item(id, 1)})
  {
    var item := Item(id, 1);
    var enqueued := State([EnqueueRow(id, now)], {}, {});
    assert EnqueueRows([id], now) == [EnqueueRow(id, now)];
    FinalOfPush([], EnqueueRow(id, now), id);
    assert [] + [EnqueueRow(id, now)] == [EnqueueRow(id, now)];
    states := [NEW, enqueued, enqueued.(selected := {item}),
               State(enqueued.rows + [LeaseRow(item, now)], {item}, {item})];
    actions := [Enqueue([id], now), Select(id, now), Lease(item, now)];
  }

  /** After its first lease, the holder retries and releases, in either order. */
  lemma RetryAndRelease(id: WorkId, now: Millis, retryFirst: bool) returns (states: seq<State>, actions: seq<Action>)
    ensures Run(states, actions) && states[0] == NEW
    ensures var item := Item(id, 1);
            var retry, release := FinishRow(item, RetryAt(now), now), ReleaseRow(item, now);
            states[|states| - 1].rows ==
              [EnqueueRow(id, now), LeaseRow(item, now)] + (if retryFirst then [retry] + [release]
                                                            else [release] + [retry])
  {
    var item := Item(id, 1);
    var retry, release := Finish(item, RetryAt(now), now), Release(item, now);
    var a, b := if retryFirst then retry else release, if retryFirst then release else retry;
    var row, row' := FinishRow(item, RetryAt(now), now), ReleaseRow(item, now);
    var leased, steps := FirstLease(id, now);
    var s := leased[|leased| - 1];
    var t := s.(rows := s.rows + [if retryFirst then row else row']);
    var u := t.(rows := t.rows + [if retryFirst then row' else row]);
    ExtendRun(leased, steps, a, t);
    ExtendRun(leased + [t], steps + [a], b, u);
    states, actions := leased + [t] + [u], steps + [a] + [b];
  }

  /** Such rows are written: two runs that differ only in the order in which one holder retries
      and releases leave different counts. */
  lemma AttemptsDependOnInsertionOrder(id: WorkId, now: Millis)
      returns (states: seq<State>, actions: seq<Action>, swapped: seq<State>, actions': seq<Action>)
    ensures Run(states, actions) && Run(swapped, actions') && states[0] == NEW == swapped[0]
    ensures var t, u := states[|states| - 1].rows, swapped[|swapped| - 1].rows;
            && multiset(t) == multiset(u) && Final(t, id).Some? && Final(u, id).Some?
            && Final(t, id).value.value.attempts == 0 && Final(u, id).value.value.attempts == 1
  {
    var item := Item(id, 1);
    states, actions := RetryAndRelease(id, now, true);
    swapped, actions' := RetryAndRelease(id, now, false);
    LastOfTwo([EnqueueRow(id, now), LeaseRow(item, now)], FinishRow(item, RetryAt(now), now), ReleaseRow(item, now));
  }

  lemma LastOfTwo(rows: Ledger, r: WorkRow, s: WorkRow)
    requires r.key == s.key && r.version == s.version && forall t | t in rows :: t.version <= r.version
    ensures multiset(rows + ([r] + [s])) == multiset(rows + ([s] + [r]))
    ensures Final(rows + ([r] + [s]), r.key) == Some(s) && Final(rows + ([s] + [r]), r.key) == Some(r)
  {
    assert rows + ([r] + [s]) == rows + [r] + [s] && rows + ([s] + [r]) == rows + [s] + [r];
    FinalOfPush(rows, r, r.key);
    FinalOfPush(rows + [r], s, r.key);
    FinalOfPush(rows, s, r.key);
    FinalOfPush(rows + [s], r, r.key);
  }

  // ---------------------------------------------------------------- the effect of a lease

  ghost predicate WrittenByRelease(r: WorkRow) {
    exists item: Item, now: Millis :: 1 <= item.attempts && r == ReleaseRow(item, now)
  }

  lemma WrittenByReleaseIsAShape(r: WorkRow)
    ensures WrittenByRelease(r) <==> ReleaseShaped(r)
  {
    if ReleaseShaped(r) {
      assert r == ReleaseRow(Item(r.key, r.value.attempts + 1), r.value.observedAt);
    }
  }

  /** No other writer produces a row that `release_work` could have written. */
  lemma OnlyReleaseWritesReleaseRows(item: Item, outcome: Outcome, id: WorkId, now: Millis)
    requires 1 <= item.attempts <= MAX_ATTEMPTS
    ensures ReleaseShaped(ReleaseRow(item, now))
    ensures !WrittenByRelease(EnqueueRow(id, now))
    ensures !WrittenByRelease(LeaseRow(item, now))
    ensures !WrittenByRelease(FinishRow(item, outcome, now))
  {
  }

  /** Whatever was inserted since the lease query read, the lease takes effect if and only if
      FINAL's revision is, at the insertion, at most that of the lease. */
  lemma LeaseTakesEffectIff(rows: Ledger, item: Item, now: Millis)
    ensures Final(rows + [LeaseRow(item, now)], item.id) == Some(LeaseRow(item, now)) <==>
              || Final(rows, item.id).None?
              || Final(rows, item.id).value.version <= item.attempts * 10 + 1
    ensures Final(rows + [LeaseRow(item, now)], item.id) != Some(LeaseRow(item, now)) ==>
              Final(rows + [LeaseRow(item, now)], item.id) == Final(rows, item.id)
  {
    FinalOfPush(rows, LeaseRow(item, now), item.id);
  }

  /** Leasing an id makes FINAL read `running` with one more attempt exactly when the row
      FINAL read before was not written by a release; otherwise FINAL is unchanged. */
  lemma LeaseTakesEffectUnlessReleased(rows: Ledger, r: WorkRow, read: Millis, now: Millis)
    requires WellFormedRows(rows) && Final(rows, r.key) == Some(r)
    requires Leaseable(r, read) && r.value.attempts < MAX_ATTEMPTS
    ensures var lease := LeaseRow(Item(r.key, r.value.attempts + 1), now);
            && (Final(rows + [lease], r.key) == Some(lease) <==> !WrittenByRelease(r))
            && (Final(rows + [lease], r.key) == Some(r) <==> WrittenByRelease(r))
  {
    var lease := LeaseRow(Item(r.key, r.value.attempts + 1), now);
    FinalOfPush(rows, lease, r.key);
    WrittenByReleaseIsAShape(r);
    RevisionDeterminesStatus(r);
  }

  /** After a release the next lease stays invisible: FINAL still reads the released row,
      which any worker may lease again, and that worker gets the very same item. */
  lemma ReleasedItemIsHandedOutTwice(rows: Ledger, r: WorkRow, first: Millis, second: Millis)
    requires WellFormedRows(rows) && Final(rows, r.key) == Some(r) && WrittenByRelease(r)
    requires Leaseable(r, first) && first <= second
    ensures var leased := rows + [LeaseRow(Item(r.key, r.value.attempts + 1), first)];
            && Final(leased, r.key) == Some(r)
            && Leaseable(r, second)
  {
    WrittenByReleaseIsAShape(r);
    FinalOfPush(rows, LeaseRow(Item(r.key, r.value.attempts + 1), first), r.key);
  }

  /** A holder of an older lease cannot displace a newer one by releasing or retrying. */
  lemma StaleHolderCannotDisplaceLease(rows: Ledger, item: Item, at: Millis, now: Millis)
    requires WellFormedRows(rows)
    requires Final(rows, item.id).Some? && Final(rows, item.id).value.value.status.Running?
    requires item.attempts < Final(rows, item.id).value.value.attempts
    ensures Final(rows + [ReleaseRow(item, now)], item.id) == Final(rows, item.id)
    ensures Final(rows + [FinishRow(item, RetryAt(at), now)], item.id) == Final(rows, item.id)
  {
    FinalOfPush(rows, ReleaseRow(item, now), item.id);
    FinalOfPush(rows, FinishRow(item, RetryAt(at), now), item.id);
  }

  /** What finishing gains: a terminal outcome settles the id at least at its rank, whatever was
      in the table. */
  lemma FinishSettles(rows: Ledger, item: Item, outcome: Outcome, now: Millis)
    requires WellFormedRows(rows) && 1 <= item.attempts <= MAX_ATTEMPTS && !outcome.RetryAt?
    ensures SettledAtLeast(Final(rows + [FinishRow(item, outcome, now)], item.id),
                           FinishRow(item, outcome, now).value.status)
  {
    FinalOfPush(rows, FinishRow(item, outcome, now), item.id);
    if Final(rows, item.id).Some? {
      RankFollowsRevision(FinishRow(item, outcome, now), FinishRow(item, outcome, now));
      RevisionDeterminesStatus(Final(rows, item.id).value);
    }
  }

  /** What releasing gains: the lease itself no longer reads as running, its attempt is given
      back, and nothing that beats the lease, a terminal outcome in particular, is displaced. */
  lemma ReleaseEndsOnlyItsLease(rows: Ledger, item: Item, now: Millis)
    requires WellFormedRows(rows) && 1 <= item.attempts <= MAX_ATTEMPTS
    requires Final(rows, item.id).Some?
    ensures var before, after := Final(rows, item.id).value, Final(rows + [ReleaseRow(item, now)], item.id).value;
            if before.version <= item.attempts * 10 + 2
            then after.value.status.Pending? && after.value.attempts == item.attempts - 1
            else after == before && (Terminal(before.value.status) || item.attempts <= before.value.attempts)
  {
    FinalOfPush(rows, ReleaseRow(item, now), item.id);
    RevisionDeterminesStatus(Final(rows, item.id).value);
  }

  // ---------------------------------------------------------------- release charges nothing

  predicate OpenWith(final: Option<WorkRow>, attempts: nat) {
    final.Some? && !Terminal(final.value.value.status) && final.value.value.attempts == attempts
  }

  /** No worker has read or holds the id. */
  predicate Idle(s: State, id: WorkId) {
    (forall item | item in s.selected :: item.id != id) && (forall item | item in s.held :: item.id != id)
  }

  /** What an action may do about `id` while workers only lease and release it: nobody finishes
      it, no delete names it, and no lease of it runs out, that is, while it reads running its
      holder does not drop it and nobody reads it again. Everything else is free. */
  predicate OnlyLeasedAndReleased(s: State, a: Action, id: WorkId) {
    match a
    case Select(other, _) => other == id ==> !ReadsRunning(s.rows, id)
    case Finish(item, _, _) => item.id != id
    case Forget(item) => item.id == id && item in s.held ==> !ReadsRunning(s.rows, id)
    case Delete(purged) => id !in purged
    case _ => true
  }

  /** At rest the id reads open with `attempts`; while workers hold it, it may read running with
      one more. */
  predicate Uncharged(s: State, id: WorkId, attempts: nat) {
    && Final(s.rows, id).Some?
    && (if ReadsRunning(s.rows, id)
        then Final(s.rows, id).value.value.attempts == attempts + 1 && Item(id, attempts + 1) in s.held
        else OpenWith(Final(s.rows, id), attempts))
    && (forall item | item in s.selected + s.held && item.id == id :: item.attempts == attempts + 1)
  }

  lemma AppendKeepsUncharged(s: State, more: Ledger, id: WorkId, attempts: nat)
    requires WellFormedRows(s.rows) && Uncharged(s, id, attempts)
    requires forall r | r in more && r.key == id :: r.version == 0 && WellFormed(r)
    ensures Uncharged(s.(rows := s.rows + more), id, attempts)
  {
    FinalOfAppend(s.rows, more, id);
    RevisionDeterminesStatus(Final(s.rows, id).value);
  }

  lemma LeaseKeepsUncharged(s: State, item: Item, now: Millis, id: WorkId, attempts: nat)
    requires WellFormedRows(s.rows) && Uncharged(s, id, attempts) && item in s.selected
    ensures Uncharged(s.(rows := s.rows + [LeaseRow(item, now)], held := s.held + {item}), id, attempts)
  {
    FinalOfPush(s.rows, LeaseRow(item, now), id);
  }

  lemma ReleaseKeepsUncharged(s: State, item: Item, now: Millis, id: WorkId, attempts: nat)
    requires WellFormedRows(s.rows) && Uncharged(s, id, attempts) && item in s.held
    ensures Uncharged(s.(rows := s.rows + [ReleaseRow(item, now)]), id, attempts)
  {
    FinalOfPush(s.rows, ReleaseRow(item, now), id);
    RevisionDeterminesStatus(Final(s.rows, id).value);
  }

  /** What leaves FINAL alone and adds no claim, or one that reads the id at rest. */
  lemma ClaimsKeepUncharged(s: State, t: State, id: WorkId, attempts: nat)
    requires Uncharged(s, id, attempts) && Final(t.rows, id) == Final(s.rows, id)
    requires forall item | item in t.selected + t.held && item.id == id ::
              item in s.selected + s.held || item.attempts == attempts + 1
    requires ReadsRunning(s.rows, id) ==> Item(id, attempts + 1) in t.held
    ensures Uncharged(t, id, attempts)
  {
  }

  lemma StepKeepsUncharged(s: State, a: Action, t: State, id: WorkId, attempts: nat)
    requires Inv(s) && Step(s, a, t) && Uncharged(s, id, attempts) && OnlyLeasedAndReleased(s, a, id)
    ensures Uncharged(t, id, attempts)
  {
    match a
    case Enqueue(ids, now) => AppendKeepsUncharged(s, EnqueueRows(ids, now), id, attempts);
    case Lease(item, now) => LeaseKeepsUncharged(s, item, now, id, attempts);
    case Release(item, now) => ReleaseKeepsUncharged(s, item, now, id, attempts);
    case Select(_, _) => ClaimsKeepUncharged(s, t, id, attempts);
    case Forget(_) => ClaimsKeepUncharged(s, t, id, attempts);
    case Finish(item, outcome, now) =>
      FinalOfPush(s.rows, FinishRow(item, outcome, now), id);
      ClaimsKeepUncharged(s, t, id, attempts);
    case Merge =>
      MergePreservesFinal(s.rows, t.rows, id);
      ClaimsKeepUncharged(s, t, id, attempts);
    case Delete(purged) =>
      FinalOfWithout(s.rows, purged, id);
      ClaimsKeepUncharged(s, t, id, attempts);
  }

  /** Uncharged release. Over every run in which any number of workers lease and release the id,
      one after the other or at once, and no lease of it runs out, with any writes, merges and
      deletes of others at any moment in between: the id reads open with the attempt count it
      started with whenever nobody holds it, and every lease of it hands out that count plus
      one. */
  lemma {:induction false} ReleaseChargesNothing(states: seq<State>, actions: seq<Action>, i: nat, id: WorkId,
      attempts: nat)
    requires Run(states, actions) && Inv(states[0]) && i < |states|
    requires OpenWith(Final(states[0].rows, id), attempts) && Idle(states[0], id)
    requires !ReadsRunning(states[0].rows, id)
    requires forall k | 0 <= k < i :: OnlyLeasedAndReleased(states[k], actions[k], id)
    ensures Uncharged(states[i], id, attempts)
    ensures Idle(states[i], id) ==> OpenWith(Final(states[i].rows, id), attempts)
  {
    if i == 0 {
    } else {
      ReleaseChargesNothing(states, actions, i - 1, id, attempts);
      RunKeepsInv(states, actions, i - 1);
      StepKeepsUncharged(states[i - 1], actions[i - 1], states[i], id, attempts);
    }
  }

  // ---------------------------------------------------------------- attempts count leases

  function Leases(actions: seq<Action>, id: WorkId): nat {
    if actions == [] then 0
    else
      var last := actions[|actions| - 1];
      Leases(actions[..|actions| - 1], id) + (if last.Lease? && last.item.id == id then 1 else 0)
  }

  /** Attempts of rows and holders are paid for by leases; an item read but not yet leased is
      one ahead, or beyond what its column holds. */
  predicate AttemptsWithin(s: State, id: WorkId, leases: nat) {
    && (forall r | r in s.rows && r.key == id :: r.value.attempts <= leases)
    && (forall item | item in s.selected && item.id == id ::
          item.attempts <= leases + 1 || MAX_ATTEMPTS < item.attempts)
    && (forall item | item in s.held && item.id == id :: item.attempts <= leases)
  }

  lemma StepKeepsAttemptsWithin(s: State, a: Action, t: State, id: WorkId, leases: nat)
    requires Step(s, a, t) && AttemptsWithin(s, id, leases)
    ensures AttemptsWithin(t, id, leases + (if a.Lease? && a.item.id == id then 1 else 0))
  {
    match a
    case Enqueue(ids, now) =>
    case Merge => MergePreservesFinal(s.rows, t.rows, id);
    case Delete(purged) =>
      forall r | r in t.rows ensures r in s.rows { WithoutMembers(s.rows, purged, r); }
    case _ =>
  }

  /** An attempt count of `k` needs at least `k` leases of that id since a state in which its
      rows, holders and readers had none. */
  lemma {:induction false} AttemptsNeedLeases(states: seq<State>, actions: seq<Action>, i: nat, id: WorkId)
    requires Run(states, actions) && i < |states| && AttemptsWithin(states[0], id, 0)
    ensures AttemptsWithin(states[i], id, Leases(actions[..i], id))
  {
    if i == 0 {
    } else {
      AttemptsNeedLeases(states, actions, i - 1, id);
      StepKeepsAttemptsWithin(states[i - 1], actions[i - 1], states[i], id, Leases(actions[..i - 1], id));
      assert actions[..i][..i - 1] == actions[..i - 1];
    }
  }

  ghost predicate AttemptsArePaid(states: seq<State>, actions: seq<Action>, id: WorkId) {
    forall i: int, r | 0 <= i < |states| && i <= |actions| && r in states[i].rows && r.key == id ::
      r.value.attempts <= Leases(actions[..i], id)
  }

  /** Nobody holds the id, and whoever has read it read it before any lease. */
  predicate NoClaims(s: State, id: WorkId) {
    && (forall item | item in s.held :: item.id != id)
    && (forall item | item in s.selected && item.id == id :: item.attempts == 1 || MAX_ATTEMPTS < item.attempts)
  }

  /** Exactly when attempts count leases: from a state without a row of the id, they do on every
      run if and only if nobody is left with a claim on it. */
  lemma AttemptsNeedLeasesIff(s: State, id: WorkId)
    requires Inv(s) && forall r | r in s.rows :: r.key != id
    ensures (forall states, actions | Run(states, actions) && states[0] == s :: AttemptsArePaid(states, actions, id))
       <==> NoClaims(s, id)
  {
    if NoClaims(s, id) {
      forall states, actions | Run(states, actions) && states[0] == s ensures AttemptsArePaid(states, actions, id) {
        forall i: int | 0 <= i < |states| ensures AttemptsWithin(states[i], id, Leases(actions[..i], id)) {
          AttemptsNeedLeases(states, actions, i, id);
        }
      }
    } else {
      var states, actions := ClaimBreaksCount(s, id);
    }
  }

  /** One write by whoever has a claim is enough. */
  lemma ClaimBreaksCount(s: State, id: WorkId) returns (states: seq<State>, actions: seq<Action>)
    requires Inv(s) && (forall r | r in s.rows :: r.key != id) && !NoClaims(s, id)
    ensures Run(states, actions) && states[0] == s && !AttemptsArePaid(states, actions, id)
  {
    var item, row, t;
    if item' :| item' in s.held && item'.id == id {
      item := item';
      row := FinishRow(item, RetryAt(0), 0);
      actions := [Finish(item, RetryAt(0), 0)];
      t := s.(rows := s.rows + [row]);
    } else {
      item :| item in s.selected && item.id == id && item.attempts != 1 && item.attempts <= MAX_ATTEMPTS;
      row := LeaseRow(item, 0);
      actions := [Lease(item, 0)];
      t := s.(rows := s.rows + [row], held := s.held + {item});
    }
    states := [s, t];
    assert row in states[1].rows && actions[..1] == actions;
    LeasesOfOne(actions[0], id);
  }

  /** It does happen: a holder left over from before a delete of every version re-creates the
      id with its old count, and no lease of it since. `i` is the state after the delete. */
  lemma LateRetryRevivesAttempts(id: WorkId, now: Millis) returns (states: seq<State>, actions: seq<Action>, i: nat)
    ensures Run(states, actions) && states[0] == NEW && i < |states|
    ensures (forall r | r in states[i].rows :: r.key != id)
    ensures OpenWith(Final(states[|states| - 1].rows, id), 1) && Leases(actions[i..], id) == 0
  {
    var item := Item(id, 1);
    var leased, steps := FirstLease(id, now);
    var s := leased[|leased| - 1];
    var purged := s.(rows := Without(s.rows, {id}));
    var retry := FinishRow(item, RetryAt(now), now);
    var revived := purged.(rows := purged.rows + [retry]);
    ExtendRun(leased, steps, Delete({id}), purged);
    ExtendRun(leased + [purged], steps + [Delete({id})], Finish(item, RetryAt(now), now), revived);
    states := leased + [purged] + [revived];
    actions := steps + [Delete({id})] + [Finish(item, RetryAt(now), now)];
    i := |leased|;
    forall r | r in purged.rows ensures r.key != id { WithoutMembers(s.rows, {id}, r); }
    FinalAfterDelete(s.rows, retry);
    assert actions[i..] == [Finish(item, RetryAt(now), now)];
    LeasesOfOne(Finish(item, RetryAt(now), now), id);
  }

  lemma LeasesOfOne(a: Action, id: WorkId)
    ensures Leases([a], id) == if a.Lease? && a.item.id == id then 1 else 0
  {
    assert [a][..0] == [];
  }
}
