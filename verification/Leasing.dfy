/** When an item is handed out: the lease query against the rows the writers write, and what a
    lease keeps from others. */
module Leasing {
  import opened VersionedTable
  import opened WorkLedger
  import opened WorkStore

  /** Some answer of the lease query holds the id. */
  ghost predicate HandedOut(rows: Ledger, id: WorkId, read: Millis, limit: nat) {
    exists found: seq<WorkRow>, i: int :: LeaseQuery(rows, found, read, limit) && 0 <= i < |found| && found[i].key == id
  }

  /** Exactly when an id is handed out, by the row that FINAL reads for it: once enqueued or
      released, at once; after a retry, when its time has come; while leased, only when the five
      minutes of the lease are over; after a terminal outcome, and without any row, never. */
  lemma HandedOutExactlyWhenDue(rows: Ledger, id: WorkId, read: Millis, limit: nat)
    requires 1 <= limit
    ensures Final(rows, id).None? ==> !HandedOut(rows, id, read, limit)
    ensures forall now | Final(rows, id) == Some(EnqueueRow(id, now)) ::
              HandedOut(rows, id, read, limit) <==> now <= read
    ensures forall attempts, now | Final(rows, id) == Some(LeaseRow(Item(id, attempts), now)) ::
              HandedOut(rows, id, read, limit) <==> now + 300_000 < read
    ensures forall attempts, now | Final(rows, id) == Some(ReleaseRow(Item(id, attempts), now)) ::
              HandedOut(rows, id, read, limit) <==> now <= read
    ensures forall attempts, at, now | Final(rows, id) == Some(FinishRow(Item(id, attempts), RetryAt(at), now)) ::
              HandedOut(rows, id, read, limit) <==> at <= read
    ensures forall attempts, outcome, now | Final(rows, id) == Some(FinishRow(Item(id, attempts), outcome, now)) ::
              !outcome.RetryAt? ==> !HandedOut(rows, id, read, limit)
  {
    if Final(rows, id).Some? {
      var r := Final(rows, id).value;
      FinalIsNewest(rows, id);
      if Leaseable(r, read) {
        assert LeaseQuery(rows, [r], read, limit) && [r][0].key == id;
      }
    }
  }

  // ---------------------------------------------------------------- over a run

  /** The id is leased until `until` or longer, or done with. */
  predicate KeptFrom(rows: Ledger, id: WorkId, revision: nat, until: Millis) {
    && Final(rows, id).Some? && revision <= Final(rows, id).value.version
    && var w := Final(rows, id).value.value;
       || w.status.Done? || w.status.Dead? || w.status.Unavailable?
       || (w.status.Running? && w.leaseUntil.Some? && until <= w.leaseUntil.value)
  }

  /** What leaves the lease of `item`, made at `now`, standing: no release or retry by a holder of
      as many attempts or more, no delete of the id, and clocks that do not run backward. */
  predicate LeavesLeased(a: Action, item: Item, now: Millis) {
    match a
    case Lease(other, at) => other.id == item.id ==> now <= at
    case Release(other, _) => other.id == item.id ==> other.attempts < item.attempts
    case Finish(other, outcome, _) => other.id == item.id && outcome.RetryAt? ==> other.attempts < item.attempts
    case Delete(purged) => item.id !in purged
    case _ => true
  }

  lemma PushKeepsLeased(rows: Ledger, r: WorkRow, id: WorkId, revision: nat, until: Millis)
    requires KeptFrom(rows, id, revision, until)
    requires r.key == id && revision <= r.version ==> KeptFrom([r], id, revision, until)
    ensures KeptFrom(rows + [r], id, revision, until)
  {
    FinalOfPush(rows, r, id);
    assert [r] == [] + [r];
    FinalOfPush([], r, id);
  }

  lemma RowIsLeased(r: WorkRow, revision: nat, until: Millis)
    requires revision <= r.version
    requires || r.value.status.Done? || r.value.status.Dead? || r.value.status.Unavailable?
             || (r.value.status.Running? && r.value.leaseUntil.Some? && until <= r.value.leaseUntil.value)
    ensures KeptFrom([r], r.key, revision, until)
  {
    assert [r] == [] + [r];
    FinalOfPush([], r, r.key);
  }

  lemma StepKeepsLeased(s: State, a: Action, t: State, item: Item, now: Millis)
    requires Inv(s) && Step(s, a, t) && 1 <= item.attempts && LeavesLeased(a, item, now)
    requires KeptFrom(s.rows, item.id, item.attempts * 10 + 1, now + 300_000)
    ensures KeptFrom(t.rows, item.id, item.attempts * 10 + 1, now + 300_000)
  {
    var id, revision, until := item.id, item.attempts * 10 + 1, now + 300_000;
    match a
    case Enqueue(ids, at) =>
      FinalOfAppend(s.rows, EnqueueRows(ids, at), id);
      FinalIsNewest(EnqueueRows(ids, at), id);
    case Lease(other, at) =>
      if other.id == id && item.attempts <= other.attempts { RowIsLeased(LeaseRow(other, at), revision, until); }
      PushKeepsLeased(s.rows, LeaseRow(other, at), id, revision, until);
    case Release(other, at) => PushKeepsLeased(s.rows, ReleaseRow(other, at), id, revision, until);
    case Finish(other, outcome, at) =>
      if other.id == id && !outcome.RetryAt? { RowIsLeased(FinishRow(other, outcome, at), 0, until); }
      PushKeepsLeased(s.rows, FinishRow(other, outcome, at), id, revision, until);
    case Merge => MergePreservesFinal(s.rows, t.rows, id);
    case Delete(purged) => FinalOfWithout(s.rows, purged, id);
    case _ =>
  }

  lemma {:induction false} RunKeepsLeased(states: seq<State>, actions: seq<Action>, i: nat, j: nat, item: Item,
                                          now: Millis)
    requires Run(states, actions) && Inv(states[0]) && i <= j < |states| && 1 <= item.attempts
    requires KeptFrom(states[i].rows, item.id, item.attempts * 10 + 1, now + 300_000)
    requires forall k | i <= k < j :: LeavesLeased(actions[k], item, now)
    ensures KeptFrom(states[j].rows, item.id, item.attempts * 10 + 1, now + 300_000)
  {
    if i == j {
    } else {
      RunKeepsLeased(states, actions, i, j - 1, item, now);
      RunKeepsInv(states, actions, j - 1);
      StepKeepsLeased(states[j - 1], actions[j - 1], states[j], item, now);
    }
  }

  /** A lease that takes effect keeps everyone else out: whatever else happens, unless its holder
      gives the item back or the id is deleted, no query of anyone hands the id out in the five
      minutes from the lease. */
  lemma LeaseKeepsOthersOut(states: seq<State>, actions: seq<Action>, i: nat, j: nat, item: Item, now: Millis,
                            read: Millis, limit: nat)
    requires Run(states, actions) && Inv(states[0]) && i < j < |states|
    requires actions[i] == Lease(item, now) && Final(states[i + 1].rows, item.id) == Some(LeaseRow(item, now))
    requires forall k | i < k < j :: LeavesLeased(actions[k], item, now)
    requires read <= now + 300_000
    ensures !HandedOut(states[j].rows, item.id, read, limit)
    ensures j < |actions| ==> actions[j] != Select(item.id, read)
  {
    assert Step(states[i], actions[i], states[i + 1]);
    RunKeepsInv(states, actions, i);
    RunKeepsLeased(states, actions, i + 1, j, item, now);
    if j < |actions| {
      assert Step(states[j], actions[j], states[j + 1]);
    }
  }

  /** Two workers never get the same item one after the other: what `LeaseWork` has just leased,
      and was not written by a release, no query finds in the next five minutes. */
  lemma LeasedBatchIsNotHandedOut(rows: Ledger, found: seq<WorkRow>, read: Millis, limit: nat, now: Millis, i: nat,
                                  later: Millis, other: nat)
    requires WellFormedRows(rows) && LeaseQuery(rows, found, read, limit) && i < |found|
    requires !WrittenByRelease(found[i]) && later <= now + 300_000
    ensures !HandedOut(rows + LeaseRows(ItemsOf(found), now), found[i].key, later, other)
  {
    var leases := LeaseRows(ItemsOf(found), now);
    FinalWins(leases, found[i].key);
    assert leases[i].key == found[i].key;
    var w :| WinsAt(leases, found[i].key, w) && leases[w] == Final(leases, found[i].key).value;
    assert found[w].key == found[i].key;
    FinalOfAppend(rows, leases, found[i].key);
    WrittenByReleaseIsAShape(found[i]);
    RevisionDeterminesStatus(found[i]);
    if other != 0 {
      HandedOutExactlyWhenDue(rows + leases, found[i].key, later, other);
    }
  }
}
