/** Background merges under the scans. The engine may merge any table at any moment; the
    histories of the other files do not mention it. Nothing that a scan or a view reads depends
    on it, so what is proved about a history of inserts holds with merges anywhere in between. */
module MergedViews {
  import opened VersionedTable
  import opened Windows
  import opened ChainStore
  import opened CanonicalViews
  import opened ScanProtocol
  import opened RepairProtocol
  import WorkLedger

  /** The engine has merged some of the tables. */
  ghost predicate MergesDb(a: Db, b: Db) {
    && Merges(a.blocks, b.blocks) && Merges(a.logs, b.logs) && Merges(a.events, b.events)
    && Merges(a.work, b.work) && Merges(a.checkpoints, b.checkpoints)
    && a.ranges == b.ranges && a.clock == b.clock
  }

  ghost predicate SameFinal<K(!new), V(!new)>(t: Table<K, V>, u: Table<K, V>) {
    forall k :: Final(t, k) == Final(u, k)
  }

  /** Whoever reads the tables with FINAL sees no difference. */
  ghost predicate SameReadings(a: Db, b: Db) {
    && SameFinal(a.blocks, b.blocks) && SameFinal(a.logs, b.logs) && SameFinal(a.events, b.events)
    && SameFinal(a.work, b.work) && SameFinal(a.checkpoints, b.checkpoints)
    && a.ranges == b.ranges && a.clock == b.clock
  }

  lemma MergesReadTheSame(a: Db, b: Db)
    requires MergesDb(a, b)
    ensures SameReadings(a, b)
  {
    MergesKeep(a.blocks, b.blocks);
    MergesKeep(a.logs, b.logs);
    MergesKeep(a.events, b.events);
    MergesKeep(a.work, b.work);
    MergesKeep(a.checkpoints, b.checkpoints);
  }

  lemma SameFinalAppend<K(!new), V(!new)>(t: Table<K, V>, u: Table<K, V>, more: Table<K, V>)
    requires SameFinal(t, u)
    ensures SameFinal(t + more, u + more)
  {
    forall k ensures Final(t + more, k) == Final(u + more, k) {
      FinalOfAppend(t, more, k);
      FinalOfAppend(u, more, k);
    }
  }

  lemma ApplyReadsTheSame(w: World, a: Db, b: Db, x: Write)
    requires SameReadings(a, b)
    ensures SameReadings(Apply(w, a, x), Apply(w, b, x))
  {
    match x
    case Headers(node, lo, next, hi, all) =>
      SameFinalAppend(a.blocks, b.blocks, HeaderRows(w, node, lo, next, hi, all, a.clock));
    case RawLogs(node, lo, next) =>
      SameFinalAppend(a.logs, b.logs, ToRows(GetLogs(w, node, lo, next), RawLog, a.clock));
    case Events(node, lo, next) =>
      SameFinalAppend(a.events, b.events, ToRows(GetLogs(w, node, lo, next), w.decode, a.clock));
    case Work(ids) => SameFinalAppend(a.work, b.work, WorkLedger.EnqueueRows(ids, a.clock));
    case Mark(number) => SameFinalAppend(a.checkpoints, b.checkpoints, [Row((), a.clock, number)]);
    case Ranged(_, _) =>
  }

  /** What the store goes through: inserts, and merges at any moment. */
  datatype Event = Insert(a: Write) | Merge

  ghost predicate MergingRun(w: World, dbs: seq<Db>, events: seq<Event>) {
    && |dbs| == |events| + 1 && dbs[0] == EMPTY
    && forall i | 0 <= i < |events| ::
         if events[i].Insert? then dbs[i + 1] == Apply(w, dbs[i], events[i].a) else MergesDb(dbs[i], dbs[i + 1])
  }

  function Inserts(events: seq<Event>): seq<Write> {
    if events == [] then []
    else
      var n := |events| - 1;
      Inserts(events[..n]) + (if events[n].Insert? then [events[n].a] else [])
  }

  lemma SameReadingsOneMore(a: Db, b: Db, c: Db)
    requires SameReadings(a, b) && SameReadings(b, c)
    ensures SameReadings(a, c) && SameReadings(c, a)
  {
  }

  /** The store reads as if nothing had ever been merged. */
  lemma {:induction false} MergingRunReadsAsReplay(w: World, dbs: seq<Db>, events: seq<Event>, i: nat)
    requires MergingRun(w, dbs, events) && i <= |events|
    ensures SameReadings(dbs[i], Replay(w, EMPTY, Inserts(events[..i])))
  {
    if i == 0 {
    } else {
      var e, history := events[i - 1], Inserts(events[..i - 1]);
      MergingRunReadsAsReplay(w, dbs, events, i - 1);
      assert events[..i][..i - 1] == events[..i - 1] && events[..i][i - 1] == e;
      if e.Insert? {
        ApplyReadsTheSame(w, dbs[i - 1], Replay(w, EMPTY, history), e.a);
        ReplayPush(w, EMPTY, history, e.a);
      } else {
        MergesReadTheSame(dbs[i - 1], dbs[i]);
        SameReadingsOneMore(dbs[i], dbs[i - 1], Replay(w, EMPTY, history));
        assert history + [] == history;
      }
    }
  }

  lemma SameReadingsSameViews(a: Db, b: Db, kind: Kind)
    requires SameReadings(a, b)
    ensures CheckpointOf(a) == CheckpointOf(b) && View(a, FeedOf(a, kind)) == View(b, FeedOf(b, kind))
  {
    assert Final(a.checkpoints, ()) == Final(b.checkpoints, ());
    forall e: Entry ensures e in JoinRows(a.blocks, FeedOf(a, kind)) <==> e in JoinRows(b.blocks, FeedOf(b, kind)) {
      JoinShows(a.blocks, FeedOf(a, kind), e);
      JoinShows(b.blocks, FeedOf(b, kind), e);
      assert Final(FeedOf(a, kind), e.id) == Final(FeedOf(b, kind), e.id) &&
                Final(a.blocks, e.block) == Final(b.blocks, e.block);
    }
  }

  /** Merges are invisible: at every moment of every history, with merges of any tables anywhere
      in it, both views and the checkpoint are those of the inserts alone. */
  lemma MergesAreInvisible(w: World, dbs: seq<Db>, events: seq<Event>, i: nat, kind: Kind)
    requires MergingRun(w, dbs, events) && i <= |events|
    ensures var plain := Replay(w, EMPTY, Inserts(events[..i]));
            && CheckpointOf(dbs[i]) == CheckpointOf(plain)
            && View(dbs[i], FeedOf(dbs[i], kind)) == View(plain, FeedOf(plain, kind))
  {
    MergingRunReadsAsReplay(w, dbs, events, i);
    SameReadingsSameViews(dbs[i], Replay(w, EMPTY, Inserts(events[..i])), kind);
  }

  /** In particular reorg exactness: of a run among other scanners, with the engine merging
      before, during and after the rescan. */
  lemma RescanAmongMergesIsExact(c: Setting, before: seq<Action>, a: Action, during: seq<Action>, later: seq<Action>,
                                 dbs: seq<Db>, events: seq<Event>, kind: Kind, e: Entry)
    requires Usable(c.limits) && Passes(c, before, a, during, later, e.block)
    requires MergingRun(c.w, dbs, events) && Inserts(events) == AfterAll(c, before, a, during, later).history
    ensures var db := dbs[|events|];
            e in View(db, FeedOf(db, kind)) <==>
              CheckpointOf(db).Some? && e.block <= CheckpointOf(db).value && OnChain(c.w, a.node, EmitOf(c.w, kind), e)
  {
    assert events[..|events|] == events;
    MergesAreInvisible(c.w, dbs, events, |events|, kind);
    RescanAmongOthersIsExact(c, before, a, during, later, kind, e);
  }
}
