/** Following the chain: one indexer scans forward from behind its checkpoint, again and again,
    with a finality rescan after each scan that succeeds. */
module Following {
  import opened VersionedTable
  import opened Windows
  import opened ChainStore
  import opened CanonicalViews
  import Recent = RecentEnqueues

  /** What one round meets: the node of its forward scan and that of its rescan, the clock of
      each, and the number of blocks that may still change. */
  datatype Round = Round(scanned: Node, rescanned: Node, finality: nat, clock: nat -> Recent.Seconds)

  lemma {:induction false} TilesJoin(first: seq<Window>, second: seq<Window>, from: nat, mid: nat, to: nat)
    requires Tiles(first, from, mid) && Tiles(second, mid, to)
    ensures Tiles(first + second, from, to)
  {
    if first == [] {
      assert first + second == second;
    } else {
      assert (first + second)[1..] == first[1..] + second;
      TilesJoin(first[1..], second, first[0].hi + 1, mid, to);
    }
  }

  lemma WindowsOfJoin(first: seq<Job>, second: seq<Job>)
    ensures WindowsOf(first + second) == WindowsOf(first) + WindowsOf(second)
  {
  }

  /** The windows committed since the checkpoint was `before` lie side by side from behind it, or
      from the first block while there was none, up to the checkpoint. */
  ghost predicate Follows(startBlock: nat, before: Option<nat>, after: Option<nat>, jobs: seq<Job>) {
    var first := if before.Some? then before.value + 1 else startBlock;
    if after.None? then before.None? && jobs == [] else Tiles(WindowsOf(jobs), first, after.value + 1)
  }

  /** The checkpoint is at the safe head or above, unless that lies before the first block. */
  predicate Reaches(startBlock: nat, checkpoint: Option<nat>, safeHead: nat) {
    if checkpoint.Some? then safeHead <= checkpoint.value else safeHead < startBlock
  }

  lemma FollowsMore(startBlock: nat, origin: Option<nat>, before: Option<nat>, done: seq<Job>, jobs: seq<Job>,
                    next: nat)
    requires Follows(startBlock, origin, before, done) && jobs != [] && 1 <= next
    requires Tiles(WindowsOf(jobs), if before.Some? then before.value + 1 else startBlock, next)
    ensures Follows(startBlock, origin, Some(next - 1), done + jobs)
  {
    WindowsOfJoin(done, jobs);
    if before.None? {
      assert done + jobs == jobs;
    } else {
      var first := if origin.Some? then origin.value + 1 else startBlock;
      TilesJoin(WindowsOf(done), WindowsOf(jobs), first, before.value + 1, next);
    }
  }

  /** A scan from behind the checkpoint moves it to the end of its last window. */
  lemma CheckpointAfterScan(w: World, db: Db, node: Node, jobs: seq<Job>, start: nat, next: nat)
    requires Older(db.checkpoints, db.clock) && Tiles(WindowsOf(jobs), start, next)
    requires CheckpointOf(db).Some? ==> CheckpointOf(db).value < start
    ensures var after := CommitAll(w, node, db, jobs, true, false);
            && Older(after.checkpoints, after.clock)
            && (jobs == [] ==> CheckpointOf(after) == CheckpointOf(db))
            && (jobs != [] ==> 1 <= next && CheckpointOf(after) == Some(next - 1))
  {
    ScanMovesCheckpoint(w, node, db, jobs, true, false);
    ScanCheckpoint(w, node, db, jobs, true, false, start, next);
    if jobs != [] {
      TilesLast(WindowsOf(jobs), start, next);
    }
  }

  /** One forward scan goes on exactly where the checkpoint stands. */
  lemma ScanFollows(w: World, startBlock: nat, origin: Option<nat>, db: Db, node: Node, gaveUp: bool, done: seq<Job>,
                    jobs: seq<Job>)
    requires Older(db.checkpoints, db.clock) && Follows(startBlock, origin, CheckpointOf(db), done)
    requires CheckpointOf(db).None? ==> ScannedFrom(startBlock, node, None, gaveUp, jobs)
    requires CheckpointOf(db).Some? ==> ScannedFrom(CheckpointOf(db).value + 1, node, None, gaveUp, jobs)
    ensures var after := CommitAll(w, node, db, jobs, true, false);
            && Older(after.checkpoints, after.clock)
            && Follows(startBlock, origin, CheckpointOf(after), done + jobs)
            && (!gaveUp ==> Reaches(startBlock, CheckpointOf(after), node.safeHead))
  {
    var start := if CheckpointOf(db).Some? then CheckpointOf(db).value + 1 else startBlock;
    if jobs == [] {
      assert done + jobs == done;
      if start <= node.safeHead {
        var next: nat :| ScannedUpTo(start, next, node, None, gaveUp, jobs);
      }
      ScanMovesCheckpoint(w, node, db, jobs, true, false);
    } else {
      var next: nat :| ScannedUpTo(start, next, node, None, gaveUp, jobs);
      CheckpointAfterScan(w, db, node, jobs, start, next);
      FollowsMore(startBlock, origin, CheckpointOf(db), done, jobs, next);
    }
  }

  method ScanForward(indexer: HistoricalIndexer, w: World, node: Node, clock: nat -> Recent.Seconds,
                     ghost origin: Option<nat>, ghost done: seq<Job>)
      returns (succeeded: bool, ghost jobs: seq<Job>)
    requires Usable(indexer.limits) && indexer.store.queue.recent.Valid()
    requires var db := indexer.store.Contents();
             Older(db.checkpoints, db.clock) && Follows(indexer.startBlock, origin, CheckpointOf(db), done)
    modifies indexer.store, indexer.store.queue`rows, indexer.store.queue.recent
    ensures indexer.store.queue.recent.Valid()
    ensures var db := indexer.store.Contents();
            && Older(db.checkpoints, db.clock) && Follows(indexer.startBlock, origin, CheckpointOf(db), jobs)
            && (succeeded ==> Reaches(indexer.startBlock, CheckpointOf(db), node.safeHead))
  {
    ghost var db := indexer.store.Contents();
    var r;
    ghost var more;
    r, more := indexer.Scan(w, node, None, None, true, false, clock);
    ScanFollows(w, indexer.startBlock, origin, db, node, r.RangeTooLarge?, done, more);
    succeeded, jobs := r.Indexed?, done + more;
  }

  method Rescan(indexer: HistoricalIndexer, w: World, node: Node, finality: nat, clock: nat -> Recent.Seconds)
    requires Usable(indexer.limits) && indexer.store.queue.recent.Valid()
    requires Older(indexer.store.Contents().checkpoints, indexer.store.Contents().clock)
    modifies indexer.store, indexer.store.queue`rows, indexer.store.queue.recent
    ensures indexer.store.queue.recent.Valid()
    ensures Older(indexer.store.Contents().checkpoints, indexer.store.Contents().clock)
    ensures CheckpointOf(indexer.store.Contents()) == old(CheckpointOf(indexer.store.Contents()))
  {
    ghost var db := indexer.store.Contents();
    var r;
    ghost var jobs;
    r, jobs := indexer.RescanFinalityWindow(w, node, finality, clock);
    ScanMovesCheckpoint(w, node, db, jobs, false, true);
  }

  /** Follow the chain for some rounds, each of which may give up or meet another fork. The
      forward scans' windows tile the blocks from behind the first checkpoint, or from the start
      block, up to the last: none is skipped and none is scanned twice. `succeeded` says that the last
      round did not give up; then the checkpoint is at its safe head or above. */
  method Follow(indexer: HistoricalIndexer, w: World, rounds: seq<Round>)
      returns (succeeded: bool, ghost jobs: seq<Job>)
    requires Usable(indexer.limits) && indexer.store.queue.recent.Valid()
    requires Older(indexer.store.Contents().checkpoints, indexer.store.Contents().clock)
    modifies indexer.store, indexer.store.queue`rows, indexer.store.queue.recent
    ensures Follows(indexer.startBlock, old(CheckpointOf(indexer.store.Contents())),
                    CheckpointOf(indexer.store.Contents()), jobs)
    ensures succeeded && rounds != [] ==>
              Reaches(indexer.startBlock, CheckpointOf(indexer.store.Contents()),
                      rounds[|rounds| - 1].scanned.safeHead)
  {
    succeeded, jobs := true, [];
    ghost var origin := CheckpointOf(indexer.store.Contents());
    for i := 0 to |rounds|
      invariant indexer.store.queue.recent.Valid()
      invariant var db := indexer.store.Contents();
                Older(db.checkpoints, db.clock) && Follows(indexer.startBlock, origin, CheckpointOf(db), jobs)
      invariant succeeded && i > 0 ==>
                  Reaches(indexer.startBlock, CheckpointOf(indexer.store.Contents()), rounds[i - 1].scanned.safeHead)
    {
      succeeded, jobs := ScanForward(indexer, w, rounds[i].scanned, rounds[i].clock, origin, jobs);
      if succeeded {
        Rescan(indexer, w, rounds[i].rescanned, rounds[i].finality, rounds[i].clock);
      }
    }
  }

  /** So every block from there up to the checkpoint has been scanned, in exactly one window. */
  lemma FollowedBlocksAreScanned(startBlock: nat, before: Option<nat>, after: Option<nat>, jobs: seq<Job>, n: nat)
    requires Follows(startBlock, before, after, jobs) && after.Some?
    ensures Covered(jobs, n) <==> (if before.Some? then before.value < n else startBlock <= n) && n <= after.value
    ensures forall i, j | 0 <= i < j < |jobs| :: jobs[i].win.hi < jobs[j].win.lo
  {
    var first := if before.Some? then before.value + 1 else startBlock;
    TilesCover(jobs, first, after.value + 1, n);
    forall i, j | 0 <= i < j < |jobs| ensures jobs[i].win.hi < jobs[j].win.lo {
      TilesAreDisjoint(WindowsOf(jobs), first, after.value + 1, i, j);
    }
  }
}
