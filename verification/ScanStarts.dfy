/** Where a scan may start, and how two scans get in each other's way: what the discipline of the
    coverage theorem, and the one updater of the checkpoint theorem, are for. */
module ScanStarts {
  import opened VersionedTable
  import opened Windows
  import opened ChainStore
  import opened CanonicalViews
  import opened ScanProtocol
  import opened CheckpointOverTime
  import opened ScanRefinement
  import Recent = RecentEnqueues

  lemma {:induction false} PartOfWindow(sc: Scanner, win: Window, node: Node, allBlocks: bool, other: Window)
    requires || Headers(node, other.lo, other.hi + 1, other.hi, allBlocks) in StoreWrites(sc, win)
             || RawLogs(node, other.lo, other.hi + 1) in StoreWrites(sc, win)
             || Events(node, other.lo, other.hi + 1) in StoreWrites(sc, win)
    ensures other == win
  {
  }

  /** A scan makes exactly the blocks of its windows done. */
  lemma {:induction false} DoneAfterScan(c: Setting, sc: Scanner, history0: seq<Write>, history: seq<Write>,
                                         jobs: seq<Job>, n: nat)
    requires PartsAre(sc, history0, history, jobs)
    ensures Done(c, history, n, false) <==> Done(c, history0, n, false) || Covered(jobs, n)
  {
    if Covered(jobs, n) {
      var i :| 0 <= i < |jobs| && Covers(jobs[i].win, n);
      forall a | a in StoreWrites(sc, jobs[i].win) ensures a in history { assert IsPart(a) && PartOf(sc, jobs, a); }
      var three := StoreWrites(sc, jobs[i].win);
      assert three[0] in history && three[1] in history && three[2] in history;
      assert Written(history, sc.node, sc.allBlocks, jobs[i].win);
    }
    if Done(c, history0, n, false) {
      var node, allBlocks, win :| Covers(win, n) && Written(history0, node, allBlocks, win);
      assert IsPart(Headers(node, win.lo, win.hi + 1, win.hi, allBlocks));
      assert Written(history, node, allBlocks, win);
    }
    if Done(c, history, n, false) && !Done(c, history0, n, false) {
      var node, allBlocks, win :| Covers(win, n) && Written(history, node, allBlocks, win);
      SomePartIsNew(sc, history0, history, jobs, node, allBlocks, win);
    }
  }

  lemma {:induction false} SomePartIsNew(sc: Scanner, history0: seq<Write>, history: seq<Write>, jobs: seq<Job>,
                                         node: Node, allBlocks: bool, win: Window)
    requires PartsAre(sc, history0, history, jobs)
    requires Written(history, node, allBlocks, win) && !Written(history0, node, allBlocks, win)
    ensures exists i :: 0 <= i < |jobs| && jobs[i].win == win
  {
    var three := [Headers(node, win.lo, win.hi + 1, win.hi, allBlocks), RawLogs(node, win.lo, win.hi + 1),
                  Events(node, win.lo, win.hi + 1)];
    var a :| a in three && a !in history0;
    assert IsPart(a) && PartOf(sc, jobs, a);
    var i :| 0 <= i < |jobs| && a in StoreWrites(sc, jobs[i].win);
    PartOfWindow(sc, jobs[i].win, node, allBlocks, win);
  }

  lemma CoverageIff(c: Setting, s: State, t: State, from: nat, next: nat)
    requires MarksAreCovered(c, s.history, false) && from < next && Committed(c, t) == Moved(Committed(c, s), next - 1)
    requires forall n: nat :: Done(c, t.history, n, false) <==> Done(c, s.history, n, false) || from <= n < next
    ensures DoneBetween(c, t.history, c.deployed, Committed(c, t).value + 1, false)
       <==> DoneBetween(c, s.history, c.deployed, from, false)
  {
    CommittedIsCovered(c, s, false);
    if DoneBetween(c, t.history, c.deployed, Committed(c, t).value + 1, false) {
      forall n: nat | c.deployed <= n < from ensures Done(c, s.history, n, false) {
        assert Done(c, t.history, n, false);
      }
    }
    if DoneBetween(c, s.history, c.deployed, from, false) {
      forall n: nat | c.deployed <= n < Committed(c, t).value + 1 ensures Done(c, t.history, n, false) {
        assert n < from ==> Done(c, s.history, n, false);
      }
    }
  }

  /** After a scan from `from`, everything up to the checkpoint is done if and only if everything
      before `from` was done before it. */
  ghost predicate CoverageCarries(c: Setting, s: State, t: State, from: nat) {
    && Committed(c, t).Some? && from <= Committed(c, t).value
    && (DoneBetween(c, t.history, c.deployed, Committed(c, t).value + 1, false) <==>
        DoneBetween(c, s.history, c.deployed, from, false))
  }

  /** A scan that moves the checkpoint, from any explicit block and to whatever end, after any run:
      if it commits anything, every block up to the checkpoint is done afterwards if and only if
      every block before its start was done before. The discipline is one way to know the
      latter. */
  lemma CoverageSurvivesIff(c: Setting, before: seq<Action>, a: Action, clock: nat -> Recent.Seconds)
      returns (actions: seq<Action>, jobs: seq<Job>)
    requires Usable(c.limits) && MarksAreCovered(c, Run(c, INITIAL, before).history, false)
    requires a.Begin? && a.update && a.from.Some? && a.id !in Run(c, INITIAL, before).scanners
    requires a.from.value <= EndOf(a.node, a.to)
    ensures OwnTurns(actions, a.id)
    ensures WindowsOf(jobs) == ScanFrom(c.limits, a.node.accepts, a.from.value, c.limits.initial, EndOf(a.node, a.to),
                                        0).windows
    ensures var s := Run(c, INITIAL, before);
            jobs != [] ==> CoverageCarries(c, s, Run(c, s, [a] + actions), a.from.value)
  {
    var s := Run(c, INITIAL, before);
    var asked := EveryRunAsks(c, before, a.process);
    var after;
    actions, after, jobs := ScanIsItsTurns(c, s, a, clock, asked);
    CoverageAfterScan(c, s, Run(c, s, [a] + actions), a, jobs);
  }

  lemma CoverageAfterScan(c: Setting, s: State, t: State, a: Action, jobs: seq<Job>)
    requires Usable(c.limits) && MarksAreCovered(c, s.history, false)
    requires a.Begin? && a.update && a.from.Some? && a.from.value <= EndOf(a.node, a.to)
    requires WindowsOf(jobs) == ScanFrom(c.limits, a.node.accepts, a.from.value, c.limits.initial, EndOf(a.node, a.to),
                                         0).windows
    requires DbOf(c, t.history) == CommitAll(c.w, a.node, DbOf(c, s.history), jobs, a.update, a.allBlocks)
    requires PartsAre(Begun(c, s, a), s.history, t.history, jobs)
    ensures jobs != [] ==> CoverageCarries(c, s, t, a.from.value)
  {
    if jobs != [] {
      var from := a.from.value;
      var next := ScanTiles(c.limits, a.node.accepts, from, c.limits.initial, EndOf(a.node, a.to), 0);
      CommittedAfter(c, s, t, a, jobs, from, next);
      forall n: nat ensures Done(c, t.history, n, false) <==> Done(c, s.history, n, false) || from <= n < next {
        DoneAfterScan(c, Begun(c, s, a), s.history, t.history, jobs, n);
        TilesCover(jobs, from, next, n);
      }
      CoverageIff(c, s, t, from, next);
    }
  }

  lemma CommittedAfter(c: Setting, s: State, t: State, a: Action, jobs: seq<Job>, from: nat, next: nat)
    requires a.Begin? && a.update && jobs != [] && Tiles(WindowsOf(jobs), from, next)
    requires DbOf(c, t.history) == CommitAll(c.w, a.node, DbOf(c, s.history), jobs, a.update, a.allBlocks)
    ensures from < next && Committed(c, t) == Moved(Committed(c, s), next - 1)
  {
    CheckpointRowsAreOlder(c, s.history);
    ScanCheckpoint(c.w, a.node, DbOf(c, s.history), jobs, true, a.allBlocks, from, next);
    TileBounds(WindowsOf(jobs), from, next, 0);
  }

  /** On an empty store, a scan started beyond the deployment commits a checkpoint over blocks
      that nobody has scanned. */
  lemma StartingPastTheCheckpointLeavesAHole(c: Setting, node: Node, from: nat, clock: nat -> Recent.Seconds)
      returns (actions: seq<Action>)
    requires Usable(c.limits) && c.deployed < from <= node.safeHead
    requires node.accepts(0, from, UpperBound(from, c.limits.initial, node.safeHead))
    ensures var t := Run(c, INITIAL, actions);
            Committed(c, t).Some? && from <= Committed(c, t).value
            && !DoneBetween(c, t.history, c.deployed, Committed(c, t).value + 1, false)
  {
    var a := Begin(0, 0, node, Some(from), None, true, false);
    var own, jobs := CoverageSurvivesIff(c, [], a, clock);
    ScanStep(c.limits, node.accepts, from, c.limits.initial, node.safeHead, 0);
    assert |WindowsOf(jobs)| == |jobs| && jobs != [];
    actions := [a] + own;
    assert !Done(c, INITIAL.history, c.deployed, false);
  }

  // ---------------------------------------------------------------- two updaters

  /** A scan begun by `a`, until it has stored its first window and read the checkpoint. */
  lemma ToFirstRead(c: Setting, s: State, a: Action, win: Window, at: Recent.Seconds) returns (actions: seq<Action>)
    requires Usable(c.limits) && a.Begin? && a.update && a.from.Some? && a.id !in s.scanners
    requires a.from.value <= EndOf(a.node, a.to)
    requires win == Window(a.from.value, UpperBound(a.from.value, c.limits.initial, EndOf(a.node, a.to)))
    requires a.node.accepts(0, win.lo, win.hi) && !Behind(win.hi, Committed(c, s))
    ensures OwnTurns(actions, a.id)
    ensures var t := Run(c, s, [a] + actions);
            && a.id in t.scanners && t.scanners[a.id].stage == InsertingCheckpoint(win, Committed(c, s))
            && Committed(c, t) == Committed(c, s)
            && forall other | other in s.scanners :: other in t.scanners && t.scanners[other] == s.scanners[other]
  {
    var id := a.id;
    var begun := Put(s, id, Begun(c, s, a));
    var asking := Put(begun, id, Begun(c, s, a).(calls := 1, stage := StoringHeaders(win)));
    var own := ToRead(c, asking, id, win, at);
    actions := Turns(id, at, 1) + own;
    RunOne(c, s, a);
    OneTurn(c, begun, id, at);
    RunSplits(c, s, [a], actions);
    RunSplits(c, begun, Turns(id, at, 1), own);
    OwnAppend(Turns(id, at, 1), own, id);
  }

  lemma ToRead(c: Setting, s: State, id: nat, win: Window, at: Recent.Seconds) returns (actions: seq<Action>)
    requires Usable(c.limits) && id in s.scanners && s.scanners[id].update
    requires s.scanners[id].stage == StoringHeaders(win)
    requires !Behind(win.hi, Committed(c, s))
    ensures OwnTurns(actions, id)
    ensures var t := Run(c, s, actions);
            && t.scanners == s.scanners[id := s.scanners[id].(stage := InsertingCheckpoint(win, Committed(c, s)))]
            && Committed(c, t) == Committed(c, s)
  {
    var sc := s.scanners[id];
    var k := StoredThenWorked(c, s, id, win, at);
    var first, last := Turns(id, at, 3) + Turns(id, at, k), Turns(id, at, 1);
    var worked := Run(c, s, first);
    actions := first + last;
    OwnAppend(Turns(id, at, 3), Turns(id, at, k), id);
    OwnAppend(first, last, id);
    assert worked.scanners == s.scanners[id := sc.(stage := ReadingCheckpoint(win))] &&
              Committed(c, worked) == Committed(c, s);
    ReadTurn(c, worked, id, win, at);
    OneTurn(c, worked, id, at);
    RunSplits(c, s, first, last);
    PutTwice(s.scanners, id, sc.(stage := ReadingCheckpoint(win)),
             sc.(stage := InsertingCheckpoint(win, Committed(c, s))));
  }

  /** Two disciplined forward scans of the first blocks, to different ends, reach the race. */
  lemma RaceArises(c: Setting, node: Node, at: Recent.Seconds) returns (first: seq<Action>, second: seq<Action>)
    requires Usable(c.limits) && 2 <= c.limits.initial && c.deployed < node.safeHead
    requires forall call: nat, lo: nat, hi: nat :: node.accepts(call, lo, hi)
    ensures var a := Begin(0, 0, node, Some(c.deployed), Some(c.deployed), true, false);
            var b := Begin(1, 0, node, Some(c.deployed), None, true, false);
            var s := Run(c, INITIAL, [a] + first);
            var t := Run(c, s, [b] + second);
            && OwnTurns(first, 0) && OwnTurns(second, 1) && Disciplined(c, INITIAL, a) && Disciplined(c, s, b)
            && 0 in t.scanners && t.scanners[0].stage.InsertingCheckpoint?
            && 1 in t.scanners && t.scanners[1].stage.InsertingCheckpoint?
            && t.scanners[0].stage.win.hi < t.scanners[1].stage.win.hi
  {
    var a := Begin(0, 0, node, Some(c.deployed), Some(c.deployed), true, false);
    var b := Begin(1, 0, node, Some(c.deployed), None, true, false);
    first := ToFirstRead(c, INITIAL, a, Window(c.deployed, c.deployed), at);
    var s := Run(c, INITIAL, [a] + first);
    OnlyOneScanner(c, INITIAL, [a] + first, 1);
    second := ToFirstRead(c, s, b, Window(c.deployed, UpperBound(c.deployed, c.limits.initial, node.safeHead)), at);
  }

  /** No scanner appears that nobody begins. */
  lemma {:induction false} OnlyOneScanner(c: Setting, s: State, actions: seq<Action>, id: nat)
    requires Usable(c.limits) && id !in s.scanners && forall a | a in actions && a.Begin? :: a.id != id
    ensures id !in Run(c, s, actions).scanners
    decreases |actions|
  {
    if actions == [] {
    } else {
      ScannerAfter(c, s, actions[0], id);
      OnlyOneScanner(c, Next(c, s, actions[0]), actions[1..], id);
    }
  }
}
