/** When the work of committed blocks is written.

    A process remembers an id before the insert of its row, and keeps remembering it when that
    insert raises. Until the ttl has passed, every enqueue of the id in that process returns
    normally and writes nothing. So a scan may move the checkpoint over blocks whose work nobody
    has written; here is exactly when. */
module WorkCoverage {
  import opened VersionedTable
  import opened Windows
  import opened ChainStore
  import opened CanonicalViews
  import opened ScanProtocol
  import opened CheckpointOverTime
  import opened ScanRefinement
  import Recent = RecentEnqueues
  import Queue = WorkStore

  /** The dictionary would hold the id back at this time. */
  predicate Remembered(c: Setting, seen: Recent.Entries, x: WorkId, at: Recent.Seconds) {
    Recent.Enabled(c.recent) && Recent.Suppressed(seen, x, at)
  }

  lemma TakenIff(c: Setting, s: State, process: nat, ids: seq<WorkId>, at: Recent.Seconds, x: WorkId)
    ensures x in Take(c, s, process, ids, at).newIds <==> x in ids && !Remembered(c, SeenBy(s, process), x, at)
  {
    if ids != [] && Recent.Enabled(c.recent) {
      Recent.SeeAllLookup(SeenBy(s, process), Queue.FirstOccurrences(ids), at, c.recent.ttl, x);
    }
  }

  // ---------------------------------------------------------------- one window

  /** The scanner's enqueue: its call of the dictionary, and the insert of what that let through. */
  function Enqueued(c: Setting, s: State, id: nat, at: Recent.Seconds): State
    requires Usable(c.limits) && id in s.scanners && s.scanners[id].stage.Taking?
  {
    var t := Next(c, s, Turn(id, at));
    if t.scanners[id].stage.Enqueueing? then Next(c, t, Turn(id, at)) else t
  }

  lemma EnqueueWrites(c: Setting, s: State, id: nat, at: Recent.Seconds)
    requires Usable(c.limits) && id in s.scanners && s.scanners[id].stage.Taking?
    ensures var sc, t := s.scanners[id], Enqueued(c, s, id, at);
            var newIds := Take(c, s, sc.process, WindowWork(c, sc.node, sc.stage.win), at).newIds;
            && t.history == s.history + WorkWrites(newIds)
            && id in t.scanners && t.scanners[id] == sc.(stage := AfterWork(sc, sc.stage.win))
  {
    var sc := s.scanners[id];
    var win := sc.stage.win;
    var newIds := Take(c, s, sc.process, WindowWork(c, sc.node, win), at).newIds;
    if newIds == [] {
      assert s.history + [] == s.history;
    } else {
      var t := TakeWork(c, s, id, win, at);
      assert t.scanners[id].stage == Enqueueing(win, newIds) && t.history == s.history;
      assert Next(c, t, Turn(id, at)) == Insert(t, id, Work(newIds), AfterWork(sc, win));
    }
  }

  /** After the enqueue, an id of the window's work is written if and only if it already was, or
      the process did not remember it. */
  lemma WorkIsWrittenIff(c: Setting, s: State, id: nat, at: Recent.Seconds, x: WorkId)
    requires Usable(c.limits) && id in s.scanners && s.scanners[id].stage.Taking?
    requires WindowAsks(c, s.scanners[id].node, s.scanners[id].stage.win, x)
    ensures WorkWritten(Enqueued(c, s, id, at).history, x) <==>
              WorkWritten(s.history, x) || !Remembered(c, SeenBy(s, s.scanners[id].process), x, at)
  {
    var sc := s.scanners[id];
    var ids := WindowWork(c, sc.node, sc.stage.win);
    WindowWorkIsAsked(c, sc.node, sc.stage.win);
    var newIds := Take(c, s, sc.process, ids, at).newIds;
    EnqueueWrites(c, s, id, at);
    TakenIff(c, s, sc.process, ids, at, x);
    if newIds == [] {
      assert s.history + [] == s.history;
    } else {
      WorkWrittenGrows(s.history, Work(newIds), x);
    }
  }

  lemma NoWorkKeepsWritten(history: seq<Write>, a: Write)
    requires !a.Work?
    ensures forall x :: WorkWritten(history + [a], x) <==> WorkWritten(history, x)
  {
    forall x ensures WorkWritten(history + [a], x) <==> WorkWritten(history, x) {
      WorkWrittenGrows(history, a, x);
    }
  }

  /** Exactly when a scanner that goes on undisturbed moves the checkpoint over a window with all
      its work written: every id was written before, or was not remembered by the process. */
  lemma CommittedWorkIff(c: Setting, s: State, id: nat, at: Recent.Seconds)
    requires Usable(c.limits) && id in s.scanners && s.scanners[id].stage.Taking? && s.scanners[id].update
    requires !Behind(s.scanners[id].stage.win.hi, Committed(c, s))
    ensures var sc, t := s.scanners[id], Enqueued(c, s, id, at);
            var u := Next(c, Next(c, t, Turn(id, at)), Turn(id, at));
            && Committed(c, u) == Some(sc.stage.win.hi)
            && (AllWorkWritten(c, u.history, sc.node, sc.stage.win) <==>
                  forall x | WindowAsks(c, sc.node, sc.stage.win, x) ::
                    WorkWritten(s.history, x) || !Remembered(c, SeenBy(s, sc.process), x, at))
  {
    var sc, t := s.scanners[id], Enqueued(c, s, id, at);
    EnqueueWrites(c, s, id, at);
    var newIds := Take(c, s, sc.process, WindowWork(c, sc.node, sc.stage.win), at).newIds;
    NoMarkKeepsCommitted(c, s.history, WorkWrites(newIds));
    var read := Next(c, t, Turn(id, at));
    ReadThenMark(c, t, id, at);
    var u := Next(c, read, Turn(id, at));
    forall x | WindowAsks(c, sc.node, sc.stage.win, x)
      ensures WorkWritten(u.history, x) <==> WorkWritten(s.history, x) || !Remembered(c, SeenBy(s, sc.process), x, at)
    {
      WorkIsWrittenIff(c, s, id, at, x);
    }
  }

  lemma ReadThenMark(c: Setting, s: State, id: nat, at: Recent.Seconds)
    requires Usable(c.limits) && id in s.scanners && s.scanners[id].stage.ReadingCheckpoint?
    requires !Behind(s.scanners[id].stage.win.hi, Committed(c, s))
    ensures var u := Next(c, Next(c, s, Turn(id, at)), Turn(id, at));
            && Committed(c, u) == Some(s.scanners[id].stage.win.hi)
            && forall x :: WorkWritten(u.history, x) <==> WorkWritten(s.history, x)
  {
    var win := s.scanners[id].stage.win;
    ReadTurn(c, s, id, win, at);
    MarkTurn(c, At(s, id, InsertingCheckpoint(win, Committed(c, s))), id, at);
    InsertMovesCommitted(c, s.history, Mark(win.hi));
    NoWorkKeepsWritten(s.history, Mark(win.hi));
  }

  lemma MarkTurn(c: Setting, s: State, id: nat, at: Recent.Seconds)
    requires Usable(c.limits) && id in s.scanners && s.scanners[id].stage.InsertingCheckpoint?
    ensures Next(c, s, Turn(id, at)).history == s.history + [Mark(s.scanners[id].stage.win.hi)]
  {
  }

  // ---------------------------------------------------------------- over a run

  datatype Holder = ByScanner(id: nat) | ByTask(task: nat)

  /** The holder has taken the id from the dictionary and not inserted it yet. */
  predicate Holds(s: State, h: Holder, x: WorkId) {
    match h
    case ByScanner(id) => id in s.scanners && s.scanners[id].stage.Enqueueing? && x in s.scanners[id].stage.ids
    case ByTask(task) => task in s.tasks && x in s.tasks[task].ids
  }

  /** The dictionary lets the id through to the holder. */
  predicate Takes(c: Setting, s: State, a: Action, h: Holder, x: WorkId) {
    match h
    case ByScanner(id) =>
      && a.Turn? && a.id == id && id in s.scanners && s.scanners[id].stage.Taking?
      && x in Take(c, s, s.scanners[id].process, WindowWork(c, s.scanners[id].node, s.scanners[id].stage.win),
                   a.at).newIds
    case ByTask(task) =>
      a.TaskTakes? && a.task == task && task !in s.tasks && x in Take(c, s, a.process, a.ids, a.at).newIds
  }

  lemma HoldsAfter(c: Setting, s: State, a: Action, h: Holder, x: WorkId)
    requires Usable(c.limits) && Holds(Next(c, s, a), h, x)
    ensures Holds(s, h, x) || Takes(c, s, a, h, x)
  {
    match h
    case ByScanner(id) =>
      ScannerAfter(c, s, a, id);
      if a.Turn? && a.id == id && id in s.scanners {
        match s.scanners[id].stage
        case Taking(win) => assert Next(c, s, a) == TakeWork(c, s, id, win, a.at);
        case Asking =>
        case Recording(_) =>
        case _ =>
      }
    case ByTask(task) =>
      if a.Turn? && a.id in s.scanners { TaskKept(c, s, a.id, a.at); }
  }

  lemma TaskKept(c: Setting, s: State, id: nat, at: Recent.Seconds)
    requires Usable(c.limits) && id in s.scanners
    ensures Progress(c, s, id, at).tasks == s.tasks
  {
    match s.scanners[id].stage
    case Taking(_) =>
    case Asking =>
    case _ =>
  }

  /** Whoever holds an id has taken it in the run. */
  lemma {:induction false} HeldWasTaken(c: Setting, actions: seq<Action>, h: Holder, x: WorkId)
    requires Usable(c.limits) && Holds(Run(c, INITIAL, actions), h, x)
    ensures exists i: nat :: i < |actions| && Takes(c, Run(c, INITIAL, actions[..i]), actions[i], h, x)
    decreases |actions|
  {
    var n := |actions| - 1;
    RunNext(c, INITIAL, actions, n);
    assert actions[..n + 1] == actions;
    HoldsAfter(c, Run(c, INITIAL, actions[..n]), actions[n], h, x);
    if Holds(Run(c, INITIAL, actions[..n]), h, x) {
      HeldWasTaken(c, actions[..n], h, x);
      var i: nat :| i < n && Takes(c, Run(c, INITIAL, actions[..n][..i]), actions[..n][i], h, x);
      assert actions[..n][..i] == actions[..i];
    }
  }

  /** A holder of the id gets to its insert. */
  ghost predicate InsertsWork(s: State, a: Action, x: WorkId) {
    || (a.Turn? && Holds(s, ByScanner(a.id), x))
    || (a.TaskInserts? && Holds(s, ByTask(a.task), x))
  }

  lemma WrittenStep(c: Setting, s: State, a: Action, x: WorkId)
    requires Usable(c.limits)
    ensures WorkWritten(Next(c, s, a).history, x) <==> WorkWritten(s.history, x) || InsertsWork(s, a, x)
  {
    InsertOrNothing(c, s, a);
    var t := Next(c, s, a);
    if t.history != s.history {
      WorkWrittenGrows(s.history, t.history[|s.history|], x);
    }
  }

  /** A row of the id is written in a run if and only if someone who had taken it, and neither
      raised nor stopped since, got to the insert. */
  lemma {:induction false} WrittenIffInserted(c: Setting, s: State, actions: seq<Action>, x: WorkId)
    requires Usable(c.limits)
    ensures WorkWritten(Run(c, s, actions).history, x) <==>
              || WorkWritten(s.history, x)
              || exists i: nat :: i < |actions| && InsertsWork(Run(c, s, actions[..i]), actions[i], x)
    decreases |actions|
  {
    if actions == [] {
    } else {
      var n := |actions| - 1;
      RunNext(c, s, actions, n);
      assert actions[..n + 1] == actions;
      WrittenIffInserted(c, s, actions[..n], x);
      WrittenStep(c, Run(c, s, actions[..n]), actions[n], x);
      assert forall i: nat | i < n :: actions[..n][..i] == actions[..i];
    }
  }

  /** The action inserts a checkpoint row for a window whose work includes the id. */
  ghost predicate MarksOver(c: Setting, s: State, a: Action, x: WorkId) {
    AtCheckpoint(s, a) && WindowAsks(c, s.scanners[a.id].node, s.scanners[a.id].stage.win, x)
  }

  /** Someone who had taken the id got to its insert in the first `i` actions. */
  ghost predicate InsertedBefore(c: Setting, actions: seq<Action>, i: nat, x: WorkId)
    requires Usable(c.limits) && i <= |actions|
  {
    exists k: nat :: k < i && InsertsWork(Run(c, INITIAL, actions[..k]), actions[k], x)
  }

  /** Whenever the run moves the checkpoint over a window, all its work is written. */
  ghost predicate NeverMarksUnwrittenWork(c: Setting, actions: seq<Action>)
    requires Usable(c.limits)
  {
    forall i: nat | i < |actions| && AtCheckpoint(Run(c, INITIAL, actions[..i]), actions[i]) ::
      var s := Run(c, INITIAL, actions[..i]);
      AllWorkWritten(c, s.history, s.scanners[actions[i].id].node, s.scanners[actions[i].id].stage.win)
  }

  lemma WrittenIffInsertedBefore(c: Setting, actions: seq<Action>, i: nat, x: WorkId)
    requires Usable(c.limits) && i <= |actions|
    ensures WorkWritten(Run(c, INITIAL, actions[..i]).history, x) <==> InsertedBefore(c, actions, i, x)
  {
    WrittenIffInserted(c, INITIAL, actions[..i], x);
    assert forall k: nat | k < i :: actions[..i][..k] == actions[..k];
    if k: nat :| k < i && InsertsWork(Run(c, INITIAL, actions[..k]), actions[k], x) {
      assert InsertsWork(Run(c, INITIAL, actions[..i][..k]), actions[..i][k], x);
    }
  }

  /** Exactly when a run never moves the checkpoint over unwritten work, whatever raises and
      crashes: if and only if each id of each window so passed was inserted before by someone who
      had taken it. */
  lemma CommittedWorkOverRunsIff(c: Setting, actions: seq<Action>)
    requires Usable(c.limits)
    ensures NeverMarksUnwrittenWork(c, actions) <==>
              forall i: nat, x | i < |actions| && MarksOver(c, Run(c, INITIAL, actions[..i]), actions[i], x) ::
                InsertedBefore(c, actions, i, x)
  {
    forall i: nat, x: WorkId | i < |actions|
      ensures WorkWritten(Run(c, INITIAL, actions[..i]).history, x) <==> InsertedBefore(c, actions, i, x)
    {
      WrittenIffInsertedBefore(c, actions, i, x);
    }
  }

  // ---------------------------------------------------------------- how work is lost

  /** A scan begun by `a`, until it has stored its first window and is about to enqueue. */
  lemma ToTaking(c: Setting, s: State, a: Action, win: Window, at: Recent.Seconds) returns (actions: seq<Action>)
    requires Usable(c.limits) && a.Begin? && a.from.Some? && a.id !in s.scanners && a.from.value <= EndOf(a.node, a.to)
    requires win == Window(a.from.value, UpperBound(a.from.value, c.limits.initial, EndOf(a.node, a.to)))
    requires a.node.accepts(0, win.lo, win.hi)
    ensures var t := Run(c, s, actions);
            && a.id in t.scanners && t.scanners[a.id] == Begun(c, s, a).(calls := 1, stage := Taking(win))
            && t.seen == s.seen && t.tasks == s.tasks
            && t.scanners == s.scanners[a.id := t.scanners[a.id]]
            && t.history == s.history + StoreWrites(t.scanners[a.id], win)
  {
    var id := a.id;
    var begun := Put(s, id, Begun(c, s, a));
    var asking := Put(begun, id, Begun(c, s, a).(calls := 1, stage := StoringHeaders(win)));
    actions := [a] + (Turns(id, at, 1) + Turns(id, at, 3));
    RunOne(c, s, a);
    OneTurn(c, begun, id, at);
    StoreTurns(c, asking, id, win, at);
    RunSplits(c, s, [a], Turns(id, at, 1) + Turns(id, at, 3));
    RunSplits(c, begun, Turns(id, at, 1), Turns(id, at, 3));
    PutTwice(s.scanners, id, Begun(c, s, a), asking.scanners[id]);
    PutTwice(s.scanners, id, asking.scanners[id], Begun(c, s, a).(calls := 1, stage := Taking(win)));
  }

  lemma StoresWriteNoWork(history: seq<Write>, sc: Scanner, win: Window, x: WorkId)
    ensures WorkWritten(history + StoreWrites(sc, win), x) <==> WorkWritten(history, x)
  {
    var a := StoreWrites(sc, win);
    assert history + a == history + [a[0]] + [a[1]] + [a[2]];
    WorkWrittenGrows(history, a[0], x);
    WorkWrittenGrows(history + [a[0]], a[1], x);
    WorkWrittenGrows(history + [a[0]] + [a[1]], a[2], x);
  }

  /** What the examples share: a node whose block at the deployment asks for the work `x`, in
      windows the node accepts, and a scan of just that block. */
  predicate Example(c: Setting, node: Node, x: WorkId, at: Recent.Seconds, later: Recent.Seconds) {
    && Usable(c.limits) && Recent.Enabled(c.recent) && c.deployed <= node.safeHead
    && node.accepts(0, c.deployed, c.deployed)
    && WindowWork(c, node, Window(c.deployed, c.deployed)) == [x]
    && at <= later < at + c.recent.ttl
  }

  function ScanOfFirst(c: Setting, node: Node, id: nat): Action {
    Begin(id, 0, node, Some(c.deployed), Some(c.deployed), true, false)
  }

  lemma ThreeTurns(c: Setting, s: State, turn: Action)
    requires Usable(c.limits)
    ensures Run(c, s, [turn] + [turn] + [turn]) == Next(c, Next(c, Next(c, s, turn), turn), turn)
  {
    RunSplits(c, s, [turn] + [turn], [turn]);
    RunSplits(c, s, [turn], [turn]);
    RunOne(c, s, turn);
    RunOne(c, Next(c, s, turn), turn);
    RunOne(c, Next(c, Next(c, s, turn), turn), turn);
  }

  lemma SkippedThenCommitted(c: Setting, s: State, id: nat, x: WorkId, at: Recent.Seconds)
    requires Usable(c.limits) && id in s.scanners && s.scanners[id].stage.Taking? && s.scanners[id].update
    requires s.scanners[id].process == 0
    requires WindowWork(c, s.scanners[id].node, s.scanners[id].stage.win) == [x] && Committed(c, s).None?
    requires Remembered(c, SeenBy(s, 0), x, at) && !WorkWritten(s.history, x)
    ensures var u := Run(c, s, [Turn(id, at)] + [Turn(id, at)] + [Turn(id, at)]);
            Committed(c, u) == Some(s.scanners[id].stage.win.hi) && !WorkWritten(u.history, x)
  {
    SubsetOfOne(c, s, [x], at, x);
    SkipTurn(c, s, id, at);
    ReadThenMark(c, Next(c, s, Turn(id, at)), id, at);
    ThreeTurns(c, s, Turn(id, at));
  }

  lemma SkipTurn(c: Setting, s: State, id: nat, at: Recent.Seconds)
    requires Usable(c.limits) && id in s.scanners && s.scanners[id].stage.Taking? && s.scanners[id].update
    requires var sc := s.scanners[id]; Take(c, s, sc.process, WindowWork(c, sc.node, sc.stage.win), at).newIds == []
    ensures var t := Next(c, s, Turn(id, at));
            && t.history == s.history
            && id in t.scanners && t.scanners[id].stage == ReadingCheckpoint(s.scanners[id].stage.win)
  {
  }

  /** A scanner's turns concern no other scanner, no task, and not its process. */
  lemma {:induction false} ThreeTurnsMoveOne(c: Setting, s: State, id: nat, at: Recent.Seconds)
    requires Usable(c.limits)
    ensures var u := Run(c, s, [Turn(id, at)] + [Turn(id, at)] + [Turn(id, at)]);
            && u.tasks == s.tasks
            && forall other | other in u.scanners ::
                 other in s.scanners && u.scanners[other].process == s.scanners[other].process
  {
    ThreeTurns(c, s, Turn(id, at));
    var t := Next(c, s, Turn(id, at));
    var u := Next(c, t, Turn(id, at));
    TurnMovesOne(c, s, id, at);
    TurnMovesOne(c, t, id, at);
    TurnMovesOne(c, u, id, at);
  }

  lemma TurnMovesOne(c: Setting, s: State, id: nat, at: Recent.Seconds)
    requires Usable(c.limits)
    ensures var t := Next(c, s, Turn(id, at));
            && t.tasks == s.tasks
            && forall other | other in t.scanners ::
                 other in s.scanners && t.scanners[other].process == s.scanners[other].process
  {
    if id in s.scanners {
      ProgressMovesOne(c, s, id, at);
    }
  }

  /** A process that remembers `x`, which nobody has written, scans its block: the scan commits
      and `x` stays unwritten. */
  lemma RememberedThenCommitted(c: Setting, s: State, id: nat, node: Node, x: WorkId, at: Recent.Seconds,
                                later: Recent.Seconds)
      returns (actions: seq<Action>)
    requires Example(c, node, x, at, later) && id !in s.scanners && Committed(c, s).None?
    requires Remembered(c, SeenBy(s, 0), x, later) && !WorkWritten(s.history, x)
    ensures var u := Run(c, s, actions);
            && Committed(c, u) == Some(c.deployed) && !WorkWritten(u.history, x) && u.tasks == s.tasks
            && forall other | other in u.scanners ::
                 if other == id then u.scanners[other].process == 0
                 else other in s.scanners && u.scanners[other].process == s.scanners[other].process
  {
    var win := Window(c.deployed, c.deployed);
    var first := ToTaking(c, s, ScanOfFirst(c, node, id), win, later);
    var t := Run(c, s, first);
    StoresWriteNoWork(s.history, t.scanners[id], win, x);
    NoMarkKeepsCommitted(c, s.history, StoreWrites(t.scanners[id], win));
    SkippedThenCommitted(c, t, id, x, later);
    ThreeTurnsMoveOne(c, t, id, later);
    var turns := [Turn(id, later)] + [Turn(id, later)] + [Turn(id, later)];
    actions := first + turns;
    RunSplits(c, s, first, turns);
  }

  /** Of one id, the dictionary lets through that id or nothing. */
  lemma SubsetOfOne(c: Setting, s: State, ids: seq<WorkId>, at: Recent.Seconds, x: WorkId)
    requires ids == [x]
    ensures var t := Take(c, s, 0, ids, at);
            if Remembered(c, SeenBy(s, 0), x, at) then t.newIds == [] else x in t.newIds
  {
    var newIds := Take(c, s, 0, ids, at).newIds;
    TakenIff(c, s, 0, ids, at, x);
    if newIds != [] {
      TakenIff(c, s, 0, ids, at, newIds[0]);
    }
  }

  /** Taking one new id remembers it for a ttl. */
  lemma TakingRemembers(c: Setting, s: State, x: WorkId, at: Recent.Seconds, later: Recent.Seconds)
    requires Recent.Enabled(c.recent) && at <= later < at + c.recent.ttl && SeenBy(s, 0) == []
    ensures var t := Take(c, s, 0, [x], at);
            t.newIds == [x] && Remembered(c, t.seen, x, later)
  {
    Queue.FirstOccurrencesOfOne(x);
    Recent.FirstTake(c.recent, x, at);
  }

  /** The end of the only process leaves nothing running. */
  lemma CrashOfTheOnlyProcess(c: Setting, s: State)
    requires Usable(c.limits)
    requires (forall id | id in s.scanners :: s.scanners[id].process == 0)
    requires (forall task | task in s.tasks :: s.tasks[task].process == 0)
    ensures var u := Next(c, s, Crash(0)); u.history == s.history && u.scanners == map[] && u.tasks == map[]
  {
  }

  /** A scan that takes `x` and raises before its insert ends; its process remembers `x`. */
  lemma {:induction false} TakenThenFailed(c: Setting, t: State, x: WorkId, at: Recent.Seconds, later: Recent.Seconds)
    requires Usable(c.limits) && Recent.Enabled(c.recent) && at <= later < at + c.recent.ttl && SeenBy(t, 0) == []
    requires 0 in t.scanners && t.scanners == map[0 := t.scanners[0]] && t.scanners[0].process == 0
    requires t.scanners[0].stage.Taking? && WindowWork(c, t.scanners[0].node, t.scanners[0].stage.win) == [x]
    ensures var u := Run(c, t, [Turn(0, at)] + [Fail(0)]);
            u.scanners == map[] && u.history == t.history && Remembered(c, SeenBy(u, 0), x, later)
  {
    var win := t.scanners[0].stage.win;
    TakingRemembers(c, t, x, at, later);
    RunSplits(c, t, [Turn(0, at)], [Fail(0)]);
    RunOne(c, t, Turn(0, at));
    assert Next(c, t, Turn(0, at)) == TakeWork(c, t, 0, win, at);
    RunOne(c, TakeWork(c, t, 0, win, at), Fail(0));
  }

  /** A failed insert loses work. The scan's insert of `x` raises, which ends the scan but not
      the process; the process scans the block again within the ttl, moves the checkpoint over
      it, and `x` is not written. Nothing has crashed. */
  lemma FailedInsertLosesWork(c: Setting, node: Node, x: WorkId, at: Recent.Seconds, later: Recent.Seconds)
      returns (actions: seq<Action>)
    requires Example(c, node, x, at, later)
    ensures var u := Run(c, INITIAL, actions);
            Committed(c, u) == Some(c.deployed) && !WorkWritten(u.history, x)
  {
    var win := Window(c.deployed, c.deployed);
    var first := ToTaking(c, INITIAL, ScanOfFirst(c, node, 0), win, at);
    var t := Run(c, INITIAL, first);
    var lost := [Turn(0, at)] + [Fail(0)];
    StoresWriteNoWork([], t.scanners[0], win, x);
    NoMarkKeepsCommitted(c, [], StoreWrites(t.scanners[0], win));
    TakenThenFailed(c, t, x, at, later);
    var again := RememberedThenCommitted(c, Run(c, t, lost), 1, node, x, at, later);
    actions := first + lost + again;
    RunSplits(c, INITIAL, first + lost, again);
    RunSplits(c, INITIAL, first, lost);
  }

  /** An insert in flight loses work. Another task of the process has taken `x` and is about to
      insert it; the scan is told nothing, moves the checkpoint, and the process stops. Nothing
      has raised. */
  lemma InFlightInsertLosesWork(c: Setting, node: Node, x: WorkId, at: Recent.Seconds, later: Recent.Seconds)
      returns (actions: seq<Action>)
    requires Example(c, node, x, at, later)
    ensures var u := Run(c, INITIAL, actions);
            Committed(c, u) == Some(c.deployed) && !WorkWritten(u.history, x) && u.tasks == map[] && u.scanners == map[]
  {
    TakingRemembers(c, INITIAL, x, at, later);
    RunOne(c, INITIAL, TaskTakes(0, 0, [x], at));
    var taken := Next(c, INITIAL, TaskTakes(0, 0, [x], at));
    var scan := RememberedThenCommitted(c, taken, 0, node, x, at, later);
    var t := Run(c, taken, scan);
    actions := [TaskTakes(0, 0, [x], at)] + scan + [Crash(0)];
    RunOne(c, t, Crash(0));
    CrashOfTheOnlyProcess(c, t);
    RunSplits(c, INITIAL, [TaskTakes(0, 0, [x], at)] + scan, [Crash(0)]);
    RunSplits(c, INITIAL, [TaskTakes(0, 0, [x], at)], scan);
  }

  /** Every block holds one log, and it asks for the work "x". */
  function ExampleWorld(): World {
    World(h => Block(|h|, [Log("t", 0, "d")]), (_, l: Log) => Some(l.data), (_, _) => ["x"])
  }

  function ExampleNode(): Node {
    Node(Tip, (_, _) => false, (_, _, _) => true, 2)
  }

  lemma ExampleLogs()
    ensures |GetLogs(ExampleWorld(), ExampleNode(), 0, 1)| == 1
  {
    var w, node := ExampleWorld(), ExampleNode();
    assert GetLogs(w, node, 0, 0) == [] && |w.block(Tip(0)).logs| == 1;
    assert GetLogs(w, node, 0, 1) == GetLogs(w, node, 0, 0) + BlockLogs(node, 0, Tip(0), w.block(Tip(0)).logs);
  }

  lemma ExampleWork(logs: seq<RpcLog>)
    requires |logs| == 1
    ensures WorkOf(ExampleWorld(), logs) == ["x"]
  {
    assert logs[..0] == [] && WorkOf(ExampleWorld(), []) == [];
    assert WorkOf(ExampleWorld(), logs) == WorkOf(ExampleWorld(), []) + ["x"];
  }

  /** Such examples exist. */
  lemma ExampleExists() returns (c: Setting, node: Node, x: WorkId, at: Recent.Seconds, later: Recent.Seconds)
    ensures Example(c, node, x, at, later)
  {
    c, node := Setting(ExampleWorld(), Limits(5000, 50000, 50), 0, Recent.Config(900.0, 250_000)), ExampleNode();
    x, at, later := "x", 0.0, 24.0;
    ExampleLogs();
    ExampleWork(GetLogs(c.w, node, 0, 1));
  }

  // ---------------------------------------------------------------- a process that starts again

  /** The action asks the process's dictionary. */
  predicate CallsDictionary(s: State, a: Action, process: nat) {
    || (a.TaskTakes? && a.process == process)
    || (a.Turn? && a.id in s.scanners && s.scanners[a.id].process == process && s.scanners[a.id].stage.Taking?)
  }

  predicate LeavesDictionary(c: Setting, s: State, process: nat, actions: seq<Action>)
    requires Usable(c.limits)
    decreases |actions|
  {
    || actions == []
    || (!CallsDictionary(s, actions[0], process) && LeavesDictionary(c, Next(c, s, actions[0]), process, actions[1..]))
  }

  lemma UnaskedKeepsNothing(c: Setting, s: State, a: Action, process: nat)
    requires Usable(c.limits) && SeenBy(s, process) == [] && !CallsDictionary(s, a, process)
    ensures SeenBy(Next(c, s, a), process) == []
  {
    if a.Turn? && a.id in s.scanners {
      match s.scanners[a.id].stage
      case Taking(win) =>
      case Asking =>
      case Recording(_) =>
      case _ =>
    }
  }

  lemma {:induction false} UnaskedStaysEmpty(c: Setting, s: State, process: nat, actions: seq<Action>)
    requires Usable(c.limits) && SeenBy(s, process) == [] && LeavesDictionary(c, s, process, actions)
    ensures SeenBy(Run(c, s, actions), process) == []
    decreases |actions|
  {
    if actions == [] {
    } else {
      UnaskedKeepsNothing(c, s, actions[0], process);
      UnaskedStaysEmpty(c, Next(c, s, actions[0]), process, actions[1..]);
    }
  }

  /** A process that starts again makes up for what was lost. From any state, when a process has
      stopped, its first window thereafter has all its work written once its insert lands,
      whatever others did in between and whatever was remembered before. */
  lemma RestartWritesAllWork(c: Setting, s: State, process: nat, actions: seq<Action>, id: nat, at: Recent.Seconds,
                             x: WorkId)
    requires Usable(c.limits) && LeavesDictionary(c, Next(c, s, Crash(process)), process, actions)
    requires var u := Run(c, Next(c, s, Crash(process)), actions);
             && id in u.scanners && u.scanners[id].process == process && u.scanners[id].stage.Taking?
             && WindowAsks(c, u.scanners[id].node, u.scanners[id].stage.win, x)
    ensures WorkWritten(Enqueued(c, Run(c, Next(c, s, Crash(process)), actions), id, at).history, x)
  {
    var t := Next(c, s, Crash(process));
    UnaskedStaysEmpty(c, t, process, actions);
    WorkIsWrittenIff(c, Run(c, t, actions), id, at, x);
  }
}
