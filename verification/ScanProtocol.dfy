/** Many scanners over one store, one insert, read or dictionary call at a time.

    Forward scans, finality rescans and repairs share the store. Each scanner works through its
    windows; between any two of its steps another may act, a step may raise and end the scanner,
    or its whole process may stop. The processes' other tasks enqueue work as well. The store's
    history is the sequence of inserts that took effect.

    Each process remembers the work it enqueued recently and does not write it again. It does so
    before the insert: an insert that raises leaves the ids remembered, and only the end of the
    process forgets them. */
module ScanProtocol {
  import opened VersionedTable
  import opened Windows
  import opened ChainStore
  import opened CanonicalViews
  import Recent = RecentEnqueues
  import Queue = WorkStore
  import WorkLedger

  type WorkId = WorkLedger.WorkId

  /** What a scanner does next: ask the node for its next window, or the next step for an
      accepted one. */
  datatype Stage =
    | Asking
    | StoringHeaders(win: Window)
    | StoringLogs(win: Window)
    | StoringEvents(win: Window)
    | Taking(win: Window)
    | Enqueueing(win: Window, ids: seq<WorkId>)
    | ReadingCheckpoint(win: Window)
    | InsertingCheckpoint(win: Window, seen: Option<nat>)
    | Recording(win: Window)

  type Positive = n: nat | 1 <= n witness 1

  datatype Scanner = Scanner(
    process: nat, node: Node, cursor: nat, range: Positive, end: nat, update: bool, allBlocks: bool, calls: nat,
    stage: Stage)

  /** Another task of a process that has taken ids from the dictionary and not inserted them yet. */
  datatype Task = Task(process: nat, ids: seq<WorkId>)

  datatype State = State(history: seq<Write>, scanners: map<nat, Scanner>, tasks: map<nat, Task>,
                         seen: map<nat, Recent.Entries>)

  datatype Action =
    | Begin(id: nat, process: nat, node: Node, from: Option<nat>, to: Option<nat>, update: bool, allBlocks: bool)
    | Turn(id: nat, at: Recent.Seconds)
    | Fail(id: nat)
    | TaskTakes(task: nat, process: nat, ids: seq<WorkId>, at: Recent.Seconds)
    | TaskInserts(task: nat)
    | TaskFails(task: nat)
    | Crash(process: nat)

  /** The world scanned, the range limits, the block of the deployment, and how every process
      configures its dictionary. */
  datatype Setting = Setting(w: World, limits: Limits, deployed: nat, recent: Recent.Config)

  const INITIAL := State([], map[], map[], map[])

  function DbOf(c: Setting, history: seq<Write>): Db {
    Replay(c.w, EMPTY, history)
  }

  function Committed(c: Setting, s: State): Option<nat> {
    CheckpointOf(DbOf(c, s.history))
  }

  /** The first block of a scan begun now. */
  function StartOf(c: Setting, s: State, from: Option<nat>): nat {
    if from.Some? then from.value
    else if Committed(c, s).Some? then Committed(c, s).value + 1
    else c.deployed
  }

  function SeenBy(s: State, process: nat): Recent.Entries {
    if process in s.seen then s.seen[process] else []
  }

  /** What the process's dictionary answers for `ids` at this time. */
  function Take(c: Setting, s: State, process: nat, ids: seq<WorkId>, at: Recent.Seconds): Recent.Taken {
    if ids == [] then Recent.Taken(SeenBy(s, process), [])
    else Recent.TakeNew(c.recent, SeenBy(s, process), Queue.FirstOccurrences(ids), at)
  }

  /** The work of a scanner's window. */
  function WindowWork(c: Setting, node: Node, win: Window): seq<WorkId> {
    WorkOf(c.w, GetLogs(c.w, node, win.lo, win.hi + 1))
  }

  /** An event of a block in the window asks for the work `x`. */
  ghost predicate WindowAsks(c: Setting, node: Node, win: Window, x: WorkId) {
    RangeAsks(c.w, node, win.lo, win.hi + 1, x)
  }

  lemma WindowWorkIsAsked(c: Setting, node: Node, win: Window)
    ensures forall x :: x in WindowWork(c, node, win) <==> WindowAsks(c, node, win, x)
  {
    forall x ensures x in WindowWork(c, node, win) <==> WindowAsks(c, node, win, x) {
      WorkIsAsked(c.w, node, win.lo, win.hi + 1, x);
    }
  }

  function Put(s: State, id: nat, sc: Scanner): State {
    s.(scanners := s.scanners[id := sc])
  }

  function Stop(s: State, id: nat): State {
    s.(scanners := s.scanners - {id})
  }

  function At(s: State, id: nat, stage: Stage): State
    requires id in s.scanners
  {
    Put(s, id, s.scanners[id].(stage := stage))
  }

  /** Insert, and go on to `stage`. */
  function Insert(s: State, id: nat, a: Write, stage: Stage): State
    requires id in s.scanners
  {
    At(s, id, stage).(history := s.history + [a])
  }

  function AfterWork(sc: Scanner, win: Window): Stage {
    if sc.update then ReadingCheckpoint(win) else Recording(win)
  }

  function Ask(c: Setting, s: State, id: nat): State
    requires Usable(c.limits) && id in s.scanners
  {
    var sc := s.scanners[id];
    if sc.end < sc.cursor then Stop(s, id)
    else
      var upper := UpperBound(sc.cursor, sc.range, sc.end);
      if sc.node.accepts(sc.calls, sc.cursor, upper) then
        Put(s, id, sc.(calls := sc.calls + 1, stage := StoringHeaders(Window(sc.cursor, upper))))
      else if sc.range <= c.limits.minimum then Stop(s, id)
      else Put(s, id, sc.(calls := sc.calls + 1, range := Halved(c.limits, sc.range)))
  }

  function TakeWork(c: Setting, s: State, id: nat, win: Window, at: Recent.Seconds): State
    requires id in s.scanners
  {
    var sc := s.scanners[id];
    var t := Take(c, s, sc.process, WindowWork(c, sc.node, win), at);
    var stage := if t.newIds == [] then AfterWork(sc, win) else Enqueueing(win, t.newIds);
    At(s, id, stage).(seen := s.seen[sc.process := t.seen])
  }

  function Record(c: Setting, s: State, id: nat, win: Window): State
    requires Usable(c.limits) && id in s.scanners
  {
    var sc := s.scanners[id];
    Put(s, id, sc.(cursor := win.hi + 1, range := Doubled(c.limits, sc.range), stage := Asking))
      .(history := s.history + [Ranged(win, |GetLogs(c.w, sc.node, win.lo, win.hi + 1)|)])
  }

  function Progress(c: Setting, s: State, id: nat, at: Recent.Seconds): State
    requires Usable(c.limits) && id in s.scanners
  {
    var sc := s.scanners[id];
    match sc.stage
    case Asking => Ask(c, s, id)
    case StoringHeaders(win) =>
      Insert(s, id, Headers(sc.node, win.lo, win.hi + 1, win.hi, sc.allBlocks), StoringLogs(win))
    case StoringLogs(win) => Insert(s, id, RawLogs(sc.node, win.lo, win.hi + 1), StoringEvents(win))
    case StoringEvents(win) => Insert(s, id, Events(sc.node, win.lo, win.hi + 1), Taking(win))
    case Taking(win) => TakeWork(c, s, id, win, at)
    case Enqueueing(win, ids) => Insert(s, id, Work(ids), AfterWork(sc, win))
    case ReadingCheckpoint(win) =>
      var seen := Committed(c, s);
      At(s, id, if Behind(win.hi, seen) then Recording(win) else InsertingCheckpoint(win, seen))
    case InsertingCheckpoint(win, _) => Insert(s, id, Mark(win.hi), Recording(win))
    case Recording(win) => Record(c, s, id, win)
  }

  function Next(c: Setting, s: State, a: Action): State
    requires Usable(c.limits)
  {
    match a
    case Begin(id, process, node, from, to, update, allBlocks) =>
      if id in s.scanners || EndOf(node, to) < StartOf(c, s, from) then s
      else
        var start, end := StartOf(c, s, from), EndOf(node, to);
        Put(s, id, Scanner(process, node, start, c.limits.initial, end, update, allBlocks, 0, Asking))
    case Turn(id, at) => if id in s.scanners then Progress(c, s, id, at) else s
    case Fail(id) => Stop(s, id)
    case TaskTakes(task, process, ids, at) =>
      if task in s.tasks then s
      else
        var t := Take(c, s, process, ids, at);
        s.(tasks := s.tasks[task := Task(process, t.newIds)], seen := s.seen[process := t.seen])
    case TaskInserts(task) =>
      if task in s.tasks then s.(history := s.history + [Work(s.tasks[task].ids)], tasks := s.tasks - {task}) else s
    case TaskFails(task) => s.(tasks := s.tasks - {task})
    case Crash(process) =>
      s.(scanners := (map id | id in s.scanners && s.scanners[id].process != process :: s.scanners[id]),
         tasks := (map task | task in s.tasks && s.tasks[task].process != process :: s.tasks[task]),
         seen := s.seen - {process})
  }

  lemma ProgressMovesOne(c: Setting, s: State, id: nat, at: Recent.Seconds)
    requires Usable(c.limits) && id in s.scanners
    ensures var t := Progress(c, s, id, at);
            && (id in t.scanners ==>
                  && t.scanners[id].update == s.scanners[id].update
                  && t.scanners[id].process == s.scanners[id].process
                  && t.scanners[id].node == s.scanners[id].node
                  && t.scanners[id].allBlocks == s.scanners[id].allBlocks)
            && (forall other | other != id :: (other in t.scanners <==> other in s.scanners)
                  && (other in t.scanners ==> t.scanners[other] == s.scanners[other]))
  {
    match s.scanners[id].stage
    case Taking(win) =>
    case Asking =>
    case Recording(_) =>
    case _ =>
  }

  /** What an action does to one scanner: its own turn moves it on, every other leaves it as it
      is, begins it or stops it. */
  lemma ScannerAfter(c: Setting, s: State, a: Action, id: nat)
    requires Usable(c.limits)
    ensures var t := Next(c, s, a);
            id in t.scanners ==>
              if id !in s.scanners
              then a.Begin? && a.id == id && t.scanners[id].stage.Asking? && t.scanners[id].update == a.update
              else if a.Turn? && a.id == id
              then t == Progress(c, s, id, a.at) && t.scanners[id].update == s.scanners[id].update
              else t.scanners[id] == s.scanners[id]
  {
    if a.Turn? && a.id in s.scanners {
      ProgressMovesOne(c, s, a.id, a.at);
    }
  }

  predicate AtCheckpoint(s: State, a: Action) {
    a.Turn? && a.id in s.scanners && s.scanners[a.id].stage.InsertingCheckpoint?
  }

  /** An action makes at most one insert; a checkpoint row only as the turn of a scanner that
      stands before it. */
  lemma InsertOrNothing(c: Setting, s: State, a: Action)
    requires Usable(c.limits)
    ensures var t := Next(c, s, a);
            && (|| t.history == s.history
                || (|t.history| == |s.history| + 1 && t.history == s.history + [t.history[|s.history|]]))
            && (AtCheckpoint(s, a) ==> t.history == s.history + [Mark(s.scanners[a.id].stage.win.hi)])
            && (t.history != s.history && t.history[|s.history|].Mark? ==> AtCheckpoint(s, a))
  {
    if a.Turn? && a.id in s.scanners {
      match s.scanners[a.id].stage
      case Taking(win) =>
      case Asking =>
      case Recording(_) =>
      case _ =>
    }
  }

  // ---------------------------------------------------------------- runs

  function Run(c: Setting, s: State, actions: seq<Action>): State
    requires Usable(c.limits)
    decreases |actions|
  {
    if actions == [] then s else Run(c, Next(c, s, actions[0]), actions[1..])
  }

  lemma {:induction false} RunSplits(c: Setting, s: State, first: seq<Action>, second: seq<Action>)
    requires Usable(c.limits)
    ensures Run(c, s, first + second) == Run(c, Run(c, s, first), second)
    decreases |first|
  {
    if first == [] {
      assert first + second == second;
    } else {
      assert (first + second)[1..] == first[1..] + second;
      RunSplits(c, Next(c, s, first[0]), first[1..], second);
    }
  }

  lemma RunOne(c: Setting, s: State, a: Action)
    requires Usable(c.limits)
    ensures Run(c, s, [a]) == Next(c, s, a)
  {
    assert [a][1..] == [];
    assert Run(c, Next(c, s, a), []) == Next(c, s, a);
  }

  // ---------------------------------------------------------------- coverage

  /** The window's headers, raw logs and events were inserted. */
  ghost predicate Written(history: seq<Write>, node: Node, allBlocks: bool, win: Window) {
    && Headers(node, win.lo, win.hi + 1, win.hi, allBlocks) in history
    && RawLogs(node, win.lo, win.hi + 1) in history
    && Events(node, win.lo, win.hi + 1) in history
  }

  /** A pending row of the id was inserted. */
  ghost predicate WorkWritten(history: seq<Write>, x: WorkId) {
    exists i :: 0 <= i < |history| && history[i].Work? && x in history[i].ids
  }

  ghost predicate AllWorkWritten(c: Setting, history: seq<Write>, node: Node, win: Window) {
    forall x | WindowAsks(c, node, win, x) :: WorkWritten(history, x)
  }

  /** The block lies in a window whose inserts took effect; with `work`, the inserts of all its
      work as well. */
  ghost predicate Done(c: Setting, history: seq<Write>, n: nat, work: bool) {
    exists node, allBlocks, win ::
      Covers(win, n) && Written(history, node, allBlocks, win) && (work ==> AllWorkWritten(c, history, node, win))
  }

  ghost predicate DoneBetween(c: Setting, history: seq<Write>, from: nat, next: nat, work: bool) {
    forall n: nat | from <= n < next :: Done(c, history, n, work)
  }

  /** Every checkpoint row was inserted after everything from the deployment up to it. */
  ghost predicate MarksAreCovered(c: Setting, history: seq<Write>, work: bool) {
    forall i: nat | i < |history| && history[i].Mark? ::
      DoneBetween(c, history[..i], c.deployed, history[i].number + 1, work)
  }

  /** The inserts an accepted window already has behind it. */
  ghost predicate StageBacked(c: Setting, history: seq<Write>, sc: Scanner, work: bool) {
    match sc.stage
    case Asking => true
    case StoringHeaders(_) => true
    case StoringLogs(win) => Headers(sc.node, win.lo, win.hi + 1, win.hi, sc.allBlocks) in history
    case StoringEvents(win) =>
      && Headers(sc.node, win.lo, win.hi + 1, win.hi, sc.allBlocks) in history
      && RawLogs(sc.node, win.lo, win.hi + 1) in history
    case Taking(win) => Written(history, sc.node, sc.allBlocks, win)
    case Enqueueing(win, ids) =>
      && Written(history, sc.node, sc.allBlocks, win)
      && (work ==> forall x | WindowAsks(c, sc.node, win, x) :: WorkWritten(history, x) || x in ids)
    case _ =>
      && Written(history, sc.node, sc.allBlocks, sc.stage.win)
      && (work ==> AllWorkWritten(c, history, sc.node, sc.stage.win))
  }

  predicate WindowFits(sc: Scanner) {
    sc.stage.Asking? || (sc.stage.win.lo == sc.cursor && sc.cursor <= sc.stage.win.hi <= sc.end)
  }

  ghost predicate ScannerFits(c: Setting, history: seq<Write>, sc: Scanner, work: bool) {
    && WindowFits(sc) && StageBacked(c, history, sc, work)
    && (sc.stage.ReadingCheckpoint? || sc.stage.InsertingCheckpoint? ==> sc.update)
    && (sc.update ==> DoneBetween(c, history, c.deployed, sc.cursor, work))
  }

  ghost predicate Inv(c: Setting, s: State, work: bool) {
    && MarksAreCovered(c, s.history, work)
    && forall id | id in s.scanners :: ScannerFits(c, s.history, s.scanners[id], work)
  }

  /** A scan that moves the checkpoint starts at most one past it, or at most at the deployment
      while there is none. */
  predicate Disciplined(c: Setting, s: State, a: Action) {
    a.Begin? && a.update && a.from.Some? ==>
      if Committed(c, s).Some? then a.from.value <= Committed(c, s).value + 1 else a.from.value <= c.deployed
  }

  /** The dictionary holds back an id of the scanner's window that nobody has written. */
  ghost predicate Skips(c: Setting, s: State, a: Action, x: WorkId) {
    && a.Turn? && a.id in s.scanners && s.scanners[a.id].stage.Taking?
    && var sc := s.scanners[a.id];
       var ids := WindowWork(c, sc.node, sc.stage.win);
       && WindowAsks(c, sc.node, sc.stage.win, x)
       && x !in Take(c, s, sc.process, ids, a.at).newIds && !WorkWritten(s.history, x)
  }

  /** What keeps coverage: a disciplined begin and, for coverage of work, no such step. */
  ghost predicate Keeps(c: Setting, s: State, a: Action, work: bool) {
    Disciplined(c, s, a) && (work ==> forall x :: !Skips(c, s, a, x))
  }

  lemma WorkWrittenGrows(history: seq<Write>, a: Write, x: WorkId)
    ensures WorkWritten(history + [a], x) <==> WorkWritten(history, x) || (a.Work? && x in a.ids)
  {
    var grown := history + [a];
    if i :| 0 <= i < |history| && history[i].Work? && x in history[i].ids {
      assert grown[i] == history[i];
    }
    if a.Work? && x in a.ids {
      assert grown[|history|] == a;
    }
    if i :| 0 <= i < |grown| && grown[i].Work? && x in grown[i].ids && i < |history| {
      assert history[i] == grown[i];
    }
  }

  lemma AllWorkGrows(c: Setting, history: seq<Write>, a: Write, node: Node, win: Window)
    requires AllWorkWritten(c, history, node, win)
    ensures AllWorkWritten(c, history + [a], node, win)
  {
    forall x | WindowAsks(c, node, win, x) ensures WorkWritten(history + [a], x) {
      WorkWrittenGrows(history, a, x);
    }
  }

  lemma DoneGrows(c: Setting, history: seq<Write>, a: Write, n: nat, work: bool)
    requires Done(c, history, n, work)
    ensures Done(c, history + [a], n, work)
  {
    var node, allBlocks, win :|
      Covers(win, n) && Written(history, node, allBlocks, win) && (work ==> AllWorkWritten(c, history, node, win));
    assert Written(history + [a], node, allBlocks, win);
    if work { AllWorkGrows(c, history, a, node, win); }
  }

  lemma DoneBetweenGrows(c: Setting, history: seq<Write>, a: Write, from: nat, next: nat, work: bool)
    requires DoneBetween(c, history, from, next, work)
    ensures DoneBetween(c, history + [a], from, next, work)
  {
    forall n: nat | from <= n < next ensures Done(c, history + [a], n, work) {
      DoneGrows(c, history, a, n, work);
    }
  }

  lemma {:induction false} DonePrefix(c: Setting, history: seq<Write>, i: nat, from: nat, next: nat, work: bool)
    requires i <= |history| && DoneBetween(c, history[..i], from, next, work)
    ensures DoneBetween(c, history, from, next, work)
    decreases |history|
  {
    if i == |history| {
      assert history[..i] == history;
    } else {
      var n := |history| - 1;
      assert history[..n][..i] == history[..i];
      DonePrefix(c, history[..n], i, from, next, work);
      DoneBetweenGrows(c, history[..n], history[n], from, next, work);
      assert history[..n] + [history[n]] == history;
    }
  }

  lemma BackedGrows(c: Setting, history: seq<Write>, a: Write, sc: Scanner, work: bool)
    requires StageBacked(c, history, sc, work)
    ensures StageBacked(c, history + [a], sc, work)
  {
    if work && sc.stage.Enqueueing? {
      forall x | WindowAsks(c, sc.node, sc.stage.win, x) ensures WorkWritten(history + [a], x) || x in sc.stage.ids {
        WorkWrittenGrows(history, a, x);
      }
    } else if work && (sc.stage.ReadingCheckpoint? || sc.stage.InsertingCheckpoint? || sc.stage.Recording?) {
      AllWorkGrows(c, history, a, sc.node, sc.stage.win);
    }
  }

  lemma ScannerKeeps(c: Setting, history: seq<Write>, a: Write, sc: Scanner, work: bool)
    requires ScannerFits(c, history, sc, work)
    ensures ScannerFits(c, history + [a], sc, work)
  {
    BackedGrows(c, history, a, sc, work);
    if sc.update {
      DoneBetweenGrows(c, history, a, c.deployed, sc.cursor, work);
    }
  }

  lemma MarksStayCovered(c: Setting, history: seq<Write>, a: Write, work: bool)
    requires MarksAreCovered(c, history, work)
    requires a.Mark? ==> DoneBetween(c, history, c.deployed, a.number + 1, work)
    ensures MarksAreCovered(c, history + [a], work)
  {
    var grown := history + [a];
    forall i: nat | i < |grown| && grown[i].Mark?
      ensures DoneBetween(c, grown[..i], c.deployed, grown[i].number + 1, work)
    {
      assert grown[..i] == history[..i];
      assert i == |history| ==> history[..i] == history;
    }
  }

  /** The history grows by one insert; scanner `id`, if it made it, moves on. */
  lemma InsertKeepsInv(c: Setting, s: State, t: State, a: Write, id: nat, work: bool)
    requires Inv(c, s, work) && t.history == s.history + [a]
    requires a.Mark? ==> DoneBetween(c, s.history, c.deployed, a.number + 1, work)
    requires forall other | other in t.scanners && other != id ::
              other in s.scanners && t.scanners[other] == s.scanners[other]
    requires id in t.scanners ==> ScannerFits(c, t.history, t.scanners[id], work)
    ensures Inv(c, t, work)
  {
    MarksStayCovered(c, s.history, a, work);
    forall other | other in t.scanners ensures ScannerFits(c, t.history, t.scanners[other], work) {
      if other != id { ScannerKeeps(c, s.history, a, s.scanners[other], work); }
    }
  }

  /** The window's own insert is what the next stage needs behind it. */
  lemma StorageTurnKeepsInv(c: Setting, s: State, id: nat, a: Write, stage: Stage, work: bool)
    requires Inv(c, s, work) && id in s.scanners && !a.Mark?
    requires var sc := s.scanners[id].(stage := stage);
             && WindowFits(sc) && StageBacked(c, s.history + [a], sc, work)
             && (stage.ReadingCheckpoint? || stage.InsertingCheckpoint? ==> sc.update)
    ensures Inv(c, Insert(s, id, a, stage), work)
  {
    ScannerKeeps(c, s.history, a, s.scanners[id], work);
    InsertKeepsInv(c, s, Insert(s, id, a, stage), a, id, work);
  }

  lemma StoreTurnKeepsInv(c: Setting, s: State, id: nat, at: Recent.Seconds, work: bool)
    requires Usable(c.limits) && Inv(c, s, work) && id in s.scanners
    requires var stage := s.scanners[id].stage; stage.StoringHeaders? || stage.StoringLogs? || stage.StoringEvents?
    ensures Inv(c, Progress(c, s, id, at), work)
  {
    var sc := s.scanners[id];
    match sc.stage
    case StoringHeaders(win) =>
      StorageTurnKeepsInv(c, s, id, Headers(sc.node, win.lo, win.hi + 1, win.hi, sc.allBlocks), StoringLogs(win), work);
    case StoringLogs(win) =>
      StorageTurnKeepsInv(c, s, id, RawLogs(sc.node, win.lo, win.hi + 1), StoringEvents(win), work);
    case StoringEvents(win) => StorageTurnKeepsInv(c, s, id, Events(sc.node, win.lo, win.hi + 1), Taking(win), work);
  }

  /** Nothing is inserted; scanner `id`, if it goes on, fits where it now stands. */
  lemma MoveKeepsInv(c: Setting, s: State, t: State, id: nat, work: bool)
    requires Inv(c, s, work) && t.history == s.history
    requires forall other | other in t.scanners && other != id ::
              other in s.scanners && t.scanners[other] == s.scanners[other]
    requires id in t.scanners ==> ScannerFits(c, s.history, t.scanners[id], work)
    ensures Inv(c, t, work)
  {
  }

  lemma {:induction false} TakenIsBacked(c: Setting, s: State, id: nat, at: Recent.Seconds, work: bool)
    requires id in s.scanners && s.scanners[id].stage.Taking? && StageBacked(c, s.history, s.scanners[id], work)
    requires work ==> forall x :: !Skips(c, s, Turn(id, at), x)
    ensures var t := TakeWork(c, s, id, s.scanners[id].stage.win, at);
            id in t.scanners && StageBacked(c, s.history, t.scanners[id], work)
  {
    var sc := s.scanners[id];
    var ids := WindowWork(c, sc.node, sc.stage.win);
    if work {
      forall x | WindowAsks(c, sc.node, sc.stage.win, x)
        ensures WorkWritten(s.history, x) || x in Take(c, s, sc.process, ids, at).newIds
      {
        assert !Skips(c, s, Turn(id, at), x);
      }
    }
  }

  lemma TakeKeepsInv(c: Setting, s: State, id: nat, at: Recent.Seconds, work: bool)
    requires Usable(c.limits) && Inv(c, s, work) && id in s.scanners && s.scanners[id].stage.Taking?
    requires work ==> forall x :: !Skips(c, s, Turn(id, at), x)
    ensures Inv(c, Progress(c, s, id, at), work)
  {
    var sc := s.scanners[id];
    var t := TakeWork(c, s, id, sc.stage.win, at);
    TakenIsBacked(c, s, id, at, work);
    assert t.scanners[id] == sc.(stage := t.scanners[id].stage);
    MoveKeepsInv(c, s, t, id, work);
  }

  lemma EnqueueKeepsInv(c: Setting, s: State, id: nat, at: Recent.Seconds, work: bool)
    requires Usable(c.limits) && Inv(c, s, work) && id in s.scanners && s.scanners[id].stage.Enqueueing?
    ensures Inv(c, Progress(c, s, id, at), work)
  {
    var sc := s.scanners[id];
    var win, a := sc.stage.win, Work(sc.stage.ids);
    if work {
      forall x | WindowAsks(c, sc.node, win, x) ensures WorkWritten(s.history + [a], x) {
        WorkWrittenGrows(s.history, a, x);
      }
    }
    StorageTurnKeepsInv(c, s, id, a, AfterWork(sc, win), work);
  }

  lemma WindowIsDone(c: Setting, history: seq<Write>, sc: Scanner, work: bool)
    requires ScannerFits(c, history, sc, work) && sc.update
    requires sc.stage.ReadingCheckpoint? || sc.stage.InsertingCheckpoint? || sc.stage.Recording?
    ensures DoneBetween(c, history, c.deployed, sc.stage.win.hi + 1, work)
  {
    var win := sc.stage.win;
    forall n: nat | c.deployed <= n < win.hi + 1 ensures Done(c, history, n, work) {
      if sc.cursor <= n {
        assert Covers(win, n) && Written(history, sc.node, sc.allBlocks, win);
      }
    }
  }

  lemma MarkKeepsInv(c: Setting, s: State, id: nat, at: Recent.Seconds, work: bool)
    requires Usable(c.limits) && Inv(c, s, work) && id in s.scanners && s.scanners[id].stage.InsertingCheckpoint?
    ensures Inv(c, Progress(c, s, id, at), work)
  {
    var sc := s.scanners[id];
    var a := Mark(sc.stage.win.hi);
    WindowIsDone(c, s.history, sc, work);
    ScannerKeeps(c, s.history, a, sc, work);
    InsertKeepsInv(c, s, Progress(c, s, id, at), a, id, work);
  }

  lemma RecordKeepsInv(c: Setting, s: State, id: nat, at: Recent.Seconds, work: bool)
    requires Usable(c.limits) && Inv(c, s, work) && id in s.scanners && s.scanners[id].stage.Recording?
    ensures Inv(c, Progress(c, s, id, at), work)
  {
    var sc := s.scanners[id];
    var win := sc.stage.win;
    var a := Ranged(win, |GetLogs(c.w, sc.node, win.lo, win.hi + 1)|);
    if sc.update {
      WindowIsDone(c, s.history, sc, work);
      DoneBetweenGrows(c, s.history, a, c.deployed, win.hi + 1, work);
    }
    InsertKeepsInv(c, s, Progress(c, s, id, at), a, id, work);
  }

  lemma ReadOrAskKeepsInv(c: Setting, s: State, id: nat, at: Recent.Seconds, work: bool)
    requires Usable(c.limits) && Inv(c, s, work) && id in s.scanners
    requires s.scanners[id].stage.Asking? || s.scanners[id].stage.ReadingCheckpoint?
    ensures Inv(c, Progress(c, s, id, at), work)
  {
    MoveKeepsInv(c, s, Progress(c, s, id, at), id, work);
  }

  lemma TurnKeepsInv(c: Setting, s: State, id: nat, at: Recent.Seconds, work: bool)
    requires Usable(c.limits) && Inv(c, s, work) && id in s.scanners
    requires work ==> forall x :: !Skips(c, s, Turn(id, at), x)
    ensures Inv(c, Progress(c, s, id, at), work)
  {
    match s.scanners[id].stage
    case Asking => ReadOrAskKeepsInv(c, s, id, at, work);
    case Taking(_) => TakeKeepsInv(c, s, id, at, work);
    case Enqueueing(_, _) => EnqueueKeepsInv(c, s, id, at, work);
    case ReadingCheckpoint(_) => ReadOrAskKeepsInv(c, s, id, at, work);
    case InsertingCheckpoint(_, _) => MarkKeepsInv(c, s, id, at, work);
    case Recording(_) => RecordKeepsInv(c, s, id, at, work);
    case _ => StoreTurnKeepsInv(c, s, id, at, work);
  }

  /** The FINAL checkpoint was inserted. */
  lemma {:induction false} CheckpointWasMarked(c: Setting, history: seq<Write>)
    ensures var cp := CheckpointOf(DbOf(c, history)); cp.Some? ==> Mark(cp.value) in history
    ensures forall row | row in DbOf(c, history).checkpoints :: Mark(row.value) in history
  {
    if history == [] {
    } else {
      var n := |history| - 1;
      CheckpointWasMarked(c, history[..n]);
      assert forall a :: a in history[..n] ==> a in history;
      assert history[n] in history;
    }
  }

  lemma CommittedIsCovered(c: Setting, s: State, work: bool)
    requires MarksAreCovered(c, s.history, work)
    ensures Committed(c, s).Some? ==> DoneBetween(c, s.history, c.deployed, Committed(c, s).value + 1, work)
  {
    if Committed(c, s).Some? {
      CheckpointWasMarked(c, s.history);
      var i :| 0 <= i < |s.history| && s.history[i] == Mark(Committed(c, s).value);
      DonePrefix(c, s.history, i, c.deployed, Committed(c, s).value + 1, work);
    }
  }

  lemma BeginKeepsInv(c: Setting, s: State, a: Action, work: bool)
    requires Usable(c.limits) && Inv(c, s, work) && a.Begin? && Disciplined(c, s, a)
    ensures Inv(c, Next(c, s, a), work)
  {
    CommittedIsCovered(c, s, work);
  }

  lemma NextKeepsInv(c: Setting, s: State, a: Action, work: bool)
    requires Usable(c.limits) && Inv(c, s, work) && Keeps(c, s, a, work)
    ensures Inv(c, Next(c, s, a), work)
  {
    match a
    case Begin(_, _, _, _, _, _, _) => BeginKeepsInv(c, s, a, work);
    case Turn(id, at) => if id in s.scanners { TurnKeepsInv(c, s, id, at, work); }
    case TaskInserts(task) =>
      if task in s.tasks {
        var id := NoScanner(s);
        InsertKeepsInv(c, s, Next(c, s, a), Work(s.tasks[task].ids), id, work);
      }
    case _ =>
  }

  lemma NoScanner(s: State) returns (id: nat)
    ensures id !in s.scanners
  {
    id := FreeBeyond(s.scanners.Keys);
  }

  lemma {:induction false} FreeBeyond(ids: set<nat>) returns (free: nat)
    ensures forall id | id in ids :: id < free
  {
    if ids == {} {
      free := 0;
    } else {
      var id :| id in ids;
      var beyond := FreeBeyond(ids - {id});
      free := if id < beyond then beyond else id + 1;
      assert forall other | other in ids :: other == id || other in ids - {id};
    }
  }

  ghost predicate RunKeeps(c: Setting, s: State, actions: seq<Action>, work: bool)
    requires Usable(c.limits)
    decreases |actions|
  {
    actions != [] ==> Keeps(c, s, actions[0], work) && RunKeeps(c, Next(c, s, actions[0]), actions[1..], work)
  }

  lemma {:induction false} RunKeepsInv(c: Setting, s: State, actions: seq<Action>, work: bool)
    requires Usable(c.limits) && Inv(c, s, work) && RunKeeps(c, s, actions, work)
    ensures Inv(c, Run(c, s, actions), work)
    decreases |actions|
  {
    if actions == [] {
    } else {
      NextKeepsInv(c, s, actions[0], work);
      RunKeepsInv(c, Next(c, s, actions[0]), actions[1..], work);
    }
  }

  /** Crash-safe coverage. After any run of any number of scanners and tasks, whatever raised or
      crashed in between: each block from the deployment to the committed checkpoint lies in a
      window whose headers, raw logs and events have all been written. If moreover no step of
      the run held back an id that nobody had written, so has all its work. */
  lemma CommittedBlocksAreDone(c: Setting, actions: seq<Action>, n: nat, work: bool)
    requires Usable(c.limits) && RunKeeps(c, INITIAL, actions, work)
    ensures var s := Run(c, INITIAL, actions);
            Committed(c, s).Some? && c.deployed <= n <= Committed(c, s).value ==> Done(c, s.history, n, work)
  {
    RunKeepsInv(c, INITIAL, actions, work);
    CommittedIsCovered(c, Run(c, INITIAL, actions), work);
  }
}
