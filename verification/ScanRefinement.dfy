/** One scanner left alone does what the sequential scan does.

    The protocol takes a scan apart into turns. Here its turns are put together again: without
    interference they write what `CommitAll` says, for the windows of the pure scan and the ids
    the process's dictionary lets through. What is proved about the sequential scan therefore
    holds of the protocol's, and the other way round. */
module ScanRefinement {
  import opened Windows
  import opened ChainStore
  import opened CanonicalViews
  import opened ScanProtocol
  import opened CheckpointOverTime
  import Recent = RecentEnqueues
  import Queue = WorkStore

  function Turns(id: nat, at: Recent.Seconds, k: nat): seq<Action> {
    seq(k, _ => Turn(id, at))
  }

  ghost predicate OwnTurns(actions: seq<Action>, id: nat) {
    forall a | a in actions :: a.Turn? && a.id == id
  }

  lemma OwnAppend(first: seq<Action>, second: seq<Action>, id: nat)
    requires OwnTurns(first, id) && OwnTurns(second, id)
    ensures OwnTurns(first + second, id)
  {
  }

  lemma PutTwice<T>(m: map<nat, T>, id: nat, a: T, b: T)
    ensures m[id := a][id := b] == m[id := b]
  {
  }

  lemma TurnFirst(c: Setting, s: State, id: nat, at: Recent.Seconds, k: nat)
    requires Usable(c.limits) && 1 <= k
    ensures Run(c, s, Turns(id, at, k)) == Run(c, Next(c, s, Turn(id, at)), Turns(id, at, k - 1))
  {
    assert Turns(id, at, k)[1..] == Turns(id, at, k - 1);
  }

  lemma OneTurn(c: Setting, s: State, id: nat, at: Recent.Seconds)
    requires Usable(c.limits)
    ensures Run(c, s, Turns(id, at, 1)) == Next(c, s, Turn(id, at))
  {
    TurnFirst(c, s, id, at, 1);
    assert Turns(id, at, 0) == [];
  }

  // ---------------------------------------------------------------- one window, turn by turn

  function StoreWrites(sc: Scanner, win: Window): seq<Write> {
    [Headers(sc.node, win.lo, win.hi + 1, win.hi, sc.allBlocks), RawLogs(sc.node, win.lo, win.hi + 1),
     Events(sc.node, win.lo, win.hi + 1)]
  }

  /** `s` with scanner `id` at `stage` and some more inserts made. */
  function WithWrites(s: State, id: nat, stage: Stage, more: seq<Write>): State
    requires id in s.scanners
  {
    At(s, id, stage).(history := s.history + more)
  }

  lemma WithWritesTwice(s: State, id: nat, a: Stage, b: Stage, first: seq<Write>, second: seq<Write>)
    requires id in s.scanners
    ensures WithWrites(WithWrites(s, id, a, first), id, b, second) == WithWrites(s, id, b, first + second)
  {
    assert (s.history + first) + second == s.history + (first + second);
    assert s.scanners[id := s.scanners[id].(stage := a)][id := s.scanners[id].(stage := b)] ==
              s.scanners[id := s.scanners[id].(stage := b)];
  }

  lemma StoreTurns(c: Setting, s: State, id: nat, win: Window, at: Recent.Seconds)
    requires Usable(c.limits) && id in s.scanners && s.scanners[id].stage == StoringHeaders(win)
    ensures Run(c, s, Turns(id, at, 3)) == WithWrites(s, id, Taking(win), StoreWrites(s.scanners[id], win))
  {
    var w := StoreWrites(s.scanners[id], win);
    var one, two := WithWrites(s, id, StoringLogs(win), [w[0]]), WithWrites(s, id, StoringEvents(win), [w[0]] + [w[1]]);
    TurnFirst(c, s, id, at, 3);
    TurnFirst(c, one, id, at, 2);
    OneTurn(c, two, id, at);
    WithWritesTwice(s, id, StoringLogs(win), StoringEvents(win), [w[0]], [w[1]]);
    WithWritesTwice(s, id, StoringEvents(win), Taking(win), [w[0]] + [w[1]], [w[2]]);
    assert [w[0]] + [w[1]] + [w[2]] == w;
  }

  function WorkWrites(ids: seq<WorkId>): seq<Write> {
    if ids == [] then [] else [Work(ids)]
  }

  lemma WorkTurns(c: Setting, s: State, id: nat, win: Window, at: Recent.Seconds) returns (k: nat)
    requires Usable(c.limits) && id in s.scanners && s.scanners[id].stage == Taking(win)
    ensures var sc := s.scanners[id];
            var t := Take(c, s, sc.process, WindowWork(c, sc.node, win), at);
            Run(c, s, Turns(id, at, k)) ==
              WithWrites(s, id, AfterWork(sc, win), WorkWrites(t.newIds)).(seen := s.seen[sc.process := t.seen])
  {
    var sc := s.scanners[id];
    var t := Take(c, s, sc.process, WindowWork(c, sc.node, win), at);
    var taken := TakeWork(c, s, id, win, at);
    if t.newIds == [] {
      k := 1;
      OneTurn(c, s, id, at);
      assert s.history + [] == s.history;
    } else {
      k := 2;
      TurnFirst(c, s, id, at, 2);
      OneTurn(c, taken, id, at);
      WithWritesTwice(s, id, Enqueueing(win, t.newIds), AfterWork(sc, win), [], [Work(t.newIds)]);
      assert s.history + [] == s.history && [] + [Work(t.newIds)] == [Work(t.newIds)];
    }
  }

  function MarkWrites(marks: bool, win: Window): seq<Write> {
    if marks then [Mark(win.hi)] else []
  }

  lemma ReadTurn(c: Setting, s: State, id: nat, win: Window, at: Recent.Seconds)
    requires Usable(c.limits) && id in s.scanners && s.scanners[id].stage == ReadingCheckpoint(win)
    requires !Behind(win.hi, Committed(c, s))
    ensures Next(c, s, Turn(id, at)) == At(s, id, InsertingCheckpoint(win, Committed(c, s)))
  {
  }

  lemma {:induction false} CheckpointTurns(c: Setting, s: State, id: nat, win: Window, at: Recent.Seconds)
      returns (k: nat)
    requires Usable(c.limits) && id in s.scanners && s.scanners[id].stage == AfterWork(s.scanners[id], win)
    ensures Run(c, s, Turns(id, at, k)) ==
              WithWrites(s, id, Recording(win),
                         MarkWrites(s.scanners[id].update && !Behind(win.hi, Committed(c, s)), win))
  {
    var sc := s.scanners[id];
    if !sc.update {
      k := 0;
      assert Turns(id, at, 0) == [] && s.history + [] == s.history && s.scanners[id := sc] == s.scanners;
    } else if Behind(win.hi, Committed(c, s)) {
      k := 1;
      OneTurn(c, s, id, at);
      assert s.history + [] == s.history;
    } else {
      k := 2;
      var read := At(s, id, InsertingCheckpoint(win, Committed(c, s)));
      TurnFirst(c, s, id, at, 2);
      OneTurn(c, read, id, at);
      WithWritesTwice(s, id, InsertingCheckpoint(win, Committed(c, s)), Recording(win), [], [Mark(win.hi)]);
      assert s.history + [] == s.history && [] + [Mark(win.hi)] == [Mark(win.hi)];
    }
  }

  lemma {:induction false} NoMarkKeepsCommitted(c: Setting, history: seq<Write>, more: seq<Write>)
    requires forall a | a in more :: !a.Mark?
    ensures CheckpointOf(DbOf(c, history + more)) == CheckpointOf(DbOf(c, history))
  {
    if more == [] {
      assert history + more == history;
    } else {
      var n := |more| - 1;
      NoMarkKeepsCommitted(c, history, more[..n]);
      InsertMovesCommitted(c, history + more[..n], more[n]);
      assert history + more == (history + more[..n]) + [more[n]];
    }
  }

  /** The scanner after a committed window. */
  function Advanced(c: Setting, sc: Scanner, win: Window): Scanner
    requires Usable(c.limits)
  {
    sc.(cursor := win.hi + 1, range := Doubled(c.limits, sc.range), stage := Asking)
  }

  /** The state after scanner `id`, alone, has committed the window it was let through for. */
  function Committing(c: Setting, s: State, id: nat, win: Window, at: Recent.Seconds): State
    requires Usable(c.limits) && id in s.scanners
  {
    var sc := s.scanners[id];
    var t := Take(c, s, sc.process, WindowWork(c, sc.node, win), at);
    var marks := sc.update && !Behind(win.hi, Committed(c, s));
    s.(history := s.history + WritesOf(c.w, sc.node, Job(win, t.newIds), marks, sc.allBlocks),
       scanners := s.scanners[id := Advanced(c, sc, win)], seen := s.seen[sc.process := t.seen])
  }

  lemma StoredThenWorked(c: Setting, s: State, id: nat, win: Window, at: Recent.Seconds) returns (k: nat)
    requires Usable(c.limits) && id in s.scanners && s.scanners[id].stage == StoringHeaders(win)
    ensures var sc := s.scanners[id];
            var t := Take(c, s, sc.process, WindowWork(c, sc.node, win), at);
            var writes := StoreWrites(sc, win) + WorkWrites(t.newIds);
            var u := WithWrites(s, id, AfterWork(sc, win), writes).(seen := s.seen[sc.process := t.seen]);
            Run(c, s, Turns(id, at, 3) + Turns(id, at, k)) == u && Committed(c, u) == Committed(c, s)
  {
    var sc := s.scanners[id];
    var t := Take(c, s, sc.process, WindowWork(c, sc.node, win), at);
    var stored := WithWrites(s, id, Taking(win), StoreWrites(sc, win));
    StoreTurns(c, s, id, win, at);
    k := WorkTurns(c, stored, id, win, at);
    RunSplits(c, s, Turns(id, at, 3), Turns(id, at, k));
    WithWritesTwice(s, id, Taking(win), AfterWork(sc, win), StoreWrites(sc, win), WorkWrites(t.newIds));
    NoMarkKeepsCommitted(c, s.history, StoreWrites(sc, win) + WorkWrites(t.newIds));
  }

  lemma CheckedThenRecorded(c: Setting, s: State, id: nat, win: Window, at: Recent.Seconds) returns (k: nat)
    requires Usable(c.limits) && id in s.scanners && s.scanners[id].stage == AfterWork(s.scanners[id], win)
    ensures var sc := s.scanners[id];
            var marks := sc.update && !Behind(win.hi, Committed(c, s));
            var range := Ranged(win, |GetLogs(c.w, sc.node, win.lo, win.hi + 1)|);
            Run(c, s, Turns(id, at, k) + Turns(id, at, 1)) ==
              s.(history := s.history + (MarkWrites(marks, win) + [range]),
                 scanners := s.scanners[id := Advanced(c, sc, win)])
  {
    var sc := s.scanners[id];
    var marks := sc.update && !Behind(win.hi, Committed(c, s));
    k := CheckpointTurns(c, s, id, win, at);
    var marked := WithWrites(s, id, Recording(win), MarkWrites(marks, win));
    RunSplits(c, s, Turns(id, at, k), Turns(id, at, 1));
    OneTurn(c, marked, id, at);
    assert s.history + MarkWrites(marks, win) + [Ranged(win, |GetLogs(c.w, sc.node, win.lo, win.hi + 1)|)]
        == s.history + (MarkWrites(marks, win) + [Ranged(win, |GetLogs(c.w, sc.node, win.lo, win.hi + 1)|)]);
    assert marked.scanners[id := Advanced(c, sc, win)] == s.scanners[id := Advanced(c, sc, win)];
  }

  lemma {:induction false} WritesInParts(c: Setting, history: seq<Write>, sc: Scanner, job: Job, marks: bool)
    ensures var range := Ranged(job.win, |GetLogs(c.w, sc.node, job.win.lo, job.win.hi + 1)|);
            history + (StoreWrites(sc, job.win) + WorkWrites(job.ids)) + (MarkWrites(marks, job.win) + [range])
              == history + WritesOf(c.w, sc.node, job, marks, sc.allBlocks)
  {
  }

  lemma {:induction false} WindowTurns(c: Setting, s: State, id: nat, win: Window, at: Recent.Seconds)
      returns (actions: seq<Action>)
    requires Usable(c.limits) && id in s.scanners && s.scanners[id].stage == StoringHeaders(win)
    ensures OwnTurns(actions, id) && Run(c, s, actions) == Committing(c, s, id, win, at)
  {
    var sc := s.scanners[id];
    var t := Take(c, s, sc.process, WindowWork(c, sc.node, win), at);
    var k := StoredThenWorked(c, s, id, win, at);
    var writes := StoreWrites(sc, win) + WorkWrites(t.newIds);
    var worked := WithWrites(s, id, AfterWork(sc, win), writes).(seen := s.seen[sc.process := t.seen]);
    var m := CheckedThenRecorded(c, worked, id, win, at);
    RunSplits(c, s, Turns(id, at, 3) + Turns(id, at, k), Turns(id, at, m) + Turns(id, at, 1));
    actions := (Turns(id, at, 3) + Turns(id, at, k)) + (Turns(id, at, m) + Turns(id, at, 1));
    OwnAppend(Turns(id, at, 3), Turns(id, at, k), id);
    OwnAppend(Turns(id, at, m), Turns(id, at, 1), id);
    OwnAppend(Turns(id, at, 3) + Turns(id, at, k), Turns(id, at, m) + Turns(id, at, 1), id);
    WritesInParts(c, s.history, sc, Job(win, t.newIds), sc.update && !Behind(win.hi, Committed(c, s)));
    PutTwice(s.scanners, id, worked.scanners[id], Advanced(c, sc, win));
  }

  lemma {:induction false} ReplayAppend(w: World, db: Db, first: seq<Write>, second: seq<Write>)
    ensures Replay(w, db, first + second) == Replay(w, Replay(w, db, first), second)
  {
    if second == [] {
      assert first + second == first;
    } else {
      var n := |second| - 1;
      ReplayAppend(w, db, first, second[..n]);
      assert (first + second)[..|first + second| - 1] == first + second[..n];
    }
  }

  lemma CommittingCommits(c: Setting, s: State, id: nat, win: Window, at: Recent.Seconds)
    requires Usable(c.limits) && id in s.scanners
    ensures var sc := s.scanners[id];
            var job := Job(win, Take(c, s, sc.process, WindowWork(c, sc.node, win), at).newIds);
            DbOf(c, Committing(c, s, id, win, at).history) ==
                Commit(c.w, sc.node, DbOf(c, s.history), job, sc.update, sc.allBlocks)
  {
    var sc := s.scanners[id];
    var job := Job(win, Take(c, s, sc.process, WindowWork(c, sc.node, win), at).newIds);
    CommitIsItsWrites(c.w, sc.node, DbOf(c, s.history), job, sc.update, sc.allBlocks);
    var marks := sc.update && !Behind(win.hi, Committed(c, s));
    ReplayAppend(c.w, EMPTY, s.history, WritesOf(c.w, sc.node, job, marks, sc.allBlocks));
  }

  /** A take is a call of the dictionary, and its answer is what `Asks` says. */
  lemma TakeAsks(c: Setting, s: State, process: nat, node: Node, win: Window, at: Recent.Seconds,
                 asked: seq<Recent.Call>)
      returns (after: seq<Recent.Call>)
    requires SeenBy(s, process) == Recent.SeenAfter(c.recent, asked)
    ensures var t := Take(c, s, process, WindowWork(c, node, win), at);
            Asks(c.w, node, c.recent, asked, after, Job(win, t.newIds)) && t.seen == Recent.SeenAfter(c.recent, after)
  {
    var ids := WindowWork(c, node, win);
    if ids == [] {
      after := asked;
    } else {
      after := asked + [Recent.Call(Queue.FirstOccurrences(ids), at)];
      assert after[..|asked|] == asked;
    }
  }

  // ---------------------------------------------------------------- the whole scan

  /** How far scanner `id`'s scan has come: the jobs done since the store was `db0` and the
      process had asked its dictionary `asked0`. */
  ghost predicate Standing(c: Setting, s: State, sc: Scanner, db0: Db, asked0: seq<Recent.Call>,
                           asked: seq<Recent.Call>, jobs: seq<Job>) {
    && DbOf(c, s.history) == CommitAll(c.w, sc.node, db0, jobs, sc.update, sc.allBlocks)
    && AsksAll(c.w, sc.node, c.recent, asked0, asked, jobs)
    && SeenBy(s, sc.process) == Recent.SeenAfter(c.recent, asked)
  }

  lemma StandingNext(c: Setting, s: State, id: nat, win: Window, at: Recent.Seconds,
                                        db0: Db, asked0: seq<Recent.Call>, asked: seq<Recent.Call>, jobs: seq<Job>)
      returns (after: seq<Recent.Call>, job: Job)
    requires Usable(c.limits) && id in s.scanners && Standing(c, s, s.scanners[id], db0, asked0, asked, jobs)
    ensures var sc := s.scanners[id];
            && job == Job(win, Take(c, s, sc.process, WindowWork(c, sc.node, win), at).newIds)
            && Standing(c, Committing(c, s, id, win, at), sc, db0, asked0, after, jobs + [job])
  {
    var sc := s.scanners[id];
    job := Job(win, Take(c, s, sc.process, WindowWork(c, sc.node, win), at).newIds);
    CommittingCommits(c, s, id, win, at);
    CommitNext(c.w, sc.node, db0, jobs, job, sc.update, sc.allBlocks);
    after := TakeAsks(c, s, sc.process, sc.node, win, at, asked);
    AsksNext(c.w, sc.node, c.recent, asked0, asked, after, jobs, job);
  }

  predicate IsPart(a: Write) {
    a.Headers? || a.RawLogs? || a.Events?
  }

  ghost predicate PartOf(sc: Scanner, jobs: seq<Job>, a: Write) {
    exists i :: 0 <= i < |jobs| && a in StoreWrites(sc, jobs[i].win)
  }

  /** The inserts of blocks, logs and events since `history0` are those of the jobs' windows. */
  ghost predicate PartsAre(sc: Scanner, history0: seq<Write>, history: seq<Write>, jobs: seq<Job>) {
    forall a | IsPart(a) :: a in history <==> a in history0 || PartOf(sc, jobs, a)
  }

  lemma PartsNext(c: Setting, sc: Scanner, history0: seq<Write>, history: seq<Write>, jobs: seq<Job>, job: Job,
                  marks: bool)
    requires PartsAre(sc, history0, history, jobs)
    ensures PartsAre(sc, history0, history + WritesOf(c.w, sc.node, job, marks, sc.allBlocks), jobs + [job])
  {
    var more := WritesOf(c.w, sc.node, job, marks, sc.allBlocks);
    forall a | IsPart(a) ensures a in history + more <==> a in history0 || PartOf(sc, jobs + [job], a) {
      assert a in more <==> a in StoreWrites(sc, job.win);
      if PartOf(sc, jobs, a) {
        var i :| 0 <= i < |jobs| && a in StoreWrites(sc, jobs[i].win);
        assert (jobs + [job])[i] == jobs[i];
      }
      if a in StoreWrites(sc, job.win) {
        assert (jobs + [job])[|jobs|] == job;
      }
      if PartOf(sc, jobs + [job], a) {
        var i :| 0 <= i < |jobs| + 1 && a in StoreWrites(sc, (jobs + [job])[i].win);
        assert i < |jobs| ==> a in StoreWrites(sc, jobs[i].win);
      }
    }
  }

  /** Only scanner `id` and its process's memory have changed. */
  ghost predicate OthersKept(s: State, t: State, id: nat, process: nat) {
    && t.tasks == s.tasks
    && (forall p | p != process :: SeenBy(t, p) == SeenBy(s, p))
    && (forall other | other != id :: (other in t.scanners <==> other in s.scanners)
          && (other in t.scanners ==> t.scanners[other] == s.scanners[other]))
  }

  /** What a scan has done: the jobs, and nothing to others. */
  ghost predicate Did(c: Setting, s: State, t: State, id: nat, sc: Scanner, db0: Db, asked0: seq<Recent.Call>,
                      after: seq<Recent.Call>,
                      history0: seq<Write>, jobs: seq<Job>) {
    && OthersKept(s, t, id, sc.process)
    && Standing(c, t, sc, db0, asked0, after, jobs) && PartsAre(sc, history0, t.history, jobs)
  }

  lemma DidThen(c: Setting, s: State, t: State, u: State, id: nat, sc: Scanner, db0: Db, asked0: seq<Recent.Call>,
                after: seq<Recent.Call>,
                                   history0: seq<Write>, jobs: seq<Job>)
    requires OthersKept(s, t, id, sc.process) && Did(c, t, u, id, sc, db0, asked0, after, history0, jobs)
    ensures Did(c, s, u, id, sc, db0, asked0, after, history0, jobs)
  {
  }

  lemma {:induction false} AskEnds(c: Setting, s: State, id: nat, at: Recent.Seconds)
    requires Usable(c.limits) && id in s.scanners && s.scanners[id].stage.Asking?
    ensures var sc := s.scanners[id];
            var t := Next(c, s, Turn(id, at));
            if sc.end < sc.cursor then t == Stop(s, id)
            else match TurnOf(c.w, sc.node, c.limits, sc.cursor, sc.range, sc.end, sc.calls)
              case GaveUp => t == Stop(s, id)
              case Narrowed(range) => t == Put(s, id, sc.(calls := sc.calls + 1, range := range))
              case Advanced(next, _, _) =>
                t == Put(s, id, sc.(calls := sc.calls + 1, stage := StoringHeaders(Window(sc.cursor, next - 1))))
  {
  }

  lemma CommittingDoes(c: Setting, s: State, id: nat, win: Window, at: Recent.Seconds, db0: Db,
                       asked0: seq<Recent.Call>,
                                          asked: seq<Recent.Call>, history0: seq<Write>, done: seq<Job>)
      returns (after: seq<Recent.Call>, job: Job)
    requires Usable(c.limits) && id in s.scanners
    requires Did(c, s, s, id, s.scanners[id], db0, asked0, asked, history0, done)
    ensures job.win == win
    ensures Did(c, s, Committing(c, s, id, win, at), id, s.scanners[id], db0, asked0, after, history0, done + [job])
  {
    var sc := s.scanners[id];
    after, job := StandingNext(c, s, id, win, at, db0, asked0, asked, done);
    PartsNext(c, sc, history0, s.history, done, job, sc.update && !Behind(win.hi, Committed(c, s)));
  }

  /** The window a scanner asks for next. */
  function NextWindow(sc: Scanner): Window
    requires sc.cursor <= sc.end
  {
    Window(sc.cursor, UpperBound(sc.cursor, sc.range, sc.end))
  }

  function LetThrough(sc: Scanner): Scanner
    requires sc.cursor <= sc.end
  {
    sc.(calls := sc.calls + 1, stage := StoringHeaders(NextWindow(sc)))
  }

  /** The turns of one accepted window. */
  lemma AcceptedTurns(c: Setting, s: State, id: nat, at: Recent.Seconds) returns (actions: seq<Action>)
    requires Usable(c.limits) && id in s.scanners && s.scanners[id].stage.Asking?
    requires var sc := s.scanners[id];
             sc.cursor <= sc.end && TurnOf(c.w, sc.node, c.limits, sc.cursor, sc.range, sc.end, sc.calls).Advanced?
    ensures var sc := s.scanners[id];
            && OwnTurns(actions, id)
            && Run(c, s, actions) == Committing(c, Put(s, id, LetThrough(sc)), id, NextWindow(sc), at)
  {
    var sc := s.scanners[id];
    AskEnds(c, s, id, at);
    RunOne(c, s, Turn(id, at));
    var own := WindowTurns(c, Put(s, id, LetThrough(sc)), id, NextWindow(sc), at);
    actions := [Turn(id, at)] + own;
    RunSplits(c, s, [Turn(id, at)], own);
    OwnAppend([Turn(id, at)], own, id);
  }

  /** What they have done. */
  lemma AcceptedDid(c: Setting, s: State, id: nat, at: Recent.Seconds, db0: Db, asked0: seq<Recent.Call>,
                                       asked: seq<Recent.Call>, history0: seq<Write>, done: seq<Job>)
      returns (after: seq<Recent.Call>, job: Job)
    requires Usable(c.limits) && id in s.scanners && s.scanners[id].cursor <= s.scanners[id].end
    requires Did(c, s, s, id, s.scanners[id], db0, asked0, asked, history0, done)
    ensures var sc := s.scanners[id];
            && job.win == NextWindow(sc)
            && Did(c, s, Committing(c, Put(s, id, LetThrough(sc)), id, job.win, at), id, sc, db0, asked0, after,
                   history0, done + [job])
  {
    var sc := s.scanners[id];
    var asking := Put(s, id, LetThrough(sc));
    SameScan(c, s, sc, LetThrough(sc), db0, asked0, asked, history0, done);
    SameScan(c, asking, sc, LetThrough(sc), db0, asked0, asked, history0, done);
    after, job := CommittingDoes(c, asking, id, NextWindow(sc), at, db0, asked0, asked, history0, done);
    var u := Committing(c, asking, id, job.win, at);
    SameScan(c, u, LetThrough(sc), sc, db0, asked0, after, history0, done + [job]);
    DidThen(c, s, asking, u, id, sc, db0, asked0, after, history0, done + [job]);
  }

  lemma OneAccepted(c: Setting, s: State, id: nat, at: Recent.Seconds, db0: Db, asked0: seq<Recent.Call>,
                                       asked: seq<Recent.Call>, history0: seq<Write>, done: seq<Job>)
      returns (actions: seq<Action>, after: seq<Recent.Call>, job: Job)
    requires Usable(c.limits) && id in s.scanners && s.scanners[id].stage.Asking?
    requires var sc := s.scanners[id];
             sc.cursor <= sc.end && TurnOf(c.w, sc.node, c.limits, sc.cursor, sc.range, sc.end, sc.calls).Advanced?
    requires Did(c, s, s, id, s.scanners[id], db0, asked0, asked, history0, done)
    ensures OwnTurns(actions, id) && job.win == NextWindow(s.scanners[id])
    ensures var t, sc := Run(c, s, actions), s.scanners[id];
            && id in t.scanners && t.scanners[id] == Advanced(c, sc, job.win).(calls := sc.calls + 1)
            && Did(c, s, t, id, sc, db0, asked0, after, history0, done + [job])
  {
    actions := AcceptedTurns(c, s, id, at);
    after, job := AcceptedDid(c, s, id, at, db0, asked0, asked, history0, done);
  }

  /** From any point between two windows on: the scanner, alone, finishes the pure scan `pure`. */
  lemma {:induction false} FinishScan(c: Setting, s: State, id: nat, clock: nat -> Recent.Seconds, pure: Scanned,
                                      db0: Db,
                                      asked0: seq<Recent.Call>, asked: seq<Recent.Call>, history0: seq<Write>,
                                      done: seq<Job>)
      returns (actions: seq<Action>, after: seq<Recent.Call>, jobs: seq<Job>)
    requires Usable(c.limits) && id in s.scanners && s.scanners[id].stage.Asking?
    requires var sc := s.scanners[id];
             Ahead(sc.node, c.limits, pure, WindowsOf(done), sc.cursor, sc.range, sc.end, sc.calls)
    requires Did(c, s, s, id, s.scanners[id], db0, asked0, asked, history0, done)
    ensures OwnTurns(actions, id) && WindowsOf(jobs) == pure.windows
    ensures var t := Run(c, s, actions);
            id !in t.scanners && Did(c, s, t, id, s.scanners[id], db0, asked0, after, history0, jobs)
    decreases s.scanners[id].end + 1 - s.scanners[id].cursor, s.scanners[id].range, 2
  {
    var sc := s.scanners[id];
    if sc.end < sc.cursor {
      actions, after, jobs := FinishNow(c, s, id, clock(sc.calls), pure, db0, asked0, asked, history0, done);
    } else {
      match TurnOf(c.w, sc.node, c.limits, sc.cursor, sc.range, sc.end, sc.calls)
      case GaveUp =>
        actions, after, jobs := FinishNow(c, s, id, clock(sc.calls), pure, db0, asked0, asked, history0, done);
      case Narrowed(_) =>
        actions, after, jobs := FinishNarrowed(c, s, id, clock, pure, db0, asked0, asked, history0, done);
      case Advanced(_, _, _) =>
        actions, after, jobs := FinishAccepted(c, s, id, clock, pure, db0, asked0, asked, history0, done);
    }
  }

  lemma FinishNow(c: Setting, s: State, id: nat, at: Recent.Seconds, pure: Scanned, db0: Db,
                                     asked0: seq<Recent.Call>, asked: seq<Recent.Call>, history0: seq<Write>,
                                     done: seq<Job>)
      returns (actions: seq<Action>, after: seq<Recent.Call>, jobs: seq<Job>)
    requires Usable(c.limits) && id in s.scanners && s.scanners[id].stage.Asking?
    requires var sc := s.scanners[id];
             sc.cursor <= sc.end ==> TurnOf(c.w, sc.node, c.limits, sc.cursor, sc.range, sc.end, sc.calls).GaveUp?
    requires var sc := s.scanners[id];
             Ahead(sc.node, c.limits, pure, WindowsOf(done), sc.cursor, sc.range, sc.end, sc.calls)
    requires Did(c, s, s, id, s.scanners[id], db0, asked0, asked, history0, done)
    ensures OwnTurns(actions, id) && WindowsOf(jobs) == pure.windows
    ensures var t := Run(c, s, actions);
            id !in t.scanners && Did(c, s, t, id, s.scanners[id], db0, asked0, after, history0, jobs)
  {
    var sc := s.scanners[id];
    AskEnds(c, s, id, at);
    RunOne(c, s, Turn(id, at));
    if sc.cursor <= sc.end {
      AheadAfterTurn(c.w, sc.node, c.limits, pure, done, done, sc.cursor, sc.range, sc.end, sc.calls);
    }
    actions, after, jobs := [Turn(id, at)], asked, done;
  }

  lemma {:induction false} FinishNarrowed(c: Setting, s: State, id: nat, clock: nat -> Recent.Seconds, pure: Scanned,
                                          db0: Db,
                                          asked0: seq<Recent.Call>, asked: seq<Recent.Call>, history0: seq<Write>,
                                          done: seq<Job>)
      returns (actions: seq<Action>, after: seq<Recent.Call>, jobs: seq<Job>)
    requires Usable(c.limits) && id in s.scanners && s.scanners[id].stage.Asking?
    requires var sc := s.scanners[id];
             sc.cursor <= sc.end && TurnOf(c.w, sc.node, c.limits, sc.cursor, sc.range, sc.end, sc.calls).Narrowed?
    requires var sc := s.scanners[id];
             Ahead(sc.node, c.limits, pure, WindowsOf(done), sc.cursor, sc.range, sc.end, sc.calls)
    requires Did(c, s, s, id, s.scanners[id], db0, asked0, asked, history0, done)
    ensures OwnTurns(actions, id) && WindowsOf(jobs) == pure.windows
    ensures var t := Run(c, s, actions);
            id !in t.scanners && Did(c, s, t, id, s.scanners[id], db0, asked0, after, history0, jobs)
    decreases s.scanners[id].end + 1 - s.scanners[id].cursor, s.scanners[id].range, 1
  {
    var sc := s.scanners[id];
    var turn := Turn(id, clock(sc.calls));
    AskEnds(c, s, id, turn.at);
    RunOne(c, s, turn);
    AheadAfterTurn(c.w, sc.node, c.limits, pure, done, done, sc.cursor, sc.range, sc.end, sc.calls);
    actions, after, jobs := FinishFrom(c, s, id, clock, pure, db0, asked0, asked, history0, [turn], done);
  }

  lemma {:induction false} FinishAccepted(c: Setting, s: State, id: nat, clock: nat -> Recent.Seconds, pure: Scanned,
                                          db0: Db,
                                          asked0: seq<Recent.Call>, asked: seq<Recent.Call>, history0: seq<Write>,
                                          done: seq<Job>)
      returns (actions: seq<Action>, after: seq<Recent.Call>, jobs: seq<Job>)
    requires Usable(c.limits) && id in s.scanners && s.scanners[id].stage.Asking?
    requires var sc := s.scanners[id];
             sc.cursor <= sc.end && TurnOf(c.w, sc.node, c.limits, sc.cursor, sc.range, sc.end, sc.calls).Advanced?
    requires var sc := s.scanners[id];
             Ahead(sc.node, c.limits, pure, WindowsOf(done), sc.cursor, sc.range, sc.end, sc.calls)
    requires Did(c, s, s, id, s.scanners[id], db0, asked0, asked, history0, done)
    ensures OwnTurns(actions, id) && WindowsOf(jobs) == pure.windows
    ensures var t := Run(c, s, actions);
            id !in t.scanners && Did(c, s, t, id, s.scanners[id], db0, asked0, after, history0, jobs)
    decreases s.scanners[id].end + 1 - s.scanners[id].cursor, s.scanners[id].range, 1
  {
    var sc := s.scanners[id];
    var first, mid, job := OneAccepted(c, s, id, clock(sc.calls), db0, asked0, asked, history0, done);
    AheadAccepted(c, sc, pure, done, job);
    actions, after, jobs := FinishFrom(c, s, id, clock, pure, db0, asked0, mid, history0, first, done + [job]);
  }

  lemma AheadAccepted(c: Setting, sc: Scanner, pure: Scanned, done: seq<Job>, job: Job)
    requires Usable(c.limits) && sc.cursor <= sc.end
    requires TurnOf(c.w, sc.node, c.limits, sc.cursor, sc.range, sc.end, sc.calls).Advanced?
    requires Ahead(sc.node, c.limits, pure, WindowsOf(done), sc.cursor, sc.range, sc.end, sc.calls)
    requires job.win == Window(sc.cursor, UpperBound(sc.cursor, sc.range, sc.end))
    ensures var next := Advanced(c, sc, job.win);
            Ahead(sc.node, c.limits, pure, WindowsOf(done + [job]), next.cursor, next.range, sc.end, sc.calls + 1)
  {
    AheadAfterTurn(c.w, sc.node, c.limits, pure, done, done + [job], sc.cursor, sc.range, sc.end, sc.calls);
  }

  /** The rest of the scan, after its first turns. */
  lemma {:induction false} FinishFrom(c: Setting, s: State, id: nat, clock: nat -> Recent.Seconds, pure: Scanned,
                                      db0: Db,
                                      asked0: seq<Recent.Call>, asked: seq<Recent.Call>, history0: seq<Write>,
                                      first: seq<Action>, done: seq<Job>)
      returns (actions: seq<Action>, after: seq<Recent.Call>, jobs: seq<Job>)
    requires Usable(c.limits) && id in s.scanners && OwnTurns(first, id)
    requires var t, sc := Run(c, s, first), s.scanners[id];
             && id in t.scanners && t.scanners[id].stage.Asking? && t.scanners[id].end == sc.end
             && (|| t.scanners[id].cursor > sc.cursor
                 || (t.scanners[id].cursor == sc.cursor && t.scanners[id].range < sc.range))
             && sc.cursor <= sc.end && t.scanners[id].cursor <= sc.end + 1
             && t.scanners[id].node == sc.node && t.scanners[id].process == sc.process
             && t.scanners[id].update == sc.update && t.scanners[id].allBlocks == sc.allBlocks
             && Ahead(sc.node, c.limits, pure, WindowsOf(done), t.scanners[id].cursor, t.scanners[id].range, sc.end,
                      t.scanners[id].calls)
             && Did(c, s, t, id, sc, db0, asked0, asked, history0, done)
    ensures OwnTurns(actions, id) && WindowsOf(jobs) == pure.windows
    ensures var t := Run(c, s, actions);
            id !in t.scanners && Did(c, s, t, id, s.scanners[id], db0, asked0, after, history0, jobs)
    decreases s.scanners[id].end + 1 - s.scanners[id].cursor, s.scanners[id].range, 0
  {
    var t, sc := Run(c, s, first), s.scanners[id];
    SameScan(c, t, sc, t.scanners[id], db0, asked0, asked, history0, done);
    var rest;
    rest, after, jobs := FinishScan(c, t, id, clock, pure, db0, asked0, asked, history0, done);
    actions := first + rest;
    RunSplits(c, s, first, rest);
    OwnAppend(first, rest, id);
    SameScan(c, Run(c, t, rest), t.scanners[id], sc, db0, asked0, after, history0, jobs);
    DidThen(c, s, t, Run(c, t, rest), id, sc, db0, asked0, after, history0, jobs);
  }

  /** What a scan has done depends on its node and options, not on where it stands. */
  lemma SameScan(c: Setting, s: State, a: Scanner, b: Scanner, db0: Db, asked0: seq<Recent.Call>,
                 asked: seq<Recent.Call>,
                                    history0: seq<Write>, jobs: seq<Job>)
    requires a.node == b.node && a.process == b.process && a.update == b.update && a.allBlocks == b.allBlocks
    requires Standing(c, s, a, db0, asked0, asked, jobs) && PartsAre(a, history0, s.history, jobs)
    ensures Standing(c, s, b, db0, asked0, asked, jobs) && PartsAre(b, history0, s.history, jobs)
  {
    forall w | IsPart(w) ensures w in s.history <==> w in history0 || PartOf(b, jobs, w) {
      assert forall i | 0 <= i < |jobs| :: StoreWrites(a, jobs[i].win) == StoreWrites(b, jobs[i].win);
      if PartOf(a, jobs, w) {
        var i :| 0 <= i < |jobs| && w in StoreWrites(a, jobs[i].win);
        assert w in StoreWrites(b, jobs[i].win);
      }
      if PartOf(b, jobs, w) {
        var i :| 0 <= i < |jobs| && w in StoreWrites(b, jobs[i].win);
        assert w in StoreWrites(a, jobs[i].win);
      }
    }
  }

  lemma {:induction false} NothingDoneYet(c: Setting, s: State, id: nat, sc: Scanner, asked: seq<Recent.Call>)
    requires SeenBy(s, sc.process) == Recent.SeenAfter(c.recent, asked)
    ensures Did(c, s, s, id, sc, DbOf(c, s.history), asked, asked, s.history, [])
  {
  }

  /** Refinement. A scan begun in any state and left alone ends, having done to the store exactly
      what the sequential scan does: its windows are those of the pure scan, its work is what the
      process's dictionary let through, and nothing of anyone else has changed. */
  lemma {:induction false} ScanIsItsTurns(c: Setting, s: State, a: Action, clock: nat -> Recent.Seconds,
                                          asked: seq<Recent.Call>)
      returns (actions: seq<Action>, after: seq<Recent.Call>, jobs: seq<Job>)
    requires Usable(c.limits) && a.Begin? && a.id !in s.scanners
    requires SeenBy(s, a.process) == Recent.SeenAfter(c.recent, asked)
    requires StartOf(c, s, a.from) <= EndOf(a.node, a.to)
    ensures OwnTurns(actions, a.id)
    ensures WindowsOf(jobs) == ScanFrom(c.limits, a.node.accepts, StartOf(c, s, a.from), c.limits.initial,
                                        EndOf(a.node, a.to), 0).windows
    ensures AsksAll(c.w, a.node, c.recent, asked, after, jobs)
    ensures var t := Run(c, s, [a] + actions);
            && DbOf(c, t.history) == CommitAll(c.w, a.node, DbOf(c, s.history), jobs, a.update, a.allBlocks)
            && SeenBy(t, a.process) == Recent.SeenAfter(c.recent, after)
            && t.scanners == s.scanners && t.tasks == s.tasks
            && PartsAre(Begun(c, s, a), s.history, t.history, jobs)
  {
    var sc := Begun(c, s, a);
    var begun := Put(s, a.id, sc);
    var pure := ScanFrom(c.limits, a.node.accepts, sc.cursor, sc.range, sc.end, 0);
    NothingDoneYet(c, begun, a.id, sc, asked);
    assert WindowsOf([]) + pure.windows == pure.windows;
    actions, after, jobs := FinishScan(c, begun, a.id, clock, pure, DbOf(c, s.history), asked, asked, s.history, []);
    RunSplits(c, s, [a], actions);
    RunOne(c, s, a);
    BackAsItWas(s, Run(c, begun, actions), a.id, sc);
  }

  /** A call of the dictionary on top of the calls so far. */
  lemma TakeIsACall(c: Setting, s: State, process: nat, ids: seq<WorkId>, at: Recent.Seconds, asked: seq<Recent.Call>)
      returns (after: seq<Recent.Call>)
    requires SeenBy(s, process) == Recent.SeenAfter(c.recent, asked)
    ensures Take(c, s, process, ids, at).seen == Recent.SeenAfter(c.recent, after)
  {
    after := asked;
    if ids != [] {
      after := asked + [Recent.Call(Queue.FirstOccurrences(ids), at)];
      assert after[..|asked|] == asked;
    }
  }

  /** What an action does to a process's dictionary: a call of it, nothing, or its end. */
  lemma SeenAfterAction(c: Setting, s: State, a: Action, process: nat)
    requires Usable(c.limits)
    ensures var t := Next(c, s, a);
            || SeenBy(t, process) == SeenBy(s, process) || SeenBy(t, process) == []
            || exists ids, at :: SeenBy(t, process) == Take(c, s, process, ids, at).seen
  {
    if a.Turn? && a.id in s.scanners {
      var sc := s.scanners[a.id];
      match sc.stage
      case Taking(win) =>
        assert Progress(c, s, a.id, a.at) == TakeWork(c, s, a.id, win, a.at);
        assert sc.process == process ==>
            SeenBy(Next(c, s, a), process) == Take(c, s, process, WindowWork(c, sc.node, win), a.at).seen;
      case Asking =>
      case _ =>
    }
  }

  lemma NextAsks(c: Setting, s: State, a: Action, process: nat, asked: seq<Recent.Call>)
      returns (after: seq<Recent.Call>)
    requires Usable(c.limits) && SeenBy(s, process) == Recent.SeenAfter(c.recent, asked)
    ensures SeenBy(Next(c, s, a), process) == Recent.SeenAfter(c.recent, after)
  {
    var t := Next(c, s, a);
    SeenAfterAction(c, s, a, process);
    if SeenBy(t, process) == SeenBy(s, process) {
      after := asked;
    } else if SeenBy(t, process) == [] {
      after := [];
    } else {
      var ids, at :| SeenBy(t, process) == Take(c, s, process, ids, at).seen;
      after := TakeIsACall(c, s, process, ids, at, asked);
    }
  }

  /** In every state that a run reaches, a process's dictionary is what some sequence of calls
      leaves of an empty one. */
  lemma {:induction false} EveryRunAsks(c: Setting, actions: seq<Action>, process: nat)
      returns (asked: seq<Recent.Call>)
    requires Usable(c.limits)
    ensures SeenBy(Run(c, INITIAL, actions), process) == Recent.SeenAfter(c.recent, asked)
    decreases |actions|
  {
    if actions == [] {
      asked := [];
    } else {
      var n := |actions| - 1;
      asked := EveryRunAsks(c, actions[..n], process);
      RunNext(c, INITIAL, actions, n);
      assert actions[..n + 1] == actions;
      asked := NextAsks(c, Run(c, INITIAL, actions[..n]), actions[n], process, asked);
    }
  }

  /** So it holds of a scan begun after any run whatever. */
  lemma ScanAfterAnyRunIsItsTurns(c: Setting, before: seq<Action>, a: Action, clock: nat -> Recent.Seconds)
      returns (asked: seq<Recent.Call>, actions: seq<Action>, after: seq<Recent.Call>, jobs: seq<Job>)
    requires Usable(c.limits) && a.Begin? && a.id !in Run(c, INITIAL, before).scanners
    requires StartOf(c, Run(c, INITIAL, before), a.from) <= EndOf(a.node, a.to)
    ensures var s := Run(c, INITIAL, before);
            var t := Run(c, s, [a] + actions);
            && OwnTurns(actions, a.id)
            && SeenBy(s, a.process) == Recent.SeenAfter(c.recent, asked)
            && SeenBy(t, a.process) == Recent.SeenAfter(c.recent, after)
            && AsksAll(c.w, a.node, c.recent, asked, after, jobs)
            && WindowsOf(jobs) == ScanFrom(c.limits, a.node.accepts, StartOf(c, s, a.from), c.limits.initial,
                                           EndOf(a.node, a.to), 0).windows
            && DbOf(c, t.history) == CommitAll(c.w, a.node, DbOf(c, s.history), jobs, a.update, a.allBlocks)
            && t.scanners == s.scanners && t.tasks == s.tasks
  {
    asked := EveryRunAsks(c, before, a.process);
    actions, after, jobs := ScanIsItsTurns(c, Run(c, INITIAL, before), a, clock, asked);
  }

  lemma BackAsItWas(s: State, t: State, id: nat, sc: Scanner)
    requires id !in s.scanners && id !in t.scanners && OthersKept(Put(s, id, sc), t, id, sc.process)
    ensures t.scanners == s.scanners && t.tasks == s.tasks
  {
    forall other ensures other in t.scanners <==> other in s.scanners {
      assert other != id ==> (other in Put(s, id, sc).scanners <==> other in s.scanners);
    }
  }

  /** The scanner that a begin puts in place. */
  function Begun(c: Setting, s: State, a: Action): Scanner
    requires Usable(c.limits) && a.Begin?
  {
    Scanner(a.process, a.node, StartOf(c, s, a.from), c.limits.initial, EndOf(a.node, a.to), a.update, a.allBlocks, 0,
            Asking)
  }
}
