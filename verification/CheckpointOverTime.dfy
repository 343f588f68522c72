/** The checkpoint over time. Moving it is two steps, a read and an insert, and the engine keeps
    whatever was inserted last. */
module CheckpointOverTime {
  import opened VersionedTable
  import opened Windows
  import opened ChainStore
  import opened CanonicalViews
  import opened ScanProtocol
  import Recent = RecentEnqueues

  lemma {:induction false} CheckpointRowsAreOlder(c: Setting, history: seq<Write>)
    ensures Older(DbOf(c, history).checkpoints, DbOf(c, history).clock)
  {
    if history == [] {
    } else {
      CheckpointRowsAreOlder(c, history[..|history| - 1]);
    }
  }

  /** The newest checkpoint row is the one FINAL reads; other inserts do not touch it. */
  lemma InsertMovesCommitted(c: Setting, history: seq<Write>, a: Write)
    ensures CheckpointOf(DbOf(c, history + [a])) == if a.Mark? then Some(a.number) else CheckpointOf(DbOf(c, history))
  {
    var db := DbOf(c, history);
    ReplayPush(c.w, EMPTY, history, a);
    CheckpointRowsAreOlder(c, history);
    if a.Mark? {
      FinalOfPush(db.checkpoints, Row((), db.clock, a.number), ());
    }
  }

  ghost predicate AtMost(a: Option<nat>, b: Option<nat>) {
    a.Some? ==> b.Some? && a.value <= b.value
  }

  /** The action inserts a checkpoint row for a block behind what FINAL reads at that moment. */
  predicate InsertsBehind(c: Setting, s: State, a: Action) {
    AtCheckpoint(s, a) && Behind(s.scanners[a.id].stage.win.hi, Committed(c, s))
  }

  /** What an action does to the checkpoint. */
  lemma ActionMovesCommitted(c: Setting, s: State, a: Action)
    requires Usable(c.limits)
    ensures Committed(c, Next(c, s, a)) ==
              if AtCheckpoint(s, a) then Some(s.scanners[a.id].stage.win.hi) else Committed(c, s)
  {
    InsertOrNothing(c, s, a);
    var t := Next(c, s, a);
    if t.history != s.history {
      InsertMovesCommitted(c, s.history, t.history[|s.history|]);
    }
  }

  /** Exactly when one action moves the checkpoint backward. */
  lemma RetreatsIff(c: Setting, s: State, a: Action)
    requires Usable(c.limits)
    ensures !AtMost(Committed(c, s), Committed(c, Next(c, s, a))) <==> InsertsBehind(c, s, a)
  {
    ActionMovesCommitted(c, s, a);
  }

  /** At no two moments of the run is the checkpoint lower at the later one. */
  ghost predicate NeverRetreats(c: Setting, s: State, actions: seq<Action>)
    requires Usable(c.limits)
  {
    forall i: nat, j: nat | i <= j <= |actions| ::
      AtMost(Committed(c, Run(c, s, actions[..i])), Committed(c, Run(c, s, actions[..j])))
  }

  ghost predicate NeverInsertsBehind(c: Setting, s: State, actions: seq<Action>)
    requires Usable(c.limits)
  {
    forall i: nat | i < |actions| :: !InsertsBehind(c, Run(c, s, actions[..i]), actions[i])
  }

  lemma RunNext(c: Setting, s: State, actions: seq<Action>, i: nat)
    requires Usable(c.limits) && i < |actions|
    ensures Run(c, s, actions[..i + 1]) == Next(c, Run(c, s, actions[..i]), actions[i])
  {
    assert actions[..i + 1] == actions[..i] + [actions[i]];
    RunSplits(c, s, actions[..i], [actions[i]]);
    RunOne(c, Run(c, s, actions[..i]), actions[i]);
  }

  lemma {:induction false} RisesBetween(c: Setting, s: State, actions: seq<Action>, i: nat, j: nat)
    requires Usable(c.limits) && i <= j <= |actions| && NeverInsertsBehind(c, s, actions)
    ensures AtMost(Committed(c, Run(c, s, actions[..i])), Committed(c, Run(c, s, actions[..j])))
  {
    if i == j {
    } else {
      RisesBetween(c, s, actions, i, j - 1);
      RunNext(c, s, actions, j - 1);
      RetreatsIff(c, Run(c, s, actions[..j - 1]), actions[j - 1]);
    }
  }

  /** Exactly when a run never moves the checkpoint backward: whatever raises and crashes, if and
      only if no scanner inserts it for a window that ends behind what FINAL then reads. */
  lemma NeverRetreatsIff(c: Setting, s: State, actions: seq<Action>)
    requires Usable(c.limits)
    ensures NeverRetreats(c, s, actions) <==> NeverInsertsBehind(c, s, actions)
  {
    if NeverInsertsBehind(c, s, actions) {
      forall i: nat, j: nat | i <= j <= |actions|
        ensures AtMost(Committed(c, Run(c, s, actions[..i])), Committed(c, Run(c, s, actions[..j])))
      {
        RisesBetween(c, s, actions, i, j);
      }
    } else {
      var i: nat :| i < |actions| && InsertsBehind(c, Run(c, s, actions[..i]), actions[i]);
      RunNext(c, s, actions, i);
      RetreatsIff(c, Run(c, s, actions[..i]), actions[i]);
      assert !AtMost(Committed(c, Run(c, s, actions[..i])), Committed(c, Run(c, s, actions[..i + 1])));
    }
  }

  // ---------------------------------------------------------------- in terms of who overtakes whom

  /** A scanner reaches the checkpoint stages only as an updater, and the second from the first. */
  predicate Reaches(c: Setting, s: State, before: Scanner, after: Scanner) {
    && (after.stage.ReadingCheckpoint? ==> before.update)
    && (after.stage.InsertingCheckpoint? ==>
          && before.stage.ReadingCheckpoint? && after.stage.seen == Committed(c, s)
          && !Behind(after.stage.win.hi, Committed(c, s)))
  }

  lemma {:induction false} TakeReaches(c: Setting, s: State, id: nat, win: Window, at: Recent.Seconds)
    requires id in s.scanners
    ensures id in TakeWork(c, s, id, win, at).scanners
    ensures Reaches(c, s, s.scanners[id], TakeWork(c, s, id, win, at).scanners[id])
  {
  }

  lemma {:induction false} TurnReaches(c: Setting, s: State, id: nat, at: Recent.Seconds)
    requires Usable(c.limits) && id in s.scanners
    ensures var t := Progress(c, s, id, at);
            id in t.scanners ==> Reaches(c, s, s.scanners[id], t.scanners[id])
  {
    match s.scanners[id].stage
    case Taking(win) => TakeReaches(c, s, id, win, at);
    case Asking =>
    case Recording(_) =>
    case ReadingCheckpoint(_) =>
    case _ =>
  }

  ghost predicate ReadsAt(s: State, a: Action, id: nat) {
    a.Turn? && a.id == id && id in s.scanners && s.scanners[id].stage.ReadingCheckpoint?
  }

  ghost predicate InsertsAt(s: State, a: Action, id: nat) {
    AtCheckpoint(s, a) && a.id == id
  }

  ghost predicate StandsAt(s: State, id: nat, sc: Scanner) {
    id in s.scanners && s.scanners[id] == sc
  }

  /** Scanner `id` reads the checkpoint at `i`, inserts it at `j`, and does nothing in between. */
  ghost predicate ReadsThenInserts(c: Setting, actions: seq<Action>, id: nat, i: nat, j: nat)
    requires Usable(c.limits)
  {
    && i < j < |actions|
    && ReadsAt(Run(c, INITIAL, actions[..i]), actions[i], id)
    && InsertsAt(Run(c, INITIAL, actions[..j]), actions[j], id)
    && forall k: nat | i < k <= j ::
         StandsAt(Run(c, INITIAL, actions[..k]), id, Run(c, INITIAL, actions[..j]).scanners[id])
  }

  /** Between scanner `id`'s read and its insert, another scanner inserts a block above the end
      of `id`'s window. */
  ghost predicate Overtaken(c: Setting, actions: seq<Action>, id: nat, i: nat, k: nat, j: nat)
    requires Usable(c.limits)
  {
    && ReadsThenInserts(c, actions, id, i, j) && i < k < j
    && AtCheckpoint(Run(c, INITIAL, actions[..k]), actions[k]) && actions[k].id != id
    && Run(c, INITIAL, actions[..j]).scanners[id].stage.win.hi
         < Run(c, INITIAL, actions[..k]).scanners[actions[k].id].stage.win.hi
  }

  lemma StoodOrRead(c: Setting, s: State, a: Action, id: nat)
    requires Usable(c.limits)
    requires var t := Next(c, s, a); id in t.scanners && t.scanners[id].stage.InsertingCheckpoint?
    ensures var sc := Next(c, s, a).scanners[id];
            StandsAt(s, id, sc) || (ReadsAt(s, a, id) && !Behind(sc.stage.win.hi, Committed(c, s)))
  {
    ScannerAfter(c, s, a, id);
    if id in s.scanners && a.Turn? && a.id == id {
      TurnReaches(c, s, id, a.at);
    }
  }

  /** Every insert of the checkpoint has its read before it, which was not ahead of the window. */
  lemma {:induction false} ReadBefore(c: Setting, actions: seq<Action>, id: nat, j: nat) returns (i: nat)
    requires Usable(c.limits) && j <= |actions|
    requires var t := Run(c, INITIAL, actions[..j]); id in t.scanners && t.scanners[id].stage.InsertingCheckpoint?
    ensures i < j
    ensures var s, t := Run(c, INITIAL, actions[..i]), Run(c, INITIAL, actions[..j]);
            && ReadsAt(s, actions[i], id)
            && !Behind(t.scanners[id].stage.win.hi, Committed(c, s))
            && forall k: nat | i < k <= j :: StandsAt(Run(c, INITIAL, actions[..k]), id, t.scanners[id])
  {
    if j == 0 {
      assert false;
    } else {
      var s, a := Run(c, INITIAL, actions[..j - 1]), actions[j - 1];
      RunNext(c, INITIAL, actions, j - 1);
      StoodOrRead(c, s, a, id);
      if StandsAt(s, id, Next(c, s, a).scanners[id]) {
        i := ReadBefore(c, actions, id, j - 1);
      } else {
        i := j - 1;
      }
    }
  }

  lemma RisesAt(c: Setting, s: State, a: Action, number: nat)
    requires Usable(c.limits) && !Behind(number, Committed(c, s)) && Behind(number, Committed(c, Next(c, s, a)))
    ensures AtCheckpoint(s, a) && number < s.scanners[a.id].stage.win.hi
  {
    ActionMovesCommitted(c, s, a);
  }

  /** If FINAL rises above a block during a run, some scanner inserts a checkpoint above it. */
  lemma {:induction false} RisesByInsert(c: Setting, actions: seq<Action>, number: nat, i: nat, j: nat) returns (k: nat)
    requires Usable(c.limits) && i <= j <= |actions|
    requires !Behind(number, Committed(c, Run(c, INITIAL, actions[..i])))
    requires Behind(number, Committed(c, Run(c, INITIAL, actions[..j])))
    ensures i <= k < j && AtCheckpoint(Run(c, INITIAL, actions[..k]), actions[k])
    ensures number < Run(c, INITIAL, actions[..k]).scanners[actions[k].id].stage.win.hi
  {
    if i == j {
      assert false;
    } else {
      var s := Run(c, INITIAL, actions[..j - 1]);
      RunNext(c, INITIAL, actions, j - 1);
      if Behind(number, Committed(c, s)) {
        k := RisesByInsert(c, actions, number, i, j - 1);
      } else {
        RisesAt(c, s, actions[j - 1], number);
        k := j - 1;
      }
    }
  }

  lemma OtherInserts(s: State, t: State, id: nat, a: Action, b: Action)
    requires AtCheckpoint(s, a) && InsertsAt(t, b, id) && StandsAt(s, id, t.scanners[id])
    requires t.scanners[id].stage.win.hi < s.scanners[a.id].stage.win.hi
    ensures a.id != id
  {
  }

  lemma {:induction false} InsertBehindIsOvertaken(c: Setting, actions: seq<Action>, j: nat) returns (i: nat, k: nat)
    requires Usable(c.limits) && j < |actions| && InsertsBehind(c, Run(c, INITIAL, actions[..j]), actions[j])
    ensures Overtaken(c, actions, actions[j].id, i, k, j)
  {
    var id := actions[j].id;
    var t := Run(c, INITIAL, actions[..j]);
    var hi := t.scanners[id].stage.win.hi;
    i := ReadBefore(c, actions, id, j);
    k := RisesByInsert(c, actions, hi, i, j);
    var s := Run(c, INITIAL, actions[..k]);
    if k == i {
      assert false;
    } else {
      OtherInserts(s, t, id, actions[k], actions[j]);
    }
  }

  lemma OvertakenRetreats(c: Setting, actions: seq<Action>, id: nat, i: nat, k: nat, j: nat)
    requires Usable(c.limits) && Overtaken(c, actions, id, i, k, j)
    ensures !NeverRetreats(c, INITIAL, actions)
  {
    var s, t := Run(c, INITIAL, actions[..k]), Run(c, INITIAL, actions[..j]);
    RunNext(c, INITIAL, actions, k);
    RunNext(c, INITIAL, actions, j);
    ActionMovesCommitted(c, s, actions[k]);
    ActionMovesCommitted(c, t, actions[j]);
    assert !AtMost(Committed(c, Run(c, INITIAL, actions[..k + 1])), Committed(c, Run(c, INITIAL, actions[..j + 1])));
  }

  /** In terms of the scanners: a run moves the checkpoint backward if and only if, between some
      scanner's read and its insert, another one inserts a block above the end of its window. */
  lemma RetreatsIffOvertaken(c: Setting, actions: seq<Action>)
    requires Usable(c.limits)
    ensures !NeverRetreats(c, INITIAL, actions) <==> exists id, i, k, j :: Overtaken(c, actions, id, i, k, j)
  {
    if !NeverRetreats(c, INITIAL, actions) {
      NeverRetreatsIff(c, INITIAL, actions);
      var j: nat :| j < |actions| && InsertsBehind(c, Run(c, INITIAL, actions[..j]), actions[j]);
      var i, k := InsertBehindIsOvertaken(c, actions, j);
    }
    if id, i, k, j :| Overtaken(c, actions, id, i, k, j) {
      OvertakenRetreats(c, actions, id, i, k, j);
    }
  }

  // ---------------------------------------------------------------- one updater at a time

  ghost predicate OneUpdater(s: State) {
    && (forall i, j | i in s.scanners && j in s.scanners && s.scanners[i].update && s.scanners[j].update :: i == j)
    && (forall id | id in s.scanners
                    && (s.scanners[id].stage.ReadingCheckpoint? || s.scanners[id].stage.InsertingCheckpoint?) ::
          s.scanners[id].update)
  }

  /** What a scanner has read of the checkpoint still holds, and it is not behind it. */
  ghost predicate SeenIsCurrent(c: Setting, s: State) {
    forall id | id in s.scanners && s.scanners[id].stage.InsertingCheckpoint? ::
      s.scanners[id].stage.seen == Committed(c, s) && !Behind(s.scanners[id].stage.win.hi, Committed(c, s))
  }

  /** A scan that moves the checkpoint begins only while no other does. */
  ghost predicate Alone(s: State, a: Action) {
    a.Begin? && a.update ==> forall id | id in s.scanners :: !s.scanners[id].update
  }

  lemma NextKeepsOneUpdater(c: Setting, s: State, a: Action)
    requires Usable(c.limits) && OneUpdater(s) && Alone(s, a)
    ensures OneUpdater(Next(c, s, a))
  {
    var t := Next(c, s, a);
    forall id | id in t.scanners
      ensures t.scanners[id].stage.ReadingCheckpoint? || t.scanners[id].stage.InsertingCheckpoint? ==>
                t.scanners[id].update
    {
      ScannerAfter(c, s, a, id);
      if a.Turn? && a.id == id && id in s.scanners { TurnReaches(c, s, id, a.at); }
    }
    forall i, j | i in t.scanners && j in t.scanners && t.scanners[i].update && t.scanners[j].update ensures i == j {
      ScannerAfter(c, s, a, i);
      ScannerAfter(c, s, a, j);
    }
  }

  lemma NextKeepsSeen(c: Setting, s: State, a: Action)
    requires Usable(c.limits) && OneUpdater(s) && SeenIsCurrent(c, s)
    ensures SeenIsCurrent(c, Next(c, s, a)) && !InsertsBehind(c, s, a)
  {
    var t := Next(c, s, a);
    ActionMovesCommitted(c, s, a);
    forall id | id in t.scanners && t.scanners[id].stage.InsertingCheckpoint?
      ensures t.scanners[id].stage.seen == Committed(c, t) && !Behind(t.scanners[id].stage.win.hi, Committed(c, t))
    {
      ScannerAfter(c, s, a, id);
      if a.Turn? && a.id == id && id in s.scanners { TurnReaches(c, s, id, a.at); }
    }
  }

  ghost predicate RunAlone(c: Setting, s: State, actions: seq<Action>)
    requires Usable(c.limits)
  {
    forall i: nat | i < |actions| :: Alone(Run(c, s, actions[..i]), actions[i])
  }

  lemma {:induction false} AloneKeeps(c: Setting, actions: seq<Action>, i: nat)
    requires Usable(c.limits) && RunAlone(c, INITIAL, actions) && i <= |actions|
    ensures var s := Run(c, INITIAL, actions[..i]); OneUpdater(s) && SeenIsCurrent(c, s)
  {
    if i == 0 {
    } else {
      AloneKeeps(c, actions, i - 1);
      RunNext(c, INITIAL, actions, i - 1);
      NextKeepsOneUpdater(c, Run(c, INITIAL, actions[..i - 1]), actions[i - 1]);
      NextKeepsSeen(c, Run(c, INITIAL, actions[..i - 1]), actions[i - 1]);
    }
  }

  /** One way to have that: at most one scanner at a time moves the checkpoint. */
  lemma CheckpointNeverRetreats(c: Setting, actions: seq<Action>)
    requires Usable(c.limits) && RunAlone(c, INITIAL, actions)
    ensures NeverRetreats(c, INITIAL, actions)
  {
    forall i: nat | i < |actions| ensures !InsertsBehind(c, Run(c, INITIAL, actions[..i]), actions[i]) {
      AloneKeeps(c, actions, i);
      NextKeepsSeen(c, Run(c, INITIAL, actions[..i]), actions[i]);
    }
    NeverRetreatsIff(c, INITIAL, actions);
  }

  // ---------------------------------------------------------------- two at a time

  /** Two scanners that both read the checkpoint before either inserts: the one that is behind
      inserts last, and the checkpoint moves backward. */
  lemma RaceMovesCheckpointBack(c: Setting, s: State, behind: nat, ahead: nat, at: Recent.Seconds)
    requires Usable(c.limits) && behind != ahead && behind in s.scanners && ahead in s.scanners
    requires s.scanners[behind].stage.InsertingCheckpoint? && s.scanners[ahead].stage.InsertingCheckpoint?
    requires s.scanners[behind].stage.win.hi < s.scanners[ahead].stage.win.hi
    ensures !NeverRetreats(c, s, [Turn(ahead, at), Turn(behind, at)])
  {
    var actions := [Turn(ahead, at), Turn(behind, at)];
    ActionMovesCommitted(c, s, Turn(ahead, at));
    RunOne(c, s, Turn(ahead, at));
    assert actions[..1] == [Turn(ahead, at)] && actions[1] == Turn(behind, at);
    assert InsertsBehind(c, Run(c, s, actions[..1]), actions[1]);
    NeverRetreatsIff(c, s, actions);
  }
}
