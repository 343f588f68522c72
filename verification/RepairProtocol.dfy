/** Repairs and finality rescans among other scanners.

    A scan that stores every header settles the heights it has passed: FINAL shows the fork's
    header there and the fork's version of every log of that block. Later writes of scanners on
    the same fork keep it so, whatever they are and whoever crashes. */
module RepairProtocol {
  import opened VersionedTable
  import opened Windows
  import opened ChainStore
  import opened CanonicalViews
  import opened ScanProtocol
  import Recent = RecentEnqueues

  // ---------------------------------------------------------------- histories of the protocol

  ghost predicate OnForks(c: Setting, s: State) {
    && (forall a | a in s.history :: WriteFits(c.w, a))
    && (forall id | id in s.scanners :: ForkFits(c.w, s.scanners[id].node))
  }

  /** Every insert is made by a scanner on its node, or has no node. */
  lemma InsertIsOnNode(c: Setting, s: State, a: Action)
    requires Usable(c.limits)
    ensures var t := Next(c, s, a);
            t.history != s.history && IsOnNode(t.history[|s.history|]) ==>
              a.Turn? && a.id in s.scanners && t.history[|s.history|].node == s.scanners[a.id].node
  {
    InsertOrNothing(c, s, a);
    if a.Turn? && a.id in s.scanners {
      match s.scanners[a.id].stage
      case Taking(_) =>
      case Asking =>
      case Recording(_) =>
      case _ =>
    }
  }

  predicate IsOnNode(a: Write) {
    a.Headers? || a.RawLogs? || a.Events?
  }

  lemma NodesAfter(c: Setting, s: State, a: Action, id: nat)
    requires Usable(c.limits) && id in Next(c, s, a).scanners
    ensures var t := Next(c, s, a);
            if id in s.scanners then t.scanners[id].node == s.scanners[id].node
            else a.Begin? && t.scanners[id].node == a.node
  {
    ScannerAfter(c, s, a, id);
    if a.Turn? && a.id == id && id in s.scanners {
      ProgressMovesOne(c, s, id, a.at);
    }
  }

  lemma NextKeepsOnForks(c: Setting, s: State, a: Action)
    requires Usable(c.limits) && OnForks(c, s) && (a.Begin? ==> ForkFits(c.w, a.node))
    ensures OnForks(c, Next(c, s, a))
  {
    var t := Next(c, s, a);
    InsertOrNothing(c, s, a);
    InsertIsOnNode(c, s, a);
    forall id | id in t.scanners ensures ForkFits(c.w, t.scanners[id].node) {
      NodesAfter(c, s, a, id);
    }
  }

  lemma {:induction false} RunKeepsOnForks(c: Setting, s: State, actions: seq<Action>)
    requires Usable(c.limits) && OnForks(c, s) && forall a | a in actions && a.Begin? :: ForkFits(c.w, a.node)
    ensures OnForks(c, Run(c, s, actions))
    decreases |actions|
  {
    if actions == [] {
    } else {
      NextKeepsOnForks(c, s, actions[0]);
      RunKeepsOnForks(c, Next(c, s, actions[0]), actions[1..]);
    }
  }

  // ---------------------------------------------------------------- settled heights

  ghost predicate SameChain(a: Node, b: Node) {
    a.fork == b.fork && a.removed == b.removed
  }

  ghost predicate FeedSettled(w: World, db: Db, node: Node, kind: Kind, n: nat) {
    forall id: LogId | w.block(id.hash).number == n && node.fork(n) == id.hash ::
      Current(w, node, EmitOf(w, kind), FeedOf(db, kind), id)
  }

  ghost predicate HeaderSettled(db: Db, node: Node, n: nat) {
    Final(db.blocks, n).Some? && Final(db.blocks, n).value.value == node.fork(n)
  }

  datatype Settling = Nothing | Header | HeaderAndLogs | Everything

  /** How much of the height the scan has settled. */
  ghost predicate Settled(w: World, db: Db, node: Node, n: nat, level: Settling) {
    && (!level.Nothing? ==> HeaderSettled(db, node, n))
    && (level.HeaderAndLogs? || level.Everything? ==> FeedSettled(w, db, node, Raw, n))
    && (level.Everything? ==> FeedSettled(w, db, node, Decoded, n))
  }

  /** Writes on the same fork unsettle nothing. */
  lemma WriteKeepsFeed(w: World, db: Db, a: Write, node: Node, kind: Kind, n: nat)
    requires WorldFits(w) && DbFits(w, db) && WriteFits(w, a) && (IsOnNode(a) ==> SameChain(a.node, node))
    requires FeedSettled(w, db, node, kind, n)
    ensures FeedSettled(w, Apply(w, db, a), node, kind, n)
  {
    if (a.RawLogs? && kind.Raw?) || (a.Events? && kind.Decoded?) {
      forall id: LogId | w.block(id.hash).number == n && node.fork(n) == id.hash
        ensures Current(w, node, EmitOf(w, kind), FeedOf(Apply(w, db, a), kind), id)
      {
        InsertMakesCurrent(w, a.node, EmitOf(w, kind), FeedOf(db, kind), db.clock, a.lo, a.next, id);
      }
    }
  }

  lemma WriteKeepsHeader(w: World, db: Db, a: Write, node: Node, n: nat)
    requires DbFits(w, db) && (IsOnNode(a) ==> SameChain(a.node, node)) && HeaderSettled(db, node, n)
    ensures HeaderSettled(Apply(w, db, a), node, n)
  {
    if a.Headers? {
      InsertSetsHeader(w, a.node, db.blocks, db.clock, a.lo, a.next, a.hi, a.allBlocks, n);
    }
  }

  lemma WriteKeepsSettled(w: World, db: Db, a: Write, node: Node, n: nat, level: Settling)
    requires WorldFits(w) && DbFits(w, db) && WriteFits(w, a) && (IsOnNode(a) ==> SameChain(a.node, node))
    requires Settled(w, db, node, n, level)
    ensures Settled(w, Apply(w, db, a), node, n, level)
  {
    if !level.Nothing? { WriteKeepsHeader(w, db, a, node, n); }
    if level.HeaderAndLogs? || level.Everything? { WriteKeepsFeed(w, db, a, node, Raw, n); }
    if level.Everything? { WriteKeepsFeed(w, db, a, node, Decoded, n); }
  }

  /** The next insert of a scan that stores every header settles more of its window. */
  lemma HeadersSettle(w: World, db: Db, a: Write, n: nat)
    requires DbFits(w, db) && a.Headers? && a.allBlocks && a.lo <= n < a.next
    ensures Settled(w, Apply(w, db, a), a.node, n, Header)
  {
    InsertSetsHeader(w, a.node, db.blocks, db.clock, a.lo, a.next, a.hi, true, n);
  }

  lemma FeedSettles(w: World, db: Db, a: Write, kind: Kind, n: nat)
    requires WorldFits(w) && DbFits(w, db) && WriteFits(w, a)
    requires (a.RawLogs? && kind.Raw?) || (a.Events? && kind.Decoded?)
    requires a.lo <= n < a.next
    ensures FeedSettled(w, Apply(w, db, a), a.node, kind, n)
  {
    forall id: LogId | w.block(id.hash).number == n && a.node.fork(n) == id.hash
      ensures Current(w, a.node, EmitOf(w, kind), FeedOf(Apply(w, db, a), kind), id)
    {
      InsertMakesCurrent(w, a.node, EmitOf(w, kind), FeedOf(db, kind), db.clock, a.lo, a.next, id);
    }
  }

  lemma LogsSettle(w: World, db: Db, a: Write, n: nat)
    requires WorldFits(w) && DbFits(w, db) && WriteFits(w, a) && a.RawLogs? && a.lo <= n < a.next
    requires Settled(w, db, a.node, n, Header)
    ensures Settled(w, Apply(w, db, a), a.node, n, HeaderAndLogs)
  {
    WriteKeepsHeader(w, db, a, a.node, n);
    FeedSettles(w, db, a, Raw, n);
  }

  lemma EventsSettle(w: World, db: Db, a: Write, n: nat)
    requires WorldFits(w) && DbFits(w, db) && WriteFits(w, a) && a.Events? && a.lo <= n < a.next
    requires Settled(w, db, a.node, n, HeaderAndLogs)
    ensures Settled(w, Apply(w, db, a), a.node, n, Everything)
  {
    WriteKeepsSettled(w, db, a, a.node, n, HeaderAndLogs);
    FeedSettles(w, db, a, Decoded, n);
  }

  /** A settled height is shown exactly as the fork has it. */
  lemma SettledIsExact(w: World, db: Db, node: Node, kind: Kind, e: Entry)
    requires WorldFits(w) && ForkFits(w, node) && DbFits(w, db) && Settled(w, db, node, e.block, Everything)
    ensures e in JoinRows(db.blocks, FeedOf(db, kind)) <==> OnChain(w, node, EmitOf(w, kind), e)
  {
    var feed := FeedOf(db, kind);
    JoinShows(db.blocks, feed, e);
    if e.id.hash == node.fork(e.block) {
      assert w.block(e.id.hash).number == e.block;
      assert Current(w, node, EmitOf(w, kind), feed, e.id);
      if Final(feed, e.id).Some? {
        assert Truthful(w, EmitOf(w, kind), Final(feed, e.id).value);
      }
    }
  }

  // ---------------------------------------------------------------- one scanner among others

  function LevelOf(stage: Stage): Settling {
    match stage
    case Asking => Nothing
    case StoringHeaders(_) => Nothing
    case StoringLogs(_) => Header
    case StoringEvents(_) => HeaderAndLogs
    case _ => Everything
  }

  ghost predicate SettledBetween(c: Setting, history: seq<Write>, node: Node, from: nat, next: nat, level: Settling) {
    forall n: nat | from <= n < next :: Settled(c.w, DbOf(c, history), node, n, level)
  }

  /** The scanner stores every header and has settled what it has passed, and of its current
      window as much as its stage says. */
  ghost predicate Settles(c: Setting, history: seq<Write>, sc: Scanner, node: Node, start: nat) {
    && sc.node == node && sc.allBlocks && WindowFits(sc)
    && SettledBetween(c, history, node, start, sc.cursor, Everything)
    && (!sc.stage.Asking? ==> SettledBetween(c, history, node, sc.stage.win.lo, sc.stage.win.hi + 1, LevelOf(sc.stage)))
  }

  /** Everyone who writes is on the node's fork. */
  ghost predicate Quiet(c: Setting, s: State, node: Node) {
    && WorldFits(c.w) && ForkFits(c.w, node) && OnForks(c, s)
    && forall id | id in s.scanners :: SameChain(s.scanners[id].node, node)
  }

  lemma HistoryFits(c: Setting, s: State)
    requires OnForks(c, s)
    ensures DbFits(c.w, DbOf(c, s.history))
  {
    ReplayKeepsDbFits(c.w, EMPTY, s.history);
  }

  lemma InsertKeepsSettled(c: Setting, s: State, a: Write, node: Node, from: nat, next: nat, level: Settling)
    requires WorldFits(c.w) && OnForks(c, s) && WriteFits(c.w, a) && (IsOnNode(a) ==> SameChain(a.node, node))
    requires SettledBetween(c, s.history, node, from, next, level)
    ensures SettledBetween(c, s.history + [a], node, from, next, level)
  {
    HistoryFits(c, s);
    ReplayPush(c.w, EMPTY, s.history, a);
    forall n: nat | from <= n < next ensures Settled(c.w, DbOf(c, s.history + [a]), node, n, level) {
      WriteKeepsSettled(c.w, DbOf(c, s.history), a, node, n, level);
    }
  }

  lemma NextKeepsQuiet(c: Setting, s: State, a: Action, node: Node)
    requires Usable(c.limits) && Quiet(c, s, node) && (a.Begin? ==> SameChain(a.node, node))
    ensures Quiet(c, Next(c, s, a), node)
  {
    NextKeepsOnForks(c, s, a);
    var t := Next(c, s, a);
    forall id | id in t.scanners ensures SameChain(t.scanners[id].node, node) {
      NodesAfter(c, s, a, id);
    }
  }

  /** Settled heights stay settled, whoever acts. */
  lemma NextKeepsSettled(c: Setting, s: State, a: Action, node: Node, from: nat, next: nat, level: Settling)
    requires Usable(c.limits) && Quiet(c, s, node) && (a.Begin? ==> SameChain(a.node, node))
    requires SettledBetween(c, s.history, node, from, next, level)
    ensures SettledBetween(c, Next(c, s, a).history, node, from, next, level)
  {
    var t := Next(c, s, a);
    InsertOrNothing(c, s, a);
    InsertIsOnNode(c, s, a);
    NextKeepsOnForks(c, s, a);
    if t.history != s.history {
      assert t.history[|s.history|] in t.history;
      InsertKeepsSettled(c, s, t.history[|s.history|], node, from, next, level);
    }
  }

  predicate Stores(stage: Stage) {
    stage.StoringHeaders? || stage.StoringLogs? || stage.StoringEvents?
  }

  function StoreOf(sc: Scanner): Write
    requires Stores(sc.stage)
  {
    var win := sc.stage.win;
    if sc.stage.StoringHeaders? then Headers(sc.node, win.lo, win.hi + 1, win.hi, sc.allBlocks)
    else if sc.stage.StoringLogs? then RawLogs(sc.node, win.lo, win.hi + 1)
    else Events(sc.node, win.lo, win.hi + 1)
  }

  function AfterStore(stage: Stage): Stage
    requires Stores(stage)
  {
    if stage.StoringHeaders? then StoringLogs(stage.win)
    else if stage.StoringLogs? then StoringEvents(stage.win)
    else Taking(stage.win)
  }

  lemma StoreSettles(w: World, db: Db, sc: Scanner, n: nat)
    requires WorldFits(w) && DbFits(w, db) && ForkFits(w, sc.node) && sc.allBlocks && Stores(sc.stage)
    requires sc.stage.win.lo <= n <= sc.stage.win.hi && Settled(w, db, sc.node, n, LevelOf(sc.stage))
    ensures Settled(w, Apply(w, db, StoreOf(sc)), sc.node, n, LevelOf(AfterStore(sc.stage)))
  {
    match sc.stage
    case StoringHeaders(_) => HeadersSettle(w, db, StoreOf(sc), n);
    case StoringLogs(_) => LogsSettle(w, db, StoreOf(sc), n);
    case StoringEvents(_) => EventsSettle(w, db, StoreOf(sc), n);
  }

  lemma StoreSettlesWindow(c: Setting, s: State, sc: Scanner)
    requires WorldFits(c.w) && ForkFits(c.w, sc.node) && OnForks(c, s) && sc.allBlocks
    requires Stores(sc.stage)
    requires SettledBetween(c, s.history, sc.node, sc.stage.win.lo, sc.stage.win.hi + 1, LevelOf(sc.stage))
    ensures SettledBetween(c, s.history + [StoreOf(sc)], sc.node, sc.stage.win.lo, sc.stage.win.hi + 1,
                           LevelOf(AfterStore(sc.stage)))
  {
    var a, win, db := StoreOf(sc), sc.stage.win, DbOf(c, s.history);
    HistoryFits(c, s);
    ReplayPush(c.w, EMPTY, s.history, a);
    forall n: nat | win.lo <= n < win.hi + 1
      ensures Settled(c.w, Apply(c.w, db, a), sc.node, n, LevelOf(AfterStore(sc.stage)))
    {
      assert Settled(c.w, db, sc.node, n, LevelOf(sc.stage));
      StoreSettles(c.w, db, sc, n);
    }
  }

  /** The scanner's own store turn. */
  lemma StoreTurnSettles(c: Setting, s: State, id: nat, at: Recent.Seconds, node: Node, start: nat)
    requires Usable(c.limits) && Quiet(c, s, node) && id in s.scanners
    requires Settles(c, s.history, s.scanners[id], node, start)
    requires Stores(s.scanners[id].stage)
    ensures Settles(c, Progress(c, s, id, at).history, Progress(c, s, id, at).scanners[id], node, start)
  {
    var sc := s.scanners[id];
    assert Progress(c, s, id, at) == Insert(s, id, StoreOf(sc), AfterStore(sc.stage));
    StoreSettlesWindow(c, s, sc);
    InsertKeepsSettled(c, s, StoreOf(sc), node, start, sc.cursor, Everything);
  }

  /** What a turn other than a store does to the scanner: it asks for the next window, or goes on
      with or past the one it has stored. */
  lemma OtherTurnMoves(c: Setting, s: State, id: nat, at: Recent.Seconds)
    requires Usable(c.limits) && id in s.scanners && WindowFits(s.scanners[id]) && !Stores(s.scanners[id].stage)
    ensures var sc, t := s.scanners[id], Progress(c, s, id, at);
            id in t.scanners ==>
              && WindowFits(t.scanners[id])
              && (if t.scanners[id].stage.Asking? then
                    t.scanners[id].cursor == if sc.stage.Asking? then sc.cursor else sc.stage.win.hi + 1
                  else
                    t.scanners[id].cursor == sc.cursor
                    && (t.scanners[id].stage.StoringHeaders? ||
                        (!sc.stage.Asking? && t.scanners[id].stage.win == sc.stage.win)))
  {
    match s.scanners[id].stage
    case Taking(win) =>
    case Asking =>
    case Recording(win) =>
    case _ =>
  }

  lemma SettledJoin(c: Setting, history: seq<Write>, node: Node, from: nat, mid: nat, next: nat, level: Settling)
    requires SettledBetween(c, history, node, from, mid, level) && SettledBetween(c, history, node, mid, next, level)
    ensures SettledBetween(c, history, node, from, next, level)
  {
  }

  lemma {:induction false} NothingToSettle(c: Setting, history: seq<Write>, node: Node, from: nat, next: nat)
    ensures SettledBetween(c, history, node, from, next, Nothing)
  {
  }

  lemma OtherTurnSettles(c: Setting, s: State, id: nat, at: Recent.Seconds, node: Node, start: nat)
    requires Usable(c.limits) && Quiet(c, s, node) && id in s.scanners
    requires Settles(c, s.history, s.scanners[id], node, start)
    requires !Stores(s.scanners[id].stage)
    ensures var t := Progress(c, s, id, at); id in t.scanners ==> Settles(c, t.history, t.scanners[id], node, start)
  {
    var sc, t := s.scanners[id], Progress(c, s, id, at);
    NextKeepsSettled(c, s, Turn(id, at), node, start, sc.cursor, Everything);
    OtherTurnMoves(c, s, id, at);
    ProgressMovesOne(c, s, id, at);
    if sc.stage.Asking? {
      if id in t.scanners && t.scanners[id].stage.StoringHeaders? {
        NothingToSettle(c, t.history, node, t.scanners[id].stage.win.lo, t.scanners[id].stage.win.hi + 1);
      }
    } else {
      var win := sc.stage.win;
      NextKeepsSettled(c, s, Turn(id, at), node, win.lo, win.hi + 1, Everything);
      SettledJoin(c, t.history, node, start, sc.cursor, win.hi + 1, Everything);
      if id in t.scanners && t.scanners[id].stage.StoringHeaders? {
        NothingToSettle(c, t.history, node, t.scanners[id].stage.win.lo, t.scanners[id].stage.win.hi + 1);
      }
    }
  }

  lemma NextKeepsSettles(c: Setting, s: State, a: Action, id: nat, node: Node, start: nat)
    requires Usable(c.limits) && Quiet(c, s, node) && (a.Begin? ==> SameChain(a.node, node))
    requires id in s.scanners && Settles(c, s.history, s.scanners[id], node, start)
    ensures var t := Next(c, s, a); id in t.scanners ==> Settles(c, t.history, t.scanners[id], node, start)
  {
    ScannerAfter(c, s, a, id);
    var sc := s.scanners[id];
    if a.Turn? && a.id == id {
      if Stores(sc.stage) {
        StoreTurnSettles(c, s, id, a.at, node, start);
      } else {
        OtherTurnSettles(c, s, id, a.at, node, start);
      }
    } else {
      NextKeepsSettled(c, s, a, node, start, sc.cursor, Everything);
      if !sc.stage.Asking? {
        NextKeepsSettled(c, s, a, node, sc.stage.win.lo, sc.stage.win.hi + 1, LevelOf(sc.stage));
      }
    }
  }

  // ---------------------------------------------------------------- runs

  /** Nobody begins on another fork, and nobody takes over the scanner's place. */
  ghost predicate KeepsQuiet(actions: seq<Action>, id: nat, node: Node) {
    forall a | a in actions && a.Begin? :: SameChain(a.node, node) && a.id != id
  }

  lemma {:induction false} RunKeepsSettles(c: Setting, s: State, actions: seq<Action>, id: nat, node: Node, start: nat)
    requires Usable(c.limits) && Quiet(c, s, node) && KeepsQuiet(actions, id, node)
    requires id in s.scanners ==> Settles(c, s.history, s.scanners[id], node, start)
    ensures var t := Run(c, s, actions);
            Quiet(c, t, node) && (id in t.scanners ==> Settles(c, t.history, t.scanners[id], node, start))
    decreases |actions|
  {
    if actions == [] {
    } else {
      var a, rest := actions[0], actions[1..];
      assert a in actions && forall b | b in rest :: b in actions;
      NextKeepsQuiet(c, s, a, node);
      ScannerAfter(c, s, a, id);
      if id in s.scanners { NextKeepsSettles(c, s, a, id, node, start); }
      RunKeepsSettles(c, Next(c, s, a), rest, id, node, start);
    }
  }

  lemma {:induction false} RunKeepsSettled(c: Setting, s: State, actions: seq<Action>, id: nat, node: Node, from: nat,
                                           next: nat)
    requires Usable(c.limits) && Quiet(c, s, node) && KeepsQuiet(actions, id, node)
    requires SettledBetween(c, s.history, node, from, next, Everything)
    ensures Quiet(c, Run(c, s, actions), node)
    ensures SettledBetween(c, Run(c, s, actions).history, node, from, next, Everything)
    decreases |actions|
  {
    if actions == [] {
    } else {
      var a, rest := actions[0], actions[1..];
      assert a in actions && forall b | b in rest :: b in actions;
      NextKeepsQuiet(c, s, a, node);
      NextKeepsSettled(c, s, a, node, from, next, Everything);
      RunKeepsSettled(c, Next(c, s, a), rest, id, node, from, next);
    }
  }

  /** Once all who write are on the fork of `a`'s node, `a` begins; `during` other actions it
      gets past block `n`. */
  ghost predicate Passes(c: Setting, before: seq<Action>, a: Action, during: seq<Action>, later: seq<Action>, n: nat)
    requires Usable(c.limits)
  {
    && a.Begin? && a.allBlocks && WorldFits(c.w) && ForkFits(c.w, a.node)
    && (forall b | b in before && b.Begin? :: ForkFits(c.w, b.node))
    && var s := Run(c, INITIAL, before);
       && a.id !in s.scanners && (forall id | id in s.scanners :: SameChain(s.scanners[id].node, a.node))
       && KeepsQuiet(during, a.id, a.node) && KeepsQuiet(later, a.id, a.node)
       && var t := Run(c, Next(c, s, a), during);
          a.id in t.scanners && StartOf(c, s, a.from) <= n < t.scanners[a.id].cursor
  }

  function AfterAll(c: Setting, before: seq<Action>, a: Action, during: seq<Action>, later: seq<Action>): State
    requires Usable(c.limits)
  {
    Run(c, Run(c, Next(c, Run(c, INITIAL, before), a), during), later)
  }

  /** Reorg exactness among other scanners. Whatever any run on any forks has left behind: once
      all who write are on the node's fork, a scan that begins there and stores every header
      makes both views show each height it has passed exactly as the fork has it, up to the
      checkpoint; and they keep showing it so while `later` actions go on, whether the scan
      itself ends, raises or crashes. */
  lemma RescanAmongOthersIsExact(c: Setting, before: seq<Action>, a: Action, during: seq<Action>, later: seq<Action>,
                                 kind: Kind, e: Entry)
    requires Usable(c.limits) && Passes(c, before, a, during, later, e.block)
    ensures var u := AfterAll(c, before, a, during, later);
            var db := DbOf(c, u.history);
            e in View(db, FeedOf(db, kind)) <==>
              Committed(c, u).Some? && e.block <= Committed(c, u).value && OnChain(c.w, a.node, EmitOf(c.w, kind), e)
  {
    var s := Run(c, INITIAL, before);
    RunKeepsOnForks(c, INITIAL, before);
    NextKeepsQuiet(c, s, a, a.node);
    var begun := Next(c, s, a);
    var start := StartOf(c, s, a.from);
    RunKeepsSettles(c, begun, during, a.id, a.node, start);
    var t := Run(c, begun, during);
    RunKeepsSettled(c, t, later, a.id, a.node, start, t.scanners[a.id].cursor);
    var u := Run(c, t, later);
    HistoryFits(c, u);
    SettledIsExact(c.w, DbOf(c, u.history), a.node, kind, e);
    ViewIsBounded(DbOf(c, u.history), FeedOf(DbOf(c, u.history), kind), e);
  }

  /** In particular a repair of `from..to` that has stored its last window. */
  lemma RepairAfterAnyRunIsExact(c: Setting, before: seq<Action>, id: nat, process: nat, node: Node, from: nat, to: nat,
                                                    during: seq<Action>, later: seq<Action>, kind: Kind, e: Entry)
    requires Usable(c.limits) && from <= e.block <= to && e.block <= node.safeHead
    requires var a := Begin(id, process, node, Some(from), Some(to), false, true);
             Passes(c, before, a, during, later, EndOf(node, Some(to)))
    ensures var u := AfterAll(c, before, Begin(id, process, node, Some(from), Some(to), false, true), during, later);
            var db := DbOf(c, u.history);
            e in View(db, FeedOf(db, kind)) <==>
              Committed(c, u).Some? && e.block <= Committed(c, u).value && OnChain(c.w, node, EmitOf(c.w, kind), e)
  {
    RescanAmongOthersIsExact(c, before, Begin(id, process, node, Some(from), Some(to), false, true), during, later,
                             kind, e);
  }

  /** And a finality rescan: it settles exactly the last `finality` blocks up to the safe head. */
  lemma FinalityRescanAfterAnyRunIsExact(c: Setting, before: seq<Action>, id: nat, process: nat, node: Node,
                                         finality: nat, during: seq<Action>, later: seq<Action>, kind: Kind,
                                         e: Entry)
    requires Usable(c.limits) && e.block <= node.safeHead < e.block + finality
    requires var a := Begin(id, process, node, Some(FinalityStart(node, finality)), Some(node.safeHead), false, true);
             Passes(c, before, a, during, later, node.safeHead)
    ensures var a := Begin(id, process, node, Some(FinalityStart(node, finality)), Some(node.safeHead), false, true);
            var u := AfterAll(c, before, a, during, later);
            var db := DbOf(c, u.history);
            e in View(db, FeedOf(db, kind)) <==>
              Committed(c, u).Some? && e.block <= Committed(c, u).value && OnChain(c.w, node, EmitOf(c.w, kind), e)
  {
    var a := Begin(id, process, node, Some(FinalityStart(node, finality)), Some(node.safeHead), false, true);
    RescanAmongOthersIsExact(c, before, a, during, later, kind, e);
  }
}
