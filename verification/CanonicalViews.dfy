/** The canonical views against the chain they should show.

    A view row is a FINAL row of a feed that is not marked removed, whose block hash is the
    FINAL header of its height, and whose height is at most the FINAL checkpoint. Stores keep
    rows of abandoned forks; the question is when the views nevertheless show one fork only. */
module CanonicalViews {
  import opened VersionedTable
  import opened Windows
  import opened ChainStore
  import WorkLedger

  datatype Entry = Entry(block: nat, id: LogId, payload: string)

  /** The reorg join, before the checkpoint bound. */
  predicate Joined(blocks: Table<nat, Hash>, feed: Feed, row: Row<LogId, Stored>) {
    && Final(feed, row.key) == Some(row) && !row.value.removed
    && var header := Final(blocks, row.value.block);
       header.Some? && header.value.value == row.key.hash
  }

  function EntryOf(row: Row<LogId, Stored>): Entry {
    Entry(row.value.block, row.key, row.value.payload)
  }

  function JoinRows(blocks: Table<nat, Hash>, feed: Feed): set<Entry> {
    set row | row in feed && Joined(blocks, feed, row) :: EntryOf(row)
  }

  /** A canonical view; `feed` is the store's raw logs or its decoded events. */
  function View(db: Db, feed: Feed): set<Entry> {
    var cp := CheckpointOf(db);
    set e | e in JoinRows(db.blocks, feed) && cp.Some? && e.block <= cp.value
  }

  // ---------------------------------------------------------------- what the chain holds

  /** Log `i` of the block `id.hash` is the one `id` names. */
  predicate IsLog(w: World, id: LogId, i: int) {
    var logs := w.block(id.hash).logs;
    0 <= i < |logs| && logs[i].tx == id.tx && logs[i].index == id.index
  }

  /** The node's fork holds this log, does not mark it removed, and `emit` keeps it. */
  ghost predicate OnChain(w: World, node: Node, emit: Emit, e: Entry) {
    && node.fork(e.block) == e.id.hash
    && exists i ::
         && IsLog(w, e.id, i)
         && emit(e.id.hash, w.block(e.id.hash).logs[i]) == Some(e.payload)
         && !node.removed(e.id.hash, w.block(e.id.hash).logs[i])
  }

  // ---------------------------------------------------------------- every write any scan makes

  /** One insert of a scan. Scans may crash between inserts and interleave with others, on
      other forks: any sequence of these. */
  datatype Write =
    | Headers(node: Node, lo: nat, next: nat, hi: nat, allBlocks: bool)
    | RawLogs(node: Node, lo: nat, next: nat)
    | Events(node: Node, lo: nat, next: nat)
    | Work(ids: seq<WorkLedger.WorkId>)
    | Mark(number: nat)
    | Ranged(window: Window, rows: nat)

  function Apply(w: World, db: Db, a: Write): Db {
    match a
    case Headers(node, lo, next, hi, all) => WithBlocks(db, HeaderRows(w, node, lo, next, hi, all, db.clock))
    case RawLogs(node, lo, next) => WithLogs(db, ToRows(GetLogs(w, node, lo, next), RawLog, db.clock))
    case Events(node, lo, next) => WithEvents(db, ToRows(GetLogs(w, node, lo, next), w.decode, db.clock))
    case Work(ids) => WithWork(db, ids)
    case Mark(number) => WithCheckpointRow(db, number)
    case Ranged(window, rows) => WithRange(db, window, rows)
  }

  function Replay(w: World, db: Db, writes: seq<Write>): Db {
    if writes == [] then db
    else Apply(w, Replay(w, db, writes[..|writes| - 1]), writes[|writes| - 1])
  }

  ghost predicate WriteFits(w: World, a: Write) {
    a.Headers? || a.RawLogs? || a.Events? ==> ForkFits(w, a.node)
  }

  /** A feed row tells the truth about the block its hash names, whichever fork that is on. */
  ghost predicate Truthful(w: World, emit: Emit, row: Row<LogId, Stored>) {
    && w.block(row.key.hash).number == row.value.block
    && exists i :: IsLog(w, row.key, i) && emit(row.key.hash, w.block(row.key.hash).logs[i]) == Some(row.value.payload)
  }

  ghost predicate FeedFits(w: World, emit: Emit, feed: Feed, clock: nat) {
    forall row | row in feed :: row.version < clock && Truthful(w, emit, row)
  }

  ghost predicate DbFits(w: World, db: Db) {
    && Older(db.blocks, db.clock) && Older(db.checkpoints, db.clock)
    && FeedFits(w, RawLog, db.logs, db.clock)
    && FeedFits(w, w.decode, db.events, db.clock)
  }

  predicate RowOf(emit: Emit, version: nat, l: RpcLog, row: Row<LogId, Stored>) {
    var p := emit(l.hash, l.log);
    p.Some? && row == Row(IdOf(l), version, Stored(l.number, p.value, l.removed))
  }

  lemma {:induction false} RowsAre(logs: seq<RpcLog>, emit: Emit, version: nat, row: Row<LogId, Stored>)
    ensures row in ToRows(logs, emit, version) <==> exists l :: l in logs && RowOf(emit, version, l, row)
  {
    if logs == [] {
    } else {
      var n := |logs| - 1;
      RowsAre(logs[..n], emit, version, row);
      assert forall l :: l in logs <==> l in logs[..n] || l == logs[n] by {
        assert logs == logs[..n] + [logs[n]];
      }
      assert row in ToRows(logs, emit, version) <==>
          row in ToRows(logs[..n], emit, version) || RowOf(emit, version, logs[n], row);
    }
  }

  lemma NewRowsFit(w: World, node: Node, emit: Emit, lo: nat, next: nat, version: nat)
    requires ForkFits(w, node)
    ensures FeedFits(w, emit, ToRows(GetLogs(w, node, lo, next), emit, version), version + 1)
  {
    var logs := GetLogs(w, node, lo, next);
    forall row | row in ToRows(logs, emit, version) ensures row.version < version + 1 && Truthful(w, emit, row) {
      RowsAre(logs, emit, version, row);
      var l :| l in logs && RowOf(emit, version, l, row);
      LogsAre(w, node, lo, next, l);
      var i :| 0 <= i < |w.block(l.hash).logs| && w.block(l.hash).logs[i] == l.log;
      assert IsLog(w, row.key, i);
    }
  }

  lemma {:induction false} HeadersAre(w: World, node: Node, lo: nat, next: nat, hi: nat, all: bool, version: nat,
                                      row: Row<nat, Hash>)
    ensures row in HeaderRows(w, node, lo, next, hi, all, version) <==>
              && lo <= row.key < next && HeaderWanted(w, node, row.key, hi, all)
              && row == Row(row.key, version, node.fork(row.key))
  {
    if next <= lo {
    } else {
      HeadersAre(w, node, lo, next - 1, hi, all, version, row);
    }
  }

  lemma WriteKeepsDbFits(w: World, db: Db, a: Write)
    requires DbFits(w, db) && WriteFits(w, a)
    ensures DbFits(w, Apply(w, db, a))
  {
    match a
    case Headers(node, lo, next, hi, all) =>
      forall row | row in HeaderRows(w, node, lo, next, hi, all, db.clock) ensures row.version < db.clock + 1 {
        HeadersAre(w, node, lo, next, hi, all, db.clock, row);
      }
    case RawLogs(node, lo, next) => NewRowsFit(w, node, RawLog, lo, next, db.clock);
    case Events(node, lo, next) => NewRowsFit(w, node, w.decode, lo, next, db.clock);
    case Work(_) =>
    case Mark(_) =>
    case Ranged(_, _) =>
  }

  /** Whatever scans have written, on whatever forks, stopping anywhere. */
  lemma {:induction false} ReplayKeepsDbFits(w: World, db: Db, writes: seq<Write>)
    requires DbFits(w, db) && forall a | a in writes :: WriteFits(w, a)
    ensures DbFits(w, Replay(w, db, writes))
  {
    if writes == [] {
    } else {
      var n := |writes| - 1;
      ReplayKeepsDbFits(w, db, writes[..n]);
      WriteKeepsDbFits(w, Replay(w, db, writes[..n]), writes[n]);
    }
  }

  // ---------------------------------------------------------------- what one insert settles

  /** FINAL shows the node's version of the log `id` names, if `emit` keeps it. */
  ghost predicate Current(w: World, node: Node, emit: Emit, feed: Feed, id: LogId) {
    forall i | IsLog(w, id, i) ::
      var log := w.block(id.hash).logs[i];
      emit(id.hash, log).Some? ==>
        && Final(feed, id).Some?
        && Final(feed, id).value.value == Stored(w.block(id.hash).number, emit(id.hash, log).value,
                                                 node.removed(id.hash, log))
  }

  predicate OnFork(w: World, node: Node, id: LogId, lo: nat, next: nat) {
    var n := w.block(id.hash).number;
    lo <= n < next && node.fork(n) == id.hash
  }

  lemma NewerVersionWins<K(!new), V(!new)>(t: Table<K, V>, rows: Table<K, V>, clock: nat, k: K)
    requires Older(t, clock) && forall row | row in rows :: row.version == clock
    ensures Final(t + rows, k) == if Final(rows, k).Some? then Final(rows, k) else Final(t, k)
  {
    FinalOfAppend(t, rows, k);
  }

  /** The rows of one window hold exactly the fork's logs there, one row per log. */
  lemma WindowRows(w: World, node: Node, emit: Emit, lo: nat, next: nat, version: nat, id: LogId)
    requires WorldFits(w) && ForkFits(w, node)
    ensures var rows := ToRows(GetLogs(w, node, lo, next), emit, version);
            && (Final(rows, id).Some? ==> OnFork(w, node, id, lo, next) && Final(rows, id).value.version == version)
            && (OnFork(w, node, id, lo, next) ==> Current(w, node, emit, rows, id))
  {
    var logs := GetLogs(w, node, lo, next);
    var rows := ToRows(logs, emit, version);
    var top := Final(rows, id);
    if top.Some? {
      RowsAre(logs, emit, version, top.value);
      var l :| l in logs && RowOf(emit, version, l, top.value);
      LogsAre(w, node, lo, next, l);
    }
    if OnFork(w, node, id, lo, next) {
      forall i | IsLog(w, id, i) && emit(id.hash, w.block(id.hash).logs[i]).Some?
        ensures top.Some?
        ensures top.value.value == Stored(w.block(id.hash).number, emit(id.hash, w.block(id.hash).logs[i]).value,
                                                       node.removed(id.hash, w.block(id.hash).logs[i]))
      {
        LogHasARow(w, node, emit, lo, next, version, id, i);
        FinalIsNone(rows, id);
        RowIsTheLog(w, node, emit, lo, next, version, id, i, top.value);
      }
    }
  }

  lemma LogHasARow(w: World, node: Node, emit: Emit, lo: nat, next: nat, version: nat, id: LogId, i: int)
    requires OnFork(w, node, id, lo, next) && IsLog(w, id, i) && emit(id.hash, w.block(id.hash).logs[i]).Some?
    ensures exists j :: 0 <= j < |ToRows(GetLogs(w, node, lo, next), emit, version)|
                     && ToRows(GetLogs(w, node, lo, next), emit, version)[j].key == id
  {
    var log := w.block(id.hash).logs[i];
    var l := RpcLog(w.block(id.hash).number, id.hash, log, node.removed(id.hash, log));
    LogsAre(w, node, lo, next, l);
    var row := Row(id, version, Stored(l.number, emit(l.hash, l.log).value, l.removed));
    assert RowOf(emit, version, l, row);
    RowsAre(GetLogs(w, node, lo, next), emit, version, row);
  }

  lemma RowIsTheLog(w: World, node: Node, emit: Emit, lo: nat, next: nat, version: nat, id: LogId, i: int,
                    row: Row<LogId, Stored>)
    requires WorldFits(w) && ForkFits(w, node)
    requires IsLog(w, id, i) && row in ToRows(GetLogs(w, node, lo, next), emit, version) && row.key == id
    ensures var log := w.block(id.hash).logs[i];
            && emit(id.hash, log).Some?
            && row.value == Stored(w.block(id.hash).number, emit(id.hash, log).value, node.removed(id.hash, log))
  {
    var logs := GetLogs(w, node, lo, next);
    RowsAre(logs, emit, version, row);
    var l :| l in logs && RowOf(emit, version, l, row);
    LogsAre(w, node, lo, next, l);
    var j :| 0 <= j < |w.block(l.hash).logs| && w.block(l.hash).logs[j] == l.log;
    assert i == j;
  }

  /** Inserting a window's rows makes its own logs current and leaves every other log alone. */
  lemma InsertMakesCurrent(w: World, node: Node, emit: Emit, feed: Feed, clock: nat, lo: nat, next: nat, id: LogId)
    requires WorldFits(w) && ForkFits(w, node) && Older(feed, clock)
    ensures var after := feed + ToRows(GetLogs(w, node, lo, next), emit, clock);
            if OnFork(w, node, id, lo, next) then
              Current(w, node, emit, after, id)
            else Final(after, id) == Final(feed, id)
  {
    var rows := ToRows(GetLogs(w, node, lo, next), emit, clock);
    WindowRows(w, node, emit, lo, next, clock, id);
    forall row | row in rows ensures row.version == clock {
      RowsAre(GetLogs(w, node, lo, next), emit, clock, row);
    }
    NewerVersionWins(feed, rows, clock, id);
  }

  // ---------------------------------------------------------------- a whole scan

  datatype Kind = Raw | Decoded

  function FeedOf(db: Db, kind: Kind): Feed {
    if kind.Raw? then db.logs else db.events
  }

  function EmitOf(w: World, kind: Kind): Emit {
    if kind.Raw? then RawLog else w.decode
  }

  /** Some window of the scan stores the header of block `n`. */
  ghost predicate HeaderStored(w: World, node: Node, jobs: seq<Job>, allBlocks: bool, n: nat) {
    exists i :: 0 <= i < |jobs| && Covers(jobs[i].win, n) && HeaderWanted(w, node, n, jobs[i].win.hi, allBlocks)
  }

  lemma CommitTables(w: World, node: Node, db: Db, job: Job, update: bool, allBlocks: bool)
    ensures var after, win := Commit(w, node, db, job, update, allBlocks), job.win;
            var logs := GetLogs(w, node, win.lo, win.hi + 1);
            && after.blocks == db.blocks + HeaderRows(w, node, win.lo, win.hi + 1, win.hi, allBlocks, db.clock)
            && after.logs == db.logs + ToRows(logs, RawLog, db.clock + 1)
            && after.events == db.events + ToRows(logs, w.decode, db.clock + 2)
  {
  }

  /** What a scan does for one window is a sequence of single inserts. */
  function WritesOf(w: World, node: Node, job: Job, marks: bool, allBlocks: bool): seq<Write> {
    var win := job.win;
    [Headers(node, win.lo, win.hi + 1, win.hi, allBlocks), RawLogs(node, win.lo, win.hi + 1),
     Events(node, win.lo, win.hi + 1)]
    + (if job.ids == [] then [] else [Work(job.ids)])
    + (if marks then [Mark(win.hi)] else [])
    + [Ranged(win, |GetLogs(w, node, win.lo, win.hi + 1)|)]
  }

  lemma ReplayPush(w: World, db: Db, writes: seq<Write>, a: Write)
    ensures Replay(w, db, writes + [a]) == Apply(w, Replay(w, db, writes), a)
  {
    assert (writes + [a])[..|writes|] == writes;
  }

  lemma ReplayPushIf(w: World, db: Db, writes: seq<Write>, kept: bool, a: Write)
    ensures Replay(w, db, writes + (if kept then [a] else [])) ==
              if kept then Apply(w, Replay(w, db, writes), a) else Replay(w, db, writes)
  {
    if kept {
      ReplayPush(w, db, writes, a);
    } else {
      assert writes + [] == writes;
    }
  }

  lemma ThreeWrites(w: World, db: Db, a: Write, b: Write, c: Write)
    ensures Replay(w, db, [a, b, c]) == Apply(w, Apply(w, Apply(w, db, a), b), c)
  {
    ReplayPush(w, db, [], a);
    ReplayPush(w, db, [a], b);
    ReplayPush(w, db, [a, b], c);
    assert [] + [a] == [a] && [a] + [b] == [a, b] && [a, b] + [c] == [a, b, c];
  }

  lemma WritesReplayed(w: World, node: Node, db: Db, job: Job, marks: bool, allBlocks: bool)
    ensures var win := job.win;
            var headed := Apply(w, db, Headers(node, win.lo, win.hi + 1, win.hi, allBlocks));
            var evented := Apply(w, Apply(w, headed, RawLogs(node, win.lo, win.hi + 1)),
                                 Events(node, win.lo, win.hi + 1));
            var worked := if job.ids == [] then evented else Apply(w, evented, Work(job.ids));
            var marked := if marks then Apply(w, worked, Mark(win.hi)) else worked;
            Replay(w, db, WritesOf(w, node, job, marks, allBlocks)) ==
                Apply(w, marked, Ranged(win, |GetLogs(w, node, win.lo, win.hi + 1)|))
  {
    var win := job.win;
    var a, b := Headers(node, win.lo, win.hi + 1, win.hi, allBlocks), RawLogs(node, win.lo, win.hi + 1);
    var c := Events(node, win.lo, win.hi + 1);
    var worked := [a, b, c] + (if job.ids == [] then [] else [Work(job.ids)]);
    var marked := worked + (if marks then [Mark(win.hi)] else []);
    ThreeWrites(w, db, a, b, c);
    ReplayPushIf(w, db, [a, b, c], job.ids != [], Work(job.ids));
    ReplayPushIf(w, db, worked, marks, Mark(win.hi));
    ReplayPush(w, db, marked, Ranged(win, |GetLogs(w, node, win.lo, win.hi + 1)|));
  }

  lemma CommitIsItsWrites(w: World, node: Node, db: Db, job: Job, update: bool, allBlocks: bool)
    ensures Commit(w, node, db, job, update, allBlocks)
         == Replay(w, db, WritesOf(w, node, job, update && !Behind(job.win.hi, CheckpointOf(db)), allBlocks))
  {
    WritesReplayed(w, node, db, job, update && !Behind(job.win.hi, CheckpointOf(db)), allBlocks);
  }

  lemma CommitKeepsDbFits(w: World, node: Node, db: Db, job: Job, update: bool, allBlocks: bool)
    requires DbFits(w, db) && ForkFits(w, node)
    ensures DbFits(w, Commit(w, node, db, job, update, allBlocks))
  {
    CommitIsItsWrites(w, node, db, job, update, allBlocks);
    ReplayKeepsDbFits(w, db, WritesOf(w, node, job, update && !Behind(job.win.hi, CheckpointOf(db)), allBlocks));
  }

  lemma CommitMakesCurrent(w: World, node: Node, db: Db, job: Job, update: bool, allBlocks: bool, kind: Kind, id: LogId)
    requires WorldFits(w) && ForkFits(w, node) && DbFits(w, db)
    ensures var after := Commit(w, node, db, job, update, allBlocks);
            if OnFork(w, node, id, job.win.lo, job.win.hi + 1)
            then Current(w, node, EmitOf(w, kind), FeedOf(after, kind), id)
            else Final(FeedOf(after, kind), id) == Final(FeedOf(db, kind), id)
  {
    CommitTables(w, node, db, job, update, allBlocks);
    InsertMakesCurrent(w, node, EmitOf(w, kind), FeedOf(db, kind), if kind.Raw? then db.clock + 1 else db.clock + 2,
                       job.win.lo, job.win.hi + 1, id);
  }

  /** A scan makes the logs of its fork in the scanned blocks current, and leaves every other
      log as it was. */
  lemma {:induction false} ScanMakesCurrent(w: World, node: Node, db: Db, jobs: seq<Job>, update: bool,
                                            allBlocks: bool, kind: Kind, id: LogId)
    requires WorldFits(w) && ForkFits(w, node) && DbFits(w, db)
    ensures var after := CommitAll(w, node, db, jobs, update, allBlocks);
            var n := w.block(id.hash).number;
            if Covered(jobs, n) && node.fork(n) == id.hash
            then Current(w, node, EmitOf(w, kind), FeedOf(after, kind), id)
            else Final(FeedOf(after, kind), id) == Final(FeedOf(db, kind), id)
  {
    if jobs == [] {
    } else {
      var fewer, job := jobs[..|jobs| - 1], jobs[|jobs| - 1];
      ScanMakesCurrent(w, node, db, fewer, update, allBlocks, kind, id);
      ScanKeepsDbFits(w, node, db, fewer, update, allBlocks);
      CommitMakesCurrent(w, node, CommitAll(w, node, db, fewer, update, allBlocks), job, update, allBlocks, kind, id);
      CoveredStep(jobs, w.block(id.hash).number);
    }
  }

  lemma CoveredStep(jobs: seq<Job>, n: nat)
    requires jobs != []
    ensures Covered(jobs, n) <==> Covers(jobs[|jobs| - 1].win, n) || Covered(jobs[..|jobs| - 1], n)
  {
    if i :| 0 <= i < |jobs| && Covers(jobs[i].win, n) && i < |jobs| - 1 {
      assert Covers(jobs[..|jobs| - 1][i].win, n);
    }
  }

  lemma CommitBlocks(w: World, node: Node, db: Db, job: Job, update: bool, allBlocks: bool)
    ensures var win := job.win;
            Commit(w, node, db, job, update, allBlocks).blocks
              == db.blocks + HeaderRows(w, node, win.lo, win.hi + 1, win.hi, allBlocks, db.clock)
  {
  }

  lemma CommitSetsHeader(w: World, node: Node, db: Db, job: Job, update: bool, allBlocks: bool, n: nat)
    requires Older(db.blocks, db.clock)
    ensures var after := Commit(w, node, db, job, update, allBlocks);
            if Covers(job.win, n) && HeaderWanted(w, node, n, job.win.hi, allBlocks)
            then Final(after.blocks, n) == Some(Row(n, db.clock, node.fork(n)))
            else Final(after.blocks, n) == Final(db.blocks, n)
  {
    CommitBlocks(w, node, db, job, update, allBlocks);
    InsertSetsHeader(w, node, db.blocks, db.clock, job.win.lo, job.win.hi + 1, job.win.hi, allBlocks, n);
  }

  lemma InsertSetsHeader(w: World, node: Node, blocks: Table<nat, Hash>, clock: nat, lo: nat, next: nat, hi: nat,
                         all: bool, n: nat)
    requires Older(blocks, clock)
    ensures Final(blocks + HeaderRows(w, node, lo, next, hi, all, clock), n) ==
              if lo <= n < next && HeaderWanted(w, node, n, hi, all) then Some(Row(n, clock, node.fork(n)))
              else Final(blocks, n)
  {
    var rows := HeaderRows(w, node, lo, next, hi, all, clock);
    FinalHeader(w, node, lo, next, hi, all, clock, n);
    forall row | row in rows ensures row.version == clock {
      HeadersAre(w, node, lo, next, hi, all, clock, row);
    }
    NewerVersionWins(blocks, rows, clock, n);
  }

  lemma FinalHeader(w: World, node: Node, lo: nat, next: nat, hi: nat, all: bool, version: nat, n: nat)
    ensures Final(HeaderRows(w, node, lo, next, hi, all, version), n) ==
              if lo <= n < next && HeaderWanted(w, node, n, hi, all) then Some(Row(n, version, node.fork(n))) else None
  {
    var rows := HeaderRows(w, node, lo, next, hi, all, version);
    var found := Final(rows, n);
    if found.Some? {
      HeadersAre(w, node, lo, next, hi, all, version, found.value);
    }
    HeadersAre(w, node, lo, next, hi, all, version, Row(n, version, node.fork(n)));
    FinalIsNone(rows, n);
  }

  lemma {:induction false} ScanSetsHeaders(w: World, node: Node, db: Db, jobs: seq<Job>, update: bool, allBlocks: bool,
                                           n: nat)
    requires DbFits(w, db) && ForkFits(w, node)
    ensures var before, after := Final(db.blocks, n), Final(CommitAll(w, node, db, jobs, update, allBlocks).blocks, n);
            if HeaderStored(w, node, jobs, allBlocks, n) then after.Some? && after.value.value == node.fork(n)
            else after == before
  {
    if jobs == [] {
    } else {
      var fewer, job := jobs[..|jobs| - 1], jobs[|jobs| - 1];
      ScanSetsHeaders(w, node, db, fewer, update, allBlocks, n);
      ScanKeepsDbFits(w, node, db, fewer, update, allBlocks);
      CommitSetsHeader(w, node, CommitAll(w, node, db, fewer, update, allBlocks), job, update, allBlocks, n);
      StoredStep(w, node, jobs, allBlocks, n);
    }
  }

  lemma StoredStep(w: World, node: Node, jobs: seq<Job>, allBlocks: bool, n: nat)
    requires jobs != []
    ensures HeaderStored(w, node, jobs, allBlocks, n) <==>
              || (Covers(jobs[|jobs| - 1].win, n) && HeaderWanted(w, node, n, jobs[|jobs| - 1].win.hi, allBlocks))
              || HeaderStored(w, node, jobs[..|jobs| - 1], allBlocks, n)
  {
    if i :| 0 <= i < |jobs| - 1 && Covers(jobs[i].win, n) && HeaderWanted(w, node, n, jobs[i].win.hi, allBlocks) {
      assert jobs[..|jobs| - 1][i] == jobs[i];
    }
  }

  lemma {:induction false} ScanKeepsDbFits(w: World, node: Node, db: Db, jobs: seq<Job>, update: bool, allBlocks: bool)
    requires DbFits(w, db) && ForkFits(w, node)
    ensures DbFits(w, CommitAll(w, node, db, jobs, update, allBlocks))
  {
    if jobs == [] {
    } else {
      var fewer := jobs[..|jobs| - 1];
      ScanKeepsDbFits(w, node, db, fewer, update, allBlocks);
      CommitKeepsDbFits(w, node, CommitAll(w, node, db, fewer, update, allBlocks), jobs[|jobs| - 1], update, allBlocks);
    }
  }

  // ---------------------------------------------------------------- the join, entry by entry

  ghost predicate Shown(blocks: Table<nat, Hash>, feed: Feed, e: Entry) {
    var row, header := Final(feed, e.id), Final(blocks, e.block);
    && row.Some? && row.value.value == Stored(e.block, e.payload, false)
    && header.Some? && header.value.value == e.id.hash
  }

  lemma JoinShows(blocks: Table<nat, Hash>, feed: Feed, e: Entry)
    ensures e in JoinRows(blocks, feed) <==> Shown(blocks, feed, e)
  {
    if Shown(blocks, feed, e) {
      assert Joined(blocks, feed, Final(feed, e.id).value) && EntryOf(Final(feed, e.id).value) == e;
    }
  }

  /** A log whose header the scan stored is shown exactly if it is on the node's fork. */
  lemma ShownWhereStored(w: World, node: Node, db: Db, jobs: seq<Job>, update: bool, allBlocks: bool, kind: Kind,
                         e: Entry)
    requires WorldFits(w) && ForkFits(w, node) && DbFits(w, db)
    requires HeaderStored(w, node, jobs, allBlocks, e.block)
    ensures var after := CommitAll(w, node, db, jobs, update, allBlocks);
            e in JoinRows(after.blocks, FeedOf(after, kind)) <==> OnChain(w, node, EmitOf(w, kind), e)
  {
    var after := CommitAll(w, node, db, jobs, update, allBlocks);
    var feed := FeedOf(after, kind);
    ScanKeepsDbFits(w, node, db, jobs, update, allBlocks);
    ScanSetsHeaders(w, node, db, jobs, update, allBlocks, e.block);
    JoinShows(after.blocks, feed, e);
    if e.id.hash == node.fork(e.block) {
      assert w.block(e.id.hash).number == e.block;
      ScanMakesCurrent(w, node, db, jobs, update, allBlocks, kind, e.id);
      if Final(feed, e.id).Some? {
        assert Truthful(w, EmitOf(w, kind), Final(feed, e.id).value);
      }
    }
  }

  /** Where the scan stored no header, it changes nothing that is shown. */
  lemma ShownAsBeforeWhereNotStored(w: World, node: Node, db: Db, jobs: seq<Job>, update: bool, allBlocks: bool,
                                    kind: Kind, e: Entry)
    requires WorldFits(w) && ForkFits(w, node) && DbFits(w, db)
    requires !HeaderStored(w, node, jobs, allBlocks, e.block)
    ensures var after := CommitAll(w, node, db, jobs, update, allBlocks);
            e in JoinRows(after.blocks, FeedOf(after, kind)) <==> e in JoinRows(db.blocks, FeedOf(db, kind))
  {
    var after := CommitAll(w, node, db, jobs, update, allBlocks);
    var emit, n := EmitOf(w, kind), w.block(e.id.hash).number;
    ScanKeepsDbFits(w, node, db, jobs, update, allBlocks);
    ScanSetsHeaders(w, node, db, jobs, update, allBlocks, e.block);
    ScanMakesCurrent(w, node, db, jobs, update, allBlocks, kind, e.id);
    JoinShows(after.blocks, FeedOf(after, kind), e);
    JoinShows(db.blocks, FeedOf(db, kind), e);
    ShownIsTruthful(w, emit, after.blocks, FeedOf(after, kind), after.clock, e);
    ShownIsTruthful(w, emit, db.blocks, FeedOf(db, kind), db.clock, e);
    if Covered(jobs, n) && node.fork(n) == e.id.hash {
      NothingStoredMeansNoLogs(w, node, jobs, allBlocks, n);
    }
  }

  lemma ShownIsTruthful(w: World, emit: Emit, blocks: Table<nat, Hash>, feed: Feed, clock: nat, e: Entry)
    requires FeedFits(w, emit, feed, clock)
    ensures Shown(blocks, feed, e) ==> w.block(e.id.hash).number == e.block && w.block(e.id.hash).logs != []
  {
    if Shown(blocks, feed, e) {
      assert Truthful(w, emit, Final(feed, e.id).value);
    }
  }

  lemma NothingStoredMeansNoLogs(w: World, node: Node, jobs: seq<Job>, allBlocks: bool, n: nat)
    requires Covered(jobs, n)
    ensures HeaderStored(w, node, jobs, allBlocks, n) || w.block(node.fork(n)).logs == []
  {
    var i :| 0 <= i < |jobs| && Covers(jobs[i].win, n);
    assert w.block(node.fork(n)).logs != [] ==> HeaderWanted(w, node, n, jobs[i].win.hi, allBlocks);
  }

  ghost predicate ShowsTheFork(w: World, node: Node, db: Db, kind: Kind, n: nat) {
    forall e: Entry | e.block == n ::
      e in JoinRows(db.blocks, FeedOf(db, kind)) <==> OnChain(w, node, EmitOf(w, kind), e)
  }

  ghost predicate ShowsNothing(db: Db, kind: Kind, n: nat) {
    forall e: Entry | e.block == n :: e !in JoinRows(db.blocks, FeedOf(db, kind))
  }

  /** After a scan, a scanned height shows the node's fork if and only if the scan stored its
      header or nothing was shown there before. */
  lemma ScanIsExactIff(w: World, node: Node, db: Db, jobs: seq<Job>, update: bool, allBlocks: bool, kind: Kind, n: nat)
    requires WorldFits(w) && ForkFits(w, node) && DbFits(w, db) && Covered(jobs, n)
    ensures ShowsTheFork(w, node, CommitAll(w, node, db, jobs, update, allBlocks), kind, n) <==>
              HeaderStored(w, node, jobs, allBlocks, n) || ShowsNothing(db, kind, n)
  {
    var after := CommitAll(w, node, db, jobs, update, allBlocks);
    if HeaderStored(w, node, jobs, allBlocks, n) {
      forall e: Entry | e.block == n
        ensures e in JoinRows(after.blocks, FeedOf(after, kind)) <==> OnChain(w, node, EmitOf(w, kind), e)
      {
        ShownWhereStored(w, node, db, jobs, update, allBlocks, kind, e);
      }
    } else {
      NothingStoredMeansNoLogs(w, node, jobs, allBlocks, n);
      forall e: Entry | e.block == n
        ensures e in JoinRows(after.blocks, FeedOf(after, kind)) <==> e in JoinRows(db.blocks, FeedOf(db, kind))
      {
        ShownAsBeforeWhereNotStored(w, node, db, jobs, update, allBlocks, kind, e);
      }
    }
  }

  /** What the raw-log view can show of the chain: a log of the fork's block at that height, that
      is not marked removed, with its own data. */
  lemma RawEntryIsTheLog(w: World, node: Node, e: Entry)
    ensures OnChain(w, node, EmitOf(w, Raw), e) <==>
              && node.fork(e.block) == e.id.hash
              && exists i ::
                   var logs := w.block(e.id.hash).logs;
                   && 0 <= i < |logs| && logs[i].tx == e.id.tx && logs[i].index == e.id.index
                   && logs[i].data == e.payload && !node.removed(e.id.hash, logs[i])
  {
    if OnChain(w, node, EmitOf(w, Raw), e) {
      var i :| IsLog(w, e.id, i) && EmitOf(w, Raw)(e.id.hash, w.block(e.id.hash).logs[i]) == Some(e.payload)
               && !node.removed(e.id.hash, w.block(e.id.hash).logs[i]);
      assert w.block(e.id.hash).logs[i].data == e.payload;
    }
    var logs := w.block(e.id.hash).logs;
    if i :| 0 <= i < |logs| && logs[i].tx == e.id.tx && logs[i].index == e.id.index && logs[i].data == e.payload
            && !node.removed(e.id.hash, logs[i]) {
      assert IsLog(w, e.id, i);
    }
  }

  /** One row for each window, in order, with the number of the fork's logs in it. */
  function RangeRows(w: World, node: Node, jobs: seq<Job>): (rows: seq<RangeRow>)
    ensures |rows| == |jobs|
    ensures forall i | 0 <= i < |jobs| ::
              rows[i].window == jobs[i].win && rows[i].rows == |GetLogs(w, node, jobs[i].win.lo, jobs[i].win.hi + 1)|
  {
    if jobs == [] then []
    else
      var last := jobs[|jobs| - 1].win;
      RangeRows(w, node, jobs[..|jobs| - 1]) + [RangeRow(last, |GetLogs(w, node, last.lo, last.hi + 1)|)]
  }

  /** A scan records each of its windows once. */
  lemma {:induction false} RangesAreTheWindows(w: World, node: Node, db: Db, jobs: seq<Job>, update: bool,
                                               allBlocks: bool)
    ensures CommitAll(w, node, db, jobs, update, allBlocks).ranges == db.ranges + RangeRows(w, node, jobs)
  {
    if jobs == [] {
      assert db.ranges + [] == db.ranges;
    } else {
      var fewer := jobs[..|jobs| - 1];
      RangesAreTheWindows(w, node, db, fewer, update, allBlocks);
      CommitRecordsRange(w, node, CommitAll(w, node, db, fewer, update, allBlocks), jobs[|jobs| - 1], update,
                         allBlocks);
    }
  }

  lemma CommitRecordsRange(w: World, node: Node, db: Db, job: Job, update: bool, allBlocks: bool)
    ensures var after, win := Commit(w, node, db, job, update, allBlocks), job.win;
            after.ranges == db.ranges + [RangeRow(win, |GetLogs(w, node, win.lo, win.hi + 1)|)]
  {
  }

  // ---------------------------------------------------------------- the checkpoint

  function Moved(cp: Option<nat>, number: nat): Option<nat> {
    if Behind(number, cp) then cp else Some(number)
  }

  lemma CheckpointMoves(db: Db, number: nat)
    requires Older(db.checkpoints, db.clock)
    ensures CheckpointOf(WithCheckpoint(db, number)) == Moved(CheckpointOf(db), number)
  {
    FinalOfPush(db.checkpoints, Row((), db.clock, number), ());
  }

  lemma {:induction false} CommitMarks(w: World, node: Node, db: Db, job: Job, update: bool, allBlocks: bool)
    ensures var after := Commit(w, node, db, job, update, allBlocks);
            var worked := db.(clock := db.clock + 3 + (if job.ids == [] then 0 else 1));
            var marked := if update then WithCheckpoint(worked, job.win.hi) else worked;
            after.checkpoints == marked.checkpoints && after.clock == marked.clock
  {
  }

  lemma {:induction false} CommitCheckpoint(w: World, node: Node, db: Db, job: Job, update: bool, allBlocks: bool)
    requires Older(db.checkpoints, db.clock)
    ensures var before, after := CheckpointOf(db), Commit(w, node, db, job, update, allBlocks);
            && Older(after.checkpoints, after.clock)
            && CheckpointOf(after) == if update then Moved(before, job.win.hi) else before
  {
    var worked := db.(clock := db.clock + 3 + (if job.ids == [] then 0 else 1));
    CommitMarks(w, node, db, job, update, allBlocks);
    CheckpointMoves(worked, job.win.hi);
  }

  function LastMoved(cp: Option<nat>, jobs: seq<Job>): Option<nat> {
    if jobs == [] then cp else Moved(LastMoved(cp, jobs[..|jobs| - 1]), jobs[|jobs| - 1].win.hi)
  }

  lemma {:induction false} ScanMovesCheckpoint(w: World, node: Node, db: Db, jobs: seq<Job>, update: bool,
                                               allBlocks: bool)
    requires Older(db.checkpoints, db.clock)
    ensures var after := CommitAll(w, node, db, jobs, update, allBlocks);
            && Older(after.checkpoints, after.clock)
            && CheckpointOf(after) == if update then LastMoved(CheckpointOf(db), jobs) else CheckpointOf(db)
  {
    if jobs == [] {
    } else {
      var fewer := jobs[..|jobs| - 1];
      ScanMovesCheckpoint(w, node, db, fewer, update, allBlocks);
      CommitCheckpoint(w, node, CommitAll(w, node, db, fewer, update, allBlocks), jobs[|jobs| - 1], update, allBlocks);
    }
  }

  lemma {:induction false} LastMovedIsTheEnd(cp: Option<nat>, jobs: seq<Job>, start: nat, next: nat)
    requires Tiles(WindowsOf(jobs), start, next)
    ensures if jobs == [] then LastMoved(cp, jobs) == cp
            else 1 <= next && LastMoved(cp, jobs) == Moved(cp, next - 1)
  {
    if jobs == [] {
    } else {
      var n := |jobs| - 1;
      TilesLast(WindowsOf(jobs), start, next);
      assert WindowsOf(jobs)[..n] == WindowsOf(jobs[..n]);
      LastMovedIsTheEnd(cp, jobs[..n], start, jobs[n].win.lo);
    }
  }

  /** A scan without `update` leaves the checkpoint alone; one with it moves it to the end of
      the last window, unless it already was further. */
  lemma ScanCheckpoint(w: World, node: Node, db: Db, jobs: seq<Job>, update: bool, allBlocks: bool, start: nat,
                       next: nat)
    requires Older(db.checkpoints, db.clock) && Tiles(WindowsOf(jobs), start, next)
    ensures var before, after := CheckpointOf(db), CheckpointOf(CommitAll(w, node, db, jobs, update, allBlocks));
            if !update || jobs == [] then after == before
            else 1 <= next && after == Moved(before, next - 1)
  {
    ScanMovesCheckpoint(w, node, db, jobs, update, allBlocks);
    LastMovedIsTheEnd(CheckpointOf(db), jobs, start, next);
  }

  // ---------------------------------------------------------------- the views after a scan

  /** Reorg exactness. Over any history of writes by scans of any forks, a completed scan of
      `start..end` that stores every header (a repair, a finality rescan) leaves both views,
      over those heights and up to the checkpoint, showing exactly the node's fork. */
  lemma RescanIsExact(w: World, history: seq<Write>, node: Node, l: Limits, jobs: seq<Job>, start: nat, end: nat,
                      kind: Kind, e: Entry)
    requires WorldFits(w) && ForkFits(w, node) && forall a | a in history :: WriteFits(w, a)
    requires Usable(l) && start <= e.block <= end
    requires WindowsOf(jobs) == ScanFrom(l, node.accepts, start, l.initial, end, 0).windows
    ensures var s := ScanFrom(l, node.accepts, start, l.initial, end, 0);
            var before := Replay(w, EMPTY, history);
            var after := CommitAll(w, node, before, jobs, false, true);
            var cp := CheckpointOf(before);
            && CheckpointOf(after) == cp
            && (!s.raised ==>
                  (e in View(after, FeedOf(after, kind)) <==>
                     cp.Some? && e.block <= cp.value && OnChain(w, node, EmitOf(w, kind), e)))
  {
    var s := ScanFrom(l, node.accepts, start, l.initial, end, 0);
    var before := Replay(w, EMPTY, history);
    ReplayKeepsDbFits(w, EMPTY, history);
    var next := ScanTiles(l, node.accepts, start, l.initial, end, 0);
    ScanCheckpoint(w, node, before, jobs, false, true, start, next);
    if !s.raised {
      TilesCover(jobs, start, next, e.block);
      var i :| 0 <= i < |jobs| && Covers(jobs[i].win, e.block);
      assert HeaderWanted(w, node, e.block, jobs[i].win.hi, true);
      ShownWhereStored(w, node, before, jobs, false, true, kind, e);
    }
  }

  /** A forward scan stores only the headers of blocks with logs and of window ends. After one,
      a scanned height is shown as the node's fork has it if and only if its header was one of
      these or no log was shown there before. */
  lemma ForwardScanIsExactIff(w: World, history: seq<Write>, node: Node, l: Limits, jobs: seq<Job>, start: nat,
                              end: nat, kind: Kind, n: nat)
    requires WorldFits(w) && ForkFits(w, node) && forall a | a in history :: WriteFits(w, a)
    requires Usable(l) && start <= n <= end
    requires WindowsOf(jobs) == ScanFrom(l, node.accepts, start, l.initial, end, 0).windows
    ensures var s := ScanFrom(l, node.accepts, start, l.initial, end, 0);
            var before := Replay(w, EMPTY, history);
            var after := CommitAll(w, node, before, jobs, true, false);
            !s.raised ==>
              && CheckpointOf(after).Some? && end <= CheckpointOf(after).value
              && ((forall e: Entry | e.block == n ::
                     e in View(after, FeedOf(after, kind)) <==> OnChain(w, node, EmitOf(w, kind), e)) <==>
                    || w.block(node.fork(n)).logs != []
                    || (exists i :: 0 <= i < |jobs| && jobs[i].win.hi == n)
                    || ShowsNothing(before, kind, n))
  {
    var s := ScanFrom(l, node.accepts, start, l.initial, end, 0);
    var before := Replay(w, EMPTY, history);
    ReplayKeepsDbFits(w, EMPTY, history);
    var next := ScanTiles(l, node.accepts, start, l.initial, end, 0);
    ScanCheckpoint(w, node, before, jobs, true, false, start, next);
    if !s.raised {
      ForwardHeightIff(w, node, before, jobs, start, next, kind, n);
      ViewWithinCheckpoint(CommitAll(w, node, before, jobs, true, false), kind, n);
    }
  }

  lemma ForwardHeightIff(w: World, node: Node, before: Db, jobs: seq<Job>, start: nat, next: nat, kind: Kind, n: nat)
    requires WorldFits(w) && ForkFits(w, node) && DbFits(w, before) && Tiles(WindowsOf(jobs), start, next)
    requires start <= n < next
    ensures ShowsTheFork(w, node, CommitAll(w, node, before, jobs, true, false), kind, n) <==>
              || w.block(node.fork(n)).logs != []
              || (exists i :: 0 <= i < |jobs| && jobs[i].win.hi == n)
              || ShowsNothing(before, kind, n)
  {
    TilesCover(jobs, start, next, n);
    ScanIsExactIff(w, node, before, jobs, true, false, kind, n);
    StoredMeans(w, node, jobs, start, next, n);
  }

  lemma ViewWithinCheckpoint(db: Db, kind: Kind, n: nat)
    requires CheckpointOf(db).Some? && n <= CheckpointOf(db).value
    ensures forall e: Entry | e.block == n ::
              e in View(db, FeedOf(db, kind)) <==> e in JoinRows(db.blocks, FeedOf(db, kind))
  {
  }

  lemma StoredMeans(w: World, node: Node, jobs: seq<Job>, start: nat, next: nat, n: nat)
    requires Tiles(WindowsOf(jobs), start, next) && start <= n < next
    ensures HeaderStored(w, node, jobs, false, n) <==>
              w.block(node.fork(n)).logs != [] || exists i :: 0 <= i < |jobs| && jobs[i].win.hi == n
  {
    TilesCover(jobs, start, next, n);
    var j :| 0 <= j < |jobs| && Covers(jobs[j].win, n);
    if w.block(node.fork(n)).logs != [] {
      assert HeaderWanted(w, node, n, jobs[j].win.hi, false);
    }
    if i :| 0 <= i < |jobs| && jobs[i].win.hi == n {
      TileBounds(WindowsOf(jobs), start, next, i);
      assert Covers(jobs[i].win, n) && HeaderWanted(w, node, n, jobs[i].win.hi, false);
    }
  }

  // ---------------------------------------------------------------- why storing every header matters

  lemma ViewIsBounded(db: Db, feed: Feed, e: Entry)
    ensures e in View(db, feed) <==>
              CheckpointOf(db).Some? && e.block <= CheckpointOf(db).value && e in JoinRows(db.blocks, feed)
  {
  }

  /** Where a block with a shown log has been replaced by one without logs: a forward scan that
      reaches over it, and does not happen to end a window there, leaves the abandoned log in the
      view, below the checkpoint; a scan that stores every header removes it. */
  lemma {:induction false} StaleLogSurvivesForwardScan(w: World, node: Node, before: Db, jobs: seq<Job>, start: nat,
      next: nat, kind: Kind, e: Entry)
    requires WorldFits(w) && ForkFits(w, node) && DbFits(w, before)
    requires e in JoinRows(before.blocks, FeedOf(before, kind)) && w.block(node.fork(e.block)).logs == []
    requires Tiles(WindowsOf(jobs), start, next) && start <= e.block < next
    requires forall i | 0 <= i < |jobs| :: jobs[i].win.hi != e.block
    ensures var forward := CommitAll(w, node, before, jobs, true, false);
            var rescanned := CommitAll(w, node, before, jobs, true, true);
            && !OnChain(w, node, EmitOf(w, kind), e)
            && e in View(forward, FeedOf(forward, kind))
            && e !in View(rescanned, FeedOf(rescanned, kind))
  {
    ForwardScanKeepsStale(w, node, before, jobs, start, next, kind, e);
    RescanDropsStale(w, node, before, jobs, start, next, kind, e);
  }

  lemma ForwardScanKeepsStale(w: World, node: Node, before: Db, jobs: seq<Job>, start: nat, next: nat, kind: Kind,
                              e: Entry)
    requires WorldFits(w) && ForkFits(w, node) && DbFits(w, before)
    requires e in JoinRows(before.blocks, FeedOf(before, kind)) && w.block(node.fork(e.block)).logs == []
    requires Tiles(WindowsOf(jobs), start, next) && start <= e.block < next
    requires forall i | 0 <= i < |jobs| :: jobs[i].win.hi != e.block
    ensures var forward := CommitAll(w, node, before, jobs, true, false);
            e in View(forward, FeedOf(forward, kind))
  {
    StoredMeans(w, node, jobs, start, next, e.block);
    ShownAsBeforeWhereNotStored(w, node, before, jobs, true, false, kind, e);
    ScanCheckpoint(w, node, before, jobs, true, false, start, next);
    var forward := CommitAll(w, node, before, jobs, true, false);
    ViewIsBounded(forward, FeedOf(forward, kind), e);
  }

  lemma RescanDropsStale(w: World, node: Node, before: Db, jobs: seq<Job>, start: nat, next: nat, kind: Kind, e: Entry)
    requires WorldFits(w) && ForkFits(w, node) && DbFits(w, before) && !OnChain(w, node, EmitOf(w, kind), e)
    requires Tiles(WindowsOf(jobs), start, next) && start <= e.block < next
    ensures var rescanned := CommitAll(w, node, before, jobs, true, true);
            e !in View(rescanned, FeedOf(rescanned, kind))
  {
    TilesCover(jobs, start, next, e.block);
    var i :| 0 <= i < |jobs| && Covers(jobs[i].win, e.block);
    assert HeaderWanted(w, node, e.block, jobs[i].win.hi, true);
    ShownWhereStored(w, node, before, jobs, true, true, kind, e);
    var rescanned := CommitAll(w, node, before, jobs, true, true);
    ViewIsBounded(rescanned, FeedOf(rescanned, kind), e);
  }

  function Tip(n: nat): Hash {
    seq(n, _ => 'x')
  }

  lemma ReorganisationExists(kind: Kind) returns (w: World, abandoned: Node, node: Node, e: Entry)
    ensures WorldFits(w) && ForkFits(w, abandoned) && ForkFits(w, node)
    ensures OnChain(w, abandoned, EmitOf(w, kind), e) && w.block(node.fork(e.block)).logs == []
  {
    w := World(h => Block(|h|, if h == "y" then [Log("t", 0, "d")] else []), (_, l: Log) => Some(l.data), (_, _) => []);
    node := Node(Tip, (_, _) => false, (_, _, _) => true, 2);
    abandoned := node.(fork := (n: nat) => if n == 1 then "y" else Tip(n));
    e := Entry(1, LogId("y", "t", 0), "d");
    assert IsLog(w, e.id, 0);
    assert Tip(1)[0] == 'x';
  }

  /** Such a store is reached: block 1 was "y", with one log, and is now empty. */
  lemma StaleLogArises(kind: Kind) returns (w: World, before: Db, node: Node, e: Entry)
    ensures WorldFits(w) && ForkFits(w, node) && DbFits(w, before)
    ensures e in JoinRows(before.blocks, FeedOf(before, kind)) && w.block(node.fork(e.block)).logs == []
  {
    var abandoned;
    w, abandoned, node, e := ReorganisationExists(kind);
    before := FirstScanShows(w, abandoned, kind, e);
  }

  lemma FirstScanShows(w: World, node: Node, kind: Kind, e: Entry) returns (after: Db)
    requires WorldFits(w) && ForkFits(w, node) && OnChain(w, node, EmitOf(w, kind), e)
    ensures after == CommitAll(w, node, EMPTY, [Job(Window(e.block, e.block), [])], true, false)
    ensures DbFits(w, after) && e in JoinRows(after.blocks, FeedOf(after, kind))
  {
    var jobs := [Job(Window(e.block, e.block), [])];
    after := CommitAll(w, node, EMPTY, jobs, true, false);
    ScanKeepsDbFits(w, node, EMPTY, jobs, true, false);
    assert Covers(jobs[0].win, e.block) && HeaderWanted(w, node, e.block, jobs[0].win.hi, false);
    ShownWhereStored(w, node, EMPTY, jobs, true, false, kind, e);
  }
}
