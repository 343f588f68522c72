/** What a scan reads from a node and writes to the store.

    A block hash stands for one block: its number and its logs at the watched contracts. A fork
    is a choice of one hash per height. A node answers from one fork during a scan; different
    scans may meet different forks. */
module ChainStore {
  import opened VersionedTable
  import opened Windows
  import Recent = RecentEnqueues
  import Queue = WorkStore
  import WorkLedger

  type Hash = string

  datatype Log = Log(tx: Hash, index: nat, data: string)
  datatype Block = Block(number: nat, logs: seq<Log>)

  /** What the model leaves open: what hashes stand for, which logs decode to which events, and
      what work an event asks for. */
  datatype World = World(
    block: Hash -> Block, decode: (Hash, Log) -> Option<string>, work: (Hash, Log) -> seq<WorkLedger.WorkId>)

  type Emit = (Hash, Log) -> Option<string>

  function RawLog(hash: Hash, log: Log): Option<string> {
    Some(log.data)
  }

  /** A node during one scan: its fork, the `removed` flag it puts on logs, the ranges it
      accepts, and its safe head. */
  datatype Node = Node(fork: nat -> Hash, removed: (Hash, Log) -> bool, accepts: Verdicts, safeHead: nat)

  /** Within a block, a transaction hash and a log index name one log. */
  ghost predicate WorldFits(w: World) {
    forall h, i, j | 0 <= i < j < |w.block(h).logs| ::
      w.block(h).logs[i].tx != w.block(h).logs[j].tx || w.block(h).logs[i].index != w.block(h).logs[j].index
  }

  ghost predicate ForkFits(w: World, node: Node) {
    forall n :: w.block(node.fork(n)).number == n
  }

  // ---------------------------------------------------------------- answers of the node

  datatype RpcLog = RpcLog(number: nat, hash: Hash, log: Log, removed: bool)

  function BlockLogs(node: Node, number: nat, hash: Hash, logs: seq<Log>): (r: seq<RpcLog>)
    ensures |r| == |logs|
    ensures forall i | 0 <= i < |r| :: r[i] == RpcLog(number, hash, logs[i], node.removed(hash, logs[i]))
  {
    seq(|logs|, i requires 0 <= i < |logs| => RpcLog(number, hash, logs[i], node.removed(hash, logs[i])))
  }

  /** `eth_getLogs` for the blocks from `lo` up to, not including, `next`. */
  function GetLogs(w: World, node: Node, lo: nat, next: nat): seq<RpcLog> {
    if next <= lo then []
    else
      var h := node.fork(next - 1);
      GetLogs(w, node, lo, next - 1) + BlockLogs(node, next - 1, h, w.block(h).logs)
  }

  lemma {:induction false} LogsAre(w: World, node: Node, lo: nat, next: nat, l: RpcLog)
    ensures l in GetLogs(w, node, lo, next) <==>
              && lo <= l.number < next && l.hash == node.fork(l.number)
              && l.log in w.block(l.hash).logs && l.removed == node.removed(l.hash, l.log)
  {
    if next <= lo {
    } else {
      LogsAre(w, node, lo, next - 1, l);
      var h := node.fork(next - 1);
      var last := BlockLogs(node, next - 1, h, w.block(h).logs);
      if l.number == next - 1 && l.hash == h && l.log in w.block(h).logs && l.removed == node.removed(h, l.log) {
        var i :| 0 <= i < |w.block(h).logs| && w.block(h).logs[i] == l.log;
        assert last[i] == l;
      }
    }
  }

  /** No log is answered twice. */
  lemma {:induction false} LogsAreDistinct(w: World, node: Node, lo: nat, next: nat, i: nat, j: nat)
    requires WorldFits(w) && i < j < |GetLogs(w, node, lo, next)|
    ensures GetLogs(w, node, lo, next)[i] != GetLogs(w, node, lo, next)[j]
  {
    var earlier, last := GetLogs(w, node, lo, next - 1),
                         BlockLogs(node, next - 1, node.fork(next - 1), w.block(node.fork(next - 1)).logs);
    if j < |earlier| {
      LogsAreDistinct(w, node, lo, next - 1, i, j);
    } else if i < |earlier| {
      LogsAre(w, node, lo, next - 1, earlier[i]);
      assert last[j - |earlier|].number == next - 1;
    } else {
      assert last[i - |earlier|] != last[j - |earlier|];
    }
  }

  // ---------------------------------------------------------------- tables

  datatype LogId = LogId(hash: Hash, tx: Hash, index: nat)
  datatype Stored = Stored(block: nat, payload: string, removed: bool)

  /** Rows derived from logs: raw logs, or decoded events. */
  type Feed = Table<LogId, Stored>

  datatype RangeRow = RangeRow(window: Window, rows: nat)

  /** The tables, and the number of inserts so far. */
  datatype Db = Db(
    blocks: Table<nat, Hash>, logs: Feed, events: Feed, work: WorkLedger.Ledger,
    checkpoints: Table<(), nat>, ranges: seq<RangeRow>, clock: nat)

  const EMPTY := Db([], [], [], [], [], [], 0)

  function IdOf(l: RpcLog): LogId {
    LogId(l.hash, l.log.tx, l.log.index)
  }

  /** One row per log that `emit` keeps. */
  function ToRows(logs: seq<RpcLog>, emit: Emit, version: nat): Feed {
    if logs == [] then []
    else
      var l := logs[|logs| - 1];
      ToRows(logs[..|logs| - 1], emit, version) +
      (match emit(l.hash, l.log)
       case None => []
       case Some(p) => [Row(IdOf(l), version, Stored(l.number, p, l.removed))])
  }

  /** Whether a scan of a window ending at `hi` stores the header of block `n`. */
  predicate HeaderWanted(w: World, node: Node, n: nat, hi: nat, allBlocks: bool) {
    allBlocks || n == hi || w.block(node.fork(n)).logs != []
  }

  function HeaderRows(w: World, node: Node, lo: nat, next: nat, hi: nat, allBlocks: bool,
                      version: nat): Table<nat, Hash> {
    if next <= lo then []
    else HeaderRows(w, node, lo, next - 1, hi, allBlocks, version) +
         (if HeaderWanted(w, node, next - 1, hi, allBlocks) then [Row(next - 1, version, node.fork(next - 1))] else [])
  }

  ghost predicate Older<K(!new), V(!new)>(t: Table<K, V>, clock: nat) {
    forall row | row in t :: row.version < clock
  }

  function CheckpointOf(db: Db): Option<nat> {
    var r := Final(db.checkpoints, ());
    if r.None? then None else Some(r.value.value)
  }

  /** The work the events of these logs ask for. */
  function WorkOf(w: World, logs: seq<RpcLog>): seq<WorkLedger.WorkId> {
    if logs == [] then []
    else
      var l := logs[|logs| - 1];
      WorkOf(w, logs[..|logs| - 1]) + (if w.decode(l.hash, l.log).Some? then w.work(l.hash, l.log) else [])
  }

  /** An event of block `n` of the node's fork asks for the work `x`. */
  ghost predicate BlockAsks(w: World, node: Node, n: nat, x: WorkLedger.WorkId) {
    exists i :: LogAsks(w, node.fork(n), i, x)
  }

  predicate LogAsks(w: World, h: Hash, i: int, x: WorkLedger.WorkId) {
    var logs := w.block(h).logs;
    0 <= i < |logs| && w.decode(h, logs[i]).Some? && x in w.work(h, logs[i])
  }

  predicate RpcAsks(w: World, l: RpcLog, x: WorkLedger.WorkId) {
    w.decode(l.hash, l.log).Some? && x in w.work(l.hash, l.log)
  }

  /** Some block from `lo` up to, not including, `next` asks for the work `x`. */
  ghost predicate RangeAsks(w: World, node: Node, lo: nat, next: nat, x: WorkLedger.WorkId) {
    exists n: nat :: lo <= n < next && BlockAsks(w, node, n, x)
  }

  ghost predicate SomeAsks(w: World, logs: seq<RpcLog>, x: WorkLedger.WorkId) {
    exists l :: l in logs && RpcAsks(w, l, x)
  }

  lemma {:induction false} WorkOfMember(w: World, logs: seq<RpcLog>, x: WorkLedger.WorkId)
    ensures x in WorkOf(w, logs) <==> SomeAsks(w, logs, x)
  {
    if logs == [] {
    } else {
      var n := |logs| - 1;
      var fewer, last := logs[..n], logs[n];
      WorkOfMember(w, fewer, x);
      assert logs == fewer + [last];
      assert x in WorkOf(w, logs) <==> x in WorkOf(w, fewer) || RpcAsks(w, last, x);
      if SomeAsks(w, fewer, x) {
        var l :| l in fewer && RpcAsks(w, l, x);
        assert l in logs;
      }
      if RpcAsks(w, last, x) {
        assert last in logs;
      }
    }
  }

  /** The work of a stretch of blocks is exactly what the chain's decoded logs there ask for. */
  lemma WorkIsAsked(w: World, node: Node, lo: nat, next: nat, x: WorkLedger.WorkId)
    ensures x in WorkOf(w, GetLogs(w, node, lo, next)) <==> RangeAsks(w, node, lo, next, x)
  {
    var logs := GetLogs(w, node, lo, next);
    WorkOfMember(w, logs, x);
    if SomeAsks(w, logs, x) {
      var l :| l in logs && RpcAsks(w, l, x);
      LogsAre(w, node, lo, next, l);
      var i :| 0 <= i < |w.block(l.hash).logs| && w.block(l.hash).logs[i] == l.log;
      assert LogAsks(w, node.fork(l.number), i, x);
      assert BlockAsks(w, node, l.number, x);
    }
    if RangeAsks(w, node, lo, next, x) {
      var n: nat :| lo <= n < next && BlockAsks(w, node, n, x);
      var h := node.fork(n);
      var i :| LogAsks(w, h, i, x);
      var log := w.block(h).logs[i];
      var l := RpcLog(n, h, log, node.removed(h, log));
      LogsAre(w, node, lo, next, l);
      assert l in logs && RpcAsks(w, l, x);
    }
  }

  function WithBlocks(db: Db, rows: Table<nat, Hash>): Db {
    db.(blocks := db.blocks + rows, clock := db.clock + 1)
  }

  function WithLogs(db: Db, rows: Feed): Db {
    db.(logs := db.logs + rows, clock := db.clock + 1)
  }

  function WithEvents(db: Db, rows: Feed): Db {
    db.(events := db.events + rows, clock := db.clock + 1)
  }

  function WithWork(db: Db, ids: seq<WorkLedger.WorkId>): Db {
    if ids == [] then db
    else db.(work := db.work + WorkLedger.EnqueueRows(ids, db.clock), clock := db.clock + 1)
  }

  function WithCheckpointRow(db: Db, number: nat): Db {
    db.(checkpoints := db.checkpoints + [Row((), db.clock, number)], clock := db.clock + 1)
  }

  /** A block behind the checkpoint writes no row. */
  predicate Behind(number: nat, current: Option<nat>) {
    current.Some? && number < current.value
  }

  function WithCheckpoint(db: Db, number: nat): Db {
    if Behind(number, CheckpointOf(db)) then db else WithCheckpointRow(db, number)
  }

  function WithRange(db: Db, window: Window, rows: nat): Db {
    db.(ranges := db.ranges + [RangeRow(window, rows)])
  }

  /** An accepted window, and the ids of its work that the process did not remember and wrote. */
  datatype Job = Job(win: Window, ids: seq<WorkLedger.WorkId>)

  /** Everything a scan writes for one accepted window, in order. */
  function Commit(w: World, node: Node, db: Db, job: Job, update: bool, allBlocks: bool): Db {
    var win := job.win;
    var logs := GetLogs(w, node, win.lo, win.hi + 1);
    var headed := WithBlocks(db, HeaderRows(w, node, win.lo, win.hi + 1, win.hi, allBlocks, db.clock));
    var logged := WithLogs(headed, ToRows(logs, RawLog, headed.clock));
    var evented := WithEvents(logged, ToRows(logs, w.decode, logged.clock));
    var worked := WithWork(evented, job.ids);
    WithRange(if update then WithCheckpoint(worked, win.hi) else worked, win, |logs|)
  }

  function CommitAll(w: World, node: Node, db: Db, jobs: seq<Job>, update: bool, allBlocks: bool): Db {
    if jobs == [] then db
    else
      var n := |jobs| - 1;
      Commit(w, node, CommitAll(w, node, db, jobs[..n], update, allBlocks), jobs[n], update, allBlocks)
  }

  lemma CommitNext(w: World, node: Node, db: Db, jobs: seq<Job>, job: Job, update: bool, allBlocks: bool)
    ensures CommitAll(w, node, db, jobs + [job], update, allBlocks)
         == Commit(w, node, CommitAll(w, node, db, jobs, update, allBlocks), job, update, allBlocks)
  {
    assert (jobs + [job])[..|jobs|] == jobs;
  }

  function WindowsOf(jobs: seq<Job>): (windows: seq<Window>)
    ensures |windows| == |jobs| && forall i | 0 <= i < |jobs| :: windows[i] == jobs[i].win
  {
    seq(|jobs|, i requires 0 <= i < |jobs| => jobs[i].win)
  }

  lemma WindowsNext(jobs: seq<Job>, job: Job)
    ensures WindowsOf(jobs + [job]) == WindowsOf(jobs) + [job.win]
  {
  }

  predicate Covers(win: Window, n: nat) {
    win.lo <= n <= win.hi
  }

  ghost predicate Covered(jobs: seq<Job>, n: nat) {
    exists i :: 0 <= i < |jobs| && Covers(jobs[i].win, n)
  }

  lemma TilesCover(jobs: seq<Job>, from: nat, to: nat, n: nat)
    requires Tiles(WindowsOf(jobs), from, to)
    ensures Covered(jobs, n) <==> from <= n < to
  {
    if Covered(jobs, n) {
      var i :| 0 <= i < |jobs| && Covers(jobs[i].win, n);
      TileBounds(WindowsOf(jobs), from, to, i);
    }
    if from <= n < to {
      var i := TileAt(WindowsOf(jobs), from, to, n);
      assert Covers(jobs[i].win, n);
    }
  }

  /** What a window's work asks the dictionary of recent enqueues: nothing, or one call. */
  predicate Asks(w: World, node: Node, c: Recent.Config, before: seq<Recent.Call>, after: seq<Recent.Call>, job: Job) {
    var ids := WorkOf(w, GetLogs(w, node, job.win.lo, job.win.hi + 1));
    if ids == [] then after == before && job.ids == []
    else
      && |after| == |before| + 1 && after[..|before|] == before
      && after[|before|].ids == Queue.FirstOccurrences(ids)
      && job.ids == Recent.Fresh(c, after, |before|)
  }

  /** So the work written for a window is exactly what its decoded logs ask for and the process
      does not remember. */
  lemma JobIsTheUnrememberedWork(w: World, node: Node, c: Recent.Config, before: seq<Recent.Call>,
                                 after: seq<Recent.Call>, job: Job, x: WorkLedger.WorkId)
    requires Asks(w, node, c, before, after, job)
    ensures x in job.ids <==>
              && RangeAsks(w, node, job.win.lo, job.win.hi + 1, x)
              && |after| == |before| + 1 && !Recent.Remembers(c, before, x, after[|before|].now)
  {
    var ids := WorkOf(w, GetLogs(w, node, job.win.lo, job.win.hi + 1));
    WorkIsAsked(w, node, job.win.lo, job.win.hi + 1, x);
    if ids != [] {
      Queue.FreshIff(c, before, ids, after[|before|].now, x);
      assert after == before + [Recent.Call(Queue.FirstOccurrences(ids), after[|before|].now)];
    }
  }

  /** The dictionary's calls over a whole scan, and what it let through for each window. */
  ghost predicate AsksAll(w: World, node: Node, c: Recent.Config, before: seq<Recent.Call>, after: seq<Recent.Call>,
                          jobs: seq<Job>)
    decreases |jobs|, 1
  {
    if jobs == [] then after == before else exists mid :: AsksVia(w, node, c, before, mid, after, jobs)
  }

  ghost predicate AsksVia(w: World, node: Node, c: Recent.Config, before: seq<Recent.Call>, mid: seq<Recent.Call>,
                          after: seq<Recent.Call>, jobs: seq<Job>)
    requires jobs != []
    decreases |jobs|, 0
  {
    AsksAll(w, node, c, before, mid, jobs[..|jobs| - 1]) && Asks(w, node, c, mid, after, jobs[|jobs| - 1])
  }

  lemma AsksNext(w: World, node: Node, c: Recent.Config, before: seq<Recent.Call>, mid: seq<Recent.Call>,
                 after: seq<Recent.Call>, jobs: seq<Job>, job: Job)
    requires AsksAll(w, node, c, before, mid, jobs) && Asks(w, node, c, mid, after, job)
    ensures AsksAll(w, node, c, before, after, jobs + [job])
  {
    assert (jobs + [job])[..|jobs|] == jobs;
    assert AsksVia(w, node, c, before, mid, after, jobs + [job]);
  }

  datatype TurnResult = Advanced(next: nat, wider: nat, rows: nat) | Narrowed(range: nat) | GaveUp

  /** What one call of a scan leads to. */
  function TurnOf(w: World, node: Node, l: Limits, cursor: nat, range: nat, end: nat, calls: nat): (turn: TurnResult)
    requires Usable(l) && cursor <= end && 1 <= range
    ensures turn.Advanced? ==> cursor < turn.next <= end + 1 && 1 <= turn.wider
    ensures turn.Narrowed? ==> 1 <= turn.range < range
  {
    var upper := UpperBound(cursor, range, end);
    if node.accepts(calls, cursor, upper)
    then Advanced(upper + 1, Doubled(l, range), |GetLogs(w, node, cursor, upper + 1)|)
    else if range <= l.minimum then GaveUp
    else Narrowed(Halved(l, range))
  }

  /** The turn adds a job for its window if it committed one. */
  predicate Extends(turn: TurnResult, cursor: nat, done: seq<Job>, jobs: seq<Job>) {
    if turn.Advanced? then
      && |jobs| == |done| + 1 && jobs == done + [jobs[|done|]]
      && 1 <= turn.next && jobs[|done|].win == Window(cursor, turn.next - 1)
    else jobs == done
  }

  /** The scan that has committed `done` and stands at `cursor` is on its way to `s`. */
  ghost predicate Ahead(node: Node, l: Limits, s: Scanned, done: seq<Window>, cursor: nat, range: nat, end: nat,
                        calls: nat)
    requires Usable(l) && 1 <= range
  {
    var left := ScanFrom(l, node.accepts, cursor, range, end, calls);
    left.raised == s.raised && done + left.windows == s.windows
  }

  lemma AheadStep(w: World, node: Node, l: Limits, s: Scanned, done: seq<Window>, cursor: nat, range: nat, end: nat,
                  calls: nat)
    requires Usable(l) && 1 <= range && cursor <= end && Ahead(node, l, s, done, cursor, range, end, calls)
    ensures match TurnOf(w, node, l, cursor, range, end, calls)
      case Advanced(next, wider, _) => Ahead(node, l, s, done + [Window(cursor, next - 1)], next, wider, end, calls + 1)
      case Narrowed(narrower) => Ahead(node, l, s, done, cursor, narrower, end, calls + 1)
      case GaveUp => s.raised && done == s.windows
  {
    ScanStep(l, node.accepts, cursor, range, end, calls);
    var upper := UpperBound(cursor, range, end);
    if node.accepts(calls, cursor, upper) {
      var rest := ScanFrom(l, node.accepts, upper + 1, Doubled(l, range), end, calls + 1);
      assert done + ([Window(cursor, upper)] + rest.windows) == (done + [Window(cursor, upper)]) + rest.windows;
    }
  }

  lemma AheadAfterTurn(w: World, node: Node, l: Limits, s: Scanned, done: seq<Job>, jobs: seq<Job>, cursor: nat,
                       range: nat, end: nat, calls: nat)
    requires Usable(l) && 1 <= range && cursor <= end && Ahead(node, l, s, WindowsOf(done), cursor, range, end, calls)
    requires Extends(TurnOf(w, node, l, cursor, range, end, calls), cursor, done, jobs)
    ensures match TurnOf(w, node, l, cursor, range, end, calls)
      case Advanced(next, wider, _) => Ahead(node, l, s, WindowsOf(jobs), next, wider, end, calls + 1)
      case Narrowed(narrower) => Ahead(node, l, s, WindowsOf(jobs), cursor, narrower, end, calls + 1)
      case GaveUp => s.raised && WindowsOf(jobs) == s.windows
  {
    AheadStep(w, node, l, s, WindowsOf(done), cursor, range, end, calls);
    if jobs != done {
      WindowsNext(done, jobs[|done|]);
    }
  }

  // ---------------------------------------------------------------- the store and the scan

  class Store {
    var blocks: Table<nat, Hash>
    var logs: Feed
    var events: Feed
    const queue: Queue.Store
    var checkpoints: Table<(), nat>
    var ranges: seq<RangeRow>
    var clock: nat

    constructor (ttl: Recent.Seconds, maxEntries: int)
      ensures queue.recent.Valid() && Contents() == EMPTY && fresh(queue) && fresh(queue.recent)
    {
      blocks, logs, events, checkpoints, ranges, clock := [], [], [], [], [], 0;
      queue := new Queue.Store(ttl, maxEntries);
    }

    function Contents(): Db
      reads this, queue
    {
      Db(blocks, logs, events, queue.rows, checkpoints, ranges, clock)
    }

    method StoreBlocks(rows: Table<nat, Hash>)
      modifies this`blocks, this`clock
      ensures Contents() == WithBlocks(old(Contents()), rows)
    {
      blocks, clock := blocks + rows, clock + 1;
    }

    method StoreRawLogs(rows: Feed)
      modifies this`logs, this`clock
      ensures Contents() == WithLogs(old(Contents()), rows)
    {
      logs, clock := logs + rows, clock + 1;
    }

    method StoreEvents(rows: Feed)
      modifies this`events, this`clock
      ensures Contents() == WithEvents(old(Contents()), rows)
    {
      events, clock := events + rows, clock + 1;
    }

    method EnqueueWork(ids: seq<WorkLedger.WorkId>, monotonic: Recent.Seconds)
        returns (ghost newIds: seq<WorkLedger.WorkId>)
      requires queue.recent.Valid()
      modifies this`clock, queue`rows, queue.recent
      ensures queue.recent.Valid() && Contents() == WithWork(old(Contents()), newIds)
      ensures ids == [] ==> newIds == [] && queue.recent.calls == old(queue.recent.calls)
      ensures ids != [] ==>
                && queue.recent.calls == old(queue.recent.calls) + [Recent.Call(Queue.FirstOccurrences(ids), monotonic)]
                && newIds == Recent.Fresh(queue.recent.config, queue.recent.calls, |old(queue.recent.calls)|)
    {
      ghost var rows := queue.rows;
      var before, raised := |queue.rows|, false;
      raised, newIds := queue.EnqueueWorkMany(ids, clock, monotonic, true);
      assert queue.rows == rows + WorkLedger.EnqueueRows(newIds, clock);
      if before < |queue.rows| {
        clock := clock + 1;
      } else {
        assert newIds == [] && queue.rows == rows;
      }
    }

    /** The checkpoint afterwards is the larger of what it was and the block. */
    method Checkpoint(number: nat)
      modifies this`checkpoints, this`clock
      ensures Contents() == WithCheckpoint(old(Contents()), number)
      ensures old(Older(checkpoints, clock)) ==>
                && Older(checkpoints, clock)
                && var cp := CheckpointOf(old(Contents()));
                   && CheckpointOf(Contents()) == Some(if cp.Some? && number < cp.value then cp.value else number)
                   && |checkpoints| == |old(checkpoints)| + (if cp.Some? && number < cp.value then 0 else 1)
    {
      var current := Final(checkpoints, ());
      if current.Some? && number < current.value.value {
        return;
      }
      FinalOfPush(checkpoints, Row((), clock, number), ());
      checkpoints, clock := checkpoints + [Row((), clock, number)], clock + 1;
    }

    method RecordRange(window: Window, rows: nat)
      modifies this`ranges
      ensures Contents() == WithRange(old(Contents()), window, rows)
    {
      ranges := ranges + [RangeRow(window, rows)];
    }
  }

  datatype Outcome = Indexed(logs: nat) | RangeTooLarge

  /** The windows follow each other from block `first` on, up to the safe head and, if it is
      given, up to `to`; a scan that does not give up gets there. */
  ghost predicate ScannedFrom(first: nat, node: Node, to: Option<nat>, gaveUp: bool, jobs: seq<Job>) {
    if node.safeHead < first || (to.Some? && to.value < first) then jobs == [] && !gaveUp
    else exists next: nat :: ScannedUpTo(first, next, node, to, gaveUp, jobs)
  }

  ghost predicate ScannedUpTo(first: nat, next: nat, node: Node, to: Option<nat>, gaveUp: bool, jobs: seq<Job>) {
    && Tiles(WindowsOf(jobs), first, next)
    && next <= node.safeHead + 1 && (to.Some? ==> next <= to.value + 1)
    && (gaveUp || next == node.safeHead + 1 || (to.Some? && next == to.value + 1))
  }

  lemma ScanCovers(l: Limits, node: Node, to: Option<nat>, first: nat, s: Scanned)
    requires Usable(l) && s == ScanFrom(l, node.accepts, first, l.initial, EndOf(node, to), 0)
    ensures forall jobs | WindowsOf(jobs) == s.windows :: ScannedFrom(first, node, to, s.raised, jobs)
  {
    if first <= EndOf(node, to) {
      var next := ScanTiles(l, node.accepts, first, l.initial, EndOf(node, to), 0);
      forall jobs | WindowsOf(jobs) == s.windows ensures ScannedFrom(first, node, to, s.raised, jobs) {
        assert ScannedUpTo(first, next, node, to, s.raised, jobs);
      }
    }
  }

  /** A finished scan has covered exactly the blocks from its start to its end. */
  lemma FinishedScanCovers(first: nat, node: Node, to: Option<nat>, jobs: seq<Job>, n: nat)
    requires ScannedFrom(first, node, to, false, jobs)
    ensures Covered(jobs, n) <==> first <= n <= node.safeHead && (to.Some? ==> n <= to.value)
  {
    if !(node.safeHead < first || (to.Some? && to.value < first)) {
      var next: nat :| ScannedUpTo(first, next, node, to, false, jobs);
      TilesCover(jobs, first, next, n);
    }
  }

  class HistoricalIndexer {
    const store: Store
    const limits: Limits
    const startBlock: nat

    constructor (store: Store, limits: Limits, startBlock: nat)
      ensures this.store == store && this.limits == limits && this.startBlock == startBlock
    {
      this.store, this.limits, this.startBlock := store, limits, startBlock;
    }

    function StartOf(from: Option<nat>): nat
      reads store, store.queue
    {
      if from.Some? then from.value
      else if CheckpointOf(store.Contents()).Some? then CheckpointOf(store.Contents()).value + 1
      else startBlock
    }

    /** Scan from `from`, or from behind the checkpoint, up to `to` and the safe head. `clock`
        is the monotonic clock at each call of the node. */
    method Scan(w: World, node: Node, from: Option<nat>, to: Option<nat>, update: bool, allBlocks: bool,
                clock: nat -> Recent.Seconds)
        returns (r: Outcome, ghost jobs: seq<Job>)
      requires Usable(limits) && store.queue.recent.Valid()
      modifies store, store.queue`rows, store.queue.recent
      ensures store.queue.recent.Valid()
      ensures AsksAll(w, node, store.queue.recent.config, old(store.queue.recent.calls), store.queue.recent.calls, jobs)
      ensures var start, end := old(StartOf(from)), EndOf(node, to);
              var s := ScanFrom(limits, node.accepts, start, limits.initial, end, 0);
              && WindowsOf(jobs) == s.windows
              && store.Contents() == CommitAll(w, node, old(store.Contents()), jobs, update, allBlocks)
              && r.RangeTooLarge? == s.raised
              && (r.Indexed? ==> r.logs == |GetLogs(w, node, start, end + 1)|)
      ensures from.Some? ==> ScannedFrom(from.value, node, to, r.RangeTooLarge?, jobs)
      ensures from.None? && old(CheckpointOf(store.Contents())).None? ==>
                ScannedFrom(startBlock, node, to, r.RangeTooLarge?, jobs)
      ensures from.None? && old(CheckpointOf(store.Contents())).Some? ==>
                ScannedFrom(old(CheckpointOf(store.Contents())).value + 1, node, to, r.RangeTooLarge?, jobs)
    {
      var start, end := StartOf(from), EndOf(node, to);
      r, jobs := ScanBlocks(w, node, start, end, update, allBlocks, clock);
      ScanCovers(limits, node, to, start, ScanFrom(limits, node.accepts, start, limits.initial, end, 0));
    }

    /** The loop of a scan over the blocks from `start` to `end`. */
    method ScanBlocks(w: World, node: Node, start: nat, end: nat, update: bool, allBlocks: bool,
                      clock: nat -> Recent.Seconds)
        returns (r: Outcome, ghost jobs: seq<Job>)
      requires Usable(limits) && store.queue.recent.Valid()
      modifies store, store.queue`rows, store.queue.recent
      ensures store.queue.recent.Valid()
      ensures AsksAll(w, node, store.queue.recent.config, old(store.queue.recent.calls), store.queue.recent.calls, jobs)
      ensures var s := ScanFrom(limits, node.accepts, start, limits.initial, end, 0);
              && WindowsOf(jobs) == s.windows
              && store.Contents() == CommitAll(w, node, old(store.Contents()), jobs, update, allBlocks)
              && r.RangeTooLarge? == s.raised
              && (r.Indexed? ==> r.logs == |GetLogs(w, node, start, end + 1)|)
    {
      jobs := [];
      var cursor, range, total, calls := start, limits.initial, 0, 0;
      ghost var s := ScanFrom(limits, node.accepts, start, limits.initial, end, 0);
      assert WindowsOf(jobs) + s.windows == s.windows;
      if end < start {
        return Indexed(0), [];
      }
      while cursor <= end
        invariant start <= cursor <= end + 1 && 1 <= range && store.queue.recent.Valid()
        invariant total == |GetLogs(w, node, start, cursor)|
        invariant Ahead(node, limits, s, WindowsOf(jobs), cursor, range, end, calls)
        invariant store.Contents() == CommitAll(w, node, old(store.Contents()), jobs, update, allBlocks)
        invariant AsksAll(w, node, store.queue.recent.config, old(store.queue.recent.calls), store.queue.recent.calls,
                          jobs)
        decreases end + 1 - cursor, range
      {
        ghost var done := jobs;
        var turn;
        turn, jobs := Turn(w, node, cursor, range, end, calls, update, allBlocks, clock(calls),
                           old(store.Contents()), old(store.queue.recent.calls), jobs);
        AheadAfterTurn(w, node, limits, s, done, jobs, cursor, range, end, calls);
        match turn {
          case GaveUp =>
            return RangeTooLarge, jobs;
          case Narrowed(narrower) =>
            range := narrower;
          case Advanced(next, wider, rows) =>
            GetLogsSplit(w, node, start, cursor, next);
            total, cursor, range := total + rows, next, wider;
        }
        calls := calls + 1;
      }
      r := Indexed(total);
    }

    /** One turn of the loop: ask for one window, and commit it or narrow the range. */
    method Turn(w: World, node: Node, cursor: nat, range: nat, end: nat, calls: nat, update: bool, allBlocks: bool,
                at: Recent.Seconds,
                ghost before: Db, ghost asked: seq<Recent.Call>, ghost done: seq<Job>)
        returns (turn: TurnResult, ghost jobs: seq<Job>)
      requires Usable(limits) && cursor <= end && 1 <= range && store.queue.recent.Valid()
      requires store.Contents() == CommitAll(w, node, before, done, update, allBlocks)
      requires AsksAll(w, node, store.queue.recent.config, asked, store.queue.recent.calls, done)
      modifies store, store.queue`rows, store.queue.recent
      ensures store.queue.recent.Valid() && turn == TurnOf(w, node, limits, cursor, range, end, calls)
      ensures store.Contents() == CommitAll(w, node, before, jobs, update, allBlocks)
      ensures AsksAll(w, node, store.queue.recent.config, asked, store.queue.recent.calls, jobs)
      ensures Extends(turn, cursor, done, jobs)
    {
      var upper := UpperBound(cursor, range, end);
      jobs := done;
      if node.accepts(calls, cursor, upper) {
        ghost var mid := store.queue.recent.calls;
        ghost var job;
        var rows;
        rows, job := CommitWindow(w, node, Window(cursor, upper), update, allBlocks, at);
        CommitNext(w, node, before, done, job, update, allBlocks);
        AsksNext(w, node, store.queue.recent.config, asked, mid, store.queue.recent.calls, done, job);
        turn, jobs := Advanced(upper + 1, Doubled(limits, range), rows), done + [job];
        return;
      }
      turn := if range <= limits.minimum then GaveUp else Narrowed(Halved(limits, range));
    }

    method CommitWindow(w: World, node: Node, win: Window, update: bool, allBlocks: bool, at: Recent.Seconds)
        returns (rows: nat, ghost job: Job)
      requires store.queue.recent.Valid()
      modifies store, store.queue`rows, store.queue.recent
      ensures store.queue.recent.Valid() && job.win == win
      ensures Asks(w, node, store.queue.recent.config, old(store.queue.recent.calls), store.queue.recent.calls, job)
      ensures store.Contents() == Commit(w, node, old(store.Contents()), job, update, allBlocks)
      ensures rows == |GetLogs(w, node, win.lo, win.hi + 1)|
    {
      var logs := GetLogs(w, node, win.lo, win.hi + 1);
      var ids := StoreWindow(w, node, win, allBlocks, logs);
      ghost var newIds := store.EnqueueWork(ids, at);
      job := Job(win, newIds);
      if update {
        store.Checkpoint(win.hi);
      }
      store.RecordRange(win, |logs|);
      rows := |logs|;
    }

    method StoreWindow(w: World, node: Node, win: Window, allBlocks: bool, logs: seq<RpcLog>)
        returns (ids: seq<WorkLedger.WorkId>)
      modifies store`blocks, store`logs, store`events, store`clock
      ensures ids == WorkOf(w, logs)
      ensures var db := old(store.Contents());
              var headed := WithBlocks(db, HeaderRows(w, node, win.lo, win.hi + 1, win.hi, allBlocks, db.clock));
              var logged := WithLogs(headed, ToRows(logs, RawLog, headed.clock));
              store.Contents() == WithEvents(logged, ToRows(logs, w.decode, logged.clock))
    {
      store.StoreBlocks(HeaderRows(w, node, win.lo, win.hi + 1, win.hi, allBlocks, store.clock));
      store.StoreRawLogs(ToRows(logs, RawLog, store.clock));
      var decoded;
      decoded, ids := Decode(w, logs, store.clock);
      store.StoreEvents(decoded);
    }

    method Decode(w: World, logs: seq<RpcLog>, version: nat) returns (decoded: Feed, ids: seq<WorkLedger.WorkId>)
      ensures decoded == ToRows(logs, w.decode, version) && ids == WorkOf(w, logs)
    {
      decoded, ids := [], [];
      for i := 0 to |logs|
        invariant decoded == ToRows(logs[..i], w.decode, version) && ids == WorkOf(w, logs[..i])
      {
        assert logs[..i + 1][..i] == logs[..i];
        var event := w.decode(logs[i].hash, logs[i].log);
        if event.None? { continue; }
        decoded := decoded + [Row(IdOf(logs[i]), version, Stored(logs[i].number, event.value, logs[i].removed))];
        ids := ids + w.work(logs[i].hash, logs[i].log);
      }
      assert logs[..|logs|] == logs;
    }

    /** Scan the finality window again, storing every header and leaving the checkpoint alone. */
    method RescanFinalityWindow(w: World, node: Node, finality: nat, clock: nat -> Recent.Seconds)
        returns (r: Outcome, ghost jobs: seq<Job>)
      requires Usable(limits) && store.queue.recent.Valid()
      modifies store, store.queue`rows, store.queue.recent
      ensures store.queue.recent.Valid()
      ensures var start := FinalityStart(node, finality);
              var s := ScanFrom(limits, node.accepts, start, limits.initial, node.safeHead, 0);
              && WindowsOf(jobs) == s.windows
              && store.Contents() == CommitAll(w, node, old(store.Contents()), jobs, false, true)
              && r.RangeTooLarge? == s.raised
              && (r.Indexed? ==> r.logs == |GetLogs(w, node, start, node.safeHead + 1)|)
      ensures r.Indexed? ==> forall n: nat :: Covered(jobs, n) <==> n <= node.safeHead < n + finality
    {
      r, jobs := Scan(w, node, Some(FinalityStart(node, finality)), Some(node.safeHead), false, true, clock);
      if r.Indexed? {
        forall n: nat ensures Covered(jobs, n) <==> n <= node.safeHead < n + finality {
          FinishedScanCovers(FinalityStart(node, finality), node, Some(node.safeHead), jobs, n);
        }
      }
    }

    method RepairRange(w: World, node: Node, from: nat, to: nat, clock: nat -> Recent.Seconds)
        returns (r: Outcome, ghost jobs: seq<Job>)
      requires Usable(limits) && store.queue.recent.Valid()
      modifies store, store.queue`rows, store.queue.recent
      ensures store.queue.recent.Valid()
      ensures var s := ScanFrom(limits, node.accepts, from, limits.initial, EndOf(node, Some(to)), 0);
              && WindowsOf(jobs) == s.windows
              && store.Contents() == CommitAll(w, node, old(store.Contents()), jobs, false, true)
              && r.RangeTooLarge? == s.raised
              && (r.Indexed? ==> r.logs == |GetLogs(w, node, from, EndOf(node, Some(to)) + 1)|)
      ensures r.Indexed? ==> forall n: nat :: Covered(jobs, n) <==> from <= n <= to && n <= node.safeHead
    {
      r, jobs := Scan(w, node, Some(from), Some(to), false, true, clock);
      if r.Indexed? {
        forall n: nat ensures Covered(jobs, n) <==> from <= n <= to && n <= node.safeHead {
          FinishedScanCovers(from, node, Some(to), jobs, n);
        }
      }
    }
  }

  function EndOf(node: Node, to: Option<nat>): nat {
    if to.Some? && to.value < node.safeHead then to.value else node.safeHead
  }

  function FinalityStart(node: Node, finality: nat): nat {
    if node.safeHead + 1 < finality then 0 else node.safeHead + 1 - finality
  }

  lemma {:induction false} GetLogsSplit(w: World, node: Node, lo: nat, mid: nat, next: nat)
    requires lo <= mid <= next
    ensures GetLogs(w, node, lo, next) == GetLogs(w, node, lo, mid) + GetLogs(w, node, mid, next)
  {
    if next <= mid {
    } else {
      var h := node.fork(next - 1);
      var last := BlockLogs(node, next - 1, h, w.block(h).logs);
      GetLogsSplit(w, node, lo, mid, next - 1);
      assert GetLogs(w, node, lo, next) == GetLogs(w, node, lo, next - 1) + last;
      assert GetLogs(w, node, mid, next) == GetLogs(w, node, mid, next - 1) + last;
    }
  }
}
