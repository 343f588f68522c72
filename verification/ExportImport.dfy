/** Importing an export bundle's orders: rows are checked against what the table already holds,
    a batch at a time, file by file; a run may die at any write and be started again. */
module ExportImport {
  import opened VersionedTable
  import opened Sequences

  type Uid = string
  type Hash = string

  /** A row of the `orders` dataset as normalisation sees it: an order with the hash of its
      immutable fields; one whose parsing raises an error the loop catches; or one whose parsing
      raises an error it does not catch, such as a row without an owner. */
  datatype ExportRow = Order(uid: Uid, hash: Hash) | Malformed | Fatal

  type Batch = seq<ExportRow>
  type Orders = Table<Uid, Hash>
  type Hashes = map<Uid, Hash>

  datatype Stats = Stats(accepted: nat, duplicates: nat, rejected: nat, conflicts: nat) {
    function Add(other: Stats): Stats {
      Stats(accepted + other.accepted, duplicates + other.duplicates, rejected + other.rejected,
            conflicts + other.conflicts)
    }

    function Total(): nat {
      accepted + duplicates + rejected + conflicts
    }
  }

  /** The immutable hash FINAL reads for each order. */
  function Known(orders: Orders): Hashes {
    map uid | uid in (set r | r in orders :: r.key) && Final(orders, uid).Some? :: Final(orders, uid).value.value
  }

  // ---------------------------------------------------------------- one batch

  datatype Judgement = Accept | Duplicate | Conflict | Reject | Raise

  function Judge(orders: Orders, row: ExportRow): Judgement {
    if row.Malformed? then Reject
    else if row.Fatal? then Raise
    else
      var existing := Final(orders, row.uid);
      if existing == None then Accept
      else if existing.value.value == row.hash then Duplicate
      else Conflict
  }

  function Accepted(orders: Orders, batch: Batch, now: nat): Orders {
    if batch == [] then []
    else
      var n := |batch| - 1;
      Accepted(orders, batch[..n], now)
      + (if Judge(orders, batch[n]).Accept? then [Row(batch[n].uid, now, batch[n].hash)] else [])
  }

  function Count(orders: Orders, batch: Batch, j: Judgement): nat {
    if batch == [] then 0
    else Count(orders, batch[..|batch| - 1], j) + (if Judge(orders, batch[|batch| - 1]) == j then 1 else 0)
  }

  function StatsOf(orders: Orders, batch: Batch): Stats {
    Stats(Count(orders, batch, Accept), Count(orders, batch, Duplicate), Count(orders, batch, Reject),
          Count(orders, batch, Conflict))
  }

  predicate HasFatal(batch: Batch) {
    exists i :: 0 <= i < |batch| && batch[i].Fatal?
  }

  lemma JudgeNext(orders: Orders, batch: Batch, i: nat, now: nat)
    requires i < |batch|
    ensures var j, before := Judge(orders, batch[i]), StatsOf(orders, batch[..i]);
            && StatsOf(orders, batch[..i + 1]) ==
                 (match j
                  case Accept => before.(accepted := before.accepted + 1)
                  case Duplicate => before.(duplicates := before.duplicates + 1)
                  case Reject => before.(rejected := before.rejected + 1)
                  case Conflict => before.(conflicts := before.conflicts + 1)
                  case Raise => before)
            && Accepted(orders, batch[..i + 1], now) ==
                 Accepted(orders, batch[..i], now) + (if j.Accept? then [Row(batch[i].uid, now, batch[i].hash)] else [])
  {
    assert batch[..i + 1][..i] == batch[..i];
  }

  /** Sort a batch's rows. Every row is compared with the table as it was before the batch. The
      batch is judged to its end if and only if no row of it is fatal; otherwise nothing of it
      is kept. */
  method NormalizeOrders(orders: Orders, batch: Batch, now: nat)
      returns (raised: bool, stats: Stats, output: Orders, conflicts: Batch)
    ensures raised <==> HasFatal(batch)
    ensures raised ==> stats == Stats(0, 0, 0, 0) && output == [] && conflicts == []
    ensures !raised ==> stats == StatsOf(orders, batch) && stats.Total() == |batch|
    ensures !raised ==> output == Accepted(orders, batch, now)
    ensures |conflicts| == stats.conflicts && forall row | row in conflicts :: Judge(orders, row).Conflict?
  {
    raised, stats, output, conflicts := false, Stats(0, 0, 0, 0), [], [];
    for i := 0 to |batch|
      invariant forall k | 0 <= k < i :: !batch[k].Fatal?
      invariant stats == StatsOf(orders, batch[..i]) && stats.Total() == i
      invariant output == Accepted(orders, batch[..i], now)
      invariant |conflicts| == stats.conflicts && forall row | row in conflicts :: Judge(orders, row).Conflict?
    {
      JudgeNext(orders, batch, i, now);
      match batch[i] {
        case Fatal =>
          return true, Stats(0, 0, 0, 0), [], [];
        case Malformed => stats := stats.(rejected := stats.rejected + 1);
        case Order(uid, hash) =>
          var existing := Final(orders, uid);
          if existing.Some? && existing.value.value == hash {
            stats := stats.(duplicates := stats.duplicates + 1);
            continue;
          }
          if existing.Some? {
            stats := stats.(conflicts := stats.conflicts + 1);
            conflicts := conflicts + [batch[i]];
            continue;
          }
          output := output + [Row(uid, now, hash)];
          stats := stats.(accepted := stats.accepted + 1);
      }
    }
    assert batch[..|batch|] == batch;
  }

  /** The rows of a batch that are judged so. */
  function Judged(orders: Orders, batch: Batch, j: Judgement): set<int> {
    set i | 0 <= i < |batch| && Judge(orders, batch[i]) == j
  }

  lemma JudgedStep(orders: Orders, batch: Batch, j: Judgement)
    requires batch != []
    ensures var n := |batch| - 1;
            && n !in Judged(orders, batch[..n], j)
            && Judged(orders, batch, j)
                 == Judged(orders, batch[..n], j) + (if Judge(orders, batch[n]) == j then {n} else {})
  {
    assert forall i | 0 <= i < |batch| - 1 :: batch[..|batch| - 1][i] == batch[i];
  }

  lemma {:induction false} CountIsCount(orders: Orders, batch: Batch, j: Judgement)
    ensures Count(orders, batch, j) == |Judged(orders, batch, j)|
  {
    if batch == [] {
    } else {
      CountIsCount(orders, batch[..|batch| - 1], j);
      JudgedStep(orders, batch, j);
    }
  }

  predicate Repeats(known: Hashes, row: ExportRow) {
    row.Order? && row.uid in known && known[row.uid] == row.hash
  }

  predicate Clashes(known: Hashes, row: ExportRow) {
    row.Order? && row.uid in known && known[row.uid] != row.hash
  }

  /** What the counts mean, for a batch that is judged to its end: new orders, orders the table
      holds with the same hash or with another, and malformed rows. */
  lemma StatsCountRows(orders: Orders, batch: Batch)
    ensures var stats, known := StatsOf(orders, batch), Known(orders);
            && stats.accepted == |set i | 0 <= i < |batch| && batch[i].Order? && batch[i].uid !in known|
            && stats.duplicates == |set i | 0 <= i < |batch| && Repeats(known, batch[i])|
            && stats.conflicts == |set i | 0 <= i < |batch| && Clashes(known, batch[i])|
            && stats.rejected == |set i | 0 <= i < |batch| && batch[i].Malformed?|
  {
    var known := Known(orders);
    CountIsCount(orders, batch, Accept);
    CountIsCount(orders, batch, Duplicate);
    CountIsCount(orders, batch, Conflict);
    CountIsCount(orders, batch, Reject);
    forall i | 0 <= i < |batch| ensures ByHash(orders, batch[i]) { JudgedByHash(orders, batch[i]); }
    assert Judged(orders, batch, Accept) == set i | 0 <= i < |batch| && batch[i].Order? && batch[i].uid !in known;
    assert Judged(orders, batch, Duplicate) == set i | 0 <= i < |batch| && Repeats(known, batch[i]);
    assert Judged(orders, batch, Conflict) == set i | 0 <= i < |batch| && Clashes(known, batch[i]);
    assert Judged(orders, batch, Reject) == set i | 0 <= i < |batch| && batch[i].Malformed?;
  }

  /** The last row of a uid in a batch. */
  function LastIn(batch: Batch, uid: Uid): Option<Hash> {
    if batch == [] then None
    else
      var n := |batch| - 1;
      if batch[n].Order? && batch[n].uid == uid then Some(batch[n].hash) else LastIn(batch[..n], uid)
  }

  function UidsIn(batch: Batch): set<Uid> {
    set row | row in batch && row.Order? :: row.uid
  }

  /** What a batch does to the known hashes: a new uid takes its last row in the batch, and a
      known uid keeps its hash. */
  function Learn(known: Hashes, batch: Batch): Hashes {
    map uid | uid in known.Keys + UidsIn(batch) && (uid in known || LastIn(batch, uid).Some?) ::
      if uid in known then known[uid] else LastIn(batch, uid).value
  }

  lemma {:induction false} LastInFinds(batch: Batch, uid: Uid)
    ensures LastIn(batch, uid).Some? <==> uid in UidsIn(batch)
  {
    if batch == [] {
    } else {
      var n := |batch| - 1;
      LastInFinds(batch[..n], uid);
      assert batch == batch[..n] + [batch[n]];
      if uid in UidsIn(batch) {
        var row :| row in batch && row.Order? && row.uid == uid;
      }
    }
  }

  lemma LearnKeys(known: Hashes, batch: Batch)
    ensures Learn(known, batch).Keys == known.Keys + UidsIn(batch)
    ensures forall uid | uid in known :: Learn(known, batch)[uid] == known[uid]
  {
    forall uid | uid in UidsIn(batch) ensures LastIn(batch, uid).Some? { LastInFinds(batch, uid); }
  }

  lemma KnownIsFinal(orders: Orders, uid: Uid)
    ensures uid in Known(orders) <==> Final(orders, uid).Some?
    ensures uid in Known(orders) ==> Known(orders)[uid] == Final(orders, uid).value.value
  {
    if Final(orders, uid).Some? {
      assert Final(orders, uid).value in orders;
    }
  }

  /** A row is judged by the hash the table holds for its uid. */
  predicate ByHash(orders: Orders, row: ExportRow) {
    var known := Known(orders);
    match Judge(orders, row)
    case Accept => row.Order? && row.uid !in known
    case Duplicate => Repeats(known, row)
    case Conflict => Clashes(known, row)
    case Reject => row.Malformed?
    case Raise => row.Fatal?
  }

  lemma JudgedByHash(orders: Orders, row: ExportRow)
    ensures ByHash(orders, row)
  {
    if row.Order? { KnownIsFinal(orders, row.uid); }
  }

  /** The row under which a batch makes `uid` known, if it does. */
  function NewRow(orders: Orders, batch: Batch, now: nat, uid: Uid): Option<Row<Uid, Hash>> {
    if Final(orders, uid).Some? || LastIn(batch, uid).None? then None
    else Some(Row(uid, now, LastIn(batch, uid).value))
  }

  lemma LastInStep(batch: Batch, uid: Uid)
    requires batch != []
    ensures var last := batch[|batch| - 1];
            LastIn(batch, uid) ==
              if last.Order? && last.uid == uid then Some(last.hash) else LastIn(batch[..|batch| - 1], uid)
  {
  }

  lemma NewRowStep(orders: Orders, batch: Batch, now: nat, uid: Uid, before: Orders)
    requires batch != []
    requires Final(before, uid) == NewRow(orders, batch[..|batch| - 1], now, uid)
    ensures var last := batch[|batch| - 1];
            Final(before + (if Judge(orders, last).Accept? then [Row(last.uid, now, last.hash)] else []), uid)
              == NewRow(orders, batch, now, uid)
  {
    var last := batch[|batch| - 1];
    LastInStep(batch, uid);
    if Judge(orders, last).Accept? {
      FinalOfPush(before, Row(last.uid, now, last.hash), uid);
    } else {
      assert before + [] == before;
    }
  }

  lemma {:induction false} AcceptedFinal(orders: Orders, batch: Batch, now: nat, uid: Uid)
    ensures Final(Accepted(orders, batch, now), uid) == NewRow(orders, batch, now, uid)
  {
    if batch == [] {
    } else {
      AcceptedFinal(orders, batch[..|batch| - 1], now, uid);
      NewRowStep(orders, batch, now, uid, Accepted(orders, batch[..|batch| - 1], now));
    }
  }

  /** Inserting what normalisation accepted has exactly the effect `Learn` describes: no hash
      known before the batch changes, and inside the batch the last row of a new uid wins. */
  lemma BatchLearns(orders: Orders, batch: Batch, now: nat)
    ensures Known(orders + Accepted(orders, batch, now)) == Learn(Known(orders), batch)
  {
    var after := orders + Accepted(orders, batch, now);
    LearnKeys(Known(orders), batch);
    forall uid
      ensures uid in Known(after) <==> uid in Learn(Known(orders), batch)
      ensures uid in Known(after) ==> Known(after)[uid] == Learn(Known(orders), batch)[uid]
    {
      AcceptedFinal(orders, batch, now, uid);
      FinalOfAppend(orders, Accepted(orders, batch, now), uid);
      KnownIsFinal(orders, uid);
      KnownIsFinal(after, uid);
      LastInFinds(batch, uid);
    }
  }

  /** Judged again after its batch was inserted, a row is a duplicate if the table now holds its
      hash and a conflict if it holds another; nothing is accepted twice. */
  lemma ReimportAcceptsNothing(orders: Orders, batch: Batch, now: nat, row: ExportRow)
    requires row in batch
    ensures var after := orders + Accepted(orders, batch, now);
            if row.Malformed? then Judge(after, row).Reject?
            else if row.Fatal? then Judge(after, row).Raise?
            else
              && row.uid in Known(after)
              && (Judge(after, row).Duplicate? <==> Known(after)[row.uid] == row.hash)
              && (Judge(after, row).Conflict? <==> Known(after)[row.uid] != row.hash)
  {
    var after := orders + Accepted(orders, batch, now);
    if row.Order? {
      assert row.uid in UidsIn(batch);
      BatchLearns(orders, batch, now);
      LearnKeys(Known(orders), batch);
      KnownIsFinal(after, row.uid);
    }
  }

  // ---------------------------------------------------------------- a bundle, with crashes

  /** A file of the manifest. Its key (dataset, path, checksum) determines its content. */
  datatype File = File(key: string, batches: seq<Batch>, valid: bool)

  predicate KeysNameContent(files: seq<File>) {
    forall i, j | 0 <= i < |files| && 0 <= j < |files| && files[i].key == files[j].key :: files[i] == files[j]
  }

  /** Where a run stands: what is known, which files are recorded complete, how many more writes
      it will live for, and how many rows it has handled. */
  datatype Progress = Progress(known: Hashes, complete: set<string>, left: nat, alive: bool, rows: nat)

  function ImportBatches(batches: seq<Batch>, p: Progress): Progress {
    if batches == [] || !p.alive then p
    else if p.left == 0 || HasFatal(batches[0]) then p.(alive := false)
    else ImportBatches(batches[1..], p.(known := Learn(p.known, batches[0]), left := p.left - 1,
                                        rows := p.rows + |batches[0]|))
  }

  function ImportOne(file: File, p: Progress): Progress {
    if file.key in p.complete then p
    else if !file.valid then p.(alive := false)
    else
      var q := ImportBatches(file.batches, p);
      if !q.alive || q.left == 0 then q.(alive := false)
      else q.(complete := q.complete + {file.key}, left := q.left - 1)
  }

  function ImportFiles(files: seq<File>, p: Progress): Progress {
    if files == [] || !p.alive then p else ImportFiles(files[1..], ImportOne(files[0], p))
  }

  class Importer {
    var orders: Orders
    var complete: set<string>
    var clock: nat

    constructor (orders: Orders)
      ensures this.orders == orders && complete == {}
    {
      this.orders, complete, clock := orders, {}, 0;
    }

    /** One run over a bundle. It dies after `writes` durable writes: inserted order batches and
        recorded files; an invalid file also ends it. */
    method RunImport(files: seq<File>, writes: nat) returns (finished: bool, stats: Stats)
      modifies this
      ensures var p := ImportFiles(files, Progress(Known(old(orders)), old(complete), writes, true, 0));
              && Known(orders) == p.known && complete == p.complete && finished == p.alive
              && stats.Total() == p.rows
    {
      stats := Stats(0, 0, 0, 0);
      var left := writes;
      ghost var start := Progress(Known(orders), complete, writes, true, 0);
      assert files[0..] == files;
      for i := 0 to |files|
        invariant ImportFiles(files, start) ==
                    ImportFiles(files[i..], Progress(Known(orders), complete, left, true, stats.Total()))
      {
        assert files[i..][1..] == files[i + 1..];
        var alive, fileStats;
        alive, left, fileStats := ImportNext(files[i], left, stats.Total());
        stats := stats.Add(fileStats);
        if !alive {
          return false, stats;
        }
      }
      finished := true;
    }

    /** One file: skipped if recorded complete, and recorded complete after its last batch. */
    method ImportNext(file: File, writes: nat, ghost before: nat) returns (alive: bool, left: nat, stats: Stats)
      modifies this
      ensures ImportOne(file, Progress(Known(old(orders)), old(complete), writes, true, before))
              == Progress(Known(orders), complete, left, alive, before + stats.Total())
    {
      ghost var p := Progress(Known(orders), complete, writes, true, before);
      alive, left, stats := true, writes, Stats(0, 0, 0, 0);
      if file.key in complete {
        assert ImportOne(file, p) == p;
        return;
      }
      if !file.valid {
        alive := false;
        assert ImportOne(file, p) == p.(alive := false);
        return;
      }
      alive, left, stats := ImportFile(file.batches, writes, before);
      ghost var q := Progress(Known(orders), complete, left, alive, before + stats.Total());
      assert ImportBatches(file.batches, p) == q;
      if !alive || left == 0 {
        alive := false;
        assert ImportOne(file, p) == q.(alive := false);
        return;
      }
      assert ImportOne(file, p) == q.(complete := q.complete + {file.key}, left := q.left - 1);
      complete := complete + {file.key};
      left := left - 1;
    }

    method ImportFile(batches: seq<Batch>, writes: nat, ghost before: nat)
        returns (alive: bool, left: nat, stats: Stats)
      modifies this`orders, this`clock
      ensures ImportBatches(batches, Progress(Known(old(orders)), complete, writes, true, before))
              == Progress(Known(orders), complete, left, alive, before + stats.Total())
    {
      alive, left, stats := true, writes, Stats(0, 0, 0, 0);
      ghost var start := Progress(Known(orders), complete, writes, true, before);
      assert batches[0..] == batches;
      for i := 0 to |batches|
        invariant ImportBatches(batches, start) ==
                    ImportBatches(batches[i..], Progress(Known(orders), complete, left, true, before + stats.Total()))
      {
        assert batches[i..][1..] == batches[i + 1..];
        if left == 0 {
          alive := false;
          return;
        }
        var raised, batchStats, output, conflicts := NormalizeOrders(orders, batches[i], clock);
        if raised {
          alive := false;
          return;
        }
        BatchLearns(orders, batches[i], clock);
        orders := orders + output;
        clock := clock + 1;
        left := left - 1;
        stats := stats.Add(batchStats);
      }
    }
  }

  // ---------------------------------------------------------------- resuming

  function LearnAll(known: Hashes, batches: seq<Batch>): Hashes {
    if batches == [] then known
    else Learn(LearnAll(known, batches[..|batches| - 1]), batches[|batches| - 1])
  }

  function AllBatches(files: seq<File>): seq<Batch> {
    if files == [] then [] else files[0].batches + AllBatches(files[1..])
  }

  /** What an uninterrupted run over the whole bundle knows. */
  function Imported(known: Hashes, files: seq<File>): Hashes {
    LearnAll(known, AllBatches(files))
  }

  predicate KnowsBatches(known: Hashes, batches: seq<Batch>) {
    forall i | 0 <= i < |batches| :: UidsIn(batches[i]) <= known.Keys
  }

  lemma LearnKnownIsNothing(known: Hashes, batch: Batch)
    requires UidsIn(batch) <= known.Keys
    ensures Learn(known, batch) == known
  {
    LearnKeys(known, batch);
  }

  lemma {:induction false} LearnAllKnows(known: Hashes, batches: seq<Batch>)
    ensures known.Keys <= LearnAll(known, batches).Keys
    ensures forall uid | uid in known :: LearnAll(known, batches)[uid] == known[uid]
    ensures KnowsBatches(LearnAll(known, batches), batches)
  {
    if batches == [] {
    } else {
      var n := |batches| - 1;
      LearnAllKnows(known, batches[..n]);
      LearnKeys(LearnAll(known, batches[..n]), batches[n]);
      assert forall i | 0 <= i < n :: batches[i] == batches[..n][i];
    }
  }

  /** The position a run has reached in the bundle: `all[..k]` has been learned by this or an
      earlier run, and this run is at batch `j`. */
  function Reached(k: nat, j: nat): nat {
    if k < j then j else k
  }

  predicate At(base: Hashes, all: seq<Batch>, k: nat, j: nat, known: Hashes) {
    k <= |all| && j <= |all| && known == LearnAll(base, all[..Reached(k, j)])
  }

  lemma LearnNext(base: Hashes, all: seq<Batch>, k: nat, j: nat, known: Hashes)
    requires At(base, all, k, j, known) && j < |all|
    ensures At(base, all, k, j + 1, Learn(known, all[j]))
  {
    var r := Reached(k, j);
    if r == j {
      assert all[..j + 1][..j] == all[..j];
    } else {
      LearnAllKnows(base, all[..r]);
      assert all[..r][j] == all[j];
      LearnKnownIsNothing(known, all[j]);
    }
  }

  lemma {:induction false} SkipKnown(base: Hashes, all: seq<Batch>, k: nat, j: nat, m: nat, known: Hashes)
    requires At(base, all, k, j, known) && j <= m <= |all| && KnowsBatches(known, all[j..m])
    ensures At(base, all, k, m, known)
    decreases m - j
  {
    if j == m {
    } else {
      assert all[j..m][0] == all[j] && all[j..m][1..] == all[j + 1..m];
      LearnNext(base, all, k, j, known);
      LearnKnownIsNothing(known, all[j]);
      SkipKnown(base, all, k, j + 1, m, known);
    }
  }

  function AfterBatch(batch: Batch, p: Progress): Progress
    requires p.left > 0
  {
    p.(known := Learn(p.known, batch), left := p.left - 1, rows := p.rows + |batch|)
  }

  predicate Stops(batches: seq<Batch>, p: Progress) {
    batches == [] || p.left == 0 || HasFatal(batches[0])
  }

  lemma BatchesNext(batches: seq<Batch>, p: Progress)
    requires p.alive && !Stops(batches, p)
    ensures ImportBatches(batches, p) == ImportBatches(batches[1..], AfterBatch(batches[0], p))
  {
  }

  lemma {:induction false} BatchesGrow(batches: seq<Batch>, p: Progress)
    requires p.alive
    ensures var q := ImportBatches(batches, p);
            && q.complete == p.complete && p.known.Keys <= q.known.Keys
            && (q.alive ==> KnowsBatches(q.known, batches))
    decreases |batches|
  {
    if Stops(batches, p) {
    } else {
      var p' := AfterBatch(batches[0], p);
      LearnKeys(p.known, batches[0]);
      BatchesNext(batches, p);
      BatchesGrow(batches[1..], p');
      KnowsOneMore(ImportBatches(batches[1..], p').known, batches);
    }
  }

  lemma {:induction false} BatchesAdvance(base: Hashes, all: seq<Batch>, k: nat, j: nat, batches: seq<Batch>,
                                          p: Progress)
      returns (m: nat)
    requires At(base, all, k, j, p.known) && p.alive
    requires j + |batches| <= |all| && all[j..j + |batches|] == batches
    ensures j <= m <= j + |batches|
    ensures var q := ImportBatches(batches, p);
            && At(base, all, k, m, q.known) && (q.alive ==> m == j + |batches|)
    decreases |batches|
  {
    if Stops(batches, p) {
      m := j;
    } else {
      var p' := AfterBatch(batches[0], p);
      SliceNext(all, j, batches);
      LearnNext(base, all, k, j, p.known);
      BatchesNext(batches, p);
      m := BatchesAdvance(base, all, k, j + 1, batches[1..], p');
    }
  }

  lemma SliceNext(all: seq<Batch>, j: nat, batches: seq<Batch>)
    requires batches != [] && j + |batches| <= |all| && all[j..j + |batches|] == batches
    ensures all[j] == batches[0] && all[j + 1..j + 1 + |batches[1..]|] == batches[1..]
  {
    assert all[j..j + |batches|][0] == all[j];
  }

  lemma KnowsOneMore(known: Hashes, batches: seq<Batch>)
    requires batches != [] && UidsIn(batches[0]) <= known.Keys
    ensures KnowsBatches(known, batches[1..]) ==> KnowsBatches(known, batches)
  {
    assert forall i | 1 <= i < |batches| :: batches[i] == batches[1..][i - 1];
  }

  /** Files recorded complete hold nothing unknown. */
  predicate CompleteIsKnown(files: seq<File>, complete: set<string>, known: Hashes) {
    forall i | 0 <= i < |files| && files[i].key in complete :: KnowsBatches(known, files[i].batches)
  }

  lemma KnowsMore(files: seq<File>, complete: set<string>, known: Hashes, more: Hashes)
    requires CompleteIsKnown(files, complete, known) && known.Keys <= more.Keys
    ensures CompleteIsKnown(files, complete, more)
  {
  }

  lemma OneFileAdvances(base: Hashes, files: seq<File>, k: nat, i: nat, j: nat, p: Progress) returns (m: nat)
    requires KeysNameContent(files) && i < |files| && p.alive
    requires At(base, AllBatches(files), k, j, p.known) && CompleteIsKnown(files, p.complete, p.known)
    requires j + |files[i].batches| <= |AllBatches(files)|
    requires AllBatches(files)[j..j + |files[i].batches|] == files[i].batches
    ensures var q := ImportOne(files[i], p);
            && At(base, AllBatches(files), k, m, q.known) && CompleteIsKnown(files, q.complete, q.known)
            && (q.alive ==> m == j + |files[i].batches|)
  {
    var all, f := AllBatches(files), files[i];
    if f.key in p.complete {
      m := j + |f.batches|;
      SkipKnown(base, all, k, j, m, p.known);
    } else if !f.valid {
      m := j;
    } else {
      m := BatchesAdvance(base, all, k, j, f.batches, p);
      BatchesGrow(f.batches, p);
      KnowsMore(files, p.complete, p.known, ImportBatches(f.batches, p).known);
    }
  }

  lemma AllBatchesFrom(files: seq<File>, i: nat, j: nat)
    requires i < |files| && j <= |AllBatches(files)| && AllBatches(files[i..]) == AllBatches(files)[j..]
    ensures var next := j + |files[i].batches|;
            && next <= |AllBatches(files)| && AllBatches(files)[j..next] == files[i].batches
            && AllBatches(files[i + 1..]) == AllBatches(files)[next..]
  {
    var all, b := AllBatches(files), files[i].batches;
    assert files[i..][1..] == files[i + 1..];
    assert all[j..] == b + AllBatches(files[i + 1..]);
    assert all[j..][..|b|] == b && all[j..][|b|..] == AllBatches(files[i + 1..]);
  }

  lemma {:induction false} FilesAdvance(base: Hashes, files: seq<File>, k: nat, i: nat, j: nat, p: Progress)
      returns (m: nat)
    requires KeysNameContent(files) && i <= |files| && p.alive
    requires At(base, AllBatches(files), k, j, p.known) && AllBatches(files[i..]) == AllBatches(files)[j..]
    requires CompleteIsKnown(files, p.complete, p.known)
    ensures var q := ImportFiles(files[i..], p);
            && At(base, AllBatches(files), k, m, q.known) && CompleteIsKnown(files, q.complete, q.known)
            && (q.alive ==> m == |AllBatches(files)|)
    decreases |files| - i
  {
    if i == |files| {
      m := j;
    } else {
      AllBatchesFrom(files, i, j);
      assert files[i..][1..] == files[i + 1..];
      m := OneFileAdvances(base, files, k, i, j, p);
      var q := ImportOne(files[i], p);
      if q.alive {
        m := FilesAdvance(base, files, k, i + 1, m, q);
      }
    }
  }

  /** What a sequence of runs leaves behind, the i-th dying after `schedule[i]` writes. */
  function AfterRuns(files: seq<File>, start: Progress, schedule: seq<nat>): Progress {
    if schedule == [] then start
    else
      var n := |schedule| - 1;
      var before := AfterRuns(files, start, schedule[..n]);
      ImportFiles(files, Progress(before.known, before.complete, schedule[n], true, 0))
  }

  lemma {:induction false} RunsAdvance(files: seq<File>, start: Progress, schedule: seq<nat>) returns (k: nat)
    requires KeysNameContent(files) && start.complete == {}
    ensures var all, p := AllBatches(files), AfterRuns(files, start, schedule);
            && k <= |all| && p.known == LearnAll(start.known, all[..k]) && CompleteIsKnown(files, p.complete, p.known)
            && (schedule != [] && p.alive ==> k == |all|)
  {
    if schedule == [] {
      k := 0;
    } else {
      var n := |schedule| - 1;
      var before := AfterRuns(files, start, schedule[..n]);
      k := RunsAdvance(files, start, schedule[..n]);
      assert files[0..] == files;
      var m := FilesAdvance(start.known, files, k, 0, 0, Progress(before.known, before.complete, schedule[n], true, 0));
      k := Reached(k, m);
    }
  }

  /** Resuming: after any schedule of crashes and reruns whose last run finishes, the known
      hashes are those of one uninterrupted run over the bundle. */
  lemma ResumedImportIsUninterrupted(files: seq<File>, known: Hashes, schedule: seq<nat>)
    requires KeysNameContent(files) && schedule != []
    ensures var p := AfterRuns(files, Progress(known, {}, 0, true, 0), schedule);
            p.alive ==> p.known == Imported(known, files)
  {
    var k := RunsAdvance(files, Progress(known, {}, 0, true, 0), schedule);
    assert AllBatches(files)[..|AllBatches(files)|] == AllBatches(files);
  }

  /** Whatever the schedule, finished or not, no hash known at the start is ever changed. */
  lemma ImportsNeverOverwrite(files: seq<File>, known: Hashes, schedule: seq<nat>, uid: Uid)
    requires KeysNameContent(files) && uid in known
    ensures var p := AfterRuns(files, Progress(known, {}, 0, true, 0), schedule);
            uid in p.known && p.known[uid] == known[uid]
  {
    var k := RunsAdvance(files, Progress(known, {}, 0, true, 0), schedule);
    LearnAllKnows(known, AllBatches(files)[..k]);
  }

  // ---------------------------------------------------------------- what a run leaves behind

  /** A run that dies after some writes has inserted that many batches of its file, and no more. */
  lemma {:induction false} BatchesByWrites(batches: seq<Batch>, p: Progress)
    requires p.alive && forall i | 0 <= i < |batches| :: !HasFatal(batches[i])
    ensures var q, n := ImportBatches(batches, p), if p.left < |batches| then p.left else |batches|;
            && q.known == LearnAll(p.known, batches[..n]) && q.left == p.left - n
            && q.rows == p.rows + |Flatten(batches[..n])| && q.complete == p.complete
            && (q.alive <==> |batches| <= p.left)
    decreases |batches|
  {
    if Stops(batches, p) {
      assert batches[..0] == [];
    } else {
      var n := if p.left < |batches| then p.left else |batches|;
      BatchesByWrites(batches[1..], AfterBatch(batches[0], p));
      BatchesNext(batches, p);
      LearnAllFromFirst(p.known, batches, n);
    }
  }

  lemma LearnAllFromFirst(known: Hashes, batches: seq<Batch>, n: nat)
    requires 1 <= n <= |batches|
    ensures LearnAll(known, batches[..n]) == LearnAll(Learn(known, batches[0]), batches[1..][..n - 1])
    ensures Flatten(batches[..n]) == batches[0] + Flatten(batches[1..][..n - 1])
  {
    var first, rest := [batches[0]], batches[1..][..n - 1];
    assert batches[..n] == first + rest && first[..0] == [] && (first + rest)[1..] == rest;
    LearnAllSplits(known, first, rest);
    assert LearnAll(known, first) == Learn(LearnAll(known, []), batches[0]);
  }

  /** A file takes one write for each batch and one more that records it complete; a run that
      dies before that one leaves the file to be imported again. */
  lemma FileByWrites(file: File, p: Progress)
    requires p.alive && file.key !in p.complete && FileOk(file)
    ensures var q := ImportOne(file, p);
            && (file.key in q.complete <==> |file.batches| < p.left) && (q.alive <==> |file.batches| < p.left)
            && (q.alive ==>
                  && q.known == LearnAll(p.known, file.batches) && q.complete == p.complete + {file.key}
                  && q.left == p.left - |file.batches| - 1 && q.rows == p.rows + |Flatten(file.batches)|)
            && (!q.alive ==> q.known == LearnAll(p.known, file.batches[..p.left]) && q.complete == p.complete)
  {
    BatchesByWrites(file.batches, p);
    assert file.batches[..|file.batches|] == file.batches;
  }

  /** A run that finishes has recorded every file of the bundle, and no run records any other. */
  lemma {:induction false} FinishedRunRecordsItsFiles(files: seq<File>, p: Progress)
    ensures var q := ImportFiles(files, p);
            && p.complete <= q.complete && (q.alive ==> forall f | f in files :: f.key in q.complete)
            && forall key | key in q.complete && key !in p.complete :: exists f :: f in files && f.key == key
    decreases |files|
  {
    if files == [] || !p.alive {
    } else {
      BatchesKeepComplete(files[0].batches, p);
      FinishedRunRecordsItsFiles(files[1..], ImportOne(files[0], p));
      assert forall f | f in files :: f == files[0] || f in files[1..];
      assert files[0] in files && forall f | f in files[1..] :: f in files;
    }
  }

  /** Files recorded complete are skipped. */
  lemma {:induction false} CompleteFilesAreSkipped(files: seq<File>, p: Progress)
    requires forall f | f in files :: f.key in p.complete
    ensures ImportFiles(files, p) == p
  {
    if files == [] || !p.alive {
    } else {
      assert files[0] in files && forall f | f in files[1..] :: f in files;
      CompleteFilesAreSkipped(files[1..], p);
    }
  }

  /** Once a run over a bundle has finished, another finishes at once: it writes nothing and reads
      no row, even if it could not live for a single write. */
  lemma FinishedBundleStaysFinished(files: seq<File>, start: Progress, schedule: seq<nat>, writes: nat)
    requires schedule != [] && AfterRuns(files, start, schedule).alive
    ensures AfterRuns(files, start, schedule + [writes])
              == AfterRuns(files, start, schedule).(left := writes, alive := true, rows := 0)
  {
    var before, n := AfterRuns(files, start, schedule), |schedule| - 1;
    var earlier := AfterRuns(files, start, schedule[..n]);
    FinishedRunRecordsItsFiles(files, Progress(earlier.known, earlier.complete, schedule[n], true, 0));
    assert (schedule + [writes])[..|schedule|] == schedule;
    CompleteFilesAreSkipped(files, Progress(before.known, before.complete, writes, true, 0));
  }

  /** A file is recorded complete only after all of it was imported, whatever the schedule and
      whether or not the last run finished. */
  lemma CompleteFilesAreImported(files: seq<File>, known: Hashes, schedule: seq<nat>, file: File, row: ExportRow)
    requires KeysNameContent(files) && file in files && row in Flatten(file.batches) && row.Order?
    ensures var p := AfterRuns(files, Progress(known, {}, 0, true, 0), schedule);
            file.key in p.complete ==> row.uid in p.known
  {
    var k := RunsAdvance(files, Progress(known, {}, 0, true, 0), schedule);
    var p := AfterRuns(files, Progress(known, {}, 0, true, 0), schedule);
    if file.key in p.complete {
      var i :| 0 <= i < |files| && files[i] == file;
      var b := BatchOf(file.batches, row);
      assert row.uid in UidsIn(file.batches[b]);
    }
  }

  lemma {:induction false} BatchOf(batches: seq<Batch>, row: ExportRow) returns (b: nat)
    requires row in Flatten(batches)
    ensures b < |batches| && row in batches[b]
  {
    if row in batches[0] {
      b := 0;
    } else {
      b := BatchOf(batches[1..], row);
      b := b + 1;
    }
  }

  // ---------------------------------------------------------------- which bundles can be finished

  predicate FileOk(f: File) {
    f.valid && forall i | 0 <= i < |f.batches| :: !HasFatal(f.batches[i])
  }

  predicate BundleOk(files: seq<File>, complete: set<string>) {
    forall i | 0 <= i < |files| :: files[i].key in complete || FileOk(files[i])
  }

  lemma {:induction false} FatalBatchKills(batches: seq<Batch>, p: Progress, i: nat)
    requires i < |batches| && HasFatal(batches[i])
    ensures !ImportBatches(batches, p).alive && ImportBatches(batches, p).complete == p.complete
    decreases |batches|
  {
    if !p.alive || p.left == 0 || HasFatal(batches[0]) {
    } else {
      FatalBatchKills(batches[1..], AfterBatch(batches[0], p), i - 1);
    }
  }

  lemma {:induction false} BatchesKeepComplete(batches: seq<Batch>, p: Progress)
    ensures ImportBatches(batches, p).complete == p.complete
    decreases |batches|
  {
    if batches == [] || !p.alive || p.left == 0 || HasFatal(batches[0]) {
    } else {
      BatchesKeepComplete(batches[1..], AfterBatch(batches[0], p));
    }
  }

  /** A file that is not acceptable is never completed, and no run gets past it. */
  lemma {:induction false} BadFileStops(files: seq<File>, p: Progress, bad: File)
    requires !FileOk(bad) && bad.key !in p.complete && forall f | f in files && f.key == bad.key :: f == bad
    ensures bad.key !in ImportFiles(files, p).complete
    ensures bad in files ==> !ImportFiles(files, p).alive
    decreases |files|
  {
    if files == [] || !p.alive {
    } else {
      BadFileDies(files[0], p, bad);
      assert forall f | f in files[1..] :: f in files;
      assert bad in files ==> files[0] == bad || bad in files[1..];
      BadFileStops(files[1..], ImportOne(files[0], p), bad);
    }
  }

  lemma BadFileDies(f: File, p: Progress, bad: File)
    requires !FileOk(bad) && bad.key !in p.complete && (f.key == bad.key ==> f == bad)
    ensures bad.key !in ImportOne(f, p).complete && (f == bad ==> !ImportOne(f, p).alive)
  {
    BatchesKeepComplete(f.batches, p);
    if f == bad && f.valid {
      var i :| 0 <= i < |f.batches| && HasFatal(f.batches[i]);
      FatalBatchKills(f.batches, p, i);
    }
  }

  /** Every rerun of a bundle with such a file dies. */
  lemma {:induction false} BadBundleNeverFinishes(files: seq<File>, start: Progress, schedule: seq<nat>, bad: File)
    requires KeysNameContent(files) && bad in files && !FileOk(bad) && bad.key !in start.complete
    ensures bad.key !in AfterRuns(files, start, schedule).complete
    ensures schedule != [] ==> !AfterRuns(files, start, schedule).alive
  {
    if schedule == [] {
    } else {
      var n := |schedule| - 1;
      BadBundleNeverFinishes(files, start, schedule[..n], bad);
      var before := AfterRuns(files, start, schedule[..n]);
      BadFileStops(files, Progress(before.known, before.complete, schedule[n], true, 0), bad);
    }
  }

  /** The durable writes a run over the files may need. */
  function Needed(files: seq<File>): nat {
    if files == [] then 0 else |files[0].batches| + 1 + Needed(files[1..])
  }

  lemma {:induction false} BatchesFinish(batches: seq<Batch>, p: Progress)
    requires p.alive && |batches| <= p.left && forall i | 0 <= i < |batches| :: !HasFatal(batches[i])
    ensures var q := ImportBatches(batches, p); q.alive && q.left + |batches| == p.left && q.complete == p.complete
    decreases |batches|
  {
    if batches == [] {
    } else {
      BatchesFinish(batches[1..], AfterBatch(batches[0], p));
    }
  }

  lemma {:induction false} FilesFinish(files: seq<File>, p: Progress)
    requires p.alive && Needed(files) <= p.left && BundleOk(files, p.complete)
    ensures ImportFiles(files, p).alive
    decreases |files|
  {
    if files == [] {
    } else {
      var f, q := files[0], ImportOne(files[0], p);
      if f.key !in p.complete {
        BatchesFinish(f.batches, p);
      }
      assert forall i | 0 <= i < |files[1..]| :: files[1..][i] == files[i + 1];
      FilesFinish(files[1..], q);
    }
  }

  /** The last of the runs finishes. */
  predicate Finishes(files: seq<File>, start: Progress, schedule: seq<nat>) {
    schedule != [] && AfterRuns(files, start, schedule).alive
  }

  /** Exactly which bundles can ever be finished: those whose files are all complete already, or
      valid and without a fatal row. */
  lemma CanFinishIff(files: seq<File>, start: Progress)
    requires KeysNameContent(files)
    ensures (exists schedule: seq<nat> :: Finishes(files, start, schedule)) <==> BundleOk(files, start.complete)
  {
    if BundleOk(files, start.complete) {
      var schedule: seq<nat> := [Needed(files)];
      assert schedule[..|schedule| - 1] == [] && AfterRuns(files, start, []) == start;
      FilesFinish(files, Progress(start.known, start.complete, Needed(files), true, 0));
      assert Finishes(files, start, schedule);
    } else {
      var i :| 0 <= i < |files| && files[i].key !in start.complete && !FileOk(files[i]);
      forall schedule: seq<nat> ensures !Finishes(files, start, schedule) {
        BadBundleNeverFinishes(files, start, schedule, files[i]);
      }
    }
  }

  // ---------------------------------------------------------------- the batch size

  lemma {:induction false} LearnAllSplits(known: Hashes, first: seq<Batch>, second: seq<Batch>)
    ensures LearnAll(known, first + second) == LearnAll(LearnAll(known, first), second)
  {
    if second == [] {
      assert first + second == first;
    } else {
      var n := |second| - 1;
      LearnAllSplits(known, first, second[..n]);
      assert (first + second)[..|first + second| - 1] == first + second[..n];
    }
  }

  predicate From(rows: Batch, uid: Uid, hash: Hash) {
    exists i :: 0 <= i < |rows| && rows[i] == Order(uid, hash)
  }

  lemma {:induction false} LastInIsFrom(batch: Batch, uid: Uid)
    ensures LastIn(batch, uid).Some? ==> From(batch, uid, LastIn(batch, uid).value)
  {
    if batch == [] {
    } else {
      var n := |batch| - 1;
      LastInIsFrom(batch[..n], uid);
      if LastIn(batch, uid).Some? && !(batch[n].Order? && batch[n].uid == uid) {
        var i :| 0 <= i < n && batch[..n][i] == Order(uid, LastIn(batch, uid).value);
        assert batch[i] == Order(uid, LastIn(batch, uid).value);
      } else if LastIn(batch, uid).Some? {
        assert batch[n] == Order(uid, batch[n].hash);
      }
    }
  }

  /** What is learned of a uid that was not known comes from a row of it. */
  lemma {:induction false} LearnedFrom(known: Hashes, batches: seq<Batch>, uid: Uid)
    ensures var after := LearnAll(known, batches);
            && (uid in after <==> uid in known || uid in UidsIn(Flatten(batches)))
            && (uid in known ==> after[uid] == known[uid])
            && (uid in after && uid !in known ==> From(Flatten(batches), uid, after[uid]))
  {
    if batches == [] {
    } else {
      var n := |batches| - 1;
      var before, last := batches[..n], batches[n];
      LearnedFrom(known, before, uid);
      FlattenOfPush(before, last);
      assert batches == before + [last];
      LearnKeys(LearnAll(known, before), last);
      LastInFinds(last, uid);
      LastInIsFrom(last, uid);
      JoinedRows(Flatten(before), last, uid);
    }
  }

  lemma JoinedRows(a: Batch, b: Batch, uid: Uid)
    ensures uid in UidsIn(a + b) <==> uid in UidsIn(a) || uid in UidsIn(b)
    ensures forall hash | From(a, uid, hash) || From(b, uid, hash) :: From(a + b, uid, hash)
  {
    forall hash | From(a, uid, hash) || From(b, uid, hash) ensures From(a + b, uid, hash) {
      if i :| 0 <= i < |a| && a[i] == Order(uid, hash) {
        assert (a + b)[i] == Order(uid, hash);
      } else {
        var i :| 0 <= i < |b| && b[i] == Order(uid, hash);
        assert (a + b)[|a| + i] == Order(uid, hash);
      }
    }
  }

  /** No uid outside `known` occurs with two hashes. */
  predicate OneHashEach(known: Hashes, rows: Batch) {
    forall i, j | 0 <= i < |rows| && 0 <= j < |rows| && rows[i].Order? && rows[j].Order?
                  && rows[i].uid == rows[j].uid ::
      rows[i].uid in known || rows[i].hash == rows[j].hash
  }

  /** The first batch with a row of the uid decides its hash. */
  lemma FirstBatchDecides(known: Hashes, batches: seq<Batch>, k: nat, uid: Uid)
    requires k < |batches| && uid !in known && LastIn(batches[k], uid).Some?
    requires forall i | 0 <= i < k :: uid !in UidsIn(batches[i])
    ensures uid in LearnAll(known, batches) && LearnAll(known, batches)[uid] == LastIn(batches[k], uid).value
  {
    var before, upTo := batches[..k], batches[..k + 1];
    NotYetLearned(known, before, uid);
    assert upTo[..k] == before && upTo[k] == batches[k];
    LastInFinds(batches[k], uid);
    LearnKeys(LearnAll(known, before), batches[k]);
    assert batches == upTo + batches[k + 1..];
    LearnAllSplits(known, upTo, batches[k + 1..]);
    LearnAllKnows(LearnAll(known, upTo), batches[k + 1..]);
  }

  lemma {:induction false} NotYetLearned(known: Hashes, batches: seq<Batch>, uid: Uid)
    requires uid !in known && forall i | 0 <= i < |batches| :: uid !in UidsIn(batches[i])
    ensures uid !in LearnAll(known, batches)
  {
    if batches == [] {
    } else {
      var n := |batches| - 1;
      NotYetLearned(known, batches[..n], uid);
      LearnKeys(LearnAll(known, batches[..n]), batches[n]);
    }
  }

  lemma {:induction false} SingleRows(rows: Batch)
    ensures |Chunks(rows, 1)| == |rows| && forall i | 0 <= i < |rows| :: Chunks(rows, 1)[i] == [rows[i]]
  {
    if |rows| <= 1 {
    } else {
      SingleRows(rows[1..]);
      assert rows[..1] == [rows[0]];
    }
  }

  /** Two rows of a new uid with different hashes: in batches of one the first wins, in a batch
      that ends with the other the other does. */
  lemma TwoHashesDiffer(known: Hashes, rows: Batch, first: nat, other: nat, uid: Uid)
    requires first < other < |rows| && uid !in known
    requires rows[first].Order? && rows[first].uid == uid
    requires forall i | 0 <= i < first :: !(rows[i].Order? && rows[i].uid == uid)
    requires rows[other].Order? && rows[other].uid == uid && rows[other].hash != rows[first].hash
    ensures LearnAll(known, Chunks(rows, 1)) != LearnAll(known, Chunks(rows, other + 1))
  {
    SingleRows(rows);
    assert LastIn([rows[first]], uid) == Some(rows[first].hash);
    FirstBatchDecides(known, Chunks(rows, 1), first, uid);
    FirstChunk(rows, other + 1);
    var head := rows[..other + 1];
    assert Chunks(rows, other + 1)[0] == head && head[other] == rows[other];
    assert LastIn(head, uid) == Some(rows[other].hash);
    FirstBatchDecides(known, Chunks(rows, other + 1), 0, uid);
  }

  lemma {:induction false} FirstOf(rows: Batch, i: nat, uid: Uid) returns (first: nat)
    requires i < |rows| && rows[i].Order? && rows[i].uid == uid
    ensures first <= i && rows[first].Order? && rows[first].uid == uid
    ensures forall k | 0 <= k < first :: !(rows[k].Order? && rows[k].uid == uid)
  {
    if k :| 0 <= k < i && rows[k].Order? && rows[k].uid == uid {
      first := FirstOf(rows, k, uid);
    } else {
      first := i;
    }
  }

  lemma SameFromAll(known: Hashes, rows: Batch, m: nat, n: nat)
    requires OneHashEach(known, rows) && 1 <= m && 1 <= n
    ensures LearnAll(known, Chunks(rows, m)) == LearnAll(known, Chunks(rows, n))
  {
    ChunksPartition(rows, m);
    ChunksPartition(rows, n);
    var a, b := LearnAll(known, Chunks(rows, m)), LearnAll(known, Chunks(rows, n));
    forall uid ensures (uid in a <==> uid in b) && (uid in a ==> a[uid] == b[uid]) {
      LearnedFrom(known, Chunks(rows, m), uid);
      LearnedFrom(known, Chunks(rows, n), uid);
    }
  }

  /** What a run leaves known of a file's rows, read `n` at a time. */
  function ImportedBySize(rows: Batch, n: nat, p: Progress): Hashes
    requires 1 <= n
  {
    ImportBatches(Chunks(rows, n), p).known
  }

  /** Without a fatal row a run that lives long enough learns all of it. */
  lemma {:induction false} ImportLearnsAll(batches: seq<Batch>, p: Progress)
    requires p.alive && |batches| <= p.left && forall i | 0 <= i < |batches| :: !HasFatal(batches[i])
    ensures ImportBatches(batches, p).known == LearnAll(p.known, batches)
    decreases |batches|
  {
    if batches == [] {
    } else {
      BatchesNext(batches, p);
      ImportLearnsAll(batches[1..], AfterBatch(batches[0], p));
      var first := [batches[0]];
      assert batches == first + batches[1..] && first[..0] == [];
      LearnAllSplits(p.known, first, batches[1..]);
      assert LearnAll(p.known, first) == Learn(LearnAll(p.known, []), batches[0]);
    }
  }

  lemma {:induction false} ChunksAreFew(rows: Batch, n: nat)
    requires 1 <= n
    ensures |Chunks(rows, n)| <= |rows|
    ensures !HasFatal(rows) ==> forall i | 0 <= i < |Chunks(rows, n)| :: !HasFatal(Chunks(rows, n)[i])
    decreases |rows|
  {
    if |rows| <= n {
    } else {
      var rest := rows[n..];
      ChunksAreFew(rest, n);
      assert forall i | 0 <= i < |rest| :: rest[i] == rows[n + i];
    }
  }

  lemma WithoutFatalAllIsLearned(rows: Batch, n: nat, p: Progress)
    requires p.alive && |rows| <= p.left && !HasFatal(rows) && 1 <= n
    ensures ImportedBySize(rows, n, p) == LearnAll(p.known, Chunks(rows, n))
  {
    ChunksAreFew(rows, n);
    ImportLearnsAll(Chunks(rows, n), p);
  }

  /** The first fatal row, and before it only orders that are known and rows that are rejected. */
  predicate FatalBeforeNew(known: Hashes, rows: Batch, f: nat) {
    f < |rows| && rows[f].Fatal? && forall i | 0 <= i < f :: rows[i].Order? ==> rows[i].uid in known
  }

  /** A run that meets a fatal row before any new uid leaves nothing new, whatever the size. */
  lemma {:induction false} FatalBeforeNewLearnsNothing(rows: Batch, n: nat, p: Progress, f: nat)
    requires 1 <= n && FatalBeforeNew(p.known, rows, f)
    ensures ImportedBySize(rows, n, p) == p.known
    decreases |rows|
  {
    FirstChunk(rows, n);
    var k := if n < |rows| then n else |rows|;
    var head, rest := rows[..k], rows[k..];
    if f < k {
      assert head[f] == rows[f];
    } else if !p.alive || Stops(Chunks(rows, n), p) {
    } else {
      assert UidsIn(head) <= p.known.Keys by {
        assert forall row | row in head :: exists i :: 0 <= i < k && rows[i] == row;
      }
      LearnKnownIsNothing(p.known, head);
      assert rest[f - k] == rows[f] && forall i | 0 <= i < f - k :: rest[i] == rows[k + i];
      FatalBeforeNewLearnsNothing(rest, n, AfterBatch(head, p), f - k);
    }
  }

  /** Row by row, a run learns every order before the first fatal row. */
  lemma {:induction false} SinglesLearn(rows: Batch, p: Progress, i: nat)
    requires p.alive && |rows| <= p.left && i < |rows| && rows[i].Order? && !HasFatal(rows[..i])
    ensures rows[i].uid in ImportedBySize(rows, 1, p)
    decreases |rows|
  {
    FirstChunk(rows, 1);
    var head, rest := rows[..1], rows[1..];
    assert head == [rows[0]];
    assert !HasFatal(head) by {
      assert i > 0 ==> !rows[..i][0].Fatal?;
    }
    var q := AfterBatch(head, p);
    BatchesNext(Chunks(rows, 1), p);
    LearnKeys(p.known, head);
    if i == 0 {
      assert rows[0] in head;
      BatchesGrow(Chunks(rest, 1), q);
    } else {
      assert rest[i - 1] == rows[i] && rest[..i - 1] == rows[..i][1..];
      SinglesLearn(rest, q, i - 1);
    }
  }

  /** The batch size cannot make a difference: the import of the rows stops before it learns
      anything, or it does not stop and no new uid has two hashes. */
  ghost predicate SizeIsMoot(known: Hashes, rows: Batch) {
    if HasFatal(rows) then exists f: nat :: FatalBeforeNew(known, rows, f) else OneHashEach(known, rows)
  }

  lemma {:induction false} FirstFatal(rows: Batch) returns (f: nat)
    requires HasFatal(rows)
    ensures f < |rows| && rows[f].Fatal? && !HasFatal(rows[..f])
  {
    if rows[0].Fatal? {
      f := 0;
    } else {
      var i :| 0 <= i < |rows| && rows[i].Fatal?;
      assert rows[1..][i - 1].Fatal?;
      var g := FirstFatal(rows[1..]);
      f := g + 1;
      assert forall j | 1 <= j < f :: rows[..f][j] == rows[1..][..g][j - 1];
    }
  }

  lemma FatalSizesDiffer(rows: Batch, p: Progress)
    requires p.alive && |rows| <= p.left && HasFatal(rows) && !SizeIsMoot(p.known, rows)
    ensures ImportedBySize(rows, 1, p) != ImportedBySize(rows, |rows|, p)
  {
    var f := FirstFatal(rows);
    assert !FatalBeforeNew(p.known, rows, f);
    var i :| 0 <= i < f && rows[i].Order? && rows[i].uid !in p.known;
    assert forall j | 0 <= j < i :: rows[..i][j] == rows[..f][j];
    SinglesLearn(rows, p, i);
    assert Chunks(rows, |rows|) == [rows];
  }

  lemma TwoHashesSizesDiffer(known: Hashes, rows: Batch) returns (n: nat)
    requires !OneHashEach(known, rows)
    ensures 1 <= n && LearnAll(known, Chunks(rows, 1)) != LearnAll(known, Chunks(rows, n))
  {
    var i, j :| 0 <= i < |rows| && 0 <= j < |rows| && rows[i].Order? && rows[j].Order? && rows[i].uid == rows[j].uid
                && rows[i].uid !in known && rows[i].hash != rows[j].hash;
    var first := FirstOf(rows, i, rows[i].uid);
    var before := FirstOf(rows, j, rows[i].uid);
    n := (if rows[i].hash != rows[first].hash then i else j) + 1;
    TwoHashesDiffer(known, rows, first, n - 1, rows[i].uid);
  }

  /** Exactly when the batch size does not matter to a run that lives long enough: with a fatal
      row, if and only if every order before the first such row was known; without one, if and
      only if no uid that was not known occurs in the rows with two hashes. */
  lemma BatchSizeMattersIff(rows: Batch, p: Progress)
    requires p.alive && |rows| <= p.left
    ensures (forall m: nat, n: nat | 1 <= m && 1 <= n :: ImportedBySize(rows, m, p) == ImportedBySize(rows, n, p))
       <==> SizeIsMoot(p.known, rows)
  {
    if !SizeIsMoot(p.known, rows) {
      if HasFatal(rows) {
        FatalSizesDiffer(rows, p);
      } else {
        var n := TwoHashesSizesDiffer(p.known, rows);
        WithoutFatalAllIsLearned(rows, 1, p);
        WithoutFatalAllIsLearned(rows, n, p);
      }
    } else {
      forall m: nat, n: nat | 1 <= m && 1 <= n ensures ImportedBySize(rows, m, p) == ImportedBySize(rows, n, p) {
        SameForAllSizes(rows, m, n, p);
      }
    }
  }

  lemma SameForAllSizes(rows: Batch, m: nat, n: nat, p: Progress)
    requires p.alive && |rows| <= p.left && 1 <= m && 1 <= n && SizeIsMoot(p.known, rows)
    ensures ImportedBySize(rows, m, p) == ImportedBySize(rows, n, p)
  {
    if HasFatal(rows) {
      var f: nat :| FatalBeforeNew(p.known, rows, f);
      FatalBeforeNewLearnsNothing(rows, m, p, f);
      FatalBeforeNewLearnsNothing(rows, n, p, f);
    } else {
      WithoutFatalAllIsLearned(rows, m, p);
      WithoutFatalAllIsLearned(rows, n, p);
      SameFromAll(p.known, rows, m, n);
    }
  }
}
