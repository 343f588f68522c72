/** Seeding the historical backfill: a stream of order uids, arriving in blocks of any size, is
    cut into batches, each batch becomes one work item under a canonical key, and work items are
    enqueued in chunks. */
module SeedOrders {
  import opened Sequences

  const UID_BATCH_SIZE: nat := 128
  const ENQUEUE_CHUNK: nat := 1_000
  const UID_LENGTH: nat := 114

  datatype Validated<+T> = Ok(value: T) | ValueError

  // ---------------------------------------------------------------- normalised uids

  function Lower(c: char): char {
    if 'A' <= c <= 'Z' then c - 'A' + 'a' else c
  }

  function LowerAll(s: string): (r: string)
    ensures |r| == |s| && forall i | 0 <= i < |s| :: r[i] == Lower(s[i])
  {
    seq(|s|, i requires 0 <= i < |s| => Lower(s[i]))
  }

  predicate IsHexDigit(c: char) {
    '0' <= c <= '9' || 'a' <= c <= 'f'
  }

  predicate IsUid(s: string) {
    && |s| == UID_LENGTH && s[0] == '0' && s[1] == 'x'
    && forall i | 2 <= i < |s| :: IsHexDigit(s[i])
  }

  /** Lower-case, with a `0x` prefix, 56 bytes of hex; anything else is an error. */
  function NormalizeUid(value: string): Validated<string> {
    var lower := LowerAll(value);
    var prefixed := if "0x" <= lower then lower else "0x" + lower;
    if IsUid(prefixed) then Ok(prefixed) else ValueError
  }

  lemma NormalizingAgain(value: string)
    requires NormalizeUid(value).Ok?
    ensures IsUid(NormalizeUid(value).value)
    ensures NormalizeUid(NormalizeUid(value).value) == NormalizeUid(value)
  {
    var uid := NormalizeUid(value).value;
    assert LowerAll(uid) == uid;
    assert uid[..2] == "0x";
  }

  predicate Prefixed(value: string) {
    2 <= |value| && value[0] == '0' && (value[1] == 'x' || value[1] == 'X')
  }

  /** The characters of an order uid without its prefix. */
  function Digits(value: string): string {
    if Prefixed(value) then value[2..] else value
  }

  lemma LoweredDigits(value: string)
    ensures var lower := LowerAll(value);
            (if "0x" <= lower then lower else "0x" + lower) == "0x" + LowerAll(Digits(value))
  {
    var lower := LowerAll(value);
    assert "0x" <= lower <==> Prefixed(value);
    if Prefixed(value) {
      assert lower[2..] == LowerAll(value[2..]);
    } else {
      assert Digits(value) == value;
    }
  }

  predicate HexInEitherCase(c: char) {
    '0' <= c <= '9' || 'a' <= c <= 'f' || 'A' <= c <= 'F'
  }

  lemma UidOfDigits(digits: string)
    ensures IsUid("0x" + LowerAll(digits)) <==> |digits| == 112 && forall i | 0 <= i < 112 :: HexInEitherCase(digits[i])
  {
    var uid := "0x" + LowerAll(digits);
    if |digits| == 112 {
      assert forall i | 0 <= i < 112 :: uid[i + 2] == Lower(digits[i]);
      assert forall i | 2 <= i < 114 :: uid[i] == Lower(digits[i - 2]);
    }
  }

  /** The valid uids are those with 112 hexadecimal digits in either case, with or without the
      prefix; the normal form has the prefix and the same digits in lower case. */
  lemma UidsAreFiftySixBytes(value: string)
    ensures NormalizeUid(value).Ok? <==>
              |Digits(value)| == 112 && forall i | 0 <= i < 112 :: HexInEitherCase(Digits(value)[i])
    ensures NormalizeUid(value).Ok? ==>
              var digits, uid := Digits(value), NormalizeUid(value).value;
              && |uid| == 114 && uid[..2] == "0x"
              && forall i | 0 <= i < 112 ::
                   uid[i + 2] == if 'A' <= digits[i] <= 'F' then 'a' + (digits[i] - 'A') else digits[i]
  {
    LoweredDigits(value);
    UidOfDigits(Digits(value));
  }

  function NormalizeAll(uids: seq<string>): (r: Validated<seq<string>>)
    ensures r.Ok? ==> |r.value| == |uids|
  {
    if uids == [] then Ok([])
    else
      var first, rest := NormalizeUid(uids[0]), NormalizeAll(uids[1..]);
      if first.Ok? && rest.Ok? then Ok([first.value] + rest.value) else ValueError
  }

  // ---------------------------------------------------------------- sorting

  predicate Leq(a: string, b: string) {
    a == [] || (b != [] && (a[0] < b[0] || (a[0] == b[0] && Leq(a[1..], b[1..]))))
  }

  lemma {:induction false} LeqOrders(a: string, b: string, c: string)
    ensures Leq(a, b) || Leq(b, a)
    ensures Leq(a, b) && Leq(b, a) ==> a == b
    ensures Leq(a, b) && Leq(b, c) ==> Leq(a, c)
  {
    if a == [] || b == [] {
    } else {
      LeqOrders(a[1..], b[1..], if c == [] then [] else c[1..]);
      assert a == [a[0]] + a[1..] && b == [b[0]] + b[1..];
    }
  }

  predicate Sorted(s: seq<string>) {
    forall i, j | 0 <= i < j < |s| :: Leq(s[i], s[j])
  }

  function Insert(x: string, s: seq<string>): seq<string> {
    if s == [] || Leq(x, s[0]) then [x] + s else [s[0]] + Insert(x, s[1..])
  }

  function Sort(s: seq<string>): seq<string> {
    if s == [] then [] else Insert(s[0], Sort(s[1..]))
  }

  lemma {:induction false} InsertMultiset(x: string, s: seq<string>)
    ensures multiset(Insert(x, s)) == multiset(s) + multiset{x}
  {
    if s == [] {
    } else {
      assert s == [s[0]] + s[1..];
      if !Leq(x, s[0]) { InsertMultiset(x, s[1..]); }
    }
  }

  lemma SortedCons(x: string, s: seq<string>)
    requires Sorted(s) && (s != [] ==> Leq(x, s[0]))
    ensures Sorted([x] + s)
  {
    var t := [x] + s;
    forall i, j | 0 <= i < j < |t| ensures Leq(t[i], t[j]) {
      if i == 0 { LeqOrders(x, s[0], s[j - 1]); LeqOrders(s[0], s[0], s[0]); }
      else { assert Leq(s[i - 1], s[j - 1]); }
    }
  }

  lemma {:induction false} InsertSorted(x: string, s: seq<string>)
    requires Sorted(s)
    ensures Sorted(Insert(x, s))
    ensures Insert(x, s) != [] && (Insert(x, s)[0] == x || (s != [] && Insert(x, s)[0] == s[0]))
  {
    if s == [] || Leq(x, s[0]) {
      SortedCons(x, s);
    } else {
      InsertSorted(x, s[1..]);
      LeqOrders(x, s[0], x);
      assert s[1..] != [] ==> s[1..][0] == s[1];
      SortedCons(s[0], Insert(x, s[1..]));
    }
  }

  lemma {:induction false} SortFacts(s: seq<string>)
    ensures Sorted(Sort(s)) && multiset(Sort(s)) == multiset(s) && |Sort(s)| == |s|
  {
    if s == [] {
    } else {
      SortFacts(s[1..]);
      InsertMultiset(s[0], Sort(s[1..]));
      InsertSorted(s[0], Sort(s[1..]));
      assert s == [s[0]] + s[1..];
    }
    SameSize(Sort(s), s);
  }

  lemma SameSize(a: seq<string>, b: seq<string>)
    requires multiset(a) == multiset(b)
    ensures |a| == |b|
  {
    assert |multiset(a)| == |a| && |multiset(b)| == |b|;
  }

  lemma FirstIsLeast(s: seq<string>, x: string)
    requires Sorted(s) && x in multiset(s)
    ensures s != [] && Leq(s[0], x)
  {
    LeqOrders(x, x, x);
    var i :| 0 <= i < |s| && s[i] == x;
  }

  lemma SameHead(a: seq<string>, b: seq<string>)
    requires Sorted(a) && Sorted(b) && multiset(a) == multiset(b) && a != []
    ensures b != [] && a[0] == b[0]
  {
    assert a[0] in multiset(b);
    FirstIsLeast(b, a[0]);
    assert b[0] in multiset(a);
    FirstIsLeast(a, b[0]);
    LeqOrders(a[0], b[0], a[0]);
  }

  lemma TailMultiset(s: seq<string>)
    requires s != []
    ensures multiset(s[1..]) == multiset(s) - multiset{s[0]}
  {
    assert s == [s[0]] + s[1..];
  }

  /** A sorted arrangement is unique. */
  lemma {:induction false} SortedIsUnique(a: seq<string>, b: seq<string>)
    requires Sorted(a) && Sorted(b) && multiset(a) == multiset(b)
    ensures a == b
  {
    if a == [] {
      assert |multiset(b)| == |b|;
    } else {
      SameHead(a, b);
      TailMultiset(a);
      TailMultiset(b);
      SortedIsUnique(a[1..], b[1..]);
      assert a == [a[0]] + a[1..] && b == [b[0]] + b[1..];
    }
  }

  // ---------------------------------------------------------------- batch keys

  function JoinCommas(parts: seq<string>): string {
    if parts == [] then ""
    else if |parts| == 1 then parts[0]
    else parts[0] + "," + JoinCommas(parts[1..])
  }

  /** `str.split(",")`: never empty. */
  function SplitCommas(s: string): (parts: seq<string>)
    ensures parts != []
  {
    if s == [] then [""]
    else
      var rest := SplitCommas(s[1..]);
      if s[0] == ',' then [""] + rest else [[s[0]] + rest[0]] + rest[1..]
  }

  function NonEmpty(parts: seq<string>): seq<string> {
    if parts == [] then []
    else (if parts[0] == "" then [] else [parts[0]]) + NonEmpty(parts[1..])
  }

  function EncodeKey(uids: seq<string>): Validated<string> {
    var normalized := NormalizeAll(uids);
    if normalized.ValueError? then ValueError
    else
      var batch := Sort(normalized.value);
      if batch == [] || UID_BATCH_SIZE < |batch| then ValueError else Ok(JoinCommas(batch))
  }

  function DecodeKey(key: string): Validated<seq<string>> {
    NormalizeAll(NonEmpty(SplitCommas(key)))
  }

  lemma {:induction false} SplitFirst(part: string, rest: string)
    requires ',' !in part
    ensures SplitCommas(part + "," + rest) == [part] + SplitCommas(rest)
  {
    var s := part + "," + rest;
    if part == [] {
      assert s[1..] == rest;
    } else {
      assert s[1..] == part[1..] + "," + rest;
      SplitFirst(part[1..], rest);
      assert [part[0]] + part[1..] == part;
    }
  }

  lemma {:induction false} SplitWhole(part: string)
    requires ',' !in part
    ensures SplitCommas(part) == [part]
  {
    if part == [] {
    } else {
      SplitWhole(part[1..]);
      assert [part[0]] + part[1..] == part;
    }
  }

  lemma {:induction false} SplitOfJoin(parts: seq<string>)
    requires parts != [] && forall i | 0 <= i < |parts| :: ',' !in parts[i]
    ensures SplitCommas(JoinCommas(parts)) == parts
  {
    if |parts| == 1 {
      SplitWhole(parts[0]);
    } else {
      SplitFirst(parts[0], JoinCommas(parts[1..]));
      SplitOfJoin(parts[1..]);
    }
  }

  lemma {:induction false} NonEmptyAll(parts: seq<string>)
    requires forall i | 0 <= i < |parts| :: parts[i] != ""
    ensures NonEmpty(parts) == parts
  {
    if parts == [] {
    } else {
      NonEmptyAll(parts[1..]);
    }
  }

  lemma {:induction false} NormalizeAllFacts(uids: seq<string>)
    ensures NormalizeAll(uids).Ok? <==> forall i | 0 <= i < |uids| :: NormalizeUid(uids[i]).Ok?
    ensures NormalizeAll(uids).Ok? ==>
              forall uid | uid in NormalizeAll(uids).value :: IsUid(uid) && NormalizeUid(uid) == Ok(uid)
  {
    if uids == [] {
    } else {
      NormalizeAllFacts(uids[1..]);
      assert uids == [uids[0]] + uids[1..];
      if NormalizeUid(uids[0]).Ok? { NormalizingAgain(uids[0]); }
    }
  }

  /** Normalising a batch normalises each of its uids. */
  lemma {:induction false} NormalizeAllAt(uids: seq<string>, i: nat)
    requires NormalizeAll(uids).Ok? && i < |uids|
    ensures NormalizeUid(uids[i]) == Ok(NormalizeAll(uids).value[i])
  {
    if i > 0 {
      NormalizeAllAt(uids[1..], i - 1);
    }
  }

  lemma {:induction false} NormalizeNormalized(uids: seq<string>)
    requires forall uid | uid in uids :: NormalizeUid(uid) == Ok(uid)
    ensures NormalizeAll(uids) == Ok(uids)
  {
    if uids == [] {
    } else {
      NormalizeNormalized(uids[1..]);
      assert [uids[0]] + uids[1..] == uids;
    }
  }

  lemma SortedMember(s: seq<string>, x: string)
    requires x in Sort(s)
    ensures x in s
  {
    SortFacts(s);
    assert x in multiset(Sort(s));
  }

  lemma UidIsPlain(uid: string)
    requires IsUid(uid)
    ensures ',' !in uid && uid != ""
  {
  }

  lemma NormalizedMember(uids: seq<string>, uid: string)
    requires NormalizeAll(uids).Ok? && uid in Sort(NormalizeAll(uids).value)
    ensures IsUid(uid) && NormalizeUid(uid) == Ok(uid) && ',' !in uid && uid != ""
  {
    SortedMember(NormalizeAll(uids).value, uid);
    NormalizeAllFacts(uids);
    UidIsPlain(uid);
  }

  lemma EncodedBatch(uids: seq<string>)
    requires EncodeKey(uids).Ok?
    ensures var batch := Sort(NormalizeAll(uids).value);
            && batch != [] && SplitCommas(EncodeKey(uids).value) == batch
            && forall uid | uid in batch :: uid != "" && NormalizeUid(uid) == Ok(uid)
  {
    var batch := Sort(NormalizeAll(uids).value);
    forall uid | uid in batch ensures ',' !in uid && uid != "" && NormalizeUid(uid) == Ok(uid) {
      NormalizedMember(uids, uid);
    }
    assert forall i | 0 <= i < |batch| :: batch[i] in batch;
    SplitOfJoin(batch);
  }

  /** Round trip: decoding a key gives the batch's uids, normalised and sorted. */
  lemma DecodeInvertsEncode(uids: seq<string>)
    requires EncodeKey(uids).Ok?
    ensures NormalizeAll(uids).Ok? && DecodeKey(EncodeKey(uids).value) == Ok(Sort(NormalizeAll(uids).value))
  {
    EncodedBatch(uids);
    var batch := Sort(NormalizeAll(uids).value);
    assert forall i | 0 <= i < |batch| :: batch[i] in batch;
    NonEmptyAll(batch);
    NormalizeNormalized(batch);
  }

  /** A key may have empty parts; decoding passes over them. */
  lemma EmptyPartsAreIgnored(part: string, rest: string)
    requires ',' !in part
    ensures DecodeKey("") == Ok([])
    ensures DecodeKey(part + ",," + rest) == DecodeKey(part + "," + rest)
    ensures DecodeKey(part + ",") == DecodeKey(part)
  {
    var parts := SplitCommas(rest);
    SplitFirst(part, rest);
    SplitFirst(part, "," + rest);
    SplitFirst("", rest);
    assert part + ",," + rest == part + "," + ("," + rest) && "" + "," + rest == "," + rest;
    NonEmptySkips(part, parts);
    SplitFirst(part, "");
    SplitWhole(part);
    NonEmptySkips(part, []);
    assert part + "," + "" == part + "," && [part] + [] == [part] && [""] + [] == [""];
  }

  lemma NonEmptySkips(part: string, parts: seq<string>)
    ensures NonEmpty([part] + ([""] + parts)) == NonEmpty([part] + parts)
  {
    assert ([part] + ([""] + parts))[1..] == [""] + parts && ([""] + parts)[1..] == parts;
    assert ([part] + parts)[1..] == parts;
  }

  /** Canonical keys: two batches have the same key exactly when they are the same uids, counted
      with repetition, after normalisation. */
  lemma KeyIsTheMultiset(a: seq<string>, b: seq<string>)
    requires EncodeKey(a).Ok? && EncodeKey(b).Ok?
    ensures EncodeKey(a) == EncodeKey(b) <==> multiset(NormalizeAll(a).value) == multiset(NormalizeAll(b).value)
  {
    var p, q := NormalizeAll(a).value, NormalizeAll(b).value;
    SortFacts(p);
    SortFacts(q);
    EncodedBatch(a);
    EncodedBatch(b);
    if multiset(p) == multiset(q) {
      SortedIsUnique(Sort(p), Sort(q));
    }
  }

  lemma {:induction false} LeqAtDifference(a: string, b: string, k: nat)
    requires Leq(a, b) && k < |a| && k < |b| && a[..k] == b[..k]
    ensures a[k] <= b[k]
  {
    if k == 0 {
    } else {
      assert a[0] == a[..k][0] && b[0] == b[..k][0];
      assert a[1..][..k - 1] == a[..k][1..] && b[1..][..k - 1] == b[..k][1..];
      LeqAtDifference(a[1..], b[1..], k - 1);
    }
  }

  /** A key lists its uids in ascending order: where two of them first differ, the earlier one
      has the smaller character. */
  lemma KeysAreAscending(uids: seq<string>, i: nat, j: nat, k: nat)
    requires EncodeKey(uids).Ok? && DecodeKey(EncodeKey(uids).value).Ok?
    requires i < j < |DecodeKey(EncodeKey(uids).value).value| && k < 114
    ensures var batch := DecodeKey(EncodeKey(uids).value).value;
            |batch[i]| == |batch[j]| == 114 && (batch[i][..k] == batch[j][..k] ==> batch[i][k] <= batch[j][k])
  {
    DecodeInvertsEncode(uids);
    var batch := Sort(NormalizeAll(uids).value);
    SortFacts(NormalizeAll(uids).value);
    NormalizedMember(uids, batch[i]);
    NormalizedMember(uids, batch[j]);
    if batch[i][..k] == batch[j][..k] {
      LeqAtDifference(batch[i], batch[j], k);
    }
  }

  /** In the key, one comma stands between each uid and the next. */
  lemma KeysAreCommaSeparated(uids: seq<string>)
    requires EncodeKey(uids).Ok?
    ensures forall i | 0 <= i < |EncodeKey(uids).value| ::
              (EncodeKey(uids).value[i] == ',' <==> i % 115 == 114)
    ensures |EncodeKey(uids).value| == 115 * |uids| - 1
  {
    var batch := Sort(NormalizeAll(uids).value);
    SortFacts(NormalizeAll(uids).value);
    forall uid | uid in batch ensures |uid| == 114 && ',' !in uid {
      NormalizedMember(uids, uid);
    }
    CommasOfJoin(batch);
  }

  lemma {:induction false} CommasOfJoin(batch: seq<string>)
    requires batch != [] && forall uid | uid in batch :: |uid| == 114 && ',' !in uid
    ensures |JoinCommas(batch)| == 115 * |batch| - 1
    ensures forall i | 0 <= i < |JoinCommas(batch)| :: (JoinCommas(batch)[i] == ',' <==> i % 115 == 114)
  {
    var first := batch[0];
    assert forall i | 0 <= i < 114 :: first[i] != ',' by {
      assert first in batch;
    }
    if |batch| > 1 {
      var rest := JoinCommas(batch[1..]);
      CommasOfJoin(batch[1..]);
      forall i | 0 <= i < |JoinCommas(batch)| ensures JoinCommas(batch)[i] == ',' <==> i % 115 == 114 {
        if i > 114 {
          assert JoinCommas(batch)[i] == rest[i - 115] && i % 115 == (i - 115) % 115;
        }
      }
    }
  }

  lemma EncodesNormalizable(uids: seq<string>)
    ensures EncodeKey(uids).Ok? <==> 1 <= |uids| <= UID_BATCH_SIZE && NormalizeAll(uids).Ok?
  {
    if NormalizeAll(uids).Ok? { SortFacts(NormalizeAll(uids).value); }
  }

  /** A batch of legal size is encoded exactly when every uid in it is valid. */
  lemma EncodesExactlyValidBatches(uids: seq<string>)
    ensures EncodeKey(uids).Ok? <==>
              1 <= |uids| <= 128 && forall i | 0 <= i < |uids| :: NormalizeUid(uids[i]).Ok?
  {
    EncodesNormalizable(uids);
    NormalizeAllFacts(uids);
  }

  // ---------------------------------------------------------------- seeding

  datatype WorkEntry = WorkEntry(key: string, uids: nat)

  datatype Encoded = Encoded(entries: seq<WorkEntry>, complete: bool)

  /** Encode batches in order, up to the first that is not valid. */
  function EncodeUntil(batches: seq<seq<string>>): Encoded {
    if batches == [] then Encoded([], true)
    else
      var key := EncodeKey(batches[0]);
      if key.ValueError? then Encoded([], false)
      else
        var rest := EncodeUntil(batches[1..]);
        rest.(entries := [WorkEntry(key.value, |batches[0]|)] + rest.entries)
  }

  function Prepend(done: seq<WorkEntry>, rest: Encoded): Encoded {
    rest.(entries := done + rest.entries)
  }

  datatype Outcome = Seeded(uids: nat, batches: nat) | Rejected | Failed(unsent: seq<WorkEntry>)

  /** The enqueue calls made so far, the items waiting for the next one, and the two counters. */
  datatype Progress = Progress(calls: seq<seq<WorkEntry>>, items: seq<WorkEntry>, uids: nat, batches: nat)

  function Done(p: Progress): seq<WorkEntry> {
    Flatten(p.calls) + p.items
  }

  predicate FullCalls(calls: seq<seq<WorkEntry>>) {
    forall i | 0 <= i < |calls| :: |calls[i]| == ENQUEUE_CHUNK
  }

  lemma {:induction false} DoneIsChunked(p: Progress)
    requires FullCalls(p.calls) && |p.items| <= ENQUEUE_CHUNK
    ensures Chunks(Done(p), ENQUEUE_CHUNK) == p.calls + (if p.items == [] then [] else [p.items])
    decreases |p.calls|
  {
    if p.calls == [] {
      assert Done(p) == p.items;
    } else {
      var q := p.(calls := p.calls[1..]);
      assert Done(p) == p.calls[0] + Done(q);
      FirstChunk(Done(p), ENQUEUE_CHUNK);
      assert Done(p)[..ENQUEUE_CHUNK] == p.calls[0] && Done(p)[ENQUEUE_CHUNK..] == Done(q);
      DoneIsChunked(q);
      assert p.calls == [p.calls[0]] + p.calls[1..];
    }
  }

  lemma NextBatch(batch: seq<string>, stream: seq<string>, size: nat)
    requires 1 <= size && batch != [] && (|batch| == size || (stream == [] && |batch| <= size))
    ensures EncodeUntil(Chunks(batch + stream, size)) ==
              if EncodeKey(batch).ValueError? then Encoded([], false)
              else Prepend([WorkEntry(EncodeKey(batch).value, |batch|)], EncodeUntil(Chunks(stream, size)))
  {
    var s := batch + stream;
    FirstChunk(s, size);
    var n := if size < |s| then size else |s|;
    assert s[..n] == batch && s[n..] == stream;
    assert Chunks(s, size)[1..] == Chunks(stream, size);
  }

  lemma ChunkCount(batch: seq<string>, stream: seq<string>, size: nat)
    requires 1 <= size && batch != [] && (|batch| == size || (stream == [] && |batch| <= size))
    ensures |Chunks(batch + stream, size)| == 1 + |Chunks(stream, size)|
  {
    FirstChunk(batch + stream, size);
    var n := if size < |batch + stream| then size else |batch + stream|;
    assert (batch + stream)[n..] == stream;
  }

  /** `p` is what has been done of `flat`, with `stream` still to come. */
  predicate Seeding(flat: seq<string>, size: nat, p: Progress, stream: seq<string>) {
    && 1 <= size && FullCalls(p.calls)
    && EncodeUntil(Chunks(flat, size)) == Prepend(Done(p), EncodeUntil(Chunks(stream, size)))
    && p.uids + |stream| == |flat|
    && p.batches + |Chunks(stream, size)| == |Chunks(flat, size)|
  }

  lemma PrependTwice(done: seq<WorkEntry>, entry: WorkEntry, rest: Encoded)
    ensures Prepend(done, Prepend([entry], rest)) == Prepend(done + [entry], rest)
  {
    assert done + ([entry] + rest.entries) == (done + [entry]) + rest.entries;
  }

  /** Turn one batch into a work item. */
  method TakeBatch(p: Progress, batch: seq<string>, size: nat, ghost flat: seq<string>, ghost stream: seq<string>)
      returns (r: Validated<Progress>)
    requires Seeding(flat, size, p, batch + stream)
    requires batch != [] && (|batch| == size || (stream == [] && |batch| <= size))
    ensures r.ValueError? ==> EncodeUntil(Chunks(flat, size)) == Encoded(Done(p), false)
    ensures r.Ok? ==>
              Seeding(flat, size, r.value, stream) && r.value.calls == p.calls && |r.value.items| == |p.items| + 1
  {
    NextBatch(batch, stream, size);
    ChunkCount(batch, stream, size);
    var key := EncodeKey(batch);
    if key.ValueError? {
      return ValueError;
    }
    var entry := WorkEntry(key.value, |batch|);
    PrependTwice(Done(p), entry, EncodeUntil(Chunks(stream, size)));
    assert Flatten(p.calls) + (p.items + [entry]) == Done(p) + [entry];
    r := Ok(Progress(p.calls, p.items + [entry], p.uids + |batch|, p.batches + 1));
  }

  /** Enqueue the waiting items, if there are any. */
  method FlushItems(p: Progress) returns (q: Progress)
    ensures q == if p.items == [] then p else p.(calls := p.calls + [p.items], items := [])
    ensures Done(q) == Done(p)
  {
    FlattenOfPush(p.calls, p.items);
    q := if p.items == [] then p else p.(calls := p.calls + [p.items], items := []);
  }

  /** Enqueue the waiting items once they fill a chunk. */
  method FlushFull(p: Progress, size: nat, ghost flat: seq<string>, ghost stream: seq<string>) returns (q: Progress)
    requires Seeding(flat, size, p, stream) && |p.items| <= ENQUEUE_CHUNK
    ensures Seeding(flat, size, q, stream) && |q.items| < ENQUEUE_CHUNK
  {
    q := p;
    if ENQUEUE_CHUNK <= |p.items| {
      q := FlushItems(p);
    }
  }

  /** Take the first full batch of the buffer. */
  method TakeFirst(start: Progress, buffer: seq<string>, size: nat, ghost flat: seq<string>, ghost rest: seq<string>)
      returns (p: Progress, failed: bool)
    requires Seeding(flat, size, start, buffer + rest) && |start.items| < ENQUEUE_CHUNK && size <= |buffer|
    ensures failed ==> p == start && EncodeUntil(Chunks(flat, size)) == Encoded(Done(p), false)
    ensures !failed ==> Seeding(flat, size, p, buffer[size..] + rest) && |p.items| < ENQUEUE_CHUNK
  {
    ghost var stream := buffer[size..] + rest;
    assert buffer + rest == buffer[..size] + stream;
    var r := TakeBatch(start, buffer[..size], size, flat, stream);
    if r.ValueError? {
      return start, true;
    }
    p := FlushFull(r.value, size, flat, stream);
    failed := false;
  }

  /** Take every full batch the buffer holds. */
  method TakeFullBatches(start: Progress, block: seq<string>, size: nat, ghost flat: seq<string>,
                         ghost rest: seq<string>)
      returns (p: Progress, buffer: seq<string>, failed: bool)
    requires Seeding(flat, size, start, block + rest) && |start.items| < ENQUEUE_CHUNK
    ensures |p.items| < ENQUEUE_CHUNK && FullCalls(p.calls)
    ensures !failed ==> |buffer| < size && Seeding(flat, size, p, buffer + rest)
    ensures failed ==> EncodeUntil(Chunks(flat, size)) == Encoded(Done(p), false)
  {
    p, buffer, failed := start, block, false;
    while size <= |buffer|
      invariant |p.items| < ENQUEUE_CHUNK && Seeding(flat, size, p, buffer + rest)
      decreases |buffer|
    {
      p, failed := TakeFirst(p, buffer, size, flat, rest);
      if failed {
        return;
      }
      buffer := buffer[size..];
    }
  }

  /** Cut the stream into batches and enqueue their work items, two levels of buffering deep.
      `calls` lists the enqueue calls made, in order. They are the flat stream's batches,
      encoded and chunked; on an invalid uid the items waiting for a full chunk are lost. */
  method SeedOrders(blocks: seq<seq<string>>, batchSize: nat) returns (outcome: Outcome, calls: seq<seq<WorkEntry>>)
    ensures outcome.Rejected? <==> !(1 <= batchSize <= 128)
    ensures outcome.Rejected? ==> calls == []
    ensures outcome.Seeded? ==>
              var stream := Flatten(blocks);
              var flat := EncodeUntil(Chunks(stream, batchSize));
              && flat.complete && Chunks(flat.entries, 1_000) == calls
              && outcome.uids == |stream| && outcome.batches == |Chunks(stream, batchSize)|
    ensures outcome.Failed? ==>
              var flat := EncodeUntil(Chunks(Flatten(blocks), batchSize));
              && !flat.complete && |outcome.unsent| < 1_000
              && Chunks(flat.entries, 1_000) == calls + (if outcome.unsent == [] then [] else [outcome.unsent])
  {
    if !(1 <= batchSize <= UID_BATCH_SIZE) {
      return Rejected, [];
    }
    var p, buffer: seq<string> := Progress([], [], 0, 0), [];
    ghost var flat := Flatten(blocks);
    assert [] + flat == flat && blocks[0..] == blocks;
    StartSeeding(flat, batchSize);
    for i := 0 to |blocks|
      invariant |buffer| < batchSize && |p.items| < ENQUEUE_CHUNK
      invariant Seeding(flat, batchSize, p, buffer + Flatten(blocks[i..]))
    {
      ghost var rest := Flatten(blocks[i + 1..]);
      assert blocks[i..][1..] == blocks[i + 1..];
      assert buffer + Flatten(blocks[i..]) == (buffer + blocks[i]) + rest;
      var failed;
      p, buffer, failed := TakeFullBatches(p, buffer + blocks[i], batchSize, flat, rest);
      if failed {
        DoneIsChunked(p);
        return Failed(p.items), p.calls;
      }
    }
    assert blocks[|blocks|..] == [] && buffer + [] == buffer;
    if buffer != [] {
      var r := TakeBatch(p, buffer, batchSize, flat, []);
      if r.ValueError? {
        DoneIsChunked(p);
        return Failed(p.items), p.calls;
      }
      p := r.value;
    }
    FinishSeeding(flat, batchSize, p);
    p := FlushItems(p);
    outcome, calls := Seeded(p.uids, p.batches), p.calls;
  }

  lemma StartSeeding(flat: seq<string>, size: nat)
    requires 1 <= size
    ensures Seeding(flat, size, Progress([], [], 0, 0), flat)
  {
    var p := Progress([], [], 0, 0);
    assert Done(p) == [];
    var e := EncodeUntil(Chunks(flat, size));
    assert [] + e.entries == e.entries;
  }

  lemma FinishSeeding(flat: seq<string>, size: nat, p: Progress)
    requires Seeding(flat, size, p, []) && |p.items| <= ENQUEUE_CHUNK
    ensures EncodeUntil(Chunks(flat, size)) == Encoded(Done(p), true)
    ensures Chunks(Done(p), ENQUEUE_CHUNK) == p.calls + (if p.items == [] then [] else [p.items])
    ensures p.uids == |flat| && p.batches == |Chunks(flat, size)|
  {
    assert Done(p) + [] == Done(p);
    DoneIsChunked(p);
  }

  // ---------------------------------------------------------------- what seeding means

  /** The uids a sequence of work items asks for. */
  function UidsOf(entries: seq<WorkEntry>): seq<string> {
    if entries == [] then []
    else
      var first := DecodeKey(entries[0].key);
      (if first.Ok? then first.value else []) + UidsOf(entries[1..])
  }

  lemma {:induction false} NormalizeAllOfAppend(a: seq<string>, b: seq<string>)
    ensures NormalizeAll(a + b).Ok? <==> NormalizeAll(a).Ok? && NormalizeAll(b).Ok?
    ensures NormalizeAll(a + b).Ok? ==> NormalizeAll(a + b).value == NormalizeAll(a).value + NormalizeAll(b).value
  {
    if a == [] {
      assert a + b == b;
    } else {
      assert (a + b)[1..] == a[1..] + b;
      NormalizeAllOfAppend(a[1..], b);
    }
  }

  /** Seeding succeeds exactly when every uid of the stream is valid. */
  lemma {:induction false} SeedsExactlyValidStreams(stream: seq<string>, size: nat)
    requires 1 <= size <= UID_BATCH_SIZE
    ensures EncodeUntil(Chunks(stream, size)).complete <==> NormalizeAll(stream).Ok?
    decreases |stream|
  {
    if stream == [] {
    } else {
      var n := if size < |stream| then size else |stream|;
      var batch, rest := stream[..n], stream[n..];
      assert stream == batch + rest;
      FirstChunk(stream, size);
      assert Chunks(stream, size)[1..] == Chunks(rest, size);
      SeedsExactlyValidStreams(rest, size);
      EncodesNormalizable(batch);
      NormalizeAllOfAppend(batch, rest);
    }
  }

  /** Each work item says how many uids its key holds. */
  lemma {:induction false} EntriesCountTheirUids(batches: seq<seq<string>>)
    ensures forall entry | entry in EncodeUntil(batches).entries ::
              DecodeKey(entry.key).Ok? && entry.uids == |DecodeKey(entry.key).value|
  {
    if batches == [] || EncodeKey(batches[0]).ValueError? {
    } else {
      DecodeInvertsEncode(batches[0]);
      SortFacts(NormalizeAll(batches[0]).value);
      EntriesCountTheirUids(batches[1..]);
    }
  }

  /** Each uid of the stream is in exactly one batch: decoding all keys gives back the stream's
      uids, with their multiplicities. */
  lemma {:induction false} EveryUidIsSeededOnce(stream: seq<string>, size: nat)
    requires 1 <= size <= UID_BATCH_SIZE && NormalizeAll(stream).Ok?
    ensures multiset(UidsOf(EncodeUntil(Chunks(stream, size)).entries)) == multiset(NormalizeAll(stream).value)
    decreases |stream|
  {
    if stream == [] {
    } else {
      var n := if size < |stream| then size else |stream|;
      var batch, rest := stream[..n], stream[n..];
      assert stream == batch + rest;
      FirstChunk(stream, size);
      NormalizeAllOfAppend(batch, rest);
      EncodesNormalizable(batch);
      DecodeInvertsEncode(batch);
      SortFacts(NormalizeAll(batch).value);
      EveryUidIsSeededOnce(rest, size);
      var entries := EncodeUntil(Chunks(stream, size)).entries;
      assert Chunks(stream, size)[1..] == Chunks(rest, size);
      assert entries[1..] == EncodeUntil(Chunks(rest, size)).entries;
    }
  }
}
