/** The bounded, expiring set of work ids a process enqueued recently. An id found in it is
    not written again. The class updates an insertion-ordered dictionary in place; the
    functions say what one call does to it, and the lemmas say what a caller can observe over
    any sequence of calls. */
module RecentEnqueues {
  import opened VersionedTable
  import opened WorkLedger
  import opened Sequences

  type Seconds = real

  datatype Entry = Entry(id: WorkId, expires: Seconds)

  /** The dictionary, least recently seen first. */
  type Entries = seq<Entry>

  datatype Config = Config(ttl: Seconds, maxEntries: nat)

  predicate Enabled(c: Config) {
    0.0 < c.ttl && 0 < c.maxEntries
  }

  function Ids(seen: Entries): (ids: seq<WorkId>)
    ensures |ids| == |seen|
  {
    if seen == [] then [] else [seen[0].id] + Ids(seen[1..])
  }

  function Lookup(seen: Entries, id: WorkId): (e: Option<Seconds>)
    ensures e.None? <==> id !in Ids(seen)
  {
    if seen == [] then None
    else if seen[0].id == id then Some(seen[0].expires)
    else Lookup(seen[1..], id)
  }

  function Remove(seen: Entries, id: WorkId): Entries {
    if seen == [] then []
    else if seen[0].id == id then Remove(seen[1..], id)
    else [seen[0]] + Remove(seen[1..], id)
  }

  /** Set the expiry of an id and move it to the recent end. */
  function Touch(seen: Entries, id: WorkId, expires: Seconds): Entries {
    Remove(seen, id) + [Entry(id, expires)]
  }

  predicate Suppressed(seen: Entries, id: WorkId, now: Seconds) {
    Lookup(seen, id).Some? && now < Lookup(seen, id).value
  }

  datatype Taken = Taken(seen: Entries, newIds: seq<WorkId>)

  function See(t: Taken, id: WorkId, now: Seconds, ttl: Seconds): Taken {
    if Suppressed(t.seen, id, now) then
      t.(seen := Touch(t.seen, id, Lookup(t.seen, id).value))
    else
      Taken(Touch(t.seen, id, now + ttl), t.newIds + [id])
  }

  function SeeAll(seen: Entries, ids: seq<WorkId>, now: Seconds, ttl: Seconds): Taken {
    if ids == [] then Taken(seen, [])
    else
      var n := |ids| - 1;
      See(SeeAll(seen, ids[..n], now, ttl), ids[n], now, ttl)
  }

  function Newest<T>(s: seq<T>, max: nat): seq<T> {
    if |s| <= max then s else s[|s| - max..]
  }

  function TakeNew(c: Config, seen: Entries, ids: seq<WorkId>, now: Seconds): Taken {
    if !Enabled(c) then Taken(seen, ids)
    else
      var t := SeeAll(seen, ids, now, c.ttl);
      t.(seen := Newest(t.seen, c.maxEntries))
  }

  class RecentEnqueues {
    const config: Config
    var seen: Entries
    /** Every call so far. */
    ghost var calls: seq<Call>

    ghost predicate Valid()
      reads this
    {
      seen == SeenAfter(config, calls)
    }

    constructor (ttl: Seconds, maxEntries: int)
      ensures config == Config(if ttl < 0.0 then 0.0 else ttl, if maxEntries < 0 then 0 else maxEntries)
      ensures Valid() && seen == [] && calls == []
    {
      config := Config(if ttl < 0.0 then 0.0 else ttl, if maxEntries < 0 then 0 else maxEntries);
      seen, calls := [], [];
    }

    method TakeNewIds(ids: seq<WorkId>, now: Seconds) returns (newIds: seq<WorkId>)
      requires Valid()
      modifies this
      ensures Valid() && calls == old(calls) + [Call(ids, now)]
      ensures Taken(seen, newIds) == TakeNew(config, old(seen), ids, now)
      ensures newIds == Fresh(config, calls, |old(calls)|)
    {
      newIds := Take(ids, now);
      calls := calls + [Call(ids, now)];
      assert calls[..|calls| - 1] == old(calls);
    }

    method Take(ids: seq<WorkId>, now: Seconds) returns (newIds: seq<WorkId>)
      modifies this`seen
      ensures Taken(seen, newIds) == TakeNew(config, old(seen), ids, now)
    {
      if !Enabled(config) {
        return ids;
      }
      newIds := [];
      for i := 0 to |ids|
        invariant Taken(seen, newIds) == SeeAll(old(seen), ids[..i], now, config.ttl)
      {
        var id := ids[i];
        assert ids[..i + 1][..i] == ids[..i];
        var expires := Lookup(seen, id);
        if expires.Some? && now < expires.value {
          seen := Touch(seen, id, expires.value);
          continue;
        }
        seen := Touch(seen, id, now + config.ttl);
        newIds := newIds + [id];
      }
      assert ids[..|ids|] == ids;
      ghost var all := seen;
      while config.maxEntries < |seen|
        invariant |seen| <= |all| && seen == all[|all| - |seen|..]
        invariant |all| <= config.maxEntries ==> seen == all
        invariant config.maxEntries <= |all| ==> config.maxEntries <= |seen|
      {
        seen := seen[1..];
      }
    }
  }

  // ---------------------------------------------------------------- histories

  datatype Call = Call(ids: seq<WorkId>, now: Seconds)

  predicate TimesRise(calls: seq<Call>) {
    forall i, j | 0 <= i <= j < |calls| :: calls[i].now <= calls[j].now
  }

  /** The dictionary after a sequence of calls on a new object. */
  function SeenAfter(c: Config, calls: seq<Call>): Entries {
    if calls == [] then []
    else
      var n := |calls| - 1;
      TakeNew(c, SeenAfter(c, calls[..n]), calls[n].ids, calls[n].now).seen
  }

  /** What call `i` of the sequence returns. */
  function Fresh(c: Config, calls: seq<Call>, i: nat): seq<WorkId>
    requires i < |calls|
  {
    TakeNew(c, SeenAfter(c, calls[..i]), calls[i].ids, calls[i].now).newIds
  }

  /** When an id was last returned to a caller, who then tries to write it. Whether the write
      succeeds, the dictionary never learns. */
  function LastReturned(c: Config, calls: seq<Call>, id: WorkId): Option<Seconds> {
    if calls == [] then None
    else
      var n := |calls| - 1;
      if id in Fresh(c, calls, n) then Some(calls[n].now) else LastReturned(c, calls[..n], id)
  }

  function RemoveId(order: seq<WorkId>, id: WorkId): seq<WorkId> {
    if order == [] then []
    else if order[0] == id then RemoveId(order[1..], id)
    else [order[0]] + RemoveId(order[1..], id)
  }

  function Mention(order: seq<WorkId>, ids: seq<WorkId>): seq<WorkId> {
    if ids == [] then order
    else
      var n := |ids| - 1;
      RemoveId(Mention(order, ids[..n]), ids[n]) + [ids[n]]
  }

  /** Every id ever passed in, once, ordered by its last mention. */
  function Mentioned(calls: seq<Call>): seq<WorkId> {
    if calls == [] then []
    else
      var n := |calls| - 1;
      Mention(Mentioned(calls[..n]), calls[n].ids)
  }

  // ---------------------------------------------------------------- one call

  lemma {:induction false} RemoveLookup(seen: Entries, id: WorkId, x: WorkId)
    ensures Lookup(Remove(seen, id), x) == if x == id then None else Lookup(seen, x)
  {
    if seen == [] {
    } else {
      RemoveLookup(seen[1..], id, x);
      if seen[0].id != id {
        assert Remove(seen, id)[1..] == Remove(seen[1..], id);
      }
    }
  }

  lemma {:induction false} RemoveIds(seen: Entries, id: WorkId)
    ensures Ids(Remove(seen, id)) == RemoveId(Ids(seen), id)
  {
    if seen == [] {
    } else {
      RemoveIds(seen[1..], id);
      assert Ids(seen)[1..] == Ids(seen[1..]);
      if seen[0].id != id {
        assert Remove(seen, id)[1..] == Remove(seen[1..], id);
      }
    }
  }

  lemma {:induction false} IdsOfAppend(a: Entries, b: Entries)
    ensures Ids(a + b) == Ids(a) + Ids(b)
  {
    if a == [] {
      assert a + b == b;
    } else {
      assert (a + b)[1..] == a[1..] + b;
      IdsOfAppend(a[1..], b);
    }
  }

  lemma {:induction false} AppendLookup(seen: Entries, e: Entry, x: WorkId)
    ensures Lookup(seen + [e], x) ==
              if Lookup(seen, x).Some? then Lookup(seen, x) else if e.id == x then Some(e.expires) else None
  {
    if seen == [] {
    } else {
      assert (seen + [e])[1..] == seen[1..] + [e];
      AppendLookup(seen[1..], e, x);
    }
  }

  lemma TouchLookup(seen: Entries, id: WorkId, expires: Seconds, x: WorkId)
    ensures Lookup(Touch(seen, id, expires), x) == if x == id then Some(expires) else Lookup(seen, x)
    ensures Ids(Touch(seen, id, expires)) == RemoveId(Ids(seen), id) + [id]
  {
    RemoveLookup(seen, id, x);
    RemoveIds(seen, id);
    AppendLookup(Remove(seen, id), Entry(id, expires), x);
    IdsOfAppend(Remove(seen, id), [Entry(id, expires)]);
  }

  /** One call, before eviction: an id is returned unless it was suppressed on entry; a
      returned id expires a full ttl later, and every other expiry is what it was. */
  lemma {:induction false} SeeAllLookup(seen: Entries, ids: seq<WorkId>, now: Seconds, ttl: Seconds, x: WorkId)
    requires 0.0 < ttl
    ensures var t := SeeAll(seen, ids, now, ttl);
            && (x in t.newIds <==> x in ids && !Suppressed(seen, x, now))
            && Lookup(t.seen, x) == if x in t.newIds then Some(now + ttl) else Lookup(seen, x)
  {
    if ids == [] {
    } else {
      var n := |ids| - 1;
      assert ids == ids[..n] + [ids[n]];
      SeeAllLookup(seen, ids[..n], now, ttl, x);
      SeeAllLookup(seen, ids[..n], now, ttl, ids[n]);
      var t := SeeAll(seen, ids[..n], now, ttl);
      var expires := if Suppressed(t.seen, ids[n], now) then Lookup(t.seen, ids[n]).value else now + ttl;
      TouchLookup(t.seen, ids[n], expires, x);
    }
  }

  lemma {:induction false} RemoveIdFacts(order: seq<WorkId>, id: WorkId)
    requires Distinct(order)
    ensures Distinct(RemoveId(order, id))
    ensures forall x :: x in RemoveId(order, id) <==> x in order && x != id
    ensures id !in order ==> RemoveId(order, id) == order
    ensures |order| - 1 <= |RemoveId(order, id)| <= |order|
  {
    if order == [] {
    } else {
      var tail := order[1..];
      assert order == [order[0]] + tail;
      RemoveIdFacts(tail, id);
      assert order[0] !in tail;
    }
  }

  lemma {:induction false} RemoveIdOfAppend(a: seq<WorkId>, b: seq<WorkId>, id: WorkId)
    ensures RemoveId(a + b, id) == RemoveId(a, id) + RemoveId(b, id)
  {
    if a == [] {
      assert a + b == b;
    } else {
      assert (a + b)[1..] == a[1..] + b;
      RemoveIdOfAppend(a[1..], b, id);
    }
  }

  lemma MentionOne(order: seq<WorkId>, id: WorkId)
    requires Distinct(order)
    ensures Distinct(RemoveId(order, id) + [id])
    ensures |order| <= |RemoveId(order, id) + [id]|
  {
    RemoveIdFacts(order, id);
  }

  /** `forgotten` is what eviction has dropped of the ids by recency. */
  ghost predicate Splits(order: seq<WorkId>, forgotten: seq<WorkId>, kept: seq<WorkId>) {
    Distinct(order) && order == forgotten + kept
  }

  lemma TouchSplits(seen: Entries, order: seq<WorkId>, id: WorkId, expires: Seconds, forgotten: seq<WorkId>)
    requires Splits(order, forgotten, Ids(seen))
    ensures Splits(RemoveId(order, id) + [id], RemoveId(forgotten, id), Ids(Touch(seen, id, expires)))
    ensures |RemoveId(forgotten, id)| <= |forgotten| && |seen| <= |Touch(seen, id, expires)|
  {
    TouchLookup(seen, id, expires, id);
    RemoveIdOfAppend(forgotten, Ids(seen), id);
    DistinctParts(forgotten, Ids(seen));
    MentionOne(order, id);
    MentionOne(Ids(seen), id);
    RemoveIdFacts(forgotten, id);
    assert RemoveId(order, id) + [id] == RemoveId(forgotten, id) + (RemoveId(Ids(seen), id) + [id]);
  }

  lemma {:induction false} SeeAllSplits(seen: Entries, order: seq<WorkId>, ids: seq<WorkId>, now: Seconds,
                                        ttl: Seconds, forgotten: seq<WorkId>)
      returns (left: seq<WorkId>)
    requires Splits(order, forgotten, Ids(seen))
    ensures Splits(Mention(order, ids), left, Ids(SeeAll(seen, ids, now, ttl).seen))
    ensures |left| <= |forgotten| && |seen| <= |SeeAll(seen, ids, now, ttl).seen|
  {
    if ids == [] {
      left := forgotten;
    } else {
      var n := |ids| - 1;
      left := SeeAllSplits(seen, order, ids[..n], now, ttl, forgotten);
      var t, o, id := SeeAll(seen, ids[..n], now, ttl).seen, Mention(order, ids[..n]), ids[n];
      TouchSplits(t, o, id, if Suppressed(t, id, now) then Lookup(t, id).value else now + ttl, left);
      left := RemoveId(left, id);
    }
  }

  lemma {:induction false} DropLookup(seen: Entries, k: nat, x: WorkId)
    requires k <= |seen| && Distinct(Ids(seen))
    ensures Ids(seen[k..]) == Ids(seen)[k..]
    ensures Lookup(seen[k..], x) == if x in Ids(seen)[k..] then Lookup(seen, x) else None
  {
    if k == 0 {
      assert seen[k..] == seen && Ids(seen)[k..] == Ids(seen);
    } else {
      var tail := seen[1..];
      assert seen[k..] == tail[k - 1..] && Ids(seen)[k..] == Ids(tail)[k - 1..];
      DistinctParts([seen[0].id], Ids(tail));
      DropLookup(tail, k - 1, x);
      if x in Ids(tail)[k - 1..] {
        var j :| 0 <= j < |Ids(tail)| && Ids(tail)[j] == x;
        assert Ids(seen)[j + 1] == x && Ids(seen)[0] == seen[0].id;
      }
    }
  }

  lemma SuffixIsNewest<T>(left: seq<T>, kept: seq<T>, max: nat)
    requires left == [] || max <= |kept|
    ensures Newest(left + kept, max) == Newest(kept, max)
  {
    if left == [] {
      assert left + kept == kept;
    } else {
      assert (left + kept)[|left + kept| - max..] == kept[|kept| - max..];
    }
  }

  lemma IdsOfNewest(seen: Entries, max: nat, x: WorkId)
    requires Distinct(Ids(seen))
    ensures Ids(Newest(seen, max)) == Newest(Ids(seen), max)
    ensures x in Ids(Newest(seen, max)) ==> Lookup(Newest(seen, max), x) == Lookup(seen, x)
  {
    if max < |seen| {
      DropLookup(seen, |seen| - max, x);
    }
  }

  lemma SeeAllKeepsNewest(seen: Entries, order: seq<WorkId>, ids: seq<WorkId>, now: Seconds, ttl: Seconds, max: nat)
    requires Distinct(order) && Ids(seen) == Newest(order, max)
    ensures var all, after := Ids(SeeAll(seen, ids, now, ttl).seen), Mention(order, ids);
            Distinct(after) && Distinct(all) && Newest(after, max) == Newest(all, max)
  {
    var forgotten := order[..|order| - |Ids(seen)|];
    assert order == forgotten + Ids(seen);
    var left := SeeAllSplits(seen, order, ids, now, ttl, forgotten);
    var all := Ids(SeeAll(seen, ids, now, ttl).seen);
    DistinctParts(left, all);
    SuffixIsNewest(left, all, max);
  }

  lemma CallOrder(c: Config, seen: Entries, order: seq<WorkId>, call: Call)
    requires Enabled(c) && Distinct(order) && Ids(seen) == Newest(order, c.maxEntries)
    ensures var t, after := TakeNew(c, seen, call.ids, call.now), Mention(order, call.ids);
            Distinct(after) && Ids(t.seen) == Newest(after, c.maxEntries)
  {
    SeeAllKeepsNewest(seen, order, call.ids, call.now, c.ttl, c.maxEntries);
    IdsOfNewest(SeeAll(seen, call.ids, call.now, c.ttl).seen, c.maxEntries, "");
  }

  lemma CallLookup(c: Config, seen: Entries, order: seq<WorkId>, call: Call, x: WorkId)
    requires Enabled(c) && Distinct(order) && Ids(seen) == Newest(order, c.maxEntries)
    ensures var t := TakeNew(c, seen, call.ids, call.now);
            x in Ids(t.seen) ==> Lookup(t.seen, x) == Lookup(SeeAll(seen, call.ids, call.now, c.ttl).seen, x)
  {
    SeeAllKeepsNewest(seen, order, call.ids, call.now, c.ttl, c.maxEntries);
    IdsOfNewest(SeeAll(seen, call.ids, call.now, c.ttl).seen, c.maxEntries, x);
  }

  lemma CallExpiries(c: Config, seen: Entries, order: seq<WorkId>, call: Call, x: WorkId)
    requires Enabled(c) && Distinct(order) && Ids(seen) == Newest(order, c.maxEntries)
    ensures var t := TakeNew(c, seen, call.ids, call.now);
            && (x in t.newIds <==> x in call.ids && !Suppressed(seen, x, call.now))
            && (x in Ids(t.seen) ==>
                  Lookup(t.seen, x) == if x in t.newIds then Some(call.now + c.ttl) else Lookup(seen, x))
  {
    CallLookup(c, seen, order, call, x);
    SeeAllLookup(seen, call.ids, call.now, c.ttl, x);
  }

  /** The whole effect of one call on a dictionary that holds the most recently mentioned ids. */
  lemma CallEffect(c: Config, seen: Entries, order: seq<WorkId>, call: Call, x: WorkId)
    requires Enabled(c) && Distinct(order) && Ids(seen) == Newest(order, c.maxEntries)
    ensures var t, after := TakeNew(c, seen, call.ids, call.now), Mention(order, call.ids);
            && Distinct(after) && Ids(t.seen) == Newest(after, c.maxEntries)
            && (x in t.newIds <==> x in call.ids && !Suppressed(seen, x, call.now))
            && (x in Ids(t.seen) ==>
                  Lookup(t.seen, x) == if x in t.newIds then Some(call.now + c.ttl) else Lookup(seen, x))
  {
    CallOrder(c, seen, order, call);
    CallExpiries(c, seen, order, call, x);
  }

  lemma FirstTake(c: Config, x: WorkId, now: Seconds)
    requires Enabled(c)
    ensures TakeNew(c, [], [x], now) == Taken([Entry(x, now + c.ttl)], [x])
  {
    assert [x][..0] == [];
    assert SeeAll([], [x], now, c.ttl) == See(Taken([], []), x, now, c.ttl);
    assert Touch([], x, now + c.ttl) == [Entry(x, now + c.ttl)];
  }

  // ---------------------------------------------------------------- any sequence of calls

  /** The dictionary holds exactly the `maxEntries` most recently mentioned ids, in order. */
  lemma {:induction false} KeepsTheMostRecent(c: Config, calls: seq<Call>)
    requires Enabled(c)
    ensures Distinct(Mentioned(calls))
    ensures Ids(SeenAfter(c, calls)) == Newest(Mentioned(calls), c.maxEntries)
  {
    if calls == [] {
    } else {
      var n := |calls| - 1;
      KeepsTheMostRecent(c, calls[..n]);
      CallEffect(c, SeenAfter(c, calls[..n]), Mentioned(calls[..n]), calls[n], "");
    }
  }

  /** A remembered expiry is one ttl after the id was last returned: seeing the id again never
      extends it. */
  lemma {:induction false} ExpiryDatesFromLastReturn(c: Config, calls: seq<Call>, id: WorkId)
    requires Enabled(c)
    ensures Lookup(SeenAfter(c, calls), id).Some? ==>
              && LastReturned(c, calls, id).Some?
              && Lookup(SeenAfter(c, calls), id).value == LastReturned(c, calls, id).value + c.ttl
  {
    if calls == [] {
    } else {
      var n := |calls| - 1;
      ExpiryDatesFromLastReturn(c, calls[..n], id);
      KeepsTheMostRecent(c, calls[..n]);
      CallEffect(c, SeenAfter(c, calls[..n]), Mentioned(calls[..n]), calls[n], id);
      assert Fresh(c, calls, n) == TakeNew(c, SeenAfter(c, calls[..n]), calls[n].ids, calls[n].now).newIds;
    }
  }

  /** The id is among the most recently mentioned and was last returned less than ttl ago. */
  predicate RecentlyReturned(c: Config, calls: seq<Call>, id: WorkId, now: Seconds) {
    && id in Newest(Mentioned(calls), c.maxEntries)
    && LastReturned(c, calls, id).Some?
    && now < LastReturned(c, calls, id).value + c.ttl
  }

  predicate Remembers(c: Config, calls: seq<Call>, id: WorkId, now: Seconds) {
    Enabled(c) && RecentlyReturned(c, calls, id, now)
  }

  /** Without a ttl or without room, nothing is ever left out. */
  lemma DisabledReturnsAll(c: Config, calls: seq<Call>, i: nat)
    requires i < |calls| && (c.ttl <= 0.0 || c.maxEntries == 0)
    ensures Fresh(c, calls, i) == calls[i].ids
  {
  }

  lemma {:induction false} NewIdsInOrder(seen: Entries, ids: seq<WorkId>, now: Seconds, ttl: Seconds, a: nat, b: nat)
      returns (p: nat, q: nat)
    requires Distinct(ids) && a < b < |ids|
    requires ids[a] in SeeAll(seen, ids, now, ttl).newIds && ids[b] in SeeAll(seen, ids, now, ttl).newIds
    ensures var newIds := SeeAll(seen, ids, now, ttl).newIds;
            p < q < |newIds| && newIds[p] == ids[a] && newIds[q] == ids[b]
  {
    var n := |ids| - 1;
    var earlier := SeeAll(seen, ids[..n], now, ttl).newIds;
    assert ids[a] in earlier;
    if b < n {
      p, q := NewIdsInOrder(seen, ids[..n], now, ttl, a, b);
    } else {
      p :| 0 <= p < |earlier| && earlier[p] == ids[a];
      NewIdsAreAsked(seen, ids[..n], now, ttl);
      q := |earlier|;
    }
  }

  lemma {:induction false} NewIdsAreAsked(seen: Entries, ids: seq<WorkId>, now: Seconds, ttl: Seconds)
    ensures forall id | id in SeeAll(seen, ids, now, ttl).newIds :: id in ids
  {
    if ids == [] {
    } else {
      var n := |ids| - 1;
      NewIdsAreAsked(seen, ids[..n], now, ttl);
      assert ids == ids[..n] + [ids[n]];
    }
  }

  /** A call keeps the order of the ids it returns. */
  lemma FreshKeepsTheOrder(c: Config, calls: seq<Call>, i: nat, a: nat, b: nat) returns (p: nat, q: nat)
    requires i < |calls| && Distinct(calls[i].ids) && a < b < |calls[i].ids|
    requires calls[i].ids[a] in Fresh(c, calls, i) && calls[i].ids[b] in Fresh(c, calls, i)
    ensures p < q < |Fresh(c, calls, i)|
    ensures Fresh(c, calls, i)[p] == calls[i].ids[a] && Fresh(c, calls, i)[q] == calls[i].ids[b]
  {
    if Enabled(c) {
      p, q := NewIdsInOrder(SeenAfter(c, calls[..i]), calls[i].ids, calls[i].now, c.ttl, a, b);
    } else {
      p, q := a, b;
    }
  }

  /** Exactly when an id is left out of a call: it is among the `maxEntries` most recently
      mentioned ids and was last returned less than one ttl ago. */
  lemma LeftOutExactlyWhenRecentlyReturned(c: Config, calls: seq<Call>, i: nat, id: WorkId)
    requires Enabled(c) && i < |calls|
    ensures id in Fresh(c, calls, i) <==>
              id in calls[i].ids && !RecentlyReturned(c, calls[..i], id, calls[i].now)
  {
    KeepsTheMostRecent(c, calls[..i]);
    CallEffect(c, SeenAfter(c, calls[..i]), Mentioned(calls[..i]), calls[i], id);
    ExpiryDatesFromLastReturn(c, calls[..i], id);
  }

  /** Call `j` returned the id and no call from there up to `i` did. */
  ghost predicate LastReturnedBy(c: Config, calls: seq<Call>, id: WorkId, j: int, i: int) {
    && 0 <= j < i <= |calls| && id in Fresh(c, calls, j)
    && forall k | j < k < i :: id !in Fresh(c, calls, k)
  }

  lemma {:induction false} LastReturnedIsACall(c: Config, calls: seq<Call>, i: nat, id: WorkId) returns (j: nat)
    requires i <= |calls| && LastReturned(c, calls[..i], id).Some?
    ensures LastReturnedBy(c, calls, id, j, i)
    ensures calls[j].now == LastReturned(c, calls[..i], id).value
  {
    var n := i - 1;
    assert calls[..i][..n] == calls[..n];
    if id in Fresh(c, calls, n) {
      j := n;
    } else {
      j := LastReturnedIsACall(c, calls, n, id);
    }
  }

  /** Bounded suppression: an id left out at `t` was returned by an earlier call at some `s`
      with `s <= t < s + ttl`, and no call since returned it. */
  lemma SuppressionIsBounded(c: Config, calls: seq<Call>, i: nat, id: WorkId)
    requires Enabled(c) && TimesRise(calls) && i < |calls|
    requires id in calls[i].ids && id !in Fresh(c, calls, i)
    ensures exists j :: LastReturnedBy(c, calls, id, j, i + 1) && calls[j].now <= calls[i].now < calls[j].now + c.ttl
  {
    LeftOutExactlyWhenRecentlyReturned(c, calls, i, id);
    var j := LastReturnedIsACall(c, calls, i, id);
    assert LastReturnedBy(c, calls, id, j, i + 1);
  }

  /** While no more ids were ever mentioned than fit, the cap plays no part: the result is the
      plain rule "returned less than ttl ago". */
  lemma WithoutEvictionOnlyTheTtlCounts(c: Config, calls: seq<Call>, i: nat, id: WorkId)
    requires Enabled(c) && i < |calls| && |Mentioned(calls[..i])| <= c.maxEntries
    ensures id in Fresh(c, calls, i) <==>
              && id in calls[i].ids
              && (|| LastReturned(c, calls[..i], id).None?
                  || LastReturned(c, calls[..i], id).value + c.ttl <= calls[i].now)
  {
    LeftOutExactlyWhenRecentlyReturned(c, calls, i, id);
    if LastReturned(c, calls[..i], id).Some? {
      ReturnedIdsAreMentioned(c, calls[..i], id);
    }
  }

  lemma {:induction false} ReturnedIdsAreMentioned(c: Config, calls: seq<Call>, id: WorkId)
    requires Enabled(c) && LastReturned(c, calls, id).Some?
    ensures id in Mentioned(calls)
  {
    var n := |calls| - 1;
    KeepsTheMostRecent(c, calls[..n]);
    CallEffect(c, SeenAfter(c, calls[..n]), Mentioned(calls[..n]), calls[n], id);
    MentionMembers(Mentioned(calls[..n]), calls[n].ids, id);
    if id !in Fresh(c, calls, n) {
      ReturnedIdsAreMentioned(c, calls[..n], id);
    }
  }

  lemma {:induction false} MentionMembers(order: seq<WorkId>, ids: seq<WorkId>, x: WorkId)
    requires Distinct(order)
    ensures Distinct(Mention(order, ids))
    ensures x in Mention(order, ids) <==> x in order || x in ids
  {
    if ids == [] {
    } else {
      var n := |ids| - 1;
      assert ids == ids[..n] + [ids[n]];
      MentionMembers(order, ids[..n], x);
      RemoveIdFacts(Mention(order, ids[..n]), ids[n]);
      MentionOne(Mention(order, ids[..n]), ids[n]);
    }
  }
}
