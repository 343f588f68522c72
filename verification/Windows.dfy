/** The adaptive scan's windows: which block ranges a scan asks for, given which of its calls
    the provider rejects as too large. The range halves on a rejection, down to a minimum, and
    doubles on success, up to a maximum. */
module Windows {

  datatype Limits = Limits(initial: nat, maximum: nat, minimum: nat)

  predicate Usable(l: Limits) {
    1 <= l.initial && 1 <= l.maximum && 1 <= l.minimum
  }

  /** The provider's answer to a scan's i-th call, for blocks `lo..hi` inclusive. */
  type Verdicts = (nat, nat, nat) -> bool

  datatype Window = Window(lo: nat, hi: nat)

  function UpperBound(cursor: nat, range: nat, end: nat): nat
    requires 1 <= range && cursor <= end
  {
    if cursor + range - 1 < end then cursor + range - 1 else end
  }

  function Halved(l: Limits, range: nat): nat {
    if range / 2 < l.minimum then l.minimum else range / 2
  }

  function Doubled(l: Limits, range: nat): nat {
    if l.maximum < range * 2 then l.maximum else range * 2
  }

  /** The windows committed, the calls rejected, and whether the scan gave up. */
  datatype Scanned = Scanned(windows: seq<Window>, rejected: nat, raised: bool)

  function ScanFrom(l: Limits, accepts: Verdicts, cursor: nat, range: nat, end: nat, call: nat): Scanned
    requires Usable(l) && 1 <= range
    decreases end + 1 - cursor, range
  {
    if end < cursor then Scanned([], 0, false)
    else
      var upper := UpperBound(cursor, range, end);
      if accepts(call, cursor, upper) then
        var rest := ScanFrom(l, accepts, upper + 1, Doubled(l, range), end, call + 1);
        rest.(windows := [Window(cursor, upper)] + rest.windows)
      else if range <= l.minimum then Scanned([], 1, true)
      else
        var rest := ScanFrom(l, accepts, cursor, Halved(l, range), end, call + 1);
        rest.(rejected := rest.rejected + 1)
  }

  /** What one call leaves of a scan. */
  lemma ScanStep(l: Limits, accepts: Verdicts, cursor: nat, range: nat, end: nat, call: nat)
    requires Usable(l) && 1 <= range && cursor <= end
    ensures var s, upper := ScanFrom(l, accepts, cursor, range, end, call), UpperBound(cursor, range, end);
            if accepts(call, cursor, upper) then
              var rest := ScanFrom(l, accepts, upper + 1, Doubled(l, range), end, call + 1);
              s.windows == [Window(cursor, upper)] + rest.windows && s.raised == rest.raised
            else if l.minimum < range then
              var rest := ScanFrom(l, accepts, cursor, Halved(l, range), end, call + 1);
              s.windows == rest.windows && s.raised == rest.raised
            else s.windows == [] && s.raised
  {
  }

  function Calls(s: Scanned): nat {
    |s.windows| + s.rejected
  }

  // ---------------------------------------------------------------- tiling

  /** The windows follow each other without gap or overlap from `from` up to, not including, `to`. */
  predicate Tiles(windows: seq<Window>, from: nat, to: nat) {
    if windows == [] then from == to
    else windows[0].lo == from && from <= windows[0].hi && Tiles(windows[1..], windows[0].hi + 1, to)
  }

  predicate Tiled(s: Scanned, cursor: nat, next: nat, end: nat) {
    Tiles(s.windows, cursor, next) && cursor <= next <= end + 1 && (!s.raised <==> next == end + 1)
  }

  lemma TiledByOneMore(s: Scanned, rest: Scanned, first: Window, next: nat, end: nat)
    requires first.lo <= first.hi && Tiled(rest, first.hi + 1, next, end)
    requires s.windows == [first] + rest.windows && s.raised == rest.raised
    ensures Tiled(s, first.lo, next, end)
  {
    assert s.windows[1..] == rest.windows;
  }

  /** Whatever is rejected, the committed windows tile a prefix of the range; a scan that does
      not give up tiles all of it. */
  lemma {:induction false} ScanTiles(l: Limits, accepts: Verdicts, cursor: nat, range: nat, end: nat, call: nat)
      returns (next: nat)
    requires Usable(l) && 1 <= range && cursor <= end + 1
    ensures Tiled(ScanFrom(l, accepts, cursor, range, end, call), cursor, next, end)
    decreases end + 1 - cursor, range
  {
    if end < cursor {
      next := cursor;
    } else {
      ScanStep(l, accepts, cursor, range, end, call);
      var s, upper := ScanFrom(l, accepts, cursor, range, end, call), UpperBound(cursor, range, end);
      if accepts(call, cursor, upper) {
        next := ScanTiles(l, accepts, upper + 1, Doubled(l, range), end, call + 1);
        TiledByOneMore(s, ScanFrom(l, accepts, upper + 1, Doubled(l, range), end, call + 1), Window(cursor, upper),
                       next, end);
      } else if l.minimum < range {
        next := ScanTiles(l, accepts, cursor, Halved(l, range), end, call + 1);
      } else {
        next := cursor;
      }
    }
  }

  lemma {:induction false} TilesAreDisjoint(windows: seq<Window>, from: nat, to: nat, i: nat, j: nat)
    requires Tiles(windows, from, to) && i < j < |windows|
    ensures from <= windows[i].lo <= windows[i].hi < windows[j].lo <= windows[j].hi < to
  {
    if i == 0 {
      TileBounds(windows[1..], windows[0].hi + 1, to, j - 1);
    } else {
      TilesAreDisjoint(windows[1..], windows[0].hi + 1, to, i - 1, j - 1);
    }
  }

  lemma {:induction false} TileBounds(windows: seq<Window>, from: nat, to: nat, i: nat)
    requires Tiles(windows, from, to) && i < |windows|
    ensures from <= windows[i].lo <= windows[i].hi < to
  {
    TilesRise(windows, from, to);
    if i != 0 {
      TileBounds(windows[1..], windows[0].hi + 1, to, i - 1);
    } else {
      TilesRise(windows[1..], windows[0].hi + 1, to);
    }
  }

  /** The window of a block inside the tiling. */
  lemma {:induction false} TileAt(windows: seq<Window>, from: nat, to: nat, n: nat) returns (i: nat)
    requires Tiles(windows, from, to) && from <= n < to
    ensures i < |windows| && windows[i].lo <= n <= windows[i].hi
  {
    if n <= windows[0].hi {
      i := 0;
    } else {
      i := TileAt(windows[1..], windows[0].hi + 1, to, n);
      i := i + 1;
    }
  }

  lemma {:induction false} TilesLast(windows: seq<Window>, from: nat, to: nat)
    requires Tiles(windows, from, to) && windows != []
    ensures var last := windows[|windows| - 1];
            && Tiles(windows[..|windows| - 1], from, last.lo)
            && from <= last.lo <= last.hi && last.hi + 1 == to
  {
    var rest := windows[1..];
    if rest == [] {
    } else {
      TilesLast(rest, windows[0].hi + 1, to);
      assert windows[..|windows| - 1][1..] == rest[..|rest| - 1];
    }
  }

  lemma {:induction false} TilesRise(windows: seq<Window>, from: nat, to: nat)
    requires Tiles(windows, from, to)
    ensures from <= to
  {
    if windows == [] {
    } else {
      TilesRise(windows[1..], windows[0].hi + 1, to);
    }
  }

  // ---------------------------------------------------------------- how the range moves

  function Smaller(a: nat, b: nat): nat {
    if a < b then a else b
  }

  function Larger(a: nat, b: nat): nat {
    if a < b then b else a
  }

  function TwoToThe(k: nat): nat {
    if k == 0 then 1 else 2 * TwoToThe(k - 1)
  }

  lemma {:induction false} TwoToTheIsPositive(k: nat)
    ensures 1 <= TwoToThe(k)
  {
    if k == 0 {
    } else {
      TwoToTheIsPositive(k - 1);
    }
  }

  lemma CapTwice(x: nat, maximum: nat, p: nat)
    requires 1 <= p
    ensures Smaller(maximum, Smaller(maximum, x) * p) == Smaller(maximum, x * p)
  {
    assert maximum * p == maximum + maximum * (p - 1) && x * p == x + x * (p - 1);
  }

  /** A range after `i` acceptances: doubled that many times, up to the maximum. */
  function Grown(l: Limits, range: nat, i: nat): nat {
    if i == 0 then range else Smaller(l.maximum, range * TwoToThe(i))
  }

  lemma GrownByOne(l: Limits, range: nat, i: nat)
    ensures Grown(l, Doubled(l, range), i) == Grown(l, range, i + 1)
  {
    if i == 0 {
      assert TwoToThe(1) == 2 * TwoToThe(0) && range * TwoToThe(1) == range * 2;
    } else {
      TwoToTheIsPositive(i);
      CapTwice(range * 2, l.maximum, TwoToThe(i));
      assert range * 2 * TwoToThe(i) == range * TwoToThe(i + 1);
    }
  }

  /** While calls are accepted the windows double: the i-th window has `Grown` blocks, and only the
      last window of the scan may be cut short by the end. */
  lemma {:induction false} AcceptedWindowsDouble(l: Limits, accepts: Verdicts, cursor: nat, range: nat, end: nat,
      call: nat, i: nat)
    requires Usable(l) && 1 <= range && forall c: nat, lo: nat, hi: nat :: accepts(c, lo, hi)
    requires i < |ScanFrom(l, accepts, cursor, range, end, call).windows|
    ensures var windows := ScanFrom(l, accepts, cursor, range, end, call).windows;
            windows[i].hi + 1 == Smaller(windows[i].lo + Grown(l, range, i), end + 1)
    decreases i
  {
    ScanStep(l, accepts, cursor, range, end, call);
    if i == 0 {
    } else {
      var upper := UpperBound(cursor, range, end);
      AcceptedWindowsDouble(l, accepts, upper + 1, Doubled(l, range), end, call + 1, i - 1);
      GrownByOne(l, range, i - 1);
    }
  }

  /** A range, halved `k` times and rounded down. */
  function HalvedTimes(range: nat, k: nat): nat {
    if k == 0 then range else HalvedTimes(range, k - 1) / 2
  }

  lemma {:induction false} HalvedTimesFalls(range: nat, j: nat, k: nat)
    requires j <= k
    ensures HalvedTimes(range, k) <= HalvedTimes(range, j)
  {
    if j == k {
    } else {
      HalvedTimesFalls(range, j, k - 1);
    }
  }

  /** While calls are rejected the range halves: after `k` rejections in a row the scan asks from
      the same block for half as much each time, but never for less than the minimum, and it gives
      up if it is rejected once more there. */
  lemma {:induction false} RejectionsHalve(l: Limits, accepts: Verdicts, cursor: nat, range: nat, end: nat,
      call: nat, k: nat)
    requires Usable(l) && 1 <= range && cursor <= end
    requires forall c: nat, lo: nat, hi: nat | call <= c < call + k :: !accepts(c, lo, hi)
    requires k > 0 ==> l.minimum < HalvedTimes(range, k - 1)
    ensures var size := if k == 0 then range else Larger(l.minimum, HalvedTimes(range, k));
            var s, rest := ScanFrom(l, accepts, cursor, range, end, call),
                           ScanFrom(l, accepts, cursor, size, end, call + k);
            && s.windows == rest.windows && s.raised == rest.raised && s.rejected == rest.rejected + k
            && (!accepts(call + k, cursor, UpperBound(cursor, size, end)) && size <= l.minimum
                ==> s.windows == [] && s.raised && s.rejected == k + 1)
  {
    if k == 0 {
    } else {
      HalvedTimesFalls(range, k - 1, k);
      if k > 1 { HalvedTimesFalls(range, k - 2, k - 1); }
      RejectionsHalve(l, accepts, cursor, range, end, call, k - 1);
    }
  }

  // ---------------------------------------------------------------- cost

  /** How often a range can be halved before it is at the minimum. */
  function Halvings(l: Limits, range: nat): nat
    requires Usable(l)
    decreases range
  {
    if range <= l.minimum then 0 else 1 + Halvings(l, Halved(l, range))
  }

  lemma {:induction false} HalvingsGrow(l: Limits, r: nat, s: nat)
    requires Usable(l) && r <= s
    ensures Halvings(l, r) <= Halvings(l, s)
    decreases s
  {
    if r <= l.minimum {
    } else {
      HalvingsGrow(l, Halved(l, r), Halved(l, s));
    }
  }

  lemma DoublingCostsOneHalving(l: Limits, r: nat)
    requires Usable(l) && 1 <= r
    ensures Halvings(l, Doubled(l, r)) <= 1 + Halvings(l, r)
  {
    HalvingsGrow(l, Doubled(l, r), r * 2);
    if l.minimum < r * 2 {
      assert (r * 2) / 2 == r;
      HalvingsGrow(l, Halved(l, r * 2), if r < l.minimum then l.minimum else r);
    }
  }

  /** Amortised cost: rejected calls are paid for by accepted ones, up to the halvings from the
      initial range to the minimum. The call that makes a scan give up comes on top. */
  lemma {:induction false} RejectionsAreAmortised(l: Limits, accepts: Verdicts, cursor: nat, range: nat, end: nat,
      call: nat)
    requires Usable(l) && 1 <= range
    ensures var s := ScanFrom(l, accepts, cursor, range, end, call);
            s.rejected <= |s.windows| + Halvings(l, range) + (if s.raised then 1 else 0)
    decreases end + 1 - cursor, range
  {
    if end < cursor {
    } else {
      var upper := UpperBound(cursor, range, end);
      if accepts(call, cursor, upper) {
        RejectionsAreAmortised(l, accepts, upper + 1, Doubled(l, range), end, call + 1);
        DoublingCostsOneHalving(l, range);
      } else if l.minimum < range {
        RejectionsAreAmortised(l, accepts, cursor, Halved(l, range), end, call + 1);
      }
    }
  }

  /** The provider accepts every window of at most `largest` blocks. */
  ghost predicate AcceptsUpTo(accepts: Verdicts, largest: nat) {
    forall call: nat, lo: nat, hi: nat | lo <= hi < lo + largest :: accepts(call, lo, hi)
  }

  /** The size below which windows never fall when every window of `largest` blocks is accepted. */
  function Floor(l: Limits, largest: nat): nat {
    Smaller(l.initial, Smaller(l.maximum, (largest + 1) / 2))
  }

  function CeilDiv(n: nat, m: nat): nat
    requires 1 <= m
  {
    (n + m - 1) / m
  }

  lemma CeilDivStep(n: nat, m: nat)
    requires 1 <= m <= n
    ensures CeilDiv(n, m) == 1 + CeilDiv(n - m, m)
  {
    assert n + m - 1 == (n - m + m - 1) + m;
    DivStep(n - m + m - 1, m);
  }

  lemma {:induction false} MulGap(p: nat, q: nat, m: nat)
    requires p < q
    ensures p * m + m <= q * m
  {
    if q <= p + 1 {
    } else {
      MulGap(p, q - 1, m);
    }
    assert q * m == (q - 1) * m + m;
  }

  lemma QuotientIsUnique(m: nat, p: nat, r: nat, q: nat, s: nat)
    requires p * m + r == q * m + s && r < m && s < m
    ensures p == q
  {
    if p < q { MulGap(p, q, m); }
    if q < p { MulGap(q, p, m); }
  }

  lemma DivStep(a: nat, m: nat)
    requires 1 <= m
    ensures (a + m) / m == a / m + 1
  {
    var q := a / m;
    assert (q + 1) * m == q * m + m;
    QuotientIsUnique(m, (a + m) / m, (a + m) % m, q + 1, a % m);
  }

  lemma {:induction false} CeilDivGrows(a: nat, b: nat, m: nat)
    requires 1 <= m && a <= b
    ensures CeilDiv(a, m) <= CeilDiv(b, m)
    decreases b
  {
    if a == 0 {
    } else if m <= a {
      CeilDivStep(a, m);
      CeilDivStep(b, m);
      CeilDivGrows(a - m, b - m, m);
    } else {
      CeilDivOfSmall(a, m);
      if m <= b { CeilDivStep(b, m); } else { CeilDivOfSmall(b, m); }
    }
  }

  lemma CeilDivOfSmall(n: nat, m: nat)
    requires 1 <= n <= m
    ensures CeilDiv(n, m) == 1
  {
    DivStep(n - 1, m);
    assert (n - 1) / m == 0;
  }

  /** With such a provider no scan gives up, and it commits at most one window per `Floor`
      blocks, rounded up. */
  lemma {:induction false} CapableProviderIsCheap(l: Limits, accepts: Verdicts, largest: nat, cursor: nat, range: nat,
      end: nat, call: nat)
    requires Usable(l) && l.minimum <= largest && AcceptsUpTo(accepts, largest)
    requires Floor(l, largest) <= range && 1 <= range && cursor <= end + 1
    ensures var s := ScanFrom(l, accepts, cursor, range, end, call);
            && !s.raised
            && 1 <= Floor(l, largest) && |s.windows| <= CeilDiv(end + 1 - cursor, Floor(l, largest))
    decreases end + 1 - cursor, range
  {
    var m := Floor(l, largest);
    if end < cursor {
    } else {
      var upper := UpperBound(cursor, range, end);
      if accepts(call, cursor, upper) {
        CapableProviderIsCheap(l, accepts, largest, upper + 1, Doubled(l, range), end, call + 1);
        if upper == end {
          CeilDivGrows(1, end + 1 - cursor, m);
          CeilDivOfSmall(1, m);
        } else {
          CeilDivStep(end + 1 - cursor, m);
          CeilDivGrows(end - upper, end + 1 - cursor - m, m);
        }
      } else {
        assert largest < range;
        CapableProviderIsCheap(l, accepts, largest, cursor, Halved(l, range), end, call + 1);
      }
    }
  }

  /** The whole cost of such a scan, rejected calls included. */
  lemma CapableProviderCost(l: Limits, accepts: Verdicts, largest: nat, start: nat, end: nat)
    requires Usable(l) && l.minimum <= largest && AcceptsUpTo(accepts, largest) && start <= end + 1
    ensures var s := ScanFrom(l, accepts, start, l.initial, end, 0);
            && !s.raised && 1 <= Floor(l, largest)
            && Calls(s) <= 2 * CeilDiv(end + 1 - start, Floor(l, largest)) + Halvings(l, l.initial)
  {
    CapableProviderIsCheap(l, accepts, largest, start, l.initial, end, 0);
    RejectionsAreAmortised(l, accepts, start, l.initial, end, 0);
  }
}
