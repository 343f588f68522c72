/** The shared rate limiter: callers reserve time slots and sleep until their own; a throttle
    bumps an epoch, which voids every slot reserved before it. Time is real-valued.

    The class is the limiter itself. The protocol lets any number of `wait` calls interleave
    with each other, with late wake-ups and with `slow_down` and `speed_up`. */
module RateLimiter {
  import opened Sequences

  datatype Limiter = Limiter(base: real, max: real, interval: real, next: real, epoch: nat)

  function Max(a: real, b: real): real {
    if a < b then b else a
  }

  function Min(a: real, b: real): real {
    if b < a then b else a
  }

  function New(interval: real, maximum: real): Limiter {
    Limiter(interval, Max(maximum, interval), interval, 0.0, 0)
  }

  function SlotAt(l: Limiter, now: real): real {
    Max(now, l.next)
  }

  function Reserved(l: Limiter, now: real): Limiter {
    l.(next := SlotAt(l, now) + l.interval)
  }

  /** `inLoop` is false when no event loop runs; the next slot is then left where it is. */
  function SlowedDown(l: Limiter, factor: real, now: real, inLoop: bool): Limiter {
    var interval := Min(l.max, Max(l.base, l.interval * factor));
    l.(interval := interval, epoch := l.epoch + 1,
       next := if inLoop then Max(l.next, now + interval) else l.next)
  }

  function SpedUp(l: Limiter, factor: real): Limiter {
    l.(interval := Max(l.base, l.interval * factor))
  }

  predicate Sound(l: Limiter) {
    0.0 <= l.base <= l.interval && l.base <= l.max
  }

  /** A new limiter starts at its base interval, with a maximum no smaller, and lets its first
      caller through at once. */
  lemma NewStartsAtBase(interval: real, maximum: real, now: real)
    requires 0.0 <= interval && 0.0 <= now
    ensures var l := New(interval, maximum);
            && Sound(l) && l.base == interval == l.interval && interval <= l.max && maximum <= l.max
            && (l.max == maximum || l.max == interval) && SlotAt(l, now) == now
  {
  }

  /** What reserving gains: no slot lies in the past, and the next one, whenever it is reserved,
      lies at least the interval now in force behind it. No slot lies later than that. */
  lemma ReservationsAreSpaced(l: Limiter, now: real, later: real)
    ensures now <= SlotAt(l, now) && l.next <= SlotAt(l, now)
    ensures SlotAt(l, now) + l.interval <= SlotAt(Reserved(l, now), later)
    ensures SlotAt(l, now) == now || SlotAt(l, now) == l.next
    ensures SlotAt(Reserved(l, now), later) == later || SlotAt(Reserved(l, now), later) == SlotAt(l, now) + l.interval
  {
  }

  /** What slowing down gains: the interval stays within its bounds, every slot reserved before
      is void, and no slot reserved from now on lies less than one new interval away. */
  lemma SlowDownHoldsBack(l: Limiter, factor: real, now: real, later: real)
    requires Sound(l)
    ensures var m := SlowedDown(l, factor, now, true);
            && m.base <= m.interval <= m.max && l.epoch < m.epoch
            && now + m.interval <= SlotAt(m, later) && l.next <= SlotAt(m, later)
            && (SlotAt(m, later) == later || SlotAt(m, later) == l.next || SlotAt(m, later) == now + m.interval)
    ensures 1.0 <= factor && l.interval <= l.max ==> l.interval <= SlowedDown(l, factor, now, true).interval
    ensures SlotAt(SlowedDown(l, factor, now, false), later) == SlotAt(l, later)
  {
    if 1.0 <= factor {
      ScalingUp(l.interval, factor);
    }
  }

  lemma ScalingUp(x: real, factor: real)
    requires 0.0 <= x && 1.0 <= factor
    ensures x <= x * factor
  {
    assert x * factor == x + x * (factor - 1.0);
  }

  class AsyncRateLimiter {
    const base: real
    const max: real
    var interval: real
    var next: real
    var epoch: nat

    constructor (intervalSeconds: real, maxIntervalSeconds: real)
      ensures View() == New(intervalSeconds, maxIntervalSeconds)
    {
      base := intervalSeconds;
      max := Max(maxIntervalSeconds, intervalSeconds);
      interval := intervalSeconds;
      next, epoch := 0.0, 0;
    }

    function View(): Limiter
      reads this
    {
      Limiter(base, max, interval, next, epoch)
    }

    method Reserve(now: real) returns (slot: real)
      modifies this
      ensures slot == SlotAt(old(View()), now) && View() == Reserved(old(View()), now)
    {
      slot := Max(now, next);
      next := slot + interval;
    }

    method SlowDown(factor: real, now: real, inLoop: bool)
      modifies this
      ensures View() == SlowedDown(old(View()), factor, now, inLoop)
    {
      interval := Min(max, Max(base, interval * factor));
      epoch := epoch + 1;
      if !inLoop { return; }
      next := Max(next, now + interval);
    }

    method SpeedUp(factor: real)
      modifies this
      ensures View() == SpedUp(old(View()), factor)
    {
      interval := Max(base, interval * factor);
    }

    /** One `wait` call. In each round it reserves, and sleeps while others act; it is admitted
        in the first round that sees no throttle, after at most one reservation per epoch that
        went by. `rounds` is how long we watch it. */
    method Wait(rounds: seq<Round>) returns (admitted: bool, reservations: nat)
      modifies this
      ensures reservations <= |rounds|
      ensures !admitted ==> reservations == |rounds|
      ensures reservations + old(epoch) <= epoch + (if admitted then 1 else 0)
      ensures admitted ==> 1 <= reservations && rounds[reservations - 1].Quiet()
      ensures forall i | 0 <= i < (if admitted then reservations - 1 else reservations) :: !rounds[i].Quiet()
    {
      admitted, reservations := false, 0;
      while reservations < |rounds|
        invariant reservations <= |rounds|
        invariant reservations + old(epoch) <= epoch
        invariant forall i | 0 <= i < reservations :: !rounds[i].Quiet()
      {
        var seen := epoch;
        var slot := Reserve(rounds[reservations].now);
        Interfere(rounds[reservations].others);
        reservations := reservations + 1;
        if seen == epoch {
          return true, reservations;
        }
      }
    }

    /** What other coroutines do to the limiter while one sleeps. */
    method Interfere(ops: seq<Op>)
      modifies this
      ensures epoch == old(epoch) + SlowDowns(ops)
    {
      for i := 0 to |ops|
        invariant epoch == old(epoch) + SlowDowns(ops[..i])
      {
        assert ops[..i + 1][..i] == ops[..i];
        match ops[i] {
          case Reserves(now) => var _ := Reserve(now);
          case Slows(factor, now, inLoop) => SlowDown(factor, now, inLoop);
          case Speeds(factor) => SpeedUp(factor);
        }
      }
      assert ops[..|ops|] == ops;
    }
  }

  datatype Op = Reserves(now: real) | Slows(factor: real, now: real, inLoop: bool) | Speeds(factor: real)

  function SlowDowns(ops: seq<Op>): nat {
    if ops == [] then 0
    else SlowDowns(ops[..|ops| - 1]) + (if ops[|ops| - 1].Slows? then 1 else 0)
  }

  datatype Round = Round(now: real, others: seq<Op>) {
    predicate Quiet() {
      SlowDowns(others) == 0
    }
  }

  // ---------------------------------------------------------------- the protocol

  type Caller = nat

  datatype Reservation = Reservation(owner: Caller, slot: real, epoch: nat)
  datatype Admission = Admission(index: nat, at: real)

  /** `log` lists all reservations in order; `waiting` gives the reservation each sleeping
      `wait` call holds; `served` are the calls that have returned. */
  datatype State = State(
    limiter: Limiter, now: real, log: seq<Reservation>, waiting: map<Caller, nat>,
    served: set<Caller>, admitted: seq<Admission>)

  datatype Action =
    | Reserve(who: Caller)
    | Admit(who: Caller)
    | Reject(who: Caller)
    | SlowDown(factor: real, inLoop: bool)
    | SpeedUp(factor: real)

  /** A sleeper wakes at its slot or later, never earlier. */
  ghost predicate Awake(s: State, who: Caller, t: real) {
    who in s.waiting && s.waiting[who] < |s.log| && s.log[s.waiting[who]].slot <= t
  }

  ghost predicate Step(s: State, a: Action, t: real, u: State) {
    && s.now <= t
    && match a
       case Reserve(who) =>
         && who !in s.waiting && who !in s.served
         && u == s.(now := t, limiter := Reserved(s.limiter, t), waiting := s.waiting[who := |s.log|],
                    log := s.log + [Reservation(who, SlotAt(s.limiter, t), s.limiter.epoch)])
       case Admit(who) =>
         && Awake(s, who, t) && s.log[s.waiting[who]].epoch == s.limiter.epoch
         && u == s.(now := t, waiting := s.waiting - {who}, served := s.served + {who},
                    admitted := s.admitted + [Admission(s.waiting[who], t)])
       case Reject(who) =>
         && Awake(s, who, t) && s.log[s.waiting[who]].epoch != s.limiter.epoch
         && u == s.(now := t, waiting := s.waiting - {who})
       case SlowDown(factor, inLoop) =>
         u == s.(now := t, limiter := SlowedDown(s.limiter, factor, t, inLoop))
       case SpeedUp(factor) =>
         u == s.(now := t, limiter := SpedUp(s.limiter, factor))
  }

  datatype Event = Event(action: Action, at: real)

  ghost predicate Run(states: seq<State>, events: seq<Event>) {
    && |states| == |events| + 1
    && forall i | 0 <= i < |events| :: Step(states[i], events[i].action, events[i].at, states[i + 1])
  }

  ghost predicate Initial(s: State) {
    && 0.0 <= s.limiter.base == s.limiter.interval <= s.limiter.max
    && s.log == [] && s.waiting == map[] && s.served == {} && s.admitted == []
  }

  // ---------------------------------------------------------------- what every step keeps

  /** Each sleeping call holds one of its own reservations. */
  ghost predicate WaitersFit(s: State) {
    forall w | w in s.waiting :: w !in s.served && s.waiting[w] < |s.log| && s.log[s.waiting[w]].owner == w
  }

  /** A reservation that its call neither holds nor was served by is of an older epoch. */
  ghost predicate EpochsFit(s: State) {
    && (forall i | 0 <= i < |s.log| :: s.log[i].epoch <= s.limiter.epoch)
    && (forall i | 0 <= i < |s.log| && s.log[i].owner !in s.served && s.log[i].epoch == s.limiter.epoch ::
          s.log[i].owner in s.waiting && s.waiting[s.log[i].owner] == i)
    && (forall i, j | 0 <= i < j < |s.log| && s.log[i].owner == s.log[j].owner :: s.log[i].epoch < s.log[j].epoch)
  }

  ghost predicate AdmissionFits(s: State, k: int) {
    && 0 <= k < |s.admitted| && s.admitted[k].index < |s.log|
    && s.log[s.admitted[k].index].owner in s.served
    && s.log[s.admitted[k].index].slot <= s.admitted[k].at <= s.now
  }

  /** Admissions are in time order, none before its slot, no reservation admitted twice. */
  ghost predicate AdmissionsFit(s: State) {
    && (forall k | 0 <= k < |s.admitted| :: AdmissionFits(s, k))
    && (forall j, k | 0 <= j < k < |s.admitted| ::
          s.admitted[j].index != s.admitted[k].index && s.admitted[j].at <= s.admitted[k].at)
  }

  ghost predicate Inv(s: State) {
    Sound(s.limiter) && WaitersFit(s) && EpochsFit(s) && AdmissionsFit(s)
  }

  lemma StepKeepsWaiters(s: State, a: Action, t: real, u: State)
    requires Sound(s.limiter) && WaitersFit(s) && Step(s, a, t, u)
    ensures Sound(u.limiter) && WaitersFit(u)
  {
  }

  lemma ReserveKeepsEpochs(s: State, who: Caller, t: real, u: State)
    requires WaitersFit(s) && EpochsFit(s) && Step(s, Reserve(who), t, u)
    ensures EpochsFit(u)
  {
    assert forall i | 0 <= i < |s.log| :: u.log[i] == s.log[i];
    assert forall i | 0 <= i < |s.log| && s.log[i].owner == who :: s.log[i].epoch < s.limiter.epoch;
  }

  lemma StepKeepsEpochs(s: State, a: Action, t: real, u: State)
    requires WaitersFit(s) && EpochsFit(s) && Step(s, a, t, u)
    ensures EpochsFit(u)
  {
    match a
    case Reserve(who) => ReserveKeepsEpochs(s, who, t, u);
    case _ =>
  }

  lemma StepKeepsAdmissions(s: State, a: Action, t: real, u: State)
    requires WaitersFit(s) && AdmissionsFit(s) && Step(s, a, t, u)
    ensures AdmissionsFit(u)
  {
    forall k | 0 <= k < |u.admitted| ensures AdmissionFits(u, k) {
      if k < |s.admitted| { assert AdmissionFits(s, k); }
    }
    if a.Admit? {
      var n := |s.admitted|;
      forall j | 0 <= j < n
        ensures u.admitted[j].index != u.admitted[n].index && u.admitted[j].at <= u.admitted[n].at
      {
        assert AdmissionFits(s, j);
      }
    }
  }

  lemma StepKeepsInv(s: State, a: Action, t: real, u: State)
    requires Inv(s) && Step(s, a, t, u)
    ensures Inv(u)
  {
    StepKeepsWaiters(s, a, t, u);
    StepKeepsEpochs(s, a, t, u);
    StepKeepsAdmissions(s, a, t, u);
  }

  lemma {:induction false} RunKeepsInv(states: seq<State>, events: seq<Event>, i: nat)
    requires Run(states, events) && Inv(states[0]) && i < |states|
    ensures Inv(states[i])
  {
    if i == 0 {
    } else {
      RunKeepsInv(states, events, i - 1);
      StepKeepsInv(states[i - 1], events[i - 1].action, events[i - 1].at, states[i]);
    }
  }

  /** From reservation `m` on, slots start at `first` or later and lie at least `gap` apart. */
  ghost predicate SlotsPaced(s: State, m: nat, first: real, gap: real) {
    && m <= |s.log|
    && (if |s.log| == m then first <= Max(s.now, s.limiter.next)
        else first <= s.log[m].slot && s.log[|s.log| - 1].slot + gap <= s.limiter.next)
    && (forall i | m < i < |s.log| :: s.log[i - 1].slot + gap <= s.log[i].slot)
  }

  /** From admission `n` on, only reservations from `m` on are admitted. */
  ghost predicate OnlyLaterAdmitted(s: State, m: nat, n: nat) {
    && n <= |s.admitted|
    && (forall w | w in s.waiting && s.waiting[w] < m ::
          s.waiting[w] < |s.log| && s.log[s.waiting[w]].epoch < s.limiter.epoch)
    && (forall k | n <= k < |s.admitted| :: m <= s.admitted[k].index)
  }

  ghost predicate Paced(s: State, m: nat, n: nat, first: real, gap: real) {
    SlotsPaced(s, m, first, gap) && OnlyLaterAdmitted(s, m, n)
  }

  lemma StepKeepsSlotsPaced(s: State, a: Action, t: real, u: State, m: nat, first: real, gap: real)
    requires Step(s, a, t, u) && SlotsPaced(s, m, first, gap) && gap <= s.limiter.interval
    ensures SlotsPaced(u, m, first, gap)
  {
    match a
    case Reserve(who) =>
      assert forall i | 0 <= i < |s.log| :: u.log[i] == s.log[i];
    case _ =>
  }

  lemma StepKeepsOnlyLater(s: State, a: Action, t: real, u: State, m: nat, n: nat)
    requires WaitersFit(s) && EpochsFit(s) && m <= |s.log| && Step(s, a, t, u) && OnlyLaterAdmitted(s, m, n)
    ensures OnlyLaterAdmitted(u, m, n)
  {
    match a
    case Reserve(who) =>
      assert forall i | 0 <= i < |s.log| :: u.log[i] == s.log[i];
    case _ =>
  }

  lemma StepKeepsPace(s: State, a: Action, t: real, u: State, m: nat, n: nat, first: real, gap: real)
    requires Inv(s) && Step(s, a, t, u) && Paced(s, m, n, first, gap) && gap <= s.limiter.interval
    ensures Paced(u, m, n, first, gap)
  {
    StepKeepsSlotsPaced(s, a, t, u, m, first, gap);
    StepKeepsOnlyLater(s, a, t, u, m, n);
  }

  lemma {:induction false} RunKeepsPace(states: seq<State>, events: seq<Event>, p: nat, q: nat, m: nat, n: nat,
                                        first: real, gap: real)
    requires Run(states, events) && Inv(states[0]) && p <= q < |states|
    requires Paced(states[p], m, n, first, gap)
    requires forall i | p <= i < q :: gap <= states[i].limiter.interval
    ensures Paced(states[q], m, n, first, gap)
  {
    if q <= p {
    } else {
      RunKeepsPace(states, events, p, q - 1, m, n, first, gap);
      RunKeepsInv(states, events, q - 1);
      StepKeepsPace(states[q - 1], events[q - 1].action, events[q - 1].at, states[q], m, n, first, gap);
    }
  }

  // ---------------------------------------------------------------- from spacing to a bound

  /** `k * gap`. */
  function Times(k: nat, gap: real): real {
    if k == 0 then 0.0 else Times(k - 1, gap) + gap
  }

  lemma {:induction false} TimesIsProduct(k: nat, gap: real)
    ensures Times(k, gap) == k as real * gap
  {
    if k == 0 {
    } else {
      TimesIsProduct(k - 1, gap);
      assert k as real == (k - 1) as real + 1.0;
    }
  }

  lemma {:induction false} PacedSlot(s: State, m: nat, first: real, gap: real, i: nat)
    requires SlotsPaced(s, m, first, gap) && m <= i < |s.log|
    ensures first + Times(i - m, gap) <= s.log[i].slot
  {
    if i == m {
      assert Times(0, gap) == 0.0;
    } else {
      PacedSlot(s, m, first, gap, i - 1);
      assert Times(i - m, gap) == Times(i - 1 - m, gap) + gap;
    }
  }

  lemma {:induction false} BelowIsSmall(s: set<nat>, k: nat)
    requires forall x | x in s :: x < k
    ensures |s| <= k
  {
    if k == 0 {
      assert s == {};
    } else {
      BelowIsSmall(s - {k - 1}, k - 1);
      if k - 1 in s { assert s == (s - {k - 1}) + {k - 1}; }
    }
  }

  lemma SomeIndexIsLarge(indexes: seq<nat>, m: nat)
    requires Distinct(indexes) && indexes != [] && forall i | 0 <= i < |indexes| :: m <= indexes[i]
    ensures exists i :: 0 <= i < |indexes| && m + |indexes| - 1 <= indexes[i]
  {
    if forall i | 0 <= i < |indexes| :: indexes[i] < m + |indexes| - 1 {
      var shifted: seq<nat> := seq(|indexes|, i requires 0 <= i < |indexes| => indexes[i] - m);
      assert forall i | 0 <= i < |indexes| :: shifted[i] == indexes[i] - m;
      DistinctElements(shifted);
      BelowIsSmall(Elements(shifted), |indexes| - 1);
    }
  }

  lemma {:induction false} TimesGrows(j: nat, k: nat, gap: real)
    requires j <= k && 0.0 <= gap
    ensures Times(j, gap) <= Times(k, gap)
  {
    if k <= j {
    } else {
      TimesGrows(j, k - 1, gap);
    }
  }

  /** The `k`-th admission of a paced stretch is not before `first + k * gap`. */
  lemma PacedAdmission(s: State, m: nat, n: nat, first: real, gap: real, k: nat)
    requires Inv(s) && Paced(s, m, n, first, gap) && 0.0 <= gap && n + k < |s.admitted|
    ensures first + Times(k, gap) <= s.admitted[n + k].at
  {
    var some := s.admitted[n..n + k + 1];
    var indexes: seq<nat> := seq(k + 1, i requires 0 <= i < k + 1 => some[i].index);
    SomeIndexIsLarge(indexes, m);
    var i :| 0 <= i < k + 1 && m + k <= indexes[i];
    assert AdmissionFits(s, n + i);
    PacedSlot(s, m, first, gap, indexes[i]);
    TimesGrows(k, indexes[i] - m, gap);
    assert s.admitted[n + i].at <= s.admitted[n + k].at;
  }

  // ---------------------------------------------------------------- rate bound

  /** Spacing: over any interleaving, any two reserved slots are at least `base` apart for each
      reservation between them. */
  lemma SlotsAreSpaced(states: seq<State>, events: seq<Event>, q: nat, i: nat, j: nat)
    requires Run(states, events) && Initial(states[0]) && q < |states|
    requires i <= j < |states[q].log|
    ensures states[q].log[i].slot + Times(j - i, states[0].limiter.base) <= states[q].log[j].slot
  {
    var base := states[0].limiter.base;
    AlwaysPaced(states, events, q);
    var s := states[q];
    SlotSteps(s, i, j, base);
  }

  lemma {:induction false} SlotSteps(s: State, i: nat, j: nat, base: real)
    requires i <= j < |s.log| && forall k | 0 < k < |s.log| :: s.log[k - 1].slot + base <= s.log[k].slot
    ensures s.log[i].slot + Times(j - i, base) <= s.log[j].slot
  {
    if i == j {
      assert Times(0, base) == 0.0;
    } else {
      SlotSteps(s, i, j - 1, base);
      assert Times(j - i, base) == Times(j - 1 - i, base) + base;
    }
  }

  lemma {:induction false} BaseIsFixed(states: seq<State>, events: seq<Event>, q: nat)
    requires Run(states, events) && q < |states|
    ensures states[q].limiter.base == states[0].limiter.base
  {
    if q == 0 {
    } else {
      BaseIsFixed(states, events, q - 1);
      assert Step(states[q - 1], events[q - 1].action, events[q - 1].at, states[q]);
    }
  }

  lemma AlwaysPaced(states: seq<State>, events: seq<Event>, q: nat)
    requires Run(states, events) && Initial(states[0]) && q < |states|
    ensures Inv(states[q]) && Paced(states[q], 0, 0, states[0].now, states[0].limiter.base)
  {
    RunKeepsInv(states, events, q);
    forall i | 0 <= i < q ensures states[0].limiter.base <= states[i].limiter.interval {
      RunKeepsInv(states, events, i);
      BaseIsFixed(states, events, i);
    }
    RunKeepsPace(states, events, 0, q, 0, 0, states[0].now, states[0].limiter.base);
  }

  lemma ProductGrows(a: real, b: real, base: real)
    requires 0.0 < base && a < b
    ensures a * base < b * base
  {
  }

  lemma QuotientBound(n: real, base: real, span: real)
    requires 0.0 < base && n * base <= span
    ensures n <= span / base
  {
    if n <= span / base {
    } else {
      ProductGrows(span / base, n, base);
    }
  }

  /** The rate bound: at most `1 + (t - t0) / base` calls are admitted by time `t`. */
  lemma AdmissionsAreBounded(states: seq<State>, events: seq<Event>, q: nat, t: real, count: nat)
    requires Run(states, events) && Initial(states[0]) && q < |states|
    requires 0.0 < states[0].limiter.base && states[0].now <= t
    requires count <= |states[q].admitted| && forall k | 0 <= k < count :: states[q].admitted[k].at <= t
    ensures count as real <= 1.0 + (t - states[0].now) / states[0].limiter.base
  {
    var base := states[0].limiter.base;
    if count != 0 {
      AlwaysPaced(states, events, q);
      PacedAdmission(states[q], 0, 0, states[0].now, base, count - 1);
      TimesIsProduct(count - 1, base);
      QuotientBound((count - 1) as real, base, t - states[0].now);
    }
  }

  // ---------------------------------------------------------------- throttling

  /** A `slow_down` in a running loop starts a paced stretch: no slot reserved before it is
      admitted after it, and the first new slot is at least one new interval away. */
  lemma SlowDownStartsStretch(s: State, a: Action, t: real, u: State, gap: real)
    requires Inv(s) && Step(s, a, t, u) && a.SlowDown? && a.inLoop
    ensures Paced(u, |u.log|, |u.admitted|, t + u.limiter.interval, gap)
  {
  }

  /** Throttle bite. After a `slow_down` at time `c` that leaves interval `I`, every later
      admission uses a slot reserved after it, and the `k`-th of them is at `c + I + k * base`
      or later, whatever happens next. */
  lemma ThrottleBites(states: seq<State>, events: seq<Event>, p: nat, q: nat, k: nat)
    requires Run(states, events) && Initial(states[0]) && p < q < |states|
    requires events[p].action.SlowDown? && events[p].action.inLoop
    requires |states[p].admitted| + k < |states[q].admitted|
    ensures var admission := states[q].admitted[|states[p].admitted| + k];
            && |states[p].log| <= admission.index
            && events[p].at + states[p + 1].limiter.interval + Times(k, states[0].limiter.base) <= admission.at
  {
    var base, u := states[0].limiter.base, states[p + 1];
    var m, n, first := |u.log|, |u.admitted|, events[p].at + u.limiter.interval;
    RunKeepsInv(states, events, p);
    RunKeepsInv(states, events, q);
    assert Step(states[p], events[p].action, events[p].at, u);
    SlowDownStartsStretch(states[p], events[p].action, events[p].at, u, base);
    forall i | p + 1 <= i < q ensures base <= states[i].limiter.interval {
      RunKeepsInv(states, events, i);
      BaseIsFixed(states, events, i);
    }
    RunKeepsPace(states, events, p + 1, q, m, n, first, base);
    PacedAdmission(states[q], m, n, first, base, k);
  }

  /** No `speed_up`, and no `slow_down` that would speed up. */
  ghost predicate OnlySlower(e: Event) {
    !e.action.SpeedUp? && (e.action.SlowDown? ==> 1.0 <= e.action.factor)
  }

  lemma {:induction false} IntervalStays(states: seq<State>, events: seq<Event>, p: nat, q: nat)
    requires Run(states, events) && Inv(states[0]) && p < q < |states|
    requires events[p].action.SlowDown? && forall i | p < i < q :: OnlySlower(events[i])
    ensures states[p + 1].limiter.interval <= states[q].limiter.interval
    ensures states[p + 1].limiter.interval <= states[q].limiter.max
  {
    if p + 1 == q {
      assert Step(states[p], events[p].action, events[p].at, states[q]);
    } else {
      IntervalStays(states, events, p, q - 1);
      RunKeepsInv(states, events, q - 1);
      assert Step(states[q - 1], events[q - 1].action, events[q - 1].at, states[q]) && OnlySlower(events[q - 1]);
      if events[q - 1].action.SlowDown? {
        var l := states[q - 1].limiter;
        assert l.interval * 1.0 <= l.interval * events[q - 1].action.factor;
      }
    }
  }

  /** While nothing speeds the limiter up again, the `k`-th later admission is at
      `c + (k + 1) * I` or later: the throttle holds for every slot, not only the first. */
  lemma ThrottleKeepsBiting(states: seq<State>, events: seq<Event>, p: nat, q: nat, k: nat)
    requires Run(states, events) && Initial(states[0]) && p < q < |states|
    requires events[p].action.SlowDown? && events[p].action.inLoop
    requires forall i | p < i < q :: OnlySlower(events[i])
    requires |states[p].admitted| + k < |states[q].admitted|
    ensures events[p].at + Times(k + 1, states[p + 1].limiter.interval)
              <= states[q].admitted[|states[p].admitted| + k].at
  {
    var u := states[p + 1];
    var gap := u.limiter.interval;
    var m, n, first := |u.log|, |u.admitted|, events[p].at + gap;
    RunKeepsInv(states, events, p);
    RunKeepsInv(states, events, p + 1);
    RunKeepsInv(states, events, q);
    assert Step(states[p], events[p].action, events[p].at, u);
    SlowDownStartsStretch(states[p], events[p].action, events[p].at, u, gap);
    forall i | p + 1 <= i < q ensures gap <= states[i].limiter.interval {
      IntervalStays(states, events, p, i);
    }
    RunKeepsPace(states, events, p + 1, q, m, n, first, gap);
    PacedAdmission(states[q], m, n, first, gap, k);
    assert Times(k + 1, gap) == Times(k, gap) + gap;
  }

  // ---------------------------------------------------------------- how the interval moves

  /** `x` times the factor, `k` times over. */
  function Scaled(x: real, factor: real, k: nat): real {
    if k == 0 then x else Scaled(x, factor, k - 1) * factor
  }

  function Throttles(events: seq<Event>): nat {
    if events == [] then 0
    else Throttles(events[..|events| - 1]) + (if events[|events| - 1].action.SlowDown? then 1 else 0)
  }

  function Relaxes(events: seq<Event>): nat {
    if events == [] then 0
    else Relaxes(events[..|events| - 1]) + (if events[|events| - 1].action.SpeedUp? then 1 else 0)
  }

  lemma {:induction false} MaximumIsFixed(states: seq<State>, events: seq<Event>, q: nat)
    requires Run(states, events) && q < |states|
    ensures states[q].limiter.max == states[0].limiter.max
  {
    if q == 0 {
    } else {
      MaximumIsFixed(states, events, q - 1);
      assert Step(states[q - 1], events[q - 1].action, events[q - 1].at, states[q]);
    }
  }

  lemma {:induction false} ScaledGrows(x: real, factor: real, k: nat)
    requires 0.0 <= x && 1.0 <= factor
    ensures x <= Scaled(x, factor, k)
  {
    if k == 0 {
    } else {
      ScaledGrows(x, factor, k - 1);
      ScalingUp(Scaled(x, factor, k - 1), factor);
    }
  }

  lemma {:induction false} ScaledIsPositive(x: real, factor: real, k: nat)
    requires 0.0 <= x && 0.0 <= factor
    ensures 0.0 <= Scaled(x, factor, k)
  {
    if k == 0 {
    } else {
      ScaledIsPositive(x, factor, k - 1);
    }
  }

  function Capped(x: real, max: real): real {
    if x <= max then x else max
  }

  function Floored(x: real, base: real): real {
    if base <= x then x else base
  }

  lemma CappedTimes(base: real, x: real, max: real, factor: real)
    requires 0.0 <= base <= x && base <= max && 1.0 <= factor
    ensures base <= Capped(x, max) * factor && Capped(Capped(x, max) * factor, max) == Capped(x * factor, max)
  {
    ScalingUp(x, factor);
    ScalingUp(max, factor);
    if x <= max {
      assert Capped(x, max) == x;
    } else {
      assert Capped(x, max) == max;
    }
  }

  /** What one event does to an interval that some throttles left. */
  lemma ThrottledInterval(s: State, e: Event, u: State, x: real, factor: real)
    requires Step(s, e.action, e.at, u) && !e.action.SpeedUp? && (e.action.SlowDown? ==> e.action.factor == factor)
    requires 0.0 <= s.limiter.base <= x && s.limiter.base <= s.limiter.max && 1.0 <= factor
    requires s.limiter.interval == Capped(x, s.limiter.max)
    ensures u.limiter.interval == Capped(if e.action.SlowDown? then x * factor else x, s.limiter.max)
  {
    CappedTimes(s.limiter.base, x, s.limiter.max, factor);
  }

  /** The same for an interval that `k` throttles left. */
  lemma ThrottledStep(s: State, e: Event, u: State, base: real, factor: real, k: nat)
    requires Step(s, e.action, e.at, u) && !e.action.SpeedUp? && (e.action.SlowDown? ==> e.action.factor == factor)
    requires 0.0 <= s.limiter.base == base <= s.limiter.max && 1.0 <= factor
    requires s.limiter.interval == Capped(Scaled(base, factor, k), s.limiter.max)
    ensures u.limiter.interval
              == Capped(Scaled(base, factor, if e.action.SlowDown? then k + 1 else k), s.limiter.max)
  {
    ScaledGrows(base, factor, k);
    ThrottledInterval(s, e, u, Scaled(base, factor, k), factor);
  }

  lemma ThrottlesStep(events: seq<Event>, q: nat)
    requires q < |events|
    ensures Throttles(events[..q + 1]) == Throttles(events[..q]) + (if events[q].action.SlowDown? then 1 else 0)
  {
    assert events[..q + 1][..q] == events[..q];
  }

  lemma {:induction false} ThrottledIntervals(
    states: seq<State>, events: seq<Event>, q: nat, factor: real, k: nat)
    requires Run(states, events) && Initial(states[0]) && q < |states| && 1.0 <= factor
    requires forall i | 0 <= i < q :: !events[i].action.SpeedUp?
    requires forall i | 0 <= i < q && events[i].action.SlowDown? :: events[i].action.factor == factor
    requires k == Throttles(events[..q])
    ensures states[q].limiter.interval == Capped(Scaled(states[0].limiter.base, factor, k), states[0].limiter.max)
  {
    if q == 0 {
    } else {
      var n := if events[q - 1].action.SlowDown? then k - 1 else k;
      ThrottlesStep(events, q - 1);
      ThrottledIntervals(states, events, q - 1, factor, n);
      BaseIsFixed(states, events, q - 1);
      MaximumIsFixed(states, events, q - 1);
      ThrottledStep(states[q - 1], events[q - 1], states[q], states[0].limiter.base, factor, n);
    }
  }

  /** Throttles compound. From a new limiter, while nothing speeds it up, the interval after some
      throttles by one factor is the base interval times that factor for each of them, or the
      maximum if that is smaller. */
  lemma ThrottlesCompound(states: seq<State>, events: seq<Event>, q: nat, factor: real)
    requires Run(states, events) && Initial(states[0]) && q < |states| && 1.0 <= factor
    requires forall i | 0 <= i < q :: !events[i].action.SpeedUp?
    requires forall i | 0 <= i < q && events[i].action.SlowDown? :: events[i].action.factor == factor
    ensures var slower, max := Scaled(states[0].limiter.base, factor, Throttles(events[..q])), states[0].limiter.max;
            states[q].limiter.interval == if slower <= max then slower else max
  {
    ThrottledIntervals(states, events, q, factor, Throttles(events[..q]));
  }

  lemma ScalingDown(x: real, factor: real)
    requires 0.0 <= x && 0.0 <= factor <= 1.0
    ensures x * factor <= x
  {
    assert x * factor == x - x * (1.0 - factor);
  }

  lemma FlooredTimes(base: real, x: real, factor: real)
    requires 0.0 <= base && 0.0 <= x && 0.0 <= factor <= 1.0
    ensures Floored(Floored(x, base) * factor, base) == Floored(x * factor, base)
  {
    ScalingDown(x, factor);
    ScalingDown(base, factor);
    if base <= x {
      assert Floored(x, base) == x;
    } else {
      assert Floored(x, base) == base;
    }
  }

  lemma RelaxedInterval(s: State, e: Event, u: State, x: real, factor: real)
    requires Step(s, e.action, e.at, u) && !e.action.SlowDown? && (e.action.SpeedUp? ==> e.action.factor == factor)
    requires 0.0 <= s.limiter.base && 0.0 <= x && 0.0 <= factor <= 1.0
    requires s.limiter.interval == Floored(x, s.limiter.base)
    ensures u.limiter.interval == Floored(if e.action.SpeedUp? then x * factor else x, s.limiter.base)
  {
    FlooredTimes(s.limiter.base, x, factor);
  }

  lemma RelaxedStep(s: State, e: Event, u: State, from: real, factor: real, k: nat)
    requires Step(s, e.action, e.at, u) && !e.action.SlowDown? && (e.action.SpeedUp? ==> e.action.factor == factor)
    requires 0.0 <= s.limiter.base && 0.0 <= from && 0.0 <= factor <= 1.0
    requires s.limiter.interval == Floored(Scaled(from, factor, k), s.limiter.base)
    ensures u.limiter.interval
              == Floored(Scaled(from, factor, if e.action.SpeedUp? then k + 1 else k), s.limiter.base)
  {
    ScaledIsPositive(from, factor, k);
    RelaxedInterval(s, e, u, Scaled(from, factor, k), factor);
  }

  lemma RelaxesStep(events: seq<Event>, p: nat, q: nat)
    requires p <= q < |events|
    ensures Relaxes(events[p..q + 1]) == Relaxes(events[p..q]) + (if events[q].action.SpeedUp? then 1 else 0)
  {
    assert events[p..q + 1][..q - p] == events[p..q];
  }

  lemma {:induction false} RelaxedIntervals(
    states: seq<State>, events: seq<Event>, p: nat, q: nat, factor: real, k: nat)
    requires Run(states, events) && Inv(states[0]) && p <= q < |states| && 0.0 <= factor <= 1.0
    requires forall i | p <= i < q :: !events[i].action.SlowDown?
    requires forall i | p <= i < q && events[i].action.SpeedUp? :: events[i].action.factor == factor
    requires k == Relaxes(events[p..q])
    ensures states[q].limiter.interval
              == Floored(Scaled(states[p].limiter.interval, factor, k), states[0].limiter.base)
  {
    RunKeepsInv(states, events, p);
    BaseIsFixed(states, events, p);
    if p == q {
    } else {
      var n := if events[q - 1].action.SpeedUp? then k - 1 else k;
      RelaxesStep(events, p, q - 1);
      RelaxedIntervals(states, events, p, q - 1, factor, n);
      BaseIsFixed(states, events, q - 1);
      RelaxedStep(states[q - 1], events[q - 1], states[q], states[p].limiter.interval, factor, n);
    }
  }

  /** Relaxing compounds as well: while nothing throttles, the interval after some calls of
      `speed_up` by one factor is the interval before times that factor for each of them, or the
      base interval if that is larger. */
  lemma RelaxingCompounds(states: seq<State>, events: seq<Event>, p: nat, q: nat, factor: real)
    requires Run(states, events) && Inv(states[0]) && p <= q < |states| && 0.0 <= factor <= 1.0
    requires forall i | p <= i < q :: !events[i].action.SlowDown?
    requires forall i | p <= i < q && events[i].action.SpeedUp? :: events[i].action.factor == factor
    ensures var base, faster := states[0].limiter.base,
                                Scaled(states[p].limiter.interval, factor, Relaxes(events[p..q]));
            states[q].limiter.interval == if base <= faster then faster else base
  {
    RelaxedIntervals(states, events, p, q, factor, Relaxes(events[p..q]));
  }

  lemma {:induction false} TimesIsMonotone(k: nat, a: real, b: real)
    requires a <= b
    ensures Times(k, a) <= Times(k, b)
  {
    if k == 0 {
    } else {
      TimesIsMonotone(k - 1, a, b);
    }
  }

  /** A throttle slows by its factor: of the interval `I` before it at time `c`, the `k`-th later
      admission is at `c + (k + 1) * min(max, factor * I)` or later, while nothing speeds the
      limiter up. */
  lemma ThrottleSlowsByItsFactor(states: seq<State>, events: seq<Event>, p: nat, q: nat, k: nat)
    requires Run(states, events) && Initial(states[0]) && p < q < |states|
    requires events[p].action.SlowDown? && events[p].action.inLoop && 1.0 <= events[p].action.factor
    requires forall i | p < i < q :: OnlySlower(events[i])
    requires |states[p].admitted| + k < |states[q].admitted|
    ensures var slower, max := states[p].limiter.interval * events[p].action.factor, states[0].limiter.max;
            events[p].at + Times(k + 1, if slower <= max then slower else max)
              <= states[q].admitted[|states[p].admitted| + k].at
  {
    var slower, max := states[p].limiter.interval * events[p].action.factor, states[0].limiter.max;
    assert Step(states[p], events[p].action, events[p].at, states[p + 1]);
    MaximumIsFixed(states, events, p);
    ThrottleKeepsBiting(states, events, p, q, k);
    TimesIsMonotone(k + 1, if slower <= max then slower else max, states[p + 1].limiter.interval);
  }

  /** A `wait` call reserves again only after the epoch has moved: its reservations carry
      strictly increasing epochs. */
  lemma ReReservesOncePerEpoch(states: seq<State>, events: seq<Event>, q: nat, i: nat, j: nat)
    requires Run(states, events) && Initial(states[0]) && q < |states|
    requires i < j < |states[q].log| && states[q].log[i].owner == states[q].log[j].owner
    ensures states[q].log[i].epoch < states[q].log[j].epoch <= states[q].limiter.epoch
  {
    RunKeepsInv(states, events, q);
  }
}
