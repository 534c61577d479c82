/** What the rate limiter does over whole runs with a clock that does not go back. */
module LimiterRuns {
  import opened Common
  import opened Limiter

  datatype Op = SetLimit(hour: u32, limit: u64) | Transfer(hour: u32, amount: u64)

  /** An update opens the limiter or changes only its cap; a refused transfer is reverted. */
  function StepRing(r: Option<Ring>, op: Op): Option<Ring> {
    match op
    case SetLimit(hour, limit) =>
      if r.None? then Some(Fresh(hour, limit)) else Some(r.value.(limit := limit))
    case Transfer(hour, amount) =>
      if Accepts(r, op) then Some(Admit(r.value, hour, amount).value) else r
  }

  predicate Accepts(r: Option<Ring>, op: Op) {
    op.Transfer? && r.Some? && Admit(r.value, op.hour, op.amount).Ok?
  }

  function RunRing(ops: seq<Op>): Option<Ring> {
    if ops == [] then None else StepRing(RunRing(ops[..|ops| - 1]), ops[|ops| - 1])
  }

  ghost predicate ClockOk(ops: seq<Op>) {
    forall i, j | 0 <= i < j < |ops| :: ops[i].hour <= ops[j].hour
  }

  /** Hour `now` is no earlier than any operation of the run. */
  ghost predicate NotBefore(ops: seq<Op>, now: u32) {
    forall i | 0 <= i < |ops| :: ops[i].hour <= now
  }

  /** Plain reading of the ring: one counter, the hour it counts, and the window start. */
  datatype Meter = Meter(limit: u64, oldest: u32, last: u32, used: nat) {
    predicate Resets(now: u32) {
      now > last || now - oldest >= SLOTS
    }

    function UsedAt(now: u32): nat {
      if Resets(now) then 0 else used
    }

    predicate Admits(now: u32, amount: u64) {
      UsedAt(now) + amount <= limit
    }

    function After(now: u32, amount: u64): Meter
      requires oldest <= now
    {
      Meter(limit, oldest + Min(now - oldest, SLOTS), now, UsedAt(now) + amount)
    }
  }

  function StepMeter(m: Option<Meter>, op: Op): Option<Meter> {
    match op
    case SetLimit(hour, limit) =>
      if m.None? then Some(Meter(limit, hour, hour, 0)) else Some(m.value.(limit := limit))
    case Transfer(hour, amount) =>
      if Takes(m, op) then Some(m.value.After(hour, amount)) else m
  }

  predicate Takes(m: Option<Meter>, op: Op) {
    op.Transfer? && m.Some? && m.value.oldest <= op.hour && m.value.Admits(op.hour, op.amount)
  }

  function RunMeter(ops: seq<Op>): Option<Meter> {
    if ops == [] then None else StepMeter(RunMeter(ops[..|ops| - 1]), ops[|ops| - 1])
  }

  /** The ring holds everything in the bucket of the last accepted hour. */
  ghost predicate Coupled(r: Ring, m: Meter) {
    && m.limit == r.limit
    && m.oldest == r.oldest <= m.last
    && r.hourly[m.last % SLOTS] == m.used
    && (forall k: nat | k < SLOTS && k != m.last % SLOTS :: r.hourly[k] == 0)
  }

  lemma {:induction false} TotalOfOne(s: seq<u64>, k: nat)
    requires k < |s|
    requires forall i: nat | i < |s| && i != k :: s[i] == 0
    ensures Total(s) == s[k]
  {
    var front := s[..|s| - 1];
    if k == |s| - 1 {
      TotalOfZeros(front);
    } else {
      TotalOfOne(front, k);
    }
  }

  lemma {:induction false} TotalOfZeros(s: seq<u64>)
    requires forall i: nat | i < |s| :: s[i] == 0
    ensures Total(s) == 0
  {
    if s == [] {
    } else {
      TotalOfZeros(s[..|s| - 1]);
    }
  }

  /** With less than a full turn to clear, the cleared slots are those of the hours from the
      window start up to but not including `now`. */
  lemma SpanIsRange(oldest: nat, now: nat, h: nat)
    requires oldest <= h <= now < oldest + SLOTS
    ensures InSpan(h % SLOTS, oldest % SLOTS, now - oldest) <==> h < now
  {
    var d, turns := h - oldest, h / SLOTS - oldest / SLOTS;
    assert h % SLOTS - oldest % SLOTS == d - SLOTS * turns;
    if turns == 0 {
      assert (h % SLOTS - oldest % SLOTS) % SLOTS == d;
    } else {
      assert turns == 1;
      assert (d - SLOTS) % SLOTS == d;
    }
  }

  lemma SlotAfterClear(r: Ring, m: Meter, now: u32, k: nat)
    requires Coupled(r, m) && m.last <= now && k < SLOTS
    ensures Advance(r, now).hourly[k] == if k == now % SLOTS then m.UsedAt(now) else 0
  {
    var n, start := now - r.oldest, r.oldest % SLOTS;
    assert WrappingSub(now, r.oldest) == n;
    assert Advance(r, now).hourly[k]
        == if InSpan(k, start, Min(n, SLOTS)) then 0 else r.hourly[k];
    if n >= SLOTS {
      assert InSpan(k, start, SLOTS);
    } else if k == m.last % SLOTS {
      SpanIsRange(r.oldest, now, m.last);
    }
  }

  /** The clear step drops the whole bucket or nothing, and its wrapping arithmetic is plain. */
  lemma AdvanceIsReset(r: Ring, m: Meter, now: u32)
    requires Coupled(r, m) && m.last <= now
    ensures WrappingSub(now, r.oldest) == now - r.oldest
    ensures Advance(r, now).oldest == r.oldest + Min(now - r.oldest, SLOTS) <= now
    ensures Advance(r, now).limit == r.limit
    ensures forall k: nat | k < SLOTS :: Advance(r, now).hourly[k]
              == if k == now % SLOTS then m.UsedAt(now) else 0
    ensures Total(r.hourly) == m.used
    ensures Total(Advance(r, now).hourly) == m.UsedAt(now)
  {
    forall k: nat | k < SLOTS
      ensures Advance(r, now).hourly[k] == if k == now % SLOTS then m.UsedAt(now) else 0
    {
      SlotAfterClear(r, m, now, k);
    }
    TotalOfOne(Advance(r, now).hourly, now % SLOTS);
    TotalOfOne(r.hourly, m.last % SLOTS);
  }

  /** One call: same decision, and the coupling is kept. */
  lemma AdmitRefinesMeter(r: Ring, m: Meter, now: u32, amount: u64)
    requires Coupled(r, m) && m.last <= now
    ensures Admit(r, now, amount).Ok? <==> m.Admits(now, amount)
    ensures m.Admits(now, amount) ==> Coupled(Admit(r, now, amount).value, m.After(now, amount))
    ensures !m.Admits(now, amount) ==>
              Admit(r, now, amount).error in {TransferLimitExceeded, Panicked(LimitAdd)}
  {
    AdvanceIsReset(r, m, now);
  }

  lemma {:induction false} RunCoupled(ops: seq<Op>, now: u32)
    requires ClockOk(ops) && NotBefore(ops, now)
    ensures RunRing(ops).Some? <==> RunMeter(ops).Some?
    ensures RunRing(ops).Some? ==>
              Coupled(RunRing(ops).value, RunMeter(ops).value) && RunMeter(ops).value.last <= now
  {
    if ops == [] {
    } else {
      var front, op := ops[..|ops| - 1], ops[|ops| - 1];
      RunCoupled(front, op.hour);
      if op.Transfer? && RunRing(front).Some? {
        AdmitRefinesMeter(RunRing(front).value, RunMeter(front).value, op.hour, op.amount);
      }
    }
  }

  /** Ring refinement: in every run the 24-slot ring takes exactly the decisions of the
      one-counter meter, and its account reads as that counter. */
  lemma RingRefinesMeter(ops: seq<Op>, i: nat)
    requires ClockOk(ops) && i < |ops|
    ensures Accepts(RunRing(ops[..i]), ops[i]) <==> Takes(RunMeter(ops[..i]), ops[i])
    ensures RunRing(ops[..i + 1]).Some? <==> RunMeter(ops[..i + 1]).Some?
    ensures RunRing(ops[..i + 1]).Some? ==>
              Coupled(RunRing(ops[..i + 1]).value, RunMeter(ops[..i + 1]).value)
  {
    RunCoupled(ops[..i], ops[i].hour);
    RunCoupled(ops[..i + 1], ops[i].hour);
    SameDecision(RunRing(ops[..i]), RunMeter(ops[..i]), ops[i]);
  }

  lemma SameDecision(r: Option<Ring>, m: Option<Meter>, op: Op)
    requires r.Some? <==> m.Some?
    requires r.Some? ==> Coupled(r.value, m.value) && m.value.last <= op.hour
    ensures Accepts(r, op) <==> Takes(m, op)
    ensures Accepts(r, op) ==>
              Total(r.value.hourly) - Total(Advance(r.value, op.hour).hourly)
              == m.value.used - m.value.UsedAt(op.hour)
  {
    if op.Transfer? && r.Some? {
      AdmitRefinesMeter(r.value, m.value, op.hour, op.amount);
      AdvanceIsReset(r.value, m.value, op.hour);
    }
  }

  /** In every reachable limiter the machine arithmetic is arithmetic on unbounded integers:
      nothing wraps, the ring sum fits u64, and a transfer is taken exactly when the cleared
      sum plus the amount is within the cap. */
  lemma ArithmeticIsPlain(ops: seq<Op>, now: u32, amount: u64)
    requires ClockOk(ops) && NotBefore(ops, now) && RunRing(ops).Some?
    ensures var r := RunRing(ops).value;
            && r.oldest <= now
            && WrappingSub(now, r.oldest) == now - r.oldest
            && Advance(r, now).oldest == r.oldest + Min(now - r.oldest, SLOTS)
            && Total(r.hourly) <= U64_MAX
            && (Admit(r, now, amount).Ok? <==> Total(Advance(r, now).hourly) + amount <= r.limit)
            && Admit(r, now, amount) != Err(Panicked(RingSum))
            && Admit(r, now, amount) != Err(Panicked(SlotAdd))
  {
    RunCoupled(ops, now);
    AdvanceIsReset(RunRing(ops).value, RunMeter(ops).value, now);
    AdmitRefinesMeter(RunRing(ops).value, RunMeter(ops).value, now, amount);
  }

  // ---------- inflow over whole runs ----------

  /** Total amount of the accepted transfers of a run. */
  function Accepted(ops: seq<Op>): nat {
    if ops == [] then 0
    else
      var front, op := ops[..|ops| - 1], ops[|ops| - 1];
      Accepted(front) + if Accepts(RunRing(front), op) then op.amount else 0
  }

  /** Total amount the clear step of accepted transfers took out of the ring. */
  function ClearedOut(ops: seq<Op>): int {
    if ops == [] then 0
    else
      var front, op := ops[..|ops| - 1], ops[|ops| - 1];
      ClearedOut(front) +
      if Accepts(RunRing(front), op)
      then Total(RunRing(front).value.hourly) - Total(Advance(RunRing(front).value, op.hour).hourly)
      else 0
  }

  /** The hour of the first update of a run, the one that opens the limiter. */
  function OpenedAt(ops: seq<Op>): Option<u32> {
    if ops == [] then None
    else
      var front, op := ops[..|ops| - 1], ops[|ops| - 1];
      if OpenedAt(front).None? && op.SetLimit? then Some(op.hour) else OpenedAt(front)
  }

  ghost predicate LimitsAtMost(ops: seq<Op>, cap: nat) {
    forall i | 0 <= i < |ops| && ops[i].SetLimit? :: ops[i].limit <= cap
  }

  function MeterAccepted(ops: seq<Op>): nat {
    if ops == [] then 0
    else
      var front, op := ops[..|ops| - 1], ops[|ops| - 1];
      MeterAccepted(front) + if Takes(RunMeter(front), op) then op.amount else 0
  }

  function MeterCleared(ops: seq<Op>): int {
    if ops == [] then 0
    else
      var front, op := ops[..|ops| - 1], ops[|ops| - 1];
      MeterCleared(front) +
      if Takes(RunMeter(front), op)
      then RunMeter(front).value.used - RunMeter(front).value.UsedAt(op.hour) else 0
  }

  lemma {:induction false} SameTotals(ops: seq<Op>)
    requires ClockOk(ops)
    ensures Accepted(ops) == MeterAccepted(ops)
    ensures ClearedOut(ops) == MeterCleared(ops)
  {
    if ops == [] {
    } else {
      var front, op := ops[..|ops| - 1], ops[|ops| - 1];
      SameTotals(front);
      RunCoupled(front, op.hour);
      SameDecision(RunRing(front), RunMeter(front), op);
    }
  }

  /** One accepted call of the meter: nothing is cleared unless the window start moves. */
  lemma CallBalance(m: Meter, hour: u32, amount: u64)
    requires m.oldest <= m.last <= hour && m.Admits(hour, amount)
    ensures m.After(hour, amount).used == m.UsedAt(hour) + amount <= m.limit
    ensures m.UsedAt(hour) < m.used ==> m.oldest < m.After(hour, amount).oldest
  {
  }

  lemma {:induction false} MeterNotAhead(ops: seq<Op>)
    requires ClockOk(ops)
    ensures RunMeter(ops).Some? ==>
              ops != [] && RunMeter(ops).value.oldest <= RunMeter(ops).value.last <= ops[|ops| - 1].hour
  {
    if ops == [] {
    } else {
      MeterNotAhead(ops[..|ops| - 1]);
    }
  }

  lemma {:induction false} MeterSplit(ops: seq<Op>)
    ensures MeterAccepted(ops)
         == (if RunMeter(ops).Some? then RunMeter(ops).value.used else 0) + MeterCleared(ops)
  {
    if ops == [] {
    } else {
      MeterSplit(ops[..|ops| - 1]);
    }
  }

  /** `cap` once for each of `hours`. */
  function Caps(cap: nat, hours: nat): nat {
    if hours == 0 then 0 else Caps(cap, hours - 1) + cap
  }

  lemma {:induction false} CapsIsProduct(cap: nat, hours: nat)
    ensures Caps(cap, hours) == cap * hours
  {
    if hours == 0 {
    } else {
      CapsIsProduct(cap, hours - 1);
    }
  }

  lemma {:induction false} CapsGrow(cap: nat, before: nat, after: nat)
    requires before <= after
    ensures Caps(cap, before) <= Caps(cap, after)
    ensures before < after ==> Caps(cap, before) + cap <= Caps(cap, after)
  {
    if before == after {
    } else {
      CapsGrow(cap, before, after - 1);
    }
  }

  lemma CapsCover(cap: nat, sofar: int, more: nat, before: nat, after: nat)
    requires sofar <= Caps(cap, before) && more <= cap
    requires before <= after && (before == after ==> more == 0)
    ensures sofar + more <= Caps(cap, after)
  {
    CapsGrow(cap, before, after);
  }

  // ---------- a stretch of a run, from any reachable account on ----------

  /** Every cap set after the first `k` operations is at most `cap`. */
  ghost predicate LimitsFrom(ops: seq<Op>, k: nat, cap: nat) {
    forall i | k <= i < |ops| && ops[i].SetLimit? :: ops[i].limit <= cap
  }

  /** The stretch of `ops` after its first `k` operations starts from a meter that counts at
      most `cap`, under a cap of at most `cap`, and never gets a larger one. */
  ghost predicate Stretch(ops: seq<Op>, k: nat, cap: nat, m0: Meter) {
    && k <= |ops| && LimitsFrom(ops, k, cap)
    && RunMeter(ops[..k]) == Some(m0) && m0.used <= cap && m0.limit <= cap
  }

  /** After a stretch that began with meter `m0` and `c0` cleared: every hour the window start
      moved forward cleared at most one cap. */
  ghost predicate Covered(m: Option<Meter>, cleared: int, m0: Meter, c0: int, cap: nat) {
    && m.Some? && m.value.used <= cap && m.value.limit <= cap
    && m0.oldest <= m.value.oldest
    && cleared - c0 <= Caps(cap, m.value.oldest - m0.oldest)
  }

  lemma CoveredStep(m: Option<Meter>, op: Op, cleared: int, m0: Meter, c0: int, cap: nat)
    requires Covered(m, cleared, m0, c0, cap) && m.value.oldest <= m.value.last <= op.hour
    requires op.SetLimit? ==> op.limit <= cap
    ensures Covered(StepMeter(m, op),
                    cleared + if Takes(m, op) then m.value.used - m.value.UsedAt(op.hour) else 0,
                    m0, c0, cap)
  {
    if Takes(m, op) {
      var n := m.value;
      CallBalance(n, op.hour, op.amount);
      CapsCover(cap, cleared - c0, n.used - n.UsedAt(op.hour), n.oldest - m0.oldest,
                n.After(op.hour, op.amount).oldest - m0.oldest);
    }
  }

  lemma {:induction false} StretchCovered(ops: seq<Op>, k: nat, cap: nat, m0: Meter)
    requires ClockOk(ops) && Stretch(ops, k, cap, m0)
    ensures Covered(RunMeter(ops), MeterCleared(ops), m0, MeterCleared(ops[..k]), cap)
  {
    if k == |ops| {
      assert ops[..k] == ops;
    } else {
      var front := ops[..|ops| - 1];
      assert front[..k] == ops[..k];
      StretchCovered(front, k, cap, m0);
      MeterNotAhead(front);
      CoveredStep(RunMeter(front), ops[|ops| - 1], MeterCleared(front), m0, MeterCleared(ops[..k]), cap);
    }
  }

  lemma BoundOfSplit(accepted: int, before: int, held: nat, cleared: int, cap: nat, moved: nat,
                     hours: int)
    requires accepted - before <= held + cleared && held <= cap
    requires cleared <= Caps(cap, moved) && moved < hours
    ensures accepted - before <= Caps(cap, hours)
  {
    CapsCover(cap, cleared, held, moved, hours);
  }

  lemma StretchInflow(ops: seq<Op>, k: nat, cap: nat, m0: Meter, hours: int)
    requires ClockOk(ops) && Stretch(ops, k, cap, m0) && RunMeter(ops).Some?
    requires hours >= 1 + RunMeter(ops).value.oldest - m0.oldest
    ensures 1 <= hours && MeterAccepted(ops) - MeterAccepted(ops[..k]) <= Caps(cap, hours)
  {
    MeterSplit(ops);
    MeterSplit(ops[..k]);
    StretchCovered(ops, k, cap, m0);
    BoundOfSplit(MeterAccepted(ops), MeterAccepted(ops[..k]), RunMeter(ops).value.used,
                 MeterCleared(ops) - MeterCleared(ops[..k]), cap,
                 RunMeter(ops).value.oldest - m0.oldest, hours);
  }

  lemma StretchClears(ops: seq<Op>, k: nat, cap: nat, m0: Meter, moved: int)
    requires ClockOk(ops) && Stretch(ops, k, cap, m0) && RunMeter(ops).Some?
    requires moved == RunMeter(ops).value.oldest - m0.oldest
    ensures 0 <= moved && MeterCleared(ops) - MeterCleared(ops[..k]) <= Caps(cap, moved)
  {
    StretchCovered(ops, k, cap, m0);
  }

  /** The update that opens a limiter leaves an empty meter at its own hour. */
  lemma {:induction false} Opening(ops: seq<Op>) returns (k: nat)
    requires OpenedAt(ops).Some?
    ensures 0 < k <= |ops| && ops[k - 1].SetLimit? && ops[k - 1].hour == OpenedAt(ops).value
    ensures var op := ops[k - 1]; RunMeter(ops[..k]) == Some(Meter(op.limit, op.hour, op.hour, 0))
    ensures MeterAccepted(ops[..k]) == 0
  {
    var front := ops[..|ops| - 1];
    if OpenedAt(front).Some? {
      k := Opening(front);
      assert front[..k] == ops[..k];
    } else {
      k := |ops|;
      assert ops[..k] == ops;
      NothingBeforeOpening(front);
    }
  }

  lemma {:induction false} NothingBeforeOpening(ops: seq<Op>)
    requires OpenedAt(ops).None?
    ensures RunMeter(ops).None? && MeterAccepted(ops) == 0
  {
    if ops == [] {
    } else {
      NothingBeforeOpening(ops[..|ops| - 1]);
    }
  }

  /** Conservation of the ring: over any run, what was accepted is what the ring holds plus
      what it cleared. */
  lemma InflowSplit(ops: seq<Op>)
    requires ClockOk(ops) && RunRing(ops).Some?
    ensures Accepted(ops) == Total(RunRing(ops).value.hourly) + ClearedOut(ops)
  {
    var now := ops[|ops| - 1].hour;
    SameTotals(ops);
    RunCoupled(ops, now);
    AdvanceIsReset(RunRing(ops).value, RunMeter(ops).value, now);
    MeterSplit(ops);
  }

  /** The account after the first `k` operations holds at most `cap` under a cap of at most
      `cap`, and no later cap is larger. */
  ghost predicate CappedFrom(ops: seq<Op>, k: nat, cap: nat) {
    && k <= |ops| && LimitsFrom(ops, k, cap)
    && RunRing(ops[..k]).Some?
    && Total(RunRing(ops[..k]).value.hourly) <= cap && RunRing(ops[..k]).value.limit <= cap
  }

  lemma CappedStretch(ops: seq<Op>, k: nat, cap: nat, now: u32)
    requires ClockOk(ops) && NotBefore(ops, now) && CappedFrom(ops, k, cap)
    ensures ClockOk(ops[..k]) && RunMeter(ops[..k]).Some?
    ensures Stretch(ops, k, cap, RunMeter(ops[..k]).value)
    ensures RunMeter(ops[..k]).value.oldest == RunRing(ops[..k]).value.oldest
    ensures RunMeter(ops).Some? && RunRing(ops).Some?
    ensures RunMeter(ops).value.oldest == RunRing(ops).value.oldest <= now
  {
    RunCoupled(ops[..k], now);
    AdvanceIsReset(RunRing(ops[..k]).value, RunMeter(ops[..k]).value, now);
    StretchCovered(ops, k, cap, RunMeter(ops[..k]).value);
    RunCoupled(ops, now);
  }

  /** Amortised inflow bound over any stretch: from any reachable account on, a limiter lets in
      at most one cap for each clock hour from that account's window start to now. */
  lemma InflowBound(ops: seq<Op>, k: nat, cap: nat, now: u32, hours: int)
    requires ClockOk(ops) && NotBefore(ops, now) && CappedFrom(ops, k, cap)
    requires hours == 1 + now - RunRing(ops[..k]).value.oldest
    ensures 1 <= hours && Accepted(ops) - Accepted(ops[..k]) <= cap * hours
  {
    CappedStretch(ops, k, cap, now);
    SameTotals(ops);
    SameTotals(ops[..k]);
    StretchInflow(ops, k, cap, RunMeter(ops[..k]).value, hours);
    CapsIsProduct(cap, hours);
  }

  /** What a stretch clears is at most one cap for each hour its window start moved. */
  lemma ClearedBound(ops: seq<Op>, k: nat, cap: nat, now: u32, moved: int)
    requires ClockOk(ops) && NotBefore(ops, now) && CappedFrom(ops, k, cap)
    requires RunRing(ops).Some?
    requires moved == RunRing(ops).value.oldest - RunRing(ops[..k]).value.oldest
    ensures 0 <= moved && ClearedOut(ops) - ClearedOut(ops[..k]) <= cap * moved
  {
    CappedStretch(ops, k, cap, now);
    SameTotals(ops);
    SameTotals(ops[..k]);
    StretchClears(ops, k, cap, RunMeter(ops[..k]).value, moved);
    CapsIsProduct(cap, moved);
  }

  /** The stretch that starts with the opening: at most the largest cap ever set for each clock
      hour begun since then. */
  lemma InflowSinceOpening(ops: seq<Op>, cap: nat, now: u32, hours: int)
    requires ClockOk(ops) && NotBefore(ops, now) && LimitsAtMost(ops, cap)
    requires OpenedAt(ops).Some? && hours == 1 + now - OpenedAt(ops).value
    ensures 1 <= hours && Accepted(ops) <= cap * hours
  {
    var k := Opening(ops);
    SameTotals(ops);
    var m0 := RunMeter(ops[..k]).value;
    StretchCovered(ops, k, cap, m0);
    MeterNotAhead(ops);
    StretchInflow(ops, k, cap, m0, hours);
    CapsIsProduct(cap, hours);
  }
}
