/** What the rate limiter does within one clock hour, and how its window start catches up. */
module LimiterHours {
  import opened Common
  import opened Limiter
  import opened LimiterRuns

  /** The account, the total accepted and the number of accepted calls. */
  datatype HourCalls = HourCalls(ring: Ring, accepted: nat, count: nat)

  function HourStep(h: HourCalls, now: u32, amount: u64): HourCalls {
    var after := Admit(h.ring, now, amount);
    if after.Ok? then HourCalls(after.value, h.accepted + amount, h.count + 1) else h
  }

  /** A batch of calls in hour `now`; refused calls leave the account alone. */
  function HourRun(r: Ring, now: u32, amounts: seq<u64>): HourCalls {
    if amounts == [] then HourCalls(r, 0, 0)
    else HourStep(HourRun(r, now, amounts[..|amounts| - 1]), now, amounts[|amounts| - 1])
  }

  datatype MeterHour = MeterHour(meter: Meter, accepted: nat, count: nat)

  function MeterStep(h: MeterHour, now: u32, amount: u64): MeterHour {
    if h.meter.oldest <= now && h.meter.Admits(now, amount)
    then MeterHour(h.meter.After(now, amount), h.accepted + amount, h.count + 1) else h
  }

  function MeterRun(m: Meter, now: u32, amounts: seq<u64>): MeterHour {
    if amounts == [] then MeterHour(m, 0, 0)
    else MeterStep(MeterRun(m, now, amounts[..|amounts| - 1]), now, amounts[|amounts| - 1])
  }

  lemma {:induction false} HourRefinesMeter(r: Ring, m: Meter, now: u32, amounts: seq<u64>)
    requires Coupled(r, m) && m.last <= now
    ensures var h, g := HourRun(r, now, amounts), MeterRun(m, now, amounts);
            Coupled(h.ring, g.meter) && h.accepted == g.accepted && h.count == g.count
            && g.meter.last <= now
  {
    if amounts == [] {
    } else {
      var front := amounts[..|amounts| - 1];
      HourRefinesMeter(r, m, now, front);
      AdmitRefinesMeter(HourRun(r, now, front).ring, MeterRun(m, now, front).meter, now,
                        amounts[|amounts| - 1]);
    }
  }

  /** Nothing was taken in hour `now` yet that the ring still counts. */
  ghost predicate HourIsNew(r: Ring, m: Meter, now: u32) {
    Coupled(r, m) && m.last <= now && (m.last < now || m.used == 0)
  }

  function Lag(r: Ring, now: u32): int { now - r.oldest }

  /** How much the limiter can still let in during hour `now`: one cap for every full turn
      the window start is behind, or what is left of the current bucket. */
  function Capacity(m: Meter, now: u32): nat
    requires m.oldest <= now
  {
    if now - m.oldest >= SLOTS then Caps(m.limit, (now - m.oldest) / SLOTS)
    else Max(0, m.limit - m.UsedAt(now))
  }

  lemma CapacityFalls(m: Meter, now: u32, amount: u64)
    requires m.oldest <= m.last <= now && m.Admits(now, amount)
    ensures amount + Capacity(m.After(now, amount), now) <= Capacity(m, now)
  {
    var turns := (now - m.oldest) / SLOTS;
    if turns >= 1 {
      assert (now - m.After(now, amount).oldest) / SLOTS == turns - 1;
      CapsGrow(m.limit, 0, 1);
      assert Caps(m.limit, turns) == Caps(m.limit, turns - 1) + m.limit;
    }
  }

  lemma {:induction false} CapacityBalance(m: Meter, now: u32, amounts: seq<u64>)
    requires m.oldest <= m.last <= now
    ensures var g := MeterRun(m, now, amounts);
            && g.meter.oldest <= g.meter.last <= now
            && g.accepted + Capacity(g.meter, now) <= Capacity(m, now)
  {
    if amounts == [] {
    } else {
      var front, last := amounts[..|amounts| - 1], amounts[|amounts| - 1];
      CapacityBalance(m, now, front);
      var g := MeterRun(m, now, front);
      if g.meter.Admits(now, last) {
        CapacityFalls(g.meter, now, last);
      }
    }
  }

  /** Per-hour bound: however the calls of an hour are cut, a limiter found `lag` hours behind
      lets in at most one cap for each full turn of lag, and never more than one if less. */
  lemma HourBound(r: Ring, m: Meter, now: u32, amounts: seq<u64>, turns: int)
    requires HourIsNew(r, m, now) && turns == Max(1, Lag(r, now) / SLOTS)
    ensures HourRun(r, now, amounts).accepted <= turns * r.limit
  {
    HourRefinesMeter(r, m, now, amounts);
    CapacityBalance(m, now, amounts);
    CapsIsProduct(r.limit, turns);
    assert Caps(r.limit, 1) == Caps(r.limit, 0) + r.limit;
  }

  lemma {:induction false} FullCalls(m: Meter, now: u32, n: nat, amounts: seq<u64>)
    requires m.oldest <= m.last <= now && (m.last < now || m.used == 0)
    requires |amounts| == n <= Max(1, (now - m.oldest) / SLOTS)
    requires forall i | 0 <= i < n :: amounts[i] == m.limit
    ensures var g := MeterRun(m, now, amounts);
            && g.accepted == Caps(m.limit, n) && g.count == n
            && g.meter.limit == m.limit
            && g.meter.oldest == m.oldest + Min(now - m.oldest, SLOTS * n)
  {
    if n == 0 {
    } else {
      FullCalls(m, now, n - 1, amounts[..n - 1]);
      var g := MeterRun(m, now, amounts[..n - 1]);
      assert n > 1 ==> g.meter.Resets(now);
      assert g.meter.Admits(now, m.limit);
    }
  }

  /** The bound is exact: that many calls of one full cap each are all accepted. */
  lemma HourBoundAttained(r: Ring, m: Meter, now: u32, turns: int)
    requires HourIsNew(r, m, now) && turns == Max(1, Lag(r, now) / SLOTS)
    ensures HourRun(r, now, seq(turns, _ => r.limit)).accepted == turns * r.limit
  {
    HourRefinesMeter(r, m, now, seq(turns, _ => r.limit));
    FullCalls(m, now, turns, seq(turns, _ => r.limit));
    CapsIsProduct(r.limit, turns);
  }

  lemma {:induction false} MeterCatchUp(m: Meter, now: u32, amounts: seq<u64>)
    requires m.oldest <= m.last <= now
    ensures var g := MeterRun(m, now, amounts);
            && g.meter.oldest <= g.meter.last <= now
            && now - g.meter.oldest == Max(0, now - m.oldest - SLOTS * g.count)
  {
    if amounts == [] {
    } else {
      MeterCatchUp(m, now, amounts[..|amounts| - 1]);
    }
  }

  /** Catch-up: every accepted call brings the window start forward by a full turn or to the
      current hour, so the lag after k accepted calls is what k turns leave of it, and it is
      zero exactly when k >= lag / 24 rounded up. */
  lemma CatchUp(r: Ring, m: Meter, now: u32, amounts: seq<u64>)
    requires Coupled(r, m) && m.last <= now
    ensures var h := HourRun(r, now, amounts);
            Lag(h.ring, now) == Max(0, Lag(r, now) - SLOTS * h.count)
  {
    HourRefinesMeter(r, m, now, amounts);
    MeterCatchUp(m, now, amounts);
  }

  /** No transfer of the run was tried in hour `now` or later. */
  ghost predicate TransfersBefore(ops: seq<Op>, now: u32) {
    forall i | 0 <= i < |ops| && ops[i].Transfer? :: ops[i].hour < now
  }

  lemma {:induction false} NewHour(ops: seq<Op>, now: u32)
    requires TransfersBefore(ops, now) && RunMeter(ops).Some?
    ensures RunMeter(ops).value.last < now || RunMeter(ops).value.used == 0
  {
    var front := ops[..|ops| - 1];
    if RunMeter(front).Some? {
      NewHour(front, now);
    }
  }

  /** The same over runs: in every reachable limiter, whatever is tried during a new hour, at
      most one cap for each full turn of lag gets in, and no more than one if there is less; and
      the accepted calls bring the lag down by a full turn each. */
  lemma HourBoundInRuns(ops: seq<Op>, now: u32, amounts: seq<u64>, turns: int)
    requires ClockOk(ops) && NotBefore(ops, now) && RunRing(ops).Some? && TransfersBefore(ops, now)
    requires turns == Max(1, Lag(RunRing(ops).value, now) / SLOTS)
    ensures var r := RunRing(ops).value;
            && HourRun(r, now, amounts).accepted <= turns * r.limit
            && HourRun(r, now, seq(turns, _ => r.limit)).accepted == turns * r.limit
            && Lag(HourRun(r, now, amounts).ring, now)
               == Max(0, Lag(r, now) - SLOTS * HourRun(r, now, amounts).count)
  {
    RunCoupled(ops, now);
    NewHour(ops, now);
    var r, m := RunRing(ops).value, RunMeter(ops).value;
    HourBound(r, m, now, amounts, turns);
    HourBoundAttained(r, m, now, turns);
    CatchUp(r, m, now, amounts);
  }
}
