/** Exactly when the ring keeps a rolling cap, in hours, amounts and the window start the
    account showed when the hour began. */
module RollingCap {
  import opened Common
  import opened Limiter
  import opened LimiterRuns
  import opened LimiterHours
  import opened LimiterWindow

  /** Of a log that held `past` entries when an hour began with the window start `lag` hours back
      and holds `n` more by now, the ring has forgotten this many: every accepted call of the hour
      starts the bucket afresh until the lag is below a full turn. */
  function Cut(past: nat, lag: nat, n: nat): (cut: nat)
    ensures past <= cut <= past + n
  {
    past + if n == 0 || lag - SLOTS * n >= SLOTS then n else Max(0, lag / SLOTS - 1)
  }

  // ---------- where the bucket starts ----------

  /** A limiter at the beginning of an hour: its last accepted call was earlier, or it was opened
      in this very hour and has accepted nothing. */
  predicate Begins(m0: Meter, past: nat, start0: nat, now: u32) {
    && m0.oldest <= m0.last <= now
    && (m0.last < now || (past == 0 && start0 == 0 && m0.oldest == now && m0.used == 0))
  }

  /** The same limiter after `n` accepted calls in that hour. */
  predicate Continues(m: Meter, start: nat, n: nat, m0: Meter, past: nat, start0: nat, now: u32)
    requires m0.oldest <= now
  {
    && m.oldest == m0.oldest + Min(now - m0.oldest, SLOTS * n)
    && (n == 0 ==> m.last == m0.last && start == start0)
    && (n > 0 ==> m.last == now && start == past + Min(n - 1, Max(0, (now - m0.oldest) / SLOTS - 1)))
  }

  lemma CallContinues(m: Meter, start: nat, n: nat, m0: Meter, past: nat, start0: nat, now: u32,
                      amount: u64)
    requires Begins(m0, past, start0, now) && Continues(m, start, n, m0, past, start0, now)
    ensures m.oldest <= now
    ensures Continues(m.After(now, amount), if m.Resets(now) then past + n else start, n + 1,
                      m0, past, start0, now)
  {
  }

  lemma CutOfHour(m: Meter, start: nat, n: nat, m0: Meter, past: nat, start0: nat, now: u32)
    requires Begins(m0, past, start0, now) && Continues(m, start, n, m0, past, start0, now)
    ensures (if m.Resets(now) then past + n else start) == Cut(past, now - m0.oldest, n)
  {
  }

  lemma {:induction false} LastEntry(ops: seq<Op>)
    requires RunMeter(ops).Some?
    ensures var m, log := RunMeter(ops).value, MeterLog(ops);
            if log == [] then m.last == m.oldest && m.used == 0 && BucketStart(ops) == 0
            else log[|log| - 1].hour == m.last
  {
    var front := ops[..|ops| - 1];
    BucketWithinLog(front);
    if RunMeter(front).Some? {
      LastEntry(front);
    } else {
      NothingStarted(front);
    }
  }

  lemma {:induction false} NothingStarted(ops: seq<Op>)
    requires RunMeter(ops).None?
    ensures BucketStart(ops) == 0
  {
    if ops == [] {
    } else {
      NothingStarted(ops[..|ops| - 1]);
    }
  }

  /** `during` follows `before` within hour `now`, in which `before` accepted nothing. */
  ghost predicate SameHour(before: seq<Op>, during: seq<Op>, now: u32) {
    && ClockOk(before) && NotBefore(before, now) && RunRing(before).Some?
    && (forall e <- Log(before) :: e.hour < now)
    && (forall op <- during :: op.hour == now)
  }

  lemma HourClock(before: seq<Op>, during: seq<Op>, now: u32)
    requires SameHour(before, during, now)
    ensures ClockOk(before + during) && NotBefore(before + during, now)
  {
  }

  lemma HourBegins(before: seq<Op>, now: u32)
    requires SameHour(before, [], now)
    ensures RunMeter(before).Some? && Log(before) == MeterLog(before)
    ensures RunMeter(before).value.oldest == RunRing(before).value.oldest
    ensures Begins(RunMeter(before).value, |Log(before)|, BucketStart(before), now)
  {
    RunCoupled(before, now);
    SameLog(before);
    LastEntry(before);
    var log := Log(before);
    assert log != [] ==> log[|log| - 1] in log;
  }

  lemma MeterGrows(ops: seq<Op>, op: Op)
    ensures RunMeter(ops + [op]) == StepMeter(RunMeter(ops), op)
    ensures MeterLog(ops + [op])
         == MeterLog(ops) + if Takes(RunMeter(ops), op) then [Entry(op.hour, op.amount)] else []
    ensures BucketStart(ops + [op])
         == if Takes(RunMeter(ops), op) && RunMeter(ops).value.Resets(op.hour) then |MeterLog(ops)|
            else BucketStart(ops)
  {
    assert (ops + [op])[..|ops|] == ops;
  }

  /** What an hour has added to the log, and where the bucket starts. */
  ghost predicate HourSoFar(m: Meter, log: seq<Entry>, start: nat, m0: Meter, log0: seq<Entry>,
                            start0: nat, now: u32)
    requires m0.oldest <= now
  {
    && log0 <= log && (forall e <- log[|log0|..] :: e.hour == now)
    && Continues(m, start, |log| - |log0|, m0, |log0|, start0, now)
  }

  lemma CallSoFar(m: Meter, log: seq<Entry>, start: nat, m0: Meter, log0: seq<Entry>, start0: nat,
                  now: u32, amount: u64)
    requires Begins(m0, |log0|, start0, now) && HourSoFar(m, log, start, m0, log0, start0, now)
    ensures m.oldest <= now
    ensures HourSoFar(m.After(now, amount), log + [Entry(now, amount)],
                      if m.Resets(now) then |log| else start, m0, log0, start0, now)
  {
    CallContinues(m, start, |log| - |log0|, m0, |log0|, start0, now, amount);
    var log' := log + [Entry(now, amount)];
    assert log'[|log0|..] == log[|log0|..] + [Entry(now, amount)];
  }

  /** `HourSoFar` of a run of operations. */
  ghost predicate RunSoFar(ops: seq<Op>, m0: Meter, log0: seq<Entry>, start0: nat, now: u32)
    requires m0.oldest <= now
  {
    && RunMeter(ops).Some?
    && HourSoFar(RunMeter(ops).value, MeterLog(ops), BucketStart(ops), m0, log0, start0, now)
  }

  lemma OpSoFar(ops: seq<Op>, op: Op, m0: Meter, log0: seq<Entry>, start0: nat, now: u32)
    requires Begins(m0, |log0|, start0, now) && RunSoFar(ops, m0, log0, start0, now)
    requires op.hour == now
    ensures RunSoFar(ops + [op], m0, log0, start0, now)
  {
    MeterGrows(ops, op);
    if Takes(RunMeter(ops), op) {
      CallSoFar(RunMeter(ops).value, MeterLog(ops), BucketStart(ops), m0, log0, start0, now, op.amount);
    }
  }

  lemma {:induction false} WholeHour(before: seq<Op>, during: seq<Op>, m0: Meter, now: u32)
    requires forall op <- during :: op.hour == now
    requires RunMeter(before) == Some(m0)
    requires Begins(m0, |MeterLog(before)|, BucketStart(before), now)
    ensures RunSoFar(before + during, m0, MeterLog(before), BucketStart(before), now)
  {
    if during == [] {
      assert before + during == before;
    } else {
      var front, op := during[..|during| - 1], during[|during| - 1];
      WholeHour(before, front, m0, now);
      assert before + during == before + front + [op];
      OpSoFar(before + front, op, m0, MeterLog(before), BucketStart(before), now);
    }
  }

  /** What the ring has forgotten of the log, and what it still counts: a suffix of the entries
      of the current hour. */
  ghost predicate CountedByCut(counted: nat, log: seq<Entry>, log0: seq<Entry>, lag: nat, now: u32) {
    && log0 <= log && (forall e <- log[|log0|..] :: e.hour == now)
    && counted == Cut(|log0|, lag, |log| - |log0|)
    && |log0| <= counted <= |log|
  }

  lemma MeterCut(m: Meter, log: seq<Entry>, start: nat, m0: Meter, log0: seq<Entry>, start0: nat,
                 now: u32)
    requires Begins(m0, |log0|, start0, now) && HourSoFar(m, log, start, m0, log0, start0, now)
    ensures CountedByCut(if m.Resets(now) then |log| else start, log, log0, now - m0.oldest, now)
  {
    var n := |log| - |log0|;
    CutOfHour(m, start, n, m0, |log0|, start0, now);
  }

  lemma CountedFromIsCut(before: seq<Op>, during: seq<Op>, now: u32)
    requires SameHour(before, during, now)
    ensures RunMeter(before + during).Some? && RunRing(before + during).Some?
    ensures RunRing(before).value.oldest <= now
    ensures CountedByCut(CountedFrom(before + during, now), Log(before + during), Log(before),
                         now - RunRing(before).value.oldest, now)
  {
    HourClock(before, during, now);
    HourBegins(before, now);
    var ops, m0 := before + during, RunMeter(before).value;
    WholeHour(before, during, m0, now);
    RunCoupled(ops, now);
    SameLog(ops);
    MeterCut(RunMeter(ops).value, MeterLog(ops), BucketStart(ops), m0, MeterLog(before),
             BucketStart(before), now);
  }

  // ---------- when the rolling cap is kept ----------

  function AmountOf(log: seq<Entry>): nat {
    if log == [] then 0 else AmountOf(log[..|log| - 1]) + log[|log| - 1].amount
  }

  lemma {:induction false} AllInWindow(log: seq<Entry>, now: u32)
    requires forall e <- log :: e.hour == now
    ensures WindowTotal(log, now) == AmountOf(log)
  {
    if log == [] {
    } else {
      assert log[|log| - 1] in log;
      AllInWindow(log[..|log| - 1], now);
    }
  }

  /** No entry of the last 24 hours is positive. */
  ghost predicate NothingInWindow(log: seq<Entry>, now: u32) {
    forall e <- log :: InWindow(e, now) ==> e.amount == 0
  }

  lemma NothingInWindowIff(log: seq<Entry>, now: u32)
    ensures NothingInWindow(log, now) <==> WindowTotal(log, now) == 0
  {
    WindowIsZeroIff(log, now);
  }

  /** The limiter decides every amount at hour `now` as an exact log of 24 hours would. */
  ghost predicate KeepsRollingCap(r: Ring, log: seq<Entry>, now: u32) {
    forall amount: u64 :: Admit(r, now, amount).Ok? <==> Fits(WindowTotal(log, now), amount, r.limit)
  }

  lemma KeptIff(r: Ring, log: seq<Entry>, cut: nat, counted: nat, now: u32)
    requires cut <= |log| && forall e <- log[cut..] :: e.hour == now
    requires forall a: u64 :: Admit(r, now, a).Ok? <==> Fits(counted, a, r.limit)
    requires WindowTotal(log, now) == WindowTotal(log[..cut], now) + counted
    ensures KeepsRollingCap(r, log, now) <==>
              NothingInWindow(log[..cut], now) || AmountOf(log[cut..]) > r.limit
  {
    assert log == log[..cut] + log[cut..];
    WindowOfParts(log[..cut], log[cut..], now);
    AllInWindow(log[cut..], now);
    NothingInWindowIff(log[..cut], now);
    SameDecisionsIff(r, now, WindowTotal(log[..cut], now), counted);
  }

  /** The ring keeps the rolling cap exactly when what it forgot cannot have changed a decision. */
  lemma DecidedByCut(ops: seq<Op>, cut: nat, now: u32)
    requires ClockOk(ops) && NotBefore(ops, now) && RunRing(ops).Some?
    requires RunMeter(ops).Some? && cut == CountedFrom(ops, now) <= |Log(ops)|
    requires forall e <- Log(ops)[cut..] :: e.hour == now
    ensures var r, log := RunRing(ops).value, Log(ops);
            KeepsRollingCap(r, log, now) <==>
              NothingInWindow(log[..cut], now) || AmountOf(log[cut..]) > r.limit
  {
    WindowSplits(ops, now);
    AdmitsWhatFits(ops, now);
    KeptIff(RunRing(ops).value, Log(ops), cut, Total(Advance(RunRing(ops).value, now).hourly), now);
  }

  /** With `past` entries before the hour, which began with the window start `lag` hours back: the
      entries before the cut have nothing positive in the window, or those after it exceed a
      lowered cap. */
  ghost predicate ClearBeforeCut(log: seq<Entry>, past: nat, lag: nat, limit: u64, now: u32)
    requires past <= |log|
  {
    var cut := Cut(past, lag, |log| - past);
    NothingInWindow(log[..cut], now) || AmountOf(log[cut..]) > limit
  }

  lemma CutOfLog(cut: nat, log: seq<Entry>, log0: seq<Entry>, lag: nat, limit: u64, now: u32)
    requires CountedByCut(cut, log, log0, lag, now)
    ensures forall e <- log[cut..] :: e.hour == now
    ensures ClearBeforeCut(log, |log0|, lag, limit, now) <==>
              NothingInWindow(log[..cut], now) || AmountOf(log[cut..]) > limit
  {
    assert log[cut..] == log[|log0|..][cut - |log0|..];
  }

  /** Exactly when the rolling cap is kept, from the log of accepted transfers, how many there were
      when the current hour began, and how far back the account's window start was then. */
  lemma AgreesWithRollingCapIff(before: seq<Op>, during: seq<Op>, now: u32)
    requires SameHour(before, during, now)
    ensures RunRing(before + during).Some? && RunRing(before).value.oldest <= now
    ensures |Log(before)| <= |Log(before + during)|
    ensures var r, log := RunRing(before + during).value, Log(before + during);
            KeepsRollingCap(r, log, now) <==>
              ClearBeforeCut(log, |Log(before)|, now - RunRing(before).value.oldest, r.limit, now)
  {
    var ops := before + during;
    HourClock(before, during, now);
    CountedFromIsCut(before, during, now);
    var cut := CountedFrom(ops, now);
    CutOfLog(cut, Log(ops), Log(before), now - RunRing(before).value.oldest, RunRing(ops).value.limit,
             now);
    DecidedByCut(ops, cut, now);
  }

  /** Accepted in hour `now`. */
  function HourTotal(log: seq<Entry>, now: u32): nat {
    if log == [] then 0
    else HourTotal(log[..|log| - 1], now)
         + if log[|log| - 1].hour == now then log[|log| - 1].amount else 0
  }

  lemma {:induction false} HourTotalOfSplit(log: seq<Entry>, past: nat, now: u32)
    requires past <= |log|
    requires (forall e <- log[..past] :: e.hour < now) && forall e <- log[past..] :: e.hour == now
    ensures HourTotal(log, now) == AmountOf(log[past..])
  {
    if log == [] {
    } else {
      var n := |log| - 1;
      if past == |log| {
        assert log[..past][n] == log[n] && log[n] in log[..past];
        assert log[..n][..n] == log[..past][..n];
        HourTotalOfSplit(log[..n], n, now);
        assert log[..n][n..] == [] && log[past..] == [];
      } else {
        assert log[past..][n - past] == log[n] && log[n] in log[past..];
        assert log[..n][..past] == log[..past];
        assert log[..n][past..] == log[past..][..n - past];
        HourTotalOfSplit(log[..n], past, now);
      }
    }
  }

  /** A limiter that began the hour less than 48 hours behind counts the current hour and nothing
      else. So it keeps the rolling cap if and only if nothing positive was accepted in the 23
      hours before, or this hour's total exceeds a lowered cap. */
  lemma AgreesWhenNearIff(before: seq<Op>, during: seq<Op>, now: u32)
    requires SameHour(before, during, now) && now - RunRing(before).value.oldest < 2 * SLOTS
    ensures RunRing(before + during).Some?
    ensures var r, log := RunRing(before + during).value, Log(before + during);
            KeepsRollingCap(r, log, now) <==>
              || (forall e <- log | now - SLOTS < e.hour < now :: e.amount == 0)
              || HourTotal(log, now) > r.limit
  {
    AgreesWithRollingCapIff(before, during, now);
    CountedFromIsCut(before, during, now);
    ClearWhenNearIff(Log(before + during), Log(before), now - RunRing(before).value.oldest,
                     RunRing(before + during).value.limit, now);
  }

  lemma ClearWhenNearIff(log: seq<Entry>, log0: seq<Entry>, lag: nat, limit: u64, now: u32)
    requires log0 <= log && lag < 2 * SLOTS
    requires (forall e <- log0 :: e.hour < now) && forall e <- log[|log0|..] :: e.hour == now
    ensures ClearBeforeCut(log, |log0|, lag, limit, now) <==>
              || (forall e <- log | now - SLOTS < e.hour < now :: e.amount == 0)
              || HourTotal(log, now) > limit
  {
    var past := |log0|;
    assert log[..past] == log0 && Cut(past, lag, |log| - past) == past;
    HourTotalOfSplit(log, past, now);
    WindowBeforeIff(log, past, now);
  }

  lemma WindowBeforeIff(log: seq<Entry>, past: nat, now: u32)
    requires past <= |log|
    requires (forall e <- log[..past] :: e.hour < now) && forall e <- log[past..] :: e.hour == now
    ensures NothingInWindow(log[..past], now)
       <==> forall e <- log | now - SLOTS < e.hour < now :: e.amount == 0
  {
    assert log == log[..past] + log[past..];
  }

  // ---------- what an hour lets in ----------

  function AmountsOf(ops: seq<Op>): seq<u64> {
    if ops == [] then []
    else
      var op := ops[|ops| - 1];
      AmountsOf(ops[..|ops| - 1]) + [if op.Transfer? then op.amount else 0]
  }

  lemma HourRunGrows(r: Ring, now: u32, amounts: seq<u64>, amount: u64)
    ensures HourRun(r, now, amounts + [amount]) == HourStep(HourRun(r, now, amounts), now, amount)
  {
    assert (amounts + [amount])[..|amounts|] == amounts;
  }

  lemma AcceptedGrows(ops: seq<Op>, op: Op)
    ensures RunRing(ops + [op]) == StepRing(RunRing(ops), op)
    ensures Accepted(ops + [op]) == Accepted(ops) + if Accepts(RunRing(ops), op) then op.amount else 0
  {
    assert (ops + [op])[..|ops|] == ops;
  }

  /** The calls of one hour, seen as part of a run. */
  lemma {:induction false} HourIsRun(before: seq<Op>, during: seq<Op>, now: u32)
    requires RunRing(before).Some? && forall op <- during :: op.Transfer? && op.hour == now
    ensures var h := HourRun(RunRing(before).value, now, AmountsOf(during));
            && RunRing(before + during) == Some(h.ring)
            && Accepted(before + during) == Accepted(before) + h.accepted
  {
    if during == [] {
      assert before + during == before;
    } else {
      var front, op := during[..|during| - 1], during[|during| - 1];
      HourIsRun(before, front, now);
      assert op in during && before + during == before + front + [op];
      AcceptedGrows(before + front, op);
      HourRunGrows(RunRing(before).value, now, AmountsOf(front), op.amount);
    }
  }

  /** Over runs: in an hour without an update, a limiter that began it `lag` hours behind lets in
      at most one cap for each full turn of lag, and no more than one if there is less. */
  lemma HourInflow(before: seq<Op>, during: seq<Op>, now: u32, turns: int)
    requires SameHour(before, during, now) && forall op <- during :: op.Transfer?
    requires turns == Max(1, Lag(RunRing(before).value, now) / SLOTS)
    ensures Accepted(before + during) - Accepted(before) <= turns * RunRing(before).value.limit
  {
    HourBegins(before, now);
    RunCoupled(before, now);
    HourBound(RunRing(before).value, RunMeter(before).value, now, AmountsOf(during), turns);
    HourIsRun(before, during, now);
  }
}
