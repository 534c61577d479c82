/** The ring against an exact log of the last 24 hours. */
module LimiterWindow {
  import opened Common
  import opened Limiter
  import opened LimiterRuns

  datatype Entry = Entry(hour: u32, amount: u64)

  /** The accepted transfers of a run, in order. */
  function Log(ops: seq<Op>): seq<Entry> {
    if ops == [] then []
    else
      var front, op := ops[..|ops| - 1], ops[|ops| - 1];
      if Accepts(RunRing(front), op) then Log(front) + [Entry(op.hour, op.amount)] else Log(front)
  }

  /** The same log, read off the meter. */
  function MeterLog(ops: seq<Op>): seq<Entry> {
    if ops == [] then []
    else
      var front, op := ops[..|ops| - 1], ops[|ops| - 1];
      if Takes(RunMeter(front), op) then MeterLog(front) + [Entry(op.hour, op.amount)]
      else MeterLog(front)
  }

  lemma {:induction false} SameLog(ops: seq<Op>)
    requires ClockOk(ops)
    ensures Log(ops) == MeterLog(ops)
  {
    if ops == [] {
    } else {
      var front, op := ops[..|ops| - 1], ops[|ops| - 1];
      SameLog(front);
      RunCoupled(front, op.hour);
      SameDecision(RunRing(front), RunMeter(front), op);
    }
  }

  /** Where in the log the bucket the ring still counts begins: at the last call that reset it. */
  function BucketStart(ops: seq<Op>): nat {
    if ops == [] then 0
    else
      var front, op := ops[..|ops| - 1], ops[|ops| - 1];
      if Takes(RunMeter(front), op) && RunMeter(front).value.Resets(op.hour)
      then |MeterLog(front)| else BucketStart(front)
  }

  predicate InWindow(e: Entry, now: u32) { e.hour + 24 > now }

  /** What an exact rolling log counts at hour `now`: everything accepted in the last 24
      clock hours, the current one included. */
  function WindowTotal(log: seq<Entry>, now: u32): nat {
    if log == [] then 0
    else WindowTotal(log[..|log| - 1], now)
         + if InWindow(log[|log| - 1], now) then log[|log| - 1].amount else 0
  }

  lemma {:induction false} WindowOfParts(a: seq<Entry>, b: seq<Entry>, now: u32)
    ensures WindowTotal(a + b, now) == WindowTotal(a, now) + WindowTotal(b, now)
  {
    if b == [] {
      assert a + b == a;
    } else {
      assert (a + b)[..|a + b| - 1] == a + b[..|b| - 1];
      WindowOfParts(a, b[..|b| - 1], now);
    }
  }

  lemma {:induction false} WindowIsZeroIff(log: seq<Entry>, now: u32)
    ensures WindowTotal(log, now) == 0
       <==> forall i | 0 <= i < |log| && InWindow(log[i], now) :: log[i].amount == 0
  {
    if log == [] {
    } else {
      WindowIsZeroIff(log[..|log| - 1], now);
    }
  }

  lemma {:induction false} BucketWithinLog(ops: seq<Op>)
    ensures BucketStart(ops) <= |MeterLog(ops)|
    ensures RunMeter(ops).None? ==> MeterLog(ops) == []
  {
    if ops == [] {
    } else {
      BucketWithinLog(ops[..|ops| - 1]);
    }
  }

  function Bucket(ops: seq<Op>): seq<Entry> {
    BucketWithinLog(ops);
    MeterLog(ops)[BucketStart(ops)..]
  }

  /** An accepted call joins the bucket, or starts it afresh. */
  lemma BucketStep(ops: seq<Op>)
    requires ops != [] && Takes(RunMeter(ops[..|ops| - 1]), ops[|ops| - 1])
    ensures var front, op := ops[..|ops| - 1], ops[|ops| - 1];
            Bucket(ops) == (if RunMeter(front).value.Resets(op.hour) then [] else Bucket(front))
                           + [Entry(op.hour, op.amount)]
  {
    BucketWithinLog(ops[..|ops| - 1]);
  }

  /** All entries of a bucket are of one hour, and it adds up to `used`. */
  ghost predicate IsBucket(entries: seq<Entry>, hour: u32, used: nat) {
    (forall e <- entries :: e.hour == hour) && WindowTotal(entries, hour) == used
  }

  lemma BucketGrows(entries: seq<Entry>, m: Meter, hour: u32, amount: u64)
    requires IsBucket(entries, m.last, m.used) && m.oldest <= m.last <= hour
    ensures IsBucket((if m.Resets(hour) then [] else entries) + [Entry(hour, amount)],
                     m.After(hour, amount).last, m.After(hour, amount).used)
  {
    var kept := if m.Resets(hour) then [] else entries;
    WindowOfParts(kept, [Entry(hour, amount)], hour);
    assert WindowTotal([Entry(hour, amount)], hour) == WindowTotal([], hour) + amount;
  }

  /** The bucket of the meter is a suffix of the log, all of it accepted in the meter's hour,
      and the meter is its total. */
  lemma {:induction false} BucketIsUsed(ops: seq<Op>)
    requires ClockOk(ops) && RunMeter(ops).Some?
    ensures IsBucket(Bucket(ops), RunMeter(ops).value.last, RunMeter(ops).value.used)
  {
    var front, op := ops[..|ops| - 1], ops[|ops| - 1];
    BucketWithinLog(front);
    if RunMeter(front).Some? {
      BucketIsUsed(front);
      MeterNotAhead(front);
    }
    if Takes(RunMeter(front), op) {
      BucketStep(ops);
      BucketGrows(Bucket(front), RunMeter(front).value, op.hour, op.amount);
    }
  }

  /** Where the entries that the ring counts at hour `now` begin in the log. */
  function CountedFrom(ops: seq<Op>, now: u32): nat
    requires RunMeter(ops).Some?
  {
    if RunMeter(ops).value.Resets(now) then |Log(ops)| else BucketStart(ops)
  }

  /** The exact log splits at `CountedFrom` into what the ring has forgotten and what it counts. */
  lemma WindowSplits(ops: seq<Op>, now: u32)
    requires ClockOk(ops) && NotBefore(ops, now) && RunRing(ops).Some?
    ensures RunMeter(ops).Some? && CountedFrom(ops, now) <= |Log(ops)|
    ensures WindowTotal(Log(ops), now)
         == WindowTotal(Log(ops)[..CountedFrom(ops, now)], now)
            + Total(Advance(RunRing(ops).value, now).hourly)
  {
    RunCoupled(ops, now);
    SameLog(ops);
    BucketWithinLog(ops);
    AdvanceIsReset(RunRing(ops).value, RunMeter(ops).value, now);
    MeterWindowSplits(ops, now);
  }

  lemma MeterWindowSplits(ops: seq<Op>, now: u32)
    requires ClockOk(ops) && RunMeter(ops).Some? && RunMeter(ops).value.last <= now
    requires Log(ops) == MeterLog(ops)
    ensures CountedFrom(ops, now) <= |MeterLog(ops)|
    ensures WindowTotal(MeterLog(ops), now)
         == WindowTotal(MeterLog(ops)[..CountedFrom(ops, now)], now) + RunMeter(ops).value.UsedAt(now)
  {
    BucketWithinLog(ops);
    var m, log, cut := RunMeter(ops).value, MeterLog(ops), CountedFrom(ops, now);
    assert log == log[..cut] + log[cut..];
    WindowOfParts(log[..cut], log[cut..], now);
    if m.Resets(now) {
      assert log[cut..] == [] && WindowTotal([], now) == 0;
    } else {
      assert now == m.last && log[cut..] == Bucket(ops);
      BucketIsUsed(ops);
    }
  }

  /** The ring never over-counts, so whatever an exact rolling log would admit is admitted. */
  lemma NeverOvercounts(ops: seq<Op>, now: u32, amount: u64)
    requires ClockOk(ops) && NotBefore(ops, now) && RunRing(ops).Some?
    ensures Total(Advance(RunRing(ops).value, now).hourly) <= WindowTotal(Log(ops), now)
    ensures WindowTotal(Log(ops), now) + amount <= RunRing(ops).value.limit ==>
              Admit(RunRing(ops).value, now, amount).Ok?
  {
    WindowSplits(ops, now);
    ArithmeticIsPlain(ops, now, amount);
  }

  /** A limiter that took a full cap in its first hour takes another in the next. */
  lemma TwoCapsInTwoHours(hour: u32, cap: u64)
    requires hour < U32_MAX
    ensures var first := Admit(Fresh(hour, cap), hour, cap);
            && first.Ok? && Admit(first.value, hour + 1, cap).Ok?
            && first.value.limit == Admit(first.value, hour + 1, cap).value.limit == cap
  {
    var m := Meter(cap, hour, hour, 0);
    assert Coupled(Fresh(hour, cap), m);
    AdmitRefinesMeter(Fresh(hour, cap), m, hour, cap);
    AdmitRefinesMeter(Admit(Fresh(hour, cap), hour, cap).value, m.After(hour, cap), hour + 1, cap);
  }

  /** The documented rolling cap does not hold, whatever the cap: opened in some hour, the ring
      takes a full cap in that hour and another in the next, twice the cap in two hours. */
  lemma RollingCapFails(hour: u32, cap: u64)
    requires hour < U32_MAX && cap > 0
    ensures var ops := [SetLimit(hour, cap), Transfer(hour, cap), Transfer(hour + 1, cap)];
            && ClockOk(ops) && RunRing(ops).Some?
            && Log(ops) == [Entry(hour, cap), Entry(hour + 1, cap)]
            && WindowTotal(Log(ops), hour + 1) == 2 * cap > RunRing(ops).value.limit == cap
  {
    var op0, op1, op2 := SetLimit(hour, cap), Transfer(hour, cap), Transfer(hour + 1, cap);
    TwoCapsInTwoHours(hour, cap);
    RunOfOne(op0);
    RunOfOneMore([op0], op1);
    RunOfOneMore([op0, op1], op2);
    assert [op0] + [op1] == [op0, op1] && [op0, op1] + [op2] == [op0, op1, op2];
    WindowOfTwo(Entry(hour, cap), Entry(hour + 1, cap), hour + 1);
  }

  lemma RunOfOne(op: Op)
    requires op.SetLimit?
    ensures RunRing([op]) == Some(Fresh(op.hour, op.limit)) && Log([op]) == []
  {
    assert [op][..0] == [];
  }

  lemma RunOfOneMore(ops: seq<Op>, op: Op)
    ensures RunRing(ops + [op]) == StepRing(RunRing(ops), op)
    ensures Log(ops + [op])
         == Log(ops) + if Accepts(RunRing(ops), op) then [Entry(op.hour, op.amount)] else []
  {
    assert (ops + [op])[..|ops|] == ops;
  }

  lemma WindowOfTwo(a: Entry, b: Entry, now: u32)
    requires InWindow(a, now) && InWindow(b, now)
    ensures WindowTotal([a, b], now) == a.amount + b.amount
  {
    assert [a, b][..1] == [a] && [a][..0] == [];
    assert WindowTotal([a], now) == WindowTotal([], now) + a.amount;
  }

  lemma SameDecisionsIff(r: Ring, now: u32, forgotten: nat, counted: nat)
    requires forall a: u64 :: Admit(r, now, a).Ok? <==> Fits(counted, a, r.limit)
    ensures (forall a: u64 :: Admit(r, now, a).Ok? <==> Fits(forgotten + counted, a, r.limit))
       <==> forgotten == 0 || counted > r.limit
  {
    SameRoomIff(forgotten, counted, r.limit);
  }

  lemma AdmitsWhatFits(ops: seq<Op>, now: u32)
    requires ClockOk(ops) && NotBefore(ops, now) && RunRing(ops).Some?
    ensures var r := RunRing(ops).value;
            forall amount: u64 ::
              Admit(r, now, amount).Ok? <==> Fits(Total(Advance(r, now).hourly), amount, r.limit)
  {
    forall amount: u64
      ensures var r := RunRing(ops).value;
              Admit(r, now, amount).Ok? <==> Fits(Total(Advance(r, now).hourly), amount, r.limit)
    {
      ArithmeticIsPlain(ops, now, amount);
    }
  }

  predicate Fits(counted: nat, amount: u64, limit: u64) { counted + amount <= limit }

  lemma SameRoomIff(forgotten: nat, counted: nat, limit: u64)
    ensures (forall a: u64 :: Fits(counted, a, limit) <==> Fits(forgotten + counted, a, limit))
       <==> forgotten == 0 || counted > limit
  {
    if counted <= limit {
      assert Fits(counted, limit - counted, limit);
    }
  }
}
