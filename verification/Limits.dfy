/** Each limiter account of the bridge is the ring that its own part of the log leaves. */
module Limits {
  import opened Common
  import opened Limiter
  import opened LimiterRuns
  import opened LimiterWindow
  import opened State
  import opened Flows
  import opened Invariants

  /** The limiter operations on `id` that a receipt stands for. */
  function OpOf(r: Receipt, id: TokenId): seq<Op> {
    match r
    case Minted(source, _, _, _, amount, hour) => if source == id then [Transfer(hour, amount)] else []
    case LimitSet(target, _, _, limit, hour) => if target == id then [SetLimit(hour, limit)] else []
    case Withdrawn(_, _, _, _, _, _, _) => []
  }

  function OpsFor(log: seq<Receipt>, id: TokenId): seq<Op> {
    if log == [] then [] else OpsFor(log[..|log| - 1], id) + OpOf(log[|log| - 1], id)
  }

  function RingOf(limiters: map<TokenId, ChainTokenLimiter>, id: TokenId): Option<Ring> {
    if id in limiters then Some(limiters[id].ring) else None
  }

  /** What a log says was minted from one token: each mint, and the total. */
  datatype Mints = Mints(entries: seq<Entry>, total: nat)

  function MintsFrom(log: seq<Receipt>, id: TokenId): Mints {
    Mints(EntriesFrom(log, id), Flow(log, MintedFrom(id)))
  }

  function EntriesFrom(log: seq<Receipt>, id: TokenId): seq<Entry> {
    if log == [] then []
    else
      var r := log[|log| - 1];
      EntriesFrom(log[..|log| - 1], id)
      + if r.Minted? && r.source == id then [Entry(r.hour, r.amount)] else []
  }

  /** The run of limiter operations is in clock order, ends in the stored ring, and accepted
      exactly what the log minted. */
  ghost predicate LimiterFollows(ops: seq<Op>, stored: Option<Ring>, minted: Mints, hour: u32) {
    && ClockOk(ops) && NotBefore(ops, hour)
    && RunRing(ops) == stored
    && Log(ops) == minted.entries
    && Accepted(ops) == minted.total
  }

  ghost predicate LimitersFollow(s: Accounts, hour: u32) {
    forall id: TokenId ::
      LimiterFollows(OpsFor(s.log, id), RingOf(s.limiters, id), MintsFrom(s.log, id), hour)
  }

  lemma OpsGrow(log: seq<Receipt>, r: Receipt, id: TokenId)
    ensures OpsFor(log + [r], id) == OpsFor(log, id) + OpOf(r, id)
  {
    assert (log + [r])[..|log|] == log;
  }

  lemma Regroup<T>(a: seq<T>, b: seq<T>, c: seq<T>)
    ensures (a + b) + c == a + (b + c)
  {
  }

  lemma OpsOfOneMore(a: seq<Receipt>, b: seq<Receipt>, r: Receipt, id: TokenId)
    requires OpsFor(a + b, id) == OpsFor(a, id) + OpsFor(b, id)
    ensures OpsFor(a + (b + [r]), id) == OpsFor(a, id) + OpsFor(b + [r], id)
  {
    calc {
      OpsFor(a + (b + [r]), id);
      { Regroup(a, b, [r]); }
      OpsFor((a + b) + [r], id);
      { OpsGrow(a + b, r, id); }
      (OpsFor(a, id) + OpsFor(b, id)) + OpOf(r, id);
      { Regroup(OpsFor(a, id), OpsFor(b, id), OpOf(r, id)); }
      OpsFor(a, id) + (OpsFor(b, id) + OpOf(r, id));
      { OpsGrow(b, r, id); }
      OpsFor(a, id) + OpsFor(b + [r], id);
    }
  }

  lemma {:induction false} OpsOfParts(a: seq<Receipt>, b: seq<Receipt>, id: TokenId)
    ensures OpsFor(a + b, id) == OpsFor(a, id) + OpsFor(b, id)
  {
    if b == [] {
      assert a + b == a;
    } else {
      var front, r := b[..|b| - 1], b[|b| - 1];
      assert b == front + [r];
      OpsOfParts(a, front, id);
      OpsOfOneMore(a, front, r, id);
    }
  }

  lemma MintsGrow(log: seq<Receipt>, r: Receipt, id: TokenId)
    ensures MintsFrom(log + [r], id)
         == if r.Minted? && r.source == id
            then Mints(MintsFrom(log, id).entries + [Entry(r.hour, r.amount)],
                       MintsFrom(log, id).total + r.amount)
            else MintsFrom(log, id)
  {
    assert (log + [r])[..|log|] == log;
    FlowGrows(log, r, MintedFrom(id));
  }

  lemma RunGrows(ops: seq<Op>, op: Op)
    ensures RunRing(ops + [op]) == StepRing(RunRing(ops), op)
    ensures Accepted(ops + [op])
         == Accepted(ops) + if Accepts(RunRing(ops), op) then op.amount else 0
    ensures Log(ops + [op])
         == Log(ops) + if Accepts(RunRing(ops), op) then [Entry(op.hour, op.amount)] else []
  {
    RunOfOneMore(ops, op);
    assert (ops + [op])[..|ops|] == ops;
  }

  lemma ClockGrows(ops: seq<Op>, op: Op)
    requires ClockOk(ops) && NotBefore(ops, op.hour)
    ensures ClockOk(ops + [op]) && NotBefore(ops + [op], op.hour)
  {
  }

  lemma LaterStillFollows(ops: seq<Op>, stored: Option<Ring>, minted: Mints, before: u32, hour: u32)
    requires LimiterFollows(ops, stored, minted, before) && before <= hour
    ensures LimiterFollows(ops, stored, minted, hour)
  {
  }

  lemma TransferFollows(ops: seq<Op>, ring: Ring, minted: Mints, hour: u32, amount: u64)
    requires LimiterFollows(ops, Some(ring), minted, hour) && Admit(ring, hour, amount).Ok?
    ensures LimiterFollows(ops + [Transfer(hour, amount)], Some(Admit(ring, hour, amount).value),
                           Mints(minted.entries + [Entry(hour, amount)], minted.total + amount), hour)
  {
    RunGrows(ops, Transfer(hour, amount));
    ClockGrows(ops, Transfer(hour, amount));
  }

  lemma UpdateFollows(ops: seq<Op>, stored: Option<Ring>, minted: Mints, hour: u32, limit: u64)
    requires LimiterFollows(ops, stored, minted, hour)
    ensures LimiterFollows(ops + [SetLimit(hour, limit)],
                           Some(if stored.Some? then stored.value.(limit := limit)
                                else Fresh(hour, limit)),
                           minted, hour)
  {
    RunGrows(ops, SetLimit(hour, limit));
    ClockGrows(ops, SetLimit(hour, limit));
  }

  /** A receipt of another token leaves a limiter's run alone. */
  lemma OthersStillFollow(s: Accounts, s': Accounts, r: Receipt, id: TokenId, before: u32, hour: u32)
    requires LimitersFollow(s, before) && before <= hour && s'.log == s.log + [r]
    requires OpOf(r, id) == [] && RingOf(s'.limiters, id) == RingOf(s.limiters, id)
    ensures LimiterFollows(OpsFor(s'.log, id), RingOf(s'.limiters, id),
                           MintsFrom(s'.log, id), hour)
  {
    OpsGrow(s.log, r, id);
    MintsGrow(s.log, r, id);
    assert OpsFor(s'.log, id) == OpsFor(s.log, id);
  }

  lemma MintKeepsLimiters(s: Accounts, c: MintCall, before: u32, hour: u32)
    requires LimitersFollow(s, before) && before <= hour && MintSbtc(s, c, hour).Ok?
    ensures LimitersFollow(MintSbtc(s, c, hour).value, hour)
  {
    MintEffect(s, c, hour);
    var s', own := MintSbtc(s, c, hour).value, c.Source();
    var r := s'.log[|s.log|];
    forall id: TokenId
      ensures LimiterFollows(OpsFor(s'.log, id), RingOf(s'.limiters, id),
                             MintsFrom(s'.log, id), hour)
    {
      if id == own {
        OpsGrow(s.log, r, id);
        MintsGrow(s.log, r, id);
        LaterStillFollows(OpsFor(s.log, id), RingOf(s.limiters, id),
                          MintsFrom(s.log, id), before, hour);
        TransferFollows(OpsFor(s.log, id), s.limiters[id].ring, MintsFrom(s.log, id),
                        hour, c.msg.amount);
      } else {
        OthersStillFollow(s, s', r, id, before, hour);
      }
    }
  }

  lemma UpdatedRing(s: Accounts, c: LimitCall, hour: u32, next: u64)
    requires LimitersOk(s.limiters, s.tokens)
    ensures var stored := RingOf(s.limiters, c.Target());
            RingOf(AfterLimit(s, c, hour, next).limiters, c.Target())
            == Some(if stored.Some? then stored.value.(limit := c.msg.totalLimit)
                    else Fresh(hour, c.msg.totalLimit))
  {
  }

  lemma UpdatedLimiterFollows(s: Accounts, c: LimitCall, next: u64, before: u32, hour: u32)
    requires LimitersOk(s.limiters, s.tokens) && LimitersFollow(s, before) && before <= hour
    ensures var s', id := AfterLimit(s, c, hour, next), c.Target();
            LimiterFollows(OpsFor(s'.log, id), RingOf(s'.limiters, id),
                           MintsFrom(s'.log, id), hour)
  {
    UpdatedRing(s, c, hour, next);
    UpdatedRunFollows(s.log, LimitSet(c.Target(), c.msg.nonce, next, c.msg.totalLimit, hour),
                      RingOf(s.limiters, c.Target()), before);
  }

  lemma UpdatedRunFollows(log: seq<Receipt>, r: Receipt, stored: Option<Ring>, before: u32)
    requires r.LimitSet? && before <= r.hour
    requires LimiterFollows(OpsFor(log, r.id), stored, MintsFrom(log, r.id), before)
    ensures LimiterFollows(OpsFor(log + [r], r.id),
                           Some(if stored.Some? then stored.value.(limit := r.limit)
                                else Fresh(r.hour, r.limit)),
                           MintsFrom(log + [r], r.id), r.hour)
  {
    var ops, minted := OpsFor(log, r.id), MintsFrom(log, r.id);
    OpsGrow(log, r, r.id);
    MintsGrow(log, r, r.id);
    LaterStillFollows(ops, stored, minted, before, r.hour);
    UpdateFollows(ops, stored, minted, r.hour, r.limit);
  }

  lemma LimitKeepsLimiters(s: Accounts, c: LimitCall, before: u32, hour: u32)
    requires ConfigOk(s) && LimitersFollow(s, before) && before <= hour
    requires UpdateLimiter(s, c, hour).Ok?
    ensures LimitersFollow(UpdateLimiter(s, c, hour).value, hour)
  {
    LimitEffect(s, c, hour);
    UpdatedLimiterFollows(s, c, s.limitNonce + 1, before, hour);
    var s', own := AfterLimit(s, c, hour, s.limitNonce + 1), c.Target();
    forall id: TokenId | id != own
      ensures LimiterFollows(OpsFor(s'.log, id), RingOf(s'.limiters, id),
                             MintsFrom(s'.log, id), hour)
    {
      OthersStillFollow(s, s', s'.log[|s.log|], id, before, hour);
    }
  }

  lemma WithdrawKeepsLimiters(s: Accounts, c: WithdrawCall, writeBack: bool, before: u32, hour: u32)
    requires LimitersFollow(s, before) && before <= hour && WithdrawBtc(s, c, writeBack).Ok?
    ensures LimitersFollow(WithdrawBtc(s, c, writeBack).value, hour)
  {
    WithdrawEffect(s, c, writeBack);
    var s' := WithdrawBtc(s, c, writeBack).value;
    forall id: TokenId
      ensures LimiterFollows(OpsFor(s'.log, id), RingOf(s'.limiters, id),
                             MintsFrom(s'.log, id), hour)
    {
      OthersStillFollow(s, s', s'.log[|s.log|], id, before, hour);
    }
  }

  lemma UnchangedStillFollow(s: Accounts, s': Accounts, before: u32, hour: u32)
    requires LimitersFollow(s, before) && before <= hour
    requires s'.log == s.log && s'.limiters == s.limiters
    ensures LimitersFollow(s', hour)
  {
    forall id: TokenId
      ensures LimiterFollows(OpsFor(s'.log, id), RingOf(s'.limiters, id),
                             MintsFrom(s'.log, id), hour)
    {
      LaterStillFollows(OpsFor(s.log, id), RingOf(s.limiters, id),
                        MintsFrom(s.log, id), before, hour);
    }
  }
}
