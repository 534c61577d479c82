/** The bridge over whole runs: the invariant of every reachable state and what follows. */
module Runs {
  import opened Common
  import opened Limiter
  import opened State
  import opened Flows
  import opened Invariants
  import opened Conservation
  import opened Nonces
  import opened Limits

  ghost predicate Inv(s: Accounts, hour: u32, writeBack: bool) {
    && ConfigOk(s)
    && TotalsAgree(s.tokens, s.chains)
    && FlowOk(s, writeBack)
    && NoncesOk(s)
    && TotalsCovered(s)
    && LimitersFollow(s, hour)
  }

  lemma GenesisInv(hour: u32, writeBack: bool)
    ensures Inv(GENESIS, hour, writeBack)
  {
    var s := GENESIS;
    NoRecordsAgree();
    NothingFlows(writeBack);
    assert ConfigOk(s) && NoncesOk(s);
    NothingCovered(s);
    GenesisLimiters(hour);
  }

  lemma NoRecordsAgree()
    ensures TotalsAgree(map[], map[])
  {
    forall c: u8 { NoTokensNoSum(map[], c, 256); }
  }

  lemma NothingFlows(writeBack: bool)
    ensures TokensFlow(map[], [], writeBack)
    ensures ChainsFlow(map[], [], writeBack)
    ensures SuppliesFlow(map[], [])
  {
    NoChainsNoSum(256);
  }

  lemma NothingCovered(s: Accounts)
    requires s.chains == map[]
    ensures TotalsCovered(s)
  {
  }

  lemma GenesisLimiters(hour: u32)
    ensures LimitersFollow(GENESIS, hour)
  {
    forall id: TokenId
      ensures LimiterFollows(OpsFor(GENESIS.log, id), RingOf(GENESIS.limiters, id),
                             MintsFrom(GENESIS.log, id), hour)
    {
      assert OpsFor(GENESIS.log, id) == [];
    }
  }

  lemma {:induction false} NoChainsNoSum(n: nat)
    requires n <= 256
    ensures ChainSum(map[], n) == 0 && SupplySum(map[], n) == 0
  {
    if n == 0 {
    } else {
      NoChainsNoSum(n - 1);
    }
  }

  lemma QuietInv(s: Accounts, tx: Tx, before: u32, hour: u32, writeBack: bool)
    requires Inv(s, before, writeBack) && before <= hour
    requires Quiet(tx) && Execute(s, tx, hour, writeBack).Ok?
    ensures Inv(Execute(s, tx, hour, writeBack).value, hour, writeBack)
  {
    var s' := Execute(s, tx, hour, writeBack).value;
    QuietKeeps(s, tx, hour, writeBack);
    QuietKeepsFlow(s, s', writeBack);
    UnchangedStillFollow(s, s', before, hour);
  }

  lemma MintInv(s: Accounts, c: MintCall, before: u32, hour: u32, writeBack: bool)
    requires Inv(s, before, writeBack) && before <= hour && MintSbtc(s, c, hour).Ok?
    ensures Inv(MintSbtc(s, c, hour).value, hour, writeBack)
  {
    MintKeepsConfig(s, c, hour);
    MintKeepsFlow(s, c, hour, writeBack);
    MintKeepsNonces(s, c, hour);
    MintKeepsCover(s, c, hour);
    MintKeepsLimiters(s, c, before, hour);
  }

  lemma WithdrawInv(s: Accounts, c: WithdrawCall, before: u32, hour: u32, writeBack: bool)
    requires Inv(s, before, writeBack) && before <= hour && WithdrawBtc(s, c, writeBack).Ok?
    ensures Inv(WithdrawBtc(s, c, writeBack).value, hour, writeBack)
  {
    WithdrawKeepsConfig(s, c, writeBack);
    WithdrawKeepsFlow(s, c, writeBack);
    WithdrawKeepsNonces(s, c, writeBack);
    WithdrawKeepsCover(s, c, writeBack);
    WithdrawKeepsLimiters(s, c, writeBack, before, hour);
  }

  lemma LimitInv(s: Accounts, c: LimitCall, before: u32, hour: u32, writeBack: bool)
    requires Inv(s, before, writeBack) && before <= hour && UpdateLimiter(s, c, hour).Ok?
    ensures Inv(UpdateLimiter(s, c, hour).value, hour, writeBack)
  {
    LimitKeepsConfig(s, c, hour);
    LimitKeepsFlow(s, c, hour, writeBack);
    LimitKeepsNonces(s, c, hour);
    LimitEffect(s, c, hour);
    LimitKeepsLimiters(s, c, before, hour);
  }

  /** Every transaction, committed or not, keeps the invariant. */
  lemma StepInv(s: Accounts, e: Event, before: u32, writeBack: bool)
    requires Inv(s, before, writeBack) && before <= Hour(e)
    ensures Inv(Apply(s, e, writeBack), Hour(e), writeBack)
  {
    var hour := Hour(e);
    if Execute(s, e.tx, hour, writeBack).Err? {
      UnchangedStillFollow(s, s, before, hour);
    } else {
      match e.tx
      case MintTx(c) => MintInv(s, c, before, hour, writeBack);
      case WithdrawTx(c) => WithdrawInv(s, c, before, hour, writeBack);
      case LimitTx(c) => LimitInv(s, c, before, hour, writeBack);
      case _ => QuietInv(s, e.tx, before, hour, writeBack);
    }
  }

  lemma LaterInv(s: Accounts, before: u32, hour: u32, writeBack: bool)
    requires Inv(s, before, writeBack) && before <= hour
    ensures Inv(s, hour, writeBack)
  {
    UnchangedStillFollow(s, s, before, hour);
  }

  /** The run `es` is in clock order and the next transaction, at `time`, is not before it. */
  ghost predicate Reaches(es: seq<Event>, time: u32) {
    Clocked(es) && forall e <- es :: e.time <= time
  }

  lemma HoursFollowTime(a: u32, b: u32)
    requires a <= b
    ensures CurrentHour(a) == a / SECONDS_PER_HOUR <= CurrentHour(b) == b / SECONDS_PER_HOUR
  {
  }

  /** Every reachable state satisfies the invariant. */
  lemma {:induction false} RunInv(es: seq<Event>, time: u32, writeBack: bool)
    requires Reaches(es, time)
    ensures Inv(Run(es, writeBack), CurrentHour(time), writeBack)
  {
    if es == [] {
      GenesisInv(CurrentHour(time), writeBack);
    } else {
      var front, e := es[..|es| - 1], es[|es| - 1];
      RunInv(front, e.time, writeBack);
      HoursFollowTime(e.time, time);
      StepInv(Run(front, writeBack), e, Hour(e), writeBack);
      LaterInv(Run(es, writeBack), Hour(e), CurrentHour(time), writeBack);
    }
  }

  // ---------- longer runs ----------

  lemma OneMoreEvent(es: seq<Event>, e: Event, writeBack: bool)
    ensures Run(es + [e], writeBack) == Apply(Run(es, writeBack), e, writeBack)
  {
    assert (es + [e])[..|es|] == es;
  }

  lemma QuietLog(s: Accounts, tx: Tx, hour: u32, writeBack: bool)
    requires Quiet(tx) && Execute(s, tx, hour, writeBack).Ok?
    ensures Execute(s, tx, hour, writeBack).value.log == s.log
  {
  }

  /** What a transaction in `hour` may log: a mint only from a token with a limiter. */
  predicate Loggable(limiters: map<TokenId, ChainTokenLimiter>, r: Receipt, hour: u32) {
    && (!r.Withdrawn? ==> r.hour == hour)
    && (r.Minted? ==> r.source in limiters)
  }

  /** What a transaction adds to the log. */
  lemma StepReceipts(s: Accounts, e: Event, writeBack: bool) returns (added: seq<Receipt>)
    ensures Apply(s, e, writeBack).log == s.log + added && |added| <= 1
    ensures forall r <- added :: Loggable(s.limiters, r, Hour(e))
  {
    added := [];
    if Execute(s, e.tx, Hour(e), writeBack).Ok? {
      match e.tx
      case MintTx(c) =>
        MintEffect(s, c, Hour(e));
        added := [Minted(c.Source(), c.msg.nonce, c.msg.toChainId, c.msg.toAddress, c.msg.amount,
                         Hour(e))];
      case WithdrawTx(c) =>
        WithdrawEffect(s, c, writeBack);
        added := [WithdrawBtc(s, c, writeBack).value.log[|s.log|]];
      case LimitTx(c) =>
        LimitPasses(s, c, Hour(e));
        added := [UpdateLimiter(s, c, Hour(e)).value.log[|s.log|]];
      case _ => QuietLog(s, e.tx, Hour(e), writeBack);
    }
  }

  /** The log of a run extends the log of each of its beginnings. */
  lemma {:induction false} LogOnlyGrows(es: seq<Event>, k: nat, writeBack: bool)
    requires k <= |es|
    ensures Run(es[..k], writeBack).log <= Run(es, writeBack).log
  {
    if k == |es| {
      assert es[..k] == es;
    } else {
      var front := es[..|es| - 1];
      assert front[..k] == es[..k];
      LogOnlyGrows(front, k, writeBack);
      var added := StepReceipts(Run(front, writeBack), es[|es| - 1], writeBack);
    }
  }

  /** The receipts that a run adds after its first `k` transactions. */
  function Added(es: seq<Event>, k: nat, writeBack: bool): seq<Receipt>
    requires k <= |es|
  {
    LogOnlyGrows(es, k, writeBack);
    Run(es, writeBack).log[|Run(es[..k], writeBack).log|..]
  }
}
