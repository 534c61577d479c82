/** Every transaction of every run follows the rules. */
module Refinement {
  import opened Common
  import opened Codec
  import opened Sums
  import opened Ed25519
  import opened Wire
  import opened Limiter
  import opened LimiterRuns
  import opened Committee
  import opened Fees
  import opened State
  import opened Batches
  import opened Flows
  import opened Invariants
  import opened Limits
  import opened Runs
  import opened Guarantees
  import opened Rules

  // ---------- approval ----------

  lemma {:induction false} DistinctIff(keys: seq<Pubkey>)
    ensures |KeySet(keys)| == |keys| <==> forall i, j | 0 <= i < j < |keys| :: keys[i] != keys[j]
  {
    if keys == [] {
    } else {
      var front, k := keys[..|keys| - 1], keys[|keys| - 1];
      DistinctIff(front);
      KeySetOfOneMore(keys);
      AtMostOneEach(front);
      if k in front {
        assert KeySet(keys) == KeySet(front);
      }
    }
  }

  lemma OneMoreKey(ixs: seq<Instruction>, n: nat)
    requires 1 <= n < |ixs| && DistinctKeys(ixs, n)
    requires forall i | 1 <= i <= n :: |ixs[i].data| >= 112
    ensures Signers(ixs, n) == Signers(ixs, n - 1) + {KeyAt(ixs[n])}
    ensures KeyAt(ixs[n]) !in Signers(ixs, n - 1)
  {
    var keys, key := Keys(ixs, n), KeyAt(ixs[n]);
    assert keys[..n - 1] == Keys(ixs, n - 1) && keys[n - 1] == key;
    KeySetOfOneMore(keys);
    forall i | 0 <= i < n - 1
      ensures keys[i] != key
    {
      assert keys[i] == KeyAt(ixs[i + 1]);
    }
  }

  lemma {:induction false} StakesAddUp(members: Members, ixs: seq<Instruction>, n: nat)
    requires n < |ixs| && DistinctKeys(ixs, n)
    requires forall i | 1 <= i <= n :: |ixs[i].data| >= 112 && KeyAt(ixs[i]) in members
    ensures StakeSum(members, ixs, n) == Weight(members, Signers(ixs, n))
  {
    if n == 0 {
      assert Stakes(members, Signers(ixs, 0)) == map[];
    } else {
      StakesAddUp(members, ixs, n - 1);
      OneMoreKey(ixs, n);
      WeightOfOneMore(members, Signers(ixs, n - 1), KeyAt(ixs[n]));
    }
  }

  lemma StandsIff(rq: Request, i: nat)
    ensures Stands(rq, i) <==>
              && i < |rq.ixs| && VouchedBy(rq.members, rq.ixs[i], rq.remaining, rq.msg)
              && OperationOf(rq.msg.Type()) == Some(rq.op) && rq.cell.Equals(rq.msg.Nonce())
  {
    if i < |rq.ixs| {
      AttestsIff(rq.ixs[i], rq.msg);
    }
  }

  /** What an approval asks of the message apart from its signatures. */
  predicate InTime(rq: Request) {
    && OperationOf(rq.msg.Type()) == Some(rq.op) && rq.cell.Equals(rq.msg.Nonce())
  }

  lemma AllStandIff(rq: Request, n: nat)
    requires n >= 1
    ensures AllStand(rq, n) <==>
              && n < |rq.ixs| && InTime(rq)
              && forall i | 1 <= i <= n :: VouchedBy(rq.members, rq.ixs[i], rq.remaining, rq.msg)
  {
    if AllStand(rq, n) {
      assert Stands(rq, n);
    }
    forall i | 1 <= i <= n {
      StandsIff(rq, i);
    }
  }

  lemma SignersDistinctIff(ixs: seq<Instruction>, n: nat)
    requires n < |ixs| && forall i | 1 <= i <= n :: |ixs[i].data| >= 112
    ensures |Signers(ixs, n)| == n <==> DistinctKeys(ixs, n)
  {
    var keys := Keys(ixs, n);
    DistinctIff(keys);
    assert forall i | 1 <= i <= n :: KeyAt(ixs[i]) == keys[i - 1];
    assert forall i | 0 <= i < n :: keys[i] == KeyAt(ixs[i + 1]);
  }

  lemma ApprovedInTime(rq: Request, n: u8)
    requires Approved(rq, n)
    ensures InTime(rq)
  {
    AllStandIff(rq, n);
  }

  /** Verification accepts a request exactly when members vouch for it with the stake required. */
  lemma ApprovedIff(rq: Request, n: u8, stake: u16)
    requires RequiredStake(rq.msg) == Ok(stake)
    ensures Approved(rq, n) <==>
              && InTime(rq) && rq.cell != Counter(U64_MAX)
              && Vouched(rq.members, rq.ixs, n, rq.remaining, rq.msg, stake)
  {
    if 1 <= n <= 254 {
      AllStandIff(rq, n);
      if AllStand(rq, n) {
        SignersDistinctIff(rq.ixs, n);
        if DistinctKeys(rq.ixs, n) {
          StakesAddUp(rq.members, rq.ixs, n);
        }
      }
    }
  }

  // ---------- the limiter ----------

  lemma {:induction false} EntryAtMostTotal(s: seq<u64>, k: nat)
    requires k < |s|
    ensures s[k] <= Total(s)
  {
    if k == |s| - 1 {
    } else {
      EntryAtMostTotal(s[..|s| - 1], k);
    }
  }

  lemma SameResidue(k: int, a: nat)
    ensures (k - a % 24) % 24 == (k - a) % 24
  {
    var q := a / 24;
    assert k - a % 24 == k - a + 24 * q;
    assert (k - a + 24 * q) % 24 == (k - a) % 24;
  }

  /** The clear step for any clock, also one that has wrapped: the hours passed are counted modulo
      2^32. */
  lemma AdvanceAnyClock(r: Ring, hour: u32, passed: nat)
    requires passed == (hour - r.oldest) % 0x1_0000_0000
    ensures Advance(r, hour).hourly == Left(r, passed)
    ensures Advance(r, hour).oldest
         == (r.oldest + if passed < 24 then passed else 24) % 0x1_0000_0000
    ensures Advance(r, hour).limit == r.limit
  {
    forall k | 0 <= k < 24
      ensures Advance(r, hour).hourly[k] == Left(r, passed)[k]
    {
      SameResidue(k, r.oldest);
    }
  }

  /** One call for any account and any clock: what it admits, and the ring it leaves. */
  lemma AdmitAnyClock(r: Ring, hour: u32, amount: u64, passed: nat)
    requires passed == (hour - r.oldest) % 0x1_0000_0000
    ensures Admit(r, hour, amount).Ok? <==> Total(Left(r, passed)) + amount <= r.limit
    ensures Admit(r, hour, amount).Ok? ==>
              var r' := Admit(r, hour, amount).value;
              && r'.limit == r.limit
              && r'.oldest == (r.oldest + if passed < 24 then passed else 24) % 0x1_0000_0000
              && forall k | 0 <= k < 24 ::
                   r'.hourly[k] == Left(r, passed)[k] + if k == hour % 24 then amount else 0
  {
    AdvanceAnyClock(r, hour, passed);
    EntryAtMostTotal(Left(r, passed), hour % 24);
  }

  lemma AdvanceIsKept(r: Ring, hour: u32)
    requires r.oldest <= hour
    ensures Advance(r, hour).hourly == Kept(r, hour)
    ensures Advance(r, hour).oldest == if hour - r.oldest < 24 then hour else r.oldest + 24
    ensures Advance(r, hour).limit == r.limit
  {
    AdvanceAnyClock(r, hour, hour - r.oldest);
  }

  lemma AdmitTakes(r: Ring, hour: u32, amount: u64)
    requires r.oldest <= hour && Admit(r, hour, amount).Ok?
    ensures RingTook(r, Admit(r, hour, amount).value, hour, amount)
  {
    AdvanceIsKept(r, hour);
  }

  /** A stored window start is never ahead of the clock. */
  lemma StartedBefore(s: Accounts, id: TokenId, hour: u32)
    requires LimitersFollow(s, hour) && id in s.limiters
    ensures s.limiters[id].ring.oldest <= hour
  {
    assert LimiterFollows(OpsFor(s.log, id), RingOf(s.limiters, id), MintsFrom(s.log, id), hour);
    RunCoupled(OpsFor(s.log, id), hour);
  }

  // ---------- minting ----------

  lemma MintApprovedIff(s: Accounts, c: MintCall)
    ensures Approved(c.Request(s), c.signatures) <==>
              && c.msg.messageType == 0
              && Vouched(s.members, c.ixs, c.signatures, c.remaining, Mint(c.msg), 6666)
  {
    if c.msg.messageType == 0 {
      ApprovedIff(c.Request(s), c.signatures, 6666);
    } else if Approved(c.Request(s), c.signatures) {
      ApprovedInTime(c.Request(s), c.signatures);
    }
  }

  lemma MintCommitsByRule(s: Accounts, c: MintCall, time: u32, writeBack: bool)
    requires Inv(s, CurrentHour(time), writeBack)
    ensures MintSbtc(s, c, CurrentHour(time)).Ok? <==> MintMay(s, c, time)
  {
    HourIsSeconds(time);
    MintCommitsIff(s, c, CurrentHour(time), writeBack);
    MintApprovedIff(s, c);
    var id := TokenId(c.msg.sourceChainId, c.msg.sourceTokenId);
    if id in s.limiters {
      StartedBefore(s, id, CurrentHour(time));
      AdvanceIsKept(s.limiters[id].ring, CurrentHour(time));
    }
  }

  lemma CreditByRule(s: Accounts, c: MintCall)
    requires CreditMint(s, c).Ok?
    ensures c.msg.toChainId in s.mints
    ensures Credited(s.mints[c.msg.toChainId], CreditMint(s, c).value, c.msg.toAddress, c.msg.amount)
  {
  }

  lemma MintStoresByRule(s: Accounts, c: MintCall, time: u32, writeBack: bool)
    requires Inv(s, CurrentHour(time), writeBack) && MintSbtc(s, c, CurrentHour(time)).Ok?
    ensures MintDoes(s, c, time, MintSbtc(s, c, CurrentHour(time)).value)
  {
    HourIsSeconds(time);
    MintEffect(s, c, CurrentHour(time));
    CreditByRule(s, c);
    StartedBefore(s, c.Source(), CurrentHour(time));
    AdmitTakes(s.limiters[c.Source()].ring, CurrentHour(time), c.msg.amount);
  }

  // ---------- withdrawing ----------

  lemma WithdrawCommitsByRule(s: Accounts, c: WithdrawCall, hour: u32, writeBack: bool)
    requires Inv(s, hour, writeBack)
    ensures WithdrawBtc(s, c, writeBack).Ok? <==> WithdrawMay(s, c)
  {
    WithdrawCommitsIff(s, c, hour, writeBack);
  }

  lemma ChargeByRule(m: Sbtc, user: Pubkey, recipient: Pubkey, fee: u64, rest: u64)
    requires ChargeAndBurn(m, user, recipient, fee, rest).Ok?
    ensures Charged(m, ChargeAndBurn(m, user, recipient, fee, rest).value, user, recipient, fee,
                    fee + rest)
  {
  }

  lemma WithdrawStoresThis(s: Accounts, c: WithdrawCall, fee: u64, sbtc: Sbtc, writeBack: bool)
    requires WithdrawMay(s, c) && fee <= c.msg.amount
    requires fee == c.msg.amount * s.tokens[c.Target()].feePercentage / 1_000_000
    requires Charged(s.mints[c.msg.chainId], sbtc, c.user, s.bridges[c.msg.chainId].feeRecipient, fee,
                     c.msg.amount)
    ensures WithdrawDoes(s, c, writeBack, AfterWithdraw(s, c, fee, sbtc, writeBack))
  {
  }

  lemma WithdrawStoresByRule(s: Accounts, c: WithdrawCall, hour: u32, writeBack: bool)
    requires Inv(s, hour, writeBack) && WithdrawBtc(s, c, writeBack).Ok?
    ensures WithdrawDoes(s, c, writeBack, WithdrawBtc(s, c, writeBack).value)
  {
    WithdrawCommitsByRule(s, c, hour, writeBack);
    WithdrawEffect(s, c, writeBack);
    var fee := FeeFor(s, c);
    FeeIsSafe(c.msg.amount, s.tokens[c.Target()].feePercentage);
    ChargeByRule(s.mints[c.msg.chainId], c.user, s.bridges[c.msg.chainId].feeRecipient, fee,
                 c.msg.amount - fee);
    WithdrawStoresThis(s, c, fee, Burned(s, c).value, writeBack);
  }

  // ---------- limiter updates ----------

  lemma LimitApprovedIff(s: Accounts, c: LimitCall)
    ensures Approved(c.Request(s), c.signatures) <==>
              && c.msg.messageType == 3
              && c.msg.nonce == s.limitNonce && s.limitNonce < 0xFFFF_FFFF_FFFF_FFFF
              && Vouched(s.members, c.ixs, c.signatures, c.remaining, Limit(c.msg), 5001)
  {
    if c.msg.messageType == 3 {
      ApprovedIff(c.Request(s), c.signatures, 5001);
    } else if Approved(c.Request(s), c.signatures) {
      ApprovedInTime(c.Request(s), c.signatures);
    }
  }

  lemma LimitCommitsByRule(s: Accounts, c: LimitCall, hour: u32, writeBack: bool)
    requires Inv(s, hour, writeBack)
    ensures UpdateLimiter(s, c, hour).Ok? <==> LimitMay(s, c)
  {
    LimitCommitsIff(s, c, hour, writeBack);
    LimitApprovedIff(s, c);
  }

  lemma LimitStoresByRule(s: Accounts, c: LimitCall, time: u32, writeBack: bool)
    requires Inv(s, CurrentHour(time), writeBack) && UpdateLimiter(s, c, CurrentHour(time)).Ok?
    ensures LimitDoes(s, c, time, UpdateLimiter(s, c, CurrentHour(time)).value)
  {
    HourIsSeconds(time);
    LimitEffect(s, c, CurrentHour(time));
  }

  // ---------- configuration ----------

  lemma NotDefaultIff(k: Pubkey)
    ensures k != DEFAULT_KEY <==> exists b <- k :: b != 0
  {
    if forall b <- k :: b == 0 {
      forall i | 0 <= i < 32
        ensures k[i] == DEFAULT_KEY[i]
      {
        assert k[i] in k && DEFAULT_KEY[i] in DEFAULT_KEY;
      }
    }
  }

  lemma EntriesByRule(s: Accounts, c: ConfigCall, i: nat)
    requires c.Aligned() && i < |c.tokenIds|
    ensures var es, r := c.Entries(), Records(s.tokens, s.chains, s.funded);
            && es[i].id == Named(c, i)
            && (Creates(r, es, i) <==>
                  && Named(c, i) !in s.tokens && TokenRecord(Named(c, i)) !in s.funded
                  && FirstNaming(c, i))
  {
    var es := c.Entries();
    if es[i].id in Ids(es[..i]) {
      var e :| e in es[..i] && e.id == es[i].id;
      var j :| 0 <= j < i && es[j] == e;
      assert Named(c, j) == Named(c, i);
    } else {
      forall j | 0 <= j < i
        ensures Named(c, j) != Named(c, i)
      {
        assert es[j] in es[..i];
      }
    }
  }

  lemma ConfigCommitsByRule(s: Accounts, c: ConfigCall)
    requires ConfigOk(s)
    ensures CreateBridgeConfig(s, c).Ok? <==> ConfigMay(s, c)
  {
    ConfigCommitsIff(s, c);
    NotDefaultIff(c.feeRecipient);
    NotDefaultIff(c.administrator);
    if c.Aligned() {
      var r := Records(s.tokens, s.chains, s.funded);
      forall i | 0 <= i < |c.tokenIds|
        ensures EntryFits(r, c.Entries(), i, c.chainId, c.remaining) <==> EntryMay(s, c, i)
      {
        EntriesByRule(s, c, i);
      }
    }
  }

  lemma NamesByRule(c: ConfigCall)
    requires c.Aligned()
    ensures forall id: TokenId :: id in Ids(c.Entries()) <==> Names(c, id)
    ensures forall k: u8 :: k in ChainsOf(c.Entries()) <==> k in c.supportedChains
  {
    var es := c.Entries();
    forall i | 0 <= i < |es|
      ensures es[i].id == Named(c, i) && es[i] in es
    {
    }
    forall id | Names(c, id)
      ensures id in Ids(es)
    {
      var i :| 0 <= i < |c.tokenIds| && Named(c, i) == id;
      assert es[i] in es;
    }
    forall k | k in c.supportedChains
      ensures k in ChainsOf(es)
    {
      var i :| 0 <= i < |es| && c.supportedChains[i] == k;
      assert es[i] in es && es[i].id.chain == k;
    }
  }

  lemma ConfigStoresByRule(s: Accounts, c: ConfigCall)
    requires ConfigOk(s) && CreateBridgeConfig(s, c).Ok?
    ensures ConfigDoes(s, c, CreateBridgeConfig(s, c).value)
  {
    ConfigCommitsIff(s, c);
    NamesByRule(c);
    var s', es := CreateBridgeConfig(s, c).value, c.Entries();
    forall i | 0 <= i < |es| && Named(c, i) in s'.tokens && Named(c, i) !in s.tokens
               && FirstNaming(c, i)
      ensures s'.tokens[Named(c, i)] == TokenConfig(true, false, Named(c, i), false,
                                                    c.feePercentages[i], c.minAmounts[i], 0)
    {
      EntriesByRule(s, c, i);
    }
  }

  lemma CommitteeStoresByRule(s: Accounts, payer: Pubkey, chainId: u8, keys: seq<Pubkey>,
                              stakes: seq<u16>, submitter: Pubkey, remaining: seq<Address>)
    requires ConfigOk(s)
    requires CreateCommittee(s, payer, chainId, keys, stakes, submitter, remaining).Ok?
    ensures CommitteeDoes(s, keys, stakes, submitter,
                          CreateCommittee(s, payer, chainId, keys, stakes, submitter, remaining).value)
  {
    CommitteeCommitsIff(s, payer, chainId, keys, stakes, submitter, remaining);
  }

  lemma HolderByRule(s: Accounts, d: u8, from: Pubkey, to: Pubkey, amount: u64)
    requires AllBalanced(s.mints)
    ensures HolderTransfer(s, d, from, to, amount).Ok? <==>
              && d in s.mints && (from in s.mints[d].balances || from == to)
              && amount <= Held(s.mints[d], from)
    ensures HolderTransfer(s, d, from, to, amount).Ok? ==>
              var s' := HolderTransfer(s, d, from, to, amount).value;
              && d in s'.mints && s' == s.(mints := s.mints[d := s'.mints[d]])
              && Moved(s.mints[d], s'.mints[d], from, to, amount)
  {
    if d in s.mints {
      HolderMoves(s.mints[d], from, to, amount);
    }
  }

  lemma HolderMoves(m: Sbtc, from: Pubkey, to: Pubkey, amount: u64)
    requires Balanced(m)
    ensures var r := TransferSbtc(OpenAta(m, to), from, to, amount);
            && (r.Ok? <==> (from in m.balances || from == to) && amount <= Held(m, from))
            && (r.Ok? ==> Moved(m, r.value, from, to, amount))
  {
    var open := OpenAta(m, to);
    OpenAtaKeepsBalance(m, to);
    if from in open.balances && from != to {
      SumTakeOut(open.balances, from);
      EntryAtMostSum(open.balances - {from}, to);
    }
  }

  // ---------- every transaction ----------

  lemma AdminCommitsByRule(s: Accounts, tx: Tx, hour: u32, time: u32, writeBack: bool)
    requires ConfigOk(s) && (tx.ChainTx? || tx.TokenTx? || tx.MemberTx? || tx.SubmitterTx?)
    ensures Execute(s, tx, hour, writeBack).Ok? <==> May(s, tx, time)
    ensures Execute(s, tx, hour, writeBack).Ok? ==>
              Does(s, tx, time, writeBack, Execute(s, tx, hour, writeBack).value)
  {
  }

  lemma QuietCommitsByRule(s: Accounts, tx: Tx, hour: u32, time: u32, writeBack: bool)
    requires Inv(s, hour, writeBack) && Quiet(tx)
    ensures Execute(s, tx, hour, writeBack).Ok? <==> May(s, tx, time)
  {
    match tx
    case ConfigTx(c) => ConfigCommitsByRule(s, c);
    case CommitteeTx(payer, chainId, keys, stakes, submitter, remaining) =>
      CommitteeCommitsIff(s, payer, chainId, keys, stakes, submitter, remaining);
    case HolderTx(d, from, to, amount) => HolderByRule(s, d, from, to, amount);
    case FundTx(_) =>
    case _ => AdminCommitsByRule(s, tx, hour, time, writeBack);
  }

  lemma QuietStoresByRule(s: Accounts, tx: Tx, hour: u32, time: u32, writeBack: bool)
    requires Inv(s, hour, writeBack) && Quiet(tx) && Execute(s, tx, hour, writeBack).Ok?
    ensures Does(s, tx, time, writeBack, Execute(s, tx, hour, writeBack).value)
  {
    match tx
    case ConfigTx(c) => ConfigStoresByRule(s, c);
    case CommitteeTx(payer, chainId, keys, stakes, submitter, remaining) =>
      CommitteeStoresByRule(s, payer, chainId, keys, stakes, submitter, remaining);
    case HolderTx(d, from, to, amount) => HolderByRule(s, d, from, to, amount);
    case FundTx(_) =>
    case _ => AdminCommitsByRule(s, tx, hour, time, writeBack);
  }

  lemma CommitsByRule(s: Accounts, e: Event, writeBack: bool)
    requires Inv(s, Hour(e), writeBack)
    ensures Execute(s, e.tx, Hour(e), writeBack).Ok? <==> May(s, e.tx, e.time)
  {
    match e.tx
    case MintTx(c) => MintCommitsByRule(s, c, e.time, writeBack);
    case WithdrawTx(c) => WithdrawCommitsByRule(s, c, Hour(e), writeBack);
    case LimitTx(c) => LimitCommitsByRule(s, c, Hour(e), writeBack);
    case _ => QuietCommitsByRule(s, e.tx, Hour(e), e.time, writeBack);
  }

  lemma StoresByRule(s: Accounts, e: Event, writeBack: bool)
    requires Inv(s, Hour(e), writeBack) && Execute(s, e.tx, Hour(e), writeBack).Ok?
    ensures Does(s, e.tx, e.time, writeBack, Execute(s, e.tx, Hour(e), writeBack).value)
  {
    match e.tx
    case MintTx(c) => MintStoresByRule(s, c, e.time, writeBack);
    case WithdrawTx(c) => WithdrawStoresByRule(s, c, Hour(e), writeBack);
    case LimitTx(c) => LimitStoresByRule(s, c, e.time, writeBack);
    case _ => QuietStoresByRule(s, e.tx, Hour(e), e.time, writeBack);
  }

  /** The next transaction of any run commits exactly when the rules let it, and then stores exactly
      what they say; otherwise nothing changes. */
  lemma StepByRule(es: seq<Event>, e: Event, writeBack: bool)
    requires Reaches(es, e.time)
    ensures Execute(Run(es, writeBack), e.tx, Hour(e), writeBack).Ok?
       <==> May(Run(es, writeBack), e.tx, e.time)
    ensures Step(Run(es, writeBack), e.tx, e.time, writeBack, Run(es + [e], writeBack))
  {
    var s := Run(es, writeBack);
    RunInv(es, e.time, writeBack);
    OneMoreEvent(es, e, writeBack);
    CommitsByRule(s, e, writeBack);
    if May(s, e.tx, e.time) {
      StoresByRule(s, e, writeBack);
    }
  }

  lemma NextStateIff(es: seq<Event>, e: Event, writeBack: bool, s': Accounts)
    requires Reaches(es, e.time)
    ensures Step(Run(es, writeBack), e.tx, e.time, writeBack, s') <==> s' == Run(es + [e], writeBack)
  {
    StepByRule(es, e, writeBack);
    if Step(Run(es, writeBack), e.tx, e.time, writeBack, s') {
      OneOutcome(Run(es, writeBack), e.tx, e.time, writeBack, s', Run(es + [e], writeBack));
    }
  }

  ghost predicate RunStates(es: seq<Event>, states: seq<Accounts>, writeBack: bool)
    requires |states| == |es| + 1
  {
    forall k | 0 <= k <= |es| :: states[k] == Run(es[..k], writeBack)
  }

  lemma RunStatesGrow(es: seq<Event>, states: seq<Accounts>, writeBack: bool)
    requires es != [] && |states| == |es| + 1
    ensures var n := |es| - 1;
            RunStates(es, states, writeBack) <==>
              RunStates(es[..n], states[..n + 1], writeBack) && states[n + 1] == Run(es, writeBack)
  {
    var n := |es| - 1;
    assert es[..n + 1] == es;
    forall k | 0 <= k <= n
      ensures es[..n][..k] == es[..k] && states[..n + 1][k] == states[k]
    {
    }
  }

  lemma FirstStateIff(es: seq<Event>, states: seq<Accounts>, writeBack: bool)
    requires es == [] && |states| == 1
    ensures Trace(es, states, writeBack) <==> RunStates(es, states, writeBack)
  {
    assert NothingYet(states[0]) <==> states[0] == GENESIS;
  }

  lemma LastStepIff(es: seq<Event>, states: seq<Accounts>, writeBack: bool)
    requires es != [] && |states| == |es| + 1 && Reaches(es[..|es| - 1], es[|es| - 1].time)
    requires RunStates(es[..|es| - 1], states[..|es|], writeBack)
    ensures var n := |es| - 1;
            Step(states[n], es[n].tx, es[n].time, writeBack, states[n + 1])
            <==> states[n + 1] == Run(es, writeBack)
  {
    var n := |es| - 1;
    assert states[..n + 1][n] == Run(es[..n][..n], writeBack) && es[..n][..n] == es[..n];
    assert es == es[..n] + [es[n]];
    NextStateIff(es[..n], es[n], writeBack, states[n + 1]);
  }

  /** The program's runs are the runs of the rules and no others: a sequence of accounts follows
      the rules transaction by transaction exactly when it is what the program stores. */
  lemma {:induction false} TraceIff(es: seq<Event>, states: seq<Accounts>, time: u32, writeBack: bool)
    requires Reaches(es, time) && |states| == |es| + 1
    ensures Trace(es, states, writeBack) <==> RunStates(es, states, writeBack)
  {
    if es == [] {
      FirstStateIff(es, states, writeBack);
    } else {
      var n := |es| - 1;
      TraceIff(es[..n], states[..n + 1], time, writeBack);
      RunStatesGrow(es, states, writeBack);
      if RunStates(es[..n], states[..n + 1], writeBack) {
        LastStepIff(es, states, writeBack);
      }
    }
  }

  // ---------- an hour by the clock ----------

  lemma FullRing(r: Ring, r': Ring, hour: u32, amount: u64)
    requires RingTook(r, r', hour, r.limit) && hour - r.oldest < 24 && 0 < amount
    ensures Total(Kept(r', hour)) + amount > r'.limit
  {
    EntryAtMostTotal(Kept(r', hour), hour % 24);
  }

  /** A cap that was used up stays used up until the clock shows the next multiple of 3600 seconds:
      after a mint of the whole cap no further amount can be minted from the token. */
  lemma FullCapFillsTheHour(es: seq<Event>, e: Event, next: Event, id: TokenId, writeBack: bool)
    requires Reaches(es, e.time) && e.tx.MintTx? && May(Run(es, writeBack), e.tx, e.time)
    requires id == TokenId(e.tx.mint.msg.sourceChainId, e.tx.mint.msg.sourceTokenId)
    requires var ring := Run(es, writeBack).limiters[id].ring;
             e.tx.mint.msg.amount == ring.limit && e.time / 3600 - ring.oldest < 24
    requires next.time / 3600 == e.time / 3600 && next.tx.MintTx? && next.tx.mint.msg.amount > 0
    requires id == TokenId(next.tx.mint.msg.sourceChainId, next.tx.mint.msg.sourceTokenId)
    ensures !May(Run(es + [e], writeBack), next.tx, next.time)
  {
    StepByRule(es, e, writeBack);
    FullRing(Run(es, writeBack).limiters[id].ring, Run(es + [e], writeBack).limiters[id].ring,
             e.time / 3600, next.tx.mint.msg.amount);
  }
}
