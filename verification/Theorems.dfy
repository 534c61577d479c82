/** The guarantees stated over runs: `es` is any run from an empty chain with a clock that
    does not go back, and `time` any later moment at which one more transaction is tried. */
module Theorems {
  import opened Common
  import opened Limiter
  import opened LimiterRuns
  import opened LimiterWindow
  import opened RollingCap
  import opened Committee
  import opened Fees
  import opened State
  import opened Flows
  import opened Invariants
  import opened Conservation
  import opened Nonces
  import opened Limits
  import opened Runs
  import opened Guarantees

  // ---------- arithmetic that can never abort ----------

  lemma MintNeverAborts(s: Accounts, c: MintCall, hour: u32, writeBack: bool)
    requires Inv(s, hour, writeBack)
    ensures MintSbtc(s, c, hour) != Err(Panicked(MintTotalAdd))
    ensures MintSbtc(s, c, hour) != Err(Panicked(RingSum))
    ensures MintSbtc(s, c, hour) != Err(Panicked(SlotAdd))
  {
    MintGuardsIff(s, c);
    GuardsNeverPanic(s, c);
    ApproveSites(c.Request(s), c.signatures);
    if MintAllowed(s, c) {
      RoomForEveryMint(s, c.Source(), c.msg.nonce, c.msg.amount);
      LimiterArithmetic(s, c.Source(), hour, c.msg.amount);
      SettleNeverAborts(NonceCreated(s, c), c, hour);
    }
  }

  lemma SettleNeverAborts(s: Accounts, c: MintCall, hour: u32)
    requires c.msg.sourceChainId in s.chains && c.Source() in s.tokens && c.Source() in s.limiters
    requires s.chains[c.msg.sourceChainId].mintTotal + c.msg.amount <= U128_MAX
    requires s.tokens[c.Source()].mintTotal + c.msg.amount <= U128_MAX
    requires var a := Admit(s.limiters[c.Source()].ring, hour, c.msg.amount);
             a != Err(Panicked(RingSum)) && a != Err(Panicked(SlotAdd)) && a != Err(Panicked(MintTotalAdd))
    ensures SettleMint(s, c, hour) != Err(Panicked(MintTotalAdd))
    ensures SettleMint(s, c, hour) != Err(Panicked(RingSum))
    ensures SettleMint(s, c, hour) != Err(Panicked(SlotAdd))
  {
    CreditNeverPanics(s, c);
  }

  lemma GuardsNeverPanic(s: Accounts, c: MintCall)
    ensures MintGuards(s, c).Err? ==> !MintGuards(s, c).error.Panicked?
  {
  }

  lemma CreditNeverPanics(s: Accounts, c: MintCall)
    ensures CreditMint(s, c).Err? ==> !CreditMint(s, c).error.Panicked?
  {
  }

  /** The places where verification can abort. */
  predicate VerifySite(e: Error) {
    e.Panicked? ==> e.site in {SignatureCountAdd, ApprovalStakeAdd, NonceAdd, FrameSlice, RecordSlice}
  }

  lemma SignatureSites(rq: Request, i: nat)
    ensures Signature(rq, i).Err? ==> VerifySite(Signature(rq, i).error)
  {
  }

  lemma ApproveSites(rq: Request, n: u8)
    ensures Approve(rq, n).Err? ==> VerifySite(Approve(rq, n).error)
  {
    forall i | 0 <= i < n
      ensures Signatures(rq, n)[i].Err? ==> VerifySite(Signatures(rq, n)[i].error)
    {
      SignatureSites(rq, i + 1);
    }
    CountedErrors(Signatures(rq, n), VerifySite);
  }

  /** In no run can a stored total leave u128, the ring sum leave u64 or a bucket overflow: a
      chain's mints carry distinct u64 nonces, so its total stays within 2^64 * (2^64 - 1),
      and each token's total is part of its chain's. */
  lemma MintTotalsNeverOverflow(es: seq<Event>, time: u32, c: MintCall, writeBack: bool)
    requires Reaches(es, time)
    ensures var s, hour := Run(es, writeBack), CurrentHour(time);
            && MintSbtc(s, c, hour) != Err(Panicked(MintTotalAdd))
            && MintSbtc(s, c, hour) != Err(Panicked(RingSum))
            && MintSbtc(s, c, hour) != Err(Panicked(SlotAdd))
    ensures forall id: TokenId ::
              TokenTotal(Run(es, writeBack).tokens, id)
              <= ChainTotal(Run(es, writeBack).chains, id.chain)
              <= (U64_MAX + 1) * U64_MAX <= U128_MAX
  {
    RunInv(es, time, writeBack);
    var s := Run(es, writeBack);
    MintNeverAborts(s, c, CurrentHour(time), writeBack);
    forall id: TokenId { TotalsBounded(s, id); }
  }

  lemma WithdrawSubtractsSafely(s: Accounts, c: WithdrawCall, writeBack: bool)
    requires ConfigOk(s)
    ensures WithdrawBtc(s, c, writeBack) != Err(Panicked(FeeSubtract))
    ensures WithdrawBtc(s, c, writeBack) != Err(Panicked(MintTotalSubtract))
  {
    if c.Target() in s.tokens {
      FeeIsSafe(c.msg.amount, s.tokens[c.Target()].feePercentage);
    }
  }

  /** In no run does a withdrawal abort: the fee never exceeds the amount and the amount never
      exceeds a stored total once the guards passed. What it commits adds up. */
  lemma WithdrawNeverAborts(es: seq<Event>, time: u32, c: WithdrawCall, writeBack: bool)
    requires Reaches(es, time)
    ensures var r := WithdrawBtc(Run(es, writeBack), c, writeBack);
            r != Err(Panicked(FeeSubtract)) && r != Err(Panicked(MintTotalSubtract))
    ensures ReceiptsOk(Run(es, writeBack).log)
  {
    RunInv(es, time, writeBack);
    WithdrawSubtractsSafely(Run(es, writeBack), c, writeBack);
  }

  // ---------- the ledger ----------

  ghost predicate Funds(es: seq<Event>, address: Address) {
    exists e <- es :: e.tx == FundTx(address)
  }

  lemma QuietFunded(s: Accounts, tx: Tx, hour: u32, writeBack: bool)
    requires Quiet(tx) && Execute(s, tx, hour, writeBack).Ok?
    ensures Execute(s, tx, hour, writeBack).value.funded
         == s.funded + if tx.FundTx? then {tx.address} else {}
  {
  }

  lemma StepFunded(s: Accounts, e: Event, writeBack: bool)
    ensures Apply(s, e, writeBack).funded
         == s.funded + if e.tx.FundTx? then {e.tx.address} else {}
  {
    if Execute(s, e.tx, Hour(e), writeBack).Ok? {
      match e.tx
      case MintTx(c) => MintEffect(s, c, Hour(e));
      case WithdrawTx(c) => WithdrawEffect(s, c, writeBack);
      case LimitTx(c) => LimitPasses(s, c, Hour(e));
      case _ => QuietFunded(s, e.tx, Hour(e), writeBack);
    }
  }

  lemma {:induction false} FundedIff(es: seq<Event>, address: Address, writeBack: bool)
    ensures address in Run(es, writeBack).funded <==> Funds(es, address)
  {
    if es == [] {
    } else {
      var front, e := es[..|es| - 1], es[|es| - 1];
      assert es == front + [e];
      FundedIff(front, address, writeBack);
      StepFunded(Run(front, writeBack), e, writeBack);
    }
  }

  /** Two-level agreement: in every run a token's chain record exists unless somebody funded its
      address, and each chain's total is the sum of the totals of its tokens. */
  lemma LedgersAgree(es: seq<Event>, time: u32, writeBack: bool)
    requires Reaches(es, time)
    ensures var s := Run(es, writeBack);
            && (forall id <- s.tokens :: id.chain in s.chains || Funds(es, ChainRecord(id.chain)))
            && (forall c: u8 :: ChainTotal(s.chains, c) == TokenSum(s.tokens, c, 256))
  {
    RunInv(es, time, writeBack);
    forall id <- Run(es, writeBack).tokens { FundedIff(es, ChainRecord(id.chain), writeBack); }
  }

  /** Each stored total is what was minted under it, less what was withdrawn if withdrawals
      are written back. */
  lemma TotalsAreFlows(es: seq<Event>, time: u32, writeBack: bool)
    requires Reaches(es, time)
    ensures var s := Run(es, writeBack);
            && (forall id: TokenId :: TokenTotal(s.tokens, id)
                  == Flow(s.log, MintedFrom(id)) - TakenOff(s.log, WithdrawnTo(id), writeBack))
            && (forall c: u8 :: ChainTotal(s.chains, c)
                  == Flow(s.log, ChainMinted(c)) - TakenOff(s.log, ChainWithdrawn(c), writeBack))
  {
    RunInv(es, time, writeBack);
  }

  /** Supply conservation over runs. */
  lemma SupplyConservedInRuns(es: seq<Event>, time: u32, writeBack: bool)
    requires Reaches(es, time)
    ensures var s := Run(es, writeBack);
            && (forall d: u8 :: Supply(s.mints, d)
                  == Flow(s.log, MintedOn(d)) - Flow(s.log, BurnedOn(d)))
            && SupplySum(s.mints, 256) == Flow(s.log, AllMinted) - Flow(s.log, AllBurned)
            && AllBalanced(s.mints)
            && (writeBack ==>
                  SupplySum(s.mints, 256) == ChainSum(s.chains, 256) + Flow(s.log, AllFees))
            && (!writeBack ==>
                  ChainSum(s.chains, 256) == SupplySum(s.mints, 256) + Flow(s.log, AllBurned))
  {
    RunInv(es, time, writeBack);
    SupplyConserved(Run(es, writeBack), writeBack);
  }

  /** With the program as written, the chain totals stand for the circulating sBTC, fees apart,
      only in runs without a withdrawal of a positive amount. */
  lemma TotalsTrackSupplyInRunsIff(es: seq<Event>, time: u32)
    requires Reaches(es, time)
    ensures var s := Run(es, false);
            SupplySum(s.mints, 256) == ChainSum(s.chains, 256) + Flow(s.log, AllFees)
            <==> forall w <- s.log :: w.Withdrawn? ==> w.original == 0
  {
    RunInv(es, time, false);
    TotalsTrackSupplyIff(Run(es, false), false);
    NothingWithdrawnIff(Run(es, false).log);
  }

  lemma {:induction false} NothingWithdrawnIff(log: seq<Receipt>)
    ensures Flow(log, AllWithdrawn) == 0 <==> forall w <- log :: w.Withdrawn? ==> w.original == 0
  {
    if log == [] {
    } else {
      var front, w := log[..|log| - 1], log[|log| - 1];
      NothingWithdrawnIff(front);
      assert log == front + [w];
    }
  }

  // ---------- exactly once ----------

  ghost predicate MintsOnce(log: seq<Receipt>) {
    forall i, j | 0 <= i < j < |log| && log[i].Minted? && log[j].Minted? ::
      log[i].source.chain != log[j].source.chain || log[i].nonce != log[j].nonce
  }

  /** The k-th limiter update carries nonce k, counting from 0. */
  ghost predicate LimitsCounted(log: seq<Receipt>) {
    forall i | 0 <= i < |log| && log[i].LimitSet? :: log[i].messageNonce == LimitsIn(log[..i])
  }

  /** Withdrawals are numbered 1, 2, ... across all users. */
  ghost predicate WithdrawalsCounted(log: seq<Receipt>) {
    forall i | 0 <= i < |log| && log[i].Withdrawn? :: log[i].nonce == WithdrawalsIn(log[..i]) + 1
  }

  lemma OrderMeansOnce(log: seq<Receipt>)
    requires InOrder(log)
    ensures MintsOnce(log) && LimitsCounted(log) && WithdrawalsCounted(log)
  {
    forall i, j | 0 <= i < j < |log| && log[i].Minted? && log[j].Minted?
      ensures log[i].source.chain != log[j].source.chain || log[i].nonce != log[j].nonce
    {
      MintsAreDistinct(log, i, j);
    }
    assert forall i | 0 <= i < |log| :: Follows(log[..i], log[i]);
  }

  /** Exactly once, in every run: no two mints share source chain and nonce, limiter updates
      carry 0, 1, 2, ... in order, and withdrawals are numbered 1, 2, ... */
  lemma ExactlyOnce(es: seq<Event>, time: u32, writeBack: bool)
    requires Reaches(es, time)
    ensures var log := Run(es, writeBack).log;
            MintsOnce(log) && LimitsCounted(log) && WithdrawalsCounted(log)
  {
    RunInv(es, time, writeBack);
    OrderMeansOnce(Run(es, writeBack).log);
  }

  /** `retry` is the same update brought again with the same signatures in front and further
      ones behind. */
  predicate Extends(retry: LimitCall, c: LimitCall) {
    && retry.msg == c.msg && retry.submitter == c.submitter
    && c.signatures <= retry.signatures
    && c.signatures < |c.ixs| && c.signatures < |retry.ixs|
    && (forall i | 1 <= i <= c.signatures :: retry.ixs[i] == c.ixs[i])
    && (forall a <- c.remaining :: a in retry.remaining)
  }

  lemma FirstSignaturesStand(a: Request, b: Request, n: nat)
    requires AllStand(a, n) && b == a.(ixs := b.ixs, remaining := b.remaining)
    requires n < |a.ixs| && n < |b.ixs| && forall i | 1 <= i <= n :: b.ixs[i] == a.ixs[i]
    requires forall x <- a.remaining :: x in b.remaining
    ensures AllStand(b, n)
  {
    forall i | 1 <= i <= n
      ensures Stands(b, i)
    {
      assert Stands(a, i);
    }
  }

  lemma RefusedForStake(s: Accounts, c: LimitCall, hour: u32)
    requires Keyed(s.members) && UpdateLimiter(s, c, hour) == Err(InsufficientStake)
    ensures LimitGuards(s, c).Ok? && ShortOfStake(c.Request(s), c.signatures)
    ensures c.msg.nonce == s.limitNonce
    ensures CellLeft(c.Request(s), c.signatures) == Counter(s.limitNonce + 1)
  {
    ShortOfStakeIff(c.Request(s), c.signatures);
    assert Stands(c.Request(s), 1);
  }

  lemma RetryApproved(s: Accounts, c: LimitCall, retry: LimitCall)
    requires Keyed(s.members) && Extends(retry, c) && ShortOfStake(c.Request(s), c.signatures)
    requires |Signers(retry.ixs, retry.signatures)| == retry.signatures <= 254
    requires forall i | c.signatures < i <= retry.signatures :: Stands(retry.Request(s), i)
    ensures Approve(retry.Request(s), retry.signatures).Ok? <==>
              GOVERNANCE_STAKE_REQUIRED
              <= Weight(s.members, Signers(retry.ixs, retry.signatures)) <= U16_MAX
  {
    FirstSignaturesStand(c.Request(s), retry.Request(s), c.signatures);
    assert Stands(c.Request(s), 1);
    ApproveIff(retry.Request(s), retry.signatures);
  }

  lemma RetryCommitsIff(s: Accounts, c: LimitCall, retry: LimitCall, hour: u32, later: u32)
    requires Keyed(s.members) && UpdateLimiter(s, c, hour) == Err(InsufficientStake)
    requires Extends(retry, c) && |Signers(retry.ixs, retry.signatures)| == retry.signatures <= 254
    requires forall i | c.signatures < i <= retry.signatures :: Stands(retry.Request(s), i)
    ensures UpdateLimiter(s, retry, later).Ok? <==>
              GOVERNANCE_STAKE_REQUIRED
              <= Weight(s.members, Signers(retry.ixs, retry.signatures)) <= U16_MAX
    ensures UpdateLimiter(s, retry, later).Ok? ==>
              UpdateLimiter(s, retry, later).value.limitNonce == c.msg.nonce + 1
  {
    RefusedForStake(s, c, hour);
    RetryApproved(s, c, retry);
    if UpdateLimiter(s, retry, later).Ok? {
      LimitEffect(s, retry, later);
    }
  }

  /** A limiter update refused for its stake has moved the counter in memory but not the stored
      one, which still equals the nonce its message carries. So the same message is not spent:
      brought again with further distinct active signers, it commits exactly when their joint
      stake now suffices and fits u16, and only then is its nonce used. */
  lemma RefusedForStakeIsNotSpent(es: seq<Event>, e: Event, c: LimitCall, retry: LimitCall,
                                  later: u32, writeBack: bool)
    requires Reaches(es, e.time) && e.tx == LimitTx(c)
    requires UpdateLimiter(Run(es, writeBack), c, Hour(e)) == Err(InsufficientStake)
    requires Extends(retry, c) && |Signers(retry.ixs, retry.signatures)| == retry.signatures <= 254
    requires forall i | c.signatures < i <= retry.signatures ::
               Stands(retry.Request(Run(es, writeBack)), i)
    ensures c.msg.nonce < U64_MAX
    ensures CellLeft(c.Request(Run(es, writeBack)), c.signatures) == Counter(c.msg.nonce + 1)
    ensures Run(es + [e], writeBack).limitNonce == c.msg.nonce
    ensures var s := Run(es + [e], writeBack);
            && (UpdateLimiter(s, retry, later).Ok? <==>
                  GOVERNANCE_STAKE_REQUIRED
                  <= Weight(s.members, Signers(retry.ixs, retry.signatures)) <= U16_MAX)
            && (UpdateLimiter(s, retry, later).Ok? ==>
                  UpdateLimiter(s, retry, later).value.limitNonce == c.msg.nonce + 1)
  {
    RunInv(es, e.time, writeBack);
    OneMoreEvent(es, e, writeBack);
    RefusedForStake(Run(es, writeBack), c, Hour(e));
    RetryCommitsIff(Run(es, writeBack), c, retry, Hour(e), later);
  }

  // ---------- the rate limit ----------

  ghost predicate CapsAtMost(log: seq<Receipt>, id: TokenId, cap: nat) {
    forall r <- log :: r.LimitSet? && r.id == id ==> r.limit <= cap
  }

  lemma {:induction false} CapsOfRun(log: seq<Receipt>, id: TokenId, cap: nat)
    requires CapsAtMost(log, id, cap)
    ensures LimitsAtMost(OpsFor(log, id), cap)
  {
    if log == [] {
    } else {
      CapsOfRun(log[..|log| - 1], id, cap);
      assert log[|log| - 1] in log;
    }
  }

  lemma {:induction false} OpenedOnce(ops: seq<Op>)
    ensures RunRing(ops).Some? <==> OpenedAt(ops).Some?
  {
    if ops == [] {
    } else {
      OpenedOnce(ops[..|ops| - 1]);
    }
  }

  /** Inflow since the opening: everything ever minted from a token is at most its largest cap
      for each clock hour begun since its limiter was opened. */
  lemma InflowSinceOpeningInRuns(es: seq<Event>, time: u32, id: TokenId, cap: nat, hours: int,
                                 writeBack: bool)
    requires Reaches(es, time)
    requires var s := Run(es, writeBack); id in s.limiters && CapsAtMost(s.log, id, cap)
    ensures OpenedAt(OpsFor(Run(es, writeBack).log, id)).Some?
    ensures hours == 1 + CurrentHour(time) - OpenedAt(OpsFor(Run(es, writeBack).log, id)).value ==>
              1 <= hours && Flow(Run(es, writeBack).log, MintedFrom(id)) <= cap * hours
  {
    RunInv(es, time, writeBack);
    var s, ops := Run(es, writeBack), OpsFor(Run(es, writeBack).log, id);
    assert LimiterFollows(ops, RingOf(s.limiters, id), MintsFrom(s.log, id), CurrentHour(time));
    OpenedOnce(ops);
    CapsOfRun(s.log, id, cap);
    if hours == 1 + CurrentHour(time) - OpenedAt(ops).value {
      InflowSinceOpening(ops, cap, CurrentHour(time), hours);
    }
  }

  lemma PrefixReaches(es: seq<Event>, k: nat, time: u32)
    requires Reaches(es, time) && k <= |es|
    ensures Reaches(es[..k], time)
  {
  }

  /** In every run a token's stored limiter is what the token's part of the log leaves. */
  lemma LimiterInRuns(es: seq<Event>, time: u32, id: TokenId, writeBack: bool)
    requires Reaches(es, time)
    ensures var s := Run(es, writeBack);
            LimiterFollows(OpsFor(s.log, id), RingOf(s.limiters, id), MintsFrom(s.log, id),
                           CurrentHour(time))
  {
    RunInv(es, time, writeBack);
  }

  /** The limiter operations of a run, split after its first `k` transactions. */
  lemma SplitOps(es: seq<Event>, k: nat, id: TokenId, writeBack: bool)
    requires k <= |es|
    ensures OpsFor(Run(es, writeBack).log, id)
         == OpsFor(Run(es[..k], writeBack).log, id) + OpsFor(Added(es, k, writeBack), id)
  {
    LogOnlyGrows(es, k, writeBack);
    LogsSplit(Run(es[..k], writeBack).log, Run(es, writeBack).log, id);
  }

  lemma LogsSplit(before: seq<Receipt>, after: seq<Receipt>, id: TokenId)
    requires before <= after
    ensures OpsFor(after, id) == OpsFor(before, id) + OpsFor(after[|before|..], id)
  {
    assert after == before + after[|before|..];
    OpsOfParts(before, after[|before|..], id);
  }

  lemma CapsOfStretch(ops0: seq<Op>, added: seq<Receipt>, id: TokenId, cap: nat, ring: Ring)
    requires CapsAtMost(added, id, cap) && RunRing(ops0) == Some(ring)
    requires ring.limit <= cap && Total(ring.hourly) <= cap
    ensures CappedFrom(ops0 + OpsFor(added, id), |ops0|, cap)
  {
    CapsOfRun(added, id, cap);
    assert (ops0 + OpsFor(added, id))[..|ops0|] == ops0;
  }

  /** Inflow bound over any stretch of any run: whatever the account of a token's limiter was
      after the first `k` transactions, if it held at most `cap` under a cap of at most `cap` and
      no larger one was set since, then what was minted from the token since is at most `cap` for
      each clock hour from that account's window start to now. */
  lemma InflowBoundInRuns(es: seq<Event>, k: nat, time: u32, id: TokenId, cap: nat, hours: int,
                          writeBack: bool)
    requires Reaches(es, time) && k <= |es| && id in Run(es[..k], writeBack).limiters
    requires var ring := Run(es[..k], writeBack).limiters[id].ring;
             && ring.limit <= cap && Total(ring.hourly) <= cap
             && hours == 1 + CurrentHour(time) - ring.oldest
    requires CapsAtMost(Added(es, k, writeBack), id, cap)
    ensures 1 <= hours
    ensures Flow(Run(es, writeBack).log, MintedFrom(id))
            - Flow(Run(es[..k], writeBack).log, MintedFrom(id)) <= cap * hours
  {
    PrefixReaches(es, k, time);
    LimiterInRuns(es[..k], time, id, writeBack);
    LimiterInRuns(es, time, id, writeBack);
    SplitOps(es, k, id, writeBack);
    var s0 := Run(es[..k], writeBack);
    var ops0, added := OpsFor(s0.log, id), Added(es, k, writeBack);
    CapsOfStretch(ops0, added, id, cap, s0.limiters[id].ring);
    var ops := ops0 + OpsFor(added, id);
    assert ops[..|ops0|] == ops0;
    InflowBound(ops, |ops0|, cap, CurrentHour(time), hours);
  }

  /** The same by the clock: 3600 times what was minted is at most the cap times the seconds since
      the window start, and one hour more. */
  lemma InflowInSeconds(es: seq<Event>, k: nat, time: u32, id: TokenId, cap: nat, seconds: int,
                        writeBack: bool)
    requires Reaches(es, time) && k <= |es| && id in Run(es[..k], writeBack).limiters
    requires var ring := Run(es[..k], writeBack).limiters[id].ring;
             && ring.limit <= cap && Total(ring.hourly) <= cap
             && seconds == time - 3600 * ring.oldest
    requires CapsAtMost(Added(es, k, writeBack), id, cap)
    ensures 0 <= seconds
    ensures 3600 * (Flow(Run(es, writeBack).log, MintedFrom(id))
                    - Flow(Run(es[..k], writeBack).log, MintedFrom(id))) <= cap * (seconds + 3600)
  {
    HourIsSeconds(time);
    var hours := 1 + CurrentHour(time) - Run(es[..k], writeBack).limiters[id].ring.oldest;
    InflowBoundInRuns(es, k, time, id, cap, hours, writeBack);
    Scale(3600 * hours, seconds + 3600, cap);
    ByTheHour(Flow(Run(es, writeBack).log, MintedFrom(id))
              - Flow(Run(es[..k], writeBack).log, MintedFrom(id)), cap, hours, seconds);
  }

  lemma ByTheHour(minted: int, cap: nat, hours: int, seconds: int)
    requires minted <= cap * hours && 3600 * hours * cap <= (seconds + 3600) * cap
    ensures 3600 * minted <= cap * (seconds + 3600)
  {
    assert 3600 * hours * cap == 3600 * (cap * hours);
  }

  /** Conservation over any stretch of any run: what was minted since the first `k` transactions is
      what the ring sum grew by and what was cleared, and at most one cap was cleared for each
      hour the window start moved. */
  lemma ClearedBoundInRuns(es: seq<Event>, k: nat, time: u32, id: TokenId, cap: nat, moved: int,
                           writeBack: bool)
    requires Reaches(es, time) && k <= |es|
    requires id in Run(es[..k], writeBack).limiters && id in Run(es, writeBack).limiters
    requires var ring := Run(es[..k], writeBack).limiters[id].ring;
             && ring.limit <= cap && Total(ring.hourly) <= cap
             && moved == Run(es, writeBack).limiters[id].ring.oldest - ring.oldest
    requires CapsAtMost(Added(es, k, writeBack), id, cap)
    ensures 0 <= moved
    ensures var s0, s := Run(es[..k], writeBack), Run(es, writeBack);
            Flow(s.log, MintedFrom(id)) - Flow(s0.log, MintedFrom(id))
            <= Total(s.limiters[id].ring.hourly) - Total(s0.limiters[id].ring.hourly) + cap * moved
  {
    PrefixReaches(es, k, time);
    LimiterInRuns(es[..k], time, id, writeBack);
    LimiterInRuns(es, time, id, writeBack);
    SplitOps(es, k, id, writeBack);
    var s0 := Run(es[..k], writeBack);
    var ops0, added := OpsFor(s0.log, id), Added(es, k, writeBack);
    CapsOfStretch(ops0, added, id, cap, s0.limiters[id].ring);
    var ops := ops0 + OpsFor(added, id);
    assert ops[..|ops0|] == ops0;
    ClearedBound(ops, |ops0|, cap, CurrentHour(time), moved);
    InflowSplit(ops);
    InflowSplit(ops0);
  }

  /** The limiter refuses a mint only if an exact log of the last 24 hours of that token's
      mints would refuse it too. */
  lemma RefusedOnlyWhenWindowIsFull(es: seq<Event>, time: u32, c: MintCall, writeBack: bool)
    requires Reaches(es, time)
    requires var s := Run(es, writeBack);
             && MintAllowed(s, c)
             && Admit(s.limiters[c.Source()].ring, CurrentHour(time), c.msg.amount).Err?
    ensures var s := Run(es, writeBack);
            WindowTotal(EntriesFrom(s.log, c.Source()), CurrentHour(time)) + c.msg.amount
            > s.limiters[c.Source()].ring.limit
  {
    RunInv(es, time, writeBack);
    var s, id := Run(es, writeBack), c.Source();
    var ops := OpsFor(s.log, id);
    assert LimiterFollows(ops, RingOf(s.limiters, id), MintsFrom(s.log, id), CurrentHour(time));
    NeverOvercounts(ops, CurrentHour(time), c.msg.amount);
  }

  /** Every receipt of a stretch that concerns limiters is of hour `now`. */
  predicate AllInHour(added: seq<Receipt>, now: u32) {
    forall r <- added :: !r.Withdrawn? ==> r.hour == now
  }

  lemma {:induction false} OpsInHour(added: seq<Receipt>, id: TokenId, now: u32)
    requires AllInHour(added, now)
    ensures forall op <- OpsFor(added, id) :: op.hour == now
  {
    if added == [] {
    } else {
      assert added[|added| - 1] in added;
      OpsInHour(added[..|added| - 1], id, now);
    }
  }

  /** After its first `k` transactions a run has minted nothing from the token in the hour of
      `time`, and everything it did to limiters since was in that hour. */
  ghost predicate HourOf(es: seq<Event>, k: nat, time: u32, id: TokenId, writeBack: bool) {
    && Reaches(es, time) && k <= |es|
    && id in Run(es[..k], writeBack).limiters
    && (forall e <- EntriesFrom(Run(es[..k], writeBack).log, id) :: e.hour < CurrentHour(time))
    && AllInHour(Added(es, k, writeBack), CurrentHour(time))
  }

  lemma {:induction false} LogHours(ops: seq<Op>, hour: u32)
    requires NotBefore(ops, hour)
    ensures forall e <- Log(ops) :: e.hour <= hour
    ensures RunRing(ops).None? ==> Log(ops) == []
  {
    if ops == [] {
    } else {
      LogHours(ops[..|ops| - 1], hour);
    }
  }

  /** The mints from a token are no later than the run, and there are none before its limiter. */
  lemma EntryHours(es: seq<Event>, time: u32, id: TokenId, writeBack: bool)
    requires Reaches(es, time)
    ensures var s := Run(es, writeBack);
            && (forall e <- EntriesFrom(s.log, id) :: e.hour <= CurrentHour(time))
            && (id !in s.limiters ==> EntriesFrom(s.log, id) == [])
  {
    LimiterInRuns(es, time, id, writeBack);
    LogHours(OpsFor(Run(es, writeBack).log, id), CurrentHour(time));
  }

  lemma NothingAdded(es: seq<Event>, writeBack: bool)
    ensures Added(es, |es|, writeBack) == []
  {
    assert es[..|es|] == es;
  }

  lemma SuffixGrows<T>(a: seq<T>, b: seq<T>, more: seq<T>)
    requires a <= b
    ensures (b + more)[|a|..] == b[|a|..] + more
  {
  }

  /** A transaction adds to what a run has logged since its first `k` transactions. */
  lemma AddedOneMore(es: seq<Event>, e: Event, k: nat, writeBack: bool) returns (more: seq<Receipt>)
    requires k <= |es|
    ensures Run(es + [e], writeBack).log == Run(es, writeBack).log + more && |more| <= 1
    ensures forall r <- more :: Loggable(Run(es, writeBack).limiters, r, Hour(e))
    ensures Added(es + [e], k, writeBack) == Added(es, k, writeBack) + more
  {
    assert (es + [e])[..k] == es[..k];
    OneMoreEvent(es, e, writeBack);
    more := StepReceipts(Run(es, writeBack), e, writeBack);
    LogOnlyGrows(es, k, writeBack);
    SuffixGrows(Run(es[..k], writeBack).log, Run(es, writeBack).log, more);
  }

  lemma NoMintAdded(log: seq<Receipt>, more: seq<Receipt>, id: TokenId)
    requires |more| <= 1 && forall r <- more :: r.Minted? ==> r.source != id
    ensures EntriesFrom(log + more, id) == EntriesFrom(log, id)
  {
    if more == [] {
      assert log + more == log;
    } else {
      assert more[0] in more && (log + more)[..|log|] == log;
    }
  }

  /** A limiter that was there before the last transaction, or came with it. */
  lemma HourStarts(es: seq<Event>, time: u32, id: TokenId, writeBack: bool)
    requires Reaches(es, time) && id in Run(es, writeBack).limiters
    requires forall e <- EntriesFrom(Run(es, writeBack).log, id) :: e.hour < CurrentHour(time)
    ensures HourOf(es, |es|, time, id, writeBack)
  {
    assert es[..|es|] == es;
    NothingAdded(es, writeBack);
  }

  lemma HourGoesOn(es: seq<Event>, e: Event, k: nat, time: u32, id: TokenId, writeBack: bool)
    requires HourOf(es, k, time, id, writeBack) && Reaches(es + [e], time)
    requires Hour(e) == CurrentHour(time)
    ensures HourOf(es + [e], k, time, id, writeBack)
  {
    assert (es + [e])[..k] == es[..k];
    var more := AddedOneMore(es, e, k, writeBack);
  }

  /** Every limiter of every run, at every moment, has a point where its hour began: the theorems
      that assume one leave no state out. */
  lemma {:induction false} HourHasItsStart(es: seq<Event>, time: u32, id: TokenId, writeBack: bool)
    returns (k: nat)
    requires Reaches(es, time) && id in Run(es, writeBack).limiters
    ensures HourOf(es, k, time, id, writeBack)
  {
    k := |es|;
    if es == [] {
      assert false;
    } else {
      var front, e := es[..|es| - 1], es[|es| - 1];
      assert es == front + [e];
      HoursFollowTime(e.time, time);
      if Hour(e) < CurrentHour(time) {
        EntryHours(es, e.time, id, writeBack);
        HourStarts(es, time, id, writeBack);
      } else if id in Run(front, writeBack).limiters {
        k := HourHasItsStart(front, time, id, writeBack);
        HourGoesOn(front, e, k, time, id, writeBack);
      } else {
        EntryHours(front, e.time, id, writeBack);
        var more := AddedOneMore(front, e, 0, writeBack);
        NoMintAdded(Run(front, writeBack).log, more, id);
        HourStarts(es, time, id, writeBack);
      }
    }
  }

  /** The limiter's side of `HourOf`. */
  lemma HourOfLimiter(es: seq<Event>, k: nat, time: u32, id: TokenId, writeBack: bool)
    requires HourOf(es, k, time, id, writeBack)
    ensures id in Run(es, writeBack).limiters
    ensures var s0, s := Run(es[..k], writeBack), Run(es, writeBack);
            var before, during := OpsFor(s0.log, id), OpsFor(Added(es, k, writeBack), id);
            && SameHour(before, during, CurrentHour(time))
            && RunRing(before) == Some(s0.limiters[id].ring)
            && RunRing(before + during) == Some(s.limiters[id].ring)
            && Log(before) == EntriesFrom(s0.log, id)
            && Log(before + during) == EntriesFrom(s.log, id)
  {
    PrefixReaches(es, k, time);
    LimiterInRuns(es[..k], time, id, writeBack);
    LimiterInRuns(es, time, id, writeBack);
    SplitOps(es, k, id, writeBack);
    OpsInHour(Added(es, k, writeBack), id, CurrentHour(time));
    CountedFromIsCut(OpsFor(Run(es[..k], writeBack).log, id), OpsFor(Added(es, k, writeBack), id),
                     CurrentHour(time));
  }

  /** The documented rolling cap, exactly, in every run: take the mints from a token, how many there
      were when the current hour began, and the window start its limiter showed then. The limiter
      decides every amount as an exact log of 24 hours would if and only if the mints before the
      cut have nothing positive in the window, or those after it exceed a lowered cap. */
  lemma RollingCapInRunsIff(es: seq<Event>, k: nat, time: u32, id: TokenId, writeBack: bool)
    requires HourOf(es, k, time, id, writeBack)
    ensures id in Run(es, writeBack).limiters
    ensures var s0, s, now := Run(es[..k], writeBack), Run(es, writeBack), CurrentHour(time);
            var r0, r := s0.limiters[id].ring, s.limiters[id].ring;
            var log, past := EntriesFrom(s.log, id), |EntriesFrom(s0.log, id)|;
            && r0.oldest <= now && past <= |log|
            && (KeepsRollingCap(r, log, now) <==>
                  ClearBeforeCut(log, past, now - r0.oldest, r.limit, now))
  {
    HourOfLimiter(es, k, time, id, writeBack);
    AgreesWithRollingCapIff(OpsFor(Run(es[..k], writeBack).log, id),
                            OpsFor(Added(es, k, writeBack), id), CurrentHour(time));
  }

  /** A limiter that began the hour less than 48 hours behind keeps the rolling cap if and only if
      nothing positive was minted from the token in the 23 hours before, or this hour's mints
      exceed a lowered cap. */
  lemma RollingCapWhenNearIff(es: seq<Event>, k: nat, time: u32, id: TokenId, writeBack: bool)
    requires HourOf(es, k, time, id, writeBack)
    requires CurrentHour(time) - Run(es[..k], writeBack).limiters[id].ring.oldest < 48
    ensures id in Run(es, writeBack).limiters
    ensures var s, now := Run(es, writeBack), CurrentHour(time);
            var log := EntriesFrom(s.log, id);
            KeepsRollingCap(s.limiters[id].ring, log, now) <==>
              || (forall e <- log | now - 24 < e.hour < now :: e.amount == 0)
              || HourTotal(log, now) > s.limiters[id].ring.limit
  {
    HourOfLimiter(es, k, time, id, writeBack);
    AgreesWhenNearIff(OpsFor(Run(es[..k], writeBack).log, id), OpsFor(Added(es, k, writeBack), id),
                      CurrentHour(time));
  }

  lemma {:induction false} OnlyTransfers(added: seq<Receipt>, id: TokenId)
    requires forall r <- added :: r.LimitSet? ==> r.id != id
    ensures forall op <- OpsFor(added, id) :: op.Transfer?
  {
    if added == [] {
    } else {
      assert added[|added| - 1] in added;
      OnlyTransfers(added[..|added| - 1], id);
    }
  }

  /** Hourly bound in every run: while its cap is not changed, what an hour mints from a token is
      at most one cap for each full turn of 24 hours the limiter's window start was behind when
      the hour began, and one cap if there was less. */
  lemma HourBoundInRuns(es: seq<Event>, k: nat, time: u32, id: TokenId, lag: int, turns: int,
                        writeBack: bool)
    requires HourOf(es, k, time, id, writeBack)
    requires forall r <- Added(es, k, writeBack) :: r.LimitSet? ==> r.id != id
    requires lag == CurrentHour(time) - Run(es[..k], writeBack).limiters[id].ring.oldest
    requires turns == if lag < 48 then 1 else lag / 24
    ensures var s0, s := Run(es[..k], writeBack), Run(es, writeBack);
            Flow(s.log, MintedFrom(id)) - Flow(s0.log, MintedFrom(id))
            <= turns * s0.limiters[id].ring.limit
  {
    HourOfLimiter(es, k, time, id, writeBack);
    PrefixReaches(es, k, time);
    LimiterInRuns(es[..k], time, id, writeBack);
    LimiterInRuns(es, time, id, writeBack);
    SplitOps(es, k, id, writeBack);
    OnlyTransfers(Added(es, k, writeBack), id);
    HourInflow(OpsFor(Run(es[..k], writeBack).log, id), OpsFor(Added(es, k, writeBack), id),
               CurrentHour(time), turns);
  }

  // ---------- approval ----------

  /** In every run `verify` accepts a message exactly when distinct active members of enough
      stake approve it: records are always stored under the member key they name. */
  lemma VerifyIffInRuns(es: seq<Event>, time: u32, rq: Request, n: u8, writeBack: bool)
    requires Reaches(es, time) && rq.members == Run(es, writeBack).members
    ensures Approve(rq, n).Ok? <==> Approved(rq, n)
  {
    RunInv(es, time, writeBack);
    ApproveIff(rq, n);
  }

  // ---------- submitters ----------

  /** In every run each submitter record is stored under the key it names and is not marked
      initialised. */
  lemma SubmittersInRuns(es: seq<Event>, time: u32, writeBack: bool)
    requires Reaches(es, time)
    ensures var records := Run(es, writeBack).submitters;
            forall k <- records :: records[k].submitter == k && !records[k].isInitialized
  {
    RunInv(es, time, writeBack);
  }

  lemma CommitteeEnables(s: Accounts, tx: Tx, hour: u32, writeBack: bool)
    requires SubmittersOk(s.submitters) && tx.CommitteeTx? && Execute(s, tx, hour, writeBack).Ok?
    ensures var s' := Execute(s, tx, hour, writeBack).value;
            && (forall k: Pubkey :: CanSubmit(s', k) <==> k == tx.submitter || CanSubmit(s, k))
            && ((forall k: Pubkey :: CanSubmit(s', k) <==> CanSubmit(s, k))
                <==> CanSubmit(s, tx.submitter))
  {
    CommitteeCommitsIff(s, tx.payer, tx.chainId, tx.keys, tx.stakes, tx.submitter, tx.remaining);
    assert CanSubmit(Execute(s, tx, hour, writeBack).value, tx.submitter);
  }

  /** Creating a committee always enables the submitter it names, also one that was disabled
      before, and no other; it leaves permissions as they were exactly when that submitter was
      enabled already. */
  lemma CommitteeEnablesItsSubmitter(es: seq<Event>, e: Event, writeBack: bool)
    requires Reaches(es, e.time) && e.tx.CommitteeTx?
    requires Execute(Run(es, writeBack), e.tx, Hour(e), writeBack).Ok?
    ensures var s, s', named := Run(es, writeBack), Run(es + [e], writeBack), e.tx.submitter;
            && (forall k: Pubkey :: CanSubmit(s', k) <==> k == named || CanSubmit(s, k))
            && ((forall k: Pubkey :: CanSubmit(s', k) <==> CanSubmit(s, k)) <==> CanSubmit(s, named))
  {
    RunInv(es, e.time, writeBack);
    OneMoreEvent(es, e, writeBack);
    CommitteeEnables(Run(es, writeBack), e.tx, Hour(e), writeBack);
  }
}
