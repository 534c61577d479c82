/** Every stored total and every supply is what the log of committed transactions says. */
module Conservation {
  import opened Common
  import opened Fees
  import opened State
  import opened Flows
  import opened Invariants

  /** What withdrawals take off the stored totals. */
  function TakenOff(log: seq<Receipt>, k: Measure, writeBack: bool): nat {
    if writeBack then Flow(log, k) else 0
  }

  ghost predicate TokensFlow(tokens: map<TokenId, TokenConfig>, log: seq<Receipt>, writeBack: bool) {
    forall id: TokenId :: TokenTotal(tokens, id)
                       == Flow(log, MintedFrom(id)) - TakenOff(log, WithdrawnTo(id), writeBack)
  }

  ghost predicate ChainsFlow(chains: map<u8, ChainConfig>, log: seq<Receipt>, writeBack: bool) {
    && (forall c: u8 :: ChainTotal(chains, c)
          == Flow(log, ChainMinted(c)) - TakenOff(log, ChainWithdrawn(c), writeBack))
    && ChainSum(chains, 256) == Flow(log, AllMinted) - TakenOff(log, AllWithdrawn, writeBack)
  }

  ghost predicate SuppliesFlow(mints: map<u8, Sbtc>, log: seq<Receipt>) {
    && (forall d: u8 :: Supply(mints, d) == Flow(log, MintedOn(d)) - Flow(log, BurnedOn(d)))
    && SupplySum(mints, 256) == Flow(log, AllMinted) - Flow(log, AllBurned)
    && AllBalanced(mints)
  }

  /** A withdrawal's fee and burn make up its amount, and the fee is less unless that is zero. */
  predicate ReceiptOk(r: Receipt) {
    r.Withdrawn? ==> r.burned + r.fee == r.original && (r.original > 0 ==> r.fee < r.original)
  }

  ghost predicate ReceiptsOk(log: seq<Receipt>) {
    forall r <- log :: ReceiptOk(r)
  }

  ghost predicate FlowOk(s: Accounts, writeBack: bool) {
    && TokensFlow(s.tokens, s.log, writeBack)
    && ChainsFlow(s.chains, s.log, writeBack)
    && SuppliesFlow(s.mints, s.log)
    && ReceiptsOk(s.log)
  }

  /** What a receipt puts on a stored total. */
  function Put(r: Receipt, writeBack: bool): int {
    match r
    case Minted(_, _, _, _, amount, _) => amount
    case Withdrawn(_, _, _, _, _, _, original) => if writeBack then 0 - original else 0
    case LimitSet(_, _, _, _, _) => 0
  }

  function RecordOf(r: Receipt): TokenId {
    match r
    case Minted(source, _, _, _, _, _) => source
    case Withdrawn(target, _, _, _, _, _, _) => target
    case LimitSet(id, _, _, _, _) => id
  }

  lemma TokensFlowPut(tokens: map<TokenId, TokenConfig>, log: seq<Receipt>, r: Receipt,
                      v: TokenConfig, writeBack: bool)
    requires TokensFlow(tokens, log, writeBack)
    requires v.mintTotal == TokenTotal(tokens, RecordOf(r)) + Put(r, writeBack)
    ensures TokensFlow(tokens[RecordOf(r) := v], log + [r], writeBack)
  {
    forall id: TokenId
      ensures TokenTotal(tokens[RecordOf(r) := v], id)
           == Flow(log + [r], MintedFrom(id)) - TakenOff(log + [r], WithdrawnTo(id), writeBack)
    {
      FlowGrows(log, r, MintedFrom(id));
      FlowGrows(log, r, WithdrawnTo(id));
    }
  }

  lemma TotalOfOneChain(chains: map<u8, ChainConfig>, log: seq<Receipt>, r: Receipt,
                        v: ChainConfig, writeBack: bool, c: u8)
    requires ChainTotal(chains, c)
          == Flow(log, ChainMinted(c)) - TakenOff(log, ChainWithdrawn(c), writeBack)
    requires v.mintTotal == ChainTotal(chains, RecordOf(r).chain) + Put(r, writeBack)
    ensures ChainTotal(chains[RecordOf(r).chain := v], c)
         == Flow(log + [r], ChainMinted(c)) - TakenOff(log + [r], ChainWithdrawn(c), writeBack)
  {
    FlowGrows(log, r, ChainMinted(c));
    FlowGrows(log, r, ChainWithdrawn(c));
  }

  lemma ChainsFlowPut(chains: map<u8, ChainConfig>, log: seq<Receipt>, r: Receipt, v: ChainConfig,
                      writeBack: bool)
    requires ChainsFlow(chains, log, writeBack)
    requires v.mintTotal == ChainTotal(chains, RecordOf(r).chain) + Put(r, writeBack)
    ensures ChainsFlow(chains[RecordOf(r).chain := v], log + [r], writeBack)
  {
    forall c: u8 { TotalOfOneChain(chains, log, r, v, writeBack, c); }
    FlowGrows(log, r, AllMinted);
    FlowGrows(log, r, AllWithdrawn);
    ChainSumPut(chains, RecordOf(r).chain, v, 256);
  }

  lemma SupplyOfOneMint(mints: map<u8, Sbtc>, log: seq<Receipt>, r: Receipt, v: Sbtc, d: u8)
    requires !r.LimitSet?
    requires Supply(mints, d) == Flow(log, MintedOn(d)) - Flow(log, BurnedOn(d))
    requires v.supply == Supply(mints, r.solanaChain)
                         + (if r.Minted? then r.amount else 0 - r.burned)
    ensures Supply(mints[r.solanaChain := v], d)
         == Flow(log + [r], MintedOn(d)) - Flow(log + [r], BurnedOn(d))
  {
    FlowGrows(log, r, MintedOn(d));
    FlowGrows(log, r, BurnedOn(d));
  }

  lemma SuppliesFlowPut(mints: map<u8, Sbtc>, log: seq<Receipt>, r: Receipt, v: Sbtc)
    requires SuppliesFlow(mints, log) && !r.LimitSet? && Balanced(v)
    requires v.supply == Supply(mints, r.solanaChain)
                         + (if r.Minted? then r.amount else 0 - r.burned)
    ensures SuppliesFlow(mints[r.solanaChain := v], log + [r])
  {
    forall d: u8 { SupplyOfOneMint(mints, log, r, v, d); }
    FlowGrows(log, r, AllMinted);
    FlowGrows(log, r, AllBurned);
    SupplySumPut(mints, r.solanaChain, v, 256);
  }

  lemma SuppliesFlowSame(mints: map<u8, Sbtc>, log: seq<Receipt>, r: Receipt)
    requires SuppliesFlow(mints, log) && r.LimitSet?
    ensures SuppliesFlow(mints, log + [r])
  {
    forall k: Measure { FlowGrows(log, r, k); }
  }

  lemma QuietKeepsFlow(s: Accounts, s': Accounts, writeBack: bool)
    requires FlowOk(s, writeBack) && TotalsUntouched(s, s')
    ensures FlowOk(s', writeBack)
  {
  }

  lemma LimitKeepsFlow(s: Accounts, c: LimitCall, hour: u32, writeBack: bool)
    requires ConfigOk(s) && FlowOk(s, writeBack) && UpdateLimiter(s, c, hour).Ok?
    ensures FlowOk(UpdateLimiter(s, c, hour).value, writeBack)
  {
    LimitEffect(s, c, hour);
    var s', id := UpdateLimiter(s, c, hour).value, c.Target();
    var r := s'.log[|s.log|];
    TokensFlowPut(s.tokens, s.log, r, s.tokens[id], writeBack);
    ChainsFlowPut(s.chains, s.log, r, s.chains[id.chain], writeBack);
    assert s.tokens == s.tokens[id := s.tokens[id]];
    assert s.chains == s.chains[id.chain := s.chains[id.chain]];
    SuppliesFlowSame(s.mints, s.log, r);
  }

  lemma MintKeepsFlow(s: Accounts, c: MintCall, hour: u32, writeBack: bool)
    requires FlowOk(s, writeBack) && MintSbtc(s, c, hour).Ok?
    ensures FlowOk(MintSbtc(s, c, hour).value, writeBack)
  {
    MintEffect(s, c, hour);
    var s', id := MintSbtc(s, c, hour).value, c.Source();
    var r := s'.log[|s.log|];
    TokensFlowPut(s.tokens, s.log, r, s'.tokens[id], writeBack);
    ChainsFlowPut(s.chains, s.log, r, s'.chains[id.chain], writeBack);
    CreditBalance(s, c);
    SuppliesFlowPut(s.mints, s.log, r, CreditMint(s, c).value);
  }

  lemma WithdrawKeepsRecordFlow(s: Accounts, c: WithdrawCall, writeBack: bool)
    requires FlowOk(s, writeBack) && WithdrawBtc(s, c, writeBack).Ok?
    ensures var s' := WithdrawBtc(s, c, writeBack).value;
            TokensFlow(s'.tokens, s'.log, writeBack) && ChainsFlow(s'.chains, s'.log, writeBack)
  {
    WithdrawEffect(s, c, writeBack);
    var s', id := WithdrawBtc(s, c, writeBack).value, c.Target();
    var r := s'.log[|s.log|];
    TokensFlowPut(s.tokens, s.log, r, s'.tokens[id], writeBack);
    ChainsFlowPut(s.chains, s.log, r, s'.chains[id.chain], writeBack);
    if !writeBack {
      assert s.tokens == s.tokens[id := s.tokens[id]];
      assert s.chains == s.chains[id.chain := s.chains[id.chain]];
    }
  }

  lemma WithdrawKeepsSupplyFlow(s: Accounts, c: WithdrawCall, writeBack: bool)
    requires FlowOk(s, writeBack) && WithdrawBtc(s, c, writeBack).Ok?
    ensures var s' := WithdrawBtc(s, c, writeBack).value; SuppliesFlow(s'.mints, s'.log)
  {
    WithdrawEffect(s, c, writeBack);
    var r := WithdrawBtc(s, c, writeBack).value.log[|s.log|];
    var d, fee := c.msg.chainId, FeeFor(s, c);
    ChargeBalance(s.mints[d], c.user, s.bridges[d].feeRecipient, fee, c.msg.amount - fee);
    SuppliesFlowPut(s.mints, s.log, r, Burned(s, c).value);
  }

  lemma WithdrawKeepsReceipts(s: Accounts, c: WithdrawCall, writeBack: bool)
    requires ConfigOk(s) && ReceiptsOk(s.log) && WithdrawBtc(s, c, writeBack).Ok?
    ensures ReceiptsOk(WithdrawBtc(s, c, writeBack).value.log)
  {
    WithdrawEffect(s, c, writeBack);
    FeeIsSafe(c.msg.amount, s.tokens[c.Target()].feePercentage);
  }

  lemma WithdrawKeepsFlow(s: Accounts, c: WithdrawCall, writeBack: bool)
    requires ConfigOk(s) && FlowOk(s, writeBack) && WithdrawBtc(s, c, writeBack).Ok?
    ensures FlowOk(WithdrawBtc(s, c, writeBack).value, writeBack)
  {
    WithdrawKeepsRecordFlow(s, c, writeBack);
    WithdrawKeepsSupplyFlow(s, c, writeBack);
    WithdrawKeepsReceipts(s, c, writeBack);
  }

  lemma {:induction false} WithdrawnIsBurnedAndFees(log: seq<Receipt>)
    requires ReceiptsOk(log)
    ensures Flow(log, AllWithdrawn) == Flow(log, AllBurned) + Flow(log, AllFees)
  {
    if log == [] {
    } else {
      assert ReceiptOk(log[|log| - 1]);
      WithdrawnIsBurnedAndFees(log[..|log| - 1]);
    }
  }

  /** Supply conservation: what circulates is what was minted less what was burned, on each
      mint and overall, and it is all held in token accounts. */
  lemma SupplyConserved(s: Accounts, writeBack: bool)
    requires FlowOk(s, writeBack)
    ensures forall d: u8 :: Supply(s.mints, d)
              == Flow(s.log, MintedOn(d)) - Flow(s.log, BurnedOn(d))
    ensures SupplySum(s.mints, 256) == Flow(s.log, AllMinted) - Flow(s.log, AllBurned)
    ensures AllBalanced(s.mints)
    ensures writeBack ==>
              SupplySum(s.mints, 256) == ChainSum(s.chains, 256) + Flow(s.log, AllFees)
    ensures !writeBack ==>
              ChainSum(s.chains, 256) == SupplySum(s.mints, 256) + Flow(s.log, AllBurned)
  {
    WithdrawnIsBurnedAndFees(s.log);
  }

  /** The stored chain totals stand for the sBTC in circulation, less the fees kept in it,
      exactly when withdrawals are written back or nothing was ever withdrawn. */
  lemma TotalsTrackSupplyIff(s: Accounts, writeBack: bool)
    requires FlowOk(s, writeBack)
    ensures SupplySum(s.mints, 256) == ChainSum(s.chains, 256) + Flow(s.log, AllFees)
       <==> writeBack || Flow(s.log, AllWithdrawn) == 0
  {
    SupplyConserved(s, writeBack);
    WithdrawnIsBurnedAndFees(s.log);
  }
}
