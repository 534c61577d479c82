/** The program as written beside the one that writes withdrawals back: when the missing
    write-back makes a difference. */
module Backing {
  import opened Common
  import opened State
  import opened Flows
  import opened Invariants
  import opened Conservation
  import opened Runs
  import opened Guarantees

  /** No token was withdrawn beyond what was minted from it. */
  ghost predicate Backed(log: seq<Receipt>) {
    forall id: TokenId :: Flow(log, WithdrawnTo(id)) <= Flow(log, MintedFrom(id))
  }

  ghost predicate SameChains(a: map<u8, ChainConfig>, b: map<u8, ChainConfig>) {
    a.Keys == b.Keys && forall c <- a :: b[c] == a[c].(mintTotal := b[c].mintTotal)
  }

  ghost predicate SameTokens(a: map<TokenId, TokenConfig>, b: map<TokenId, TokenConfig>) {
    a.Keys == b.Keys && forall id <- a :: b[id] == a[id].(mintTotal := b[id].mintTotal)
  }

  /** The same accounts but for the stored totals. */
  ghost predicate SameButTotals(a: Accounts, b: Accounts) {
    && SameChains(a.chains, b.chains)
    && SameTokens(a.tokens, b.tokens)
    && b == a.(chains := b.chains, tokens := b.tokens)
  }

  /** Both fail, or both commit to the same accounts but for the totals. */
  ghost predicate SameResult(a: Result<Accounts>, b: Result<Accounts>) {
    (a.Ok? <==> b.Ok?) && (a.Ok? ==> SameButTotals(a.value, b.value))
  }

  // ---------- transactions that move no total ----------

  lemma {:induction false} SameEntries(a: Records, b: Records, es: seq<TokenEntry>, self: u8,
                                       remaining: seq<Address>)
    requires SameTokens(a.tokens, b.tokens) && SameChains(a.chains, b.chains) && a.funded == b.funded
    ensures var ra, rb := AddEntries(a, es, self, remaining), AddEntries(b, es, self, remaining);
            && (ra.Ok? <==> rb.Ok?)
            && (ra.Ok? ==> ra.value.funded == rb.value.funded
                           && SameTokens(ra.value.tokens, rb.value.tokens)
                           && SameChains(ra.value.chains, rb.value.chains))
  {
    if es == [] {
    } else {
      SameEntries(a, b, es[..|es| - 1], self, remaining);
    }
  }

  lemma SameConfig(a: Accounts, b: Accounts, c: ConfigCall)
    requires SameButTotals(a, b)
    ensures SameResult(CreateBridgeConfig(a, c), CreateBridgeConfig(b, c))
  {
    if ConfigGuards(a, c).Ok? {
      SameEntries(Records(a.tokens, a.chains, a.funded), Records(b.tokens, b.chains, b.funded),
                  c.Entries(), c.chainId, c.remaining);
    }
  }

  lemma SameChainPut(a: map<u8, ChainConfig>, b: map<u8, ChainConfig>, c: u8, v: ChainConfig,
                     w: ChainConfig)
    requires SameChains(a, b) && w == v.(mintTotal := w.mintTotal)
    ensures SameChains(a[c := v], b[c := w])
  {
  }

  lemma SameChainUpdate(a: Accounts, b: Accounts, payer: Pubkey, chainId: u8, target: u8,
                        supported: bool)
    requires SameButTotals(a, b)
    ensures SameResult(AddOrUpdateChain(a, payer, chainId, target, supported),
                       AddOrUpdateChain(b, payer, chainId, target, supported))
  {
    if AddOrUpdateChain(a, payer, chainId, target, supported).Ok? {
      SameChainPut(a.chains, b.chains, target,
                   AddOrUpdateChain(a, payer, chainId, target, supported).value.chains[target],
                   AddOrUpdateChain(b, payer, chainId, target, supported).value.chains[target]);
    }
  }

  lemma SameTokenUpdate(a: Accounts, b: Accounts, payer: Pubkey, chainId: u8, id: TokenId, fee: u64,
                        minimum: u64, paused: bool)
    requires SameButTotals(a, b)
    ensures SameResult(AddOrUpdateToken(a, payer, chainId, id, fee, minimum, paused),
                       AddOrUpdateToken(b, payer, chainId, id, fee, minimum, paused))
  {
  }

  lemma SameCommittee(a: Accounts, b: Accounts, payer: Pubkey, chainId: u8, keys: seq<Pubkey>,
                      stakes: seq<u16>, submitter: Pubkey, remaining: seq<Address>)
    requires SameButTotals(a, b)
    ensures SameResult(CreateCommittee(a, payer, chainId, keys, stakes, submitter, remaining),
                       CreateCommittee(b, payer, chainId, keys, stakes, submitter, remaining))
  {
  }

  lemma SameMember(a: Accounts, b: Accounts, payer: Pubkey, chainId: u8, key: Pubkey, stake: u16,
                   blocklisted: bool)
    requires SameButTotals(a, b)
    ensures SameResult(AddOrUpdateMember(a, payer, chainId, key, stake, blocklisted),
                       AddOrUpdateMember(b, payer, chainId, key, stake, blocklisted))
  {
  }

  lemma SameSubmitter(a: Accounts, b: Accounts, payer: Pubkey, chainId: u8, key: Pubkey,
                      isSubmitter: bool)
    requires SameButTotals(a, b)
    ensures SameResult(AddOrUpdateSubmitter(a, payer, chainId, key, isSubmitter),
                       AddOrUpdateSubmitter(b, payer, chainId, key, isSubmitter))
  {
  }

  lemma SameHolder(a: Accounts, b: Accounts, d: u8, from: Pubkey, to: Pubkey, amount: u64)
    requires SameButTotals(a, b)
    ensures SameResult(HolderTransfer(a, d, from, to, amount),
                       HolderTransfer(b, d, from, to, amount))
  {
  }

  lemma SameQuiet(a: Accounts, b: Accounts, tx: Tx, hour: u32)
    requires SameButTotals(a, b) && Quiet(tx)
    ensures SameResult(Execute(a, tx, hour, false), Execute(b, tx, hour, true))
  {
    match tx
    case ConfigTx(c) => SameConfig(a, b, c);
    case ChainTx(payer, chainId, target, supported) =>
      SameChainUpdate(a, b, payer, chainId, target, supported);
    case TokenTx(payer, chainId, id, fee, minimum, paused) =>
      SameTokenUpdate(a, b, payer, chainId, id, fee, minimum, paused);
    case CommitteeTx(payer, chainId, keys, stakes, submitter, remaining) =>
      SameCommittee(a, b, payer, chainId, keys, stakes, submitter, remaining);
    case MemberTx(payer, chainId, key, stake, blocklisted) =>
      SameMember(a, b, payer, chainId, key, stake, blocklisted);
    case SubmitterTx(payer, chainId, key, isSubmitter) =>
      SameSubmitter(a, b, payer, chainId, key, isSubmitter);
    case HolderTx(d, from, to, amount) => SameHolder(a, b, d, from, to, amount);
    case FundTx(_) =>
  }

  // ---------- mints, limiter updates, withdrawals ----------

  lemma SameMintOk(a: Accounts, b: Accounts, c: MintCall, hour: u32)
    requires SameButTotals(a, b) && Inv(a, hour, false) && Inv(b, hour, true)
    ensures MintSbtc(a, c, hour).Ok? <==> MintSbtc(b, c, hour).Ok?
  {
    MintCommitsIff(a, c, hour, false);
    MintCommitsIff(b, c, hour, true);
    assert MintAllowed(a, c) <==> MintAllowed(b, c);
    assert c.Request(a) == c.Request(b);
  }

  lemma SameAfterMint(a: Accounts, b: Accounts, c: MintCall, hour: u32)
    requires SameButTotals(a, b) && MintSbtc(a, c, hour).Ok? && MintSbtc(b, c, hour).Ok?
    ensures SameButTotals(MintSbtc(a, c, hour).value, MintSbtc(b, c, hour).value)
  {
    MintEffect(a, c, hour);
    MintEffect(b, c, hour);
  }

  lemma SameLimit(a: Accounts, b: Accounts, c: LimitCall, hour: u32)
    requires SameButTotals(a, b)
    ensures UpdateLimiter(a, c, hour).Ok? <==> UpdateLimiter(b, c, hour).Ok?
    ensures UpdateLimiter(a, c, hour).Ok? ==>
              SameButTotals(UpdateLimiter(a, c, hour).value, UpdateLimiter(b, c, hour).value)
  {
    assert LimitGuards(a, c) == LimitGuards(b, c);
    assert c.Request(a) == c.Request(b);
  }

  /** The guards of the two programs differ only in the totals they test. */
  lemma SameGuards(a: Accounts, b: Accounts, c: WithdrawCall)
    requires SameButTotals(a, b)
    requires TokensFlow(a.tokens, a.log, false) && TokensFlow(b.tokens, b.log, true)
    requires TotalsAgree(a.tokens, a.chains) && TotalsAgree(b.tokens, b.chains)
    ensures WithdrawAllowed(b, c) <==>
              WithdrawAllowed(a, c)
              && c.msg.amount <= Flow(a.log, MintedFrom(c.Target())) - Flow(a.log, WithdrawnTo(c.Target()))
  {
    TokenAtMostSum(a.tokens, c.Target(), 256);
    TokenAtMostSum(b.tokens, c.Target(), 256);
  }

  lemma SameWithdrawalOk(a: Accounts, b: Accounts, c: WithdrawCall, hour: u32)
    requires SameButTotals(a, b) && Inv(a, hour, false) && Inv(b, hour, true)
    ensures WithdrawBtc(b, c, true).Ok? <==>
              WithdrawBtc(a, c, false).Ok?
              && c.msg.amount <= Flow(a.log, MintedFrom(c.Target())) - Flow(a.log, WithdrawnTo(c.Target()))
  {
    WithdrawCommitsIff(a, c, hour, false);
    WithdrawCommitsIff(b, c, hour, true);
    SameGuards(a, b, c);
  }

  lemma WriteBack(s: Accounts, c: WithdrawCall, fee: u64, sbtc: Sbtc)
    requires c.msg.toChainId in s.chains && c.Target() in s.tokens && s.withdrawNonce < U64_MAX
    requires fee <= c.msg.amount <= s.chains[c.msg.toChainId].mintTotal
    requires c.msg.amount <= s.tokens[c.Target()].mintTotal
    ensures AfterWithdraw(s, c, fee, sbtc, true)
         == AfterWithdraw(s, c, fee, sbtc, false).(
              chains := AfterWithdraw(s, c, fee, sbtc, true).chains,
              tokens := AfterWithdraw(s, c, fee, sbtc, true).tokens)
    ensures SameChains(s.chains, AfterWithdraw(s, c, fee, sbtc, true).chains)
    ensures SameTokens(s.tokens, AfterWithdraw(s, c, fee, sbtc, true).tokens)
  {
  }

  lemma SameTransitive(a: Accounts, b: Accounts, c: Accounts)
    requires SameButTotals(a, b) && SameButTotals(b, c)
    ensures SameButTotals(a, c)
  {
  }

  lemma SameAfterWithdraw(a: Accounts, b: Accounts, c: WithdrawCall, fee: u64, sbtc: Sbtc)
    requires SameButTotals(a, b) && a.withdrawNonce < U64_MAX
    requires c.msg.toChainId in a.chains && c.Target() in a.tokens
    requires fee <= c.msg.amount <= a.chains[c.msg.toChainId].mintTotal
    requires c.msg.amount <= b.chains[c.msg.toChainId].mintTotal
    requires c.msg.amount <= a.tokens[c.Target()].mintTotal
    requires c.msg.amount <= b.tokens[c.Target()].mintTotal
    ensures SameButTotals(AfterWithdraw(a, c, fee, sbtc, false), AfterWithdraw(b, c, fee, sbtc, false))
  {
  }

  lemma SameWithdrawal(a: Accounts, b: Accounts, c: WithdrawCall)
    requires SameButTotals(a, b) && WithdrawBtc(a, c, false).Ok? && WithdrawBtc(b, c, true).Ok?
    ensures SameButTotals(WithdrawBtc(a, c, false).value, WithdrawBtc(b, c, true).value)
  {
    WithdrawEffect(a, c, false);
    WithdrawEffect(b, c, true);
    assert FeeFor(a, c) == FeeFor(b, c) && Burned(a, c) == Burned(b, c);
    var fee, sbtc := FeeFor(a, c), Burned(a, c).value;
    SameAfterWithdraw(a, b, c, fee, sbtc);
    WriteBack(b, c, fee, sbtc);
    SameTransitive(AfterWithdraw(a, c, fee, sbtc, false), AfterWithdraw(b, c, fee, sbtc, false),
                   AfterWithdraw(b, c, fee, sbtc, true));
  }

  lemma BackedWithdrawal(s: Accounts, c: WithdrawCall)
    requires WithdrawBtc(s, c, false).Ok? && Backed(WithdrawBtc(s, c, false).value.log)
    ensures c.msg.amount <= Flow(s.log, MintedFrom(c.Target())) - Flow(s.log, WithdrawnTo(c.Target()))
  {
    WithdrawEffect(s, c, false);
    var r := WithdrawBtc(s, c, false).value.log[|s.log|];
    FlowGrows(s.log, r, WithdrawnTo(c.Target()));
    FlowGrows(s.log, r, MintedFrom(c.Target()));
  }

  // ---------- runs ----------

  lemma SameStep(a: Accounts, b: Accounts, e: Event)
    requires SameButTotals(a, b) && Inv(a, Hour(e), false) && Inv(b, Hour(e), true)
    requires Backed(Apply(a, e, false).log)
    ensures SameButTotals(Apply(a, e, false), Apply(b, e, true))
  {
    match e.tx
    case MintTx(c) =>
      SameMintOk(a, b, c, Hour(e));
      if MintSbtc(a, c, Hour(e)).Ok? {
        SameAfterMint(a, b, c, Hour(e));
      }
    case LimitTx(c) => SameLimit(a, b, c, Hour(e));
    case WithdrawTx(c) =>
      SameWithdrawalOk(a, b, c, Hour(e));
      if WithdrawBtc(a, c, false).Ok? {
        BackedWithdrawal(a, c);
        SameWithdrawal(a, b, c);
      }
    case _ => SameQuiet(a, b, e.tx, Hour(e));
  }

  ghost predicate AlwaysBacked(es: seq<Event>) {
    forall k | 0 <= k <= |es| :: Backed(Run(es[..k], false).log)
  }

  ghost predicate AlwaysSameLog(es: seq<Event>) {
    forall k | 0 <= k <= |es| :: Run(es[..k], false).log == Run(es[..k], true).log
  }

  lemma SameNext(es: seq<Event>, e: Event)
    requires Reaches(es, e.time) && SameButTotals(Run(es, false), Run(es, true))
    requires Backed(Run(es + [e], false).log)
    ensures SameButTotals(Run(es + [e], false), Run(es + [e], true))
  {
    RunInv(es, e.time, false);
    RunInv(es, e.time, true);
    OneMoreEvent(es, e, false);
    OneMoreEvent(es, e, true);
    SameStep(Run(es, false), Run(es, true), e);
  }

  lemma {:induction false} SameRuns(es: seq<Event>, k: nat, time: u32)
    requires Reaches(es, time) && AlwaysBacked(es) && k <= |es|
    ensures SameButTotals(Run(es[..k], false), Run(es[..k], true))
  {
    if k == 0 {
      assert es[..0] == [];
    } else {
      SameRuns(es, k - 1, time);
      assert es[..k] == es[..k - 1] + [es[k - 1]];
      assert Backed(Run(es[..k], false).log);
      SameNext(es[..k - 1], es[k - 1]);
    }
  }

  /** Exactly when the missing write-back matters: a run never withdraws from a token beyond what was
      minted from it if and only if it commits, at every point, what the program that writes back
      would have committed. */
  lemma BackedIffSameLog(es: seq<Event>, time: u32)
    requires Reaches(es, time)
    ensures AlwaysBacked(es) <==> AlwaysSameLog(es)
    ensures AlwaysBacked(es) ==> SameButTotals(Run(es, false), Run(es, true))
  {
    if AlwaysBacked(es) {
      forall k | 0 <= k <= |es|
        ensures SameButTotals(Run(es[..k], false), Run(es[..k], true))
      {
        SameRuns(es, k, time);
      }
      assert es[..|es|] == es;
    }
    if AlwaysSameLog(es) {
      forall k | 0 <= k <= |es|
        ensures Backed(Run(es[..k], false).log)
      {
        WithdrawalsAreBacked(es[..k], time);
      }
    }
  }

  /** Written back, no token is ever withdrawn beyond what was minted from it. */
  lemma WithdrawalsAreBacked(es: seq<Event>, time: u32)
    requires Reaches(es, time)
    ensures Backed(Run(es, true).log)
  {
    RunInv(es, time, true);
  }

  // ---------- the same withdrawal again ----------

  /** Which of the guards that let a withdrawal pass let it pass again. */
  lemma AllowedAgainIff(s: Accounts, c: WithdrawCall, fee: u64, sbtc: Sbtc, writeBack: bool)
    requires TotalsAgree(s.tokens, s.chains) && WithdrawAllowed(s, c) && fee <= c.msg.amount
    ensures WithdrawAllowed(AfterWithdraw(s, c, fee, sbtc, writeBack), c) <==>
              && s.withdrawNonce + 1 < U64_MAX
              && (writeBack ==> 2 * c.msg.amount <= TokenTotal(s.tokens, c.Target()))
  {
    TokenAtMostSum(s.tokens, c.Target(), 256);
  }

  /** As written the guards stop nothing that was withdrawn before: in every state that keeps the
      invariant, a withdrawal that has just committed commits again if and only if the user still
      holds the amount and the withdrawal counter can move. Written back, the totals left must
      cover it too. */
  lemma CommitsAgainIff(s: Accounts, c: WithdrawCall, hour: u32, writeBack: bool)
    requires Inv(s, hour, writeBack) && WithdrawBtc(s, c, writeBack).Ok?
    ensures var s' := WithdrawBtc(s, c, writeBack).value;
            WithdrawBtc(s', c, writeBack).Ok? <==>
              && CanPay(s'.mints[c.msg.chainId], c.user, c.msg.amount)
              && s.withdrawNonce + 1 < U64_MAX
              && (writeBack ==> 2 * c.msg.amount <= TokenTotal(s.tokens, c.Target()))
  {
    WithdrawInv(s, c, hour, hour, writeBack);
    WithdrawCommitsIff(s, c, hour, writeBack);
    WithdrawEffect(s, c, writeBack);
    AllowedAgainIff(s, c, FeeFor(s, c), Burned(s, c).value, writeBack);
    WithdrawCommitsIff(WithdrawBtc(s, c, writeBack).value, c, hour, writeBack);
  }

  // ---------- what is burned ----------

  lemma {:induction false} BurnedIsWithdrawn(log: seq<Receipt>, id: TokenId)
    requires ReceiptsOk(log)
    ensures Flow(log, BurnedTo(id)) <= Flow(log, WithdrawnTo(id))
  {
    if log == [] {
    } else {
      assert ReceiptOk(log[|log| - 1]);
      BurnedIsWithdrawn(log[..|log| - 1], id);
    }
  }

  /** What holds of burns: on each mint and overall no more is burned than minted, whatever is
      written back; towards a single token that holds of every run that is backed. */
  lemma BurnedWithinMinted(es: seq<Event>, time: u32, writeBack: bool)
    requires Reaches(es, time)
    ensures var log := Run(es, writeBack).log;
            && Flow(log, AllBurned) <= Flow(log, AllMinted)
            && (forall d: u8 :: Flow(log, BurnedOn(d)) <= Flow(log, MintedOn(d)))
            && (Backed(log) ==>
                  forall id: TokenId :: Flow(log, BurnedTo(id)) <= Flow(log, MintedFrom(id)))
  {
    RunInv(es, time, writeBack);
    var log := Run(es, writeBack).log;
    forall id: TokenId { BurnedIsWithdrawn(log, id); }
  }
}
