/** What every transaction keeps. Each part of the invariant is kept on its own. */
module Invariants {
  import opened Common
  import opened Limiter
  import opened Committee
  import opened State
  import opened Flows

  // ---------- what a committed transaction did ----------

  ghost predicate MintFacts(s: Accounts, c: MintCall, hour: u32) {
    && c.Source() in s.tokens && c.Source() in s.limiters
    && c.Source().chain in s.chains && c.msg.toChainId in s.bridges && c.msg.toChainId in s.mints
    && c.Nonce() !in s.mintNonces
    && CreditMint(s, c).Ok?
    && Admit(s.limiters[c.Source()].ring, hour, c.msg.amount).Ok?
    && s.chains[c.Source().chain].mintTotal + c.msg.amount <= U128_MAX
    && s.tokens[c.Source()].mintTotal + c.msg.amount <= U128_MAX
  }

  lemma MintEffect(s: Accounts, c: MintCall, hour: u32)
    requires MintSbtc(s, c, hour).Ok?
    ensures MintFacts(s, c, hour)
    ensures MintSbtc(s, c, hour).value
         == AfterMint(NonceCreated(s, c), c, hour, CreditMint(s, c).value,
                      Admit(s.limiters[c.Source()].ring, hour, c.msg.amount).value)
  {
  }

  ghost predicate WithdrawFacts(s: Accounts, c: WithdrawCall) {
    && c.Target() in s.tokens && c.Target().chain in s.chains
    && c.msg.chainId in s.bridges && c.msg.chainId in s.mints
    && c.msg.amount <= s.chains[c.Target().chain].mintTotal
    && c.msg.amount <= s.tokens[c.Target()].mintTotal
    && FeeFor(s, c) <= c.msg.amount
    && s.withdrawNonce < U64_MAX
    && Burned(s, c).Ok?
  }

  function Burned(s: Accounts, c: WithdrawCall): Result<Sbtc>
    requires c.Target() in s.tokens && c.msg.chainId in s.bridges && c.msg.chainId in s.mints
    requires FeeFor(s, c) <= c.msg.amount
  {
    ChargeAndBurn(s.mints[c.msg.chainId], c.user, s.bridges[c.msg.chainId].feeRecipient,
                  FeeFor(s, c), c.msg.amount - FeeFor(s, c))
  }

  lemma WithdrawEffect(s: Accounts, c: WithdrawCall, writeBack: bool)
    requires WithdrawBtc(s, c, writeBack).Ok?
    ensures WithdrawFacts(s, c)
    ensures WithdrawBtc(s, c, writeBack).value
         == AfterWithdraw(s, c, FeeFor(s, c), Burned(s, c).value, writeBack)
  {
  }

  lemma LimitPasses(s: Accounts, c: LimitCall, hour: u32)
    requires UpdateLimiter(s, c, hour).Ok?
    ensures c.Target() in s.tokens && Approve(c.Request(s), c.signatures).Ok?
    ensures var cell := Approve(c.Request(s), c.signatures).value;
            UpdateLimiter(s, c, hour).value
            == AfterLimit(s, c, hour, if cell.Counter? then cell.nonce else s.limitNonce)
  {
  }

  lemma LimitEffect(s: Accounts, c: LimitCall, hour: u32)
    requires Keyed(s.members) && UpdateLimiter(s, c, hour).Ok?
    ensures c.Target() in s.tokens && c.msg.nonce == s.limitNonce < U64_MAX
    ensures UpdateLimiter(s, c, hour).value == AfterLimit(s, c, hour, s.limitNonce + 1)
  {
    LimitPasses(s, c, hour);
    ApproveIff(c.Request(s), c.signatures);
  }

  // ---------- configuration ----------

  /** Every stored record is initialised and consistent with the key it is stored under, a
      token's chain record exists unless its address was funded, and no fee reaches the
      denominator. */
  ghost predicate ConfigOk(s: Accounts) {
    && s.bridges.Keys == s.mints.Keys
    && BridgesOk(s.bridges)
    && ChainsOk(s.chains)
    && TokensOk(s.tokens) && ChainsLinked(s.tokens, s.chains, s.funded)
    && LimitersOk(s.limiters, s.tokens)
    && MembersOk(s.members)
    && SubmittersOk(s.submitters)
  }

  ghost predicate BridgesOk(bridges: map<u8, BridgeConfig>) {
    forall d <- bridges ::
      bridges[d].isInitialized && !bridges[d].withdrawPaused && bridges[d].chainId == d
  }

  ghost predicate ChainsOk(chains: map<u8, ChainConfig>) {
    forall c <- chains :: chains[c].isInitialized
  }

  ghost predicate TokensOk(tokens: map<TokenId, TokenConfig>) {
    forall id <- tokens :: TokenOk(tokens[id], id)
  }

  ghost predicate ChainsLinked(tokens: map<TokenId, TokenConfig>, chains: map<u8, ChainConfig>,
                               funded: set<Address>) {
    forall id <- tokens :: id.chain in chains || ChainRecord(id.chain) in funded
  }

  predicate TokenOk(t: TokenConfig, id: TokenId) {
    t.isInitialized && t.id == id && t.feePercentage < FEE_DENOMINATOR
  }

  ghost predicate LimitersOk(limiters: map<TokenId, ChainTokenLimiter>,
                             tokens: map<TokenId, TokenConfig>) {
    forall id <- limiters :: id in tokens && limiters[id].isInitialized
  }

  ghost predicate MembersOk(members: Members) {
    Keyed(members) && forall k <- members :: members[k].isInitialized
  }

  /** A submitter's record is stored under the key it names, and is never marked initialised. */
  ghost predicate SubmittersOk(submitters: map<Pubkey, Submitter>) {
    forall k <- submitters :: submitters[k].submitter == k && !submitters[k].isInitialized
  }

  /** Each chain record's total is the sum over its token records. */
  ghost predicate TotalsAgree(tokens: map<TokenId, TokenConfig>, chains: map<u8, ChainConfig>) {
    forall c: u8 :: ChainTotal(chains, c) == TokenSum(tokens, c, 256)
  }

  ghost predicate RecordsOk(r: Records) {
    && TokensOk(r.tokens) && ChainsLinked(r.tokens, r.chains, r.funded)
    && ChainsOk(r.chains) && TotalsAgree(r.tokens, r.chains)
  }

  /** Records are only added, and only with a zero total. */
  ghost predicate OnlyZeroAdded(r: Records, r': Records) {
    && r'.funded == r.funded && r.tokens.Keys <= r'.tokens.Keys
    && SameRecordTotals(r.tokens, r.chains, r'.tokens, r'.chains)
  }

  ghost predicate SameRecordTotals(tokens: map<TokenId, TokenConfig>, chains: map<u8, ChainConfig>,
                                   tokens': map<TokenId, TokenConfig>, chains': map<u8, ChainConfig>) {
    && (forall id: TokenId :: TokenTotal(tokens', id) == TokenTotal(tokens, id))
    && (forall c: u8 :: ChainTotal(chains', c) == ChainTotal(chains, c))
    && ChainSum(chains', 256) == ChainSum(chains, 256)
  }

  lemma AddEntryKeeps(r: Records, e: TokenEntry, self: u8, remaining: seq<Address>)
    requires AddEntry(r, e, self, remaining).Ok? && RecordsOk(r)
    ensures RecordsOk(AddEntry(r, e, self, remaining).value)
    ensures OnlyZeroAdded(r, AddEntry(r, e, self, remaining).value)
  {
    if r.TokenEmpty(e.id) {
      forall c: u8 { TokenSumPut(r.tokens, e.id, NewToken(e), c, 256); }
    }
    if r.ChainEmpty(e.id.chain) {
      ChainSumPut(r.chains, e.id.chain, NewChain(e.id.chain), 256);
    }
  }

  lemma {:induction false} AddEntriesKeep(r: Records, es: seq<TokenEntry>, self: u8,
                                          remaining: seq<Address>)
    requires AddEntries(r, es, self, remaining).Ok? && RecordsOk(r)
    ensures RecordsOk(AddEntries(r, es, self, remaining).value)
    ensures OnlyZeroAdded(r, AddEntries(r, es, self, remaining).value)
  {
    if es == [] {
    } else {
      var front := es[..|es| - 1];
      AddEntriesKeep(r, front, self, remaining);
      AddEntryKeeps(AddEntries(r, front, self, remaining).value, es[|es| - 1], self, remaining);
    }
  }

  lemma {:induction false} AddMembersKeep(members: Members, funded: set<Address>,
                                          remaining: seq<Address>, keys: seq<Pubkey>, stakes: seq<u16>)
    requires |keys| == |stakes| && AddMembers(members, funded, remaining, keys, stakes).Ok?
    requires MembersOk(members)
    ensures MembersOk(AddMembers(members, funded, remaining, keys, stakes).value)
  {
    if keys == [] {
    } else {
      var n := |keys| - 1;
      AddMembersKeep(members, funded, remaining, keys[..n], stakes[..n]);
    }
  }

  ghost predicate AllBalanced(mints: map<u8, Sbtc>) {
    forall d <- mints :: Balanced(mints[d])
  }

  ghost predicate SameSupplies(mints: map<u8, Sbtc>, mints': map<u8, Sbtc>) {
    && (forall d: u8 :: Supply(mints', d) == Supply(mints, d))
    && SupplySum(mints', 256) == SupplySum(mints, 256)
    && (AllBalanced(mints) ==> AllBalanced(mints'))
  }

  lemma SupplyKept(mints: map<u8, Sbtc>, d: u8, v: Sbtc)
    requires v.supply == Supply(mints, d)
    requires d in mints && Balanced(mints[d]) ==> Balanced(v)
    requires d !in mints ==> Balanced(v)
    ensures SameSupplies(mints, mints[d := v])
  {
    SupplySumPut(mints, d, v, 256);
  }

  /** Configuration transactions and the like: they write no receipt and move no total. */
  ghost predicate TotalsUntouched(s: Accounts, s': Accounts) {
    && s'.log == s.log && s'.mintNonces == s.mintNonces
    && s'.limitNonce == s.limitNonce && s'.withdrawNonce == s.withdrawNonce
    && s'.limiters == s.limiters
    && SameRecordTotals(s.tokens, s.chains, s'.tokens, s'.chains)
    && SameSupplies(s.mints, s'.mints)
  }

  predicate Quiet(tx: Tx) { !tx.MintTx? && !tx.WithdrawTx? && !tx.LimitTx? }

  lemma ConfigKeeps(s: Accounts, c: ConfigCall)
    requires ConfigOk(s) && TotalsAgree(s.tokens, s.chains) && CreateBridgeConfig(s, c).Ok?
    ensures var s' := CreateBridgeConfig(s, c).value;
            ConfigOk(s') && TotalsAgree(s'.tokens, s'.chains) && TotalsUntouched(s, s')
  {
    var r := Records(s.tokens, s.chains, s.funded);
    AddEntriesKeep(r, c.Entries(), c.chainId, c.remaining);
    var r' := AddEntries(r, c.Entries(), c.chainId, c.remaining).value;
    NewConfigOk(s, c, r');
    NewConfigSame(s, c, r');
  }

  lemma NewConfigOk(s: Accounts, c: ConfigCall, r: Records)
    requires ConfigOk(s) && RecordsOk(r) && s.tokens.Keys <= r.tokens.Keys && r.funded == s.funded
    ensures ConfigOk(AfterConfig(s, c, r))
  {
    var s' := AfterConfig(s, c, r);
    assert s'.bridges.Keys == s.bridges.Keys + {c.chainId};
    assert s'.mints.Keys == s.mints.Keys + {c.chainId};
    assert BridgesOk(s'.bridges);
  }

  lemma NewConfigSame(s: Accounts, c: ConfigCall, r: Records)
    requires c.chainId !in s.mints
    requires SameRecordTotals(s.tokens, s.chains, r.tokens, r.chains)
    ensures TotalsUntouched(s, AfterConfig(s, c, r))
  {
    assert Balanced(Sbtc(0, map[]));
    SupplyKept(s.mints, c.chainId, Sbtc(0, map[]));
  }

  lemma ChainKeeps(s: Accounts, payer: Pubkey, chainId: u8, target: u8, supported: bool)
    requires ConfigOk(s) && TotalsAgree(s.tokens, s.chains)
    requires AddOrUpdateChain(s, payer, chainId, target, supported).Ok?
    ensures var s' := AddOrUpdateChain(s, payer, chainId, target, supported).value;
            ConfigOk(s') && TotalsAgree(s'.tokens, s'.chains) && TotalsUntouched(s, s')
  {
    var s' := AddOrUpdateChain(s, payer, chainId, target, supported).value;
    ChainSumPut(s.chains, target, s'.chains[target], 256);
  }

  lemma TokenKeeps(s: Accounts, payer: Pubkey, chainId: u8, id: TokenId, fee: u64, minimum: u64,
                   paused: bool)
    requires ConfigOk(s) && TotalsAgree(s.tokens, s.chains)
    requires AddOrUpdateToken(s, payer, chainId, id, fee, minimum, paused).Ok?
    ensures var s' := AddOrUpdateToken(s, payer, chainId, id, fee, minimum, paused).value;
            ConfigOk(s') && TotalsAgree(s'.tokens, s'.chains) && TotalsUntouched(s, s')
  {
    var s' := AddOrUpdateToken(s, payer, chainId, id, fee, minimum, paused).value;
    forall c: u8 { TokenSumPut(s.tokens, id, s'.tokens[id], c, 256); }
  }

  lemma HolderKeeps(s: Accounts, d: u8, from: Pubkey, to: Pubkey, amount: u64)
    requires ConfigOk(s) && TotalsAgree(s.tokens, s.chains)
    requires HolderTransfer(s, d, from, to, amount).Ok?
    ensures var s' := HolderTransfer(s, d, from, to, amount).value;
            ConfigOk(s') && TotalsAgree(s'.tokens, s'.chains) && TotalsUntouched(s, s')
  {
    var s' := HolderTransfer(s, d, from, to, amount).value;
    OpenAtaKeepsBalance(s.mints[d], to);
    TransferBalance(OpenAta(s.mints[d], to), from, to, amount);
    SupplyKept(s.mints, d, s'.mints[d]);
  }

  /** Configuration, committee, submitter and holder transactions keep the records consistent
      and every total as it was. */
  lemma QuietKeeps(s: Accounts, tx: Tx, hour: u32, writeBack: bool)
    requires ConfigOk(s) && TotalsAgree(s.tokens, s.chains)
    requires Quiet(tx) && Execute(s, tx, hour, writeBack).Ok?
    ensures var s' := Execute(s, tx, hour, writeBack).value;
            ConfigOk(s') && TotalsAgree(s'.tokens, s'.chains) && TotalsUntouched(s, s')
  {
    match tx
    case ConfigTx(c) => ConfigKeeps(s, c);
    case ChainTx(payer, chainId, target, supported) =>
      ChainKeeps(s, payer, chainId, target, supported);
    case TokenTx(payer, chainId, id, fee, minimum, paused) =>
      TokenKeeps(s, payer, chainId, id, fee, minimum, paused);
    case CommitteeTx(payer, chainId, keys, stakes, submitter, remaining) =>
      AddMembersKeep(s.members, s.funded, remaining, keys, stakes);
    case MemberTx(_, _, _, _, _) =>
    case SubmitterTx(_, _, _, _) =>
    case HolderTx(d, from, to, amount) => HolderKeeps(s, d, from, to, amount);
    case FundTx(_) =>
  }

  lemma MintKeepsConfig(s: Accounts, c: MintCall, hour: u32)
    requires ConfigOk(s) && TotalsAgree(s.tokens, s.chains) && MintSbtc(s, c, hour).Ok?
    ensures var s' := MintSbtc(s, c, hour).value;
            ConfigOk(s') && TotalsAgree(s'.tokens, s'.chains)
  {
    MintEffect(s, c, hour);
    var s', id := MintSbtc(s, c, hour).value, c.Source();
    forall chain: u8 { TokenSumPut(s.tokens, id, s'.tokens[id], chain, 256); }
  }

  lemma WithdrawKeepsConfig(s: Accounts, c: WithdrawCall, writeBack: bool)
    requires ConfigOk(s) && TotalsAgree(s.tokens, s.chains) && WithdrawBtc(s, c, writeBack).Ok?
    ensures var s' := WithdrawBtc(s, c, writeBack).value;
            ConfigOk(s') && TotalsAgree(s'.tokens, s'.chains)
  {
    WithdrawEffect(s, c, writeBack);
    var s', id := WithdrawBtc(s, c, writeBack).value, c.Target();
    if writeBack {
      forall chain: u8 { TokenSumPut(s.tokens, id, s'.tokens[id], chain, 256); }
    }
  }

  lemma LimitKeepsConfig(s: Accounts, c: LimitCall, hour: u32)
    requires ConfigOk(s) && TotalsAgree(s.tokens, s.chains) && UpdateLimiter(s, c, hour).Ok?
    ensures var s' := UpdateLimiter(s, c, hour).value;
            ConfigOk(s') && TotalsAgree(s'.tokens, s'.chains)
  {
    LimitEffect(s, c, hour);
  }
}
