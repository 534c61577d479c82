/** What the bridge guarantees in every reachable state: which transactions commit, which
    arithmetic can never abort, and what the accounts and the log always satisfy. */
module Guarantees {
  import opened Common
  import opened Sums
  import opened Limiter
  import opened LimiterRuns
  import opened Committee
  import opened Quorum
  import opened Lookup
  import opened Fees
  import opened State
  import opened Batches
  import opened Flows
  import opened Invariants
  import opened Nonces
  import opened Limits
  import opened Runs

  // ---------- when a mint commits ----------

  /** The standing of a mint's submitter, records, amount and nonce. */
  predicate MintAllowed(s: Accounts, c: MintCall) {
    var m, id := c.msg, c.Source();
    && c.submitter in s.submitters && s.submitters[c.submitter].isSubmitter
    && m.toChainId in s.bridges && m.toChainId != m.sourceChainId
    && id.chain in s.chains && s.chains[id.chain].supported
    && id in s.tokens && !s.tokens[id].withdrawPaused && m.amount >= s.tokens[id].minAmount
    && id in s.limiters
    && c.Nonce() !in s.mintNonces
  }

  lemma MintGuardsIff(s: Accounts, c: MintCall)
    requires ConfigOk(s)
    ensures MintGuards(s, c).Ok? <==> MintAllowed(s, c)
  {
  }

  predicate MintAccountsSupplied(c: MintCall) {
    && Wallet(c.msg.toAddress) in c.remaining
    && SbtcAta(c.msg.toAddress, c.msg.toChainId) in c.remaining
    && SbtcMint(c.msg.toChainId) in c.remaining
  }

  /** The token program credits a mint unless the supply would leave u64. */
  lemma CreditIff(s: Accounts, c: MintCall)
    requires c.msg.toChainId in s.mints && Balanced(s.mints[c.msg.toChainId])
    ensures CreditMint(s, c).Ok? <==>
              MintAccountsSupplied(c)
              && s.mints[c.msg.toChainId].supply + c.msg.amount <= U64_MAX
  {
    var sbtc := OpenAta(s.mints[c.msg.toChainId], c.msg.toAddress);
    OpenAtaKeepsBalance(s.mints[c.msg.toChainId], c.msg.toAddress);
    EntryAtMostSum(sbtc.balances, c.msg.toAddress);
  }

  lemma MintOkIff(s: Accounts, c: MintCall, hour: u32)
    ensures MintSbtc(s, c, hour).Ok? <==>
              && MintGuards(s, c).Ok? && Approve(c.Request(s), c.signatures).Ok?
              && CreditMint(s, c).Ok?
              && s.chains[c.Source().chain].mintTotal + c.msg.amount <= U128_MAX
              && s.tokens[c.Source()].mintTotal + c.msg.amount <= U128_MAX
              && Admit(s.limiters[c.Source()].ring, hour, c.msg.amount).Ok?
  {
  }

  lemma LimiterArithmetic(s: Accounts, id: TokenId, hour: u32, amount: u64)
    requires LimitersFollow(s, hour) && id in s.limiters
    ensures var ring := s.limiters[id].ring;
            && (Admit(ring, hour, amount).Ok? <==>
                  Total(Advance(ring, hour).hourly) + amount <= ring.limit)
            && Admit(ring, hour, amount) != Err(Panicked(RingSum))
            && Admit(ring, hour, amount) != Err(Panicked(SlotAdd))
  {
    assert LimiterFollows(OpsFor(s.log, id), RingOf(s.limiters, id), MintsFrom(s.log, id), hour);
    ArithmeticIsPlain(OpsFor(s.log, id), hour, amount);
  }

  /** A mint of a reachable state commits exactly when it is allowed, approved by distinct
      active members of enough stake, its accounts are supplied, the supply stays in u64 and
      the limiter's cleared sum plus the amount is within the cap. */
  lemma MintCommitsIff(s: Accounts, c: MintCall, hour: u32, writeBack: bool)
    requires Inv(s, hour, writeBack)
    ensures MintSbtc(s, c, hour).Ok? <==>
              && MintAllowed(s, c)
              && Approved(c.Request(s), c.signatures)
              && MintAccountsSupplied(c)
              && s.mints[c.msg.toChainId].supply + c.msg.amount <= U64_MAX
              && var ring := s.limiters[c.Source()].ring;
              && Total(Advance(ring, hour).hourly) + c.msg.amount <= ring.limit
  {
    MintOkIff(s, c, hour);
    MintGuardsIff(s, c);
    ApproveIff(c.Request(s), c.signatures);
    if MintAllowed(s, c) {
      CreditIff(s, c);
      RoomForEveryMint(s, c.Source(), c.msg.nonce, c.msg.amount);
      LimiterArithmetic(s, c.Source(), hour, c.msg.amount);
    }
  }

  // ---------- when a withdrawal commits ----------

  predicate WithdrawAllowed(s: Accounts, c: WithdrawCall) {
    var m, id := c.msg, c.Target();
    && m.fromAddress == c.user
    && m.chainId in s.bridges && m.chainId != m.toChainId
    && id.chain in s.chains && s.chains[id.chain].supported
    && m.amount <= s.chains[id.chain].mintTotal
    && id in s.tokens && !s.tokens[id].withdrawPaused
    && s.tokens[id].minAmount <= m.amount <= s.tokens[id].mintTotal
    && |m.toAddress| <= MAX_STRING_LENGTH
    && s.withdrawNonce < U64_MAX
  }

  predicate WithdrawAccountsSupplied(s: Accounts, c: WithdrawCall)
    requires c.msg.chainId in s.bridges
  {
    var recipient := s.bridges[c.msg.chainId].feeRecipient;
    && SbtcAta(c.user, c.msg.chainId) in c.remaining
    && Wallet(recipient) in c.remaining
    && SbtcAta(recipient, c.msg.chainId) in c.remaining
    && SbtcMint(c.msg.chainId) in c.remaining
  }

  predicate CanPay(s: Sbtc, user: Pubkey, amount: u64) {
    user in s.balances && amount <= s.balances[user]
  }

  /** Paying fee and rest in two steps works exactly when the whole can be paid. */
  lemma ChargeIff(s: Sbtc, user: Pubkey, recipient: Pubkey, fee: u64, rest: u64)
    requires Balanced(s) && user != recipient && fee + rest <= U64_MAX
    ensures ChargeAndBurn(s, user, recipient, fee, rest).Ok? <==> CanPay(s, user, fee + rest)
  {
    var open := OpenAta(s, recipient);
    OpenAtaKeepsBalance(s, recipient);
    if CanPay(s, user, fee + rest) {
      SumTakeOut(open.balances, user);
      EntryAtMostSum(open.balances - {user}, recipient);
    }
  }

  lemma WithdrawGuardsIff(s: Accounts, c: WithdrawCall)
    requires ConfigOk(s)
    ensures WithdrawGuards(s, c).Ok? && |c.msg.toAddress| <= MAX_STRING_LENGTH
            && s.withdrawNonce < U64_MAX
       <==> WithdrawAllowed(s, c)
  {
  }

  lemma WithdrawLookupIff(s: Accounts, c: WithdrawCall)
    requires c.msg.chainId in s.bridges && c.msg.fromAddress == c.user
    ensures var recipient := s.bridges[c.msg.chainId].feeRecipient;
            WithdrawLookup(c.remaining, SbtcAta(c.user, c.msg.chainId), Wallet(recipient),
                           SbtcAta(recipient, c.msg.chainId), SbtcMint(c.msg.chainId)).Ok?
            <==> WithdrawAccountsSupplied(s, c) && recipient != c.user
  {
  }

  /** A withdrawal of a reachable state commits exactly when it is allowed, its accounts are
      supplied, the user is not the fee recipient and holds the whole amount. */
  lemma WithdrawCommitsIff(s: Accounts, c: WithdrawCall, hour: u32, writeBack: bool)
    requires Inv(s, hour, writeBack)
    ensures WithdrawBtc(s, c, writeBack).Ok? <==>
              && WithdrawAllowed(s, c)
              && WithdrawAccountsSupplied(s, c)
              && s.bridges[c.msg.chainId].feeRecipient != c.user
              && CanPay(s.mints[c.msg.chainId], c.user, c.msg.amount)
  {
    WithdrawGuardsIff(s, c);
    if WithdrawAllowed(s, c) {
      WithdrawLookupIff(s, c);
      var m, recipient := s.mints[c.msg.chainId], s.bridges[c.msg.chainId].feeRecipient;
      FeeIsSafe(c.msg.amount, s.tokens[c.Target()].feePercentage);
      if recipient != c.user {
        ChargeIff(m, c.user, recipient, FeeFor(s, c), c.msg.amount - FeeFor(s, c));
      }
    }
  }

  // ---------- when a limiter update commits ----------

  predicate LimitAllowed(s: Accounts, c: LimitCall) {
    && c.submitter in s.submitters && s.submitters[c.submitter].isSubmitter
    && c.msg.chainId in s.bridges
    && c.Target().chain in s.chains && s.chains[c.Target().chain].supported
    && c.Target() in s.tokens && !s.tokens[c.Target()].withdrawPaused
  }

  /** A limiter update commits exactly when it is allowed and approved; the approval must carry
      the number of updates committed so far. */
  lemma LimitCommitsIff(s: Accounts, c: LimitCall, hour: u32, writeBack: bool)
    requires Inv(s, hour, writeBack)
    ensures UpdateLimiter(s, c, hour).Ok? <==>
              LimitAllowed(s, c) && Approved(c.Request(s), c.signatures)
    ensures UpdateLimiter(s, c, hour).Ok? ==> c.msg.nonce == LimitsIn(s.log)
  {
    ApproveIff(c.Request(s), c.signatures);
    if UpdateLimiter(s, c, hour).Ok? {
      LimitEffect(s, c, hour);
    }
  }

  // ---------- when a configuration or a committee commits ----------

  predicate ConfigAllowed(s: Accounts, c: ConfigCall) {
    && c.chainId !in s.bridges && c.payer == SUPER_ADMIN
    && c.Aligned() && c.feeRecipient != DEFAULT_KEY && c.administrator != DEFAULT_KEY
  }

  /** A configuration commits exactly when it is new, made by the super admin, its lists align
      and every entry fits; it leaves existing records alone, whatever its entries say. */
  lemma ConfigCommitsIff(s: Accounts, c: ConfigCall)
    requires ConfigOk(s)
    ensures CreateBridgeConfig(s, c).Ok? <==>
              && ConfigAllowed(s, c)
              && forall i | 0 <= i < |c.tokenIds| ::
                   EntryFits(Records(s.tokens, s.chains, s.funded), c.Entries(), i, c.chainId, c.remaining)
    ensures CreateBridgeConfig(s, c).Ok? ==>
              var s', r := CreateBridgeConfig(s, c).value, Records(s.tokens, s.chains, s.funded);
              && TokensStored(r, c.Entries(), Records(s'.tokens, s'.chains, s'.funded))
              && ChainsStored(r, c.Entries(), Records(s'.tokens, s'.chains, s'.funded))
              && s' == s.(bridges := s.bridges[c.chainId := BridgeConfig(true, false, c.chainId,
                                                 c.administrator, c.feeRecipient)],
                          mints := s.mints[c.chainId := Sbtc(0, map[])],
                          tokens := s'.tokens, chains := s'.chains)
  {
    if ConfigAllowed(s, c) {
      EntriesIff(Records(s.tokens, s.chains, s.funded), c.Entries(), c.chainId, c.remaining);
    }
  }

  /** A committee commits exactly when the bridge's admin creates it with at most 255 members,
      as many stakes, and all record addresses. */
  lemma CommitteeCommitsIff(s: Accounts, payer: Pubkey, chainId: u8, keys: seq<Pubkey>,
                            stakes: seq<u16>, submitter: Pubkey, remaining: seq<Address>)
    ensures CreateCommittee(s, payer, chainId, keys, stakes, submitter, remaining).Ok? <==>
              && ByAdmin(s, payer, chainId)
              && |keys| == |stakes| <= 255
              && forall k <- keys :: CommitteeRecord(k) in remaining
    ensures CreateCommittee(s, payer, chainId, keys, stakes, submitter, remaining).Ok? ==>
              MembersStored(s.members, s.funded, keys, stakes,
                            CreateCommittee(s, payer, chainId, keys, stakes, submitter,
                                            remaining).value.members)
    ensures CreateCommittee(s, payer, chainId, keys, stakes, submitter, remaining).Ok? ==>
              var s' := CreateCommittee(s, payer, chainId, keys, stakes, submitter, remaining).value;
              && s' == s.(members := s'.members, submitters := s'.submitters)
              && (SubmittersOk(s.submitters) ==>
                    s'.submitters == s.submitters[submitter := Submitter(false, submitter, true)])
  {
    if |keys| == |stakes| {
      MembersIff(s.members, s.funded, remaining, keys, stakes);
    }
  }

  // ---------- when an update of one record commits ----------

  /** A chain update sets whether the chain is supported and keeps what was minted from it. */
  lemma ChainCommitsIff(s: Accounts, payer: Pubkey, chainId: u8, target: u8, supported: bool)
    requires ConfigOk(s)
    ensures AddOrUpdateChain(s, payer, chainId, target, supported).Ok? <==>
              ByAdmin(s, payer, chainId) && target != chainId
    ensures AddOrUpdateChain(s, payer, chainId, target, supported).Ok? ==>
              var s' := AddOrUpdateChain(s, payer, chainId, target, supported).value;
              && target in s'.chains && s'.chains[target].supported == supported
              && s' == s.(chains := s.chains[target := s'.chains[target]])
              && forall c: u8 :: ChainTotal(s'.chains, c) == ChainTotal(s.chains, c)
  {
  }

  /** A token update sets fee, minimum and pause, keeps what was minted from the token, and is
      refused when the fee reaches the denominator or the chain has no record. */
  lemma TokenCommitsIff(s: Accounts, payer: Pubkey, chainId: u8, id: TokenId, fee: u64,
                        minimum: u64, paused: bool)
    requires ConfigOk(s)
    ensures AddOrUpdateToken(s, payer, chainId, id, fee, minimum, paused).Ok? <==>
              ByAdmin(s, payer, chainId) && id.chain != chainId && id.chain in s.chains
              && fee < FEE_DENOMINATOR
    ensures AddOrUpdateToken(s, payer, chainId, id, fee, minimum, paused).Ok? ==>
              var s' := AddOrUpdateToken(s, payer, chainId, id, fee, minimum, paused).value;
              && id in s'.tokens && s'.tokens[id].feePercentage == fee
              && s'.tokens[id].minAmount == minimum && s'.tokens[id].withdrawPaused == paused
              && s' == s.(tokens := s.tokens[id := s'.tokens[id]])
              && forall t: TokenId :: TokenTotal(s'.tokens, t) == TokenTotal(s.tokens, t)
  {
  }

  /** A member update decides from then on whether the member's signature counts, and for how
      much; it changes no other member. */
  lemma MemberCommitsIff(s: Accounts, payer: Pubkey, chainId: u8, key: Pubkey, stake: u16,
                         blocklisted: bool)
    requires MembersOk(s.members)
    ensures AddOrUpdateMember(s, payer, chainId, key, stake, blocklisted).Ok? <==>
              ByAdmin(s, payer, chainId)
    ensures ByAdmin(s, payer, chainId) ==>
              var after := AddOrUpdateMember(s, payer, chainId, key, stake, blocklisted).value.members;
              && ActiveKeys(after) == ActiveKeys(s.members) - {key} + (if blocklisted then {} else {key})
              && Weight(after, {key}) == stake
              && forall keys: set<Pubkey> | key !in keys ::
                   Weight(after, keys) == Weight(s.members, keys)
  {
    MemberPut(s.members, key, Member(true, key, stake, blocklisted));
  }

  /** A submitter update decides from then on whether that key may submit, and touches nothing
      else. */
  lemma SubmitterCommitsIff(s: Accounts, payer: Pubkey, chainId: u8, key: Pubkey, isSubmitter: bool)
    ensures AddOrUpdateSubmitter(s, payer, chainId, key, isSubmitter).Ok? <==>
              ByAdmin(s, payer, chainId)
    ensures ByAdmin(s, payer, chainId) ==>
              var s' := AddOrUpdateSubmitter(s, payer, chainId, key, isSubmitter).value;
              && s' == s.(submitters := s'.submitters)
              && s'.submitters.Keys == s.submitters.Keys + {key}
              && (forall k <- s.submitters | k != key :: s'.submitters[k] == s.submitters[k])
              && (forall k: Pubkey :: CanSubmit(s', k) <==>
                    if k == key then isSubmitter else CanSubmit(s, k))
              && (SubmittersOk(s.submitters) ==> SubmittersOk(s'.submitters))
  {
  }
}
