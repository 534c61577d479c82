/** Errors tell the truth: whatever error a transaction is refused with, what the error reports is
    so, as read from the fields of the transaction and of the accounts. */
module Refusals {
  import opened Common
  import opened Codec
  import opened Ed25519
  import opened Wire
  import opened Limiter
  import opened Committee
  import opened Lookup
  import opened Fees
  import opened State
  import opened Flows
  import opened Invariants
  import opened Nonces
  import opened Limits
  import opened Runs
  import opened Guarantees
  import opened Rules
  import opened Refinement

  // ---------- one signature ----------

  /** The instruction is not one of the native program, or one of the header bytes that it is long
      enough to have is not the one expected. */
  predicate ForeignFrame(ix: Instruction) {
    var d := ix.data;
    || ix.program != ED25519_PROGRAM || ix.accounts != 0
    || (|d| >= 8 && (d[0] != 1 || d[1] != 0 || d[4] != 0xFF || d[5] != 0xFF))
    || (|d| >= 8 && (d[6] != 16 || d[7] != 0))
    || (|d| >= 10 && (d[8] != 0xFF || d[9] != 0xFF))
    || (|d| >= 16 && (d[14] != 0xFF || d[15] != 0xFF))
  }

  ghost predicate Unreadable(d: seq<u8>, like: Message) {
    forall m: Message | m.Mint? == like.Mint? :: !MessageLaid(d, m)
  }

  ghost predicate ReadsAsAnother(d: seq<u8>, msg: Message) {
    exists m: Message :: m != msg && MessageLaid(d, m)
  }

  /** What is wrong with the signature in `ix`. */
  ghost predicate SignatureReason(members: Members, ix: Instruction, remaining: seq<Address>,
                                  msg: Message, error: Error) {
    match error
    case InstructionMissing => ForeignFrame(ix)
    case DeserializeMessageError => |ix.data| >= 112 && Unreadable(ix.data[112..], msg)
    case MessageMismatch => |ix.data| >= 112 && ReadsAsAnother(ix.data[112..], msg)
    case CommitteeConfigAddressMissing => CommitteeRecord(KeyAt(ix)) !in remaining
    case InvalidCommittee => KeyAt(ix) in members && members[KeyAt(ix)].isBlocklisted
    case Panicked(site) =>
      || (site == FrameSlice && ix.program == ED25519_PROGRAM && |ix.data| < 112)
      || (site == RecordSlice && KeyAt(ix) !in members)
    case _ => false
  }

  ghost predicate BadSignature(rq: Request, n: nat, error: Error) {
    exists i | 1 <= i <= n && i < |rq.ixs| ::
      SignatureReason(rq.members, rq.ixs[i], rq.remaining, rq.msg, error)
  }

  ghost predicate SameKeyTwice(rq: Request, n: nat) {
    exists i, j | 1 <= i < j <= n && j < |rq.ixs| :: KeyAt(rq.ixs[i]) == KeyAt(rq.ixs[j])
  }

  ghost predicate TooMuchStake(rq: Request, n: nat) {
    exists k | 1 <= k <= n && k < |rq.ixs| :: StakeSum(rq.members, rq.ixs, k) > 65535
  }

  /** What is wrong with a request that is refused at one of its first `n` signatures. */
  ghost predicate CountReason(rq: Request, n: nat, error: Error) {
    || (error == InstructionIndexOutOfRange && |rq.ixs| <= n)
    || (error == MessageOpTypeMismatch && OperationOf(rq.msg.Type()) != Some(rq.op))
    || (error == InvalidNonce && rq.cell.Counter? && rq.cell.nonce != rq.msg.Nonce())
    || (error == DuplicateSignature && SameKeyTwice(rq, n))
    || (error == Panicked(ApprovalStakeAdd) && TooMuchStake(rq, n))
    || BadSignature(rq, n, error)
  }

  lemma ForeignIff(ix: Instruction)
    ensures Validate(ix) == Ok(false) ==> ForeignFrame(ix)
    ensures Validate(ix).Err? ==>
              Validate(ix).error == Panicked(FrameSlice) && ix.program == ED25519_PROGRAM
              && |ix.data| < 16
    ensures Validate(ix) == Ok(true) ==> ix.program == ED25519_PROGRAM
  {
    var d := ix.data;
    if |d| >= 8 {
      assert d[6..8] == [d[6], d[7]] && d[4..6] == [d[4], d[5]];
    }
    if |d| >= 10 {
      assert d[8..10] == [d[8], d[9]];
    }
    if |d| >= 16 {
      assert d[14..16] == [d[14], d[15]];
    }
  }

  lemma DecodeReason(d: seq<u8>, msg: Message)
    ensures msg.DecodeLike(d).Err? ==>
              msg.DecodeLike(d).error == DeserializeMessageError && Unreadable(d, msg)
    ensures msg.DecodeLike(d).Ok? && msg.DecodeLike(d).value != msg ==> ReadsAsAnother(d, msg)
  {
    if msg.DecodeLike(d).Err? {
      forall m: Message | m.Mint? == msg.Mint?
        ensures !MessageLaid(d, m)
      {
        LaidIff(d, m);
      }
    } else {
      LaidIff(d, msg.DecodeLike(d).value);
    }
  }

  lemma ResolveReason(ixs: seq<Instruction>, i: nat, msg: Message, members: Members,
                      remaining: seq<Address>)
    requires i < |ixs| && Resolve(ixs, i, msg).Err?
    ensures SignatureReason(members, ixs[i], remaining, msg, Resolve(ixs, i, msg).error)
  {
    ForeignIff(ixs[i]);
    if |ixs[i].data| >= 112 {
      DecodeReason(ixs[i].data[112..], msg);
    }
  }

  /** The checks after a signer was found, and what each of their errors reports. */
  lemma RecordReason(rq: Request, i: nat)
    requires i < |rq.ixs| && Resolve(rq.ixs, i, rq.msg).Ok? && Signature(rq, i).Err?
    requires forall k <- rq.members :: rq.members[k].isInitialized
    ensures var error, key := Signature(rq, i).error, KeyAt(rq.ixs[i]);
            || (error == MessageOpTypeMismatch && OperationOf(rq.msg.Type()) != Some(rq.op))
            || (error == InvalidNonce && rq.cell.Counter? && rq.cell.nonce != rq.msg.Nonce())
            || (error == CommitteeConfigAddressMissing && CommitteeRecord(key) !in rq.remaining)
            || (error == Panicked(RecordSlice) && key !in rq.members)
            || (error == InvalidCommittee && key in rq.members && rq.members[key].isBlocklisted)
  {
    ResolvesIff(rq.ixs, i, rq.msg);
  }

  lemma BadAt(rq: Request, i: nat)
    requires 1 <= i < |rq.ixs| && Resolve(rq.ixs, i, rq.msg).Err?
    ensures BadSignature(rq, i, Resolve(rq.ixs, i, rq.msg).error)
  {
    ResolveReason(rq.ixs, i, rq.msg, rq.members, rq.remaining);
  }

  lemma OneSignatureReason(rq: Request, i: nat)
    requires 1 <= i && Signature(rq, i).Err? && forall k <- rq.members :: rq.members[k].isInitialized
    ensures CountReason(rq, i, Signature(rq, i).error)
  {
    if i < |rq.ixs| {
      if Resolve(rq.ixs, i, rq.msg).Ok? {
        RecordReason(rq, i);
      } else {
        BadAt(rq, i);
      }
    }
  }

  lemma CountReasonGrows(rq: Request, n: nat, error: Error)
    requires CountReason(rq, n, error)
    ensures CountReason(rq, n + 1, error)
  {
  }

  /** The tally after `n` signatures is the keys and the stakes behind them. */
  ghost predicate Tallies(rq: Request, n: nat, t: Tally) {
    && (n > 0 ==> n < |rq.ixs|)
    && (forall k <- t.seen :: exists i | 1 <= i <= n && i < |rq.ixs| :: KeyAt(rq.ixs[i]) == k)
    && t.stake == if n == 0 then 0 else StakeSum(rq.members, rq.ixs, n)
  }

  lemma MemberFound(rq: Request, i: nat)
    requires MembersOk(rq.members) && Signature(rq, i).Ok?
    ensures i < |rq.ixs| && KeyAt(rq.ixs[i]) in rq.members
    ensures Signature(rq, i).value == rq.members[KeyAt(rq.ixs[i])]
    ensures Signature(rq, i).value.index == KeyAt(rq.ixs[i])
  {
    ResolvesIff(rq.ixs, i, rq.msg);
  }

  lemma OneMoreTallied(rq: Request, n: nat, t: Tally, m: Member)
    requires Tallies(rq, n, t) && n + 1 < |rq.ixs| && KeyAt(rq.ixs[n + 1]) in rq.members
    requires m == rq.members[KeyAt(rq.ixs[n + 1])] && m.index == KeyAt(rq.ixs[n + 1])
    ensures Count(t, m).Err? ==> CountReason(rq, n + 1, Count(t, m).error)
    ensures Count(t, m).Ok? ==> Tallies(rq, n + 1, Count(t, m).value)
  {
    assert StakeSum(rq.members, rq.ixs, n + 1) == t.stake + m.stake;
    if Count(t, m).Ok? {
      forall k <- t.seen + {m.index}
        ensures exists i | 1 <= i <= n + 1 && i < |rq.ixs| :: KeyAt(rq.ixs[i]) == k
      {
        if k in t.seen {
          var i :| 1 <= i <= n && i < |rq.ixs| && KeyAt(rq.ixs[i]) == k;
        }
      }
    }
  }

  lemma {:induction false} CountedReason(rq: Request, n: nat)
    requires MembersOk(rq.members)
    ensures var r := Counted(Signatures(rq, n));
            if r.Ok? then Tallies(rq, n, r.value) else CountReason(rq, n, r.error)
  {
    if n == 0 {
    } else {
      assert Signatures(rq, n)[..n - 1] == Signatures(rq, n - 1);
      var before, last := Counted(Signatures(rq, n - 1)), Signature(rq, n);
      CountedReason(rq, n - 1);
      if before.Err? {
        CountReasonGrows(rq, n - 1, before.error);
      } else if last.Err? {
        OneSignatureReason(rq, n);
      } else {
        MemberFound(rq, n);
        OneMoreTallied(rq, n - 1, before.value, last.value);
      }
    }
  }

  /** What is wrong with an approval by `n` signatures. */
  ghost predicate ApprovalReason(rq: Request, n: u8, stake: nat, error: Error) {
    || (error == InsufficientSignatures && n == 0)
    || (error == Panicked(SignatureCountAdd) && n == 255)
    || (error == Panicked(NonceAdd) && rq.cell == Counter(0xFFFF_FFFF_FFFF_FFFF))
    || (error == InsufficientStake && n < |rq.ixs| && StakeSum(rq.members, rq.ixs, n) < stake)
    || CountReason(rq, n, error)
  }

  lemma RefusedApproval(rq: Request, n: u8, stake: u16)
    requires MembersOk(rq.members) && Approve(rq, n).Err?
    requires OperationOf(rq.msg.Type()) == Some(rq.op) ==> RequiredStake(rq.msg) == Ok(stake)
    ensures ApprovalReason(rq, n, stake, Approve(rq, n).error)
  {
    CountedReason(rq, n);
    if n >= 1 && Counted(Signatures(rq, n)).Ok? {
      TallyIff(rq, n);
      assert Stands(rq, 1);
    }
  }

  // ---------- minting ----------

  ghost predicate MintReason(s: Accounts, c: MintCall, time: u32, error: Error) {
    var m, id := c.msg, TokenId(c.msg.sourceChainId, c.msg.sourceTokenId);
    || (error == AccountNotInitialized
        && (c.submitter !in s.submitters || m.toChainId !in s.bridges || m.sourceChainId !in s.chains
            || id !in s.tokens || id !in s.limiters))
    || (error == AccountAlreadyInUse && MintNonce(m.sourceChainId, m.nonce) in s.mintNonces)
    || (error == NotSubmitter && c.submitter in s.submitters && !s.submitters[c.submitter].isSubmitter)
    || (error == ChainIdShouldDiffFromSolanaChainId && m.toChainId == m.sourceChainId)
    || (error == InvalidChain && m.sourceChainId in s.chains && !s.chains[m.sourceChainId].supported)
    || (error == WithdrawPaused && id in s.tokens && s.tokens[id].withdrawPaused)
    || (error == InvalidMinAmount && id in s.tokens && m.amount < s.tokens[id].minAmount)
    || ApprovalReason(Request(s.members, c.remaining, c.ixs, Mint(m), TokenTransfer, Dummy),
                      c.signatures, 6666, error)
    || (error == UserNotFound && Wallet(m.toAddress) !in c.remaining)
    || (error == UserSbtcAtaNotFound && SbtcAta(m.toAddress, m.toChainId) !in c.remaining)
    || (error == SbtcMintAccountNotFound && SbtcMint(m.toChainId) !in c.remaining)
    || (error == TokenProgramRefused && m.toChainId in s.mints
        && s.mints[m.toChainId].supply + m.amount > 0xFFFF_FFFF_FFFF_FFFF)
    || (error == TransferLimitExceeded && id in s.limiters
        && Total(Kept(s.limiters[id].ring, time / 3600)) + m.amount > s.limiters[id].ring.limit)
    || (error == Panicked(LimitAdd) && id in s.limiters
        && Total(Kept(s.limiters[id].ring, time / 3600)) + m.amount > 0xFFFF_FFFF_FFFF_FFFF)
  }

  lemma MintGuardsReason(s: Accounts, c: MintCall, time: u32)
    requires ConfigOk(s) && MintGuards(s, c).Err?
    ensures MintReason(s, c, time, MintGuards(s, c).error)
  {
  }

  lemma CreditReason(s: Accounts, c: MintCall, time: u32)
    requires c.msg.toChainId in s.mints && Balanced(s.mints[c.msg.toChainId]) && CreditMint(s, c).Err?
    ensures MintReason(s, c, time, CreditMint(s, c).error)
  {
    CreditIff(s, c);
  }

  lemma LimiterReason(s: Accounts, id: TokenId, hour: u32, amount: u64)
    requires LimitersFollow(s, hour) && id in s.limiters
    requires Admit(s.limiters[id].ring, hour, amount).Err?
    ensures var r, error := s.limiters[id].ring, Admit(s.limiters[id].ring, hour, amount).error;
            || (error == TransferLimitExceeded && Total(Kept(r, hour)) + amount > r.limit)
            || (error == Panicked(LimitAdd) && Total(Kept(r, hour)) + amount > 0xFFFF_FFFF_FFFF_FFFF)
  {
    StartedBefore(s, id, hour);
    AdvanceIsKept(s.limiters[id].ring, hour);
    LimiterArithmetic(s, id, hour, amount);
  }

  lemma MintRefused(s: Accounts, c: MintCall, time: u32, writeBack: bool)
    requires Inv(s, CurrentHour(time), writeBack) && MintSbtc(s, c, CurrentHour(time)).Err?
    ensures MintReason(s, c, time, MintSbtc(s, c, CurrentHour(time)).error)
  {
    HourIsSeconds(time);
    if MintGuards(s, c).Err? {
      MintGuardsReason(s, c, time);
    } else if Approve(c.Request(s), c.signatures).Err? {
      RefusedApproval(c.Request(s), c.signatures, 6666);
    } else if CreditMint(s, c).Err? {
      CreditReason(s, c, time);
    } else {
      MintGuardsIff(s, c);
      RoomForEveryMint(s, c.Source(), c.msg.nonce, c.msg.amount);
      LimiterReason(s, c.Source(), CurrentHour(time), c.msg.amount);
    }
  }

  // ---------- withdrawing ----------

  ghost predicate WithdrawReason(s: Accounts, c: WithdrawCall, error: Error) {
    var m, id := c.msg, TokenId(c.msg.toChainId, c.msg.toTokenId);
    || (error == AccountNotInitialized
        && (m.chainId !in s.bridges || m.toChainId !in s.chains || id !in s.tokens))
    || (error == InvalidUserAddress && m.fromAddress != c.user)
    || (error == ChainIdShouldDiffFromSolanaChainId && m.chainId == m.toChainId)
    || (error == SupportedChainConfigNoSupported && m.toChainId in s.chains
        && !s.chains[m.toChainId].supported)
    || (error == LackTargetMintOfChain && m.toChainId in s.chains
        && m.amount > s.chains[m.toChainId].mintTotal)
    || (error == WithdrawPaused && id in s.tokens && s.tokens[id].withdrawPaused)
    || (error == InvalidMinAmount && id in s.tokens && m.amount < s.tokens[id].minAmount)
    || (error == LackTargetMint && id in s.tokens && m.amount > s.tokens[id].mintTotal)
    || (error == InvalidAddress && |m.toAddress| > 255)
    || (error == Panicked(NonceAdd) && s.withdrawNonce == 0xFFFF_FFFF_FFFF_FFFF)
    || (error == UserSbtcAtaNotFound && SbtcAta(c.user, m.chainId) !in c.remaining)
    || (error == SbtcMintAccountNotFound && SbtcMint(m.chainId) !in c.remaining)
    || (m.chainId in s.bridges
        && var recipient := s.bridges[m.chainId].feeRecipient;
           || (error == FeeRecipientNotFound && Wallet(recipient) !in c.remaining)
           || (error == FeeRecipientSbtcAtaNotFound
               && (recipient == c.user || SbtcAta(recipient, m.chainId) !in c.remaining)))
    || (error == TokenProgramRefused && m.chainId in s.mints
        && (c.user !in s.mints[m.chainId].balances || Held(s.mints[m.chainId], c.user) < m.amount))
  }

  lemma WithdrawGuardsReason(s: Accounts, c: WithdrawCall)
    requires ConfigOk(s) && WithdrawGuards(s, c).Err?
    ensures WithdrawReason(s, c, WithdrawGuards(s, c).error)
  {
  }

  lemma ChargeRefused(m: Sbtc, user: Pubkey, recipient: Pubkey, fee: u64, amount: u64)
    requires Balanced(m) && user != recipient && fee <= amount
    ensures var r := ChargeAndBurn(m, user, recipient, fee, amount - fee);
            r.Err? ==> r.error == TokenProgramRefused
                       && (user !in m.balances || Held(m, user) < amount)
  {
    ChargeIff(m, user, recipient, fee, amount - fee);
  }

  lemma WithdrawLookupReason(s: Accounts, c: WithdrawCall)
    requires c.msg.chainId in s.bridges && c.msg.fromAddress == c.user
    ensures var recipient := s.bridges[c.msg.chainId].feeRecipient;
            var r := WithdrawLookup(c.remaining, SbtcAta(c.msg.fromAddress, c.msg.chainId),
                                    Wallet(recipient), SbtcAta(recipient, c.msg.chainId),
                                    SbtcMint(c.msg.chainId));
            if r.Ok? then recipient != c.user else WithdrawReason(s, c, r.error)
  {
  }

  lemma SettlingRefused(s: Accounts, c: WithdrawCall, fee: u64, writeBack: bool)
    requires c.msg.chainId in s.bridges && c.msg.chainId in s.mints
    requires WithdrawGuards(s, c).Ok? && s.withdrawNonce < U64_MAX
    requires fee == FeeFor(s, c) <= c.msg.amount
    ensures var r := SettleWithdrawal(s, c, writeBack);
            var charged := ChargeAndBurn(s.mints[c.msg.chainId], c.user,
                                         s.bridges[c.msg.chainId].feeRecipient, fee, c.msg.amount - fee);
            r.Err? ==> charged.Err? && r.error == charged.error
  {
  }

  lemma WithdrawSettles(s: Accounts, c: WithdrawCall, writeBack: bool)
    requires ConfigOk(s) && AllBalanced(s.mints) && WithdrawGuards(s, c).Ok?
    requires s.withdrawNonce < U64_MAX && s.bridges[c.msg.chainId].feeRecipient != c.user
    ensures var r := SettleWithdrawal(s, c, writeBack);
            r.Err? ==> WithdrawReason(s, c, r.error)
  {
    var d, fee := c.msg.chainId, FeeFor(s, c);
    FeeIsSafe(c.msg.amount, s.tokens[c.Target()].feePercentage);
    ChargeRefused(s.mints[d], c.user, s.bridges[d].feeRecipient, fee, c.msg.amount);
    SettlingRefused(s, c, fee, writeBack);
  }

  lemma WithdrawRefused(s: Accounts, c: WithdrawCall, hour: u32, writeBack: bool)
    requires Inv(s, hour, writeBack) && WithdrawBtc(s, c, writeBack).Err?
    ensures WithdrawReason(s, c, WithdrawBtc(s, c, writeBack).error)
  {
    if WithdrawGuards(s, c).Err? {
      WithdrawGuardsReason(s, c);
    } else if |c.msg.toAddress| <= MAX_STRING_LENGTH && s.withdrawNonce < U64_MAX {
      WithdrawLookupReason(s, c);
      if s.bridges[c.msg.chainId].feeRecipient != c.user {
        WithdrawSettles(s, c, writeBack);
      }
    }
  }

  // ---------- limiter updates ----------

  ghost predicate LimitReason(s: Accounts, c: LimitCall, error: Error) {
    var m, id := c.msg, TokenId(c.msg.targetChainId, c.msg.tokenId);
    || (error == AccountNotInitialized
        && (c.submitter !in s.submitters || m.chainId !in s.bridges || m.targetChainId !in s.chains
            || id !in s.tokens))
    || (error == NotSubmitter && c.submitter in s.submitters && !s.submitters[c.submitter].isSubmitter)
    || (error == SupportedChainConfigNoSupported && m.targetChainId in s.chains
        && !s.chains[m.targetChainId].supported)
    || (error == WithdrawPaused && id in s.tokens && s.tokens[id].withdrawPaused)
    || ApprovalReason(Request(s.members, c.remaining, c.ixs, Limit(m), UpdateBridgeLimit,
                              Counter(s.limitNonce)), c.signatures, 5001, error)
  }

  lemma LimitRefused(s: Accounts, c: LimitCall, hour: u32)
    requires ConfigOk(s) && UpdateLimiter(s, c, hour).Err?
    ensures LimitReason(s, c, UpdateLimiter(s, c, hour).error)
  {
    if LimitGuards(s, c).Ok? {
      RefusedApproval(c.Request(s), c.signatures, 5001);
    }
  }

  // ---------- configuration ----------

  ghost predicate EntryReason(c: ConfigCall, i: nat, error: Error)
    requires |c.tokenIds| == |c.supportedChains| == |c.feePercentages| && i < |c.tokenIds|
  {
    || (error == ChainIdShouldDiffFromSolanaChainId && c.supportedChains[i] == c.chainId)
    || (error == TokenConfigAddressMissing && TokenRecord(Named(c, i)) !in c.remaining)
    || (error == BiggerThanFeeDenominator && c.feePercentages[i] >= 1_000_000)
    || (error == SupportedChainAddressMissing && ChainRecord(c.supportedChains[i]) !in c.remaining)
  }

  ghost predicate ConfigReason(s: Accounts, c: ConfigCall, error: Error) {
    || (error == AccountAlreadyInUse && c.chainId in s.bridges)
    || (error == InvalidAdminAddress
        && (c.payer != SUPER_ADMIN || forall b <- c.administrator :: b == 0))
    || (error == InvalidFeeRecipientAddress && forall b <- c.feeRecipient :: b == 0)
    || (error == InvalidTokenIds && |c.tokenIds| != |c.supportedChains|)
    || (error == InvalidTokenFeePercentage && |c.tokenIds| != |c.feePercentages|)
    || (error == InvalidTokenMinimumAmount && |c.tokenIds| != |c.minAmounts|)
    || (|c.tokenIds| == |c.supportedChains| == |c.feePercentages|
        && exists i | 0 <= i < |c.tokenIds| :: EntryReason(c, i, error))
  }

  lemma {:induction false} EntriesRefused(r: Records, c: ConfigCall, n: nat)
    requires c.Aligned() && n <= |c.tokenIds|
    requires AddEntries(r, c.Entries()[..n], c.chainId, c.remaining).Err?
    ensures var error := AddEntries(r, c.Entries()[..n], c.chainId, c.remaining).error;
            exists i | 0 <= i < n :: EntryReason(c, i, error)
  {
    if n == 0 {
      assert false;
    } else {
      assert c.Entries()[..n][..n - 1] == c.Entries()[..n - 1];
      var before := AddEntries(r, c.Entries()[..n - 1], c.chainId, c.remaining);
      if before.Err? {
        EntriesRefused(r, c, n - 1);
      } else {
        assert EntryReason(c, n - 1, AddEntry(before.value, c.Entries()[n - 1], c.chainId,
                                              c.remaining).error);
      }
    }
  }

  lemma ConfigRefused(s: Accounts, c: ConfigCall)
    requires ConfigOk(s) && CreateBridgeConfig(s, c).Err?
    ensures ConfigReason(s, c, CreateBridgeConfig(s, c).error)
  {
    NotDefaultIff(c.feeRecipient);
    NotDefaultIff(c.administrator);
    if ConfigGuards(s, c).Ok? {
      assert c.Entries()[..|c.tokenIds|] == c.Entries();
      EntriesRefused(Records(s.tokens, s.chains, s.funded), c, |c.tokenIds|);
    }
  }

  /** What can be wrong with an admin's transaction before its own conditions are looked at. */
  predicate AdminReason(s: Accounts, payer: Pubkey, chainId: u8, error: Error) {
    || (error == AccountNotInitialized && chainId !in s.bridges)
    || (error == InvalidAdminAddress && chainId in s.bridges && s.bridges[chainId].admin != payer)
  }

  lemma {:induction false} MembersRefused(members: Members, funded: set<Address>,
                                          remaining: seq<Address>, keys: seq<Pubkey>,
                                          stakes: seq<u16>)
    requires |keys| == |stakes| && AddMembers(members, funded, remaining, keys, stakes).Err?
    ensures AddMembers(members, funded, remaining, keys, stakes).error
         == CommitteeConfigAddressMissing
    ensures exists k <- keys :: CommitteeRecord(k) !in remaining
  {
    if keys == [] {
      assert false;
    } else {
      var n := |keys| - 1;
      if AddMembers(members, funded, remaining, keys[..n], stakes[..n]).Err? {
        MembersRefused(members, funded, remaining, keys[..n], stakes[..n]);
      } else {
        assert keys[n] in keys && CommitteeRecord(keys[n]) !in remaining;
      }
    }
  }

  // ---------- every transaction ----------

  /** What an error of a transaction reports. */
  ghost predicate Reason(s: Accounts, tx: Tx, time: u32, error: Error) {
    match tx
    case MintTx(c) => MintReason(s, c, time, error)
    case WithdrawTx(c) => WithdrawReason(s, c, error)
    case LimitTx(c) => LimitReason(s, c, error)
    case ConfigTx(c) => ConfigReason(s, c, error)
    case ChainTx(payer, chainId, target, _) =>
      || AdminReason(s, payer, chainId, error)
      || (error == ChainIdShouldDiffFromSolanaChainId && target == chainId)
    case TokenTx(payer, chainId, id, fee, _, _) =>
      || AdminReason(s, payer, chainId, error)
      || (error == AccountNotInitialized && id.chain !in s.chains)
      || (error == ChainIdShouldDiffFromSolanaChainId && id.chain == chainId)
      || (error == BiggerThanFeeDenominator && fee >= 1_000_000)
    case CommitteeTx(payer, chainId, keys, stakes, _, remaining) =>
      || AdminReason(s, payer, chainId, error)
      || (error == CommitteeLengthExceedsLimit && |keys| > 255)
      || (error == CommitteeAndStakeLengthMismatch && |keys| != |stakes|)
      || (error == CommitteeConfigAddressMissing
          && exists k <- keys :: CommitteeRecord(k) !in remaining)
    case MemberTx(payer, chainId, _, _, _) => AdminReason(s, payer, chainId, error)
    case SubmitterTx(payer, chainId, _, _) => AdminReason(s, payer, chainId, error)
    case HolderTx(d, from, to, amount) =>
      error == TokenProgramRefused
      && (d !in s.mints || from !in s.mints[d].balances || amount > Held(s.mints[d], from))
    case FundTx(_) => false
  }

  lemma CommitteeRefused(s: Accounts, payer: Pubkey, chainId: u8, keys: seq<Pubkey>,
                         stakes: seq<u16>, submitter: Pubkey, remaining: seq<Address>)
    requires CreateCommittee(s, payer, chainId, keys, stakes, submitter, remaining).Err?
    ensures var error := CreateCommittee(s, payer, chainId, keys, stakes, submitter, remaining).error;
            Reason(s, CommitteeTx(payer, chainId, keys, stakes, submitter, remaining), 0, error)
  {
    if ByAdmin(s, payer, chainId) && |keys| == |stakes| <= 255 {
      MembersRefused(s.members, s.funded, remaining, keys, stakes);
    }
  }

  lemma QuietRefused(s: Accounts, tx: Tx, hour: u32, time: u32, writeBack: bool)
    requires Inv(s, hour, writeBack) && Quiet(tx) && Execute(s, tx, hour, writeBack).Err?
    ensures Reason(s, tx, time, Execute(s, tx, hour, writeBack).error)
  {
    match tx
    case ConfigTx(c) => ConfigRefused(s, c);
    case CommitteeTx(payer, chainId, keys, stakes, submitter, remaining) =>
      CommitteeRefused(s, payer, chainId, keys, stakes, submitter, remaining);
    case HolderTx(d, from, to, amount) => HolderByRule(s, d, from, to, amount);
    case _ =>
  }

  /** Every refusal in every run gives a reason that holds: the error of a transaction that is tried
      next reports something that is so of the accounts and the transaction. */
  lemma RefusedForReason(es: seq<Event>, e: Event, writeBack: bool)
    requires Reaches(es, e.time) && Execute(Run(es, writeBack), e.tx, Hour(e), writeBack).Err?
    ensures Reason(Run(es, writeBack), e.tx, e.time,
                   Execute(Run(es, writeBack), e.tx, Hour(e), writeBack).error)
  {
    var s := Run(es, writeBack);
    RunInv(es, e.time, writeBack);
    match e.tx
    case MintTx(c) => MintRefused(s, c, e.time, writeBack);
    case WithdrawTx(c) => WithdrawRefused(s, c, Hour(e), writeBack);
    case LimitTx(c) => LimitRefused(s, c, Hour(e));
    case _ => QuietRefused(s, e.tx, Hour(e), e.time, writeBack);
  }

  /** A transaction and its answer by the rules: it succeeds if it may, stores what the rules say or
      nothing, and an error says something that is so. */
  ghost predicate Answers(s: Accounts, e: Event, writeBack: bool, r: Result<()>, s': Accounts) {
    && (r.Ok? <==> May(s, e.tx, e.time))
    && Step(s, e.tx, e.time, writeBack, s')
    && (r.Err? ==> Reason(s, e.tx, e.time, r.error))
  }

  lemma NextAnswers(es: seq<Event>, e: Event, writeBack: bool)
    requires Reaches(es, e.time)
    ensures var spec := Execute(Run(es, writeBack), e.tx, Hour(e), writeBack);
            Answers(Run(es, writeBack), e, writeBack, if spec.Ok? then Ok(()) else Err(spec.error),
                    Run(es + [e], writeBack))
  {
    StepByRule(es, e, writeBack);
    if Execute(Run(es, writeBack), e.tx, Hour(e), writeBack).Err? {
      RefusedForReason(es, e, writeBack);
    }
  }
}
