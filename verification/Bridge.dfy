/** The bridge program over its stored accounts. Each instruction handler works the way the
    program does: it loads working copies, creates accounts and calls the token program as it
    goes, and stores the copies of its mutable accounts when it returns. `Process` is the
    runtime around the handlers, which undoes everything a failed handler did. */
module Bridge {
  import opened Common
  import opened Limiter
  import opened Committee
  import opened Lookup
  import opened Fees
  import opened State
  import opened Batches
  import opened Runs
  import opened Rules
  import opened Refinement
  import opened Refusals

  /** A handler ends as its specification: same error, or success with the specified accounts.
      What a failed handler leaves behind is for the runtime to undo. */
  predicate Handles(r: Result<()>, after: Accounts, spec: Result<Accounts>) {
    if spec.Ok? then r == Ok(()) && after == spec.value else r == Err(spec.error)
  }

  class Bridge {
    /** Whether a withdrawal stores its chain and token records; false in the program. */
    const writeBack: bool

    /** What is stored on chain. */
    var stored: Accounts

    /** Every transaction processed so far, the failed ones included. */
    ghost var history: seq<Event>

    /** The stored accounts are those of the run of the transactions processed so far. */
    ghost predicate Valid()
      reads this
    {
      Clocked(history) && stored == Run(history, writeBack)
    }

    constructor Deploy(writeBack: bool)
      ensures Valid() && history == [] && this.writeBack == writeBack
    {
      this.writeBack := writeBack;
      stored := GENESIS;
      history := [];
    }

    // ---------- the runtime ----------

    /** One transaction: the handler's changes are kept if it succeeds and undone if it fails.
        The accounts then are those of the longer run, so everything proved about runs holds
        of the stored accounts after every transaction. */
    method Process(tx: Tx, time: u32) returns (r: Result<()>)
      requires Valid() && Reaches(history, time)
      modifies this
      ensures Valid() && history == old(history) + [Event(time, tx)]
      ensures Handles(r, stored, Execute(old(stored), tx, CurrentHour(time), writeBack))
      ensures r.Err? ==> stored == old(stored)
      ensures Answers(old(stored), Event(time, tx), writeBack, r, stored)
    {
      var before := stored;
      NextAnswers(history, Event(time, tx), writeBack);
      r := Dispatch(tx, CurrentHour(time));
      if r.Err? {
        stored := before;
      }
      history := history + [Event(time, tx)];
      assert history[..|history| - 1] == old(history);
      assert stored == Run(history, writeBack);
    }

    method Dispatch(tx: Tx, hour: u32) returns (r: Result<()>)
      modifies this`stored
      ensures Handles(r, stored, Execute(old(stored), tx, hour, writeBack))
    {
      match tx
      case MintTx(c) => r := MintSbtcWithSignatures(c, hour);
      case WithdrawTx(c) => r := WithdrawBtc(c);
      case LimitTx(c) => r := AddOrUpdateLimiterWithSignatures(c, hour);
      case ConfigTx(c) => r := CreateBridgeConfig(c);
      case ChainTx(payer, chainId, target, supported) =>
        r := AddOrUpdateChain(payer, chainId, target, supported);
      case TokenTx(payer, chainId, id, feePercentage, minAmount, paused) =>
        r := AddOrUpdateChainToken(payer, chainId, id, feePercentage, minAmount, paused);
      case CommitteeTx(payer, chainId, keys, stakes, submitter, remaining) =>
        r := CreateBridgeCommittee(payer, chainId, keys, stakes, submitter, remaining);
      case MemberTx(payer, chainId, key, stake, blocklisted) =>
        r := AddOrUpdateCommittee(payer, chainId, key, stake, blocklisted);
      case SubmitterTx(payer, chainId, key, isSubmitter) =>
        r := AddOrUpdateSubmitter(payer, chainId, key, isSubmitter);
      case HolderTx(solanaChain, from, to, amount) =>
        r := MoveByHolder(solanaChain, from, to, amount);
      case FundTx(address) => r := ReceiveLamports(address);
    }

    // ---------- minting, withdrawing, limiting ----------

    method MintSbtcWithSignatures(c: MintCall, hour: u32) returns (r: Result<()>)
      modifies this`stored
      ensures Handles(r, stored, MintSbtc(old(stored), c, hour))
    {
      var _ :- MintGuards(stored, c);
      stored := stored.(mintNonces := stored.mintNonces + {c.Nonce()});
      var _ :- VerifyOn(c.Request(stored), c.signatures);
      r := FinishMint(c, hour);
    }

    /** The mint handler after verification. */
    method FinishMint(c: MintCall, hour: u32) returns (r: Result<()>)
      requires c.msg.sourceChainId in stored.chains
      requires c.Source() in stored.tokens && c.Source() in stored.limiters
      modifies this`stored
      ensures Handles(r, stored, SettleMint(old(stored), c, hour))
    {
      var m, id := c.msg, c.Source();
      var chain, token := stored.chains[m.sourceChainId], stored.tokens[id];
      var limiter := stored.limiters[id];
      var _ :- CreditRecipient(c);
      if chain.mintTotal + m.amount > U128_MAX {
        return Err(Panicked(MintTotalAdd));
      }
      chain := chain.(mintTotal := chain.mintTotal + m.amount);
      if token.mintTotal + m.amount > U128_MAX {
        return Err(Panicked(MintTotalAdd));
      }
      token := token.(mintTotal := token.mintTotal + m.amount);

      limiter :- Charge(limiter, hour, m.amount);

      stored := stored.(log := stored.log + [Minted(id, m.nonce, m.toChainId, m.toAddress,
                                                    m.amount, hour)]);
      stored := stored.(chains := stored.chains[m.sourceChainId := chain],
                        tokens := stored.tokens[id := token],
                        limiters := stored.limiters[id := limiter]);
      return Ok(());
    }

    /** Verification on a working copy of the nonce account, which it may move. */
    method VerifyOn(rq: Request, n: u8) returns (r: Result<NonceCell>)
      ensures r == Approve(rq, n)
    {
      var nonce := new NonceAccount.Load(rq.cell);
      var _ :- Verify(rq, n, nonce);
      return Ok(nonce.View());
    }

    /** The limiter's check on a working copy of its account. */
    method Charge(limiter: ChainTokenLimiter, hour: u32, amount: u64)
      returns (r: Result<ChainTokenLimiter>)
      ensures var spec := Admit(limiter.ring, hour, amount);
              r == if spec.Ok? then Ok(limiter.(ring := spec.value)) else Err(spec.error)
    {
      var account := new LimiterAccount.Load(limiter);
      var _ :- account.CheckTransfer(hour, amount);
      return Ok(account.View());
    }

    /** Finds the recipient's accounts, opens its token account if needed and mints to it. */
    method CreditRecipient(c: MintCall) returns (r: Result<()>)
      modifies this`stored
      ensures var spec := CreditMint(old(stored), c);
              if spec.Ok?
              then r == Ok(())
                   && stored == old(stored).(mints := old(stored).mints[c.msg.toChainId := spec.value])
              else r == Err(spec.error)
      ensures r.Ok? ==>
                && c.msg.toChainId in old(stored).mints && c.msg.toChainId in stored.mints
                && Credited(old(stored).mints[c.msg.toChainId], stored.mints[c.msg.toChainId],
                            c.msg.toAddress, c.msg.amount)
    {
      if CreditMint(stored, c).Ok? {
        CreditByRule(stored, c);
      }
      var m := c.msg;
      var _ :- GetMintAccounts(c.remaining, Wallet(m.toAddress),
                               SbtcAta(m.toAddress, m.toChainId), SbtcMint(m.toChainId));
      var sbtc :- LoadMint(m.toChainId);
      sbtc := OpenAta(sbtc, m.toAddress);
      StoreMint(m.toChainId, sbtc);
      sbtc :- MintTo(sbtc, m.toAddress, m.amount);
      StoreMint(m.toChainId, sbtc);
      return Ok(());
    }

    method LoadMint(d: u8) returns (r: Result<Sbtc>)
      ensures r == if d in stored.mints then Ok(stored.mints[d]) else Err(TokenProgramRefused)
    {
      if d !in stored.mints {
        return Err(TokenProgramRefused);
      }
      return Ok(stored.mints[d]);
    }

    method StoreMint(d: u8, sbtc: Sbtc)
      modifies this`stored
      ensures stored == old(stored).(mints := old(stored).mints[d := sbtc])
    {
      stored := stored.(mints := stored.mints[d := sbtc]);
    }

    method WithdrawBtc(c: WithdrawCall) returns (r: Result<()>)
      modifies this`stored
      ensures Handles(r, stored, State.WithdrawBtc(old(stored), c, writeBack))
    {
      var m := c.msg;
      var _ :- WithdrawGuards(stored, c);
      if |m.toAddress| > MAX_STRING_LENGTH {
        return Err(InvalidAddress);
      }
      var nonce := stored.withdrawNonce;
      if nonce + 1 > U64_MAX {
        return Err(Panicked(NonceAdd));
      }
      nonce := nonce + 1;
      var recipient := stored.bridges[m.chainId].feeRecipient;
      var _ :- GetWithdrawAccounts(c.remaining, SbtcAta(m.fromAddress, m.chainId),
                                   Wallet(recipient), SbtcAta(recipient, m.chainId),
                                   SbtcMint(m.chainId));
      r := FinishWithdrawal(c, nonce);
    }

    /** The withdraw handler after the account lookup, with the moved working copy of the nonce. */
    method FinishWithdrawal(c: WithdrawCall, nonce: u64) returns (r: Result<()>)
      requires c.msg.chainId in stored.bridges && c.msg.toChainId in stored.chains
      requires c.Target() in stored.tokens && nonce == stored.withdrawNonce + 1
      modifies this`stored
      ensures Handles(r, stored, SettleWithdrawal(old(stored), c, writeBack))
    {
      var m, id := c.msg, c.Target();
      var chain, token := stored.chains[m.toChainId], stored.tokens[id];
      var recipient := stored.bridges[m.chainId].feeRecipient;
      var fee := Fee(m.amount, token.feePercentage);
      if fee > m.amount {
        return Err(Panicked(FeeSubtract));
      }
      var amount := m.amount - fee;
      var _ :- ChargeUser(m.chainId, c.user, recipient, fee, amount);
      r := TakeOffTotals(c, chain, token, fee, nonce);
    }

    /** The end of the withdraw handler: the totals fall on the working copies, the withdrawal is
        logged, and what is mutable is stored. */
    method TakeOffTotals(c: WithdrawCall, loadedChain: ChainConfig, loadedToken: TokenConfig,
                         fee: u64, nonce: u64) returns (r: Result<()>)
      requires fee <= c.msg.amount
      modifies this`stored
      ensures var s, m, id := old(stored), c.msg, c.Target();
              if m.amount <= loadedChain.mintTotal && m.amount <= loadedToken.mintTotal
              then
                && r == Ok(())
                && stored == s.(
                     withdrawNonce := nonce,
                     log := s.log + [Withdrawn(id, nonce, m.chainId, m.fromAddress, m.amount - fee,
                                               fee, m.amount)],
                     chains := if writeBack
                               then s.chains[m.toChainId :=
                                      loadedChain.(mintTotal := loadedChain.mintTotal - m.amount)]
                               else s.chains,
                     tokens := if writeBack
                               then s.tokens[id :=
                                      loadedToken.(mintTotal := loadedToken.mintTotal - m.amount)]
                               else s.tokens)
              else r == Err(Panicked(MintTotalSubtract))
    {
      var m, id, amount := c.msg, c.Target(), c.msg.amount - fee;
      var chain, token := loadedChain, loadedToken;
      if amount + fee > chain.mintTotal {
        return Err(Panicked(MintTotalSubtract));
      }
      chain := chain.(mintTotal := chain.mintTotal - (amount + fee));
      if amount + fee > token.mintTotal {
        return Err(Panicked(MintTotalSubtract));
      }
      token := token.(mintTotal := token.mintTotal - (amount + fee));

      stored := stored.(log := stored.log + [Withdrawn(id, nonce, m.chainId, m.fromAddress, amount,
                                                       fee, m.amount)]);
      stored := stored.(withdrawNonce := nonce);
      if writeBack {
        stored := stored.(chains := stored.chains[m.toChainId := chain],
                          tokens := stored.tokens[id := token]);
      }
      return Ok(());
    }

    /** Opens the recipient's token account if needed, pays it the fee and burns the rest. */
    method ChargeUser(d: u8, user: Pubkey, recipient: Pubkey, fee: u64, amount: u64)
      returns (r: Result<()>)
      modifies this`stored
      ensures d !in old(stored).mints ==> r == Err(TokenProgramRefused)
      ensures d in old(stored).mints ==>
                var spec := ChargeAndBurn(old(stored).mints[d], user, recipient, fee, amount);
                if spec.Ok?
                then r == Ok(()) && stored == old(stored).(mints := old(stored).mints[d := spec.value])
                else r == Err(spec.error)
      ensures r.Ok? ==>
                && d in old(stored).mints && d in stored.mints
                && Charged(old(stored).mints[d], stored.mints[d], user, recipient, fee, fee + amount)
    {
      if d in stored.mints && ChargeAndBurn(stored.mints[d], user, recipient, fee, amount).Ok? {
        ChargeByRule(stored.mints[d], user, recipient, fee, amount);
      }
      var sbtc :- LoadMint(d);
      sbtc := OpenAta(sbtc, recipient);
      StoreMint(d, sbtc);
      sbtc :- TransferSbtc(sbtc, user, recipient, fee);
      StoreMint(d, sbtc);
      sbtc :- Burn(sbtc, user, amount);
      StoreMint(d, sbtc);
      return Ok(());
    }

    method AddOrUpdateLimiterWithSignatures(c: LimitCall, hour: u32) returns (r: Result<()>)
      modifies this`stored
      ensures Handles(r, stored, UpdateLimiter(old(stored), c, hour))
    {
      var id := c.Target();
      var _ :- LimitGuards(stored, c);
      var limiter := new LimiterAccount.Load(if id in stored.limiters then stored.limiters[id]
                                             else BLANK);

      var cell :- VerifyOn(c.Request(stored), c.signatures);
      var nonce := if cell.Counter? then cell.nonce else stored.limitNonce;
      limiter.SetLimit(c.msg.chainId, c.msg.tokenId, c.msg.totalLimit, hour);

      stored := stored.(log := stored.log + [LimitSet(id, c.msg.nonce, nonce, c.msg.totalLimit,
                                                      hour)]);
      stored := stored.(limitNonce := nonce,
                        limiters := stored.limiters[id := limiter.View()]);
      return Ok(());
    }

    // ---------- configuration ----------

    method CreateBridgeConfig(c: ConfigCall) returns (r: Result<()>)
      modifies this`stored
      ensures Handles(r, stored, State.CreateBridgeConfig(old(stored), c))
    {
      var _ :- ConfigGuards(stored, c);
      StoreMint(c.chainId, Sbtc(0, map[]));
      var bridge := BridgeConfig(true, false, c.chainId, c.administrator, c.feeRecipient);
      stored := stored.(bridges := stored.bridges[c.chainId := bridge]);
      var _ :- CreateRecords(c.Entries(), c.chainId, c.remaining);
      return Ok(());
    }

    /** The batch loop. An entry's records are created at once, before the next is looked at. */
    method CreateRecords(es: seq<TokenEntry>, self: u8, remaining: seq<Address>)
      returns (r: Result<()>)
      modifies this`stored
      ensures var s := old(stored);
              var spec := AddEntries(Records(s.tokens, s.chains, s.funded), es, self, remaining);
              if spec.Ok?
              then r == Ok(()) && stored == s.(tokens := spec.value.tokens, chains := spec.value.chains)
              else r == Err(spec.error)
    {
      ghost var before := Records(stored.tokens, stored.chains, stored.funded);
      for i := 0 to |es|
        invariant stored == old(stored).(tokens := stored.tokens, chains := stored.chains)
        invariant AddEntries(before, es[..i], self, remaining)
               == Ok(Records(stored.tokens, stored.chains, stored.funded))
      {
        var e := es[i];
        EntryStep(before, es, self, remaining, i);
        if e.id.chain == self {
          return Err(ChainIdShouldDiffFromSolanaChainId);
        }
        if TokenRecord(e.id) !in remaining {
          return Err(TokenConfigAddressMissing);
        }
        if e.id !in stored.tokens && TokenRecord(e.id) !in stored.funded {
          if e.feePercentage >= FEE_DENOMINATOR {
            return Err(BiggerThanFeeDenominator);
          }
          stored := stored.(tokens := stored.tokens[e.id := NewToken(e)]);
        }
        if ChainRecord(e.id.chain) !in remaining {
          return Err(SupportedChainAddressMissing);
        }
        if e.id.chain !in stored.chains && ChainRecord(e.id.chain) !in stored.funded {
          stored := stored.(chains := stored.chains[e.id.chain := NewChain(e.id.chain)]);
        }
      }
      assert es[..|es|] == es;
      return Ok(());
    }

    method AddOrUpdateChain(payer: Pubkey, chainId: u8, target: u8, supported: bool)
      returns (r: Result<()>)
      modifies this`stored
      ensures Handles(r, stored, State.AddOrUpdateChain(old(stored), payer, chainId, target, supported))
    {
      var _ :- AdminGuard(stored, payer, chainId);
      var chain := if target in stored.chains then stored.chains[target]
                   else ChainConfig(false, 0, false, 0);
      if stored.bridges[chainId].chainId == target {
        return Err(ChainIdShouldDiffFromSolanaChainId);
      }
      if !chain.isInitialized {
        chain := chain.(chainId := target, mintTotal := 0);
        chain := chain.(supported := supported, isInitialized := true);
      } else {
        chain := chain.(supported := supported);
      }
      stored := stored.(chains := stored.chains[target := chain]);
      return Ok(());
    }

    method AddOrUpdateChainToken(payer: Pubkey, chainId: u8, id: TokenId, feePercentage: u64,
                                 minAmount: u64, paused: bool)
      returns (r: Result<()>)
      modifies this`stored
      ensures Handles(r, stored, AddOrUpdateToken(old(stored), payer, chainId, id, feePercentage,
                                                  minAmount, paused))
    {
      if chainId !in stored.bridges || id.chain !in stored.chains {
        return Err(AccountNotInitialized);
      }
      var _ :- AdminGuard(stored, payer, chainId);
      var token := if id in stored.tokens then stored.tokens[id]
                   else TokenConfig(false, false, TokenId(0, 0), false, 0, 0, 0);
      if stored.bridges[chainId].chainId == id.chain {
        return Err(ChainIdShouldDiffFromSolanaChainId);
      }
      if feePercentage >= FEE_DENOMINATOR {
        return Err(BiggerThanFeeDenominator);
      }
      if !token.isInitialized {
        token := token.(id := id, feePercentage := feePercentage, minAmount := minAmount);
        token := token.(native := false, mintTotal := 0, withdrawPaused := paused);
        token := token.(isInitialized := true);
      } else {
        token := token.(feePercentage := feePercentage, minAmount := minAmount);
        token := token.(withdrawPaused := paused);
      }
      stored := stored.(tokens := stored.tokens[id := token]);
      return Ok(());
    }

    // ---------- committee and submitters ----------

    method CreateBridgeCommittee(payer: Pubkey, chainId: u8, keys: seq<Pubkey>, stakes: seq<u16>,
                                 submitter: Pubkey, remaining: seq<Address>)
      returns (r: Result<()>)
      modifies this`stored
      ensures Handles(r, stored, CreateCommittee(old(stored), payer, chainId, keys, stakes,
                                                 submitter, remaining))
    {
      var _ :- AdminGuard(stored, payer, chainId);
      if |keys| >= 256 {
        return Err(CommitteeLengthExceedsLimit);
      }
      if |keys| != |stakes| {
        return Err(CommitteeAndStakeLengthMismatch);
      }
      var _ :- CreateMembers(keys, stakes, remaining);
      if submitter !in stored.submitters || !stored.submitters[submitter].isInitialized {
        stored := stored.(submitters :=
                            stored.submitters[submitter := Submitter(false, submitter, true)]);
      }
      return Ok(());
    }

    /** The committee loop. */
    method CreateMembers(keys: seq<Pubkey>, stakes: seq<u16>, remaining: seq<Address>)
      returns (r: Result<()>)
      requires |keys| == |stakes|
      modifies this`stored
      ensures var spec := AddMembers(old(stored).members, old(stored).funded, remaining, keys, stakes);
              if spec.Ok? then r == Ok(()) && stored == old(stored).(members := spec.value)
              else r == Err(spec.error)
    {
      ghost var before := stored.members;
      for i := 0 to |keys|
        invariant stored == old(stored).(members := stored.members)
        invariant AddMembers(before, stored.funded, remaining, keys[..i], stakes[..i])
               == Ok(stored.members)
      {
        MemberStep(before, stored.funded, remaining, keys, stakes, i);
        if CommitteeRecord(keys[i]) !in remaining {
          return Err(CommitteeConfigAddressMissing);
        }
        if keys[i] !in stored.members && CommitteeRecord(keys[i]) !in stored.funded {
          var member := Member(true, keys[i], stakes[i], false);
          stored := stored.(members := stored.members[keys[i] := member]);
        }
      }
      assert keys[..|keys|] == keys && stakes[..|keys|] == stakes;
      return Ok(());
    }

    method AddOrUpdateCommittee(payer: Pubkey, chainId: u8, key: Pubkey, stake: u16,
                                blocklisted: bool)
      returns (r: Result<()>)
      modifies this`stored
      ensures Handles(r, stored, AddOrUpdateMember(old(stored), payer, chainId, key, stake,
                                                   blocklisted))
    {
      var _ :- AdminGuard(stored, payer, chainId);
      var member := if key in stored.members then stored.members[key]
                    else Member(false, DEFAULT_KEY, 0, false);
      if !member.isInitialized {
        member := member.(isInitialized := true);
        member := member.(index := key, stake := stake, isBlocklisted := blocklisted);
      } else {
        member := member.(index := key, stake := stake, isBlocklisted := blocklisted);
      }
      stored := stored.(members := stored.members[key := member]);
      return Ok(());
    }

    method AddOrUpdateSubmitter(payer: Pubkey, chainId: u8, key: Pubkey, isSubmitter: bool)
      returns (r: Result<()>)
      modifies this`stored
      ensures Handles(r, stored, State.AddOrUpdateSubmitter(old(stored), payer, chainId, key,
                                                            isSubmitter))
      ensures r.Ok? <==> ByAdmin(old(stored), payer, chainId)
      ensures r.Ok? ==> forall k: Pubkey ::
                CanSubmit(stored, k) <==> if k == key then isSubmitter else CanSubmit(old(stored), k)
    {
      var _ :- AdminGuard(stored, payer, chainId);
      var record := if key in stored.submitters then stored.submitters[key]
                    else Submitter(false, DEFAULT_KEY, false);
      if !record.isInitialized {
        record := record.(submitter := key, isSubmitter := isSubmitter);
      } else {
        record := record.(isSubmitter := isSubmitter);
      }
      stored := stored.(submitters := stored.submitters[key := record]);
      return Ok(());
    }

    /** The token program, called by a holder and not by the bridge. */
    method MoveByHolder(solanaChain: u8, from: Pubkey, to: Pubkey, amount: u64)
      returns (r: Result<()>)
      modifies this`stored
      ensures Handles(r, stored, HolderTransfer(old(stored), solanaChain, from, to, amount))
    {
      var sbtc :- LoadMint(solanaChain);
      sbtc :- TransferSbtc(OpenAta(sbtc, to), from, to, amount);
      StoreMint(solanaChain, sbtc);
      return Ok(());
    }

    /** The system program, called by anyone. */
    method ReceiveLamports(address: Address) returns (r: Result<()>)
      modifies this`stored
      ensures Handles(r, stored, Ok(Fund(old(stored), address)))
    {
      stored := stored.(funded := stored.funded + {address});
      return Ok(());
    }
  }
}
