/** Runs for any keys, cap and fee rate, from the empty chain on. They show what the documentation
    does not lead one to expect: the limiter lets twice its cap through within 24 hours, a
    withdrawal does not lower the stored totals, more is burned towards a token than was minted
    from it, and a disabled submitter comes back. */
module Example {
  import opened Common
  import opened Codec
  import opened Ed25519
  import opened Limiter
  import opened LimiterWindow
  import opened Committee
  import opened Lookup
  import opened Fees
  import opened State
  import opened Flows
  import opened Sums
  import opened Limits
  import opened Invariants
  import opened Runs
  import opened Guarantees
  import opened Backing
  import opened Theorems

  /** Two tokens of chain 2, bridged to Solana chain 1. */
  const BTC: TokenId := TokenId(2, 7)
  const ETH: TokenId := TokenId(2, 8)

  /** Who takes part, the cap, and the fee rate. `signature` stands for a signature that the
      native program has checked. */
  datatype Cast = Cast(admin: Pubkey, fees: Pubkey, member: Pubkey, relay: Pubkey, user: Pubkey,
                       cap: u64, rate: u64, signature: seq<u8>)
  {
    predicate Fits() {
      && admin != DEFAULT_KEY && fees != DEFAULT_KEY && user != fees
      && 0 < cap && 2 * cap <= U64_MAX && rate < FEE_DENOMINATOR
      && |signature| == 64
    }

    // ---------- the transactions ----------

    function Config(): ConfigCall {
      ConfigCall(SUPER_ADMIN, 1, admin, fees, [7], [2], [rate], [0],
                 [TokenRecord(BTC), ChainRecord(2)])
    }

    function Founders(): Tx {
      CommitteeTx(admin, 1, [member], [TRANSFER_STAKE_REQUIRED], relay, [CommitteeRecord(member)])
    }

    /** Instruction 1 carries the member's signature on `msg`. */
    function Signed(msg: Message): seq<Instruction>
      requires Fits() && msg.CanEncode() && |msg.Encode()| <= U16_MAX
    {
      [Instruction(relay, 0, []), SdkFrame(member, signature, msg.Encode())]
    }

    function SetCap(token: u8, nonce: u64): LimitCall
      requires Fits()
    {
      var msg := UpdateLimiterMsg(3, 1, nonce, 1, 2, token, cap);
      LimitCall(relay, msg, 1, Signed(Limit(msg)), [CommitteeRecord(member)])
    }

    function Deposit(token: u8, nonce: u64): MintCall
      requires Fits()
    {
      var msg := MintSbtcMessage(0, 1, nonce, 2, token, [], 1, user, cap);
      MintCall(relay, msg, 1, Signed(Mint(msg)),
               [CommitteeRecord(member), Wallet(user), SbtcAta(user, 1), SbtcMint(1)])
    }

    function Withdrawal(): WithdrawCall {
      WithdrawCall(user, WithdrawMessage(2, 7, [], 1, user, cap),
                   [SbtcAta(user, 1), Wallet(fees), SbtcAta(fees, 1), SbtcMint(1)])
    }

    // ---------- the accounts they leave ----------

    function Token(id: TokenId): TokenConfig { NewToken(TokenEntry(id, rate, 0)) }

    function Configured(): Accounts {
      GENESIS.(
        bridges := map[1 := BridgeConfig(true, false, 1, admin, fees)],
        chains := map[2 := NewChain(2)],
        tokens := map[BTC := Token(BTC)],
        mints := map[1 := Sbtc(0, map[])])
    }

    function Members(): Members {
      map[member := Member(true, member, TRANSFER_STAKE_REQUIRED, false)]
    }

    function Founded(): Accounts {
      Configured().(members := Members(), submitters := map[relay := Submitter(false, relay, true)])
    }

    /** After `total` was minted to the user, with the limiter's ring and the log. */
    function Deposited(total: u64, ring: Ring, nonces: set<MintNonce>, log: seq<Receipt>): Accounts {
      Founded().(
        chains := map[2 := NewChain(2).(mintTotal := total)],
        tokens := map[BTC := Token(BTC).(mintTotal := total)],
        limiters := map[BTC := ChainTokenLimiter(true, 1, 7, ring)],
        mints := map[1 := Holding(user, total)],
        limitNonce := 1,
        mintNonces := nonces,
        log := log)
    }
  }

  /** A mint of which one owner holds everything. */
  function Holding(owner: Pubkey, total: u64): Sbtc {
    Sbtc(total, if total == 0 then map[] else map[owner := total])
  }

  // ---------- approval ----------

  lemma WeightOfOne(members: Members, k: Pubkey)
    requires k in members
    ensures Weight(members, {k}) == members[k].stake
  {
    assert Stakes(members, {k}) == map[][k := members[k].stake];
    SumPut(map[], k, members[k].stake);
  }

  /** A member whose stake alone reaches the required one approves on its own. */
  lemma OneSignerApproves(rq: Request, k: Pubkey)
    requires Keyed(rq.members) && k in rq.members && rq.members[k].Active()
    requires |rq.ixs| == 2 && Attests(rq.ixs[1], rq.msg) && SignerOf(rq.ixs[1]) == k
    requires CommitteeRecord(k) in rq.remaining && rq.cell != Counter(U64_MAX)
    requires OperationOf(rq.msg.Type()) == Some(rq.op) && rq.cell.Equals(rq.msg.Nonce())
    requires RequiredStake(rq.msg).Ok? && RequiredStake(rq.msg).value <= rq.members[k].stake
    ensures Approve(rq, 1) == Ok(if rq.cell.Dummy? then Dummy else Counter(rq.cell.nonce + 1))
  {
    assert Stands(rq, 1);
    assert Keys(rq.ixs, 1) == [k];
    assert Signers(rq.ixs, 1) == {k};
    WeightOfOne(rq.members, k);
    ApproveIff(rq, 1);
  }

  lemma MemberApproves(x: Cast, rq: Request)
    requires x.Fits() && rq.msg.CanEncode() && |rq.msg.Encode()| <= U16_MAX
    requires rq.ixs == x.Signed(rq.msg) && rq.members == x.Members()
    requires CommitteeRecord(x.member) in rq.remaining && rq.cell != Counter(U64_MAX)
    requires OperationOf(rq.msg.Type()) == Some(rq.op) && rq.cell.Equals(rq.msg.Nonce())
    requires rq.op in {TokenTransfer, UpdateBridgeLimit}
    ensures Approve(rq, 1) == Ok(if rq.cell.Dummy? then Dummy else Counter(rq.cell.nonce + 1))
  {
    SdkFrameAttests(x.member, x.signature, rq.msg);
    OneSignerApproves(rq, x.member);
  }

  // ---------- step by step ----------

  lemma Configuring(x: Cast)
    requires x.Fits()
    ensures CreateBridgeConfig(GENESIS, x.Config()) == Ok(x.Configured())
  {
    var c, e := x.Config(), TokenEntry(BTC, x.rate, 0);
    assert c.Entries() == [e];
    assert AddEntries(Records(map[], map[], {}), [e][..0], 1, c.remaining) == Ok(Records(map[], map[], {}));
    assert AddEntries(Records(map[], map[], {}), [e], 1, c.remaining)
        == Ok(Records(map[BTC := NewToken(e)], map[2 := NewChain(2)], {}));
  }

  lemma Founding(x: Cast, hour: u32)
    requires x.Fits()
    ensures Execute(x.Configured(), x.Founders(), hour, false) == Ok(x.Founded())
  {
    var remaining, stakes := [CommitteeRecord(x.member)], [TRANSFER_STAKE_REQUIRED];
    assert AddMembers(map[], {}, remaining, [x.member][..0], stakes[..0]) == Ok(map[]);
    assert AddMembers(map[], {}, remaining, [x.member], stakes) == Ok(x.Members());
  }

  lemma LimitStep(s: Accounts, c: LimitCall, hour: u32, next: u64)
    requires LimitGuards(s, c).Ok? && Approve(c.Request(s), c.signatures) == Ok(Counter(next))
    ensures UpdateLimiter(s, c, hour) == Ok(AfterLimit(s, c, hour, next))
  {
  }

  lemma CapApproved(x: Cast, s: Accounts, token: u8, nonce: u64)
    requires x.Fits() && s.members == x.Members() && s.limitNonce == nonce < U64_MAX
    ensures Approve(x.SetCap(token, nonce).Request(s), x.SetCap(token, nonce).signatures)
         == Ok(Counter(nonce + 1))
  {
    MemberApproves(x, x.SetCap(token, nonce).Request(s));
  }

  lemma CapStored(x: Cast, hour: u32)
    requires x.Fits()
    ensures LimitGuards(x.Founded(), x.SetCap(7, 0)).Ok?
    ensures AfterLimit(x.Founded(), x.SetCap(7, 0), hour, 1)
         == x.Deposited(0, Fresh(hour, x.cap), {}, [LimitSet(BTC, 0, 1, x.cap, hour)])
  {
  }

  lemma Capping(x: Cast, hour: u32)
    requires x.Fits()
    ensures UpdateLimiter(x.Founded(), x.SetCap(7, 0), hour)
         == Ok(x.Deposited(0, Fresh(hour, x.cap), {}, [LimitSet(BTC, 0, 1, x.cap, hour)]))
  {
    CapApproved(x, x.Founded(), 7, 0);
    CapStored(x, hour);
    LimitStep(x.Founded(), x.SetCap(7, 0), hour, 1);
  }

  lemma MintStep(s: Accounts, c: MintCall, hour: u32, sbtc: Sbtc, ring: Ring)
    requires MintGuards(s, c).Ok? && Approve(c.Request(s), c.signatures).Ok?
    requires CreditMint(s, c) == Ok(sbtc)
    requires s.chains[c.msg.sourceChainId].mintTotal + c.msg.amount <= U128_MAX
    requires s.tokens[c.Source()].mintTotal + c.msg.amount <= U128_MAX
    requires Admit(s.limiters[c.Source()].ring, hour, c.msg.amount) == Ok(ring)
    ensures MintSbtc(s, c, hour) == Ok(AfterMint(NonceCreated(s, c), c, hour, sbtc, ring))
  {
  }

  lemma DepositApproved(x: Cast, s: Accounts, token: u8, nonce: u64)
    requires x.Fits() && s.members == x.Members()
    ensures Approve(x.Deposit(token, nonce).Request(s), x.Deposit(token, nonce).signatures).Ok?
  {
    MemberApproves(x, x.Deposit(token, nonce).Request(s));
  }

  lemma DepositPasses(x: Cast, total: u64, ring: Ring, nonces: set<MintNonce>, log: seq<Receipt>,
                      nonce: u64)
    requires x.Fits() && total + x.cap <= U64_MAX && MintNonce(2, nonce) !in nonces
    ensures var s, c := x.Deposited(total, ring, nonces, log), x.Deposit(7, nonce);
            && MintGuards(s, c).Ok? && c.msg.amount == x.cap
            && s.members == x.Members() && s.mints == map[1 := Holding(x.user, total)]
            && s.chains[c.msg.sourceChainId].mintTotal == s.tokens[c.Source()].mintTotal == total
            && s.limiters[c.Source()].ring == ring
  {
  }

  lemma CreditHolder(owner: Pubkey, total: u64, amount: u64)
    requires 0 < amount && total + amount <= U64_MAX
    ensures MintTo(OpenAta(Holding(owner, total), owner), owner, amount)
         == Ok(Holding(owner, total + amount))
  {
    assert OpenAta(Holding(owner, total), owner) == Sbtc(total, map[owner := total]);
    assert map[owner := total][owner := total + amount] == map[owner := total + amount];
  }

  lemma DepositCredited(x: Cast, s: Accounts, total: u64, token: u8, nonce: u64)
    requires x.Fits() && total + x.cap <= U64_MAX && s.mints == map[1 := Holding(x.user, total)]
    ensures CreditMint(s, x.Deposit(token, nonce)) == Ok(Holding(x.user, total + x.cap))
  {
    CreditHolder(x.user, total, x.cap);
  }

  lemma Overwritten<K, V>(k: K, a: V, b: V)
    ensures map[k := a][k := b] == map[k := b]
  {
  }

  lemma DepositStored(x: Cast, total: u64, ring: Ring, nonces: set<MintNonce>, log: seq<Receipt>,
                      nonce: u64, hour: u32, next: Ring)
    requires x.Fits() && total + x.cap <= U64_MAX
    ensures AfterMint(NonceCreated(x.Deposited(total, ring, nonces, log), x.Deposit(7, nonce)),
                      x.Deposit(7, nonce), hour, Holding(x.user, total + x.cap), next)
         == x.Deposited(total + x.cap, next, nonces + {MintNonce(2, nonce)},
                        log + [Minted(BTC, nonce, 1, x.user, x.cap, hour)])
  {
    Overwritten(1, Holding(x.user, total), Holding(x.user, total + x.cap));
    Overwritten(2, NewChain(2).(mintTotal := total), NewChain(2).(mintTotal := total + x.cap));
    Overwritten(BTC, x.Token(BTC).(mintTotal := total), x.Token(BTC).(mintTotal := total + x.cap));
    Overwritten(BTC, ChainTokenLimiter(true, 1, 7, ring), ChainTokenLimiter(true, 1, 7, next));
  }

  lemma Depositing(x: Cast, total: u64, ring: Ring, nonces: set<MintNonce>, log: seq<Receipt>,
                   nonce: u64, hour: u32, next: Ring)
    requires x.Fits() && total + x.cap <= U64_MAX && MintNonce(2, nonce) !in nonces
    requires Admit(ring, hour, x.cap) == Ok(next)
    ensures MintSbtc(x.Deposited(total, ring, nonces, log), x.Deposit(7, nonce), hour)
         == Ok(x.Deposited(total + x.cap, next, nonces + {MintNonce(2, nonce)},
                           log + [Minted(BTC, nonce, 1, x.user, x.cap, hour)]))
  {
    var s, c := x.Deposited(total, ring, nonces, log), x.Deposit(7, nonce);
    DepositPasses(x, total, ring, nonces, log, nonce);
    DepositApproved(x, s, 7, nonce);
    DepositCredited(x, s, total, 7, nonce);
    DepositStored(x, total, ring, nonces, log, nonce, hour, next);
    MintStep(s, c, hour, Holding(x.user, total + x.cap), next);
  }

  lemma WithdrawStep(s: Accounts, c: WithdrawCall, sbtc: Sbtc)
    requires WithdrawGuards(s, c).Ok? && |c.msg.toAddress| <= MAX_STRING_LENGTH
    requires s.withdrawNonce < U64_MAX && c.msg.chainId in s.mints
    requires var recipient := s.bridges[c.msg.chainId].feeRecipient;
             && WithdrawLookup(c.remaining, SbtcAta(c.msg.fromAddress, c.msg.chainId),
                               Wallet(recipient), SbtcAta(recipient, c.msg.chainId),
                               SbtcMint(c.msg.chainId)).Ok?
             && FeeFor(s, c) <= c.msg.amount
             && ChargeAndBurn(s.mints[c.msg.chainId], c.user, recipient, FeeFor(s, c),
                              c.msg.amount - FeeFor(s, c)) == Ok(sbtc)
    ensures WithdrawBtc(s, c, false) == Ok(AfterWithdraw(s, c, FeeFor(s, c), sbtc, false))
  {
  }

  lemma ChargeHolder(owner: Pubkey, recipient: Pubkey, fee: u64, rest: u64, kept: u64)
    requires owner != recipient && 0 < fee + rest + kept <= U64_MAX
    ensures ChargeAndBurn(Holding(owner, fee + rest + kept), owner, recipient, fee, rest)
         == Ok(Sbtc(fee + kept, map[owner := kept, recipient := fee]))
  {
    var total := fee + rest + kept;
    var open := OpenAta(Holding(owner, total), recipient);
    assert open == Sbtc(total, map[owner := total, recipient := 0]);
    var paid := map[owner := rest + kept, recipient := fee];
    assert open.balances[owner := rest + kept][recipient := fee] == paid;
    assert TransferSbtc(open, owner, recipient, fee) == Ok(Sbtc(total, paid));
    assert paid[owner := kept] == map[owner := kept, recipient := fee];
  }

  /** What the withdrawal needs of the accounts: two caps were minted from the chain to the user,
      `minted` of them from the token. */
  predicate BothMinted(x: Cast, s: Accounts, minted: u64)
    requires x.Fits()
  {
    && s.bridges == map[1 := BridgeConfig(true, false, 1, x.admin, x.fees)]
    && 2 in s.chains && s.chains[2] == NewChain(2).(mintTotal := 2 * x.cap)
    && BTC in s.tokens && s.tokens[BTC] == x.Token(BTC).(mintTotal := minted)
    && s.mints == map[1 := Holding(x.user, 2 * x.cap)]
    && s.withdrawNonce == 0
  }

  lemma WithdrawalPasses(x: Cast, s: Accounts, minted: u64)
    requires x.Fits() && BothMinted(x, s, minted) && x.cap <= minted
    ensures WithdrawGuards(s, x.Withdrawal()).Ok?
    ensures WithdrawLookup(x.Withdrawal().remaining, SbtcAta(x.user, 1), Wallet(x.fees),
                           SbtcAta(x.fees, 1), SbtcMint(1)).Ok?
    ensures FeeFor(s, x.Withdrawal()) == Fee(x.cap, x.rate)
  {
  }

  /** The mint after the user withdrew one of the two caps. */
  function Charged(x: Cast, fee: u64): Sbtc
    requires x.Fits() && fee <= x.cap
  {
    Sbtc(x.cap + fee, map[x.user := x.cap, x.fees := fee])
  }

  function Withdrew(x: Cast, s: Accounts, fee: u64): Accounts
    requires x.Fits() && fee <= x.cap
  {
    s.(withdrawNonce := 1,
       mints := map[1 := Charged(x, fee)],
       log := s.log + [Withdrawn(BTC, 1, 1, x.user, x.cap - fee, fee, x.cap)])
  }

  lemma WithdrawalStored(x: Cast, s: Accounts, minted: u64, fee: u64)
    requires x.Fits() && BothMinted(x, s, minted) && fee <= x.cap <= minted
    ensures AfterWithdraw(s, x.Withdrawal(), fee, Charged(x, fee), false) == Withdrew(x, s, fee)
  {
    Overwritten(1, Holding(x.user, 2 * x.cap), Charged(x, fee));
  }

  lemma WithdrawalCharged(x: Cast, s: Accounts, minted: u64, fee: u64)
    requires x.Fits() && BothMinted(x, s, minted) && fee <= x.cap
    ensures ChargeAndBurn(s.mints[1], x.user, x.fees, fee, x.cap - fee) == Ok(Charged(x, fee))
  {
    ChargeHolder(x.user, x.fees, fee, x.cap - fee, x.cap);
  }

  /** The withdrawal moves balances, its nonce and the log; the stored totals stay. */
  lemma Withdrawing(x: Cast, s: Accounts, minted: u64, fee: u64)
    requires x.Fits() && BothMinted(x, s, minted) && fee == Fee(x.cap, x.rate) <= x.cap <= minted
    ensures WithdrawBtc(s, x.Withdrawal(), false) == Ok(Withdrew(x, s, fee))
  {
    WithdrawalPasses(x, s, minted);
    WithdrawalCharged(x, s, minted, fee);
    WithdrawalStored(x, s, minted, fee);
    WithdrawStep(s, x.Withdrawal(), Charged(x, fee));
  }

  // ---------- the whole run ----------

  /** One more transaction that commits. */
  lemma Next(es: seq<Event>, s: Accounts, tx: Tx, time: u32, s': Accounts)
    requires Run(es, false) == s && Execute(s, tx, CurrentHour(time), false) == Ok(s')
    ensures Run(es + [Event(time, tx)], false) == s'
  {
    assert (es + [Event(time, tx)])[..|es|] == es;
  }

  lemma MintNext(es: seq<Event>, s: Accounts, c: MintCall, time: u32, s': Accounts)
    requires Run(es, false) == s && MintSbtc(s, c, CurrentHour(time)) == Ok(s')
    ensures Run(es + [Event(time, MintTx(c))], false) == s'
  {
    Next(es, s, MintTx(c), time, s');
  }

  lemma LimitNext(es: seq<Event>, s: Accounts, c: LimitCall, time: u32, s': Accounts)
    requires Run(es, false) == s && UpdateLimiter(s, c, CurrentHour(time)) == Ok(s')
    ensures Run(es + [Event(time, LimitTx(c))], false) == s'
  {
    Next(es, s, LimitTx(c), time, s');
  }

  lemma RunFounding(x: Cast, time: u32) returns (es: seq<Event>)
    requires x.Fits()
    ensures Run(es, false) == x.Founded() && |es| == 2 && es[0].time == es[1].time == time
  {
    var first := [] + [Event(time, ConfigTx(x.Config()))];
    Configuring(x);
    Next([], GENESIS, ConfigTx(x.Config()), time, x.Configured());
    Founding(x, CurrentHour(time));
    Next(first, x.Configured(), x.Founders(), time, x.Founded());
    es := first + [Event(time, x.Founders())];
  }

  lemma RunCap(x: Cast, es: seq<Event>, time: u32, hour: u32, ring: Ring, log: seq<Receipt>)
    returns (e: Event)
    requires x.Fits() && Run(es, false) == x.Founded() && hour == CurrentHour(time)
    requires ring == Fresh(hour, x.cap) && log == [LimitSet(BTC, 0, 1, x.cap, hour)]
    ensures e.time == time && Run(es + [e], false) == x.Deposited(0, ring, {}, log)
  {
    e := Event(time, LimitTx(x.SetCap(7, 0)));
    Capping(x, hour);
    LimitNext(es, x.Founded(), x.SetCap(7, 0), time, x.Deposited(0, ring, {}, log));
  }

  lemma MintEvent(x: Cast, es: seq<Event>, total: u64, ring: Ring, nonces: set<MintNonce>,
                  log: seq<Receipt>, nonce: u64, time: u32, hour: u32, next: Ring)
    returns (e: Event)
    requires x.Fits() && total + x.cap <= U64_MAX && MintNonce(2, nonce) !in nonces
    requires Run(es, false) == x.Deposited(total, ring, nonces, log)
    requires hour == CurrentHour(time) && Admit(ring, hour, x.cap) == Ok(next)
    ensures e.time == time
    ensures Run(es + [e], false)
         == x.Deposited(total + x.cap, next, nonces + {MintNonce(2, nonce)},
                        log + [Minted(BTC, nonce, 1, x.user, x.cap, hour)])
  {
    e := Event(time, MintTx(x.Deposit(7, nonce)));
    Depositing(x, total, ring, nonces, log, nonce, hour, next);
    MintNext(es, x.Deposited(total, ring, nonces, log), x.Deposit(7, nonce), time,
             x.Deposited(total + x.cap, next, nonces + {MintNonce(2, nonce)},
                         log + [Minted(BTC, nonce, 1, x.user, x.cap, hour)]));
  }

  lemma SameDeposit(x: Cast, s: Accounts, total: u64, ring: Ring, nonces: set<MintNonce>,
                    log: seq<Receipt>, r: Receipt, n: MintNonce, total': u64,
                    nonces': set<MintNonce>, log': seq<Receipt>)
    requires total + x.cap == total' && nonces' == nonces + {n} && log' == log + [r]
    requires s == x.Deposited(total + x.cap, ring, nonces + {n}, log + [r])
    ensures s == x.Deposited(total', ring, nonces', log')
  {
  }

  lemma RunMint(x: Cast, es: seq<Event>, total: u64, ring: Ring, nonces: set<MintNonce>,
                log: seq<Receipt>, nonce: u64, time: u32, hour: u32, next: Ring)
    returns (e: Event, total': u64, nonces': set<MintNonce>, log': seq<Receipt>)
    requires x.Fits() && total + x.cap <= U64_MAX && MintNonce(2, nonce) !in nonces
    requires Run(es, false) == x.Deposited(total, ring, nonces, log)
    requires hour == CurrentHour(time) && Admit(ring, hour, x.cap) == Ok(next)
    ensures e.time == time && total' == total + x.cap
    ensures nonces' == nonces + {MintNonce(2, nonce)}
    ensures log' == log + [Minted(BTC, nonce, 1, x.user, x.cap, hour)]
    ensures Run(es + [e], false) == x.Deposited(total', next, nonces', log')
  {
    e := MintEvent(x, es, total, ring, nonces, log, nonce, time, hour, next);
    total', nonces' := total + x.cap, nonces + {MintNonce(2, nonce)};
    log' := log + [Minted(BTC, nonce, 1, x.user, x.cap, hour)];
    SameDeposit(x, Run(es + [e], false), total, next, nonces, log,
                Minted(BTC, nonce, 1, x.user, x.cap, hour), MintNonce(2, nonce), total', nonces', log');
  }

  lemma RunTwoMints(x: Cast, es: seq<Event>, ring: Ring, log: seq<Receipt>, first: u32, second: u32,
                    hour: u32, r1: Ring, r2: Ring)
    returns (e: Event, e': Event, total: u64, nonces: set<MintNonce>, log': seq<Receipt>)
    requires x.Fits() && hour == CurrentHour(first) < U32_MAX && CurrentHour(second) == hour + 1
    requires Run(es, false) == x.Deposited(0, ring, {}, log)
    requires Admit(ring, hour, x.cap) == Ok(r1) && Admit(r1, hour + 1, x.cap) == Ok(r2)
    ensures e.time == first && e'.time == second && total == 2 * x.cap
    ensures log' == log + [Minted(BTC, 5, 1, x.user, x.cap, hour)]
                    + [Minted(BTC, 6, 1, x.user, x.cap, hour + 1)]
    ensures Run(es + [e] + [e'], false) == x.Deposited(total, r2, nonces, log')
  {
    e, total, nonces, log' := RunMint(x, es, 0, ring, {}, log, 5, first, hour, r1);
    e', total, nonces, log' := RunMint(x, es + [e], total, r1, nonces, log', 6, second, hour + 1, r2);
  }

  lemma RunToCap(x: Cast, time: u32, hour: u32, ring: Ring, log: seq<Receipt>)
    returns (es: seq<Event>)
    requires x.Fits() && hour == CurrentHour(time)
    requires ring == Fresh(hour, x.cap) && log == [LimitSet(BTC, 0, 1, x.cap, hour)]
    ensures |es| == 3 && es[0].time == es[1].time == es[2].time == time
    ensures Run(es, false) == x.Deposited(0, ring, {}, log)
  {
    es := RunFounding(x, time);
    var e := RunCap(x, es, time, hour, ring, log);
    es := es + [e];
  }

  lemma DepositedTwice(x: Cast, s: Accounts, total: u64, ring: Ring, nonces: set<MintNonce>,
                       log: seq<Receipt>)
    requires x.Fits() && total == 2 * x.cap && s == x.Deposited(total, ring, nonces, log)
    ensures BothMinted(x, s, total) && s.log == log && BTC in s.limiters && s.limiters[BTC].ring == ring
  {
  }

  lemma FiveInOrder(es: seq<Event>, first: u32, second: u32)
    requires CurrentHour(first) < CurrentHour(second) && |es| == 5 && es[4].time == second
    requires es[0].time == es[1].time == es[2].time == es[3].time == first
    ensures Reaches(es, second)
  {
    if second <= first {
      HoursFollowTime(second, first);
    }
  }

  /** From the empty chain to two committed mints, for any keys, cap and times. */
  lemma RunToMints(x: Cast, first: u32, second: u32, hour: u32)
    returns (es: seq<Event>, s: Accounts)
    requires x.Fits() && hour == CurrentHour(first) < U32_MAX && CurrentHour(second) == hour + 1
    ensures Reaches(es, second) && Run(es, false) == s && BothMinted(x, s, 2 * x.cap)
    ensures s.log == [LimitSet(BTC, 0, 1, x.cap, hour)] + [Minted(BTC, 5, 1, x.user, x.cap, hour)]
                     + [Minted(BTC, 6, 1, x.user, x.cap, hour + 1)]
    ensures BTC in s.limiters && s.limiters[BTC].ring.limit == x.cap
  {
    var ring, l0 := Fresh(hour, x.cap), [LimitSet(BTC, 0, 1, x.cap, hour)];
    var front := RunToCap(x, first, hour, ring, l0);
    TwoCapsInTwoHours(hour, x.cap);
    var r1 := Admit(ring, hour, x.cap).value;
    var r2 := Admit(r1, hour + 1, x.cap).value;
    var e, e', total, nonces, log;
    e, e', total, nonces, log := RunTwoMints(x, front, ring, l0, first, second, hour, r1, r2);
    es := front + [e] + [e'];
    FiveInOrder(es, first, second);
    s := Run(es, false);
    DepositedTwice(x, s, total, r2, nonces, log);
  }

  lemma WithdrawNext(es: seq<Event>, s: Accounts, c: WithdrawCall, time: u32, s': Accounts)
    requires Run(es, false) == s && WithdrawBtc(s, c, false) == Ok(s')
    ensures Run(es + [Event(time, WithdrawTx(c))], false) == s'
  {
    Next(es, s, WithdrawTx(c), time, s');
  }

  /** A withdrawal of one of the two caps, and its fee. */
  lemma RunWithdrawal(x: Cast, es: seq<Event>, s: Accounts, minted: u64, time: u32)
    returns (e: Event, fee: u64)
    requires x.Fits() && Run(es, false) == s && BothMinted(x, s, minted) && x.cap <= minted
    ensures e == Event(time, WithdrawTx(x.Withdrawal())) && fee == Fee(x.cap, x.rate) < x.cap
    ensures WithdrawBtc(s, x.Withdrawal(), false) == Ok(Withdrew(x, s, fee))
    ensures Run(es + [e], false) == Withdrew(x, s, fee)
  {
    fee := Fee(x.cap, x.rate);
    FeeIsSafe(x.cap, x.rate);
    e := Event(time, WithdrawTx(x.Withdrawal()));
    Withdrawing(x, s, minted, fee);
    WithdrawNext(es, s, x.Withdrawal(), time, Withdrew(x, s, fee));
  }

  lemma TotalsAfter(x: Cast, s: Accounts, minted: u64, s': Accounts, fee: u64)
    requires x.Fits() && BothMinted(x, s, minted) && fee <= x.cap && s' == Withdrew(x, s, fee)
    ensures ChainTotal(s'.chains, BTC.chain) == 2 * x.cap && TokenTotal(s'.tokens, BTC) == minted
    ensures Supply(s'.mints, 1) == x.cap + fee
  {
  }

  lemma EntriesOfMints(log: seq<Receipt>, a: Receipt, b: Receipt, c: Receipt, id: TokenId)
    requires log == [a] + [b] + [c] && !a.Minted?
    requires b.Minted? && b.source == id && c.Minted? && c.source == id
    ensures EntriesFrom(log, id) == [Entry(b.hour, b.amount), Entry(c.hour, c.amount)]
  {
    assert log[..2] == [a] + [b] && log[..2][..1] == [a] && [a][..0] == [];
    assert EntriesFrom([a], id) == [];
    assert EntriesFrom([a] + [b], id) == [Entry(b.hour, b.amount)];
  }

  /** The cap is not a rolling cap: for any cap there is a run whose last 24 hours hold twice it. */
  lemma TwiceTheCap(x: Cast, first: u32, second: u32, hour: u32) returns (es: seq<Event>)
    requires x.Fits() && hour == CurrentHour(first) < U32_MAX && CurrentHour(second) == hour + 1
    ensures Reaches(es, second)
    ensures var s := Run(es, false);
            && BTC in s.limiters && s.limiters[BTC].ring.limit == x.cap
            && WindowTotal(EntriesFrom(s.log, BTC), CurrentHour(second)) == 2 * x.cap
  {
    var s;
    es, s := RunToMints(x, first, second, hour);
    EntriesOfMints(s.log, LimitSet(BTC, 0, 1, x.cap, hour), Minted(BTC, 5, 1, x.user, x.cap, hour),
                   Minted(BTC, 6, 1, x.user, x.cap, hour + 1), BTC);
    WindowOfTwo(Entry(hour, x.cap), Entry(hour + 1, x.cap), hour + 1);
  }

  lemma ClockedThen(es: seq<Event>, e: Event)
    requires Reaches(es, e.time)
    ensures Reaches(es + [e], e.time)
  {
  }

  /** A withdrawal does not lower the stored totals: of the two caps minted one is withdrawn, its
      fee kept in circulation and the rest burned, and the chain total still says two. */
  lemma TotalsStay(x: Cast, first: u32, second: u32, hour: u32) returns (es: seq<Event>, fee: u64)
    requires x.Fits() && hour == CurrentHour(first) < U32_MAX && CurrentHour(second) == hour + 1
    ensures Reaches(es, second) && fee < x.cap
    ensures var s := Run(es, false);
            && ChainTotal(s.chains, BTC.chain) == TokenTotal(s.tokens, BTC) == 2 * x.cap
            && Supply(s.mints, 1) == x.cap + fee
  {
    var front, s := RunToMints(x, first, second, hour);
    var e;
    e, fee := RunWithdrawal(x, front, s, 2 * x.cap, second);
    TotalsAfter(x, s, 2 * x.cap, Run(front + [e], false), fee);
    es := front + [e];
    ClockedThen(front, e);
  }

  // ---------- burned beyond what was minted ----------

  /** What a second token of the chain needs of the accounts after the first was minted. */
  predicate OneMinted(x: Cast, s: Accounts)
    requires x.Fits()
  {
    && s.bridges == map[1 := BridgeConfig(true, false, 1, x.admin, x.fees)]
    && 2 in s.chains && s.chains[2] == NewChain(2).(mintTotal := x.cap)
    && BTC in s.tokens && s.tokens[BTC] == x.Token(BTC).(mintTotal := x.cap)
    && s.members == x.Members() && CanSubmit(s, x.relay)
    && s.mints == map[1 := Holding(x.user, x.cap)] && s.mintNonces == {MintNonce(2, 5)}
    && s.withdrawNonce == 0
  }

  predicate SecondTokenReady(x: Cast, s: Accounts) {
    ETH in s.tokens && s.tokens[ETH] == x.Token(ETH)
  }

  lemma DepositedOnce(x: Cast, s: Accounts, total: u64, ring: Ring, nonces: set<MintNonce>,
                      log: seq<Receipt>)
    requires x.Fits() && total == x.cap && nonces == {} + {MintNonce(2, 5)}
    requires s == x.Deposited(total, ring, nonces, log)
    ensures OneMinted(x, s) && s.limitNonce == 1 && ETH !in s.tokens && ETH !in s.limiters
  {
  }

  lemma AddingToken(x: Cast, s: Accounts, hour: u32)
    requires x.Fits() && OneMinted(x, s) && ETH !in s.tokens
    ensures Execute(s, TokenTx(x.admin, 1, ETH, x.rate, 0, false), hour, false)
         == Ok(s.(tokens := s.tokens[ETH := x.Token(ETH)]))
  {
  }

  lemma RunToken(x: Cast, es: seq<Event>, s: Accounts, time: u32) returns (e: Event, s': Accounts)
    requires x.Fits() && Run(es, false) == s && OneMinted(x, s)
    requires s.limitNonce == 1 && ETH !in s.tokens && ETH !in s.limiters
    ensures e.time == time && Run(es + [e], false) == s' && OneMinted(x, s')
    ensures SecondTokenReady(x, s') && s'.limitNonce == 1 && ETH !in s'.limiters
  {
    e, s' := Event(time, TokenTx(x.admin, 1, ETH, x.rate, 0, false)),
             s.(tokens := s.tokens[ETH := x.Token(ETH)]);
    AddingToken(x, s, CurrentHour(time));
    Next(es, s, e.tx, time, s');
  }

  lemma SecondCapPasses(x: Cast, s: Accounts)
    requires x.Fits() && OneMinted(x, s) && SecondTokenReady(x, s)
    ensures LimitGuards(s, x.SetCap(8, 1)).Ok?
  {
  }

  lemma SecondCapStored(x: Cast, s: Accounts, hour: u32, ring: Ring, s': Accounts)
    requires x.Fits() && OneMinted(x, s) && SecondTokenReady(x, s) && ETH !in s.limiters
    requires ring == Fresh(hour, x.cap) && s' == AfterLimit(s, x.SetCap(8, 1), hour, 2)
    ensures OneMinted(x, s') && SecondTokenReady(x, s')
    ensures ETH in s'.limiters && s'.limiters[ETH].ring == ring
  {
  }

  lemma RunSecondCap(x: Cast, es: seq<Event>, s: Accounts, time: u32, hour: u32, ring: Ring)
    returns (e: Event, s': Accounts)
    requires x.Fits() && Run(es, false) == s && OneMinted(x, s) && SecondTokenReady(x, s)
    requires s.limitNonce == 1 && ETH !in s.limiters
    requires hour == CurrentHour(time) && ring == Fresh(hour, x.cap)
    ensures e.time == time && Run(es + [e], false) == s' && OneMinted(x, s')
    ensures SecondTokenReady(x, s') && ETH in s'.limiters && s'.limiters[ETH].ring == ring
  {
    var c := x.SetCap(8, 1);
    e, s' := Event(time, LimitTx(c)), AfterLimit(s, c, hour, 2);
    SecondCapPasses(x, s);
    CapApproved(x, s, 8, 1);
    LimitStep(s, c, hour, 2);
    LimitNext(es, s, c, time, s');
    SecondCapStored(x, s, hour, ring, s');
  }

  /** The second mint as the accounts see it: from which token, to whom, and how much. */
  predicate SecondMint(x: Cast, c: MintCall) {
    && c.Source() == ETH && c.msg.toChainId == 1 && c.msg.amount == x.cap
  }

  lemma SecondDepositPasses(x: Cast, s: Accounts, c: MintCall)
    requires x.Fits() && OneMinted(x, s) && SecondTokenReady(x, s) && ETH in s.limiters
    requires c == x.Deposit(8, 6)
    ensures MintGuards(s, c).Ok? && SecondMint(x, c)
  {
  }

  lemma SecondDepositStored(x: Cast, s: Accounts, c: MintCall, hour: u32, next: Ring, s': Accounts)
    requires x.Fits() && OneMinted(x, s) && SecondTokenReady(x, s) && ETH in s.limiters
    requires SecondMint(x, c)
    requires s' == AfterMint(NonceCreated(s, c), c, hour, Holding(x.user, x.cap + x.cap), next)
    ensures BothMinted(x, s', x.cap)
  {
    Overwritten(1, Holding(x.user, x.cap), Holding(x.user, x.cap + x.cap));
  }

  lemma SecondDepositCredited(x: Cast, s: Accounts, c: MintCall, sbtc: Sbtc)
    requires x.Fits() && s.mints == map[1 := Holding(x.user, x.cap)]
    requires c == x.Deposit(8, 6) && sbtc == Holding(x.user, x.cap + x.cap)
    ensures CreditMint(s, c) == Ok(sbtc)
  {
    DepositCredited(x, s, x.cap, 8, 6);
  }

  lemma SecondDepositing(x: Cast, s: Accounts, hour: u32, next: Ring)
    returns (c: MintCall, sbtc: Sbtc)
    requires x.Fits() && OneMinted(x, s) && SecondTokenReady(x, s) && ETH in s.limiters
    requires Admit(s.limiters[ETH].ring, hour, x.cap) == Ok(next)
    ensures SecondMint(x, c) && sbtc == Holding(x.user, x.cap + x.cap)
    ensures MintSbtc(s, c, hour) == Ok(AfterMint(NonceCreated(s, c), c, hour, sbtc, next))
  {
    c, sbtc := x.Deposit(8, 6), Holding(x.user, x.cap + x.cap);
    SecondDepositPasses(x, s, c);
    DepositApproved(x, s, 8, 6);
    SecondDepositCredited(x, s, c, sbtc);
    MintStep(s, c, hour, sbtc, next);
  }

  lemma RunSecondMint(x: Cast, es: seq<Event>, s: Accounts, time: u32, hour: u32, next: Ring)
    returns (e: Event, s': Accounts)
    requires x.Fits() && Run(es, false) == s && OneMinted(x, s) && SecondTokenReady(x, s)
    requires ETH in s.limiters && hour == CurrentHour(time)
    requires Admit(s.limiters[ETH].ring, hour, x.cap) == Ok(next)
    ensures e.time == time && Run(es + [e], false) == s' && BothMinted(x, s', x.cap)
  {
    var c, sbtc := SecondDepositing(x, s, hour, next);
    e, s' := Event(time, MintTx(c)), AfterMint(NonceCreated(s, c), c, hour, sbtc, next);
    MintNext(es, s, c, time, s');
    SecondDepositStored(x, s, c, hour, next, s');
  }

  lemma AtOnce(es: seq<Event>, e: Event)
    requires |es| == 3 && es[0].time == es[1].time == es[2].time == e.time
    ensures Reaches(es + [e], e.time)
  {
  }

  lemma RunOneMint(x: Cast, es: seq<Event>, ring: Ring, log: seq<Receipt>, time: u32, hour: u32,
                   next: Ring)
    returns (e: Event, s: Accounts)
    requires x.Fits() && Run(es, false) == x.Deposited(0, ring, {}, log)
    requires hour == CurrentHour(time) && Admit(ring, hour, x.cap) == Ok(next)
    ensures e.time == time && Run(es + [e], false) == s && OneMinted(x, s)
    ensures s.limitNonce == 1 && ETH !in s.tokens && ETH !in s.limiters
  {
    var total, nonces, log';
    e, total, nonces, log' := RunMint(x, es, 0, ring, {}, log, 5, time, hour, next);
    s := Run(es + [e], false);
    DepositedOnce(x, s, total, next, nonces, log');
  }

  /** From the empty chain to a mint of the cap from the first token. */
  lemma RunToOneMint(x: Cast, time: u32, hour: u32, ring: Ring, log: seq<Receipt>, next: Ring)
    returns (es: seq<Event>, s: Accounts)
    requires x.Fits() && hour == CurrentHour(time)
    requires ring == Fresh(hour, x.cap) && log == [LimitSet(BTC, 0, 1, x.cap, hour)]
    requires Admit(ring, hour, x.cap) == Ok(next)
    ensures Reaches(es, time) && Run(es, false) == s && OneMinted(x, s)
    ensures s.limitNonce == 1 && ETH !in s.tokens && ETH !in s.limiters
  {
    var e;
    es := RunToCap(x, time, hour, ring, log);
    e, s := RunOneMint(x, es, ring, log, time, hour, next);
    AtOnce(es, e);
    es := es + [e];
  }

  /** On to a mint of the cap from the second token, under a limiter of its own. */
  lemma RunToSecondMint(x: Cast, es: seq<Event>, s: Accounts, time: u32, hour: u32, ring: Ring,
                        next: Ring)
    returns (e: Event, e': Event, e'': Event, s': Accounts)
    requires x.Fits() && Run(es, false) == s && OneMinted(x, s)
    requires s.limitNonce == 1 && ETH !in s.tokens && ETH !in s.limiters
    requires hour == CurrentHour(time) && ring == Fresh(hour, x.cap)
    requires Admit(ring, hour, x.cap) == Ok(next)
    ensures e.time == e'.time == e''.time == time
    ensures Run(es + [e] + [e'] + [e''], false) == s' && BothMinted(x, s', x.cap)
  {
    e, s' := RunToken(x, es, s, time);
    e', s' := RunSecondCap(x, es + [e], s', time, hour, ring);
    e'', s' := RunSecondMint(x, es + [e] + [e'], s', time, hour, next);
  }

  /** From the empty chain to one mint of the cap from each of the two tokens. */
  lemma RunToBothTokens(x: Cast, time: u32) returns (es: seq<Event>, s: Accounts)
    requires x.Fits()
    ensures Reaches(es, time) && Run(es, false) == s && BothMinted(x, s, x.cap)
  {
    var hour := CurrentHour(time);
    HoursFollowTime(time, time);
    TwoCapsInTwoHours(hour, x.cap);
    var ring := Fresh(hour, x.cap);
    var next := Admit(ring, hour, x.cap).value;
    es, s := RunToOneMint(x, time, hour, ring, [LimitSet(BTC, 0, 1, x.cap, hour)], next);
    var e, e', e'';
    e, e', e'', s := RunToSecondMint(x, es, s, time, hour, ring, next);
    ClockedThen(es, e);
    ClockedThen(es + [e], e');
    ClockedThen(es + [e] + [e'], e'');
    es := es + [e] + [e'] + [e''];
  }

  lemma PaysAgain(x: Cast, s: Accounts, minted: u64, fee: u64)
    requires x.Fits() && BothMinted(x, s, minted) && fee <= x.cap
    ensures CanPay(Withdrew(x, s, fee).mints[1], x.user, x.cap)
  {
  }

  lemma WithdrawsAgain(x: Cast, s: Accounts, minted: u64, fee: u64, hour: u32) returns (s': Accounts)
    requires x.Fits() && BothMinted(x, s, minted) && fee <= x.cap && Inv(s, hour, false)
    requires WithdrawBtc(s, x.Withdrawal(), false) == Ok(Withdrew(x, s, fee))
    ensures WithdrawBtc(Withdrew(x, s, fee), x.Withdrawal(), false) == Ok(s')
  {
    PaysAgain(x, s, minted, fee);
    CommitsAgainIff(s, x.Withdrawal(), hour, false);
    s' := WithdrawBtc(Withdrew(x, s, fee), x.Withdrawal(), false).value;
  }

  lemma BurnedTwice(x: Cast, s: Accounts, minted: u64, fee: u64, s': Accounts)
    requires x.Fits() && BothMinted(x, s, minted) && fee == Fee(x.cap, x.rate) <= x.cap
    requires WithdrawBtc(Withdrew(x, s, fee), x.Withdrawal(), false) == Ok(s')
    ensures TokenTotal(s'.tokens, BTC) == minted
    ensures Flow(s'.log, BurnedTo(BTC)) == Flow(s.log, BurnedTo(BTC)) + 2 * (x.cap - fee)
  {
    var s1 := Withdrew(x, s, fee);
    WithdrawEffect(s1, x.Withdrawal(), false);
    FlowGrows(s.log, s1.log[|s.log|], BurnedTo(BTC));
    FlowGrows(s1.log, s'.log[|s1.log|], BurnedTo(BTC));
  }

  /** Both withdrawals towards the first token commit, and each burns the cap less the fee. */
  lemma RunTwoWithdrawals(x: Cast, es: seq<Event>, s: Accounts, time: u32)
    returns (e: Event, fee: u64)
    requires x.Fits() && Reaches(es, time) && Run(es, false) == s && BothMinted(x, s, x.cap)
    ensures e.time == time && fee == Fee(x.cap, x.rate) < x.cap
    ensures var s' := Run(es + [e] + [e], false);
            && TokenTotal(s'.tokens, BTC) == x.cap
            && Flow(s'.log, BurnedTo(BTC)) >= 2 * (x.cap - fee)
  {
    e, fee := RunWithdrawal(x, es, s, x.cap, time);
    RunInv(es, time, false);
    var s' := WithdrawsAgain(x, s, x.cap, fee, CurrentHour(time));
    WithdrawNext(es + [e], Withdrew(x, s, fee), x.Withdrawal(), time, s');
    BurnedTwice(x, s, x.cap, fee, s');
  }

  /** As written, burns are not backed token by token: whenever the fee on the cap is less than half
      of it there is a run that burns more towards a token than was ever minted from it. */
  lemma BurnedBeyondMinted(x: Cast, time: u32) returns (es: seq<Event>)
    requires x.Fits() && 2 * Fee(x.cap, x.rate) < x.cap
    ensures Reaches(es, time)
    ensures Flow(Run(es, false).log, BurnedTo(BTC)) > Flow(Run(es, false).log, MintedFrom(BTC))
  {
    var s, e, fee;
    es, s := RunToBothTokens(x, time);
    e, fee := RunTwoWithdrawals(x, es, s, time);
    ClockedThen(es, e);
    ClockedThen(es + [e], e);
    es := es + [e] + [e];
    TotalsAreFlows(es, time, false);
  }

  // ---------- a submitter comes back ----------

  function Disabled(x: Cast): Accounts {
    x.Founded().(submitters := map[x.relay := Submitter(false, x.relay, false)])
  }

  lemma Disabling(x: Cast, hour: u32)
    requires x.Fits()
    ensures Execute(x.Founded(), SubmitterTx(x.admin, 1, x.relay, false), hour, false)
         == Ok(Disabled(x))
  {
    Overwritten(x.relay, Submitter(false, x.relay, true), Submitter(false, x.relay, false));
  }

  lemma Enabling(x: Cast, hour: u32)
    requires x.Fits()
    ensures Execute(Disabled(x), x.Founders(), hour, false) == Ok(x.Founded())
  {
    var remaining, stakes := [CommitteeRecord(x.member)], [TRANSFER_STAKE_REQUIRED];
    assert AddMembers(x.Members(), {}, remaining, [x.member][..0], stakes[..0]) == Ok(x.Members());
    assert AddMembers(x.Members(), {}, remaining, [x.member], stakes) == Ok(x.Members());
    Overwritten(x.relay, Submitter(false, x.relay, false), Submitter(false, x.relay, true));
  }

  /** A run in which the admin disables a submitter and creating the same committee once more
      enables it again. */
  lemma SubmitterComesBack(x: Cast, time: u32) returns (es: seq<Event>, off: Event, on: Event)
    requires x.Fits()
    ensures Reaches(es + [off] + [on], time)
    ensures off.tx == SubmitterTx(x.admin, 1, x.relay, false) && on.tx == x.Founders()
    ensures CanSubmit(Run(es, false), x.relay)
    ensures !CanSubmit(Run(es + [off], false), x.relay)
    ensures CanSubmit(Run(es + [off] + [on], false), x.relay)
  {
    es := RunFounding(x, time);
    off := Event(time, SubmitterTx(x.admin, 1, x.relay, false));
    on := Event(time, x.Founders());
    Disabling(x, CurrentHour(time));
    Next(es, x.Founded(), off.tx, time, Disabled(x));
    Enabling(x, CurrentHour(time));
    Next(es + [off], Disabled(x), on.tx, time, x.Founded());
  }

  // ---------- a token without its chain ----------

  const FUNDED: Accounts := GENESIS.(funded := {ChainRecord(2)})

  function Unlinked(x: Cast): Accounts { x.Configured().(chains := map[], funded := {ChainRecord(2)}) }

  function Linked(x: Cast): Accounts { x.Configured().(funded := {ChainRecord(2)}) }

  lemma Unlinking(x: Cast)
    requires x.Fits()
    ensures CreateBridgeConfig(FUNDED, x.Config()) == Ok(Unlinked(x))
  {
    var c, e, r := x.Config(), TokenEntry(BTC, x.rate, 0), Records(map[], map[], {ChainRecord(2)});
    assert c.Entries() == [e] && Records(FUNDED.tokens, FUNDED.chains, FUNDED.funded) == r;
    assert AddEntries(r, [e][..0], 1, c.remaining) == Ok(r);
    assert AddEntries(r, [e], 1, c.remaining) == Ok(r.(tokens := map[BTC := NewToken(e)]));
  }

  /** A run in which somebody funds the address of a chain record before the configuration that is
      to create it: the token gets its record and the chain does not, until the admin adds it. */
  lemma TokenWithoutItsChain(x: Cast, time: u32)
    returns (es: seq<Event>, create: Event, add: Event)
    requires x.Fits()
    ensures Reaches(es + [create] + [add], time)
    ensures create.tx == ConfigTx(x.Config()) && add.tx == ChainTx(x.admin, 1, 2, true)
    ensures var s := Run(es + [create], false);
            BTC in s.tokens && BTC.chain !in s.chains
    ensures var s := Run(es + [create] + [add], false);
            BTC in s.tokens && BTC.chain in s.chains
  {
    es := [] + [Event(time, FundTx(ChainRecord(2)))];
    create, add := Event(time, ConfigTx(x.Config())), Event(time, ChainTx(x.admin, 1, 2, true));
    assert Fund(GENESIS, ChainRecord(2)) == FUNDED;
    Next([], GENESIS, es[0].tx, time, FUNDED);
    Unlinking(x);
    Next(es, FUNDED, create.tx, time, Unlinked(x));
    Next(es + [create], Unlinked(x), add.tx, time, Linked(x));
  }
}
