/** The rules of the bridge, written down from the fields of the transactions and of the accounts,
    with none of the program's own functions: when a transaction may commit, and what exactly is
    stored then. The rules leave no choice, and every run follows them. */
module Rules {
  import opened Common
  import opened Codec
  import opened Ed25519
  import opened Wire
  import opened Limiter
  import opened Committee
  import opened State

  // ---------- who vouches for a message ----------

  function KeyAt(ix: Instruction): Pubkey {
    if |ix.data| >= 48 then ix.data[16..48] else seq(32, _ => 0)
  }

  /** One signature: a frame around the message, by a member that is known, not blocklisted, and
      whose record comes with the transaction. */
  predicate VouchedBy(members: Members, ix: Instruction, remaining: seq<Address>, msg: Message) {
    && FrameLaid(ix, msg)
    && CommitteeRecord(KeyAt(ix)) in remaining
    && KeyAt(ix) in members
    && members[KeyAt(ix)].isInitialized && !members[KeyAt(ix)].isBlocklisted
  }

  /** The stakes behind instructions 1 to n, added up. */
  function StakeSum(members: Members, ixs: seq<Instruction>, n: nat): nat
    requires n < |ixs|
  {
    if n == 0 then 0
    else StakeSum(members, ixs, n - 1)
         + if KeyAt(ixs[n]) in members then members[KeyAt(ixs[n])].stake else 0
  }

  ghost predicate DistinctKeys(ixs: seq<Instruction>, n: nat)
    requires n < |ixs|
  {
    forall i, j | 1 <= i < j <= n :: KeyAt(ixs[i]) != KeyAt(ixs[j])
  }

  /** Distinct members vouch for the message with at least `stake` between them. */
  ghost predicate Vouched(members: Members, ixs: seq<Instruction>, n: nat, remaining: seq<Address>,
                          msg: Message, stake: nat) {
    && 1 <= n <= 254 && n < |ixs|
    && (forall i | 1 <= i <= n :: VouchedBy(members, ixs[i], remaining, msg))
    && DistinctKeys(ixs, n)
    && stake <= StakeSum(members, ixs, n) <= 65535
  }

  // ---------- what a mint holds for whom ----------

  function Held(m: Sbtc, k: Pubkey): nat {
    if k in m.balances then m.balances[k] else 0
  }

  /** `amount` is new, and belongs to `owner`. */
  ghost predicate Credited(m: Sbtc, m': Sbtc, owner: Pubkey, amount: nat) {
    && m'.supply == m.supply + amount
    && m'.balances.Keys == m.balances.Keys + {owner}
    && forall k <- m'.balances :: m'.balances[k] == Held(m, k) + if k == owner then amount else 0
  }

  /** `amount` leaves `from`, of which `fee` goes to `recipient` and the rest out of circulation. */
  ghost predicate Charged(m: Sbtc, m': Sbtc, from: Pubkey, recipient: Pubkey, fee: nat, amount: nat) {
    && m'.supply == m.supply - (amount - fee)
    && m'.balances.Keys == m.balances.Keys + {recipient}
    && forall k <- m'.balances ::
         m'.balances[k] == Held(m, k) - (if k == from then amount else 0)
                           + (if k == recipient then fee else 0)
  }

  ghost predicate Moved(m: Sbtc, m': Sbtc, from: Pubkey, to: Pubkey, amount: nat) {
    && m'.supply == m.supply
    && m'.balances.Keys == m.balances.Keys + {to}
    && forall k <- m'.balances ::
         m'.balances[k] == Held(m, k) - (if k == from then amount else 0)
                           + (if k == to then amount else 0)
  }

  // ---------- the limiter ----------

  /** What is left of a ring `passed` hours after its window start: the slots of those hours, at most
      all 24, are emptied. */
  function Left(r: Ring, passed: int): (left: seq<u64>)
    ensures |left| == 24
  {
    seq(24, k requires 0 <= k < 24 => if (k - r.oldest) % 24 < passed then 0 else r.hourly[k])
  }

  function Kept(r: Ring, hour: nat): (kept: seq<u64>)
    ensures |kept| == 24
  {
    Left(r, hour - r.oldest)
  }

  ghost predicate RingTook(r: Ring, r': Ring, hour: nat, amount: nat) {
    && r'.limit == r.limit
    && r'.oldest == (if hour - r.oldest < 24 then hour else r.oldest + 24)
    && |r'.hourly| == 24
    && forall k | 0 <= k < 24 ::
         r'.hourly[k] == Kept(r, hour)[k] + if k == hour % 24 then amount else 0
  }

  // ---------- minting ----------

  ghost predicate MintMay(s: Accounts, c: MintCall, time: u32) {
    var m, id := c.msg, TokenId(c.msg.sourceChainId, c.msg.sourceTokenId);
    && c.submitter in s.submitters && s.submitters[c.submitter].isSubmitter
    && m.toChainId in s.bridges && m.toChainId in s.mints && m.toChainId != m.sourceChainId
    && m.sourceChainId in s.chains && s.chains[m.sourceChainId].supported
    && id in s.tokens && !s.tokens[id].withdrawPaused && s.tokens[id].minAmount <= m.amount
    && MintNonce(m.sourceChainId, m.nonce) !in s.mintNonces
    && m.messageType == 0
    && Vouched(s.members, c.ixs, c.signatures, c.remaining, Mint(m), 6666)
    && Wallet(m.toAddress) in c.remaining && SbtcAta(m.toAddress, m.toChainId) in c.remaining
    && SbtcMint(m.toChainId) in c.remaining
    && s.mints[m.toChainId].supply + m.amount <= 0xFFFF_FFFF_FFFF_FFFF
    && id in s.limiters
    && Total(Kept(s.limiters[id].ring, time / 3600)) + m.amount <= s.limiters[id].ring.limit
  }

  ghost predicate MintDoes(s: Accounts, c: MintCall, time: u32, s': Accounts) {
    var m, id := c.msg, TokenId(c.msg.sourceChainId, c.msg.sourceTokenId);
    && m.toChainId in s.mints && m.toChainId in s'.mints
    && m.sourceChainId in s.chains && m.sourceChainId in s'.chains
    && id in s.tokens && id in s'.tokens && id in s.limiters && id in s'.limiters
    && s' == s.(mints := s.mints[m.toChainId := s'.mints[m.toChainId]],
                chains := s.chains[m.sourceChainId := s'.chains[m.sourceChainId]],
                tokens := s.tokens[id := s'.tokens[id]],
                limiters := s.limiters[id := s'.limiters[id]],
                mintNonces := s.mintNonces + {MintNonce(m.sourceChainId, m.nonce)},
                log := s.log + [Minted(id, m.nonce, m.toChainId, m.toAddress, m.amount, time / 3600)])
    && Credited(s.mints[m.toChainId], s'.mints[m.toChainId], m.toAddress, m.amount)
    && (var old', new' := s.chains[m.sourceChainId], s'.chains[m.sourceChainId];
        new' == old'.(mintTotal := new'.mintTotal) && new'.mintTotal == old'.mintTotal + m.amount)
    && (var old', new' := s.tokens[id], s'.tokens[id];
        new' == old'.(mintTotal := new'.mintTotal) && new'.mintTotal == old'.mintTotal + m.amount)
    && s'.limiters[id] == s.limiters[id].(ring := s'.limiters[id].ring)
    && RingTook(s.limiters[id].ring, s'.limiters[id].ring, time / 3600, m.amount)
  }

  // ---------- withdrawing ----------

  ghost predicate WithdrawMay(s: Accounts, c: WithdrawCall) {
    var m, id := c.msg, TokenId(c.msg.toChainId, c.msg.toTokenId);
    && m.fromAddress == c.user && |m.toAddress| <= 255
    && m.chainId in s.bridges && m.chainId in s.mints && m.chainId != m.toChainId
    && m.toChainId in s.chains && s.chains[m.toChainId].supported
    && id in s.tokens && !s.tokens[id].withdrawPaused && s.tokens[id].minAmount <= m.amount
    && m.amount <= s.chains[m.toChainId].mintTotal && m.amount <= s.tokens[id].mintTotal
    && s.withdrawNonce < 0xFFFF_FFFF_FFFF_FFFF
    && var recipient := s.bridges[m.chainId].feeRecipient;
    && recipient != c.user
    && SbtcAta(c.user, m.chainId) in c.remaining && Wallet(recipient) in c.remaining
    && SbtcAta(recipient, m.chainId) in c.remaining && SbtcMint(m.chainId) in c.remaining
    && c.user in s.mints[m.chainId].balances && m.amount <= s.mints[m.chainId].balances[c.user]
  }

  ghost predicate WithdrawDoes(s: Accounts, c: WithdrawCall, writeBack: bool, s': Accounts) {
    var m, id := c.msg, TokenId(c.msg.toChainId, c.msg.toTokenId);
    && m.chainId in s.bridges && m.chainId in s.mints && m.chainId in s'.mints
    && m.toChainId in s.chains && m.toChainId in s'.chains && id in s.tokens && id in s'.tokens
    && var fee, off := m.amount * s.tokens[id].feePercentage / 1_000_000,
                       if writeBack then m.amount else 0;
    && 0 <= fee <= m.amount && s.withdrawNonce < 0xFFFF_FFFF_FFFF_FFFF
    && s' == s.(mints := s.mints[m.chainId := s'.mints[m.chainId]],
                chains := s.chains[m.toChainId := s'.chains[m.toChainId]],
                tokens := s.tokens[id := s'.tokens[id]],
                withdrawNonce := s.withdrawNonce + 1,
                log := s.log + [Withdrawn(id, s.withdrawNonce + 1, m.chainId, c.user,
                                          m.amount - fee, fee, m.amount)])
    && Charged(s.mints[m.chainId], s'.mints[m.chainId], c.user, s.bridges[m.chainId].feeRecipient,
               fee, m.amount)
    && (var old', new' := s.chains[m.toChainId], s'.chains[m.toChainId];
        new' == old'.(mintTotal := new'.mintTotal) && new'.mintTotal == old'.mintTotal - off)
    && (var old', new' := s.tokens[id], s'.tokens[id];
        new' == old'.(mintTotal := new'.mintTotal) && new'.mintTotal == old'.mintTotal - off)
  }

  // ---------- limiter updates ----------

  ghost predicate LimitMay(s: Accounts, c: LimitCall) {
    var m, id := c.msg, TokenId(c.msg.targetChainId, c.msg.tokenId);
    && c.submitter in s.submitters && s.submitters[c.submitter].isSubmitter
    && m.chainId in s.bridges
    && m.targetChainId in s.chains && s.chains[m.targetChainId].supported
    && id in s.tokens && !s.tokens[id].withdrawPaused
    && m.messageType == 3
    && m.nonce == s.limitNonce && s.limitNonce < 0xFFFF_FFFF_FFFF_FFFF
    && Vouched(s.members, c.ixs, c.signatures, c.remaining, Limit(m), 5001)
  }

  ghost predicate LimitDoes(s: Accounts, c: LimitCall, time: u32, s': Accounts) {
    var m, id := c.msg, TokenId(c.msg.targetChainId, c.msg.tokenId);
    && id in s'.limiters && s.limitNonce < 0xFFFF_FFFF_FFFF_FFFF
    && s' == s.(limiters := s.limiters[id := s'.limiters[id]],
                limitNonce := s.limitNonce + 1,
                log := s.log + [LimitSet(id, m.nonce, s.limitNonce + 1, m.totalLimit, time / 3600)])
    && var ring := s'.limiters[id].ring;
    && (id in s.limiters ==>
          s'.limiters[id] == s.limiters[id].(ring := s.limiters[id].ring.(limit := m.totalLimit)))
    && (id !in s.limiters ==>
          && s'.limiters[id] == ChainTokenLimiter(true, m.chainId, m.tokenId, ring)
          && ring.limit == m.totalLimit && ring.oldest == time / 3600
          && |ring.hourly| == 24 && forall k | 0 <= k < 24 :: ring.hourly[k] == 0)
  }

  // ---------- configuration ----------

  predicate AdminPays(s: Accounts, payer: Pubkey, chainId: u8) {
    chainId in s.bridges && s.bridges[chainId].admin == payer
  }

  /** The token that entry `i` of a configuration names. */
  function Named(c: ConfigCall, i: nat): TokenId
    requires |c.tokenIds| == |c.supportedChains| && i < |c.tokenIds|
  {
    TokenId(c.supportedChains[i], c.tokenIds[i])
  }

  ghost predicate FirstNaming(c: ConfigCall, i: nat)
    requires |c.tokenIds| == |c.supportedChains| && i < |c.tokenIds|
  {
    forall j | 0 <= j < i :: Named(c, j) != Named(c, i)
  }

  ghost predicate Names(c: ConfigCall, id: TokenId)
    requires |c.tokenIds| == |c.supportedChains|
  {
    exists i | 0 <= i < |c.tokenIds| :: Named(c, i) == id
  }

  /** What entry `i` needs: a foreign chain, both addresses, and a fee below one where it creates
      the record. */
  ghost predicate EntryMay(s: Accounts, c: ConfigCall, i: nat)
    requires |c.tokenIds| == |c.supportedChains| == |c.feePercentages| && i < |c.tokenIds|
  {
    && c.supportedChains[i] != c.chainId
    && TokenRecord(Named(c, i)) in c.remaining
    && ChainRecord(c.supportedChains[i]) in c.remaining
    && (Named(c, i) !in s.tokens && TokenRecord(Named(c, i)) !in s.funded && FirstNaming(c, i)
        ==> c.feePercentages[i] < 1_000_000)
  }

  ghost predicate ConfigMay(s: Accounts, c: ConfigCall) {
    && c.payer == SUPER_ADMIN && c.chainId !in s.bridges
    && |c.tokenIds| == |c.supportedChains| == |c.feePercentages| == |c.minAmounts|
    && (exists b <- c.feeRecipient :: b != 0) && (exists b <- c.administrator :: b != 0)
    && forall i | 0 <= i < |c.tokenIds| :: EntryMay(s, c, i)
  }

  ghost predicate ConfigDoes(s: Accounts, c: ConfigCall, s': Accounts) {
    var n := |c.tokenIds|;
    && n == |c.supportedChains| == |c.feePercentages| == |c.minAmounts|
    && s' == s.(bridges := s.bridges[c.chainId :=
                             BridgeConfig(true, false, c.chainId, c.administrator, c.feeRecipient)],
                mints := s.mints[c.chainId := Sbtc(0, map[])],
                tokens := s'.tokens, chains := s'.chains)
    && (forall id: TokenId :: id in s'.tokens <==>
          id in s.tokens || (Names(c, id) && TokenRecord(id) !in s.funded))
    && (forall id <- s.tokens :: s'.tokens[id] == s.tokens[id])
    && (forall i | 0 <= i < n && Named(c, i) in s'.tokens && Named(c, i) !in s.tokens
                   && FirstNaming(c, i) ::
          s'.tokens[Named(c, i)] == TokenConfig(true, false, Named(c, i), false, c.feePercentages[i],
                                                c.minAmounts[i], 0))
    && (forall k: u8 :: k in s'.chains <==>
          k in s.chains || (k in c.supportedChains && ChainRecord(k) !in s.funded))
    && (forall k <- s'.chains ::
          s'.chains[k] == if k in s.chains then s.chains[k] else ChainConfig(true, k, true, 0))
  }

  ghost predicate ChainDoes(s: Accounts, target: u8, supported: bool, s': Accounts) {
    && target in s'.chains
    && s' == s.(chains := s.chains[target := s'.chains[target]])
    && s'.chains[target] == if target in s.chains then s.chains[target].(supported := supported)
                            else ChainConfig(true, target, supported, 0)
  }

  ghost predicate TokenDoes(s: Accounts, id: TokenId, fee: u64, minimum: u64, paused: bool,
                            s': Accounts) {
    && id in s'.tokens
    && s' == s.(tokens := s.tokens[id := s'.tokens[id]])
    && s'.tokens[id] == TokenConfig(true, paused, id, id in s.tokens && s.tokens[id].native, fee,
                                    minimum, if id in s.tokens then s.tokens[id].mintTotal else 0)
  }

  // ---------- committee and submitters ----------

  ghost predicate CommitteeMay(s: Accounts, payer: Pubkey, chainId: u8, keys: seq<Pubkey>,
                               stakes: seq<u16>, remaining: seq<Address>) {
    && AdminPays(s, payer, chainId)
    && |keys| == |stakes| <= 255
    && forall k <- keys :: CommitteeRecord(k) in remaining
  }

  ghost predicate CommitteeDoes(s: Accounts, keys: seq<Pubkey>, stakes: seq<u16>, submitter: Pubkey,
                                s': Accounts) {
    && |keys| == |stakes|
    && s' == s.(members := s'.members,
                submitters := s.submitters[submitter := Submitter(false, submitter, true)])
    && (forall k: Pubkey :: k in s'.members <==>
          k in s.members || (k in keys && CommitteeRecord(k) !in s.funded))
    && (forall k <- s.members :: s'.members[k] == s.members[k])
    && (forall i | 0 <= i < |keys| && keys[i] in s'.members && keys[i] !in s.members
                   && keys[i] !in keys[..i] ::
          s'.members[keys[i]] == Member(true, keys[i], stakes[i], false))
  }

  // ---------- every transaction ----------

  /** When a transaction commits. */
  ghost predicate May(s: Accounts, tx: Tx, time: u32) {
    match tx
    case MintTx(c) => MintMay(s, c, time)
    case WithdrawTx(c) => WithdrawMay(s, c)
    case LimitTx(c) => LimitMay(s, c)
    case ConfigTx(c) => ConfigMay(s, c)
    case ChainTx(payer, chainId, target, _) => AdminPays(s, payer, chainId) && target != chainId
    case TokenTx(payer, chainId, id, fee, _, _) =>
      && AdminPays(s, payer, chainId)
      && id.chain != chainId && id.chain in s.chains && fee < 1_000_000
    case CommitteeTx(payer, chainId, keys, stakes, _, remaining) =>
      CommitteeMay(s, payer, chainId, keys, stakes, remaining)
    case MemberTx(payer, chainId, _, _, _) => AdminPays(s, payer, chainId)
    case SubmitterTx(payer, chainId, _, _) => AdminPays(s, payer, chainId)
    case HolderTx(d, from, to, amount) =>
      && d in s.mints && (from in s.mints[d].balances || from == to)
      && amount <= Held(s.mints[d], from)
    case FundTx(_) => true
  }

  /** What a committed transaction stores. */
  ghost predicate Does(s: Accounts, tx: Tx, time: u32, writeBack: bool, s': Accounts) {
    match tx
    case MintTx(c) => MintDoes(s, c, time, s')
    case WithdrawTx(c) => WithdrawDoes(s, c, writeBack, s')
    case LimitTx(c) => LimitDoes(s, c, time, s')
    case ConfigTx(c) => ConfigDoes(s, c, s')
    case ChainTx(_, _, target, supported) => ChainDoes(s, target, supported, s')
    case TokenTx(_, _, id, fee, minimum, paused) => TokenDoes(s, id, fee, minimum, paused, s')
    case CommitteeTx(_, _, keys, stakes, submitter, _) =>
      CommitteeDoes(s, keys, stakes, submitter, s')
    case MemberTx(_, _, key, stake, blocklisted) =>
      s' == s.(members := s.members[key := Member(true, key, stake, blocklisted)])
    case SubmitterTx(_, _, key, isSubmitter) =>
      s' == s.(submitters := s.submitters[key := Submitter(false, key, isSubmitter)])
    case HolderTx(d, from, to, amount) =>
      && d in s.mints && d in s'.mints
      && s' == s.(mints := s.mints[d := s'.mints[d]])
      && Moved(s.mints[d], s'.mints[d], from, to, amount)
    case FundTx(address) => s' == s.(funded := s.funded + {address})
  }

  /** One transaction by the rules: it commits what it may, or nothing happens. */
  ghost predicate Step(s: Accounts, tx: Tx, time: u32, writeBack: bool, s': Accounts) {
    if May(s, tx, time) then Does(s, tx, time, writeBack, s') else s' == s
  }

  /** Before anything happened nothing is stored. */
  predicate NothingYet(s: Accounts) {
    && s.bridges == map[] && s.chains == map[] && s.tokens == map[]
    && s.members == map[] && s.submitters == map[] && s.limiters == map[] && s.mints == map[]
    && s.funded == {} && s.mintNonces == {} && s.limitNonce == 0 && s.withdrawNonce == 0
    && s.log == []
  }

  /** `states` are the accounts before, between and after the transactions of a run, by the rules. */
  ghost predicate Trace(es: seq<Event>, states: seq<Accounts>, writeBack: bool)
    requires |states| == |es| + 1
  {
    if es == [] then NothingYet(states[0])
    else
      var n := |es| - 1;
      && Trace(es[..n], states[..n + 1], writeBack)
      && Step(states[n], es[n].tx, es[n].time, writeBack, states[n + 1])
  }

  // ---------- the rules leave no choice ----------

  lemma OneCredit(m: Sbtc, a: Sbtc, b: Sbtc, owner: Pubkey, amount: nat)
    requires Credited(m, a, owner, amount) && Credited(m, b, owner, amount)
    ensures a == b
  {
    assert a.balances == b.balances;
  }

  lemma OneCharge(m: Sbtc, a: Sbtc, b: Sbtc, from: Pubkey, recipient: Pubkey, fee: nat, amount: nat)
    requires Charged(m, a, from, recipient, fee, amount)
    requires Charged(m, b, from, recipient, fee, amount)
    ensures a == b
  {
    assert a.balances == b.balances;
  }

  lemma OneMove(m: Sbtc, a: Sbtc, b: Sbtc, from: Pubkey, to: Pubkey, amount: nat)
    requires Moved(m, a, from, to, amount) && Moved(m, b, from, to, amount)
    ensures a == b
  {
    assert a.balances == b.balances;
  }

  lemma OneRing(r: Ring, a: Ring, b: Ring, hour: nat, amount: nat)
    requires RingTook(r, a, hour, amount) && RingTook(r, b, hour, amount)
    ensures a == b
  {
    assert a.hourly == b.hourly;
  }

  lemma OneMint(s: Accounts, c: MintCall, time: u32, a: Accounts, b: Accounts)
    requires MintDoes(s, c, time, a) && MintDoes(s, c, time, b)
    ensures a == b
  {
    var m, id := c.msg, TokenId(c.msg.sourceChainId, c.msg.sourceTokenId);
    OneCredit(s.mints[m.toChainId], a.mints[m.toChainId], b.mints[m.toChainId], m.toAddress, m.amount);
    OneRing(s.limiters[id].ring, a.limiters[id].ring, b.limiters[id].ring, time / 3600, m.amount);
  }

  lemma OneWithdrawal(s: Accounts, c: WithdrawCall, writeBack: bool, a: Accounts, b: Accounts)
    requires WithdrawDoes(s, c, writeBack, a) && WithdrawDoes(s, c, writeBack, b)
    ensures a == b
  {
    var m, id := c.msg, TokenId(c.msg.toChainId, c.msg.toTokenId);
    OneCharge(s.mints[m.chainId], a.mints[m.chainId], b.mints[m.chainId], c.user,
              s.bridges[m.chainId].feeRecipient,
              m.amount * s.tokens[id].feePercentage / 1_000_000, m.amount);
  }

  lemma OneLimit(s: Accounts, c: LimitCall, time: u32, a: Accounts, b: Accounts)
    requires LimitDoes(s, c, time, a) && LimitDoes(s, c, time, b)
    ensures a == b
  {
    var id := TokenId(c.msg.targetChainId, c.msg.tokenId);
    assert id !in s.limiters ==> a.limiters[id].ring.hourly == b.limiters[id].ring.hourly;
  }

  lemma {:induction false} FirstNamed(c: ConfigCall, i: nat) returns (first: nat)
    requires |c.tokenIds| == |c.supportedChains| && i < |c.tokenIds|
    ensures first <= i && Named(c, first) == Named(c, i) && FirstNaming(c, first)
  {
    if j :| 0 <= j < i && Named(c, j) == Named(c, i) {
      first := FirstNamed(c, j);
    } else {
      first := i;
    }
  }

  lemma OneConfig(s: Accounts, c: ConfigCall, a: Accounts, b: Accounts)
    requires ConfigDoes(s, c, a) && ConfigDoes(s, c, b)
    ensures a == b
  {
    forall id <- a.tokens
      ensures id in b.tokens && a.tokens[id] == b.tokens[id]
    {
      if id !in s.tokens {
        var i :| 0 <= i < |c.tokenIds| && Named(c, i) == id;
        var first := FirstNamed(c, i);
      }
    }
    assert a.tokens.Keys == b.tokens.Keys && a.tokens == b.tokens;
    assert a.chains == b.chains;
  }

  lemma {:induction false} FirstKey(keys: seq<Pubkey>, i: nat) returns (first: nat)
    requires i < |keys|
    ensures first <= i && keys[first] == keys[i] && keys[first] !in keys[..first]
  {
    if keys[i] in keys[..i] {
      var j :| 0 <= j < i && keys[j] == keys[i];
      first := FirstKey(keys, j);
    } else {
      first := i;
    }
  }

  lemma OneCommittee(s: Accounts, keys: seq<Pubkey>, stakes: seq<u16>, submitter: Pubkey,
                     a: Accounts, b: Accounts)
    requires CommitteeDoes(s, keys, stakes, submitter, a)
    requires CommitteeDoes(s, keys, stakes, submitter, b)
    ensures a == b
  {
    forall k <- a.members
      ensures k in b.members && a.members[k] == b.members[k]
    {
      if k !in s.members {
        var i :| 0 <= i < |keys| && keys[i] == k;
        var first := FirstKey(keys, i);
      }
    }
    assert a.members.Keys == b.members.Keys && a.members == b.members;
  }

  lemma OneQuiet(s: Accounts, tx: Tx, time: u32, writeBack: bool, a: Accounts, b: Accounts)
    requires !tx.MintTx? && !tx.WithdrawTx? && !tx.LimitTx?
    requires Does(s, tx, time, writeBack, a) && Does(s, tx, time, writeBack, b)
    ensures a == b
  {
    match tx
    case ConfigTx(c) => OneConfig(s, c, a, b);
    case CommitteeTx(_, _, keys, stakes, submitter, _) =>
      OneCommittee(s, keys, stakes, submitter, a, b);
    case HolderTx(d, from, to, amount) =>
      OneMove(s.mints[d], a.mints[d], b.mints[d], from, to, amount);
    case _ =>
  }

  lemma OneEffect(s: Accounts, tx: Tx, time: u32, writeBack: bool, a: Accounts, b: Accounts)
    requires Does(s, tx, time, writeBack, a) && Does(s, tx, time, writeBack, b)
    ensures a == b
  {
    match tx
    case MintTx(c) => OneMint(s, c, time, a, b);
    case WithdrawTx(c) => OneWithdrawal(s, c, writeBack, a, b);
    case LimitTx(c) => OneLimit(s, c, time, a, b);
    case _ => OneQuiet(s, tx, time, writeBack, a, b);
  }

  /** The rules determine the accounts after a transaction: nothing stored is left open. */
  lemma OneOutcome(s: Accounts, tx: Tx, time: u32, writeBack: bool, a: Accounts, b: Accounts)
    requires Step(s, tx, time, writeBack, a) && Step(s, tx, time, writeBack, b)
    ensures a == b
  {
    if May(s, tx, time) {
      OneEffect(s, tx, time, writeBack, a, b);
    }
  }
}
