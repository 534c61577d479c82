/** The accounts of the bridge and the transactions on them. Each transaction is a function
    from the stored accounts to the accounts it commits or to the error that reverts it. */
module State {
  import opened Common
  import opened Codec
  import opened Ed25519
  import opened Limiter
  import opened Committee
  import opened Lookup
  import opened Fees

  datatype BridgeConfig = BridgeConfig(
    isInitialized: bool,
    withdrawPaused: bool,
    chainId: u8,
    admin: Pubkey,
    feeRecipient: Pubkey)

  datatype ChainConfig =
    ChainConfig(isInitialized: bool, chainId: u8, supported: bool, mintTotal: u128)

  datatype TokenConfig = TokenConfig(
    isInitialized: bool,
    withdrawPaused: bool,
    id: TokenId,
    native: bool,
    feePercentage: u64,
    minAmount: u64,
    mintTotal: u128)

  datatype Submitter = Submitter(isInitialized: bool, submitter: Pubkey, isSubmitter: bool)

  /** One sBTC mint of the token program with its associated token accounts by owner. */
  datatype Sbtc = Sbtc(supply: u64, balances: map<Pubkey, u64>)

  /** The nonce account a mint creates. */
  datatype MintNonce = MintNonce(sourceChain: u8, nonce: u64)

  /** What a committed transaction logs. */
  datatype Receipt =
    | Minted(source: TokenId, nonce: u64, solanaChain: u8, to: Pubkey, amount: u64, hour: u32)
    | Withdrawn(target: TokenId, nonce: u64, solanaChain: u8, from: Pubkey, burned: u64,
                fee: u64, original: u64)
    | LimitSet(id: TokenId, messageNonce: u64, nonce: u64, limit: u64, hour: u32)

  /** `funded` are the addresses somebody has sent lamports to, whether or not the program keeps a
      record there. */
  datatype Accounts = Accounts(
    bridges: map<u8, BridgeConfig>,
    chains: map<u8, ChainConfig>,
    tokens: map<TokenId, TokenConfig>,
    members: Members,
    submitters: map<Pubkey, Submitter>,
    limiters: map<TokenId, ChainTokenLimiter>,
    funded: set<Address>,
    mintNonces: set<MintNonce>,
    limitNonce: u64,
    withdrawNonce: u64,
    mints: map<u8, Sbtc>,
    log: seq<Receipt>)

  /** Before the first transaction no account exists; an absent nonce account reads as 0. */
  const GENESIS: Accounts :=
    Accounts(map[], map[], map[], map[], map[], map[], {}, {}, 0, 0, map[], [])

  // ---------- the token program ----------

  function OpenAta(s: Sbtc, owner: Pubkey): Sbtc {
    if owner in s.balances then s else s.(balances := s.balances[owner := 0])
  }

  function MintTo(s: Sbtc, owner: Pubkey, amount: u64): Result<Sbtc> {
    var _ :- Need(owner in s.balances, TokenProgramRefused);
    var _ :- Need(s.supply + amount <= U64_MAX, TokenProgramRefused);
    var _ :- Need(s.balances[owner] + amount <= U64_MAX, TokenProgramRefused);
    Ok(Sbtc(s.supply + amount, s.balances[owner := s.balances[owner] + amount]))
  }

  function TransferSbtc(s: Sbtc, from: Pubkey, to: Pubkey, amount: u64): Result<Sbtc> {
    var _ :- Need(from in s.balances && to in s.balances, TokenProgramRefused);
    var _ :- Need(amount <= s.balances[from], TokenProgramRefused);
    var taken: map<Pubkey, u64> := s.balances[from := s.balances[from] - amount];
    var _ :- Need(taken[to] + amount <= U64_MAX, TokenProgramRefused);
    Ok(s.(balances := taken[to := taken[to] + amount]))
  }

  function Burn(s: Sbtc, owner: Pubkey, amount: u64): Result<Sbtc> {
    var _ :- Need(owner in s.balances, TokenProgramRefused);
    var _ :- Need(amount <= s.balances[owner] && amount <= s.supply, TokenProgramRefused);
    Ok(Sbtc(s.supply - amount, s.balances[owner := s.balances[owner] - amount]))
  }

  // ---------- mint_sbtc_with_signatures ----------

  datatype MintCall = MintCall(
    submitter: Pubkey,
    msg: MintSbtcMessage,
    signatures: u8,
    ixs: seq<Instruction>,
    remaining: seq<Address>)
  {
    function Source(): TokenId { TokenId(msg.sourceChainId, msg.sourceTokenId) }

    function Nonce(): MintNonce { MintNonce(msg.sourceChainId, msg.nonce) }

    function Request(s: Accounts): Committee.Request {
      Committee.Request(s.members, remaining, ixs, Mint(msg), TokenTransfer, Dummy)
    }
  }

  /** Account checks: stored accounts are loaded, the nonce account is created, and then the
      constraints are tested in declaration order. */
  function MintGuards(s: Accounts, c: MintCall): Result<()> {
    var m := c.msg;
    var _ :- Need(c.submitter in s.submitters && m.toChainId in s.bridges && m.sourceChainId in s.chains
            && c.Source() in s.tokens && c.Source() in s.limiters, AccountNotInitialized);
    var _ :- Need(c.Nonce() !in s.mintNonces, AccountAlreadyInUse);
    var _ :- Need(s.submitters[c.submitter].isSubmitter, NotSubmitter);
    var _ :- Need(s.bridges[m.toChainId].isInitialized, BridgeConfigNotInitialized);
    var _ :- Need(!s.bridges[m.toChainId].withdrawPaused, BridgeWithdrawPaused);
    var _ :- Need(m.sourceChainId != m.toChainId, ChainIdShouldDiffFromSolanaChainId);
    var _ :- Need(s.chains[m.sourceChainId].isInitialized, SupportedChainConfigNotInitialized);
    var _ :- Need(s.chains[m.sourceChainId].supported, InvalidChain);
    var _ :- Need(s.tokens[c.Source()].isInitialized, TokenConfigNotInitialized);
    var _ :- Need(!s.tokens[c.Source()].withdrawPaused, WithdrawPaused);
    var _ :- Need(m.amount >= s.tokens[c.Source()].minAmount, InvalidMinAmount);
    Ok(())
  }

  /** The recipient's token account is opened if needed and credited by the token program. */
  function CreditMint(s: Accounts, c: MintCall): Result<Sbtc> {
    var m := c.msg;
    var _ :- MintLookup(c.remaining, Wallet(m.toAddress), SbtcAta(m.toAddress, m.toChainId),
                        SbtcMint(m.toChainId));
    var _ :- Need(m.toChainId in s.mints, TokenProgramRefused);
    MintTo(OpenAta(s.mints[m.toChainId], m.toAddress), m.toAddress, m.amount)
  }

  function NonceCreated(s: Accounts, c: MintCall): Accounts {
    s.(mintNonces := s.mintNonces + {c.Nonce()})
  }

  function MintSbtc(s: Accounts, c: MintCall, hour: u32): Result<Accounts> {
    var _ :- MintGuards(s, c);
    var _ :- Approve(c.Request(s), c.signatures);
    SettleMint(NonceCreated(s, c), c, hour)
  }

  /** An approved mint: the recipient is credited, the totals grow, the limiter decides. */
  function SettleMint(s: Accounts, c: MintCall, hour: u32): Result<Accounts>
    requires c.msg.sourceChainId in s.chains && c.Source() in s.tokens && c.Source() in s.limiters
  {
    var m, id := c.msg, c.Source();
    var sbtc :- CreditMint(s, c);
    var _ :- Need(s.chains[m.sourceChainId].mintTotal + m.amount <= U128_MAX, Panicked(MintTotalAdd));
    var _ :- Need(s.tokens[id].mintTotal + m.amount <= U128_MAX, Panicked(MintTotalAdd));
    var ring :- Admit(s.limiters[id].ring, hour, m.amount);
    Ok(AfterMint(s, c, hour, sbtc, ring))
  }

  /** What a committed mint stores, its nonce account apart. */
  function AfterMint(s: Accounts, c: MintCall, hour: u32, sbtc: Sbtc, ring: Ring): Accounts
    requires c.msg.sourceChainId in s.chains && c.Source() in s.tokens && c.Source() in s.limiters
    requires s.chains[c.msg.sourceChainId].mintTotal + c.msg.amount <= U128_MAX
    requires s.tokens[c.Source()].mintTotal + c.msg.amount <= U128_MAX
  {
    var m, id := c.msg, c.Source();
    var chain, token := s.chains[m.sourceChainId], s.tokens[id];
    s.(mints := s.mints[m.toChainId := sbtc],
       chains := s.chains[m.sourceChainId := chain.(mintTotal := chain.mintTotal + m.amount)],
       tokens := s.tokens[id := token.(mintTotal := token.mintTotal + m.amount)],
       limiters := s.limiters[id := s.limiters[id].(ring := ring)],
       log := s.log + [Minted(id, m.nonce, m.toChainId, m.toAddress, m.amount, hour)])
  }

  // ---------- withdraw_btc ----------

  datatype WithdrawMessage = WithdrawMessage(
    toChainId: u8,
    toTokenId: u8,
    toAddress: seq<u8>,
    chainId: u8,
    fromAddress: Pubkey,
    amount: u64)

  datatype WithdrawCall = WithdrawCall(user: Pubkey, msg: WithdrawMessage, remaining: seq<Address>) {
    function Target(): TokenId { TokenId(msg.toChainId, msg.toTokenId) }
  }

  function WithdrawGuards(s: Accounts, c: WithdrawCall): Result<()> {
    var m := c.msg;
    var _ :- Need(m.chainId in s.bridges && m.toChainId in s.chains && c.Target() in s.tokens,
            AccountNotInitialized);
    var _ :- Need(m.fromAddress == c.user, InvalidUserAddress);
    var _ :- Need(s.bridges[m.chainId].isInitialized, BridgeConfigNotInitialized);
    var _ :- Need(!s.bridges[m.chainId].withdrawPaused, BridgeWithdrawPaused);
    var _ :- Need(m.chainId != m.toChainId, ChainIdShouldDiffFromSolanaChainId);
    var _ :- Need(s.chains[m.toChainId].isInitialized, SupportedChainConfigNotInitialized);
    var _ :- Need(s.chains[m.toChainId].supported, SupportedChainConfigNoSupported);
    var _ :- Need(m.amount <= s.chains[m.toChainId].mintTotal, LackTargetMintOfChain);
    var _ :- Need(s.tokens[c.Target()].isInitialized, TokenConfigNotInitialized);
    var _ :- Need(!s.tokens[c.Target()].withdrawPaused, WithdrawPaused);
    var _ :- Need(m.amount >= s.tokens[c.Target()].minAmount, InvalidMinAmount);
    var _ :- Need(m.amount <= s.tokens[c.Target()].mintTotal, LackTargetMint);
    Ok(())
  }

  /** The fee goes to the recipient's token account, opened if needed, and the rest is burned. */
  function ChargeAndBurn(s: Sbtc, user: Pubkey, recipient: Pubkey, fee: u64, rest: u64)
    : Result<Sbtc> {
    var paid :- TransferSbtc(OpenAta(s, recipient), user, recipient, fee);
    Burn(paid, user, rest)
  }

  function FeeFor(s: Accounts, c: WithdrawCall): u64
    requires c.Target() in s.tokens
  {
    Fee(c.msg.amount, s.tokens[c.Target()].feePercentage)
  }

  /** `writeBack` says whether the working copies of the chain and token records are stored
      when the handler returns. The program declares neither of them mutable here, so it
      runs with `writeBack` false. */
  function WithdrawBtc(s: Accounts, c: WithdrawCall, writeBack: bool): Result<Accounts> {
    var m := c.msg;
    var _ :- WithdrawGuards(s, c);
    var _ :- Need(|m.toAddress| <= MAX_STRING_LENGTH, InvalidAddress);
    var _ :- Need(s.withdrawNonce < U64_MAX, Panicked(NonceAdd));
    var recipient := s.bridges[m.chainId].feeRecipient;
    var _ :- WithdrawLookup(c.remaining, SbtcAta(m.fromAddress, m.chainId), Wallet(recipient),
                            SbtcAta(recipient, m.chainId), SbtcMint(m.chainId));
    SettleWithdrawal(s, c, writeBack)
  }

  /** A withdrawal whose accounts are found: the fee is paid, the rest burned, the totals fall. */
  function SettleWithdrawal(s: Accounts, c: WithdrawCall, writeBack: bool): Result<Accounts>
    requires c.msg.chainId in s.bridges && c.msg.toChainId in s.chains && c.Target() in s.tokens
    requires s.withdrawNonce < U64_MAX
  {
    var m, id := c.msg, c.Target();
    var fee := FeeFor(s, c);
    var _ :- Need(fee <= m.amount, Panicked(FeeSubtract));
    var _ :- Need(m.chainId in s.mints, TokenProgramRefused);
    var sbtc :- ChargeAndBurn(s.mints[m.chainId], c.user, s.bridges[m.chainId].feeRecipient, fee,
                              m.amount - fee);
    var _ :- Need(m.amount <= s.chains[m.toChainId].mintTotal, Panicked(MintTotalSubtract));
    var _ :- Need(m.amount <= s.tokens[id].mintTotal, Panicked(MintTotalSubtract));
    Ok(AfterWithdraw(s, c, fee, sbtc, writeBack))
  }

  /** What a committed withdrawal stores. */
  function AfterWithdraw(s: Accounts, c: WithdrawCall, fee: u64, sbtc: Sbtc, writeBack: bool)
    : Accounts
    requires c.msg.toChainId in s.chains && c.Target() in s.tokens
    requires fee <= c.msg.amount <= s.chains[c.msg.toChainId].mintTotal
    requires c.msg.amount <= s.tokens[c.Target()].mintTotal
    requires s.withdrawNonce < U64_MAX
  {
    var m, id := c.msg, c.Target();
    var chain, token := s.chains[m.toChainId], s.tokens[id];
    s.(withdrawNonce := s.withdrawNonce + 1,
       mints := s.mints[m.chainId := sbtc],
       chains := if writeBack
                 then s.chains[m.toChainId := chain.(mintTotal := chain.mintTotal - m.amount)]
                 else s.chains,
       tokens := if writeBack
                 then s.tokens[id := token.(mintTotal := token.mintTotal - m.amount)]
                 else s.tokens,
       log := s.log + [Withdrawn(id, s.withdrawNonce + 1, m.chainId, m.fromAddress,
                                 m.amount - fee, fee, m.amount)])
  }

  // ---------- add_or_update_limiter_with_signatures ----------

  datatype LimitCall = LimitCall(
    submitter: Pubkey,
    msg: UpdateLimiterMsg,
    signatures: u8,
    ixs: seq<Instruction>,
    remaining: seq<Address>)
  {
    function Target(): TokenId { TokenId(msg.targetChainId, msg.tokenId) }

    function Request(s: Accounts): Committee.Request {
      Committee.Request(s.members, remaining, ixs, Limit(msg), UpdateBridgeLimit,
                        Counter(s.limitNonce))
    }
  }

  function LimitGuards(s: Accounts, c: LimitCall): Result<()> {
    var m := c.msg;
    var _ :- Need(c.submitter in s.submitters && m.chainId in s.bridges && m.targetChainId in s.chains
            && c.Target() in s.tokens, AccountNotInitialized);
    var _ :- Need(s.submitters[c.submitter].isSubmitter, NotSubmitter);
    var _ :- Need(s.chains[m.targetChainId].isInitialized, SupportedChainConfigNotInitialized);
    var _ :- Need(s.chains[m.targetChainId].supported, SupportedChainConfigNoSupported);
    var _ :- Need(s.tokens[c.Target()].isInitialized, TokenConfigNotInitialized);
    var _ :- Need(!s.tokens[c.Target()].withdrawPaused, WithdrawPaused);
    Ok(())
  }

  function LimiterAfter(s: Accounts, c: LimitCall, hour: u32): ChainTokenLimiter {
    Updated(if c.Target() in s.limiters then s.limiters[c.Target()] else BLANK,
            c.msg.chainId, c.msg.tokenId, c.msg.totalLimit, hour)
  }

  function UpdateLimiter(s: Accounts, c: LimitCall, hour: u32): Result<Accounts> {
    var _ :- LimitGuards(s, c);
    var cell :- Approve(c.Request(s), c.signatures);
    var next := if cell.Counter? then cell.nonce else s.limitNonce;
    Ok(AfterLimit(s, c, hour, next))
  }

  /** What a committed limiter update stores. */
  function AfterLimit(s: Accounts, c: LimitCall, hour: u32, next: u64): Accounts {
    s.(limitNonce := next,
       limiters := s.limiters[c.Target() := LimiterAfter(s, c, hour)],
       log := s.log + [LimitSet(c.Target(), c.msg.nonce, next, c.msg.totalLimit, hour)])
  }

  // ---------- configuration ----------

  /** One entry of the parallel vectors of a new configuration. */
  datatype TokenEntry = TokenEntry(id: TokenId, feePercentage: u64, minAmount: u64)

  datatype Records = Records(
    tokens: map<TokenId, TokenConfig>,
    chains: map<u8, ChainConfig>,
    funded: set<Address>)
  {
    /** The address of a record holds no lamports: there is no record, and nobody has funded it. */
    predicate TokenEmpty(id: TokenId) { id !in tokens && TokenRecord(id) !in funded }

    predicate ChainEmpty(chain: u8) { chain !in chains && ChainRecord(chain) !in funded }
  }

  function NewToken(e: TokenEntry): TokenConfig {
    TokenConfig(true, false, e.id, false, e.feePercentage, e.minAmount, 0)
  }

  function NewChain(chain: u8): ChainConfig { ChainConfig(true, chain, true, 0) }

  /** One iteration of the batch: the token record, then its chain's record, each only when its
      address holds no lamports. The fee is looked at only for a token record that is created. */
  function AddEntry(r: Records, e: TokenEntry, self: u8, remaining: seq<Address>): Result<Records> {
    var _ :- Need(e.id.chain != self, ChainIdShouldDiffFromSolanaChainId);
    var _ :- Need(TokenRecord(e.id) in remaining, TokenConfigAddressMissing);
    var _ :- Need(!r.TokenEmpty(e.id) || e.feePercentage < FEE_DENOMINATOR, BiggerThanFeeDenominator);
    var _ :- Need(ChainRecord(e.id.chain) in remaining, SupportedChainAddressMissing);
    Ok(r.(tokens := if r.TokenEmpty(e.id) then r.tokens[e.id := NewToken(e)] else r.tokens,
          chains := if r.ChainEmpty(e.id.chain)
                    then r.chains[e.id.chain := NewChain(e.id.chain)]
                    else r.chains))
  }

  function AddEntries(r: Records, es: seq<TokenEntry>, self: u8, remaining: seq<Address>)
    : Result<Records> {
    if es == [] then Ok(r)
    else
      var front :- AddEntries(r, es[..|es| - 1], self, remaining);
      AddEntry(front, es[|es| - 1], self, remaining)
  }

  datatype ConfigCall = ConfigCall(
    payer: Pubkey,
    chainId: u8,
    administrator: Pubkey,
    feeRecipient: Pubkey,
    tokenIds: seq<u8>,
    supportedChains: seq<u8>,
    feePercentages: seq<u64>,
    minAmounts: seq<u64>,
    remaining: seq<Address>)
  {
    predicate Aligned() {
      |tokenIds| == |supportedChains| == |feePercentages| == |minAmounts|
    }

    function Entries(): (es: seq<TokenEntry>)
      requires Aligned()
    {
      seq(|tokenIds|, i requires 0 <= i < |tokenIds| =>
        TokenEntry(TokenId(supportedChains[i], tokenIds[i]), feePercentages[i], minAmounts[i]))
    }
  }

  function ConfigGuards(s: Accounts, c: ConfigCall): Result<()> {
    var _ :- Need(c.chainId !in s.bridges && c.chainId !in s.mints, AccountAlreadyInUse);
    var _ :- Need(c.payer == SUPER_ADMIN, InvalidAdminAddress);
    var _ :- Need(|c.tokenIds| == |c.supportedChains|, InvalidTokenIds);
    var _ :- Need(|c.tokenIds| == |c.feePercentages|, InvalidTokenFeePercentage);
    var _ :- Need(|c.tokenIds| == |c.minAmounts|, InvalidTokenMinimumAmount);
    var _ :- Need(c.feeRecipient != DEFAULT_KEY, InvalidFeeRecipientAddress);
    var _ :- Need(c.administrator != DEFAULT_KEY, InvalidAdminAddress);
    Ok(())
  }

  function CreateBridgeConfig(s: Accounts, c: ConfigCall): Result<Accounts> {
    var _ :- ConfigGuards(s, c);
    var r :- AddEntries(Records(s.tokens, s.chains, s.funded), c.Entries(), c.chainId, c.remaining);
    Ok(AfterConfig(s, c, r))
  }

  /** What a committed configuration stores: the bridge record, an empty mint, the records. */
  function AfterConfig(s: Accounts, c: ConfigCall, r: Records): Accounts {
    s.(bridges := s.bridges[c.chainId :=
                    BridgeConfig(true, false, c.chainId, c.administrator, c.feeRecipient)],
       mints := s.mints[c.chainId := Sbtc(0, map[])],
       tokens := r.tokens,
       chains := r.chains)
  }

  /** The admin of a bridge configuration signs every later change. */
  function AdminGuard(s: Accounts, payer: Pubkey, chainId: u8): Result<()> {
    var _ :- Need(chainId in s.bridges, AccountNotInitialized);
    var _ :- Need(s.bridges[chainId].admin == payer, InvalidAdminAddress);
    Ok(())
  }

  predicate ByAdmin(s: Accounts, payer: Pubkey, chainId: u8) {
    chainId in s.bridges && s.bridges[chainId].admin == payer
  }

  function AddOrUpdateChain(s: Accounts, payer: Pubkey, chainId: u8, target: u8, supported: bool)
    : Result<Accounts> {
    var _ :- AdminGuard(s, payer, chainId);
    var _ :- Need(s.bridges[chainId].chainId != target, ChainIdShouldDiffFromSolanaChainId);
    var stored := if target in s.chains then s.chains[target] else ChainConfig(false, 0, false, 0);
    Ok(s.(chains := s.chains[target :=
            if stored.isInitialized then stored.(supported := supported)
            else ChainConfig(true, target, supported, 0)]))
  }

  function AddOrUpdateToken(s: Accounts, payer: Pubkey, chainId: u8, id: TokenId,
                            feePercentage: u64, minAmount: u64, paused: bool): Result<Accounts> {
    var _ :- Need(chainId in s.bridges && id.chain in s.chains, AccountNotInitialized);
    var _ :- AdminGuard(s, payer, chainId);
    var _ :- Need(s.bridges[chainId].chainId != id.chain, ChainIdShouldDiffFromSolanaChainId);
    var _ :- Need(feePercentage < FEE_DENOMINATOR, BiggerThanFeeDenominator);
    Ok(s.(tokens := s.tokens[id :=
            if id in s.tokens && s.tokens[id].isInitialized
            then s.tokens[id].(feePercentage := feePercentage, minAmount := minAmount,
                               withdrawPaused := paused)
            else TokenConfig(true, paused, id, false, feePercentage, minAmount, 0)]))
  }

  // ---------- committee and submitters ----------

  /** Whether the address of a member's record holds no lamports. */
  predicate MemberEmpty(members: Members, funded: set<Address>, key: Pubkey) {
    key !in members && CommitteeRecord(key) !in funded
  }

  function AddMember(members: Members, funded: set<Address>, remaining: seq<Address>, key: Pubkey,
                     stake: u16): Result<Members> {
    var _ :- Need(CommitteeRecord(key) in remaining, CommitteeConfigAddressMissing);
    Ok(if MemberEmpty(members, funded, key)
       then members[key := Member(true, key, stake, false)]
       else members)
  }

  function AddMembers(members: Members, funded: set<Address>, remaining: seq<Address>,
                      keys: seq<Pubkey>, stakes: seq<u16>): Result<Members>
    requires |keys| == |stakes|
  {
    if keys == [] then Ok(members)
    else
      var n := |keys| - 1;
      var front :- AddMembers(members, funded, remaining, keys[..n], stakes[..n]);
      AddMember(front, funded, remaining, keys[n], stakes[n])
  }

  /** Whether a key may bring approved messages to the bridge. */
  predicate CanSubmit(s: Accounts, key: Pubkey) {
    key in s.submitters && s.submitters[key].isSubmitter
  }

  /** No handler sets the initialised flag of the record it writes. */
  function SubmitterAfter(s: Accounts, key: Pubkey, isSubmitter: bool): Submitter {
    if key in s.submitters && s.submitters[key].isInitialized
    then s.submitters[key].(isSubmitter := isSubmitter)
    else Submitter(false, key, isSubmitter)
  }

  function CreateCommittee(s: Accounts, payer: Pubkey, chainId: u8, keys: seq<Pubkey>,
                           stakes: seq<u16>, submitter: Pubkey, remaining: seq<Address>)
    : Result<Accounts> {
    var _ :- AdminGuard(s, payer, chainId);
    var _ :- Need(|keys| < 256, CommitteeLengthExceedsLimit);
    var _ :- Need(|keys| == |stakes|, CommitteeAndStakeLengthMismatch);
    var members :- AddMembers(s.members, s.funded, remaining, keys, stakes);
    var known := submitter in s.submitters && s.submitters[submitter].isInitialized;
    Ok(s.(members := members,
          submitters := if known then s.submitters
                        else s.submitters[submitter := Submitter(false, submitter, true)]))
  }

  function AddOrUpdateMember(s: Accounts, payer: Pubkey, chainId: u8, key: Pubkey, stake: u16,
                             blocklisted: bool): Result<Accounts> {
    var _ :- AdminGuard(s, payer, chainId);
    Ok(s.(members := s.members[key := Member(true, key, stake, blocklisted)]))
  }

  function AddOrUpdateSubmitter(s: Accounts, payer: Pubkey, chainId: u8, key: Pubkey,
                                isSubmitter: bool): Result<Accounts> {
    var _ :- AdminGuard(s, payer, chainId);
    Ok(s.(submitters := s.submitters[key := SubmitterAfter(s, key, isSubmitter)]))
  }

  /** Holders move sBTC among themselves through the token program, outside the bridge. */
  function HolderTransfer(s: Accounts, solanaChain: u8, from: Pubkey, to: Pubkey, amount: u64)
    : Result<Accounts> {
    var _ :- Need(solanaChain in s.mints, TokenProgramRefused);
    var sbtc :- TransferSbtc(OpenAta(s.mints[solanaChain], to), from, to, amount);
    Ok(s.(mints := s.mints[solanaChain := sbtc]))
  }

  /** Anyone may send lamports to any address. */
  function Fund(s: Accounts, address: Address): Accounts {
    s.(funded := s.funded + {address})
  }

  // ---------- transactions ----------

  datatype Tx =
    | MintTx(mint: MintCall)
    | WithdrawTx(withdraw: WithdrawCall)
    | LimitTx(limit: LimitCall)
    | ConfigTx(config: ConfigCall)
    | ChainTx(payer: Pubkey, chainId: u8, target: u8, supported: bool)
    | TokenTx(payer: Pubkey, chainId: u8, id: TokenId, feePercentage: u64, minAmount: u64,
              paused: bool)
    | CommitteeTx(payer: Pubkey, chainId: u8, keys: seq<Pubkey>, stakes: seq<u16>,
                  submitter: Pubkey, remaining: seq<Address>)
    | MemberTx(payer: Pubkey, chainId: u8, key: Pubkey, stake: u16, blocklisted: bool)
    | SubmitterTx(payer: Pubkey, chainId: u8, key: Pubkey, isSubmitter: bool)
    | HolderTx(solanaChain: u8, from: Pubkey, to: Pubkey, amount: u64)
    | FundTx(address: Address)

  function Execute(s: Accounts, tx: Tx, hour: u32, writeBack: bool): Result<Accounts> {
    match tx
    case MintTx(c) => MintSbtc(s, c, hour)
    case WithdrawTx(c) => WithdrawBtc(s, c, writeBack)
    case LimitTx(c) => UpdateLimiter(s, c, hour)
    case ConfigTx(c) => CreateBridgeConfig(s, c)
    case ChainTx(payer, chainId, target, supported) =>
      AddOrUpdateChain(s, payer, chainId, target, supported)
    case TokenTx(payer, chainId, id, feePercentage, minAmount, paused) =>
      AddOrUpdateToken(s, payer, chainId, id, feePercentage, minAmount, paused)
    case CommitteeTx(payer, chainId, keys, stakes, submitter, remaining) =>
      CreateCommittee(s, payer, chainId, keys, stakes, submitter, remaining)
    case MemberTx(payer, chainId, key, stake, blocklisted) =>
      AddOrUpdateMember(s, payer, chainId, key, stake, blocklisted)
    case SubmitterTx(payer, chainId, key, isSubmitter) =>
      AddOrUpdateSubmitter(s, payer, chainId, key, isSubmitter)
    case HolderTx(solanaChain, from, to, amount) =>
      HolderTransfer(s, solanaChain, from, to, amount)
    case FundTx(address) => Ok(Fund(s, address))
  }

  /** A transaction commits all its changes or none. */
  function Commit(s: Accounts, r: Result<Accounts>): Accounts {
    if r.Ok? then r.value else s
  }

  /** A transaction at a clock reading. */
  datatype Event = Event(time: u32, tx: Tx)

  function Hour(e: Event): u32 { CurrentHour(e.time) }

  function Apply(s: Accounts, e: Event, writeBack: bool): Accounts {
    Commit(s, Execute(s, e.tx, Hour(e), writeBack))
  }

  /** The accounts after a run from an empty chain. */
  function Run(es: seq<Event>, writeBack: bool): Accounts {
    if es == [] then GENESIS
    else Apply(Run(es[..|es| - 1], writeBack), es[|es| - 1], writeBack)
  }

  /** The clock never goes back during a run. */
  ghost predicate Clocked(es: seq<Event>) {
    forall i, j | 0 <= i < j < |es| :: es[i].time <= es[j].time
  }
}
