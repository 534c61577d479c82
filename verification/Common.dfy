/** Integer widths, keys, derived addresses, errors and the failure-compatible result
    type shared by every module of the bridge model. */
module Common {

  const U8_MAX := 0xFF
  const U16_MAX := 0xFFFF
  const U32_MAX := 0xFFFF_FFFF
  const U64_MAX := 0xFFFF_FFFF_FFFF_FFFF
  const U128_MAX := 0xFFFF_FFFF_FFFF_FFFF_FFFF_FFFF_FFFF_FFFF

  type u8 = x: int | 0 <= x <= U8_MAX
  type u16 = x: int | 0 <= x <= U16_MAX
  type u32 = x: int | 0 <= x <= U32_MAX
  type u64 = x: int | 0 <= x <= U64_MAX
  type u128 = x: int | 0 <= x <= U128_MAX

  /** Fee rates are parts per million. */
  const FEE_DENOMINATOR: u64 := 1_000_000

  /** Longest accepted destination address of a withdrawal, in bytes. */
  const MAX_STRING_LENGTH := 255

  type Pubkey = k: seq<u8> | |k| == 32 witness seq(32, _ => 0)

  const DEFAULT_KEY: Pubkey :=
    [0, 0, 0, 0, 0, 0, 0, 0, 0, 0, 0, 0, 0, 0, 0, 0,
     0, 0, 0, 0, 0, 0, 0, 0, 0, 0, 0, 0, 0, 0, 0, 0]

  /** The only key that may create a bridge configuration. */
  const SUPER_ADMIN: Pubkey :=
    [8, 157, 191, 116, 50, 230, 115, 27, 238, 80, 114, 8, 228, 88, 86, 200,
     55, 197, 11, 79, 131, 24, 136, 241, 62, 253, 140, 22, 107, 156, 125, 254]

  /** Names one token of one source chain: the seeds of its token record and of its limiter. */
  datatype TokenId = TokenId(chain: u8, token: u8)

  /** An account address. A derived address is named by the seeds it is derived from, so
      different seeds give different addresses and no derived address is a plain key. */
  datatype Address =
    | Wallet(key: Pubkey)
    | CommitteeRecord(member: Pubkey)
    | ChainRecord(chain: u8)
    | TokenRecord(id: TokenId)
    | SbtcMint(solanaChain: u8)
    | SbtcAta(owner: Pubkey, solanaChain: u8)

  /** Where checked arithmetic or slicing aborts the transaction. */
  datatype Site =
    | SignatureCountAdd
    | ApprovalStakeAdd
    | NonceAdd
    | FrameSlice
    | RecordSlice
    | RingSum
    | LimitAdd
    | SlotAdd
    | MintTotalAdd
    | FeeSubtract
    | MintTotalSubtract

  datatype Error =
    | AccountNotInitialized
    | AccountAlreadyInUse
    | InstructionIndexOutOfRange
    | TokenProgramRefused
    | Panicked(site: Site)
    | InsufficientSignatures
    | InsufficientStake
    | InstructionMissing
    | DeserializeMessageError
    | MessageMismatch
    | MessageOpTypeMismatch
    | InvalidNonce
    | InvalidMessageType
    | InvalidPayloadLength
    | CommitteeConfigAddressMissing
    | InvalidCommittee
    | DuplicateSignature
    | NotSubmitter
    | BridgeConfigNotInitialized
    | BridgeWithdrawPaused
    | ChainIdShouldDiffFromSolanaChainId
    | SupportedChainConfigNotInitialized
    | SupportedChainConfigNoSupported
    | InvalidChain
    | TokenConfigNotInitialized
    | WithdrawPaused
    | InvalidMinAmount
    | TransferLimitExceeded
    | UserNotFound
    | UserSbtcAtaNotFound
    | SbtcMintAccountNotFound
    | FeeRecipientNotFound
    | FeeRecipientSbtcAtaNotFound
    | InvalidUserAddress
    | LackTargetMintOfChain
    | LackTargetMint
    | InvalidAddress
    | InvalidAdminAddress
    | InvalidFeeRecipientAddress
    | InvalidTokenIds
    | InvalidTokenFeePercentage
    | InvalidTokenMinimumAmount
    | TokenConfigAddressMissing
    | SupportedChainAddressMissing
    | BiggerThanFeeDenominator
    | CommitteeLengthExceedsLimit
    | CommitteeAndStakeLengthMismatch

  datatype Option<+T> = None | Some(value: T)

  datatype Result<+T> = Ok(value: T) | Err(error: Error) {
    predicate IsFailure() { Err? }

    function PropagateFailure<U>(): Result<U>
      requires Err?
    {
      Err(error)
    }

    function Extract(): T
      requires Ok?
    {
      value
    }
  }

  function Need(condition: bool, error: Error): Result<()> {
    if condition then Ok(()) else Err(error)
  }

  function Min(a: int, b: int): int {
    if a <= b then a else b
  }

  function Max(a: int, b: int): int {
    if a <= b then b else a
  }
}
