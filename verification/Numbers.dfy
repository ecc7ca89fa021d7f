/** Fixed-width unsigned integers, the program's error codes, and its checked arithmetic.

    The widths are subset types of `int`, so a value that would not fit cannot be stored; every
    operation that may leave its width returns a `Result` (`safe_math.rs`, `utils_math.rs`). */
module Numbers {
  const U64_MAX: nat := 0xFFFF_FFFF_FFFF_FFFF
  const U128_MAX: nat := 0xFFFF_FFFF_FFFF_FFFF_FFFF_FFFF_FFFF_FFFF
  const U256_MAX: nat := 0xFFFF_FFFF_FFFF_FFFF_FFFF_FFFF_FFFF_FFFF_FFFF_FFFF_FFFF_FFFF_FFFF_FFFF_FFFF_FFFF

  type uint8 = x: int | 0 <= x <= 0xFF
  type uint16 = x: int | 0 <= x <= 0xFFFF
  type uint32 = x: int | 0 <= x <= 0xFFFF_FFFF
  type uint64 = x: int | 0 <= x <= U64_MAX
  type uint128 = x: int | 0 <= x <= U128_MAX
  type uint256 = x: int | 0 <= x <= U256_MAX

  /** 2^64, 2^128 and 2^192: the scales of prices, fees per liquidity and rewards per liquidity. */
  const Q64: nat := 0x1_0000_0000_0000_0000
  const Q128: nat := 0x1_0000_0000_0000_0000_0000_0000_0000_0000
  const Q192: nat := 0x1_0000_0000_0000_0000_0000_0000_0000_0000_0000_0000_0000_0000

  datatype PoolError =
    | MathOverflow
    | TypeCastFailed
    | Panic                        // a failed `assert!`, `unwrap` or plain subtraction
    | AmountIsZero
    | PoolDisabled
    | ExceededSlippage
    | PriceRangeViolation
    | InvalidPriceRange
    | InvalidMinimumLiquidity
    | InvalidParameters
    | InvalidInput
    | InvalidFee
    | ExceedMaxFeeBps
    | InsufficientLiquidity
    | InvalidVestingInfo
    | InvalidVestingAccount
    | InvalidSplitPositionParameters
    | SamePosition
    | UnsupportPositionHasVestingLock
    | PositionIsNotEmpty
    | RewardInitialized
    | RewardUninitialized
    | InvalidRewardDuration
    | IdenticalRewardDuration
    | RewardCampaignInProgress
    | RewardNotEnded
    | MustWithdrawnIneligibleReward
    | RewardVaultFrozenSkipRequired
    | AccountNotFound              // the runtime cannot load the account
    | AccountInUse                 // the runtime cannot create the account
    | VaultOverflow                // the token program cannot credit the vault
    | VaultShortfall               // the token program cannot debit the vault

  datatype Result<+T> = Ok(value: T) | Err(error: PoolError) {
    predicate IsFailure() { Err? }

    function PropagateFailure<U>(): Result<U>
      requires Err?
    {
      Err(error)
    }

    function Extract(): T
      requires Ok?
    {
      value
    }

    /** The same outcome without its value. */
    function Status(): Result<()> {
      if Ok? then Ok(()) else Err(error)
    }
  }

  datatype Option<+T> = None | Some(value: T)

  datatype Check = Pass | Fail(error: PoolError) {
    predicate IsFailure() { Fail? }

    function PropagateFailure<U>(): Result<U>
      requires Fail?
    {
      Err(error)
    }

    function Extract(): ()
      requires Pass?
    {
      ()
    }
  }

  /** `require!(condition, error)`. */
  function Require(condition: bool, error: PoolError): Check {
    if condition then Pass else Fail(error)
  }

  /** `safe_add`, `safe_sub`, `safe_mul` on a width: the exact value, or an overflow. */
  function Checked64(x: int): Result<uint64> {
    if 0 <= x <= U64_MAX then Ok(x) else Err(MathOverflow)
  }

  function Checked128(x: int): Result<uint128> {
    if 0 <= x <= U128_MAX then Ok(x) else Err(MathOverflow)
  }

  function Checked256(x: int): Result<uint256> {
    if 0 <= x <= U256_MAX then Ok(x) else Err(MathOverflow)
  }

  /** `try_from` and `try_into` between widths. */
  function Cast64(x: int): Result<uint64> {
    if 0 <= x <= U64_MAX then Ok(x) else Err(TypeCastFailed)
  }

  function Cast128(x: int): Result<uint128> {
    if 0 <= x <= U128_MAX then Ok(x) else Err(TypeCastFailed)
  }

  datatype Rounding = Up | Down

  /** The whole quotient of `n` by `d`, by its recursion; `Arithmetic.FloorIsDivision` says that it is `n / d`. */
  function Floor(n: nat, d: nat): nat
    requires d > 0
    decreases n
  {
    if n < d then 0 else 1 + Floor(n - d, d)
  }

  /** The quotient of `n` by `d`, rounded as asked. */
  function DivRound(n: nat, d: nat, rounding: Rounding): nat
    requires d > 0
  {
    if rounding.Up? then Floor(n + d - 1, d) else Floor(n, d)
  }

  function Min(a: int, b: int): int {
    if a <= b then a else b
  }

  /** `safe_mul_div_cast_u64`. */
  function MulDiv64(x: uint64, y: uint64, d: uint64, rounding: Rounding): Result<uint64> {
    if d == 0 then Err(MathOverflow) else Cast64(DivRound(x * y, d, rounding))
  }

  /** `mul_div_u256`: the product is taken in 512 bits, so only the quotient can overflow. */
  function MulDiv256(x: uint256, y: uint256, d: uint256, rounding: Rounding): Result<uint256> {
    if d == 0 then Err(MathOverflow) else Checked256(DivRound(x * y, d, rounding))
  }

  /** `safe_mul_shr_cast` to 64 bits: `(x * y) >> 64` must fit 128 bits, then 64. */
  function MulShr64Cast(x: uint128, y: uint128): Result<uint64> {
    var q :- Checked128(x * y / Q64);
    Cast64(q)
  }

  /** `safe_shl_div_cast` to 128 bits with an offset of 64. */
  function ShlDiv64(x: uint128, y: uint128): Result<uint128> {
    if y == 0 then Err(MathOverflow) else Checked128(x * Q64 / y)
  }

  /** `shl_div_256` with an offset of 128. */
  function ShlDiv128(x: uint128, y: uint128): Result<uint256> {
    if y == 0 then Err(MathOverflow) else Checked256(x * Q128 / y)
  }

  /** The address of an account. */
  type Id = nat

  /** Two values addressed by an index: token A and B, or reward 0 and 1. */
  type Index = i: int | 0 <= i < 2

  const TOKEN_A: Index := 0
  const TOKEN_B: Index := 1

  datatype Pair<+T> = Pair(zero: T, one: T) {
    function Get(i: Index): T {
      if i == 0 then zero else one
    }

    function Set(i: Index, v: T): Pair<T> {
      if i == 0 then Pair(v, one) else Pair(zero, v)
    }
  }
}
