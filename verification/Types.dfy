/** The machine integers, addresses and error codes the program is written with. */
module Types {
  import opened Wrappers
  import Rounding

  const U64_MAX: nat := 0xFFFF_FFFF_FFFF_FFFF
  const U128_MAX: nat := 0xFFFF_FFFF_FFFF_FFFF_FFFF_FFFF_FFFF_FFFF

  type u16 = n: nat | n < 0x1_0000
  type u64 = n: nat | n <= 0xFFFF_FFFF_FFFF_FFFF
  type u128 = n: nat | n <= 0xFFFF_FFFF_FFFF_FFFF_FFFF_FFFF_FFFF_FFFF

  /**
   * Account addresses. `Default` is the all-zero key. `Vault` and `LaunchPda` are the two
   * program-derived addresses of the modelled launch; no outside party can sign for them.
   * Everything else is a `Wallet`.
   */
  datatype Address = Default | Vault | LaunchPda | Wallet(id: nat)

  /** The system program's ID is the all-zero key itself. */
  const SYSTEM_PROGRAM: Address := Default

  /** An address that can sign a transaction. */
  type Signer = a: Address | a.Wallet? witness Wallet(0)

  /** The program's error codes, then the failures of the runtime it calls into. */
  datatype Error =
    | Paused
    | Unauthorized
    | InvalidFeeSplit
    | FeeBpsTooHigh
    | AlreadyGraduated
    | NotReadyToGraduate
    | SlippageExceeded
    | InsufficientSolOut
    | InsufficientReserves
    | MathOverflow
    | MathUnderflow
    | ZeroBuyAmount
    | ZeroSellAmount
    | InvalidWallet
    | InvalidThreshold
    | NotGraduated
    | PoolAlreadySeeded
    | InvalidPoolAddress
    | BetaCapExceeded
      // a transfer from an account that holds too little
    | InsufficientFunds
      // an account that must exist does not, or one that must be new exists
    | AccountNotInitialized
    | AccountAlreadyInUse

  predicate IsMathError(e: Error) {
    e == MathOverflow || e == MathUnderflow
  }

  // Checked arithmetic: u128 for the curve, u64 for stored fields.

  function CheckedAdd(a: u128, b: u128): Result<u128, Error> {
    if a + b <= U128_MAX then Success(a + b) else Failure(MathOverflow)
  }

  function CheckedSub(a: u128, b: u128): Result<u128, Error> {
    if b <= a then Success(a - b) else Failure(MathUnderflow)
  }

  function CheckedMul(a: u128, b: u128): Result<u128, Error> {
    var p: nat := a * b;
    if p <= U128_MAX then Success(p) else Failure(MathOverflow)
  }

  function CheckedDiv(a: u128, b: u128): Result<u128, Error> {
    if b == 0 then Failure(MathOverflow)
    else
      var q: nat := a / b;
      assert q <= a by { Rounding.QuotientAtMostDividend(a, b); }
      Success(q)
  }

  function CheckedAdd64(a: u64, b: u64): Result<u64, Error> {
    if a + b <= U64_MAX then Success(a + b) else Failure(MathOverflow)
  }

  function CheckedSub64(a: u64, b: u64): Result<u64, Error> {
    if b <= a then Success(a - b) else Failure(MathUnderflow)
  }

  function ToU64(a: u128): Result<u64, Error> {
    if a <= U64_MAX then Success(a) else Failure(MathOverflow)
  }
}
