/** Values shared by every component: bytes, addresses, user operations, stake records and
    the JSON-RPC error classes a check can fail with. */
module Common {

  datatype Option<+T> = None | Some(value: T)

  datatype Result<+T, +E> = Ok(value: T) | Err(error: E)

  type Byte = x: int | 0 <= x < 0x100
  type Bytes = seq<Byte>

  function Zeros(n: nat): (b: Bytes)
    ensures |b| == n && forall i :: 0 <= i < n ==> b[i] == 0
  {
    if n == 0 then [] else Zeros(n - 1) + [0]
  }

  /** An address in canonical form, as the bytes its hex text denotes. Field checks let
      shorter addresses through, so well-formedness is a separate predicate. */
  type Address = Bytes

  const ADDRESS_ZERO: Address := Zeros(20)

  predicate IsAddress(a: Address) {
    |a| == 20
  }

  datatype UserOp = UserOp(
    sender: Address,
    nonce: nat,
    factory: Option<Address>,
    factoryData: Option<Bytes>,
    callData: Bytes,
    callGasLimit: nat,
    verificationGasLimit: nat,
    preVerificationGas: nat,
    maxFeePerGas: nat,
    maxPriorityFeePerGas: nat,
    paymaster: Option<Address>,
    paymasterVerificationGasLimit: Option<nat>,
    paymasterPostOpGasLimit: Option<nat>,
    paymasterData: Option<Bytes>,
    signature: Bytes)

  datatype StakeInfo = StakeInfo(addr: Address, stake: nat, unstakeDelaySec: nat)

  datatype ValidationError =
    | InvalidFields
    | OpcodeValidation
    | Reputation
    | InsufficientStake
    | InternalError

  function Pow(b: nat, e: nat): (p: nat)
    ensures b > 0 ==> p > 0
  {
    if e == 0 then 1 else b * Pow(b, e - 1)
  }

  /** Floor division for either sign of the divisor. */
  function FloorDiv(a: int, b: int): int
    requires b != 0
  {
    if b > 0 then a / b else (-a) / (-b)
  }
}
