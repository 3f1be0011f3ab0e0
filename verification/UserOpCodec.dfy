/** Packing user operations into the form the EntryPoint takes (packages/utils/src/ERC4337Utils.ts). */
module UserOpCodec {
  import opened Common
  import opened Sequences
  import opened Words

  datatype PackedUserOp = PackedUserOp(
    sender: Address,
    nonce: nat,
    initCode: Bytes,
    callData: Bytes,
    accountGasLimits: Bytes,
    preVerificationGas: nat,
    gasFees: Bytes,
    paymasterAndData: Bytes,
    signature: Bytes)

  datatype CodecError = PaymasterWithNoGasLimits | ValueExceedsLength | InvalidHexValue | InvalidPaymasterAndData

  function PackUint(high128: nat, low128: nat): Result<Bytes, CodecError> {
    var v := high128 * TWO_128 + low128;
    if v < TWO_256 then Ok(FromNat(v, 32)) else Err(ValueExceedsLength)
  }

  function UnpackUint(packed: Bytes): (nat, nat) {
    (ToNat(packed) / TWO_128, ToNat(packed) % TWO_128)
  }

  /** Slices clamp to the data's end. */
  function SliceTo(data: Bytes, end: nat): Bytes {
    if end <= |data| then data[..end] else data
  }

  function SliceFrom(data: Bytes, start: nat): Bytes {
    if start <= |data| then data[start..] else []
  }

  function PackPaymasterAndData(op: UserOp): Result<Bytes, CodecError> {
    if op.paymaster.None? then Ok([])
    else if op.paymasterVerificationGasLimit.None? || op.paymasterPostOpGasLimit.None? then Err(PaymasterWithNoGasLimits)
    else
      match PackUint(op.paymasterVerificationGasLimit.value, op.paymasterPostOpGasLimit.value)
      case Err(e) => Err(e)
      case Ok(gas) => Ok(op.paymaster.value + gas + if op.paymasterData.Some? then op.paymasterData.value else [])
  }

  /** A factory without data hands the concatenation a text that is not hex. */
  function PackInitCode(op: UserOp): Result<Bytes, CodecError> {
    if op.factory.None? then Ok([])
    else if op.factoryData.None? then Err(InvalidHexValue)
    else Ok(op.factory.value + op.factoryData.value)
  }

  function PackUserOp(op: UserOp): Result<PackedUserOp, CodecError> {
    match PackPaymasterAndData(op)
    case Err(e) => Err(e)
    case Ok(paymasterAndData) =>
      match PackInitCode(op)
      case Err(e) => Err(e)
      case Ok(initCode) =>
        match PackUint(op.verificationGasLimit, op.callGasLimit)
        case Err(e) => Err(e)
        case Ok(accountGasLimits) =>
          match PackUint(op.maxPriorityFeePerGas, op.maxFeePerGas)
          case Err(e) => Err(e)
          case Ok(gasFees) =>
            Ok(PackedUserOp(op.sender, op.nonce, initCode, op.callData, accountGasLimits, op.preVerificationGas,
                            gasFees, paymasterAndData, op.signature))
  }

  /** The fields an operation keeps when it is unpacked without factory and paymaster. */
  function UnpackedBase(p: PackedUserOp): UserOp {
    var (verificationGasLimit, callGasLimit) := UnpackUint(p.accountGasLimits);
    var (maxPriorityFeePerGas, maxFeePerGas) := UnpackUint(p.gasFees);
    UserOp(p.sender, p.nonce, None, None, p.callData, callGasLimit, verificationGasLimit, p.preVerificationGas,
           maxFeePerGas, maxPriorityFeePerGas, None, None, None, None, p.signature)
  }

  function UnpackUserOp(p: PackedUserOp): Result<UserOp, CodecError> {
    var base := UnpackedBase(p);
    var op := if |p.initCode| > 0
              then base.(factory := Some(SliceTo(p.initCode, 20)), factoryData := Some(SliceFrom(p.initCode, 20)))
              else base;
    var data := p.paymasterAndData;
    if |data| == 0 then Ok(op)
    else if |data| < 52 then Err(InvalidPaymasterAndData)
    else
      var (verification, postOp) := UnpackUint(data[20..52]);
      Ok(op.(paymaster := Some(data[..20]), paymasterVerificationGasLimit := Some(verification),
             paymasterPostOpGasLimit := Some(postOp), paymasterData := Some(data[52..])))
  }

  // ---------- round trips ----------

  /** Two 128-bit numbers survive packing. */
  lemma {:induction false} UnpackOfPackUint(high: nat, low: nat)
    requires high < TWO_128 && low < TWO_128
    ensures PackUint(high, low).Ok? && |PackUint(high, low).value| == 32
    ensures UnpackUint(PackUint(high, low).value) == (high, low)
  {
    PowersOf256();
    ToNatOfFromNat(high * TWO_128 + low, 32);
  }

  /** Of all the numbers that can be packed, a pair survives exactly when its lower half fits 128 bits. */
  lemma {:induction false} PackedUintSurvivesExactlyWhen(high: nat, low: nat)
    requires PackUint(high, low).Ok?
    ensures UnpackUint(PackUint(high, low).value) == (high, low) <==> low < TWO_128
  {
    PowersOf256();
    ToNatOfFromNat(high * TWO_128 + low, 32);
  }

  lemma {:induction false} PackOfUnpackUint(b: Bytes)
    requires |b| == 32
    ensures UnpackUint(b).0 < TWO_128 && UnpackUint(b).1 < TWO_128
    ensures PackUint(UnpackUint(b).0, UnpackUint(b).1) == Ok(b)
  {
    PowersOf256();
    FromNatOfToNat(b);
  }

  ghost predicate Fits128(x: Option<nat>) {
    x.Some? && x.value < TWO_128
  }

  /** Gas fields of 128 bits, and 20-byte factory and paymaster with the fields they need. */
  ghost predicate Packable(op: UserOp) {
    && op.verificationGasLimit < TWO_128 && op.callGasLimit < TWO_128
    && op.maxPriorityFeePerGas < TWO_128 && op.maxFeePerGas < TWO_128
    && (op.factory.Some? ==> IsAddress(op.factory.value) && op.factoryData.Some?)
    && (op.paymaster.Some? ==> IsAddress(op.paymaster.value) && Fits128(op.paymasterVerificationGasLimit))
    && (op.paymaster.Some? ==> Fits128(op.paymasterPostOpGasLimit))
  }

  /** An operation without what packing cannot tell apart: stray factory or paymaster fields, and the
      difference between no paymaster data and empty data. */
  function Canonical(op: UserOp): UserOp {
    var op1 := if op.factory.None? then op.(factoryData := None) else op;
    if op.paymaster.None?
    then op1.(paymasterVerificationGasLimit := None, paymasterPostOpGasLimit := None, paymasterData := None)
    else op1.(paymasterData := if op.paymasterData.Some? then op.paymasterData else Some([]))
  }

  lemma {:induction false} PaymasterRoundTrip(op: UserOp)
    requires Packable(op) && op.paymaster.Some?
    ensures PackPaymasterAndData(op).Ok?
    ensures
      var data := PackPaymasterAndData(op).value;
      && |data| >= 52 && data[..20] == op.paymaster.value
      && UnpackUint(data[20..52]) == (op.paymasterVerificationGasLimit.value, op.paymasterPostOpGasLimit.value)
      && data[52..] == if op.paymasterData.Some? then op.paymasterData.value else []
  {
    UnpackOfPackUint(op.paymasterVerificationGasLimit.value, op.paymasterPostOpGasLimit.value);
    var gas := PackUint(op.paymasterVerificationGasLimit.value, op.paymasterPostOpGasLimit.value).value;
    assert PackPaymasterAndData(op).value[20..52] == gas;
  }

  /** Unpacking a packed operation gives it back in canonical form; so it comes back unchanged exactly when
      it was canonical. */
  lemma {:induction false} UnpackOfPack(op: UserOp)
    requires Packable(op)
    ensures PackUserOp(op).Ok?
    ensures UnpackUserOp(PackUserOp(op).value) == Ok(Canonical(op))
  {
    UnpackOfPackUint(op.verificationGasLimit, op.callGasLimit);
    UnpackOfPackUint(op.maxPriorityFeePerGas, op.maxFeePerGas);
    if op.paymaster.Some? {
      PaymasterRoundTrip(op);
    }
    if op.factory.Some? {
      var initCode := op.factory.value + op.factoryData.value;
      assert SliceTo(initCode, 20) == op.factory.value && SliceFrom(initCode, 20) == op.factoryData.value;
    }
  }

  lemma {:induction false} InitCodeRebuilt(p: PackedUserOp)
    requires UnpackUserOp(p).Ok?
    ensures PackInitCode(UnpackUserOp(p).value) == Ok(p.initCode)
  {
    assert SliceTo(p.initCode, 20) + SliceFrom(p.initCode, 20) == p.initCode;
  }

  lemma {:induction false} PaymasterRebuilt(p: PackedUserOp)
    requires UnpackUserOp(p).Ok?
    ensures PackPaymasterAndData(UnpackUserOp(p).value) == Ok(p.paymasterAndData)
  {
    var data := p.paymasterAndData;
    if |data| > 0 {
      PackOfUnpackUint(data[20..52]);
      assert data == data[..20] + data[20..52] + data[52..];
    }
  }

  /** An operation unpacks exactly when its paymaster field is empty or holds 52 bytes, and packing then
      restores it exactly when both gas words are 32 bytes long. */
  lemma {:induction false} PackOfUnpackExactlyWhen(p: PackedUserOp)
    ensures UnpackUserOp(p).Ok? <==> |p.paymasterAndData| == 0 || |p.paymasterAndData| >= 52
    ensures UnpackUserOp(p).Ok? ==>
      (PackUserOp(UnpackUserOp(p).value) == Ok(p) <==> |p.accountGasLimits| == 32 && |p.gasFees| == 32)
  {
    if UnpackUserOp(p).Ok? {
      InitCodeRebuilt(p);
      PaymasterRebuilt(p);
      if |p.accountGasLimits| == 32 && |p.gasFees| == 32 {
        PackOfUnpackUint(p.accountGasLimits);
        PackOfUnpackUint(p.gasFees);
      }
    }
  }

  // ---------- the layout of a packed operation ----------

  lemma {:induction false} HalvesOfPackUint(high: nat, low: nat)
    requires high < TWO_128 && low < TWO_128
    ensures PackUint(high, low).Ok? && |PackUint(high, low).value| == 32
    ensures ToNat(PackUint(high, low).value[..16]) == high && ToNat(PackUint(high, low).value[16..]) == low
  {
    UnpackOfPackUint(high, low);
    PowersOf256();
    ToNatSplit(PackUint(high, low).value, 16);
  }

  /** Where a packed operation holds what: verification gas before call gas, the priority fee before the fee limit,
      the factory before its data, and the paymaster, its verification gas, its post-operation gas and its data. */
  lemma {:induction false} PackedLayout(op: UserOp)
    requires Packable(op)
    ensures PackUserOp(op).Ok?
    ensures
      var p := PackUserOp(op).value;
      && p.sender == op.sender && p.nonce == op.nonce && p.callData == op.callData && p.signature == op.signature
      && p.preVerificationGas == op.preVerificationGas
      && |p.accountGasLimits| == |p.gasFees| == 32
      && ToNat(p.accountGasLimits[..16]) == op.verificationGasLimit && ToNat(p.accountGasLimits[16..]) == op.callGasLimit
      && ToNat(p.gasFees[..16]) == op.maxPriorityFeePerGas && ToNat(p.gasFees[16..]) == op.maxFeePerGas
      && p.initCode == (if op.factory.Some? then op.factory.value + op.factoryData.value else [])
      && (op.paymaster.None? ==> p.paymasterAndData == [])
      && (op.paymaster.Some? ==> IsPaymasterLayout(op, p.paymasterAndData))
  {
    HalvesOfPackUint(op.verificationGasLimit, op.callGasLimit);
    HalvesOfPackUint(op.maxPriorityFeePerGas, op.maxFeePerGas);
    if op.paymaster.Some? {
      PaymasterLayout(op);
    }
  }

  ghost predicate IsPaymasterLayout(op: UserOp, data: Bytes)
    requires Packable(op) && op.paymaster.Some?
  {
    && |data| >= 52 && data[..20] == op.paymaster.value
    && ToNat(data[20..36]) == op.paymasterVerificationGasLimit.value
    && ToNat(data[36..52]) == op.paymasterPostOpGasLimit.value
    && data[52..] == if op.paymasterData.Some? then op.paymasterData.value else []
  }

  lemma {:induction false} PaymasterLayout(op: UserOp)
    requires Packable(op) && op.paymaster.Some?
    ensures PackPaymasterAndData(op).Ok? && IsPaymasterLayout(op, PackPaymasterAndData(op).value)
  {
    HalvesOfPackUint(op.paymasterVerificationGasLimit.value, op.paymasterPostOpGasLimit.value);
    var gas := PackUint(op.paymasterVerificationGasLimit.value, op.paymasterPostOpGasLimit.value).value;
    var data := PackPaymasterAndData(op).value;
    assert data[20..36] == gas[..16] && data[36..52] == gas[16..];
  }

  predicate Fits256(high: nat, low: nat) {
    high * TWO_128 + low < TWO_256
  }

  /** Packing fails exactly when a paymaster comes without its gas limits, a factory without its data, or a pair of
      numbers does not fit 256 bits together. */
  lemma {:induction false} PacksExactlyWhen(op: UserOp)
    ensures PackUserOp(op).Ok? <==>
      && Fits256(op.verificationGasLimit, op.callGasLimit) && Fits256(op.maxPriorityFeePerGas, op.maxFeePerGas)
      && (op.factory.Some? ==> op.factoryData.Some?)
      && (op.paymaster.Some? ==>
            op.paymasterVerificationGasLimit.Some? && op.paymasterPostOpGasLimit.Some? &&
            Fits256(op.paymasterVerificationGasLimit.value, op.paymasterPostOpGasLimit.value))
  {
  }
}
