/** Validity windows and signature results packed into 256-bit words
    (packages/utils/src/ERC4337Utils.ts), and the checks made on them
    (packages/validation-manager/src/ValidationManager.ts). */
module ValidationDatas {
  import opened Common
  import opened Sequences
  import opened Words

  datatype ValidationData = ValidationData(aggregator: Address, validAfter: nat, validUntil: nat)

  const MAX_UINT48: nat := TWO_48 - 1

  const SIG_VALIDATION_FAILED: Address := Zeros(19) + [1]

  const VALID_UNTIL_FUTURE_SECONDS := 30

  datatype ValidityError = ValueExceedsLength | InvalidSignature | NotInTimeRange

  function ParseValidationData(word: nat): Result<ValidationData, ValidityError> {
    if word >= TWO_256 then Err(ValueExceedsLength)
    else
      var data := FromNat(word, 32);
      var validUntil := ToNat(data[6..12]);
      Ok(ValidationData(data[12..], ToNat(data[..6]), if validUntil == 0 then MAX_UINT48 else validUntil))
  }

  function PackValidationData(v: ValidationData): nat {
    (v.validAfter * TWO_48 + v.validUntil) * TWO_160 + ToNat(v.aggregator)
  }

  function MergeValidationData(account: ValidationData, paymaster: ValidationData): ValidationData {
    ValidationData(
      if paymaster.aggregator != ADDRESS_ZERO then SIG_VALIDATION_FAILED else account.aggregator,
      if account.validAfter >= paymaster.validAfter then account.validAfter else paymaster.validAfter,
      if account.validUntil <= paymaster.validUntil then account.validUntil else paymaster.validUntil)
  }

  /** The signature and time checks on what an account and a paymaster returned. */
  function CheckValidity(accountWord: nat, paymasterWord: nat, now: nat): Result<ValidationData, ValidityError> {
    match ParseValidationData(accountWord)
    case Err(e) => Err(e)
    case Ok(account) =>
      match ParseValidationData(paymasterWord)
      case Err(e) => Err(e)
      case Ok(paymaster) => CheckMerged(MergeValidationData(account, paymaster), now)
  }

  function CheckMerged(merged: ValidationData, now: nat): Result<ValidationData, ValidityError> {
    if merged.aggregator != ADDRESS_ZERO then Err(InvalidSignature)
    else if merged.validAfter > now then Err(NotInTimeRange)
    else if merged.validUntil < now then Err(NotInTimeRange)
    else if merged.validUntil <= now + VALID_UNTIL_FUTURE_SECONDS then Err(NotInTimeRange)
    else Ok(merged)
  }

  // ---------- the same, in arithmetic ----------

  function AggregatorField(word: nat): nat {
    word % TWO_160
  }

  function UntilField(word: nat): nat {
    word / TWO_160 % TWO_48
  }

  function AfterField(word: nat): nat {
    word / TWO_208
  }

  /** A word whose window holds now and the next 30 seconds, with no aggregator or failure; an end of 0 stands
      for the largest one. */
  ghost predicate Usable(word: nat, now: nat) {
    && AggregatorField(word) == 0
    && AfterField(word) <= now
    && UntilOrMax(word) > now + 30
  }

  lemma {:induction false} ZeroAddressIsZero(a: Address)
    requires |a| == 20
    ensures a == ADDRESS_ZERO <==> ToNat(a) == 0
  {
    ZerosAreZero(20);
    if ToNat(a) == 0 {
      ToNatInjective(a, ADDRESS_ZERO);
    }
  }

  /** The byte slices are the word's fields. */
  lemma {:induction false} ParsedFields(word: nat)
    requires word < TWO_256
    ensures
      var data := FromNat(word, 32);
      && ToNat(data[12..]) == AggregatorField(word)
      && ToNat(data[6..12]) == UntilField(word)
      && ToNat(data[..6]) == AfterField(word)
  {
    var data := FromNat(word, 32);
    PowersOf256();
    ToNatOfFromNat(word, 32);
    ToNatSplit(data, 12);
    ToNatSplit(data, 6);
    ToNatSplit(data[..12], 6);
    assert data[..12][6..] == data[6..12];
  }

  function UntilOrMax(word: nat): nat {
    if UntilField(word) == 0 then 0xFFFF_FFFF_FFFF else UntilField(word)
  }

  lemma {:induction false} ParsedAs(word: nat)
    requires word < TWO_256
    ensures
      var v := ParseValidationData(word).value;
      && v.validAfter == AfterField(word) && v.validUntil == UntilOrMax(word)
      && IsAddress(v.aggregator) && ToNat(v.aggregator) == AggregatorField(word)
      && (v.aggregator == ADDRESS_ZERO <==> AggregatorField(word) == 0)
  {
    ParsedFields(word);
    ZeroAddressIsZero(FromNat(word, 32)[12..]);
  }

  predicate IsUsable(v: ValidationData, now: nat) {
    v.aggregator == ADDRESS_ZERO && v.validAfter <= now && v.validUntil > now + 30
  }

  lemma {:induction false} MergedPassesExactlyWhen(account: ValidationData, paymaster: ValidationData, now: nat)
    ensures
      var checked := CheckMerged(MergeValidationData(account, paymaster), now);
      && (checked.Ok? <==> IsUsable(account, now) && IsUsable(paymaster, now))
      && (checked == Err(InvalidSignature) <==> account.aggregator != ADDRESS_ZERO || paymaster.aggregator != ADDRESS_ZERO)
  {
    assert SIG_VALIDATION_FAILED[19] == 1 && ADDRESS_ZERO[19] == 0;
  }

  /** The checks pass exactly when both words are usable now. */
  lemma {:induction false} ValidityChecksPassExactlyWhen(accountWord: nat, paymasterWord: nat, now: nat)
    requires accountWord < TWO_256 && paymasterWord < TWO_256
    ensures CheckValidity(accountWord, paymasterWord, now).Ok? <==> Usable(accountWord, now) && Usable(paymasterWord, now)
    ensures CheckValidity(accountWord, paymasterWord, now) == Err(InvalidSignature) <==>
      AggregatorField(accountWord) != 0 || AggregatorField(paymasterWord) != 0
  {
    ParsedAs(accountWord);
    ParsedAs(paymasterWord);
    MergedPassesExactlyWhen(ParseValidationData(accountWord).value, ParseValidationData(paymasterWord).value, now);
  }

  ghost predicate InRange(v: ValidationData) {
    IsAddress(v.aggregator) && v.validAfter < TWO_48 && v.validUntil < TWO_48
  }

  lemma {:induction false} PackedFields(v: ValidationData)
    requires InRange(v)
    ensures PackValidationData(v) < TWO_256
    ensures AggregatorField(PackValidationData(v)) == ToNat(v.aggregator)
    ensures UntilField(PackValidationData(v)) == v.validUntil
    ensures AfterField(PackValidationData(v)) == v.validAfter
  {
    PowersOf256();
    assert ToNat(v.aggregator) < TWO_160;
  }

  /** Parsing gives back packed fields exactly when the end is not 0, which reads as the largest end. */
  lemma {:induction false} ParseOfPackExactlyWhen(v: ValidationData)
    requires InRange(v)
    ensures ParseValidationData(PackValidationData(v)).Ok?
    ensures ParseValidationData(PackValidationData(v)) == Ok(v) <==> v.validUntil != 0
    ensures v.validUntil == 0 ==> ParseValidationData(PackValidationData(v)) == Ok(v.(validUntil := MAX_UINT48))
  {
    var word := PackValidationData(v);
    PackedFields(v);
    ParsedFields(word);
    ToNatInjective(FromNat(word, 32)[12..], v.aggregator);
    assert MAX_UINT48 != 0;
  }

  /** Packing gives back a parsed word exactly when its end is not 0. */
  lemma {:induction false} PackOfParseExactlyWhen(word: nat)
    requires word < TWO_256
    ensures PackValidationData(ParseValidationData(word).value) == word <==> UntilField(word) != 0
  {
    ParsedAs(word);
    Repacked(word, UntilOrMax(word));
  }

  lemma {:induction false} Repacked(word: nat, until: nat)
    ensures (AfterField(word) * TWO_48 + until) * TWO_160 + AggregatorField(word) == word <==> until == UntilField(word)
  {
  }

  lemma {:induction false} FailureIsOne()
    ensures |SIG_VALIDATION_FAILED| == 20 && ToNat(SIG_VALIDATION_FAILED) == 1
  {
    ZerosAreZero(19);
    assert Init(SIG_VALIDATION_FAILED) == Zeros(19);
  }

  /** The merged window is the intersection of the two; the merged aggregator is zero exactly when both are, and
      otherwise the account's unless the paymaster gives one, which reads as a failure. */
  lemma {:induction false} MergeIntersects(account: ValidationData, paymaster: ValidationData, time: nat)
    ensures
      var merged := MergeValidationData(account, paymaster);
      && (merged.validAfter <= time <= merged.validUntil <==>
            account.validAfter <= time <= account.validUntil && paymaster.validAfter <= time <= paymaster.validUntil)
      && (merged.aggregator == ADDRESS_ZERO <==>
            account.aggregator == ADDRESS_ZERO && paymaster.aggregator == ADDRESS_ZERO)
      && (paymaster.aggregator == ADDRESS_ZERO ==> merged.aggregator == account.aggregator)
      && (paymaster.aggregator != ADDRESS_ZERO ==> |merged.aggregator| == 20 && ToNat(merged.aggregator) == 1)
  {
    FailureIsOne();
    assert SIG_VALIDATION_FAILED[19] == 1 && ADDRESS_ZERO[19] == 0;
  }
}
