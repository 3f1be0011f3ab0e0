/** What acceptance of a traced validation says about the steps that were traced. */
module ParserProofs {
  import opened Common
  import opened Sequences
  import opened StorageMaps
  import opened CollectorTracer
  import opened TracerProofs
  import opened TracerSegments
  import opened CallStack
  import opened ResultParser

  // ---------- stake records ----------

  /** The record parseValidationResult fills in for an entity
      (packages/validation-manager/src/ValidationManager.ts). */
  function FillEntity(addr: Option<Address>, stake: nat, unstakeDelaySec: nat): Option<StakeInfo> {
    if addr.None? || addr.value == ADDRESS_ZERO then None else Some(StakeInfo(addr.value, stake, unstakeDelaySec))
  }

  ghost predicate IsFilled(addr: Option<Address>, info: Option<StakeInfo>) {
    exists stake, unstakeDelaySec :: info == FillEntity(addr, stake, unstakeDelaySec)
  }

  ghost predicate RecordsFilled(c: Context) {
    && IsFilled(Some(c.op.sender), c.senderInfo)
    && IsFilled(c.op.factory, c.factoryInfo)
    && IsFilled(c.op.paymaster, c.paymasterInfo)
  }

  /** An entity's record is its own, and only the zero address has none. */
  lemma {:induction false} FilledRecords(c: Context)
    requires RecordsFilled(c)
    ensures forall e :: e in c.Entities() ==>
      (c.Entities()[e].Some? <==> e != ADDRESS_ZERO) && (c.Entities()[e].Some? ==> c.Entities()[e].value.addr == e)
    ensures forall a :: HasRecord(c.Entities(), a) <==> a in c.Entities() && a != ADDRESS_ZERO
  {
  }

  /** What the code takes for stake. */
  predicate IsStakedAsWritten(info: StakeInfo) {
    0 <= info.stake && 0 <= info.unstakeDelaySec
  }

  /** As written, want of stake never rejects an entity that has a record: only forbidden slots do. */
  lemma {:induction false} StakeIsNeverMissing(c: Context, e: Address, access: map<Address, AccessInfo>)
    requires RecordsFilled(c) && c.isStaked == IsStakedAsWritten && e in c.Entities() && e != ADDRESS_ZERO
    ensures c.Staked(e)
    ensures AccessAllowed(c, e, access) <==>
      forall addr, slot :: addr in access && IsJudged(c, addr) && slot in Touched(access[addr]) ==>
        !IsForbidden(c, e, addr, access[addr], slot)
  {
  }

  // ---------- which levels are judged ----------

  /** A part of the trace no entity is judged by: a second call to one, or a call to something else. */
  ghost predicate IsUnjudged(c: Context, levels: seq<Level>, k: int) {
    0 <= k < |levels| &&
    !(levels[k].topLevelTargetAddress in c.Entities() && IsLevelOf(levels, k, levels[k].topLevelTargetAddress))
  }

  /** Nothing in the other parts matters: replacing them by anything, or adding more of them, changes nothing. */
  lemma {:induction false} OnlyFirstLevelsAreJudged(c: Context, levels: seq<Level>, others: seq<Level>,
      calls: seq<CallEvent>, resolve: Bytes -> Option<string>)
    requires Accepts(c, levels, calls, resolve) && |levels| <= |others|
    requires forall k :: 0 <= k < |levels| ==> others[k].topLevelTargetAddress == levels[k].topLevelTargetAddress
    requires forall e, k :: e in c.Entities() && IsLevelOf(levels, k, e) ==> others[k] == levels[k]
    requires forall k :: |levels| <= k < |others| ==>
      others[k].topLevelTargetAddress in c.Entities() ==> IsTraced(levels, others[k].topLevelTargetAddress)
    ensures Accepts(c, others, calls, resolve)
  {
    forall e | e in c.Entities() ensures EntityAllowed(c, others, e) {
      if e == c.op.sender {
        var l :| l in levels && l.topLevelTargetAddress == e;
        var k :| 0 <= k < |levels| && levels[k] == l;
        assert others[k] in others;
      }
      forall k | IsLevelOf(others, k, e) ensures LevelAllowed(c, e, others[k]) {
        assert k < |levels|;
        assert IsLevelOf(levels, k, e) by {
          forall j | 0 <= j < k ensures levels[j].topLevelTargetAddress != e {
            assert others[j].topLevelTargetAddress != e;
          }
        }
      }
    }
  }

  /** So a call to anything but an entity, the deployment helper included, may run whatever it likes. */
  lemma {:induction false} OtherCallsAreUnrestricted(c: Context, levels: seq<Level>, l: Level, calls: seq<CallEvent>,
      resolve: Bytes -> Option<string>)
    requires Accepts(c, levels, calls, resolve) && l.topLevelTargetAddress !in c.Entities()
    ensures Accepts(c, levels + [l], calls, resolve) && IsUnjudged(c, levels + [l], |levels|)
  {
    OnlyFirstLevelsAreJudged(c, levels, levels + [l], calls, resolve);
  }

  // ---------- from acceptance back to the steps ----------

  function LevelsOf(evs: seq<TraceEvent>): seq<Level> {
    if Run(evs).Some? then Run(evs).value.levels else []
  }

  /** The tracer's tables for a whole trace are accepted, the data it saw hashed among them. */
  ghost predicate AcceptedRun(c: Context, evs: seq<TraceEvent>, resolve: Bytes -> Option<string>) {
    && Run(evs).Some?
    && Accepts(c, LevelsOf(evs), Run(evs).value.calls, resolve)
    && c.keccak == Run(evs).value.keccak
  }

  lemma {:induction false} LevelOfSegment(evs: seq<TraceEvent>, k: int)
    requires Run(evs).Some? && 0 <= k < |Segments(Recorded(evs))|
    ensures k < |LevelsOf(evs)| && k < |Targets(Recorded(evs))|
    ensures LevelsOf(evs)[k] == Replayed(Targets(Recorded(evs))[k], Segments(Recorded(evs))[k])
  {
    LevelsAreReplays(evs);
  }

  lemma {:induction false} ChargedOpcodeShows(evs: seq<TraceEvent>, k: int, log: LogStep)
    requires Run(evs).Some? && ChargedTo(evs, k, log) && IsCounted(log.op)
    ensures k < |LevelsOf(evs)| && log.op in LevelsOf(evs)[k].opcodes
  {
    LevelOfSegment(evs, k);
    var i :| HasLogAt(Segments(Recorded(evs))[k], i, log);
    OpcodesAreShown(Targets(Recorded(evs))[k], Segments(Recorded(evs))[k], i, log);
  }

  lemma {:induction false} ChargedWriteShows(evs: seq<TraceEvent>, k: int, log: LogStep)
    requires Run(evs).Some? && ChargedTo(evs, k, log) && Stores(log)
    ensures k < |LevelsOf(evs)| && ShowsWrite(LevelsOf(evs)[k], log.contract, SlotOf(log))
  {
    LevelOfSegment(evs, k);
    var i :| HasLogAt(Segments(Recorded(evs))[k], i, log);
    WritesAreShown(Targets(Recorded(evs))[k], Segments(Recorded(evs))[k], i, log);
  }

  lemma {:induction false} SomeLevelCounts(levels: seq<Level>, w: Level -> int) returns (k: nat)
    requires Sum(levels, w) != 0
    ensures k < |levels| && w(levels[k]) != 0
  {
    if w(Last(levels)) != 0 {
      k := |levels| - 1;
    } else {
      k := SomeLevelCounts(Init(levels), w);
    }
  }

  lemma {:induction false} LooseGasShows(evs: seq<TraceEvent>) returns (k: nat)
    requires LooseGas(Recorded(evs)) > 0 && Run(evs).Some?
    ensures k < |LevelsOf(evs)| && GAS in LevelsOf(evs)[k].opcodes
  {
    TablesCountSteps(evs);
    k := SomeLevelCounts(LevelsOf(evs), OpcodeWeight(GAS));
  }

  lemma {:induction false} OpcodeTotal(evs: seq<TraceEvent>, op: Opcode)
    requires Run(evs).Some? && IsCounted(op)
    ensures CountIf(Recorded(evs), Running(op)) == Sum(LevelsOf(evs), OpcodeWeight(op))
  {
    TablesCountSteps(evs);
  }

  lemma {:induction false} JudgedLevel(c: Context, levels: seq<Level>, calls: seq<CallEvent>,
      resolve: Bytes -> Option<string>, k: nat)
    requires Accepts(c, levels, calls, resolve) && k < |levels| && !IsUnjudged(c, levels, k)
    ensures levels[k].topLevelTargetAddress in c.Entities() && LevelAllowed(c, levels[k].topLevelTargetAddress, levels[k])
  {
  }

  /** Acceptance means that a banned opcode ran below the top only during parts of the trace that are not judged. */
  lemma {:induction false} AcceptedTraceRunsNothingBanned(c: Context, evs: seq<TraceEvent>,
      resolve: Bytes -> Option<string>, log: LogStep)
    requires AcceptedRun(c, evs, resolve) && IsDeep(log) && IsBanned(log.op) && log.op != GAS
    ensures log in Recorded(evs) ==> exists k :: ChargedTo(evs, k, log)
    ensures forall k :: ChargedTo(evs, k, log) ==> IsUnjudged(c, LevelsOf(evs), k)
  {
    StepsAreCharged(evs, log);
    forall k | ChargedTo(evs, k, log) ensures IsUnjudged(c, LevelsOf(evs), k) {
      ChargedOpcodeShows(evs, k, log);
      BannedShowsUnjudged(c, LevelsOf(evs), Run(evs).value.calls, resolve, k, log.op);
    }
  }

  /** And a GAS step below the top that no call follows is shown by such a part. */
  lemma {:induction false} AcceptedTraceHasNoLooseGas(c: Context, evs: seq<TraceEvent>,
      resolve: Bytes -> Option<string>)
    requires AcceptedRun(c, evs, resolve)
    ensures LooseGas(Recorded(evs)) > 0 ==>
      exists k :: IsUnjudged(c, LevelsOf(evs), k) && GAS in LevelsOf(evs)[k].opcodes
  {
    if LooseGas(Recorded(evs)) > 0 {
      var k := LooseGasShows(evs);
      BannedShowsUnjudged(c, LevelsOf(evs), Run(evs).value.calls, resolve, k, GAS);
    }
  }

  lemma {:induction false} BannedShowsUnjudged(c: Context, levels: seq<Level>, calls: seq<CallEvent>,
      resolve: Bytes -> Option<string>, k: nat, op: Opcode)
    requires Accepts(c, levels, calls, resolve) && k < |levels| && op in levels[k].opcodes && IsBanned(op)
    ensures IsUnjudged(c, levels, k)
  {
    if !IsUnjudged(c, levels, k) {
      JudgedLevel(c, levels, calls, resolve, k);
    }
  }

  lemma {:induction false} SumAtMostOne(levels: seq<Level>, w: Level -> int, f: Option<Address>)
    requires forall l :: l in levels ==> 0 <= w(l) <= if f == Some(l.topLevelTargetAddress) then 1 else 0
    requires forall i, j :: 0 <= i < j < |levels| ==> levels[i].topLevelTargetAddress != levels[j].topLevelTargetAddress
    ensures 0 <= Sum(levels, w) <= 1
    ensures (forall l :: l in levels ==> f != Some(l.topLevelTargetAddress)) ==> Sum(levels, w) == 0
  {
    if levels == [] {
    } else {
      assert Last(levels) in levels;
      SumAtMostOne(Init(levels), w, f);
      if f == Some(Last(levels).topLevelTargetAddress) {
        forall l | l in Init(levels) ensures f != Some(l.topLevelTargetAddress) {
          var i :| 0 <= i < |levels| - 1 && Init(levels)[i] == l;
          assert levels[i].topLevelTargetAddress != levels[|levels| - 1].topLevelTargetAddress;
        }
      }
    }
  }

  lemma {:induction false} JudgedCreations(c: Context, levels: seq<Level>, calls: seq<CallEvent>,
      resolve: Bytes -> Option<string>, f: Option<Address>)
    requires Accepts(c, levels, calls, resolve) && forall k :: 0 <= k < |levels| ==> !IsUnjudged(c, levels, k)
    requires f == if c.op.factory.Some? && c.op.factory.value != c.op.sender then c.op.factory else None
    ensures Sum(levels, OpcodeWeight(CREATE2)) <= if f.Some? then 1 else 0
  {
    var w := OpcodeWeight(CREATE2);
    forall l | l in levels ensures 0 <= w(l) <= if f == Some(l.topLevelTargetAddress) then 1 else 0 {
      var k :| 0 <= k < |levels| && levels[k] == l;
      JudgedLevel(c, levels, calls, resolve, k);
    }
    forall i, j | 0 <= i < j < |levels| ensures levels[i].topLevelTargetAddress != levels[j].topLevelTargetAddress {
      assert !IsUnjudged(c, levels, j);
    }
    SumAtMostOne(levels, w, f);
  }

  /** If all of the trace is judged, CREATE2 ran at most once, and not at all without a factory other than
      the sender. */
  lemma {:induction false} AcceptedTraceCreatesAtMostOnce(c: Context, evs: seq<TraceEvent>,
      resolve: Bytes -> Option<string>)
    requires AcceptedRun(c, evs, resolve) && forall k :: 0 <= k < |LevelsOf(evs)| ==> !IsUnjudged(c, LevelsOf(evs), k)
    ensures CountIf(Recorded(evs), Running(CREATE2)) <= 1
    ensures c.op.factory.None? || c.op.factory.value == c.op.sender ==> CountIf(Recorded(evs), Running(CREATE2)) == 0
  {
    var f := if c.op.factory.Some? && c.op.factory.value != c.op.sender then c.op.factory else None;
    OpcodeTotal(evs, CREATE2);
    JudgedCreations(c, LevelsOf(evs), Run(evs).value.calls, resolve, f);
    NoneCounted(Recorded(evs), Running(CREATE2));
  }

  /** What an entity may write outside the sender and the EntryPoint. */
  ghost predicate WritePermitted(c: Context, e: Address, addr: Address, slot: Slot) {
    if Associated(c, slot, c.op.sender) then FreelyUsesSenderSlots(c, e) || c.Staked(e)
    else c.Staked(e) && (Associated(c, slot, e) || addr == e)
  }

  lemma {:induction false} ShownWriteIsPermitted(c: Context, e: Address, level: Level, addr: Address, slot: Slot)
    requires LevelAllowed(c, e, level) && ShowsWrite(level, addr, slot) && IsJudged(c, addr)
    ensures WritePermitted(c, e, addr, slot)
  {
    assert slot in Touched(level.access[addr]);
    assert SlotPermitted(c, e, addr, level.access[addr], slot);
  }

  /** Acceptance means that every storage write below the top, transient ones included, went to the sender, to
      the EntryPoint, or to a slot the entity called at the time may write, given the data hashed in the trace;
      unless that part of the trace is not judged. */
  lemma {:induction false} AcceptedWritesArePermitted(c: Context, evs: seq<TraceEvent>,
      resolve: Bytes -> Option<string>, log: LogStep)
    requires AcceptedRun(c, evs, resolve) && IsDeep(log) && Stores(log) && IsJudged(c, log.contract)
    ensures c.keccak == Hashed(Recorded(evs))
    ensures log in Recorded(evs) ==> exists k :: ChargedTo(evs, k, log)
    ensures forall k :: ChargedTo(evs, k, log) ==> IsUnjudged(c, LevelsOf(evs), k) || TargetMayWrite(c, evs, k, log)
  {
    KeccakListsHashed(evs);
    StepsAreCharged(evs, log);
    forall k | ChargedTo(evs, k, log) ensures IsUnjudged(c, LevelsOf(evs), k) || TargetMayWrite(c, evs, k, log) {
      ChargedWriteShows(evs, k, log);
      ShownWriteIsJudged(c, LevelsOf(evs), Run(evs).value.calls, resolve, k, log.contract, SlotOf(log));
    }
  }

  ghost predicate TargetMayWrite(c: Context, evs: seq<TraceEvent>, k: int, log: LogStep) {
    && 0 <= k < |LevelsOf(evs)|
    && LevelsOf(evs)[k].topLevelTargetAddress in c.Entities()
    && WritePermitted(c, LevelsOf(evs)[k].topLevelTargetAddress, log.contract, SlotOf(log))
  }

  /** The i-th thing to happen is the first call or inspection of the address. */
  ghost predicate IsFirstInspection(hs: seq<Happening>, i: nat, a: Address) {
    i < |hs| && Inspects(hs[i], a) && forall j :: 0 <= j < i ==> !Inspects(hs[j], a)
  }

  lemma {:induction false} CodeRuleOnSteps(c: Context, target: Address, hs: seq<Happening>, i: nat, a: Address)
    requires CodeAllowed(c, Replayed(target, hs)) && i < |hs|
    ensures IsFirstInspection(hs, i, a) && a != c.op.sender ==> hs[i].log.codeLength > STUB_SIZE
    ensures !UsesCode(hs[i], c.entryPoint)
  {
    CodeUsesAreHeld(target, hs, c.entryPoint);
    if IsFirstInspection(hs, i, a) {
      SizeIsOfFirst(target, hs, i, a);
    }
  }

  /** Acceptance means that during a judged part every contract called or inspected, other than the sender and the
      allowed precompiles, had code the first time, and the EntryPoint's code was not used. */
  lemma {:induction false} AcceptedCodeIsDeployed(c: Context, evs: seq<TraceEvent>, resolve: Bytes -> Option<string>,
      k: nat, i: nat, a: Address)
    requires AcceptedRun(c, evs, resolve)
    ensures |LevelsOf(evs)| == |Segments(Recorded(evs))|
    ensures k < |LevelsOf(evs)| && !IsUnjudged(c, LevelsOf(evs), k) ==>
      var hs := Segments(Recorded(evs))[k];
      && (IsFirstInspection(hs, i, a) && a != c.op.sender ==> hs[i].log.codeLength > STUB_SIZE)
      && (i < |hs| ==> !UsesCode(hs[i], c.entryPoint))
  {
    LevelsAreReplays(evs);
    if k < |LevelsOf(evs)| && !IsUnjudged(c, LevelsOf(evs), k) && i < |Segments(Recorded(evs))[k]| {
      JudgedLevel(c, LevelsOf(evs), Run(evs).value.calls, resolve, k);
      LevelOfSegment(evs, k);
      CodeRuleOnSteps(c, Targets(Recorded(evs))[k], Segments(Recorded(evs))[k], i, a);
    }
  }

  lemma {:induction false} ShownWriteIsJudged(c: Context, levels: seq<Level>, calls: seq<CallEvent>,
      resolve: Bytes -> Option<string>, k: nat, addr: Address, slot: Slot)
    requires Accepts(c, levels, calls, resolve) && k < |levels| && ShowsWrite(levels[k], addr, slot) && IsJudged(c, addr)
    ensures IsUnjudged(c, levels, k) ||
      (levels[k].topLevelTargetAddress in c.Entities() && WritePermitted(c, levels[k].topLevelTargetAddress, addr, slot))
  {
    if !IsUnjudged(c, levels, k) {
      JudgedLevel(c, levels, calls, resolve, k);
      ShownWriteIsPermitted(c, levels[k].topLevelTargetAddress, levels[k], addr, slot);
    }
  }

  /** An address reported without code, other than the sender, comes from an unjudged part. */
  lemma {:induction false} CodelessReportIsUnjudged(c: Context, levels: seq<Level>, calls: seq<CallEvent>,
      resolve: Bytes -> Option<string>, k: nat, a: Address)
    requires Accepts(c, levels, calls, resolve) && k < |levels|
    requires a in levels[k].contractSize && a != c.op.sender && levels[k].contractSize[a].contractSize <= STUB_SIZE
    ensures IsUnjudged(c, levels, k)
  {
  }
}
