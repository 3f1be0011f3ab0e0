/** The tracer's tables as functions of the recorded steps, one stretch of steps for each top-level call. */
module TracerSegments {
  import opened Common
  import opened Sequences
  import opened StorageMaps
  import opened Words
  import opened CollectorTracer
  import opened TracerProofs

  /** What can happen to a level: gas runs short, or a step below the top is charged to it, with the opcodes that
      step completes and the one before it. */
  datatype Happening =
    | Shortage
    | Charge(window: seq<OpRecord>, lastOp: Option<Opcode>, log: LogStep)

  function Applied(l: Level, h: Happening): Level {
    match h
    case Shortage => l.(oog := true)
    case Charge(window, lastOp, log) => Charged(l, window, lastOp, log)
  }

  predicate Opens(targets: seq<Address>, log: LogStep) {
    (log.op.CALL? || log.op.STATICCALL?) &&
    (log.depth == 1 || (log.depth == 2 && targets != [] && Last(targets) == FromNat(0xefc2c1444ebcc4db75e7613d20c6a62ff67a167c, 20)))
  }

  function TargetOf(log: LogStep): Address {
    ToAddress(Peek(log.stack, 1))
  }

  /** The targets of the top-level calls, in order. */
  function Targets(rec: seq<LogStep>): seq<Address> {
    if rec == [] then []
    else Begun(Targets(Init(rec)), Opens(Targets(Init(rec)), Last(rec)), TargetOf(Last(rec)))
  }

  function LastOpOf(rec: seq<LogStep>): Option<Opcode> {
    if rec == [] || !IsDeep(Last(rec)) then None else Some(Last(rec).op)
  }

  function ChargeOf(rec: seq<LogStep>): Happening
    requires rec != []
  {
    Charge(LastN(SinceReturn(rec), 3), LastOpOf(Init(rec)), Last(rec))
  }

  /** What happens during each of those calls. */
  function Segments(rec: seq<LogStep>): seq<seq<Happening>> {
    if rec == [] then []
    else
      var log := Last(rec);
      var segs := Fed(Append, Segments(Init(rec)), OutOfGas(log), Shortage);
      Fed(Append, Begun(segs, Opens(Targets(Init(rec)), log), []), IsDeep(log), ChargeOf(rec))
  }

  /** The tables one stretch leaves. */
  function Replayed(target: Address, hs: seq<Happening>): Level {
    Fold(Applied, FreshLevel(target), hs)
  }

  ghost predicate AreReplays(levels: seq<Level>, rec: seq<LogStep>) {
    AreFolds(Applied, FreshLevel, Targets(rec), levels, Segments(rec))
  }

  // ---------- every level is the replay of its own stretch ----------

  lemma {:induction false} AppliedTarget(l: Level, h: Happening)
    ensures Applied(l, h).topLevelTargetAddress == l.topLevelTargetAddress
  {
  }

  lemma {:induction false} ReplayTarget(target: Address, hs: seq<Happening>)
    ensures Replayed(target, hs).topLevelTargetAddress == target
  {
    if hs == [] {
    } else {
      ReplayTarget(target, Init(hs));
      AppliedTarget(Replayed(target, Init(hs)), Last(hs));
    }
  }

  lemma {:induction false} OpensAgree(s: State, rec: seq<LogStep>, log: LogStep)
    requires AreReplays(s.levels, rec)
    ensures OpensLevel(s, log) <==> Opens(Targets(rec), log)
  {
    if s.levels != [] {
      ReplayTarget(Last(Targets(rec)), Last(Segments(rec)));
    }
  }

  lemma {:induction false} PreparedLevels(s: State, log: LogStep)
    ensures Prepared(s, log).levels ==
      Begun(Fed(Applied, s.levels, OutOfGas(log), Shortage), OpensLevel(s, log), FreshLevel(TargetOf(log)))
  {
  }

  lemma {:induction false} SteppedLevels(s: State, log: LogStep)
    requires !s.stopCollecting && Step(s, log).Some?
    ensures Step(s, log).value.levels ==
      Fed(Applied, Prepared(s, log).levels, IsDeep(log), Charge(Prepared(s, log).lastThreeOpcodes, s.lastOp, log))
  {
    StepLevels(s, log);
  }

  lemma {:induction false} ChargeOfStep(s: State, rec: seq<LogStep>, log: LogStep)
    requires !s.stopCollecting && Step(s, log).Some? && WindowSound(s, rec)
    ensures ChargeOf(rec + [log]) == Charge(Prepared(s, log).lastThreeOpcodes, s.lastOp, log)
  {
    StepLevels(s, log);
    WindowStep(s, rec, log);
    assert Init(rec + [log]) == rec;
  }

  lemma {:induction false} ReplaysStep(s: State, rec: seq<LogStep>, log: LogStep)
    requires !s.stopCollecting && Step(s, log).Some? && WindowSound(s, rec) && AreReplays(s.levels, rec)
    ensures AreReplays(Step(s, log).value.levels, rec + [log])
  {
    assert Init(rec + [log]) == rec;
    OpensAgree(s, rec, log);
    PreparedLevels(s, log);
    SteppedLevels(s, log);
    ChargeOfStep(s, rec, log);
    FoldsStep(Applied, FreshLevel, Targets(rec), s.levels, Segments(rec), OutOfGas(log), Shortage,
              Opens(Targets(rec), log), TargetOf(log), IsDeep(log), ChargeOf(rec + [log]));
  }

  lemma {:induction false} WindowsSound(evs: seq<TraceEvent>)
    requires Run(evs).Some?
    ensures WindowSound(Run(evs).value, Recorded(evs))
  {
    TablesCountSteps(evs);
  }

  /** Over every trace: there is one level for each top-level call, and each level is exactly what its own stretch of
      steps leaves, whatever happened before and after. */
  lemma {:induction false} LevelsAreReplays(evs: seq<TraceEvent>)
    requires Run(evs).Some?
    ensures AreReplays(Run(evs).value.levels, Recorded(evs))
  {
    if evs == [] {
    } else {
      LevelsAreReplays(Init(evs));
      var s := Run(Init(evs)).value;
      if Last(evs).Stepped? && !s.stopCollecting {
        WindowsSound(Init(evs));
        ReplaysStep(s, Recorded(Init(evs)), Last(evs).log);
      }
    }
  }

  // ---------- the stretches divide up the steps ----------

  function LogsOf(hs: seq<Happening>): seq<LogStep> {
    if hs == [] then [] else LogsOf(Init(hs)) + if Last(hs).Charge? then [Last(hs).log] else []
  }

  function AllLogs(segs: seq<seq<Happening>>): seq<LogStep> {
    if segs == [] then [] else AllLogs(Init(segs)) + LogsOf(Last(segs))
  }

  /** The steps below the top before any top-level call. */
  function Uncharged(rec: seq<LogStep>): seq<LogStep> {
    if rec == [] then []
    else Uncharged(Init(rec)) + if IsDeep(Last(rec)) && Targets(rec) == [] then [Last(rec)] else []
  }

  lemma {:induction false} SegmentForEachTarget(rec: seq<LogStep>)
    ensures |Segments(rec)| == |Targets(rec)|
  {
    if rec == [] {
    } else {
      SegmentForEachTarget(Init(rec));
    }
  }

  lemma {:induction false} AllLogsFed(segs: seq<seq<Happening>>, feeds: bool, h: Happening)
    ensures AllLogs(Fed(Append, segs, feeds, h)) ==
      AllLogs(segs) + if feeds && segs != [] && h.Charge? then [h.log] else []
  {
    if feeds && segs != [] {
      var fed := Fed(Append, segs, feeds, h);
      assert Init(fed) == Init(segs) && Last(fed) == Last(segs) + [h];
      assert Init(Last(segs) + [h]) == Last(segs);
    }
  }

  lemma {:induction false} AllLogsBegun(segs: seq<seq<Happening>>, begins: bool)
    ensures AllLogs(Begun(segs, begins, [])) == AllLogs(segs)
  {
    if begins {
      assert Init(segs + [[]]) == segs;
    }
  }

  lemma {:induction false} AllLogsThrough(segs: seq<seq<Happening>>, short: bool, begins: bool, feeds: bool, h: Happening)
    requires h.Charge?
    ensures AllLogs(Fed(Append, Begun(Fed(Append, segs, short, Shortage), begins, []), feeds, h)) ==
      AllLogs(segs) + if feeds && (segs != [] || begins) then [h.log] else []
  {
    var fed := Fed(Append, segs, short, Shortage);
    AllLogsFed(segs, short, Shortage);
    AllLogsBegun(fed, begins);
    AllLogsFed(Begun(fed, begins, []), feeds, h);
  }

  lemma {:induction false} AllLogsStep(rec: seq<LogStep>)
    requires rec != []
    ensures AllLogs(Segments(rec)) ==
      AllLogs(Segments(Init(rec))) + if IsDeep(Last(rec)) && Targets(rec) != [] then [Last(rec)] else []
  {
    var log := Last(rec);
    SegmentForEachTarget(Init(rec));
    AllLogsThrough(Segments(Init(rec)), OutOfGas(log), Opens(Targets(Init(rec)), log), IsDeep(log), ChargeOf(rec));
  }

  lemma {:induction false} NoLogsYet(rec: seq<LogStep>)
    requires rec != [] && Targets(rec) == []
    ensures AllLogs(Segments(Init(rec))) == []
  {
    SegmentForEachTarget(Init(rec));
  }

  /** Every recorded step below the top belongs to exactly one stretch, in order, except for those before the
      first call. */
  lemma {:induction false} SegmentsDivideSteps(rec: seq<LogStep>)
    ensures Filter(rec, IsDeep) == Uncharged(rec) + AllLogs(Segments(rec))
  {
    if rec == [] {
    } else {
      SegmentsDivideSteps(Init(rec));
      AllLogsStep(rec);
      if Targets(rec) == [] {
        NoLogsYet(rec);
      }
      var more := if IsDeep(Last(rec)) then [Last(rec)] else [];
      assert Filter(rec, IsDeep) == Filter(Init(rec), IsDeep) + more;
      Divided(Uncharged(Init(rec)), AllLogs(Segments(Init(rec))), more, Targets(rec) == []);
    }
  }

  lemma {:induction false} Divided<T>(a: seq<T>, b: seq<T>, more: seq<T>, early: bool)
    requires early ==> b == []
    ensures a + b + more == (a + if early then more else []) + (b + if early then [] else more)
  {
  }

  predicate NeedsNoLevel(log: LogStep) {
    !IsCounted(log.op) && !IsExt(log.op) && !IsCall(log.op)
  }

  lemma {:induction false} UnchargedStep(s: State, rec: seq<LogStep>, log: LogStep)
    requires !s.stopCollecting && Step(s, log).Some? && AreReplays(s.levels, rec)
    ensures IsDeep(log) && Targets(rec + [log]) == [] ==> NeedsNoLevel(log)
    ensures Uncharged(rec + [log]) == Uncharged(rec) + if IsDeep(log) && Targets(rec + [log]) == [] then [log] else []
  {
    assert Init(rec + [log]) == rec;
    OpensAgree(s, rec, log);
    PreparedLevels(s, log);
    StepLevels(s, log);
  }

  /** A step that needs a level makes the tracer throw where there is none, so none is left out of the stretches. */
  lemma {:induction false} UnchargedNeedNothing(evs: seq<TraceEvent>)
    requires Run(evs).Some?
    ensures forall log :: log in Uncharged(Recorded(evs)) ==> NeedsNoLevel(log)
  {
    if evs == [] {
    } else {
      UnchargedNeedNothing(Init(evs));
      var s := Run(Init(evs)).value;
      if Last(evs).Stepped? && !s.stopCollecting {
        LevelsAreReplays(Init(evs));
        UnchargedStep(s, Recorded(Init(evs)), Last(evs).log);
      }
    }
  }

  /** The k-th stretch contains the step. */
  ghost predicate ChargedTo(evs: seq<TraceEvent>, k: int, log: LogStep) {
    0 <= k < |Segments(Recorded(evs))| && exists i :: HasLogAt(Segments(Recorded(evs))[k], i, log)
  }

  ghost predicate HasLogAt(hs: seq<Happening>, i: int, log: LogStep) {
    0 <= i < |hs| && hs[i].Charge? && hs[i].log == log
  }

  lemma {:induction false} InLogsOf(hs: seq<Happening>, log: LogStep) returns (i: nat)
    requires log in LogsOf(hs)
    ensures HasLogAt(hs, i, log)
  {
    if Last(hs).Charge? && Last(hs).log == log {
      i := |hs| - 1;
    } else {
      i := InLogsOf(Init(hs), log);
    }
  }

  lemma {:induction false} InAllLogs(segs: seq<seq<Happening>>, log: LogStep) returns (k: nat, i: nat)
    requires log in AllLogs(segs)
    ensures k < |segs| && HasLogAt(segs[k], i, log)
  {
    if log in LogsOf(Last(segs)) {
      k := |segs| - 1;
      i := InLogsOf(segs[k], log);
    } else {
      k, i := InAllLogs(Init(segs), log);
    }
  }

  lemma {:induction false} StepsAreCharged(evs: seq<TraceEvent>, log: LogStep)
    requires Run(evs).Some? && IsCounted(log.op) && IsDeep(log)
    ensures log in Recorded(evs) ==> exists k :: ChargedTo(evs, k, log)
  {
    if log in Recorded(evs) {
      var segs := Segments(Recorded(evs));
      FilterMembers(Recorded(evs), IsDeep);
      SegmentsDivideSteps(Recorded(evs));
      UnchargedNeedNothing(evs);
      var k, i := InAllLogs(segs, log);
      assert HasLogAt(segs[k], i, log);
      assert ChargedTo(evs, k, log);
    }
  }

  // ---------- what the tables of a stretch hold ----------

  predicate Inspects(h: Happening, a: Address) {
    && h.Charge? && !(0 < ToNat(a) < 10)
    && ((h.log.op in {EXTCODESIZE, EXTCODECOPY, EXTCODEHASH} && ToAddress(Peek(h.log.stack, 0)) == a) ||
        (h.log.op in {CALL, CALLCODE, DELEGATECALL, STATICCALL} && ToAddress(Peek(h.log.stack, 1)) == a))
  }

  /** Completes a use of the address's code other than a test for emptiness. */
  predicate UsesCode(h: Happening, a: Address) {
    && h.Charge? && |h.window| >= 2 && h.window[|h.window| - 2].opcode in {EXTCODESIZE, EXTCODECOPY, EXTCODEHASH}
    && !(|h.window| == 3 && h.window[1].opcode == EXTCODESIZE && h.window[2].opcode == ISZERO)
    && ToAddress(Peek(h.window[|h.window| - 2].stackTop3, 0)) == a
  }

  lemma {:induction false} OpcodesElsewhere(l: Level, lastOp: Option<Opcode>, log: LogStep)
    ensures
      var l' := WithAccess(WithOpcodes(l, lastOp, log.op), log);
      l'.contractSize == l.contractSize && l'.extCodeAccessInfo == l.extCodeAccessInfo
  {
  }

  lemma {:induction false} AppliedSizes(l: Level, h: Happening)
    ensures Applied(l, h).contractSize == if h.Charge? then WithContractSize(l, h.log).contractSize else l.contractSize
    ensures Applied(l, h).extCodeAccessInfo ==
      if h.Charge? then WithExtCode(l, h.window, h.log.op).extCodeAccessInfo else l.extCodeAccessInfo
  {
    if h.Charge? {
      OpcodesElsewhere(WithContractSize(WithExtCode(l, h.window, h.log.op), h.log), h.lastOp, h.log);
    }
  }

  lemma {:induction false} SizeStep(l: Level, h: Happening, a: Address)
    ensures
      var l' := Applied(l, h);
      && (a in l'.contractSize <==> a in l.contractSize || Inspects(h, a))
      && (a in l.contractSize ==> l'.contractSize[a] == l.contractSize[a])
      && (a !in l.contractSize && Inspects(h, a) ==> l'.contractSize[a] == ContractSize(h.log.codeLength, h.log.op))
  {
    AppliedSizes(l, h);
  }

  ghost predicate IsInspected(hs: seq<Happening>, a: Address) {
    exists i :: 0 <= i < |hs| && Inspects(hs[i], a)
  }

  lemma {:induction false} InspectedExtends(init: seq<Happening>, h: Happening, a: Address)
    ensures IsInspected(init + [h], a) <==> IsInspected(init, a) || Inspects(h, a)
  {
    var hs := init + [h];
    assert hs[|init|] == h && forall i :: 0 <= i < |init| ==> hs[i] == init[i];
  }

  /** A size is held for exactly the addresses called or inspected, the allowed precompiles apart. */
  lemma {:induction false} SizesAreOfInspected(target: Address, hs: seq<Happening>, a: Address)
    ensures a in Replayed(target, hs).contractSize <==> IsInspected(hs, a)
  {
    if hs == [] {
    } else {
      SizesAreOfInspected(target, Init(hs), a);
      SizeStep(Replayed(target, Init(hs)), Last(hs), a);
      InspectedExtends(Init(hs), Last(hs), a);
      assert hs == Init(hs) + [Last(hs)];
    }
  }

  /** And it is the one of the first time. */
  lemma {:induction false} SizeIsOfFirst(target: Address, hs: seq<Happening>, i: nat, a: Address)
    requires i < |hs| && Inspects(hs[i], a) && forall j :: 0 <= j < i ==> !Inspects(hs[j], a)
    ensures a in Replayed(target, hs).contractSize
    ensures Replayed(target, hs).contractSize[a] == ContractSize(hs[i].log.codeLength, hs[i].log.op)
  {
    SizeStep(Replayed(target, Init(hs)), Last(hs), a);
    if i == |hs| - 1 {
      SizesAreOfInspected(target, Init(hs), a);
    } else {
      SizeIsOfFirst(target, Init(hs), i, a);
    }
  }

  /** An opcode is held for exactly the addresses whose code was used otherwise than to test for emptiness. */
  lemma {:induction false} CodeUsesAreHeld(target: Address, hs: seq<Happening>, a: Address)
    ensures a in Replayed(target, hs).extCodeAccessInfo <==> exists i :: 0 <= i < |hs| && UsesCode(hs[i], a)
  {
    if hs == [] {
    } else {
      CodeUsesAreHeld(target, Init(hs), a);
      AppliedSizes(Replayed(target, Init(hs)), Last(hs));
      assert hs == Init(hs) + [Last(hs)];
    }
  }

  /** And it is the one after the last time. */
  lemma {:induction false} CodeUseIsLast(target: Address, hs: seq<Happening>, i: nat, a: Address)
    requires i < |hs| && UsesCode(hs[i], a) && forall j :: i < j < |hs| ==> !UsesCode(hs[j], a)
    ensures a in Replayed(target, hs).extCodeAccessInfo
    ensures Replayed(target, hs).extCodeAccessInfo[a] == hs[i].log.op
  {
    AppliedSizes(Replayed(target, Init(hs)), Last(hs));
    if i >= |hs| - 1 {
    } else {
      CodeUseIsLast(target, Init(hs), i, a);
      assert !UsesCode(hs[|hs| - 1], a);
    }
  }

  predicate Stores(log: LogStep) {
    log.op.SSTORE? || log.op.TSTORE?
  }

  ghost predicate ShowsWrite(level: Level, addr: Address, slot: Slot) {
    addr in level.access && (slot in level.access[addr].slotWrites || slot in level.access[addr].transientWrites)
  }

  lemma {:induction false} AppliedAccess(l: Level, h: Happening)
    ensures Applied(l, h).access == if h.Charge? then WithAccess(l, h.log).access else l.access
  {
    if h.Charge? {
      OnlyAccessCharges(l, h.window, h.lastOp, h.log);
    }
  }

  lemma {:induction false} AccessedShows(l: Level, log: LogStep, addr: Address, slot: Slot)
    ensures ShowsWrite(l, addr, slot) ==> ShowsWrite(WithAccess(l, log), addr, slot)
    ensures Stores(log) ==> ShowsWrite(WithAccess(l, log), log.contract, SlotOf(log))
  {
  }

  lemma {:induction false} WritesStayShown(l: Level, h: Happening, addr: Address, slot: Slot)
    ensures ShowsWrite(l, addr, slot) ==> ShowsWrite(Applied(l, h), addr, slot)
    ensures h.Charge? && Stores(h.log) ==> ShowsWrite(Applied(l, h), h.log.contract, SlotOf(h.log))
  {
    AppliedAccess(l, h);
    if h.Charge? {
      AccessedShows(l, h.log, addr, slot);
    }
  }

  lemma {:induction false} WritesAreShown(target: Address, hs: seq<Happening>, i: nat, log: LogStep)
    requires HasLogAt(hs, i, log) && Stores(log)
    ensures ShowsWrite(Replayed(target, hs), log.contract, SlotOf(log))
  {
    WritesStayShown(Replayed(target, Init(hs)), Last(hs), log.contract, SlotOf(log));
    if i >= |hs| - 1 {
    } else {
      WritesAreShown(target, Init(hs), i, log);
    }
  }

  lemma {:induction false} AppliedOpcodes(l: Level, h: Happening)
    ensures l.opcodes.Keys <= Applied(l, h).opcodes.Keys
    ensures h.Charge? && IsCounted(h.log.op) ==> h.log.op in Applied(l, h).opcodes
  {
    if h.Charge? {
      OnlyAccessCharges(l, h.window, h.lastOp, h.log);
    }
  }

  lemma {:induction false} OpcodesAreShown(target: Address, hs: seq<Happening>, i: nat, log: LogStep)
    requires HasLogAt(hs, i, log) && IsCounted(log.op)
    ensures log.op in Replayed(target, hs).opcodes
  {
    AppliedOpcodes(Replayed(target, Init(hs)), Last(hs));
    if i >= |hs| - 1 {
    } else {
      OpcodesAreShown(target, Init(hs), i, log);
    }
  }

  // ---------- hashed data ----------

  /** The data of the steps below the top that hash 21 to 511 bytes. */
  function Hashed(rec: seq<LogStep>): seq<Bytes> {
    if rec == [] then []
    else
      var log := Last(rec);
      Hashed(Init(rec)) + if IsDeep(log) && log.op.KECCAK256? && 20 < Peek(log.stack, 1) < 512 then [log.memory] else []
  }

  lemma {:induction false} HashedStep(s: State, log: LogStep)
    requires !s.stopCollecting && Step(s, log).Some?
    ensures Step(s, log).value.keccak == s.keccak +
      if IsDeep(log) && log.op.KECCAK256? && 20 < Peek(log.stack, 1) < 512 then [log.memory] else []
  {
  }

  /** Over every trace the tracer lists exactly that data, in order. */
  lemma {:induction false} KeccakListsHashed(evs: seq<TraceEvent>)
    requires Run(evs).Some?
    ensures Run(evs).value.keccak == Hashed(Recorded(evs))
  {
    if evs == [] {
    } else {
      KeccakListsHashed(Init(evs));
      var s := Run(Init(evs)).value;
      if Last(evs).Stepped? && !s.stopCollecting {
        HashedStep(s, Last(evs).log);
        assert Init(Recorded(evs)) == Recorded(Init(evs));
      }
    }
  }
}
