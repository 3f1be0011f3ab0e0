/** What the tracer's tables mean, in terms of all the steps it was shown. */
module TracerProofs {
  import opened Common
  import opened Sequences
  import opened StorageMaps
  import opened CollectorTracer

  /** What the virtual machine reports. */
  datatype TraceEvent = Stepped(log: LogStep) | Framed(call: CallEvent)

  function Observe(s: State, ev: TraceEvent): Option<State> {
    match ev
    case Stepped(log) => Step(s, log)
    case Framed(call) => Some(Called(s, call))
  }

  /** The tracer after a whole trace; None once it has thrown. */
  function Run(evs: seq<TraceEvent>): Option<State> {
    if evs == [] then Some(INITIAL)
    else if Run(Init(evs)).None? then None
    else Observe(Run(Init(evs)).value, Last(evs))
  }

  /** The steps recorded: those before collecting stopped, with the step that stopped it. */
  function Recorded(evs: seq<TraceEvent>): seq<LogStep> {
    if evs == [] || Run(Init(evs)).None? then []
    else if Last(evs).Stepped? && !Run(Init(evs)).value.stopCollecting then Recorded(Init(evs)) + [Last(evs).log]
    else Recorded(Init(evs))
  }

  /** After the marker the collected tables are frozen. */
  lemma {:induction false} FrozenAfterMarker(evs: seq<TraceEvent>, more: seq<TraceEvent>)
    requires Run(evs).Some? && Run(evs).value.stopCollecting
    ensures Run(evs + more) == Run(evs)
  {
    if more == [] {
      assert evs + more == evs;
    } else {
      FrozenAfterMarker(evs, Init(more));
      assert Init(evs + more) == evs + Init(more);
    }
  }

  // ---------- the opcode window ----------

  /** The opcodes since the last RETURN or REVERT, each with the top three words of the stack. */
  function SinceReturn(rec: seq<LogStep>): seq<OpRecord> {
    if rec == [] || Last(rec).op == RETURN || Last(rec).op == REVERT then []
    else
      var stack := Last(rec).stack;
      SinceReturn(Init(rec)) + [OpRecord(Last(rec).op, stack[..if |stack| < 3 then |stack| else 3])]
  }

  lemma {:induction false} RecordIs(log: LogStep)
    ensures RecordOf(log) == OpRecord(log.op, log.stack[..if |log.stack| < 3 then |log.stack| else 3])
  {
    assert log.stack[..|log.stack|] == log.stack;
  }

  ghost predicate WindowSound(s: State, rec: seq<LogStep>) {
    && s.lastThreeOpcodes == LastN(SinceReturn(rec), 3)
    && s.lastOp == if rec == [] || Last(rec).depth == 1 then None else Some(Last(rec).op)
  }

  // ---------- counting ----------

  predicate IsDeep(log: LogStep) {
    log.depth != 1
  }

  function CountIf(rec: seq<LogStep>, p: LogStep -> bool): int {
    Sum(rec, (log: LogStep) => if p(log) then 1 else 0)
  }

  function AtSlot(op: Opcode, a: Address, slot: Slot): LogStep -> bool {
    (log: LogStep) => IsDeep(log) && log.op == op && log.contract == a && SlotOf(log) == slot
  }

  function Running(op: Opcode): LogStep -> bool {
    (log: LogStep) => IsDeep(log) && log.op == op
  }

  /** GAS steps below the top whose next step is below the top too and does not name a call. */
  function LooseGas(rec: seq<LogStep>): nat {
    if |rec| < 2 then 0
    else
      var before, last := Last(Init(rec)), Last(rec);
      LooseGas(Init(rec)) +
      if before.op.GAS? && IsDeep(before) && IsDeep(last) && !last.op.CallNamed? &&
        last.op !in {CALL, CALLCODE, DELEGATECALL, STATICCALL} then 1 else 0
  }

  function Get<K>(m: map<K, nat>, k: K): nat {
    if k in m then m[k] else 0
  }

  /** The table in which an access is counted. */
  function Table(x: AccessInfo, op: Opcode): map<Slot, nat> {
    match op
    case SSTORE => x.slotWrites
    case TLOAD => x.transientReads
    case TSTORE => x.transientWrites
    case _ => map[]
  }

  function AccessWeight(op: Opcode, a: Address, slot: Slot): Level -> int {
    (l: Level) => Get(Table(AccessOf(l, a), op), slot)
  }

  function OpcodeWeight(op: Opcode): Level -> int {
    (l: Level) => Get(l.opcodes, op)
  }

  predicate CountsAccess(op: Opcode) {
    op.SSTORE? || op.TLOAD? || op.TSTORE?
  }

  ghost predicate AccessesSound(s: State, rec: seq<LogStep>) {
    forall op, a, slot :: CountsAccess(op) ==> Sum(s.levels, AccessWeight(op, a, slot)) == CountIf(rec, AtSlot(op, a, slot))
  }

  ghost predicate OpcodesSound(s: State, rec: seq<LogStep>) {
    forall op: Opcode :: !op.GAS? ==>
      Sum(s.levels, OpcodeWeight(op)) == if op.ISZERO? || op.Unimportant? then 0 else CountIf(rec, Running(op))
  }

  ghost predicate GasSound(s: State, rec: seq<LogStep>) {
    Sum(s.levels, OpcodeWeight(GAS)) == LooseGas(rec)
  }

  /** Summed over levels, every count equals the number of recorded steps it stands for. */
  ghost predicate CountsSound(s: State, rec: seq<LogStep>) {
    AccessesSound(s, rec) && OpcodesSound(s, rec) && GasSound(s, rec)
  }

  /** Only the current level changes; the others are final. */
  ghost predicate ExtendsLevels(s: State, s': State) {
    |s.levels| <= |s'.levels| && (s.levels != [] ==> Init(s.levels) == s'.levels[..|s.levels| - 1])
  }

  /** The level the step is charged to, before it is. */
  ghost predicate IsChargedTo(p: State, s': State, log: LogStep, window: seq<OpRecord>, lastOp: Option<Opcode>) {
    p.levels != [] && s'.levels == Init(p.levels) + [Charged(Last(p.levels), window, lastOp, log)]
  }

  // --- sums over levels, when one level changes or opens

  lemma {:induction false} SumLastReplaced(levels: seq<Level>, l: Level, w: Level -> int)
    requires levels != []
    ensures Sum(Init(levels) + [l], w) == Sum(levels, w) - w(Last(levels)) + w(l)
  {
    SumAppend(Init(levels), l, w);
  }

  /** Weighs neither the mark for a shortage of gas nor a level that has just begun. */
  ghost predicate IgnoresMarks(w: Level -> int) {
    && (forall l: Level {:trigger w(l.(oog := true))} :: w(l.(oog := true)) == w(l))
    && forall a: Address :: w(FreshLevel(a)) == 0
  }

  lemma {:induction false} WeightsIgnoreMarks(op: Opcode, a: Address, slot: Slot)
    ensures IgnoresMarks(AccessWeight(op, a, slot)) && IgnoresMarks(OpcodeWeight(op))
  {
  }

  lemma {:induction false} PreparedKeepsSums(s: State, log: LogStep, w: Level -> int)
    requires IgnoresMarks(w)
    ensures Sum(Prepared(s, log).levels, w) == Sum(s.levels, w)
  {
    var levels := if OutOfGas(log) && s.levels != [] then Init(s.levels) + [Last(s.levels).(oog := true)] else s.levels;
    if OutOfGas(log) && s.levels != [] {
      SumLastReplaced(s.levels, Last(s.levels).(oog := true), w);
    }
    SumAppend(levels, FreshLevel(ToAddress(Peek(log.stack, 1))), w);
  }

  lemma {:induction false} OnlyAccessCharges(l: Level, window: seq<OpRecord>, lastOp: Option<Opcode>, log: LogStep)
    ensures WithContractSize(WithExtCode(l, window, log.op), log).access == l.access
    ensures WithContractSize(WithExtCode(l, window, log.op), log).opcodes == l.opcodes
  {
  }

  lemma {:induction false} AccessedCounts(x: AccessInfo, log: LogStep, op: Opcode, slot: Slot)
    requires CountsAccess(op)
    ensures Get(Table(Accessed(x, log), op), slot) ==
      Get(Table(x, op), slot) + if log.op == op && SlotOf(log) == slot then 1 else 0
  {
  }

  lemma {:induction false} AccessAfter(l: Level, log: LogStep, a: Address)
    ensures AccessOf(WithAccess(l, log), a) ==
      if IsStorageOp(log.op) && a == log.contract then Accessed(AccessOf(l, a), log) else AccessOf(l, a)
  {
  }

  lemma {:induction false} AccessCounted(l: Level, log: LogStep, op: Opcode, a: Address, slot: Slot)
    requires CountsAccess(op)
    ensures AccessWeight(op, a, slot)(WithAccess(l, log)) ==
      AccessWeight(op, a, slot)(l) + if log.op == op && log.contract == a && SlotOf(log) == slot then 1 else 0
  {
    AccessAfter(l, log, a);
    AccessedCounts(AccessOf(l, log.contract), log, op, slot);
  }

  lemma {:induction false} ChargedAccess(l: Level, window: seq<OpRecord>, lastOp: Option<Opcode>, log: LogStep,
      op: Opcode, a: Address, slot: Slot)
    requires CountsAccess(op)
    ensures AccessWeight(op, a, slot)(Charged(l, window, lastOp, log)) ==
      AccessWeight(op, a, slot)(l) + if log.op == op && log.contract == a && SlotOf(log) == slot then 1 else 0
  {
    var l1 := WithContractSize(WithExtCode(l, window, log.op), log);
    OnlyAccessCharges(l, window, lastOp, log);
    AccessCounted(WithOpcodes(l1, lastOp, log.op), log, op, a, slot);
  }

  lemma {:induction false} CountedGet<K>(m: map<K, nat>, k: K, x: K)
    ensures Get(Counted(m, k), x) == Get(m, x) + if k == x then 1 else 0
  {
  }

  lemma {:induction false} OpcodesCounted(l: Level, lastOp: Option<Opcode>, logged: Opcode, op: Opcode)
    ensures OpcodeWeight(op)(WithOpcodes(l, lastOp, logged)) ==
      OpcodeWeight(op)(l) +
      (if op.GAS? && lastOp == Some(GAS) && !NameContainsCall(logged) then 1 else 0) +
      (if IsCounted(op) && logged == op then 1 else 0)
  {
    var loose := lastOp == Some(GAS) && !NameContainsCall(logged);
    CountedGet(l.opcodes, GAS, op);
    CountedGet(if loose then Counted(l.opcodes, GAS) else l.opcodes, logged, op);
  }

  lemma {:induction false} ChargedOpcodes(l: Level, window: seq<OpRecord>, lastOp: Option<Opcode>, log: LogStep,
      op: Opcode)
    ensures OpcodeWeight(op)(Charged(l, window, lastOp, log)) ==
      OpcodeWeight(op)(l) +
      (if op.GAS? && lastOp == Some(GAS) && !NameContainsCall(log.op) then 1 else 0) +
      (if IsCounted(op) && log.op == op then 1 else 0)
  {
    OnlyAccessCharges(l, window, lastOp, log);
    OpcodesCounted(WithContractSize(WithExtCode(l, window, log.op), log), lastOp, log.op, op);
  }

  /** The three ways a step that does not throw can end. */
  lemma {:induction false} StepLevels(s: State, log: LogStep)
    requires !s.stopCollecting && Step(s, log).Some?
    ensures
      var p, s' := Prepared(s, log), Step(s, log).value;
      && s'.lastThreeOpcodes == p.lastThreeOpcodes
      && s'.lastOp == (if IsDeep(log) then Some(log.op) else None)
      && if IsDeep(log) && p.levels != [] then IsChargedTo(p, s', log, p.lastThreeOpcodes, s.lastOp)
         else s'.levels == p.levels && (IsDeep(log) ==> !NeedsLevel(p.lastThreeOpcodes, s.lastOp, log.op))
  {
  }

  lemma {:induction false} AccessSumStep(s: State, log: LogStep, op: Opcode, a: Address, slot: Slot)
    requires !s.stopCollecting && Step(s, log).Some? && CountsAccess(op)
    ensures Sum(Step(s, log).value.levels, AccessWeight(op, a, slot)) ==
      Sum(s.levels, AccessWeight(op, a, slot)) + if AtSlot(op, a, slot)(log) then 1 else 0
  {
    var p, w := Prepared(s, log), AccessWeight(op, a, slot);
    StepLevels(s, log);
    WeightsIgnoreMarks(op, a, slot);
    PreparedKeepsSums(s, log, w);
    if IsDeep(log) && p.levels != [] {
      SumLastReplaced(p.levels, Charged(Last(p.levels), p.lastThreeOpcodes, s.lastOp, log), w);
      ChargedAccess(Last(p.levels), p.lastThreeOpcodes, s.lastOp, log, op, a, slot);
    }
  }

  lemma {:induction false} OpcodeSumStep(s: State, log: LogStep, op: Opcode)
    requires !s.stopCollecting && Step(s, log).Some?
    ensures Sum(Step(s, log).value.levels, OpcodeWeight(op)) ==
      Sum(s.levels, OpcodeWeight(op)) +
      (if op.GAS? && IsDeep(log) && s.lastOp == Some(GAS) && !NameContainsCall(log.op) then 1 else 0) +
      (if IsCounted(op) && Running(op)(log) then 1 else 0)
  {
    var p, w := Prepared(s, log), OpcodeWeight(op);
    StepLevels(s, log);
    WeightsIgnoreMarks(op, ADDRESS_ZERO, []);
    PreparedKeepsSums(s, log, w);
    if IsDeep(log) && p.levels != [] {
      SumLastReplaced(p.levels, Charged(Last(p.levels), p.lastThreeOpcodes, s.lastOp, log), w);
      ChargedOpcodes(Last(p.levels), p.lastThreeOpcodes, s.lastOp, log, op);
    }
  }

  lemma {:induction false} AccessCountStep(s: State, rec: seq<LogStep>, log: LogStep)
    requires !s.stopCollecting && Step(s, log).Some? && AccessesSound(s, rec)
    ensures AccessesSound(Step(s, log).value, rec + [log])
  {
    forall op, a, slot | CountsAccess(op)
      ensures Sum(Step(s, log).value.levels, AccessWeight(op, a, slot)) == CountIf(rec + [log], AtSlot(op, a, slot))
    {
      AccessSumStep(s, log, op, a, slot);
      CountIfAppend(rec, log, AtSlot(op, a, slot));
    }
  }

  lemma {:induction false} OpcodeCountStep(s: State, rec: seq<LogStep>, log: LogStep)
    requires !s.stopCollecting && Step(s, log).Some? && OpcodesSound(s, rec)
    ensures OpcodesSound(Step(s, log).value, rec + [log])
  {
    forall op: Opcode | !op.GAS?
      ensures Sum(Step(s, log).value.levels, OpcodeWeight(op)) == if IsCounted(op) then CountIf(rec + [log], Running(op)) else 0
    {
      OpcodeSumStep(s, log, op);
      CountIfAppend(rec, log, Running(op));
    }
  }

  lemma {:induction false} GasCountStep(s: State, rec: seq<LogStep>, log: LogStep)
    requires !s.stopCollecting && Step(s, log).Some? && GasSound(s, rec) && WindowSound(s, rec)
    ensures GasSound(Step(s, log).value, rec + [log])
  {
    OpcodeSumStep(s, log, GAS);
    LooseGasAppend(rec, log);
  }

  lemma {:induction false} LooseGasAppend(rec: seq<LogStep>, log: LogStep)
    ensures LooseGas(rec + [log]) == LooseGas(rec) +
      if rec != [] && Last(rec).op.GAS? && IsDeep(Last(rec)) && IsDeep(log) && !NameContainsCall(log.op) then 1 else 0
  {
    assert Init(rec + [log]) == rec;
  }

  lemma {:induction false} CountIfAppend(rec: seq<LogStep>, log: LogStep, p: LogStep -> bool)
    ensures CountIf(rec + [log], p) == CountIf(rec, p) + if p(log) then 1 else 0
  {
    SumAppend(rec, log, (log: LogStep) => if p(log) then 1 else 0);
  }

  lemma {:induction false} NoneCounted(rec: seq<LogStep>, p: LogStep -> bool)
    ensures CountIf(rec, p) >= 0
    ensures CountIf(rec, p) == 0 ==> forall k :: 0 <= k < |rec| ==> !p(rec[k])
  {
    if rec == [] {
    } else {
      NoneCounted(Init(rec), p);
      CountIfAppend(Init(rec), Last(rec), p);
      assert rec == Init(rec) + [Last(rec)];
    }
  }

  lemma {:induction false} LastNAppend<T>(s: seq<T>, x: T, n: nat)
    ensures LastN(LastN(s, n) + [x], n) == LastN(s + [x], n)
  {
  }

  lemma {:induction false} WindowStep(s: State, rec: seq<LogStep>, log: LogStep)
    requires !s.stopCollecting && Step(s, log).Some? && WindowSound(s, rec)
    ensures WindowSound(Step(s, log).value, rec + [log])
  {
    StepLevels(s, log);
    assert Init(rec + [log]) == rec;
    RecordIs(log);
    LastNAppend(SinceReturn(rec), RecordOf(log), 3);
  }

  /** Whatever the trace: the window is the last three opcodes since a return; writes, transient accesses and
      opcode counts summed over levels equal the recorded steps below the top; and GAS is counted once for each
      GAS step below the top followed by a step below the top that does not name a call. */
  lemma {:induction false} TablesCountSteps(evs: seq<TraceEvent>)
    requires Run(evs).Some?
    ensures WindowSound(Run(evs).value, Recorded(evs)) && CountsSound(Run(evs).value, Recorded(evs))
  {
    if evs != [] {
      TablesCountSteps(Init(evs));
      var s := Run(Init(evs)).value;
      if Last(evs).Stepped? && !s.stopCollecting {
        WindowStep(s, Recorded(Init(evs)), Last(evs).log);
        AccessCountStep(s, Recorded(Init(evs)), Last(evs).log);
        OpcodeCountStep(s, Recorded(Init(evs)), Last(evs).log);
        GasCountStep(s, Recorded(Init(evs)), Last(evs).log);
      }
    } else {
      CountsAtStart();
    }
  }

  lemma {:induction false} CountsAtStart()
    ensures CountsSound(INITIAL, []) && WindowSound(INITIAL, [])
  {
  }

  /** A step never touches a level other than the current one or one it opens. */
  lemma {:induction false} EarlierLevelsAreFinal(s: State, log: LogStep)
    requires Step(s, log).Some?
    ensures ExtendsLevels(s, Step(s, log).value)
  {
    if !s.stopCollecting {
      StepLevels(s, log);
    }
  }
}
