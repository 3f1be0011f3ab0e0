/** The tracer that watches a simulated validation
    (packages/validation-manager/src/BundlerCollectorTracer.ts). */
module CollectorTracer {
  import opened Common
  import opened Sequences
  import opened StorageMaps
  import opened Words

  /** Opcodes by name; the last three families gather the names the tracer treats alike. */
  datatype Opcode =
    | GAS | SLOAD | SSTORE | TLOAD | TSTORE
    | CALL | CALLCODE | DELEGATECALL | STATICCALL
    | EXTCODESIZE | EXTCODECOPY | EXTCODEHASH
    | ISZERO | KECCAK256 | RETURN | REVERT
    | LOG(topics: nat)
    | CREATE | CREATE2 | SELFDESTRUCT | BALANCE | SELFBALANCE
    | GASPRICE | GASLIMIT | DIFFICULTY | TIMESTAMP | BASEFEE | BLOCKHASH | NUMBER | ORIGIN
    | COINBASE | RANDOM | PREVRANDAO | INVALID
    | CallNamed(name: string)    // CALLER, CALLVALUE and the CALLDATA family
    | Unimportant(name: string)  // DUP, PUSH, SWAP, POP, arithmetic, comparison, shift and bit opcodes
    | Other(name: string)

  predicate IsExt(op: Opcode) {
    op.EXTCODESIZE? || op.EXTCODECOPY? || op.EXTCODEHASH?
  }

  predicate IsCall(op: Opcode) {
    op.CALL? || op.CALLCODE? || op.DELEGATECALL? || op.STATICCALL?
  }

  predicate NameContainsCall(op: Opcode) {
    IsCall(op) || op.CallNamed?
  }

  /** Opcodes counted under their own name; GAS is counted by what follows it. */
  predicate IsCounted(op: Opcode) {
    !op.GAS? && !op.ISZERO? && !op.Unimportant?
  }

  predicate IsStorageOp(op: Opcode) {
    op.SLOAD? || op.SSTORE? || op.TLOAD? || op.TSTORE?
  }

  /** A step about to execute: the stack from its top, the memory its top two words designate, the contract
      whose storage is in use, all storage, and the code length of the address the step inspects. */
  datatype LogStep = LogStep(
    op: Opcode,
    depth: nat,
    gas: nat,
    cost: nat,
    stack: seq<nat>,
    memory: Bytes,
    contract: Address,
    state: World,
    codeLength: nat)

  function Peek(stack: seq<nat>, i: nat): nat {
    if i < |stack| then stack[i] else 0
  }

  function ToAddress(word: nat): Address {
    FromNat(word, 20)
  }

  function SlotOf(log: LogStep): Slot {
    FromNat(Peek(log.stack, 0), 32)
  }

  datatype Frame = Frame(kind: string, from: Address, to: Address, selector: Bytes, gas: nat, value: nat)

  datatype CallEvent =
    | Enter(frame: Frame)
    | Exit(reverted: bool, gasUsed: nat, data: Bytes)

  datatype AccessInfo = AccessInfo(
    slotReads: map<Slot, Word>,
    slotWrites: map<Slot, nat>,
    transientReads: map<Slot, nat>,
    transientWrites: map<Slot, nat>)

  datatype ContractSize = ContractSize(contractSize: nat, opcode: Opcode)

  /** What is collected during one top-level call from the EntryPoint. */
  datatype Level = Level(
    topLevelTargetAddress: Address,
    opcodes: map<Opcode, nat>,
    access: map<Address, AccessInfo>,
    contractSize: map<Address, ContractSize>,
    extCodeAccessInfo: map<Address, Opcode>,
    oog: bool)

  datatype LogInfo = LogInfo(topics: seq<nat>, data: Bytes)

  datatype OpRecord = OpRecord(opcode: Opcode, stackTop3: seq<nat>)

  /** The tracer's fields; the current level is the last one. */
  datatype State = State(
    levels: seq<Level>,
    keccak: seq<Bytes>,
    calls: seq<CallEvent>,
    logs: seq<LogInfo>,
    lastOp: Option<Opcode>,
    lastThreeOpcodes: seq<OpRecord>,
    stopCollecting: bool)

  const INITIAL := State([], [], [], [], None, [], false)

  /** The SenderCreator the EntryPoint deploys its accounts through. */
  const SENDER_CREATOR: Address := FromNat(0xefc2c1444ebcc4db75e7613d20c6a62ff67a167c, 20)

  /** The topic of BeforeExecution(). */
  const STOP_TOPIC: nat := 0xbb47ee3e183a558b1a2ff0874b079f3fc5478b7454eacf2bfc5af2ff5878f972

  const MAX_RETURN_BYTES := 1999

  function Counted<K>(m: map<K, nat>, k: K): map<K, nat> {
    m[k := (if k in m then m[k] else 0) + 1]
  }

  function LastN<T>(s: seq<T>, n: nat): seq<T> {
    if |s| <= n then s else s[|s| - n..]
  }

  function FreshLevel(target: Address): Level {
    Level(target, map[], map[], map[], map[], false)
  }

  function Truncated(data: Bytes): Bytes {
    if |data| <= MAX_RETURN_BYTES then data else data[..MAX_RETURN_BYTES]
  }

  function RecordOf(log: LogStep): OpRecord {
    OpRecord(log.op, if |log.stack| <= 3 then log.stack else log.stack[..3])
  }

  predicate OutOfGas(log: LogStep) {
    log.gas < log.cost || (log.op.SSTORE? && log.gas < 2300)
  }

  predicate OpensLevel(s: State, log: LogStep) {
    (log.op.CALL? || log.op.STATICCALL?) &&
    (log.depth == 1 ||
     (log.depth == 2 && s.levels != [] && Last(s.levels).topLevelTargetAddress == SENDER_CREATOR))
  }

  // ---------- what a step below the top adds to the current level ----------

  /** The opcode before the latest one, if it inspected an account's code. */
  predicate FollowsExt(window: seq<OpRecord>) {
    |window| >= 2 && IsExt(window[|window| - 2].opcode)
  }

  /** The one harmless inspection: a size test, with something before it. */
  predicate IsSizeTest(window: seq<OpRecord>) {
    |window| == 3 && window[1].opcode.EXTCODESIZE? && window[2].opcode.ISZERO?
  }

  function WithExtCode(l: Level, window: seq<OpRecord>, op: Opcode): Level {
    if FollowsExt(window) && !IsSizeTest(window)
    then l.(extCodeAccessInfo := l.extCodeAccessInfo[ToAddress(Peek(window[|window| - 2].stackTop3, 0)) := op])
    else l
  }

  predicate IsAllowedPrecompile(a: Address) {
    0 < ToNat(a) < 10
  }

  function WithContractSize(l: Level, log: LogStep): Level {
    if IsExt(log.op) || IsCall(log.op) then
      var a := ToAddress(Peek(log.stack, if IsExt(log.op) then 0 else 1));
      if a !in l.contractSize && !IsAllowedPrecompile(a)
      then l.(contractSize := l.contractSize[a := ContractSize(log.codeLength, log.op)]) else l
    else l
  }

  function WithOpcodes(l: Level, lastOp: Option<Opcode>, op: Opcode): Level {
    var counts := if lastOp == Some(GAS) && !NameContainsCall(op) then Counted(l.opcodes, GAS) else l.opcodes;
    l.(opcodes := if IsCounted(op) then Counted(counts, op) else counts)
  }

  function AccessOf(l: Level, a: Address): AccessInfo {
    if a in l.access then l.access[a] else AccessInfo(map[], map[], map[], map[])
  }

  function Accessed(x: AccessInfo, log: LogStep): AccessInfo {
    var slot := SlotOf(log);
    match log.op
    case SLOAD =>
      if slot !in x.slotReads && slot !in x.slotWrites
      then x.(slotReads := x.slotReads[slot := ValueAt(log.state, log.contract, slot)]) else x
    case SSTORE => x.(slotWrites := Counted(x.slotWrites, slot))
    case TLOAD => x.(transientReads := Counted(x.transientReads, slot))
    case TSTORE => x.(transientWrites := Counted(x.transientWrites, slot))
    case _ => x
  }

  function WithAccess(l: Level, log: LogStep): Level {
    if IsStorageOp(log.op) then l.(access := l.access[log.contract := Accessed(AccessOf(l, log.contract), log)]) else l
  }

  function Charged(l: Level, window: seq<OpRecord>, lastOp: Option<Opcode>, log: LogStep): Level {
    WithAccess(WithOpcodes(WithContractSize(WithExtCode(l, window, log.op), log), lastOp, log.op), log)
  }

  /** Whether a step below the top looks at the current level at all. */
  predicate NeedsLevel(window: seq<OpRecord>, lastOp: Option<Opcode>, op: Opcode) {
    || (FollowsExt(window) && !IsSizeTest(window))
    || IsExt(op) || IsCall(op) || IsCounted(op)
    || (lastOp == Some(GAS) && !NameContainsCall(op))
  }

  // ---------- the step ----------

  function Windowed(s: State, log: LogStep): seq<OpRecord> {
    LastN(s.lastThreeOpcodes + [RecordOf(log)], 3)
  }

  predicate IsReturn(op: Opcode) {
    op.RETURN? || op.REVERT?
  }

  /** The part of a step that comes before levels are charged. */
  function Prepared(s: State, log: LogStep): State {
    var levels := if OutOfGas(log) && s.levels != [] then Init(s.levels) + [Last(s.levels).(oog := true)] else s.levels;
    s.(levels := if OpensLevel(s, log) then levels + [FreshLevel(ToAddress(Peek(log.stack, 1)))] else levels,
       calls := if IsReturn(log.op) && log.depth == 1
                then s.calls + [Exit(log.op.REVERT?, 0, Truncated(log.memory))] else s.calls,
       lastThreeOpcodes := if IsReturn(log.op) then [] else Windowed(s, log))
  }

  function Topics(stack: seq<nat>, n: nat): seq<nat> {
    if n == 0 then [] else Topics(stack, n - 1) + [Peek(stack, 2 + (n - 1))]
  }

  function WithData(s: State, log: LogStep): State {
    match log.op
    case KECCAK256 => if 20 < Peek(log.stack, 1) < 512 then s.(keccak := s.keccak + [log.memory]) else s
    case LOG(n) => s.(logs := s.logs + [LogInfo(Topics(log.stack, n), log.memory)])
    case _ => s
  }

  /** A step; None when the tracer throws, having no level to write to. */
  function Step(s: State, log: LogStep): Option<State> {
    if s.stopCollecting then Some(s)
    else if OutOfGas(log) && s.levels == [] then None
    else
      var p := Prepared(s, log);
      if log.depth == 1 then
        Some(p.(lastOp := None, stopCollecting := log.op == LOG(1) && Peek(log.stack, 2) == STOP_TOPIC))
      else if p.levels != [] then
        var level := Charged(Last(p.levels), p.lastThreeOpcodes, s.lastOp, log);
        Some(WithData(p.(levels := Init(p.levels) + [level], lastOp := Some(log.op)), log))
      else if NeedsLevel(p.lastThreeOpcodes, s.lastOp, log.op) then None
      else Some(p.(lastOp := Some(log.op)))
  }

  function Called(s: State, call: CallEvent): State {
    if s.stopCollecting then s else s.(calls := s.calls + [call])
  }

  // ---------- the object ----------

  class BundlerCollectorTracer {
    var callsFromEntryPoint: seq<Level>
    var topLevelCallCounter: nat
    var keccak: seq<Bytes>
    var calls: seq<CallEvent>
    var logs: seq<LogInfo>
    var lastOp: Option<Opcode>
    var lastThreeOpcodes: seq<OpRecord>
    var stopCollecting: bool

    constructor ()
      ensures Valid() && Current() == INITIAL
    {
      callsFromEntryPoint, topLevelCallCounter := [], 0;
      keccak, calls, logs, lastOp, lastThreeOpcodes, stopCollecting := [], [], [], None, [], false;
    }

    ghost predicate Valid()
      reads this
    {
      topLevelCallCounter == |callsFromEntryPoint|
    }

    ghost function Current(): State
      reads this
    {
      State(callsFromEntryPoint, keccak, calls, logs, lastOp, lastThreeOpcodes, stopCollecting)
    }

    method OnEnter(frame: Frame)
      modifies this`calls
      ensures Current() == Called(old(Current()), Enter(frame))
    {
      if stopCollecting {
        return;
      }
      calls := calls + [Enter(frame)];
    }

    method OnExit(failed: bool, gasUsed: nat, output: Bytes)
      modifies this`calls
      ensures Current() == Called(old(Current()), Exit(failed, gasUsed, Truncated(output)))
    {
      if stopCollecting {
        return;
      }
      calls := calls + [Exit(failed, gasUsed, Truncated(output))];
    }

    method OnStep(log: LogStep) returns (threw: bool)
      requires Valid()
      modifies this
      ensures Valid() || threw
      ensures
        match Step(old(Current()), log)
        case None => threw
        case Some(s) => !threw && Current() == s
    {
      if stopCollecting {
        return false;
      }
      threw := Prepare(log);
      if threw {
        return;
      }
      if log.depth == 1 {
        if log.op == LOG(1) && Peek(log.stack, 2) == STOP_TOPIC {
          stopCollecting := true;
        }
        lastOp := None;
        return;
      }
      threw := Charge(log);
      if !threw {
        Collect(log);
      }
    }

    /** Remembers the opcode, notes a shortage of gas, closes the top-level call and opens levels. */
    method Prepare(log: LogStep) returns (threw: bool)
      requires Valid() && !stopCollecting
      modifies this
      ensures threw <==> OutOfGas(log) && old(callsFromEntryPoint) == []
      ensures !threw ==> Valid() && Current() == Prepared(old(Current()), log)
    {
      lastThreeOpcodes := lastThreeOpcodes + [RecordOf(log)];
      if |lastThreeOpcodes| > 3 {
        lastThreeOpcodes := LastN(lastThreeOpcodes, 3);
      }
      var opens := (log.op.CALL? || log.op.STATICCALL?) &&
        (log.depth == 1 ||
         (log.depth == 2 && |callsFromEntryPoint| > 0 && Last(callsFromEntryPoint).topLevelTargetAddress == SENDER_CREATOR));
      if OutOfGas(log) {
        if |callsFromEntryPoint| == 0 {
          return true;
        }
        callsFromEntryPoint := Init(callsFromEntryPoint) + [Last(callsFromEntryPoint).(oog := true)];
      }
      if log.op.REVERT? || log.op.RETURN? {
        if log.depth == 1 {
          calls := calls + [Exit(log.op.REVERT?, 0, Truncated(log.memory))];
        }
        lastThreeOpcodes := [];
      }
      if opens {
        callsFromEntryPoint := callsFromEntryPoint + [FreshLevel(ToAddress(Peek(log.stack, 1)))];
        topLevelCallCounter := topLevelCallCounter + 1;
      }
      threw := false;
    }

    /** Charges a step below the top to the current level. */
    method Charge(log: LogStep) returns (threw: bool)
      requires Valid()
      modifies this`callsFromEntryPoint, this`lastOp
      ensures
        var s := old(Current());
        && (threw <==> s.levels == [] && NeedsLevel(s.lastThreeOpcodes, s.lastOp, log.op))
        && (!threw ==> Valid() && Current() == s.(lastOp := Some(log.op), levels :=
              if s.levels == [] then [] else Init(s.levels) + [Charged(Last(s.levels), s.lastThreeOpcodes, s.lastOp, log)]))
    {
      if |callsFromEntryPoint| == 0 {
        if NeedsLevel(lastThreeOpcodes, lastOp, log.op) {
          return true;
        }
        lastOp := Some(log.op);
        return false;
      }
      var level := Last(callsFromEntryPoint);
      level := WithExtCode(level, lastThreeOpcodes, log.op);
      level := WithContractSize(level, log);
      if lastOp == Some(GAS) && !NameContainsCall(log.op) {
        level := level.(opcodes := Counted(level.opcodes, GAS));
      }
      if IsCounted(log.op) {
        level := level.(opcodes := Counted(level.opcodes, log.op));
      }
      lastOp := Some(log.op);
      if IsStorageOp(log.op) {
        level := level.(access := level.access[log.contract := Accessed(AccessOf(level, log.contract), log)]);
      }
      callsFromEntryPoint := Init(callsFromEntryPoint) + [level];
      threw := false;
    }

    /** Collects hashed data and logs. */
    method Collect(log: LogStep)
      modifies this`keccak, this`logs
      ensures Current() == WithData(old(Current()), log)
    {
      match log.op {
        case KECCAK256 =>
          var len := Peek(log.stack, 1);
          if len > 20 && len < 512 {
            keccak := keccak + [log.memory];
          }
        case LOG(count) =>
          var topics: seq<nat> := [];
          for i := 0 to count
            invariant topics == Topics(log.stack, i)
          {
            topics := topics + [Peek(log.stack, 2 + i)];
          }
          logs := logs + [LogInfo(topics, log.memory)];
        case _ =>
      }
    }
  }
}
