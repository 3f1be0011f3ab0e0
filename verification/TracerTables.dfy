/** When storage reads, gas shortages, calls and logs are recorded, and when recording ends. */
module TracerTables {
  import opened Common
  import opened Sequences
  import opened StorageMaps
  import opened CollectorTracer
  import opened TracerProofs
  import opened TracerSegments

  // ---------- storage reads ----------

  predicate IsLoad(h: Happening, a: Address, slot: Slot) {
    h.Charge? && h.log.op == SLOAD && h.log.contract == a && SlotOf(h.log) == slot
  }

  predicate IsStore(h: Happening, a: Address, slot: Slot) {
    h.Charge? && h.log.op == SSTORE && h.log.contract == a && SlotOf(h.log) == slot
  }

  /** The first SLOAD of the slot in the stretch, with no SSTORE of it before. */
  ghost predicate IsFreshLoad(hs: seq<Happening>, i: int, a: Address, slot: Slot) {
    0 <= i < |hs| && IsLoad(hs[i], a, slot) &&
    forall j :: 0 <= j < i ==> !IsLoad(hs[j], a, slot) && !IsStore(hs[j], a, slot)
  }

  predicate HoldsRead(l: Level, a: Address, slot: Slot) {
    a in l.access && slot in l.access[a].slotReads
  }

  predicate HoldsStore(l: Level, a: Address, slot: Slot) {
    a in l.access && slot in l.access[a].slotWrites
  }

  lemma {:induction false} AccessStep(l: Level, log: LogStep, a: Address, slot: Slot)
    ensures
      var l', loads := WithAccess(l, log), log.op == SLOAD && log.contract == a && SlotOf(log) == slot;
      && (HoldsRead(l', a, slot) <==> HoldsRead(l, a, slot) || (loads && !HoldsStore(l, a, slot)))
      && (HoldsStore(l', a, slot) <==>
            HoldsStore(l, a, slot) || (log.op == SSTORE && log.contract == a && SlotOf(log) == slot))
      && (HoldsRead(l', a, slot) && HoldsRead(l, a, slot) ==> l'.access[a].slotReads[slot] == l.access[a].slotReads[slot])
      && (HoldsRead(l', a, slot) && !HoldsRead(l, a, slot) ==> l'.access[a].slotReads[slot] == ValueAt(log.state, a, slot))
  {
  }

  lemma {:induction false} AppliedReads(l: Level, h: Happening, a: Address, slot: Slot)
    ensures
      var l' := Applied(l, h);
      && (HoldsRead(l', a, slot) <==> HoldsRead(l, a, slot) || (IsLoad(h, a, slot) && !HoldsStore(l, a, slot)))
      && (HoldsStore(l', a, slot) <==> HoldsStore(l, a, slot) || IsStore(h, a, slot))
      && (HoldsRead(l', a, slot) && HoldsRead(l, a, slot) ==> l'.access[a].slotReads[slot] == l.access[a].slotReads[slot])
      && (HoldsRead(l', a, slot) && !HoldsRead(l, a, slot) ==> l'.access[a].slotReads[slot] == ValueAt(h.log.state, a, slot))
  {
    AppliedAccess(l, h);
    if h.Charge? {
      AccessStep(l, h.log, a, slot);
    }
  }

  ghost predicate HasStore(hs: seq<Happening>, a: Address, slot: Slot) {
    exists i :: 0 <= i < |hs| && IsStore(hs[i], a, slot)
  }

  lemma {:induction false} StoresAreHeld(target: Address, hs: seq<Happening>, a: Address, slot: Slot)
    ensures HoldsStore(Replayed(target, hs), a, slot) <==> HasStore(hs, a, slot)
  {
    if hs == [] {
    } else {
      StoresAreHeld(target, Init(hs), a, slot);
      AppliedReads(Replayed(target, Init(hs)), Last(hs), a, slot);
      assert hs == Init(hs) + [Last(hs)];
    }
  }

  ghost predicate HasFreshLoad(hs: seq<Happening>, a: Address, slot: Slot) {
    exists i :: IsFreshLoad(hs, i, a, slot)
  }

  lemma {:induction false} FreshLoadIn(init: seq<Happening>, h: Happening, i: int, a: Address, slot: Slot)
    ensures IsFreshLoad(init + [h], i, a, slot) <==>
      || IsFreshLoad(init, i, a, slot)
      || (i == |init| && IsLoad(h, a, slot) && !HasStore(init, a, slot) && forall j :: 0 <= j < i ==> !IsLoad(init[j], a, slot))
  {
    var all := init + [h];
    assert all[|init|] == h && forall j :: 0 <= j < |init| ==> all[j] == init[j];
  }

  /** Without a store, the first load is fresh. */
  lemma {:induction false} FirstLoadIsFresh(hs: seq<Happening>, a: Address, slot: Slot, i: nat)
    requires i < |hs| && IsLoad(hs[i], a, slot) && !HasStore(hs, a, slot)
    ensures HasFreshLoad(hs, a, slot)
  {
    if forall j :: 0 <= j < i ==> !IsLoad(hs[j], a, slot) {
      assert IsFreshLoad(hs, i, a, slot);
    } else {
      var j :| 0 <= j < i && IsLoad(hs[j], a, slot);
      FirstLoadIsFresh(hs, a, slot, j);
    }
  }

  lemma {:induction false} FreshLoadsExtend(init: seq<Happening>, h: Happening, a: Address, slot: Slot)
    ensures HasFreshLoad(init + [h], a, slot) <==>
      HasFreshLoad(init, a, slot) || (IsLoad(h, a, slot) && !HasStore(init, a, slot))
  {
    if HasFreshLoad(init + [h], a, slot) {
      var i :| IsFreshLoad(init + [h], i, a, slot);
      FreshLoadIn(init, h, i, a, slot);
    }
    if HasFreshLoad(init, a, slot) {
      var i :| IsFreshLoad(init, i, a, slot);
      FreshLoadIn(init, h, i, a, slot);
    } else if IsLoad(h, a, slot) && !HasStore(init, a, slot) {
      forall j | 0 <= j < |init| ensures !IsLoad(init[j], a, slot) {
        if IsLoad(init[j], a, slot) {
          FirstLoadIsFresh(init, a, slot, j);
        }
      }
      FreshLoadIn(init, h, |init|, a, slot);
      assert IsFreshLoad(init + [h], |init|, a, slot);
    }
  }

  /** A level holds a read of a slot exactly when its stretch has an SLOAD of it with no SSTORE of it before. */
  lemma {:induction false} ReadsAreOfFreshLoads(target: Address, hs: seq<Happening>, a: Address, slot: Slot)
    ensures HoldsRead(Replayed(target, hs), a, slot) <==> HasFreshLoad(hs, a, slot)
  {
    if hs == [] {
    } else {
      ReadsAreOfFreshLoads(target, Init(hs), a, slot);
      StoresAreHeld(target, Init(hs), a, slot);
      AppliedReads(Replayed(target, Init(hs)), Last(hs), a, slot);
      FreshLoadsExtend(Init(hs), Last(hs), a, slot);
      assert hs == Init(hs) + [Last(hs)];
    }
  }

  /** And the value held is the one the slot had at the first such SLOAD. */
  lemma {:induction false} ReadIsOfFirstLoad(target: Address, hs: seq<Happening>, i: nat, a: Address, slot: Slot)
    requires IsFreshLoad(hs, i, a, slot)
    ensures HoldsRead(Replayed(target, hs), a, slot)
    ensures Replayed(target, hs).access[a].slotReads[slot] == ValueAt(hs[i].log.state, a, slot)
  {
    var init := Init(hs);
    AppliedReads(Replayed(target, init), Last(hs), a, slot);
    assert hs == init + [Last(hs)];
    FreshLoadIn(init, Last(hs), i, a, slot);
    if i < |hs| - 1 {
      ReadIsOfFirstLoad(target, init, i, a, slot);
    } else {
      StoresAreHeld(target, init, a, slot);
      ReadsAreOfFreshLoads(target, init, a, slot);
    }
  }

  predicate IsAccess(h: Happening, a: Address) {
    h.Charge? && (h.log.op == SLOAD || h.log.op == SSTORE || h.log.op == TLOAD || h.log.op == TSTORE) && h.log.contract == a
  }

  /** A level lists exactly the addresses whose storage its stretch accessed. */
  lemma {:induction false} AccessesAreHeld(target: Address, hs: seq<Happening>, a: Address)
    ensures a in Replayed(target, hs).access <==> exists i :: 0 <= i < |hs| && IsAccess(hs[i], a)
  {
    if hs == [] {
    } else {
      AccessesAreHeld(target, Init(hs), a);
      AppliedAccess(Replayed(target, Init(hs)), Last(hs));
      assert hs == Init(hs) + [Last(hs)];
    }
  }

  // ---------- shortages of gas ----------

  /** A step that has less gas than it costs, or an SSTORE with less than 2300, while the k-th call is the latest. */
  ghost predicate IsShort(rec: seq<LogStep>, i: int, k: int) {
    && 0 <= i < |rec|
    && |Targets(rec[..i])| == k + 1
    && (rec[i].gas < rec[i].cost || (rec[i].op == SSTORE && rec[i].gas < 2300))
  }

  ghost predicate HasShort(rec: seq<LogStep>, k: int) {
    exists i :: IsShort(rec, i, k)
  }

  lemma {:induction false} MarkedExactly(target: Address, hs: seq<Happening>)
    ensures Replayed(target, hs).oog <==> Shortage in hs
  {
    if hs == [] {
    } else {
      MarkedExactly(target, Init(hs));
      AppliedMark(Replayed(target, Init(hs)), Last(hs));
      assert hs == Init(hs) + [Last(hs)];
    }
  }

  lemma {:induction false} AppliedMark(l: Level, h: Happening)
    ensures Applied(l, h).oog <==> l.oog || h == Shortage
  {
  }

  ghost predicate ShortAt(segs: seq<seq<Happening>>, k: int) {
    0 <= k < |segs| && Shortage in segs[k]
  }

  lemma {:induction false} FedShortage(segs: seq<seq<Happening>>, feeds: bool, h: Happening, k: int)
    ensures ShortAt(Fed(Append, segs, feeds, h), k) <==>
      ShortAt(segs, k) || (feeds && h == Shortage && segs != [] && k == |segs| - 1)
  {
  }

  lemma {:induction false} BegunShortage(segs: seq<seq<Happening>>, begins: bool, k: int)
    ensures ShortAt(Begun(segs, begins, []), k) <==> ShortAt(segs, k)
  {
  }

  lemma {:induction false} ShortStep(rec: seq<LogStep>, i: int, k: int)
    requires rec != []
    ensures IsShort(rec, i, k) <==>
      || IsShort(Init(rec), i, k)
      || (i == |rec| - 1 && |Targets(Init(rec))| == k + 1 && OutOfGas(Last(rec)))
  {
    if 0 <= i < |rec| - 1 {
      assert rec[..i] == Init(rec)[..i];
    }
  }

  lemma {:induction false} ShortagesFollowSteps(rec: seq<LogStep>, k: nat)
    ensures ShortAt(Segments(rec), k) <==> HasShort(rec, k)
  {
    if rec == [] {
    } else {
      var log, segs := Last(rec), Segments(Init(rec));
      var fed := Fed(Append, segs, OutOfGas(log), Shortage);
      var begun := Begun(fed, Opens(Targets(Init(rec)), log), []);
      ShortagesFollowSteps(Init(rec), k);
      SegmentForEachTarget(Init(rec));
      FedShortage(segs, OutOfGas(log), Shortage, k);
      BegunShortage(fed, Opens(Targets(Init(rec)), log), k);
      FedShortage(begun, IsDeep(log), ChargeOf(rec), k);
      forall i ensures IsShort(rec, i, k) <==>
          IsShort(Init(rec), i, k) || (i == |rec| - 1 && |Targets(Init(rec))| == k + 1 && OutOfGas(log)) {
        ShortStep(rec, i, k);
      }
      if |segs| == k + 1 && OutOfGas(log) {
        assert IsShort(rec, |rec| - 1, k);
      }
      if exists i :: IsShort(Init(rec), i, k) {
        var i :| IsShort(Init(rec), i, k);
        assert IsShort(rec, i, k);
      }
    }
  }

  lemma {:induction false} MarkAt(levels: seq<Level>, rec: seq<LogStep>, k: nat)
    requires AreReplays(levels, rec) && k < |levels|
    ensures levels[k].oog <==> ShortAt(Segments(rec), k)
  {
    MarkedExactly(Targets(rec)[k], Segments(rec)[k]);
  }

  lemma {:induction false} MarkExactly(levels: seq<Level>, rec: seq<LogStep>, k: nat)
    requires AreReplays(levels, rec) && k < |levels|
    ensures levels[k].oog <==> HasShort(rec, k)
  {
    MarkAt(levels, rec, k);
    ShortagesFollowSteps(rec, k);
  }

  /** Over every trace, a level is marked out of gas exactly when some step ran short while its call was the latest. */
  lemma {:induction false} MarkedExactlyWhenShort(evs: seq<TraceEvent>, k: nat)
    requires Run(evs).Some? && k < |Run(evs).value.levels|
    ensures Run(evs).value.levels[k].oog <==> HasShort(Recorded(evs), k)
  {
    LevelsAreReplays(evs);
    MarkExactly(Run(evs).value.levels, Recorded(evs), k);
  }

  // ---------- when recording ends, and the lists of calls and logs ----------

  /** BeforeExecution is logged by the top-level code. */
  predicate IsMarker(ev: TraceEvent) {
    ev.Stepped? && ev.log.depth == 1 && ev.log.op == LOG(1) &&
    Peek(ev.log.stack, 2) == 0xbb47ee3e183a558b1a2ff0874b079f3fc5478b7454eacf2bfc5af2ff5878f972
  }

  ghost predicate HasMarker(evs: seq<TraceEvent>) {
    exists i :: 0 <= i < |evs| && IsMarker(evs[i])
  }

  /** The events up to the first marker, with it. */
  ghost function Live(evs: seq<TraceEvent>): seq<TraceEvent> {
    if evs == [] then [] else if HasMarker(Init(evs)) then Live(Init(evs)) else evs
  }

  function StepsOf(evs: seq<TraceEvent>): seq<LogStep> {
    if evs == [] then [] else StepsOf(Init(evs)) + if Last(evs).Stepped? then [Last(evs).log] else []
  }

  /** The calls reported, and a return for each RETURN or REVERT of the top-level code, with at most 1999 bytes. */
  function CallsOf(evs: seq<TraceEvent>): seq<CallEvent> {
    if evs == [] then []
    else
      CallsOf(Init(evs)) +
      match Last(evs)
      case Framed(call) => [call]
      case Stepped(log) =>
        if log.depth == 1 && (log.op == RETURN || log.op == REVERT)
        then [Exit(log.op == REVERT, 0, if |log.memory| <= 1999 then log.memory else log.memory[..1999])]
        else []
  }

  /** The logs written below the top, with the topics their opcodes name. */
  function LogsWritten(evs: seq<TraceEvent>): seq<LogInfo> {
    if evs == [] then []
    else
      LogsWritten(Init(evs)) +
      if Last(evs).Stepped? && Last(evs).log.depth != 1 && Last(evs).log.op.LOG? then [WrittenBy(Last(evs).log)] else []
  }

  function WrittenBy(log: LogStep): LogInfo
    requires log.op.LOG?
  {
    LogInfo(seq(log.op.topics, (i: nat) => Peek(log.stack, 2 + i)), log.memory)
  }

  lemma {:induction false} TopicsAre(stack: seq<nat>, n: nat)
    ensures |Topics(stack, n)| == n && forall i :: 0 <= i < n ==> Topics(stack, n)[i] == Peek(stack, 2 + i)
  {
    if n == 0 {
    } else {
      TopicsAre(stack, n - 1);
    }
  }

  lemma {:induction false} LiveGrows(evs: seq<TraceEvent>)
    requires evs != []
    ensures HasMarker(evs) <==> HasMarker(Init(evs)) || IsMarker(Last(evs))
    ensures !HasMarker(Init(evs)) ==> Live(Init(evs)) == Init(evs)
  {
    assert evs == Init(evs) + [Last(evs)];
    if |evs| > 1 {
      assert Init(evs) == Init(Init(evs)) + [Last(Init(evs))];
    }
  }

  lemma {:induction false} StepLists(s: State, log: LogStep)
    requires !s.stopCollecting && Step(s, log).Some?
    ensures
      var s' := Step(s, log).value;
      && (s'.stopCollecting <==> IsMarker(Stepped(log)))
      && s'.calls == s.calls + (if log.depth == 1 && (log.op == RETURN || log.op == REVERT)
           then [Exit(log.op == REVERT, 0, if |log.memory| <= 1999 then log.memory else log.memory[..1999])] else [])
      && s'.logs == s.logs + if log.depth != 1 && log.op.LOG? then [WrittenBy(log)] else []
  {
    if log.op.LOG? {
      TopicsAre(log.stack, log.op.topics);
      assert Topics(log.stack, log.op.topics) == WrittenBy(log).topics;
    }
  }

  /** Over every trace: recording ends with the first marker, and up to there the steps recorded are all the steps,
      the calls listed all the calls and top-level returns, and the logs listed all the logs below the top. */
  lemma {:induction false} ListsAreOfLiveEvents(evs: seq<TraceEvent>)
    requires Run(evs).Some?
    ensures Run(evs).value.stopCollecting <==> HasMarker(evs)
    ensures Recorded(evs) == StepsOf(Live(evs))
    ensures Run(evs).value.calls == CallsOf(Live(evs))
    ensures Run(evs).value.logs == LogsWritten(Live(evs))
  {
    if evs == [] {
    } else {
      ListsAreOfLiveEvents(Init(evs));
      LiveGrows(evs);
      var s := Run(Init(evs)).value;
      if Last(evs).Stepped? && !s.stopCollecting {
        StepLists(s, Last(evs).log);
      }
    }
  }
}
