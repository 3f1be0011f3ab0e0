/** The slot values a validation reports are those from before it began. */
module InitialValues {
  import opened Common
  import opened Sequences
  import opened StorageMaps
  import opened CollectorTracer
  import opened ResultParser
  import opened TracerProofs
  import opened TracerSegments
  import opened TracerTables

  // ---------- how storage evolves under the steps ----------

  ghost predicate Writes(log: LogStep, a: Address, slot: Slot) {
    log.op.SSTORE? && log.contract == a && SlotOf(log) == slot
  }

  /** Between two steps storage changes at most where the first one writes. */
  ghost predicate ChangesOnlyWritten(before: LogStep, after: LogStep) {
    forall a, slot :: Writes(before, a, slot) || ValueAt(after.state, a, slot) == ValueAt(before.state, a, slot)
  }

  ghost predicate FollowsEarlier(rec: seq<LogStep>, i: nat)
    requires 0 < i < |rec|
  {
    ChangesOnlyWritten(rec[i - 1], rec[i]) || exists j :: 0 <= j < i && rec[j].state == rec[i].state
  }

  /** Storage before a step follows from the step before it, or a revert has restored an earlier one; and the
      top-level code is the EntryPoint's. */
  ghost predicate Executes(rec: seq<LogStep>, entryPoint: Address) {
    && (forall i :: 0 <= i < |rec| && !IsDeep(rec[i]) ==> rec[i].contract == entryPoint)
    && forall i :: 0 < i < |rec| ==> FollowsEarlier(rec, i)
  }

  lemma {:induction false} UnwrittenIsInitial(rec: seq<LogStep>, entryPoint: Address, i: nat, a: Address, slot: Slot)
    requires i < |rec| && Executes(rec, entryPoint)
    requires forall k :: 0 <= k < i ==> !Writes(rec[k], a, slot)
    ensures ValueAt(rec[i].state, a, slot) == ValueAt(rec[0].state, a, slot)
    decreases i
  {
    if i == 0 {
    } else {
      assert FollowsEarlier(rec, i);
      if ChangesOnlyWritten(rec[i - 1], rec[i]) {
        assert !Writes(rec[i - 1], a, slot);
        UnwrittenIsInitial(rec, entryPoint, i - 1, a, slot);
      } else {
        var j :| 0 <= j < i && rec[j].state == rec[i].state;
        UnwrittenIsInitial(rec, entryPoint, j, a, slot);
      }
    }
  }

  // ---------- the invariant ----------

  /** Where no earlier level touched an address, a level's reads of it are the values of `base`. */
  ghost predicate ReadsAreFrom(levels: seq<Level>, base: World, entryPoint: Address) {
    forall k, a :: 0 <= k < |levels| && a in levels[k].access && a != entryPoint && UntouchedBefore(levels, k, a) ==>
      ReadsMatch(levels[k].access[a], base, a)
  }

  ghost predicate UntouchedBefore(levels: seq<Level>, k: nat, a: Address)
    requires k <= |levels|
  {
    forall j :: 0 <= j < k ==> a !in levels[j].access
  }

  ghost predicate ReadsMatch(x: AccessInfo, base: World, a: Address) {
    forall slot :: slot in x.slotReads ==> x.slotReads[slot] == ValueAt(base, a, slot)
  }

  lemma {:induction false} PreparedAccess(s: State, log: LogStep)
    ensures
      var levels := Prepared(s, log).levels;
      && |s.levels| <= |levels| <= |s.levels| + 1
      && (forall k :: 0 <= k < |s.levels| ==> levels[k].access == s.levels[k].access)
      && (|levels| > |s.levels| ==> Last(levels).access == map[])
  {
  }

  lemma {:induction false} PreparedReads(s: State, log: LogStep, base: World, entryPoint: Address)
    requires ReadsAreFrom(s.levels, base, entryPoint)
    ensures ReadsAreFrom(Prepared(s, log).levels, base, entryPoint)
  {
    PreparedAccess(s, log);
    var levels := Prepared(s, log).levels;
    forall k, a | 0 <= k < |levels| && a in levels[k].access && a != entryPoint && UntouchedBefore(levels, k, a)
      ensures ReadsMatch(levels[k].access[a], base, a)
    {
      assert k < |s.levels|;
      assert UntouchedBefore(s.levels, k, a) by {
        forall j | 0 <= j < k ensures a !in s.levels[j].access {
          assert levels[j].access == s.levels[j].access;
        }
      }
    }
  }

  lemma {:induction false} NothingWeighed(levels: seq<Level>, a: Address, slot: Slot)
    requires levels != [] && UntouchedBefore(levels, |levels| - 1, a) && slot !in AccessOf(Last(levels), a).slotWrites
    ensures Sum(levels, AccessWeight(SSTORE, a, slot)) == 0
  {
    forall l | l in levels ensures AccessWeight(SSTORE, a, slot)(l) == 0 {
      var k :| 0 <= k < |levels| && levels[k] == l;
    }
    SumZero(levels, AccessWeight(SSTORE, a, slot));
  }

  /** A slot the current level has not written, of an address no earlier level touched, was never written. */
  lemma {:induction false} UnrecordedIsUnwritten(s: State, rec: seq<LogStep>, log: LogStep, entryPoint: Address,
      a: Address, slot: Slot)
    requires AccessesSound(s, rec) && Executes(rec, entryPoint) && a != entryPoint
    requires
      var levels := Prepared(s, log).levels;
      levels != [] && UntouchedBefore(levels, |levels| - 1, a) && slot !in AccessOf(Last(levels), a).slotWrites
    ensures forall k :: 0 <= k < |rec| ==> !Writes(rec[k], a, slot)
  {
    var w := AccessWeight(SSTORE, a, slot);
    NothingWeighed(Prepared(s, log).levels, a, slot);
    WeightsIgnoreMarks(SSTORE, a, slot);
    PreparedKeepsSums(s, log, w);
    NoneCounted(rec, AtSlot(SSTORE, a, slot));
    forall k | 0 <= k < |rec| ensures !Writes(rec[k], a, slot) {
      assert !AtSlot(SSTORE, a, slot)(rec[k]);
    }
  }

  lemma {:induction false} ChargedAccessOf(l: Level, window: seq<OpRecord>, lastOp: Option<Opcode>, log: LogStep)
    ensures Charged(l, window, lastOp, log).access ==
      if IsStorageOp(log.op) then l.access[log.contract := Accessed(AccessOf(l, log.contract), log)] else l.access
  {
  }

  lemma {:induction false} AccessedReads(x: AccessInfo, log: LogStep, base: World)
    requires ReadsMatch(x, base, log.contract)
    requires log.op.SLOAD? && SlotOf(log) !in x.slotReads && SlotOf(log) !in x.slotWrites ==>
      ValueAt(log.state, log.contract, SlotOf(log)) == ValueAt(base, log.contract, SlotOf(log))
    ensures ReadsMatch(Accessed(x, log), base, log.contract)
  {
  }

  /** What the step does to the reads of the level it is charged to. */
  lemma {:induction false} ChargedReads(s: State, rec: seq<LogStep>, log: LogStep, entryPoint: Address, a: Address)
    requires AccessesSound(s, rec) && Executes(rec + [log], entryPoint) && a != entryPoint
    requires
      var levels := Prepared(s, log).levels;
      && levels != [] && UntouchedBefore(levels, |levels| - 1, a)
      && ReadsMatch(AccessOf(Last(levels), a), (rec + [log])[0].state, a)
    ensures
      var level := Charged(Last(Prepared(s, log).levels), Prepared(s, log).lastThreeOpcodes, s.lastOp, log);
      ReadsMatch(AccessOf(level, a), (rec + [log])[0].state, a)
  {
    var p, base := Prepared(s, log), (rec + [log])[0].state;
    var l := Last(p.levels);
    ChargedAccessOf(l, p.lastThreeOpcodes, s.lastOp, log);
    if IsStorageOp(log.op) && a == log.contract {
      var slot := SlotOf(log);
      if slot !in AccessOf(l, a).slotWrites {
        ExecutesPrefix(rec, log, entryPoint);
        UnrecordedIsUnwritten(s, rec, log, entryPoint, a, slot);
        assert (rec + [log])[|rec|] == log;
        UnwrittenIsInitial(rec + [log], entryPoint, |rec|, a, slot);
      }
      AccessedReads(AccessOf(l, a), log, base);
    }
  }

  lemma {:induction false} ExecutesPrefix(rec: seq<LogStep>, log: LogStep, entryPoint: Address)
    requires Executes(rec + [log], entryPoint)
    ensures Executes(rec, entryPoint)
  {
    var all := rec + [log];
    assert forall i :: 0 <= i < |rec| ==> all[i] == rec[i];
    forall i | 0 < i < |rec| ensures FollowsEarlier(rec, i) {
      assert FollowsEarlier(all, i);
      if !ChangesOnlyWritten(all[i - 1], all[i]) {
        var j :| 0 <= j < i && all[j].state == all[i].state;
        assert rec[j].state == rec[i].state;
      }
    }
  }

  lemma {:induction false} ReadsStep(s: State, rec: seq<LogStep>, log: LogStep, entryPoint: Address)
    requires !s.stopCollecting && Step(s, log).Some? && AccessesSound(s, rec) && Executes(rec + [log], entryPoint)
    requires ReadsAreFrom(s.levels, (rec + [log])[0].state, entryPoint)
    ensures ReadsAreFrom(Step(s, log).value.levels, (rec + [log])[0].state, entryPoint)
  {
    var p, base := Prepared(s, log), (rec + [log])[0].state;
    StepLevels(s, log);
    PreparedReads(s, log, base, entryPoint);
    if IsDeep(log) && p.levels != [] {
      var last := |p.levels| - 1;
      var levels := Step(s, log).value.levels;
      forall k, a | 0 <= k < |levels| && a in levels[k].access && a != entryPoint && UntouchedBefore(levels, k, a)
        ensures ReadsMatch(levels[k].access[a], base, a)
      {
        assert UntouchedBefore(p.levels, k, a) by {
          forall j | 0 <= j < k ensures a !in p.levels[j].access {
            assert levels[j] == p.levels[j];
          }
        }
        if k < last {
          assert levels[k] == p.levels[k];
        } else {
          ChargedReads(s, rec, log, entryPoint, a);
        }
      }
    }
  }

  lemma {:induction false} AllReadsAreInitial(evs: seq<TraceEvent>, entryPoint: Address)
    requires Run(evs).Some? && Executes(Recorded(evs), entryPoint)
    ensures Recorded(evs) == [] ==> Run(evs).value.levels == []
    ensures Recorded(evs) != [] ==> ReadsAreFrom(Run(evs).value.levels, Recorded(evs)[0].state, entryPoint)
  {
    if evs == [] {
    } else {
      var s, rec := Run(Init(evs)).value, Recorded(Init(evs));
      TablesCountSteps(Init(evs));
      if Last(evs).Stepped? && !s.stopCollecting {
        var log := Last(evs).log;
        ExecutesPrefix(rec, log, entryPoint);
        AllReadsAreInitial(Init(evs), entryPoint);
        assert rec != [] ==> (rec + [log])[0] == rec[0];
        ReadsStep(s, rec, log, entryPoint);
      } else {
        AllReadsAreInitial(Init(evs), entryPoint);
      }
    }
  }

  /** The k-th level is the first to touch the address, and its reads are what is required of it. */
  ghost predicate IsFirstTouch(levels: seq<Level>, k: int, a: Address, q: Requirement) {
    0 <= k < |levels| && UntouchedBefore(levels, k, a) && a in levels[k].access && q == Slots(levels[k].access[a].slotReads)
  }

  lemma {:induction false} FirstReadsAre(levels: seq<Level>, a: Address)
    requires a in FirstReads(levels)
    ensures exists k :: IsFirstTouch(levels, k, a, FirstReads(levels)[a])
  {
    if a in FirstReads(Init(levels)) {
      FirstReadsAre(Init(levels), a);
      var k :| IsFirstTouch(Init(levels), k, a, FirstReads(Init(levels))[a]);
      assert levels[k] == Init(levels)[k];
      forall j | 0 <= j < k ensures a !in levels[j].access {
        assert levels[j] == Init(levels)[j];
      }
      assert IsFirstTouch(levels, k, a, FirstReads(levels)[a]);
    } else {
      NotInFirstReads(Init(levels), a);
      var k := |levels| - 1;
      forall j | 0 <= j < k ensures a !in levels[j].access {
        assert levels[j] == Init(levels)[j];
      }
      assert IsFirstTouch(levels, k, a, FirstReads(levels)[a]);
    }
  }

  lemma {:induction false} NotInFirstReads(levels: seq<Level>, a: Address)
    ensures a !in FirstReads(levels) <==> UntouchedBefore(levels, |levels|, a)
  {
    if levels == [] {
    } else {
      NotInFirstReads(Init(levels), a);
      assert forall j :: 0 <= j < |levels| - 1 ==> levels[j] == Init(levels)[j];
      assert levels[|levels| - 1] == Last(levels);
    }
  }

  /** Over every trace, whatever reverted in it: each slot value reported for an address other than the
      EntryPoint is the value that slot had before the first recorded step. */
  lemma {:induction false} ReportedValuesAreInitial(evs: seq<TraceEvent>, entryPoint: Address, a: Address)
    requires Run(evs).Some? && Executes(Recorded(evs), entryPoint)
    requires a in FirstReads(Run(evs).value.levels) && a != entryPoint
    ensures Recorded(evs) != []
    ensures
      var q := FirstReads(Run(evs).value.levels)[a];
      q.Slots? && forall slot :: slot in q.slots ==> q.slots[slot] == ValueAt(Recorded(evs)[0].state, a, slot)
  {
    AllReadsAreInitial(evs, entryPoint);
    var levels := Run(evs).value.levels;
    FirstReadsAre(levels, a);
    var k :| IsFirstTouch(levels, k, a, FirstReads(levels)[a]);
    assert ReadsMatch(levels[k].access[a], Recorded(evs)[0].state, a);
  }

  // ---------- nothing read is left out ----------

  ghost predicate AccessedIn(hs: seq<Happening>, a: Address) {
    exists i :: 0 <= i < |hs| && IsAccess(hs[i], a)
  }

  /** The first stretch of the trace that accesses the address. */
  ghost predicate IsFirstStretch(segs: seq<seq<Happening>>, k: int, a: Address) {
    0 <= k < |segs| && AccessedIn(segs[k], a) && forall j :: 0 <= j < k ==> !AccessedIn(segs[j], a)
  }

  lemma {:induction false} LevelAt(evs: seq<TraceEvent>, k: int)
    requires Run(evs).Some? && 0 <= k < |Segments(Recorded(evs))|
    ensures |Run(evs).value.levels| == |Segments(Recorded(evs))| == |Targets(Recorded(evs))|
    ensures Run(evs).value.levels[k] == Replayed(Targets(Recorded(evs))[k], Segments(Recorded(evs))[k])
  {
    LevelsAreReplays(evs);
  }

  lemma {:induction false} TouchedExactly(evs: seq<TraceEvent>, k: int, a: Address)
    requires Run(evs).Some? && 0 <= k < |Segments(Recorded(evs))|
    ensures k < |Run(evs).value.levels|
    ensures a in Run(evs).value.levels[k].access <==> AccessedIn(Segments(Recorded(evs))[k], a)
  {
    LevelAt(evs, k);
    AccessesAreHeld(Targets(Recorded(evs))[k], Segments(Recorded(evs))[k], a);
  }

  lemma {:induction false} FirstTouchDecides(levels: seq<Level>, k: nat, a: Address)
    requires k < |levels| && UntouchedBefore(levels, k, a) && a in levels[k].access
    ensures a in FirstReads(levels) && FirstReads(levels)[a] == Slots(levels[k].access[a].slotReads)
  {
    if k == |levels| - 1 {
      NotInFirstReads(Init(levels), a);
      forall j | 0 <= j < |levels| - 1 ensures a !in Init(levels)[j].access {
        assert levels[j] == Init(levels)[j];
      }
    } else {
      forall j | 0 <= j < k ensures a !in Init(levels)[j].access {
        assert levels[j] == Init(levels)[j];
      }
      FirstTouchDecides(Init(levels), k, a);
    }
  }

  lemma {:induction false} FirstStretchTouches(evs: seq<TraceEvent>, k: int, a: Address)
    requires Run(evs).Some? && IsFirstStretch(Segments(Recorded(evs)), k, a)
    ensures k < |Run(evs).value.levels| && a in Run(evs).value.levels[k].access
    ensures a in FirstReads(Run(evs).value.levels)
    ensures FirstReads(Run(evs).value.levels)[a] == Slots(Run(evs).value.levels[k].access[a].slotReads)
  {
    var levels := Run(evs).value.levels;
    TouchedExactly(evs, k, a);
    forall j | 0 <= j < k ensures a !in levels[j].access {
      TouchedExactly(evs, j, a);
    }
    FirstTouchDecides(levels, k, a);
  }

  lemma {:induction false} ReadsOfStretch(target: Address, hs: seq<Happening>, a: Address, slot: Slot)
    requires a in Replayed(target, hs).access
    ensures
      var slots := Replayed(target, hs).access[a].slotReads;
      && (slot in slots <==> HasFreshLoad(hs, a, slot))
      && forall i :: IsFreshLoad(hs, i, a, slot) ==> slot in slots && slots[slot] == ValueAt(hs[i].log.state, a, slot)
  {
    var slots := Replayed(target, hs).access[a].slotReads;
    ReadsAreOfFreshLoads(target, hs, a, slot);
    forall i | IsFreshLoad(hs, i, a, slot) ensures slot in slots && slots[slot] == ValueAt(hs[i].log.state, a, slot) {
      ReadIsOfFirstLoad(target, hs, i, a, slot);
    }
  }

  /** Over every trace: of an address, the report has exactly the slots that the first stretch accessing the address
      reads before any write of theirs, with the value at the first such read. */
  lemma {:induction false} ReportedExactly(evs: seq<TraceEvent>, k: int, a: Address, slot: Slot)
    requires Run(evs).Some? && IsFirstStretch(Segments(Recorded(evs)), k, a)
    ensures a in FirstReads(Run(evs).value.levels) && FirstReads(Run(evs).value.levels)[a].Slots?
    ensures
      var slots, hs := FirstReads(Run(evs).value.levels)[a].slots, Segments(Recorded(evs))[k];
      && (slot in slots <==> HasFreshLoad(hs, a, slot))
      && forall i :: IsFreshLoad(hs, i, a, slot) ==> slot in slots && slots[slot] == ValueAt(hs[i].log.state, a, slot)
  {
    LevelAt(evs, k);
    FirstStretchTouches(evs, k, a);
    ReadsOfStretch(Targets(Recorded(evs))[k], Segments(Recorded(evs))[k], a, slot);
  }

  /** And the report has exactly the addresses some stretch accesses. */
  lemma {:induction false} ReportedAddresses(evs: seq<TraceEvent>, a: Address)
    requires Run(evs).Some?
    ensures a in FirstReads(Run(evs).value.levels) <==> exists k :: IsFirstStretch(Segments(Recorded(evs)), k, a)
  {
    var levels, segs := Run(evs).value.levels, Segments(Recorded(evs));
    if a in FirstReads(levels) {
      FirstReadsAre(levels, a);
      var k :| IsFirstTouch(levels, k, a, FirstReads(levels)[a]);
      LevelsAreReplays(evs);
      TouchedExactly(evs, k, a);
      forall j | 0 <= j < k ensures !AccessedIn(segs[j], a) {
        TouchedExactly(evs, j, a);
      }
      assert IsFirstStretch(segs, k, a);
    }
    if k :| IsFirstStretch(segs, k, a) {
      FirstStretchTouches(evs, k, a);
    }
  }
}
