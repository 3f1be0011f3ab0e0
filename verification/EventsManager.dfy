/** Following the EntryPoint's events on the chain (packages/bundler/src/modules/EventsManager.ts). */
module Events {
  import opened Common
  import opened Reputation
  import opened Mempool
  import opened Sequences

  const SCAN_WINDOW := 1000

  datatype Event =
    | UserOperationEvent(block: nat, tx: Bytes, userOpHash: Bytes, sender: Bytes, paymaster: Bytes)
    | AccountDeployed(block: nat, tx: Bytes, factory: Bytes)
    | AggregatorChanged(block: nat, tx: Bytes, aggregator: Bytes)
    | OtherEvent(block: nat, tx: Bytes)

  /** The manager's fields and the objects it updates, with all the events handled so far. */
  datatype Tracker = Tracker(
    lastBlock: Option<nat>,
    eventAggregator: Option<Bytes>,
    eventAggregatorTxHash: Option<Bytes>,
    mempool: State,
    handled: seq<Event>)

  /** The address at the front of some data, if there is enough of it. */
  function AddressIn(data: Option<Bytes>): Option<Address> {
    if data.Some? && |data.value| >= 20 then Some(data.value[..20]) else None
  }

  function Credited(s: State, data: Option<Bytes>): State {
    if AddressIn(data).None? then s else s.(table := Included(s.table, AddressIn(data).value))
  }

  /** The aggregator of the event's transaction, as far as it was announced. */
  function KnownAggregator(t: Tracker, tx: Bytes): Option<Bytes> {
    if t.eventAggregatorTxHash == Some(tx) then t.eventAggregator else None
  }

  function Handle(t: Tracker, ev: Event): Tracker {
    var t' := t.(lastBlock := Some(ev.block + 1), handled := t.handled + [ev]);
    match ev
    case UserOperationEvent(_, tx, hash, sender, paymaster) =>
      var aggregator := KnownAggregator(t, tx);
      var s := Credited(Credited(RemovedByHash(t.mempool, hash), Some(sender)), Some(paymaster));
      t'.(eventAggregator := aggregator, eventAggregatorTxHash := Some(tx), mempool := Credited(s, aggregator))
    case AccountDeployed(_, _, factory) => t'.(mempool := Credited(t.mempool, Some(factory)))
    case AggregatorChanged(_, tx, aggregator) => t'.(eventAggregator := Some(aggregator), eventAggregatorTxHash := Some(tx))
    case OtherEvent(_, _) => t'
  }

  function HandleAll(t: Tracker, evs: seq<Event>): Tracker {
    if evs == [] then t else Handle(HandleAll(t, Init(evs)), Last(evs))
  }

  function Max(x: int, y: int): int {
    if x >= y then x else y
  }

  /** The first block the next scan asks for. */
  function ScanFrom(t: Tracker, head: nat): nat {
    if t.lastBlock.None? || head - t.lastBlock.value >= SCAN_WINDOW then Max(1, head - SCAN_WINDOW) else t.lastBlock.value
  }

  function Query(chain: seq<Event>, from: nat, head: nat): seq<Event> {
    Filter(chain, (ev: Event) => from <= ev.block <= head)
  }

  /** One scan, with `head` the latest block: events of later blocks do not exist yet. */
  function Scan(t: Tracker, chain: seq<Event>, head: nat): Tracker {
    var from := ScanFrom(t, head);
    HandleAll(t.(lastBlock := Some(from)), Query(chain, from, head))
  }

  class EventsManager {
    var lastBlock: Option<nat>
    var eventAggregator: Option<Bytes>
    var eventAggregatorTxHash: Option<Bytes>
    ghost var handled: seq<Event>
    const mempoolManager: MempoolManager
    const reputationManager: ReputationManager

    constructor (mempoolManager: MempoolManager)
      ensures this.mempoolManager == mempoolManager && reputationManager == mempoolManager.reputationManager
      ensures lastBlock == None && eventAggregator == None && eventAggregatorTxHash == None && handled == []
    {
      this.mempoolManager := mempoolManager;
      this.reputationManager := mempoolManager.reputationManager;
      lastBlock, eventAggregator, eventAggregatorTxHash := None, None, None;
      handled := [];
    }

    ghost function CurrentTracker(): Tracker
      reads this, mempoolManager, mempoolManager.reputationManager
    {
      Tracker(lastBlock, eventAggregator, eventAggregatorTxHash, mempoolManager.CurrentState(), handled)
    }

    /** `head` and `events` answer the two calls to the provider. */
    method HandlePastEvents(chain: seq<Event>, head: nat)
      requires reputationManager == mempoolManager.reputationManager
      modifies this, mempoolManager`mempool, mempoolManager`entryCount, reputationManager`entries
      ensures CurrentTracker() == Scan(old(CurrentTracker()), chain, head)
    {
      ghost var t := CurrentTracker();
      if lastBlock.None? || head - lastBlock.value >= SCAN_WINDOW {
        lastBlock := Some(Max(1, head - SCAN_WINDOW));
      }
      ghost var t' := CurrentTracker();
      var events := Query(chain, lastBlock.value, head);
      for i := 0 to |events|
        invariant CurrentTracker() == HandleAll(t', events[..i])
      {
        assert Init(events[..i + 1]) == events[..i];
        HandleEvent(events[i]);
      }
      assert events[..|events|] == events;
    }

    method HandleEvent(ev: Event)
      requires reputationManager == mempoolManager.reputationManager
      modifies this, mempoolManager`mempool, mempoolManager`entryCount, reputationManager`entries
      ensures CurrentTracker() == Handle(old(CurrentTracker()), ev)
    {
      match ev {
        case UserOperationEvent(_, tx, userOpHash, sender, paymaster) =>
          mempoolManager.RemoveUserOpByHash(userOpHash);
          IncludedAddress(Some(sender));
          IncludedAddress(Some(paymaster));
          var aggregator := GetEventAggregator(tx);
          IncludedAddress(aggregator);
        case AccountDeployed(_, _, factory) =>
          IncludedAddress(Some(factory));
        case AggregatorChanged(_, tx, aggregator) =>
          eventAggregator := Some(aggregator);
          eventAggregatorTxHash := Some(tx);
        case OtherEvent(_, _) =>
      }
      lastBlock := Some(ev.block + 1);
      handled := handled + [ev];
    }

    method GetEventAggregator(tx: Bytes) returns (aggregator: Option<Bytes>)
      modifies this`eventAggregator, this`eventAggregatorTxHash
      ensures aggregator == KnownAggregator(old(CurrentTracker()), tx) == eventAggregator
      ensures eventAggregatorTxHash == Some(tx)
    {
      if eventAggregatorTxHash != Some(tx) {
        eventAggregator := None;
        eventAggregatorTxHash := Some(tx);
      }
      aggregator := eventAggregator;
    }

    method IncludedAddress(data: Option<Bytes>)
      requires reputationManager == mempoolManager.reputationManager
      modifies reputationManager`entries
      ensures mempoolManager.CurrentState() == Credited(old(mempoolManager.CurrentState()), data)
    {
      if data.Some? && |data.value| >= 20 {
        reputationManager.UpdateIncludedStatus(data.value[..20]);
      }
    }
  }

  // ---------- which events a run of scans handles ----------

  /** How many blocks back a scan can look. */
  const LOOK_BACK: int := 1000

  ghost predicate InBlockOrder(chain: seq<Event>) {
    forall i, j :: 0 <= i < j < |chain| ==> chain[i].block <= chain[j].block
  }

  ghost predicate NonDecreasing(heads: seq<nat>) {
    forall i :: 0 < i < |heads| ==> heads[i - 1] <= heads[i]
  }

  function ScanAll(t: Tracker, chain: seq<Event>, heads: seq<nat>): Tracker {
    if heads == [] then t else Scan(ScanAll(t, chain, Init(heads)), chain, Last(heads))
  }

  /** Blocks whose events the scans at the given heads handle, starting from no cursor. */
  predicate Covered(heads: seq<nat>, block: nat)
    requires heads != []
  {
    if |heads| == 1 then Max(1, heads[0] - LOOK_BACK) <= block <= heads[0]
    else
      || Covered(Init(heads), block)
      || (Last(Init(heads)) < block <= Last(heads) && block >= Last(heads) - LOOK_BACK)
  }

  function Handled(chain: seq<Event>, heads: seq<nat>): seq<Event>
    requires heads != []
  {
    Filter(chain, (ev: Event) => Covered(heads, ev.block))
  }

  lemma {:induction false} CoveredUpTo(heads: seq<nat>, block: nat)
    requires heads != [] && NonDecreasing(heads) && Covered(heads, block)
    ensures Max(1, heads[0] - LOOK_BACK) <= block <= Last(heads)
  {
    if |heads| > 1 && Covered(Init(heads), block) {
      CoveredUpTo(Init(heads), block);
    } else if |heads| > 1 {
      HeadsOrdered(heads, |heads| - 2);
    }
  }

  lemma {:induction false} HeadsOrdered(heads: seq<nat>, i: nat)
    requires i < |heads| && NonDecreasing(heads)
    ensures heads[0] <= heads[i]
  {
    if i == 0 {
    } else {
      HeadsOrdered(heads, i - 1);
    }
  }

  lemma {:induction false} HandleAllLast(t: Tracker, evs: seq<Event>)
    requires evs != []
    ensures HandleAll(t, evs) == Handle(HandleAll(t, Init(evs)), Last(evs))
  {
  }

  lemma {:induction false} HandleAllConcat(t: Tracker, a: seq<Event>, b: seq<Event>)
    ensures HandleAll(t, a + b) == HandleAll(HandleAll(t, a), b)
  {
    if b == [] {
      assert a + b == a;
    } else {
      HandleAllConcat(t, a, Init(b));
      assert Init(a + b) == a + Init(b);
      HandleAllLast(t, a + b);
      HandleAllLast(HandleAll(t, a), b);
    }
  }

  lemma {:induction false} HandledAre(t: Tracker, evs: seq<Event>)
    ensures HandleAll(t, evs).handled == t.handled + evs
  {
    if evs == [] {
    } else {
      HandledAre(t, Init(evs));
      assert evs == Init(evs) + [Last(evs)];
    }
  }

  /** The cursor only decides what is asked for next: handling does not read it. */
  lemma {:induction false} CursorIgnored(t: Tracker, c: Option<nat>, evs: seq<Event>)
    ensures HandleAll(t.(lastBlock := c), evs) ==
      HandleAll(t, evs).(lastBlock := if evs == [] then c else Some(Last(evs).block + 1))
  {
    if evs == [] {
    } else {
      CursorIgnored(t, c, Init(evs));
    }
  }

  /** In a chain in block order, what is selected up to a block comes before what is selected after it. */
  lemma {:induction false} FilterInBlockOrder(chain: seq<Event>, h: int, p: Event -> bool, q: Event -> bool,
      r: Event -> bool)
    requires InBlockOrder(chain)
    requires forall ev :: ev in chain && p(ev) ==> ev.block <= h
    requires forall ev :: ev in chain && q(ev) ==> ev.block > h
    requires forall ev :: ev in chain ==> (r(ev) <==> p(ev) || q(ev))
    ensures Filter(chain, p) + Filter(chain, q) == Filter(chain, r)
  {
    if chain == [] {
    } else {
      var init, last := Init(chain), Last(chain);
      assert chain == init + [last];
      FilterInBlockOrder(init, h, p, q, r);
      if p(last) {
        NothingAfter(init, last.block, h, q);
      }
    }
  }

  lemma {:induction false} NothingAfter(chain: seq<Event>, top: nat, h: int, q: Event -> bool)
    requires top <= h && forall ev :: ev in chain ==> ev.block <= top
    requires forall ev :: ev in chain && q(ev) ==> ev.block > h
    ensures Filter(chain, q) == []
  {
    if chain == [] {
    } else {
      assert chain == Init(chain) + [Last(chain)];
      NothingAfter(Init(chain), top, h, q);
    }
  }

  /** Where the cursor stands after scanning up to head h: past every event so far, and at most at h + 1. */
  ghost predicate CursorPast(t: Tracker, chain: seq<Event>, h: nat) {
    && t.lastBlock.Some? && 1 <= t.lastBlock.value <= h + 1
    && forall ev :: ev in chain && ev.block <= h ==> ev.block < t.lastBlock.value
  }

  lemma {:induction false} ScanMovesCursor(t: Tracker, chain: seq<Event>, h: nat)
    requires InBlockOrder(chain) && 1 <= ScanFrom(t, h) <= h + 1
    ensures CursorPast(Scan(t, chain, h), chain, h) && Scan(t, chain, h).lastBlock.value >= ScanFrom(t, h)
  {
    var from := ScanFrom(t, h);
    var p := (ev: Event) => from <= ev.block <= h;
    var evs := Filter(chain, p);
    CursorIgnored(t, Some(from), evs);
    FilterMembers(chain, p);
    if evs != [] {
      assert Last(evs) in evs;
      LastIsLatest(chain, p);
    }
    forall ev | ev in chain && ev.block <= h ensures ev.block < Scan(t, chain, h).lastBlock.value {
      if from <= ev.block {
        assert ev in evs;
      }
    }
  }

  lemma {:induction false} LastIsLatest(chain: seq<Event>, p: Event -> bool)
    requires InBlockOrder(chain)
    ensures forall ev :: ev in Filter(chain, p) ==> ev.block <= Last(Filter(chain, p)).block
  {
    if chain == [] {
    } else {
      LastIsLatest(Init(chain), p);
      FilterMembers(Init(chain), p);
      assert chain == Init(chain) + [Last(chain)];
    }
  }

  /** Over every run of scans from no cursor, at heads that never go back: the events of exactly the covered
      blocks are handled, each once and in chain order, and the cursor ends past everything seen. */
  lemma {:induction false} ScansHandleCoveredOnce(t: Tracker, chain: seq<Event>, heads: seq<nat>)
    requires t.lastBlock == None && InBlockOrder(chain) && heads != [] && NonDecreasing(heads)
    ensures ScanAll(t, chain, heads).(lastBlock := None) == HandleAll(t, Handled(chain, heads)).(lastBlock := None)
    ensures ScanAll(t, chain, heads).handled == t.handled + Handled(chain, heads)
    ensures CursorPast(ScanAll(t, chain, heads), chain, Last(heads))
    decreases |heads|
  {
    HandledAre(t, Handled(chain, heads));
    var h := Last(heads);
    if |heads| == 1 {
      assert ScanAll(t, chain, Init(heads)) == t;
      FirstScan(t, chain, heads);
    } else {
      var init := Init(heads);
      ScansHandleCoveredOnce(t, chain, init);
      assert heads[|heads| - 2] <= heads[|heads| - 1];
      NextScan(t, chain, heads, ScanAll(t, chain, init));
    }
  }

  lemma {:induction false} FirstScan(t: Tracker, chain: seq<Event>, heads: seq<nat>)
    requires t.lastBlock == None && InBlockOrder(chain) && |heads| == 1
    ensures Scan(t, chain, heads[0]).(lastBlock := None) == HandleAll(t, Handled(chain, heads)).(lastBlock := None)
    ensures CursorPast(Scan(t, chain, heads[0]), chain, heads[0])
  {
    var h := heads[0];
    var from := ScanFrom(t, h);
    FilterSame(chain, (ev: Event) => from <= ev.block <= h, (ev: Event) => Covered(heads, ev.block));
    CursorIgnored(t, Some(from), Query(chain, from, h));
    CursorIgnored(t, None, Query(chain, from, h));
    ScanMovesCursor(t, chain, h);
  }

  lemma {:induction false} NextScan(t: Tracker, chain: seq<Event>, heads: seq<nat>, u: Tracker)
    requires InBlockOrder(chain) && |heads| > 1 && NonDecreasing(heads)
    requires u.(lastBlock := None) == HandleAll(t, Handled(chain, Init(heads))).(lastBlock := None)
    requires CursorPast(u, chain, Last(Init(heads)))
    ensures Scan(u, chain, Last(heads)).(lastBlock := None) == HandleAll(t, Handled(chain, heads)).(lastBlock := None)
    ensures CursorPast(Scan(u, chain, Last(heads)), chain, Last(heads))
  {
    var h, h' := Last(Init(heads)), Last(heads);
    assert h == heads[|heads| - 2] <= h';
    var from := ScanFrom(u, h');
    var evs := Query(chain, from, h');
    ScanMovesCursor(u, chain, h');
    var q := (ev: Event) => from <= ev.block <= h';
    forall ev | ev in chain && ev.block <= h ensures ev.block < from {
    }
    forall ev | ev in chain ensures q(ev) <==> h < ev.block <= h' && ev.block >= h' - LOOK_BACK {
    }
    forall ev | ev in chain && Covered(Init(heads), ev.block) ensures ev.block <= h {
      CoveredUpTo(Init(heads), ev.block);
    }
    FilterInBlockOrder(chain, h, (ev: Event) => Covered(Init(heads), ev.block), q, (ev: Event) => Covered(heads, ev.block));
    HandleAllConcat(t, Handled(chain, Init(heads)), evs);
    CursorIgnored(u, Some(from), evs);
    var v := HandleAll(t, Handled(chain, Init(heads)));
    CursorIgnored(v, None, evs);
    CursorIgnored(u, None, evs);
  }

  /** Nothing from the first scan's start block on is missed exactly when no two scans are more than
      1001 blocks apart. */
  lemma {:induction false} NothingMissedExactlyWhen(heads: seq<nat>)
    requires heads != [] && NonDecreasing(heads)
    ensures (forall block: nat :: Covered(heads, block) <==> Max(1, heads[0] - LOOK_BACK) <= block <= Last(heads)) <==>
      forall i :: 0 < i < |heads| ==> heads[i] - heads[i - 1] <= LOOK_BACK + 1
  {
    if forall i :: 0 < i < |heads| ==> heads[i] - heads[i - 1] <= LOOK_BACK + 1 {
      forall block: nat ensures Covered(heads, block) <==> Max(1, heads[0] - LOOK_BACK) <= block <= Last(heads) {
        if Covered(heads, block) {
          CoveredUpTo(heads, block);
        } else {
          CloseScansCover(heads, block);
        }
      }
    } else {
      var i :| 0 < i < |heads| && heads[i] - heads[i - 1] > LOOK_BACK + 1;
      GapStaysUncovered(heads, i);
      HeadsOrdered(heads, i - 1);
      HeadsOrderedFrom(heads, i, |heads| - 1);
    }
  }

  lemma {:induction false} CloseScansCover(heads: seq<nat>, block: nat)
    requires heads != [] && NonDecreasing(heads)
    requires forall i :: 0 < i < |heads| ==> heads[i] - heads[i - 1] <= LOOK_BACK + 1
    requires !Covered(heads, block)
    ensures !(Max(1, heads[0] - LOOK_BACK) <= block <= Last(heads))
  {
    if |heads| <= 1 {
    } else {
      CloseScansCover(Init(heads), block);
      assert heads[|heads| - 1] - heads[|heads| - 2] <= LOOK_BACK + 1;
    }
  }

  lemma {:induction false} HeadsOrderedFrom(heads: seq<nat>, i: nat, j: nat)
    requires i <= j < |heads| && NonDecreasing(heads)
    ensures heads[i] <= heads[j]
    decreases j
  {
    if i >= j {
    } else {
      HeadsOrderedFrom(heads, i, j - 1);
    }
  }

  lemma {:induction false} GapStaysUncovered(heads: seq<nat>, i: nat)
    requires NonDecreasing(heads) && 0 < i < |heads| && heads[i] - heads[i - 1] > LOOK_BACK + 1
    ensures !Covered(heads, heads[i - 1] + 1)
  {
    if i < |heads| - 1 {
      GapStaysUncovered(Init(heads), i);
      HeadsOrderedFrom(heads, i, |heads| - 2);
    } else if Covered(Init(heads), heads[i - 1] + 1) {
      CoveredUpTo(Init(heads), heads[i - 1] + 1);
    }
  }

  /** A scan never moves the cursor back. */
  lemma {:induction false} CursorNeverGoesBack(t: Tracker, chain: seq<Event>, head: nat)
    requires InBlockOrder(chain) && t.lastBlock.Some?
    ensures Scan(t, chain, head).lastBlock.Some? && Scan(t, chain, head).lastBlock.value >= t.lastBlock.value
  {
    var from := ScanFrom(t, head);
    CursorIgnored(t, Some(from), Query(chain, from, head));
    FilterMembers(chain, (ev: Event) => from <= ev.block <= head);
    if Query(chain, from, head) != [] {
      assert Last(Query(chain, from, head)) in Query(chain, from, head);
    }
  }

  /** An event handled out of turn by the live listener moves the cursor past its whole block, so within the
      scan window no scan handles any other event of that block or of an earlier one. */
  lemma {:induction false} LiveEventHidesItsBlock(t: Tracker, chain: seq<Event>, live: Event, head: nat, ev: Event)
    requires ev.block <= live.block <= head <= live.block + LOOK_BACK
    ensures ev !in Query(chain, ScanFrom(Handle(t, live), head), head)
  {
    FilterMembers(chain, (x: Event) => ScanFrom(Handle(t, live), head) <= x.block <= head);
  }

  // ---------- how often an address is credited ----------

  /** Events of one transaction are contiguous. */
  ghost predicate GroupedByTx(evs: seq<Event>) {
    forall i, j, k :: 0 <= i < j < k < |evs| && evs[i].tx == evs[k].tx ==> evs[j].tx == evs[i].tx
  }

  /** The last aggregator announced before position i within the transaction of the event there. */
  function AnnouncedBefore(evs: seq<Event>, i: nat, tx: Bytes): Option<Bytes>
    requires i <= |evs|
  {
    if i == 0 || evs[i - 1].tx != tx then None
    else if evs[i - 1].AggregatorChanged? then Some(evs[i - 1].aggregator)
    else AnnouncedBefore(evs, i - 1, tx)
  }

  function Hit(data: Option<Bytes>, a: Address): nat {
    if data.Some? && |data.value| >= 20 && data.value[..20] == a then 1 else 0
  }

  /** How often the i-th event names an address. */
  function Mentions(evs: seq<Event>, i: nat, a: Address): nat
    requires i < |evs|
  {
    match evs[i]
    case UserOperationEvent(_, tx, _, sender, paymaster) =>
      Hit(Some(sender), a) + Hit(Some(paymaster), a) + Hit(AnnouncedBefore(evs, i, tx), a)
    case AccountDeployed(_, _, factory) => Hit(Some(factory), a)
    case _ => 0
  }

  function TotalMentions(evs: seq<Event>, n: nat, a: Address): nat
    requires n <= |evs|
  {
    if n == 0 then 0 else TotalMentions(evs, n - 1, a) + Mentions(evs, n - 1, a)
  }

  lemma {:induction false} CreditedCounts(s: State, data: Option<Bytes>, a: Address)
    ensures RecordOf(Credited(s, data).table, a) ==
      Record(RecordOf(s.table, a).opsSeen, RecordOf(s.table, a).opsIncluded + Hit(data, a))
  {
  }

  /** The fields hold the aggregator of the transaction last heard of. */
  ghost predicate AggregatorKnown(t: Tracker, evs: seq<Event>, n: nat)
    requires n <= |evs|
  {
    forall tx :: (exists i :: n <= i < |evs| && evs[i].tx == tx) ==> KnownAggregator(t, tx) == AnnouncedBefore(evs, n, tx)
  }

  lemma {:induction false} AggregatorStep(t: Tracker, evs: seq<Event>, n: nat)
    requires n < |evs| && GroupedByTx(evs) && AggregatorKnown(t, evs, n)
    ensures AggregatorKnown(Handle(t, evs[n]), evs, n + 1)
  {
    forall tx | exists i :: n + 1 <= i < |evs| && evs[i].tx == tx
      ensures KnownAggregator(Handle(t, evs[n]), tx) == AnnouncedBefore(evs, n + 1, tx)
    {
      assert KnownAggregator(t, tx) == AnnouncedBefore(evs, n, tx);
    }
  }

  lemma {:induction false} HandleCredits(t: Tracker, evs: seq<Event>, n: nat, a: Address)
    requires n < |evs| && AggregatorKnown(t, evs, n)
    ensures RecordOf(Handle(t, evs[n]).mempool.table, a) ==
      Record(RecordOf(t.mempool.table, a).opsSeen, RecordOf(t.mempool.table, a).opsIncluded + Mentions(evs, n, a))
  {
    match evs[n] {
      case UserOperationEvent(_, tx, hash, sender, paymaster) =>
        var s := RemovedByHash(t.mempool, hash);
        CreditedCounts(s, Some(sender), a);
        CreditedCounts(Credited(s, Some(sender)), Some(paymaster), a);
        CreditedCounts(Credited(Credited(s, Some(sender)), Some(paymaster)), KnownAggregator(t, tx), a);
      case AccountDeployed(_, _, factory) =>
        CreditedCounts(t.mempool, Some(factory), a);
      case _ =>
    }
  }

  lemma {:induction false} AggregatorFollowed(t: Tracker, evs: seq<Event>, n: nat)
    requires n <= |evs| && GroupedByTx(evs) && t.eventAggregatorTxHash == None
    ensures AggregatorKnown(HandleAll(t, evs[..n]), evs, n)
  {
    if n == 0 {
    } else {
      AggregatorFollowed(t, evs, n - 1);
      assert Init(evs[..n]) == evs[..n - 1];
      AggregatorStep(HandleAll(t, evs[..n - 1]), evs, n - 1);
    }
  }

  lemma {:induction false} HandlingCredits(t: Tracker, evs: seq<Event>, n: nat, a: Address)
    requires n <= |evs| && GroupedByTx(evs) && t.eventAggregatorTxHash == None
    ensures RecordOf(HandleAll(t, evs[..n]).mempool.table, a) ==
      Record(RecordOf(t.mempool.table, a).opsSeen, RecordOf(t.mempool.table, a).opsIncluded + TotalMentions(evs, n, a))
  {
    if n == 0 {
    } else {
      HandlingCredits(t, evs, n - 1, a);
      assert Init(evs[..n]) == evs[..n - 1];
      AggregatorFollowed(t, evs, n - 1);
      HandleCredits(HandleAll(t, evs[..n - 1]), evs, n - 1, a);
    }
  }

  /** Over every run of scans, an address's opsIncluded grows by exactly the number of times the handled
      events name it as sender, paymaster, factory or announced aggregator, and its opsSeen is untouched. */
  lemma {:induction false} InclusionsCountMentions(t: Tracker, chain: seq<Event>, heads: seq<nat>, a: Address)
    requires t.lastBlock == None && t.eventAggregatorTxHash == None
    requires InBlockOrder(chain) && heads != [] && NonDecreasing(heads) && GroupedByTx(Handled(chain, heads))
    ensures RecordOf(ScanAll(t, chain, heads).mempool.table, a) ==
      Record(RecordOf(t.mempool.table, a).opsSeen,
             RecordOf(t.mempool.table, a).opsIncluded + TotalMentions(Handled(chain, heads), |Handled(chain, heads)|, a))
  {
    ScansHandleCoveredOnce(t, chain, heads);
    var evs := Handled(chain, heads);
    HandlingCredits(t, evs, |evs|, a);
    assert evs[..|evs|] == evs;
  }
}
