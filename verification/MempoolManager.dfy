/** The mempool: a list of entries and an index that counts, per address, how many roles it plays
    in them (packages/bundler/src/modules/MempoolManager.ts). */
module Mempool {
  import opened Common
  import opened Reputation
  import opened Sequences

  const THROTTLED_ENTITY_MEMPOOL_COUNT := 4

  datatype ReferencedCodeHashes = ReferencedCodeHashes(addresses: seq<Address>, hash: Bytes)

  datatype Entry = Entry(
    userOp: UserOp,
    userOpHash: Bytes,
    prefund: nat,
    referencedContracts: ReferencedCodeHashes,
    aggregator: Option<Address>)

  type Pool = seq<Entry>

  type Counts = map<Address, int>

  /** Stake records found while validating a user operation. */
  datatype Stakes = Stakes(
    sender: StakeInfo,
    paymaster: Option<StakeInfo>,
    factory: Option<StakeInfo>,
    aggregator: Option<StakeInfo>)

  /** Everything the mempool's operations read or write. */
  datatype State = State(pool: Pool, counts: Counts, table: Table)

  // ---------- the counter index as a value ----------

  function CountOf(c: Counts, a: Address): int {
    if a in c then c[a] else 0
  }

  function Incremented(c: Counts, a: Option<Address>): Counts {
    if a.None? then c else c[a.value := CountOf(c, a.value) + 1]
  }

  function Decremented(c: Counts, a: Option<Address>): Counts {
    if a.None? || a.value !in c then c
    else if c[a.value] - 1 <= 0 then c - {a.value}
    else c[a.value := c[a.value] - 1]
  }

  // ---------- searching and removing ----------

  predicate HasKey(e: Entry, sender: Address, nonce: nat) {
    e.userOp.sender == sender && e.userOp.nonce == nonce
  }

  function FindBySenderNonce(pool: Pool, sender: Address, nonce: nat, from: nat := 0): (i: int)
    requires from <= |pool|
    ensures i == -1 || from <= i < |pool|
    ensures i == -1 <==> forall j :: from <= j < |pool| ==> !HasKey(pool[j], sender, nonce)
    ensures i != -1 ==> HasKey(pool[i], sender, nonce) && forall j :: from <= j < i ==> !HasKey(pool[j], sender, nonce)
    decreases |pool| - from
  {
    if from == |pool| then -1
    else if HasKey(pool[from], sender, nonce) then from
    else FindBySenderNonce(pool, sender, nonce, from + 1)
  }

  function FindByHash(pool: Pool, hash: Bytes, from: nat := 0): (i: int)
    requires from <= |pool|
    ensures i == -1 || from <= i < |pool|
    ensures i == -1 <==> forall j :: from <= j < |pool| ==> pool[j].userOpHash != hash
    ensures i != -1 ==> pool[i].userOpHash == hash && forall j :: from <= j < i ==> pool[j].userOpHash != hash
    decreases |pool| - from
  {
    if from == |pool| then -1
    else if pool[from].userOpHash == hash then from
    else FindByHash(pool, hash, from + 1)
  }

  function DecrementedRoles(c: Counts, op: UserOp): Counts {
    Decremented(Decremented(Decremented(c, Some(op.sender)), op.paymaster), op.factory)
  }

  function IncrementedRoles(c: Counts, op: UserOp): Counts {
    Incremented(Incremented(Incremented(c, Some(op.sender)), op.paymaster), op.factory)
  }

  function RemovedAt(s: State, i: int): State
    requires i == -1 || 0 <= i < |s.pool|
  {
    if i == -1 then s
    else s.(pool := Dropped(s.pool, i), counts := DecrementedRoles(s.counts, s.pool[i].userOp))
  }

  function RemovedByKey(s: State, sender: Address, nonce: nat): State {
    RemovedAt(s, FindBySenderNonce(s.pool, sender, nonce))
  }

  function RemovedByHash(s: State, hash: Bytes): State {
    RemovedAt(s, FindByHash(s.pool, hash))
  }

  // ---------- admission ----------

  function CheckReputationStatus(p: Policy, s: State, title: Title, info: Option<StakeInfo>): Option<ValidationError> {
    if info.None? then None
    else
      var addr := info.value.addr;
      var status := StatusOf(p, s.table, Some(addr));
      var entryCount := CountOf(s.counts, addr);
      if status == BANNED then Some(ValidationError.Reputation)
      else if entryCount > THROTTLED_ENTITY_MEMPOOL_COUNT && status == THROTTLED then Some(ValidationError.Reputation)
      else if entryCount >= MaxAllowedUnstaked(s.table, title, addr) then CheckStake(p, s.table, info.value)
      else None
  }

  function OrElse(a: Option<ValidationError>, b: Option<ValidationError>): Option<ValidationError> {
    if a.Some? then a else b
  }

  function CheckReputation(p: Policy, s: State, k: Stakes): Option<ValidationError> {
    OrElse(CheckReputationStatus(p, s, Account, Some(k.sender)),
    OrElse(CheckReputationStatus(p, s, Paymaster, k.paymaster),
    OrElse(CheckReputationStatus(p, s, Deployer, k.factory),
           CheckReputationStatus(p, s, Aggregator, k.aggregator))))
  }

  /** Addresses an operation names besides its sender. */
  predicate NamesEntity(op: UserOp, a: Address) {
    op.paymaster == Some(a) || op.factory == Some(a)
  }

  predicate NamesRole(op: UserOp, a: Address) {
    op.sender == a || NamesEntity(op, a)
  }

  predicate KnownEntity(pool: Pool, a: Address) {
    exists e :: e in pool && NamesEntity(e.userOp, a)
  }

  function KnownSenders(pool: Pool): set<Address> {
    set e | e in pool :: e.userOp.sender
  }

  function CheckMultipleRoles(pool: Pool, op: UserOp): Option<ValidationError> {
    if KnownEntity(pool, op.sender) then Some(OpcodeValidation)
    else if op.paymaster.Some? && op.paymaster.value in KnownSenders(pool) then Some(OpcodeValidation)
    else if op.factory.Some? && op.factory.value in KnownSenders(pool) then Some(OpcodeValidation)
    else None
  }

  /** Both fees must rise by a tenth. */
  function CheckReplace(oldOp: UserOp, op: UserOp): Option<ValidationError> {
    if 10 * op.maxPriorityFeePerGas < 11 * oldOp.maxPriorityFeePerGas then Some(InvalidFields)
    else if 10 * op.maxFeePerGas < 11 * oldOp.maxFeePerGas then Some(InvalidFields)
    else None
  }

  function MarkedSeen(p: Policy, t: Table, aggregator: Option<Address>, op: UserOp, sender: StakeInfo): Table {
    var t0 := if CheckStake(p, t, sender).None? then Seen(t, Some(op.sender), 1) else t;
    Seen(Seen(Seen(t0, aggregator, 1), op.paymaster, 1), op.factory, 1)
  }

  function AggregatorOf(k: Stakes): Option<Address> {
    if k.aggregator.None? then None else Some(k.aggregator.value.addr)
  }

  function Admit(p: Policy, s: State, e: Entry, k: Stakes): Result<State, ValidationError> {
    var op := e.userOp;
    var index := FindBySenderNonce(s.pool, op.sender, op.nonce);
    var table := MarkedSeen(p, s.table, AggregatorOf(k), op, k.sender);
    if index != -1 then
      var failure := CheckReplace(s.pool[index].userOp, op);
      if failure.Some? then Err(failure.value)
      else Ok(State(s.pool[index := e], s.counts, table))
    else
      var failure := OrElse(CheckReputation(p, s, k), CheckMultipleRoles(s.pool, op));
      if failure.Some? then Err(failure.value)
      else Ok(State(s.pool + [e], IncrementedRoles(s.counts, op), table))
  }

  // ---------- banning ----------

  /** What is left of the reverse scan once the entries at i and above have been visited. */
  function BanScan(s: State, addr: Address, i: nat): State
    requires i <= |s.pool|
    decreases i
  {
    if i == 0 then s
    else if NamesRole(s.pool[i - 1].userOp, addr) then
      BanScan(RemovedByHash(s, s.pool[i - 1].userOpHash), addr, i - 1)
    else BanScan(s, addr, i - 1)
  }

  function RemovedBanned(s: State, addr: Address): State {
    BanScan(s, addr, |s.pool|)
  }

  // ---------- ordering ----------

  function Fee(e: Entry): nat {
    e.userOp.maxPriorityFeePerGas
  }

  /** Insertion behind every entry of the same or a lower priority fee. */
  function InsertByFee(sorted: Pool, e: Entry): Pool {
    if sorted == [] || Fee(Last(sorted)) <= Fee(e) then sorted + [e]
    else InsertByFee(Init(sorted), e) + [Last(sorted)]
  }

  /** The stable ascending sort that the language's sort performs. */
  function SortedForInclusion(pool: Pool): Pool {
    if pool == [] then [] else InsertByFee(SortedForInclusion(Init(pool)), Last(pool))
  }

  ghost predicate UniqueKeys(pool: Pool) {
    forall i, j :: 0 <= i < j < |pool| ==>
      !(pool[i].userOp.sender == pool[j].userOp.sender && pool[i].userOp.nonce == pool[j].userOp.nonce)
  }

  ghost predicate FeeAscending(pool: Pool) {
    forall i, j :: 0 <= i < j < |pool| ==>
      pool[i].userOp.maxPriorityFeePerGas <= pool[j].userOp.maxPriorityFeePerGas
  }

  function OfFee(pool: Pool, fee: nat): Pool {
    Filter(pool, (e: Entry) => e.userOp.maxPriorityFeePerGas == fee)
  }

  lemma {:induction false} InsertByFeeMembers(sorted: Pool, e: Entry)
    ensures |InsertByFee(sorted, e)| == |sorted| + 1
    ensures forall x :: x in InsertByFee(sorted, e) <==> x in sorted || x == e
  {
    if sorted == [] || Fee(Last(sorted)) <= Fee(e) {
    } else {
      InsertByFeeMembers(Init(sorted), e);
      assert sorted == Init(sorted) + [Last(sorted)];
    }
  }

  lemma {:induction false} InsertByFeeSorts(sorted: Pool, e: Entry)
    requires FeeAscending(sorted)
    ensures FeeAscending(InsertByFee(sorted, e))
  {
    if sorted != [] && Fee(Last(sorted)) > Fee(e) {
      var ins, last := InsertByFee(Init(sorted), e), Last(sorted);
      InsertByFeeSorts(Init(sorted), e);
      InsertByFeeMembers(Init(sorted), e);
      forall i | 0 <= i < |ins| ensures Fee(ins[i]) <= Fee(last) {
        assert ins[i] in ins;
      }
      AppendAscends(ins, last);
    } else {
      AppendAscends(sorted, e);
    }
  }

  lemma {:induction false} AppendAscends(pool: Pool, e: Entry)
    requires FeeAscending(pool) && forall i :: 0 <= i < |pool| ==> Fee(pool[i]) <= Fee(e)
    ensures FeeAscending(pool + [e])
  {
  }

  lemma {:induction false} InsertByFeeStable(sorted: Pool, e: Entry, fee: nat)
    requires FeeAscending(sorted)
    ensures OfFee(InsertByFee(sorted, e), fee) == OfFee(sorted, fee) + if Fee(e) == fee then [e] else []
  {
    var p := (e: Entry) => e.userOp.maxPriorityFeePerGas == fee;
    if sorted == [] || Fee(Last(sorted)) <= Fee(e) {
      FilterAppend(sorted, e, p);
    } else {
      InsertByFeeStable(Init(sorted), e, fee);
      FilterAppend(InsertByFee(Init(sorted), e), Last(sorted), p);
    }
  }

  /** Sorting is ascending, loses and invents no entry, and keeps entries of equal fee in order. */
  lemma {:induction false} SortedIsStable(pool: Pool, fee: nat)
    ensures FeeAscending(SortedForInclusion(pool))
    ensures |SortedForInclusion(pool)| == |pool|
    ensures OfFee(SortedForInclusion(pool), fee) == OfFee(pool, fee)
  {
    if pool == [] {
    } else {
      SortedIsStable(Init(pool), fee);
      InsertByFeeSorts(SortedForInclusion(Init(pool)), Last(pool));
      InsertByFeeMembers(SortedForInclusion(Init(pool)), Last(pool));
      InsertByFeeStable(SortedForInclusion(Init(pool)), Last(pool), fee);
    }
  }

  lemma {:induction false} InsertByFeeUnique(sorted: Pool, e: Entry)
    requires FeeAscending(sorted) && UniqueKeys(sorted)
    requires forall i :: 0 <= i < |sorted| ==> !HasKey(sorted[i], e.userOp.sender, e.userOp.nonce)
    ensures UniqueKeys(InsertByFee(sorted, e))
  {
    if sorted == [] || Fee(Last(sorted)) <= Fee(e) {
    } else {
      var ins, last := InsertByFee(Init(sorted), e), Last(sorted);
      InsertByFeeUnique(Init(sorted), e);
      InsertByFeeMembers(Init(sorted), e);
      forall i | 0 <= i < |ins| ensures !HasKey(ins[i], last.userOp.sender, last.userOp.nonce) {
        assert ins[i] in ins;
        assert ins[i] == e || ins[i] in Init(sorted);
      }
    }
  }

  lemma {:induction false} SortedHasTheSameEntries(pool: Pool)
    ensures FeeAscending(SortedForInclusion(pool))
    ensures forall x :: x in SortedForInclusion(pool) <==> x in pool
    ensures UniqueKeys(pool) ==> UniqueKeys(SortedForInclusion(pool))
  {
    if pool == [] {
    } else {
      var sorted, last := SortedForInclusion(Init(pool)), Last(pool);
      SortedHasTheSameEntries(Init(pool));
      InsertByFeeSorts(sorted, last);
      InsertByFeeMembers(sorted, last);
      assert pool == Init(pool) + [last];
      if UniqueKeys(pool) {
        forall i | 0 <= i < |sorted| ensures !HasKey(sorted[i], last.userOp.sender, last.userOp.nonce) {
          assert sorted[i] in sorted;
        }
        InsertByFeeUnique(sorted, last);
      }
    }
  }

  lemma {:induction false} OfFeeOfLast(a: Pool, fee: nat)
    requires a != []
    ensures OfFee(a, fee) == OfFee(Init(a), fee) + if Fee(Last(a)) == fee then [Last(a)] else []
  {
  }

  lemma {:induction false} SortIsDetermined(a: Pool, b: Pool)
    requires FeeAscending(a) && FeeAscending(b)
    requires forall fee: nat :: OfFee(a, fee) == OfFee(b, fee)
    ensures a == b
  {
    if a == [] && b == [] {
    } else if a == [] {
      OfFeeOfLast(b, Fee(Last(b)));
      assert false;
    } else if b == [] {
      OfFeeOfLast(a, Fee(Last(a)));
      assert false;
    } else {
      TopFee(a, b);
      TopFee(b, a);
      SameLast(a, b);
      forall fee: nat ensures OfFee(Init(a), fee) == OfFee(Init(b), fee) {
        OfFeeOfLast(a, fee);
        OfFeeOfLast(b, fee);
        assert OfFee(a, fee) == OfFee(b, fee);
        SamePrefix(OfFee(Init(a), fee), OfFee(Init(b), fee), if Fee(Last(a)) == fee then [Last(a)] else []);
      }
      SortIsDetermined(Init(a), Init(b));
      assert a == Init(a) + [Last(a)] && b == Init(b) + [Last(b)];
    }
  }

  lemma {:induction false} SamePrefix(a: Pool, b: Pool, end: Pool)
    requires a + end == b + end
    ensures a == b
  {
    assert a == (a + end)[..|a|] && b == (b + end)[..|b|];
  }

  lemma {:induction false} SameLast(a: Pool, b: Pool)
    requires a != [] && b != [] && Fee(Last(a)) == Fee(Last(b))
    requires OfFee(a, Fee(Last(a))) == OfFee(b, Fee(Last(a)))
    ensures Last(a) == Last(b)
  {
    OfFeeOfLast(a, Fee(Last(a)));
    OfFeeOfLast(b, Fee(Last(a)));
    assert Last(OfFee(a, Fee(Last(a)))) == Last(a);
  }

  /** A list is that sort exactly when its fees ascend and the entries of each fee keep their mempool order. */
  lemma {:induction false} SortedExactly(pool: Pool, sorted: Pool)
    ensures FeeAscending(sorted) && (forall fee: nat :: OfFee(sorted, fee) == OfFee(pool, fee)) <==>
      sorted == SortedForInclusion(pool)
  {
    SortedIsStable(pool, 0);
    forall fee: nat ensures OfFee(SortedForInclusion(pool), fee) == OfFee(pool, fee) {
      SortedIsStable(pool, fee);
    }
    if FeeAscending(sorted) && forall fee: nat :: OfFee(sorted, fee) == OfFee(pool, fee) {
      SortIsDetermined(sorted, SortedForInclusion(pool));
    }
  }

  lemma {:induction false} TopFee(a: Pool, b: Pool)
    requires a != [] && b != [] && FeeAscending(a) && OfFee(a, Fee(Last(b))) == OfFee(b, Fee(Last(b)))
    ensures Fee(Last(b)) <= Fee(Last(a))
  {
    var fee := Fee(Last(b));
    OfFeeOfLast(b, fee);
    FilterMembers(a, (e: Entry) => e.userOp.maxPriorityFeePerGas == fee);
    assert Last(b) in OfFee(a, fee);
    var i :| 0 <= i < |a| && a[i] == Last(b);
  }

  // ---------- the object ----------

  class MempoolManager {
    var mempool: Pool
    var entryCount: Counts
    const reputationManager: ReputationManager

    constructor (reputationManager: ReputationManager)
      ensures this.reputationManager == reputationManager && mempool == [] && entryCount == map[]
    {
      this.reputationManager := reputationManager;
      mempool, entryCount := [], map[];
    }

    function CurrentState(): State
      reads this, reputationManager
    {
      State(mempool, entryCount, reputationManager.entries)
    }

    method IncrementEntryCount(address: Option<Address>)
      modifies this`entryCount
      ensures entryCount == Incremented(old(entryCount), address)
    {
      if address.None? {
        return;
      }
      entryCount := entryCount[address.value := CountOf(entryCount, address.value) + 1];
    }

    method DecrementEntryCount(address: Option<Address>)
      modifies this`entryCount
      ensures entryCount == Decremented(old(entryCount), address)
    {
      if address.None? || address.value !in entryCount {
        return;
      }
      entryCount := entryCount[address.value := entryCount[address.value] - 1];
      if entryCount[address.value] <= 0 {
        entryCount := entryCount - {address.value};
        assert entryCount == Decremented(old(entryCount), address);
      }
    }

    method IndexBySenderNonce(sender: Address, nonce: nat) returns (index: int)
      ensures index == FindBySenderNonce(mempool, sender, nonce)
    {
      for i := 0 to |mempool|
        invariant forall j :: 0 <= j < i ==> !HasKey(mempool[j], sender, nonce)
      {
        if HasKey(mempool[i], sender, nonce) {
          return i;
        }
      }
      return -1;
    }

    method IndexByHash(hash: Bytes) returns (index: int)
      ensures index == FindByHash(mempool, hash)
    {
      for i := 0 to |mempool|
        invariant forall j :: 0 <= j < i ==> mempool[j].userOpHash != hash
      {
        if mempool[i].userOpHash == hash {
          return i;
        }
      }
      return -1;
    }

    method RemoveAt(index: int)
      requires index == -1 || 0 <= index < |mempool|
      modifies this`mempool, this`entryCount
      ensures CurrentState() == RemovedAt(old(CurrentState()), index)
    {
      if index != -1 {
        var userOp := mempool[index].userOp;
        mempool := Dropped(mempool, index);
        DecrementEntryCount(Some(userOp.sender));
        DecrementEntryCount(userOp.paymaster);
        DecrementEntryCount(userOp.factory);
      }
    }

    method RemoveUserOp(userOp: UserOp)
      modifies this`mempool, this`entryCount
      ensures CurrentState() == RemovedByKey(old(CurrentState()), userOp.sender, userOp.nonce)
    {
      var index := IndexBySenderNonce(userOp.sender, userOp.nonce);
      RemoveAt(index);
    }

    method RemoveUserOpByHash(hash: Bytes)
      modifies this`mempool, this`entryCount
      ensures CurrentState() == RemovedByHash(old(CurrentState()), hash)
    {
      var index := IndexByHash(hash);
      RemoveAt(index);
    }

    /** A failed check leaves everything as it was. */
    method AddUserOp(userOp: UserOp, userOpHash: Bytes, prefund: nat, refs: ReferencedCodeHashes, k: Stakes)
      returns (failure: Option<ValidationError>)
      modifies this`mempool, this`entryCount, reputationManager`entries
      ensures
        match Admit(old(reputationManager.CurrentPolicy()), old(CurrentState()),
                                Entry(userOp, userOpHash, prefund, refs, AggregatorOf(k)), k)
        case Ok(s) => failure == None && CurrentState() == s
        case Err(err) => failure == Some(err) && CurrentState() == old(CurrentState())
    {
      var entry := Entry(userOp, userOpHash, prefund, refs, AggregatorOf(k));
      ghost var before := CurrentState();
      var index := IndexBySenderNonce(userOp.sender, userOp.nonce);
      if index != -1 {
        failure := CheckReplace(mempool[index].userOp, userOp);
        if failure.Some? {
          return;
        }
        mempool := mempool[index := entry];
      } else {
        failure := CheckReputation(reputationManager.CurrentPolicy(), CurrentState(), k);
        if failure.Some? {
          return;
        }
        failure := CheckMultipleRoles(mempool, userOp);
        if failure.Some? {
          return;
        }
        IncrementEntryCount(Some(userOp.sender));
        IncrementEntryCount(userOp.paymaster);
        IncrementEntryCount(userOp.factory);
        mempool := mempool + [entry];
      }
      UpdateSeenStatus(AggregatorOf(k), userOp, k.sender);
    }

    method UpdateSeenStatus(aggregator: Option<Address>, userOp: UserOp, senderInfo: StakeInfo)
      modifies reputationManager`entries
      ensures reputationManager.entries ==
        MarkedSeen(old(reputationManager.CurrentPolicy()), old(reputationManager.entries), aggregator, userOp, senderInfo)
    {
      if CheckStake(reputationManager.CurrentPolicy(), reputationManager.entries, senderInfo).None? {
        reputationManager.UpdateSeenStatus(Some(userOp.sender));
      }
      reputationManager.UpdateSeenStatus(aggregator);
      reputationManager.UpdateSeenStatus(userOp.paymaster);
      reputationManager.UpdateSeenStatus(userOp.factory);
    }

    method RemoveBannedAddr(addr: Address)
      modifies this`mempool, this`entryCount
      ensures CurrentState() == RemovedBanned(old(CurrentState()), addr)
    {
      var i := |mempool| - 1;
      while i >= 0
        invariant -1 <= i < |mempool|
        invariant BanScan(CurrentState(), addr, i + 1) == RemovedBanned(old(CurrentState()), addr)
      {
        var mempoolEntry := mempool[i];
        if NamesRole(mempoolEntry.userOp, addr) {
          RemoveUserOpByHash(mempoolEntry.userOpHash);
        }
        i := i - 1;
      }
    }

    method ClearState()
      modifies this`mempool, this`entryCount
      ensures mempool == [] && entryCount == map[]
    {
      mempool, entryCount := [], map[];
    }

    /** The mempool itself stays as it is. */
    method GetSortedForInclusion() returns (sorted: Pool)
      ensures FeeAscending(sorted) && |sorted| == |mempool|
      ensures forall e :: e in sorted <==> e in mempool
      ensures forall fee: nat :: OfFee(sorted, fee) == OfFee(mempool, fee)
    {
      sorted := SortedForInclusion(mempool);
      SortedHasTheSameEntries(mempool);
      forall fee: nat ensures |sorted| == |mempool| && OfFee(sorted, fee) == OfFee(mempool, fee) {
        SortedIsStable(mempool, fee);
      }
      SortedIsStable(mempool, 0);
    }
  }
}
