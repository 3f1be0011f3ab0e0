/** What holds of the mempool over whole runs, and exactly when its in-place shortcuts are harmless. */
module MempoolProofs {
  import opened Common
  import opened Reputation
  import opened Mempool
  import opened Sequences

  // ---------- the index agrees with the list ----------

  /** How often an operation names an address as paymaster or factory. */
  function EntityCount(op: UserOp, a: Address): nat {
    (if op.paymaster == Some(a) then 1 else 0) + if op.factory == Some(a) then 1 else 0
  }

  function RoleCount(op: UserOp, a: Address): nat {
    (if op.sender == a then 1 else 0) + EntityCount(op, a)
  }

  ghost predicate SameEntities(op: UserOp, op': UserOp) {
    forall a :: EntityCount(op, a) == EntityCount(op', a)
  }

  /** How often an address plays a role in the listed entries. */
  function Occurrences(pool: Pool, a: Address): int {
    Sum(pool, (e: Entry) => RoleCount(e.userOp, a))
  }

  /** The index holds exactly the positive occurrence counts. */
  ghost predicate Represents(c: Counts, pool: Pool) {
    forall a :: CountOf(c, a) == Occurrences(pool, a) && (a in c ==> c[a] > 0)
  }

  lemma {:induction false} OccurrencesDropped(pool: Pool, i: nat, a: Address)
    requires i < |pool|
    ensures Occurrences(pool, a) == Occurrences(Dropped(pool, i), a) + RoleCount(pool[i].userOp, a)
  {
    SumDropped(pool, i, (e: Entry) => RoleCount(e.userOp, a));
  }

  lemma {:induction false} DecrementedRolesCount(c: Counts, op: UserOp, a: Address)
    requires forall b :: b in c ==> c[b] > 0
    requires forall b :: CountOf(c, b) >= RoleCount(op, b)
    ensures CountOf(DecrementedRoles(c, op), a) == CountOf(c, a) - RoleCount(op, a)
    ensures forall b :: b in DecrementedRoles(c, op) ==> DecrementedRoles(c, op)[b] > 0
  {
  }

  lemma {:induction false} DroppedRepresents(c: Counts, pool: Pool, i: nat)
    requires i < |pool| && Represents(c, pool)
    ensures Represents(DecrementedRoles(c, pool[i].userOp), Dropped(pool, i))
  {
    var op := pool[i].userOp;
    forall a ensures CountOf(c, a) >= RoleCount(op, a) {
      OccurrencesDropped(pool, i, a);
      OccurrencesNonNegative(Dropped(pool, i), a);
    }
    forall a
      ensures CountOf(DecrementedRoles(c, op), a) == Occurrences(Dropped(pool, i), a)
      ensures a in DecrementedRoles(c, op) ==> DecrementedRoles(c, op)[a] > 0
    {
      OccurrencesDropped(pool, i, a);
      DecrementedRolesCount(c, op, a);
    }
  }

  lemma {:induction false} OccurrencesNonNegative(pool: Pool, a: Address)
    ensures 0 <= SenderEntries(pool, a) <= Occurrences(pool, a)
  {
    SumZero(pool, (e: Entry) => 0);
    SumLe(pool, (e: Entry) => 0, (e: Entry) => if e.userOp.sender == a then 1 else 0);
    SumLe(pool, (e: Entry) => if e.userOp.sender == a then 1 else 0, (e: Entry) => RoleCount(e.userOp, a));
  }

  lemma {:induction false} IncrementedRolesCount(c: Counts, op: UserOp, a: Address)
    ensures CountOf(IncrementedRoles(c, op), a) == CountOf(c, a) + RoleCount(op, a)
    ensures a in IncrementedRoles(c, op) <==> a in c || NamesRole(op, a)
  {
  }

  lemma {:induction false} AppendRepresents(c: Counts, pool: Pool, e: Entry)
    requires Represents(c, pool)
    ensures Represents(IncrementedRoles(c, e.userOp), pool + [e])
  {
    forall a
      ensures CountOf(IncrementedRoles(c, e.userOp), a) == Occurrences(pool + [e], a)
      ensures a in IncrementedRoles(c, e.userOp) ==> IncrementedRoles(c, e.userOp)[a] > 0
    {
      IncrementedRolesCount(c, e.userOp, a);
      SumAppend(pool, e, (e: Entry) => RoleCount(e.userOp, a));
      OccurrencesNonNegative(pool + [e], a);
    }
  }

  /** Replacing an entry leaves the index alone, so the index stays right exactly when the replacement
      names the same paymaster and factory (in either role). */
  lemma {:induction false} ReplacementKeepsCountsExactlyWhen(c: Counts, pool: Pool, i: nat, e: Entry)
    requires i < |pool| && Represents(c, pool)
    requires HasKey(pool[i], e.userOp.sender, e.userOp.nonce)
    ensures Represents(c, pool[i := e]) <==> SameEntities(e.userOp, pool[i].userOp)
  {
    forall a
      ensures Occurrences(pool[i := e], a) == CountOf(c, a) <==>
        EntityCount(e.userOp, a) == EntityCount(pool[i].userOp, a)
    {
      SumUpdated(pool, i, e, (e: Entry) => RoleCount(e.userOp, a));
      assert CountOf(c, a) == Occurrences(pool, a);
    }
  }

  /** An instance: an accepted replacement that drops its paymaster leaves the paymaster counted. */
  lemma {:induction false} DroppedPaymasterStaysCounted(p: Policy, t: Table, e: Entry, e': Entry, k: Stakes)
    requires HasKey(e, e'.userOp.sender, e'.userOp.nonce) && CheckReplace(e.userOp, e'.userOp) == None
    requires e.userOp.paymaster.Some? && e'.userOp.paymaster.None? && e'.userOp.factory == e.userOp.factory
    ensures
      var s := State([e], IncrementedRoles(map[], e.userOp), t);
      && Represents(s.counts, s.pool)
      && Admit(p, s, e', k).Ok?
      && !Represents(Admit(p, s, e', k).value.counts, Admit(p, s, e', k).value.pool)
  {
    var a, c := e.userOp.paymaster.value, IncrementedRoles(map[], e.userOp);
    assert Represents(map[], []);
    AppendRepresents(map[], [], e);
    assert [] + [e] == [e] && [e][0 := e'] == [e'];
    ReplacementKeepsCountsExactlyWhen(c, [e], 0, e');
    assert EntityCount(e'.userOp, a) != EntityCount(e.userOp, a);
  }

  /** A replacement is not checked for role conflicts, and it keeps roles apart exactly when that
      check, made against the other entries, would have passed. */
  lemma {:induction false} ReplacementKeepsRolesApartExactlyWhen(pool: Pool, i: nat, e: Entry)
    requires i < |pool| && RolesDisjoint(pool)
    requires HasKey(pool[i], e.userOp.sender, e.userOp.nonce)
    ensures RolesDisjoint(pool[i := e]) <==> CheckMultipleRoles(Dropped(pool, i), e.userOp) == None
  {
    var rest := Dropped(pool, i);
    forall j | 0 <= j < |pool| && j != i ensures pool[j] in rest {
      assert rest[if j < i then j else j - 1] == pool[j];
    }
    if RolesDisjoint(pool[i := e]) {
      forall x | x in rest
        ensures !NamesEntity(x.userOp, e.userOp.sender) && !NamesEntity(e.userOp, x.userOp.sender)
      {
        var m :| 0 <= m < |rest| && rest[m] == x;
        var j := if m < i then m else m + 1;
        assert j != i && pool[i := e][j] == x && pool[i := e][i] == e;
      }
    }
  }

  /** An instance: an accepted replacement may take another entry's sender for its paymaster. */
  lemma {:induction false} ReplacementCanMixRoles(p: Policy, s: State, e: Entry, other: Entry, e': Entry, k: Stakes)
    requires s.pool == [e, other] && HasKey(e, e'.userOp.sender, e'.userOp.nonce)
    requires CheckReplace(e.userOp, e'.userOp) == None && e'.userOp.paymaster == Some(other.userOp.sender)
    ensures Admit(p, s, e', k).Ok? && !RolesDisjoint(Admit(p, s, e', k).value.pool)
  {
    var pool := Admit(p, s, e', k).value.pool;
    assert pool[0] == e' && pool[1] == other;
    assert NamesEntity(pool[0].userOp, pool[1].userOp.sender);
  }

  // ---------- runs ----------

  datatype Call =
    | Add(entry: Entry, stakes: Stakes)
    | Remove(sender: Address, nonce: nat)
    | RemoveHash(hash: Bytes)
    | Ban(addr: Address)
    | Clear
    | ReputationChange(table: Table)

  function Perform(p: Policy, s: State, c: Call): State {
    match c
    case Add(e, k) => (match Admit(p, s, e, k) case Ok(s') => s' case Err(_) => s)
    case Remove(sender, nonce) => RemovedByKey(s, sender, nonce)
    case RemoveHash(hash) => RemovedByHash(s, hash)
    case Ban(addr) => RemovedBanned(s, addr)
    case Clear => State([], map[], s.table)
    case ReputationChange(t) => s.(table := t)
  }

  function RunCalls(p: Policy, s: State, calls: seq<Call>): State {
    if calls == [] then s else Perform(p, RunCalls(p, s, Init(calls)), Last(calls))
  }

  /** No sender of one entry is a paymaster or factory of another. */
  ghost predicate RolesDisjoint(pool: Pool) {
    forall i, j :: 0 <= i < |pool| && 0 <= j < |pool| && i != j ==>
      pool[j].userOp.paymaster != Some(pool[i].userOp.sender) && pool[j].userOp.factory != Some(pool[i].userOp.sender)
  }

  function SenderEntries(pool: Pool, a: Address): int {
    Sum(pool, (e: Entry) => if e.userOp.sender == a then 1 else 0)
  }

  ghost predicate Capped(pool: Pool, limited: set<Address>) {
    forall a :: a in limited ==> SenderEntries(pool, a) <= SAME_SENDER_MEMPOOL_COUNT
  }

  /** The run invariant; `limited` are senders known to stay unstaked and off the whitelist. */
  ghost predicate Healthy(s: State, limited: set<Address>) {
    && UniqueKeys(s.pool)
    && RolesDisjoint(s.pool)
    && Represents(s.counts, s.pool)
    && Capped(s.pool, limited)
  }

  /** What the run must respect: a replacement names the same entities as the entry it replaces,
      and every operation of a limited sender arrives with that sender's own insufficient stake. */
  ghost predicate Disciplined(p: Policy, s: State, c: Call, limited: set<Address>) {
    c.Add? ==>
      var op := c.entry.userOp;
      var index := FindBySenderNonce(s.pool, op.sender, op.nonce);
      && (index != -1 ==> SameEntities(op, s.pool[index].userOp))
      && (op.sender in limited ==>
            op.sender !in p.whitelist && c.stakes.sender.addr == op.sender && !MeetsStake(p, c.stakes.sender))
  }

  ghost predicate DisciplinedRun(p: Policy, s: State, calls: seq<Call>, limited: set<Address>) {
    calls != [] ==>
      && DisciplinedRun(p, s, Init(calls), limited)
      && Disciplined(p, RunCalls(p, s, Init(calls)), Last(calls), limited)
  }

  lemma {:induction false} RemovedAtHealthy(s: State, i: int, limited: set<Address>)
    requires i == -1 || 0 <= i < |s.pool|
    requires Healthy(s, limited)
    ensures Healthy(RemovedAt(s, i), limited)
  {
    if i != -1 {
      DroppedRepresents(s.counts, s.pool, i);
      DroppedApart(s.pool, i);
      forall a | a in limited ensures SenderEntries(Dropped(s.pool, i), a) <= SAME_SENDER_MEMPOOL_COUNT {
        SumDropped(s.pool, i, (e: Entry) => if e.userOp.sender == a then 1 else 0);
      }
    }
  }

  lemma {:induction false} DroppedApart(pool: Pool, i: nat)
    requires i < |pool| && UniqueKeys(pool) && RolesDisjoint(pool)
    ensures UniqueKeys(Dropped(pool, i)) && RolesDisjoint(Dropped(pool, i))
  {
  }

  lemma {:induction false} BanScanHealthy(s: State, addr: Address, i: nat, limited: set<Address>)
    requires i <= |s.pool| && Healthy(s, limited)
    ensures Healthy(BanScan(s, addr, i), limited)
    decreases i
  {
    if i == 0 {
    } else {
      if NamesRole(s.pool[i - 1].userOp, addr) {
        var hash := s.pool[i - 1].userOpHash;
        RemovedAtHealthy(s, FindByHash(s.pool, hash), limited);
        BanScanHealthy(RemovedByHash(s, hash), addr, i - 1, limited);
      } else {
        BanScanHealthy(s, addr, i - 1, limited);
      }
    }
  }

  lemma {:induction false} ReplaceHealthy(s: State, i: nat, e: Entry, limited: set<Address>)
    requires i < |s.pool| && Healthy(s, limited)
    requires HasKey(s.pool[i], e.userOp.sender, e.userOp.nonce)
    requires SameEntities(e.userOp, s.pool[i].userOp)
    ensures Healthy(s.(pool := s.pool[i := e]), limited)
  {
    ReplacementKeepsCountsExactlyWhen(s.counts, s.pool, i, e);
    ReplaceApart(s.pool, i, e);
    forall a | a in limited ensures SenderEntries(s.pool[i := e], a) <= SAME_SENDER_MEMPOOL_COUNT {
      SumUpdated(s.pool, i, e, (e: Entry) => if e.userOp.sender == a then 1 else 0);
    }
  }

  lemma {:induction false} ReplaceApart(pool: Pool, i: nat, e: Entry)
    requires i < |pool| && UniqueKeys(pool) && RolesDisjoint(pool)
    requires HasKey(pool[i], e.userOp.sender, e.userOp.nonce)
    requires SameEntities(e.userOp, pool[i].userOp)
    ensures UniqueKeys(pool[i := e]) && RolesDisjoint(pool[i := e])
  {
    var pool' := pool[i := e];
    forall x, y | 0 <= x < |pool| && 0 <= y < |pool| && x != y
      ensures !NamesEntity(pool'[y].userOp, pool'[x].userOp.sender)
    {
      var a := pool'[x].userOp.sender;
      assert a == pool[x].userOp.sender && !NamesEntity(pool[y].userOp, a);
      assert EntityCount(e.userOp, a) == EntityCount(pool[i].userOp, a);
    }
  }

  lemma {:induction false} AppendHealthy(p: Policy, s: State, e: Entry, k: Stakes, limited: set<Address>)
    requires Healthy(s, limited) && Disciplined(p, s, Add(e, k), limited)
    requires FindBySenderNonce(s.pool, e.userOp.sender, e.userOp.nonce) == -1
    requires CheckReputation(p, s, k) == None && CheckMultipleRoles(s.pool, e.userOp) == None
    ensures Healthy(State(s.pool + [e], IncrementedRoles(s.counts, e.userOp), s.table), limited)
  {
    AppendRepresents(s.counts, s.pool, e);
    AppendApart(s.pool, e);
    forall a | a in limited ensures SenderEntries(s.pool + [e], a) <= SAME_SENDER_MEMPOOL_COUNT {
      SumAppend(s.pool, e, (e: Entry) => if e.userOp.sender == a then 1 else 0);
      if a == e.userOp.sender {
        OccurrencesNonNegative(s.pool, a);
        assert CheckReputationStatus(p, s, Account, Some(k.sender)) == None;
      }
    }
  }

  lemma {:induction false} AppendApart(pool: Pool, e: Entry)
    requires UniqueKeys(pool) && FindBySenderNonce(pool, e.userOp.sender, e.userOp.nonce) == -1
    requires RolesDisjoint(pool) && CheckMultipleRoles(pool, e.userOp) == None
    ensures UniqueKeys(pool + [e]) && RolesDisjoint(pool + [e])
  {
  }

  lemma {:induction false} PerformHealthy(p: Policy, s: State, c: Call, limited: set<Address>)
    requires Healthy(s, limited) && Disciplined(p, s, c, limited)
    ensures Healthy(Perform(p, s, c), limited)
  {
    match c
    case Add(e, k) =>
      var index := FindBySenderNonce(s.pool, e.userOp.sender, e.userOp.nonce);
      if Admit(p, s, e, k).Ok? {
        if index != -1 {
          ReplaceHealthy(s, index, e, limited);
        } else {
          AppendHealthy(p, s, e, k, limited);
        }
      }
    case Remove(sender, nonce) => RemovedAtHealthy(s, FindBySenderNonce(s.pool, sender, nonce), limited);
    case RemoveHash(hash) => RemovedAtHealthy(s, FindByHash(s.pool, hash), limited);
    case Ban(addr) => BanScanHealthy(s, addr, |s.pool|, limited);
    case Clear =>
    case ReputationChange(t) =>
  }

  /** Over every disciplined run from a healthy state: sender and nonce identify an entry, the index
      equals the role occurrences, roles stay apart, and an unstaked sender never exceeds its cap. */
  lemma {:induction false} RunsStayHealthy(p: Policy, s: State, calls: seq<Call>, limited: set<Address>)
    requires Healthy(s, limited) && DisciplinedRun(p, s, calls, limited)
    ensures Healthy(RunCalls(p, s, calls), limited)
  {
    if calls == [] {
    } else {
      RunsStayHealthy(p, s, Init(calls), limited);
      PerformHealthy(p, RunCalls(p, s, Init(calls)), Last(calls), limited);
    }
  }

  lemma {:induction false} DroppedKeys(pool: Pool, i: nat)
    requires i < |pool| && UniqueKeys(pool)
    ensures UniqueKeys(Dropped(pool, i))
    ensures forall e :: e in Dropped(pool, i) ==> e in pool
  {
    var pool' := Dropped(pool, i);
    assert forall j :: 0 <= j < |pool'| ==> pool'[j] == pool[if j < i then j else j + 1];
  }

  lemma {:induction false} BanScanKeys(s: State, addr: Address, i: nat)
    requires i <= |s.pool| && UniqueKeys(s.pool)
    ensures UniqueKeys(BanScan(s, addr, i).pool)
    ensures forall e :: e in BanScan(s, addr, i).pool ==> e in s.pool
    decreases i
  {
    if i == 0 {
    } else if NamesRole(s.pool[i - 1].userOp, addr) {
      var j := FindByHash(s.pool, s.pool[i - 1].userOpHash);
      DroppedKeys(s.pool, j);
      BanScanKeys(RemovedAt(s, j), addr, i - 1);
    } else {
      BanScanKeys(s, addr, i - 1);
    }
  }

  lemma {:induction false} RemovedAtKeys(s: State, i: int)
    requires (i == -1 || 0 <= i < |s.pool|) && UniqueKeys(s.pool)
    ensures UniqueKeys(RemovedAt(s, i).pool)
  {
    if i != -1 {
      DroppedKeys(s.pool, i);
    }
  }

  lemma {:induction false} AdmitKeys(p: Policy, s: State, e: Entry, k: Stakes)
    requires UniqueKeys(s.pool) && Admit(p, s, e, k).Ok?
    ensures UniqueKeys(Admit(p, s, e, k).value.pool)
  {
  }

  /** Over every run whatever, replacements that change entities included, sender and nonce identify an entry. */
  lemma {:induction false} RunsKeepKeysUnique(p: Policy, s: State, calls: seq<Call>)
    requires UniqueKeys(s.pool)
    ensures UniqueKeys(RunCalls(p, s, calls).pool)
  {
    if calls == [] {
    } else {
      var s' := RunCalls(p, s, Init(calls));
      RunsKeepKeysUnique(p, s, Init(calls));
      match Last(calls)
      case Add(e, k) =>
        if Admit(p, s', e, k).Ok? {
          AdmitKeys(p, s', e, k);
        }
      case Remove(sender, nonce) => RemovedAtKeys(s', FindBySenderNonce(s'.pool, sender, nonce));
      case RemoveHash(hash) => RemovedAtKeys(s', FindByHash(s'.pool, hash));
      case Ban(addr) => BanScanKeys(s', addr, |s'.pool|);
      case Clear =>
      case ReputationChange(t) =>
    }
  }

  // ---------- the reverse ban scan ----------

  /** The entries that do not name an address, in order. */
  function Without(pool: Pool, addr: Address): Pool {
    Filter(pool, (e: Entry) => !NamesRole(e.userOp, addr))
  }

  /** An entry naming the address comes after an innocent one with the same hash. */
  ghost predicate Shadowed(pool: Pool, addr: Address) {
    exists k, m :: ShadowedAt(pool, addr, k, m)
  }

  ghost predicate ShadowedAt(pool: Pool, addr: Address, k: int, m: int) {
    0 <= k < m < |pool| && pool[k].userOpHash == pool[m].userOpHash &&
    !NamesRole(pool[k].userOp, addr) && NamesRole(pool[m].userOp, addr)
  }

  ghost predicate CleanFrom(pool: Pool, addr: Address, i: nat) {
    forall j :: i <= j < |pool| ==> !NamesRole(pool[j].userOp, addr)
  }

  lemma {:induction false} DroppedKeepsScanning(pool: Pool, addr: Address, i: nat, j: nat)
    requires j <= i < |pool| && CleanFrom(pool, addr, i + 1)
    ensures CleanFrom(Dropped(pool, j), addr, i)
  {
  }

  lemma {:induction false} DroppedKeepsShadow(pool: Pool, addr: Address, j: nat)
    requires j < |pool| && NamesRole(pool[j].userOp, addr)
    requires forall k :: 0 <= k < j ==> pool[k].userOpHash != pool[j].userOpHash
    ensures Shadowed(Dropped(pool, j), addr) <==> Shadowed(pool, addr)
  {
    var pool' := Dropped(pool, j);
    if Shadowed(pool, addr) {
      var k, m :| ShadowedAt(pool, addr, k, m);
      assert ShadowedAt(pool', addr, if k < j then k else k - 1, if m < j then m else m - 1);
    }
    if Shadowed(pool', addr) {
      var k, m :| ShadowedAt(pool', addr, k, m);
      assert ShadowedAt(pool, addr, if k < j then k else k + 1, if m < j then m else m + 1);
    }
  }

  lemma {:induction false} BanScanClears(s: State, addr: Address, i: nat)
    requires i <= |s.pool| && CleanFrom(s.pool, addr, i)
    ensures CleanFrom(BanScan(s, addr, i).pool, addr, 0)
    decreases i
  {
    if i == 0 {
    } else {
      if NamesRole(s.pool[i - 1].userOp, addr) {
        var j := FindByHash(s.pool, s.pool[i - 1].userOpHash);
        DroppedKeepsScanning(s.pool, addr, i - 1, j);
        BanScanClears(RemovedAt(s, j), addr, i - 1);
      } else {
        BanScanClears(s, addr, i - 1);
      }
    }
  }

  lemma {:induction false} BanStep(pool: Pool, addr: Address, j: nat, m: nat)
    requires j <= m < |pool| && NamesRole(pool[m].userOp, addr) && pool[j].userOpHash == pool[m].userOpHash
    requires forall k :: 0 <= k < j ==> pool[k].userOpHash != pool[j].userOpHash
    ensures if NamesRole(pool[j].userOp, addr)
            then Without(Dropped(pool, j), addr) == Without(pool, addr) && (Shadowed(Dropped(pool, j), addr) <==> Shadowed(pool, addr))
            else |Without(Dropped(pool, j), addr)| < |Without(pool, addr)| && Shadowed(pool, addr)
  {
    FilterDropped(pool, j, (e: Entry) => !NamesRole(e.userOp, addr));
    if NamesRole(pool[j].userOp, addr) {
      DroppedKeepsShadow(pool, addr, j);
    } else {
      assert ShadowedAt(pool, addr, j, m);
    }
  }

  /** A pool after the scan, compared with what the scan should leave. */
  ghost predicate ScanVerdict(pool: Pool, addr: Address, scanned: Pool) {
    if Shadowed(pool, addr) then |scanned| < |Without(pool, addr)| else scanned == Without(pool, addr)
  }

  lemma {:induction false} BanScanResult(s: State, addr: Address, i: nat)
    requires i <= |s.pool| && CleanFrom(s.pool, addr, i)
    ensures ScanVerdict(s.pool, addr, BanScan(s, addr, i).pool)
    decreases i
  {
    if i == 0 {
      FilterAll(s.pool, (e: Entry) => !NamesRole(e.userOp, addr));
    } else if NamesRole(s.pool[i - 1].userOp, addr) {
      var j := FindByHash(s.pool, s.pool[i - 1].userOpHash);
      DroppedKeepsScanning(s.pool, addr, i - 1, j);
      BanScanResult(RemovedAt(s, j), addr, i - 1);
      BanStep(s.pool, addr, j, i - 1);
    } else {
      BanScanResult(s, addr, i - 1);
    }
  }

  /** The scan always clears the address out of the mempool, and removes nothing else exactly when no
      entry naming it follows an innocent entry with the same hash. */
  lemma {:induction false} BanRemovesExactlyWhen(s: State, addr: Address)
    ensures forall e :: e in RemovedBanned(s, addr).pool ==>
      e.userOp.sender != addr && e.userOp.paymaster != Some(addr) && e.userOp.factory != Some(addr)
    ensures RemovedBanned(s, addr).pool == Without(s.pool, addr) <==> !Shadowed(s.pool, addr)
  {
    BanScanClears(s, addr, |s.pool|);
    BanScanResult(s, addr, |s.pool|);
  }

  ghost predicate UniqueHashes(pool: Pool) {
    forall i, j :: 0 <= i < j < |pool| ==> pool[i].userOpHash != pool[j].userOpHash
  }

  /** Hashes that determine sender and nonce are unique because sender and nonce are. */
  lemma {:induction false} HashesUnique(pool: Pool, keyOf: Bytes -> (Address, nat))
    requires UniqueKeys(pool)
    requires forall i :: 0 <= i < |pool| ==> keyOf(pool[i].userOpHash) == (pool[i].userOp.sender, pool[i].userOp.nonce)
    ensures UniqueHashes(pool)
    ensures forall addr :: !Shadowed(pool, addr)
  {
  }
}
