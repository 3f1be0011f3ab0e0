/** Judging a traced validation by the rules of ERC-7562
    (packages/validation-manager/src/TracerResultParser.ts). */
module ResultParser {
  import opened Common
  import opened Sequences
  import opened Words
  import opened StorageMaps
  import opened CollectorTracer
  import opened CallStack

  type Entities = map<Address, Option<StakeInfo>>
  type EntitySlots = map<Address, set<Bytes>>

  /** What a trace is judged against: the operation, the stake records the simulation returned for its sender,
      factory and paymaster, the data hashed in the trace, the hash, and what counts as stake. */
  datatype Context = Context(
    op: UserOp,
    entryPoint: Address,
    senderInfo: Option<StakeInfo>,
    factoryInfo: Option<StakeInfo>,
    paymasterInfo: Option<StakeInfo>,
    keccak: seq<Bytes>,
    hash: Bytes -> Bytes,
    isStaked: StakeInfo -> bool)
  {
    /** The stake record of each entity; an address in two roles keeps the later one's. */
    function Entities(): Entities {
      var entities: Entities := map[op.sender := senderInfo];
      var entities := if op.factory.Some? then entities[op.factory.value := factoryInfo] else entities;
      if op.paymaster.Some? then entities[op.paymaster.value := paymasterInfo] else entities
    }

    predicate Staked(a: Address) {
      a in Entities() && Entities()[a].Some? && isStaked(Entities()[a].value)
    }
  }

  datatype Report = Report(addresses: seq<Address>, storageMap: StorageMap)

  // ---------- association ----------

  const STRUCT_SIZE := 128

  function Pad32(a: Address): Slot {
    if |a| < 32 then Zeros(32 - |a|) + a else a
  }

  predicate Within(slot: Slot, start: Bytes) {
    ToNat(start) <= ToNat(slot) < ToNat(start) + STRUCT_SIZE
  }

  ghost predicate HasRecordAmong(entities: Entities, keys: set<Address>, a: Address) {
    exists e :: e in keys && e in entities && entities[e].Some? && entities[e].value.addr == a
  }

  ghost predicate HasRecord(entities: Entities, a: Address) {
    HasRecordAmong(entities, entities.Keys, a)
  }

  ghost predicate IsHashFor(keccak: seq<Bytes>, hash: Bytes -> Bytes, a: Address, h: Bytes) {
    exists i :: 0 <= i < |keccak| && Pad32(a) <= keccak[i] && hash(keccak[i]) == h
  }

  /** The index holds, for each recorded entity, the hashes of the traced preimages that start with it. */
  ghost predicate Indexes(index: EntitySlots, entities: Entities, keccak: seq<Bytes>, hash: Bytes -> Bytes) {
    && (forall a :: a in index <==> keccak != [] && HasRecord(entities, a))
    && forall a, h :: a in index ==> (h in index[a] <==> IsHashFor(keccak, hash, a, h))
  }

  method ParseEntitySlots(entities: Entities, keccak: seq<Bytes>, hash: Bytes -> Bytes) returns (index: EntitySlots)
    ensures Indexes(index, entities, keccak, hash)
  {
    index := map[];
    for i := 0 to |keccak|
      invariant Indexes(index, entities, keccak[..i], hash)
    {
      var before := index;
      index := IndexPreimage(index, entities, keccak[i], hash);
      IndexedOneMore(before, index, entities, keccak[..i], keccak[i], hash);
      assert keccak[..i + 1] == keccak[..i] + [keccak[i]];
    }
    assert keccak[..|keccak|] == keccak;
  }

  ghost predicate AddsPreimage(before: EntitySlots, after: EntitySlots, entities: Entities, keys: set<Address>,
      k: Bytes, hash: Bytes -> Bytes) {
    && (forall a :: a in after <==> a in before || HasRecordAmong(entities, keys, a))
    && forall a, h :: a in after ==>
         (h in after[a] <==>
          || (a in before && h in before[a])
          || (HasRecordAmong(entities, keys, a) && Pad32(a) <= k && h == hash(k)))
  }

  method IndexPreimage(before: EntitySlots, entities: Entities, k: Bytes,
      hash: Bytes -> Bytes) returns (index: EntitySlots)
    ensures AddsPreimage(before, index, entities, entities.Keys, k, hash)
  {
    index := before;
    var todo := entities.Keys;
    while todo != {}
      invariant todo <= entities.Keys
      invariant AddsPreimage(before, index, entities, entities.Keys - todo, k, hash)
      decreases todo
    {
      var e :| e in todo;
      ghost var was := index;
      if entities[e].Some? {
        var addr := entities[e].value.addr;
        if addr !in index {
          index := index[addr := {}];
        }
        if Pad32(addr) <= k {
          index := index[addr := index[addr] + {hash(k)}];
        }
      }
      AmongOneMore(entities, entities.Keys - todo, e);
      assert entities.Keys - (todo - {e}) == entities.Keys - todo + {e};
      todo := todo - {e};
    }
    assert entities.Keys - todo == entities.Keys;
  }

  lemma {:induction false} AmongOneMore(entities: Entities, keys: set<Address>, e: Address)
    ensures forall a :: HasRecordAmong(entities, keys + {e}, a) <==>
      HasRecordAmong(entities, keys, a) || (e in entities && entities[e].Some? && entities[e].value.addr == a)
  {
  }

  lemma {:induction false} HashForOneMore(keccak: seq<Bytes>, k: Bytes, hash: Bytes -> Bytes, a: Address, h: Bytes)
    ensures IsHashFor(keccak + [k], hash, a, h) <==> IsHashFor(keccak, hash, a, h) || (Pad32(a) <= k && hash(k) == h)
  {
    var all := keccak + [k];
    if IsHashFor(keccak, hash, a, h) {
      var i :| 0 <= i < |keccak| && Pad32(a) <= keccak[i] && hash(keccak[i]) == h;
      assert all[i] == keccak[i];
    }
    if Pad32(a) <= k && hash(k) == h {
      assert all[|keccak|] == k;
    }
  }

  lemma {:induction false} IndexedOneMore(before: EntitySlots, index: EntitySlots, entities: Entities,
      keccak: seq<Bytes>, k: Bytes, hash: Bytes -> Bytes)
    requires Indexes(before, entities, keccak, hash) && AddsPreimage(before, index, entities, entities.Keys, k, hash)
    ensures Indexes(index, entities, keccak + [k], hash)
  {
    forall a, h | a in index ensures h in index[a] <==> IsHashFor(keccak + [k], hash, a, h) {
      HashForOneMore(keccak, k, hash, a, h);
    }
  }

  /** The rule: the padded address itself, or a place in a structure found by hashing data that starts with it. */
  ghost predicate Associated(c: Context, slot: Slot, a: Address) {
    || slot == Pad32(a)
    || (HasRecord(c.Entities(), a) && InHashedStruct(c.keccak, c.hash, slot, a))
  }

  ghost predicate InHashedStruct(keccak: seq<Bytes>, hash: Bytes -> Bytes, slot: Slot, a: Address) {
    exists i :: 0 <= i < |keccak| && Pad32(a) <= keccak[i] && Within(slot, hash(keccak[i]))
  }

  method AssociatedWith(c: Context, slot: Slot, a: Address, index: EntitySlots) returns (r: bool)
    requires Indexes(index, c.Entities(), c.keccak, c.hash)
    ensures r <==> Associated(c, slot, a)
  {
    if slot == Pad32(a) {
      return true;
    }
    if a !in index {
      return false;
    }
    var k := index[a];
    while k != {}
      invariant k <= index[a]
      invariant forall h :: h in index[a] && h !in k ==> !Within(slot, h)
      decreases k
    {
      var k1 :| k1 in k;
      if Within(slot, k1) {
        assert IsHashFor(c.keccak, c.hash, a, k1);
        return true;
      }
      k := k - {k1};
    }
    if InHashedStruct(c.keccak, c.hash, slot, a) {
      ghost var i :| 0 <= i < |c.keccak| && Pad32(a) <= c.keccak[i] && Within(slot, c.hash(c.keccak[i]));
      assert IsHashFor(c.keccak, c.hash, a, c.hash(c.keccak[i]));
    }
    return false;
  }

  // ---------- the storage rules ----------

  function Touched(x: AccessInfo): set<Slot> {
    x.slotWrites.Keys + x.slotReads.Keys + x.transientWrites.Keys + x.transientReads.Keys
  }

  predicate IsWritten(x: AccessInfo, slot: Slot) {
    slot in x.slotWrites || slot in x.transientWrites
  }

  /** [STO-021], [STO-022]: whether the entity may use the sender's slots in other contracts without stake. */
  predicate FreelyUsesSenderSlots(c: Context, e: Address) {
    c.op.factory.None? || (e == c.op.sender && c.Staked(c.op.factory.value))
  }

  /** [STO-010] to [STO-033] for one slot of a contract other than the sender and the EntryPoint. */
  ghost predicate SlotPermitted(c: Context, e: Address, addr: Address, x: AccessInfo, slot: Slot) {
    if Associated(c, slot, c.op.sender) then FreelyUsesSenderSlots(c, e) || c.Staked(e)
    else c.Staked(e) && (Associated(c, slot, e) || addr == e || !IsWritten(x, slot))
  }

  /** A slot no stake can excuse. */
  ghost predicate IsForbidden(c: Context, e: Address, addr: Address, x: AccessInfo, slot: Slot) {
    !Associated(c, slot, c.op.sender) && !Associated(c, slot, e) && addr != e && IsWritten(x, slot)
  }

  /** A slot that is fine for a staked entity only. */
  ghost predicate NeedsStake(c: Context, e: Address, addr: Address, x: AccessInfo, slot: Slot) {
    if Associated(c, slot, c.op.sender) then !FreelyUsesSenderSlots(c, e) else !IsForbidden(c, e, addr, x, slot)
  }

  /** The keys of a map in the order it happens to be enumerated. */
  method KeysOf<K(==), V>(m: map<K, V>) returns (keys: seq<K>)
    ensures forall k :: k in keys <==> k in m
  {
    keys := [];
    var todo := m.Keys;
    while todo != {}
      invariant todo <= m.Keys
      invariant forall k :: k in keys <==> k in m && k !in todo
      decreases todo
    {
      var k :| k in todo;
      keys := keys + [k];
      todo := todo - {k};
    }
  }

  ghost predicate AnyForbidden(c: Context, e: Address, addr: Address, x: AccessInfo) {
    exists slot :: slot in Touched(x) && IsForbidden(c, e, addr, x, slot)
  }

  ghost predicate AnyNeedsStake(c: Context, e: Address, addr: Address, x: AccessInfo) {
    exists slot :: slot in Touched(x) && NeedsStake(c, e, addr, x, slot)
  }

  /** One contract's slots, in whatever order. The flag is overwritten by each slot that needs stake, and
      a forbidden slot ends the scan. */
  method ScanSlots(c: Context, index: EntitySlots, e: Address, addr: Address, x: AccessInfo)
    returns (error: Option<ValidationError>)
    requires Indexes(index, c.Entities(), c.keccak, c.hash) && e in c.Entities()
    ensures error ==
      if AnyForbidden(c, e, addr, x) then Some(OpcodeValidation)
      else if !AnyNeedsStake(c, e, addr, x) || c.Staked(e) then None
      else if c.Entities()[e].None? then Some(InternalError)
      else Some(OpcodeValidation)
  {
    var slots := AllSlots(x);
    var requireStakeSlot: Option<Slot> := None;
    for i := 0 to |slots|
      invariant forall j :: 0 <= j < i ==> !IsForbidden(c, e, addr, x, slots[j])
      invariant requireStakeSlot.None? <==> forall j :: 0 <= j < i ==> !NeedsStake(c, e, addr, x, slots[j])
    {
      var slot := slots[i];
      assert slot in slots;
      var withSender := AssociatedWith(c, slot, c.op.sender, index);
      if withSender {
        if c.op.factory.Some? {
          if !(e == c.op.sender && c.Staked(c.op.factory.value)) {
            requireStakeSlot := Some(slot);
          }
        }
      } else {
        var withEntity := AssociatedWith(c, slot, e, index);
        if withEntity || addr == e || !IsWritten(x, slot) {
          requireStakeSlot := Some(slot);
        } else {
          assert IsForbidden(c, e, addr, x, slot);
          return Some(OpcodeValidation);
        }
      }
    }
    error := RequireCondAndStake(c, requireStakeSlot.Some?, e);
    if requireStakeSlot.Some? {
      ghost var j :| 0 <= j < |slots| && NeedsStake(c, e, addr, x, slots[j]);
      assert slots[j] in slots;
    }
  }

  /** Every slot touched, writes first; a slot may come up more than once. */
  method AllSlots(x: AccessInfo) returns (slots: seq<Slot>)
    ensures forall slot :: slot in slots <==> slot in Touched(x)
  {
    var written := KeysOf(x.slotWrites);
    var loaded := KeysOf(x.slotReads);
    var transientlyWritten := KeysOf(x.transientWrites);
    var transientlyLoaded := KeysOf(x.transientReads);
    slots := written + loaded + transientlyWritten + transientlyLoaded;
  }

  method RequireCondAndStake(c: Context, cond: bool, e: Address) returns (error: Option<ValidationError>)
    requires e in c.Entities()
    ensures error ==
      if !cond || c.Staked(e) then None
      else if c.Entities()[e].None? then Some(InternalError)
      else Some(OpcodeValidation)
  {
    if !cond {
      return None;
    }
    var info := c.Entities()[e];
    if info.None? {
      return Some(InternalError);
    }
    if c.isStaked(info.value) {
      return None;
    }
    return Some(OpcodeValidation);
  }

  /** The scan passes exactly when every slot it visits is permitted on its own, whatever the order. */
  lemma {:induction false} ScanIsSlotRule(c: Context, e: Address, addr: Address, x: AccessInfo)
    ensures
      (forall slot :: slot in Touched(x) ==> SlotPermitted(c, e, addr, x, slot)) <==>
      !AnyForbidden(c, e, addr, x) && (!AnyNeedsStake(c, e, addr, x) || c.Staked(e))
  {
  }

  // ---------- the rules on one entity ----------

  /** A broken rule is reported as such, except that want of a stake record is an internal error. */
  predicate IsRuleError(c: Context, e: Address, error: ValidationError)
    requires e in c.Entities()
  {
    error == OpcodeValidation || (error == InternalError && c.Entities()[e].None?)
  }

  /** [OP-011] */
  predicate IsBanned(op: Opcode) {
    match op
    case GASPRICE | GASLIMIT | DIFFICULTY | TIMESTAMP | BASEFEE | BLOCKHASH | NUMBER | ORIGIN => true
    case GAS | CREATE | COINBASE | SELFDESTRUCT | RANDOM | PREVRANDAO | INVALID => true
    case _ => false
  }

  /** [OP-080] */
  predicate IsForStaked(op: Opcode) {
    op.BALANCE? || op.SELFBALANCE?
  }

  /** The factory's title is taken by the account when both are one address. */
  predicate IsFactory(c: Context, e: Address) {
    e != c.op.sender && c.op.factory == Some(e)
  }

  /** [OP-011], [OP-031] and [OP-080] */
  predicate OpcodesAllowed(c: Context, e: Address, opcodes: map<Opcode, nat>) {
    && (forall op :: op in opcodes ==> !IsBanned(op) && (IsForStaked(op) ==> c.Staked(e)))
    && (CREATE2 in opcodes ==> if IsFactory(c, e) then opcodes[CREATE2] <= 1 else false)
  }

  predicate IsJudged(c: Context, addr: Address) {
    addr != c.op.sender && addr != c.entryPoint
  }

  ghost predicate AccessAllowed(c: Context, e: Address, access: map<Address, AccessInfo>) {
    forall addr, slot :: addr in access && IsJudged(c, addr) && slot in Touched(access[addr]) ==>
      SlotPermitted(c, e, addr, access[addr], slot)
  }

  const STUB_SIZE := 2

  /** [OP-041] and [OP-042]; and the EntryPoint's code is not inspected. */
  predicate CodeAllowed(c: Context, level: Level) {
    && (forall a :: a in level.contractSize ==> a == c.op.sender || level.contractSize[a].contractSize > STUB_SIZE)
    && c.entryPoint !in level.extCodeAccessInfo
  }

  /** The rules, [OP-020] first, on the part of the trace found for an entity. */
  ghost predicate LevelAllowed(c: Context, e: Address, level: Level) {
    && !level.oog
    && OpcodesAllowed(c, e, level.opcodes)
    && AccessAllowed(c, e, level.access)
    && CodeAllowed(c, level)
  }

  method CheckOpcodes(c: Context, e: Address, opcodes: map<Opcode, nat>) returns (ok: bool)
    ensures ok <==> OpcodesAllowed(c, e, opcodes)
  {
    var ops := KeysOf(opcodes);
    for i := 0 to |ops|
      invariant forall j :: 0 <= j < i ==> !IsBanned(ops[j]) && (IsForStaked(ops[j]) ==> c.Staked(e))
    {
      assert ops[i] in ops;
      if IsBanned(ops[i]) || (IsForStaked(ops[i]) && !c.Staked(e)) {
        return false;
      }
    }
    if IsFactory(c, e) {
      return CREATE2 !in opcodes || opcodes[CREATE2] <= 1;
    }
    return CREATE2 !in opcodes;
  }

  method CheckAccess(c: Context, index: EntitySlots, e: Address, access: map<Address, AccessInfo>)
    returns (error: Option<ValidationError>)
    requires Indexes(index, c.Entities(), c.keccak, c.hash) && e in c.Entities()
    ensures error.None? <==> AccessAllowed(c, e, access)
    ensures error.Some? ==> IsRuleError(c, e, error.value)
  {
    var addrs := KeysOf(access);
    for i := 0 to |addrs|
      invariant forall j, slot :: 0 <= j < i && IsJudged(c, addrs[j]) && slot in Touched(access[addrs[j]]) ==>
        SlotPermitted(c, e, addrs[j], access[addrs[j]], slot)
    {
      var addr := addrs[i];
      assert addr in addrs;
      if addr == c.op.sender || addr == c.entryPoint {
        continue;
      }
      error := ScanSlots(c, index, e, addr, access[addr]);
      ScanIsSlotRule(c, e, addr, access[addr]);
      if error.Some? {
        return;
      }
    }
    error := None;
  }

  method CheckCode(c: Context, level: Level) returns (ok: bool)
    ensures ok <==> CodeAllowed(c, level)
  {
    var addrs := KeysOf(level.contractSize);
    for i := 0 to |addrs|
      invariant forall j :: 0 <= j < i ==>
        addrs[j] == c.op.sender || level.contractSize[addrs[j]].contractSize > STUB_SIZE
    {
      assert addrs[i] in addrs;
      if addrs[i] != c.op.sender && level.contractSize[addrs[i]].contractSize <= STUB_SIZE {
        return false;
      }
    }
    return c.entryPoint !in level.extCodeAccessInfo;
  }

  method CheckLevel(c: Context, index: EntitySlots, e: Address, level: Level) returns (error: Option<ValidationError>)
    requires Indexes(index, c.Entities(), c.keccak, c.hash) && e in c.Entities()
    ensures error.None? <==> LevelAllowed(c, e, level)
    ensures error.Some? ==> IsRuleError(c, e, error.value)
  {
    if level.oog {
      return Some(OpcodeValidation);
    }
    var opcodesOk := CheckOpcodes(c, e, level.opcodes);
    if !opcodesOk {
      return Some(OpcodeValidation);
    }
    error := CheckAccess(c, index, e, level.access);
    if error.Some? {
      return;
    }
    var codeOk := CheckCode(c, level);
    return if codeOk then None else Some(OpcodeValidation);
  }

  // ---------- the whole judgement ----------

  /** The part of the trace an entity is judged by: its first top-level call. */
  ghost predicate IsLevelOf(levels: seq<Level>, k: int, e: Address) {
    && 0 <= k < |levels| && levels[k].topLevelTargetAddress == e
    && forall j :: 0 <= j < k ==> levels[j].topLevelTargetAddress != e
  }

  ghost predicate IsTraced(levels: seq<Level>, e: Address) {
    exists l :: l in levels && l.topLevelTargetAddress == e
  }

  /** Only the sender must show up in the trace. */
  ghost predicate EntityAllowed(c: Context, levels: seq<Level>, e: Address) {
    && (e == c.op.sender ==> IsTraced(levels, e))
    && forall k :: IsLevelOf(levels, k, e) ==> LevelAllowed(c, e, levels[k])
  }

  ghost predicate Accepts(c: Context, levels: seq<Level>, calls: seq<CallEvent>, resolve: Bytes -> Option<string>) {
    && levels != []
    && CallsAllowed(Parsed(calls, resolve), c.entryPoint)
    && forall e :: e in c.Entities() ==> EntityAllowed(c, levels, e)
  }

  method FindLevel(levels: seq<Level>, e: Address) returns (k: nat)
    ensures k <= |levels| && if k < |levels| then IsLevelOf(levels, k, e) else !IsTraced(levels, e)
  {
    for i := 0 to |levels|
      invariant forall j :: 0 <= j < i ==> levels[j].topLevelTargetAddress != e
    {
      if levels[i].topLevelTargetAddress == e {
        return i;
      }
    }
    return |levels|;
  }

  method CheckEntity(c: Context, index: EntitySlots, levels: seq<Level>,
      e: Address) returns (error: Option<ValidationError>)
    requires Indexes(index, c.Entities(), c.keccak, c.hash) && e in c.Entities()
    ensures error.None? <==> EntityAllowed(c, levels, e)
    ensures error == Some(InvalidFields) <==> e == c.op.sender && !IsTraced(levels, e)
    ensures error.Some? && error != Some(InvalidFields) ==> IsRuleError(c, e, error.value)
  {
    var k := FindLevel(levels, e);
    if k == |levels| {
      return if e == c.op.sender then Some(InvalidFields) else None;
    }
    assert levels[k] in levels;
    error := CheckLevel(c, index, e, levels[k]);
  }

  function WithReads(m: StorageMap, access: map<Address, AccessInfo>): StorageMap {
    map a | a in m.Keys + access.Keys :: if a in m then m[a] else Slots(access[a].slotReads)
  }

  /** For each address, the reads of the first level that touched it. */
  function FirstReads(levels: seq<Level>): StorageMap {
    if levels == [] then map[] else WithReads(FirstReads(Init(levels)), Last(levels).access)
  }

  method AddReads(m: StorageMap, access: map<Address, AccessInfo>) returns (storageMap: StorageMap)
    ensures storageMap == WithReads(m, access)
  {
    storageMap := m;
    var todo := access.Keys;
    while todo != {}
      invariant todo <= access.Keys
      invariant storageMap.Keys == m.Keys + (access.Keys - todo)
      invariant forall a :: a in storageMap ==> storageMap[a] == WithReads(m, access)[a]
      decreases todo
    {
      var addr :| addr in todo;
      if addr !in storageMap {
        storageMap := storageMap[addr := Slots(access[addr].slotReads)];
      }
      todo := todo - {addr};
    }
  }

  /** The storage map reported for the operation. */
  method CollectReads(levels: seq<Level>) returns (storageMap: StorageMap)
    ensures storageMap == FirstReads(levels)
  {
    storageMap := map[];
    for i := 0 to |levels|
      invariant storageMap == FirstReads(levels[..i])
    {
      assert Init(levels[..i + 1]) == levels[..i];
      storageMap := AddReads(storageMap, levels[i].access);
    }
    assert levels[..|levels|] == levels;
  }

  method CollectAddresses(levels: seq<Level>) returns (addresses: seq<Address>)
    ensures forall a :: a in addresses <==> exists l :: l in levels && a in l.contractSize
  {
    addresses := [];
    for i := 0 to |levels|
      invariant forall a :: a in addresses <==> exists l :: l in levels[..i] && a in l.contractSize
    {
      var more := KeysOf(levels[i].contractSize);
      assert levels[..i + 1] == levels[..i] + [levels[i]];
      addresses := addresses + more;
    }
    assert levels[..|levels|] == levels;
  }

  /** Accepts a trace exactly when it obeys every rule, and reports the addresses and initial values it used. */
  method TracerResultParser(c: Context, levels: seq<Level>, calls: seq<CallEvent>, resolve: Bytes -> Option<string>)
    returns (r: Result<Report, ValidationError>)
    ensures r.Ok? <==> Accepts(c, levels, calls, resolve)
    ensures r.Ok? ==> r.value.storageMap == FirstReads(levels)
    ensures r.Ok? ==> forall a :: a in r.value.addresses <==> exists l :: l in levels && a in l.contractSize
    ensures r == Err(InvalidFields) ==> !IsTraced(levels, c.op.sender)
  {
    if |levels| < 1 {
      return Err(InternalError);
    }
    var callsOk := CheckCalls(calls, c.entryPoint, resolve);
    if !callsOk {
      return Err(OpcodeValidation);
    }
    var index := ParseEntitySlots(c.Entities(), c.keccak, c.hash);
    var entities := KeysOf(c.Entities());
    for i := 0 to |entities|
      invariant forall j :: 0 <= j < i ==> EntityAllowed(c, levels, entities[j])
    {
      assert entities[i] in entities;
      var error := CheckEntity(c, index, levels, entities[i]);
      if error.Some? {
        return Err(error.value);
      }
    }
    var addresses := CollectAddresses(levels);
    var storageMap := CollectReads(levels);
    return Ok(Report(addresses, storageMap));
  }
}
