/** The rules of ERC-7562 a traced validation is judged by, written out on the operation and the trace. */
module ParserRules {
  import opened Common
  import opened Words
  import opened StorageMaps
  import opened CollectorTracer
  import opened CallStack
  import opened ResultParser

  // ---------- entities ----------

  predicate IsRole(op: UserOp, a: Address) {
    a == op.sender || op.factory == Some(a) || op.paymaster == Some(a)
  }

  /** The stake record in force for an address: as paymaster if it is that, else as factory, else as sender. */
  function RecordInForce(c: Context, a: Address): Option<StakeInfo> {
    if c.op.paymaster == Some(a) then c.paymasterInfo
    else if c.op.factory == Some(a) then c.factoryInfo
    else if c.op.sender == a then c.senderInfo
    else None
  }

  predicate HasStake(c: Context, a: Address) {
    RecordInForce(c, a).Some? && c.isStaked(RecordInForce(c, a).value)
  }

  /** The entities are exactly the operation's sender, factory and paymaster, each with the record in force. */
  lemma {:induction false} EntitiesExactly(c: Context)
    ensures forall a :: a in c.Entities() <==> IsRole(c.op, a)
    ensures forall a :: a in c.Entities() ==> c.Entities()[a] == RecordInForce(c, a)
    ensures forall a :: c.Staked(a) <==> HasStake(c, a)
  {
  }

  // ---------- slots of an entity ----------

  /** A word that ends in the address and is zero before it. */
  predicate IsPadded(word: Bytes, a: Address) {
    && |a| <= 32 == |word|
    && word[32 - |a|..] == a
    && forall i :: 0 <= i < 32 - |a| ==> word[i] == 0
  }

  /** Some role's record in force is for the address. */
  predicate IsOnRecord(c: Context, a: Address) {
    || (RecordInForce(c, c.op.sender).Some? && RecordInForce(c, c.op.sender).value.addr == a)
    || (c.op.factory.Some? && RecordInForce(c, c.op.factory.value).Some? && RecordInForce(c, c.op.factory.value).value.addr == a)
    || (c.op.paymaster.Some? && c.paymasterInfo.Some? && c.paymasterInfo.value.addr == a)
  }

  /** The slot is among the 128 from the hash of something hashed in the trace that starts with the padded address. */
  ghost predicate FollowsHashOf(c: Context, slot: Slot, a: Address, i: int) {
    && 0 <= i < |c.keccak| && |c.keccak[i]| >= 32 && IsPadded(c.keccak[i][..32], a)
    && ToNat(c.hash(c.keccak[i])) <= ToNat(slot) <= ToNat(c.hash(c.keccak[i])) + 127
  }

  ghost predicate BelongsTo(c: Context, slot: Slot, a: Address) {
    IsPadded(slot, a) || (IsOnRecord(c, a) && exists i :: FollowsHashOf(c, slot, a, i))
  }

  lemma {:induction false} PaddedExactly(word: Bytes, a: Address)
    requires |a| <= 32
    ensures word == Pad32(a) <==> IsPadded(word, a)
    ensures Pad32(a) <= word <==> |word| >= 32 && IsPadded(word[..32], a)
  {
    PadIs(a);
    if IsPadded(word, a) {
      assert word == word[..32 - |a|] + word[32 - |a|..];
      assert word[..32 - |a|] == Zeros(32 - |a|);
    }
    if |word| >= 32 && IsPadded(word[..32], a) {
      var front := word[..32];
      assert front == front[..32 - |a|] + front[32 - |a|..];
      assert front[..32 - |a|] == Zeros(32 - |a|);
      assert word == front + word[32..];
    }
    if Pad32(a) <= word {
      assert word[..32] == Pad32(a);
    }
  }

  lemma {:induction false} PadIs(a: Address)
    requires |a| <= 32
    ensures Pad32(a) == Zeros(32 - |a|) + a && |Pad32(a)| == 32 && IsPadded(Pad32(a), a)
  {
  }

  lemma {:induction false} OnRecordExactly(c: Context, a: Address)
    ensures HasRecord(c.Entities(), a) <==> IsOnRecord(c, a)
  {
    EntitiesExactly(c);
    var entities := c.Entities();
    forall e | IsRole(c.op, e) && RecordInForce(c, e).Some? && RecordInForce(c, e).value.addr == a
      ensures HasRecord(entities, a)
    {
      assert e in entities.Keys && e in entities && entities[e].Some? && entities[e].value.addr == a;
    }
    if HasRecord(entities, a) {
      var e :| e in entities.Keys && e in entities && entities[e].Some? && entities[e].value.addr == a;
      assert IsRole(c.op, e) && RecordInForce(c, e) == entities[e];
    }
    if IsOnRecord(c, a) {
      assert exists e :: IsRole(c.op, e) && RecordInForce(c, e).Some? && RecordInForce(c, e).value.addr == a by {
        RoleOnRecord(c, a);
      }
    }
  }

  lemma {:induction false} RoleOnRecord(c: Context, a: Address)
    requires IsOnRecord(c, a)
    ensures exists e :: IsRole(c.op, e) && RecordInForce(c, e).Some? && RecordInForce(c, e).value.addr == a
  {
    if RecordInForce(c, c.op.sender).Some? && RecordInForce(c, c.op.sender).value.addr == a {
      assert IsRole(c.op, c.op.sender);
    } else if c.op.paymaster.Some? && c.paymasterInfo.Some? && c.paymasterInfo.value.addr == a {
      assert IsRole(c.op, c.op.paymaster.value) && RecordInForce(c, c.op.paymaster.value) == c.paymasterInfo;
    } else {
      assert IsRole(c.op, c.op.factory.value);
    }
  }

  lemma {:induction false} BelongsExactly(c: Context, slot: Slot, a: Address)
    requires |a| <= 32
    ensures Associated(c, slot, a) <==> BelongsTo(c, slot, a)
  {
    PaddedExactly(slot, a);
    OnRecordExactly(c, a);
    forall i | 0 <= i < |c.keccak|
      ensures FollowsHashOf(c, slot, a, i) <==> Pad32(a) <= c.keccak[i] && Within(slot, c.hash(c.keccak[i]))
    {
      PaddedExactly(c.keccak[i], a);
    }
    if exists i :: FollowsHashOf(c, slot, a, i) {
      var i :| FollowsHashOf(c, slot, a, i);
      assert Pad32(a) <= c.keccak[i] && Within(slot, c.hash(c.keccak[i]));
    }
  }

  // ---------- the rules ----------

  /** The opcodes of rule OP-011. */
  const BANNED_OPCODES: set<Opcode> := {
    GASPRICE, GASLIMIT, DIFFICULTY, TIMESTAMP, BASEFEE, BLOCKHASH, NUMBER, ORIGIN,
    GAS, CREATE, COINBASE, SELFDESTRUCT, RANDOM, PREVRANDAO, INVALID
  }

  /** Opcodes: OP-011, OP-031 and OP-080. */
  predicate ObeysOpcodeRules(c: Context, e: Address, opcodes: map<Opcode, nat>) {
    && (forall op :: op in BANNED_OPCODES ==> op !in opcodes)
    && (BALANCE in opcodes || SELFBALANCE in opcodes ==> HasStake(c, e))
    && (CREATE2 in opcodes ==> c.op.factory == Some(e) && c.op.sender != e && opcodes[CREATE2] < 2)
  }

  /** Storage of a contract that is neither the sender nor the EntryPoint: a slot of the sender's is open to all unless
      the account is being deployed, and then to staked entities, and to the sender if the factory is staked; any other
      slot is open to staked entities alone, to write only if it is their own. */
  ghost predicate ObeysSlotRules(c: Context, e: Address, addr: Address, x: AccessInfo, slot: Slot) {
    if BelongsTo(c, slot, c.op.sender) then
      c.op.factory.None? || HasStake(c, e) || (e == c.op.sender && HasStake(c, c.op.factory.value))
    else
      HasStake(c, e) &&
      (BelongsTo(c, slot, e) || addr == e || (slot !in x.slotWrites && slot !in x.transientWrites))
  }

  predicate Uses(x: AccessInfo, slot: Slot) {
    slot in x.slotReads || slot in x.slotWrites || slot in x.transientReads || slot in x.transientWrites
  }

  /** All the rules on the part of the trace that belongs to an entity. */
  ghost predicate Obeys(c: Context, e: Address, level: Level) {
    && !level.oog
    && ObeysOpcodeRules(c, e, level.opcodes)
    && (forall addr, slot ::
          addr in level.access && addr != c.op.sender && addr != c.entryPoint && Uses(level.access[addr], slot) ==>
            ObeysSlotRules(c, e, addr, level.access[addr], slot))
    && (forall a :: a in level.contractSize && level.contractSize[a].contractSize <= 2 ==> a == c.op.sender)
    && c.entryPoint !in level.extCodeAccessInfo
  }

  lemma {:induction false} BannedExactly(op: Opcode)
    ensures IsBanned(op) <==> op in BANNED_OPCODES
  {
  }

  lemma {:induction false} StakedOpcodesExactly(c: Context, e: Address, opcodes: map<Opcode, nat>)
    ensures (forall op :: op in opcodes && IsForStaked(op) ==> c.Staked(e)) <==>
      (BALANCE in opcodes || SELFBALANCE in opcodes ==> HasStake(c, e))
  {
    EntitiesExactly(c);
    assert IsForStaked(BALANCE) && IsForStaked(SELFBALANCE);
  }

  lemma {:induction false} OpcodeRulesExactly(c: Context, e: Address, opcodes: map<Opcode, nat>)
    ensures OpcodesAllowed(c, e, opcodes) <==> ObeysOpcodeRules(c, e, opcodes)
  {
    StakedOpcodesExactly(c, e, opcodes);
    forall op ensures IsBanned(op) <==> op in BANNED_OPCODES {
      BannedExactly(op);
    }
  }

  lemma {:induction false} SlotRulesExactly(c: Context, e: Address, addr: Address, x: AccessInfo, slot: Slot)
    requires |c.op.sender| <= 32 && |e| <= 32
    ensures SlotPermitted(c, e, addr, x, slot) <==> ObeysSlotRules(c, e, addr, x, slot)
  {
    EntitiesExactly(c);
    BelongsExactly(c, slot, c.op.sender);
    BelongsExactly(c, slot, e);
  }

  lemma {:induction false} AllowedExactly(c: Context, e: Address, level: Level)
    requires |c.op.sender| <= 32 && |e| <= 32
    ensures LevelAllowed(c, e, level) <==> Obeys(c, e, level)
  {
    OpcodeRulesExactly(c, e, level.opcodes);
    forall addr, slot | addr in level.access
      ensures SlotPermitted(c, e, addr, level.access[addr], slot) <==> ObeysSlotRules(c, e, addr, level.access[addr], slot)
    {
      SlotRulesExactly(c, e, addr, level.access[addr], slot);
    }
    forall addr, slot | addr in level.access
      ensures slot in Touched(level.access[addr]) <==> Uses(level.access[addr], slot)
    {
    }
  }

  ghost predicate IsFirstCallTo(levels: seq<Level>, k: int, a: Address) {
    && 0 <= k < |levels| && levels[k].topLevelTargetAddress == a
    && forall j :: 0 <= j < k ==> levels[j].topLevelTargetAddress != a
  }

  /** A trace is accepted exactly when its calls are allowed, the sender was called, and the first top-level call to
      each of sender, factory and paymaster obeys the rules. */
  lemma {:induction false} AcceptedExactlyWhen(c: Context, levels: seq<Level>, calls: seq<CallEvent>,
      resolve: Bytes -> Option<string>)
    requires forall a :: IsRole(c.op, a) ==> |a| <= 32
    ensures Accepts(c, levels, calls, resolve) <==>
      && (forall e :: e in Parsed(calls, resolve) ==> EntryAllowed(e, c.entryPoint))
      && (exists k :: IsFirstCallTo(levels, k, c.op.sender))
      && forall k, a :: IsRole(c.op, a) && IsFirstCallTo(levels, k, a) ==> Obeys(c, a, levels[k])
  {
    EntitiesExactly(c);
    assert IsRole(c.op, c.op.sender);
    forall k, a | IsRole(c.op, a) && IsFirstCallTo(levels, k, a) ensures LevelAllowed(c, a, levels[k]) <==> Obeys(c, a, levels[k]) {
      AllowedExactly(c, a, levels[k]);
    }
    forall k, a ensures IsFirstCallTo(levels, k, a) <==> IsLevelOf(levels, k, a) {
    }
    TracedExactly(levels, c.op.sender);
  }

  lemma {:induction false} TracedExactly(levels: seq<Level>, a: Address)
    ensures IsTraced(levels, a) <==> exists k :: IsFirstCallTo(levels, k, a)
  {
    if IsTraced(levels, a) {
      var l :| l in levels && l.topLevelTargetAddress == a;
      var i :| 0 <= i < |levels| && levels[i] == l;
      FirstCallBefore(levels, i, a);
    }
    if k :| IsFirstCallTo(levels, k, a) {
      assert levels[k] in levels;
    }
  }

  lemma {:induction false} FirstCallBefore(levels: seq<Level>, i: nat, a: Address)
    requires i < |levels| && levels[i].topLevelTargetAddress == a
    ensures exists k :: IsFirstCallTo(levels, k, a)
  {
    if forall j :: 0 <= j < i ==> levels[j].topLevelTargetAddress != a {
      assert IsFirstCallTo(levels, i, a);
    } else {
      var j :| 0 <= j < i && levels[j].topLevelTargetAddress == a;
      FirstCallBefore(levels, j, a);
    }
  }
}
