/** Exactly which operations enter the mempool, and what entering changes. */
module Admission {
  import opened Common
  import opened Reputation
  import opened Mempool
  import opened MempoolProofs
  import opened Sequences

  ghost predicate HasEntry(pool: Pool, op: UserOp) {
    exists i :: 0 <= i < |pool| && pool[i].userOp.sender == op.sender && pool[i].userOp.nonce == op.nonce
  }

  // ---------- new operations ----------

  /** At or above its allowance an entity needs the minimum stake and delay, or the whitelist. */
  ghost predicate WithinAllowance(p: Policy, s: State, title: Title, info: StakeInfo) {
    forall n :: IsAllowance(s.table, title, info.addr, n) && CountOf(s.counts, info.addr) >= n ==>
      info.addr in p.whitelist || (info.stake >= p.minStake && info.unstakeDelaySec >= p.minUnstakeDelay)
  }

  /** What is asked of an entity a new operation names: not banned, not throttled with more than four roles, and
      within its allowance. */
  ghost predicate MayEnter(p: Policy, s: State, title: Title, info: StakeInfo) {
    && StatusOf(p, s.table, Some(info.addr)) != BANNED
    && !(StatusOf(p, s.table, Some(info.addr)) == THROTTLED && CountOf(s.counts, info.addr) > 4)
    && WithinAllowance(p, s, title, info)
  }

  ghost predicate EntitiesMayEnter(p: Policy, s: State, k: Stakes) {
    && MayEnter(p, s, Account, k.sender)
    && (k.paymaster.Some? ==> MayEnter(p, s, Paymaster, k.paymaster.value))
    && (k.factory.Some? ==> MayEnter(p, s, Deployer, k.factory.value))
    && (k.aggregator.Some? ==> MayEnter(p, s, Aggregator, k.aggregator.value))
  }

  /** The operation's sender is no entry's paymaster or factory, and its own are no entry's sender. */
  ghost predicate RolesClear(pool: Pool, op: UserOp) {
    forall i :: 0 <= i < |pool| ==>
      && pool[i].userOp.paymaster != Some(op.sender) && pool[i].userOp.factory != Some(op.sender)
      && op.paymaster != Some(pool[i].userOp.sender) && op.factory != Some(pool[i].userOp.sender)
  }

  lemma {:induction false} NextMultiple(y: nat, q: int, r: int)
    requires q < r
    ensures q * y + y <= r * y
  {
    MulLe(y, q + 1, r);
  }

  lemma {:induction false} SharesAgree(x: int, y: nat, q: int, r: int)
    requires y > 0 && q * y <= x < q * y + y && r * y <= x < r * y + y
    ensures q == r
  {
    if q < r {
      NextMultiple(y, q, r);
    } else if r < q {
      NextMultiple(y, r, q);
    }
  }

  lemma {:induction false} ShareIsUnique(x: int, y: int, q: int, r: int)
    requires IsShare(x, y, q) && IsShare(x, y, r)
    ensures q == r
  {
    if y > 0 {
      SharesAgree(x, y, q, r);
    } else if y < 0 {
      SharesAgree(-x, -y, q, r);
    }
  }

  lemma {:induction false} AllowanceIsUnique(t: Table, title: Title, a: Address, n: int)
    requires IsAllowance(t, title, a, n)
    ensures n == MaxAllowedUnstaked(t, title, a)
  {
    AllowanceExactly(t, title, a);
    if title != Account && a in t {
      var r, most := t[a], if t[a].opsIncluded > 10000 then 10000 else t[a].opsIncluded;
      var x :| IsShare(10 * r.opsIncluded, r.opsSeen, x) && n == 10 + x + most;
      var y :| IsShare(10 * r.opsIncluded, r.opsSeen, y) && MaxAllowedUnstaked(t, title, a) == 10 + y + most;
      ShareIsUnique(10 * r.opsIncluded, r.opsSeen, x, y);
    }
  }

  lemma {:induction false} WithinAllowanceExactly(p: Policy, s: State, title: Title, info: StakeInfo)
    ensures WithinAllowance(p, s, title, info) <==>
      || CountOf(s.counts, info.addr) < MaxAllowedUnstaked(s.table, title, info.addr)
      || info.addr in p.whitelist
      || (info.stake >= p.minStake && info.unstakeDelaySec >= p.minUnstakeDelay)
  {
    AllowanceExactly(s.table, title, info.addr);
    forall n | IsAllowance(s.table, title, info.addr, n) ensures n == MaxAllowedUnstaked(s.table, title, info.addr) {
      AllowanceIsUnique(s.table, title, info.addr, n);
    }
  }

  lemma {:induction false} StatusCheckExactly(p: Policy, s: State, title: Title, info: StakeInfo)
    ensures CheckReputationStatus(p, s, title, Some(info)) == None <==> MayEnter(p, s, title, info)
  {
    WithinAllowanceExactly(p, s, title, info);
    StakeCheckExactly(p, s.table, info);
  }

  lemma {:induction false} RoleCheckExactly(pool: Pool, op: UserOp)
    ensures CheckMultipleRoles(pool, op) == None <==> RolesClear(pool, op)
    ensures CheckMultipleRoles(pool, op) in {None, Some(OpcodeValidation)}
  {
    if CheckMultipleRoles(pool, op) == None {
      forall i | 0 <= i < |pool|
        ensures !NamesEntity(pool[i].userOp, op.sender) && !NamesEntity(op, pool[i].userOp.sender)
      {
        assert pool[i] in pool;
      }
    }
  }

  /** A new operation is admitted exactly when every entity it names may enter and no role clashes. It is then
      appended and its roles counted. */
  lemma {:induction false} AdmittedExactlyWhen(p: Policy, s: State, e: Entry, k: Stakes)
    requires !HasEntry(s.pool, e.userOp)
    ensures Admit(p, s, e, k).Ok? <==> EntitiesMayEnter(p, s, k) && RolesClear(s.pool, e.userOp)
    ensures Admit(p, s, e, k).Ok? ==> Admit(p, s, e, k).value.pool == s.pool + [e]
    ensures Admit(p, s, e, k).Ok? && Represents(s.counts, s.pool) ==>
      Represents(Admit(p, s, e, k).value.counts, s.pool + [e])
  {
    StatusCheckExactly(p, s, Account, k.sender);
    if k.paymaster.Some? {
      StatusCheckExactly(p, s, Paymaster, k.paymaster.value);
    }
    if k.factory.Some? {
      StatusCheckExactly(p, s, Deployer, k.factory.value);
    }
    if k.aggregator.Some? {
      StatusCheckExactly(p, s, Aggregator, k.aggregator.value);
    }
    RoleCheckExactly(s.pool, e.userOp);
    if Represents(s.counts, s.pool) {
      AppendRepresents(s.counts, s.pool, e);
    }
  }

  /** A refused operation is told of a clash of roles exactly when all its entities may enter, and otherwise of a bad
      reputation or a low stake. */
  lemma {:induction false} RefusedWith(p: Policy, s: State, e: Entry, k: Stakes)
    requires !HasEntry(s.pool, e.userOp) && Admit(p, s, e, k).Err?
    ensures EntitiesMayEnter(p, s, k) ==> Admit(p, s, e, k).error == OpcodeValidation
    ensures !EntitiesMayEnter(p, s, k) ==> Admit(p, s, e, k).error in {ValidationError.Reputation, InsufficientStake}
  {
    AdmittedExactlyWhen(p, s, e, k);
    StatusCheckExactly(p, s, Account, k.sender);
    StakeCheckExactly(p, s.table, k.sender);
    if k.paymaster.Some? {
      StatusCheckExactly(p, s, Paymaster, k.paymaster.value);
      StakeCheckExactly(p, s.table, k.paymaster.value);
    }
    if k.factory.Some? {
      StatusCheckExactly(p, s, Deployer, k.factory.value);
      StakeCheckExactly(p, s.table, k.factory.value);
    }
    if k.aggregator.Some? {
      StatusCheckExactly(p, s, Aggregator, k.aggregator.value);
      StakeCheckExactly(p, s.table, k.aggregator.value);
    }
    RoleCheckExactly(s.pool, e.userOp);
  }

  /** In particular no operation with a banned entity gets in. */
  lemma {:induction false} BannedStayOut(p: Policy, s: State, e: Entry, k: Stakes, info: StakeInfo)
    requires !HasEntry(s.pool, e.userOp) && StatusOf(p, s.table, Some(info.addr)) == BANNED
    requires info == k.sender || k.paymaster == Some(info) || k.factory == Some(info) || k.aggregator == Some(info)
    ensures Admit(p, s, e, k).Err?
  {
    AdmittedExactlyWhen(p, s, e, k);
  }

  // ---------- replacements ----------

  /** An operation whose sender and nonce are in the mempool is admitted exactly when both its fees are at least
      eleven tenths of the old ones; it takes the old one's place and nothing else is asked or counted. */
  lemma {:induction false} ReplacedExactlyWhen(p: Policy, s: State, e: Entry, k: Stakes, i: nat)
    requires i < |s.pool| && s.pool[i].userOp.sender == e.userOp.sender && s.pool[i].userOp.nonce == e.userOp.nonce
    requires forall j :: 0 <= j < i ==>
      !(s.pool[j].userOp.sender == e.userOp.sender && s.pool[j].userOp.nonce == e.userOp.nonce)
    ensures
      var old_, new_ := s.pool[i].userOp, e.userOp;
      Admit(p, s, e, k).Ok? <==>
        10 * new_.maxPriorityFeePerGas >= 11 * old_.maxPriorityFeePerGas && 10 * new_.maxFeePerGas >= 11 * old_.maxFeePerGas
    ensures Admit(p, s, e, k).Ok? ==>
      Admit(p, s, e, k).value.pool == s.pool[i := e] && Admit(p, s, e, k).value.counts == s.counts
    ensures Admit(p, s, e, k).Err? ==> Admit(p, s, e, k).error == InvalidFields
  {
  }

  // ---------- sightings ----------

  function IsIt(x: Option<Address>, a: Address): nat {
    if x == Some(a) then 1 else 0
  }

  /** How often admission counts an address as seen: once for each of aggregator, paymaster and factory it is, and
      once as a sender that is whitelisted, or not banned and staked. */
  function Sightings(p: Policy, t: Table, op: UserOp, k: Stakes, a: Address): nat {
    var aggregator := if k.aggregator.Some? then Some(k.aggregator.value.addr) else None;
    var trusted := k.sender.addr in p.whitelist ||
      (StatusOf(p, t, Some(k.sender.addr)) != BANNED && k.sender.stake >= p.minStake &&
       k.sender.unstakeDelaySec >= p.minUnstakeDelay);
    IsIt(aggregator, a) + IsIt(op.paymaster, a) + IsIt(op.factory, a) + if trusted && op.sender == a then 1 else 0
  }

  lemma {:induction false} SeenCounts(t: Table, x: Option<Address>, a: Address)
    ensures RecordOf(Seen(t, x, 1), a) == Record(RecordOf(t, a).opsSeen + IsIt(x, a), RecordOf(t, a).opsIncluded)
  {
  }

  /** Admission, new or by replacement, counts exactly those sightings and no inclusion. */
  lemma {:induction false} AdmissionCountsSightings(p: Policy, s: State, e: Entry, k: Stakes, a: Address)
    requires Admit(p, s, e, k).Ok?
    ensures RecordOf(Admit(p, s, e, k).value.table, a) ==
      Record(RecordOf(s.table, a).opsSeen + Sightings(p, s.table, e.userOp, k, a), RecordOf(s.table, a).opsIncluded)
  {
    var op := e.userOp;
    StakeCheckExactly(p, s.table, k.sender);
    var t0 := if CheckStake(p, s.table, k.sender).None? then Seen(s.table, Some(op.sender), 1) else s.table;
    SeenCounts(s.table, Some(op.sender), a);
    SeenCounts(t0, AggregatorOf(k), a);
    SeenCounts(Seen(t0, AggregatorOf(k), 1), op.paymaster, a);
    SeenCounts(Seen(Seen(t0, AggregatorOf(k), 1), op.paymaster, 1), op.factory, a);
  }
}
