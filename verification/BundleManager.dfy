/** Building a bundle from the mempool, and blaming an entity when the bundle fails
    (packages/bundler/src/modules/BundleManager.ts). */
module Bundle {
  import opened Common
  import opened Reputation
  import opened Mempool
  import opened StorageMaps
  import opened Sequences

  const THROTTLED_ENTITY_BUNDLE_COUNT := 4

  /** What re-validating an entry yields. */
  datatype Validation = Valid(result: Validated) | Invalid(accountOrFactoryError: bool)

  datatype Validated = Validated(preOpGas: nat, prefund: nat, storageMap: StorageMap)

  /** Configuration, and the chain as this bundle sees it. */
  datatype Env = Env(
    policy: Policy,
    maxBundleGas: nat,
    useAccountRoots: bool,
    validate: Entry -> Validation,
    balanceOf: Address -> nat,
    storageRoot: Address -> Root)

  /** The variables of the loop. */
  datatype Accumulators = Accumulators(
    picked: seq<Entry>,
    senders: set<Address>,
    deposits: map<Address, int>,
    entityCount: Counts,
    storageMap: StorageMap,
    totalGas: nat)

  /** Those variables, the senders known when building started, the objects the loop changes,
      and its verdict on each entry so far. */
  datatype Build = Build(
    acc: Accumulators,
    knownSenders: set<Address>,
    mempool: State,
    stopped: bool,
    log: seq<Verdict>)

  datatype Verdict =
    | NotReached
    | BannedEntity
    | PaymasterLimit
    | FactoryLimit
    | SameSender
    | FailedValidation(accountOrFactoryError: bool)
    | TouchesKnownSender
    | OverGas
    | NoDeposit(paymaster: Address)
    | Pick(result: Validated)

  predicate ChargesPaymaster(op: UserOp) {
    op.paymaster.Some? && IsAddress(op.paymaster.value) && op.paymaster.value != ADDRESS_ZERO
  }

  predicate CountsFactory(op: UserOp) {
    op.factory.Some? && IsAddress(op.factory.value)
  }

  /** What is left of a paymaster's deposit, fetching it if this bundle has not done so yet. */
  function DepositOf(balanceOf: Address -> nat, deposits: map<Address, int>, paymaster: Address): int {
    if paymaster in deposits then deposits[paymaster] else balanceOf(paymaster)
  }

  predicate AccessesOther(m: StorageMap, sender: Address, knownSenders: set<Address>) {
    exists a :: a in m && a != sender && a in knownSenders
  }

  function Decide(env: Env, b: Build, e: Entry): Verdict {
    var op := e.userOp;
    var paymasterStatus := StatusOf(env.policy, b.mempool.table, op.paymaster);
    var deployerStatus := StatusOf(env.policy, b.mempool.table, op.factory);
    var v := env.validate(e);
    if b.stopped then NotReached
    else if paymasterStatus == BANNED || deployerStatus == BANNED then BannedEntity
    else if op.paymaster.Some? &&
      (paymasterStatus == THROTTLED || CountOf(b.acc.entityCount, op.paymaster.value) > THROTTLED_ENTITY_BUNDLE_COUNT)
    then PaymasterLimit
    else if op.factory.Some? &&
      (deployerStatus == THROTTLED || CountOf(b.acc.entityCount, op.factory.value) > THROTTLED_ENTITY_BUNDLE_COUNT)
    then FactoryLimit
    else if op.sender in b.acc.senders then SameSender
    else if v.Invalid? then FailedValidation(v.accountOrFactoryError)
    else if AccessesOther(v.result.storageMap, op.sender, b.knownSenders) then TouchesKnownSender
    else if b.acc.totalGas + v.result.preOpGas + op.callGasLimit > env.maxBundleGas then OverGas
    else if ChargesPaymaster(op) &&
      DepositOf(env.balanceOf, b.acc.deposits, op.paymaster.value) < v.result.prefund
    then NoDeposit(op.paymaster.value)
    else Pick(v.result)
  }

  function WithAccountRoot(env: Env, m: StorageMap, op: UserOp): StorageMap {
    if env.useAccountRoots && op.factory.None? then m[op.sender := RootHash(env.storageRoot(op.sender))] else m
  }

  function CountedEntities(c: Counts, op: UserOp): Counts {
    var c' := if ChargesPaymaster(op) then Incremented(c, op.paymaster) else c;
    if CountsFactory(op) then Incremented(c', op.factory) else c'
  }

  function Charged(balanceOf: Address -> nat, deposits: map<Address, int>, op: UserOp,
      prefund: nat): map<Address, int> {
    if ChargesPaymaster(op)
    then deposits[op.paymaster.value := DepositOf(balanceOf, deposits, op.paymaster.value) - prefund]
    else deposits
  }

  function Picked(env: Env, acc: Accumulators, e: Entry, v: Validated): Accumulators {
    var op := e.userOp;
    Accumulators(
      acc.picked + [e],
      acc.senders + {op.sender},
      Charged(env.balanceOf, acc.deposits, op, v.prefund),
      CountedEntities(acc.entityCount, op),
      Merged(WithAccountRoot(env, acc.storageMap, op), v.storageMap),
      acc.totalGas + v.preOpGas + op.callGasLimit)
  }

  function Fetched(env: Env, acc: Accumulators, paymaster: Address): Accumulators {
    acc.(deposits := acc.deposits[paymaster := DepositOf(env.balanceOf, acc.deposits, paymaster)])
  }

  /** An account or factory failure takes back the paymaster's sighting. */
  function Unblamed(s: State, op: UserOp, accountOrFactoryError: bool): State {
    if op.paymaster.Some? && accountOrFactoryError then s.(table := Seen(s.table, op.paymaster, -1)) else s
  }

  /** What the loop does with an entry, given the verdict on it. */
  function Act(env: Env, b: Build, e: Entry, verdict: Verdict): Build {
    var op, b' := e.userOp, b.(log := b.log + [verdict]);
    match verdict
    case BannedEntity => b'.(mempool := RemovedByKey(b.mempool, op.sender, op.nonce))
    case FailedValidation(blameless) =>
      b'.(mempool := RemovedByKey(Unblamed(b.mempool, op, blameless), op.sender, op.nonce))
    case OverGas => b'.(stopped := true)
    case NoDeposit(paymaster) => b'.(acc := Fetched(env, b.acc, paymaster))
    case Pick(v) => b'.(acc := Picked(env, b.acc, e, v))
    case _ => b'
  }

  function Next(env: Env, b: Build, e: Entry): Build {
    Act(env, b, e, Decide(env, b, e))
  }

  const EMPTY := Accumulators([], {}, map[], map[], map[], 0)

  function Start(s: State): Build {
    Build(EMPTY, KnownSenders(s.pool), s, false, [])
  }

  /** The state of the loop once the first n entries have been visited. */
  function After(env: Env, start: Build, entries: seq<Entry>, n: nat): Build
    requires n <= |entries|
  {
    if n == 0 then start
    else
      Next(env, After(env, start, entries, n - 1), entries[n - 1])
  }

  ghost predicate IsTrail(env: Env, trail: seq<Build>, entries: seq<Entry>) {
    && |trail| == |entries| + 1
    && forall i :: 0 <= i < |entries| ==> trail[i + 1] == Next(env, trail[i], entries[i])
  }

  /** All the states of the loop. */
  ghost function Trail(env: Env, start: Build, entries: seq<Entry>, n: nat): (trail: seq<Build>)
    requires n <= |entries|
    ensures |trail| == n + 1
    ensures forall i :: 0 <= i <= n ==> trail[i] == After(env, start, entries, i)
  {
    if n == 0 then [start] else Trail(env, start, entries, n - 1) + [After(env, start, entries, n)]
  }

  lemma {:induction false} TrailIsTrail(env: Env, start: Build, entries: seq<Entry>)
    ensures IsTrail(env, Trail(env, start, entries, |entries|), entries)
  {
    var trail := Trail(env, start, entries, |entries|);
    forall i | 0 <= i < |entries| ensures trail[i + 1] == Next(env, trail[i], entries[i]) {
      assert trail[i + 1] == After(env, start, entries, i + 1);
    }
  }

  function Built(env: Env, s: State): Build {
    var entries := SortedForInclusion(s.pool);
    After(env, Start(s), entries, |entries|)
  }

  function Ops(es: seq<Entry>): seq<UserOp> {
    if es == [] then [] else Ops(Init(es)) + [Last(es).userOp]
  }

  // ---------- a failed bundle ----------

  function EntityToBlame(reason: string, op: UserOp, accountStaked: bool, factoryStaked: bool): Option<Address> {
    if "AA3" <= reason then (if accountStaked then Some(op.sender) else op.paymaster)
    else if "AA2" <= reason then (if op.factory.Some? && factoryStaked then op.factory else Some(op.sender))
    else if "AA1" <= reason then op.factory
    else None
  }

  function AfterFailedOp(s: State, op: UserOp, blamed: Option<Address>): State {
    var s' := if blamed.None? then s
              else var banned := RemovedBanned(s, blamed.value); banned.(table := Crashed(banned.table, blamed));
    RemovedByKey(s', op.sender, op.nonce)
  }

  // ---------- the object ----------

  class BundleManager {
    const mempoolManager: MempoolManager
    const reputationManager: ReputationManager
    const maxBundleGas: nat
    const conditionalRpc: bool
    const mergeToAccountRootHash: bool

    constructor (mempoolManager: MempoolManager, maxBundleGas: nat, conditionalRpc: bool, mergeToAccountRootHash: bool)
      ensures this.mempoolManager == mempoolManager && reputationManager == mempoolManager.reputationManager
    {
      this.mempoolManager := mempoolManager;
      this.reputationManager := mempoolManager.reputationManager;
      this.maxBundleGas := maxBundleGas;
      this.conditionalRpc := conditionalRpc;
      this.mergeToAccountRootHash := mergeToAccountRootHash;
    }

    function CurrentEnv(validate: Entry -> Validation, balanceOf: Address -> nat, storageRoot: Address -> Root): Env
      reads reputationManager
    {
      Env(reputationManager.CurrentPolicy(), maxBundleGas, mergeToAccountRootHash && conditionalRpc,
          validate, balanceOf, storageRoot)
    }

    method CreateBundle(validate: Entry -> Validation, balanceOf: Address -> nat, storageRoot: Address -> Root)
      returns (bundle: seq<UserOp>, storageMap: StorageMap)
      requires reputationManager == mempoolManager.reputationManager
      modifies mempoolManager`mempool, mempoolManager`entryCount, reputationManager`entries
      ensures
        var built := Built(old(CurrentEnv(validate, balanceOf, storageRoot)), old(mempoolManager.CurrentState()));
        && bundle == Ops(built.acc.picked)
        && storageMap == built.acc.storageMap
        && mempoolManager.CurrentState() == built.mempool
    {
      var env := CurrentEnv(validate, balanceOf, storageRoot);
      var entries := mempoolManager.GetSortedForInclusion();
      SortedExactly(mempoolManager.mempool, entries);
      var knownSenders := KnownSenders(mempoolManager.mempool);
      ghost var start := Start(mempoolManager.CurrentState());
      ghost var trail := Trail(env, start, entries, |entries|);
      TrailIsTrail(env, start, entries);
      var acc;
      ghost var n;
      acc, n := VisitAll(env, trail, entries, knownSenders);
      StoppedStays(env, start, entries, n);
      bundle, storageMap := Ops(acc.picked), acc.storageMap;
    }

    /** The loop's variables and objects are those of a build. */
    ghost predicate Tracks(b: Build, acc: Accumulators, knownSenders: set<Address>)
      reads mempoolManager, mempoolManager.reputationManager
    {
      b.acc == acc && b.knownSenders == knownSenders && b.mempool == mempoolManager.CurrentState()
    }

    /** The loop; `trail` holds the states it should go through. */
    method VisitAll(env: Env, ghost trail: seq<Build>, entries: seq<Entry>, knownSenders: set<Address>)
      returns (acc: Accumulators, ghost n: nat)
      requires reputationManager == mempoolManager.reputationManager
      requires env.policy == reputationManager.CurrentPolicy()
      requires IsTrail(env, trail, entries) && Tracks(trail[0], EMPTY, knownSenders) && !trail[0].stopped
      modifies mempoolManager`mempool, mempoolManager`entryCount, reputationManager`entries
      ensures n <= |entries| && (n == |entries| || trail[n].stopped)
      ensures Tracks(trail[n], acc, knownSenders)
    {
      acc := EMPTY;
      for i := 0 to |entries|
        invariant Tracks(trail[i], acc, knownSenders) && !trail[i].stopped
      {
        ghost var b;
        var stopped;
        acc, b, stopped := Visit(env, trail[i], acc, knownSenders, entries[i]);
        assert b == trail[i + 1];
        if stopped {
          return acc, i + 1;
        }
      }
      n := |entries|;
    }

    /** The body of the loop; `stopped` is its break. */
    method Visit(env: Env, ghost b: Build, acc: Accumulators, knownSenders: set<Address>, entry: Entry)
      returns (acc': Accumulators, ghost b': Build, stopped: bool)
      requires reputationManager == mempoolManager.reputationManager
      requires env.policy == reputationManager.CurrentPolicy()
      requires Tracks(b, acc, knownSenders) && !b.stopped
      modifies mempoolManager`mempool, mempoolManager`entryCount, reputationManager`entries
      ensures b' == Next(env, b, entry)
      ensures Tracks(b', acc', knownSenders) && b'.stopped == stopped
    {
      var verdict := Consider(env, b, acc, knownSenders, entry);
      b' := Act(env, b, entry, verdict);
      if verdict == OverGas {
        return acc, b', true;
      }
      acc' := ActOn(env, b, acc, knownSenders, entry, verdict);
      stopped := false;
    }

    /** The tests an entry meets, in the order the loop makes them. */
    method Consider(env: Env, ghost b: Build, acc: Accumulators, knownSenders: set<Address>, entry: Entry)
      returns (verdict: Verdict)
      requires reputationManager == mempoolManager.reputationManager
      requires env.policy == reputationManager.CurrentPolicy()
      requires Tracks(b, acc, knownSenders) && !b.stopped
      ensures verdict == Decide(env, b, entry)
    {
      var paymaster, factory := entry.userOp.paymaster, entry.userOp.factory;
      var paymasterStatus := reputationManager.GetStatus(paymaster);
      var deployerStatus := reputationManager.GetStatus(factory);
      if paymasterStatus == BANNED || deployerStatus == BANNED {
        return BannedEntity;
      }
      if paymaster.Some? && (paymasterStatus == THROTTLED ||
        CountOf(acc.entityCount, paymaster.value) > THROTTLED_ENTITY_BUNDLE_COUNT) {
        return PaymasterLimit;
      }
      if factory.Some? && (deployerStatus == THROTTLED ||
        CountOf(acc.entityCount, factory.value) > THROTTLED_ENTITY_BUNDLE_COUNT) {
        return FactoryLimit;
      }
      if entry.userOp.sender in acc.senders {
        return SameSender;
      }
      var validation := env.validate(entry);
      if validation.Invalid? {
        return FailedValidation(validation.accountOrFactoryError);
      }
      if AccessesOther(validation.result.storageMap, entry.userOp.sender, knownSenders) {
        return TouchesKnownSender;
      }
      if acc.totalGas + validation.result.preOpGas + entry.userOp.callGasLimit > env.maxBundleGas {
        return OverGas;
      }
      if ChargesPaymaster(entry.userOp) &&
        DepositOf(env.balanceOf, acc.deposits, paymaster.value) < validation.result.prefund {
        return NoDeposit(paymaster.value);
      }
      return Pick(validation.result);
    }

    /** What follows those tests. */
    method ActOn(env: Env, ghost b: Build, acc: Accumulators, knownSenders: set<Address>, entry: Entry,
        verdict: Verdict)
      returns (acc': Accumulators)
      requires reputationManager == mempoolManager.reputationManager
      requires Tracks(b, acc, knownSenders) && !b.stopped && verdict != OverGas
      modifies mempoolManager`mempool, mempoolManager`entryCount, reputationManager`entries
      ensures Tracks(Act(env, b, entry, verdict), acc', knownSenders) && !Act(env, b, entry, verdict).stopped
    {
      acc' := acc;
      var userOp := entry.userOp;
      match verdict
      case BannedEntity =>
        mempoolManager.RemoveUserOp(userOp);
      case FailedValidation(accountOrFactoryError) =>
        HandleSecondValidationException(accountOrFactoryError, entry);
      case NoDeposit(paymaster) =>
        acc' := Fetched(env, acc, paymaster);
      case Pick(validation) =>
        acc' := Include(env, acc, entry, validation);
      case _ =>
    }

    method Include(env: Env, acc: Accumulators, entry: Entry, validation: Validated) returns (acc': Accumulators)
      ensures acc' == Picked(env, acc, entry, validation)
    {
      var userOp := entry.userOp;
      var paymaster, factory := userOp.paymaster, userOp.factory;
      var paymasterDeposit, stakedEntityCount := acc.deposits, acc.entityCount;
      if paymaster.Some? && IsAddress(paymaster.value) && paymaster.value != ADDRESS_ZERO {
        if paymaster.value !in paymasterDeposit {
          paymasterDeposit := paymasterDeposit[paymaster.value := env.balanceOf(paymaster.value)];
        }
        stakedEntityCount := stakedEntityCount[paymaster.value := CountOf(stakedEntityCount, paymaster.value) + 1];
        paymasterDeposit :=
          paymasterDeposit[paymaster.value := paymasterDeposit[paymaster.value] - validation.prefund];
        assert paymasterDeposit == Charged(env.balanceOf, acc.deposits, userOp, validation.prefund);
      }
      if factory.Some? && IsAddress(factory.value) {
        stakedEntityCount := stakedEntityCount[factory.value := CountOf(stakedEntityCount, factory.value) + 1];
      }
      var storageMap := acc.storageMap;
      if env.useAccountRoots && factory.None? {
        storageMap := storageMap[userOp.sender := RootHash(env.storageRoot(userOp.sender))];
      }
      storageMap := MergeStorageMap(storageMap, validation.storageMap);
      acc' := Accumulators(acc.picked + [entry], acc.senders + {userOp.sender}, paymasterDeposit, stakedEntityCount,
                           storageMap, acc.totalGas + validation.preOpGas + userOp.callGasLimit);
    }

    method HandleSecondValidationException(accountOrFactoryError: bool, entry: Entry)
      requires reputationManager == mempoolManager.reputationManager
      modifies mempoolManager`mempool, mempoolManager`entryCount, reputationManager`entries
      ensures mempoolManager.CurrentState() == RemovedByKey(
        Unblamed(old(mempoolManager.CurrentState()), entry.userOp, accountOrFactoryError),
        entry.userOp.sender, entry.userOp.nonce)
    {
      if entry.userOp.paymaster.Some? && accountOrFactoryError {
        reputationManager.UpdateSeenStatus(entry.userOp.paymaster, -1);
      }
      mempoolManager.RemoveUserOp(entry.userOp);
    }

    /** The branch of sendBundle taken when handleOps reverts with a decoded failure of one operation. */
    method HandleFailedOp(userOp: UserOp, reason: string, accountStaked: bool, factoryStaked: bool)
      requires reputationManager == mempoolManager.reputationManager
      modifies mempoolManager`mempool, mempoolManager`entryCount, reputationManager`entries
      ensures mempoolManager.CurrentState() == AfterFailedOp(old(mempoolManager.CurrentState()), userOp,
                                                             EntityToBlame(reason, userOp, accountStaked, factoryStaked))
    {
      var addr := EntityToBlame(reason, userOp, accountStaked, factoryStaked);
      if addr.Some? {
        mempoolManager.RemoveBannedAddr(addr.value);
        reputationManager.CrashedHandleOps(addr);
      }
      mempoolManager.RemoveUserOp(userOp);
    }
  }

  /** Nothing but the log changes once the loop has stopped. */
  lemma {:induction false} StoppedStays(env: Env, start: Build, entries: seq<Entry>, n: nat)
    requires n <= |entries|
    requires n == |entries| || After(env, start, entries, n).stopped
    ensures After(env, start, entries, |entries|).(log := []) == After(env, start, entries, n).(log := [])
    decreases |entries| - n
  {
    if n == |entries| {
    } else {
      StoppedStays(env, start, entries, n + 1);
    }
  }
}
