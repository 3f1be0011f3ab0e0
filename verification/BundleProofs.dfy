/** What every bundle built from a mempool satisfies, and what building and failing leave behind. */
module BundleProofs {
  import opened Common
  import opened Reputation
  import opened Mempool
  import opened MempoolProofs
  import opened StorageMaps
  import opened Sequences
  import opened Bundle

  function Entries(s: State): seq<Entry> {
    SortedForInclusion(s.pool)
  }

  function ResultOf(env: Env, e: Entry): Validated {
    if env.validate(e).Valid? then env.validate(e).result else Validated(0, 0, map[])
  }

  // ---------- limits ----------

  function GasWeight(env: Env): Entry -> int {
    (e: Entry) => ResultOf(env, e).preOpGas + e.userOp.callGasLimit
  }

  /** The prefund an entry draws from a given paymaster. */
  function PrefundWeight(env: Env, paymaster: Address): Entry -> int {
    (e: Entry) =>
      if e.userOp.paymaster == Some(paymaster) && |paymaster| == 20 && paymaster != ADDRESS_ZERO
      then ResultOf(env, e).prefund else 0
  }

  /** How often an entry raises an address's count. */
  function UseWeight(a: Address): Entry -> int {
    (e: Entry) =>
      (if e.userOp.paymaster == Some(a) && |a| == 20 && a != ADDRESS_ZERO then 1 else 0) +
      if e.userOp.factory == Some(a) && |a| == 20 then 1 else 0
  }

  function NamingWeight(a: Address): Entry -> int {
    (e: Entry) => if e.userOp.paymaster == Some(a) || e.userOp.factory == Some(a) then 1 else 0
  }

  ghost predicate DistinctSenders(es: seq<Entry>) {
    forall i, j :: 0 <= i < j < |es| ==> es[i].userOp.sender != es[j].userOp.sender
  }

  ghost predicate SendersSound(acc: Accumulators) {
    DistinctSenders(acc.picked) && acc.senders == KnownSenders(acc.picked)
  }

  ghost predicate GasSound(env: Env, acc: Accumulators) {
    acc.totalGas == Sum(acc.picked, GasWeight(env)) <= env.maxBundleGas
  }

  ghost predicate DepositsSound(env: Env, acc: Accumulators) {
    forall a :: 0 <= DepositOf(env.balanceOf, acc.deposits, a) ==
                env.balanceOf(a) - Sum(acc.picked, PrefundWeight(env, a))
  }

  ghost predicate CountsSound(acc: Accumulators) {
    && (forall a :: CountOf(acc.entityCount, a) == Sum(acc.picked, UseWeight(a)))
    && (forall a :: IsAddress(a) && a != ADDRESS_ZERO ==>
          Sum(acc.picked, NamingWeight(a)) <= THROTTLED_ENTITY_BUNDLE_COUNT + 1)
  }

  ghost predicate Sound(env: Env, acc: Accumulators) {
    SendersSound(acc) && GasSound(env, acc) && DepositsSound(env, acc) && CountsSound(acc)
  }

  lemma {:induction false} PickKeepsSenders(env: Env, b: Build, e: Entry, v: Validated)
    requires SendersSound(b.acc) && Decide(env, b, e) == Pick(v)
    ensures SendersSound(Picked(env, b.acc, e, v))
  {
  }

  lemma {:induction false} PickKeepsGas(env: Env, b: Build, e: Entry, v: Validated)
    requires GasSound(env, b.acc) && Decide(env, b, e) == Pick(v)
    ensures GasSound(env, Picked(env, b.acc, e, v))
  {
  }

  lemma {:induction false} PickKeepsDeposits(env: Env, b: Build, e: Entry, v: Validated)
    requires DepositsSound(env, b.acc) && Decide(env, b, e) == Pick(v)
    ensures DepositsSound(env, Picked(env, b.acc, e, v))
  {
  }

  lemma {:induction false} CountedEntitiesAdds(c: Counts, e: Entry, a: Address)
    ensures CountOf(CountedEntities(c, e.userOp), a) == CountOf(c, a) + UseWeight(a)(e)
  {
  }

  lemma {:induction false} PickKeepsCounts(env: Env, b: Build, e: Entry, v: Validated)
    requires CountsSound(b.acc) && Decide(env, b, e) == Pick(v)
    ensures CountsSound(Picked(env, b.acc, e, v))
  {
    var acc := b.acc;
    var acc' := Picked(env, acc, e, v);
    forall a ensures CountOf(acc'.entityCount, a) == Sum(acc'.picked, UseWeight(a)) {
      SumAppend(acc.picked, e, UseWeight(a));
      CountedEntitiesAdds(acc.entityCount, e, a);
    }
    forall a | IsAddress(a) && a != ADDRESS_ZERO
      ensures Sum(acc'.picked, NamingWeight(a)) <= THROTTLED_ENTITY_BUNDLE_COUNT + 1
    {
      SumAppend(acc.picked, e, NamingWeight(a));
      if NamesEntity(e.userOp, a) {
        SumLe(acc.picked, NamingWeight(a), UseWeight(a));
        assert CountOf(acc.entityCount, a) <= THROTTLED_ENTITY_BUNDLE_COUNT;
      }
    }
  }

  lemma {:induction false} FetchKeepsSound(env: Env, acc: Accumulators, paymaster: Address)
    requires Sound(env, acc)
    ensures Sound(env, Fetched(env, acc, paymaster))
  {
  }

  lemma {:induction false} PickKeepsSound(env: Env, b: Build, e: Entry, v: Validated)
    requires Sound(env, b.acc) && Decide(env, b, e) == Pick(v)
    ensures Sound(env, Picked(env, b.acc, e, v))
  {
    PickKeepsSenders(env, b, e, v);
    PickKeepsGas(env, b, e, v);
    PickKeepsDeposits(env, b, e, v);
    PickKeepsCounts(env, b, e, v);
  }

  function NextAccumulators(env: Env, acc: Accumulators, e: Entry, verdict: Verdict): Accumulators {
    if verdict.Pick? then Picked(env, acc, e, verdict.result)
    else if verdict.NoDeposit? then Fetched(env, acc, verdict.paymaster)
    else acc
  }

  lemma {:induction false} ActOnAccumulators(env: Env, b: Build, e: Entry, verdict: Verdict)
    ensures Act(env, b, e, verdict).acc == NextAccumulators(env, b.acc, e, verdict)
  {
  }

  lemma {:induction false} ActKeepsSound(env: Env, b: Build, e: Entry, verdict: Verdict)
    requires Sound(env, b.acc) && verdict == Decide(env, b, e)
    ensures Sound(env, NextAccumulators(env, b.acc, e, verdict))
  {
    if verdict.Pick? {
      PickKeepsSound(env, b, e, verdict.result);
    } else if verdict.NoDeposit? {
      FetchKeepsSound(env, b.acc, verdict.paymaster);
    }
  }

  lemma {:induction false} StartSound(env: Env, s: State)
    ensures Sound(env, Start(s).acc)
  {
  }

  // ---------- what each verdict means once building is done ----------

  function IsPick(verdict: Verdict): bool {
    verdict.Pick?
  }

  predicate Removes(verdict: Verdict) {
    verdict == BannedEntity || verdict.FailedValidation?
  }

  ghost predicate EntitiesOk(p: Policy, t: Table, op: UserOp) {
    StatusOf(p, t, op.paymaster) == OK && StatusOf(p, t, op.factory) == OK
  }

  /** Why an entry got its verdict, in terms of the mempool building started from, of the re-validation and
      of the accumulators: facts that, once true, stay true until the loop ends. */
  ghost predicate Explained(env: Env, s: State, e: Entry, verdict: Verdict, b: Build) {
    var op, v := e.userOp, ResultOf(env, e);
    match verdict
    case BannedEntity => StatusOf(env.policy, s.table, op.paymaster) == BANNED || StatusOf(env.policy, s.table, op.factory) == BANNED
    case PaymasterLimit =>
      op.paymaster.Some? &&
      (StatusOf(env.policy, s.table, op.paymaster) != OK ||
       CountOf(b.acc.entityCount, op.paymaster.value) > THROTTLED_ENTITY_BUNDLE_COUNT)
    case FactoryLimit =>
      op.factory.Some? &&
      (StatusOf(env.policy, s.table, op.factory) != OK ||
       CountOf(b.acc.entityCount, op.factory.value) > THROTTLED_ENTITY_BUNDLE_COUNT)
    case SameSender => op.sender in b.acc.senders
    case FailedValidation(blameless) => env.validate(e) == Invalid(blameless)
    case TouchesKnownSender => AccessesOther(v.storageMap, op.sender, KnownSenders(s.pool))
    case OverGas => b.stopped && b.acc.totalGas + v.preOpGas + op.callGasLimit > env.maxBundleGas
    case NoDeposit(paymaster) => op.paymaster == Some(paymaster) && DepositOf(env.balanceOf, b.acc.deposits, paymaster) < v.prefund
    case NotReached => b.stopped
    case Pick(result) =>
      && env.validate(e) == Valid(result)
      && EntitiesOk(env.policy, b.mempool.table, op)
      && !AccessesOther(result.storageMap, op.sender, KnownSenders(s.pool))
  }

  /** The order in which a loop state can only move. */
  ghost predicate Grows(env: Env, b: Build, b': Build) {
    && b.acc.senders <= b'.acc.senders
    && (forall a :: CountOf(b.acc.entityCount, a) <= CountOf(b'.acc.entityCount, a))
    && (forall a :: DepositOf(env.balanceOf, b'.acc.deposits, a) <= DepositOf(env.balanceOf, b.acc.deposits, a))
    && (b.stopped ==> b'.stopped && b'.acc == b.acc)
    && (forall a :: StatusOf(env.policy, b'.mempool.table, a).Severity() <= StatusOf(env.policy, b.mempool.table, a).Severity())
  }

  lemma {:induction false} ExplanationsPersist(env: Env, s: State, e: Entry, verdict: Verdict, b: Build, b': Build)
    requires Grows(env, b, b') && Explained(env, s, e, verdict, b)
    ensures Explained(env, s, e, verdict, b')
  {
  }

  lemma {:induction false} ActGrows(env: Env, b: Build, e: Entry, verdict: Verdict)
    requires verdict == Decide(env, b, e)
    ensures Grows(env, b, Act(env, b, e, verdict))
  {
    match verdict {
      case Pick(v) => PickGrows(env, b, e, v);
      case FailedValidation(blameless) => UnblamedGrows(env, b, e, blameless);
      case _ =>
    }
  }

  lemma {:induction false} PickGrows(env: Env, b: Build, e: Entry, v: Validated)
    requires Decide(env, b, e) == Pick(v)
    ensures Grows(env, b, Act(env, b, e, Pick(v)))
  {
  }

  lemma {:induction false} UnblamedGrows(env: Env, b: Build, e: Entry, blameless: bool)
    ensures Grows(env, b, Act(env, b, e, FailedValidation(blameless)))
  {
    forall a
      ensures StatusOf(env.policy, Seen(b.mempool.table, e.userOp.paymaster, -1), a).Severity() <=
              StatusOf(env.policy, b.mempool.table, a).Severity()
    {
      LoweringSeenNeverHurts(env.policy, b.mempool.table, e.userOp.paymaster, 1, a);
    }
  }

  lemma {:induction false} VerdictExplained(env: Env, s: State, b: Build, e: Entry, verdict: Verdict)
    requires verdict == Decide(env, b, e) && b.knownSenders == KnownSenders(s.pool)
    requires Grows(env, Start(s), b)
    ensures Explained(env, s, e, verdict, b.(stopped := b.stopped || verdict == OverGas))
  {
  }

  // ---------- what building leaves in the mempool ----------

  function KeyOf(e: Entry): (Address, nat) {
    (e.userOp.sender, e.userOp.nonce)
  }

  /** Sender and nonce of the entries whose verdict removes them. */
  function Gone(es: seq<Entry>, log: seq<Verdict>): set<(Address, nat)>
    requires |log| <= |es|
  {
    if log == [] then {}
    else Gone(es, Init(log)) + if Removes(Last(log)) then {KeyOf(es[|log| - 1])} else {}
  }

  function Outside(gone: set<(Address, nat)>): Entry -> bool {
    (e: Entry) => KeyOf(e) !in gone
  }

  function OtherKey(sender: Address, nonce: nat): Entry -> bool {
    (e: Entry) => !(e.userOp.sender == sender && e.userOp.nonce == nonce)
  }

  lemma {:induction false} RemovedByKeyFilters(s: State, sender: Address, nonce: nat)
    requires UniqueKeys(s.pool)
    ensures RemovedByKey(s, sender, nonce).pool == Filter(s.pool, OtherKey(sender, nonce))
    ensures RemovedByKey(s, sender, nonce).table == s.table
  {
    var i := FindBySenderNonce(s.pool, sender, nonce);
    if i == -1 {
      FilterAll(s.pool, OtherKey(sender, nonce));
    } else {
      FilterDropped(s.pool, i, OtherKey(sender, nonce));
      forall x | x in Dropped(s.pool, i) ensures OtherKey(sender, nonce)(x) {
        var m :| 0 <= m < |Dropped(s.pool, i)| && Dropped(s.pool, i)[m] == x;
        assert x == s.pool[if m < i then m else m + 1];
      }
      FilterAll(Dropped(s.pool, i), OtherKey(sender, nonce));
    }
  }

  /** The mempool holds the original entries but for those gone, in order. */
  ghost predicate Kept(pool: Pool, gone: set<(Address, nat)>, s: State) {
    UniqueKeys(s.pool) && s.pool == Filter(pool, Outside(gone))
  }

  lemma {:induction false} RemovalKeeps(pool: Pool, gone: set<(Address, nat)>, s: State, e: Entry)
    requires Kept(pool, gone, s)
    ensures Kept(pool, gone + {KeyOf(e)}, RemovedByKey(s, e.userOp.sender, e.userOp.nonce))
  {
    RemovedByKeyFilters(s, e.userOp.sender, e.userOp.nonce);
    RemovedAtKeys(s, FindBySenderNonce(s.pool, e.userOp.sender, e.userOp.nonce));
    FilterTwice(pool, Outside(gone), OtherKey(e.userOp.sender, e.userOp.nonce), Outside(gone + {KeyOf(e)}));
  }

  lemma {:induction false} ActKeeps(pool: Pool, gone: set<(Address, nat)>, env: Env, b: Build, e: Entry, verdict: Verdict)
    requires Kept(pool, gone, b.mempool)
    ensures Kept(pool, gone + if Removes(verdict) then {KeyOf(e)} else {}, Act(env, b, e, verdict).mempool)
  {
    match verdict
    case BannedEntity => RemovalKeeps(pool, gone, b.mempool, e);
    case FailedValidation(blameless) => RemovalKeeps(pool, gone, Unblamed(b.mempool, e.userOp, blameless), e);
    case _ => assert gone + {} == gone;
  }

  lemma {:induction false} GoneAre(es: seq<Entry>, log: seq<Verdict>, j: nat)
    requires |log| <= |es| && j < |es| && UniqueKeys(es)
    ensures KeyOf(es[j]) in Gone(es, log) <==> j < |log| && Removes(log[j])
  {
    if log == [] {
    } else {
      GoneAre(es, Init(log), j);
      KeysDiffer(es, j, |log| - 1);
    }
  }

  lemma {:induction false} KeysDiffer(es: seq<Entry>, i: nat, j: nat)
    requires UniqueKeys(es) && i < |es| && j < |es|
    ensures KeyOf(es[i]) == KeyOf(es[j]) ==> i == j
  {
  }

  // ---------- the merged storage map ----------

  /** The account roots and validated storage maps of the bundled operations, in merging order. */
  function Parts(env: Env, es: seq<Entry>): seq<StorageMap> {
    if es == [] then []
    else
      var op := Last(es).userOp;
      Parts(env, Init(es)) +
      (if env.useAccountRoots && op.factory.None? then [map[op.sender := RootHash(env.storageRoot(op.sender))]] else []) +
      [ResultOf(env, Last(es)).storageMap]
  }

  lemma {:induction false} MergedAllAppend(ms: seq<StorageMap>, m: StorageMap)
    ensures MergedAll(ms + [m]) == Merged(MergedAll(ms), m)
  {
  }

  lemma {:induction false} RootOverrides(m: StorageMap, a: Address, root: Root)
    ensures m[a := RootHash(root)] == Merged(m, map[a := RootHash(root)])
  {
  }

  ghost predicate MapSound(env: Env, acc: Accumulators) {
    acc.storageMap == MergedAll(Parts(env, acc.picked))
  }

  lemma {:induction false} PickMerges(env: Env, acc: Accumulators, e: Entry, v: Validated)
    requires MapSound(env, acc) && v == ResultOf(env, e)
    ensures MapSound(env, Picked(env, acc, e, v))
  {
    var op := e.userOp;
    var parts := Parts(env, acc.picked);
    assert Init(acc.picked + [e]) == acc.picked;
    if env.useAccountRoots && op.factory.None? {
      var root: StorageMap := map[op.sender := RootHash(env.storageRoot(op.sender))];
      MergedAllAppend(parts, root);
      RootOverrides(acc.storageMap, op.sender, env.storageRoot(op.sender));
      MergedAllAppend(parts + [root], v.storageMap);
    } else {
      assert parts + [] == parts;
      MergedAllAppend(parts, v.storageMap);
    }
  }

  lemma {:induction false} ActMerges(env: Env, b: Build, e: Entry, verdict: Verdict)
    requires MapSound(env, b.acc) && (verdict.Pick? ==> verdict.result == ResultOf(env, e))
    ensures MapSound(env, Act(env, b, e, verdict).acc)
  {
    if verdict.Pick? {
      PickMerges(env, b.acc, e, verdict.result);
    }
  }

  // ---------- the invariant of the loop ----------

  ghost predicate LogExplained(env: Env, s: State, b: Build) {
    |b.log| <= |Entries(s)| && forall j :: 0 <= j < |b.log| ==> Explained(env, s, Entries(s)[j], b.log[j], b)
  }

  ghost predicate Invariant(env: Env, s: State, b: Build) {
    && LogExplained(env, s, b)
    && b.knownSenders == KnownSenders(s.pool)
    && Grows(env, Start(s), b)
    && Sound(env, b.acc)
    && MapSound(env, b.acc)
    && b.acc.picked == Selected(Entries(s), b.log, IsPick)
  }

  lemma {:induction false} GrowsTransitive(env: Env, b: Build, b': Build, b'': Build)
    requires Grows(env, b, b') && Grows(env, b', b'')
    ensures Grows(env, b, b'')
  {
  }

  lemma {:induction false} LogStep(env: Env, s: State, b: Build, e: Entry, verdict: Verdict)
    requires LogExplained(env, s, b) && |b.log| < |Entries(s)| && e == Entries(s)[|b.log|]
    requires b.knownSenders == KnownSenders(s.pool) && Grows(env, Start(s), b) && verdict == Decide(env, b, e)
    ensures LogExplained(env, s, Act(env, b, e, verdict))
    ensures Act(env, b, e, verdict).knownSenders == b.knownSenders && Act(env, b, e, verdict).log == b.log + [verdict]
  {
    var b' := Act(env, b, e, verdict);
    ActGrows(env, b, e, verdict);
    forall j | 0 <= j < |b'.log| ensures Explained(env, s, Entries(s)[j], b'.log[j], b') {
      if j < |b.log| {
        ExplanationsPersist(env, s, Entries(s)[j], b.log[j], b, b');
      } else {
        VerdictExplained(env, s, b, e, verdict);
        ExplainedAfterActing(env, s, b, e, verdict);
      }
    }
  }

  lemma {:induction false} ExplainedAfterActing(env: Env, s: State, b: Build, e: Entry, verdict: Verdict)
    requires verdict == Decide(env, b, e)
    requires Explained(env, s, e, verdict, b.(stopped := b.stopped || verdict == OverGas))
    ensures Explained(env, s, e, verdict, Act(env, b, e, verdict))
  {
  }

  lemma {:induction false} SelectionStep(env: Env, es: seq<Entry>, b: Build, e: Entry, verdict: Verdict)
    requires |b.log| < |es| && e == es[|b.log|] && b.acc.picked == Selected(es, b.log, IsPick)
    ensures Act(env, b, e, verdict).acc.picked == Selected(es, b.log + [verdict], IsPick)
  {
  }

  lemma {:induction false} InvariantStep(env: Env, s: State, b: Build, e: Entry, verdict: Verdict)
    requires Invariant(env, s, b) && |b.log| < |Entries(s)| && e == Entries(s)[|b.log|]
    requires verdict == Decide(env, b, e)
    ensures Invariant(env, s, Act(env, b, e, verdict))
    ensures |Act(env, b, e, verdict).log| == |b.log| + 1
  {
    LogStep(env, s, b, e, verdict);
    ActGrows(env, b, e, verdict);
    GrowsTransitive(env, Start(s), b, Act(env, b, e, verdict));
    ActKeepsSound(env, b, e, verdict);
    ActOnAccumulators(env, b, e, verdict);
    VerdictCarriesResult(env, b, e, verdict);
    ActMerges(env, b, e, verdict);
    SelectionStep(env, Entries(s), b, e, verdict);
  }

  lemma {:induction false} VerdictCarriesResult(env: Env, b: Build, e: Entry, verdict: Verdict)
    requires verdict == Decide(env, b, e)
    ensures verdict.Pick? ==> verdict.result == ResultOf(env, e)
  {
  }

  lemma {:induction false} InvariantAtStart(env: Env, s: State)
    ensures Invariant(env, s, Start(s))
  {
  }

  lemma {:induction false} InvariantAfter(env: Env, s: State, n: nat)
    requires n <= |Entries(s)|
    ensures Invariant(env, s, After(env, Start(s), Entries(s), n))
    ensures |After(env, Start(s), Entries(s), n).log| == n
  {
    if n == 0 {
      InvariantAtStart(env, s);
    } else {
      InvariantAfter(env, s, n - 1);
      var b := After(env, Start(s), Entries(s), n - 1);
      InvariantStep(env, s, b, Entries(s)[n - 1], Decide(env, b, Entries(s)[n - 1]));
    }
  }

  ghost predicate MempoolKept(s: State, b: Build) {
    |b.log| <= |Entries(s)| && Kept(s.pool, Gone(Entries(s), b.log), b.mempool)
  }

  lemma {:induction false} MempoolKeptAtStart(env: Env, s: State)
    requires UniqueKeys(s.pool)
    ensures MempoolKept(s, Start(s))
  {
    FilterAll(s.pool, Outside({}));
  }

  lemma {:induction false} MempoolKeptStep(env: Env, s: State, b: Build, e: Entry)
    requires MempoolKept(s, b) && |b.log| < |Entries(s)| && e == Entries(s)[|b.log|]
    ensures MempoolKept(s, Next(env, b, e)) && |Next(env, b, e).log| == |b.log| + 1
  {
    var verdict := Decide(env, b, e);
    ActKeeps(s.pool, Gone(Entries(s), b.log), env, b, e, verdict);
    assert Act(env, b, e, verdict).log == b.log + [verdict];
    assert Init(b.log + [verdict]) == b.log;
  }

  lemma {:induction false} MempoolKeptAfter(env: Env, s: State, n: nat)
    requires n <= |Entries(s)| && UniqueKeys(s.pool)
    ensures MempoolKept(s, After(env, Start(s), Entries(s), n)) && |After(env, Start(s), Entries(s), n).log| == n
  {
    if n == 0 {
      MempoolKeptAtStart(env, s);
    } else {
      MempoolKeptAfter(env, s, n - 1);
      MempoolKeptStep(env, s, After(env, Start(s), Entries(s), n - 1), Entries(s)[n - 1]);
    }
  }

  lemma {:induction false} HealthyStep(env: Env, b: Build, e: Entry, limited: set<Address>)
    requires Healthy(b.mempool, limited)
    ensures Healthy(Next(env, b, e).mempool, limited)
  {
    RemovedAtHealthy(b.mempool, FindBySenderNonce(b.mempool.pool, e.userOp.sender, e.userOp.nonce), limited);
  }

  lemma {:induction false} HealthyAfter(env: Env, s: State, limited: set<Address>, n: nat)
    requires n <= |Entries(s)| && Healthy(s, limited)
    ensures Healthy(After(env, Start(s), Entries(s), n).mempool, limited)
  {
    if n == 0 {
    } else {
      HealthyAfter(env, s, limited, n - 1);
      HealthyStep(env, After(env, Start(s), Entries(s), n - 1), Entries(s)[n - 1], limited);
    }
  }

  // ---------- theorems about every bundle ----------

  lemma {:induction false} OpsOf(es: seq<Entry>)
    ensures |Ops(es)| == |es| && forall i :: 0 <= i < |es| ==> Ops(es)[i] == es[i].userOp
  {
    if es == [] {
    } else {
      OpsOf(Init(es));
    }
  }

  /** Every bundle has one operation per sender, stays within the gas limit, draws no more than its
      deposit from any paymaster, and names no well-formed non-zero address more than five times. */
  lemma {:induction false} BundleWithinLimits(env: Env, s: State)
    ensures DistinctSenders(Built(env, s).acc.picked)
    ensures Sum(Built(env, s).acc.picked, GasWeight(env)) <= env.maxBundleGas
    ensures forall a :: Sum(Built(env, s).acc.picked, PrefundWeight(env, a)) <= env.balanceOf(a)
    ensures forall a :: IsAddress(a) && a != ADDRESS_ZERO ==> Sum(Built(env, s).acc.picked, NamingWeight(a)) <= 5
  {
    InvariantAfter(env, s, |Entries(s)|);
    var acc := Built(env, s).acc;
    forall a ensures Sum(acc.picked, PrefundWeight(env, a)) <= env.balanceOf(a) {
      assert 0 <= DepositOf(env.balanceOf, acc.deposits, a);
    }
  }

  /** The positions of the bundled entries in the sorted mempool. */
  function Chosen(env: Env, s: State): seq<nat> {
    Positions(Built(env, s).log, IsPick)
  }

  /** The bundle lists the picked entries of the fee-ascending stable sort of the mempool, in that order. */
  lemma {:induction false} BundleIsASubsequence(env: Env, s: State)
    ensures |Built(env, s).log| == |Entries(s)|
    ensures
      var b, chosen := Built(env, s), Chosen(env, s);
      && |Ops(b.acc.picked)| == |b.acc.picked| == |chosen|
      && (forall i, j :: 0 <= i < j < |chosen| ==> chosen[i] < chosen[j])
      && (forall i :: 0 <= i < |chosen| ==>
            chosen[i] < |Entries(s)| && b.acc.picked[i] == Entries(s)[chosen[i]] &&
            Ops(b.acc.picked)[i] == Entries(s)[chosen[i]].userOp && b.log[chosen[i]].Pick?)
      && (forall j :: 0 <= j < |Entries(s)| && b.log[j].Pick? ==> j in chosen)
  {
    InvariantAfter(env, s, |Entries(s)|);
    var b := Built(env, s);
    PositionsInOrder(b.log, IsPick);
    SelectedAtPositions(Entries(s), b.log, IsPick);
    OpsOf(b.acc.picked);
  }

  /** Every entry's verdict is still justified when building is done: an entry skipped for its sender, for an
      entity's count or for its paymaster's deposit would be skipped again, an entry that stopped the loop
      would push the finished bundle over the gas limit, and a bundled entry re-validated. */
  lemma {:induction false} EveryVerdictIsJustified(env: Env, s: State, j: nat)
    requires j < |Entries(s)|
    ensures |Built(env, s).log| == |Entries(s)|
    ensures
      var e, picked := Entries(s)[j], Built(env, s).acc.picked;
      var op := e.userOp;
      match Built(env, s).log[j]
      case BannedEntity =>
        StatusOf(env.policy, s.table, op.paymaster) == BANNED || StatusOf(env.policy, s.table, op.factory) == BANNED
      case PaymasterLimit =>
        op.paymaster.Some? && (StatusOf(env.policy, s.table, op.paymaster) != OK || Sum(picked, UseWeight(op.paymaster.value)) > 4)
      case FactoryLimit =>
        op.factory.Some? && (StatusOf(env.policy, s.table, op.factory) != OK || Sum(picked, UseWeight(op.factory.value)) > 4)
      case SameSender => op.sender in KnownSenders(picked)
      case FailedValidation(blameless) => env.validate(e) == Invalid(blameless)
      case TouchesKnownSender => AccessesOther(ResultOf(env, e).storageMap, op.sender, KnownSenders(s.pool))
      case OverGas => Sum(picked, GasWeight(env)) + GasWeight(env)(e) > env.maxBundleGas
      case NoDeposit(paymaster) =>
        op.paymaster == Some(paymaster) &&
        Sum(picked, PrefundWeight(env, paymaster)) + ResultOf(env, e).prefund > env.balanceOf(paymaster)
      case NotReached => Built(env, s).stopped
      case Pick(v) => env.validate(e) == Valid(v) && e in picked
  {
    InvariantAfter(env, s, |Entries(s)|);
    var b, e := Built(env, s), Entries(s)[j];
    assert Explained(env, s, e, b.log[j], b);
    match b.log[j] {
      case NoDeposit(paymaster) => assert 0 <= DepositOf(env.balanceOf, b.acc.deposits, paymaster);
      case Pick(_) => BundleIsASubsequence(env, s);
      case _ =>
    }
  }

  ghost predicate StopSound(b: Build) {
    && (b.stopped <==> OverGas in b.log)
    && forall j :: 0 <= j < |b.log| ==> (b.log[j] == NotReached <==> OverGas in b.log[..j])
  }

  lemma {:induction false} StopStep(env: Env, b: Build, e: Entry, verdict: Verdict)
    requires StopSound(b) && verdict == Decide(env, b, e)
    ensures StopSound(Act(env, b, e, verdict))
  {
  }

  /** Entries are not met exactly when one before them stopped the loop. */
  lemma {:induction false} NotReachedExactlyAfterStop(env: Env, s: State, n: nat)
    requires n <= |Entries(s)|
    ensures StopSound(After(env, Start(s), Entries(s), n))
  {
    if n == 0 {
    } else {
      NotReachedExactlyAfterStop(env, s, n - 1);
      var b := After(env, Start(s), Entries(s), n - 1);
      StopStep(env, b, Entries(s)[n - 1], Decide(env, b, Entries(s)[n - 1]));
    }
  }

  /** Building removes exactly the entries it met with a banned paymaster or factory or that failed
      re-validation, keeps the rest in order, and keeps every bundled operation. */
  lemma {:induction false} MempoolAfterBuilding(env: Env, s: State)
    requires UniqueKeys(s.pool)
    ensures UniqueKeys(Built(env, s).mempool.pool)
    ensures |Built(env, s).log| == |Entries(s)|
    ensures Built(env, s).mempool.pool == Filter(s.pool, Outside(Gone(Entries(s), Built(env, s).log)))
    ensures forall j :: 0 <= j < |Entries(s)| ==>
      (Entries(s)[j] in Built(env, s).mempool.pool <==> !Removes(Built(env, s).log[j]))
    ensures forall i :: 0 <= i < |Built(env, s).acc.picked| ==>
      Built(env, s).acc.picked[i] in Built(env, s).mempool.pool
  {
    InvariantAfter(env, s, |Entries(s)|);
    MempoolKeptAfter(env, s, |Entries(s)|);
    var b := Built(env, s);
    SortedHasTheSameEntries(s.pool);
    FilterMembers(s.pool, Outside(Gone(Entries(s), b.log)));
    forall j | 0 <= j < |Entries(s)| ensures Entries(s)[j] in b.mempool.pool <==> !Removes(b.log[j]) {
      GoneAre(Entries(s), b.log, j);
      assert Entries(s)[j] in s.pool;
    }
    BundleIsASubsequence(env, s);
  }

  /** If the index was right and roles were apart before building, they are after it. */
  lemma {:induction false} BuildingKeepsHealthy(env: Env, s: State, limited: set<Address>)
    requires Healthy(s, limited)
    ensures Healthy(Built(env, s).mempool, limited)
  {
    HealthyAfter(env, s, limited, |Entries(s)|);
  }

  /** When building is done, the paymaster and factory of every bundled operation have status OK; so a
      throttled entity is never in a bundle at all. */
  lemma {:induction false} BundledEntitiesAreOk(env: Env, s: State, i: nat)
    requires i < |Built(env, s).acc.picked|
    ensures EntitiesOk(env.policy, Built(env, s).mempool.table, Built(env, s).acc.picked[i].userOp)
  {
    InvariantAfter(env, s, |Entries(s)|);
    BundleIsASubsequence(env, s);
    var b, j := Built(env, s), Chosen(env, s)[i];
    assert Explained(env, s, Entries(s)[j], b.log[j], b);
  }

  /** No bundled operation's validated storage contains another bundled operation's sender, nor any other
      sender that was in the mempool when building started. */
  lemma {:induction false} BundledOpsAreIsolated(env: Env, s: State, i: nat)
    requires i < |Built(env, s).acc.picked|
    ensures
      var picked := Built(env, s).acc.picked;
      var accessed := ResultOf(env, picked[i]).storageMap;
      && (forall a :: a in accessed && a in KnownSenders(s.pool) ==> a == picked[i].userOp.sender)
      && (forall k :: 0 <= k < |picked| && k != i ==> picked[k].userOp.sender !in accessed)
  {
    InvariantAfter(env, s, |Entries(s)|);
    BundleIsASubsequence(env, s);
    SortedHasTheSameEntries(s.pool);
    var b, j := Built(env, s), Chosen(env, s)[i];
    assert Explained(env, s, Entries(s)[j], b.log[j], b);
    forall k | 0 <= k < |b.acc.picked| ensures b.acc.picked[k].userOp.sender in KnownSenders(s.pool) {
      assert Entries(s)[Chosen(env, s)[k]] in s.pool;
    }
  }

  /** If the preconditions of all bundled operations hold in one common world, then any world meets the
      storage map sent with the bundle exactly when it meets each of them. */
  lemma {:induction false} BundleStorageMapKeepsMeaning(env: Env, s: State, rootOf: SlotMap -> Root, w0: World,
      w: World)
    requires CollisionFree(rootOf) && SatisfiesAll(w0, rootOf, Parts(env, Built(env, s).acc.picked))
    ensures Satisfies(w, rootOf, Built(env, s).acc.storageMap) <==>
      SatisfiesAll(w, rootOf, Parts(env, Built(env, s).acc.picked))
  {
    InvariantAfter(env, s, |Entries(s)|);
    MergedAllKeepsMeaning(w, w0, rootOf, Parts(env, Built(env, s).acc.picked));
  }

  // ---------- the entity limit is five ----------

  ghost predicate CheapOpOf(env: Env, e: Entry, paymaster: Address) {
    && e.userOp.paymaster == Some(paymaster) && e.userOp.factory.None? && e.userOp.callGasLimit == 0
    && env.validate(e) == Valid(Validated(0, 0, map[]))
  }

  ghost predicate AllCheap(env: Env, es: seq<Entry>, paymaster: Address) {
    forall e :: e in es ==> CheapOpOf(env, e, paymaster)
  }

  lemma {:induction false} UsesAtMostLength(env: Env, es: seq<Entry>, a: Address)
    requires AllCheap(env, es, a)
    ensures Sum(es, UseWeight(a)) <= |es|
  {
    if es == [] {
    } else {
      assert Last(es) in es;
      UsesAtMostLength(env, Init(es), a);
    }
  }

  ghost predicate AllPicked(env: Env, s: State, es: seq<Entry>, b: Build) {
    Sound(env, b.acc) && b.acc.picked == es && !b.stopped && b.mempool == s
  }

  lemma {:induction false} CheapIsPicked(env: Env, s: State, es: seq<Entry>, b: Build, e: Entry, paymaster: Address)
    requires s.table == map[] && paymaster !in env.policy.blackList
    requires AllPicked(env, s, es, b) && |es| <= 4 && DistinctSenders(es + [e]) && AllCheap(env, es + [e], paymaster)
    ensures Decide(env, b, e) == Pick(Validated(0, 0, map[]))
    ensures AllPicked(env, s, es + [e], Act(env, b, e, Pick(Validated(0, 0, map[]))))
  {
    assert (es + [e])[|es|] == e && e in es + [e];
    assert AllCheap(env, es, paymaster) by {
      forall x | x in es ensures CheapOpOf(env, x, paymaster) {
        assert x in es + [e];
      }
    }
    UsesAtMostLength(env, es, paymaster);
    assert CountOf(b.acc.entityCount, paymaster) <= 4;
    assert 0 <= DepositOf(env.balanceOf, b.acc.deposits, paymaster);
    assert e.userOp.sender !in b.acc.senders by {
      forall i | 0 <= i < |es| ensures es[i].userOp.sender != e.userOp.sender {
        assert (es + [e])[i] == es[i];
      }
    }
    PickKeepsSound(env, b, e, Validated(0, 0, map[]));
  }

  lemma {:induction false} CheapStep(env: Env, s: State, es: seq<Entry>, b: Build, e: Entry, paymaster: Address)
    requires s.table == map[] && paymaster !in env.policy.blackList
    requires AllPicked(env, s, es, b) && |es| <= 4 && DistinctSenders(es + [e]) && AllCheap(env, es + [e], paymaster)
    ensures AllPicked(env, s, es + [e], Next(env, b, e))
  {
    CheapIsPicked(env, s, es, b, e, paymaster);
  }

  /** The limit constant is four, yet up to five operations of different senders may share a paymaster. */
  lemma {:induction false} FiveShareAPaymaster(env: Env, s: State, paymaster: Address, n: nat)
    requires n <= |Entries(s)| <= 5 && DistinctSenders(Entries(s)) && AllCheap(env, Entries(s), paymaster)
    requires s.table == map[] && paymaster !in env.policy.blackList
    ensures AllPicked(env, s, Entries(s)[..n], After(env, Start(s), Entries(s), n))
  {
    if n > 0 {
      FiveShareAPaymaster(env, s, paymaster, n - 1);
      assert Entries(s)[..n] == Entries(s)[..n - 1] + [Entries(s)[n - 1]];
      CheapStep(env, s, Entries(s)[..n - 1], After(env, Start(s), Entries(s), n - 1), Entries(s)[n - 1], paymaster);
    } else {
      StartSound(env, s);
    }
  }

  // ---------- a failed bundle ----------

  predicate Survives(op: UserOp, addr: Address, e: Entry) {
    && e.userOp.sender != addr && e.userOp.paymaster != Some(addr) && e.userOp.factory != Some(addr)
    && !(e.userOp.sender == op.sender && e.userOp.nonce == op.nonce)
  }

  /** After an address is blamed, no entry names it and the failed operation is gone; and if no entry naming it
      shared its hash with an innocent one before it, the mempool holds exactly the other entries, in order. */
  lemma {:induction false} FailedOpBlamesOne(s: State, op: UserOp, addr: Address)
    requires UniqueKeys(s.pool)
    ensures forall e :: e in AfterFailedOp(s, op, Some(addr)).pool ==> e in s.pool && Survives(op, addr, e)
    ensures !Shadowed(s.pool, addr) ==>
      AfterFailedOp(s, op, Some(addr)).pool == Filter(s.pool, (e: Entry) => Survives(op, addr, e))
  {
    var banned := RemovedBanned(s, addr);
    BanRemovesExactlyWhen(s, addr);
    BanScanKeys(s, addr, |s.pool|);
    RemovedByKeyFilters(banned.(table := Crashed(banned.table, Some(addr))), op.sender, op.nonce);
    FilterMembers(banned.pool, OtherKey(op.sender, op.nonce));
    FilterTwice(s.pool, (e: Entry) => !NamesRole(e.userOp, addr), OtherKey(op.sender, op.nonce),
                (e: Entry) => Survives(op, addr, e));
  }

  /** The blamed address is then banned exactly when it is not whitelisted and is blacklisted or had opsSeen of
      at least -9490; no other address's record changes. */
  lemma {:induction false} BlamedIsBannedExactlyWhen(p: Policy, s: State, op: UserOp, addr: Address)
    requires p.params == BUNDLER_PARAMS
    ensures forall a :: a != addr ==>
      RecordOf(AfterFailedOp(s, op, Some(addr)).table, a) == RecordOf(s.table, a)
    ensures StatusOf(p, AfterFailedOp(s, op, Some(addr)).table, Some(addr)) == BANNED <==>
      addr !in p.whitelist && (addr in p.blackList || RecordOf(s.table, addr).opsSeen >= -9490)
  {
    BanKeepsTable(s, addr, |s.pool|);
    if addr !in p.blackList && addr !in p.whitelist {
      CrashBansExactlyWhen(p, s.table, addr);
    }
  }

  /** If the index was right and roles were apart, they are after the failure. */
  lemma {:induction false} FailedOpKeepsHealthy(s: State, op: UserOp, blamed: Option<Address>, limited: set<Address>)
    requires Healthy(s, limited)
    ensures Healthy(AfterFailedOp(s, op, blamed), limited)
  {
    var s' := s;
    if blamed.Some? {
      BanScanHealthy(s, blamed.value, |s.pool|, limited);
      s' := RemovedBanned(s, blamed.value);
      s' := s'.(table := Crashed(s'.table, blamed));
    }
    RemovedAtHealthy(s', FindBySenderNonce(s'.pool, op.sender, op.nonce), limited);
  }

  lemma {:induction false} BanKeepsTable(s: State, addr: Address, i: nat)
    requires i <= |s.pool|
    ensures BanScan(s, addr, i).table == s.table
    decreases i
  {
    if i == 0 {
    } else {
      if NamesRole(s.pool[i - 1].userOp, addr) {
        BanKeepsTable(RemovedByHash(s, s.pool[i - 1].userOpHash), addr, i - 1);
      } else {
        BanKeepsTable(s, addr, i - 1);
      }
    }
  }

  /** With nobody to blame, only the failed operation goes. */
  lemma {:induction false} FailedOpBlamesNobody(s: State, op: UserOp)
    requires UniqueKeys(s.pool)
    ensures AfterFailedOp(s, op, None).pool == Filter(s.pool, OtherKey(op.sender, op.nonce))
    ensures AfterFailedOp(s, op, None).table == s.table
  {
    RemovedByKeyFilters(s, op.sender, op.nonce);
  }
}
