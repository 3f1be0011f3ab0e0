/** The rules a bundle is built by, stated on the entries picked so far rather than on the loop's variables. */
module BundleRules {
  import opened Common
  import opened Reputation
  import opened Mempool
  import opened MempoolProofs
  import opened StorageMaps
  import opened Sequences
  import opened Bundle
  import opened BundleProofs

  // ---------- reputation while building ----------

  /** How often verdicts so far took back a sighting of an address: once for each entry naming it as paymaster that
      failed through its account or factory. */
  function TakenBack(es: seq<Entry>, log: seq<Verdict>, a: Address): nat
    requires |log| <= |es|
  {
    if log == [] then 0
    else
      TakenBack(es, Init(log), a) +
      if Last(log) == FailedValidation(true) && es[|log| - 1].userOp.paymaster == Some(a) then 1 else 0
  }

  /** The shortfall of inclusions once so many sightings are taken back. */
  function ShortfallLess(p: Policy, t: Table, a: Address, back: int): int {
    (RecordOf(t, a).opsSeen - back) / p.params.minInclusionDenominator - RecordOf(t, a).opsIncluded
  }

  predicate IsBannedLess(p: Policy, t: Table, a: Address, back: int) {
    a !in p.whitelist &&
    (a in p.blackList ||
     (ShortfallLess(p, t, a, back) > p.params.banSlack && ShortfallLess(p, t, a, back) > p.params.throttlingSlack))
  }

  predicate IsThrottledLess(p: Policy, t: Table, a: Address, back: int) {
    && a !in p.whitelist && a !in p.blackList
    && p.params.throttlingSlack < ShortfallLess(p, t, a, back) <= p.params.banSlack
  }

  // ---------- the rules ----------

  /** Paymaster or factory is banned by now. */
  predicate NamesBanned(env: Env, s: State, es: seq<Entry>, log: seq<Verdict>, op: UserOp)
    requires |log| <= |es|
  {
    || (op.paymaster.Some? && IsBannedLess(env.policy, s.table, op.paymaster.value, TakenBack(es, log, op.paymaster.value)))
    || (op.factory.Some? && IsBannedLess(env.policy, s.table, op.factory.value, TakenBack(es, log, op.factory.value)))
  }

  /** The entity is throttled by now, or the entries picked so far already name it five times. */
  predicate IsLimited(env: Env, s: State, es: seq<Entry>, log: seq<Verdict>, a: Address)
    requires |log| <= |es|
  {
    || IsThrottledLess(env.policy, s.table, a, TakenBack(es, log, a))
    || Sum(Selected(es, log, IsPick), UseWeight(a)) > 4
  }

  /** Neither entity is limited, and the sender has no entry picked yet. */
  predicate IsNext(env: Env, s: State, es: seq<Entry>, log: seq<Verdict>, op: UserOp)
    requires |log| <= |es|
  {
    && (op.paymaster.Some? ==> !IsLimited(env, s, es, log, op.paymaster.value))
    && (op.factory.Some? ==> !IsLimited(env, s, es, log, op.factory.value))
    && op.sender !in KnownSenders(Selected(es, log, IsPick))
  }

  /** The storage map has the address of another sender of the mempool. */
  ghost predicate TouchesSender(pool: Pool, op: UserOp, m: StorageMap) {
    exists e :: e in pool && e.userOp.sender != op.sender && e.userOp.sender in m
  }

  /** The verdict the rules give on an entry after those in the log. */
  ghost function RuleVerdict(env: Env, s: State, es: seq<Entry>, log: seq<Verdict>, e: Entry): Verdict
    requires |log| <= |es|
  {
    var op, picked, v := e.userOp, Selected(es, log, IsPick), env.validate(e);
    if OverGas in log then NotReached
    else if NamesBanned(env, s, es, log, op) then BannedEntity
    else if op.paymaster.Some? && IsLimited(env, s, es, log, op.paymaster.value) then PaymasterLimit
    else if op.factory.Some? && IsLimited(env, s, es, log, op.factory.value) then FactoryLimit
    else if op.sender in KnownSenders(picked) then SameSender
    else if v.Invalid? then FailedValidation(v.accountOrFactoryError)
    else if TouchesSender(s.pool, op, v.result.storageMap) then TouchesKnownSender
    else if Sum(picked, GasWeight(env)) + v.result.preOpGas + op.callGasLimit > env.maxBundleGas then OverGas
    else if op.paymaster.Some? && |op.paymaster.value| == 20 && op.paymaster.value != ADDRESS_ZERO &&
      Sum(picked, PrefundWeight(env, op.paymaster.value)) + v.result.prefund > env.balanceOf(op.paymaster.value)
    then NoDeposit(op.paymaster.value)
    else Pick(v.result)
  }

  // ---------- the loop follows the rules ----------

  /** Building changes no record but by taking sightings back. */
  ghost predicate TableTracks(s: State, b: Build) {
    |b.log| <= |Entries(s)| &&
    forall a :: RecordOf(b.mempool.table, a) ==
      Record(RecordOf(s.table, a).opsSeen - TakenBack(Entries(s), b.log, a), RecordOf(s.table, a).opsIncluded)
  }

  lemma {:induction false} ActTable(env: Env, b: Build, e: Entry, verdict: Verdict, a: Address)
    ensures RecordOf(Act(env, b, e, verdict).mempool.table, a) ==
      Record(RecordOf(b.mempool.table, a).opsSeen -
               (if verdict == FailedValidation(true) && e.userOp.paymaster == Some(a) then 1 else 0),
             RecordOf(b.mempool.table, a).opsIncluded)
    ensures Act(env, b, e, verdict).log == b.log + [verdict]
  {
  }

  lemma {:induction false} TableStep(env: Env, s: State, b: Build, e: Entry, verdict: Verdict)
    requires TableTracks(s, b) && |b.log| < |Entries(s)| && e == Entries(s)[|b.log|]
    ensures TableTracks(s, Act(env, b, e, verdict))
  {
    forall a
      ensures RecordOf(Act(env, b, e, verdict).mempool.table, a) ==
        Record(RecordOf(s.table, a).opsSeen - TakenBack(Entries(s), b.log + [verdict], a), RecordOf(s.table, a).opsIncluded)
    {
      ActTable(env, b, e, verdict, a);
      assert Init(b.log + [verdict]) == b.log;
    }
    ActTable(env, b, e, verdict, ADDRESS_ZERO);
  }

  lemma {:induction false} StatusNow(p: Policy, s: State, b: Build, a: Address)
    requires TableTracks(s, b)
    ensures StatusOf(p, b.mempool.table, Some(a)) == BANNED <==>
      IsBannedLess(p, s.table, a, TakenBack(Entries(s), b.log, a))
    ensures StatusOf(p, b.mempool.table, Some(a)) == THROTTLED <==>
      IsThrottledLess(p, s.table, a, TakenBack(Entries(s), b.log, a))
  {
    StatusExactly(p, b.mempool.table, a);
  }

  ghost predicate Ruled(env: Env, s: State, b: Build) {
    && |b.log| <= |Entries(s)|
    && forall j :: 0 <= j < |b.log| ==> b.log[j] == RuleVerdict(env, s, Entries(s), b.log[..j], Entries(s)[j])
  }

  lemma {:induction false} TouchesAgree(pool: Pool, op: UserOp, m: StorageMap)
    ensures TouchesSender(pool, op, m) <==> AccessesOther(m, op.sender, KnownSenders(pool))
  {
    if TouchesSender(pool, op, m) {
      var e :| e in pool && e.userOp.sender != op.sender && e.userOp.sender in m;
      assert e.userOp.sender in KnownSenders(pool);
    }
  }

  /** What the loop knows of an entity is what the picked entries and the verdicts say of it. */
  ghost predicate Known(env: Env, s: State, b: Build, a: Address)
    requires |b.log| <= |Entries(s)|
  {
    var status, back := StatusOf(env.policy, b.mempool.table, Some(a)), TakenBack(Entries(s), b.log, a);
    && (status == BANNED <==> IsBannedLess(env.policy, s.table, a, back))
    && (status == THROTTLED <==> IsThrottledLess(env.policy, s.table, a, back))
    && CountOf(b.acc.entityCount, a) == Sum(b.acc.picked, UseWeight(a))
    && DepositOf(env.balanceOf, b.acc.deposits, a) == env.balanceOf(a) - Sum(b.acc.picked, PrefundWeight(env, a))
  }

  lemma {:induction false} KnownNow(env: Env, s: State, b: Build, a: Address)
    requires Invariant(env, s, b) && TableTracks(s, b)
    ensures Known(env, s, b, a)
  {
    StatusNow(env.policy, s, b, a);
    assert 0 <= DepositOf(env.balanceOf, b.acc.deposits, a);
  }

  lemma {:induction false} DecidesWhatIsKnown(env: Env, s: State, b: Build, e: Entry)
    requires |b.log| <= |Entries(s)| && b.acc.picked == Selected(Entries(s), b.log, IsPick)
    requires b.acc.senders == KnownSenders(b.acc.picked) && b.acc.totalGas == Sum(b.acc.picked, GasWeight(env))
    requires b.stopped <==> OverGas in b.log
    requires e.userOp.paymaster.Some? ==> Known(env, s, b, e.userOp.paymaster.value)
    requires e.userOp.factory.Some? ==> Known(env, s, b, e.userOp.factory.value)
    requires env.validate(e).Valid? ==>
      (TouchesSender(s.pool, e.userOp, env.validate(e).result.storageMap) <==>
       AccessesOther(env.validate(e).result.storageMap, e.userOp.sender, b.knownSenders))
    ensures Decide(env, b, e) == RuleVerdict(env, s, Entries(s), b.log, e)
  {
  }

  /** The loop's own tests, made on its variables, give the verdict of the rules. */
  lemma {:induction false} DecidesByRule(env: Env, s: State, b: Build, e: Entry)
    requires Invariant(env, s, b) && TableTracks(s, b) && StopSound(b)
    ensures Decide(env, b, e) == RuleVerdict(env, s, Entries(s), b.log, e)
  {
    var op := e.userOp;
    if op.paymaster.Some? {
      KnownNow(env, s, b, op.paymaster.value);
    }
    if op.factory.Some? {
      KnownNow(env, s, b, op.factory.value);
    }
    if env.validate(e).Valid? {
      TouchesAgree(s.pool, op, env.validate(e).result.storageMap);
    }
    DecidesWhatIsKnown(env, s, b, e);
  }

  lemma {:induction false} RuledStep(env: Env, s: State, b: Build, e: Entry)
    requires Ruled(env, s, b) && |b.log| < |Entries(s)| && e == Entries(s)[|b.log|]
    requires Invariant(env, s, b) && TableTracks(s, b) && StopSound(b)
    ensures Ruled(env, s, Next(env, b, e)) && TableTracks(s, Next(env, b, e))
  {
    var verdict := Decide(env, b, e);
    var b' := Act(env, b, e, verdict);
    DecidesByRule(env, s, b, e);
    TableStep(env, s, b, e, verdict);
    ActTable(env, b, e, verdict, ADDRESS_ZERO);
    forall j | 0 <= j < |b'.log| ensures b'.log[j] == RuleVerdict(env, s, Entries(s), b'.log[..j], Entries(s)[j]) {
      assert b'.log[..j] == b.log[..j];
      assert b.log[..|b.log|] == b.log;
    }
  }

  lemma {:induction false} RuledAtStart(env: Env, s: State)
    ensures Ruled(env, s, Start(s)) && TableTracks(s, Start(s))
  {
  }

  ghost predicate IsReady(env: Env, s: State, b: Build, n: nat) {
    Invariant(env, s, b) && StopSound(b) && |b.log| == n
  }

  lemma {:induction false} ReadyAfter(env: Env, s: State, n: nat)
    requires n <= |Entries(s)|
    ensures IsReady(env, s, After(env, Start(s), Entries(s), n), n)
  {
    InvariantAfter(env, s, n);
    NotReachedExactlyAfterStop(env, s, n);
  }

  lemma {:induction false} RuledAlong(env: Env, s: State, trail: seq<Build>, n: nat)
    requires IsTrail(env, trail, Entries(s)) && n < |trail| && Ruled(env, s, trail[0]) && TableTracks(s, trail[0])
    requires forall i :: 0 <= i < |trail| ==> IsReady(env, s, trail[i], i)
    ensures Ruled(env, s, trail[n]) && TableTracks(s, trail[n])
  {
    if n == 0 {
    } else {
      RuledAlong(env, s, trail, n - 1);
      assert IsReady(env, s, trail[n - 1], n - 1);
      assert trail[(n - 1) + 1] == Next(env, trail[n - 1], Entries(s)[n - 1]);
      RuledStep(env, s, trail[n - 1], Entries(s)[n - 1]);
    }
  }

  lemma {:induction false} RuledBuilt(env: Env, s: State)
    ensures Ruled(env, s, Built(env, s)) && TableTracks(s, Built(env, s)) && |Built(env, s).log| == |Entries(s)|
  {
    var trail := Trail(env, Start(s), Entries(s), |Entries(s)|);
    TrailIsTrail(env, Start(s), Entries(s));
    RuledAtStart(env, s);
    forall i | 0 <= i < |trail| ensures IsReady(env, s, trail[i], i) {
      ReadyAfter(env, s, i);
    }
    RuledAlong(env, s, trail, |Entries(s)|);
  }

  /** For every mempool, reputation table, deposit function and oracle: each entry of the sorted mempool gets exactly
      the verdict of the rules, and building changes no reputation but by taking back the sightings the rules say. */
  lemma {:induction false} VerdictsFollowTheRules(env: Env, s: State)
    ensures |Built(env, s).log| == |Entries(s)|
    ensures forall j :: 0 <= j < |Entries(s)| ==>
      Built(env, s).log[j] == RuleVerdict(env, s, Entries(s), Built(env, s).log[..j], Entries(s)[j])
    ensures TableTracks(s, Built(env, s))
  {
    RuledBuilt(env, s);
  }

  lemma {:induction false} RuleRemoves(env: Env, s: State, es: seq<Entry>, log: seq<Verdict>, e: Entry)
    requires |log| <= |es|
    ensures Removes(RuleVerdict(env, s, es, log, e)) <==>
      && OverGas !in log
      && (NamesBanned(env, s, es, log, e.userOp) || (IsNext(env, s, es, log, e.userOp) && env.validate(e).Invalid?))
    ensures RuleVerdict(env, s, es, log, e) == BannedEntity <==> OverGas !in log && NamesBanned(env, s, es, log, e.userOp)
  {
  }

  lemma {:induction false} VerdictAt(env: Env, s: State, j: nat)
    requires UniqueKeys(s.pool) && j < |Entries(s)|
    ensures j < |Built(env, s).log|
    ensures Built(env, s).log[j] == RuleVerdict(env, s, Entries(s), Built(env, s).log[..j], Entries(s)[j])
    ensures Entries(s)[j] in Built(env, s).mempool.pool <==> !Removes(Built(env, s).log[j])
  {
    VerdictsFollowTheRules(env, s);
    MempoolAfterBuilding(env, s);
  }

  /** Which entries leave the mempool: those reached that name a banned entity, or that name none, are not skipped for
      an entity's limit or for their sender, and fail re-validation. */
  lemma {:induction false} RemovedExactlyWhen(env: Env, s: State, j: nat)
    requires UniqueKeys(s.pool) && j < |Entries(s)|
    ensures j < |Built(env, s).log|
    ensures
      var es, log := Entries(s), Built(env, s).log[..j];
      es[j] !in Built(env, s).mempool.pool <==>
        && OverGas !in log
        && (NamesBanned(env, s, es, log, es[j].userOp) ||
            (IsNext(env, s, es, log, es[j].userOp) && env.validate(es[j]).Invalid?))
  {
    VerdictAt(env, s, j);
    RuleRemoves(env, s, Entries(s), Built(env, s).log[..j], Entries(s)[j]);
  }

  lemma {:induction false} NothingTakenBack(env: Env, es: seq<Entry>, log: seq<Verdict>, a: Address)
    requires |log| <= |es| && forall j :: 0 <= j < |log| ==> log[j] != FailedValidation(true)
    ensures TakenBack(es, log, a) == 0
  {
    if log == [] {
    } else {
      NothingTakenBack(env, es, Init(log), a);
      assert log[|log| - 1] != FailedValidation(true);
    }
  }

  lemma {:induction false} StatusThen(p: Policy, t: Table, a: Address)
    ensures IsBannedLess(p, t, a, 0) <==> StatusOf(p, t, Some(a)) == BANNED
  {
    StatusExactly(p, t, a);
  }

  lemma {:induction false} NamesBannedThen(env: Env, s: State, es: seq<Entry>, log: seq<Verdict>, op: UserOp)
    requires |log| <= |es| && forall i :: 0 <= i < |log| ==> log[i] != FailedValidation(true)
    ensures NamesBanned(env, s, es, log, op) <==>
      StatusOf(env.policy, s.table, op.paymaster) == BANNED || StatusOf(env.policy, s.table, op.factory) == BANNED
  {
    if op.paymaster.Some? {
      NothingTakenBack(env, es, log, op.paymaster.value);
      StatusThen(env.policy, s.table, op.paymaster.value);
    }
    if op.factory.Some? {
      NothingTakenBack(env, es, log, op.factory.value);
      StatusThen(env.policy, s.table, op.factory.value);
    }
  }

  /** While no sighting has been taken back, an entry reached is found to name a banned entity exactly when its
      paymaster or factory is BANNED in the table building started from, and then it is gone. */
  lemma {:induction false} BannedExactlyWhen(env: Env, s: State, j: nat)
    requires UniqueKeys(s.pool) && j < |Entries(s)|
    ensures j < |Built(env, s).log|
    ensures
      var log, e := Built(env, s).log, Entries(s)[j];
      var banned := StatusOf(env.policy, s.table, e.userOp.paymaster) == BANNED ||
                    StatusOf(env.policy, s.table, e.userOp.factory) == BANNED;
      OverGas !in log[..j] && (forall i :: 0 <= i < j ==> log[i] != FailedValidation(true)) ==>
        && (log[j] == BannedEntity <==> banned)
        && (banned ==> e !in Built(env, s).mempool.pool)
  {
    VerdictAt(env, s, j);
    var log := Built(env, s).log[..j];
    RuleRemoves(env, s, Entries(s), log, Entries(s)[j]);
    if forall i :: 0 <= i < j ==> Built(env, s).log[i] != FailedValidation(true) {
      NamesBannedThen(env, s, Entries(s), log, Entries(s)[j].userOp);
    }
  }

  // ---------- blame ----------

  predicate Begins(reason: string, code: string) {
    |reason| >= |code| && reason[..|code|] == code
  }

  /** Whom a failure is put down to: for AA1 codes the factory; for AA2 the account, or its factory if that is staked;
      for AA3 the paymaster, or the account if that is staked; nobody for any other. */
  predicate IsBlamed(reason: string, op: UserOp, accountStaked: bool, factoryStaked: bool, a: Address) {
    || (Begins(reason, "AA1") && op.factory == Some(a))
    || (Begins(reason, "AA2") && op.factory == Some(a) && factoryStaked)
    || (Begins(reason, "AA2") && op.sender == a && !(op.factory.Some? && factoryStaked))
    || (Begins(reason, "AA3") && op.sender == a && accountStaked)
    || (Begins(reason, "AA3") && op.paymaster == Some(a) && !accountStaked)
  }

  lemma {:induction false} BlamedExactly(reason: string, op: UserOp, accountStaked: bool, factoryStaked: bool, a: Address)
    ensures EntityToBlame(reason, op, accountStaked, factoryStaked) == Some(a) <==>
      IsBlamed(reason, op, accountStaked, factoryStaked, a)
  {
    assert "AA1"[2] == '1' && "AA2"[2] == '2' && "AA3"[2] == '3';
    if |reason| >= 3 {
      assert reason[..3][2] == reason[2];
    }
  }

  predicate IsSameOp(x: UserOp, y: UserOp) {
    x.sender == y.sender && x.nonce == y.nonce
  }

  predicate HasNoRole(a: Address, op: UserOp) {
    op.sender != a && op.paymaster != Some(a) && op.factory != Some(a)
  }

  /** After a failure the failed operation is gone, no entry names the address to blame, and that address is banned
      unless it is whitelisted, or not blacklisted with opsSeen below -9490; with nobody to blame only the failed
      operation goes. */
  lemma {:induction false} FailureOutcome(p: Policy, s: State, op: UserOp, reason: string, accountStaked: bool,
      factoryStaked: bool)
    requires p.params == BUNDLER_PARAMS && UniqueKeys(s.pool)
    ensures
      var s' := AfterFailedOp(s, op, EntityToBlame(reason, op, accountStaked, factoryStaked));
      && (forall e :: e in s'.pool ==> e in s.pool && !IsSameOp(e.userOp, op))
      && (forall a, e :: IsBlamed(reason, op, accountStaked, factoryStaked, a) && e in s'.pool ==> HasNoRole(a, e.userOp))
      && (forall a :: IsBlamed(reason, op, accountStaked, factoryStaked, a) ==>
            (StatusOf(p, s'.table, Some(a)) == BANNED <==>
               a !in p.whitelist && (a in p.blackList || RecordOf(s.table, a).opsSeen >= -9490)))
      && ((forall a :: !IsBlamed(reason, op, accountStaked, factoryStaked, a)) ==>
            s'.table == s.table && forall e :: e in s.pool && !IsSameOp(e.userOp, op) ==> e in s'.pool)
  {
    var blamed := EntityToBlame(reason, op, accountStaked, factoryStaked);
    forall a ensures blamed == Some(a) <==> IsBlamed(reason, op, accountStaked, factoryStaked, a) {
      BlamedExactly(reason, op, accountStaked, factoryStaked, a);
    }
    if blamed.Some? {
      FailedOpBlamesOne(s, op, blamed.value);
      BlamedIsBannedExactlyWhen(p, s, op, blamed.value);
    } else {
      FailedOpBlamesNobody(s, op);
      FilterMembers(s.pool, OtherKey(op.sender, op.nonce));
    }
  }
}
