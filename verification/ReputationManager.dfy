/** Reputation of senders, paymasters, factories and aggregators
    (packages/bundler/src/modules/ReputationManager.ts). */
module Reputation {
  import opened Common

  const BAN_OPS_SEEN_PENALTY := 10000
  const SAME_SENDER_MEMPOOL_COUNT := 4
  const SAME_UNSTAKED_ENTITY_MEMPOOL_COUNT := 10

  datatype Status = OK | THROTTLED | BANNED {
    function Severity(): nat {
      match this case OK => 0 case THROTTLED => 1 case BANNED => 2
    }
  }

  datatype Title = Account | Paymaster | Aggregator | Deployer

  type Positive = x: int | 1 <= x witness 1

  datatype Params = Params(minInclusionDenominator: Positive, throttlingSlack: nat, banSlack: nat)

  const BUNDLER_PARAMS := Params(10, 10, 50)
  const NON_BUNDLER_PARAMS := Params(100, 10, 10)

  datatype Record = Record(opsSeen: int, opsIncluded: int)

  type Table = map<Address, Record>

  /** Everything `getStatus` and `checkStake` consult besides the counters. */
  datatype Policy = Policy(
    params: Params,
    whitelist: set<Address>,
    blackList: set<Address>,
    minStake: nat,
    minUnstakeDelay: nat)

  // ---------- the table as a value ----------

  function RecordOf(t: Table, a: Address): Record {
    if a in t then t[a] else Record(0, 0)
  }

  function StatusOf(p: Policy, t: Table, addr: Option<Address>): Status {
    if addr.None? || addr.value in p.whitelist then OK
    else if addr.value in p.blackList then BANNED
    else if addr.value !in t then OK
    else
      var r := t[addr.value];
      var minExpectedIncluded := r.opsSeen / p.params.minInclusionDenominator;
      if minExpectedIncluded <= r.opsIncluded + p.params.throttlingSlack then OK
      else if minExpectedIncluded <= r.opsIncluded + p.params.banSlack then THROTTLED
      else BANNED
  }

  function Seen(t: Table, addr: Option<Address>, val: int): Table {
    if addr.None? then t
    else
      var r := RecordOf(t, addr.value);
      t[addr.value := r.(opsSeen := r.opsSeen + val)]
  }

  function Included(t: Table, a: Address): Table {
    var r := RecordOf(t, a);
    t[a := r.(opsIncluded := r.opsIncluded + 1)]
  }

  function Crashed(t: Table, addr: Option<Address>): Table {
    if addr.None? then t
    else t[addr.value := Record(RecordOf(t, addr.value).opsSeen + BAN_OPS_SEEN_PENALTY, 0)]
  }

  function CronRecord(r: Record): Record {
    var seen := r.opsSeen * 23 / 24;
    Record(seen, seen * 23 / 24)
  }

  /** One tick: every record is scaled, and records that reach (0, 0) are dropped. */
  function Cron(t: Table): Table {
    map a | a in t && CronRecord(t[a]) != Record(0, 0) :: CronRecord(t[a])
  }

  predicate MeetsStake(p: Policy, info: StakeInfo) {
    info.stake >= p.minStake && info.unstakeDelaySec >= p.minUnstakeDelay
  }

  function CheckStake(p: Policy, t: Table, info: StakeInfo): Option<ValidationError> {
    if info.addr in p.whitelist then None
    else if StatusOf(p, t, Some(info.addr)) == BANNED then Some(ValidationError.Reputation)
    else if !MeetsStake(p, info) then Some(InsufficientStake)
    else None
  }

  function MaxAllowedUnstaked(t: Table, title: Title, entity: Address): int {
    if title == Account then SAME_SENDER_MEMPOOL_COUNT
    else if entity !in t then SAME_UNSTAKED_ENTITY_MEMPOOL_COUNT
    else
      var r := t[entity];
      var rate := if r.opsSeen == 0 then 0 else FloorDiv(r.opsIncluded * 10, r.opsSeen);
      SAME_UNSTAKED_ENTITY_MEMPOOL_COUNT + rate + (if r.opsIncluded <= 10000 then r.opsIncluded else 10000)
  }

  // ---------- the object ----------

  class ReputationManager {
    const params: Params
    const minStake: nat
    const minUnstakeDelay: nat
    var entries: Table
    var blackList: set<Address>
    var whitelist: set<Address>

    constructor (params: Params, minStake: nat, minUnstakeDelay: nat)
      ensures this.params == params && this.minStake == minStake && this.minUnstakeDelay == minUnstakeDelay
      ensures entries == map[] && blackList == {} && whitelist == {}
    {
      this.params := params;
      this.minStake := minStake;
      this.minUnstakeDelay := minUnstakeDelay;
      entries, blackList, whitelist := map[], {}, {};
    }

    function CurrentPolicy(): Policy
      reads this
    {
      Policy(params, whitelist, blackList, minStake, minUnstakeDelay)
    }

    function GetStatus(addr: Option<Address>): Status
      reads this
    {
      StatusOf(CurrentPolicy(), entries, addr)
    }

    method GetOrCreate(addr: Address) returns (entry: Record)
      modifies this`entries
      ensures entry == RecordOf(old(entries), addr)
      ensures entries == old(entries)[addr := entry]
    {
      if addr !in entries {
        entries := entries[addr := Record(0, 0)];
      }
      entry := entries[addr];
    }

    method UpdateSeenStatus(addr: Option<Address>, val: int := 1)
      modifies this`entries
      ensures entries == Seen(old(entries), addr, val)
    {
      if addr.None? {
        return;
      }
      var entry := GetOrCreate(addr.value);
      entries := entries[addr.value := entry.(opsSeen := entry.opsSeen + val)];
    }

    method UpdateIncludedStatus(addr: Address)
      modifies this`entries
      ensures entries == Included(old(entries), addr)
    {
      var entry := GetOrCreate(addr);
      entries := entries[addr := entry.(opsIncluded := entry.opsIncluded + 1)];
    }

    method CrashedHandleOps(addr: Option<Address>)
      modifies this`entries
      ensures entries == Crashed(old(entries), addr)
    {
      if addr.None? {
        return;
      }
      var entry := GetOrCreate(addr.value);
      entries := entries[addr.value := Record(entry.opsSeen + BAN_OPS_SEEN_PENALTY, 0)];
    }

    /** The keys are visited in no particular order. */
    method HourlyCron()
      modifies this`entries
      ensures entries == Cron(old(entries))
    {
      var addrs := entries.Keys;
      while addrs != {}
        invariant addrs <= old(entries).Keys
        invariant forall a :: a in addrs ==> a in entries && entries[a] == old(entries)[a]
        invariant forall a :: a !in addrs ==> (a in entries <==> a in Cron(old(entries)))
        invariant forall a :: a !in addrs && a in entries ==> entries[a] == Cron(old(entries))[a]
        decreases addrs
      {
        var addr :| addr in addrs;
        var opsSeen := entries[addr].opsSeen * 23 / 24;
        var opsIncluded := opsSeen * 23 / 24;
        entries := entries[addr := Record(opsSeen, opsIncluded)];
        if opsIncluded == 0 && opsSeen == 0 {
          entries := entries - {addr};
        }
        addrs := addrs - {addr};
      }
    }

    method ClearState()
      modifies this`entries
      ensures entries == map[]
    {
      entries := map[];
    }
  }

  // ---------- properties ----------

  /** How many inclusions an address is short of what its sightings lead one to expect. */
  function Shortfall(p: Policy, t: Table, a: Address): int {
    RecordOf(t, a).opsSeen / p.params.minInclusionDenominator - RecordOf(t, a).opsIncluded
  }

  /** The status of an address: listed addresses have theirs, the others are judged by their shortfall. */
  lemma {:induction false} StatusExactly(p: Policy, t: Table, a: Address)
    ensures StatusOf(p, t, Some(a)) == BANNED <==>
      a !in p.whitelist &&
      (a in p.blackList || (Shortfall(p, t, a) > p.params.banSlack && Shortfall(p, t, a) > p.params.throttlingSlack))
    ensures StatusOf(p, t, Some(a)) == THROTTLED <==>
      && a !in p.whitelist && a !in p.blackList
      && p.params.throttlingSlack < Shortfall(p, t, a) <= p.params.banSlack
    ensures StatusOf(p, t, None) == OK
  {
  }

  /** Who passes the stake check: whoever is whitelisted, and of the others whoever is not banned and has both the
      stake and the delay; and what the others are told. */
  lemma {:induction false} StakeCheckExactly(p: Policy, t: Table, info: StakeInfo)
    ensures CheckStake(p, t, info) == None <==>
      || info.addr in p.whitelist
      || (StatusOf(p, t, Some(info.addr)) != BANNED && info.stake >= p.minStake && info.unstakeDelaySec >= p.minUnstakeDelay)
    ensures CheckStake(p, t, info) == Some(ValidationError.Reputation) <==> StatusOf(p, t, Some(info.addr)) == BANNED
    ensures CheckStake(p, t, info) in {None, Some(ValidationError.Reputation), Some(InsufficientStake)}
  {
  }

  /** The number of entries an unstaked entity may hold, by its share of inclusions in tenths. */
  ghost predicate IsAllowance(t: Table, title: Title, a: Address, n: int) {
    if title == Account then n == 4
    else if a !in t then n == 10
    else
      var r := t[a];
      exists tenths :: IsShare(10 * r.opsIncluded, r.opsSeen, tenths) &&
        n == 10 + tenths + if r.opsIncluded > 10000 then 10000 else r.opsIncluded
  }

  /** The quotient rounded down; nothing seen gives no share. */
  predicate IsShare(x: int, y: int, q: int) {
    if y == 0 then q == 0 else if y > 0 then q * y <= x < q * y + y else q * y >= x > q * y + y
  }

  lemma {:induction false} FloorDivIsShare(x: int, y: int)
    requires y != 0
    ensures IsShare(x, y, FloorDiv(x, y))
  {
  }

  lemma {:induction false} AllowanceExactly(t: Table, title: Title, a: Address)
    ensures IsAllowance(t, title, a, MaxAllowedUnstaked(t, title, a))
  {
    if title != Account && a in t {
      var r := t[a];
      if r.opsSeen != 0 {
        FloorDivIsShare(10 * r.opsIncluded, r.opsSeen);
      }
      var tenths := if r.opsSeen == 0 then 0 else FloorDiv(r.opsIncluded * 10, r.opsSeen);
      assert IsShare(10 * r.opsIncluded, r.opsSeen, tenths);
    }
  }

  /** Lowering opsSeen never worsens any address's status. */
  lemma {:induction false} LoweringSeenNeverHurts(p: Policy, t: Table, addr: Option<Address>, drop: nat,
      b: Option<Address>)
    ensures StatusOf(p, Seen(t, addr, 0 - drop), b).Severity() <= StatusOf(p, t, b).Severity()
  {
    if addr.Some? && b == addr {
      var d: int := p.params.minInclusionDenominator;
      DivMonotone(RecordOf(t, b.value).opsSeen - drop, RecordOf(t, b.value).opsSeen, d);
    }
  }

  lemma {:induction false} DivMonotone(x: int, y: int, d: int)
    requires x <= y && d > 0
    ensures x / d <= y / d
  {
    assert d * (x / d) <= x && y < d * (y / d) + d;
    if x / d > y / d {
      MulLe(d, y / d + 1, x / d);
    }
  }

  // --- how long a ban by crashedHandleOps lasts

  datatype Update = SeenBy(addr: Address, val: nat) | InclusionOf(addr: Address)

  function ApplyUpdates(t: Table, us: seq<Update>): Table {
    if us == [] then t
    else
      var t' := ApplyUpdates(t, us[..|us| - 1]);
      match us[|us| - 1]
      case SeenBy(a, val) => Seen(t', Some(a), val)
      case InclusionOf(a) => Included(t', a)
  }

  function SeenTotal(us: seq<Update>, a: Address): nat {
    if us == [] then 0
    else
      SeenTotal(us[..|us| - 1], a) +
      match us[|us| - 1] case SeenBy(b, val) => (if a == b then val else 0) case InclusionOf(_) => 0
  }

  function InclusionTotal(us: seq<Update>, a: Address): nat {
    if us == [] then 0
    else
      InclusionTotal(us[..|us| - 1], a) + if us[|us| - 1] == InclusionOf(a) then 1 else 0
  }

  lemma {:induction false} RunTotals(t: Table, us: seq<Update>, a: Address)
    ensures RecordOf(ApplyUpdates(t, us), a) ==
      Record(RecordOf(t, a).opsSeen + SeenTotal(us, a), RecordOf(t, a).opsIncluded + InclusionTotal(us, a))
    ensures a in t ==> a in ApplyUpdates(t, us)
  {
    if us == [] {
    } else {
      RunTotals(t, us[..|us| - 1], a);
    }
  }

  /** Crashing bans a listed-nowhere address exactly when its opsSeen was not below -9490. */
  lemma {:induction false} CrashBansExactlyWhen(p: Policy, t: Table, a: Address)
    requires p.params == BUNDLER_PARAMS && a !in p.whitelist && a !in p.blackList
    ensures StatusOf(p, Crashed(t, Some(a)), Some(a)) == BANNED <==> RecordOf(t, a).opsSeen >= -9490
  {
  }

  /** After a crash and any run of updates the address is banned exactly while its inclusions stay
      50 below a tenth of everything seen; so 949 inclusions never lift the ban. */
  lemma {:induction false} CrashBanHolds(p: Policy, t: Table, a: Address, us: seq<Update>)
    requires p.params == BUNDLER_PARAMS && a !in p.whitelist && a !in p.blackList
    ensures StatusOf(p, ApplyUpdates(Crashed(t, Some(a)), us), Some(a)) == BANNED <==>
      InclusionTotal(us, a) + 50 < (RecordOf(t, a).opsSeen + SeenTotal(us, a) + BAN_OPS_SEEN_PENALTY) / 10
    ensures RecordOf(t, a).opsSeen >= 0 && InclusionTotal(us, a) < 950 ==>
      StatusOf(p, ApplyUpdates(Crashed(t, Some(a)), us), Some(a)) == BANNED
  {
    RunTotals(Crashed(t, Some(a)), us, a);
  }

  // --- exponential backoff

  function CronTimes(t: Table, k: nat): Table {
    if k == 0 then t else Cron(CronTimes(t, k - 1))
  }

  /** k ticks shrink opsSeen by at least (23/24)^k. */
  lemma {:induction false} CronDecay(t: Table, a: Address, k: nat)
    requires a in CronTimes(t, k) && a in t && t[a].opsSeen >= 0
    ensures CronTimes(t, k)[a].opsSeen >= 0
    ensures Pow(24, k) * CronTimes(t, k)[a].opsSeen <= Pow(23, k) * t[a].opsSeen
  {
    if k == 0 {
    } else {
      CronDecay(t, a, k - 1);
      var s, s' := CronTimes(t, k - 1)[a].opsSeen, CronTimes(t, k)[a].opsSeen;
      assert s' == s * 23 / 24;
      DecayStep(Pow(24, k - 1), Pow(23, k - 1), s, s', t[a].opsSeen);
    }
  }

  lemma {:induction false} DecayStep(p: nat, q: nat, s: nat, s': nat, s0: nat)
    requires 24 * s' <= 23 * s && p * s <= q * s0
    ensures 24 * p * s' <= 23 * q * s0
  {
  }

  lemma {:induction false} MulLe(k: nat, x: int, y: int)
    requires x <= y
    ensures k * x <= k * y
  {
  }

  lemma {:induction false} CronSteps(t: Table, a: Address, k: nat)
    requires a in t && t[a].opsSeen >= 0
    ensures a in CronTimes(t, k) ==> 0 <= CronTimes(t, k)[a].opsSeen
    ensures k > 0 && a in CronTimes(t, k) ==> 0 < CronTimes(t, k)[a].opsSeen <= t[a].opsSeen - k
  {
    if k == 0 {
    } else {
      CronSteps(t, a, k - 1);
    }
  }

  lemma {:induction false} CronNegative(t: Table, a: Address, k: nat)
    requires a in t && t[a].opsSeen < 0
    ensures a in CronTimes(t, k) && t[a].opsSeen <= CronTimes(t, k)[a].opsSeen < 0
  {
    if k == 0 {
    } else {
      CronNegative(t, a, k - 1);
    }
  }

  /** A record is ever dropped by ticks alone exactly when its opsSeen is not negative, and then
      within max(1, opsSeen) ticks. */
  lemma {:induction false} CronDeletesExactlyWhen(t: Table, a: Address)
    requires a in t
    ensures (exists k: nat :: a !in CronTimes(t, k)) <==> t[a].opsSeen >= 0
    ensures t[a].opsSeen >= 0 ==> a !in CronTimes(t, if t[a].opsSeen == 0 then 1 else t[a].opsSeen)
  {
    if t[a].opsSeen >= 0 {
      var k := if t[a].opsSeen == 0 then 1 else t[a].opsSeen;
      CronSteps(t, a, k);
      assert a !in CronTimes(t, k);
    } else {
      forall k: nat ensures a in CronTimes(t, k) { CronNegative(t, a, k); }
    }
  }

  lemma {:induction false} TickThresholds(seen: int)
    ensures (seen * 23 / 24) / 10 <= (seen * 23 / 24) * 23 / 24 + 10 <==> seen >= -12
    ensures (seen * 23 / 24) / 10 > (seen * 23 / 24) * 23 / 24 + 50 <==> seen <= -61
  {
  }

  /** A tick recomputes opsIncluded from opsSeen, so the status after it does not depend on past inclusions:
      it lifts every ban of an unlisted address exactly when opsSeen is at least -12, and leaves or makes the
      address banned exactly when opsSeen is at most -61. */
  lemma {:induction false} CronOutcomeExactlyWhen(p: Policy, t: Table, a: Address)
    requires p.params == BUNDLER_PARAMS
    ensures StatusOf(p, Cron(t), Some(a)) == OK <==>
      a in p.whitelist || (a !in p.blackList && RecordOf(t, a).opsSeen >= -12)
    ensures StatusOf(p, Cron(t), Some(a)) == BANNED <==>
      a !in p.whitelist && (a in p.blackList || RecordOf(t, a).opsSeen <= -61)
  {
    TickThresholds(RecordOf(t, a).opsSeen);
  }

  /** So a tick also lifts the ban crashedHandleOps imposed the moment before, with the same exception. */
  lemma {:induction false} CronAfterCrashExactlyWhen(p: Policy, t: Table, a: Address)
    requires p.params == BUNDLER_PARAMS
    ensures StatusOf(p, Cron(Crashed(t, Some(a))), Some(a)) == OK <==>
      a in p.whitelist || (a !in p.blackList && RecordOf(t, a).opsSeen >= -12 - BAN_OPS_SEEN_PENALTY)
  {
    CronOutcomeExactlyWhen(p, Crashed(t, Some(a)), a);
  }

  /** The same for a node that only relays: its two slacks are equal, so nothing is ever throttled. */
  lemma {:induction false} CronOutcomeForRelaysExactlyWhen(p: Policy, t: Table, a: Address)
    requires p.params == NON_BUNDLER_PARAMS
    ensures StatusOf(p, Cron(t), Some(a)) == OK <==>
      a in p.whitelist || (a !in p.blackList && RecordOf(t, a).opsSeen >= -11)
    ensures StatusOf(p, Cron(t), Some(a)) != THROTTLED
  {
  }

  /** An instance: a record whose sightings were taken back too often is fine before a tick and banned after it. */
  lemma {:induction false} TickCanBan(p: Policy, a: Address)
    requires p.params == BUNDLER_PARAMS && a !in p.whitelist && a !in p.blackList
    ensures StatusOf(p, map[a := Record(-100, 0)], Some(a)) == OK
    ensures StatusOf(p, Cron(map[a := Record(-100, 0)]), Some(a)) == BANNED
  {
  }

  /** Whatever the parameters, a tick leaves no address with non-negative opsSeen throttled or banned by counters. */
  lemma {:induction false} CronClearsNonNegative(p: Policy, t: Table, a: Address)
    requires p.params.minInclusionDenominator >= 2 && a !in p.blackList && RecordOf(t, a).opsSeen >= 0
    ensures StatusOf(p, Cron(t), Some(a)) == OK
  {
    CronInclusionCoversExpectation(RecordOf(t, a).opsSeen, p.params.minInclusionDenominator);
  }

  lemma {:induction false} CronInclusionCoversExpectation(seen: nat, d: int)
    requires d >= 2
    ensures (seen * 23 / 24) / d <= (seen * 23 / 24) * 23 / 24
  {
    var s := seen * 23 / 24;
    var q := s / d;
    assert d * q <= s;
    assert 2 * q <= d * q by { MulLe(q, 2, d); }
  }
}
