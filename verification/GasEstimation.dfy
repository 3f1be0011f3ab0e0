/** Gas limits and searches over call trees (packages/bundler/src/MethodHandlerERC4337.ts). */
module GasEstimation {
  import opened Common

  datatype TraceItem = TraceItem(
    from: Address,
    to: Address,
    kind: string,
    input: Bytes,
    gasUsed: nat,
    error: bool,
    calls: seq<TraceItem>)

  datatype EstimationError = UserOperationReverted

  // ---------- depth ----------

  function Height(t: TraceItem): (h: nat)
    decreases t, 1
  {
    if t.calls == [] then 1 else MaxHeight(t.calls) + 1
  }

  function MaxHeight(ts: seq<TraceItem>): nat
    decreases ts, 0
  {
    if ts == [] then 0
    else
      var rest, last := MaxHeight(ts[..|ts| - 1]), Height(ts[|ts| - 1]);
      if last > rest then last else rest
  }

  method GetDepth(traceItem: TraceItem) returns (depth: nat)
    ensures depth == Height(traceItem)
    decreases traceItem
  {
    if |traceItem.calls| == 0 {
      return 1;
    }
    var maxDepth := 0;
    for i := 0 to |traceItem.calls|
      invariant maxDepth == MaxHeight(traceItem.calls[..i])
    {
      var callDepth := GetDepth(traceItem.calls[i]);
      assert traceItem.calls[..i + 1][..i] == traceItem.calls[..i];
      if callDepth > maxDepth {
        maxDepth := callDepth;
      }
    }
    assert traceItem.calls[..|traceItem.calls|] == traceItem.calls;
    return maxDepth + 1;
  }

  /** A chain of nested calls, given by which child is entered at each step. */
  predicate IsCallChain(t: TraceItem, chain: seq<nat>) {
    chain == [] || (chain[0] < |t.calls| && IsCallChain(t.calls[chain[0]], chain[1..]))
  }

  lemma {:induction false} MaxHeightBounds(ts: seq<TraceItem>, i: nat)
    requires i < |ts|
    ensures Height(ts[i]) <= MaxHeight(ts)
  {
    if i >= |ts| - 1 {
    } else {
      MaxHeightBounds(ts[..|ts| - 1], i);
    }
  }

  lemma {:induction false} MaxHeightReached(ts: seq<TraceItem>) returns (i: nat)
    requires ts != []
    ensures i < |ts| && Height(ts[i]) == MaxHeight(ts)
  {
    if |ts| == 1 {
      i := 0;
      assert MaxHeight(ts[..0]) == 0;
    } else if Height(ts[|ts| - 1]) > MaxHeight(ts[..|ts| - 1]) {
      i := |ts| - 1;
    } else {
      i := MaxHeightReached(ts[..|ts| - 1]);
    }
  }

  lemma {:induction false} ChainsAreShorter(t: TraceItem, chain: seq<nat>)
    requires IsCallChain(t, chain)
    ensures |chain| + 1 <= Height(t)
  {
    if chain != [] {
      ChainsAreShorter(t.calls[chain[0]], chain[1..]);
      MaxHeightBounds(t.calls, chain[0]);
    } else {
      assert 1 <= Height(t);
    }
  }

  lemma {:induction false} LongestChain(t: TraceItem) returns (chain: seq<nat>)
    ensures IsCallChain(t, chain) && |chain| + 1 == Height(t)
    decreases t
  {
    if t.calls == [] {
      chain := [];
    } else {
      var i := MaxHeightReached(t.calls);
      var rest := LongestChain(t.calls[i]);
      chain := [i] + rest;
      assert chain[1..] == rest;
    }
  }

  /** The depth is one more than the length of the longest chain of nested calls. */
  lemma {:induction false} DepthIsLongestChain(t: TraceItem)
    ensures exists chain :: IsCallChain(t, chain) && |chain| + 1 == Height(t)
    ensures forall chain :: IsCallChain(t, chain) ==> |chain| + 1 <= Height(t)
  {
    var chain := LongestChain(t);
    forall chain | IsCallChain(t, chain) ensures |chain| + 1 <= Height(t) {
      ChainsAreShorter(t, chain);
    }
  }

  // ---------- the limit ----------

  /** The gas back-computed for a call of this depth that used so much. */
  function BackComputed(gasUsed: nat, depth: nat): nat {
    gasUsed * Pow(64, depth) / Pow(63, depth)
  }

  function GetCallGasLimit(call: Option<TraceItem>): Result<nat, EstimationError> {
    if call.None? then Ok(0)
    else if call.value.error then Err(UserOperationReverted)
    else Ok(BackComputed(call.value.gasUsed, Height(call.value)))
  }

  /** No call needs no gas and a failed one is an error; otherwise the limit is the gas used times (64/63)^depth,
      rounded down. */
  lemma {:induction false} LimitExactly(call: Option<TraceItem>)
    ensures GetCallGasLimit(call).Ok? <==> call.None? || !call.value.error
    ensures call.None? ==> GetCallGasLimit(call) == Ok(0)
    ensures call.Some? && !call.value.error ==>
      var limit, d := GetCallGasLimit(call).value, Height(call.value);
      Pow(63, d) * limit <= call.value.gasUsed * Pow(64, d) < Pow(63, d) * limit + Pow(63, d)
  {
    if call.Some? && !call.value.error {
      var d := Height(call.value);
      PowersOrdered(d);
      QuotientBounds(call.value.gasUsed * Pow(64, d), Pow(63, d));
    }
  }

  /** EIP-150: a call is given at most all but one 64th of the gas left. */
  function Forwarded(gas: nat, levels: nat): nat {
    if levels == 0 then gas
    else
      var g := Forwarded(gas, levels - 1);
      g - g / 64
  }

  /** Each level loses a 64th, rounded in the callee's favour. */
  lemma {:induction false} ForwardedBounds(gas: nat, d: nat)
    ensures Pow(63, d) * gas <= Pow(64, d) * Forwarded(gas, d)
    ensures Pow(64, d) * Forwarded(gas, d) <= Pow(63, d) * gas + 63 * (Pow(64, d) - Pow(63, d))
  {
    if d == 0 {
    } else {
      ForwardedBounds(gas, d - 1);
      var x, y := Forwarded(gas, d - 1), Forwarded(gas, d);
      assert 63 * x <= 64 * y <= 63 * x + 63;
      BoundsStep(Pow(64, d - 1), Pow(63, d - 1), x, y, gas);
    }
  }

  lemma {:induction false} BoundsStep(p: nat, q: nat, x: nat, y: nat, g: nat)
    requires 63 * x <= 64 * y <= 63 * x + 63
    requires q * g <= p * x <= q * g + 63 * (p - q)
    ensures (63 * q) * g <= (64 * p) * y <= (63 * q) * g + 63 * (64 * p - 63 * q)
  {
    ScaleLe(p, 63 * x, 64 * y);
    ScaleLe(p, 64 * y, 63 * x + 63);
    assert p * (63 * x) == 63 * (p * x);
    assert p * (64 * y) == (64 * p) * y;
    assert p * (63 * x + 63) == 63 * (p * x) + 63 * p;
    assert (63 * q) * g == 63 * (q * g);
  }

  lemma {:induction false} ScaleLe(k: nat, x: int, y: int)
    requires x <= y
    ensures k * x <= k * y
  {
  }

  lemma {:induction false} ScaleLess(k: nat, x: int, y: int)
    requires k * x < k * y
    ensures x < y
  {
  }

  lemma {:induction false} ForwardedShrinks(gas: nat, k: nat, d: nat)
    requires k <= d
    ensures Forwarded(gas, d) <= Forwarded(gas, k)
    decreases d
  {
    if k >= d {
    } else {
      ForwardedShrinks(gas, k, d - 1);
    }
  }

  lemma {:induction false} QuotientBounds(n: nat, q: nat)
    requires q > 0
    ensures q * (n / q) <= n < q * (n / q) + q
  {
  }

  lemma {:induction false} PowersOrdered(d: nat)
    ensures 0 < Pow(63, d) <= Pow(64, d)
  {
    if d == 0 {
    } else {
      PowersOrdered(d - 1);
    }
  }

  /** After the 64th kept back at each of d levels, the back-computed gas still leaves what was used, and
      less than 64 more; so the limit is sufficient, and not by much. */
  lemma {:induction false} BackComputedIsSufficientAndTight(gasUsed: nat, d: nat)
    ensures gasUsed <= Forwarded(BackComputed(gasUsed, d), d) < gasUsed + 64
  {
    var p, q, g := Pow(64, d), Pow(63, d), BackComputed(gasUsed, d);
    var f := Forwarded(g, d);
    PowersOrdered(d);
    ForwardedBounds(g, d);
    QuotientBounds(gasUsed * p, q);
    assert p * (gasUsed - 1) == gasUsed * p - p;
    assert p * (gasUsed + 64) == gasUsed * p + 64 * p;
    ScaleLess(p, gasUsed - 1, f);
    ScaleLess(p, f, gasUsed + 64);
  }

  /** A limit computed from a traced call is enough at every level of nesting that call reached. */
  lemma {:induction false} LimitSufficesAlongEveryChain(call: TraceItem, chain: seq<nat>)
    requires !call.error && IsCallChain(call, chain)
    ensures GetCallGasLimit(Some(call)).Ok?
    ensures Forwarded(GetCallGasLimit(Some(call)).value, |chain|) >= call.gasUsed
    ensures Forwarded(GetCallGasLimit(Some(call)).value, |chain| + 1) >= call.gasUsed
  {
    var limit := GetCallGasLimit(Some(call)).value;
    ChainsAreShorter(call, chain);
    BackComputedIsSufficientAndTight(call.gasUsed, Height(call));
    ForwardedShrinks(limit, |chain|, Height(call));
    ForwardedShrinks(limit, |chain| + 1, Height(call));
  }

  // ---------- searches ----------

  /** A depth-first search that tests a node before its children and stops at the first success. */
  function Search(t: TraceItem, p: TraceItem -> bool): Option<TraceItem>
    decreases t, 1
  {
    if p(t) then Some(t) else SearchAll(t.calls, p)
  }

  function SearchAll(ts: seq<TraceItem>, p: TraceItem -> bool): Option<TraceItem>
    decreases ts, 0
  {
    if ts == [] then None
    else
      var r := Search(ts[0], p);
      if r.Some? then r else SearchAll(ts[1..], p)
  }

  predicate IsRevertedLeaf(t: TraceItem) {
    t.calls == [] && t.error && t.kind != "STATICCALL"
  }

  function FindRevertedCall(t: TraceItem): Option<TraceItem> {
    Search(t, IsRevertedLeaf)
  }

  predicate IsCallTo(t: TraceItem, selector: Bytes, from: Option<Address>, to: Option<Address>) {
    selector <= t.input &&
    if from.None? && to.None? then true
    else if from.Some? && to.Some? then from.value == t.from && to.value == t.to
    else (from.Some? && from.value == t.from) || (to.Some? && to.value == t.to)
  }

  function GetCallFromTrace(t: TraceItem, selector: Bytes, from: Option<Address>,
      to: Option<Address>): Option<TraceItem> {
    Search(t, x => IsCallTo(x, selector, from, to))
  }

  /** All calls of a tree, each before those it makes. */
  function Preorder(t: TraceItem): seq<TraceItem>
    decreases t, 1
  {
    [t] + PreorderAll(t.calls)
  }

  function PreorderAll(ts: seq<TraceItem>): seq<TraceItem>
    decreases ts, 0
  {
    if ts == [] then [] else Preorder(ts[0]) + PreorderAll(ts[1..])
  }

  /** The first element to pass a test. */
  ghost predicate IsFirst(r: Option<TraceItem>, list: seq<TraceItem>, p: TraceItem -> bool) {
    match r
    case None => forall i :: 0 <= i < |list| ==> !p(list[i])
    case Some(x) => exists k :: 0 <= k < |list| && list[k] == x && p(x) && forall i :: 0 <= i < k ==> !p(list[i])
  }

  lemma {:induction false} FirstOfConcat(r: Option<TraceItem>, a: seq<TraceItem>, b: seq<TraceItem>,
      p: TraceItem -> bool)
    requires IsFirst(r, a, p)
    ensures r.Some? ==> IsFirst(r, a + b, p)
    ensures forall s :: r.None? && IsFirst(s, b, p) ==> IsFirst(s, a + b, p)
  {
    if r.Some? {
      var k :| 0 <= k < |a| && a[k] == r.value && p(r.value) && forall i :: 0 <= i < k ==> !p(a[i]);
      assert (a + b)[k] == r.value;
    } else {
      forall s: Option<TraceItem> | s.Some? && IsFirst(s, b, p) ensures IsFirst(s, a + b, p) {
        var k :| 0 <= k < |b| && b[k] == s.value && p(s.value) && forall i :: 0 <= i < k ==> !p(b[i]);
        assert (a + b)[|a| + k] == s.value;
      }
    }
  }

  /** A search finds the first call, in pre-order, that passes its test, and nothing exactly when none does. */
  lemma {:induction false} SearchFindsFirst(t: TraceItem, p: TraceItem -> bool)
    ensures IsFirst(Search(t, p), Preorder(t), p)
    decreases t, 1
  {
    SearchAllFindsFirst(t.calls, p);
    var self := if p(t) then Some(t) else None;
    assert IsFirst(self, [t], p) by {
      assert [t][0] == t;
    }
    FirstOfConcat(self, [t], PreorderAll(t.calls), p);
  }

  lemma {:induction false} SearchAllFindsFirst(ts: seq<TraceItem>, p: TraceItem -> bool)
    ensures IsFirst(SearchAll(ts, p), PreorderAll(ts), p)
    decreases ts, 0
  {
    if ts == [] {
    } else {
      SearchFindsFirst(ts[0], p);
      SearchAllFindsFirst(ts[1..], p);
      FirstOfConcat(Search(ts[0], p), Preorder(ts[0]), PreorderAll(ts[1..]), p);
    }
  }

  lemma {:induction false} FirstBySameTest(r: Option<TraceItem>, list: seq<TraceItem>, p: TraceItem -> bool, q: TraceItem -> bool)
    requires IsFirst(r, list, p) && forall x :: p(x) <==> q(x)
    ensures IsFirst(r, list, q)
  {
  }

  /** The reverted call found is the first call that failed, made no calls of its own and is no static call. */
  lemma {:induction false} RevertedCallIsFirst(t: TraceItem)
    ensures IsFirst(FindRevertedCall(t), Preorder(t), (x: TraceItem) => x.error && |x.calls| == 0 && x.kind != "STATICCALL")
  {
    SearchFindsFirst(t, IsRevertedLeaf);
    FirstBySameTest(FindRevertedCall(t), Preorder(t), IsRevertedLeaf, (x: TraceItem) => x.error && |x.calls| == 0 && x.kind != "STATICCALL");
  }

  /** The input starts with the selector, and each end asked for is the call's. */
  predicate Matches(x: TraceItem, selector: Bytes, from: Option<Address>, to: Option<Address>) {
    && |x.input| >= |selector| && x.input[..|selector|] == selector
    && (from.Some? ==> from.value == x.from)
    && (to.Some? ==> to.value == x.to)
  }

  lemma {:induction false} CallFromTraceIsFirst(t: TraceItem, selector: Bytes, from: Option<Address>, to: Option<Address>)
    ensures IsFirst(GetCallFromTrace(t, selector, from, to), Preorder(t), x => Matches(x, selector, from, to))
  {
    SearchFindsFirst(t, x => IsCallTo(x, selector, from, to));
    forall x ensures IsCallTo(x, selector, from, to) <==> Matches(x, selector, from, to) {
    }
    FirstBySameTest(GetCallFromTrace(t, selector, from, to), Preorder(t), x => IsCallTo(x, selector, from, to),
                    x => Matches(x, selector, from, to));
  }
}
