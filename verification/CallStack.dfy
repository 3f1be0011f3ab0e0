/** Rebuilding the calls of a trace from its enter and exit events
    (packages/validation-manager/src/TracerResultParser.ts). */
module CallStack {
  import opened Common
  import opened Sequences
  import opened CollectorTracer

  /** A method by its name, by the raw selector if the name is unknown, or not at all. */
  datatype Method = Named(name: string) | Raw(selector: Bytes) | Undefined

  datatype CallEntry = CallEntry(
    to: Option<Address>,
    from: Option<Address>,
    kind: string,
    callee: Method,
    value: nat,
    reverted: bool,
    output: Bytes)

  predicate IsCreate(kind: string) {
    kind == "CREATE" || kind == "CREATE2"
  }

  /** The entry pushed when a call ends. A creation loses its value, and a reverted call to an unknown method
      loses even its selector. */
  function EntryOf(call: Frame, end: CallEvent, resolve: Bytes -> Option<string>): CallEntry
    requires end.Exit?
  {
    if IsCreate(call.kind) then
      CallEntry(Some(call.to), Some(call.from), call.kind, Named(""), 0, false, end.data)
    else
      var name := resolve(call.selector);
      var callee := if name.Some? then Named(name.value) else if end.reverted then Undefined else Raw(call.selector);
      CallEntry(Some(call.to), Some(call.from), call.kind, callee, call.value, end.reverted, end.data)
  }

  /** What an exit with no open call stands for: the end of the traced transaction. */
  function TopEntry(end: CallEvent): CallEntry
    requires end.Exit?
  {
    CallEntry(None, None, "top", if end.reverted then Undefined else Named("validateUserOp"), 0, end.reverted, end.data)
  }

  datatype Parsing = Parsing(stack: seq<Frame>, out: seq<CallEntry>)

  function ParseStep(s: Parsing, c: CallEvent, resolve: Bytes -> Option<string>): Parsing {
    if c.Enter? then s.(stack := s.stack + [c.frame])
    else if s.stack == [] then s.(out := s.out + [TopEntry(c)])
    else Parsing(Init(s.stack), s.out + [EntryOf(Last(s.stack), c, resolve)])
  }

  function ParseFrom(s: Parsing, calls: seq<CallEvent>, resolve: Bytes -> Option<string>): Parsing {
    if calls == [] then s else ParseStep(ParseFrom(s, Init(calls), resolve), Last(calls), resolve)
  }

  function Parsed(calls: seq<CallEvent>, resolve: Bytes -> Option<string>): seq<CallEntry> {
    ParseFrom(Parsing([], []), calls, resolve).out
  }

  method ParseCallStack(calls: seq<CallEvent>, resolve: Bytes -> Option<string>) returns (out: seq<CallEntry>)
    ensures out == Parsed(calls, resolve)
  {
    out := [];
    var stack: seq<Frame> := [];
    for i := 0 to |calls|
      invariant ParseFrom(Parsing([], []), calls[..i], resolve) == Parsing(stack, out)
    {
      var c := calls[i];
      assert Init(calls[..i + 1]) == calls[..i];
      if c.Exit? {
        if |stack| == 0 {
          out := out + [TopEntry(c)];
        } else {
          var top := stack[|stack| - 1];
          stack := stack[..|stack| - 1];
          out := out + [EntryOf(top, c, resolve)];
        }
      } else {
        stack := stack + [c.frame];
      }
    }
    assert calls[..|calls|] == calls;
  }

  // ---------- call forests ----------

  /** A finished call and the calls made during it. */
  datatype Call = Call(start: Frame, calls: seq<Call>, reverted: bool, gasUsed: nat, data: Bytes)

  function EndOf(c: Call): CallEvent {
    Exit(c.reverted, c.gasUsed, c.data)
  }

  function NodeEntry(c: Call, resolve: Bytes -> Option<string>): CallEntry {
    EntryOf(c.start, EndOf(c), resolve)
  }

  /** The events a forest leaves in a trace. */
  function Printed(cs: seq<Call>): seq<CallEvent> {
    if cs == [] then []
    else [Enter(cs[0].start)] + Printed(cs[0].calls) + [EndOf(cs[0])] + Printed(cs[1..])
  }

  /** The entries of a forest, each after those of the calls it made. */
  function PostOrder(cs: seq<Call>, resolve: Bytes -> Option<string>): seq<CallEntry> {
    if cs == [] then []
    else PostOrder(cs[0].calls, resolve) + [NodeEntry(cs[0], resolve)] + PostOrder(cs[1..], resolve)
  }

  ghost predicate AllCalls(cs: seq<Call>, p: Call -> bool) {
    cs != [] ==> p(cs[0]) && AllCalls(cs[0].calls, p) && AllCalls(cs[1..], p)
  }

  lemma {:induction false} ParseConcat(s: Parsing, a: seq<CallEvent>, b: seq<CallEvent>,
      resolve: Bytes -> Option<string>)
    ensures ParseFrom(s, a + b, resolve) == ParseFrom(ParseFrom(s, a, resolve), b, resolve)
  {
    if b == [] {
      assert a + b == a;
    } else {
      ParseConcat(s, a, Init(b), resolve);
      assert Init(a + b) == a + Init(b);
    }
  }

  lemma {:induction false} ParseOne(s: Parsing, c: CallEvent, resolve: Bytes -> Option<string>)
    ensures ParseFrom(s, [c], resolve) == ParseStep(s, c, resolve)
  {
  }

  lemma {:induction false} ParseOfCall(s: Parsing, c: Call, resolve: Bytes -> Option<string>)
    ensures ParseFrom(s, [Enter(c.start)] + Printed(c.calls) + [EndOf(c)], resolve) ==
      Parsing(s.stack, s.out + PostOrder(c.calls, resolve) + [NodeEntry(c, resolve)])
    decreases c
  {
    var inner := Parsing(s.stack + [c.start], s.out);
    ParseOne(s, Enter(c.start), resolve);
    ParseConcat(s, [Enter(c.start)], Printed(c.calls), resolve);
    ParseOfPrinted(inner, c.calls, resolve);
    var within := Parsing(inner.stack, s.out + PostOrder(c.calls, resolve));
    ParseConcat(s, [Enter(c.start)] + Printed(c.calls), [EndOf(c)], resolve);
    ParseOne(within, EndOf(c), resolve);
    assert Init(s.stack + [c.start]) == s.stack;
  }

  /** Parsing the events of a forest leaves the open calls alone and adds its entries in post-order. */
  lemma {:induction false} ParseOfPrinted(s: Parsing, cs: seq<Call>, resolve: Bytes -> Option<string>)
    ensures ParseFrom(s, Printed(cs), resolve) == Parsing(s.stack, s.out + PostOrder(cs, resolve))
    decreases cs
  {
    if cs == [] {
      assert s.out + [] == s.out;
    } else {
      var c := cs[0];
      var head := [Enter(c.start)] + Printed(c.calls) + [EndOf(c)];
      var done := ParseFrom(s, head, resolve);
      ParseOfCall(s, c, resolve);
      ParseConcat(s, head, Printed(cs[1..]), resolve);
      ParseOfPrinted(done, cs[1..], resolve);
      Associate(s.out, PostOrder(c.calls, resolve), [NodeEntry(c, resolve)], PostOrder(cs[1..], resolve));
    }
  }

  lemma {:induction false} Associate<T>(a: seq<T>, b: seq<T>, c: seq<T>, d: seq<T>)
    ensures a + b + c + d == a + (b + c + d)
  {
  }

  /** From any finished forest, with or without the end of the transaction, the parser lists exactly its calls,
      each with its own addresses and kind, in post-order. */
  lemma {:induction false} ParsedIsPostOrder(cs: seq<Call>, end: CallEvent, resolve: Bytes -> Option<string>)
    requires end.Exit?
    ensures Parsed(Printed(cs), resolve) == PostOrder(cs, resolve)
    ensures Parsed(Printed(cs) + [end], resolve) == PostOrder(cs, resolve) + [TopEntry(end)]
  {
    ParseOfPrinted(Parsing([], []), cs, resolve);
    ParseConcat(Parsing([], []), Printed(cs), [end], resolve);
    ParseOne(ParseFrom(Parsing([], []), Printed(cs), resolve), end, resolve);
  }

  lemma {:induction false} ParseThree(s: Parsing, a: seq<CallEvent>, b: seq<CallEvent>, c: seq<CallEvent>,
      resolve: Bytes -> Option<string>)
    ensures ParseFrom(s, a + b + c, resolve) == ParseFrom(ParseFrom(ParseFrom(s, a, resolve), b, resolve), c, resolve)
  {
    ParseConcat(s, a + b, c, resolve);
    ParseConcat(s, a, b, resolve);
  }

  /** A call still open when the trace ends is not listed. */
  lemma {:induction false} OpenCallIsNotListed(cs: seq<Call>, call: Frame, inner: seq<Call>, resolve: Bytes -> Option<string>)
    ensures Parsed(Printed(cs) + [Enter(call)] + Printed(inner), resolve) == PostOrder(cs, resolve) + PostOrder(inner, resolve)
  {
    var start := Parsing([], []);
    var before := Parsing([], PostOrder(cs, resolve));
    ParseThree(start, Printed(cs), [Enter(call)], Printed(inner), resolve);
    ParseOfPrinted(start, cs, resolve);
    assert ParseFrom(start, Printed(cs), resolve) == before;
    ParseOne(before, Enter(call), resolve);
    assert ParseStep(before, Enter(call), resolve) == Parsing([call], before.out);
    ParseOfPrinted(Parsing([call], before.out), inner, resolve);
  }

  /** What an entry keeps of the call it stands for: always its ends, its kind and what it returned; the value, the
      method and the failure only of calls that are no creations, and the selector of an unknown method only if the
      call did not fail. */
  lemma {:induction false} EntryKeeps(c: Call, resolve: Bytes -> Option<string>)
    ensures
      var e := NodeEntry(c, resolve);
      && e.to == Some(c.start.to) && e.from == Some(c.start.from) && e.kind == c.start.kind && e.output == c.data
      && e.value == (if c.start.kind == "CREATE" || c.start.kind == "CREATE2" then 0 else c.start.value)
      && (e.reverted <==> c.reverted && c.start.kind != "CREATE" && c.start.kind != "CREATE2")
      && (c.start.kind != "CREATE" && c.start.kind != "CREATE2" ==>
            (forall name :: e.callee == Named(name) <==> resolve(c.start.selector) == Some(name)) &&
            (e.callee == Raw(c.start.selector) <==> resolve(c.start.selector) == None && !c.reverted))
  {
  }

  /** The end of the transaction is listed without ends or value, as the top-level validation if it did not fail. */
  lemma {:induction false} TopKeeps(end: CallEvent)
    requires end.Exit?
    ensures
      var e := TopEntry(end);
      && e.to == None && e.from == None && e.kind == "top" && e.value == 0 && e.output == end.data
      && e.reverted == end.reverted
      && e.callee == if end.reverted then Undefined else Named("validateUserOp")
  {
  }

  // ---------- the rules on calls ----------

  /** [OP-052] to [OP-054]: a call into the EntryPoint from elsewhere that is neither a plain transfer nor a
      deposit. */
  predicate IsIllegalEntryPointCall(e: CallEntry, entryPoint: Address) {
    e.to == Some(entryPoint) && e.from != Some(entryPoint) && e.callee != Raw([]) && e.callee != Named("depositTo")
  }

  /** [OP-061]: a call with value to anything but the EntryPoint. */
  predicate IsIllegalValueCall(e: CallEntry, entryPoint: Address) {
    e.to != Some(entryPoint) && e.value != 0
  }

  predicate EntryAllowed(e: CallEntry, entryPoint: Address) {
    !IsIllegalEntryPointCall(e, entryPoint) && !IsIllegalValueCall(e, entryPoint)
  }

  predicate CallsAllowed(es: seq<CallEntry>, entryPoint: Address) {
    forall e :: e in es ==> EntryAllowed(e, entryPoint)
  }

  method CheckCalls(calls: seq<CallEvent>, entryPoint: Address, resolve: Bytes -> Option<string>) returns (ok: bool)
    ensures ok <==> CallsAllowed(Parsed(calls, resolve), entryPoint)
  {
    var callStack := ParseCallStack(calls, resolve);
    for i := 0 to |callStack|
      invariant forall j :: 0 <= j < i ==> !IsIllegalEntryPointCall(callStack[j], entryPoint)
    {
      if IsIllegalEntryPointCall(callStack[i], entryPoint) {
        assert callStack[i] in callStack && !EntryAllowed(callStack[i], entryPoint);
        return false;
      }
    }
    for i := 0 to |callStack|
      invariant forall j :: 0 <= j < i ==> !IsIllegalValueCall(callStack[j], entryPoint)
    {
      if IsIllegalValueCall(callStack[i], entryPoint) {
        assert callStack[i] in callStack && !EntryAllowed(callStack[i], entryPoint);
        return false;
      }
    }
    return true;
  }

  predicate IsDeposit(c: Call, resolve: Bytes -> Option<string>) {
    resolve(c.start.selector) == Some("depositTo")
  }

  predicate IsPlainTransfer(c: Call, resolve: Bytes -> Option<string>) {
    c.start.selector == [] && resolve([]) == None
  }

  /** The same rules on a call of the forest. A plain transfer into the EntryPoint passes only if it did not
      revert, and value sent with a creation is not seen. */
  predicate NodeAllowed(c: Call, entryPoint: Address, resolve: Bytes -> Option<string>) {
    && (c.start.to == entryPoint && c.start.from != entryPoint ==>
          !IsCreate(c.start.kind) && (IsDeposit(c, resolve) || (IsPlainTransfer(c, resolve) && !c.reverted)))
    && (c.start.to != entryPoint && c.start.value != 0 ==> IsCreate(c.start.kind))
  }

  lemma {:induction false} NodeRule(c: Call, entryPoint: Address, resolve: Bytes -> Option<string>)
    ensures NodeAllowed(c, entryPoint, resolve) <==> EntryAllowed(NodeEntry(c, resolve), entryPoint)
  {
  }

  lemma {:induction false} AllowedConcat(a: seq<CallEntry>, b: seq<CallEntry>, entryPoint: Address)
    ensures CallsAllowed(a + b, entryPoint) <==> CallsAllowed(a, entryPoint) && CallsAllowed(b, entryPoint)
  {
  }

  lemma {:induction false} PostOrderRule(cs: seq<Call>, entryPoint: Address, resolve: Bytes -> Option<string>)
    ensures CallsAllowed(PostOrder(cs, resolve), entryPoint) <==> AllCalls(cs, c => NodeAllowed(c, entryPoint, resolve))
  {
    if cs == [] {
    } else {
      var inner, self := PostOrder(cs[0].calls, resolve), [NodeEntry(cs[0], resolve)];
      PostOrderRule(cs[0].calls, entryPoint, resolve);
      NodeRule(cs[0], entryPoint, resolve);
      PostOrderRule(cs[1..], entryPoint, resolve);
      assert NodeEntry(cs[0], resolve) in self;
      AllowedConcat(inner, self, entryPoint);
      AllowedConcat(inner + self, PostOrder(cs[1..], resolve), entryPoint);
    }
  }

  /** The flat searches accept a trace exactly when every call of its forest obeys the rules. */
  lemma {:induction false} FlatSearchIsTreeRule(cs: seq<Call>, end: CallEvent, entryPoint: Address,
      resolve: Bytes -> Option<string>)
    requires end.Exit?
    ensures CallsAllowed(Parsed(Printed(cs), resolve), entryPoint) <==> AllCalls(cs, c => NodeAllowed(c, entryPoint, resolve))
    ensures CallsAllowed(Parsed(Printed(cs) + [end], resolve), entryPoint) <==>
      AllCalls(cs, c => NodeAllowed(c, entryPoint, resolve))
  {
    ParsedIsPostOrder(cs, end, resolve);
    PostOrderRule(cs, entryPoint, resolve);
    AllowedConcat(PostOrder(cs, resolve), [TopEntry(end)], entryPoint);
    assert CallsAllowed([TopEntry(end)], entryPoint);
  }
}
