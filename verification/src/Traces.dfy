/** All states a run goes through, inside nested calls too, whether those calls are committed
    or rolled back later; and nested calls of both kinds under one name. */
module Traces {
  import opened Types
  import opened Ledger
  import opened Frame
  import opened Calls
  import opened Conservation

  // ----- nested calls of both kinds -----

  /** The contexts a callee finds: `shared` when it runs in its caller's context. */
  function Entered(a: Active, input: CallInput, shared: bool): Active {
    if shared then EnterSame(a, input) else Enter(a, input)
  }

  /** The callee's contexts after it has been paid. */
  function Paid(w: World, a: Active, input: CallInput, shared: bool): Attempt {
    if shared then TransferValueOnly(w, EnterSame(a, input), input.recipient, input.vm.caller, input.vm.value, false)
    else PayCall(w, Enter(a, input), input)
  }

  /** The callee from its entry to its end. */
  ghost function CallExecution(
    w: World, depth: nat, a: Active, input: CallInput, c: Contract, shared: bool): Execution {
    if shared then SameExecution(w, depth, a, input, c) else DestExecution(w, depth, a, input, c)
  }

  /** What the call leaves to its caller; the error is None exactly for a committed call. */
  ghost function Call(w: World, depth: nat, a: Active, input: CallInput, c: Contract, shared: bool): Attempt {
    if shared then Same(w, depth, a, input, c)
    else
      var o := Dest(w, depth, a, input, c);
      Attempt(o.state, o.err)
  }

  lemma CallExecutionIs(w: World, depth: nat, a: Active, input: CallInput, c: Contract, shared: bool)
    ensures var pay := Paid(w, a, input, shared);
            CallExecution(w, depth, a, input, c, shared) ==
            if pay.err.Some? then Execution(a.points, pay.state, pay.err)
              else Execute(w, depth + 1, pay.state, input, c)
  {
  }

  lemma {:induction false} CallExecutionEvolves(
    w: World, depth: nat, a: Active, input: CallInput, c: Contract, shared: bool)
    ensures LedgerEvolves(w, Entered(a, input, shared), CallExecution(w, depth, a, input, c, shared).state)
  {
    if shared {
      SameExecutionEvolves(w, depth, a, input, c);
    } else {
      DestExecutionEvolves(w, depth, a, input, c);
    }
  }

  lemma PaidEvolves(w: World, a: Active, input: CallInput, shared: bool)
    ensures LedgerEvolves(w, Entered(a, input, shared), Paid(w, a, input, shared).state)
  {
    if shared {
      TransferValueEvolves(w, EnterSame(a, input), input.recipient, input.vm.caller, input.vm.value, false);
    } else {
      PayCallEvolves(w, Enter(a, input), input);
    }
  }

  lemma CallEvolves(w: World, depth: nat, a: Active, input: CallInput, c: Contract, shared: bool)
    ensures Evolves(w, a, Call(w, depth, a, input, c, shared).state)
  {
    if shared {
      SameEvolves(w, depth, a, input, c);
    } else {
      DestEvolves(w, depth, a, input, c);
    }
  }

  lemma ExecutionCode(w: World, depth: nat, a: Active, input: CallInput, c: Contract, shared: bool)
    ensures var e := CallExecution(w, depth, a, input, c, shared); e.err.None? ==> e.state.out.code == Ok
  {
    hide Prepare, Run, Paid;
    CallExecutionIs(w, depth, a, input, c, shared);
  }

  lemma SameErr(w: World, depth: nat, a: Active, input: CallInput, c: Contract)
    ensures Same(w, depth, a, input, c).err == SameExecution(w, depth, a, input, c).err
  {
    hide Execute, TransferValueOnly, GetVMOutput;
    ExecutionCode(w, depth, a, input, c, true);
  }

  // ----- the calls a run makes -----

  predicate MakesCall(w: World, a: Active, act: Action) {
    (act.CallDest? || act.CallSame?) && SameShard(w, a.rt.scAddress, act.destination)
  }

  function ActionInput(a: Active, act: Action): CallInput
    requires act.CallDest? || act.CallSame?
  {
    var sender := if act.CallDest? && act.byCaller then a.rt.input.caller else a.rt.scAddress;
    IndirectInput(a, sender, act.value, act.gasLimit, act.destination, act.name)
  }

  /** A read-only call sets the flag first. */
  function ActionFrom(a: Active, act: Action): Active {
    if act.CallSame? && act.asReadOnly then a.(rt := a.rt.(readOnly := true)) else a
  }

  lemma DoesCall(w: World, depth: nat, a: Active, act: Action)
    requires MakesCall(w, a, act)
    ensures var b := Call(w, depth, ActionFrom(a, act), ActionInput(a, act), act.callee, act.CallSame?).state;
            Do(w, depth, a, act) == if act.CallSame? && act.asReadOnly then b.(rt := b.rt.(readOnly := false)) else b
  {
    hide Dest, Same, BoundGasLimit;
  }

  lemma DoesNotCall(w: World, depth: nat, a: Active, act: Action)
    requires (act.CallDest? || act.CallSame?) && !MakesCall(w, a, act)
    ensures Do(w, depth, a, act) == RefuseCall(w, a)
  {
  }

  /** The state in which the destination of a local asynchronous call is entered. */
  function AsyncStart(w: World, a: Active, e: Ending): Attempt
    requires e.AsyncCall?
  {
    var l := LockGas(w, a, e.destination, e.data, e.value, e.hasCallback);
    if l.err.Some? then l
    else if !e.parses then Attempt(l.state, Some(ErrCallDataParser))
    else Attempt(SetAccounts(l.state, Ensure(l.state.out.accounts, e.destination)), None)
  }

  /** An asynchronous call leaves the shard exactly when its destination has no code here. */
  lemma AsyncIs(w: World, depth: nat, a: Active, e: Ending)
    requires e.AsyncCall?
    ensures var s := AsyncStart(w, a, e);
            if s.err.Some? then RunAsync(w, depth, a, e) == s
            else
            && s.state.rt.asyncInfo.Some?
            && var info := s.state.rt.asyncInfo.value;
               && info.destination == e.destination && info.gasLimit == GasLeft(s.state)
               && s.state.out.code == a.out.code && s.state.rt.scAddress == a.rt.scAddress
               && RunAsync(w, depth, a, e) ==
                  if GetCode(w, e.destination).err.None? then Attempt(CallLocally(w, depth, s.state, info, e), None)
                  else SendAsync(w, s.state, info)
  {
    hide SendAsync, CallLocally, GetCode;
  }

  lemma CallsLocally(w: World, depth: nat, a: Active, info: AsyncCallInfo, e: Ending)
    requires e.AsyncCall?
    ensures var o := Dest(w, depth, a, DestinationInput(a, info, e.name), e.callee);
            CallLocally(w, depth, a, info, e) ==
            if CallbackGas(o, info) <= CallbackCost(w, o) then
              var failed := CreateErrorOutput(w, o.state, ErrNotEnoughGas);
              ReportCallback(w, failed.state, failed.vm)
            else
              var back := RestoreGas(o.state, info.gasLocked);
              var cb := Dest(w, depth, back, CallbackInput(w, back, info, o), e.callback);
              if cb.err.None? then cb.state else ReportCallback(w, cb.state, cb.vm)
  {
    hide Dest, CallbackGas, CallbackCost, CreateErrorOutput, RestoreGas, ReportCallback;
  }

  // ----- traces -----

  /** `Closing` marks the end of a nested frame that ran without error, where the runtime is
      about to check its gas. */
  datatype Event = Seen(state: Active) | Closing(state: Active, shared: bool)

  ghost function Trace(w: World, depth: nat, a: Active, p: Program): seq<Event>
    decreases p
  {
    [Seen(a)] +
    match p
    case Step(act, rest) => TraceAction(w, depth, a, act) + Trace(w, depth, Do(w, depth, a, act), rest)
    case End(e) => if e.AsyncCall? then TraceAsync(w, depth, a, e) else []
  }

  ghost function TraceAction(w: World, depth: nat, a: Active, act: Action): seq<Event>
    decreases act
  {
    if MakesCall(w, a, act) then TraceCall(w, depth, ActionFrom(a, act), ActionInput(a, act), act.callee, act.CallSame?)
      else []
  }

  ghost function TraceCall(w: World, depth: nat, a: Active, input: CallInput, c: Contract, shared: bool): seq<Event>
    decreases c, 1
  {
    var pay := Paid(w, a, input, shared);
    [Seen(Entered(a, input, shared)), Seen(pay.state)]
    + (if pay.err.None? then TraceExecute(w, depth + 1, pay.state, input, c) else [])
    + TraceEnd(w, CallExecution(w, depth, a, input, c, shared), shared)
  }

  /** The callee's gas is closed, or its failure recorded, before the caller's contexts return. */
  ghost function TraceEnd(w: World, e: Execution, shared: bool): seq<Event> {
    if e.err.None? then [Closing(e.state, shared), Seen(GetVMOutput(w, e.state).state)]
    else if shared then []
    else [Seen(CreateErrorOutput(w, e.state, e.err.value).state)]
  }

  ghost function TraceExecute(w: World, depth: nat, a: Active, input: CallInput, c: Contract): seq<Event>
    decreases c, 0
  {
    var p := Prepare(w, depth, a, input, c.starts);
    [Seen(p.state)] + if p.err.None? && c.entry.Found? then Trace(w, depth, p.state, c.body) else []
  }

  ghost function TraceAsync(w: World, depth: nat, a: Active, e: Ending): seq<Event>
    requires e.AsyncCall?
    decreases e, 1
  {
    var s := AsyncStart(w, a, e);
    [Seen(s.state)] +
    if s.err.Some? || s.state.rt.asyncInfo.None? then [] else
    var info := s.state.rt.asyncInfo.value;
    if GetCode(w, e.destination).err.Some? then [Seen(SendAsync(w, s.state, info).state)]
    else TraceLegs(w, depth, s.state, info, e)
  }

  ghost function TraceLegs(w: World, depth: nat, a: Active, info: AsyncCallInfo, e: Ending): seq<Event>
    requires e.AsyncCall?
    decreases e, 0
  {
    var input := DestinationInput(a, info, e.name);
    var o := Dest(w, depth, a, input, e.callee);
    TraceCall(w, depth, a, input, e.callee, false) + [Seen(o.state)]
    + TraceCallback(w, depth, o, info, e) + [Seen(CallBack(w, depth, o, info, e))]
  }

  ghost function TraceCallback(w: World, depth: nat, o: Outcome, info: AsyncCallInfo, e: Ending): seq<Event>
    requires e.AsyncCall?
    decreases e.callback, 2
  {
    if CallbackGas(o, info) <= CallbackCost(w, o) then [Seen(CreateErrorOutput(w, o.state, ErrNotEnoughGas).state)] else
    var back := RestoreGas(o.state, info.gasLocked);
    var input := CallbackInput(w, back, info, o);
    [Seen(back)] + TraceCall(w, depth, back, input, e.callback, false)
    + [Seen(Dest(w, depth, back, input, e.callback).state)]
  }

  /** A trace ends where the run ends. */
  lemma {:induction false} TraceEnds(w: World, depth: nat, a: Active, p: Program)
    ensures var events := Trace(w, depth, a, p);
            events != [] && events[|events| - 1] == Seen(Run(w, depth, a, p).state)
    decreases p
  {
    match p
    case Step(act, rest) => TraceEnds(w, depth, Do(w, depth, a, act), rest);
    case End(e) =>
      if e.AsyncCall? {
        AsyncTraceEnds(w, depth, a, e);
      }
  }

  lemma AsyncTraceEnds(w: World, depth: nat, a: Active, e: Ending)
    requires e.AsyncCall?
    ensures var events := TraceAsync(w, depth, a, e);
            events != [] && events[|events| - 1] == Seen(RunAsync(w, depth, a, e).state)
  {
    hide TraceCall, TraceCallback, CallBack, Dest, SendAsync;
  }

  // ----- callees that overspend in their caller's context -----

  /** Every callee that ran in its caller's context, and ended without error, stayed within its
      execution gas. */
  ghost predicate SharedWithin(events: seq<Event>) {
    forall i :: 0 <= i < |events| && events[i].Closing? && events[i].shared ==>
      events[i].state.points <= events[i].state.meter.forExecution
  }

  lemma SharedSplit(left: seq<Event>, right: seq<Event>)
    requires SharedWithin(left + right)
    ensures SharedWithin(left) && SharedWithin(right)
  {
    forall i | 0 <= i < |left| && left[i].Closing? && left[i].shared
      ensures left[i].state.points <= left[i].state.meter.forExecution
    {
      assert (left + right)[i] == left[i];
    }
    forall i | 0 <= i < |right| && right[i].Closing? && right[i].shared
      ensures right[i].state.points <= right[i].state.meter.forExecution
    {
      assert (left + right)[|left| + i] == right[i];
    }
  }

  lemma StepWithin(w: World, depth: nat, a: Active, p: Program)
    requires p.Step? && SharedWithin(Trace(w, depth, a, p))
    ensures SharedWithin(TraceAction(w, depth, a, p.action))
    ensures SharedWithin(Trace(w, depth, Do(w, depth, a, p.action), p.rest))
  {
    hide SharedWithin, TraceAction, Do;
    var rest := Trace(w, depth, Do(w, depth, a, p.action), p.rest);
    SharedSplit([Seen(a)], TraceAction(w, depth, a, p.action) + rest);
    SharedSplit(TraceAction(w, depth, a, p.action), rest);
  }

  lemma CallWithin(w: World, depth: nat, a: Active, input: CallInput, c: Contract, shared: bool)
    requires SharedWithin(TraceCall(w, depth, a, input, c, shared))
    ensures Paid(w, a, input, shared).err.None? ==>
              SharedWithin(TraceExecute(w, depth + 1, Paid(w, a, input, shared).state, input, c))
    ensures var e := CallExecution(w, depth, a, input, c, shared);
            shared && e.err.None? ==> e.state.points <= e.state.meter.forExecution
  {
    hide TraceExecute, Paid, CallExecution, GetVMOutput, Entered;
    var pay := Paid(w, a, input, shared);
    var e := CallExecution(w, depth, a, input, c, shared);
    var inside := if pay.err.None? then TraceExecute(w, depth + 1, pay.state, input, c) else [];
    SharedSplit([Seen(Entered(a, input, shared)), Seen(pay.state)] + inside, TraceEnd(w, e, shared));
    SharedSplit([Seen(Entered(a, input, shared)), Seen(pay.state)], inside);
    if shared && e.err.None? {
      assert TraceEnd(w, e, shared)[0] == Closing(e.state, shared);
    }
  }

  lemma ExecuteWithin(w: World, depth: nat, a: Active, input: CallInput, c: Contract)
    requires SharedWithin(TraceExecute(w, depth, a, input, c))
    requires c.entry.Found? && Prepare(w, depth, a, input, c.starts).err.None?
    ensures SharedWithin(Trace(w, depth, Prepare(w, depth, a, input, c.starts).state, c.body))
  {
    hide SharedWithin, Trace, Prepare;
    var p := Prepare(w, depth, a, input, c.starts);
    SharedSplit([Seen(p.state)], Trace(w, depth, p.state, c.body));
  }

  lemma AsyncWithin(w: World, depth: nat, a: Active, e: Ending)
    requires e.AsyncCall? && SharedWithin(TraceAsync(w, depth, a, e)) && GetCode(w, e.destination).err.None?
    requires AsyncStart(w, a, e).err.None? && AsyncStart(w, a, e).state.rt.asyncInfo.Some?
    ensures var s := AsyncStart(w, a, e).state; SharedWithin(TraceLegs(w, depth, s, s.rt.asyncInfo.value, e))
  {
    hide SharedWithin, TraceLegs, AsyncStart, GetCode;
    var s := AsyncStart(w, a, e).state;
    SharedSplit([Seen(s)], TraceLegs(w, depth, s, s.rt.asyncInfo.value, e));
  }

  lemma LegsWithin(w: World, depth: nat, a: Active, info: AsyncCallInfo, e: Ending)
    requires e.AsyncCall? && SharedWithin(TraceLegs(w, depth, a, info, e))
    ensures var input := DestinationInput(a, info, e.name);
            var o := Dest(w, depth, a, input, e.callee);
            && SharedWithin(TraceCall(w, depth, a, input, e.callee, false))
            && (CallbackGas(o, info) > CallbackCost(w, o) ==>
                  var back := RestoreGas(o.state, info.gasLocked);
                  SharedWithin(TraceCall(w, depth, back, CallbackInput(w, back, info, o), e.callback, false)))
  {
    hide SharedWithin, TraceCall, Dest, CallBack, CallbackGas, CallbackCost, RestoreGas;
    var input := DestinationInput(a, info, e.name);
    var o := Dest(w, depth, a, input, e.callee);
    var first, second, last := TraceCall(w, depth, a, input, e.callee, false), TraceCallback(w, depth, o, info, e),
      [Seen(CallBack(w, depth, o, info, e))];
    SharedSplit(first + [Seen(o.state)] + second, last);
    SharedSplit(first + [Seen(o.state)], second);
    SharedSplit(first, [Seen(o.state)]);
    if CallbackGas(o, info) > CallbackCost(w, o) {
      var back := RestoreGas(o.state, info.gasLocked);
      var cbInput := CallbackInput(w, back, info, o);
      var cb := TraceCall(w, depth, back, cbInput, e.callback, false);
      SharedSplit([Seen(back)] + cb, [Seen(Dest(w, depth, back, cbInput, e.callback).state)]);
      SharedSplit([Seen(back)], cb);
    }
  }
}
