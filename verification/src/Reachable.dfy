/** What holds in every state that a run goes through, inside nested calls too, whether those
    calls are committed or rolled back later. */
module Reachable {
  import opened Overflow
  import opened Types
  import opened Sums
  import opened Ledger
  import opened Frame
  import opened Calls
  import opened Conservation
  import opened Traces
  import opened GasIdentity
  import opened AsyncCost
  import opened CrossShard

  // ----- value is conserved in every state -----

  ghost predicate AllConserve(w: World, accounts: Accounts, events: seq<Event>) {
    forall i :: 0 <= i < |events| ==> Conserves(w, accounts, events[i].state.out.accounts)
  }

  lemma ConserveFrom(w: World, a: Accounts, b: Accounts, events: seq<Event>)
    requires Conserves(w, a, b) && AllConserve(w, b, events)
    ensures AllConserve(w, a, events)
  {
    forall i | 0 <= i < |events|
      ensures Conserves(w, a, events[i].state.out.accounts)
    {
      ConservesTransitive(w, a, b, events[i].state.out.accounts);
    }
  }

  lemma BothConserve(w: World, accounts: Accounts, left: seq<Event>, right: seq<Event>)
    requires AllConserve(w, accounts, left) && AllConserve(w, accounts, right)
    ensures AllConserve(w, accounts, left + right)
  {
  }

  /** Every state of the run, at every depth, extends the starting ledger, has the same total of
      balance deltas, and overdraws no account. */
  lemma {:induction false} TraceConserves(w: World, depth: nat, a: Active, p: Program)
    ensures AllConserve(w, a.out.accounts, Trace(w, depth, a, p))
    decreases p
  {
    ConservesSelf(w, a.out.accounts);
    match p
    case Step(act, rest) =>
      var b := Do(w, depth, a, act);
      TraceActionConserves(w, depth, a, act);
      DoEvolves(w, depth, a, act);
      TraceConserves(w, depth, b, rest);
      ConserveFrom(w, a.out.accounts, b.out.accounts, Trace(w, depth, b, rest));
    case End(e) =>
      if e.AsyncCall? {
        TraceAsyncConserves(w, depth, a, e);
      }
  }

  lemma {:induction false} TraceActionConserves(w: World, depth: nat, a: Active, act: Action)
    ensures AllConserve(w, a.out.accounts, TraceAction(w, depth, a, act))
    decreases act
  {
    if MakesCall(w, a, act) {
      TraceCallConserves(w, depth, ActionFrom(a, act), ActionInput(a, act), act.callee, act.CallSame?);
    }
  }

  lemma {:induction false} TraceCallConserves(
    w: World, depth: nat, a: Active, input: CallInput, c: Contract, shared: bool)
    ensures AllConserve(w, a.out.accounts, TraceCall(w, depth, a, input, c, shared))
    decreases c, 1
  {
    hide Conserves, TraceExecute, Paid, CallExecution, TraceEnd;
    var pay, e := Paid(w, a, input, shared), CallExecution(w, depth, a, input, c, shared);
    ConservesSelf(w, a.out.accounts);
    PaidEvolves(w, a, input, shared);
    CallExecutionEvolves(w, depth, a, input, c, shared);
    var inside := if pay.err.None? then TraceExecute(w, depth + 1, pay.state, input, c) else [];
    if pay.err.None? {
      TraceExecuteConserves(w, depth + 1, pay.state, input, c);
      ConserveFrom(w, a.out.accounts, pay.state.out.accounts, inside);
    }
    TraceEndConserves(w, e, shared);
    ConserveFrom(w, a.out.accounts, e.state.out.accounts, TraceEnd(w, e, shared));
    BothConserve(w, a.out.accounts, [Seen(Entered(a, input, shared)), Seen(pay.state)], inside);
    BothConserve(w, a.out.accounts, [Seen(Entered(a, input, shared)), Seen(pay.state)] + inside,
                 TraceEnd(w, e, shared));
  }

  lemma TraceEndConserves(w: World, e: Execution, shared: bool)
    ensures AllConserve(w, e.state.out.accounts, TraceEnd(w, e, shared))
  {
    hide Conserves, GetVMOutput, CreateErrorOutput;
    ConservesSelf(w, e.state.out.accounts);
    if e.err.None? {
      GetVMOutputEvolves(w, e.state);
    } else {
      ErrorOutputEvolves(w, e.state, e.err.value);
    }
  }

  lemma {:induction false} TraceExecuteConserves(w: World, depth: nat, a: Active, input: CallInput, c: Contract)
    ensures AllConserve(w, a.out.accounts, TraceExecute(w, depth, a, input, c))
    decreases c, 0
  {
    hide Conserves, Prepare;
    var p := Prepare(w, depth, a, input, c.starts);
    PrepareEvolves(w, depth, a, input, c.starts);
    if p.err.None? && c.entry.Found? {
      TraceConserves(w, depth, p.state, c.body);
      ConserveFrom(w, a.out.accounts, p.state.out.accounts, Trace(w, depth, p.state, c.body));
    }
  }

  lemma AsyncStartEvolves(w: World, a: Active, e: Ending)
    requires e.AsyncCall?
    ensures Conserves(w, a.out.accounts, AsyncStart(w, a, e).state.out.accounts)
  {
    var l := LockGas(w, a, e.destination, e.data, e.value, e.hasCallback);
    LockGasEvolves(w, a, e.destination, e.data, e.value, e.hasCallback);
    EnsureConserves(w, l.state.out.accounts, e.destination);
    ConservesTransitive(w, a.out.accounts, l.state.out.accounts, Ensure(l.state.out.accounts, e.destination));
  }

  lemma {:induction false} TraceAsyncConserves(w: World, depth: nat, a: Active, e: Ending)
    requires e.AsyncCall?
    ensures AllConserve(w, a.out.accounts, TraceAsync(w, depth, a, e))
    decreases e, 1
  {
    hide Conserves, AsyncStart, TraceLegs, SendAsync, GetCode;
    var s := AsyncStart(w, a, e);
    AsyncStartEvolves(w, a, e);
    if s.err.None? && s.state.rt.asyncInfo.Some? {
      var info := s.state.rt.asyncInfo.value;
      if GetCode(w, e.destination).err.Some? {
        SendAsyncEvolves(w, s.state, info);
        ConservesTransitive(w, a.out.accounts, s.state.out.accounts, SendAsync(w, s.state, info).state.out.accounts);
      } else {
        TraceLegsConserve(w, depth, s.state, info, e);
        ConserveFrom(w, a.out.accounts, s.state.out.accounts, TraceLegs(w, depth, s.state, info, e));
      }
    }
  }

  lemma {:induction false} TraceLegsConserve(w: World, depth: nat, a: Active, info: AsyncCallInfo, e: Ending)
    requires e.AsyncCall?
    ensures AllConserve(w, a.out.accounts, TraceLegs(w, depth, a, info, e))
    decreases e, 0
  {
    hide Conserves, TraceCall, Dest, CallBack, TraceCallback;
    var input := DestinationInput(a, info, e.name);
    var o := Dest(w, depth, a, input, e.callee);
    TraceCallConserves(w, depth, a, input, e.callee, false);
    DestEvolves(w, depth, a, input, e.callee);
    TraceCallbackConserves(w, depth, o, info, e);
    CallBackEvolves(w, depth, o, info, e);
    ConserveFrom(w, a.out.accounts, o.state.out.accounts, TraceCallback(w, depth, o, info, e));
    ConservesTransitive(w, a.out.accounts, o.state.out.accounts, CallBack(w, depth, o, info, e).out.accounts);
  }

  lemma {:induction false} TraceCallbackConserves(w: World, depth: nat, o: Outcome, info: AsyncCallInfo, e: Ending)
    requires e.AsyncCall?
    ensures AllConserve(w, o.state.out.accounts, TraceCallback(w, depth, o, info, e))
    decreases e.callback, 2
  {
    hide Conserves, TraceCall, Dest, CallbackGas, CallbackCost, CreateErrorOutput;
    if CallbackGas(o, info) <= CallbackCost(w, o) {
      ErrorOutputEvolves(w, o.state, ErrNotEnoughGas);
    } else {
      var back := RestoreGas(o.state, info.gasLocked);
      var input := CallbackInput(w, back, info, o);
      ConservesSelf(w, o.state.out.accounts);
      TraceCallConserves(w, depth, back, input, e.callback, false);
      DestEvolves(w, depth, back, input, e.callback);
    }
  }

  // ----- the gas check at every depth, for every tree -----

  /** At every frame end, the runtime accepts the frame exactly when `Accepted` says so. */
  ghost predicate AllChecked(w: World, events: seq<Event>) {
    forall i :: 0 <= i < |events| && events[i].Closing? ==>
      (GetVMOutput(w, events[i].state).vm.code == Ok <==> Accepted(events[i].state))
  }

  lemma BothChecked(w: World, left: seq<Event>, right: seq<Event>)
    requires AllChecked(w, left) && AllChecked(w, right)
    ensures AllChecked(w, left + right)
  {
  }

  /** For every tree: with gas-carrying transfers, cross-shard calls, callees that share their
      caller's context and overspend, or anything else. */
  lemma {:induction false} TraceChecked(w: World, depth: nat, a: Active, p: Program)
    requires a.meter.forExecution <= MAX_INT64
    ensures AllChecked(w, Trace(w, depth, a, p))
    decreases p
  {
    hide GetVMOutput, Accepted, TraceAction, TraceAsync, Do, AllChecked;
    NothingClosing(w, [Seen(a)]);
    match p
    case Step(act, rest) =>
      var b := Do(w, depth, a, act);
      TraceActionChecked(w, depth, a, act);
      DoEvolves(w, depth, a, act);
      TraceChecked(w, depth, b, rest);
      BothChecked(w, TraceAction(w, depth, a, act), Trace(w, depth, b, rest));
      BothChecked(w, [Seen(a)], TraceAction(w, depth, a, act) + Trace(w, depth, b, rest));
    case End(e) =>
      if e.AsyncCall? {
        TraceAsyncChecked(w, depth, a, e);
        BothChecked(w, [Seen(a)], TraceAsync(w, depth, a, e));
      } else {
        assert [Seen(a)] + [] == [Seen(a)];
      }
  }

  lemma NothingClosing(w: World, events: seq<Event>)
    requires forall i :: 0 <= i < |events| ==> events[i].Seen?
    ensures AllChecked(w, events) && AllBalanced(w, events)
  {
  }

  lemma {:induction false} TraceActionChecked(w: World, depth: nat, a: Active, act: Action)
    requires a.meter.forExecution <= MAX_INT64
    ensures AllChecked(w, TraceAction(w, depth, a, act))
    decreases act
  {
    hide GetVMOutput, Accepted, TraceCall;
    if MakesCall(w, a, act) {
      TraceCallChecked(w, depth, ActionFrom(a, act), ActionInput(a, act), act.callee, act.CallSame?);
    }
  }

  lemma {:induction false} TraceCallChecked(
    w: World, depth: nat, a: Active, input: CallInput, c: Contract, shared: bool)
    requires Visible(input.vm)
    ensures AllChecked(w, TraceCall(w, depth, a, input, c, shared))
    decreases c, 1
  {
    hide GetVMOutput, Accepted, TraceExecute, Entered, Paid, CallExecution, AllChecked, TraceEnd;
    var pay, e := Paid(w, a, input, shared), CallExecution(w, depth, a, input, c, shared);
    var start := [Seen(Entered(a, input, shared)), Seen(pay.state)];
    var inside := if pay.err.None? then TraceExecute(w, depth + 1, pay.state, input, c) else [];
    NothingClosing(w, start);
    NothingClosing(w, []);
    PaidFrame(w, a, input, shared);
    if pay.err.None? {
      TraceExecuteChecked(w, depth + 1, pay.state, input, c);
    }
    EndMetered(w, depth, a, input, c, shared);
    EndChecked(w, e, shared);
    BothChecked(w, start, inside);
    BothChecked(w, start + inside, TraceEnd(w, e, shared));
  }

  lemma EndChecked(w: World, e: Execution, shared: bool)
    requires e.err.None? ==> Metered(e.state) && e.state.out.code == Ok
    ensures AllChecked(w, TraceEnd(w, e, shared))
  {
    hide CloseGas, Accepted, Metered, GasMatches;
    if e.err.None? {
      AcceptedExactly(e.state);
      CloseGasCode(e.state);
    }
  }

  lemma {:induction false} TraceExecuteChecked(w: World, depth: nat, a: Active, input: CallInput, c: Contract)
    requires a.meter == InitMeter(input.vm) && a.rt.input == input.vm && Visible(input.vm)
    ensures AllChecked(w, TraceExecute(w, depth, a, input, c))
    decreases c, 0
  {
    hide GetVMOutput, Accepted, AllChecked, Prepare, Trace;
    var p := Prepare(w, depth, a, input, c.starts);
    NothingClosing(w, [Seen(p.state)]);
    PreparedVisible(w, depth, a, input, c.starts);
    if p.err.None? && c.entry.Found? {
      TraceChecked(w, depth, p.state, c.body);
      BothChecked(w, [Seen(p.state)], Trace(w, depth, p.state, c.body));
    } else {
      assert [Seen(p.state)] + [] == [Seen(p.state)];
    }
  }

  lemma {:induction false} TraceAsyncChecked(w: World, depth: nat, a: Active, e: Ending)
    requires e.AsyncCall? && a.meter.forExecution <= MAX_INT64
    ensures AllChecked(w, TraceAsync(w, depth, a, e))
    decreases e, 1
  {
    hide GetVMOutput, Accepted, AsyncStart, TraceLegs, SendAsync, GetCode, AllChecked;
    var s := AsyncStart(w, a, e);
    NothingClosing(w, [Seen(s.state)]);
    StartAfterLock(w, a, e);
    if s.err.None? {
      var info := s.state.rt.asyncInfo.value;
      NothingClosing(w, [Seen(SendAsync(w, s.state, info).state)]);
      TraceLegsChecked(w, depth, a, e);
      BothChecked(w, [Seen(s.state)], [Seen(SendAsync(w, s.state, info).state)]);
      BothChecked(w, [Seen(s.state)], TraceLegs(w, depth, s.state, info, e));
    } else {
      assert [Seen(s.state)] + [] == [Seen(s.state)];
    }
  }

  lemma {:induction false} TraceLegsChecked(w: World, depth: nat, a: Active, e: Ending)
    requires e.AsyncCall? && a.meter.forExecution <= MAX_INT64
    requires AsyncStart(w, a, e).err.None? && AsyncStart(w, a, e).state.rt.asyncInfo.Some?
    ensures var s := AsyncStart(w, a, e).state; AllChecked(w, TraceLegs(w, depth, s, s.rt.asyncInfo.value, e))
    decreases e, 0
  {
    hide GetVMOutput, Accepted, AsyncStart, TraceCall, Dest, CallBack, AllChecked;
    var s := AsyncStart(w, a, e).state;
    var info := s.rt.asyncInfo.value;
    var input := DestinationInput(s, info, e.name);
    var o := Dest(w, depth, s, input, e.callee);
    StartAfterLock(w, a, e);
    CallbackWithinGasLeft(w, depth, a, e);
    TraceCallChecked(w, depth, s, input, e.callee, false);
    var first, second, last := TraceCall(w, depth, s, input, e.callee, false), TraceCallback(w, depth, o, info, e),
      [Seen(CallBack(w, depth, o, info, e))];
    NothingClosing(w, [Seen(o.state)]);
    NothingClosing(w, last);
    TraceCallbackChecked(w, depth, o, info, e);
    BothChecked(w, first, [Seen(o.state)]);
    BothChecked(w, first + [Seen(o.state)], second);
    BothChecked(w, first + [Seen(o.state)] + second, last);
  }

  lemma {:induction false} TraceCallbackChecked(w: World, depth: nat, o: Outcome, info: AsyncCallInfo, e: Ending)
    requires e.AsyncCall?
    requires CallbackGas(o, info) > CallbackCost(w, o) ==> CallbackGas(o, info) - CallbackCost(w, o) <= MAX_INT64
    ensures AllChecked(w, TraceCallback(w, depth, o, info, e))
    decreases e.callback, 2
  {
    hide GetVMOutput, Accepted, TraceCall, Dest, AllChecked, CreateErrorOutput, CallbackGas, CallbackCost;
    if CallbackGas(o, info) <= CallbackCost(w, o) {
      NothingClosing(w, [Seen(CreateErrorOutput(w, o.state, ErrNotEnoughGas).state)]);
    } else {
      var back := RestoreGas(o.state, info.gasLocked);
      var input := CallbackInput(w, back, info, o);
      var last := [Seen(Dest(w, depth, back, input, e.callback).state)];
      TraceCallChecked(w, depth, back, input, e.callback, false);
      NothingClosing(w, [Seen(back)]);
      NothingClosing(w, last);
      BothChecked(w, [Seen(back)], TraceCall(w, depth, back, input, e.callback, false));
      BothChecked(w, [Seen(back)] + TraceCall(w, depth, back, input, e.callback, false), last);
    }
  }

  // ----- the gas identity at every depth -----

  /** At every frame end the check accepts exactly the frames within their execution gas, and
      then the accounts and the remaining gas add up to what the frame was given. */
  ghost predicate Balanced(w: World, a: Active) {
    && (GetVMOutput(w, a).vm.code == Ok <==> a.points <= a.meter.forExecution)
    && (a.points <= a.meter.forExecution ==>
          var vm := GetVMOutput(w, a).vm;
          SumMap(ReportedGas(vm.accounts)) + vm.gasRemaining == a.meter.provided)
  }

  ghost predicate AllBalanced(w: World, events: seq<Event>) {
    forall i :: 0 <= i < |events| && events[i].Closing? ==> Balanced(w, events[i].state)
  }

  lemma BothBalanced(w: World, left: seq<Event>, right: seq<Event>)
    requires AllBalanced(w, left) && AllBalanced(w, right)
    ensures AllBalanced(w, left + right)
  {
  }

  /** In trees without gas-carrying transfers, as long as no callee overspends in its caller's
      context. */
  lemma {:induction false} TraceBalances(w: World, depth: nat, a: Active, p: Program)
    requires GasInvariant(a) && GasFree(w, p) && SharedWithin(Trace(w, depth, a, p))
    ensures AllBalanced(w, Trace(w, depth, a, p))
    decreases p
  {
    hide Balanced, TraceAction, TraceAsync, Do, AllBalanced, GasInvariant, SharedWithin;
    NothingClosing(w, [Seen(a)]);
    match p
    case Step(act, rest) =>
      var b := Do(w, depth, a, act);
      StepWithin(w, depth, a, p);
      TraceActionBalances(w, depth, a, act);
      ActionGas(w, depth, a, act);
      TraceBalances(w, depth, b, rest);
      BothBalanced(w, TraceAction(w, depth, a, act), Trace(w, depth, b, rest));
      BothBalanced(w, [Seen(a)], TraceAction(w, depth, a, act) + Trace(w, depth, b, rest));
    case End(e) =>
      if e.AsyncCall? {
        EndWithin(w, depth, a, e);
        TraceAsyncBalances(w, depth, a, e);
        BothBalanced(w, [Seen(a)], TraceAsync(w, depth, a, e));
      } else {
        assert [Seen(a)] + [] == [Seen(a)];
      }
  }

  lemma {:induction false} TraceActionBalances(w: World, depth: nat, a: Active, act: Action)
    requires GasInvariant(a) && GasFreeAction(w, act) && SharedWithin(TraceAction(w, depth, a, act))
    ensures AllBalanced(w, TraceAction(w, depth, a, act))
    decreases act
  {
    hide Balanced, TraceCall, SharedWithin;
    if MakesCall(w, a, act) {
      TraceCallBalances(w, depth, ActionFrom(a, act), ActionInput(a, act), act.callee, act.CallSame?);
    }
  }

  lemma EndBalanced(w: World, depth: nat, a: Active, input: CallInput, c: Contract, shared: bool)
    requires GasInvariant(a) && Covered(a, input) && GasFree(w, c.body)
    requires SharedWithin(TraceCall(w, depth, a, input, c, shared))
    ensures AllBalanced(w, TraceEnd(w, CallExecution(w, depth, a, input, c, shared), shared))
  {
    hide GasFree, SharedWithin, TraceCall, CallExecution, GetVMOutput, InnerGas, OwnGas, StartOf, CloseGas,
      NoTransferGas;
    FrameGas(w, depth, a, input, c, shared);
    ExecutionCode(w, depth, a, input, c, shared);
    var e := CallExecution(w, depth, a, input, c, shared);
    if e.err.None? {
      CheckGasUnlocked(w, e.state);
    }
  }

  lemma {:induction false} TraceCallBalances(
    w: World, depth: nat, a: Active, input: CallInput, c: Contract, shared: bool)
    requires GasInvariant(a) && Covered(a, input) && GasFree(w, c.body)
    requires SharedWithin(TraceCall(w, depth, a, input, c, shared))
    ensures AllBalanced(w, TraceCall(w, depth, a, input, c, shared))
    decreases c, 1
  {
    hide Balanced, TraceExecute, Entered, Paid, GetVMOutput, CallExecution, GasFree, AllBalanced, SharedWithin,
      TraceEnd, NoTransferGas;
    var pay, e := Paid(w, a, input, shared), CallExecution(w, depth, a, input, c, shared);
    var start := [Seen(Entered(a, input, shared)), Seen(pay.state)];
    var inside := if pay.err.None? then TraceExecute(w, depth + 1, pay.state, input, c) else [];
    PaidFrame(w, a, input, shared);
    CoveredFits(a, input);
    CallWithin(w, depth, a, input, c, shared);
    NothingClosing(w, start);
    NothingClosing(w, []);
    if pay.err.None? {
      TraceExecuteBalances(w, depth + 1, pay.state, input, c);
    }
    EndBalanced(w, depth, a, input, c, shared);
    BothBalanced(w, start, inside);
    BothBalanced(w, start + inside, TraceEnd(w, e, shared));
  }

  lemma {:induction false} TraceExecuteBalances(w: World, depth: nat, a: Active, input: CallInput, c: Contract)
    requires GasFree(w, c.body) && SharedWithin(TraceExecute(w, depth, a, input, c))
    requires a.meter == InitMeter(input.vm) && a.rt.input == input.vm
             && ProvidedGas(input.vm) == input.vm.gasProvided <= MAX_INT64
    requires NoTransferGas(a.out.accounts) && a.points + input.vm.gasProvided <= MAX_INT64
    ensures AllBalanced(w, TraceExecute(w, depth, a, input, c))
    decreases c, 0
  {
    hide Balanced, Trace, NoTransferGas, Run, GasFree, SharedWithin, AllBalanced, Prepare;
    PreparedFrame(w, depth, a, input, c.starts);
    var p := Prepare(w, depth, a, input, c.starts);
    NothingClosing(w, [Seen(p.state)]);
    if p.err.None? && c.entry.Found? {
      ExecuteWithin(w, depth, a, input, c);
      TraceBalances(w, depth, p.state, c.body);
      BothBalanced(w, [Seen(p.state)], Trace(w, depth, p.state, c.body));
    } else {
      assert [Seen(p.state)] + [] == [Seen(p.state)];
    }
  }

  lemma {:induction false} TraceAsyncBalances(w: World, depth: nat, a: Active, e: Ending)
    requires e.AsyncCall? && GasInvariant(a) && GasFree(w, End(e)) && SharedWithin(TraceAsync(w, depth, a, e))
    ensures AllBalanced(w, TraceAsync(w, depth, a, e))
    decreases e, 1
  {
    hide AsyncStart, TraceLegs, Balanced, GetCode, SendAsync, NoTransferGas, SharedWithin;
    var s := AsyncStart(w, a, e);
    LockedGas(w, a, e);
    BurnsAccounted(a, s.state);
    if s.err.None? {
      AsyncWithin(w, depth, a, e);
      TraceLegsBalance(w, depth, a, s.state, s.state.rt.asyncInfo.value, e);
      BothBalanced(w, [Seen(s.state)], TraceLegs(w, depth, s.state, s.state.rt.asyncInfo.value, e));
    }
  }

  lemma {:induction false} TraceLegsBalance(w: World, depth: nat, a: Active, a1: Active, info: AsyncCallInfo, e: Ending)
    requires e.AsyncCall? && GasInvariant(a) && GasInvariant(a1) && GasFree(w, End(e))
    requires a1.meter == a.meter && a1.points <= a1.meter.forExecution
    requires a1.points == a.points + w.schedule.asyncCallStep + info.gasLocked
    requires SharedWithin(TraceLegs(w, depth, a1, info, e))
    ensures AllBalanced(w, TraceLegs(w, depth, a1, info, e))
    decreases e, 0
  {
    hide Balanced, TraceCall, Dest, CallBack, GasInvariant, Accounted, SharedWithin, CallbackGas, CallbackCost,
      AllBalanced, TraceCallback, CallLocally;
    var input := DestinationInput(a1, info, e.name);
    var o := Dest(w, depth, a1, input, e.callee);
    var first, second, last := TraceCall(w, depth, a1, input, e.callee, false), TraceCallback(w, depth, o, info, e),
      [Seen(CallBack(w, depth, o, info, e))];
    LegsWithin(w, depth, a1, info, e);
    TraceCallBalances(w, depth, a1, input, e.callee, false);
    LocalGas(w, depth, a, a1, info, e);
    TraceCallbackBalances(w, depth, o, info, e);
    NothingClosing(w, [Seen(o.state)]);
    NothingClosing(w, last);
    BothBalanced(w, first, [Seen(o.state)]);
    BothBalanced(w, first + [Seen(o.state)], second);
    BothBalanced(w, first + [Seen(o.state)] + second, last);
  }

  lemma {:induction false} TraceCallbackBalances(w: World, depth: nat, o: Outcome, info: AsyncCallInfo, e: Ending)
    requires e.AsyncCall? && GasFree(w, e.callback.body)
    requires CallbackGas(o, info) > CallbackCost(w, o) ==>
               var back := RestoreGas(o.state, info.gasLocked);
               var input := CallbackInput(w, back, info, o);
               GasInvariant(back) && Covered(back, input)
                 && SharedWithin(TraceCall(w, depth, back, input, e.callback, false))
    ensures AllBalanced(w, TraceCallback(w, depth, o, info, e))
    decreases e.callback, 2
  {
    hide Balanced, TraceCall, Dest, GasInvariant, Covered, SharedWithin, CallbackGas, CallbackCost, AllBalanced,
      CreateErrorOutput, GasFree;
    if CallbackGas(o, info) <= CallbackCost(w, o) {
      NothingClosing(w, [Seen(CreateErrorOutput(w, o.state, ErrNotEnoughGas).state)]);
    } else {
      var back := RestoreGas(o.state, info.gasLocked);
      var input := CallbackInput(w, back, info, o);
      var last := [Seen(Dest(w, depth, back, input, e.callback).state)];
      TraceCallBalances(w, depth, back, input, e.callback, false);
      NothingClosing(w, [Seen(back)]);
      NothingClosing(w, last);
      BothBalanced(w, [Seen(back)], TraceCall(w, depth, back, input, e.callback, false));
      BothBalanced(w, [Seen(back)] + TraceCall(w, depth, back, input, e.callback, false), last);
    }
  }
}
