/** What asynchronous calls cost: a local call costs its step and what its two legs spend, a
    call to another shard carries all remaining gas away. Holds for arbitrary contracts. */
module AsyncCost {
  import opened Overflow
  import opened Types
  import opened Ledger
  import opened Frame
  import opened Calls
  import opened Conservation
  import opened Traces
  import opened GasIdentity

  // ----- any nested call -----

  lemma PreparedGas(w: World, depth: nat, a: Active, input: CallInput, starts: bool)
    requires a.meter == InitMeter(input.vm) && a.rt.input == input.vm && ProvidedGas(input.vm) == input.vm.gasProvided
    ensures var p := Prepare(w, depth, a, input, starts);
            && p.state.meter.forExecution <= input.vm.gasProvided
            && (p.err.None? ==> p.callerPoints == UseGas(a, input.vm.gasProvided).points)
            && (p.callerPoints == a.points || p.callerPoints == UseGas(a, input.vm.gasProvided).points)
  {
  }

  lemma ExecutedGas(w: World, depth: nat, a: Active, input: CallInput, c: Contract)
    requires a.meter == InitMeter(input.vm) && a.rt.input == input.vm && ProvidedGas(input.vm) == input.vm.gasProvided
    ensures var e := Execute(w, depth, a, input, c);
            && e.state.meter.forExecution <= input.vm.gasProvided
            && (e.err.None? ==> e.callerPoints == UseGas(a, input.vm.gasProvided).points)
            && (e.callerPoints == a.points || e.callerPoints == UseGas(a, input.vm.gasProvided).points)
  {
    PreparedGas(w, depth, a, input, c.starts);
    var p := Prepare(w, depth, a, input, c.starts);
    if p.err.None? && c.entry.Found? {
      RunEvolves(w, depth, p.state, c.body);
    }
  }

  /** What a caller has paid for a callee of either kind by the time it ended. */
  lemma CallerCharged(w: World, depth: nat, a: Active, input: CallInput, c: Contract, shared: bool)
    requires ProvidedGas(input.vm) == input.vm.gasProvided
    ensures var e := CallExecution(w, depth, a, input, c, shared);
            && e.state.meter.forExecution <= input.vm.gasProvided
            && (e.err.None? ==> e.callerPoints == UseGas(a, input.vm.gasProvided).points)
            && (e.callerPoints == a.points || e.callerPoints == UseGas(a, input.vm.gasProvided).points)
  {
    hide CallExecution, Paid, Execute;
    var pay := Paid(w, a, input, shared);
    CallExecutionIs(w, depth, a, input, c, shared);
    PaidFrame(w, a, input, shared);
    if pay.err.None? {
      ExecutedGas(w, depth + 1, pay.state, input, c);
    }
  }

  /** The gas given to a child comes back, less what the child spent; a failed child keeps all
      of it, or was never charged. */
  lemma CallCost(w: World, depth: nat, a: Active, input: CallInput, c: Contract)
    requires Covered(a, input) && a.meter.forExecution <= MAX_INT64
    ensures var o := Dest(w, depth, a, input, c);
            && o.vm.gasRemaining <= input.vm.gasProvided
            && o.state.meter.forExecution == a.meter.forExecution
            && (o.err.None? ==> o.state.points == a.points + input.vm.gasProvided - o.vm.gasRemaining)
            && (o.err.Some? ==> o.vm.gasRemaining == 0
                                && (o.state.points == a.points || o.state.points == a.points + input.vm.gasProvided))
  {
    var e := DestExecution(w, depth, a, input, c);
    var o := Dest(w, depth, a, input, c);
    CallerCharged(w, depth, a, input, c, false);
    DestPoints(w, depth, a, input, c);
    DestEvolves(w, depth, a, input, c);
    ErrorOutputCode(w, depth, a, input, c);
    assert UseGas(a, input.vm.gasProvided).points == a.points + input.vm.gasProvided;
    if o.err.None? {
      OkRemaining(w, e.state);
    }
  }

  lemma OkRemaining(w: World, a: Active)
    requires GetVMOutput(w, a).vm.code == Ok
    ensures GetVMOutput(w, a).vm.gasRemaining == GasLeft(a)
  {
    hide CloseGas, GasMatches, GetVMOutput;
    OkOutputIsState(w, a);
    ClosedRemaining(a);
  }

  // ----- local asynchronous calls -----

  lemma RestoredOnly(a: Active, gas: uint64)
    ensures var b := RestoreGas(a, gas); b == a.(points := b.points)
  {
  }

  /** The two legs of a local asynchronous call, by name. */
  datatype Legs = Legs(
    lock: uint64, destinationGas: uint64, destination: Outcome, affordable: bool, callbackGas: uint64,
    callbackFrom: Active, callback: Outcome)

  ghost function LegsOf(w: World, depth: nat, a: Active, e: Ending): Legs
    requires e.AsyncCall? && AsyncStart(w, a, e).err.None? && AsyncStart(w, a, e).state.rt.asyncInfo.Some?
  {
    var s := AsyncStart(w, a, e).state;
    var info := s.rt.asyncInfo.value;
    var input := DestinationInput(s, info, e.name);
    var o := Dest(w, depth, s, input, e.callee);
    var back := RestoreGas(o.state, info.gasLocked);
    if CallbackGas(o, info) <= CallbackCost(w, o) then Legs(info.gasLocked, input.vm.gasProvided, o, false, 0, back, o)
    else
      var cbInput := CallbackInput(w, back, info, o);
      Legs(info.gasLocked, input.vm.gasProvided, o, true, cbInput.vm.gasProvided, back,
           Dest(w, depth, back, cbInput, e.callback))
  }

  lemma StartAfterLock(w: World, a: Active, e: Ending)
    requires e.AsyncCall? && a.meter.forExecution <= MAX_INT64
    ensures var s := AsyncStart(w, a, e);
            && a.points <= s.state.points && s.state.meter == a.meter
            && (s.err.None? ==>
                  && s.state.rt.asyncInfo.Some?
                  && s.state.points == a.points + w.schedule.asyncCallStep + s.state.rt.asyncInfo.value.gasLocked
                  && s.state.points <= s.state.meter.forExecution)
  {
    hide LockGas;
    LockIs(w, a, e);
  }

  /** On every path the lock is whole again before the callback runs, and the callback is given
      no more gas than the caller has left. */
  lemma CallbackWithinGasLeft(w: World, depth: nat, a: Active, e: Ending)
    requires e.AsyncCall? && a.meter.forExecution <= MAX_INT64
    requires AsyncStart(w, a, e).err.None?
    ensures AsyncStart(w, a, e).state.rt.asyncInfo.Some?
    ensures var l := LegsOf(w, depth, a, e);
            l.affordable ==>
              && l.callbackGas <= GasLeft(l.callbackFrom)
              && l.callbackFrom.points == l.destination.state.points - l.lock
              && l.callbackFrom.meter.forExecution == a.meter.forExecution
  {
    var s := AsyncStart(w, a, e).state;
    StartAfterLock(w, a, e);
    var info := s.rt.asyncInfo.value;
    var input := DestinationInput(s, info, e.name);
    CallCost(w, depth, s, input, e.callee);
    CallbackCovered(w, s, Dest(w, depth, s, input, e.callee), info);
  }

  /** A run whose two legs succeed ends where the callback ends. */
  lemma LegsEndTheRun(w: World, depth: nat, a: Active, e: Ending)
    requires e.AsyncCall? && GetCode(w, e.destination).err.None?
    requires AsyncStart(w, a, e).err.None? && AsyncStart(w, a, e).state.rt.asyncInfo.Some?
    requires LegsOf(w, depth, a, e).affordable && LegsOf(w, depth, a, e).callback.err.None?
    ensures RunAsync(w, depth, a, e) == Attempt(LegsOf(w, depth, a, e).callback.state, None)
  {
    var s := AsyncStart(w, a, e).state;
    var info := s.rt.asyncInfo.value;
    RunsLocally(w, depth, a, e);
    var o := Dest(w, depth, s, DestinationInput(s, info, e.name), e.callee);
    CallsBack(w, depth, o, info, e);
  }

  lemma RunsLocally(w: World, depth: nat, a: Active, e: Ending)
    requires e.AsyncCall? && GetCode(w, e.destination).err.None?
    requires AsyncStart(w, a, e).err.None? && AsyncStart(w, a, e).state.rt.asyncInfo.Some?
    ensures RunAsync(w, depth, a, e) ==
            Attempt(CallLocally(w, depth, AsyncStart(w, a, e).state, AsyncStart(w, a, e).state.rt.asyncInfo.value, e),
                    None)
  {
    var l := LockGas(w, a, e.destination, e.data, e.value, e.hasCallback);
    assert l.err.None? && AsyncStart(w, a, e).state.rt == l.state.rt;
  }

  lemma CallsBack(w: World, depth: nat, o: Outcome, info: AsyncCallInfo, e: Ending)
    requires e.AsyncCall? && CallbackGas(o, info) > CallbackCost(w, o)
    ensures var back := RestoreGas(o.state, info.gasLocked);
            var cb := Dest(w, depth, back, CallbackInput(w, back, info, o), e.callback);
            cb.err.None? ==> CallBack(w, depth, o, info, e) == cb.state
  {
  }

  /** When both legs succeed, the caller pays the step, what the destination spent and what the
      callback spent; the lock is returned whole. */
  lemma LocalCallCost(w: World, depth: nat, a: Active, e: Ending)
    requires e.AsyncCall? && a.meter.forExecution <= MAX_INT64
    requires GetCode(w, e.destination).err.None?
    requires AsyncStart(w, a, e).err.None? && AsyncStart(w, a, e).state.rt.asyncInfo.Some?
    requires var l := LegsOf(w, depth, a, e); l.destination.err.None? && l.affordable && l.callback.err.None?
    ensures var l := LegsOf(w, depth, a, e); var r := RunAsync(w, depth, a, e);
            && r.err.None?
            && l.destination.vm.gasRemaining <= l.destinationGas
            && l.callback.vm.gasRemaining <= l.callbackGas
            && r.state.points == a.points + w.schedule.asyncCallStep
                                 + (l.destinationGas - l.destination.vm.gasRemaining)
                                 + (l.callbackGas - l.callback.vm.gasRemaining)
  {
    LegsEndTheRun(w, depth, a, e);
    FirstLegCost(w, depth, a, e);
    SecondLegCost(w, depth, a, e);
  }

  lemma FirstLegCost(w: World, depth: nat, a: Active, e: Ending)
    requires e.AsyncCall? && a.meter.forExecution <= MAX_INT64
    requires AsyncStart(w, a, e).err.None? && AsyncStart(w, a, e).state.rt.asyncInfo.Some?
    requires LegsOf(w, depth, a, e).destination.err.None? && LegsOf(w, depth, a, e).affordable
    ensures var l := LegsOf(w, depth, a, e);
            && l.destination.vm.gasRemaining <= l.destinationGas
            && l.callbackFrom.points == a.points + w.schedule.asyncCallStep
              + (l.destinationGas - l.destination.vm.gasRemaining)
  {
    var s := AsyncStart(w, a, e).state;
    StartAfterLock(w, a, e);
    CallCost(w, depth, s, DestinationInput(s, s.rt.asyncInfo.value, e.name), e.callee);
    CallbackWithinGasLeft(w, depth, a, e);
  }

  lemma SecondLegCost(w: World, depth: nat, a: Active, e: Ending)
    requires e.AsyncCall? && a.meter.forExecution <= MAX_INT64
    requires AsyncStart(w, a, e).err.None? && AsyncStart(w, a, e).state.rt.asyncInfo.Some?
    requires var l := LegsOf(w, depth, a, e); l.affordable && l.callback.err.None?
    ensures var l := LegsOf(w, depth, a, e);
            && l.callback.vm.gasRemaining <= l.callbackGas
            && l.callback.state.points == l.callbackFrom.points + (l.callbackGas - l.callback.vm.gasRemaining)
  {
    var s := AsyncStart(w, a, e).state;
    var l := LegsOf(w, depth, a, e);
    CallbackWithinGasLeft(w, depth, a, e);
    CallCost(w, depth, l.callbackFrom, CallbackInput(w, l.callbackFrom, s.rt.asyncInfo.value, l.destination),
             e.callback);
  }

  /** The value of the last of some transfers, if that transfer is bare. */
  function BareValue(transfers: seq<OutputTransfer>): int {
    if transfers == [] || transfers[|transfers| - 1].data != [] then 0 else transfers[|transfers| - 1].value
  }

  /** What the destination of a local asynchronous call recorded for its caller. */
  ghost function SentBack(w: World, depth: nat, a: Active, info: AsyncCallInfo, e: Ending): seq<OutputTransfer>
    requires e.AsyncCall?
  {
    var o := Dest(w, depth, a, DestinationInput(a, info, e.name), e.callee);
    var before, after := Account(a.out.accounts, a.rt.scAddress).transfers,
      Account(o.vm.accounts, a.rt.scAddress).transfers;
    if |before| <= |after| then after[|before|..] else []
  }

  /** The value of a callback, in every case: it was moved during the destination call exactly when
      that call recorded a transfer for the caller; otherwise it is that of an earlier one. */
  lemma CallbackValueExactly(w: World, depth: nat, a: Active, info: AsyncCallInfo, e: Ending)
    requires e.AsyncCall?
    ensures var x := a.rt.scAddress;
            var o := Dest(w, depth, a, DestinationInput(a, info, e.name), e.callee);
            var before, sent := Account(a.out.accounts, x).transfers, SentBack(w, depth, a, info, e);
            && (o.err.None? ==> Account(o.vm.accounts, x).transfers == before + sent)
            && CallbackValue(o, x) == if o.err.Some? || o.vm.returnData != [] then 0
                                      else if sent != [] then BareValue(sent) else BareValue(before)
  {
    hide Dest, DestOutput;
    var input := DestinationInput(a, info, e.name);
    var x, o := a.rt.scAddress, Dest(w, depth, a, input, e.callee);
    DestOutputEvolves(w, depth, a, input, e.callee);
    ErrorOutputCode(w, depth, a, input, e.callee);
    if o.err.None? {
      OutputOfState(w, depth, a, input, e.callee);
      if x in a.out.accounts {
        assert ExtendsAccount(a.out.accounts[x], o.vm.accounts[x]);
      }
    } else {
      ErrorOutputEmpty(w, depth, a, input, e.callee);
    }
  }

  lemma ErrorOutputEmpty(w: World, depth: nat, a: Active, input: CallInput, c: Contract)
    requires Dest(w, depth, a, input, c).err.Some?
    ensures Dest(w, depth, a, input, c).vm.accounts == map[]
  {
    hide Execute, PayCall, Enter, CloseGas, GasMatches, Merge, MergeGas, RestoreGas;
    ErrorOutputCode(w, depth, a, input, c);
    ExecutionEndsOk(w, depth, a, input, c);
    CloseGasCode(DestExecution(w, depth, a, input, c).state);
  }

  lemma OutputOfState(w: World, depth: nat, a: Active, input: CallInput, c: Contract)
    requires Dest(w, depth, a, input, c).err.None?
    ensures var out := DestOutput(w, depth, a, input, c); out.vm == out.state.out
  {
    hide Execute, PayCall, Enter, CloseGas, GasMatches, Merge, MergeGas, RestoreGas;
    ErrorOutputCode(w, depth, a, input, c);
  }
}
