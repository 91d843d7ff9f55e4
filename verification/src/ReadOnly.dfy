/** Read-only execution: it writes nothing and logs nothing, until a nested read-only call clears
    the flag. */
module ReadOnly {
  import opened Overflow
  import opened Types
  import opened Ledger
  import opened Frame
  import opened Calls
  import opened Conservation
  import opened Traces
  import opened GasIdentity
  import opened StorageView

  /** No call in the tree is itself read-only. */
  ghost predicate NoReadOnlyCalls(p: Program)
    decreases p
  {
    match p
    case Step(act, rest) => NoReadOnlyAction(act) && NoReadOnlyCalls(rest)
    case End(e) => e.AsyncCall? ==> NoReadOnlyCalls(e.callee.body) && NoReadOnlyCalls(e.callback.body)
  }

  ghost predicate NoReadOnlyAction(act: Action)
    decreases act
  {
    && (act.CallSame? ==> !act.asReadOnly)
    && (act.CallDest? || act.CallSame? ==> NoReadOnlyCalls(act.callee.body))
  }

  /** Still read-only, with the same logs. */
  ghost predicate Silent(a: Active, b: Active) {
    b.rt.readOnly && b.out.logs == a.out.logs
  }

  /** The writes that survive a call of either kind. */
  ghost function CallWrites(w: World, depth: nat, a: Active, input: CallInput, c: Contract, shared: bool): seq<Write> {
    if shared then SameWrites(w, depth, a, input, c) else DestWrites(w, depth, a, input, c)
  }

  /** A read-only run, with all its nested calls, changes no storage and writes no log. */
  lemma {:induction false} RunSilent(w: World, depth: nat, a: Active, p: Program)
    requires a.rt.readOnly && NoReadOnlyCalls(p)
    ensures Silent(a, Run(w, depth, a, p).state) && Writes(w, depth, a, p) == []
    decreases p
  {
    hide Do, RunAsync, ActionWrites, AsyncWrites;
    match p
    case Step(act, rest) =>
      ActionSilent(w, depth, a, act);
      RunSilent(w, depth, Do(w, depth, a, act), rest);
    case End(e) =>
      if e.AsyncCall? {
        AsyncSilent(w, depth, a, e);
      }
  }

  lemma {:induction false} ActionSilent(w: World, depth: nat, a: Active, act: Action)
    requires a.rt.readOnly && NoReadOnlyAction(act)
    ensures Silent(a, Do(w, depth, a, act)) && ActionWrites(w, depth, a, act) == []
    decreases act
  {
    hide Do, Call, DestWrites, SameWrites;
    if act.CallDest? || act.CallSame? {
      if MakesCall(w, a, act) {
        CallSilent(w, depth, a, ActionInput(a, act), act.callee, act.CallSame?);
        DoesCall(w, depth, a, act);
      } else {
        DoesNotCall(w, depth, a, act);
      }
    } else {
      SimpleActionSilent(w, depth, a, act);
    }
  }

  lemma SimpleActionSilent(w: World, depth: nat, a: Active, act: Action)
    requires a.rt.readOnly && !act.CallDest? && !act.CallSame?
    ensures Silent(a, Do(w, depth, a, act)) && ActionWrites(w, depth, a, act) == []
  {
    hide Transfer, GetStorage, GetStorageFromAddress, GetBalance;
    match act
    case ReadStorage(key) => ReadTouches(w, a, [], key);
    case ReadStorageOf(x, key) => ReadTouches(w, a, x, key);
    case ReadBalance(x) => BalanceSilent(w, a, x);
    case SendValue(to, value, gas, data) => TransferSilent(w, a, to, a.rt.scAddress, gas, value, data, gas > 0);
    case _ =>
  }

  lemma BalanceSilent(w: World, a: Active, x: Address)
    ensures var b := GetBalance(w, a, x).state; b.rt == a.rt && b.out.logs == a.out.logs
  {
  }

  lemma TransferSilent(
    w: World, a: Active, to: Address, from: Address, gas: uint64, value: int, data: Bytes, check: bool)
    ensures var b := Transfer(w, a, to, from, gas, 0, value, data, DirectCall).state;
            b.rt == a.rt && b.out.logs == a.out.logs
    ensures var b := TransferValueOnly(w, a, to, from, value, check).state; b.rt == a.rt && b.out.logs == a.out.logs
  {
    hide GetBalance;
    BalanceSilent(w, a, from);
  }

  lemma OutputSilent(w: World, a: Active, err: Error)
    ensures var b := GetVMOutput(w, a).state; b.rt == a.rt && b.out.logs == a.out.logs
    ensures var b := CreateErrorOutput(w, a, err).state; b.rt == a.rt && b.out.logs == a.out.logs
  {
    hide CloseGas, GasMatches;
    CloseGasEvolves(w, a);
  }

  lemma {:induction false} CallSilent(w: World, depth: nat, a: Active, input: CallInput, c: Contract, shared: bool)
    requires a.rt.readOnly && NoReadOnlyCalls(c.body)
    ensures Silent(a, Call(w, depth, a, input, c, shared).state) && CallWrites(w, depth, a, input, c, shared) == []
    decreases c, 1
  {
    hide Call, CallExecution, Paid, Execute, GetVMOutput, CallWrites, ExecuteWrites, NoReadOnlyCalls;
    var pay, e := Paid(w, a, input, shared), CallExecution(w, depth, a, input, c, shared);
    CallExecutionIs(w, depth, a, input, c, shared);
    PaidSilent(w, a, input, shared);
    ExecuteSilent(w, depth + 1, pay.state, input, c);
    CallWritesAre(w, depth, a, input, c, shared);
    if Call(w, depth, a, input, c, shared).err.Some? {
      FailedCall(w, depth, a, input, c, shared);
    } else {
      OutputSilent(w, e.state, ErrExecutionFailed);
      CommittedLogs(w, depth, a, input, c, shared);
    }
  }

  lemma PaidSilent(w: World, a: Active, input: CallInput, shared: bool)
    ensures var b := Paid(w, a, input, shared).state;
            b.rt.readOnly == a.rt.readOnly && b.out.logs == if shared then a.out.logs else []
  {
    hide TransferValueOnly;
    TransferSilent(w, Entered(a, input, shared), input.recipient, input.vm.caller, 0, input.vm.value, [], false);
  }

  lemma CallWritesAre(w: World, depth: nat, a: Active, input: CallInput, c: Contract, shared: bool)
    ensures CallWrites(w, depth, a, input, c, shared) == []
            || CallWrites(w, depth, a, input, c, shared) == ExecuteWrites(w, depth + 1, Paid(w, a, input, shared).state,
              input, c)
  {
    hide Dest, Execute, PayCall, TransferValueOnly, ExecuteWrites;
  }

  lemma CommittedLogs(w: World, depth: nat, a: Active, input: CallInput, c: Contract, shared: bool)
    requires Call(w, depth, a, input, c, shared).err.None?
    ensures var b := Call(w, depth, a, input, c, shared).state;
            var child := GetVMOutput(w, CallExecution(w, depth, a, input, c, shared).state).state;
            b.rt == a.rt && b.out.logs == if shared then child.out.logs else a.out.logs + child.out.logs
  {
    hide Execute, CreateErrorOutput, GetVMOutput, PayCall, TransferValueOnly, MergeAccounts, MergeGas;
    CallEnds(w, depth, a, input, c, shared);
    if shared {
      SameCommitState(w, depth, a, input, c);
    } else {
      DestCommits(w, depth, a, input, c);
    }
  }

  lemma {:induction false} ExecuteSilent(w: World, depth: nat, a: Active, input: CallInput, c: Contract)
    requires a.rt.readOnly && NoReadOnlyCalls(c.body)
    ensures Silent(a, Execute(w, depth, a, input, c).state) && ExecuteWrites(w, depth, a, input, c) == []
    decreases c, 0
  {
    hide Prepare, Run, Writes;
    var p := Prepare(w, depth, a, input, c.starts);
    PrepareLedger(w, depth, a, input, c.starts);
    if p.err.None? && c.entry.Found? {
      RunSilent(w, depth, p.state, c.body);
    }
  }

  lemma StartSilent(w: World, a: Active, e: Ending)
    requires e.AsyncCall? && a.rt.readOnly
    ensures var s := AsyncStart(w, a, e);
            && Silent(a, s.state)
            && (s.err.None? ==>
                  s.state.rt.asyncInfo.Some?
                  && Silent(a, SendAsync(w, s.state, s.state.rt.asyncInfo.value).state))
  {
    hide TransferValueOnly;
    var s := AsyncStart(w, a, e);
    if s.err.None? {
      var info := s.state.rt.asyncInfo.value;
      TransferSilent(w, s.state, info.destination, s.state.rt.scAddress, 0, info.value, info.data, info.gasLimit > 0);
    }
  }

  lemma {:induction false} AsyncSilent(w: World, depth: nat, a: Active, e: Ending)
    requires e.AsyncCall? && a.rt.readOnly && NoReadOnlyCalls(End(e))
    ensures Silent(a, RunAsync(w, depth, a, e).state) && AsyncWrites(w, depth, a, e) == []
    decreases e, 1
  {
    hide CallLocally, SendAsync, LegWrites;
    StartSilent(w, a, e);
    var s := AsyncStart(w, a, e);
    if s.err.None? {
      LegsSilent(w, depth, s.state, s.state.rt.asyncInfo.value, e);
    }
  }

  lemma {:induction false} LegsSilent(w: World, depth: nat, a: Active, info: AsyncCallInfo, e: Ending)
    requires e.AsyncCall? && a.rt.readOnly && NoReadOnlyCalls(End(e))
    ensures Silent(a, CallLocally(w, depth, a, info, e)) && LegWrites(w, depth, a, info, e) == []
    decreases e, 0
  {
    hide Dest, DestWrites, CallbackGas, CallbackCost, CreateErrorOutput;
    var input := DestinationInput(a, info, e.name);
    var o := Dest(w, depth, a, input, e.callee);
    CallSilent(w, depth, a, input, e.callee, false);
    if CallbackGas(o, info) <= CallbackCost(w, o) {
      OutputSilent(w, o.state, ErrNotEnoughGas);
    } else {
      var back := RestoreGas(o.state, info.gasLocked);
      CallSilent(w, depth, back, CallbackInput(w, back, info, o), e.callback, false);
    }
  }

  // ----- when the flag is cleared -----

  /** The frame itself makes a read-only call, one that is not refused. Calls that its callees make
      do not matter, since they run on their own copy of the flag. */
  ghost predicate CallsReadOnly(w: World, depth: nat, a: Active, p: Program)
    decreases p
  {
    match p
    case Step(act, rest) =>
      || (act.CallSame? && act.asReadOnly && MakesCall(w, a, act))
      || CallsReadOnly(w, depth, Do(w, depth, a, act), rest)
    case End(_) => false
  }

  /** For every tree: a run is read-only at its end if and only if it was at its start and the frame
      made no read-only call of its own. */
  lemma {:induction false} ReadOnlyExactly(w: World, depth: nat, a: Active, p: Program)
    ensures Run(w, depth, a, p).state.rt.readOnly <==> a.rt.readOnly && !CallsReadOnly(w, depth, a, p)
    decreases p
  {
    hide Do, RunAsync;
    match p
    case Step(act, rest) =>
      ActionFlag(w, depth, a, act);
      ReadOnlyExactly(w, depth, Do(w, depth, a, act), rest);
    case End(e) =>
      if e.AsyncCall? {
        AsyncFlag(w, depth, a, e);
      }
  }

  lemma ActionFlag(w: World, depth: nat, a: Active, act: Action)
    ensures Do(w, depth, a, act).rt.readOnly
            <==> a.rt.readOnly && !(act.CallSame? && act.asReadOnly && MakesCall(w, a, act))
  {
    hide Do, Call;
    if MakesCall(w, a, act) {
      DoesCall(w, depth, a, act);
      CallFlag(w, depth, ActionFrom(a, act), ActionInput(a, act), act.callee, act.CallSame?);
    } else if act.CallDest? || act.CallSame? {
      DoesNotCall(w, depth, a, act);
    } else {
      SimpleFlag(w, depth, a, act);
    }
  }

  lemma SimpleFlag(w: World, depth: nat, a: Active, act: Action)
    requires !act.CallDest? && !act.CallSame?
    ensures Do(w, depth, a, act).rt == a.rt
  {
    hide Transfer, SetStorage, GetStorage, GetStorageFromAddress, GetBalance;
    match act
    case ReadStorage(key) => ReadTouches(w, a, [], key);
    case ReadStorageOf(x, key) => ReadTouches(w, a, x, key);
    case WriteStorage(key, data) => SetStorageTouches(w, a, key, data, true);
    case WriteProtected(key, data) => SetStorageTouches(w, a, key, data, false);
    case ReadBalance(x) => BalanceSilent(w, a, x);
    case SendValue(to, value, gas, data) => TransferSilent(w, a, to, a.rt.scAddress, gas, value, data, gas > 0);
    case _ =>
  }

  /** A call of either kind gives its caller's runtime back. */
  lemma CallFlag(w: World, depth: nat, a: Active, input: CallInput, c: Contract, shared: bool)
    ensures Call(w, depth, a, input, c, shared).state.rt == a.rt
  {
    hide Call, CallExecution, GetVMOutput;
    if Call(w, depth, a, input, c, shared).err.Some? {
      FailedCall(w, depth, a, input, c, shared);
    } else {
      CommittedLogs(w, depth, a, input, c, shared);
    }
  }

  lemma AsyncFlag(w: World, depth: nat, a: Active, e: Ending)
    requires e.AsyncCall?
    ensures RunAsync(w, depth, a, e).state.rt.readOnly == a.rt.readOnly
  {
    hide AsyncStart, RunAsync, CallLocally, SendAsync, GetCode;
    var s := AsyncStart(w, a, e);
    AsyncIs(w, depth, a, e);
    StartFlag(w, a, e);
    if s.err.None? {
      SendFlag(w, s.state, s.state.rt.asyncInfo.value);
      LegsFlag(w, depth, s.state, s.state.rt.asyncInfo.value, e);
    }
  }

  lemma StartFlag(w: World, a: Active, e: Ending)
    requires e.AsyncCall?
    ensures AsyncStart(w, a, e).state.rt.readOnly == a.rt.readOnly
  {
  }

  lemma SendFlag(w: World, a: Active, info: AsyncCallInfo)
    ensures SendAsync(w, a, info).state.rt == a.rt
  {
    hide Transfer;
    TransferOnly(w, a, info.destination, a.rt.scAddress, info.gasLimit, info.gasLocked, info.value, info.data,
                 AsynchronousCall);
  }

  lemma LegsFlag(w: World, depth: nat, a: Active, info: AsyncCallInfo, e: Ending)
    requires e.AsyncCall?
    ensures CallLocally(w, depth, a, info, e).rt.readOnly == a.rt.readOnly
  {
    hide CallLocally, Dest, CallbackGas, CallbackCost;
    var input := DestinationInput(a, info, e.name);
    var o := Dest(w, depth, a, input, e.callee);
    CallsLocally(w, depth, a, info, e);
    CallFlag(w, depth, a, input, e.callee, false);
    if CallbackGas(o, info) > CallbackCost(w, o) {
      var back := RestoreGas(o.state, info.gasLocked);
      CallFlag(w, depth, back, CallbackInput(w, back, info, o), e.callback, false);
    }
  }

  /** Call `c` read-only, then write to storage. */
  function ReadsThenWrites(to: Address, c: Contract, key: Bytes, data: Bytes): Program {
    Step(CallSame(true, to, 0, 0, OtherName, c), Step(WriteStorage(key, data), End(Return)))
  }

  /** A nested read-only call clears the flag, whatever it was, so that the write gets through. */
  lemma NestedReadOnlyClears(w: World, depth: nat, a: Active, to: Address, c: Contract, key: Bytes, data: Bytes)
    requires a.rt.readOnly && SameShard(w, a.rt.scAddress, to) && !IsReserved(w, key) && !(PROTECTED_PREFIX <= key)
    ensures var p := ReadsThenWrites(to, c, key, data);
            && !Run(w, depth, a, p).state.rt.readOnly
            && exists before :: Writes(w, depth, a, p) == before + [Write(a.storageAddress, key, data)]
  {
    hide Same, SameWrites, SetStorage;
    var p := ReadsThenWrites(to, c, key, data);
    var b := Do(w, depth, a, p.action);
    var d := Do(w, depth, b, p.rest.action);
    ClearsFlag(w, depth, a, p.action);
    SetStorageTouches(w, b, key, data, true);
    assert Run(w, depth, a, p) == Run(w, depth, b, p.rest) == Run(w, depth, d, End(Return)) == Attempt(d, None);
    assert Writes(w, depth, d, End(Return)) == [];
    assert Writes(w, depth, b, p.rest) == [Write(b.storageAddress, key, data)] + [];
    assert Writes(w, depth, a, p) == ActionWrites(w, depth, a, p.action) + [Write(a.storageAddress, key, data)];
  }

  lemma ClearsFlag(w: World, depth: nat, a: Active, act: Action)
    requires act.CallSame? && act.asReadOnly && MakesCall(w, a, act)
    ensures var b := Do(w, depth, a, act); !b.rt.readOnly && b.storageAddress == a.storageAddress
  {
    hide Same;
    DoesCall(w, depth, a, act);
    SameEvolves(w, depth, ActionFrom(a, act), ActionInput(a, act), act.callee);
  }
}
