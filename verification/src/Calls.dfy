/** The meaning of a call tree, without stacks: what a nested call leaves behind is a function
    of the caller's active state. This is the reference against which the stacked, imperative
    host is verified, and the object of the whole-run theorems.
    `depth` is the number of frames below the running one. */
module Calls {
  import opened Overflow
  import opened Types
  import opened Ledger
  import opened Frame

  /** `vm` is what the caller receives; `err` is None exactly for a committed call. */
  datatype Outcome = Outcome(state: Active, vm: VMOutput, err: Option<Error>)

  /** A started frame: the caller's points after it paid for the child, and the child's end. */
  datatype Execution = Execution(callerPoints: Points, state: Active, err: Option<Error>)

  // ----- a frame's life -----

  function Enter(a: Active, input: CallInput): Active {
    a.(bigInts := map[], out := Censor(a.out), meter := InitMeter(input.vm), rt := InitRuntime(a.rt, input),
       storageAddress := input.recipient)
  }

  /** The value transfer of a call; a callback that brings value has been paid already. */
  function PayCall(w: World, a: Active, input: CallInput): Attempt {
    if input.vm.callType != AsynchronousCallBack || input.vm.value == 0
    then TransferValueOnly(w, a, input.recipient, input.vm.caller, input.vm.value, false)
    else Attempt(a, None)
  }

  /** Everything that happens before the callee's code runs: charging the caller, finding the
      code, paying for its preparation and creating the instance. */
  function Prepare(w: World, depth: nat, a: Active, input: CallInput, starts: bool): Execution {
    if input.name.InitName? then Execution(a.points, a, Some(ErrInitFuncCalledInRun)) else
    var charged := UseGas(a, a.meter.provided);
    var a1 := SetAccounts(charged, Ensure(charged.out.accounts, input.recipient));
    var code := GetCode(w, input.recipient);
    if code.err.Some? then Execution(charged.points, a1, code.err) else
    var a2 := a1.(codeSize := code.size);
    var cost := InitialCost(w, code.size);
    if cost > a2.rt.input.gasProvided then Execution(charged.points, a2, Some(ErrNotEnoughGas)) else
    var a3 := a2.(meter := a2.meter.(initialCost := cost, forExecution := a2.rt.input.gasProvided - cost), points := 0);
    if depth >= MAX_INSTANCES then Execution(charged.points, a3, Some(ErrMaxInstancesReached))
    else if !starts then Execution(charged.points, a3, Some(ErrInstanceCreation))
    else Execution(charged.points, a3, None)
  }

  ghost function Execute(w: World, depth: nat, a: Active, input: CallInput, c: Contract): Execution
    decreases c, 0
  {
    var p := Prepare(w, depth, a, input, c.starts);
    if p.err.Some? then p else
    match c.entry
    case Missing => p.(err := Some(ErrFuncNotFound))
    case NoCallback => if p.state.out.code != Ok then p.(err := Some(ErrReturnCodeNotOk)) else p
    case Found =>
      var r := Run(w, depth, p.state, c.body);
      var err := if r.err.None? && r.state.out.code != Ok then Some(ErrReturnCodeNotOk) else r.err;
      Execution(p.callerPoints, r.state, err)
  }

  /** Commit or roll back the child's contexts into the caller's, then give back unspent gas. */
  ghost function FinishDest(w: World, caller: Active, e: Execution): Outcome {
    var o := if e.err.Some? then CreateErrorOutput(w, e.state, e.err.value) else GetVMOutput(w, e.state);
    var back := caller.(codeSize := e.state.codeSize, journal := e.state.journal, points := e.callerPoints);
    if o.vm.code == Ok then
      var merged := back.(out := Merge(caller.out, o.state.out),
                          meter := caller.meter.(used := MergeGas(o.state.meter.used, caller.meter.used)));
      Outcome(RestoreGas(merged, o.vm.gasRemaining), o.vm, e.err)
    else
      Outcome(RestoreGas(back, o.vm.gasRemaining), o.vm, if e.err.None? then Some(ErrExecutionFailed) else e.err)
  }

  /** A nested call in its own context. A failed call reverts the hook's journal as well. */
  ghost function Dest(w: World, depth: nat, a: Active, input: CallInput, c: Contract): Outcome
    decreases c, 1
  {
    var pay := PayCall(w, Enter(a, input), input);
    var e := if pay.err.Some? then Execution(a.points, pay.state, pay.err)
             else Execute(w, depth + 1, pay.state, input, c);
    var o := FinishDest(w, a, e);
    if o.err.Some? then o.(state := o.state.(journal := Revert(o.state.journal, |a.journal|))) else o
  }

  function Revert(journal: seq<Bytes>, snapshot: nat): seq<Bytes> {
    if snapshot <= |journal| then journal[..snapshot] else journal
  }

  /** A nested call in the caller's context: outputs, big integers and storage are shared. */
  ghost function Same(w: World, depth: nat, a: Active, input: CallInput, c: Contract): Attempt
    decreases c, 1
  {
    var pay := TransferValueOnly(w, EnterSame(a, input), input.recipient, input.vm.caller, input.vm.value, false);
    var e := if pay.err.Some? then Execution(a.points, pay.state, pay.err)
             else Execute(w, depth + 1, pay.state, input, c);
    FinishSame(w, a, e)
  }

  ghost function FinishSame(w: World, caller: Active, e: Execution): Attempt {
    if e.state.out.code != Ok || e.err.Some? then
      Attempt(caller.(codeSize := e.state.codeSize, journal := Revert(e.state.journal, |caller.journal|),
                      points := e.callerPoints), e.err)
    else
      var o := GetVMOutput(w, e.state);
      var merged := o.state.(meter := caller.meter.(used := MergeGas(o.state.meter.used, caller.meter.used)),
                             rt := caller.rt,
                             points := e.callerPoints);
      Attempt(RestoreGas(merged, o.vm.gasRemaining), None)
  }

  function EnterSame(a: Active, input: CallInput): Active {
    a.(meter := InitMeter(input.vm), rt := InitRuntime(a.rt, input))
  }

  // ----- actions -----

  function IndirectInput(
    a: Active, sender: Address, value: int, gasLimit: int64, destination: Address, name: Name): CallInput {
    CallInput(VMInput(sender, value, DirectCall, BoundGasLimit(a, gasLimit), 0), destination, name)
  }

  predicate SameShard(w: World, x: Address, y: Address) {
    w.shards(x) == w.shards(y)
  }

  /** Calls that must run at once are refused when the destination is in another shard. */
  function RefuseCall(w: World, a: Active): Active {
    Fail(w, UseGas(a, GasLeft(a)), ErrSyncExecutionNotInSameShard)
  }

  ghost function Do(w: World, depth: nat, a: Active, act: Action): Active
    decreases act
  {
    match act
    case Burn(gas) => UseGas(a, gas)
    case ReadStorage(key) => GetStorage(w, a, key)
    case ReadStorageOf(address, key) => GetStorageFromAddress(w, a, address, key)
    case WriteStorage(key, data) => SetStorage(w, a, key, data, true)
    case WriteProtected(key, data) => SetStorage(w, a, key, data, false)
    case ReadBalance(address) => GetBalance(w, a, address).state
    case SendValue(destination, value, gas, data) =>
      Transfer(w, a, destination, a.rt.scAddress, gas, 0, value, data, DirectCall).state
    case Finish(data) => a.(out := a.out.(returnData := a.out.returnData + [data]))
    case WriteLog(topics, data) =>
      if a.rt.readOnly then a
      else a.(out := a.out.(logs := a.out.logs + [LogEntry(a.rt.scAddress, topics, data)]))
    case SetBigInt(handle, value) => a.(bigInts := a.bigInts[handle := value])
    case HookWrite(entry) => a.(journal := a.journal + [entry])
    case FailExecution(err) => Fail(w, UseGas(a, GasLeft(a)), err)
    case SignalUserError(message) => a.(out := a.out.(code := UserError, message := message))
    case CallDest(byCaller, destination, value, limit, name, callee) =>
      var sender := if byCaller then a.rt.input.caller else a.rt.scAddress;
      if !SameShard(w, a.rt.scAddress, destination) then RefuseCall(w, a)
      else Dest(w, depth, a, IndirectInput(a, sender, value, limit, destination, name), callee).state
    case CallSame(asReadOnly, destination, value, limit, name, callee) =>
      var input := IndirectInput(a, a.rt.scAddress, value, limit, destination, name);
      if !SameShard(w, a.rt.scAddress, destination) then RefuseCall(w, a)
      else if asReadOnly then
        var b := Same(w, depth, a.(rt := a.rt.(readOnly := true)), input, callee).state;
        b.(rt := b.rt.(readOnly := false))
      else Same(w, depth, a, input, callee).state
  }

  ghost function Run(w: World, depth: nat, a: Active, p: Program): Attempt
    decreases p
  {
    match p
    case Step(act, rest) => Run(w, depth, Do(w, depth, a, act), rest)
    case End(Return) => Attempt(a, None)
    case End(Break(err)) => Attempt(a, Some(err))
    case End(AsyncCall(_, _, _, _, _, _, _, _)) => RunAsync(w, depth, a, p.ending)
  }

  // ----- asynchronous calls -----

  /** Pay for the asynchronous step and lock gas for the callback. */
  function LockGas(w: World, a: Active, destination: Address, data: Bytes, value: nat, hasCallback: bool): Attempt {
    if GasLeft(a) <= w.schedule.asyncCallStep then Attempt(a, Some(ErrNotEnoughGas)) else
    var a1 := UseGas(a, w.schedule.asyncCallStep);
    var lock := if hasCallback then GasLockedForAsync(w, a1.codeSize) else 0;
    if hasCallback && GasLeft(a1) <= lock then Attempt(a1, Some(ErrNotEnoughGas)) else
    var a2 := if hasCallback then UseGas(a1, lock) else a1;
    Attempt(a2.(rt := a2.rt.(asyncInfo := Some(AsyncCallInfo(destination, data, GasLeft(a2), lock, value)))), None)
  }

  ghost function RunAsync(w: World, depth: nat, a: Active, e: Ending): Attempt
    requires e.AsyncCall?
    decreases e, 2
  {
    var l := LockGas(w, a, e.destination, e.data, e.value, e.hasCallback);
    if l.err.Some? then l else
    var info := l.state.rt.asyncInfo.value;
    if !e.parses then Attempt(l.state, Some(ErrCallDataParser)) else
    var a1 := SetAccounts(l.state, Ensure(l.state.out.accounts, e.destination));
    if GetCode(w, e.destination).err.None?
    then Attempt(CallLocally(w, depth, a1, info, e), None)
    else SendAsync(w, a1, info)
  }

  /** The destination is elsewhere: hand it all the gas and stop. */
  function SendAsync(w: World, a: Active, info: AsyncCallInfo): Attempt {
    var t := Transfer(w, a, info.destination, a.rt.scAddress, info.gasLimit, info.gasLocked, info.value, info.data,
                      AsynchronousCall);
    var a1 := UseGas(t.state, GasLeft(t.state));
    if t.err.Some? then Attempt(Fail(w, a1, t.err.value), t.err) else Attempt(a1, None)
  }

  function DestinationInput(a: Active, info: AsyncCallInfo, name: Name): CallInput {
    CallInput(VMInput(a.rt.scAddress, info.value, AsynchronousCall, GasLeft(a), info.gasLocked), info.destination, name)
  }

  function CallbackArguments(w: World, o: Outcome): seq<Bytes> {
    [w.codeBytes(o.vm.code)] + (if o.err.None? && o.vm.code == Ok then o.vm.returnData else [o.vm.message])
  }

  function TotalLength(args: seq<Bytes>): nat {
    if args == [] then 0 else TotalLength(args[..|args| - 1]) + |args[|args| - 1]|
  }

  function CallbackCost(w: World, o: Outcome): uint64 {
    var args := CallbackArguments(w, o);
    AddUint64(w.schedule.asyncCallStep, CopyCost(w, CALLBACK_NAME_LEN + |args| + TotalLength(args)))
  }

  /** A bare value sent back to the caller by the destination becomes the callback's value. */
  function CallbackValue(o: Outcome, receiver: Address): int {
    if |o.vm.returnData| > 0 || receiver !in o.vm.accounts then 0 else
    var transfers := o.vm.accounts[receiver].transfers;
    if transfers == [] || |transfers[|transfers| - 1].data| > 0 then 0 else transfers[|transfers| - 1].value
  }

  function CallbackGas(o: Outcome, info: AsyncCallInfo): uint64 {
    Wrap64(o.vm.gasRemaining + info.gasLocked)
  }

  function CallbackInput(w: World, a: Active, info: AsyncCallInfo, o: Outcome): CallInput
    requires CallbackGas(o, info) > CallbackCost(w, o)
  {
    CallInput(VMInput(info.destination, CallbackValue(o, a.rt.scAddress), AsynchronousCallBack,
                      CallbackGas(o, info) - CallbackCost(w, o), 0), a.rt.scAddress, CallbackName)
  }

  /** A failed callback leaves its code and the transaction hash among the return data. */
  function ReportCallback(w: World, a: Active, vm: VMOutput): Active {
    a.(rt := a.rt.(input := a.rt.input.(gasProvided := 0)),
       out := a.out.(message := vm.message, returnData := a.out.returnData + [w.codeText(vm.code)] + [w.txHash]))
  }

  /** The destination is here: call it now, then call back. */
  ghost function CallLocally(w: World, depth: nat, a: Active, info: AsyncCallInfo, e: Ending): Active
    requires e.AsyncCall?
    decreases e, 1
  {
    var o := Dest(w, depth, a, DestinationInput(a, info, e.name), e.callee);
    CallBack(w, depth, o, info, e)
  }

  ghost function CallBack(w: World, depth: nat, o: Outcome, info: AsyncCallInfo, e: Ending): Active
    requires e.AsyncCall?
    decreases e, 0
  {
    if CallbackGas(o, info) <= CallbackCost(w, o) then
      var failed := CreateErrorOutput(w, o.state, ErrNotEnoughGas);
      ReportCallback(w, failed.state, failed.vm)
    else
      var back := RestoreGas(o.state, info.gasLocked);
      var cb := Dest(w, depth, back, CallbackInput(w, back, info, o), e.callback);
      if cb.err.None? then cb.state else ReportCallback(w, cb.state, cb.vm)
  }

  // ----- the transaction -----

  const NEW_ACTIVE := Active(map[], NEW_OUTPUT, Meter(0, 0, 0, map[]),
                             RuntimeState([], VMInput([], 0, DirectCall, 0, 0), OtherName, false, None), 0, [], [], 0)

  function AddTxValue(accounts: Accounts, address: Address, value: int): Accounts {
    var known := Ensure(accounts, address);
    known[address := known[address].(delta := known[address].delta + value)]
  }

  function StartTransaction(input: CallInput, journal: seq<Bytes>, codeSize: uint64): Active {
    NEW_ACTIVE.(meter := InitMeter(input.vm), rt := InitRuntime(NEW_ACTIVE.rt, input),
                out := NEW_OUTPUT.(accounts := AddTxValue(map[], input.recipient, input.vm.value)),
                storageAddress := input.recipient, journal := journal, codeSize := codeSize)
  }

  /** After a contract called asynchronously by another shard, its answer takes the remaining gas. */
  function SendCallback(w: World, a: Active, data: Bytes): Attempt {
    var t := Transfer(w, a, a.rt.input.caller, a.rt.scAddress, GasLeft(a), 0, a.rt.input.value, data,
                      AsynchronousCallBack);
    var a1 := UseGas(t.state, GasLeft(t.state));
    if t.err.Some? then Attempt(Fail(w, a1, t.err.value), t.err) else Attempt(a1, None)
  }

  /** A callback first looks up the caller's pending calls, and again after it ran. The read is
      cached; a list that is not empty is not part of this model and ends the call. */
  function LookUpPending(w: World, a: Active): Attempt {
    Attempt(CacheRead(w, a, a.storageAddress, w.pendingKey),
            if View(w, a.out.accounts, a.storageAddress, w.pendingKey) == [] then None else Some(ErrPendingCallbacks))
  }

  /** The run of the called method, including the final test that gas was not overspent. */
  ghost function CallMethod(w: World, a: Active, input: CallInput, c: Contract, answer: Bytes): Attempt {
    if input.name.InitName? then Attempt(a, Some(ErrInitFuncCalledInRun)) else
    if input.name.CallbackName? && input.vm.callType != AsynchronousCallBack
      then Attempt(a, Some(ErrCallBackFuncCalledInRun)) else
    var l := if input.vm.callType == AsynchronousCallBack then LookUpPending(w, a) else Attempt(a, None);
    if l.err.Some? then l else
    if !c.entry.Found? then
      if input.vm.callType == AsynchronousCallBack then LookUpPending(w, l.state)
        else Attempt(l.state, Some(ErrFuncNotFound))
    else
    var r := Run(w, 0, l.state, c.body);
    if r.err.Some? then r
    else if r.state.points > r.state.meter.forExecution then Attempt(r.state, Some(ErrNotEnoughGas))
    else
      match input.vm.callType
      case AsynchronousCall => SendCallback(w, r.state, answer)
      case AsynchronousCallBack => LookUpPending(w, r.state)
      case DirectCall => r
  }

  /** The preparation of a direct call. */
  function PrepareDirect(w: World, a: Active, input: CallInput, starts: bool): Attempt {
    if a.meter.provided < w.schedule.getCode then Attempt(a, Some(ErrNotEnoughGas)) else
    var code := GetCode(w, input.recipient);
    if code.err.Some? then Attempt(a, Some(ErrContractNotFound)) else
    var a1 := a.(codeSize := code.size);
    var cost := InitialCost(w, code.size);
    if cost > a1.rt.input.gasProvided then Attempt(a1, Some(ErrNotEnoughGas)) else
    var a2 := a1.(meter := a1.meter.(initialCost := cost, forExecution := a1.rt.input.gasProvided - cost), points := 0);
    Attempt(a2, if starts then None else Some(ErrContractInvalid))
  }

  /** A transaction that calls a contract; the result is what the node receives. */
  ghost function RunSmartContractCall(
    w: World, input: CallInput, c: Contract, journal: seq<Bytes>, codeSize: uint64, answer: Bytes): Output {
    var start := PrepareDirect(w, StartTransaction(input, journal, codeSize), input, c.starts);
    if start.err.Some? then CreateErrorOutput(w, start.state, start.err.value) else
    var r := CallMethod(w, start.state, input, c, answer);
    if r.err.Some? then CreateErrorOutput(w, r.state, r.err.value) else GetVMOutput(w, r.state)
  }
}
