/** When a nested call starts its callee's code, why it does not, and what the callee then finds. */
module Entries {
  import opened Overflow
  import opened Types
  import opened Ledger
  import opened Frame
  import opened Calls
  import opened Conservation
  import opened Traces
  import opened Payments

  // ----- failures -----

  /** The return code that tells of an error. */
  predicate Tells(code: ReturnCode, err: Error) {
    && code != Ok
    && (code == OutOfGas <==> err == ErrNotEnoughGas)
    && (code == OutOfFunds <==> err == ErrTransferInsufficientFunds)
    && (code == FunctionNotFound <==> err == ErrFuncNotFound)
    && (code == FunctionWrongSignature <==> err == ErrFunctionNonvoidSignature)
    && (code == ContractNotFound <==> err == ErrContractNotFound)
    && (code == ContractInvalid <==> err == ErrContractInvalid)
    && (code == UpgradeFailed <==> err == ErrUpgradeFailed)
    && (code == UserError <==> err == ErrSignalError || err == ErrInvalidFunction)
  }

  /** The output of a failed frame: it keeps what the contract said last, and otherwise gives the
      error's text, unless the contract signalled the error itself. Nothing else is left in it. */
  predicate IsFailure(w: World, vm: VMOutput, err: Error, said: Bytes) {
    && Tells(vm.code, err)
    && vm.message == (if said != [] || err == ErrSignalError then said else w.errorText(err))
    && vm.accounts == map[] && vm.returnData == [] && vm.logs == [] && vm.gasRemaining == 0 && vm.gasRefund == 0
  }

  /** A failed frame's contract is charged all that its frame was given. */
  lemma ErrorOutputIs(w: World, a: Active, err: Error)
    ensures var o := CreateErrorOutput(w, a, err);
            && IsFailure(w, o.vm, err, a.out.message)
            && (forall x :: Account(o.state.out.accounts, x).gasUsed ==
                  if x == a.rt.scAddress then Cap(Account(a.out.accounts, x).gasUsed + a.meter.provided)
                  else Account(a.out.accounts, x).gasUsed)
  {
    hide ReturnCodeOf, Tells;
    CodeTells(err);
  }

  lemma FailureIsNotOk(w: World, vm: VMOutput, said: Bytes)
    ensures IsFailure(w, vm, ErrGasMismatch, said) ==> vm.code != Ok
  {
  }

  lemma CodeTells(err: Error)
    ensures Tells(ReturnCodeOf(err), err)
  {
  }

  // ----- why a callee does not start -----

  predicate HasCode(w: World, x: Address) {
    x in w.codeSizes && w.codeSizes[x] > 0
  }

  /** What it costs to find an account's code and to prepare it, capped as one sum. */
  function PreparationPrice(w: World, x: Address): uint64
    requires x in w.codeSizes
  {
    ProductNonNegative(w.codeSizes[x], w.schedule.aotPreparePerByte);
    Cap(w.schedule.getCode + w.codeSizes[x] * w.schedule.aotPreparePerByte)
  }

  /** A callback that brings value has been paid already. */
  function AmountDue(input: CallInput, shared: bool): int {
    if !shared && input.vm.callType == AsynchronousCallBack then 0 else input.vm.value
  }

  function PaymentError(w: World, accounts: Accounts, input: CallInput, shared: bool): Option<Error> {
    if !shared && input.vm.callType == AsynchronousCallBack && input.vm.value != 0 then None
    else TransferError(w, accounts, input.vm.callType, input.recipient, input.vm.caller, input.vm.value, false)
  }

  /** The first reason why the callee's code is not entered, if there is one. */
  function StartError(
    w: World, depth: nat, accounts: Accounts, input: CallInput, starts: bool, shared: bool): Option<Error>
  {
    var x := input.recipient;
    if PaymentError(w, accounts, input, shared).Some? then PaymentError(w, accounts, input, shared)
    else if input.name.InitName? then Some(ErrInitFuncCalledInRun)
    else if x !in w.balances then Some(ErrInvalidAccount)
    else if !HasCode(w, x) then Some(ErrContractNotFound)
    else if input.vm.gasProvided < PreparationPrice(w, x) then Some(ErrNotEnoughGas)
    else if depth + 1 >= MAX_INSTANCES then Some(ErrMaxInstancesReached)
    else if !starts then Some(ErrInstanceCreation)
    else None
  }

  /** The callee at the entry of its code, or where it failed before. */
  function Start(w: World, depth: nat, a: Active, input: CallInput, starts: bool, shared: bool): Execution {
    var pay := Paid(w, a, input, shared);
    if pay.err.Some? then Execution(a.points, pay.state, pay.err)
    else Prepare(w, depth + 1, pay.state, input, starts)
  }

  lemma PriceIs(w: World, x: Address)
    requires HasCode(w, x)
    ensures InitialCost(w, w.codeSizes[x]) == PreparationPrice(w, x)
  {
    ProductNonNegative(w.codeSizes[x], w.schedule.aotPreparePerByte);
  }

  lemma PreparedExactly(w: World, depth: nat, a: Active, input: CallInput, starts: bool)
    requires a.rt.input == input.vm
    ensures var p, x := Prepare(w, depth, a, input, starts), input.recipient;
            && p.err == (if input.name.InitName? then Some(ErrInitFuncCalledInRun)
                         else if x !in w.balances then Some(ErrInvalidAccount)
                         else if !HasCode(w, x) then Some(ErrContractNotFound)
                         else if input.vm.gasProvided < PreparationPrice(w, x) then Some(ErrNotEnoughGas)
                         else if depth >= MAX_INSTANCES then Some(ErrMaxInstancesReached)
                         else if !starts then Some(ErrInstanceCreation)
                         else None)
            && p.callerPoints == (if input.name.InitName? then a.points else UseGas(a, a.meter.provided).points)
            && (p.err.None? ==>
                  && p.state == a.(points := 0, codeSize := w.codeSizes[x], meter := p.state.meter, out := p.state.out)
                  && p.state.meter == a.meter.(initialCost := PreparationPrice(w, x),
                                               forExecution := input.vm.gasProvided - PreparationPrice(w, x))
                  && p.state.out == a.out.(accounts := Ensure(a.out.accounts, x)))
  {
    hide InitialCost, PreparationPrice;
    if HasCode(w, input.recipient) {
      PriceIs(w, input.recipient);
    }
  }

  lemma PaidExactly(w: World, a: Active, input: CallInput, shared: bool)
    ensures var pay := Paid(w, a, input, shared);
            && pay.state == SetAccounts(Entered(a, input, shared), pay.state.out.accounts)
            && pay.state.rt.input == input.vm
            && (pay.err.None? ==>
                  Moved(a.out.accounts, pay.state.out.accounts, input.vm.caller, input.recipient,
                        AmountDue(input, shared)))
            && (pay.err.Some? ==> NothingMoved(a.out.accounts, pay.state.out.accounts))
            && RestKept(a.out.accounts, pay.state.out.accounts)
            && (CacheAgrees(w, input.vm.caller, Account(a.out.accounts, input.vm.caller)) ==>
                  pay.err == PaymentError(w, a.out.accounts, input, shared))
  {
    hide TransferValueOnly, TransferError;
    var entered := Entered(a, input, shared);
    TransferMoves(w, entered, input.recipient, input.vm.caller, input.vm.value, false);
    PaysOnly(w, entered, input.recipient, input.vm.caller, input.vm.value, false);
    KeptSelf(a.out.accounts);
    if CacheAgrees(w, input.vm.caller, Account(a.out.accounts, input.vm.caller)) {
      TransferExactly(w, entered, input.recipient, input.vm.caller, input.vm.value, false);
    }
  }

  /** The callee's code is entered exactly when nothing stands against it: it can be paid, exists,
      and its preparation is paid for, the instance limit is not reached and an instance can be
      made. A call that cannot be paid, or that asks for the initialiser, costs its caller nothing;
      any other costs all the gas that was given. */
  lemma StartsExactly(w: World, depth: nat, a: Active, input: CallInput, starts: bool, shared: bool)
    requires CacheAgrees(w, input.vm.caller, Account(a.out.accounts, input.vm.caller))
    ensures var s := Start(w, depth, a, input, starts, shared);
            && s.err == StartError(w, depth, a.out.accounts, input, starts, shared)
            && s.callerPoints == (if PaymentError(w, a.out.accounts, input, shared).Some? || input.name.InitName?
                                    then a.points
                                  else UseGas(a, InitMeter(input.vm).provided).points)
  {
    hide Prepare, Paid, PaymentError, PreparationPrice, HasCode, ProvidedGas;
    PaidExactly(w, a, input, shared);
    PreparedExactly(w, depth + 1, Paid(w, a, input, shared).state, input, starts);
  }

  /** A callee that does not start fails the call with that error, and nothing it was paid remains. */
  lemma NotStarted(w: World, depth: nat, a: Active, input: CallInput, c: Contract, shared: bool)
    requires Start(w, depth, a, input, c.starts, shared).err.Some?
    ensures var s := Start(w, depth, a, input, c.starts, shared);
            && Call(w, depth, a, input, c, shared).err == s.err
            && Call(w, depth, a, input, c, shared).state == a.(points := s.callerPoints, codeSize := s.state.codeSize)
            && (!shared ==> IsFailure(w, Dest(w, depth, a, input, c).vm, s.err.value, []))
  {
    hide Prepare, Paid, Dest, Same, CreateErrorOutput, IsFailure;
    var s := Start(w, depth, a, input, c.starts, shared);
    CallExecutionIs(w, depth, a, input, c, shared);
    if shared {
      SameErr(w, depth, a, input, c);
      SameRollsBack(w, depth, a, input, c);
    } else {
      ErrorOutputCode(w, depth, a, input, c);
      DestEnds(w, depth, a, input, c);
      NothingSaid(w, depth, a, input, c);
      ErrorOutputIs(w, s.state, s.err.value);
      DestRollsBack(w, depth, a, input, c);
    }
  }

  lemma NothingSaid(w: World, depth: nat, a: Active, input: CallInput, c: Contract)
    ensures Start(w, depth, a, input, c.starts, false).state.out.message == []
  {
    hide TransferValueOnly, Prepare;
    var entered := Enter(a, input);
    PaysOnly(w, entered, input.recipient, input.vm.caller, input.vm.value, false);
    PrepareLedger(w, depth + 1, Paid(w, a, input, false).state, input, c.starts);
  }

  /** A frame that ended without an error can only fail the runtime's gas check. */
  lemma ClosedOrMismatch(w: World, a: Active)
    requires Known(a)
    ensures var vm := GetVMOutput(w, a).vm;
            || (vm.code == a.out.code && vm.message == a.out.message)
            || IsFailure(w, vm, ErrGasMismatch, a.out.message)
  {
    hide CreateErrorOutput, IsFailure, CloseGas, GasMatches, SetGasUsed;
    ClosedIs(a);
    GasUsedKeys(Ensure(a.out.accounts, a.rt.scAddress), CloseGas(a).meter.used);
    ErrorOutputIs(w, CloseGas(a), ErrGasMismatch);
  }

  /** How a call ends whose callee was started: by the look-up of its function, or as its code ends;
      a return code other than Ok is an error too. A call in its own context reports the error with
      what the callee said last; without an error it is kept unless the gas check fails. */
  lemma CallEnds(w: World, depth: nat, a: Active, input: CallInput, c: Contract, shared: bool)
    requires Start(w, depth, a, input, c.starts, shared).err.None?
    ensures var s := Start(w, depth, a, input, c.starts, shared).state;
            var r := Run(w, depth + 1, s, c.body);
            var end := if c.entry.Found? then r.state else s;
            var err := if c.entry.Missing? then Some(ErrFuncNotFound)
                       else if c.entry.Found? && r.err.Some? then r.err
                       else if end.out.code != Ok then Some(ErrReturnCodeNotOk) else None;
            && CallExecution(w, depth, a, input, c, shared).state == end
            && (shared ==> Same(w, depth, a, input, c).err == err)
            && (!shared && err.Some? ==>
                  Dest(w, depth, a, input, c).err == err && IsFailure(w, Dest(w, depth, a, input, c).vm, err.value,
                    end.out.message))
            && (!shared && err.None? ==>
                  var o := Dest(w, depth, a, input, c);
                  || (o.err.None? && o.vm.code == Ok && o.vm.message == end.out.message)
                  || (o.err == Some(ErrExecutionFailed) && IsFailure(w, o.vm, ErrGasMismatch, end.out.message)))
  {
    hide Prepare, Paid, Dest, Same, CreateErrorOutput, IsFailure, Run, GetVMOutput, DestExecution, SameExecution,
      LedgerEvolves;
    CallExecutionIs(w, depth, a, input, c, shared);
    var e := CallExecution(w, depth, a, input, c, shared);
    if shared {
      SameErr(w, depth, a, input, c);
    } else {
      ErrorOutputCode(w, depth, a, input, c);
      DestEnds(w, depth, a, input, c);
      CalleeKnown(w, depth, a, input, c);
      ClosedOrMismatch(w, e.state);
      FailureIsNotOk(w, Dest(w, depth, a, input, c).vm, e.state.out.message);
      if e.err.Some? {
        ErrorOutputIs(w, e.state, e.err.value);
      }
    }
  }

  lemma DestEnds(w: World, depth: nat, a: Active, input: CallInput, c: Contract)
    ensures var e, o := DestExecution(w, depth, a, input, c), Dest(w, depth, a, input, c);
            o.err == if e.err.None? && o.vm.code != Ok then Some(ErrExecutionFailed) else e.err
  {
    hide Execute, PayCall, GetVMOutput, CreateErrorOutput;
    ErrorOutputCode(w, depth, a, input, c);
  }

  lemma CalleeKnown(w: World, depth: nat, a: Active, input: CallInput, c: Contract)
    ensures Known(DestExecution(w, depth, a, input, c).state)
    ensures DestExecution(w, depth, a, input, c).err.None? ==>
              DestExecution(w, depth, a, input, c).state.out.code == Ok
  {
    hide DestExecution, Conserves;
    DestExecutionEvolves(w, depth, a, input, c);
    ExecutionEndsOk(w, depth, a, input, c);
  }

  // ----- what a callee finds -----

  ghost predicate Finds(w: World, a: Active, s: Active, input: CallInput, shared: bool) {
    var x := input.recipient;
    && s.rt == RuntimeState(x, input.vm, input.name, a.rt.readOnly, a.rt.asyncInfo)
    && HasCode(w, x) && s.codeSize == w.codeSizes[x] && s.points == 0 && s.journal == a.journal
    && s.meter == Meter(ProvidedGas(input.vm), PreparationPrice(w, x),
                        s.meter.forExecution, map[])
    && s.meter.forExecution + PreparationPrice(w, x) == input.vm.gasProvided
    && s.storageAddress == (if shared then a.storageAddress else x)
    && s.bigInts == (if shared then a.bigInts else map[])
    && s.out == (if shared then a.out else NEW_OUTPUT).(accounts := s.out.accounts)
    && Moved(a.out.accounts, s.out.accounts, input.vm.caller, x, AmountDue(input, shared))
    && RestKept(a.out.accounts, s.out.accounts)
  }

  /** A callee that is entered has been paid, sees the call's input, and starts with the gas that is
      left after its preparation; in its own context it finds no output but the accounts. */
  lemma CalleeFinds(w: World, depth: nat, a: Active, input: CallInput, starts: bool, shared: bool)
    requires Start(w, depth, a, input, starts, shared).err.None?
    ensures Finds(w, a, Start(w, depth, a, input, starts, shared).state, input, shared)
  {
    hide Prepare, Paid, PreparationPrice, HasCode, ProvidedGas, Moved, RestKept, PaymentError;
    var pay := Paid(w, a, input, shared).state;
    PaidExactly(w, a, input, shared);
    PreparedExactly(w, depth + 1, pay, input, starts);
    EnsureMoves(a.out.accounts, pay.out.accounts, input.vm.caller, input.recipient, AmountDue(input, shared));
  }

  lemma EnsureMoves(a: Accounts, b: Accounts, from: Address, to: Address, value: int)
    requires Moved(a, b, from, to, value) && RestKept(a, b)
    ensures Moved(a, Ensure(b, to), from, to, value) && RestKept(a, Ensure(b, to))
  {
    forall y
      ensures Account(Ensure(b, to), y).(balance := None, delta := 0) == Account(a, y).(balance := None, delta := 0)
    {
      assert Account(b, y).(balance := None, delta := 0) == Account(a, y).(balance := None, delta := 0);
    }
  }

  lemma StartIsTraced(w: World, depth: nat, a: Active, input: CallInput, c: Contract, shared: bool)
    requires Start(w, depth, a, input, c.starts, shared).err.None?
    ensures Seen(Start(w, depth, a, input, c.starts, shared).state) in TraceCall(w, depth, a, input, c, shared)
  {
    hide Prepare, Paid, CallExecution, TraceEnd;
    var pay := Paid(w, a, input, shared);
    assert TraceExecute(w, depth + 1, pay.state, input, c)[0] == Seen(Start(w, depth, a, input, c.starts,
      shared).state);
    assert TraceCall(w, depth, a, input, c, shared)[2] == TraceExecute(w, depth + 1, pay.state, input, c)[0];
  }

  /** The gas left to a frame, and none once it has overspent. */
  function Unspent(a: Active): nat {
    if a.points <= a.meter.forExecution then a.meter.forExecution - a.points else 0
  }

  /** A limit is taken for an unsigned number. */
  function Unsigned(limit: int64): nat {
    if limit < 0 then limit + TWO_64 else limit
  }

  /** A callee called by a contract finds what the contract asked for: destination, value, function
      and gas limit, the last one bounded by the gas left. */
  lemma ActionFinds(w: World, depth: nat, a: Active, act: Action)
    requires (act.CallDest? || act.CallSame?) && w.shards(a.rt.scAddress) == w.shards(act.destination)
    requires Start(w, depth, ActionFrom(a, act), ActionInput(a, act), act.callee.starts, act.CallSame?).err.None?
    ensures var s := Start(w, depth, ActionFrom(a, act), ActionInput(a, act), act.callee.starts, act.CallSame?).state;
            var sender := if act.CallDest? && act.byCaller then a.rt.input.caller else a.rt.scAddress;
            && Seen(s) in TraceAction(w, depth, a, act)
            && s.rt.scAddress == act.destination && s.rt.name == act.name
            && s.rt.input.caller == sender && s.rt.input.value == act.value && s.rt.input.callType == DirectCall
            && s.rt.input.gasLocked == 0 && s.meter.provided == s.rt.input.gasProvided
            && s.rt.input.gasProvided ==
               (if Unspent(a) < Unsigned(act.gasLimit) then Unspent(a) else Unsigned(act.gasLimit))
            && s.rt.readOnly == (a.rt.readOnly || (act.CallSame? && act.asReadOnly))
            && Moved(a.out.accounts, s.out.accounts, sender, act.destination, act.value)
  {
    hide Start, TraceCall, Moved, RestKept, PreparationPrice, HasCode;
    CalleeFinds(w, depth, ActionFrom(a, act), ActionInput(a, act), act.callee.starts, act.CallSame?);
    StartIsTraced(w, depth, ActionFrom(a, act), ActionInput(a, act), act.callee, act.CallSame?);
  }

  /** Across shards nothing is called or paid: the caller's gas is used up and its execution has
      failed. */
  lemma CallIsRefused(w: World, depth: nat, a: Active, act: Action)
    requires act.CallDest? || act.CallSame?
    requires w.shards(a.rt.scAddress) != w.shards(act.destination)
    ensures var b := Do(w, depth, a, act);
            && TraceAction(w, depth, a, act) == []
            && b == a.(points := b.points, out := a.out.(code := ExecutionFailed,
                                                         message := w.errorText(ErrSyncExecutionNotInSameShard)))
            && (a.meter.forExecution <= MAX_INT64 ==>
                  b.points == if a.points <= a.meter.forExecution then a.meter.forExecution else a.points)
  {
    DoesNotCall(w, depth, a, act);
  }

  /** What is recorded about an asynchronous call is what the contract asked for; what is left after
      the step and the lock is its gas. */
  lemma AsyncRecords(w: World, a: Active, e: Ending)
    requires e.AsyncCall? && AsyncStart(w, a, e).err.None?
    ensures var s := AsyncStart(w, a, e).state;
            && s.rt == a.rt.(asyncInfo := Some(AsyncCallInfo(e.destination, e.data, Unspent(s),
                 if e.hasCallback then GasLockedForAsync(w, a.codeSize) else 0, e.value)))
            && s == a.(rt := s.rt, points := s.points, out := a.out.(accounts := Ensure(a.out.accounts, e.destination)))
  {
    hide GasLockedForAsync;
  }

  /** The destination of a local asynchronous call finds the value and the function asked for, and
      all the gas left. */
  lemma DestinationFinds(w: World, depth: nat, a: Active, e: Ending)
    requires e.AsyncCall? && AsyncStart(w, a, e).err.None? && AsyncStart(w, a, e).state.rt.asyncInfo.Some?
    requires GetCode(w, e.destination).err.None?
    requires var s := AsyncStart(w, a, e).state;
             Start(w, depth, s, DestinationInput(s, s.rt.asyncInfo.value, e.name), e.callee.starts, false).err.None?
    ensures var s := AsyncStart(w, a, e).state;
            var d := Start(w, depth, s, DestinationInput(s, s.rt.asyncInfo.value, e.name), e.callee.starts,
                           false).state;
            && Seen(d) in TraceAsync(w, depth, a, e)
            && d.rt.scAddress == e.destination && d.rt.name == e.name
            && d.rt.input == VMInput(a.rt.scAddress, e.value, AsynchronousCall, Unspent(s),
                                     s.rt.asyncInfo.value.gasLocked)
            && d.meter.provided == Unspent(s)
            && Moved(a.out.accounts, d.out.accounts, a.rt.scAddress, e.destination, e.value)
  {
    hide Start, TraceCall, TraceCallback, CallBack, Dest, Moved, RestKept, PreparationPrice, HasCode, AsyncStart,
      GetCode, GasLockedForAsync;
    var s := AsyncStart(w, a, e).state;
    var input := DestinationInput(s, s.rt.asyncInfo.value, e.name);
    AsyncRecords(w, a, e);
    CalleeFinds(w, depth, s, input, e.callee.starts, false);
    StartIsTraced(w, depth, s, input, e.callee, false);
    KnownMoves(a.out.accounts, s.out.accounts, Start(w, depth, s, input, e.callee.starts, false).state.out.accounts,
               a.rt.scAddress, e.destination, e.value);
    var d := Seen(Start(w, depth, s, input, e.callee.starts, false).state);
    assert d in TraceLegs(w, depth, s, s.rt.asyncInfo.value, e);
  }

  lemma KnownMoves(a: Accounts, b: Accounts, c: Accounts, from: Address, to: Address, value: int)
    requires b == Ensure(a, to) && Moved(b, c, from, to, value)
    ensures Moved(a, c, from, to, value)
  {
  }

  /** A callback finds the callback function of the caller, its value and what is left of the gas
      after its price; nothing is moved, since what it brings has been paid by the destination. */
  lemma CallbackFinds(w: World, depth: nat, o: Outcome, info: AsyncCallInfo, e: Ending)
    requires e.AsyncCall? && CallbackGas(o, info) > CallbackCost(w, o)
    requires var back := RestoreGas(o.state, info.gasLocked);
             Start(w, depth, back, CallbackInput(w, back, info, o), e.callback.starts, false).err.None?
    ensures var back := RestoreGas(o.state, info.gasLocked);
            var s := Start(w, depth, back, CallbackInput(w, back, info, o), e.callback.starts, false).state;
            && Seen(s) in TraceCallback(w, depth, o, info, e)
            && s.rt.scAddress == o.state.rt.scAddress && s.rt.name.CallbackName?
            && s.rt.input.caller == info.destination && s.rt.input.callType == AsynchronousCallBack
            && s.rt.input.value == CallbackValue(o, o.state.rt.scAddress) && s.rt.input.gasLocked == 0
            && s.rt.input.gasProvided == Wrap64(o.vm.gasRemaining + info.gasLocked) - CallbackCost(w, o)
            && s.meter.provided == s.rt.input.gasProvided
            && NothingMoved(o.state.out.accounts, s.out.accounts)
  {
    hide Start, TraceCall, Dest, RestKept, PreparationPrice, HasCode, CallbackCost, CallbackValue;
    var back := RestoreGas(o.state, info.gasLocked);
    var input := CallbackInput(w, back, info, o);
    CalleeFinds(w, depth, back, input, e.callback.starts, false);
    StartIsTraced(w, depth, back, input, e.callback, false);
  }
}
