/** Theorems about a whole transaction: a direct call and everything it calls. */
module Transactions {
  import opened Overflow
  import opened Types
  import opened Sums
  import opened Ledger
  import opened Frame
  import opened Calls
  import opened Conservation
  import opened Traces
  import opened GasIdentity
  import opened CrossShard
  import opened Reachable
  import opened Carriers
  import opened SharedCalls
  import opened Exits
  import opened StorageView
  import opened Payments
  import opened Trails
  import opened Entries

  ghost function Started(w: World, input: CallInput, c: Contract, journal: seq<Bytes>, codeSize: uint64): Attempt {
    PrepareDirect(w, StartTransaction(input, journal, codeSize), input, c.starts)
  }

  /** The state in which the called method starts: a callback has looked up its pending calls. */
  ghost function MethodStart(w: World, s: Active, input: CallInput): Active {
    if input.vm.callType == AsynchronousCallBack then LookUpPending(w, s).state else s
  }

  /** The method of a transaction ran and did not fail. */
  ghost predicate MethodSucceeds(w: World, s: Attempt, input: CallInput, c: Contract, answer: Bytes) {
    && s.err.None?
    && CallMethod(w, s.state, input, c, answer).err.None?
    && CallMethod(w, s.state, input, c, answer).state.out.code == Ok
  }

  lemma StartOfTransaction(w: World, input: CallInput, c: Contract, journal: seq<Bytes>, codeSize: uint64)
    ensures var s := Started(w, input, c, journal, codeSize).state;
            && TotalDelta(s.out.accounts) == input.vm.value
            && (0 <= input.vm.value && SolventWorld(w) ==> Solvent(w, s.out.accounts))
            && CachesAgree(w, s.out.accounts)
            && s.rt.scAddress == input.recipient && s.rt.input == input.vm && s.out.code == Ok && s.journal == journal
  {
    hide SumMap;
    var empty: Accounts := map[];
    var accounts := AddTxValue(empty, input.recipient, input.vm.value);
    assert Deltas(empty) == map[] && TotalDelta(empty) == 0 by {
      NoDeltas();
    }
    PutDelta(empty, input.recipient, NEW_ACCOUNT.(delta := input.vm.value));
    assert accounts == empty[input.recipient := NEW_ACCOUNT.(delta := input.vm.value)];
  }

  lemma NoDeltas()
    ensures Deltas(map[]) == map[] && TotalDelta(map[]) == 0
  {
  }

  lemma StartedGasState(w: World, input: CallInput, c: Contract, journal: seq<Bytes>, codeSize: uint64)
    requires ProvidedGas(input.vm) <= MAX_INT64 && Started(w, input, c, journal, codeSize).err.None?
    ensures var s := Started(w, input, c, journal, codeSize).state;
            && GasInvariant(s) && s.points == 0 && s.meter.used == map[]
            && s.meter.provided == ProvidedGas(input.vm)
            && s.meter.initialCost + s.meter.forExecution == input.vm.gasProvided
            && GetCode(w, input.recipient).err.None? && s.rt.scAddress == input.recipient
  {
  }

  lemma OkTransaction(w: World, input: CallInput, c: Contract, journal: seq<Bytes>, codeSize: uint64, answer: Bytes)
    requires RunSmartContractCall(w, input, c, journal, codeSize, answer).vm.code == Ok
    ensures RunSmartContractCall(w, input, c, journal, codeSize, answer) ==
            GetVMOutput(w, CallMethod(w, Started(w, input, c, journal, codeSize).state, input, c, answer).state)
    ensures !input.name.InitName?
    ensures Started(w, input, c, journal, codeSize).err.None?
    ensures CallMethod(w, Started(w, input, c, journal, codeSize).state, input, c, answer).err.None?
  {
    hide GetVMOutput, Run, PrepareDirect, StartTransaction, SendCallback, LookUpPending;
  }

  lemma TransactionOutput(w: World, input: CallInput, c: Contract, journal: seq<Bytes>, codeSize: uint64, answer: Bytes)
    requires MethodSucceeds(w, Started(w, input, c, journal, codeSize), input, c, answer)
    ensures RunSmartContractCall(w, input, c, journal, codeSize, answer) ==
            GetVMOutput(w, CallMethod(w, Started(w, input, c, journal, codeSize).state, input, c, answer).state)
  {
    hide GetVMOutput, CallMethod, PrepareDirect, StartTransaction;
  }

  // ----- the method -----

  lemma LookUpKeeps(w: World, a: Active)
    ensures var b := LookUpPending(w, a).state;
            && b == SetAccounts(a, b.out.accounts)
            && Evolves(w, a, b) && Refines(w, a.out.accounts, b.out.accounts, [])
              && SameCarry(a.out.accounts, b.out.accounts)
            && (NoTransferGas(a.out.accounts) ==> NoTransferGas(b.out.accounts))
  {
    var x, key := a.storageAddress, w.pendingKey;
    var value := View(w, a.out.accounts, x, key);
    PutOverlayConserves(w, a.out.accounts, x, key, value);
    CacheRefines(w, a.out.accounts, x, key);
    OverlayCarry(a.out.accounts, x, key, value);
    if NoTransferGas(a.out.accounts) {
      OverlayNoGas(a.out.accounts, x, key, value);
    }
  }

  /** How the method of a transaction ends: nothing ran, the run failed or overspent, or it ended
      with an answer, another look at the pending calls, or nothing more. */
  lemma MethodCases(w: World, s: Active, input: CallInput, c: Contract, answer: Bytes)
    ensures var m := MethodStart(w, s, input); var r := Run(w, 0, m, c.body); var b := CallMethod(w, s, input, c,
            answer);
            || b.state == s || b.state == m || b.state == LookUpPending(w, m).state
            || (c.entry.Found? && !input.name.InitName? && r.err.None? && r.state.points <= r.state.meter.forExecution
                && b == match input.vm.callType
                        case AsynchronousCall => SendCallback(w, r.state, answer)
                        case AsynchronousCallBack => LookUpPending(w, r.state)
                        case DirectCall => r)
            || (c.entry.Found? && b.err.Some? && b.state == r.state)
    ensures CallMethod(w, s, input, c, answer).err.None? && c.entry.Found? ==>
              var r := Run(w, 0, MethodStart(w, s, input), c.body);
              && r.err.None? && r.state.points <= r.state.meter.forExecution
              && CallMethod(w, s, input, c, answer) == match input.vm.callType
                                                       case AsynchronousCall => SendCallback(w, r.state, answer)
                                                       case AsynchronousCallBack => LookUpPending(w, r.state)
                                                       case DirectCall => r
    ensures CallMethod(w, s, input, c, answer).err.None? && !c.entry.Found? ==>
              input.vm.callType == AsynchronousCallBack
              && CallMethod(w, s, input, c, answer).state == LookUpPending(w, MethodStart(w, s, input)).state
  {
    hide Run, SendCallback, LookUpPending;
  }

  lemma MethodEvolves(w: World, s: Active, input: CallInput, c: Contract, answer: Bytes)
    ensures Evolves(w, s, MethodStart(w, s, input))
    ensures Evolves(w, s, CallMethod(w, s, input, c, answer).state)
  {
    hide Evolves, Run, SendCallback, LookUpPending, CallMethod;
    var m := MethodStart(w, s, input);
    var r := Run(w, 0, m, c.body).state;
    EvolvesSelf(w, s);
    LookUpKeeps(w, s);
    LookUpKeeps(w, m);
    LookUpKeeps(w, r);
    RunEvolves(w, 0, m, c.body);
    AnswerEvolves(w, r, answer);
    EvolvesTransitive(w, s, m, LookUpPending(w, m).state);
    EvolvesTransitive(w, s, m, r);
    EvolvesTransitive(w, s, r, LookUpPending(w, r).state);
    EvolvesTransitive(w, s, r, SendCallback(w, r, answer).state);
    MethodCases(w, s, input, c, answer);
  }

  lemma EvolvesSelf(w: World, a: Active)
    ensures Evolves(w, a, a)
  {
  }

  lemma AnswerEvolves(w: World, a: Active, answer: Bytes)
    ensures Evolves(w, a, SendCallback(w, a, answer).state)
  {
    TransferEvolves(w, a, a.rt.input.caller, a.rt.scAddress, GasLeft(a), 0, a.rt.input.value, answer,
                    AsynchronousCallBack);
  }

  // ----- failures -----

  /** The first reason why the called method does not run, if there is one. */
  function Refusal(w: World, input: CallInput, c: Contract): Option<Error> {
    var x, isCallback := input.recipient, input.vm.callType == AsynchronousCallBack;
    var provided := if isCallback then Cap(input.vm.gasProvided + input.vm.gasLocked) else input.vm.gasProvided;
    if provided < w.schedule.getCode then Some(ErrNotEnoughGas)
    else if x !in w.balances || !HasCode(w, x) then Some(ErrContractNotFound)
    else if input.vm.gasProvided < PreparationPrice(w, x) then Some(ErrNotEnoughGas)
    else if !c.starts then Some(ErrContractInvalid)
    else if input.name.InitName? then Some(ErrInitFuncCalledInRun)
    else if input.name.CallbackName? && !isCallback then Some(ErrCallBackFuncCalledInRun)
    else if isCallback && (x, w.pendingKey) in w.storage && w.storage[(x, w.pendingKey)] != [] then
      Some(ErrPendingCallbacks)
    else if !c.entry.Found? && !isCallback then Some(ErrFuncNotFound)
    else None
  }

  lemma StartedExactly(w: World, input: CallInput, c: Contract, journal: seq<Bytes>, codeSize: uint64)
    ensures var s, x := Started(w, input, c, journal, codeSize), input.recipient;
            var provided := if input.vm.callType == AsynchronousCallBack
                            then Cap(input.vm.gasProvided + input.vm.gasLocked) else input.vm.gasProvided;
            && s.state.out.message == [] && s.state.storageAddress == x
            && s.err == (if provided < w.schedule.getCode then Some(ErrNotEnoughGas)
                         else if x !in w.balances || !HasCode(w, x) then Some(ErrContractNotFound)
                         else if input.vm.gasProvided < PreparationPrice(w, x) then Some(ErrNotEnoughGas)
                         else if !c.starts then Some(ErrContractInvalid) else None)
            && (s.err.None? ==>
                  && s.state.rt == RuntimeState(x, input.vm, input.name, false, None) && s.state.points == 0
                  && s.state.codeSize == w.codeSizes[x]
                  && s.state.meter == Meter(provided, PreparationPrice(w, x),
                       input.vm.gasProvided - PreparationPrice(w, x), map[]))
  {
    hide InitialCost, PreparationPrice;
    if HasCode(w, input.recipient) {
      PriceIs(w, input.recipient);
    }
  }

  lemma PendingIs(w: World, input: CallInput, c: Contract, journal: seq<Bytes>, codeSize: uint64)
    ensures var s, x := Started(w, input, c, journal, codeSize).state, input.recipient;
            LookUpPending(w, s).err == if (x, w.pendingKey) in w.storage && w.storage[(x, w.pendingKey)] != []
                                       then Some(ErrPendingCallbacks) else None
    ensures LookUpPending(w, Started(w, input, c, journal, codeSize).state).state.out.message == []
  {
    hide Started;
    StartedExactly(w, input, c, journal, codeSize);
    StartsFromChain(w, input, c, journal, codeSize, input.recipient, w.pendingKey);
  }

  /** A transaction that is refused tells the node why, and nothing else: its code, or that of what
      stands against it, and the error's text. */
  lemma TransactionRefused(
    w: World, input: CallInput, c: Contract, journal: seq<Bytes>, codeSize: uint64, answer: Bytes)
    requires Refusal(w, input, c).Some?
    ensures IsFailure(w, RunSmartContractCall(w, input, c, journal, codeSize, answer).vm,
                      Refusal(w, input, c).value, [])
  {
    hide Started, IsFailure, CreateErrorOutput, GetVMOutput, Run, SendCallback, LookUpPending, HasCode;
    StartedExactly(w, input, c, journal, codeSize);
    PendingIs(w, input, c, journal, codeSize);
    var s := Started(w, input, c, journal, codeSize);
    var err := Refusal(w, input, c).value;
    CallIs(w, input, c, journal, codeSize, answer);
    ErrorOutputIs(w, s.state, err);
    ErrorOutputIs(w, CallMethod(w, s.state, input, c, answer).state, err);
  }

  lemma CallIs(w: World, input: CallInput, c: Contract, journal: seq<Bytes>, codeSize: uint64, answer: Bytes)
    ensures var s := Started(w, input, c, journal, codeSize);
            var r := CallMethod(w, s.state, input, c, answer);
            RunSmartContractCall(w, input, c, journal, codeSize, answer) ==
            if s.err.Some? then CreateErrorOutput(w, s.state, s.err.value)
            else if r.err.Some? then CreateErrorOutput(w, r.state, r.err.value) else GetVMOutput(w, r.state)
  {
    hide CallMethod, CreateErrorOutput, GetVMOutput, PrepareDirect, StartTransaction;
  }

  /** A run fails by its breakpoint, or because its asynchronous call could not be paid for, parsed or
      sent; a destination or a callback that fails here does not fail it. */
  lemma {:induction false} RunEnds(w: World, depth: nat, a: Active, p: Program)
    ensures var s, e := StateAtExit(w, depth, a, p), ExitOf(p);
            match e
            case Return => Run(w, depth, a, p) == Attempt(s, None)
            case Break(err) => Run(w, depth, a, p) == Attempt(s, Some(err))
            case AsyncCall(_, _, _, _, _, _, _, _) =>
              var start, err := AsyncStart(w, s, e), Run(w, depth, a, p).err;
              if start.err.Some? then Run(w, depth, a, p) == start
              else start.state.rt.asyncInfo.Some?
                   && err == if GetCode(w, e.destination).err.None? then None
                             else SendAsync(w, start.state, start.state.rt.asyncInfo.value).err
    decreases p
  {
    hide Do, AsyncStart, SendAsync, CallLocally, GetCode, RunAsync;
    match p
    case Step(act, rest) => RunEnds(w, depth, Do(w, depth, a, act), rest);
    case End(e) =>
      if e.AsyncCall? {
        AsyncIs(w, depth, a, e);
      }
  }

  /** A transaction that is not refused runs its method. The node is told of the run's own failure,
      of overspending, of an answer that cannot be sent or of a gas mismatch, with what the contract
      said last; and otherwise what the contract left as return code and message. */
  lemma TransactionEnds(
    w: World, input: CallInput, c: Contract, journal: seq<Bytes>, codeSize: uint64, answer: Bytes)
    requires Refusal(w, input, c).None? && c.entry.Found?
    ensures var m := MethodStart(w, Started(w, input, c, journal, codeSize).state, input);
            var vm, r := RunSmartContractCall(w, input, c, journal, codeSize, answer).vm, Run(w, 0, m, c.body);
            var said := r.state.out.message;
            && Started(w, input, c, journal, codeSize).err.None?
            && said == Or(RunTrail(w, 0, m, c.body).message, [])
            && (r.err.Some? ==> IsFailure(w, vm, r.err.value, said))
            && (r.err.None? && r.state.points > r.state.meter.forExecution ==>
                  IsFailure(w, vm, ErrNotEnoughGas, said))
            && (r.err.None? && r.state.points <= r.state.meter.forExecution ==>
                  var b := AfterRun(w, r.state, input, answer);
                  if b.err.Some? then IsFailure(w, vm, b.err.value, b.state.out.message)
                  else (vm.code == r.state.out.code && vm.message == said) || IsFailure(w, vm, ErrGasMismatch, said))
  {
    hide Started, IsFailure, CreateErrorOutput, GetVMOutput, Run, HasCode, RunTrail, Follows, Keeps, AfterRun,
      CallMethod, MethodStart, Evolves;
    StartedExactly(w, input, c, journal, codeSize);
    CallIs(w, input, c, journal, codeSize, answer);
    var s := Started(w, input, c, journal, codeSize).state;
    var m := MethodStart(w, s, input);
    var r := Run(w, 0, m, c.body);
    MethodRuns(w, input, c, journal, codeSize, answer);
    Said(w, input, c, journal, codeSize);
    ErrorOutputIs(w, r.state, ErrNotEnoughGas);
    if r.err.Some? {
      ErrorOutputIs(w, r.state, r.err.value);
    } else if r.state.points <= r.state.meter.forExecution {
      var b := AfterRun(w, r.state, input, answer);
      AfterRunKeeps(w, r.state, input, answer);
      if b.err.Some? {
        ErrorOutputIs(w, b.state, b.err.value);
      } else {
        MethodKnown(w, input, c, journal, codeSize, answer);
        ClosedOrMismatch(w, b.state);
      }
    }
  }

  /** A contract called from another shard answers; a callback looks up its pending calls again. */
  function AfterRun(w: World, r: Active, input: CallInput, answer: Bytes): Attempt {
    match input.vm.callType
    case AsynchronousCall => SendCallback(w, r, answer)
    case AsynchronousCallBack => LookUpPending(w, r)
    case DirectCall => Attempt(r, None)
  }

  lemma AfterRunKeeps(w: World, r: Active, input: CallInput, answer: Bytes)
    ensures var b := AfterRun(w, r, input, answer);
            b.err.None? ==> b.state.out.code == r.out.code && b.state.out.message == r.out.message
  {
    hide Transfer, View, PutOverlay;
    TransferOnly(w, r, r.rt.input.caller, r.rt.scAddress, GasLeft(r), 0, r.rt.input.value, answer,
                 AsynchronousCallBack);
  }

  lemma MethodRuns(w: World, input: CallInput, c: Contract, journal: seq<Bytes>, codeSize: uint64, answer: Bytes)
    requires Refusal(w, input, c).None? && c.entry.Found?
    ensures var s := Started(w, input, c, journal, codeSize).state;
            var r := Run(w, 0, MethodStart(w, s, input), c.body);
            CallMethod(w, s, input, c, answer) ==
            if r.err.Some? then r
            else if r.state.points > r.state.meter.forExecution then Attempt(r.state, Some(ErrNotEnoughGas))
            else AfterRun(w, r.state, input, answer)
  {
    hide Started, Run, HasCode, SendCallback, LookUpPending;
    StartedExactly(w, input, c, journal, codeSize);
    PendingIs(w, input, c, journal, codeSize);
  }

  lemma Said(w: World, input: CallInput, c: Contract, journal: seq<Bytes>, codeSize: uint64)
    ensures var m := MethodStart(w, Started(w, input, c, journal, codeSize).state, input);
            Run(w, 0, m, c.body).state.out.message == Or(RunTrail(w, 0, m, c.body).message, [])
  {
    hide Started, Run, RunTrail, Pays, Sends, LookUpPending;
    StartedExactly(w, input, c, journal, codeSize);
    PendingIs(w, input, c, journal, codeSize);
    RunFollows(w, 0, MethodStart(w, Started(w, input, c, journal, codeSize).state, input), c.body);
  }

  lemma MethodKnown(w: World, input: CallInput, c: Contract, journal: seq<Bytes>, codeSize: uint64, answer: Bytes)
    requires Started(w, input, c, journal, codeSize).err.None?
    ensures Known(CallMethod(w, Started(w, input, c, journal, codeSize).state, input, c, answer).state)
  {
    hide Started, CallMethod, Conserves;
    StartedExactly(w, input, c, journal, codeSize);
    MethodEvolves(w, Started(w, input, c, journal, codeSize).state, input, c, answer);
  }

  // ----- balances -----

  /** In a successful transaction the balance deltas add up to the value sent with it, and no
      account is overdrawn, whatever the contracts did. */
  lemma TransactionConservesValue(
    w: World, input: CallInput, c: Contract, journal: seq<Bytes>, codeSize: uint64, answer: Bytes)
    requires RunSmartContractCall(w, input, c, journal, codeSize, answer).vm.code == Ok
    ensures var accounts := RunSmartContractCall(w, input, c, journal, codeSize, answer).vm.accounts;
            && TotalDelta(accounts) == input.vm.value
            && (0 <= input.vm.value && SolventWorld(w) ==> Solvent(w, accounts))
  {
    hide RunSmartContractCall, CallMethod, GetVMOutput, Started;
    OkTransaction(w, input, c, journal, codeSize, answer);
    StartOfTransaction(w, input, c, journal, codeSize);
    var s := Started(w, input, c, journal, codeSize).state;
    var r := CallMethod(w, s, input, c, answer);
    MethodEvolves(w, s, input, c, answer);
    GetVMOutputEvolves(w, r.state);
    ConservesTransitive(w, s.out.accounts, r.state.out.accounts, GetVMOutput(w, r.state).state.out.accounts);
    OkOutputIsState(w, r.state);
  }

  /** The same in every state on the way, inside every nested call, committed or not; and there every
      balance that has been cached is the chain's, so that every balance is read exactly. */
  lemma TransactionStates(w: World, input: CallInput, c: Contract, journal: seq<Bytes>, codeSize: uint64)
    ensures var events := Trace(w, 0, MethodStart(w, Started(w, input, c, journal, codeSize).state, input), c.body);
            forall i :: 0 <= i < |events| ==>
              && TotalDelta(events[i].state.out.accounts) == input.vm.value
              && (0 <= input.vm.value && SolventWorld(w) ==> Solvent(w, events[i].state.out.accounts))
              && CachesAgree(w, events[i].state.out.accounts)
  {
    hide Started, Trace;
    var s := Started(w, input, c, journal, codeSize).state;
    var m := MethodStart(w, s, input);
    StartOfTransaction(w, input, c, journal, codeSize);
    MethodEvolves(w, s, input, c, []);
    TraceConserves(w, 0, m, c.body);
    var events := Trace(w, 0, m, c.body);
    forall i | 0 <= i < |events|
      ensures TotalDelta(events[i].state.out.accounts) == input.vm.value
      ensures 0 <= input.vm.value && SolventWorld(w) ==> Solvent(w, events[i].state.out.accounts)
      ensures CachesAgree(w, events[i].state.out.accounts)
    {
      assert Conserves(w, m.out.accounts, events[i].state.out.accounts);
    }
  }

  // ----- the output -----

  /** A contract that was called from another shard sends its answer when its run has ended. */
  ghost function MethodTrail(w: World, m: Active, input: CallInput, c: Contract, answer: Bytes): Trail {
    if !c.entry.Found? then NOTHING
    else if input.vm.callType != AsynchronousCall then RunTrail(w, 0, m, c.body)
    else Then(RunTrail(w, 0, m, c.body), AnswerTrail(Run(w, 0, m, c.body).state, input, answer))
  }

  function AnswerTrail(r: Active, input: CallInput, answer: Bytes): Trail {
    NOTHING.(payments := [Payment(input.recipient, input.vm.caller, input.vm.value)],
             sent := [Sending(input.vm.caller, OutputTransfer(input.vm.value, GasLeft(r), 0, answer,
                                                              AsynchronousCallBack, input.recipient))])
  }

  /** What a successful transaction tells the node: every balance changed by the value sent with it
      and by the payments that were asked for and not undone; transfers, return data, logs and
      journal are those asked for, in order, the answer's last. */
  lemma TransactionTrail(
    w: World, input: CallInput, c: Contract, journal: seq<Bytes>, codeSize: uint64, answer: Bytes)
    requires RunSmartContractCall(w, input, c, journal, codeSize, answer).vm.code == Ok
    ensures var o := RunSmartContractCall(w, input, c, journal, codeSize, answer);
            var t := MethodTrail(w, MethodStart(w, Started(w, input, c, journal, codeSize).state, input), input, c,
                                 answer);
            && (forall x :: DeltaOf(o.vm.accounts, x)
                            == (if x == input.recipient then input.vm.value else 0) + Net(t.payments, x))
            && (forall x :: Account(o.vm.accounts, x).transfers == SentTo(t.sent, x))
            && o.vm.returnData == t.returned && o.vm.logs == t.logs && o.state.journal == journal + t.journal
            && o.vm.message == Or(t.message, [])
  {
    hide RunSmartContractCall, CallMethod, GetVMOutput, Started, MethodTrail, MethodStart, Keeps, Follows;
    OkTransaction(w, input, c, journal, codeSize, answer);
    var s := Started(w, input, c, journal, codeSize).state;
    var b := CallMethod(w, s, input, c, answer).state;
    var t := MethodTrail(w, MethodStart(w, s, input), input, c, answer);
    StartOfTransaction(w, input, c, journal, codeSize);
    MethodFollows(w, s, input, c, answer);
    KeepsSelf(s);
    OutputKeeps(w, b);
    FollowsBetween(s, s, b, GetVMOutput(w, b).state, t);
    OkOutputIsState(w, b);
    FollowsFromStart(w, input, c, journal, codeSize, GetVMOutput(w, b).state, t);
  }

  lemma FollowsFromStart(
    w: World, input: CallInput, c: Contract, journal: seq<Bytes>, codeSize: uint64, b: Active, t: Trail)
    requires Follows(Started(w, input, c, journal, codeSize).state, b, t)
    ensures forall x :: DeltaOf(b.out.accounts, x)
                        == (if x == input.recipient then input.vm.value else 0) + Net(t.payments, x)
    ensures forall x :: Account(b.out.accounts, x).transfers == SentTo(t.sent, x)
    ensures b.out.returnData == t.returned && b.out.logs == t.logs && b.journal == journal + t.journal
            && b.out.message == Or(t.message, [])
  {
    hide Started;
    var s := Started(w, input, c, journal, codeSize).state;
    StartedOutput(w, input, c, journal, codeSize);
    forall x
      ensures Account(b.out.accounts, x).transfers == SentTo(t.sent, x)
    {
      assert Account(s.out.accounts, x).transfers == [];
      assert [] + SentTo(t.sent, x) == SentTo(t.sent, x);
    }
    assert [] + t.returned == t.returned && [] + t.logs == t.logs;
  }

  lemma StartedOutput(w: World, input: CallInput, c: Contract, journal: seq<Bytes>, codeSize: uint64)
    ensures var s := Started(w, input, c, journal, codeSize).state;
            && (forall x :: DeltaOf(s.out.accounts, x) == if x == input.recipient then input.vm.value else 0)
            && (forall x :: Account(s.out.accounts, x).transfers == [])
            && s.out.returnData == [] && s.out.logs == [] && s.out.message == [] && s.journal == journal
  {
  }

  lemma MethodFollows(w: World, s: Active, input: CallInput, c: Contract, answer: Bytes)
    requires CallMethod(w, s, input, c, answer).err.None? && s.rt.scAddress == input.recipient && s.rt.input == input.vm
    ensures Follows(s, CallMethod(w, s, input, c, answer).state,
                    MethodTrail(w, MethodStart(w, s, input), input, c, answer))
  {
    hide Follows, Keeps, Run, SendCallback, LookUpPending, CallMethod, RunTrail, Evolves, Then, AnswerTrail;
    var m, b := MethodStart(w, s, input), CallMethod(w, s, input, c, answer).state;
    LookUpLeaves(w, s);
    LookUpLeaves(w, m);
    KeepsSelf(s);
    KeepsSelf(b);
    MethodCases(w, s, input, c, answer);
    if !c.entry.Found? {
      KeepsTwice(s, m, b);
      KeepsFollows(s, b);
    } else {
      var r := Run(w, 0, m, c.body).state;
      RunFollows(w, 0, m, c.body);
      LookUpLeaves(w, r);
      KeepsSelf(r);
      FollowsBetween(s, m, r, if input.vm.callType == AsynchronousCall then r else b, RunTrail(w, 0, m, c.body));
      if input.vm.callType == AsynchronousCall {
        MethodEvolves(w, s, input, c, answer);
        RunEvolves(w, 0, m, c.body);
        AnswerFollows(w, s, r, input, answer);
        FollowsThen(s, r, b, RunTrail(w, 0, m, c.body), AnswerTrail(r, input, answer));
      }
    }
  }

  lemma LookUpLeaves(w: World, a: Active)
    ensures Keeps(a, LookUpPending(w, a).state)
  {
    hide Keeps, View, PutOverlay;
    TouchKeeps(a, LookUpPending(w, a).state, a.storageAddress, w.pendingKey,
               View(w, a.out.accounts, a.storageAddress, w.pendingKey));
  }

  lemma AnswerFollows(w: World, s: Active, r: Active, input: CallInput, answer: Bytes)
    requires Evolves(w, s, r) && s.rt.scAddress == input.recipient && s.rt.input == input.vm
    requires SendCallback(w, r, answer).err.None?
    ensures Follows(r, SendCallback(w, r, answer).state, AnswerTrail(r, input, answer))
  {
    hide Follows, Transfer, GasLeft, Moved, Appended, Conserves;
    var to, self, value := r.rt.input.caller, r.rt.scAddress, r.rt.input.value;
    var t := Transfer(w, r, to, self, GasLeft(r), 0, value, answer, AsynchronousCallBack).state;
    TransferRecords(w, r, to, self, GasLeft(r), 0, value, answer, AsynchronousCallBack);
    TransferOnly(w, r, to, self, GasLeft(r), 0, value, answer, AsynchronousCallBack);
    TransferFollows(r, t, self, to, OutputTransfer(value, GasLeft(r), 0, answer, AsynchronousCallBack, self));
    PointsAside(r, t, SendCallback(w, r, answer).state, AnswerTrail(r, input, answer));
  }

  // ----- storage -----

  ghost function TransactionWrites(w: World, m: Active, c: Contract): seq<Write> {
    if c.entry.Found? then Writes(w, 0, m, c.body) else []
  }

  /** What a successful transaction leaves in the storage: the last write that was neither
      rejected nor rolled back, or else what the chain holds. */
  lemma TransactionStorage(
    w: World, input: CallInput, c: Contract, journal: seq<Bytes>, codeSize: uint64, answer: Bytes)
    requires RunSmartContractCall(w, input, c, journal, codeSize, answer).vm.code == Ok
    ensures var m := MethodStart(w, Started(w, input, c, journal, codeSize).state, input);
            var accounts := RunSmartContractCall(w, input, c, journal, codeSize, answer).vm.accounts;
            forall x, key :: View(w, accounts, x, key)
                             == Lookup(TransactionWrites(w, m, c), x, key,
                                       if (x, key) in w.storage then w.storage[(x, key)] else [])
  {
    hide RunSmartContractCall, CallMethod, GetVMOutput, TransactionWrites, Started;
    OkTransaction(w, input, c, journal, codeSize, answer);
    var s := Started(w, input, c, journal, codeSize).state;
    var b := CallMethod(w, s, input, c, answer).state;
    var writes := TransactionWrites(w, MethodStart(w, s, input), c);
    MethodRefines(w, s, input, c, answer);
    GetVMOutputStorage(w, b);
    OkOutputIsState(w, b);
    var accounts := GetVMOutput(w, b).vm.accounts;
    SameStorageSelf(s.out.accounts);
    RefinesBetween(w, s.out.accounts, s.out.accounts, b.out.accounts, accounts, writes);
    forall x, key
      ensures View(w, accounts, x, key)
              == Lookup(writes, x, key, if (x, key) in w.storage then w.storage[(x, key)] else [])
    {
      StartsFromChain(w, input, c, journal, codeSize, x, key);
    }
  }

  lemma SameStorageSelf(accounts: Accounts)
    ensures SameStorage(accounts, accounts)
  {
  }

  lemma StartsFromChain(
    w: World, input: CallInput, c: Contract, journal: seq<Bytes>, codeSize: uint64, x: Address, key: Bytes)
    ensures View(w, Started(w, input, c, journal, codeSize).state.out.accounts, x, key) == ChainValue(w, x, key)
  {
  }

  lemma MethodRefines(w: World, s: Active, input: CallInput, c: Contract, answer: Bytes)
    requires CallMethod(w, s, input, c, answer).err.None?
    ensures Refines(w, s.out.accounts, CallMethod(w, s, input, c, answer).state.out.accounts,
                    TransactionWrites(w, MethodStart(w, s, input), c))
  {
    hide Refines, Run, SendCallback, LookUpPending, CallMethod, TransactionWrites, Evolves, SameCarry, NoTransferGas,
      MethodStart;
    var m := MethodStart(w, s, input);
    var writes := TransactionWrites(w, m, c);
    LookUpKeeps(w, s);
    LookUpKeeps(w, m);
    SameStorageSelf(s.out.accounts);
    SameRefines(w, s.out.accounts, s.out.accounts);
    MethodCases(w, s, input, c, answer);
    MethodStartIs(w, s, input, c);
    if c.entry.Found? {
      var r := Run(w, 0, m, c.body).state;
      RunRefines(w, 0, m, c.body);
      LookUpKeeps(w, r);
      AnswerRefines(w, r, answer);
      RefinesTransitive(w, s.out.accounts, m.out.accounts, r.out.accounts, [], writes);
      assert [] + writes == writes && writes + [] == writes;
      RefinesTransitive(w, s.out.accounts, r.out.accounts, CallMethod(w, s, input, c, answer).state.out.accounts,
                        writes, []);
    } else {
      RefinesTransitive(w, s.out.accounts, m.out.accounts, LookUpPending(w, m).state.out.accounts, [], []);
      assert [] + [] == writes;
    }
  }

  lemma MethodStartIs(w: World, s: Active, input: CallInput, c: Contract)
    ensures var m := MethodStart(w, s, input); m == s || m == LookUpPending(w, s).state
    ensures TransactionWrites(w, MethodStart(w, s, input), c) ==
            if c.entry.Found? then Writes(w, 0, MethodStart(w, s, input), c.body) else []
  {
  }

  lemma AnswerRefines(w: World, a: Active, answer: Bytes)
    ensures Refines(w, a.out.accounts, SendCallback(w, a, answer).state.out.accounts, [])
    ensures Refines(w, a.out.accounts, a.out.accounts, [])
  {
    var b := SendCallback(w, a, answer).state;
    TransferStorage(w, a, a.rt.input.caller, a.rt.scAddress, GasLeft(a), 0, a.rt.input.value, answer,
                    AsynchronousCallBack);
    SameRefines(w, a.out.accounts, b.out.accounts);
    SameRefines(w, a.out.accounts, a.out.accounts);
  }

  // ----- gas -----

  /** The transaction's gas is all visible from the start. */
  predicate Unlocked(vm: VMInput) {
    vm.callType == AsynchronousCallBack ==> vm.gasLocked == 0
  }

  lemma MethodMetered(w: World, input: CallInput, c: Contract, journal: seq<Bytes>, codeSize: uint64, answer: Bytes)
    requires input.vm.gasProvided <= MAX_INT64 && Unlocked(input.vm)
    requires Started(w, input, c, journal, codeSize).err.None?
    ensures var s := Started(w, input, c, journal, codeSize).state;
            var b := CallMethod(w, s, input, c, answer).state;
            Metered(b) && b.meter.provided == input.vm.gasProvided
  {
    hide CallMethod, Conserves;
    StartedGasState(w, input, c, journal, codeSize);
    MethodEvolves(w, Started(w, input, c, journal, codeSize).state, input, c, answer);
  }

  /** For every tree, without exception: a transaction whose method succeeds is accepted exactly
      when `Accepted` says so. */
  lemma TransactionChecked(
    w: World, input: CallInput, c: Contract, journal: seq<Bytes>, codeSize: uint64, answer: Bytes)
    requires input.vm.gasProvided <= MAX_INT64 && Unlocked(input.vm)
    requires MethodSucceeds(w, Started(w, input, c, journal, codeSize), input, c, answer)
    ensures RunSmartContractCall(w, input, c, journal, codeSize, answer).vm.code == Ok
            <==> Accepted(CallMethod(w, Started(w, input, c, journal, codeSize).state, input, c, answer).state)
  {
    hide RunSmartContractCall, CallMethod, CloseGas, GasMatches, Accepted, Metered, Started;
    var b := CallMethod(w, Started(w, input, c, journal, codeSize).state, input, c, answer).state;
    TransactionOutput(w, input, c, journal, codeSize, answer);
    MethodMetered(w, input, c, journal, codeSize, answer);
    AcceptedExactly(b);
    CloseGasCode(b);
  }

  /** The run of a transaction, by its start. */
  ghost predicate MethodWithin(w: World, m: Active, c: Contract) {
    c.entry.Found? ==> SharedWithin(Trace(w, 0, m, c.body))
  }

  /** The method's run in a transaction that is not itself an asynchronous call. */
  lemma MethodRan(w: World, s: Active, input: CallInput, c: Contract, answer: Bytes)
    requires GasInvariant(s) && s.points == 0 && s.meter.used == map[]
    requires GasFree(w, c.body) && input.vm.callType != AsynchronousCall && MethodWithin(w, MethodStart(w, s, input), c)
    requires CallMethod(w, s, input, c, answer).err.None?
    ensures var m := MethodStart(w, s, input); var b := CallMethod(w, s, input, c, answer).state;
            && Accounted(m, b, InnerGas(w, 0, m, c), OwnGas(w, 0, m, c))
            && m.meter == s.meter && m.rt == s.rt && m.points == 0
            && b.meter.(used := map[]) == s.meter && b.rt.scAddress == s.rt.scAddress
            && b.points <= b.meter.forExecution
  {
    hide Run, SendCallback, LookUpPending, CallMethod, CommittedGas, BurnedGas, Conserves, Refines, SharedWithin, Trace;
    var m := MethodStart(w, s, input);
    LookUpKeeps(w, s);
    LookUpKeeps(w, m);
    MethodCases(w, s, input, c, answer);
    LookedUp(s, m);
    StartedGas(w, 0, m, c);
    if c.entry.Found? {
      var r := Run(w, 0, m, c.body).state;
      LookUpKeeps(w, r);
      LookedUpAccounted(m, r, CallMethod(w, s, input, c, answer).state, CommittedGas(w, 0, m, c.body),
                        BurnedGas(w, 0, m, c.body));
    } else {
      LookedUpAccounted(m, m, CallMethod(w, s, input, c, answer).state, map[], 0);
    }
  }

  lemma LookedUp(a: Active, b: Active)
    requires GasInvariant(a) && b == SetAccounts(a, b.out.accounts)
    requires a.out.accounts.Keys <= b.out.accounts.Keys && NoTransferGas(b.out.accounts)
    ensures GasInvariant(b)
  {
  }

  lemma LookedUpAccounted(m: Active, r: Active, b: Active, committed: map<Address, int>, burned: int)
    requires Accounted(m, r, committed, burned) && b == SetAccounts(r, b.out.accounts)
    requires r.out.accounts.Keys <= b.out.accounts.Keys && NoTransferGas(b.out.accounts)
    ensures Accounted(m, b, committed, burned)
  {
  }

  /** A successful method call of a transaction always passes the runtime gas check, its accounts
      and the remaining gas add up to the gas provided, and every account is charged what its own
      frames burned. */
  lemma TransactionGas(w: World, input: CallInput, c: Contract, journal: seq<Bytes>, codeSize: uint64, answer: Bytes)
    requires input.vm.gasProvided <= MAX_INT64 && GasFree(w, c.body) && input.vm.callType != AsynchronousCall
             && Unlocked(input.vm)
    requires MethodSucceeds(w, Started(w, input, c, journal, codeSize), input, c, answer)
    requires MethodWithin(w, MethodStart(w, Started(w, input, c, journal, codeSize).state, input), c)
    ensures var m := MethodStart(w, Started(w, input, c, journal, codeSize).state, input);
            var vm := RunSmartContractCall(w, input, c, journal, codeSize, answer).vm;
            && vm.code == Ok
            && SumMap(ReportedGas(vm.accounts)) + vm.gasRemaining == input.vm.gasProvided
            && (forall x :: At(GasReport(vm.accounts), x) == At(FrameReport(w, 0, m, c), x))
  {
    hide RunSmartContractCall, CallMethod, MethodStart, CloseGas, GetVMOutput, FrameReport, InnerGas, OwnGas,
      MethodWithin, Started;
    var s := Started(w, input, c, journal, codeSize).state;
    var m := MethodStart(w, s, input);
    TransactionOutput(w, input, c, journal, codeSize, answer);
    StartedGasState(w, input, c, journal, codeSize);
    MethodRan(w, s, input, c, answer);
    var b := CallMethod(w, s, input, c, answer).state;
    CheckGasUnlocked(w, b);
    ClosedCharge(b);
    ClosedReport(w, 0, m, b, CloseGas(b), c);
    forall x
      ensures At(GasReport(CloseGas(b).out.accounts), x) == At(FrameReport(w, 0, m, c), x)
    {
      ReportedAt(b, CloseGas(b), x);
      assert At(CloseGas(b).meter.used, x) == At(FrameReport(w, 0, m, c), x);
    }
  }

  lemma ReportedAt(a: Active, closed: Active, x: Address)
    requires GasInvariant(a) && Charged(a, closed)
    ensures At(GasReport(closed.out.accounts), x) == At(closed.meter.used, x)
  {
  }

  /** When callees may overspend in their caller's context, the transaction is accepted if and only
      if the called contract spent at least what the gas map holds for the others. */
  lemma SharedTransactionExactly(
    w: World, input: CallInput, c: Contract, journal: seq<Bytes>, codeSize: uint64, answer: Bytes)
    requires input.vm.gasProvided <= MAX_INT64 && GasFree(w, c.body) && input.vm.callType == DirectCall
    requires MethodSucceeds(w, Started(w, input, c, journal, codeSize), input, c, answer)
    ensures var b := CallMethod(w, Started(w, input, c, journal, codeSize).state, input, c, answer).state;
            RunSmartContractCall(w, input, c, journal, codeSize, answer).vm.code == Ok <==> OthersUsed(b) <= Spent(b)
  {
    hide RunSmartContractCall, Run, CarriedByCurrent, CarriedGas, OthersUsed, NoTransferGas, GasFree, Started;
    var s := Started(w, input, c, journal, codeSize).state;
    StartedGasState(w, input, c, journal, codeSize);
    TransactionChecked(w, input, c, journal, codeSize, answer);
    RunFree(w, 0, s, c.body);
    NothingOwn(Run(w, 0, s, c.body).state);
  }

  /** A callback delivered with locked gas: the execution gas is computed before the lock is
      opened, so a successful run passes the check exactly when nothing was locked. */
  lemma LockedCallbackIsRejected(
    w: World, input: CallInput, c: Contract, journal: seq<Bytes>, codeSize: uint64, answer: Bytes)
    requires input.vm.gasProvided + input.vm.gasLocked <= MAX_INT64 && GasFree(w, c.body)
    requires input.vm.callType == AsynchronousCallBack
    requires MethodSucceeds(w, Started(w, input, c, journal, codeSize), input, c, answer)
    requires MethodWithin(w, MethodStart(w, Started(w, input, c, journal, codeSize).state, input), c)
    ensures RunSmartContractCall(w, input, c, journal, codeSize, answer).vm.code == Ok <==> input.vm.gasLocked == 0
  {
    hide RunSmartContractCall, CallMethod, MethodStart, CloseGas, GetVMOutput, InnerGas, OwnGas, MethodWithin, Started;
    var s := Started(w, input, c, journal, codeSize).state;
    TransactionOutput(w, input, c, journal, codeSize, answer);
    StartedGasState(w, input, c, journal, codeSize);
    MethodRan(w, s, input, c, answer);
    CheckGasExact(w, CallMethod(w, s, input, c, answer).state);
  }

  // ----- leaving the shard -----

  /** A transaction that has nobody to answer. */
  lemma UnansweredExit(w: World, input: CallInput, c: Contract, journal: seq<Bytes>, codeSize: uint64, answer: Bytes)
    requires input.vm.gasProvided <= MAX_INT64 && input.vm.callType != AsynchronousCall && Unlocked(input.vm)
    requires ExitsOnly(w, c.body, true)
    requires MethodSucceeds(w, Started(w, input, c, journal, codeSize), input, c, answer)
    requires c.entry.Found? ==>
               SharedAccepted(w, 0, MethodStart(w, Started(w, input, c, journal, codeSize).state, input), c.body)
    ensures var vm := RunSmartContractCall(w, input, c, journal, codeSize, answer).vm;
            && vm.code == Ok
            && SumMap(GasReport(vm.accounts)) + CarriedGas(vm.accounts) + vm.gasRemaining == input.vm.gasProvided
  {
    hide RunSmartContractCall, CallMethod, Run, CloseGas, GetVMOutput, SharedAccepted, Conserves, LookUpPending,
      Started,
      Carrying, NoTransferGas, CarriedGas, CarriedOnly, SameCarry, Refines, ExitsOnly;
    var s := Started(w, input, c, journal, codeSize).state;
    var b := CallMethod(w, s, input, c, answer).state;
    TransactionOutput(w, input, c, journal, codeSize, answer);
    MethodMetered(w, input, c, journal, codeSize, answer);
    StartedGasState(w, input, c, journal, codeSize);
    MethodCarries(w, s, input, c, answer);
    MethodWithinGas(w, s, input, c, answer);
    MethodEvolves(w, s, input, c, answer);
    CarryingIsAccepted(w, b);
  }

  lemma MethodCarries(w: World, s: Active, input: CallInput, c: Contract, answer: Bytes)
    requires GasInvariant(s) && input.vm.callType != AsynchronousCall && ExitsOnly(w, c.body, true)
    requires CallMethod(w, s, input, c, answer).err.None?
    requires c.entry.Found? ==> SharedAccepted(w, 0, MethodStart(w, s, input), c.body)
    ensures Carrying(w, CallMethod(w, s, input, c, answer).state, 0)
  {
    hide CallMethod, Run, SharedAccepted, LookUpPending, Carrying, NoTransferGas, SameCarry, Refines, ExitsOnly,
      Evolves;
    var m := MethodStart(w, s, input);
    LookUpKeeps(w, s);
    LookedUp(s, m);
    NothingCarriedYet(w, m);
    MethodCases(w, s, input, c, answer);
    LookUpKeeps(w, m);
    if c.entry.Found? {
      var r := Run(w, 0, m, c.body).state;
      LeavingRun(w, 0, m, c.body);
      LookUpKeeps(w, r);
      StillCarrying(w, r, LookUpPending(w, r).state, 0, 0);
    } else {
      StillCarrying(w, m, LookUpPending(w, m).state, 0, 0);
    }
  }

  lemma MethodWithinGas(w: World, s: Active, input: CallInput, c: Contract, answer: Bytes)
    requires s.points == 0 && input.vm.callType != AsynchronousCall
    requires CallMethod(w, s, input, c, answer).err.None?
    ensures var b := CallMethod(w, s, input, c, answer).state; b.points <= b.meter.forExecution
  {
    hide CallMethod, Run, LookUpPending, Refines, SameCarry, Evolves, NoTransferGas;
    var m := MethodStart(w, s, input);
    MethodCases(w, s, input, c, answer);
    LookUpKeeps(w, s);
    LookUpKeeps(w, m);
    LookUpKeeps(w, Run(w, 0, m, c.body).state);
  }

  /** The called contract itself leaves the shard: it reports no gas remaining, and the one transfer
      on record carries the limit and the lock that its asynchronous call computed. */
  lemma CrossShardExit(w: World, input: CallInput, c: Contract, journal: seq<Bytes>, codeSize: uint64, answer: Bytes)
    requires input.vm.gasProvided <= MAX_INT64 && input.vm.callType == DirectCall && c.entry.Found?
             && LeavesShard(w, c.body)
    requires var s := Started(w, input, c, journal, codeSize);
             && MethodSucceeds(w, s, input, c, answer) && SharedWithin(Trace(w, 0, s.state, c.body))
    ensures ExitOf(c.body).AsyncCall?
    ensures var s := Started(w, input, c, journal, codeSize).state;
            var exit := AsyncStart(w, StateAtExit(w, 0, s, c.body), ExitOf(c.body));
            exit.err.None? && exit.state.rt.asyncInfo.Some?
    ensures var vm := RunSmartContractCall(w, input, c, journal, codeSize, answer).vm;
            var s := Started(w, input, c, journal, codeSize).state;
            var info := AsyncStart(w, StateAtExit(w, 0, s, c.body), ExitOf(c.body)).state.rt.asyncInfo.value;
            && vm.code == Ok && vm.gasRemaining == 0
            && CarriedGas(vm.accounts) == info.gasLimit + info.gasLocked
            && SumMap(GasReport(vm.accounts)) + info.gasLimit + info.gasLocked == input.vm.gasProvided
            && info.destination in vm.accounts
            && vm.accounts[info.destination].transfers != []
            && vm.accounts[info.destination].transfers[|vm.accounts[info.destination].transfers| - 1]
               == OutputTransfer(ExitOf(c.body).value, info.gasLimit, info.gasLocked, ExitOf(c.body).data,
                                 AsynchronousCall, input.recipient)
            && info.destination == ExitOf(c.body).destination
            && info.gasLocked == (if ExitOf(c.body).hasCallback
                                  then GasLockedForAsync(w, StateAtExit(w, 0, s, c.body).codeSize) else 0)
  {
    hide GasInvariant, AsyncStart, LeavesShard, SharedWithin, Trace, GasReport;
    hide RunSmartContractCall, RunAsync, StateAtExit, ExitOf, GetVMOutput, NoTransferGas, CarriedGas, GetCode, Started;
    var s := Started(w, input, c, journal, codeSize).state;
    TransactionOutput(w, input, c, journal, codeSize, answer);
    StartedGasState(w, input, c, journal, codeSize);
    StartOfTransaction(w, input, c, journal, codeSize);
    ReachesExit(w, 0, s, c.body);
    ExitIsAccepted(w, StateAtExit(w, 0, s, c.body), ExitOf(c.body));
    AsyncRecords(w, StateAtExit(w, 0, s, c.body), ExitOf(c.body));
  }

  lemma ExitIsAccepted(w: World, a: Active, e: Ending)
    requires e.AsyncCall? && GetCode(w, e.destination).err.Some? && GasInvariant(a) && NothingLocked(a)
    requires GetCode(w, a.rt.scAddress).err.None?
    requires RunAsync(w, 0, a, e).err.None? && RunAsync(w, 0, a, e).state.out.code == Ok
    ensures AsyncStart(w, a, e).err.None? && AsyncStart(w, a, e).state.rt.asyncInfo.Some?
    ensures var b := RunAsync(w, 0, a, e).state; var vm := GetVMOutput(w, b).vm;
            var info := AsyncStart(w, a, e).state.rt.asyncInfo.value;
            && vm.code == Ok && vm.gasRemaining == 0
            && CarriedGas(vm.accounts) == info.gasLimit + info.gasLocked
            && SumMap(GasReport(vm.accounts)) + info.gasLimit + info.gasLocked == a.meter.provided
            && info.destination in vm.accounts
            && vm.accounts[info.destination].transfers != []
            && vm.accounts[info.destination].transfers[|vm.accounts[info.destination].transfers| - 1]
               == OutputTransfer(info.value, info.gasLimit, info.gasLocked, info.data, AsynchronousCall, a.rt.scAddress)
            && b.points == b.meter.forExecution
  {
    hide AsyncStart, RunAsync, CloseGas, GetVMOutput, NoTransferGas, CarriedGas, GetCode;
    var s := AsyncStart(w, a, e).state;
    LockedGas(w, a, e);
    AsyncIs(w, 0, a, e);
    var info := s.rt.asyncInfo.value;
    BurnsAccounted(a, s);
    SendIs(w, s, info);
    CarryingFrameIsAccepted(w, s, info.destination, info.gasLimit, info.gasLocked, info.value, info.data,
                            AsynchronousCall);
    SendsEverything(w, s, info.destination, info.gasLimit, info.gasLocked, info.value, info.data, AsynchronousCall);
    ClosedTransfers(RunAsync(w, 0, a, e).state, info.destination);
  }

  lemma SendIs(w: World, a: Active, info: AsyncCallInfo)
    requires SendAsync(w, a, info).err.None?
    ensures SendAsync(w, a, info)
            == CarryAway(w, a, info.destination, info.gasLimit, info.gasLocked, info.value, info.data, AsynchronousCall)
    ensures var accounts := SendAsync(w, a, info).state.out.accounts;
            && info.destination in accounts && accounts[info.destination].transfers != []
            && accounts[info.destination].transfers[|accounts[info.destination].transfers| - 1]
               == OutputTransfer(info.value, info.gasLimit, info.gasLocked, info.data, AsynchronousCall, a.rt.scAddress)
    ensures SendAsync(w, a, info).state.out.code == a.out.code
  {
    hide TransferValueOnly;
    PaysOnly(w, a, info.destination, a.rt.scAddress, info.value, info.gasLimit > 0);
  }

  lemma ClosedTransfers(a: Active, x: Address)
    requires x in a.out.accounts
    ensures x in CloseGas(a).out.accounts && CloseGas(a).out.accounts[x].transfers == a.out.accounts[x].transfers
  {
    var used := CloseGas(a).meter.used;
    assert CloseGas(a).out.accounts == SetGasUsed(FinalAccounts(a), used);
  }

  /** A transaction sent by another shard's asynchronous call answers with all its remaining gas,
      whatever other frames carried away on the way. */
  lemma AnsweredCall(w: World, input: CallInput, c: Contract, journal: seq<Bytes>, codeSize: uint64, answer: Bytes)
    requires input.vm.gasProvided <= MAX_INT64 && input.vm.callType == AsynchronousCall && ExitsOnly(w, c.body, true)
    requires input.vm.caller != input.recipient
    requires var s := Started(w, input, c, journal, codeSize);
             && MethodSucceeds(w, s, input, c, answer) && SharedAccepted(w, 0, s.state, c.body)
    ensures var vm := RunSmartContractCall(w, input, c, journal, codeSize, answer).vm;
            && vm.code == Ok && vm.gasRemaining == 0
            && SumMap(GasReport(vm.accounts)) + CarriedGas(vm.accounts) == input.vm.gasProvided
  {
    hide RunSmartContractCall, Run, CallMethod, SendCallback, GetVMOutput, CloseGas, CarriedGas, CarriedByCurrent,
      NoTransferGas, SharedAccepted, ExitsOnly, Carrying, Started, Conserves, Metered, GetCode;
    var s := Started(w, input, c, journal, codeSize).state;
    TransactionOutput(w, input, c, journal, codeSize, answer);
    StartedGasState(w, input, c, journal, codeSize);
    StartOfTransaction(w, input, c, journal, codeSize);
    MethodCases(w, s, input, c, answer);
    NothingCarriedYet(w, s);
    LeavingRun(w, 0, s, c.body);
    RunEvolves(w, 0, s, c.body);
    MethodMetered(w, input, c, journal, codeSize, answer);
    var r := Run(w, 0, s, c.body).state;
    AnswerCarries(w, r, answer);
    CoveredFrameIsAccepted(w, CallMethod(w, s, input, c, answer).state);
  }

  /** A transaction in which any frames, however deep, leave the shard, while nothing else carries
      gas: the accounts, what the transfers carry, and the remaining gas make up the gas provided. */
  lemma NestedExit(w: World, input: CallInput, c: Contract, journal: seq<Bytes>, codeSize: uint64, answer: Bytes)
    requires input.vm.gasProvided <= MAX_INT64 && Unlocked(input.vm)
    requires input.vm.callType == AsynchronousCall ==> input.vm.caller != input.recipient
    requires ExitsOnly(w, c.body, true)
    requires MethodSucceeds(w, Started(w, input, c, journal, codeSize), input, c, answer)
    requires c.entry.Found? ==>
               SharedAccepted(w, 0, MethodStart(w, Started(w, input, c, journal, codeSize).state, input), c.body)
    ensures var vm := RunSmartContractCall(w, input, c, journal, codeSize, answer).vm;
            && vm.code == Ok
            && SumMap(GasReport(vm.accounts)) + CarriedGas(vm.accounts) + vm.gasRemaining == input.vm.gasProvided
  {
    hide RunSmartContractCall, CallMethod, CarriedGas, SharedAccepted, ExitsOnly, Started;
    if input.vm.callType == AsynchronousCall {
      MethodCases(w, Started(w, input, c, journal, codeSize).state, input, c, answer);
      AnsweredCall(w, input, c, journal, codeSize, answer);
    } else {
      UnansweredExit(w, input, c, journal, codeSize, answer);
    }
  }

  /** Handing the remaining gas to another account, after others may have carried some away. */
  lemma AnswerCarries(w: World, a: Active, answer: Bytes)
    requires Carrying(w, a, 0) && a.points <= a.meter.forExecution && GetCode(w, a.rt.scAddress).err.None?
    requires a.rt.input.caller != a.rt.scAddress && SendCallback(w, a, answer).err.None?
    ensures var b := SendCallback(w, a, answer).state;
            && b.points == b.meter.forExecution && b.meter == a.meter && b.out.code == a.out.code && b.rt == a.rt
            && CarriedByCurrent(b) == 0 && Recorded(b) <= Spent(b)
  {
    hide CarriedGas, CarriedOnly, GetCode, TransferValueOnly, AddTransfer, SameCarry;
    var to, limit := a.rt.input.caller, GasLeft(a);
    var transfer := OutputTransfer(a.rt.input.value, limit, 0, answer, AsynchronousCallBack, a.rt.scAddress);
    var t := TransferValueOnly(w, a, to, a.rt.scAddress, a.rt.input.value, false);
    PaysOnly(w, a, to, a.rt.scAddress, a.rt.input.value, false);
    ValueCarry(w, a, to, a.rt.scAddress, a.rt.input.value, false);
    CarryKept(w, a.out.accounts, t.state.out.accounts, true);
    OneTransfer(t.state.out.accounts, to, transfer);
    NothingOfOwn(w, t.state);
    var b := SendCallback(w, a, answer).state;
    SendKeepsCode(w, a, answer);
    EnsureCarried(b);
    AtMostSum(b.meter.used, b.rt.scAddress);
    OwnUntouched(t.state, b, to, transfer);
  }

  lemma OwnUntouched(t: Active, b: Active, to: Address, transfer: OutputTransfer)
    requires b.out.accounts == AddTransfer(t.out.accounts, to, transfer) && b.rt == t.rt && to != t.rt.scAddress
    ensures CarriedByCurrent(b) == CarriedByCurrent(t)
  {
    hide TransferGas;
  }

  lemma SendKeepsCode(w: World, a: Active, answer: Bytes)
    requires SendCallback(w, a, answer).err.None?
    ensures SendCallback(w, a, answer)
            == CarryAway(w, a, a.rt.input.caller, GasLeft(a), 0, a.rt.input.value, answer, AsynchronousCallBack)
    ensures SendCallback(w, a, answer).state.out.code == a.out.code
  {
  }
}
