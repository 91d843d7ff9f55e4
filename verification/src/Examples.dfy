/** Programs at which the gas identity fails, in every world where their contracts are deployed,
    each next to the same program with the cause removed. */
module Examples {
  import opened Overflow
  import opened Types
  import opened Sums
  import opened Ledger
  import opened Frame
  import opened Calls
  import opened Conservation
  import opened Traces
  import opened GasIdentity
  import opened CrossShard
  import opened AsyncCost
  import opened Carriers
  import opened CodeSizes
  import opened SharedCalls
  import opened Transactions

  /** A contract that can be called and paid. */
  predicate Deployed(w: World, x: Address) {
    && GetCode(w, x).err.None? && x in w.payable && 0 <= w.balances[x]
    && Cost(w, x) < MAX_INT32
  }

  /** The cost of preparing a contract. */
  function Cost(w: World, x: Address): uint64 {
    InitialCost(w, GetCode(w, x).size)
  }

  function Direct(x: Address, gas: uint64): CallInput {
    CallInput(VMInput([], 0, DirectCall, gas, 0), x, OtherName)
  }

  function Code(p: Program): Contract {
    Contract(true, Found, p)
  }

  // ----- evaluating the first steps -----

  /** The state in which a transaction's contract starts. */
  function FirstState(w: World, x: Address, gas: uint64): Active
    requires Cost(w, x) <= gas
  {
    NEW_ACTIVE.(meter := Meter(gas, Cost(w, x), gas - Cost(w, x), map[]),
                rt := RuntimeState(x, Direct(x, gas).vm, OtherName, false, None),
                out := NEW_OUTPUT.(accounts := map[x := NEW_ACCOUNT]), storageAddress := x,
                  codeSize := GetCode(w, x).size)
  }

  lemma StartsIn(w: World, x: Address, gas: uint64, p: Program)
    requires Deployed(w, x) && Cost(w, x) <= gas
    ensures Started(w, Direct(x, gas), Code(p), [], 0) == Attempt(FirstState(w, x, gas), None)
    ensures CallMethod(w, FirstState(w, x, gas), Direct(x, gas), Code(p), []) ==
            var r := Run(w, 0, FirstState(w, x, gas), p);
            if r.err.None? && r.state.points > r.state.meter.forExecution then Attempt(r.state, Some(ErrNotEnoughGas))
              else r
  {
    hide Run;
    var accounts: Accounts := map[];
    assert AddTxValue(accounts, x, 0) == map[x := NEW_ACCOUNT];
  }

  /** Paying nothing touches the two accounts and caches the payer's balance. */
  lemma PaysNothing(w: World, a: Active, to: Address, from: Address)
    requires Deployed(w, from) && to in w.payable && SolventAccount(w, from, Account(a.out.accounts, from))
    ensures var t := TransferValueOnly(w, a, to, from, 0, false);
            && t.err.None? && t.state == SetAccounts(a, t.state.out.accounts)
            && t.state.out.accounts.Keys == a.out.accounts.Keys + {from, to}
            && forall x :: x in t.state.out.accounts ==>
                 t.state.out.accounts[x] == if x == from
                   then Account(a.out.accounts, x).(balance := Some(w.balances[x]))
                                            else Account(a.out.accounts, x)
  {
    NothingMoved(SetAccounts(a, a.out.accounts).out.accounts, from, to);
  }

  lemma NothingMoved(accounts: Accounts, from: Address, to: Address)
    ensures Move(accounts, from, to, 0) == Ensure(Ensure(accounts, from), to)
  {
  }

  /** A callee without gas-carrying transfers that stayed within its gas, and made no calls, is kept. */
  lemma FreeIsKept(w: World, depth: nat, a: Active, input: CallInput, c: Contract)
    requires Free(a) && GasFree(w, c.body) && Visible(input.vm)
    requires var e := DestExecution(w, depth, a, input, c);
             e.err.None? && e.state.points <= e.state.meter.forExecution && e.state.meter.used == map[]
    ensures var e := DestExecution(w, depth, a, input, c); var o := Dest(w, depth, a, input, c);
            && o.err.None? && o.vm == CloseGas(e.state).out && o.state.rt == a.rt && o.state.out.code == Ok
            && Kept(a, CloseGas(e.state), e.callerPoints, o.state)
            && o.vm.gasRemaining == e.state.meter.forExecution - e.state.points
  {
    hide Dest, DestExecution, CloseGas, GasMatches, NoTransferGas, CarriedGas, CarriedByCurrent, GasFree, Metered;
    var e := CallExecution(w, depth, a, input, c, false);
    EndMetered(w, depth, a, input, c, false);
    ExecutionFree(w, depth, a, input, c, false);
    NothingOwn(e.state);
    NoneUsed(e.state);
    AcceptedExactly(e.state);
    CoveredFrameIsAccepted(w, e.state);
    ErrorOutputCode(w, depth, a, input, c);
    CallIs(w, depth, a, input, c);
    CommittedKept(w, depth, a, input, c, false);
    DestCommits(w, depth, a, input, c);
    CloseGasCode(e.state);
  }

  lemma CallIs(w: World, depth: nat, a: Active, input: CallInput, c: Contract)
    ensures Call(w, depth, a, input, c, false) == Attempt(Dest(w, depth, a, input, c).state,
                                                          Dest(w, depth, a, input, c).err)
    ensures var e := DestExecution(w, depth, a, input, c);
            e.err.None? ==> DestOutput(w, depth, a, input, c) == GetVMOutput(w, e.state)
  {
    hide Dest, DestExecution, GetVMOutput;
  }

  // ----- a transfer on the contract's own account -----

  /** Send oneself a transfer that carries one unit of gas, and burn two. */
  function SendsItself(x: Address): Program {
    Step(SendValue(x, 0, 1, []), Step(Burn(2), End(Return)))
  }

  /** The transfer is subtracted twice, so that the frame, within its gas, is rejected. */
  lemma OwnTransferIsRejected(w: World, x: Address)
    requires Deployed(w, x)
    ensures var input, c, gas := Direct(x, Cost(w, x) + 6), Code(SendsItself(x)), Cost(w, x) + 6;
            && MethodSucceeds(w, Started(w, input, c, [], 0), input, c, [])
            && RunSmartContractCall(w, input, c, [], 0, []).vm.code != Ok
  {
    var gas := Cost(w, x) + 6;
    var s := FirstState(w, x, gas);
    StartsIn(w, x, gas, SendsItself(x));
    var b := Run(w, 0, s, SendsItself(x)).state;
    SentItself(w, x, s);
    OneCarried(b, x, b.out.accounts[x], 1);
    TransactionChecked(w, Direct(x, gas), Code(SendsItself(x)), [], 0, []);
  }

  lemma SentItself(w: World, x: Address, s: Active)
    requires Deployed(w, x) && s == FirstState(w, x, Cost(w, x) + 6)
    ensures var r := Run(w, 0, s, SendsItself(x));
            && r.err.None? && r.state.out.code == Ok && r.state.points == 2
            && r.state.meter == s.meter && r.state.rt == s.rt
            && r.state.out.accounts.Keys == {x} && r.state.out.accounts[x].transfers
              == [OutputTransfer(0, 1, 0, [], DirectCall, x)]
  {
    hide Do;
    SelfSend(w, 0, s, x, 1);
    var sent := Do(w, 0, s, SendsItself(x).action);
    RunsBurn(w, 0, sent, SendsItself(x).rest);
    assert Run(w, 0, s, SendsItself(x)) == Run(w, 0, sent, SendsItself(x).rest);
  }

  /** No value means nothing to refuse. */
  lemma PayableZero(w: World, a: Active, to: Address, from: Address)
    ensures TransferValueOnly(w, a, to, from, 0, true) == TransferValueOnly(w, a, to, from, 0, false)
  {
  }

  /** A ledger in which one account carries gas. */
  lemma OneCarried(a: Active, x: Address, account: OutputAccount, gas: nat)
    requires x in a.out.accounts && account == a.out.accounts[x] && a.rt.scAddress in a.out.accounts
    requires |account.transfers| == 1 && account.transfers[0].gasLimit + account.transfers[0].gasLocked == gas
    requires forall y :: y in a.out.accounts && y != x ==> a.out.accounts[y].transfers == []
    ensures CarriedGas(FinalAccounts(a)) == gas
    ensures CarriedByCurrent(a) == if x == a.rt.scAddress then gas else 0
    ensures a.meter.used == map[] ==> OthersUsed(a) == 0
  {
    var carried := Carried(a.out.accounts);
    assert account.transfers[..0] == [];
    assert TransferGas(account.transfers) == gas;
    SumTake(carried, x);
    SumSupport(map[], carried - {x});
  }

  // ----- a callee that overspends in its caller's context -----

  /** Burns `more` gas beyond the five units it is left with. */
  function Overspends(w: World, x: Address): Program
    requires Deployed(w, x)
  {
    Step(Burn(Cost(w, x) + 6), End(Return))
  }

  /** Burn some gas, then call `y` in the own context. */
  function CallsOverspender(w: World, x: Address, y: Address, burned: uint64): Program
    requires Deployed(w, x) && Deployed(w, y)
  {
    Step(Burn(burned), Step(CallSame(false, y, 0, Cost(w, y) + 5, OtherName, Code(Overspends(w, x))), End(Return)))
  }

  /** The callee is committed although it overspent, and the caller stays within its gas; whether
      the transaction is accepted depends on what else the caller burned. */
  lemma OverspenderDecides(w: World, x: Address, y: Address, burned: uint64)
    requires Deployed(w, x) && Deployed(w, y) && x != y && SameShard(w, x, y) && burned <= 5
    ensures var input, c := Direct(x, Cost(w, x) + Cost(w, y) + 10), Code(CallsOverspender(w, x, y, burned));
            && GasFree(w, c.body)
            && MethodSucceeds(w, Started(w, input, c, [], 0), input, c, [])
            && (RunSmartContractCall(w, input, c, [], 0, []).vm.code == Ok <==> burned >= 1)
  {
    hide Run, Do, OthersUsed, RunSmartContractCall, CallMethod, Started;
    var gas := Cost(w, x) + Cost(w, y) + 10;
    var p := CallsOverspender(w, x, y, burned);
    var s := FirstState(w, x, gas);
    StartsIn(w, x, gas, p);
    RunsTwo(w, s, p);
    BurnIs(w, s, burned);
    OverspenderReturns(w, x, y, UseGas(s, burned), burned);
    OverspenderFree(w, x, y, burned);
    SharedTransactionExactly(w, Direct(x, gas), Code(p), [], 0, []);
  }

  lemma OverspenderFree(w: World, x: Address, y: Address, burned: uint64)
    requires Deployed(w, x) && Deployed(w, y)
    ensures GasFree(w, CallsOverspender(w, x, y, burned)) && GasFree(w, Overspends(w, x))
  {
    assert GasFree(w, End(Return));
    assert GasFree(w, Overspends(w, x));
    assert GasFree(w, CallsOverspender(w, x, y, burned).rest);
  }

  lemma BurnIs(w: World, a: Active, gas: uint64)
    ensures Do(w, 0, a, Burn(gas)) == UseGas(a, gas)
  {
  }

  lemma RunsTwo(w: World, a: Active, p: Program)
    requires p.Step? && p.rest.Step? && p.rest.rest == End(Return)
    ensures Run(w, 0, a, p) == Attempt(Do(w, 0, Do(w, 0, a, p.action), p.rest.action), None)
  {
    hide Do;
    var b := Do(w, 0, a, p.action);
    assert Run(w, 0, a, p) == Run(w, 0, b, p.rest) == Run(w, 0, Do(w, 0, b, p.rest.action), End(Return));
  }

  lemma OverspenderReturns(w: World, x: Address, y: Address, a: Active, burned: uint64)
    requires Deployed(w, x) && Deployed(w, y) && x != y && SameShard(w, x, y) && burned <= 5
    requires a == FirstState(w, x, Cost(w, x) + Cost(w, y) + 10).(points := burned)
    ensures var b := Do(w, 0, a, CallsOverspender(w, x, y, burned).rest.action);
            && b.out.code == Ok && b.meter.(used := map[]) == a.meter && b.rt == a.rt
            && b.points == burned + Cost(w, y) + 5
            && OthersUsed(b) == Cost(w, x) + Cost(w, y) + 6
  {
    hide Do, Same, SameExecution, CloseGas, MergeGas, OthersUsed, GasLeft, Conserves, GetVMOutput, GetCode, GasFree,
      Deployed;
    var act := CallsOverspender(w, x, y, burned).rest.action;
    assert 0 <= Cost(w, x) < MAX_INT32 && 0 <= Cost(w, y) < MAX_INT32 by {
      Costs(w, x);
      Costs(w, y);
    }
    hide Free, Metered;
    var input := CallInput(VMInput(x, 0, DirectCall, Cost(w, y) + 5, 0), y, OtherName);
    InputIs(w, x, y, a, burned);
    OverspenderFree(w, x, y, burned);
    OverspenderRuns(w, x, y, a, input);
    var e := SameExecution(w, 0, a, input, act.callee).state;
    NoneUsed(e);
    SharedCharge(w, 0, a, input, act.callee);
    SameCommits(w, 0, a, input, act.callee);
    OnlyOther(e, a, Same(w, 0, a, input, act.callee).state);
    SameCode(w, 0, a, input, act.callee);
  }

  lemma Costs(w: World, x: Address)
    requires Deployed(w, x)
    ensures Cost(w, x) < MAX_INT32
  {
  }

  lemma InputIs(w: World, x: Address, y: Address, a: Active, burned: uint64)
    requires Deployed(w, x) && Deployed(w, y) && burned <= 5
    requires a == FirstState(w, x, Cost(w, x) + Cost(w, y) + 10).(points := burned)
    ensures IndirectInput(a, x, 0, Cost(w, y) + 5, y, OtherName)
            == CallInput(VMInput(x, 0, DirectCall, Cost(w, y) + 5, 0), y, OtherName)
    ensures Cost(w, y) + 5 <= GasLeft(a) && a.meter.forExecution <= MAX_INT64 && Free(a)
    ensures SameShard(w, x, y) ==>
              var act := CallsOverspender(w, x, y, burned).rest.action;
              Do(w, 0, a, act) == Same(w, 0, a, CallInput(VMInput(x, 0, DirectCall, Cost(w, y) + 5, 0), y, OtherName),
                                       act.callee).state
  {
    hide Same;
  }

  /** A started callee has used up no other account's gas. */
  lemma NoneUsed(a: Active)
    requires a.meter.used == map[]
    ensures OthersUsed(a) == 0
  {
  }

  lemma OnlyOther(e: Active, a: Active, b: Active)
    requires Metered(e) && Free(e) && e.meter.used == map[] && a.meter.used == map[] && b.rt.scAddress != e.rt.scAddress
    requires SumMap(CloseGas(e).meter.used) <= MAX_INT64
    requires b.meter.used == MergeGas(CloseGas(e).meter.used, a.meter.used)
    ensures OthersUsed(b) == SumMap(CloseGas(e).meter.used)
  {
    hide CloseGas;
    ClosedAssignment(e);
    MergeGasIsSum(CloseGas(e).meter.used, a.meter.used);
  }

  lemma SameCode(w: World, depth: nat, a: Active, input: CallInput, c: Contract)
    requires Same(w, depth, a, input, c).err.None?
    ensures Same(w, depth, a, input, c).state.out.code == Ok
  {
    hide CloseGas, Execute, TransferValueOnly, GasMatches;
    CallEnds(w, depth, a, input, c, true);
    CloseGasCode(SameExecution(w, depth, a, input, c).state);
  }

  lemma OverspenderRuns(w: World, x: Address, y: Address, a: Active, input: CallInput)
    requires Deployed(w, x) && Deployed(w, y) && x != y
    requires a.out.accounts == map[x := NEW_ACCOUNT] && a.points + Cost(w, y) + 5 <= MAX_INT64 && a.out.code == Ok
    requires input == CallInput(VMInput(x, 0, DirectCall, Cost(w, y) + 5, 0), y, OtherName)
    ensures var e := SameExecution(w, 0, a, input, Code(Overspends(w, x)));
            && e.err.None? && e.state.out.code == Ok && e.state.points == Cost(w, x) + 6
            && e.state.meter == Meter(Cost(w, y) + 5, Cost(w, y), 5, map[])
            && e.state.rt.scAddress == y && Free(e.state) && Metered(e.state)
    ensures Same(w, 0, a, input, Code(Overspends(w, x))).err.None?
  {
    hide TransferValueOnly;
    var entered := EnterSame(a, input);
    PaysNothing(w, entered, y, x);
    var pay := TransferValueOnly(w, entered, y, x, 0, false);
    var p := Prepare(w, 1, pay.state, input, true);
    PreparedIs(w, 1, pay.state, input);
    var callee := Overspends(w, x);
    assert Do(w, 1, p.state, callee.action) == UseGas(p.state, Cost(w, x) + 6);
    assert Run(w, 1, p.state, callee) == Attempt(UseGas(p.state, Cost(w, x) + 6), None);
  }

  lemma PreparedIs(w: World, depth: nat, a: Active, input: CallInput)
    requires !input.name.InitName? && GetCode(w, input.recipient).err.None? && depth < MAX_INSTANCES
    requires a.rt.input == input.vm && a.meter == InitMeter(input.vm) && ProvidedGas(input.vm) == input.vm.gasProvided
    requires Cost(w, input.recipient) <= input.vm.gasProvided
    ensures var p := Prepare(w, depth, a, input, true); var cost := Cost(w, input.recipient);
            && p.err.None? && p.state.points == 0 && p.state.out.accounts == Ensure(a.out.accounts, input.recipient)
            && p.state.out == a.out.(accounts := p.state.out.accounts) && p.state.rt == a.rt
            && p.state.meter == Meter(input.vm.gasProvided, cost, input.vm.gasProvided - cost, map[])
  {
  }

  // ----- a callee that starts with its caller's transfers -----

  /** Send a transfer that carries gas, and call `y` with just enough gas to be prepared. */
  function SendsThenCalls(w: World, to: Address, y: Address, gas: uint64): Program
    requires Deployed(w, y)
  {
    Step(Burn(gas), Step(SendValue(to, 0, gas, []),
                         Step(CallDest(false, y, 0, Cost(w, y), OtherName, Code(End(Return))), End(Return))))
  }

  /** The callee does nothing at all, yet it is undone when its caller's transfer carries more gas
      than preparing the callee costs. */
  lemma InheritedTransferDecides(w: World, x: Address, to: Address, y: Address, gas: uint64)
    requires Deployed(w, x) && Deployed(w, y) && to in w.payable && x != y && to != x && to != y && SameShard(w, x, y)
    requires gas <= MAX_INT32
    ensures var p := SendsThenCalls(w, to, y, gas);
            var s := FirstState(w, x, Cost(w, x) + gas + Cost(w, y));
            var a := Do(w, 0, Do(w, 0, s, p.action), p.rest.action);
            var act := p.rest.rest.action;
            && MakesCall(w, a, act)
            && (Dest(w, 0, a, ActionInput(a, act), act.callee).err.None? <==> gas <= Cost(w, y))
  {
    var p := SendsThenCalls(w, to, y, gas);
    var s := FirstState(w, x, Cost(w, x) + gas + Cost(w, y));
    var burned := UseGas(s, gas);
    assert Do(w, 0, s, p.action) == burned;
    var a := Do(w, 0, burned, p.rest.action);
    var act := p.rest.rest.action;
    SentAway(w, x, to, burned, gas);
    var input := CallInput(VMInput(x, 0, DirectCall, Cost(w, y), 0), y, OtherName);
    assert ActionInput(a, act) == input;
    IdleRuns(w, x, to, y, a, gas, input);
    IdleAccepted(w, y, to, gas, DestExecution(w, 0, a, input, act.callee).state);
    EndsAsChecked(w, 0, a, input, act.callee);
  }

  lemma SentAway(w: World, x: Address, to: Address, a: Active, gas: uint64)
    requires Deployed(w, x) && to in w.payable && to != x && a.out.accounts == map[x := NEW_ACCOUNT]
             && a.rt.scAddress == x
    ensures var b := Do(w, 0, a, SendValue(to, 0, gas, []));
            && b == SetAccounts(a, b.out.accounts) && b.out.accounts.Keys == {x, to}
            && b.out.accounts[x] == NEW_ACCOUNT.(balance := Some(w.balances[x]))
            && b.out.accounts[to].transfers == [OutputTransfer(0, gas, 0, [], DirectCall, x)]
  {
    hide TransferValueOnly;
    PaysNothing(w, a, to, x);
    PayableZero(w, a, to, x);
    assert [] + [OutputTransfer(0, gas, 0, [], DirectCall, x)] == [OutputTransfer(0, gas, 0, [], DirectCall, x)];
  }

  lemma IdleRuns(w: World, x: Address, to: Address, y: Address, a: Active, gas: uint64, input: CallInput)
    requires Deployed(w, x) && Deployed(w, y) && x != y && to != x && to != y
    requires a.out.accounts.Keys == {x, to} && a.out.accounts[x] == NEW_ACCOUNT.(balance := Some(w.balances[x]))
    requires a.out.accounts[to].transfers == [OutputTransfer(0, gas, 0, [], DirectCall, x)]
    requires input == CallInput(VMInput(x, 0, DirectCall, Cost(w, y), 0), y, OtherName)
    ensures var e := DestExecution(w, 0, a, input, Code(End(Return)));
            && e.err.None? && e.state.out.code == Ok && e.state.points == 0
            && e.state.meter == Meter(Cost(w, y), Cost(w, y), 0, map[]) && e.state.rt.scAddress == y
            && e.state.out.accounts.Keys == {x, to, y}
            && e.state.out.accounts[x].transfers == [] && e.state.out.accounts[y].transfers == []
            && e.state.out.accounts[to].transfers == [OutputTransfer(0, gas, 0, [], DirectCall, x)]
  {
    hide TransferValueOnly;
    var entered := Enter(a, input);
    PaysNothing(w, entered, y, x);
    var pay := TransferValueOnly(w, entered, y, x, 0, false);
    PreparedIs(w, 1, pay.state, input);
    var p := Prepare(w, 1, pay.state, input, true);
    assert Run(w, 1, p.state, End(Return)) == Attempt(p.state, None);
  }

  lemma IdleAccepted(w: World, y: Address, to: Address, gas: uint64, e: Active)
    requires Deployed(w, y) && to != y && e.points == 0
    requires e.meter == Meter(Cost(w, y), Cost(w, y), 0, map[]) && e.rt.scAddress == y && y in e.out.accounts
             && to in e.out.accounts
    requires forall x :: x in e.out.accounts && x != to ==> e.out.accounts[x].transfers == []
    requires |e.out.accounts[to].transfers| == 1 && e.out.accounts[to].transfers[0].gasLimit == gas
             && e.out.accounts[to].transfers[0].gasLocked == 0
    ensures Metered(e) && (Accepted(e) <==> gas <= Cost(w, y))
  {
    OneCarried(e, to, e.out.accounts[to], gas);
  }

  /** A call whose callee ended without error is kept exactly when the callee's frame is accepted. */
  lemma EndsAsChecked(w: World, depth: nat, a: Active, input: CallInput, c: Contract)
    requires var e := DestExecution(w, depth, a, input, c); e.err.None? && e.state.out.code == Ok && Metered(e.state)
    ensures Dest(w, depth, a, input, c).err.None? <==> Accepted(DestExecution(w, depth, a, input, c).state)
  {
    hide CloseGas, GasMatches, Accepted, Metered, DestExecution, Dest;
    var e := DestExecution(w, depth, a, input, c);
    ErrorOutputCode(w, depth, a, input, c);
    AcceptedExactly(e.state);
    CloseGasCode(e.state);
  }

  // ----- a callback delivered with locked gas -----

  /** Deliver a callback, with one unit of gas locked, to a deployed contract that has no callback
      function and no pending calls: it is rejected, and accepted without the lock. */
  lemma LockedCallbackExample(w: World, x: Address, caller: Address, answer: Bytes)
    requires Deployed(w, x) && ChainValue(w, x, w.pendingKey) == []
    ensures var c := Contract(true, NoCallback, End(Return));
            var input := CallInput(VMInput(caller, 0, AsynchronousCallBack, Cost(w, x), 1), x, CallbackName);
            && RunSmartContractCall(w, input, c, [], 0, answer).vm.code != Ok
            && RunSmartContractCall(w, input.(vm := input.vm.(gasLocked := 0)), c, [], 0, answer).vm.code == Ok
  {
    hide RunSmartContractCall, Run;
    CallbackSucceeds(w, x, caller, 1, answer);
    CallbackSucceeds(w, x, caller, 0, answer);
    var c := Contract(true, NoCallback, End(Return));
    var input := CallInput(VMInput(caller, 0, AsynchronousCallBack, Cost(w, x), 1), x, CallbackName);
    LockedCallbackIsRejected(w, input, c, [], 0, answer);
    LockedCallbackIsRejected(w, input.(vm := input.vm.(gasLocked := 0)), c, [], 0, answer);
  }

  lemma CallbackSucceeds(w: World, x: Address, caller: Address, locked: uint64, answer: Bytes)
    requires Deployed(w, x) && ChainValue(w, x, w.pendingKey) == []
    ensures var c := Contract(true, NoCallback, End(Return));
            var input := CallInput(VMInput(caller, 0, AsynchronousCallBack, Cost(w, x), locked), x, CallbackName);
            && GasFree(w, c.body) && MethodSucceeds(w, Started(w, input, c, [], 0), input, c, answer)
            && MethodWithin(w, MethodStart(w, Started(w, input, c, [], 0).state, input), c)
  {
  }

  // ----- an overspent frame that is accepted -----

  /** Send oneself a transfer that carries some gas, and burn twice as much. */
  function HidesOverspend(y: Address, gas: uint64): Program
    requires gas <= MAX_INT32
  {
    Step(SendValue(y, 0, gas, []), Step(Burn(2 * gas), End(Return)))
  }

  /** A callee that is given, besides its preparation, as much gas as its transfer to itself carries.
      It overspends by just that much, which the double subtraction hides. */
  lemma OverspenderIsKept(w: World, x: Address, y: Address, gas: uint64)
    requires Deployed(w, x) && Deployed(w, y) && x != y && SameShard(w, x, y) && 0 < gas <= MAX_INT32
    ensures var s := FirstState(w, x, Cost(w, x) + Cost(w, y) + gas);
            var act := CallDest(false, y, 0, Cost(w, y) + gas, OtherName, Code(HidesOverspend(y, gas)));
            && MakesCall(w, s, act)
            && var e := DestExecution(w, 0, s, ActionInput(s, act), act.callee);
               && e.state.points == e.state.meter.forExecution + gas
               && Dest(w, 0, s, ActionInput(s, act), act.callee).err.None?
  {
    var s := FirstState(w, x, Cost(w, x) + Cost(w, y) + gas);
    var act := CallDest(false, y, 0, Cost(w, y) + gas, OtherName, Code(HidesOverspend(y, gas)));
    var input := CallInput(VMInput(x, 0, DirectCall, Cost(w, y) + gas, 0), y, OtherName);
    assert ActionInput(s, act) == input;
    HiderRuns(w, x, y, s, gas, input);
    HiderAccepted(w, y, gas, DestExecution(w, 0, s, input, act.callee).state);
    EndsAsChecked(w, 0, s, input, act.callee);
  }

  lemma HiderRuns(w: World, x: Address, y: Address, s: Active, gas: uint64, input: CallInput)
    requires Deployed(w, x) && Deployed(w, y) && x != y && gas <= MAX_INT32 && s.out.accounts == map[x := NEW_ACCOUNT]
    requires input == CallInput(VMInput(x, 0, DirectCall, Cost(w, y) + gas, 0), y, OtherName)
    ensures var e := DestExecution(w, 0, s, input, Code(HidesOverspend(y, gas)));
            && e.err.None? && e.state.out.code == Ok && e.state.points == 2 * gas
            && e.state.meter == Meter(Cost(w, y) + gas, Cost(w, y), gas, map[]) && e.state.rt.scAddress == y
            && e.state.out.accounts.Keys == {x, y} && e.state.out.accounts[x].transfers == []
            && e.state.out.accounts[y].transfers == [OutputTransfer(0, gas, 0, [], DirectCall, y)]
  {
    hide TransferValueOnly, Do;
    var entered := Enter(s, input);
    PaysNothing(w, entered, y, x);
    var pay := TransferValueOnly(w, entered, y, x, 0, false);
    PreparedIs(w, 1, pay.state, input);
    var p := Prepare(w, 1, pay.state, input, true);
    var program := HidesOverspend(y, gas);
    SelfSend(w, 1, p.state, y, gas);
    var sent := Do(w, 1, p.state, program.action);
    RunsBurn(w, 1, sent, program.rest);
    assert Run(w, 1, p.state, program) == Run(w, 1, sent, program.rest);
  }

  lemma RunsBurn(w: World, depth: nat, a: Active, p: Program)
    requires p.Step? && p.action.Burn? && p.rest == End(Return)
    ensures Run(w, depth, a, p) == Attempt(UseGas(a, p.action.gas), None)
  {
    assert Run(w, depth, a, p) == Run(w, depth, UseGas(a, p.action.gas), End(Return));
  }

  /** A contract without transfers on record sends itself one that carries gas. */
  lemma SelfSend(w: World, depth: nat, a: Active, x: Address, gas: uint64)
    requires Deployed(w, x) && a.rt.scAddress == x && x in a.out.accounts
    requires SolventAccount(w, x, a.out.accounts[x]) && a.out.accounts[x].transfers == []
    ensures var b := Do(w, depth, a, SendValue(x, 0, gas, []));
            && b == SetAccounts(a, b.out.accounts) && b.out.accounts.Keys == a.out.accounts.Keys
            && b.out.accounts[x].transfers == [OutputTransfer(0, gas, 0, [], DirectCall, x)]
            && forall y :: y in a.out.accounts && y != x ==> b.out.accounts[y] == a.out.accounts[y]
  {
    hide TransferValueOnly;
    PaysNothing(w, a, x, x);
    PayableZero(w, a, x, x);
    assert [] + [OutputTransfer(0, gas, 0, [], DirectCall, x)] == [OutputTransfer(0, gas, 0, [], DirectCall, x)];
  }

  lemma HiderAccepted(w: World, y: Address, gas: uint64, e: Active)
    requires Deployed(w, y) && 0 < gas <= MAX_INT32 && e.points == 2 * gas
    requires e.meter == Meter(Cost(w, y) + gas, Cost(w, y), gas, map[]) && e.rt.scAddress == y && y in e.out.accounts
    requires forall x :: x in e.out.accounts && x != y ==> e.out.accounts[x].transfers == []
    requires e.out.accounts[y].transfers == [OutputTransfer(0, gas, 0, [], DirectCall, y)]
    ensures Metered(e) && Accepted(e)
  {
    OneCarried(e, y, e.out.accounts[y], gas);
  }

  // ----- a callback with an earlier call's value -----

  /** Send some value back, bare. */
  function SendsBack(x: Address, value: int): Program {
    Step(SendValue(x, value, 0, []), End(Return))
  }

  /** Call `y`, then make an asynchronous call to `z`, which does nothing. */
  function CallsThenAsks(w: World, x: Address, y: Address, z: Address, value: int, callback: Contract): Program
    requires Deployed(w, y)
  {
    Step(CallDest(false, y, 0, Cost(w, y), OtherName, Code(SendsBack(x, value))),
         End(AsyncCall(z, [], 0, true, OtherName, false, Code(End(Return)), callback)))
  }

  /** The price of a callback that brings nothing but the return code. */
  function IdleCost(w: World): uint64 {
    AddUint64(w.schedule.asyncCallStep, CopyCost(w, CALLBACK_NAME_LEN + 1 + |w.codeBytes(Ok)|))
  }

  /** What the caller has left for its callback: its price, and enough gas to prepare the caller again. */
  function Spare(w: World, x: Address): uint64
    requires Deployed(w, x) && IdleCost(w) < MAX_INT32
  {
    IdleCost(w) + 1 + Cost(w, x)
  }

  function EnoughGas(w: World, x: Address, y: Address, z: Address): uint64
    requires Deployed(w, x) && Deployed(w, y) && Deployed(w, z) && IdleCost(w) < MAX_INT32
  {
    StepWithinCost(w);
    Cost(w, x) + Cost(w, y) + w.schedule.asyncCallStep + Spare(w, x) + Cost(w, z)
  }

  lemma StepWithinCost(w: World)
    requires IdleCost(w) < MAX_INT32
    ensures w.schedule.asyncCallStep <= IdleCost(w)
  {
  }

  /** The callback is called with the value that `y` sent, although the destination of the
      asynchronous call sent nothing and nothing is paid now. The transaction ends as that callback
      does, whatever its code. */
  lemma StaleCallbackValue(w: World, x: Address, y: Address, z: Address, value: int, callback: Contract)
    requires Deployed(w, x) && Deployed(w, y) && Deployed(w, z) && x != y && x != z && y != z && SameShard(w, x, y)
    requires 0 < value <= w.balances[y] && IdleCost(w) < MAX_INT32
    ensures var p, gas := CallsThenAsks(w, x, y, z, value, callback), EnoughGas(w, x, y, z);
            var s := FirstState(w, x, gas);
            var a, e := Do(w, 0, s, p.action), p.rest.ending;
            && Started(w, Direct(x, gas), Code(p), [], 0) == Attempt(s, None)
            && AsyncStart(w, a, e).err.None? && AsyncStart(w, a, e).state.rt.asyncInfo.Some?
            && var start := AsyncStart(w, a, e).state;
               var info := start.rt.asyncInfo.value;
               var o := Dest(w, 0, start, DestinationInput(start, info, OtherName), e.callee);
               && o.err.None? && SentBack(w, 0, start, info, e) == []
               && CallbackGas(o, info) > CallbackCost(w, o)
               && var back := RestoreGas(o.state, info.gasLocked);
                  var input := CallbackInput(w, back, info, o);
                  var cb := Dest(w, 0, back, input, callback);
                  && input.recipient == x && input.vm.value == value
                  && Paid(w, back, input, false) == Attempt(Enter(back, input), None)
                  && Prepare(w, 1, Enter(back, input), input, true).err.None?
                  && Run(w, 0, s, p) == Attempt(if cb.err.None? then cb.state else ReportCallback(w, cb.state, cb.vm),
                                                None)
  {
    hide Do, Run, Dest, AsyncStart, CallbackValue, SentBack, Started, CallLocally, CallbackGas, CallbackCost, Prepare,
      Paid;
    var p, gas := CallsThenAsks(w, x, y, z, value, callback), EnoughGas(w, x, y, z);
    var s := FirstState(w, x, gas);
    StartsIn(w, x, gas, p);
    StepWithinCost(w);
    SentBackKept(w, x, y, z, value, callback);
    var a, e := Do(w, 0, s, p.action), p.rest.ending;
    AsksIdle(w, x, z, value, a, e);
    var start := AsyncStart(w, a, e).state;
    RunsThenAsks(w, s, p);
    AsyncIs(w, 0, a, e);
    CallsLocally(w, 0, start, start.rt.asyncInfo.value, e);
  }

  lemma RunsThenAsks(w: World, s: Active, p: Program)
    requires p.Step? && p.rest.End? && p.rest.ending.AsyncCall?
    ensures Run(w, 0, s, p) == RunAsync(w, 0, Do(w, 0, s, p.action), p.rest.ending)
  {
    hide Do, RunAsync;
    assert Run(w, 0, s, p) == Run(w, 0, Do(w, 0, s, p.action), p.rest);
  }

  /** After the first call: the value is on record for the caller, as a bare transfer. */
  ghost predicate HasBareValue(w: World, a: Active, x: Address, value: int) {
    && x in a.out.accounts && a.out.accounts[x].transfers != [] && BareValue(a.out.accounts[x].transfers) == value
    && SolventAccount(w, x, a.out.accounts[x])
    && Free(a) && a.rt.scAddress == x && a.out.code == Ok
  }

  lemma SentBackKept(w: World, x: Address, y: Address, z: Address, value: int, callback: Contract)
    requires Deployed(w, x) && Deployed(w, y) && Deployed(w, z) && x != y && x != z && y != z && SameShard(w, x, y)
    requires 0 <= value <= w.balances[y] && IdleCost(w) < MAX_INT32
    ensures var s := FirstState(w, x, EnoughGas(w, x, y, z));
            var a := Do(w, 0, s, CallsThenAsks(w, x, y, z, value, callback).action);
            && HasBareValue(w, a, x, value) && a.points == Cost(w, y) && a.meter.(used := map[]) == s.meter
  {
    hide Do, Dest, HasBareValue;
    var s := FirstState(w, x, EnoughGas(w, x, y, z));
    var act := CallsThenAsks(w, x, y, z, value, callback).action;
    var input := CallInput(VMInput(x, 0, DirectCall, Cost(w, y), 0), y, OtherName);
    FreeFirst(w, x, EnoughGas(w, x, y, z));
    CallsSender(w, x, y, s, act, input);
    SenderKept(w, x, y, s, value, input);
  }

  lemma SenderKept(w: World, x: Address, y: Address, s: Active, value: int, input: CallInput)
    requires Deployed(w, x) && Deployed(w, y) && x != y && 0 <= value <= w.balances[y]
    requires s.out.accounts == map[x := NEW_ACCOUNT] && Free(s) && s.rt.scAddress == x && s.meter.used == map[]
    requires input == CallInput(VMInput(x, 0, DirectCall, Cost(w, y), 0), y, OtherName)
    requires Covered(s, input) && s.meter.forExecution <= MAX_INT64
    ensures var a := Dest(w, 0, s, input, Code(SendsBack(x, value))).state;
            && HasBareValue(w, a, x, value) && a.points == s.points + Cost(w, y) && a.meter.(used := map[]) == s.meter
  {
    hide Dest, DestExecution, CloseGas, GasFree, NoTransferGas, Conserves, GasLeft, GetCode;
    var c := Code(SendsBack(x, value));
    SenderRuns(w, x, y, s, value, input);
    SenderFree(w, x, value);
    var e := DestExecution(w, 0, s, input, c);
    FreeIsKept(w, 0, s, input, c);
    ClosedAccount(e.state, x);
    CallCost(w, 0, s, input, c);
    DestEvolves(w, 0, s, input, c);
    ExecutionFree(w, 0, s, input, c, false);
    ClosedFree(w, e.state);
  }

  lemma FreeFirst(w: World, x: Address, gas: uint64)
    requires Cost(w, x) <= gas
    ensures Free(FirstState(w, x, gas))
  {
  }

  lemma CallsSender(w: World, x: Address, y: Address, s: Active, act: Action, input: CallInput)
    requires act.CallDest? && !act.byCaller && act.destination == y && act.value == 0 && act.name == OtherName
    requires act.gasLimit == Cost(w, y) <= GasLeft(s) && s.rt.scAddress == x && SameShard(w, x, y)
             && Cost(w, y) <= MAX_INT32
    requires input == CallInput(VMInput(x, 0, DirectCall, Cost(w, y), 0), y, OtherName)
    ensures Do(w, 0, s, act) == Dest(w, 0, s, input, act.callee).state
  {
    hide Dest;
    assert ActionInput(s, act) == input;
  }

  lemma SenderFree(w: World, x: Address, value: int)
    ensures GasFree(w, SendsBack(x, value)) && GasFree(w, End(Return))
  {
    assert GasFree(w, End(Return));
  }

  lemma ClosedAccount(a: Active, x: Address)
    requires x in a.out.accounts
    ensures x in CloseGas(a).out.accounts
    ensures var b := CloseGas(a).out.accounts[x]; b == a.out.accounts[x].(gasUsed := b.gasUsed)
  {
    hide CloseGas;
    ClosedIs(a);
  }

  lemma ClosedFree(w: World, a: Active)
    requires Free(a)
    ensures Free(CloseGas(a))
  {
    hide CloseGas, SameCarry, CarriedOnly, Free;
    FreeCarriers(w, a);
    CloseCarry(a);
    CarryKept(w, a.out.accounts, CloseGas(a).out.accounts, false);
    FreeCarriers(w, CloseGas(a));
  }

  lemma SenderRuns(w: World, x: Address, y: Address, s: Active, value: int, input: CallInput)
    requires Deployed(w, x) && Deployed(w, y) && x != y && s.out.accounts == map[x := NEW_ACCOUNT]
    requires 0 <= value <= w.balances[y]
    requires input == CallInput(VMInput(x, 0, DirectCall, Cost(w, y), 0), y, OtherName)
    ensures var e := DestExecution(w, 0, s, input, Code(SendsBack(x, value)));
            && e.err.None? && e.state.out.code == Ok && e.state.points == 0
            && e.state.meter == Meter(Cost(w, y), Cost(w, y), 0, map[]) && e.state.rt.scAddress == y
            && x in e.state.out.accounts && SolventAccount(w, x, e.state.out.accounts[x])
            && e.state.out.accounts[x].transfers == [OutputTransfer(value, 0, 0, [], DirectCall, y)]
  {
    hide TransferValueOnly, Do;
    var entered := Enter(s, input);
    PaysNothing(w, entered, y, x);
    var pay := TransferValueOnly(w, entered, y, x, 0, false);
    PreparedIs(w, 1, pay.state, input);
    var p := Prepare(w, 1, pay.state, input, true);
    var program := SendsBack(x, value);
    SentValue(w, p.state, x, y, value);
    var sent := Do(w, 1, p.state, program.action);
    assert Run(w, 1, p.state, program) == Run(w, 1, sent, End(Return)) == Attempt(sent, None);
  }

  lemma SentValue(w: World, a: Active, x: Address, y: Address, value: int)
    requires Deployed(w, x) && Deployed(w, y) && x != y && a.rt.scAddress == y
    requires a.out.accounts.Keys == {x, y} && 0 <= value <= w.balances[y]
    requires a.out.accounts[x] == NEW_ACCOUNT.(balance := Some(w.balances[x])) && a.out.accounts[y] == NEW_ACCOUNT
    ensures var b := Do(w, 1, a, SendValue(x, value, 0, []));
            && b == SetAccounts(a, b.out.accounts) && x in b.out.accounts && SolventAccount(w, x, b.out.accounts[x])
            && b.out.accounts[x].transfers == [OutputTransfer(value, 0, 0, [], DirectCall, y)]
  {
    var transfer := OutputTransfer(value, 0, 0, [], DirectCall, y);
    assert [] + [transfer] == [transfer];
  }

  /** What the idle destination leaves. */
  lemma IdleOutcome(w: World, x: Address, z: Address, value: int, a: Active, e: Ending)
    requires Deployed(w, x) && Deployed(w, z) && x != z && HasBareValue(w, a, x, value)
    requires e.AsyncCall? && e.destination == z && e.value == 0 && e.parses && e.name == OtherName && !e.hasCallback
    requires e.callee == Code(End(Return)) && IdleCost(w) < MAX_INT32
    requires a.points + w.schedule.asyncCallStep + Spare(w, x) + Cost(w, z) == a.meter.forExecution <= MAX_INT64
    ensures AsyncStart(w, a, e).err.None? && AsyncStart(w, a, e).state.rt.asyncInfo.Some?
    ensures var start := AsyncStart(w, a, e).state;
            var info := start.rt.asyncInfo.value;
            var o := Dest(w, 0, start, DestinationInput(start, info, OtherName), e.callee);
            && o.err.None? && SentBack(w, 0, start, info, e) == [] && CallbackValue(o, x) == value
            && o.vm.code == Ok && o.vm.returnData == [] && o.vm.gasRemaining == Spare(w, x)
            && o.state.rt.scAddress == x && info.gasLocked == 0
  {
    hide AsyncStart, Dest, DestExecution, CloseGas, GasFree, CallbackValue, NoTransferGas, SolventAccount, IdleCost,
      CallbackCost, Deployed, Kept, GetCode;
    LocksNothing(w, a, e, x, z);
    var start := AsyncStart(w, a, e).state;
    var info := start.rt.asyncInfo.value;
    var input := CallInput(VMInput(x, 0, AsynchronousCall, Spare(w, x) + Cost(w, z), 0), z, OtherName);
    assert DestinationInput(start, info, OtherName) == input;
    FreeStart(w, a, e);
    IdleAsked(w, x, z, start, input);
    SenderFree(w, x, value);
    var end := DestExecution(w, 0, start, input, e.callee);
    FreeIsKept(w, 0, start, input, e.callee);
    ClosedAccount(end.state, x);
    CloseGasReturns(end.state);
    CloseGasCode(end.state);
    CallbackValueExactly(w, 0, start, info, e);
  }

  /** The asynchronous call to an idle contract, and the callback that follows. */
  lemma AsksIdle(w: World, x: Address, z: Address, value: int, a: Active, e: Ending)
    requires Deployed(w, x) && Deployed(w, z) && x != z && HasBareValue(w, a, x, value) && value > 0
    requires e.AsyncCall? && e.destination == z && e.value == 0 && e.parses && e.name == OtherName && !e.hasCallback
    requires e.callee == Code(End(Return)) && IdleCost(w) < MAX_INT32
    requires a.points + w.schedule.asyncCallStep + Spare(w, x) + Cost(w, z) == a.meter.forExecution <= MAX_INT64
    ensures AsyncStart(w, a, e).err.None? && AsyncStart(w, a, e).state.rt.asyncInfo.Some?
    ensures var start := AsyncStart(w, a, e).state;
            var info := start.rt.asyncInfo.value;
            var o := Dest(w, 0, start, DestinationInput(start, info, OtherName), e.callee);
            && o.err.None? && SentBack(w, 0, start, info, e) == []
            && CallbackGas(o, info) > CallbackCost(w, o)
            && var back := RestoreGas(o.state, info.gasLocked);
               var input := CallbackInput(w, back, info, o);
               && input.recipient == x && input.vm.value == value
               && Paid(w, back, input, false) == Attempt(Enter(back, input), None)
               && Prepare(w, 1, Enter(back, input), input, true).err.None?
  {
    hide AsyncStart, Dest, IdleCost, CallbackValue, CallbackCost, Prepare, Paid, RestoreGas, SentBack, HasBareValue,
      Deployed;
    IdleOutcome(w, x, z, value, a, e);
    var start := AsyncStart(w, a, e).state;
    var info := start.rt.asyncInfo.value;
    var o := Dest(w, 0, start, DestinationInput(start, info, OtherName), e.callee);
    IdleCallbackCost(w, o);
    var back := RestoreGas(o.state, info.gasLocked);
    RestoredOnly(o.state, info.gasLocked);
    StaleInput(w, x, back, CallbackInput(w, back, info, o));
  }

  lemma IdleCallbackCost(w: World, o: Outcome)
    requires o.err.None? && o.vm.code == Ok && o.vm.returnData == []
    ensures CallbackCost(w, o) == IdleCost(w)
  {
    hide CopyCost;
    var args := CallbackArguments(w, o);
    assert args == [w.codeBytes(Ok)] && args[..0] == [];
    assert TotalLength(args) == |w.codeBytes(Ok)|;
  }

  /** A callback that brings value is not paid, and this one can be prepared. */
  lemma StaleInput(w: World, x: Address, back: Active, input: CallInput)
    requires Deployed(w, x) && input.vm.callType == AsynchronousCallBack && input.vm.value > 0
             && input.name == CallbackName
    requires input.recipient == x && input.vm.gasProvided == 1 + Cost(w, x) && input.vm.gasLocked == 0
    ensures Paid(w, back, input, false) == Attempt(Enter(back, input), None)
    ensures Prepare(w, 1, Enter(back, input), input, true).err.None?
  {
    PreparedIs(w, 1, Enter(back, input), input);
  }

  lemma CloseGasReturns(a: Active)
    ensures CloseGas(a).out.returnData == a.out.returnData
  {
    hide CloseGas;
    ClosedIs(a);
  }

  lemma FreeStart(w: World, a: Active, e: Ending)
    requires e.AsyncCall? && Free(a)
    ensures Free(AsyncStart(w, a, e).state)
  {
    hide AsyncStart, SameCarry, CarriedOnly, Free;
    FreeCarriers(w, a);
    StartCarry(w, a, e);
    CarryKept(w, a.out.accounts, AsyncStart(w, a, e).state.out.accounts, false);
    FreeCarriers(w, AsyncStart(w, a, e).state);
  }

  lemma LocksNothing(w: World, a: Active, e: Ending, x: Address, z: Address)
    requires Deployed(w, x) && IdleCost(w) < MAX_INT32
    requires e.AsyncCall? && e.destination == z && e.value == 0 && e.parses && !e.hasCallback
    requires a.points + w.schedule.asyncCallStep + Spare(w, x) + Cost(w, z) == a.meter.forExecution <= MAX_INT64
    ensures var start := AsyncStart(w, a, e); var s := start.state;
            && start.err.None? && s.rt.asyncInfo.Some?
            && s.rt.asyncInfo.value.destination == z && s.rt.asyncInfo.value.value == 0
            && s.rt.asyncInfo.value.gasLocked == 0
            && GasLeft(s) == Spare(w, x) + Cost(w, z) && s.meter == a.meter && s.rt.scAddress == a.rt.scAddress
            && s.out == a.out.(accounts := Ensure(a.out.accounts, z))
  {
    hide IdleCost;
  }

  lemma IdleAsked(w: World, x: Address, z: Address, s: Active, input: CallInput)
    requires Deployed(w, x) && Deployed(w, z) && x != z && x in s.out.accounts && IdleCost(w) < MAX_INT32
    requires SolventAccount(w, x, s.out.accounts[x])
    requires input == CallInput(VMInput(x, 0, AsynchronousCall, Spare(w, x) + Cost(w, z), 0), z, OtherName)
    ensures var e := DestExecution(w, 0, s, input, Code(End(Return)));
            && e.err.None? && e.state.points == 0 && e.state.out.returnData == [] && e.state.out.code == Ok
            && e.state.meter == Meter(Spare(w, x) + Cost(w, z), Cost(w, z), Spare(w, x), map[])
            && x in e.state.out.accounts && e.state.out.accounts[x].transfers == s.out.accounts[x].transfers
  {
    hide TransferValueOnly, IdleCost;
    var entered := Enter(s, input);
    PaysNothing(w, entered, z, x);
    var pay := TransferValueOnly(w, entered, z, x, 0, false);
    PreparedIs(w, 1, pay.state, input);
    var p := Prepare(w, 1, pay.state, input, true);
    assert Run(w, 1, p.state, End(Return)) == Attempt(p.state, None);
  }

  // ----- a lock computed from another contract's size -----

  /** A contract without the function that is called. */
  const NO_FUNCTION := Contract(true, Missing, End(Return))

  /** Make an asynchronous call with a callback to `z`, whose function is missing; before that, if
      `early`, call `y`, whose function is missing too. */
  function AsksWithLock(w: World, y: Address, z: Address, early: bool, callback: Contract): Program
    requires Deployed(w, y)
  {
    var ask := End(AsyncCall(z, [], 0, true, OtherName, true, NO_FUNCTION, callback));
    if early then Step(CallDest(false, y, 0, Cost(w, y), OtherName, NO_FUNCTION), ask) else ask
  }

  /** The price of a callback that reports the missing function. */
  function FailureCost(w: World): uint64 {
    AddUint64(w.schedule.asyncCallStep,
              CopyCost(w, CALLBACK_NAME_LEN + 2 + (|w.codeBytes(FunctionNotFound)| + |w.errorText(ErrFuncNotFound)|)))
  }

  function SizeOf(w: World, x: Address): uint64 {
    GetCode(w, x).size
  }

  function LockGasFor(w: World, x: Address, y: Address, z: Address): uint64
    requires Deployed(w, x) && Deployed(w, y) && Deployed(w, z) && w.schedule.asyncCallStep <= MAX_INT32
    requires LockFor(w, SizeOf(w, x)) <= MAX_INT32 && LockFor(w, SizeOf(w, y)) <= MAX_INT32
  {
    Cost(w, x) + Cost(w, y) + w.schedule.asyncCallStep + LockFor(w, SizeOf(w, x)) + LockFor(w, SizeOf(w, y)) + 1
      + Cost(w, z)
  }

  /** The lock is computed from the size of `y` after the early call, although that call failed and
      was undone; otherwise from the caller's own. The callback's preparation depends on it. */
  lemma LockDecides(w: World, x: Address, y: Address, z: Address, early: bool, callback: Contract)
    requires Deployed(w, x) && Deployed(w, y) && Deployed(w, z) && x != y && x != z && y != z && SameShard(w, x, y)
    requires w.schedule.asyncCallStep <= MAX_INT32
    requires LockFor(w, SizeOf(w, x)) <= MAX_INT32 && LockFor(w, SizeOf(w, y)) <= MAX_INT32
    ensures var p, gas := AsksWithLock(w, y, z, early, callback), LockGasFor(w, x, y, z);
            var s := FirstState(w, x, gas);
            var a, e := StateAtExit(w, 0, s, p), ExitOf(p);
            && Started(w, Direct(x, gas), Code(p), [], 0) == Attempt(s, None)
            && e.AsyncCall? && AsyncStart(w, a, e).err.None? && AsyncStart(w, a, e).state.rt.asyncInfo.Some?
            && var start := AsyncStart(w, a, e).state;
               var info := start.rt.asyncInfo.value;
               var o := Dest(w, 0, start, DestinationInput(start, info, OtherName), e.callee);
               && info.gasLocked == LockFor(w, if early then SizeOf(w, y) else SizeOf(w, x))
               && CallbackGas(o, info) == info.gasLocked && CallbackCost(w, o) == FailureCost(w)
               && (info.gasLocked > FailureCost(w) ==>
                     var back := RestoreGas(o.state, info.gasLocked);
                     var input := CallbackInput(w, back, info, o);
                     Prepare(w, 1, Paid(w, back, input, false).state, input, true).err.None?
                     <==> Cost(w, x) <= info.gasLocked - FailureCost(w))
  {
    hide StateAtExit, ExitOf, AsyncStart, Dest, Started, Prepare, Paid, CallbackGas, CallbackCost, LockFor, FailureCost;
    var p, gas := AsksWithLock(w, y, z, early, callback), LockGasFor(w, x, y, z);
    var s := FirstState(w, x, gas);
    StartsIn(w, x, gas, p);
    EarlyCall(w, x, y, z, early, callback);
    var a, e := StateAtExit(w, 0, s, p), ExitOf(p);
    AsksMissing(w, x, z, a, e);
    var start := AsyncStart(w, a, e).state;
    var info := start.rt.asyncInfo.value;
    if info.gasLocked > FailureCost(w) {
      CallbackPreparedExactly(w, 0, Dest(w, 0, start, DestinationInput(start, info, OtherName), e.callee), info);
    }
  }

  lemma EarlyCall(w: World, x: Address, y: Address, z: Address, early: bool, callback: Contract)
    requires Deployed(w, x) && Deployed(w, y) && Deployed(w, z) && x != y && x != z && y != z && SameShard(w, x, y)
    requires w.schedule.asyncCallStep <= MAX_INT32
    requires LockFor(w, SizeOf(w, x)) <= MAX_INT32 && LockFor(w, SizeOf(w, y)) <= MAX_INT32
    ensures var p, s := AsksWithLock(w, y, z, early, callback), FirstState(w, x, LockGasFor(w, x, y, z));
            var a := StateAtExit(w, 0, s, p);
            && ExitOf(p) == AsyncCall(z, [], 0, true, OtherName, true, NO_FUNCTION, callback)
            && a == s.(points := if early then Cost(w, y) else 0,
                       codeSize := if early then SizeOf(w, y) else SizeOf(w, x))
  {
    hide Do, LockFor, Dest;
    var p, s := AsksWithLock(w, y, z, early, callback), FirstState(w, x, LockGasFor(w, x, y, z));
    if early {
      var input := CallInput(VMInput(x, 0, DirectCall, Cost(w, y), 0), y, OtherName);
      CallsSender(w, x, y, s, p.action, input);
      MissingFails(w, x, y, s, input);
      assert StateAtExit(w, 0, s, p) == StateAtExit(w, 0, Do(w, 0, s, p.action), p.rest) == Do(w, 0, s, p.action);
      assert ExitOf(p) == ExitOf(p.rest);
    }
  }

  /** A call to a missing function is undone; it costs all its gas, and the size is remembered. */
  lemma MissingFails(w: World, x: Address, y: Address, s: Active, input: CallInput)
    requires Deployed(w, x) && Deployed(w, y) && SolventAccount(w, x, Account(s.out.accounts, x)) && s.rt.scAddress == x
    requires input.vm == VMInput(x, 0, input.vm.callType, input.vm.gasProvided, input.vm.gasLocked)
    requires input.vm.callType != AsynchronousCallBack && input.recipient == y && input.name == OtherName
    requires Cost(w, y) <= input.vm.gasProvided && s.points + input.vm.gasProvided <= MAX_INT64
    ensures var o := Dest(w, 0, s, input, NO_FUNCTION);
            && o.err.Some? && o.vm == VMOutput(map[], [], [], FunctionNotFound, w.errorText(ErrFuncNotFound), 0, 0)
            && o.state == s.(points := s.points + input.vm.gasProvided, codeSize := SizeOf(w, y))
  {
    hide TransferValueOnly, Dest;
    var entered := Enter(s, input);
    PaysNothing(w, entered, y, x);
    var pay := TransferValueOnly(w, entered, y, x, 0, false);
    PreparedIs(w, 1, pay.state, input);
    var e := DestExecution(w, 0, s, input, NO_FUNCTION);
    var p := Prepare(w, 1, pay.state, input, true);
    assert e == p.(err := Some(ErrFuncNotFound));
    ErrorOutputCode(w, 0, s, input, NO_FUNCTION);
    DestRollsBack(w, 0, s, input, NO_FUNCTION);
  }

  lemma AsksMissing(w: World, x: Address, z: Address, a: Active, e: Ending)
    requires Deployed(w, x) && Deployed(w, z) && x != z && SolventAccount(w, x, Account(a.out.accounts, x))
    requires e.AsyncCall? && e.destination == z && e.value == 0 && e.parses && e.name == OtherName && e.hasCallback
    requires e.callee == NO_FUNCTION && a.rt.scAddress == x
    requires a.points + w.schedule.asyncCallStep + LockFor(w, a.codeSize) + 1
             + Cost(w, z) <= a.meter.forExecution <= MAX_INT64
    ensures AsyncStart(w, a, e).err.None? && AsyncStart(w, a, e).state.rt.asyncInfo.Some?
    ensures var start := AsyncStart(w, a, e).state;
            var info := start.rt.asyncInfo.value;
            var o := Dest(w, 0, start, DestinationInput(start, info, OtherName), e.callee);
            && info.gasLocked == LockFor(w, a.codeSize) && o.state.rt.scAddress == x
            && CallbackGas(o, info) == info.gasLocked && CallbackCost(w, o) == FailureCost(w)
  {
    hide AsyncStart, Dest, CallbackCost, LockFor, FailureCost;
    Locks(w, a, e, z);
    var start := AsyncStart(w, a, e).state;
    var info := start.rt.asyncInfo.value;
    var input := DestinationInput(start, info, OtherName);
    MissingFails(w, x, z, start, input);
    FailureCallbackCost(w, Dest(w, 0, start, input, e.callee));
  }

  lemma Locks(w: World, a: Active, e: Ending, z: Address)
    requires e.AsyncCall? && e.destination == z && e.value == 0 && e.parses && e.hasCallback
    requires a.points + w.schedule.asyncCallStep + LockFor(w, a.codeSize) + 1
             + Cost(w, z) <= a.meter.forExecution <= MAX_INT64
    ensures var start := AsyncStart(w, a, e); var s := start.state;
            && start.err.None? && s.rt.asyncInfo.Some?
            && s.rt.asyncInfo.value.destination == z && s.rt.asyncInfo.value.value == 0
            && s.rt.asyncInfo.value.gasLocked == LockFor(w, a.codeSize)
            && 1 + Cost(w, z) <= GasLeft(s) && s.points + GasLeft(s) <= MAX_INT64
            && s.rt.scAddress == a.rt.scAddress && s.out.accounts == Ensure(a.out.accounts, z)
  {
    hide GasLockedForAsync;
  }

  lemma FailureCallbackCost(w: World, o: Outcome)
    requires o.err.Some? && o.vm.code == FunctionNotFound && o.vm.message == w.errorText(ErrFuncNotFound)
    ensures CallbackCost(w, o) == FailureCost(w)
  {
    hide CopyCost;
    var code, message := w.codeBytes(FunctionNotFound), w.errorText(ErrFuncNotFound);
    var args := CallbackArguments(w, o);
    assert args == [code, message] && args[..1] == [code];
    assert TotalLength([code]) == |code|;
    assert TotalLength(args) == |code| + |message|;
  }
}
