/** The stacked contexts of arwen/contexts as objects: each keeps its active state and a stack
    of saved ones. Operations that a context performs on others through the host are methods of
    the host. */
module Contexts {
  import opened Overflow
  import opened Types
  import opened Sums
  import opened Ledger
  import opened Frame
  import opened Conservation

  // ----- output -----

  lemma MergeIntoNew(out: VMOutput)
    ensures Merge(NEW_OUTPUT, out) == out
  {
    MergeIsRight(map[], out.accounts);
  }

  /** Later entries win; the order in which Go visits the map does not matter. */
  method MergeStorageUpdates(left: map<Bytes, Bytes>, right: map<Bytes, Bytes>) returns (r: map<Bytes, Bytes>)
    ensures r == left + right
  {
    r := left;
    var keys := right.Keys;
    while keys != {}
      invariant keys <= right.Keys
      invariant r.Keys == left.Keys + (right.Keys - keys)
      invariant forall k :: k in r ==> r[k] == if k in right && k !in keys then right[k] else left[k]
      decreases keys
    {
      var key :| key in keys;
      r := r[key := right[key]];
      keys := keys - {key};
    }
  }

  method MergeOutputAccounts(left: OutputAccount, right: OutputAccount) returns (r: OutputAccount)
    ensures r == MergeAccount(left, right)
  {
    var storage := MergeStorageUpdates(left.storage, right.storage);
    r := left.(storage := storage, delta := right.delta);
    if right.balance.Some? {
      r := r.(balance := right.balance);
    }
    if |right.transfers| > |left.transfers| {
      r := r.(transfers := left.transfers + right.transfers[|left.transfers|..]);
    }
    r := r.(gasUsed := right.gasUsed);
  }

  method MergeAllAccounts(left: Accounts, right: Accounts) returns (r: Accounts)
    ensures r == MergeAccounts(left, right)
  {
    hide MergeAccount;
    r := left;
    var addresses := right.Keys;
    while addresses != {}
      invariant addresses <= right.Keys
      invariant r.Keys == left.Keys + (right.Keys - addresses)
      invariant forall x :: x in r ==>
                  r[x] == if x in right && x !in addresses then MergeAccount(Account(left, x), right[x]) else left[x]
      decreases addresses
    {
      var x :| x in addresses;
      var account := MergeOutputAccounts(if x in r then r[x] else NEW_ACCOUNT, right[x]);
      r := r[x := account];
      addresses := addresses - {x};
    }
  }

  method MergeVMOutputs(left: VMOutput, right: VMOutput) returns (r: VMOutput)
    ensures r == Merge(left, right)
  {
    var accounts := MergeAllAccounts(left.accounts, right.accounts);
    r := VMOutput(accounts, left.returnData + right.returnData, left.logs + right.logs, right.code, right.message,
                  right.gasRemaining, right.gasRefund);
  }

  class OutputContext {
    var outputState: VMOutput
    var stateStack: seq<VMOutput>

    constructor ()
      ensures outputState == NEW_OUTPUT && stateStack == []
    {
      outputState, stateStack := NEW_OUTPUT, [];
    }

    method InitState()
      modifies this`outputState
      ensures outputState == NEW_OUTPUT
    {
      outputState := NEW_OUTPUT;
    }

    method ClearStateStack()
      modifies this`stateStack
      ensures stateStack == []
    {
      stateStack := [];
    }

    /** The saved state is a copy, built by merging into an empty output. */
    method PushState()
      modifies this`stateStack
      ensures stateStack == old(stateStack) + [outputState]
    {
      var newState := MergeVMOutputs(NEW_OUTPUT, outputState);
      MergeIntoNew(outputState);
      stateStack := stateStack + [newState];
    }

    method PopSetActiveState()
      modifies this
      ensures if old(|stateStack|) == 0 then stateStack == old(stateStack) && outputState == old(outputState)
              else stateStack == old(stateStack[..|stateStack| - 1]) && outputState == old(stateStack[|stateStack| - 1])
    {
      var n := |stateStack|;
      if n == 0 {
        return;
      }
      var prevState := stateStack[n - 1];
      stateStack := stateStack[..n - 1];
      outputState := prevState;
    }

    /** Merge into the saved state, then copy the result back. */
    method PopMergeActiveState()
      modifies this
      ensures if old(|stateStack|) == 0 then stateStack == old(stateStack) && outputState == old(outputState)
              else stateStack == old(stateStack[..|stateStack| - 1])
                   && outputState == Merge(old(stateStack[|stateStack| - 1]), old(outputState))
    {
      var n := |stateStack|;
      if n == 0 {
        return;
      }
      var prevState := stateStack[n - 1];
      stateStack := stateStack[..n - 1];
      prevState := MergeVMOutputs(prevState, outputState);
      outputState := NEW_OUTPUT;
      outputState := MergeVMOutputs(outputState, prevState);
      MergeIntoNew(prevState);
    }

    method PopDiscard()
      modifies this`stateStack
      ensures stateStack == if old(|stateStack|) == 0 then old(stateStack) else old(stateStack[..|stateStack| - 1])
    {
      var n := |stateStack|;
      if n == 0 {
        return;
      }
      stateStack := stateStack[..n - 1];
    }

    method CensorVMOutput()
      modifies this`outputState
      ensures outputState == Censor(old(outputState))
    {
      outputState := outputState.(returnData := [], code := Ok, message := [], gasRemaining := 0, gasRefund := 0,
                                  logs := []);
    }

    /** The account at an address; a missing one is created. */
    method GetOutputAccount(address: Address) returns (account: OutputAccount, isNew: bool)
      modifies this`outputState
      ensures outputState == old(outputState).(accounts := Ensure(old(outputState).accounts, address))
      ensures account == Account(old(outputState).accounts, address) && isNew == (address !in old(outputState).accounts)
    {
      isNew := address !in outputState.accounts;
      if isNew {
        outputState := outputState.(accounts := outputState.accounts[address := NEW_ACCOUNT]);
      }
      account := outputState.accounts[address];
    }

    /** Writing to the fields of an account that the ledger holds. */
    method UpdateAccount(address: Address, account: OutputAccount)
      modifies this`outputState
      ensures outputState == old(outputState).(accounts := old(outputState).accounts[address := account])
    {
      outputState := outputState.(accounts := outputState.accounts[address := account]);
    }
  }

  // ----- metering -----

  class MeteringContext {
    var initialGasProvided: uint64
    var initialCost: uint64
    var gasForExecution: uint64
    var gasUsedByAccounts: GasMap
    var stateStack: seq<Meter>

    ghost function State(): Meter
      reads this
    {
      Meter(initialGasProvided, initialCost, gasForExecution, gasUsedByAccounts)
    }

    constructor ()
      ensures State() == Meter(0, 0, 0, map[]) && stateStack == []
    {
      initialGasProvided, initialCost, gasForExecution, gasUsedByAccounts := 0, 0, 0, map[];
      stateStack := [];
    }

    method InitState()
      modifies this`initialGasProvided, this`initialCost, this`gasForExecution, this`gasUsedByAccounts
      ensures State() == Meter(0, 0, 0, map[])
    {
      initialGasProvided, initialCost, gasForExecution, gasUsedByAccounts := 0, 0, 0, map[];
    }

    /** Returns the input as it is after the locked gas of a callback has been opened. */
    method InitStateFromContractCallInput(input: VMInput) returns (unlocked: VMInput)
      modifies this`initialGasProvided, this`initialCost, this`gasForExecution, this`gasUsedByAccounts
      ensures State() == InitMeter(input)
      ensures unlocked == if input.callType == AsynchronousCallBack
              then input.(gasProvided := ProvidedGas(input), gasLocked := 0)
                          else input
      ensures unlocked.gasProvided == ProvidedGas(input)
    {
      InitState();
      unlocked := input;
      if input.callType == AsynchronousCallBack {
        unlocked := input.(gasProvided := AddUint64(input.gasProvided, input.gasLocked), gasLocked := 0);
      }
      initialGasProvided := unlocked.gasProvided;
      gasForExecution := unlocked.gasProvided;
    }

    method ClearStateStack()
      modifies this`stateStack
      ensures stateStack == []
    {
      stateStack := [];
    }

    method PushState()
      modifies this`stateStack
      ensures stateStack == old(stateStack) + [State()]
    {
      stateStack := stateStack + [Meter(initialGasProvided, initialCost, gasForExecution, gasUsedByAccounts)];
    }

    method PopSetActiveState()
      modifies this
      ensures if old(|stateStack|) == 0 then stateStack == old(stateStack) && State() == old(State())
              else stateStack == old(stateStack[..|stateStack| - 1]) && State() == old(stateStack[|stateStack| - 1])
    {
      var n := |stateStack|;
      if n == 0 {
        return;
      }
      var prevState := stateStack[n - 1];
      stateStack := stateStack[..n - 1];
      initialGasProvided, initialCost := prevState.provided, prevState.initialCost;
      gasForExecution, gasUsedByAccounts := prevState.forExecution, prevState.used;
    }

    /** The saved frame's figures come back; its gas map is added to the active one. */
    method PopMergeActiveState()
      modifies this
      ensures if old(|stateStack|) == 0 then stateStack == old(stateStack) && State() == old(State())
              else stateStack == old(stateStack[..|stateStack| - 1])
                   && var prev := old(stateStack[|stateStack| - 1]);
                      State() == prev.(used := MergeGas(old(gasUsedByAccounts), prev.used))
    {
      var n := |stateStack|;
      if n == 0 {
        return;
      }
      var prevState := stateStack[n - 1];
      stateStack := stateStack[..n - 1];
      initialGasProvided, initialCost := prevState.provided, prevState.initialCost;
      gasForExecution := prevState.forExecution;
      AddToGasUsedByAccounts(prevState.used);
    }

    method AddToGasUsedByAccounts(gasUsed: GasMap)
      modifies this`gasUsedByAccounts
      ensures gasUsedByAccounts == MergeGas(old(gasUsedByAccounts), gasUsed)
    {
      var addresses := gasUsed.Keys;
      ghost var before := gasUsedByAccounts;
      while addresses != {}
        invariant addresses <= gasUsed.Keys
        invariant gasUsedByAccounts.Keys == before.Keys + (gasUsed.Keys - addresses)
        invariant forall x :: x in gasUsedByAccounts ==>
                    gasUsedByAccounts[x] ==
                    if x in gasUsed && x !in addresses then Wrap64(At(before, x) + gasUsed[x]) else before[x]
        decreases addresses
      {
        var x :| x in addresses;
        var sofar: int := if x in gasUsedByAccounts then gasUsedByAccounts[x] else 0;
        gasUsedByAccounts := gasUsedByAccounts[x := Wrap64(sofar + gasUsed[x])];
        addresses := addresses - {x};
      }
    }

    method DeductInitialGas(w: World, codeSize: uint64, gasProvided: uint64) returns (err: Option<Error>)
      modifies this`initialCost, this`gasForExecution
      ensures err == if InitialCost(w, codeSize) > gasProvided then Some(ErrNotEnoughGas) else None
      ensures State() == if err.Some? then old(State())
              else old(State()).(initialCost := InitialCost(w, codeSize),
                                 forExecution := gasProvided - InitialCost(w, codeSize))
      ensures 0 <= codeSize * w.schedule.aotPreparePerByte
      ensures err.None? ==> initialCost == Cap(w.schedule.getCode + codeSize * w.schedule.aotPreparePerByte)
    {
      var codeCost := MulUint64(codeSize, w.schedule.aotPreparePerByte);
      var cost := AddUint64(w.schedule.getCode, codeCost);
      if cost > gasProvided {
        return Some(ErrNotEnoughGas);
      }
      initialCost := cost;
      gasForExecution := gasProvided - cost;
      err := None;
    }
  }

  lemma CapCap(x: nat, y: nat)
    ensures Cap(x + Cap(y)) == Cap(x + y) && Cap(Cap(x) + y) == Cap(x + y)
  {
  }

  lemma TransferGasPrefix(transfers: seq<OutputTransfer>, i: nat)
    requires i < |transfers|
    ensures TransferGas(transfers[..i + 1]) == TransferGas(transfers[..i]) + transfers[i].gasLimit
            + transfers[i].gasLocked
  {
    assert transfers[..i + 1][..i] == transfers[..i];
  }

  /** The saturating total over the transfers of one account. */
  method GetGasTransferredByAccount(account: OutputAccount) returns (gas: uint64)
    ensures gas == Cap(TransferGas(account.transfers))
  {
    gas := 0;
    for i := 0 to |account.transfers|
      invariant gas == Cap(TransferGas(account.transfers[..i]))
    {
      TransferGasPrefix(account.transfers, i);
      gas := AddUint64(gas, account.transfers[i].gasLimit);
      gas := AddUint64(gas, account.transfers[i].gasLocked);
    }
    assert account.transfers[..|account.transfers|] == account.transfers;
  }

  /** The entries of `m` whose keys have been visited. */
  ghost function Visited(m: map<Address, int>, left: set<Address>): map<Address, int> {
    map x | x in m && x !in left :: m[x]
  }

  lemma VisitedStep(m: map<Address, int>, left: set<Address>, x: Address)
    requires left <= m.Keys && x in left && NonNegative(m)
    ensures SumMap(Visited(m, left - {x})) == SumMap(Visited(m, left)) + m[x]
    ensures 0 <= SumMap(Visited(m, left))
  {
    SumPut(Visited(m, left), x, m[x]);
    assert Visited(m, left - {x}) == Visited(m, left)[x := m[x]];
    SumNonNegative(Visited(m, left));
  }

  lemma VisitedAll(m: map<Address, int>)
    requires NonNegative(m)
    ensures Visited(m, {}) == m && Visited(m, m.Keys) == map[] && 0 <= SumMap(m)
  {
    SumNonNegative(m);
  }

  /** However Go orders the map, the total is the exact sum, capped. */
  method GetGasUsedByAllOtherAccounts(accounts: Accounts, used: GasMap, self: Address) returns (gas: uint64)
    ensures 0 <= SumMap(OthersGas(accounts, used, self)) && gas == Cap(SumMap(OthersGas(accounts, used, self)))
  {
    gas := 0;
    var addresses := accounts.Keys;
    ghost var terms := OthersGas(accounts, used, self);
    VisitedAll(terms);
    while addresses != {}
      invariant addresses <= accounts.Keys
      invariant 0 <= SumMap(Visited(terms, addresses)) && gas == Cap(SumMap(Visited(terms, addresses)))
      decreases addresses
    {
      var x :| x in addresses;
      var gasTransferred := GetGasTransferredByAccount(accounts[x]);
      var gasUsed: uint64 := 0;
      if x != self {
        gasUsed := if x in used then used[x] else 0;
      }
      VisitedStep(terms, addresses, x);
      CapCap(Cap(SumMap(Visited(terms, addresses)) + gasUsed), TransferGas(accounts[x].transfers));
      gas := AddUint64(gas, gasUsed);
      gas := AddUint64(gas, gasTransferred);
      addresses := addresses - {x};
    }
  }

  method GetCurrentTotalUsedGas(accounts: Accounts) returns (gas: uint64)
    ensures 0 <= SumMap(ReportedGas(accounts)) && gas == Cap(SumMap(ReportedGas(accounts)))
  {
    gas := 0;
    var addresses := accounts.Keys;
    ghost var terms := ReportedGas(accounts);
    VisitedAll(terms);
    while addresses != {}
      invariant addresses <= accounts.Keys
      invariant 0 <= SumMap(Visited(terms, addresses)) && gas == Cap(SumMap(Visited(terms, addresses)))
      decreases addresses
    {
      var x :| x in addresses;
      var gasTransferred := GetGasTransferredByAccount(accounts[x]);
      VisitedStep(terms, addresses, x);
      CapCap(Cap(SumMap(Visited(terms, addresses)) + accounts[x].gasUsed), TransferGas(accounts[x].transfers));
      gas := AddUint64(gas, accounts[x].gasUsed);
      gas := AddUint64(gas, gasTransferred);
      addresses := addresses - {x};
    }
  }

  method SetGasUsedToAccounts(accounts: Accounts, used: GasMap) returns (r: Accounts)
    ensures r == SetGasUsed(accounts, used)
  {
    r := accounts;
    var addresses := accounts.Keys;
    while addresses != {}
      invariant addresses <= accounts.Keys && r.Keys == accounts.Keys
      invariant forall x :: x in r ==> r[x] == if x in addresses then accounts[x] else SetGasUsed(accounts, used)[x]
      decreases addresses
    {
      var x :| x in addresses;
      r := r[x := r[x].(gasUsed := if x in used then used[x] else 0)];
      addresses := addresses - {x};
    }
  }

  // ----- storage and blockchain -----

  class StorageContext {
    var address: Address
    var stateStack: seq<Address>
    var protectionEnabled: bool

    constructor ()
      ensures address == [] && stateStack == [] && protectionEnabled
    {
      address, stateStack, protectionEnabled := [], [], true;
    }

    method PushState()
      modifies this`stateStack
      ensures stateStack == old(stateStack) + [address]
    {
      stateStack := stateStack + [address];
    }

    method PopSetActiveState()
      modifies this`address, this`stateStack
      ensures if old(|stateStack|) == 0 then stateStack == old(stateStack) && address == old(address)
              else stateStack == old(stateStack[..|stateStack| - 1]) && address == old(stateStack[|stateStack| - 1])
    {
      var n := |stateStack|;
      if n == 0 {
        return;
      }
      var prevAddress := stateStack[n - 1];
      stateStack := stateStack[..n - 1];
      address := prevAddress;
    }

    method ClearStateStack()
      modifies this`stateStack
      ensures stateStack == []
    {
      stateStack := [];
    }
  }

  /** The hook's journal stands for everything the node can revert to a snapshot. */
  class BlockchainContext {
    var journal: seq<Bytes>
    var stateStack: seq<nat>

    constructor ()
      ensures journal == [] && stateStack == []
    {
      journal, stateStack := [], [];
    }

    method PushState()
      modifies this`stateStack
      ensures stateStack == old(stateStack) + [|journal|]
    {
      stateStack := stateStack + [|journal|];
    }

    method PopSetActiveState()
      modifies this
      ensures if old(|stateStack|) == 0 then stateStack == old(stateStack) && journal == old(journal)
              else stateStack == old(stateStack[..|stateStack| - 1])
                   && var snapshot := old(stateStack[|stateStack| - 1]);
                      journal == if snapshot <= old(|journal|) then old(journal[..snapshot]) else old(journal)
    {
      var n := |stateStack|;
      if n == 0 {
        return;
      }
      var snapshot := stateStack[n - 1];
      if snapshot <= |journal| {
        journal := journal[..snapshot];
      }
      stateStack := stateStack[..n - 1];
    }

    method PopDiscard()
      modifies this`stateStack
      ensures stateStack == if old(|stateStack|) == 0 then old(stateStack) else old(stateStack[..|stateStack| - 1])
    {
      var n := |stateStack|;
      if n == 0 {
        return;
      }
      stateStack := stateStack[..n - 1];
    }
  }

  // ----- runtime -----

  /** A Wasmer instance: its gas counter and how often it has been cleaned. */
  class Instance {
    var points: Points
    var cleaned: nat

    constructor ()
      ensures points == 0 && cleaned == 0
    {
      points, cleaned := 0, 0;
    }

    method Clean()
      modifies this`cleaned
      ensures cleaned == old(cleaned) + 1
    {
      cleaned := cleaned + 1;
    }
  }

  class RuntimeContext {
    var instance: Instance?
    var scAddress: Address
    var vmInput: VMInput
    var name: Name
    var readOnly: bool
    var asyncCallInfo: Option<AsyncCallInfo>
    var codeSize: uint64
    var stateStack: seq<RuntimeState>
    var instanceStack: seq<Instance?>
    /** Every instance ever built. */
    ghost var created: set<Instance>

    ghost function State(): RuntimeState
      reads this
    {
      RuntimeState(scAddress, vmInput, name, readOnly, asyncCallInfo)
    }

    constructor ()
      ensures instance == null && stateStack == [] && instanceStack == [] && created == {}
    {
      instance, scAddress, vmInput := null, [], VMInput([], 0, DirectCall, 0, 0);
      name, readOnly, asyncCallInfo, codeSize := OtherName, false, None, 0;
      stateStack, instanceStack, created := [], [], {};
    }

    method InitState()
      modifies this`scAddress, this`vmInput, this`name, this`readOnly, this`asyncCallInfo
      ensures State() == RuntimeState([], VMInput([], 0, DirectCall, 0, 0), OtherName, false, None)
    {
      vmInput, scAddress, name := VMInput([], 0, DirectCall, 0, 0), [], OtherName;
      readOnly, asyncCallInfo := false, None;
    }

    /** The instance stack is left alone. */
    method ClearStateStack()
      modifies this`stateStack
      ensures stateStack == []
    {
      stateStack := [];
    }

    method InitStateFromContractCallInput(input: CallInput)
      modifies this`scAddress, this`vmInput, this`name
      ensures State() == InitRuntime(old(State()), input)
    {
      vmInput := input.vm;
      scAddress := input.recipient;
      name := input.name;
    }

    /** The running instance is saved with the state. */
    method PushState()
      modifies this`stateStack, this`instanceStack
      ensures stateStack == old(stateStack) + [State()] && instanceStack == old(instanceStack) + [instance]
    {
      stateStack := stateStack + [RuntimeState(scAddress, vmInput, name, readOnly, asyncCallInfo)];
      instanceStack := instanceStack + [instance];
    }

    /** The instance that is cleaned when the frame ends: the running one, unless the one saved
        with the frame is the same. */
    ghost function Leaving(): set<Instance>
      reads this
    {
      if instance != null && |instanceStack| > 0 && instance != instanceStack[|instanceStack| - 1] then {instance}
        else {}
    }

    /** Back to the saved frame. */
    method PopSetActiveState()
      modifies this`scAddress, this`vmInput, this`name, this`readOnly, this`asyncCallInfo, this`stateStack,
               this`instance, this`instanceStack
      modifies (if |stateStack| > 0 then Leaving() else {})`cleaned
      ensures old(|stateStack|) == 0 ==>
                State() == old(State()) && stateStack == old(stateStack) && instance == old(instance)
                  && instanceStack == old(instanceStack)
      ensures old(|stateStack|) > 0 ==>
                && State() == old(stateStack[|stateStack| - 1]) && stateStack == old(stateStack[..|stateStack| - 1])
                && Popped(old(instanceStack), old(instance))
                && forall i :: i in old(Leaving()) ==> i.cleaned == old(i.cleaned) + 1
    {
      var n := |stateStack|;
      if n == 0 {
        return;
      }
      var prevState := stateStack[n - 1];
      stateStack := stateStack[..n - 1];
      vmInput, scAddress, name := prevState.input, prevState.scAddress, prevState.name;
      readOnly, asyncCallInfo := prevState.readOnly, prevState.asyncInfo;
      PopInstance();
    }

    /** The top of an instance stack is running again; popping an empty stack changes nothing. */
    ghost predicate Popped(before: seq<Instance?>, running: Instance?)
      reads this
    {
      if |before| == 0 then instanceStack == before && instance == running
      else instanceStack == before[..|before| - 1] && instance == before[|before| - 1]
    }

    method PopInstance()
      modifies this`instance, this`instanceStack, Leaving()`cleaned
      ensures Popped(old(instanceStack), old(instance))
      ensures forall i :: i in old(Leaving()) ==> i.cleaned == old(i.cleaned) + 1
    {
      var n := |instanceStack|;
      if n == 0 {
        return;
      }
      var prevInstance := instanceStack[n - 1];
      instanceStack := instanceStack[..n - 1];
      if prevInstance == instance {
        return;
      }
      CleanWasmerInstance();
      instance := prevInstance;
    }

    method CleanWasmerInstance()
      modifies this`instance
      modifies (if instance != null then {instance} else {})`cleaned
      ensures instance == null
      ensures old(instance) != null ==> old(instance).cleaned == old(instance.cleaned) + 1
    {
      if instance == null {
        return;
      }
      instance.Clean();
      instance := null;
    }

    /** A new instance replaces the current one, unless too many are running or creation fails. */
    method StartWasmerInstance(starts: bool) returns (err: Option<Error>)
      modifies this`instance, this`created
      ensures err == if |instanceStack| >= MAX_INSTANCES then Some(ErrMaxInstancesReached)
                     else if !starts then Some(ErrInstanceCreation) else None
      ensures err.Some? ==> instance == null && created == old(created)
      ensures err.None? ==> instance != null && fresh(instance) && instance.points == 0 && instance.cleaned == 0
                            && created == old(created) + {instance}
    {
      if |instanceStack| >= MAX_INSTANCES {
        instance := null;
        return Some(ErrMaxInstancesReached);
      }
      if !starts {
        instance := null;
        return Some(ErrInstanceCreation);
      }
      instance := new Instance();
      created := created + {instance};
      err := None;
    }

    method SetPointsUsed(gasPoints: uint64)
      requires instance != null
      modifies instance`points
      ensures instance.points == ClampPoints(gasPoints)
    {
      if gasPoints > MAX_INT64 {
        instance.points := MAX_INT64;
      } else {
        instance.points := gasPoints;
      }
    }
  }
}
