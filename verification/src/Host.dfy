/** The execution host of arwen/host: it runs call trees on the stacked contexts. Every method
    is verified against the stackless reference of Frame and Calls. */
module Host {
  import opened Overflow
  import opened Types
  import opened Ledger
  import F = Frame
  import C = Calls
  import Conservation
  import P = Payments
  import E = Entries
  import Prices
  import opened Contexts
  import opened BigInts

  /** The saved states of all contexts. */
  datatype Saved = Saved(
    bigInts: seq<map<int32, int>>, outputs: seq<VMOutput>, meters: seq<Meter>, runtimes: seq<RuntimeState>,
    instances: seq<Instance?>, addresses: seq<Address>, snapshots: seq<nat>)

  /** Saved states with one frame's contexts on top; the blockchain is saved separately. */
  function Push(base: Saved, a: Active, i: Instance?): Saved {
    base.(bigInts := base.bigInts + [a.bigInts], outputs := base.outputs + [a.out], meters := base.meters + [a.meter],
          runtimes := base.runtimes + [a.rt], instances := base.instances + [i],
            addresses := base.addresses + [a.storageAddress])
  }

  /** The same for a call in the caller's context, where the storage address stays. */
  function PushSame(base: Saved, a: Active, i: Instance?): Saved {
    Push(base, a, i).(addresses := base.addresses, snapshots := base.snapshots + [|a.journal|])
  }

  ghost predicate IsLastTransfer(vm: VMOutput, x: Address, last: OutputTransfer) {
    x in vm.accounts && exists front :: vm.accounts[x].transfers == front + [last]
  }

  predicate IsBare(vm: VMOutput, last: OutputTransfer) {
    vm.returnData == [] && last.data == []
  }

  /** What a write reports, from the values that are seen before and after it. */
  function StatusOf(before: Bytes, after: Bytes): StorageStatus {
    if before == after then StorageUnchanged else if before == [] then StorageAdded
    else if after == [] then StorageDeleted else StorageModified
  }

  lemma Pop<T>(s: seq<T>, x: T)
    ensures (s + [x])[..|s + [x]| - 1] == s && (s + [x])[|s + [x]| - 1] == x
  {
  }

  class VmHost {
    const w: World
    const bigInt: BigIntContext
    const blockchain: BlockchainContext
    const metering: MeteringContext
    const output: OutputContext
    const runtime: RuntimeContext
    const storage: StorageContext

    constructor (w: World)
      ensures this.w == w && bigInt.Valid() && runtime.instance == null && runtime.instanceStack == []
      ensures storage.protectionEnabled && runtime.created == {}
      ensures fresh(bigInt) && fresh(blockchain) && fresh(metering) && fresh(output) && fresh(runtime) && fresh(storage)
    {
      this.w := w;
      bigInt := new BigIntContext();
      blockchain := new BlockchainContext();
      metering := new MeteringContext();
      output := new OutputContext();
      runtime := new RuntimeContext();
      storage := new StorageContext();
    }

    /** The active states of all contexts, as the reference sees them. */
    ghost function Now(): Active
      reads bigInt, blockchain, metering, output, runtime, runtime.instance, storage
    {
      Active(bigInt.model, output.outputState, metering.State(), runtime.State(), runtime.codeSize, storage.address,
             blockchain.journal, if runtime.instance == null then 0 else runtime.instance.points)
    }

    ghost function Stacks(): Saved
      reads bigInt, blockchain, metering, output, runtime, storage
    {
      Saved(bigInt.modelStack, output.stateStack, metering.stateStack, runtime.stateStack, runtime.instanceStack,
            storage.stateStack, blockchain.stateStack)
    }

    // ----- metering -----

    method UseGas(gas: uint64)
      requires runtime.instance != null
      modifies runtime.instance`points
      ensures Now() == F.UseGas(old(Now()), gas)
      ensures var sum := old(runtime.instance.points) + gas;
              runtime.instance.points == if sum <= MAX_INT64 then sum else MAX_INT64
    {
      runtime.SetPointsUsed(AddUint64(runtime.instance.points, gas));
    }

    method RestoreGas(gas: uint64)
      requires runtime.instance != null
      modifies runtime.instance`points
      ensures Now() == F.RestoreGas(old(Now()), gas)
      ensures var used := old(runtime.instance.points);
              runtime.instance.points == if gas <= used then used - gas else used
    {
      var gasUsed := runtime.instance.points;
      if gas <= gasUsed {
        runtime.SetPointsUsed(SubUint64(gasUsed, gas));
      }
    }

    method GasLeft() returns (gas: uint64)
      ensures gas == F.GasLeft(Now()) && gas == E.Unspent(Now())
    {
      var gasUsed := if runtime.instance == null then 0 else runtime.instance.points;
      if metering.gasForExecution < gasUsed {
        return 0;
      }
      gas := metering.gasForExecution - gasUsed;
    }

    method BoundGasLimit(value: int64) returns (gas: uint64)
      ensures gas == F.BoundGasLimit(Now(), value)
      ensures gas == if E.Unspent(Now()) < E.Unsigned(value) then E.Unspent(Now()) else E.Unsigned(value)
    {
      var gasLeft := GasLeft();
      var limit := Wrap64(value);
      if gasLeft < limit {
        return gasLeft;
      }
      gas := limit;
    }

    method UseGasBounded(gasToUse: uint64) returns (err: Option<Error>)
      requires runtime.instance != null
      modifies runtime.instance`points
      ensures err == if F.GasLeft(old(Now())) <= gasToUse then Some(ErrNotEnoughGas) else None
      ensures Now() == if err.Some? then old(Now()) else F.UseGas(old(Now()), gasToUse)
    {
      var gasLeft := GasLeft();
      if gasLeft <= gasToUse {
        return Some(ErrNotEnoughGas);
      }
      UseGas(gasToUse);
      err := None;
    }

    method FreeGas(gas: uint64)
      modifies output`outputState
      ensures Now() == F.FreeGas(old(Now()), gas)
    {
      output.outputState := output.outputState.(gasRefund := AddUint64(output.outputState.gasRefund, gas));
    }

    method UpdateSCGasUsed()
      modifies output`outputState, metering`gasUsedByAccounts
      ensures Now() == F.UpdateSCGasUsed(old(Now()))
    {
      var self := runtime.scAddress;
      var account, _ := output.GetOutputAccount(self);
      var byCurrent := GetGasTransferredByAccount(account);
      var byOthers := GetGasUsedByAllOtherAccounts(output.outputState.accounts, metering.gasUsedByAccounts, self);
      var points := if runtime.instance == null then 0 else runtime.instance.points;
      var gasUsed := AddUint64(metering.initialCost, points);
      gasUsed := SubUint64(gasUsed, byCurrent);
      gasUsed := SubUint64(gasUsed, byOthers);
      metering.gasUsedByAccounts := metering.gasUsedByAccounts[self := gasUsed];
    }

    method CheckGas() returns (ok: bool)
      ensures ok == F.GasMatches(Now())
    {
      var gasUsed := GetCurrentTotalUsedGas(output.outputState.accounts);
      var totalGas := AddUint64(gasUsed, output.outputState.gasRemaining);
      ok := totalGas == metering.initialGasProvided;
    }

    /** An account is missing from the output although gas was charged to it. */
    method AccountsMissing() returns (missing: bool)
      ensures missing == !(metering.gasUsedByAccounts.Keys <= output.outputState.accounts.Keys)
    {
      missing := false;
      var addresses := metering.gasUsedByAccounts.Keys;
      while addresses != {}
        invariant addresses <= metering.gasUsedByAccounts.Keys
        invariant missing == !(metering.gasUsedByAccounts.Keys - addresses <= output.outputState.accounts.Keys)
        decreases addresses
      {
        var x :| x in addresses;
        if x !in output.outputState.accounts {
          missing := true;
        }
        addresses := addresses - {x};
      }
    }

    method UpdateGasStateOnSuccess() returns (err: Option<Error>)
      modifies output`outputState, metering`gasUsedByAccounts
      ensures var a1 := F.UpdateSCGasUsed(old(Now()));
              var a2 := F.SetAccounts(a1, F.SetGasUsed(a1.out.accounts, a1.meter.used));
              && Now() == a2
              && err == if !(a2.meter.used.Keys <= a2.out.accounts.Keys) then Some(ErrAccountMissing)
                        else if !F.GasMatches(a2) then Some(ErrGasMismatch) else None
    {
      UpdateSCGasUsed();
      var accounts := SetGasUsedToAccounts(output.outputState.accounts, metering.gasUsedByAccounts);
      output.outputState := output.outputState.(accounts := accounts);
      var missing := AccountsMissing();
      if missing {
        return Some(ErrAccountMissing);
      }
      var ok := CheckGas();
      err := if ok then None else Some(ErrGasMismatch);
    }

    // ----- output -----

    method CreateVMOutputInCaseOfError(err: Error) returns (vm: VMOutput)
      modifies output`outputState
      ensures F.Output(Now(), vm) == F.CreateErrorOutput(w, old(Now()), err)
      ensures E.IsFailure(w, vm, err, old(output.outputState).message)
    {
      hide ReturnCodeOf, E.IsFailure;
      E.ErrorOutputIs(w, Now(), err);
      var message := output.outputState.message;
      if err != ErrSignalError {
        if |output.outputState.message| == 0 {
          message := w.errorText(err);
        }
      }
      vm := VMOutput(map[], [], [], ReturnCodeOf(err), message, 0, 0);
      UpdateGasStateOnFailure();
    }

    /** The failed contract is charged all the gas its frame was given. */
    method UpdateGasStateOnFailure()
      modifies output`outputState
      ensures var before := old(output.outputState).accounts; var account := Account(before, runtime.scAddress);
              output.outputState == old(output.outputState).(accounts := Ensure(before, runtime.scAddress)[
                runtime.scAddress := account.(gasUsed := AddUint64(account.gasUsed, metering.initialGasProvided))])
    {
      var account, _ := output.GetOutputAccount(runtime.scAddress);
      output.UpdateAccount(runtime.scAddress,
                           account.(gasUsed := AddUint64(account.gasUsed, metering.initialGasProvided)));
    }

    method GetVMOutput() returns (vm: VMOutput)
      modifies output`outputState, metering`gasUsedByAccounts
      ensures F.Output(Now(), vm) == F.GetVMOutput(w, old(Now()))
    {
      hide F.UpdateSCGasUsed, F.GasMatches, F.SetGasUsed, F.CreateErrorOutput;
      var gasLeft := GasLeft();
      output.outputState := output.outputState.(gasRemaining := gasLeft);
      var err := UpdateGasStateOnSuccess();
      if err.Some? {
        vm := CreateVMOutputInCaseOfError(err.value);
        return;
      }
      vm := output.outputState;
    }

    /** Reading a balance caches the chain's balance in the output account. */
    method GetBalanceBigInt(address: Address) returns (balance: int)
      modifies output`outputState
      ensures F.Balance(Now(), balance) == F.GetBalance(w, old(Now()), address)
      ensures var before := old(output.outputState).accounts;
              Conservation.CacheAgrees(w, address, Account(before, address)) ==>
                balance == if address in w.balances then w.balances[address] + DeltaOf(before, address) else 0
      ensures var before, after := old(output.outputState).accounts, output.outputState.accounts;
              && address in after && after[address].delta == DeltaOf(before, address)
              && (address in w.balances ==> after[address].balance.Some?)
              && forall x :: x in before && x != address ==> x in after && after[x] == before[x]
    {
      var account, isNew := output.GetOutputAccount(address);
      if !isNew {
        if account.balance.None? {
          if address !in w.balances {
            return 0;
          }
          account := account.(balance := Some(w.balances[address]));
          output.UpdateAccount(address, account);
        }
        return account.balance.value + account.delta;
      }
      if address !in w.balances {
        return 0;
      }
      balance := w.balances[address];
      output.UpdateAccount(address, account.(balance := Some(balance)));
    }

    lemma PaymentExact(a: Active, destination: Address, sender: Address, value: int, checkPayable: bool)
      ensures var t := F.TransferValueOnly(w, a, destination, sender, value, checkPayable);
              && (if t.err.None? then P.Moved(a.out.accounts, t.state.out.accounts, sender, destination, value)
                  else P.NothingMoved(a.out.accounts, t.state.out.accounts))
              && (Conservation.CacheAgrees(w, sender, Account(a.out.accounts, sender)) ==>
                    t.err == P.TransferError(w, a.out.accounts, a.rt.input.callType, destination, sender, value,
                      checkPayable))
    {
      hide F.TransferValueOnly, P.Moved, P.NothingMoved, P.RestKept, P.TransferError, Conservation.CacheAgrees;
      P.TransferMoves(w, a, destination, sender, value, checkPayable);
      if Conservation.CacheAgrees(w, sender, Account(a.out.accounts, sender)) {
        P.TransferExactly(w, a, destination, sender, value, checkPayable);
      }
    }

    method TransferValueOnly(
      destination: Address, sender: Address, value: int, checkPayable: bool) returns (err: Option<Error>)
      modifies output`outputState
      ensures F.Attempt(Now(), err) == F.TransferValueOnly(w, old(Now()), destination, sender, value, checkPayable)
      ensures var before, after := old(output.outputState).accounts, output.outputState.accounts;
              && (if err.None? then P.Moved(before, after, sender, destination, value)
                  else P.NothingMoved(before, after))
              && (Conservation.CacheAgrees(w, sender, Account(before, sender)) ==>
                    err == P.TransferError(w, before, runtime.vmInput.callType, destination, sender, value,
                      checkPayable))
    {
      hide F.GetBalance, Move, P.Moved, P.NothingMoved, P.RestKept, P.TransferError, Conservation.CacheAgrees;
      PaymentExact(Now(), destination, sender, value, checkPayable);
      if value < 0 {
        return Some(ErrTransferNegativeValue);
      }
      var balance := GetBalanceBigInt(sender);
      if balance < value {
        return Some(ErrTransferInsufficientFunds);
      }
      if destination !in w.payable {
        return Some(ErrHook);
      }
      var isAsyncCall := runtime.vmInput.callType == AsynchronousCall;
      if checkPayable && !w.payable[destination] && value > 0 && !isAsyncCall {
        return Some(ErrAccountNotPayable);
      }
      MoveValue(destination, sender, value);
      err := None;
    }

    /** Both accounts are looked up before either balance changes. */
    method MoveValue(destination: Address, sender: Address, value: int)
      modifies output`outputState
      ensures output.outputState == old(output.outputState).(accounts := Move(old(output.outputState).accounts, sender,
              destination, value))
    {
      var _, _ := output.GetOutputAccount(sender);
      var _, _ := output.GetOutputAccount(destination);
      var senderAccount := output.outputState.accounts[sender];
      output.UpdateAccount(sender, senderAccount.(delta := senderAccount.delta - value));
      var destinationAccount := output.outputState.accounts[destination];
      output.UpdateAccount(destination, destinationAccount.(delta := destinationAccount.delta + value));
    }

    method Transfer(
      destination: Address, sender: Address, gasLimit: uint64, gasLocked: uint64, value: int, data: Bytes,
        callType: CallType)
      returns (err: Option<Error>)
      modifies output`outputState
      ensures F.Attempt(Now(), err) == F.Transfer(w, old(Now()), destination, sender, gasLimit, gasLocked, value, data,
                                                  callType)
      ensures var before, after := old(output.outputState).accounts, output.outputState.accounts;
              if err.Some? then P.NothingMoved(before, after) && P.RestKept(before, after)
              else
              && P.Moved(before, after, sender, destination, value)
              && P.Appended(before, after, destination, OutputTransfer(value, gasLimit, gasLocked, data, callType,
                   sender))
    {
      hide P.Moved, P.NothingMoved, P.RestKept, P.Appended, P.TransferError, Conservation.CacheAgrees,
        F.TransferValueOnly;
      P.TransferRecords(w, Now(), destination, sender, gasLimit, gasLocked, value, data, callType);
      err := TransferValueOnly(destination, sender, value, gasLimit > 0 && callType != AsynchronousCallBack);
      if err.Some? {
        return;
      }
      var account, _ := output.GetOutputAccount(destination);
      output.UpdateAccount(destination, account.(transfers :=
        account.transfers + [OutputTransfer(value, gasLimit, gasLocked, data, callType, sender)]));
    }

    // ----- storage -----

    /** What a look-up finds: the overlay's entry, or else what is on the chain. */
    function Found(accounts: Accounts, x: Address, key: Bytes): Bytes {
      if x in accounts && key in accounts[x].storage then accounts[x].storage[key] else OnChain(x, key)
    }

    function OnChain(x: Address, key: Bytes): Bytes {
      if (x, key) in w.storage then w.storage[(x, key)] else []
    }

    method GetStorageFromAddressUnmetered(address: Address, key: Bytes) returns (value: Bytes)
      modifies output`outputState
      ensures Now() == F.CacheRead(w, old(Now()), address, key)
      ensures value == F.View(w, old(Now()).out.accounts, address, key)
      ensures value == Found(old(output.outputState).accounts, address, key)
      ensures var before, after := old(output.outputState).accounts, output.outputState.accounts;
              && address in after && after[address].storage == Account(before, address).storage[key := value]
              && forall x :: x in before && x != address ==> x in after && after[x] == before[x]
    {
      var account, _ := output.GetOutputAccount(address);
      if key in account.storage {
        value := account.storage[key];
        assert account.storage[key := value] == account.storage;
        assert output.outputState.accounts[address := account] == output.outputState.accounts;
      } else {
        value := if (address, key) in w.storage then w.storage[(address, key)] else [];
        output.UpdateAccount(address, account.(storage := account.storage[key := value]));
      }
    }

    method ChargeForKey(key: Bytes)
      requires runtime.instance != null
      modifies runtime.instance`points
      ensures Now() == F.ChargeKey(w, old(Now()), key)
    {
      if |key| > ADDRESS_LEN {
        UseGas(F.CopyCost(w, |key| - ADDRESS_LEN));
      }
    }

    method GetStorage(key: Bytes) returns (value: Bytes)
      requires runtime.instance != null
      modifies output`outputState, runtime.instance`points
      ensures Now() == F.GetStorage(w, old(Now()), key)
      ensures value == F.View(w, old(Now()).out.accounts, storage.address, key)
      ensures value == Found(old(output.outputState).accounts, storage.address, key)
    {
      ChargeForKey(key);
      value := GetStorageFromAddressUnmetered(storage.address, key);
      UseGas(F.CopyCost(w, |value|));
    }

    method GetStorageFromAddress(address: Address, key: Bytes) returns (value: Option<Bytes>)
      requires runtime.instance != null
      modifies output`outputState, runtime.instance`points
      ensures Now() == F.GetStorageFromAddress(w, old(Now()), address, key)
      ensures value.None? <==> address != storage.address && (address !in w.balances || address !in w.readable)
      ensures value.Some? ==> value.value == if F.IsReserved(w, key) then F.ChainValue(w, address, key)
                                             else F.View(w, old(Now()).out.accounts, address, key)
      ensures value.Some? ==> value.value == if w.reservedPrefix <= key then OnChain(address, key)
                                             else Found(old(output.outputState).accounts, address, key)
    {
      ChargeForKey(key);
      if address != storage.address && (address !in w.balances || address !in w.readable) {
        return None;
      }
      var data;
      if w.reservedPrefix <= key {
        data := F.ChainValue(w, address, key);
      } else {
        data := GetStorageFromAddressUnmetered(address, key);
      }
      UseGas(F.CopyCost(w, |data|));
      value := Some(data);
    }

    /** A rejected write reports why; in read-only mode there is no error, but nothing happens. */
    method SetStorage(key: Bytes, value: Bytes) returns (status: StorageStatus, err: Option<Error>)
      requires runtime.instance != null
      modifies output`outputState, runtime.instance`points
      ensures Now() == F.SetStorage(w, old(Now()), key, value, storage.protectionEnabled)
      ensures err == if runtime.readOnly then None
                     else if w.reservedPrefix <= key then Some(ErrStoreElrondReservedKey)
                     else if PROTECTED_PREFIX <= key && storage.protectionEnabled then Some(ErrCannotWriteProtectedKey)
                     else None
      ensures var before, after := F.View(w, old(Now()).out.accounts, storage.address, key),
              F.View(w, Now().out.accounts, storage.address, key);
              && status == StatusOf(before, after)
              && after == if runtime.readOnly || err.Some? then before else value
    {
      ghost var before := output.outputState.accounts;
      PutIsFound(before, storage.address, key, value);
      if runtime.readOnly {
        return StorageUnchanged, None;
      }
      if w.reservedPrefix <= key {
        return StorageUnchanged, Some(ErrStoreElrondReservedKey);
      }
      if PROTECTED_PREFIX <= key && storage.protectionEnabled {
        return StorageUnchanged, Some(ErrCannotWriteProtectedKey);
      }
      ChargeForKey(key);
      var oldValue := PutStorage(key, value);
      ChargeForWrite(oldValue, value);
      status, err := if oldValue == value then StorageUnchanged else if oldValue == [] then StorageAdded
                     else if value == [] then StorageDeleted else StorageModified, None;
    }

    lemma PutIsFound(accounts: Accounts, x: Address, key: Bytes, value: Bytes)
      ensures F.View(w, F.PutOverlay(accounts, x, key, value), x, key) == value
    {
    }

    /** Replace the overlay's value, after reading the old one. */
    method PutStorage(key: Bytes, value: Bytes) returns (oldValue: Bytes)
      modifies output`outputState
      ensures oldValue == F.View(w, old(Now()).out.accounts, storage.address, key)
      ensures oldValue == Found(old(output.outputState).accounts, storage.address, key)
      ensures Now() == F.SetAccounts(old(Now()), F.PutOverlay(old(Now()).out.accounts, storage.address, key, value))
    {
      var account, _ := output.GetOutputAccount(storage.address);
      if key in account.storage {
        oldValue := account.storage[key];
      } else {
        oldValue := if (storage.address, key) in w.storage then w.storage[(storage.address, key)] else [];
      }
      output.UpdateAccount(storage.address, account.(storage := account.storage[key := value]));
    }

    method ChargeForWrite(oldValue: Bytes, value: Bytes)
      requires runtime.instance != null
      modifies output`outputState, runtime.instance`points
      ensures Now() == F.ChargeWrite(w, old(Now()), oldValue, value)
    {
      var length, lengthOldValue := |value|, |oldValue|;
      if oldValue == value {
        UseGas(MulUint64(w.schedule.dataCopyPerByte, Cap(length)));
        return;
      }
      if oldValue == [] {
        UseGas(MulUint64(w.schedule.storePerByte, Cap(length)));
        return;
      }
      if value == [] {
        FreeGas(MulUint64(w.schedule.releasePerByte, Cap(lengthOldValue)));
        return;
      }
      var newValueExtraLength := length - lengthOldValue;
      if newValueExtraLength > 0 {
        var useGas := MulUint64(w.schedule.persistPerByte, Cap(lengthOldValue));
        var newValStoreUseGas := MulUint64(w.schedule.storePerByte, Cap(newValueExtraLength));
        UseGas(AddUint64(useGas, newValStoreUseGas));
      }
      if newValueExtraLength < 0 {
        newValueExtraLength := -newValueExtraLength;
        UseGas(MulUint64(w.schedule.persistPerByte, Cap(length)));
        FreeGas(MulUint64(w.schedule.releasePerByte, Cap(newValueExtraLength)));
      }
    }

    method SetProtectedStorage(key: Bytes, value: Bytes) returns (status: StorageStatus, err: Option<Error>)
      requires runtime.instance != null && storage.protectionEnabled
      modifies output`outputState, runtime.instance`points, storage`protectionEnabled
      ensures Now() == F.SetStorage(w, old(Now()), key, value, false) && storage.protectionEnabled
      ensures err == if runtime.readOnly then None
                     else if w.reservedPrefix <= key then Some(ErrStoreElrondReservedKey) else None
      ensures var before := F.View(w, old(Now()).out.accounts, storage.address, key);
              var after := F.View(w, Now().out.accounts, storage.address, key);
              status == StatusOf(before, after) && after == if runtime.readOnly || err.Some? then before else value
    {
      storage.protectionEnabled := false;
      status, err := SetStorage(key, value);
      storage.protectionEnabled := true;
    }

    method FailExecution(err: Error)
      modifies output`outputState
      ensures Now() == F.Fail(w, old(Now()), err)
      ensures output.outputState == old(output.outputState).(code := ExecutionFailed, message := w.errorText(err))
    {
      output.outputState := output.outputState.(code := ExecutionFailed, message := w.errorText(err));
    }

    // ----- frames -----

    /** A nested operation has come back: all stacks are as they were, the same instance runs,
        and every instance built meanwhile has been cleaned exactly once. */
    twostate predicate Settled()
      reads bigInt, bigInt.cells, blockchain, metering, output, runtime, storage, runtime.created
    {
      && bigInt.Valid() && old(bigInt.cells) <= bigInt.cells && fresh(bigInt.cells - old(bigInt.cells))
      && Stacks() == old(Stacks())
      && runtime.instance == old(runtime.instance)
      && storage.protectionEnabled
      && old(runtime.created) <= runtime.created
      && (forall i :: i in runtime.created && i !in old(runtime.created) ==> fresh(i) && i.cleaned == 1)
    }

    /** Save the caller's contexts and open new ones for the callee. */
    method EnterDest(input: CallInput) returns (gasProvided: uint64)
      requires bigInt.Valid()
      modifies bigInt, metering, output, runtime, storage
      ensures bigInt.Valid() && old(bigInt.cells) <= bigInt.cells && fresh(bigInt.cells - old(bigInt.cells))
      ensures Stacks() == Push(old(Stacks()), old(Now()), runtime.instance)
      ensures runtime.instance == old(runtime.instance) && runtime.created == old(runtime.created)
      ensures storage.protectionEnabled == old(storage.protectionEnabled)
      ensures Now() == C.Enter(old(Now()), input) && gasProvided == metering.initialGasProvided
      ensures runtime.scAddress == input.recipient && runtime.name == input.name
    {
      hide BigIntContext.Valid;
      bigInt.PushState();
      bigInt.InitState();
      gasProvided := PushContexts(input);
      CensorAndMove();
    }

    method CensorAndMove()
      modifies output`outputState, storage`address, storage`stateStack
      ensures output.outputState == Censor(old(output.outputState)) && storage.address == runtime.scAddress
      ensures storage.stateStack == old(storage.stateStack) + [old(storage.address)]
    {
      output.CensorVMOutput();
      storage.PushState();
      storage.address := runtime.scAddress;
    }

    method PushContexts(input: CallInput) returns (gasProvided: uint64)
      modifies metering, output`stateStack, runtime`stateStack, runtime`instanceStack, runtime`scAddress,
               runtime`vmInput,
               runtime`name
      ensures output.stateStack == old(output.stateStack) + [output.outputState]
      ensures metering.stateStack == old(metering.stateStack) + [old(metering.State())]
      ensures runtime.stateStack == old(runtime.stateStack) + [old(runtime.State())]
      ensures runtime.instanceStack == old(runtime.instanceStack) + [runtime.instance]
      ensures metering.State() == F.InitMeter(input.vm) && runtime.State() == F.InitRuntime(old(runtime.State()), input)
      ensures gasProvided == metering.initialGasProvided
    {
      output.PushState();
      runtime.PushState();
      runtime.InitStateFromContractCallInput(input);
      metering.PushState();
      var unlocked := metering.InitStateFromContractCallInput(input.vm);
      gasProvided := unlocked.gasProvided;
    }

    /** Charge the caller, find the code, pay for it and create the instance. */
    method PrepareCall(gasProvided: uint64, starts: bool, ghost input: CallInput) returns (err: Option<Error>)
      requires runtime.instance != null
      requires gasProvided == metering.initialGasProvided && runtime.scAddress == input.recipient
               && runtime.name == input.name
      modifies output`outputState, metering`initialCost, metering`gasForExecution, runtime`codeSize, runtime`instance,
               runtime`created, runtime.instance`points
      ensures var p := C.Prepare(w, |runtime.instanceStack|, old(Now()), input, starts);
              Now() == p.state && err == p.err && old(runtime.instance).points == p.callerPoints
      ensures err.None? ==> runtime.instance != null && fresh(runtime.instance) && runtime.instance.cleaned == 0
                            && runtime.created == old(runtime.created) + {runtime.instance}
      ensures err.Some? ==>
                runtime.created == old(runtime.created)
                && (runtime.instance == null || runtime.instance == old(runtime.instance))
    {
      if runtime.name.InitName? {
        return Some(ErrInitFuncCalledInRun);
      }
      UseGas(gasProvided);
      var _, _ := output.GetOutputAccount(runtime.scAddress);
      var code := F.GetCode(w, runtime.scAddress);
      if code.err.Some? {
        return code.err;
      }
      runtime.codeSize := code.size;
      err := metering.DeductInitialGas(w, code.size, runtime.vmInput.gasProvided);
      if err.Some? {
        return;
      }
      err := runtime.StartWasmerInstance(starts);
    }

    lemma ExecuteIs(depth: nat, a: Active, input: CallInput, c: Contract)
      ensures var p := C.Prepare(w, depth, a, input, c.starts);
              C.Execute(w, depth, a, input, c) ==
              if p.err.Some? then p else
              var r := Called(depth, p.state, c);
              C.Execution(p.callerPoints, r.state,
                          if r.err.None? && r.state.out.code != Ok then Some(ErrReturnCodeNotOk) else r.err)
    {
      hide C.Prepare, C.Run;
    }

    /** Run a called contract. The caller's instance has been charged; a new instance may be left
        running, to be cleaned when the frame is popped. */
    method ExecuteCall(input: CallInput, gasProvided: uint64, c: Contract) returns (err: Option<Error>)
      requires bigInt.Valid() && runtime.instance != null && storage.protectionEnabled
      requires gasProvided == metering.initialGasProvided && runtime.scAddress == input.recipient
               && runtime.name == input.name
      modifies bigInt, bigInt.cells, blockchain, metering, output, runtime, storage, runtime.instance`points
      ensures bigInt.Valid() && old(bigInt.cells) <= bigInt.cells && fresh(bigInt.cells - old(bigInt.cells))
      ensures Stacks() == old(Stacks()) && storage.protectionEnabled
      ensures var e := C.Execute(w, old(|runtime.instanceStack|), old(Now()), input, c);
              Now() == e.state && err == e.err && old(runtime.instance).points == e.callerPoints
      ensures old(runtime.created) <= runtime.created
      ensures forall i :: i in runtime.created && i !in old(runtime.created) ==>
                            fresh(i) && i.cleaned == if i == runtime.instance then 0 else 1
      ensures runtime.instance == null || runtime.instance == old(runtime.instance)
              || runtime.instance in runtime.created - old(runtime.created)
      decreases c, 2
    {
      hide BigIntContext.Valid, C.Execute, C.Prepare, Called;
      ExecuteIs(|runtime.instanceStack|, Now(), input, c);
      err := PrepareCall(gasProvided, c.starts, input);
      if err.Some? {
        return;
      }
      err := CallPrepared(c);
    }

    /** What a started callee's function does, by its entry. */
    ghost function Called(depth: nat, a: Active, c: Contract): F.Attempt {
      match c.entry
      case Missing => F.Attempt(a, Some(ErrFuncNotFound))
      case NoCallback => F.Attempt(a, None)
      case Found => C.Run(w, depth, a, c.body)
    }

    /** Call the function; a return code other than Ok is an error too. */
    method CallPrepared(c: Contract) returns (err: Option<Error>)
      requires bigInt.Valid() && runtime.instance != null && storage.protectionEnabled
      modifies bigInt, bigInt.cells, blockchain, metering, output, runtime, storage, runtime.instance`points
      ensures Settled()
      ensures var r := Called(old(|runtime.instanceStack|), old(Now()), c);
              && Now() == r.state
              && err == if r.err.None? && r.state.out.code != Ok then Some(ErrReturnCodeNotOk) else r.err
      decreases c, 1
    {
      hide BigIntContext.Valid, Called;
      err := CallSCMethodIndirect(c);
      if err.Some? {
        return;
      }
      if output.outputState.code != Ok {
        err := Some(ErrReturnCodeNotOk);
      }
    }

    method CallSCMethodIndirect(c: Contract) returns (err: Option<Error>)
      requires bigInt.Valid() && runtime.instance != null && storage.protectionEnabled
      modifies bigInt, bigInt.cells, blockchain, metering, output, runtime, storage, runtime.instance`points
      ensures Settled()
      ensures F.Attempt(Now(), err) == Called(old(|runtime.instanceStack|), old(Now()), c)
      decreases c, 0
    {
      hide BigIntContext.Valid;
      if c.entry.NoCallback? {
        return None;
      }
      if c.entry.Missing? {
        return Some(ErrFuncNotFound);
      }
      err := RunProgram(c.body);
    }

    /** Take the child's output, then commit or restore every context and give back unspent gas. */
    method FinishExecuteOnDestContext(
      executeErr: Option<Error>, ghost caller: Active, ghost base: Saved, ghost callerInstance: Instance)
      returns (vm: VMOutput)
      requires bigInt.Valid() && Stacks() == Push(base, caller, callerInstance)
      modifies bigInt, metering, output, runtime, storage, callerInstance`points
      modifies (if runtime.instance != null && runtime.instance != callerInstance then {runtime.instance}
                else {})`cleaned
      ensures bigInt.Valid() && bigInt.cells == old(bigInt.cells)
      ensures Stacks() == base && runtime.instance == callerInstance && runtime.created == old(runtime.created)
      ensures storage.protectionEnabled == old(storage.protectionEnabled)
      ensures old(runtime.instance) != null && old(runtime.instance) != callerInstance ==>
                old(runtime.instance).cleaned == old(runtime.instance.cleaned) + 1
      ensures var o := C.FinishDest(w, caller, C.Execution(old(callerInstance.points), old(Now()), executeErr));
              && Now() == o.state && vm == o.vm
              && o.err == if executeErr.None? && vm.code != Ok then Some(ErrExecutionFailed) else executeErr
    {
      hide F.GetVMOutput, F.CreateErrorOutput, Merge, F.MergeGas;
      hide BigIntContext.Valid;
      if executeErr.Some? {
        vm := CreateVMOutputInCaseOfError(executeErr.value);
      } else {
        vm := GetVMOutput();
      }
      PopDest(vm.code == Ok, caller, base, callerInstance);
      RestoreGas(vm.gasRemaining);
    }

    method PopDest(commit: bool, ghost caller: Active, ghost base: Saved, ghost callerInstance: Instance)
      requires bigInt.Valid() && Stacks() == Push(base, caller, callerInstance)
      modifies bigInt, metering, output, runtime, storage
      modifies (if runtime.instance != null && runtime.instance != callerInstance then {runtime.instance}
                else {})`cleaned
      ensures bigInt.Valid() && bigInt.cells == old(bigInt.cells)
      ensures Stacks() == base && runtime.instance == callerInstance && runtime.created == old(runtime.created)
      ensures storage.protectionEnabled == old(storage.protectionEnabled)
      ensures old(runtime.instance) != null && old(runtime.instance) != callerInstance ==>
                old(runtime.instance).cleaned == old(runtime.instance.cleaned) + 1
      ensures var back := caller.(codeSize := old(runtime.codeSize), journal := old(blockchain.journal),
                                  points := callerInstance.points);
              Now() == if !commit then back
                       else back.(out := Merge(caller.out, old(output.outputState)),
                                  meter := caller.meter.(used := F.MergeGas(old(metering.gasUsedByAccounts),
                                    caller.meter.used)))
    {
      hide BigIntContext.Valid;
      Pop(base.bigInts, caller.bigInts);
      bigInt.PopSetActiveState();
      PopContexts(commit, caller, base, callerInstance);
    }

    method PopContexts(commit: bool, ghost caller: Active, ghost base: Saved, ghost callerInstance: Instance)
      requires Stacks().(bigInts := []) == Push(base, caller, callerInstance).(bigInts := [])
      modifies metering, output, storage`address, storage`stateStack, runtime`scAddress, runtime`vmInput, runtime`name,
               runtime`readOnly, runtime`asyncCallInfo, runtime`stateStack, runtime`instance, runtime`instanceStack
      modifies (if runtime.instance != null && runtime.instance != callerInstance then {runtime.instance}
                else {})`cleaned
      ensures Stacks().(bigInts := []) == base.(bigInts := []) && runtime.instance == callerInstance
      ensures old(runtime.instance) != null && old(runtime.instance) != callerInstance ==>
                old(runtime.instance).cleaned == old(runtime.instance.cleaned) + 1
      ensures runtime.State() == caller.rt && storage.address == caller.storageAddress
      ensures output.outputState == if commit then Merge(caller.out, old(output.outputState)) else caller.out
      ensures metering.State() == if commit then caller.meter.(used := F.MergeGas(old(metering.gasUsedByAccounts),
              caller.meter.used))
                                  else caller.meter
    {
      PopLedgers(commit, caller, base);
      PopRuntime(caller, base, callerInstance);
    }

    method PopLedgers(commit: bool, ghost caller: Active, ghost base: Saved)
      requires output.stateStack == base.outputs + [caller.out] && metering.stateStack == base.meters + [caller.meter]
      modifies metering, output
      ensures output.stateStack == base.outputs && metering.stateStack == base.meters
      ensures output.outputState == if commit then Merge(caller.out, old(output.outputState)) else caller.out
      ensures metering.State() == if commit then caller.meter.(used := F.MergeGas(old(metering.gasUsedByAccounts),
              caller.meter.used))
                                  else caller.meter
    {
      Pop(base.outputs, caller.out);
      Pop(base.meters, caller.meter);
      if commit {
        metering.PopMergeActiveState();
        output.PopMergeActiveState();
      } else {
        metering.PopSetActiveState();
        output.PopSetActiveState();
      }
    }

    method PopRuntimeOnly(ghost caller: Active, ghost base: Saved, ghost callerInstance: Instance)
      requires runtime.stateStack == base.runtimes + [caller.rt]
               && runtime.instanceStack == base.instances + [callerInstance]
      modifies runtime`scAddress, runtime`vmInput, runtime`name, runtime`readOnly,
               runtime`asyncCallInfo, runtime`stateStack, runtime`instance, runtime`instanceStack
      modifies (if runtime.instance != null && runtime.instance != callerInstance then {runtime.instance}
                else {})`cleaned
      ensures runtime.stateStack == base.runtimes && runtime.instanceStack == base.instances
      ensures runtime.State() == caller.rt && runtime.instance == callerInstance
      ensures old(runtime.instance) != null && old(runtime.instance) != callerInstance ==>
                old(runtime.instance).cleaned == old(runtime.instance.cleaned) + 1
    {
      Pop(base.runtimes, caller.rt);
      Pop(base.instances, callerInstance);
      runtime.PopSetActiveState();
    }

    method PopRuntime(ghost caller: Active, ghost base: Saved, ghost callerInstance: Instance)
      requires runtime.stateStack == base.runtimes + [caller.rt]
               && runtime.instanceStack == base.instances + [callerInstance]
      requires storage.stateStack == base.addresses + [caller.storageAddress]
      modifies storage`address, storage`stateStack, runtime`scAddress, runtime`vmInput, runtime`name, runtime`readOnly,
               runtime`asyncCallInfo, runtime`stateStack, runtime`instance, runtime`instanceStack
      modifies (if runtime.instance != null && runtime.instance != callerInstance then {runtime.instance}
                else {})`cleaned
      ensures runtime.stateStack == base.runtimes && runtime.instanceStack == base.instances
              && storage.stateStack == base.addresses
      ensures runtime.State() == caller.rt && runtime.instance == callerInstance
              && storage.address == caller.storageAddress
      ensures old(runtime.instance) != null && old(runtime.instance) != callerInstance ==>
                old(runtime.instance).cleaned == old(runtime.instance.cleaned) + 1
    {
      Pop(base.addresses, caller.storageAddress);
      storage.PopSetActiveState();
      PopRuntimeOnly(caller, base, callerInstance);
    }

    ghost function Payment(a: Active, input: CallInput, unpaid: bool): F.Attempt {
      if unpaid then F.TransferValueOnly(w, a, input.recipient, input.vm.caller, input.vm.value, false)
        else F.Attempt(a, None)
    }

    /** Pay the callee unless it has been paid, then run it; ends with the callee's frame still open. */
    method PayAndExecute(input: CallInput, gasProvided: uint64, c: Contract, unpaid: bool) returns (err: Option<Error>)
      requires bigInt.Valid() && runtime.instance != null && storage.protectionEnabled
      requires gasProvided == metering.initialGasProvided && runtime.scAddress == input.recipient
               && runtime.name == input.name
      modifies bigInt, bigInt.cells, blockchain, metering, output, runtime, storage, runtime.instance`points
      ensures bigInt.Valid() && old(bigInt.cells) <= bigInt.cells && fresh(bigInt.cells - old(bigInt.cells))
      ensures Stacks() == old(Stacks()) && storage.protectionEnabled
      ensures var pay := Payment(old(Now()), input, unpaid);
              var e := if pay.err.Some? then C.Execution(old(runtime.instance.points), pay.state, pay.err)
                       else C.Execute(w, old(|runtime.instanceStack|), pay.state, input, c);
              Now() == e.state && err == e.err && old(runtime.instance).points == e.callerPoints
      ensures old(runtime.created) <= runtime.created
      ensures forall i :: i in runtime.created && i !in old(runtime.created) ==>
                            fresh(i) && i.cleaned == if i == runtime.instance then 0 else 1
      ensures runtime.instance == null || runtime.instance == old(runtime.instance)
              || runtime.instance in runtime.created - old(runtime.created)
      decreases c, 3
    {
      hide BigIntContext.Valid, C.Execute, F.TransferValueOnly;
      err := None;
      if unpaid {
        err := TransferValueOnly(input.recipient, input.vm.caller, input.vm.value, false);
      }
      if err.None? {
        err := ExecuteCall(input, gasProvided, c);
      }
    }

    method ExecuteOnDestContextNoBuiltinFunction(
      input: CallInput, c: Contract) returns (vm: VMOutput, err: Option<Error>)
      requires bigInt.Valid() && runtime.instance != null && storage.protectionEnabled
      modifies bigInt, bigInt.cells, blockchain, metering, output, runtime, storage, runtime.instance`points
      ensures Settled()
      ensures var a := old(Now());
              var pay := C.PayCall(w, C.Enter(a, input), input);
              var e := if pay.err.Some? then C.Execution(a.points, pay.state, pay.err)
                       else C.Execute(w, old(|runtime.instanceStack|) + 1, pay.state, input, c);
              C.Outcome(Now(), vm, err) == C.FinishDest(w, a, e)
      decreases c, 4
    {
      hide BigIntContext.Valid, C.Execute, C.FinishDest, C.Enter, F.TransferValueOnly;
      ghost var caller, base, instance := Now(), Stacks(), runtime.instance;
      var gasProvided := EnterDest(input);
      var unpaid := input.vm.callType != AsynchronousCallBack || input.vm.value == 0;
      err := PayAndExecute(input, gasProvided, c, unpaid);
      vm := FinishExecuteOnDestContext(err, caller, base, instance);
      if err.None? && vm.code != Ok {
        err := Some(ErrExecutionFailed);
      }
    }

    lemma DestIs(depth: nat, a: Active, input: CallInput, c: Contract)
      ensures var pay := C.PayCall(w, C.Enter(a, input), input);
              var e := if pay.err.Some? then C.Execution(a.points, pay.state, pay.err)
                       else C.Execute(w, depth + 1, pay.state, input, c);
              var o := C.FinishDest(w, a, e);
              C.Dest(w, depth, a, input, c) ==
              if o.err.Some? then o.(state := o.state.(journal := C.Revert(o.state.journal, |a.journal|))) else o
    {
    }

    /** A nested call in its own context: committed whole or undone whole. */
    method ExecuteOnDestContext(input: CallInput, c: Contract) returns (vm: VMOutput, err: Option<Error>)
      requires bigInt.Valid() && runtime.instance != null && storage.protectionEnabled
      modifies bigInt, bigInt.cells, blockchain, metering, output, runtime, storage, runtime.instance`points
      ensures Settled()
      ensures C.Outcome(Now(), vm, err) == C.Dest(w, old(|runtime.instanceStack|), old(Now()), input, c)
      decreases c, 5
    {
      hide BigIntContext.Valid, C.Execute, C.FinishDest, C.Enter, C.PayCall, C.Dest;
      DestIs(|runtime.instanceStack|, Now(), input, c);
      ghost var snapshots, snapshot := blockchain.stateStack, |blockchain.journal|;
      blockchain.PushState();
      vm, err := ExecuteOnDestContextNoBuiltinFunction(input, c);
      CloseSnapshot(err.Some?, snapshots, snapshot);
    }

    /** Revert to the snapshot taken at entry, or forget it. */
    method CloseSnapshot(undo: bool, ghost snapshots: seq<nat>, ghost snapshot: nat)
      requires blockchain.stateStack == snapshots + [snapshot]
      modifies blockchain
      ensures blockchain.stateStack == snapshots
      ensures blockchain.journal == if undo then C.Revert(old(blockchain.journal), snapshot)
              else old(blockchain.journal)
    {
      Pop(snapshots, snapshot);
      if undo {
        blockchain.PopSetActiveState();
      } else {
        blockchain.PopDiscard();
      }
    }

    /** Save the caller's contexts; outputs, big integers and storage stay in use. */
    method EnterSame(input: CallInput) returns (gasProvided: uint64)
      requires bigInt.Valid()
      modifies bigInt, metering, output, runtime, blockchain
      ensures bigInt.Valid() && old(bigInt.cells) <= bigInt.cells && fresh(bigInt.cells - old(bigInt.cells))
      ensures Stacks() == PushSame(old(Stacks()), old(Now()), runtime.instance)
      ensures runtime.instance == old(runtime.instance) && runtime.created == old(runtime.created)
      ensures Now() == C.EnterSame(old(Now()), input) && gasProvided == metering.initialGasProvided
      ensures runtime.scAddress == input.recipient && runtime.name == input.name
    {
      hide BigIntContext.Valid;
      bigInt.PushState();
      gasProvided := PushContexts(input);
      blockchain.PushState();
    }

    method FinishExecuteOnSameContext(
      executeErr: Option<Error>, ghost caller: Active, ghost base: Saved, ghost callerInstance: Instance)
      requires bigInt.Valid() && Stacks() == PushSame(base, caller, callerInstance)
               && storage.address == caller.storageAddress
      modifies bigInt, metering, output, runtime, blockchain, callerInstance`points
      modifies (if runtime.instance != null && runtime.instance != callerInstance then {runtime.instance}
                else {})`cleaned
      ensures bigInt.Valid() && bigInt.cells == old(bigInt.cells)
      ensures Stacks() == base && runtime.instance == callerInstance && runtime.created == old(runtime.created)
      ensures old(runtime.instance) != null && old(runtime.instance) != callerInstance ==>
                old(runtime.instance).cleaned == old(runtime.instance.cleaned) + 1
      ensures var r := C.FinishSame(w, caller, C.Execution(old(callerInstance.points), old(Now()), executeErr));
              Now() == r.state && executeErr == r.err
    {
      hide BigIntContext.Valid, F.GetVMOutput;
      if output.outputState.code != Ok || executeErr.Some? {
        UndoSame(caller, base, callerInstance);
        return;
      }
      var vm := GetVMOutput();
      KeepSame(caller, base, callerInstance);
      RestoreGas(vm.gasRemaining);
    }

    method UndoSame(ghost caller: Active, ghost base: Saved, ghost callerInstance: Instance)
      requires bigInt.Valid() && Stacks() == PushSame(base, caller, callerInstance)
               && storage.address == caller.storageAddress
      modifies bigInt, metering, output, runtime, blockchain
      modifies (if runtime.instance != null && runtime.instance != callerInstance then {runtime.instance}
                else {})`cleaned
      ensures bigInt.Valid() && bigInt.cells == old(bigInt.cells)
      ensures Stacks() == base && runtime.instance == callerInstance && runtime.created == old(runtime.created)
      ensures old(runtime.instance) != null && old(runtime.instance) != callerInstance ==>
                old(runtime.instance).cleaned == old(runtime.instance.cleaned) + 1
      ensures Now() == caller.(codeSize := old(runtime.codeSize),
                               journal := C.Revert(old(blockchain.journal), |caller.journal|),
                               points := callerInstance.points)
    {
      hide BigIntContext.Valid;
      UndoContexts(caller, base, callerInstance);
      PopRuntimeOnly(caller, base, callerInstance);
    }

    method UndoContexts(ghost caller: Active, ghost base: Saved, ghost callerInstance: Instance)
      requires bigInt.Valid() && Stacks() == PushSame(base, caller, callerInstance)
      modifies bigInt, metering, output, blockchain
      ensures bigInt.Valid() && bigInt.cells == old(bigInt.cells)
      ensures bigInt.model == caller.bigInts && output.outputState == caller.out && metering.State() == caller.meter
      ensures blockchain.journal == C.Revert(old(blockchain.journal), |caller.journal|)
      ensures bigInt.modelStack == base.bigInts && output.stateStack == base.outputs
              && metering.stateStack == base.meters && blockchain.stateStack == base.snapshots
    {
      hide BigIntContext.Valid;
      Pop(base.bigInts, caller.bigInts);
      Pop(base.snapshots, |caller.journal|);
      bigInt.PopSetActiveState();
      PopLedgers(false, caller, base);
      blockchain.PopSetActiveState();
    }

    method KeepSame(ghost caller: Active, ghost base: Saved, ghost callerInstance: Instance)
      requires bigInt.Valid() && Stacks() == PushSame(base, caller, callerInstance)
      modifies bigInt, metering, output`stateStack, runtime, blockchain`stateStack
      modifies (if runtime.instance != null && runtime.instance != callerInstance then {runtime.instance}
                else {})`cleaned
      ensures bigInt.Valid() && bigInt.cells == old(bigInt.cells)
      ensures Stacks() == base && runtime.instance == callerInstance && runtime.created == old(runtime.created)
      ensures old(runtime.instance) != null && old(runtime.instance) != callerInstance ==>
                old(runtime.instance).cleaned == old(runtime.instance.cleaned) + 1
      ensures Now() == old(Now()).(meter := caller.meter.(used := F.MergeGas(old(metering.gasUsedByAccounts),
              caller.meter.used)),
                                   rt := caller.rt, points := callerInstance.points)
    {
      hide BigIntContext.Valid, F.MergeGas;
      KeepContexts(caller, base, callerInstance);
      PopRuntimeOnly(caller, base, callerInstance);
    }

    method KeepContexts(ghost caller: Active, ghost base: Saved, ghost callerInstance: Instance)
      requires bigInt.Valid() && Stacks() == PushSame(base, caller, callerInstance)
      modifies bigInt, metering, output`stateStack, blockchain`stateStack
      ensures bigInt.Valid() && bigInt.cells == old(bigInt.cells) && bigInt.model == old(bigInt.model)
      ensures bigInt.modelStack == base.bigInts && output.stateStack == base.outputs
              && metering.stateStack == base.meters
      ensures blockchain.stateStack == base.snapshots
      ensures metering.State() == caller.meter.(used := F.MergeGas(old(metering.gasUsedByAccounts), caller.meter.used))
    {
      hide BigIntContext.Valid, F.MergeGas;
      Pop(base.bigInts, caller.bigInts);
      Pop(base.outputs, caller.out);
      Pop(base.meters, caller.meter);
      Pop(base.snapshots, |caller.journal|);
      metering.PopMergeActiveState();
      output.PopDiscard();
      bigInt.PopDiscard();
      blockchain.PopDiscard();
    }

    lemma SameIs(depth: nat, a: Active, input: CallInput, c: Contract)
      ensures var entered := C.EnterSame(a, input);
              var pay := Payment(entered, input, true);
              var e := if pay.err.Some? then C.Execution(entered.points, pay.state, pay.err)
                       else C.Execute(w, depth + 1, pay.state, input, c);
              && e == Conservation.SameExecution(w, depth, a, input, c)
              && C.Same(w, depth, a, input, c) == C.FinishSame(w, a, e)
              && e.state.storageAddress == a.storageAddress
    {
      hide C.Execute, F.TransferValueOnly, C.FinishSame;
      Conservation.SameExecutionEvolves(w, depth, a, input, c);
    }

    /** Open the callee's frame in its caller's context and run it to its end. */
    method RunSame(input: CallInput, c: Contract) returns (err: Option<Error>)
      requires bigInt.Valid() && runtime.instance != null && storage.protectionEnabled
      modifies bigInt, bigInt.cells, blockchain, metering, output, runtime, storage, runtime.instance`points
      ensures bigInt.Valid() && old(bigInt.cells) <= bigInt.cells && fresh(bigInt.cells - old(bigInt.cells))
      ensures Stacks() == PushSame(old(Stacks()), old(Now()), old(runtime.instance)) && storage.protectionEnabled
      ensures var e := Conservation.SameExecution(w, old(|runtime.instanceStack|), old(Now()), input, c);
              && Now() == e.state && err == e.err && old(runtime.instance).points == e.callerPoints
              && storage.address == old(storage.address)
      ensures old(runtime.created) <= runtime.created
      ensures forall i :: i in runtime.created && i !in old(runtime.created) ==>
                            fresh(i) && i.cleaned == if i == runtime.instance then 0 else 1
      ensures runtime.instance == null || runtime.instance == old(runtime.instance)
              || runtime.instance in runtime.created - old(runtime.created)
      decreases c, 4
    {
      hide BigIntContext.Valid, Conservation.SameExecution, C.Same, C.Execute, C.EnterSame, Payment;
      SameIs(|runtime.instanceStack|, Now(), input, c);
      var gasProvided := EnterSame(input);
      assert Now() == C.EnterSame(old(Now()), input);
      err := PayAndExecute(input, gasProvided, c, true);
    }

    /** A nested call in the caller's own context. */
    method ExecuteOnSameContext(input: CallInput, c: Contract) returns (err: Option<Error>)
      requires bigInt.Valid() && runtime.instance != null && storage.protectionEnabled
      modifies bigInt, bigInt.cells, blockchain, metering, output, runtime, storage, runtime.instance`points
      ensures Settled()
      ensures F.Attempt(Now(), err) == C.Same(w, old(|runtime.instanceStack|), old(Now()), input, c)
      decreases c, 5
    {
      hide BigIntContext.Valid, Conservation.SameExecution, C.Same, C.FinishSame;
      ghost var caller, base, instance := Now(), Stacks(), runtime.instance;
      SameIs(|runtime.instanceStack|, caller, input, c);
      err := RunSame(input, c);
      FinishExecuteOnSameContext(err, caller, base, instance);
    }

    // ----- contracts -----

    /** The operations that stay in the frame. */
    method PerformSimple(act: Action)
      requires !act.CallDest? && !act.CallSame? && !act.SetBigInt? && runtime.instance != null
               && storage.protectionEnabled
      modifies output`outputState, runtime.instance`points, blockchain`journal, storage`protectionEnabled
      ensures Now() == C.Do(w, |runtime.instanceStack|, old(Now()), act) && storage.protectionEnabled
    {
      hide F.GetStorage, F.GetStorageFromAddress, F.SetStorage, F.Transfer, F.GetBalance, C.Dest, C.Same, F.CopyCost;
      if Conservation.TouchesLedger(act) {
        PerformLedgerAction(act);
        return;
      }
      match act
      case Burn(gas) => UseGas(gas);
      case Finish(data) => Finish(data);
      case WriteLog(topics, data) => WriteLog(topics, data);
      case HookWrite(entry) => blockchain.journal := blockchain.journal + [entry];
      case FailExecution(err) => WithFault(err);
      case SignalUserError(message) => SignalUserError(message);
    }

    method PerformLedgerAction(act: Action)
      requires Conservation.TouchesLedger(act) && runtime.instance != null && storage.protectionEnabled
      modifies output`outputState, runtime.instance`points, storage`protectionEnabled
      ensures Now() == C.Do(w, |runtime.instanceStack|, old(Now()), act) && storage.protectionEnabled
    {
      hide F.GetStorage, F.GetStorageFromAddress, F.SetStorage, F.Transfer, F.GetBalance, C.Dest, C.Same, F.CopyCost;
      match act
      case ReadStorage(key) => var _ := GetStorage(key);
      case ReadStorageOf(address, key) => var _ := GetStorageFromAddress(address, key);
      case WriteStorage(key, data) => var _, _ := SetStorage(key, data);
      case WriteProtected(key, data) => var _, _ := SetProtectedStorage(key, data);
      case ReadBalance(address) => var _ := GetBalanceBigInt(address);
      case SendValue(destination, value, gas, data) =>
        var _ := Transfer(destination, runtime.scAddress, gas, 0, value, data, DirectCall);
    }

    /** Logs are not written in read-only mode. */
    method WriteLog(topics: seq<Bytes>, data: Bytes)
      modifies output`outputState
      ensures output.outputState ==
              if runtime.readOnly then old(output.outputState)
              else old(output.outputState).(logs := old(output.outputState).logs
                                            + [LogEntry(runtime.scAddress, topics, data)])
    {
      if !runtime.readOnly {
        output.outputState :=
          output.outputState.(logs := output.outputState.logs + [LogEntry(runtime.scAddress, topics, data)]);
      }
    }

    method SignalUserError(message: Bytes)
      modifies output`outputState
      ensures output.outputState == old(output.outputState).(code := UserError, message := message)
    {
      output.outputState := output.outputState.(code := UserError, message := message);
    }

    method Finish(data: Bytes)
      modifies output`outputState
      ensures output.outputState == old(output.outputState).(returnData := old(output.outputState).returnData + [data])
    {
      output.outputState := output.outputState.(returnData := output.outputState.returnData + [data]);
    }

    method PerformAction(act: Action)
      requires bigInt.Valid() && runtime.instance != null && storage.protectionEnabled
      modifies bigInt, bigInt.cells, blockchain, metering, output, runtime, storage, runtime.instance`points
      ensures Settled()
      ensures Now() == C.Do(w, old(|runtime.instanceStack|), old(Now()), act)
      decreases act, 1
    {
      hide BigIntContext.Valid, C.Do;
      if act.CallDest? {
        PerformCallDest(act);
      } else if act.CallSame? {
        PerformCallSame(act);
      } else if act.SetBigInt? {
        PerformSetBigInt(act);
      } else {
        PerformSimple(act);
      }
    }

    method PerformSetBigInt(act: Action)
      requires act.SetBigInt? && bigInt.Valid()
      modifies bigInt, bigInt.cells
      ensures bigInt.Valid() && old(bigInt.cells) <= bigInt.cells && fresh(bigInt.cells - old(bigInt.cells))
      ensures bigInt.modelStack == old(bigInt.modelStack)
      ensures Now() == C.Do(w, |runtime.instanceStack|, old(Now()), act)
      ensures bigInt.model == old(bigInt.model)[act.handle := act.value]
    {
      hide BigIntContext.Valid;
      bigInt.Set(act.handle, act.value);
    }

    lemma DoesDest(depth: nat, a: Active, act: Action)
      requires act.CallDest?
      ensures var sender := if act.byCaller then a.rt.input.caller else a.rt.scAddress;
              C.Do(w, depth, a, act) ==
              if !C.SameShard(w, a.rt.scAddress, act.destination) then C.RefuseCall(w, a)
              else C.Dest(w, depth, a, C.IndirectInput(a, sender, act.value, act.gasLimit, act.destination, act.name),
                          act.callee).state
    {
    }

    lemma DoesSame(depth: nat, a: Active, act: Action)
      requires act.CallSame?
      ensures var input := C.IndirectInput(a, a.rt.scAddress, act.value, act.gasLimit, act.destination, act.name);
              C.Do(w, depth, a, act) ==
              if !C.SameShard(w, a.rt.scAddress, act.destination) then C.RefuseCall(w, a)
              else if act.asReadOnly then
                var b := C.Same(w, depth, a.(rt := a.rt.(readOnly := true)), input, act.callee).state;
                b.(rt := b.rt.(readOnly := false))
              else C.Same(w, depth, a, input, act.callee).state
    {
    }

    method PerformCallDest(act: Action)
      requires act.CallDest?
      requires bigInt.Valid() && runtime.instance != null && storage.protectionEnabled
      modifies bigInt, bigInt.cells, blockchain, metering, output, runtime, storage, runtime.instance`points
      ensures Settled()
      ensures Now() == C.Do(w, old(|runtime.instanceStack|), old(Now()), act)
      decreases act, 0
    {
      hide BigIntContext.Valid, C.Dest, C.IndirectInput, C.Do, F.UseGas, F.Fail, F.GasLeft;
      DoesDest(|runtime.instanceStack|, Now(), act);
      var sender := if act.byCaller then runtime.vmInput.caller else runtime.scAddress;
      var input := PrepareIndirectContractCallInput(sender, act.value, act.gasLimit, act.destination, act.name, true);
      if input.None? {
        WithFault(ErrSyncExecutionNotInSameShard);
        return;
      }
      var _, _ := ExecuteOnDestContext(input.value, act.callee);
    }

    method PerformCallSame(act: Action)
      requires act.CallSame?
      requires bigInt.Valid() && runtime.instance != null && storage.protectionEnabled
      modifies bigInt, bigInt.cells, blockchain, metering, output, runtime, storage, runtime.instance`points
      ensures Settled()
      ensures Now() == C.Do(w, old(|runtime.instanceStack|), old(Now()), act)
      decreases act, 0
    {
      hide BigIntContext.Valid, C.Same, C.IndirectInput, C.Do, F.UseGas, F.Fail, F.GasLeft;
      DoesSame(|runtime.instanceStack|, Now(), act);
      var input := PrepareIndirectContractCallInput(runtime.scAddress, act.value, act.gasLimit, act.destination,
                                                    act.name, true);
      if input.None? {
        WithFault(ErrSyncExecutionNotInSameShard);
        return;
      }
      if act.asReadOnly {
        ExecuteReadOnly(input.value, act.callee);
      } else {
        var _ := ExecuteOnSameContext(input.value, act.callee);
      }
    }

    /** The input of a nested call, its gas bounded by the gas left. A call that must run at once is
        refused across shards. */
    method PrepareIndirectContractCallInput(
      sender: Address, value: int, gasLimit: int64, destination: Address, name: Name, syncExecutionRequired: bool)
      returns (input: Option<CallInput>)
      ensures input.None? <==> syncExecutionRequired && w.shards(runtime.scAddress) != w.shards(destination)
      ensures input.Some? ==>
                && input.value == C.IndirectInput(Now(), sender, value, gasLimit, destination, name)
                && input.value.recipient == destination && input.value.name == name
                && input.value.vm.caller == sender && input.value.vm.value == value
                && input.value.vm.callType == DirectCall && input.value.vm.gasLocked == 0
                && input.value.vm.gasProvided ==
                   if E.Unspent(Now()) < E.Unsigned(gasLimit) then E.Unspent(Now()) else E.Unsigned(gasLimit)
    {
      if syncExecutionRequired && w.shards(runtime.scAddress) != w.shards(destination) {
        return None;
      }
      var gasProvided := BoundGasLimit(gasLimit);
      input := Some(CallInput(VMInput(sender, value, DirectCall, gasProvided, 0), destination, name));
    }

    /** A request that cannot be served uses up the gas and fails the execution. */
    method WithFault(err: Error)
      requires runtime.instance != null
      modifies output`outputState, runtime.instance`points
      ensures Now() == F.Fail(w, F.UseGas(old(Now()), F.GasLeft(old(Now()))), err)
    {
      var gasLeft := GasLeft();
      UseGas(gasLeft);
      FailExecution(err);
    }

    method ExecuteReadOnly(input: CallInput, c: Contract)
      requires bigInt.Valid() && runtime.instance != null && storage.protectionEnabled
      modifies bigInt, bigInt.cells, blockchain, metering, output, runtime, storage, runtime.instance`points
      ensures Settled()
      ensures var a := old(Now());
              var b := C.Same(w, old(|runtime.instanceStack|), a.(rt := a.rt.(readOnly := true)), input, c).state;
              Now() == b.(rt := b.rt.(readOnly := false))
      decreases c, 6
    {
      hide BigIntContext.Valid, C.Same;
      runtime.readOnly := true;
      var _ := ExecuteOnSameContext(input, c);
      runtime.readOnly := false;
    }

    /** One run of a contract's code, request by request. */
    method RunProgram(p: Program) returns (err: Option<Error>)
      requires bigInt.Valid() && runtime.instance != null && storage.protectionEnabled
      modifies bigInt, bigInt.cells, blockchain, metering, output, runtime, storage, runtime.instance`points
      ensures Settled()
      ensures F.Attempt(Now(), err) == C.Run(w, old(|runtime.instanceStack|), old(Now()), p)
      decreases p
    {
      hide BigIntContext.Valid, C.Do, C.RunAsync;
      match p
      case Step(act, rest) =>
        PerformAction(act);
        err := RunProgram(rest);
      case End(e) =>
        match e
        case Return => err := None;
        case Break(breakpoint) => err := Some(breakpoint);
        case AsyncCall(_, _, _, _, _, _, _, _) => err := RunAsyncCall(e);
    }

    // ----- asynchronous calls -----

    /** The preparation of the callback, its step and the fixed lock, capped as one sum. */
    method ComputeGasLockedForAsync() returns (gas: uint64)
      ensures gas == F.GasLockedForAsync(w, runtime.codeSize)
      ensures 0 <= runtime.codeSize * w.schedule.aotPreparePerByte
      ensures gas == Cap(runtime.codeSize * w.schedule.aotPreparePerByte + w.schedule.asyncCallStep
                         + w.schedule.asyncCallbackGasLock)
    {
      ProductNonNegative(runtime.codeSize, w.schedule.aotPreparePerByte);
      var compilationGasLock := MulUint64(runtime.codeSize, w.schedule.aotPreparePerByte);
      var executionGasLock := AddUint64(w.schedule.asyncCallStep, w.schedule.asyncCallbackGasLock);
      gas := AddUint64(compilationGasLock, executionGasLock);
    }

    method ExecuteAsyncCall(
      destination: Address, data: Bytes, value: nat, hasCallback: bool) returns (err: Option<Error>)
      requires runtime.instance != null
      modifies runtime.instance`points, runtime`asyncCallInfo
      ensures F.Attempt(Now(), err) == C.LockGas(w, old(Now()), destination, data, value, hasCallback)
      ensures runtime.asyncCallInfo ==
              if err.Some? then old(runtime.asyncCallInfo)
              else Some(AsyncCallInfo(destination, data, E.Unspent(Now()),
                                      if hasCallback then F.GasLockedForAsync(w, runtime.codeSize) else 0, value))
    {
      err := UseGasBounded(w.schedule.asyncCallStep);
      if err.Some? {
        return;
      }
      var gasToLock: uint64 := 0;
      if hasCallback {
        gasToLock := ComputeGasLockedForAsync();
        err := UseGasBounded(gasToLock);
        if err.Some? {
          return;
        }
      }
      var gasLeft := GasLeft();
      runtime.asyncCallInfo := Some(AsyncCallInfo(destination, data, gasLeft, gasToLock, value));
    }

    lemma RunAsyncIs(depth: nat, a: Active, e: Ending)
      requires e.AsyncCall?
      ensures var l := C.LockGas(w, a, e.destination, e.data, e.value, e.hasCallback);
              C.RunAsync(w, depth, a, e) ==
              if l.err.Some? then l
              else if !e.parses then F.Attempt(l.state, Some(ErrCallDataParser))
              else
                var b := F.SetAccounts(l.state, Ensure(l.state.out.accounts, e.destination));
                var info := l.state.rt.asyncInfo.value;
                if F.GetCode(w, e.destination).err.None? then F.Attempt(C.CallLocally(w, depth, b, info, e), None)
                else C.SendAsync(w, b, info)
    {
      hide C.SendAsync, C.CallLocally, F.GetCode;
    }

    method RunAsyncCall(e: Ending) returns (err: Option<Error>)
      requires e.AsyncCall?
      requires bigInt.Valid() && runtime.instance != null && storage.protectionEnabled
      modifies bigInt, bigInt.cells, blockchain, metering, output, runtime, storage, runtime.instance`points
      ensures Settled()
      ensures F.Attempt(Now(), err) == C.RunAsync(w, old(|runtime.instanceStack|), old(Now()), e)
      decreases e, 3
    {
      hide BigIntContext.Valid, Ensure, C.LockGas, C.SendAsync, C.CallLocally, C.RunAsync, F.GetCode;
      LockSetsInfo(Now(), e);
      RunAsyncIs(|runtime.instanceStack|, Now(), e);
      err := ExecuteAsyncCall(e.destination, e.data, e.value, e.hasCallback);
      if err.Some? {
        return;
      }
      if !e.parses {
        return Some(ErrCallDataParser);
      }
      err := RunLockedCall(runtime.asyncCallInfo.value, e);
    }

    /** The gas is locked: leave the shard, or call the destination and the callback here. */
    method RunLockedCall(info: AsyncCallInfo, e: Ending) returns (err: Option<Error>)
      requires e.AsyncCall?
      requires bigInt.Valid() && runtime.instance != null && storage.protectionEnabled
      modifies bigInt, bigInt.cells, blockchain, metering, output, runtime, storage, runtime.instance`points
      ensures Settled()
      ensures var b := F.SetAccounts(old(Now()), Ensure(old(Now()).out.accounts, e.destination));
              F.Attempt(Now(), err) ==
              if F.GetCode(w, e.destination).err.Some? then C.SendAsync(w, b, info)
              else F.Attempt(C.CallLocally(w, old(|runtime.instanceStack|), b, info, e), None)
      decreases e, 2
    {
      hide BigIntContext.Valid, Ensure, C.SendAsync, C.CallLocally, F.GetCode;
      var _, _ := output.GetOutputAccount(e.destination);
      if F.GetCode(w, e.destination).err.Some? {
        err := SendAsyncCallToDestination(info);
        return;
      }
      HandleAsyncCallLocally(info, e);
      err := None;
    }

    lemma LockSetsInfo(a: Active, e: Ending)
      requires e.AsyncCall?
      ensures var l := C.LockGas(w, a, e.destination, e.data, e.value, e.hasCallback); l.err.None? ==>
              l.state.rt.asyncInfo.Some?
    {
    }

    method SendAsyncCallToDestination(info: AsyncCallInfo) returns (err: Option<Error>)
      requires runtime.instance != null
      modifies output`outputState, runtime.instance`points
      ensures F.Attempt(Now(), err) == C.SendAsync(w, old(Now()), info)
      ensures var before, after := old(output.outputState).accounts, output.outputState.accounts;
              if err.Some? then P.NothingMoved(before, after)
              else
              && P.Moved(before, after, runtime.scAddress, info.destination, info.value)
              && P.Appended(before, after, info.destination,
                            OutputTransfer(info.value, info.gasLimit, info.gasLocked, info.data, AsynchronousCall,
                                           runtime.scAddress))
    {
      hide F.Transfer, P.Moved, P.NothingMoved, P.RestKept, P.Appended;
      err := Transfer(info.destination, runtime.scAddress, info.gasLimit, info.gasLocked, info.value, info.data,
                      AsynchronousCall);
      var gasLeft := GasLeft();
      UseGas(gasLeft);
      if err.Some? {
        FailExecution(err.value);
      }
    }

    /** Call the destination now, then call back. */
    method HandleAsyncCallLocally(info: AsyncCallInfo, e: Ending)
      requires e.AsyncCall?
      requires bigInt.Valid() && runtime.instance != null && storage.protectionEnabled
      modifies bigInt, bigInt.cells, blockchain, metering, output, runtime, storage, runtime.instance`points
      ensures Settled()
      ensures Now() == C.CallLocally(w, old(|runtime.instanceStack|), old(Now()), info, e)
      decreases e, 1
    {
      hide BigIntContext.Valid, C.Dest, C.CallBack;
      var gasLeft := GasLeft();
      var input := CallInput(VMInput(runtime.scAddress, info.value, AsynchronousCall, gasLeft, info.gasLocked),
                             info.destination, e.name);
      var vm, err := ExecuteOnDestContext(input, e.callee);
      ExecuteSyncCallbackCall(info, vm, err, e);
    }

    lemma CallBackIs(depth: nat, a: Active, vm: VMOutput, err: Option<Error>, info: AsyncCallInfo, e: Ending)
      requires e.AsyncCall?
      ensures var o := C.Outcome(a, vm, err); var gas := Wrap64(vm.gasRemaining + info.gasLocked);
              C.CallBack(w, depth, o, info, e) ==
              if gas <= C.CallbackCost(w, o) then
                var failed := F.CreateErrorOutput(w, a, ErrNotEnoughGas);
                C.ReportCallback(w, failed.state, failed.vm)
              else
                var input := CallInput(
                  VMInput(info.destination, C.CallbackValue(o, F.RestoreGas(a, info.gasLocked).rt.scAddress),
                          AsynchronousCallBack,
                          gas - C.CallbackCost(w, o), 0),
                  F.RestoreGas(a, info.gasLocked).rt.scAddress, CallbackName);
                var cb := C.Dest(w, depth, F.RestoreGas(a, info.gasLocked), input, e.callback);
                if cb.err.None? then cb.state else C.ReportCallback(w, cb.state, cb.vm)
    {
      hide C.Dest, C.ReportCallback, F.CreateErrorOutput, C.CallbackCost, C.CallbackValue, F.RestoreGas;
    }

    method ExecuteSyncCallbackCall(info: AsyncCallInfo, vm: VMOutput, destinationErr: Option<Error>, e: Ending)
      requires e.AsyncCall?
      requires bigInt.Valid() && runtime.instance != null && storage.protectionEnabled
      modifies bigInt, bigInt.cells, blockchain, metering, output, runtime, storage, runtime.instance`points
      ensures Settled()
      ensures Now() == C.CallBack(w, old(|runtime.instanceStack|), C.Outcome(old(Now()), vm, destinationErr), info, e)
      decreases e, 0
    {
      hide BigIntContext.Valid, C.CallBack, C.Dest, C.ReportCallback, F.CreateErrorOutput, C.CallbackCost,
        C.CallbackValue, F.RestoreGas;
      CallBackIs(|runtime.instanceStack|, Now(), vm, destinationErr, info, e);
      var input := CreateCallbackContractCallInput(info, vm, destinationErr);
      if input.None? {
        ReportUnpaidCallback();
        return;
      }
      RestoreGas(info.gasLocked);
      RunCallback(input.value, e.callback);
    }

    /** The callback's input; there is none if what the destination left and the lock do not pay for
        the callback's arguments. */
    method CreateCallbackContractCallInput(info: AsyncCallInfo, vm: VMOutput, destinationErr: Option<Error>)
      returns (input: Option<CallInput>)
      ensures var o, gas := C.Outcome(Now(), vm, destinationErr), Wrap64(vm.gasRemaining + info.gasLocked);
              input == if gas <= C.CallbackCost(w, o) then None
                       else Some(CallInput(VMInput(info.destination, C.CallbackValue(o, runtime.scAddress),
                                                   AsynchronousCallBack, gas - C.CallbackCost(w, o), 0),
                                           runtime.scAddress, CallbackName))
    {
      hide C.CallbackCost, C.CallbackValue;
      var gasLimit := Wrap64(vm.gasRemaining + info.gasLocked);
      var gasToUse := CallbackCost(vm, destinationErr);
      if gasLimit <= gasToUse {
        return None;
      }
      var value := ComputeCallValueFromLastOutputTransfer(vm, destinationErr);
      input := Some(CallInput(VMInput(info.destination, value, AsynchronousCallBack, gasLimit - gasToUse, 0),
                              runtime.scAddress, CallbackName));
    }

    /** A callback that cannot be paid for fails as if it had run out of gas. */
    method ReportUnpaidCallback()
      modifies output`outputState, runtime`vmInput
      ensures var failed := F.CreateErrorOutput(w, old(Now()), ErrNotEnoughGas);
              Now() == C.ReportCallback(w, failed.state, failed.vm)
    {
      hide C.ReportCallback, F.CreateErrorOutput, E.IsFailure;
      var failed := CreateVMOutputInCaseOfError(ErrNotEnoughGas);
      ProcessCallbackVMOutput(failed);
    }

    method RunCallback(input: CallInput, callback: Contract)
      requires bigInt.Valid() && runtime.instance != null && storage.protectionEnabled
      modifies bigInt, bigInt.cells, blockchain, metering, output, runtime, storage, runtime.instance`points
      ensures Settled()
      ensures var cb := C.Dest(w, old(|runtime.instanceStack|), old(Now()), input, callback);
              Now() == if cb.err.None? then cb.state else C.ReportCallback(w, cb.state, cb.vm)
      decreases callback, 6
    {
      hide BigIntContext.Valid, C.Dest, C.ReportCallback;
      var vm, err := ExecuteOnDestContext(input, callback);
      if err.Some? {
        ProcessCallbackVMOutput(vm);
      }
    }

    method CallbackCost(vm: VMOutput, err: Option<Error>) returns (cost: uint64)
      ensures cost == C.CallbackCost(w, C.Outcome(Now(), vm, err))
      ensures var said := if err.None? && vm.code == Ok then |vm.returnData| + C.TotalLength(vm.returnData)
                          else 1 + |vm.message|;
              cost == AddUint64(w.schedule.asyncCallStep,
                                MulUint64(w.schedule.dataCopyPerByte, Cap(8 + 1 + |w.codeBytes(vm.code)| + said)))
    {
      Prices.CallbackPrice(w, C.Outcome(Now(), vm, err));
      var arguments := [w.codeBytes(vm.code)];
      if err.None? && vm.code == Ok {
        arguments := arguments + vm.returnData;
      } else {
        arguments := arguments + [vm.message];
      }
      var dataLength := ComputeDataLengthFromArguments(arguments);
      cost := AddUint64(w.schedule.asyncCallStep, MulUint64(w.schedule.dataCopyPerByte, dataLength));
    }

    method ComputeDataLengthFromArguments(arguments: seq<Bytes>) returns (length: uint64)
      ensures length == Cap(CALLBACK_NAME_LEN + |arguments| + C.TotalLength(arguments))
    {
      length := AddUint64(CALLBACK_NAME_LEN, Cap(|arguments|));
      CapCap(CALLBACK_NAME_LEN, |arguments|);
      for i := 0 to |arguments|
        invariant length == Cap(CALLBACK_NAME_LEN + |arguments| + C.TotalLength(arguments[..i]))
      {
        assert arguments[..i + 1][..i] == arguments[..i];
        CapCap(Cap(CALLBACK_NAME_LEN + |arguments| + C.TotalLength(arguments[..i])), |arguments[i]|);
        length := AddUint64(length, Cap(|arguments[i]|));
      }
      assert arguments[..|arguments|] == arguments;
    }

    /** The value of the last transfer to the caller, when it is bare and nothing was returned. */
    method ComputeCallValueFromLastOutputTransfer(vm: VMOutput, ghost err: Option<Error>) returns (value: int)
      ensures value == C.CallbackValue(C.Outcome(Now(), vm, err), runtime.scAddress)
      ensures value != 0 ==>
                exists last :: IsLastTransfer(vm, runtime.scAddress, last) && IsBare(vm, last) && value == last.value
      ensures forall last :: IsLastTransfer(vm, runtime.scAddress, last) && IsBare(vm, last) ==> value == last.value
    {
      if |vm.returnData| > 0 {
        return 0;
      }
      if runtime.scAddress !in vm.accounts {
        return 0;
      }
      var transfers := vm.accounts[runtime.scAddress].transfers;
      if |transfers| == 0 {
        return 0;
      }
      var last := transfers[|transfers| - 1];
      assert transfers == transfers[..|transfers| - 1] + [last];
      value := if |last.data| == 0 then last.value else 0;
    }

    method ProcessCallbackVMOutput(vm: VMOutput)
      modifies output`outputState, runtime`vmInput
      ensures Now() == C.ReportCallback(w, old(Now()), vm)
      ensures runtime.vmInput == old(runtime.vmInput).(gasProvided := 0)
      ensures output.outputState == old(output.outputState).(message := vm.message,
                returnData := old(output.outputState).returnData + [w.codeText(vm.code), w.txHash])
    {
      runtime.vmInput := runtime.vmInput.(gasProvided := 0);
      output.outputState := output.outputState.(message := vm.message);
      Finish(w.codeText(vm.code));
      Finish(w.txHash);
    }

    // ----- transactions -----

    method InitState()
      requires bigInt.Valid()
      modifies bigInt, metering, output, runtime, storage`stateStack
      ensures bigInt.Valid() && bigInt.cells == old(bigInt.cells)
      ensures bigInt.model == map[] && output.outputState == NEW_OUTPUT && metering.State() == Meter(0, 0, 0, map[])
      ensures runtime.State() == C.NEW_ACTIVE.rt && runtime.codeSize == old(runtime.codeSize)
      ensures runtime.instance == old(runtime.instance) && runtime.created == old(runtime.created)
      ensures Stacks() == Saved([], [], [], [], old(runtime.instanceStack), [], old(blockchain.stateStack))
    {
      hide BigIntContext.Valid;
      ClearStateStacks();
      bigInt.InitState();
      output.InitState();
      metering.InitState();
      runtime.InitState();
    }

    method ClearStateStacks()
      requires bigInt.Valid()
      modifies bigInt, metering`stateStack, output`stateStack, runtime`stateStack, storage`stateStack
      ensures bigInt.Valid() && bigInt.cells == old(bigInt.cells)
      ensures Stacks() == Saved([], [], [], [], old(runtime.instanceStack), [], old(blockchain.stateStack))
    {
      hide BigIntContext.Valid;
      bigInt.ClearStateStack();
      output.ClearStateStack();
      metering.ClearStateStack();
      runtime.ClearStateStack();
      storage.ClearStateStack();
    }

    method StartTransaction(input: CallInput) returns (gasProvided: uint64)
      requires runtime.instance == null && bigInt.model == map[] && output.outputState == NEW_OUTPUT
      requires runtime.State() == C.NEW_ACTIVE.rt
      modifies metering, output`outputState, runtime`scAddress, runtime`vmInput, runtime`name, storage`address
      ensures Now() == C.StartTransaction(input, blockchain.journal, runtime.codeSize)
      ensures metering.stateStack == old(metering.stateStack) && gasProvided == metering.initialGasProvided
      ensures runtime.scAddress == input.recipient && input.recipient in output.outputState.accounts
      ensures forall x :: DeltaOf(output.outputState.accounts, x) == if x == input.recipient then input.vm.value else 0
    {
      runtime.InitStateFromContractCallInput(input);
      var unlocked := metering.InitStateFromContractCallInput(input.vm);
      gasProvided := unlocked.gasProvided;
      var account, _ := output.GetOutputAccount(input.recipient);
      output.UpdateAccount(input.recipient, account.(delta := account.delta + input.vm.value));
      storage.address := runtime.scAddress;
    }

    method PrepareDirectCall(gasProvided: uint64, starts: bool, ghost input: CallInput) returns (err: Option<Error>)
      requires runtime.instance == null && runtime.instanceStack == []
      requires gasProvided == metering.initialGasProvided && runtime.scAddress == input.recipient
               && input.recipient in output.outputState.accounts
      modifies metering`initialCost, metering`gasForExecution, runtime`codeSize, runtime`instance, runtime`created
      ensures F.Attempt(Now(), err) == C.PrepareDirect(w, old(Now()), input, starts)
      ensures var x := input.recipient;
              err == if gasProvided < w.schedule.getCode then Some(ErrNotEnoughGas)
                     else if x !in w.balances || !E.HasCode(w, x) then Some(ErrContractNotFound)
                     else if runtime.vmInput.gasProvided < E.PreparationPrice(w, x) then Some(ErrNotEnoughGas)
                     else if !starts then Some(ErrContractInvalid) else None
      ensures err.None? ==> metering.initialCost == E.PreparationPrice(w, input.recipient)
      ensures err.None? ==> runtime.instance != null && fresh(runtime.instance) && runtime.instance.cleaned == 0
                            && runtime.created == old(runtime.created) + {runtime.instance}
      ensures err.Some? ==> runtime.created == old(runtime.created) && runtime.instance == null
    {
      hide F.InitialCost, E.PreparationPrice;
      if E.HasCode(w, input.recipient) {
        E.PriceIs(w, input.recipient);
      }
      if gasProvided < w.schedule.getCode {
        return Some(ErrNotEnoughGas);
      }
      var code := F.GetCode(w, runtime.scAddress);
      if code.err.Some? {
        return Some(ErrContractNotFound);
      }
      runtime.codeSize := code.size;
      err := metering.DeductInitialGas(w, code.size, runtime.vmInput.gasProvided);
      if err.Some? {
        return;
      }
      err := runtime.StartWasmerInstance(starts);
      if err.Some? {
        err := Some(ErrContractInvalid);
      }
    }

    method SendCallbackToCurrentCaller(answer: Bytes) returns (err: Option<Error>)
      requires runtime.instance != null
      modifies output`outputState, runtime.instance`points
      ensures F.Attempt(Now(), err) == C.SendCallback(w, old(Now()), answer)
      ensures var before, after := old(output.outputState).accounts, output.outputState.accounts;
              var caller, value := runtime.vmInput.caller, runtime.vmInput.value;
              if err.Some? then P.NothingMoved(before, after)
              else
              && P.Moved(before, after, runtime.scAddress, caller, value)
              && P.Appended(before, after, caller,
                            OutputTransfer(value, E.Unspent(old(Now())), 0, answer, AsynchronousCallBack,
                                           runtime.scAddress))
    {
      hide F.Transfer, P.Moved, P.NothingMoved, P.RestKept, P.Appended;
      var gasLeft := GasLeft();
      err := Transfer(runtime.vmInput.caller, runtime.scAddress, gasLeft, 0, runtime.vmInput.value, answer,
                      AsynchronousCallBack);
      gasLeft := GasLeft();
      UseGas(gasLeft);
      if err.Some? {
        FailExecution(err.value);
      }
    }

    /** A pending list that is not empty is not part of this model and ends the call. */
    method ProcessCallbackStack() returns (err: Option<Error>)
      modifies output`outputState
      ensures F.Attempt(Now(), err) == C.LookUpPending(w, old(Now()))
      ensures err.None? <==> Found(old(output.outputState).accounts, storage.address, w.pendingKey) == []
    {
      var buff := GetStorageFromAddressUnmetered(storage.address, w.pendingKey);
      err := if |buff| == 0 then None else Some(ErrPendingCallbacks);
    }

    method VerifyAllowedFunctionCall(input: CallInput) returns (err: Option<Error>)
      ensures err == if input.name.InitName? then Some(ErrInitFuncCalledInRun)
                     else if input.name.CallbackName?
                       && input.vm.callType != AsynchronousCallBack then Some(ErrCallBackFuncCalledInRun)
                     else None
    {
      if input.name.InitName? {
        return Some(ErrInitFuncCalledInRun);
      }
      if input.name.CallbackName? && input.vm.callType != AsynchronousCallBack {
        return Some(ErrCallBackFuncCalledInRun);
      }
      err := None;
    }

    lemma MethodIs(a: Active, input: CallInput, c: Contract, answer: Bytes)
      ensures var l := if input.vm.callType == AsynchronousCallBack then C.LookUpPending(w, a) else F.Attempt(a, None);
              C.CallMethod(w, a, input, c, answer) ==
              if input.name.InitName? then F.Attempt(a, Some(ErrInitFuncCalledInRun))
              else if input.name.CallbackName? && input.vm.callType != AsynchronousCallBack
                then F.Attempt(a, Some(ErrCallBackFuncCalledInRun))
              else if l.err.Some? then l
              else if !c.entry.Found? then
                if input.vm.callType == AsynchronousCallBack then C.LookUpPending(w, l.state)
                  else F.Attempt(l.state, Some(ErrFuncNotFound))
              else AfterMethod(C.Run(w, 0, l.state, c.body), input, answer)
    {
      hide C.Run, C.SendCallback, C.LookUpPending;
    }

    /** What follows the run of a transaction's method. */
    function AfterMethod(r: F.Attempt, input: CallInput, answer: Bytes): F.Attempt {
      if r.err.Some? then r
      else if r.state.points > r.state.meter.forExecution then F.Attempt(r.state, Some(ErrNotEnoughGas))
      else match input.vm.callType
           case AsynchronousCall => C.SendCallback(w, r.state, answer)
           case AsynchronousCallBack => C.LookUpPending(w, r.state)
           case DirectCall => r
    }

    method CallSCMethod(input: CallInput, c: Contract, answer: Bytes) returns (err: Option<Error>)
      requires bigInt.Valid() && runtime.instance != null && storage.protectionEnabled && runtime.instanceStack == []
      modifies bigInt, bigInt.cells, blockchain, metering, output, runtime, storage, runtime.instance`points
      ensures Settled()
      ensures F.Attempt(Now(), err) == C.CallMethod(w, old(Now()), input, c, answer)
    {
      hide P.Moved, P.Appended, P.NothingMoved, E.Unspent, Found, BigIntContext.Valid, C.Run, C.SendCallback,
        C.LookUpPending, C.CallMethod, AfterMethod;
      MethodIs(Now(), input, c, answer);
      err := VerifyAllowedFunctionCall(input);
      if err.Some? {
        return;
      }
      if input.vm.callType == AsynchronousCallBack {
        err := ProcessCallbackStack();
        if err.Some? {
          return;
        }
      }
      if !c.entry.Found? {
        if input.vm.callType == AsynchronousCallBack {
          err := ProcessCallbackStack();
        } else {
          err := Some(ErrFuncNotFound);
        }
        return;
      }
      err := RunMethod(input, c, answer);
    }

    /** Run the method, test that it did not overspend, and finish as the call type asks. */
    method RunMethod(input: CallInput, c: Contract, answer: Bytes) returns (err: Option<Error>)
      requires bigInt.Valid() && runtime.instance != null && storage.protectionEnabled && runtime.instanceStack == []
      modifies bigInt, bigInt.cells, blockchain, metering, output, runtime, storage, runtime.instance`points
      ensures Settled()
      ensures F.Attempt(Now(), err) == AfterMethod(C.Run(w, 0, old(Now()), c.body), input, answer)
    {
      hide BigIntContext.Valid, C.Run, C.SendCallback, C.LookUpPending;
      err := RunProgram(c.body);
      if err.Some? {
        return;
      }
      if runtime.instance.points > metering.gasForExecution {
        return Some(ErrNotEnoughGas);
      }
      match input.vm.callType
      case AsynchronousCall => err := SendCallbackToCurrentCaller(answer);
      case AsynchronousCallBack => err := ProcessCallbackStack();
      case DirectCall =>
    }

    method BeginTransaction(input: CallInput, starts: bool) returns (err: Option<Error>)
      requires bigInt.Valid() && runtime.instance == null && runtime.instanceStack == []
      modifies bigInt, metering, output, runtime, storage`stateStack, storage`address
      ensures bigInt.Valid() && bigInt.cells == old(bigInt.cells)
      ensures Stacks() == Saved([], [], [], [], [], [], old(blockchain.stateStack))
      ensures F.Attempt(Now(), err)
              == C.PrepareDirect(w, C.StartTransaction(input, old(blockchain.journal), old(runtime.codeSize)), input,
                                 starts)
      ensures err.None? ==> runtime.instance != null && fresh(runtime.instance) && runtime.instance.cleaned == 0
                            && runtime.created == old(runtime.created) + {runtime.instance}
      ensures err.Some? ==> runtime.created == old(runtime.created) && runtime.instance == null
    {
      hide BigIntContext.Valid, C.PrepareDirect, C.StartTransaction;
      InitState();
      var gasProvided := StartTransaction(input);
      err := PrepareDirectCall(gasProvided, starts, input);
    }

    /** A transaction: its result is the reference's, and at its end every instance built on the
        way has been cleaned exactly once. */
    method DoRunSmartContractCall(input: CallInput, c: Contract, answer: Bytes) returns (vm: VMOutput)
      requires bigInt.Valid() && runtime.instance == null && runtime.instanceStack == [] && storage.protectionEnabled
      modifies bigInt, bigInt.cells, blockchain, metering, output, runtime, storage
      ensures bigInt.Valid() && storage.protectionEnabled && runtime.instance == null
      ensures Stacks() == Saved([], [], [], [], [], [], old(blockchain.stateStack))
      ensures old(runtime.created) <= runtime.created
      ensures forall i :: i in runtime.created && i !in old(runtime.created) ==> fresh(i) && i.cleaned == 1
      ensures vm == C.RunSmartContractCall(w, input, c, old(blockchain.journal), old(runtime.codeSize), answer).vm
    {
      hide BigIntContext.Valid, C.CallMethod, C.PrepareDirect, C.StartTransaction, F.GetVMOutput, F.CreateErrorOutput,
        E.IsFailure;
      var err := BeginTransaction(input, c.starts);
      if err.Some? {
        vm := CreateVMOutputInCaseOfError(err.value);
        runtime.CleanWasmerInstance();
        return;
      }
      vm := RunAndClean(input, c, answer);
    }

    /** The transaction's own instance is the last to be cleaned. */
    method RunAndClean(input: CallInput, c: Contract, answer: Bytes) returns (vm: VMOutput)
      requires bigInt.Valid() && runtime.instance != null && storage.protectionEnabled && runtime.instanceStack == []
      modifies bigInt, bigInt.cells, blockchain, metering, output, runtime, storage, runtime.instance
      ensures bigInt.Valid() && storage.protectionEnabled && runtime.instance == null
      ensures Stacks() == old(Stacks()) && old(runtime.created) <= runtime.created
      ensures old(runtime.instance).cleaned == old(runtime.instance.cleaned) + 1
      ensures forall i :: i in runtime.created && i !in old(runtime.created) ==> fresh(i) && i.cleaned == 1
      ensures var r := C.CallMethod(w, old(Now()), input, c, answer);
              vm == if r.err.Some? then F.CreateErrorOutput(w, r.state, r.err.value).vm
                else F.GetVMOutput(w, r.state).vm
    {
      hide BigIntContext.Valid, C.CallMethod, F.GetVMOutput, F.CreateErrorOutput;
      vm := RunMethodAndOutput(input, c, answer);
      runtime.CleanWasmerInstance();
    }

    method RunMethodAndOutput(input: CallInput, c: Contract, answer: Bytes) returns (vm: VMOutput)
      requires bigInt.Valid() && runtime.instance != null && storage.protectionEnabled && runtime.instanceStack == []
      modifies bigInt, bigInt.cells, blockchain, metering, output, runtime, storage, runtime.instance`points
      ensures Settled()
      ensures var r := C.CallMethod(w, old(Now()), input, c, answer);
              vm == if r.err.Some? then F.CreateErrorOutput(w, r.state, r.err.value).vm
                else F.GetVMOutput(w, r.state).vm
    {
      hide BigIntContext.Valid, C.CallMethod, F.GetVMOutput, F.CreateErrorOutput, E.IsFailure;
      var err := CallSCMethod(input, c, answer);
      if err.Some? {
        vm := CreateVMOutputInCaseOfError(err.value);
      } else {
        vm := GetVMOutput();
      }
    }
  }
}
