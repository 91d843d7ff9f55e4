/** One frame's view of the host: the operations that read and change the active contexts
    without leaving the frame (metering.go, output.go, storage.go, blockchain.go, runtime.go). */
module Frame {
  import opened Overflow
  import opened Types
  import opened Sums
  import opened Ledger

  // ----- metering -----

  /** Points are clamped to the largest int64 when they are stored in the instance. */
  function ClampPoints(points: uint64): (r: Points)
    ensures points <= MAX_INT64 ==> r == points
  {
    if points > MAX_INT64 then MAX_INT64 else points
  }

  function UseGas(a: Active, gas: uint64): Active {
    a.(points := ClampPoints(AddUint64(a.points, gas)))
  }

  function RestoreGas(a: Active, gas: uint64): Active {
    if gas <= a.points then a.(points := a.points - gas) else a
  }

  function GasLeft(a: Active): (r: uint64) {
    if a.meter.forExecution < a.points then 0 else a.meter.forExecution - a.points
  }

  /** A negative limit is reinterpreted as a large unsigned one. */
  function BoundGasLimit(a: Active, limit: int64): (r: uint64)
    ensures r <= GasLeft(a)
  {
    var unsigned := Wrap64(limit);
    if GasLeft(a) < unsigned then GasLeft(a) else unsigned
  }

  function ProvidedGas(vm: VMInput): uint64 {
    if vm.callType == AsynchronousCallBack then AddUint64(vm.gasProvided, vm.gasLocked) else vm.gasProvided
  }

  function InitMeter(vm: VMInput): Meter {
    Meter(ProvidedGas(vm), 0, ProvidedGas(vm), map[])
  }

  function InitialCost(w: World, codeSize: uint64): uint64 {
    AddUint64(w.schedule.getCode, MulUint64(codeSize, w.schedule.aotPreparePerByte))
  }

  function GasLockedForAsync(w: World, codeSize: uint64): uint64 {
    AddUint64(MulUint64(codeSize, w.schedule.aotPreparePerByte),
              AddUint64(w.schedule.asyncCallStep, w.schedule.asyncCallbackGasLock))
  }

  function FreeGas(a: Active, gas: uint64): Active {
    a.(out := a.out.(gasRefund := AddUint64(a.out.gasRefund, gas)))
  }

  /** Merging gas maps uses the plain machine addition. */
  function MergeGas(child: GasMap, parent: GasMap): GasMap {
    map x | x in child.Keys + parent.Keys :: Wrap64(At(child, x) + At(parent, x))
  }

  function OthersGas(accounts: Accounts, used: GasMap, self: Address): map<Address, int> {
    map x | x in accounts :: (if x != self then At(used, x) else 0) + TransferGas(accounts[x].transfers)
  }

  function ReportedGas(accounts: Accounts): map<Address, int> {
    map x | x in accounts :: accounts[x].gasUsed + TransferGas(accounts[x].transfers)
  }

  function SetGasUsed(accounts: Accounts, used: GasMap): Accounts {
    map x | x in accounts :: accounts[x].(gasUsed := if x in used then used[x] else 0)
  }

  lemma SumsAreNonNegative(accounts: Accounts, used: GasMap, self: Address)
    ensures 0 <= SumMap(OthersGas(accounts, used, self))
    ensures 0 <= SumMap(ReportedGas(accounts))
  {
    SumNonNegative(OthersGas(accounts, used, self));
    SumNonNegative(ReportedGas(accounts));
  }

  /** Charge the running contract whatever the other accounts did not account for. */
  ghost function UpdateSCGasUsed(a: Active): Active {
    var self := a.rt.scAddress;
    var accounts := Ensure(a.out.accounts, self);
    var byCurrent := Cap(TransferGas(accounts[self].transfers));
    SumsAreNonNegative(accounts, a.meter.used, self);
    var byOthers := Cap(SumMap(OthersGas(accounts, a.meter.used, self)));
    var spent := AddUint64(a.meter.initialCost, a.points);
    a.(out := a.out.(accounts := accounts),
       meter := a.meter.(used := a.meter.used[self := SubUint64(SubUint64(spent, byCurrent), byOthers)]))
  }

  /** The runtime test of the gas identity. */
  ghost predicate GasMatches(a: Active) {
    SumsAreNonNegative(a.out.accounts, map[], []);
    AddUint64(Cap(SumMap(ReportedGas(a.out.accounts))), a.out.gasRemaining) == a.meter.provided
  }

  datatype Output = Output(state: Active, vm: VMOutput)

  function CreateErrorOutput(w: World, a: Active, err: Error): Output {
    var self := a.rt.scAddress;
    var message := if err == ErrSignalError || |a.out.message| > 0 then a.out.message else w.errorText(err);
    var accounts := Ensure(a.out.accounts, self);
    var accounts' := accounts[self := accounts[self].(gasUsed := AddUint64(accounts[self].gasUsed, a.meter.provided))];
    Output(a.(out := a.out.(accounts := accounts')), VMOutput(map[], [], [], ReturnCodeOf(err), message, 0, 0))
  }

  /** The frame at its end: gas assigned to the accounts and checked against what was provided. */
  ghost function CloseGas(a: Active): Active {
    var a1 := UpdateSCGasUsed(a.(out := a.out.(gasRemaining := GasLeft(a))));
    a1.(out := a1.out.(accounts := SetGasUsed(a1.out.accounts, a1.meter.used)))
  }

  ghost function GetVMOutput(w: World, a: Active): Output {
    var a2 := CloseGas(a);
    if !(a2.meter.used.Keys <= a2.out.accounts.Keys) then CreateErrorOutput(w, a2, ErrAccountMissing)
    else if !GasMatches(a2) then CreateErrorOutput(w, a2, ErrGasMismatch)
    else Output(a2, a2.out)
  }

  // ----- balances and transfers -----

  datatype Attempt = Attempt(state: Active, err: Option<Error>)

  datatype Balance = Balance(state: Active, amount: int)

  function SetAccounts(a: Active, accounts: Accounts): Active {
    a.(out := a.out.(accounts := accounts))
  }

  /** Reading a balance caches the chain's balance in the output account. An address without
      an account on the chain has balance zero, whatever its delta. */
  function GetBalance(w: World, a: Active, address: Address): Balance {
    var account := Account(a.out.accounts, address);
    var known := Ensure(a.out.accounts, address);
    if account.balance.Some? then Balance(SetAccounts(a, known), account.balance.value + account.delta)
    else if address !in w.balances then Balance(SetAccounts(a, known), 0)
    else
      Balance(SetAccounts(a, known[address := account.(balance := Some(w.balances[address]))]),
              w.balances[address] + account.delta)
  }

  function TransferValueOnly(
    w: World, a: Active, destination: Address, sender: Address, value: int, checkPayable: bool): Attempt
  {
    if value < 0 then Attempt(a, Some(ErrTransferNegativeValue)) else
    var b := GetBalance(w, a, sender);
    if b.amount < value then Attempt(b.state, Some(ErrTransferInsufficientFunds))
    else if destination !in w.payable then Attempt(b.state, Some(ErrHook))
    else if checkPayable && !w.payable[destination] && value > 0 && a.rt.input.callType != AsynchronousCall then
      Attempt(b.state, Some(ErrAccountNotPayable))
    else
      Attempt(SetAccounts(b.state, Move(b.state.out.accounts, sender, destination, value)), None)
  }

  function AddTransfer(accounts: Accounts, destination: Address, transfer: OutputTransfer): Accounts {
    var known := Ensure(accounts, destination);
    known[destination := known[destination].(transfers := known[destination].transfers + [transfer])]
  }

  function Transfer(
    w: World, a: Active, destination: Address, sender: Address, gasLimit: uint64, gasLocked: uint64, value: int,
    data: Bytes, callType: CallType): Attempt
  {
    var t := TransferValueOnly(w, a, destination, sender, value, gasLimit > 0 && callType != AsynchronousCallBack);
    if t.err.Some? then t else
      Attempt(SetAccounts(t.state, AddTransfer(t.state.out.accounts, destination,
                                               OutputTransfer(value, gasLimit, gasLocked, data, callType, sender))),
                                                 None)
  }

  // ----- storage -----

  function ChainValue(w: World, address: Address, key: Bytes): Bytes {
    if (address, key) in w.storage then w.storage[(address, key)] else []
  }

  function Overlay(accounts: Accounts, address: Address, key: Bytes): Option<Bytes> {
    var s := Account(accounts, address).storage;
    if key in s then Some(s[key]) else None
  }

  /** The value a read returns: the overlay's, or else the chain's. */
  function View(w: World, accounts: Accounts, address: Address, key: Bytes): Bytes {
    match Overlay(accounts, address, key)
    case Some(v) => v
    case None => ChainValue(w, address, key)
  }

  function PutOverlay(accounts: Accounts, address: Address, key: Bytes, value: Bytes): Accounts {
    var known := Ensure(accounts, address);
    known[address := known[address].(storage := known[address].storage[key := value])]
  }

  /** An unmetered read caches what it finds. */
  function CacheRead(w: World, a: Active, address: Address, key: Bytes): Active {
    SetAccounts(a, PutOverlay(a.out.accounts, address, key, View(w, a.out.accounts, address, key)))
  }

  function CopyCost(w: World, length: nat): uint64 {
    MulUint64(w.schedule.dataCopyPerByte, Cap(length))
  }

  function ChargeKey(w: World, a: Active, key: Bytes): Active {
    if |key| > ADDRESS_LEN then UseGas(a, CopyCost(w, |key| - ADDRESS_LEN)) else a
  }

  function GetStorage(w: World, a: Active, key: Bytes): Active {
    var a1 := ChargeKey(w, a, key);
    var value := View(w, a1.out.accounts, a1.storageAddress, key);
    UseGas(CacheRead(w, a1, a1.storageAddress, key), CopyCost(w, |value|))
  }

  predicate IsReserved(w: World, key: Bytes) {
    w.reservedPrefix <= key
  }

  /** Reading another account: unreadable accounts give nothing, reserved keys bypass the overlay. */
  function GetStorageFromAddress(w: World, a: Active, address: Address, key: Bytes): Active {
    var a1 := ChargeKey(w, a, key);
    if address != a1.storageAddress && (address !in w.balances || address !in w.readable) then a1
    else if IsReserved(w, key) then UseGas(a1, CopyCost(w, |ChainValue(w, address, key)|))
    else
      var value := View(w, a1.out.accounts, address, key);
      UseGas(CacheRead(w, a1, address, key), CopyCost(w, |value|))
  }

  predicate WriteAllowed(w: World, a: Active, key: Bytes, protection: bool) {
    !a.rt.readOnly && !IsReserved(w, key) && !(PROTECTED_PREFIX <= key && protection)
  }

  /** Bytes paid for at the store rate, and bytes released, by replacing one value with another. */
  function BytesStored(old_: Bytes, new_: Bytes): nat {
    if |new_| > |old_| then |new_| - |old_| else 0
  }

  function BytesReleased(old_: Bytes, new_: Bytes): nat {
    if |new_| < |old_| then |old_| - |new_| else 0
  }

  function ChargeWrite(w: World, a: Active, old_: Bytes, value: Bytes): Active {
    if old_ == value then UseGas(a, CopyCost(w, |value|))
    else if old_ == [] then UseGas(a, MulUint64(w.schedule.storePerByte, Cap(|value|)))
    else if value == [] then FreeGas(a, MulUint64(w.schedule.releasePerByte, Cap(|old_|)))
    else if |value| > |old_| then
      UseGas(a, AddUint64(MulUint64(w.schedule.persistPerByte, Cap(|old_|)),
                          MulUint64(w.schedule.storePerByte, Cap(|value| - |old_|))))
    else if |value| < |old_| then
      FreeGas(UseGas(a, MulUint64(w.schedule.persistPerByte, Cap(|value|))),
              MulUint64(w.schedule.releasePerByte, Cap(|old_| - |value|)))
    else a
  }

  function SetStorage(w: World, a: Active, key: Bytes, value: Bytes, protection: bool): Active {
    if !WriteAllowed(w, a, key, protection) then a else
    var a1 := ChargeKey(w, a, key);
    var address := a1.storageAddress;
    var old_ := View(w, a1.out.accounts, address, key);
    var a2 := SetAccounts(a1, PutOverlay(a1.out.accounts, address, key, value));
    ChargeWrite(w, a2, old_, value)
  }

  // ----- runtime -----

  datatype CodeLookup = CodeLookup(err: Option<Error>, size: uint64)

  function GetCode(w: World, address: Address): CodeLookup {
    if address !in w.balances then CodeLookup(Some(ErrInvalidAccount), 0)
    else if address !in w.codeSizes || w.codeSizes[address] == 0 then CodeLookup(Some(ErrContractNotFound), 0)
    else CodeLookup(None, w.codeSizes[address])
  }

  function InitRuntime(rt: RuntimeState, input: CallInput): RuntimeState {
    rt.(scAddress := input.recipient, input := input.vm, name := input.name)
  }

  function Fail(w: World, a: Active, err: Error): Active {
    a.(out := a.out.(code := ExecutionFailed, message := w.errorText(err)))
  }
}
