/** The values that the execution host passes around: call inputs, outputs and errors. */
module Types {
  import opened Overflow

  datatype Option<+T> = None | Some(value: T)

  type Byte = x: int | 0 <= x < 256
  type Bytes = seq<Byte>
  type Address = Bytes

  /** An instance's gas counter never exceeds the largest int64. */
  type Points = x: int | 0 <= x <= MAX_INT64

  datatype CallType = DirectCall | AsynchronousCall | AsynchronousCallBack

  datatype ReturnCode =
    | Ok | UserError | FunctionNotFound | FunctionWrongSignature | OutOfGas | ContractNotFound
    | ContractInvalid | UpgradeFailed | OutOfFunds | ExecutionFailed

  datatype Error =
    | ErrSignalError | ErrFuncNotFound | ErrFunctionNonvoidSignature | ErrInvalidFunction
    | ErrNotEnoughGas | ErrContractNotFound | ErrContractInvalid | ErrUpgradeFailed
    | ErrTransferInsufficientFunds | ErrTransferNegativeValue | ErrAccountNotPayable
    | ErrInvalidAccount | ErrHook | ErrCallDataParser | ErrInitFuncCalledInRun
    | ErrMaxInstancesReached | ErrInstanceCreation | ErrReturnCodeNotOk | ErrExecutionFailed
    | ErrCallBackFuncCalledInRun | ErrSyncExecutionNotInSameShard | ErrPendingCallbacks
    | ErrStoreElrondReservedKey | ErrCannotWriteProtectedKey | ErrWasmTrap | ErrGasMismatch | ErrAccountMissing

  datatype StorageStatus = StorageUnchanged | StorageModified | StorageAdded | StorageDeleted

  function ReturnCodeOf(err: Error): ReturnCode {
    match err
    case ErrSignalError => UserError
    case ErrFuncNotFound => FunctionNotFound
    case ErrFunctionNonvoidSignature => FunctionWrongSignature
    case ErrInvalidFunction => UserError
    case ErrNotEnoughGas => OutOfGas
    case ErrContractNotFound => ContractNotFound
    case ErrContractInvalid => ContractInvalid
    case ErrUpgradeFailed => UpgradeFailed
    case ErrTransferInsufficientFunds => OutOfFunds
    case _ => ExecutionFailed
  }

  /** Gas carried away by a transfer is its limit plus what is locked for the callback. */
  datatype OutputTransfer = OutputTransfer(
    value: int, gasLimit: uint64, gasLocked: uint64, data: Bytes, callType: CallType, sender: Address)

  /** `balance` caches the chain's balance; `storage` is the overlay over the chain's storage. */
  datatype OutputAccount = OutputAccount(
    balance: Option<int>, delta: int, storage: map<Bytes, Bytes>, transfers: seq<OutputTransfer>, gasUsed: uint64)

  type Accounts = map<Address, OutputAccount>

  datatype LogEntry = LogEntry(address: Address, topics: seq<Bytes>, data: Bytes)

  datatype VMOutput = VMOutput(
    accounts: Accounts, returnData: seq<Bytes>, logs: seq<LogEntry>, code: ReturnCode, message: Bytes,
    gasRemaining: uint64, gasRefund: uint64)

  datatype VMInput = VMInput(
    caller: Address, value: int, callType: CallType, gasProvided: uint64, gasLocked: uint64)

  /** The function names that the host treats apart: the two reserved for initialisation, and
      the callback's. */
  datatype Name = InitName | CallbackName | OtherName

  datatype CallInput = CallInput(vm: VMInput, recipient: Address, name: Name)

  datatype AsyncCallInfo = AsyncCallInfo(
    destination: Address, data: Bytes, gasLimit: uint64, gasLocked: uint64, value: int)

  /** The part of the runtime context that is pushed and popped. */
  datatype RuntimeState = RuntimeState(
    scAddress: Address, input: VMInput, name: Name, readOnly: bool, asyncInfo: Option<AsyncCallInfo>)

  type GasMap = map<Address, uint64>

  /** The part of the metering context that is pushed and popped. */
  datatype Meter = Meter(provided: uint64, initialCost: uint64, forExecution: uint64, used: GasMap)

  datatype Schedule = Schedule(
    asyncCallStep: uint64, asyncCallbackGasLock: uint64, dataCopyPerByte: uint64, storePerByte: uint64,
    releasePerByte: uint64, persistPerByte: uint64, aotPreparePerByte: uint64, getCode: uint64)

  /** The blockchain hook and the configuration, fixed during a run. An address without a
      balance has no account; an address without a `payable` entry makes the hook fail. The key
      of the transaction's pending asynchronous calls is `pendingKey`. */
  datatype World = World(
    balances: map<Address, int>, codeSizes: map<Address, uint64>, payable: map<Address, bool>,
    storage: map<(Address, Bytes), Bytes>, readable: set<Address>, reservedPrefix: Bytes,
    shards: Address -> nat, pendingKey: Bytes, txHash: Bytes, errorText: Error -> Bytes, codeText: ReturnCode -> Bytes,
      codeBytes: ReturnCode -> Bytes,
    schedule: Schedule)

  /** "ARWEN@" */
  const PROTECTED_PREFIX: Bytes := [65, 82, 87, 69, 78, 64]
  const ADDRESS_LEN := 32
  const CALLBACK_NAME_LEN: nat := 8
  const MAX_INSTANCES: nat := 10

  /** What a contract does, as one finite run of it: the host sees only these requests. */
  datatype Action =
    | Burn(gas: uint64)
    | ReadStorage(key: Bytes)
    | ReadStorageOf(address: Address, key: Bytes)
    | WriteStorage(key: Bytes, data: Bytes)
    | WriteProtected(key: Bytes, data: Bytes)
    | ReadBalance(address: Address)
    | SendValue(destination: Address, value: int, transferGas: uint64, data: Bytes)
    | Finish(data: Bytes)
    | WriteLog(topics: seq<Bytes>, data: Bytes)
    | SetBigInt(handle: int32, value: int)
    | HookWrite(entry: Bytes)
    | FailExecution(err: Error)
    | SignalUserError(message: Bytes)
    | CallDest(byCaller: bool, destination: Address, value: int, gasLimit: int64, name: Name, callee: Contract)
    | CallSame(asReadOnly: bool, destination: Address, value: int, gasLimit: int64, name: Name, callee: Contract)

  datatype Ending =
    | Return
    | Break(err: Error)
    | AsyncCall(destination: Address, data: Bytes, value: nat, parses: bool, name: Name, hasCallback: bool,
                callee: Contract, callback: Contract)

  datatype Program = Step(action: Action, rest: Program) | End(ending: Ending)

  /** How an instance's function lookup ends: found, missing, or a missing default callback. */
  datatype Entry = Found | Missing | NoCallback

  /** `starts`: whether the instance can be created from the code. */
  datatype Contract = Contract(starts: bool, entry: Entry, body: Program)

  /** Everything the running frame can see or change. `points` is the gas counter of the
      running instance; `codeSize` is not part of any stack. */
  datatype Active = Active(
    bigInts: map<int32, int>, out: VMOutput, meter: Meter, rt: RuntimeState, codeSize: uint64,
    storageAddress: Address, journal: seq<Bytes>, points: Points)
}
