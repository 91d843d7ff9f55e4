# Verification of Arwen's execution host

This project models the part of Arwen that runs a smart contract together with all the contracts
it calls, and proves what that machinery keeps. A contract is an unknown program: it appears as a
finite tree of requests to the host (burn gas, read and write storage, move value, log, finish,
call another contract in its own or in the caller's context, end with an asynchronous call), and
the theorems hold for all such trees.

There are two descriptions of a run.

- `Frame` and `Calls` are a stackless reference: what a nested call leaves behind is a function of
  the caller's active state. All whole-run theorems are about it (`Conservation`, `GasIdentity`,
  `Traces`, `Reachable`, `AsyncCost`, `CrossShard`, `Carriers`, `SharedCalls`, `Exits`, `CodeSizes`,
  `StorageView`, `StorageBytes`, `ReadOnly`, `Depth`, `Transactions`); `Payments`, `Entries`,
  `Prices` and `Trails` say, in terms of the requests, the chain and the schedule alone, what
  transfers, calls and whole runs do. `Examples` holds programs at which an identity fails.
- `Contexts`, `BigInts` and `Host` are the mutable objects of the program, with their state stacks,
  instance stack and heap cells. Every method of `VmHost` is verified against the reference and
  restores every stack, so the theorems hold of the stacked machine as well.

`OutputHeap` shows for the account objects of the output context what `BigInts` shows for big
integers: no saved state shares anything that is written. `AsyncGasSplit` and `WasmMemory` treat the
division of gas between pending calls and the access to an instance's memory. `Overflow`, `Sums`,
`Types` and `Ledger` hold the arithmetic, sums over maps, the data model and the ledger.

## The main results

- Gas: in trees of nested and local asynchronous calls without gas-carrying transfers, in which no
  callee overspends in its caller's context, the runtime gas check never rejects a frame that stayed
  within its execution gas, at any depth, and every account is charged exactly what its own committed
  frames burned. Frames may leave the shard, at any depth: as long as nothing else
  carries gas, and callees that are kept in a caller's own context were accepted, the totals stay exact.
- The gas check: for every tree without exception, the exact condition under which a frame or a
  transaction is accepted.
- Rollback: a failed nested call changes nothing but the gas counter and the remembered code size.
- Value: in every state of every run the balance deltas add up to the value sent, and no account is
  overdrawn.
- Output: every balance, recorded transfer, return value, log and message that a transaction leaves is
  accounted for by the requests of the call tree that were not undone (`Trails.RunFollows`,
  `Transactions.TransactionTrail`).
- Failures: exactly when a transfer, a nested call or a transaction fails, with which error, return
  code and message, and at what price.
- Storage: the cached overlay refines a plain store whose failed calls have no writes.
- Resources: every stack returns to its entry contents, every instance is cleaned exactly once, and
  the instance limit bounds the recursion.

## Behaviour of the code that is kept as it is

- Gas carried by transfers on the running contract's own account is subtracted twice when the
  contract is charged. Such a frame is accepted within its gas only when all that is recorded equals
  all that it spent, and even when it overspent if the second subtraction makes up for just that
  (`CrossShard.AcceptedExactly`, with the examples `Examples.OwnTransferIsRejected` and
  `Examples.OverspenderIsKept`).
- A callee that overspends in its caller's context is committed all the same. All that it spent goes
  into its caller's gas map, but its caller pays just what it gave (`SharedCalls.SharedCharge`).
  The caller's frame is then accepted if and only if it spent at least what the gas map holds for
  the others (`SharedCalls.SharedFrameExactly`), so that what it burned itself can make up for the
  difference (`Examples.OverspenderDecides`).
- Execution gas of a callback is computed before its locked gas is opened, so a callback delivered
  with locked gas is rejected by the gas check (`Transactions.LockedCallbackIsRejected`, with
  `Examples.LockedCallbackExample`). Unlocking does set the execution gas, but preparing the
  call computes it again from the runtime's earlier copy of the input.
- A child starts with its caller's recorded transfers, which count in its own gas check
  (`Examples.InheritedTransferDecides`). This holds for the callback of a destination that has left
  the shard as well (`Exits.CallbackPaysForExit`).
- The value of a callback is that of the last bare transfer on record for the caller. It is an earlier
  call's exactly when the destination call recorded none (`AsyncCost.CallbackValueExactly`, with the
  example `Examples.StaleCallbackValue`).
- After a call in its own context is kept, the refund is the callee's alone, and so are the return code and the message.
- An address without an account on the chain can spend nothing, even if value has been moved to it
  (`Payments.TransferExactly`).
- The remembered code size is not part of the runtime's saved state, so that a later gas lock is
  computed from the last callee's (`CodeSizes.RunRemembers`), although the comment at
  arwen/contexts/metering.go:425 says that it is the amount for the running contract. It covers that
  contract if and only if no callee's code was found, the last one was not smaller or compiling is
  free (`CodeSizes.LockedExactly`, with the example `Examples.LockDecides`).
- Replacing a stored value by a different one of the same length costs nothing for the value.
- A read-only call clears the read-only flag of its caller when it ends, whatever it was before. A
  read-only run stays so if and only if its frame makes no such call, refused ones aside
  (`ReadOnly.ReadOnlyExactly`); after one, the next write gets through
  (`ReadOnly.NestedReadOnlyClears`).
- Storing into a memory of more than 2^31-1 bytes drops, without an error, what lies beyond.
- Discarding a saved output drops its gas figures as well, although the comment above the method
  (arwen/contexts/output.go:106-107) says that these are kept.
- The blockchain's and the instances' stacks are not emptied at the start of a transaction.

## Assumptions

The blockchain hook and the configuration are one value, fixed during a run, except for the hook's
journal, which snapshots revert. All feature flags are on and warm instances are off. The gas
schedule is arbitrary. The gas theorems take the gas provided to be below 2^63, where the runtime
clamps its counter.

## Model

| member | source | states |
|---|---|---|
| `GasIdentity.RunGas` | arwen/host/execution.go:265-422 | for every tree of nested and local asynchronous calls without gas-carrying transfers, in which no callee overspends in its caller's context, a run adds to the frame's gas map exactly the reports of its committed calls, and its counter grows by these plus the gas burned directly |
| `GasIdentity.CallGas` | arwen/host/execution.go:265-422 | a nested call of either kind adds its report to its caller's gas map and the same amount to its counter, or only what it was given when it fails |
| `GasIdentity.DestGas` | arwen/host/execution.go:312-349 | the same for a destination-context call, with what its output says: it never returns more gas than it was given |
| `GasIdentity.AsyncGas` | arwen/host/asyncCall.go:17-75 | the same accounting across an asynchronous call with both legs, including a callback that cannot be paid for |
| `GasIdentity.ClosedGas` | arwen/contexts/metering.go:167-183 | charging the running contract the remainder makes the gas map and the accounts add up to preparation cost plus gas burned |
| `GasIdentity.CheckGasExact` | arwen/contexts/metering.go:206-221 | without carried gas, the runtime check accepts a frame exactly when preparation cost plus the larger of spent and execution gas is the gas provided |
| `GasIdentity.CheckGasUnlocked` | arwen/contexts/metering.go:206-251 | with nothing locked, it accepts exactly the frames within their execution gas; the accounts and the remaining gas then add up to the gas provided |
| `GasIdentity.ClosedReport` | arwen/contexts/metering.go:264-277 | the gas map of a finished frame equals the recursive report: inner committed reports, plus preparation and directly burned gas on the contract itself |
| `GasIdentity.MergedGas` | arwen/contexts/metering.go:110-124 | committing a child adds its report to the caller's gas map without wrap-around, account by account |
| `GasIdentity.OthersAreTheRest` | arwen/contexts/metering.go:236-251 | the sum over the other accounts is the gas map without the running contract, plus all gas carried by transfers, the contract's own included |
| `GasIdentity.LocalGas` | arwen/host/asyncCall.go:138-200 | both legs of a local asynchronous call: the callback's gas is covered by the caller, and each leg is accounted for |
| `GasIdentity.CallbackCovered` | arwen/host/asyncCall.go:378-403 | what the destination left plus the lock does not overflow and is at most the caller's gas once the lock is returned |
| `GasIdentity.MergeGasIsSum` | arwen/contexts/metering.go:136-140 | machine addition of two gas maps below the cap is plain addition |
| `Reachable.TraceBalances` | arwen/contexts/metering.go:206-221 | at every frame end inside such a tree, at any depth and whether committed later or not, the check rejects exactly overspent frames, and accounts plus remaining gas equal the gas provided |
| `Reachable.TraceChecked` | arwen/contexts/metering.go:206-221 | for every tree without exception, the check accepts a frame, at any depth, exactly when the stated condition on its recorded and spent gas holds |
| `Reachable.TraceConserves` | arwen/contexts/output.go:244-278 | in every state of every run, after every call, callback and error output, inside calls that are later undone too, the total of balance deltas is the starting one, nothing recorded is lost, and no account is overdrawn |
| `Traces.TraceEnds` | arwen/host/execution.go:592-653 | the states listed for a run end with the state in which the run ends |
| `SharedCalls.SharedFrameExactly` | arwen/host/execution.go:397-422 | with callees that may overspend in their caller's context, a frame is accepted if and only if it stayed within its gas and spent at least what its gas map holds for the others |
| `SharedCalls.SharedCharge` | arwen/host/execution.go:410-422 | an accepted such callee adds to its caller's gas map what it spent and costs that; any other costs what it was given but adds all that it spent, or all that its own map holds for others if that is more |
| `Transactions.SharedTransactionExactly` | arwen/host/execution.go:145-200 | the same condition decides a transaction |
| `Transactions.TransactionChecked` | arwen/host/execution.go:145-200 | for every tree, a transaction whose method succeeds is accepted exactly when the stated condition on its recorded and spent gas holds |
| `Examples.OverspenderDecides` | arwen/host/execution.go:397-422 | in every world: a caller within its gas is rejected because of a callee that overspent in its context, and accepted if it burned one more unit itself |
| `Transactions.TransactionGas` | arwen/host/execution.go:145-200 | a successful method call on such a tree always passes the gas check; accounts plus remaining gas equal the gas provided, and each account is charged what its own committed frames burned |
| `Transactions.TransactionConservesValue` | arwenmandos/stepRunTx.go:268-279 | the balance deltas of a successful transaction add up to its value and no account is overdrawn, whatever the contracts did |
| `Transactions.TransactionStates` | arwen/contexts/output.go:396-399 | the same for every state reached on the way, at every depth; and every balance cached there is the chain's |
| `Transactions.TransactionStorage` | arwen/contexts/storage.go:156-171 | after a successful transaction every storage cell shows the last write that was neither rejected nor rolled back, or else what the chain holds for it, nothing included |
| `Trails.RunFollows` | arwen/host/execution.go:592-653 | for every tree: each balance changes by exactly the payments that were asked for and not undone; recorded transfers, return data, logs, journal and big integers are those asked for, in order, without those of failed calls; return code and message are the last ones set |
| `Trails.CallFollows` | arwen/host/execution.go:221-422 | a kept nested call of either kind adds its payment and what its callee left; a failed one adds nothing; one in its own context keeps its big integers to itself |
| `Trails.LegsFollow` | arwen/host/asyncCall.go:138-200 | a local asynchronous call pays the value asked for, then adds its callback's trail, or the report of a callback that failed or could not be paid for |
| `Trails.SendFollows` | arwen/host/asyncCall.go:210-234 | an asynchronous call that leaves the shard pays and records value, data, all gas left and the lock, or fails with the transfer's error |
| `Transactions.TransactionTrail` | arwen/host/execution.go:145-200 | what the node receives from a successful transaction: balances, transfers, return data, logs and message are exactly the value sent, the surviving requests of the whole tree, and the answer |
| `Transactions.TransactionRefused` | arwen/host/execution.go:145-200 | when and why a transaction does not run its method, and the return code and message that the node receives for each reason |
| `Transactions.TransactionEnds` | arwen/host/execution.go:832-895 | a transaction that runs its method reports the run's own error, overspending, an answer that cannot be sent or a gas mismatch, with what the contract said last; otherwise the contract's return code and message |
| `Transactions.RunEnds` | arwen/host/execution.go:832-895 | with which error a run ends: its breakpoint, or an asynchronous call that cannot be paid for, parsed or sent |
| `Entries.ErrorOutputIs` | arwen/contexts/output.go:428-503 | the return code of every error, the message, and the charge of a failed frame |
| `Entries.StartsExactly` | arwen/host/execution.go:265-310 | the code of a callee of either kind is entered if and only if it can be paid, is not the initialiser, exists, pays for its preparation, stays below the instance limit and can be instantiated; which error otherwise; and what that costs the caller |
| `Entries.NotStarted` | arwen/host/execution.go:312-349 | a callee that is not entered fails its call with that error, return code and message; nothing it was paid remains |
| `Entries.CallEnds` | arwen/host/execution.go:592-653 | how a call ends whose callee was entered: by the look-up of the function, the run's error, a return code, or the gas check, with what the callee said last |
| `Entries.CalleeFinds` | arwen/host/execution.go:265-310 | a callee finds the call's input, the value moved, the gas left after its preparation, a fresh or shared output, storage and big integers, and nothing locked |
| `Entries.ActionFinds` | arwen/elrondapi/elrondei.go:2709-2740 | the callee of a nested call finds destination, value, function, sender and read-only mode as its caller asked, and the smaller of gas left and unsigned limit |
| `Entries.CallIsRefused` | arwen/elrondapi/elrondei.go:2709-2740 | between different shards nothing is called or paid, the gas is used up and the execution has failed |
| `Entries.AsyncRecords` | arwen/contexts/runtime.go:742-774 | an asynchronous call records destination, data and value as asked for, with the gas left and the lock |
| `Entries.DestinationFinds` | arwen/host/asyncCall.go:292-320 | the destination finds the value and function asked for, the caller, all gas left and the lock |
| `Entries.CallbackFinds` | arwen/host/asyncCall.go:349-403 | the callback finds the destination as its caller, the value that was sent back, and the gas left by the destination and the lock less the price of its arguments; nothing is moved for it |
| `Prices.ActionCharges` | arwen/contexts/metering.go:313-316 | the exact price of every request that calls nobody, in the rates of the schedule; a failed execution or refused call takes all gas left |
| `Prices.FailedCallCharges` | arwen/host/execution.go:592-636 | a failed call costs nothing if it was not paid for or asked for the initialiser, and all the gas given otherwise |
| `Prices.AsyncCharges` | arwen/contexts/runtime.go:742-774 | exactly when an asynchronous call fails for lack of gas, and that it otherwise costs the step and the lock |
| `Prices.CallbackPrice` | arwen/host/asyncCall.go:443-464 | the callback's price from the bytes of its name, return code and return data or message |
| `StorageBytes.ReadCharges` | arwen/contexts/storage.go:95-154 | a read costs the copy rate for the value found and for the key beyond 32 bytes; of an unreadable account only the key |
| `Transactions.LockedCallbackIsRejected` | arwen/contexts/metering.go:285-295 | a successful callback run passes the check if and only if no gas was locked, because execution gas is computed from the input before unlocking |
| `Examples.LockedCallbackExample` | arwen/host/execution.go:157-158 | in every world, a concrete callback with one unit locked is rejected, and the same callback without the lock is accepted |
| `Transactions.CrossShardExit` | arwen/host/asyncCall.go:210-234 | a call that ends by leaving the shard reports no gas remaining; all gas carried is the limit plus the lock of its asynchronous call; the last transfer to the destination carries these and the value and data that the contract asked for; accounts plus both equal the gas provided |
| `Transactions.NestedExit` | arwen/host/asyncCall.go:210-234 | a transaction, direct, asynchronous or a callback without locked gas, in which any frames, at any depth, leave the shard, while nothing else carries gas and the contract keeps only accepted callees in its own context, is accepted, with accounts, carried gas and remaining gas equal to the gas provided |
| `Exits.LeavingRun` | arwen/host/asyncCall.go:210-234 | along such a run a frame has burned all gas that is charged to accounts or carried away, whatever its callees, destinations and callbacks carry away, inherit or fail to do |
| `Exits.CallCarries` | arwen/host/execution.go:265-422 | one call of either kind keeps that invariant of its caller |
| `Exits.KeptExactly` | arwen/contexts/output.go:126-135 | a callee that ended without error is kept exactly when it stayed within its gas and spent all that is recorded, which includes what was carried away before it started |
| `Exits.WithinIsAccepted` | arwen/host/execution.go:397-422 | without carried gas, callees that never overspend in their caller's context are all accepted there, so that what is shown for frames that leave the shard holds for such trees as well |
| `Exits.CallbackPaysForExit` | arwen/host/asyncCall.go:163-200 | a callback after its destination has left the shard is kept only if it spends at least the gas that was carried away |
| `Carriers.RunCarriers` | arwen/contexts/output.go:283-303 | in trees where only calls to other shards carry gas, no account with code on this shard ever has a transfer that carries any |
| `Exits.CarryingIsAccepted` | arwen/contexts/metering.go:206-221 | such a frame is accepted exactly when it stayed within its gas, and the sums are exact |
| `Transactions.AnsweredCall` | arwen/host/asyncCall.go:237-266 | a call received from another shard, in which other frames may have left the shard at any depth, answers with all its remaining gas and passes the check with zero gas remaining; accounts and carried gas add up to the gas provided |
| `Transactions.StartOfTransaction` | arwen/host/execution.go:157-160 | a transaction starts with a delta total equal to its value and no overdrawn account |
| `CrossShard.AcceptedExactly` | arwen/contexts/metering.go:167-183 | for every frame whose gas is visible, however large its sums: within its gas, accepted exactly when recorded gas is covered by what was spent, or, with transfers on the contract's own account, only when the two are equal; an overspent frame only when the double subtraction of those transfers makes up for what it overspent |
| `Examples.OwnTransferIsRejected` | arwen/elrondapi/elrondei.go:1030-1033 | in every world: a contract within its gas is rejected because it sent itself a transfer that carries gas |
| `Examples.InheritedTransferDecides` | arwen/contexts/output.go:126-135 | in every world: an idle callee is kept if and only if its caller's earlier transfer carries no more gas than preparing the callee costs |
| `Examples.OverspenderIsKept` | arwen/contexts/metering.go:167-183 | in every world: a callee that overspent by just the gas that its transfer to itself carries is kept |
| `CrossShard.CoveredFrameIsAccepted` | arwen/contexts/metering.go:206-251 | a frame within its gas that spent all that is recorded, without transfers on its own account, is accepted with exact sums |
| `CrossShard.CarryingFrameIsAccepted` | arwen/host/asyncCall.go:210-234 | a frame that hands all its remaining gas to another account is accepted, with no gas remaining and everything accounted for |
| `CrossShard.ReachesExit` | arwen/host/asyncCall.go:17-32 | a tree without gas-carrying transfers reaches its cross-shard call with the gas invariant intact |
| `AsyncCost.CallCost` | arwen/host/execution.go:592-636 | for arbitrary callees, a nested call costs the gas given less the gas remaining; a failed one costs nothing or all of it |
| `AsyncCost.LocalCallCost` | arwen/host/asyncCall.go:64-75 | a local asynchronous call whose legs both succeed costs exactly the step plus what destination and callback spent; the lock is returned whole |
| `AsyncCost.CallbackWithinGasLeft` | arwen/host/asyncCall.go:186-190 | on every path the callback is given no more gas than the caller has left |
| `CodeSizes.RunRemembers` | arwen/contexts/runtime.go:222-246 | a run, finished or failed, leaves the code size of the last callee whose code was found, at any depth and whether that callee was kept or undone; if there is none, the size it started with |
| `CodeSizes.LockedExactly` | arwen/contexts/metering.go:413-434 | what an asynchronous call locks covers preparing its own contract again if and only if no code of a callee was found before, the last one found was not smaller, or compiling is free |
| `CodeSizes.LockCovers` | arwen/contexts/metering.go:413-434 | below saturation the lock for one size covers another if and only if it is not smaller, or compiling is free |
| `CodeSizes.CallbackPreparedExactly` | arwen/host/asyncCall.go:168-200 | below the instance limit, a callback that can be paid for is prepared if and only if what is left of the lock and of the destination's gas, after the price of its arguments, pays for the code of its contract |
| `Examples.LockDecides` | arwen/contexts/metering.go:413-434 | in every world: one program locks for its own code or for that of a callee that failed and was undone, according to whether it made that call, and whether its callback can be prepared is decided by just that |
| `Conservation.DestRollsBack` | arwen/host/execution.go:221-250 | a failed nested call leaves every context equal to its value at entry, whatever was committed deeper; only gas paid and the remembered code size differ |
| `Conservation.DestCommits` | arwen/host/execution.go:326-346 | a successful call keeps exactly the child's accounts and journal, appends its return data and logs to the caller's, and takes only the child's refund |
| `Conservation.DestEvolves` | arwen/host/execution.go:221-349 | either way the caller's frame, ledger total, earlier records, logs and return data survive a nested call |
| `Conservation.SameRollsBack` | arwen/host/execution.go:397-410 | a failed call in the caller's context is undone as completely |
| `Conservation.SameCommits` | arwen/host/execution.go:410-422 | a successful one conserves the total of deltas, overdraws nobody, keeps the caller's accounts, logs, return data and journal as beginnings of what it leaves, and gives back the caller's runtime and meter with the gas maps added |
| `Conservation.RunEvolves` | arwen/host/execution.go:592-653 | along every run the ledger only grows, value is conserved, the journal, logs and return data are extended, and the frame stays the same |
| `Conservation.MergeIsRight` | arwen/contexts/output.go:528-606 | merging accounts that extend the saved ones gives exactly the child's accounts: nothing duplicated, nothing lost |
| `Conservation.MoveConserves` | arwen/contexts/output.go:244-278 | a covered transfer, to oneself included, conserves the total and overdraws nobody |
| `Conservation.GetBalanceConserves` | arwen/contexts/blockchain.go:68-93 | the balance read is the chain's plus the delta, or zero for an address without an account, unless a wrong balance had been cached; caching it changes no balance |
| `Payments.TransferExactly` | arwen/contexts/output.go:244-278 | a transfer fails with exactly the stated error; for lack of funds if and only if the chain's balance and what was moved since do not cover it |
| `Payments.TransferMoves` | arwen/contexts/output.go:244-278 | every balance: a transfer takes its value from the sender and gives it to the destination, the same account maybe, and changes no other; a failed one changes none |
| `Payments.TransferRecords` | arwen/contexts/output.go:283-303 | a transfer with gas or data does the same and is appended, as asked for, to the destination's record and to no other |
| `Conservation.TransferEvolves` | arwen/contexts/output.go:283-303 | a transfer, failed or not, conserves value and extends the recorded transfers |
| `StorageView.RunRefines` | arwen/contexts/storage.go:204-255 | the overlay refines a plain store: at the end of any run each cell shows the last surviving write or its earlier content |
| `StorageView.DestRefines` | arwen/contexts/output.go:596-606 | a nested call applies its surviving writes when committed and none when it fails |
| `StorageView.ReadRefines` | arwen/contexts/storage.go:95-171 | reading, with its caching, changes nothing that later reads see |
| `StorageView.SetStorageRefines` | arwen/contexts/storage.go:204-255 | an accepted write changes its own cell alone; a rejected or read-only one changes nothing |
| `StorageBytes.BytesConserved` | arwen/contexts/storage.go:242-288 | over any sequence of writes, bytes charged at the store rate minus bytes released equal the change in stored length |
| `StorageBytes.StoreGasExact` | arwen/contexts/storage.go:242-288 | over any sequence of writes that does not saturate, gas grows by the store rate times bytes stored plus the writes' upkeep |
| `StorageBytes.RefundExact` | arwen/contexts/metering.go:328-331 | within a frame the refund grows by the release rate times the bytes released |
| `StorageBytes.WriteCharges` | arwen/contexts/storage.go:242-288 | the price of one write; replacing a value by a different one of equal length is free |
| `Depth.TransactionDepth` | arwen/contexts/runtime.go:117-122 | cutting a call tree at the instance limit changes nothing: the limit bounds the recursion |
| `Depth.PrunedRun` | arwen/contexts/runtime.go:117-122 | the same for a frame at any depth |
| `Depth.PrunedHeight` | arwen/host/arwen.go:22 | the cut tree is no deeper than the limit |
| `Host.VmHost.DoRunSmartContractCall` | arwen/host/execution.go:145-200 | the host computes the reference result of a transaction, ends with empty stacks, and has cleaned every instance it built exactly once |
| `Host.VmHost.ExecuteOnDestContext` | arwen/host/execution.go:221-250 | a nested call on the stacked contexts has the reference effect, restores every stack and the running instance, and cleans every instance built meanwhile exactly once |
| `Host.VmHost.ExecuteOnDestContextNoBuiltinFunction` | arwen/host/execution.go:265-310 | the part between the blockchain snapshots, with the same guarantees |
| `Host.VmHost.FinishExecuteOnDestContext` | arwen/host/execution.go:312-349 | output taken, all contexts committed or restored, unspent gas given back, the child's instance cleaned |
| `Host.VmHost.ExecuteOnSameContext` | arwen/host/execution.go:353-395 | a call in the caller's own context has the reference effect and error, and restores every stack |
| `Host.VmHost.FinishExecuteOnSameContext` | arwen/host/execution.go:397-422 | commit or undo of a same-context call |
| `Host.VmHost.ExecuteCall` | arwen/host/execution.go:592-636 | charging, code lookup, preparation, instance creation and run of a callee |
| `Host.VmHost.CallSCMethodIndirect` | arwen/host/execution.go:638-653 | function lookup and run of a nested callee |
| `Host.VmHost.CallSCMethod` | arwen/host/execution.go:832-895 | the method of a direct call: allowed names, look-up of pending calls, final gas test, and the answer to another shard |
| `Host.VmHost.VerifyAllowedFunctionCall` | arwen/host/execution.go:897-913 | initialisation is refused, and the callback unless the call is a callback |
| `Host.VmHost.ProcessCallbackStack` | arwen/host/asyncCall.go:660-668 | the pending calls are read once and cached; none, in the overlay or on the chain, means success |
| `Host.VmHost.WithFault` | arwen/helpers.go:184-198 | a request that fails uses up the gas and fails the execution |
| `Host.VmHost.RunProgram` | arwen/host/breakpoints.go:7-40 | a contract's requests performed one by one on the contexts agree with the stackless reference |
| `Host.VmHost.ExecuteReadOnly` | arwen/elrondapi/elrondei.go:2515-2571 | a read-only call sets the flag and always clears it afterwards |
| `ReadOnly.RunSilent` | arwen/contexts/output.go:219-223 | a read-only run without nested read-only calls changes no storage and writes no log, in all its nested calls |
| `ReadOnly.ReadOnlyExactly` | arwen/elrondapi/elrondei.go:2562-2564 | for every tree: a run ends read-only if and only if it started so and its frame made no read-only call that was not refused |
| `ReadOnly.NestedReadOnlyClears` | arwen/elrondapi/elrondei.go:2562-2564 | after a nested read-only call the flag is off, whatever it was, and the next write gets through |
| `Host.VmHost.PrepareIndirectContractCallInput` | arwen/elrondapi/elrondei.go:2709-2740 | refused exactly when the call must run at once and the destination is in another shard; otherwise sender, value, destination and function are those asked for, nothing is locked, and the gas is the smaller of the gas left and the unsigned limit |
| `Host.VmHost.PrepareDirectCall` | arwen/host/execution.go:145-185 | each reason why a direct call is refused before it runs, and the preparation cost otherwise |
| `Host.VmHost.CreateCallbackContractCallInput` | arwen/host/asyncCall.go:349-403 | no input if the arguments cannot be paid for, else destination, value and the gas that remains |
| `Host.VmHost.ExecuteAsyncCall` | arwen/contexts/runtime.go:742-774 | the step and the lock are charged; destination, data and value are recorded as asked for, with all that is left as the limit |
| `Host.VmHost.RunAsyncCall` | arwen/host/asyncCall.go:17-75 | an asynchronous call is sent away or executed locally as in the reference |
| `Host.VmHost.HandleAsyncCallLocally` | arwen/host/asyncCall.go:138-161 | the destination called now, with all gas left |
| `Host.VmHost.ExecuteSyncCallbackCall` | arwen/host/asyncCall.go:163-200 | the callback's gas, value and cost, and what happens when it cannot be paid |
| `Host.VmHost.CallbackCost` | arwen/host/asyncCall.go:349-383 | the step, and the copy rate for the callback's name, the return code and the return data, or the message of a failed destination, with one separator each |
| `Host.VmHost.ComputeDataLengthFromArguments` | arwen/host/asyncCall.go:443-456 | the exact data length, capped |
| `Host.VmHost.ComputeCallValueFromLastOutputTransfer` | arwen/host/asyncCall.go:322-347 | a callback value that is not zero is that of the last transfer to the caller, which is bare, with no data returned; and such a transfer's value is always taken |
| `AsyncCost.CallbackValueExactly` | arwen/host/asyncCall.go:322-347 | the value of a callback in every case: zero if the destination failed or returned data, else that of the last bare transfer which the destination call recorded for the caller, or, if and only if it recorded none, of the last one before it |
| `Examples.StaleCallbackValue` | arwen/host/asyncCall.go:349-403 | in every world: a callback that can be paid for is called with the value that an earlier callee sent, although the destination sent nothing and nothing is paid; its code runs and the transaction ends as it does |
| `Host.VmHost.ProcessCallbackVMOutput` | arwen/host/asyncCall.go:422-441 | a failed callback leaves its message, and puts its return code and then the transaction hash after the return data |
| `Host.VmHost.SendAsyncCallToDestination` | arwen/host/asyncCall.go:210-234 | value, data and gas go to the destination as one recorded transfer and all gas is used; a failed transfer moves nothing and fails the execution |
| `Host.VmHost.SendCallbackToCurrentCaller` | arwen/host/asyncCall.go:237-266 | the answer to another shard carries the call's value and the remaining gas |
| `Host.VmHost.ComputeGasLockedForAsync` | arwen/contexts/metering.go:413-434 | the lock is the exact sum of preparation, step and fixed lock, capped once |
| `Host.VmHost.UseGas` | arwen/contexts/metering.go:313-316 | saturating addition to the instance's counter, clamped to int64 |
| `Host.VmHost.RestoreGas` | arwen/contexts/metering.go:319-325 | gas is given back only when that much was used |
| `Host.VmHost.GasLeft` | arwen/contexts/metering.go:334-343 | zero when overspent |
| `Host.VmHost.BoundGasLimit` | arwen/contexts/metering.go:384-392 | never more than the gas left, a negative limit being a large one |
| `Host.VmHost.UseGasBounded` | arwen/contexts/metering.go:404-410 | fails without effect unless gas remains afterwards |
| `Host.VmHost.UpdateSCGasUsed` | arwen/contexts/metering.go:167-183 | the running contract is charged what transfers and other accounts do not account for |
| `Host.VmHost.CheckGas` | arwen/contexts/metering.go:206-221 | compares the capped exact total with the gas provided |
| `Host.VmHost.UpdateGasStateOnSuccess` | arwen/contexts/metering.go:143-157 | gas assigned to the accounts, then checked |
| `Host.VmHost.UpdateGasStateOnFailure` | arwen/contexts/metering.go:159-165 | a failed contract is charged all the gas its frame was given |
| `Host.VmHost.GetVMOutput` | arwen/contexts/output.go:402-414 | the output of a frame, or an error output if the gas does not match |
| `Host.VmHost.CreateVMOutputInCaseOfError` | arwen/contexts/output.go:428-456 | an error output keeps only the return code that tells of the error, and what the contract said last or else the error's text |
| `Host.VmHost.TransferValueOnly` | arwen/contexts/output.go:244-278 | exactly when a transfer fails and why; otherwise the value has gone from sender to destination and no other balance has changed |
| `Host.VmHost.Transfer` | arwen/contexts/output.go:283-303 | a value transfer recorded with its gas on the destination |
| `Host.VmHost.GetBalanceBigInt` | arwen/contexts/blockchain.go:68-93 | the chain's balance plus the delta, zero for a missing account, cached in the account |
| `Host.VmHost.SetStorage` | arwen/contexts/storage.go:204-292 | the error says why a write was rejected, the status compares the values seen before and after, and overlay and gas are as in the reference |
| `Host.VmHost.SetProtectedStorage` | arwen/contexts/storage.go:196-202 | the same with protection off for its duration, status and error included |
| `Host.VmHost.GetStorage` | arwen/contexts/storage.go:95-112 | the overlay's value or else the chain's, cached and paid for |
| `Host.VmHost.GetStorageFromAddress` | arwen/contexts/storage.go:115-154 | nothing exactly when the account is foreign and unreadable; the chain's value for a reserved key, and otherwise the overlay's or else the chain's |
| `Host.VmHost.GetStorageFromAddressUnmetered` | arwen/contexts/storage.go:156-171 | the caching read: the overlay's entry, or else the chain's, which becomes an entry; nothing else changes |
| `Host.VmHost.InitState` | arwen/host/arwen.go:268-286 | every context reset and every stack but the instances' and the blockchain's emptied |
| `Contexts.OutputContext.PushState` | arwen/contexts/output.go:69-73 | the saved state is an equal copy |
| `Contexts.OutputContext.PopSetActiveState` | arwen/contexts/output.go:76-88 | the saved state comes back |
| `Contexts.OutputContext.PopMergeActiveState` | arwen/contexts/output.go:92-104 | the active state is merged into the saved one |
| `Contexts.OutputContext.PopDiscard` | arwen/contexts/output.go:108-115 | only the stack shrinks |
| `Contexts.OutputContext.CensorVMOutput` | arwen/contexts/output.go:126-135 | everything but the accounts is cleared |
| `Contexts.MergeVMOutputs` | arwen/contexts/output.go:528-552 | which side of each field wins |
| `Contexts.MergeAllAccounts` | arwen/contexts/output.go:528-542 | accounts of both sides, merged where both have them, in any map order |
| `Contexts.MergeOutputAccounts` | arwen/contexts/output.go:554-594 | the child's delta and gas, both overlays, the child's longer transfer list |
| `Contexts.MergeStorageUpdates` | arwen/contexts/output.go:596-606 | later entries win, in any map order |
| `Contexts.MeteringContext.PushState` | arwen/contexts/metering.go:70-79 | the active figures are saved |
| `Contexts.MeteringContext.PopSetActiveState` | arwen/contexts/metering.go:83-95 | the saved figures come back |
| `Contexts.MeteringContext.PopMergeActiveState` | arwen/contexts/metering.go:110-124 | the saved figures with both gas maps added |
| `Contexts.MeteringContext.AddToGasUsedByAccounts` | arwen/contexts/metering.go:136-140 | wrapping pointwise addition, in any map order |
| `Contexts.MeteringContext.InitStateFromContractCallInput` | arwen/contexts/metering.go:62-67 | a fresh meter with the unlocked gas of the input, and the input as it is after unlocking |
| `Contexts.MeteringContext.DeductInitialGas` | arwen/contexts/metering.go:481-498 | the preparation cost as one capped sum, or an error without effect |
| `Contexts.GetGasTransferredByAccount` | arwen/contexts/metering.go:254-262 | the exact gas carried by an account's transfers, capped |
| `Contexts.GetGasUsedByAllOtherAccounts` | arwen/contexts/metering.go:236-251 | the exact sum, capped, whatever the map order |
| `Contexts.GetCurrentTotalUsedGas` | arwen/contexts/metering.go:223-234 | the exact sum, capped, whatever the map order |
| `Contexts.SetGasUsedToAccounts` | arwen/contexts/metering.go:264-277 | each account gets its entry of the gas map, or zero |
| `Contexts.StorageContext.PopSetActiveState` | arwen/contexts/storage.go:55-65 | the saved address comes back |
| `Contexts.BlockchainContext.PopSetActiveState` | arwen/contexts/blockchain.go:310-320 | the hook reverts to the saved snapshot |
| `Contexts.RuntimeContext.PushState` | arwen/contexts/runtime.go:318-336 | the state and the running instance are saved |
| `Contexts.RuntimeContext.PopSetActiveState` | arwen/contexts/runtime.go:339-355 | the saved state and instance come back; the other instance is cleaned |
| `Contexts.RuntimeContext.PopInstance` | arwen/contexts/runtime.go:380-401 | the saved instance runs again and the other is cleaned once; an empty stack changes nothing |
| `Contexts.RuntimeContext.CleanWasmerInstance` | arwen/contexts/runtime.go:692-701 | cleaned once, then forgotten |
| `Contexts.RuntimeContext.StartWasmerInstance` | arwen/contexts/runtime.go:117-137 | a new instance, or an error at the limit |
| `Contexts.RuntimeContext.SetPointsUsed` | arwen/contexts/runtime.go:664-669 | clamped to int64 |
| `BigInts.BigIntContext.PushState` | arwen/contexts/bigint.go:30-33 | the saved frame is a copy in new cells, sharing none |
| `BigInts.BigIntContext.PopSetActiveState` | arwen/contexts/bigint.go:36-46 | the saved values come back unchanged |
| `BigInts.BigIntContext.Clone` | arwen/contexts/bigint.go:63-69 | equal values in fresh cells |
| `BigInts.BigIntContext.FreeHandle` | arwen/contexts/bigint.go:72-84 | the search ends at a free handle, even when the counter wraps; with few handles it is at most twice their number |
| `BigInts.BigIntContext.Put` | arwen/contexts/bigint.go:72-84 | a new handle with the value; every other handle and every saved frame unchanged |
| `BigInts.BigIntContext.GetOne` | arwen/contexts/bigint.go:87-93 | the cell of a handle, created as zero when missing |
| `BigInts.BigIntContext.Write` | arwen/contexts/bigint.go:87-93 | writing through a handle changes that handle's value alone, in no other frame |
| `OutputHeap.OutputAccounts.PushState` | arwen/contexts/output.go:69-73 | the saved accounts have the same values in new objects, sharing no account and no overlay with any state |
| `OutputHeap.OutputAccounts.PopMergeActiveState` | arwen/contexts/output.go:92-104 | the merged accounts are new objects and the states below keep their values; with nothing saved, nothing happens |
| `OutputHeap.OutputAccounts.PutUpdate` | arwen/contexts/storage.go:242-256 | storing a value makes a new entry, in a new account if there was none, and changes no saved state |
| `OutputHeap.OutputAccounts.AddDelta` | arwen/contexts/output.go:273-276 | a balance change changes no saved state |
| `OutputHeap.OutputAccounts.AppendTransfer` | arwen/contexts/output.go:283-303 | a transfer is recorded, in a new account if there was none, and changes no saved state |
| `OutputHeap.MergeVMOutputs` | arwen/contexts/output.go:528-542 | only the left side's objects change, what they gain is new, and the values are merged |
| `OutputHeap.MergeOutputAccounts` | arwen/contexts/output.go:554-594 | the left object takes the merged value; the right one keeps its own |
| `AsyncGasSplit.AsyncContextInfo.SetupAsyncCallsGas` | arwen/host/asyncCall.go:759-803 | succeeds if and only if the totals allow it, independently of map order; then declared calls get their gas, the others one share, within the gas left; a failure only wrote declared gas |
| `AsyncGasSplit.SplitWithinGas` | arwen/host/asyncCall.go:759-803 | the limits total at most the gas left and the unassigned rest is smaller than the number of sharing calls |
| `AsyncGasSplit.AssignedTotal` | arwen/host/asyncCall.go:791-800 | the limits add up to the declared gas plus one share for each undeclared call |
| `AsyncGasSplit.AsyncContextInfo.DeclareContext` | arwen/host/asyncCall.go:764-785 | one context of the first pass: declared gas assigned, undeclared calls counted, exact failure condition |
| `WasmMemory.ArgumentsRoundTrip` | arwen/elrondapi/elrondei.go:2742-2771 | arguments laid out as a little-endian length table and a blob are recovered exactly, with their total length |
| `WasmMemory.GetArgumentsFromMemory` | arwen/elrondapi/elrondei.go:2742-2771 | the method agrees with the specification on every input, errors included |
| `WasmMemory.CreateInt32Array` | arwen/elrondapi/elrondei.go:2773-2783 | the decoded table, entries beyond it zero |
| `WasmMemory.DecodeEncode` | arwen/elrondapi/elrondei.go:2773-2783 | little-endian decoding undoes encoding |
| `WasmMemory.MultipleIsOne` | arwen/contexts/runtime.go:862-880 | a successful multiple load whose end fits is one load of the total length |
| `WasmMemory.Memory.MemLoad` | arwen/contexts/runtime.go:829-859 | bounds errors, and padding with zeros past the end |
| `WasmMemory.Memory.MemLoadMultiple` | arwen/contexts/runtime.go:862-880 | consecutive loads with a wrapping offset, or the first error |
| `WasmMemory.Memory.MemStore` | arwen/contexts/runtime.go:883-917 | what was stored loads back, no other byte changed, at most one page added; bytes beyond the largest int32 are dropped; the exact error cases, for data of any length, the out-of-range slice after a wrapped length included |
| `Overflow.AddUint64` | math/overflow.go:12-20 | the exact sum, capped |
| `Overflow.AddUint64WithErr` | math/overflow.go:23-30 | the sum, or overflow exactly when it does not fit |
| `Overflow.AddInt64` | math/overflow.go:33-41 | the sum, or the largest int64 on overflow in either direction |
| `Overflow.SubUint64` | math/overflow.go:44-50 | the difference, or zero |
| `Overflow.MulUint64WithErr` | math/overflow.go:64-71 | the division test accepts exactly the products that fit |
| `Overflow.MulUint64` | math/overflow.go:53-61 | the exact product, capped |
| `Overflow.AddInt32WithError` | math/overflow.go:85-92 | the sum, or overflow exactly when it does not fit |
| `Overflow.AddInt32` | math/overflow.go:74-82 | the sum, or the largest int32 on overflow in either direction |
| `Overflow.SubInt` | math/overflow.go:95-103 | the difference, or the smallest int64 on overflow in either direction |

## Left out

- Built-in functions and token transfers, whose code is in another repository, and with them the built-in output merged before a frame is pushed, the transfer-on-callback mode and the callback's token arguments.
- Contract creation, upgrade and the deletion of output accounts; code, nonce and code-update fields of the output.
- Host.VmHost.ProcessCallbackStack: a list of pending calls that is not empty ends the call with an error of its own; the lists kept in storage, and the callback stack, are not modelled. The split of gas between pending calls is modelled separately.
- The parser of call data and the contents of arguments: whether the data parses and which function it names are parameters of the request. The answer sent to another shard is a parameter as well, so its encoding is not modelled.
- Code verification and compilation: whether an instance can be created is a parameter of the contract.
- Warm instances, cached compiled code, earlier epoch behaviour, logging, error lists and panic recovery.
- Infinite runs of a contract: a run that exhausts its gas is a finite tree that ends with a breakpoint.
- The host's methods use the ledger as a map of values; `OutputHeap` relates such values to account objects for the operations of the output context, but the host is not built on those objects. The pending asynchronous calls are values as well.
- Examples.OverspenderDecides: like the other examples, for contracts whose preparation costs less than 2^31-1, and, where they make asynchronous calls, a step, a callback price or a lock below that bound.
- BigInts.BigIntContext.FreeHandle: assumes that not all 2^32 handles are taken, since the search would then not end.
- WasmMemory.Memory.MemStore: whether the instance agrees to grow is a parameter.
- WasmMemory.ArgumentsRoundTrip: assumes fewer than 2^29 arguments, the bound at which the size of the length table wraps.
- StorageBytes.StoreGasExact: requires that neither the price of a write nor the counter saturates.
