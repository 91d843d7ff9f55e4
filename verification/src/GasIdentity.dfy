/** The gas identity: over every tree of calls in which no transfer carries gas, and no callee
    overspends in its caller's context, each frame's accounts add up to what the frame was given,
    and each account is charged what its own frames burned. */
module GasIdentity {
  import opened Overflow
  import opened Types
  import opened Sums
  import opened Ledger
  import opened Frame
  import opened Calls
  import opened Conservation
  import opened Traces

  // ----- the specification: who burned what -----

  /** What a started frame adds to the gas report: the reports of its own committed calls, and
      on the running address the preparation cost and the gas burned directly. */
  ghost function FrameReport(w: World, depth: nat, p: Active, c: Contract): map<Address, int>
    decreases c, 1
  {
    AddMaps(InnerGas(w, depth, p, c), map[p.rt.scAddress := p.meter.initialCost + OwnGas(w, depth, p, c)])
  }

  ghost function InnerGas(w: World, depth: nat, p: Active, c: Contract): map<Address, int>
    decreases c, 0
  {
    if c.entry.Found? then CommittedGas(w, depth, p, c.body) else map[]
  }

  ghost function OwnGas(w: World, depth: nat, p: Active, c: Contract): int
    decreases c, 0
  {
    if c.entry.Found? then BurnedGas(w, depth, p, c.body) else 0
  }

  /** The state in which a called contract starts to run. */
  ghost function StartOf(w: World, depth: nat, a: Active, input: CallInput, c: Contract, shared: bool): Active {
    Prepare(w, depth + 1, Paid(w, a, input, shared).state, input, c.starts).state
  }

  ghost function Report(w: World, depth: nat, a: Active, input: CallInput, c: Contract, shared: bool): map<Address, int>
    decreases c, 2
  {
    FrameReport(w, depth + 1, StartOf(w, depth, a, input, c, shared), c)
  }

  /** A failed call reports nothing; its gas was burned by the caller. */
  ghost function ReportIfCommitted(
    w: World, depth: nat, a: Active, input: CallInput, c: Contract, shared: bool): map<Address, int>
    decreases c, 3
  {
    if Call(w, depth, a, input, c, shared).err.None? then Report(w, depth, a, input, c, shared) else map[]
  }

  ghost function BurnedByCall(w: World, depth: nat, a: Active, input: CallInput, c: Contract, shared: bool): int {
    var o := Call(w, depth, a, input, c, shared);
    if o.err.None? then 0 else o.state.points - a.points
  }

  ghost function ActionReport(w: World, depth: nat, a: Active, act: Action): map<Address, int>
    decreases act
  {
    if MakesCall(w, a, act) then ReportIfCommitted(w, depth, ActionFrom(a, act), ActionInput(a, act), act.callee,
                                                   act.CallSame?)
    else map[]
  }

  ghost function BurnedByAction(w: World, depth: nat, a: Active, act: Action): int {
    if MakesCall(w, a, act) then BurnedByCall(w, depth, ActionFrom(a, act), ActionInput(a, act), act.callee,
                                              act.CallSame?)
    else Do(w, depth, a, act).points - a.points
  }

  /** The reports of all calls committed along a run, added up. */
  ghost function CommittedGas(w: World, depth: nat, a: Active, p: Program): map<Address, int>
    decreases p
  {
    match p
    case Step(act, rest) => AddMaps(ActionReport(w, depth, a, act), CommittedGas(w, depth, Do(w, depth, a, act), rest))
    case End(e) => if e.AsyncCall? then AsyncCommittedGas(w, depth, a, e) else map[]
  }

  /** The gas a run burned directly: its own operations and the calls that failed. */
  ghost function BurnedGas(w: World, depth: nat, a: Active, p: Program): int
    decreases p
  {
    match p
    case Step(act, rest) => BurnedByAction(w, depth, a, act) + BurnedGas(w, depth, Do(w, depth, a, act), rest)
    case End(e) => if e.AsyncCall? then AsyncBurnedGas(w, depth, a, e) else 0
  }

  ghost function AsyncCommittedGas(w: World, depth: nat, a: Active, e: Ending): map<Address, int>
    requires e.AsyncCall?
    decreases e
  {
    var s := AsyncStart(w, a, e);
    if s.err.Some? || s.state.rt.asyncInfo.None? then map[] else
    var info := s.state.rt.asyncInfo.value;
    var input := DestinationInput(s.state, info, e.name);
    var o := Dest(w, depth, s.state, input, e.callee);
    AddMaps(ReportIfCommitted(w, depth, s.state, input, e.callee, false),
            if CallbackGas(o, info) <= CallbackCost(w, o) then map[] else
            var back := RestoreGas(o.state, info.gasLocked);
            ReportIfCommitted(w, depth, back, CallbackInput(w, back, info, o), e.callback, false))
  }

  /** The step is always burned, the lock only when the callback cannot be paid for. */
  ghost function AsyncBurnedGas(w: World, depth: nat, a: Active, e: Ending): int
    requires e.AsyncCall?
  {
    var s := AsyncStart(w, a, e);
    if s.err.Some? || s.state.rt.asyncInfo.None? then s.state.points - a.points else
    var info := s.state.rt.asyncInfo.value;
    var input := DestinationInput(s.state, info, e.name);
    var o := Dest(w, depth, s.state, input, e.callee);
    w.schedule.asyncCallStep + BurnedByCall(w, depth, s.state, input, e.callee, false) +
    if CallbackGas(o, info) <= CallbackCost(w, o) then info.gasLocked else
    var back := RestoreGas(o.state, info.gasLocked);
    BurnedByCall(w, depth, back, CallbackInput(w, back, info, o), e.callback, false)
  }

  // ----- the trees the identity is about -----

  /** No transfer carries gas, and every asynchronous call is local. */
  ghost predicate GasFree(w: World, p: Program)
    decreases p
  {
    match p
    case Step(act, rest) => GasFreeAction(w, act) && GasFree(w, rest)
    case End(e) =>
      e.AsyncCall? ==> GetCode(w, e.destination).err.None? && GasFree(w, e.callee.body) && GasFree(w, e.callback.body)
  }

  ghost predicate GasFreeAction(w: World, act: Action)
    decreases act
  {
    && (act.SendValue? ==> act.transferGas == 0)
    && (act.CallDest? || act.CallSame? ==> GasFree(w, act.callee.body))
  }

  ghost predicate NoTransferGas(accounts: Accounts) {
    forall x :: x in accounts ==> TransferGas(accounts[x].transfers) == 0
  }

  /** What holds of a frame throughout its run. */
  ghost predicate GasInvariant(a: Active) {
    && NoTransferGas(a.out.accounts)
    && a.meter.used.Keys <= a.out.accounts.Keys
    && SumMap(a.meter.used) <= a.points
    && a.meter.initialCost + a.meter.forExecution <= a.meter.provided <= MAX_INT64
  }

  /** All the gas the frame was given was visible when its execution gas was computed. */
  ghost predicate NothingLocked(a: Active) {
    a.meter.initialCost + a.meter.forExecution == a.meter.provided
  }

  function Max(x: int, y: int): int {
    if x < y then y else x
  }

  // ----- closing one frame -----

  function Carried(accounts: Accounts): map<Address, int> {
    map x | x in accounts :: TransferGas(accounts[x].transfers)
  }

  /** All the gas carried by the transfers on record. */
  ghost function CarriedGas(accounts: Accounts): int {
    SumMap(Carried(accounts))
  }

  lemma NothingCarried(accounts: Accounts)
    requires NoTransferGas(accounts)
    ensures CarriedGas(accounts) == 0
  {
    SumSupport(map[], Carried(accounts));
  }

  /** The gas map spread over the accounts, without the running one. */
  function Others(accounts: Accounts, used: GasMap, self: Address): map<Address, int> {
    map x | x in accounts :: if x != self then At(used, x) else 0
  }

  lemma OthersSum(accounts: Accounts, used: GasMap, self: Address)
    requires used.Keys <= accounts.Keys + {self} && self in accounts
    ensures SumMap(Others(accounts, used, self)) == SumMap(used) - At(used, self)
  {
    SumPut(used, self, 0);
    SumSupport(used[self := 0], Others(accounts, used, self));
  }

  /** The sum over the other accounts: their gas, and everybody's transfers. */
  lemma OthersAreTheRest(accounts: Accounts, used: GasMap, self: Address)
    requires used.Keys <= accounts.Keys + {self} && self in accounts
    ensures SumMap(OthersGas(accounts, used, self)) == SumMap(used) - At(used, self) + CarriedGas(accounts)
  {
    OthersSum(accounts, used, self);
    SumPointwise(Others(accounts, used, self), Carried(accounts), OthersGas(accounts, used, self));
  }

  lemma ReportIsUsed(accounts: Accounts, used: GasMap)
    requires used.Keys <= accounts.Keys
    ensures SumMap(ReportedGas(SetGasUsed(accounts, used))) == SumMap(used) + CarriedGas(accounts)
  {
    var set_ := SetGasUsed(accounts, used);
    SumSupport(used, GasReport(set_));
    SumPointwise(GasReport(set_), Carried(accounts), ReportedGas(set_));
  }

  /** The running contract is charged its preparation and whatever the others were not. */
  ghost predicate Charged(a: Active, b: Active) {
    var self := a.rt.scAddress;
    && b.meter.used.Keys == a.meter.used.Keys + {self}
    && (forall x :: x != self ==> At(b.meter.used, x) == At(a.meter.used, x))
    && At(b.meter.used, self) == a.meter.initialCost + a.points - (SumMap(a.meter.used) - At(a.meter.used, self))
    && b.out.accounts == SetGasUsed(Ensure(a.out.accounts, self), b.meter.used)
  }

  lemma KnownNoGas(accounts: Accounts, x: Address)
    requires NoTransferGas(accounts)
    ensures NoTransferGas(Ensure(accounts, x)) && TransferGas(Ensure(accounts, x)[x].transfers) == 0
  {
  }

  lemma ClosedCharge(a: Active)
    requires GasInvariant(a)
    ensures Charged(a, CloseGas(a))
  {
    hide SetGasUsed, GasLeft, SumMap, CarriedGas, NoTransferGas, TransferGas;
    var known := Ensure(a.out.accounts, a.rt.scAddress);
    SumNonNegative(a.meter.used);
    KnownNoGas(a.out.accounts, a.rt.scAddress);
    NothingCarried(known);
    OthersAreTheRest(known, a.meter.used, a.rt.scAddress);
  }

  /** After closing, the gas map adds up to everything the contract spent. */
  lemma ClosedGas(a: Active)
    requires GasInvariant(a)
    ensures var b := CloseGas(a);
            && SumMap(b.meter.used) == a.meter.initialCost + a.points
            && b.meter.used.Keys <= b.out.accounts.Keys
            && NoTransferGas(b.out.accounts)
            && SumMap(ReportedGas(b.out.accounts)) == a.meter.initialCost + a.points
  {
    var self, b := a.rt.scAddress, CloseGas(a);
    ClosedCharge(a);
    assert b.meter.used == a.meter.used[self := b.meter.used[self]];
    SumPut(a.meter.used, self, b.meter.used[self]);
    NothingCarried(Ensure(a.out.accounts, self));
    ReportIsUsed(Ensure(a.out.accounts, self), b.meter.used);
  }

  lemma GasMatchesExact(a: Active)
    requires GasInvariant(a)
    ensures CloseGas(a).meter.used.Keys <= CloseGas(a).out.accounts.Keys
    ensures GasMatches(CloseGas(a)) <==> a.meter.initialCost + Max(a.points, a.meter.forExecution) == a.meter.provided
    ensures SumMap(ReportedGas(CloseGas(a).out.accounts)) == a.meter.initialCost + a.points
  {
    ClosedGas(a);
    ClosedRemaining(a);
  }

  lemma ClosedRemaining(a: Active)
    ensures CloseGas(a).out == a.out.(accounts := CloseGas(a).out.accounts, gasRemaining := GasLeft(a))
    ensures CloseGas(a).meter == a.meter.(used := CloseGas(a).meter.used)
  {
  }

  /** The runtime check accepts a frame exactly when what it spent, or else its execution gas,
      makes up for all the gas provided. */
  lemma CheckGasExact(w: World, a: Active)
    requires GasInvariant(a) && a.out.code == Ok
    ensures GetVMOutput(w, a).vm.code == Ok <==>
              a.meter.initialCost
              + Max(a.points, a.meter.forExecution) == a.meter.provided
  {
    hide CloseGas, GasMatches, GasInvariant;
    GasMatchesExact(a);
    ClosedRemaining(a);
  }

  /** With nothing locked: exactly when the frame stayed within its execution gas. The accounts
      then add up to the gas provided. */
  lemma CheckGasUnlocked(w: World, a: Active)
    requires GasInvariant(a) && NothingLocked(a) && a.out.code == Ok
    ensures GetVMOutput(w, a).vm.code == Ok <==> a.points <= a.meter.forExecution
    ensures a.points <= a.meter.forExecution ==>
              && GetVMOutput(w, a) == Output(CloseGas(a), CloseGas(a).out)
              && SumMap(ReportedGas(CloseGas(a).out.accounts)) + CloseGas(a).out.gasRemaining == a.meter.provided
              && CloseGas(a).out.gasRemaining == a.meter.forExecution - a.points
  {
    CheckGasExact(w, a);
    GasMatchesExact(a);
    ClosedRemaining(a);
  }

  // ----- transfers that carry no gas -----

  lemma BalanceNoGas(w: World, a: Active, x: Address)
    requires NoTransferGas(a.out.accounts)
    ensures NoTransferGas(GetBalance(w, a, x).state.out.accounts)
  {
  }

  lemma TransferValueNoGas(w: World, a: Active, to: Address, from: Address, value: int, check: bool)
    requires NoTransferGas(a.out.accounts)
    ensures NoTransferGas(TransferValueOnly(w, a, to, from, value, check).state.out.accounts)
  {
    hide GetBalance, TransferGas;
    NothingInNew();
    BalanceNoGas(w, a, from);
  }

  lemma OneMore(transfers: seq<OutputTransfer>, transfer: OutputTransfer)
    ensures TransferGas(transfers + [transfer]) == TransferGas(transfers) + transfer.gasLimit + transfer.gasLocked
  {
    assert (transfers + [transfer])[..|transfers|] == transfers;
  }

  lemma NothingInNew()
    ensures TransferGas(NEW_ACCOUNT.transfers) == 0
  {
  }

  lemma TransferNoGas(w: World, a: Active, to: Address, from: Address, value: int, data: Bytes)
    requires NoTransferGas(a.out.accounts)
    ensures NoTransferGas(Transfer(w, a, to, from, 0, 0, value, data, DirectCall).state.out.accounts)
  {
    hide TransferValueOnly, TransferGas;
    TransferValueNoGas(w, a, to, from, value, false);
    var t := TransferValueOnly(w, a, to, from, value, false);
    NothingInNew();
    if t.err.None? {
      OneMore(Account(t.state.out.accounts, to).transfers, OutputTransfer(value, 0, 0, data, DirectCall, from));
    }
  }

  lemma OverlayNoGas(accounts: Accounts, x: Address, key: Bytes, value: Bytes)
    requires NoTransferGas(accounts)
    ensures NoTransferGas(PutOverlay(accounts, x, key, value))
  {
  }

  // ----- steps that stay in the frame -----

  /** `b` comes after `a`, with `committed` added to the gas map and `burned` spent besides. */
  ghost predicate Accounted(a: Active, b: Active, committed: map<Address, int>, burned: int) {
    && GasInvariant(b)
    && 0 <= burned && NonNegative(committed)
    && b.points == a.points + burned + SumMap(committed)
    && (forall x :: At(b.meter.used, x) == At(a.meter.used, x) + At(committed, x))
  }

  lemma AccountedTransitive(
    a: Active, b: Active, c: Active, m: map<Address, int>, n: map<Address, int>, burned: int, burned': int)
    requires Accounted(a, b, m, burned) && Accounted(b, c, n, burned')
    ensures Accounted(a, c, AddMaps(m, n), burned + burned')
  {
    SumAddMaps(m, n);
    forall x
      ensures At(c.meter.used, x) == At(a.meter.used, x) + At(AddMaps(m, n), x)
    {
      AddMapsAt(m, n, x);
      assert At(b.meter.used, x) == At(a.meter.used, x) + At(m, x);
      assert At(c.meter.used, x) == At(b.meter.used, x) + At(n, x);
    }
  }

  /** Steps that only burn gas and touch the ledger. */
  ghost predicate Burns(a: Active, b: Active) {
    && b.meter == a.meter
    && a.points <= b.points
    && a.out.accounts.Keys <= b.out.accounts.Keys
    && NoTransferGas(b.out.accounts)
  }

  lemma BurnsAccounted(a: Active, b: Active)
    requires GasInvariant(a) && Burns(a, b)
    ensures Accounted(a, b, map[], b.points - a.points)
  {
  }

  lemma StorageBurns(w: World, a: Active, x: Address, key: Bytes, value: Bytes, protection: bool)
    requires NoTransferGas(a.out.accounts)
    ensures Burns(a, GetStorage(w, a, key))
    ensures Burns(a, GetStorageFromAddress(w, a, x, key))
    ensures Burns(a, SetStorage(w, a, key, value, protection))
  {
    ReadTouches(w, a, x, key);
    SetStorageTouches(w, a, key, value, protection);
    StoragePoints(w, a, x, key, value, protection);
    OverlayNoGas(a.out.accounts, a.storageAddress, key, View(w, a.out.accounts, a.storageAddress, key));
    OverlayNoGas(a.out.accounts, x, key, View(w, a.out.accounts, x, key));
    OverlayNoGas(a.out.accounts, a.storageAddress, key, value);
  }

  lemma StoragePoints(w: World, a: Active, x: Address, key: Bytes, value: Bytes, protection: bool)
    ensures a.points <= GetStorage(w, a, key).points
    ensures a.points <= GetStorageFromAddress(w, a, x, key).points
    ensures a.points <= SetStorage(w, a, key, value, protection).points
  {
    if WriteAllowed(w, a, key, protection) {
      var a1 := ChargeKey(w, a, key);
      var a2 := SetAccounts(a1, PutOverlay(a1.out.accounts, a1.storageAddress, key, value));
      WritePoints(w, a2, View(w, a1.out.accounts, a1.storageAddress, key), value);
      KeyPoints(w, a, key);
      assert SetStorage(w, a, key, value, protection) == ChargeWrite(w, a2,
                                                                     View(w, a1.out.accounts, a1.storageAddress, key),
                                                                     value);
    }
    ReadPoints(w, a, x, key);
  }

  lemma KeyPoints(w: World, a: Active, key: Bytes)
    ensures a.points <= ChargeKey(w, a, key).points
  {
  }

  lemma ReadPoints(w: World, a: Active, x: Address, key: Bytes)
    ensures a.points <= GetStorage(w, a, key).points
    ensures a.points <= GetStorageFromAddress(w, a, x, key).points
  {
    KeyPoints(w, a, key);
  }

  lemma WritePoints(w: World, a: Active, old_: Bytes, value: Bytes)
    ensures a.points <= ChargeWrite(w, a, old_, value).points
  {
  }

  lemma SendBurns(w: World, a: Active, to: Address, value: int, data: Bytes)
    requires NoTransferGas(a.out.accounts)
    ensures Burns(a, Transfer(w, a, to, a.rt.scAddress, 0, 0, value, data, DirectCall).state)
  {
    hide Transfer, TransferGas;
    TransferNoGas(w, a, to, a.rt.scAddress, value, data);
    TransferOnly(w, a, to, a.rt.scAddress, 0, 0, value, data, DirectCall);
    TransferEvolves(w, a, to, a.rt.scAddress, 0, 0, value, data, DirectCall);
  }

  lemma LedgerActionBurns(w: World, depth: nat, a: Active, act: Action)
    requires NoTransferGas(a.out.accounts) && GasFreeAction(w, act) && TouchesLedger(act)
    ensures Burns(a, Do(w, depth, a, act))
  {
    hide Transfer, SetStorage, GetStorage, GetStorageFromAddress, GetBalance, Burns;
    match act
    case ReadStorage(key) => StorageBurns(w, a, [], key, [], true);
    case ReadStorageOf(x, key) => StorageBurns(w, a, x, key, [], true);
    case WriteStorage(key, data) => StorageBurns(w, a, [], key, data, true);
    case WriteProtected(key, data) => StorageBurns(w, a, [], key, data, false);
    case ReadBalance(x) => BalanceBurns(w, a, x);
    case SendValue(to, value, gas, data) => SendBurns(w, a, to, value, data);
  }

  lemma BalanceBurns(w: World, a: Active, x: Address)
    requires NoTransferGas(a.out.accounts)
    ensures Burns(a, GetBalance(w, a, x).state)
  {
    hide NoTransferGas;
    BalanceNoGas(w, a, x);
  }

  lemma SimpleActionBurns(w: World, depth: nat, a: Active, act: Action)
    requires NoTransferGas(a.out.accounts) && GasFreeAction(w, act) && !MakesCall(w, a, act)
    ensures Burns(a, Do(w, depth, a, act))
  {
    hide NoTransferGas, Transfer, SetStorage, GetStorage, GetStorageFromAddress, GetBalance, Dest, Same;
    if TouchesLedger(act) {
      LedgerActionBurns(w, depth, a, act);
    } else if act.CallDest? || act.CallSame? {
      DoesNotCall(w, depth, a, act);
    }
  }

  // ----- nested calls -----

  /** An input whose gas is all visible and covered by the caller. */
  ghost predicate Covered(a: Active, input: CallInput) {
    && (input.vm.callType == AsynchronousCallBack ==> input.vm.gasLocked == 0)
    && input.vm.gasProvided <= GasLeft(a)
  }

  lemma CoveredFits(a: Active, input: CallInput)
    requires GasInvariant(a) && Covered(a, input)
    ensures UseGas(a, input.vm.gasProvided).points == a.points + input.vm.gasProvided <= MAX_INT64
    ensures ProvidedGas(input.vm) == input.vm.gasProvided
  {
    SumNonNegative(a.meter.used);
  }

  /** Entering and paying changes neither the gas counter nor the frame's meter. */
  lemma PaidFrame(w: World, a: Active, input: CallInput, shared: bool)
    ensures var s := Paid(w, a, input, shared).state;
            && s.points == a.points && s.meter == InitMeter(input.vm) && s.rt.input == input.vm
            && s.rt.scAddress == input.recipient
    ensures NoTransferGas(a.out.accounts) ==> NoTransferGas(Paid(w, a, input, shared).state.out.accounts)
  {
    hide TransferValueOnly, TransferGas;
    var entered := Entered(a, input, shared);
    PaysOnly(w, entered, input.recipient, input.vm.caller, input.vm.value, false);
    if NoTransferGas(a.out.accounts) {
      TransferValueNoGas(w, entered, input.recipient, input.vm.caller, input.vm.value, false);
    }
  }

  /** A prepared frame starts with an empty gas map, no points used, and cost plus execution gas
      equal to what was provided. */
  lemma PreparedFrame(w: World, depth: nat, a: Active, input: CallInput, starts: bool)
    requires a.meter == InitMeter(input.vm) && a.rt.input == input.vm
             && ProvidedGas(input.vm) == input.vm.gasProvided <= MAX_INT64
    requires NoTransferGas(a.out.accounts) && a.points + input.vm.gasProvided <= MAX_INT64
    ensures var p := Prepare(w, depth, a, input, starts);
            && (p.err.None? ==>
                  GasInvariant(p.state) && NothingLocked(p.state) && p.state.points == 0
                  && p.state.meter.used == map[]
                  && p.state.meter.provided == input.vm.gasProvided
                  && p.callerPoints == a.points + input.vm.gasProvided)
            && (p.callerPoints == a.points || p.callerPoints == a.points + input.vm.gasProvided)
  {
  }

  /** The frame of a call, started and run to its end. */
  ghost predicate FrameAccounted(w: World, depth: nat, a: Active, input: CallInput, c: Contract, shared: bool) {
    var e := CallExecution(w, depth, a, input, c, shared);
    var p := StartOf(w, depth, a, input, c, shared);
    e.err.None? ==>
      && FrameRan(p, e.state, InnerGas(w, depth + 1, p, c), OwnGas(w, depth + 1, p, c))
      && e.state.meter.provided == input.vm.gasProvided
      && e.callerPoints == a.points + input.vm.gasProvided
  }

  /** A frame from its start `p` to its end `e`. */
  ghost predicate FrameRan(p: Active, e: Active, inner: map<Address, int>, own: int) {
    && Accounted(p, e, inner, own)
    && p.meter.used == map[] && p.points == 0
    && e.meter.(used := map[]) == p.meter && NothingLocked(e)
    && e.rt.scAddress == p.rt.scAddress
  }

  lemma {:induction false} FrameGas(w: World, depth: nat, a: Active, input: CallInput, c: Contract, shared: bool)
    requires GasInvariant(a) && Covered(a, input) && GasFree(w, c.body)
    requires SharedWithin(TraceCall(w, depth, a, input, c, shared))
    ensures FrameAccounted(w, depth, a, input, c, shared)
    ensures var e := CallExecution(w, depth, a, input, c, shared);
            e.callerPoints == a.points || e.callerPoints == a.points + input.vm.gasProvided
    decreases c, 1
  {
    hide Accounted, Prepare, Paid, CallExecution, UseGas, Run, GasFree, CommittedGas, BurnedGas, NoTransferGas,
      SharedWithin, TraceCall;
    var pay := Paid(w, a, input, shared);
    CallExecutionIs(w, depth, a, input, c, shared);
    PaidFrame(w, a, input, shared);
    CoveredFits(a, input);
    CallWithin(w, depth, a, input, c, shared);
    if pay.err.None? {
      PreparedFrame(w, depth + 1, pay.state, input, c.starts);
      PreparedAddress(w, depth + 1, pay.state, input, c.starts);
      var p := Prepare(w, depth + 1, pay.state, input, c.starts);
      if p.err.None? {
        if c.entry.Found? {
          ExecuteWithin(w, depth + 1, pay.state, input, c);
        }
        StartedGas(w, depth + 1, p.state, c);
      }
    }
  }

  lemma {:induction false} StartedGas(w: World, depth: nat, p: Active, c: Contract)
    requires GasInvariant(p) && GasFree(w, c.body)
    requires c.entry.Found? ==> SharedWithin(Trace(w, depth, p, c.body))
    ensures c.entry.Found? ==>
              var b := Run(w, depth, p, c.body).state;
              && Accounted(p, b, CommittedGas(w, depth, p, c.body), BurnedGas(w, depth, p, c.body))
              && b.meter.(used := p.meter.used) == p.meter && b.rt.scAddress == p.rt.scAddress
    ensures Accounted(p, p, map[], 0)
    decreases c, 0
  {
    BurnsAccounted(p, p);
    if c.entry.Found? {
      RunGas(w, depth, p, c.body);
      RunEvolves(w, depth, p, c.body);
    }
  }

  lemma PreparedAddress(w: World, depth: nat, a: Active, input: CallInput, starts: bool)
    ensures Prepare(w, depth, a, input, starts).state.rt == a.rt
  {
  }

  /** The report of a committed frame is its closed gas map. */
  lemma ClosedReport(w: World, depth: nat, p: Active, e: Active, closed: Active, c: Contract)
    requires FrameRan(p, e, InnerGas(w, depth, p, c), OwnGas(w, depth, p, c)) && Charged(e, closed)
    ensures Reports(closed, FrameReport(w, depth, p, c))
  {
    hide InnerGas, OwnGas, FrameRan, Charged, Reports, AddMaps;
    RunReport(p, e, closed, InnerGas(w, depth, p, c), OwnGas(w, depth, p, c));
  }

  ghost predicate Reports(closed: Active, report: map<Address, int>) {
    && (forall x :: At(closed.meter.used, x) == At(report, x))
    && SumMap(report) == SumMap(closed.meter.used)
    && NonNegative(report)
  }

  /** Closing adds, to what was committed, the preparation and the burned gas on the contract itself. */
  lemma RunReport(p: Active, e: Active, closed: Active, inner: map<Address, int>, own: int)
    requires FrameRan(p, e, inner, own) && Charged(e, closed)
    ensures Reports(closed, AddMaps(inner, map[p.rt.scAddress := p.meter.initialCost + own]))
  {
    var self, charge := p.rt.scAddress, p.meter.initialCost + own;
    SameSum(e.meter.used, inner);
    ChargeAdded(e.meter.used, closed.meter.used, inner, self, charge);
    SameSum(closed.meter.used, AddMaps(inner, map[self := charge]));
  }

  lemma ChargeAdded(before: GasMap, after: GasMap, inner: map<Address, int>, self: Address, charge: int)
    requires 0 <= charge && NonNegative(inner)
    requires forall x :: At(before, x) == At(inner, x)
    requires forall x :: x != self ==> At(after, x) == At(before, x)
    requires At(after, self) == At(before, self) + charge
    ensures forall x :: At(after, x) == At(AddMaps(inner, map[self := charge]), x)
    ensures NonNegative(AddMaps(inner, map[self := charge]))
  {
    forall x
      ensures At(after, x) == At(AddMaps(inner, map[self := charge]), x)
    {
      AddMapsAt(inner, map[self := charge], x);
      assert At(before, x) == At(inner, x);
    }
  }

  /** Maps that agree as functions have equal sums. */
  lemma SameSum(m: map<Address, int>, n: map<Address, int>)
    requires forall x :: At(m, x) == At(n, x)
    ensures SumMap(m) == SumMap(n)
  {
    var both := map x | x in m.Keys + n.Keys :: At(m, x);
    SumSupport(m, both);
    forall x | x in both
      ensures both[x] == At(n, x)
    {
      assert At(m, x) == At(n, x);
    }
    SumSupport(n, both);
  }

  /** Below the cap, merging gas maps is plain addition. */
  lemma MergeGasIsSum(child: GasMap, parent: GasMap)
    requires SumMap(child) + SumMap(parent) <= MAX_UINT64
    ensures MergeGas(child, parent) == AddMaps(child, parent)
    ensures SumMap(MergeGas(child, parent)) == SumMap(child) + SumMap(parent)
  {
    forall x | x in child.Keys + parent.Keys
      ensures Wrap64(At(child, x) + At(parent, x)) == At(child, x) + At(parent, x)
    {
      AtMostSum(child, x);
      AtMostSum(parent, x);
    }
    var merged: map<Address, int> := MergeGas(child, parent);
    assert merged.Keys == AddMaps(child, parent).Keys;
    assert forall x :: x in merged ==> merged[x] == AddMaps(child, parent)[x];
    SumAddMaps(child, parent);
  }

  lemma AtMostSum(m: GasMap, x: Address)
    ensures 0 <= At(m, x) <= SumMap(m)
  {
    SumNonNegative(m);
  }

  /** A nested call of either kind costs its caller exactly what it reports, and all it was given
      if it fails. */
  lemma {:induction false} CallGas(w: World, depth: nat, a: Active, input: CallInput, c: Contract, shared: bool)
    requires GasInvariant(a) && Covered(a, input) && GasFree(w, c.body)
    requires SharedWithin(TraceCall(w, depth, a, input, c, shared))
    ensures Accounted(a, Call(w, depth, a, input, c, shared).state,
                      ReportIfCommitted(w, depth, a, input, c, shared), BurnedByCall(w, depth, a, input, c, shared))
    decreases c, 2
  {
    hide GasInvariant, Covered, Accounted, TraceCall, SharedWithin, Call, GasFree, Report;
    FrameGas(w, depth, a, input, c, shared);
    CallWithin(w, depth, a, input, c, shared);
    CallEnds(w, depth, a, input, c, shared);
    if Call(w, depth, a, input, c, shared).err.Some? {
      FailedGas(w, depth, a, input, c, shared);
    } else {
      CommittedCallGas(w, depth, a, input, c, shared);
    }
  }

  /** A committed callee ended without error, within its gas unless it shared its caller's context. */
  lemma CallEnds(w: World, depth: nat, a: Active, input: CallInput, c: Contract, shared: bool)
    ensures var e := CallExecution(w, depth, a, input, c, shared);
            Call(w, depth, a, input, c, shared).err.None? ==>
              && e.err.None? && e.state.out.code == Ok && (!shared ==> GetVMOutput(w, e.state).vm.code == Ok)
  {
    hide Execute, GetVMOutput, CreateErrorOutput, Merge, MergeGas, PayCall, TransferValueOnly;
    ExecutionCode(w, depth, a, input, c, shared);
    if !shared {
      ErrorOutputCode(w, depth, a, input, c);
      FailedCode(w, CallExecution(w, depth, a, input, c, shared));
    }
  }

  lemma FailedCode(w: World, e: Execution)
    ensures e.err.Some? ==> CreateErrorOutput(w, e.state, e.err.value).vm.code != Ok
  {
  }

  /** A failed call of either kind leaves its caller as it was, but for the gas paid. */
  lemma FailedCall(w: World, depth: nat, a: Active, input: CallInput, c: Contract, shared: bool)
    requires Call(w, depth, a, input, c, shared).err.Some?
    ensures var e := CallExecution(w, depth, a, input, c, shared);
            Call(w, depth, a, input, c, shared).state == a.(points := e.callerPoints, codeSize := e.state.codeSize)
  {
    hide Execute, GetVMOutput, CreateErrorOutput, Merge, MergeGas, PayCall, TransferValueOnly;
    if shared {
      SameRollsBack(w, depth, a, input, c);
    } else {
      DestRollsBack(w, depth, a, input, c);
    }
  }

  lemma FailedGas(w: World, depth: nat, a: Active, input: CallInput, c: Contract, shared: bool)
    requires GasInvariant(a) && Covered(a, input)
    requires Call(w, depth, a, input, c, shared).err.Some?
    requires var e := CallExecution(w, depth, a, input, c, shared);
             e.callerPoints == a.points || e.callerPoints == a.points + input.vm.gasProvided
    ensures var o := Call(w, depth, a, input, c, shared);
            && Accounted(a, o.state, map[], BurnedByCall(w, depth, a, input, c, shared))
            && (o.state.points == a.points || o.state.points == a.points + input.vm.gasProvided)
  {
    hide Call, CallExecution;
    FailedCall(w, depth, a, input, c, shared);
    CoveredFits(a, input);
    BurnsAccounted(a, Call(w, depth, a, input, c, shared).state);
  }

  /** What a caller keeps of a committed call of either kind. */
  ghost predicate Kept(a: Active, child: Active, callerPoints: Points, b: Active) {
    && b.out.accounts == child.out.accounts
    && b.meter == a.meter.(used := MergeGas(child.meter.used, a.meter.used))
    && Extends(a.out.accounts, b.out.accounts)
    && b.points == if child.out.gasRemaining <= callerPoints then callerPoints - child.out.gasRemaining
      else callerPoints
  }

  lemma CommittedKept(w: World, depth: nat, a: Active, input: CallInput, c: Contract, shared: bool)
    requires Call(w, depth, a, input, c, shared).err.None?
    requires var e := CallExecution(w, depth, a, input, c, shared);
             GetVMOutput(w, e.state) == Output(CloseGas(e.state), CloseGas(e.state).out)
    ensures var e := CallExecution(w, depth, a, input, c, shared);
            Kept(a, CloseGas(e.state), e.callerPoints, Call(w, depth, a, input, c, shared).state)
  {
    hide Execute, CreateErrorOutput, CloseGas, GetVMOutput, PayCall, TransferValueOnly, MergeAccounts, MergeGas,
      Extends;
    CallEnds(w, depth, a, input, c, shared);
    CallEvolves(w, depth, a, input, c, shared);
    if shared {
      SameCommits(w, depth, a, input, c);
      SamePoints(w, depth, a, input, c);
    } else {
      DestCommits(w, depth, a, input, c);
      DestPoints(w, depth, a, input, c);
      ErrorOutputCode(w, depth, a, input, c);
    }
  }

  lemma CommittedCallGas(w: World, depth: nat, a: Active, input: CallInput, c: Contract, shared: bool)
    requires GasInvariant(a) && Covered(a, input) && FrameAccounted(w, depth, a, input, c, shared)
    requires Call(w, depth, a, input, c, shared).err.None?
    requires var e := CallExecution(w, depth, a, input, c, shared);
             && e.err.None? && e.state.out.code == Ok
             && (shared ==> e.state.points <= e.state.meter.forExecution)
               && (!shared ==> GetVMOutput(w, e.state).vm.code == Ok)
    ensures Accounted(a, Call(w, depth, a, input, c, shared).state, Report(w, depth, a, input, c, shared), 0)
  {
    hide Call, CallExecution, GetVMOutput, CloseGas, InnerGas, OwnGas, StartOf, FrameReport;
    var e := CallExecution(w, depth, a, input, c, shared);
    CheckGasUnlocked(w, e.state);
    ClosedGas(e.state);
    ClosedCharge(e.state);
    ClosedReport(w, depth + 1, StartOf(w, depth, a, input, c, shared), e.state, CloseGas(e.state), c);
    CommittedKept(w, depth, a, input, c, shared);
    CoveredFits(a, input);
    MergedGas(a, CloseGas(e.state), e.callerPoints, Call(w, depth, a, input, c, shared).state,
              Report(w, depth, a, input, c, shared));
  }

  lemma MergedGas(a: Active, child: Active, callerPoints: Points, b: Active, report: map<Address, int>)
    requires GasInvariant(a) && Kept(a, child, callerPoints, b)
    requires NoTransferGas(child.out.accounts) && child.meter.used.Keys <= child.out.accounts.Keys
    requires Reports(child, report)
    requires b.points == a.points + SumMap(report) <= MAX_INT64
    ensures Accounted(a, b, report, 0)
  {
    MergeGasIsSum(child.meter.used, a.meter.used);
    forall x
      ensures At(b.meter.used, x) == At(a.meter.used, x) + At(report, x)
    {
      AddMapsAt(child.meter.used, a.meter.used, x);
      assert At(child.meter.used, x) == At(report, x);
    }
  }

  lemma SamePoints(w: World, depth: nat, a: Active, input: CallInput, c: Contract)
    ensures var e := SameExecution(w, depth, a, input, c); var remaining := GetVMOutput(w, e.state).vm.gasRemaining;
            e.err.None? && e.state.out.code == Ok ==>
              Same(w, depth, a, input, c).state.points == if remaining <= e.callerPoints then e.callerPoints - remaining
                else e.callerPoints
  {
    hide GetVMOutput, Execute, TransferValueOnly, MergeGas;
  }

  /** The same for a destination-context call, with what its output says. */
  lemma {:induction false} DestGas(w: World, depth: nat, a: Active, input: CallInput, c: Contract)
    requires GasInvariant(a) && Covered(a, input) && GasFree(w, c.body)
    requires SharedWithin(TraceCall(w, depth, a, input, c, false))
    ensures var o := Dest(w, depth, a, input, c);
            && Accounted(a, o.state, ReportIfCommitted(w, depth, a, input, c, false),
                         BurnedByCall(w, depth, a, input, c, false))
            && o.vm.gasRemaining <= input.vm.gasProvided
            && (o.err.None? ==> o.state.points == a.points + input.vm.gasProvided - o.vm.gasRemaining)
            && (o.err.Some? ==> o.vm.gasRemaining == 0
                                && (o.state.points == a.points || o.state.points == a.points + input.vm.gasProvided))
    decreases c, 3
  {
    hide GetVMOutput, CloseGas, Execute, PayCall, Accounted, ReportIfCommitted, TraceCall, SharedWithin, FrameAccounted,
      GasFree;
    CallGas(w, depth, a, input, c, false);
    FrameGas(w, depth, a, input, c, false);
    DestRemaining(w, depth, a, input, c);
  }

  lemma DestRemaining(w: World, depth: nat, a: Active, input: CallInput, c: Contract)
    requires GasInvariant(a) && Covered(a, input) && FrameAccounted(w, depth, a, input, c, false)
    requires var e := DestExecution(w, depth, a, input, c);
             e.callerPoints == a.points || e.callerPoints == a.points + input.vm.gasProvided
    ensures var o := Dest(w, depth, a, input, c);
            && o.vm.gasRemaining <= input.vm.gasProvided
            && (o.err.None? ==> o.state.points == a.points + input.vm.gasProvided - o.vm.gasRemaining)
            && (o.err.Some? ==> o.vm.gasRemaining == 0
                                && (o.state.points == a.points || o.state.points == a.points + input.vm.gasProvided))
  {
    hide Dest, GetVMOutput, CloseGas, Execute, PayCall, InnerGas, OwnGas, StartOf, NoTransferGas;
    var e := DestExecution(w, depth, a, input, c);
    ErrorOutputCode(w, depth, a, input, c);
    DestPoints(w, depth, a, input, c);
    CoveredFits(a, input);
    CallEnds(w, depth, a, input, c, false);
    if Dest(w, depth, a, input, c).err.None? {
      CheckGasUnlocked(w, e.state);
    } else {
      FailedCall(w, depth, a, input, c, false);
    }
  }

  lemma DestPoints(w: World, depth: nat, a: Active, input: CallInput, c: Contract)
    ensures var o := Dest(w, depth, a, input, c); var e := DestExecution(w, depth, a, input, c);
            o.state.points == if o.vm.gasRemaining <= e.callerPoints then e.callerPoints - o.vm.gasRemaining
              else e.callerPoints
  {
    hide GetVMOutput, CreateErrorOutput, Execute, PayCall, Merge, MergeGas;
  }

  lemma {:induction false} RunGas(w: World, depth: nat, a: Active, p: Program)
    requires GasInvariant(a) && GasFree(w, p) && SharedWithin(Trace(w, depth, a, p))
    ensures Accounted(a, Run(w, depth, a, p).state, CommittedGas(w, depth, a, p), BurnedGas(w, depth, a, p))
    decreases p
  {
    hide Accounted, GasInvariant, Do, RunAsync, SharedWithin, ActionReport, BurnedByAction, AsyncCommittedGas,
      AsyncBurnedGas, AddMaps, TraceAction, TraceAsync;
    match p
    case Step(act, rest) =>
      var b := Do(w, depth, a, act);
      StepWithin(w, depth, a, p);
      ActionGas(w, depth, a, act);
      AccountedInvariant(a, b, ActionReport(w, depth, a, act), BurnedByAction(w, depth, a, act));
      RunGas(w, depth, b, rest);
      AccountedTransitive(a, b, Run(w, depth, a, p).state,
                          ActionReport(w, depth, a, act), CommittedGas(w, depth, b, rest),
                          BurnedByAction(w, depth, a, act), BurnedGas(w, depth, b, rest));
    case End(e) =>
      if e.AsyncCall? {
        EndWithin(w, depth, a, e);
        AsyncGas(w, depth, a, e);
      } else {
        NothingAccounted(a);
      }
  }

  lemma AccountedInvariant(a: Active, b: Active, m: map<Address, int>, burned: int)
    requires Accounted(a, b, m, burned)
    ensures GasInvariant(b)
  {
  }

  lemma NothingAccounted(a: Active)
    requires GasInvariant(a)
    ensures Accounted(a, a, map[], 0)
  {
  }

  lemma EndWithin(w: World, depth: nat, a: Active, e: Ending)
    requires e.AsyncCall? && SharedWithin(Trace(w, depth, a, End(e)))
    ensures SharedWithin(TraceAsync(w, depth, a, e))
  {
    hide SharedWithin, TraceAsync;
    SharedSplit([Seen(a)], TraceAsync(w, depth, a, e));
  }

  lemma {:induction false} ActionGas(w: World, depth: nat, a: Active, act: Action)
    requires GasInvariant(a) && GasFreeAction(w, act) && SharedWithin(TraceAction(w, depth, a, act))
    ensures Accounted(a, Do(w, depth, a, act), ActionReport(w, depth, a, act), BurnedByAction(w, depth, a, act))
    decreases act
  {
    hide Do, Call, ReportIfCommitted, SharedWithin, TraceCall;
    if MakesCall(w, a, act) {
      CallGas(w, depth, ActionFrom(a, act), ActionInput(a, act), act.callee, act.CallSame?);
      DoesCall(w, depth, a, act);
    } else {
      SimpleActionBurns(w, depth, a, act);
      BurnsAccounted(a, Do(w, depth, a, act));
    }
  }

  // ----- asynchronous calls executed locally -----

  lemma LockIs(w: World, a: Active, e: Ending)
    requires e.AsyncCall? && a.meter.forExecution <= MAX_INT64
    ensures var l := LockGas(w, a, e.destination, e.data, e.value, e.hasCallback);
            && l.state == a.(points := l.state.points, rt := l.state.rt) && a.points <= l.state.points
            && (l.err.None? ==>
                  && l.state.rt.asyncInfo.Some?
                  && l.state.points == a.points + w.schedule.asyncCallStep + l.state.rt.asyncInfo.value.gasLocked
                  && l.state.points <= l.state.meter.forExecution)
  {
  }

  /** After the lock: the step and the lock are both on the caller's counter, within its gas. */
  lemma LockedGas(w: World, a: Active, e: Ending)
    requires e.AsyncCall? && GasInvariant(a)
    ensures var s := AsyncStart(w, a, e);
            && Burns(a, s.state)
            && (s.err.None? ==>
                  && s.state.rt.asyncInfo.Some?
                  && s.state.points == a.points + w.schedule.asyncCallStep + s.state.rt.asyncInfo.value.gasLocked
                  && s.state.points <= s.state.meter.forExecution)
  {
    hide LockGas, NoTransferGas;
    LockIs(w, a, e);
    KnownNoGas(a.out.accounts, e.destination);
  }

  /** The gas a callback gets is covered by the caller once the lock has been given back. */
  lemma CallbackCovered(w: World, a1: Active, o: Outcome, info: AsyncCallInfo)
    requires a1.points <= a1.meter.forExecution <= MAX_INT64 && info.gasLocked <= a1.points
    requires o.state.meter.forExecution == a1.meter.forExecution
    requires o.vm.gasRemaining <= GasLeft(a1)
    requires o.err.None? ==> o.state.points == a1.points + GasLeft(a1) - o.vm.gasRemaining
    requires o.err.Some? ==>
               o.vm.gasRemaining == 0
               && (o.state.points == a1.points || o.state.points == a1.points + GasLeft(a1))
    ensures CallbackGas(o, info) == o.vm.gasRemaining + info.gasLocked
    ensures CallbackGas(o, info) <= GasLeft(RestoreGas(o.state, info.gasLocked))
    ensures RestoreGas(o.state, info.gasLocked).points == o.state.points - info.gasLocked
  {
  }

  lemma ReportBurns(w: World, a: Active, vm: VMOutput)
    requires NoTransferGas(a.out.accounts)
    ensures Burns(a, ReportCallback(w, a, vm))
    ensures Burns(a, CreateErrorOutput(w, a, ErrNotEnoughGas).state)
    ensures CreateErrorOutput(w, a, ErrNotEnoughGas).state.points == a.points
  {
  }

  /** Giving back the lock leaves the step burned and everything else accounted for. */
  lemma LockReturned(w: World, a: Active, a1: Active, o: Outcome, lock: uint64, m: map<Address, int>, burned: int)
    requires GasInvariant(a) && a1.meter == a.meter && a1.points == a.points + w.schedule.asyncCallStep + lock
    requires Accounted(a1, o.state, m, burned)
    ensures Accounted(a, RestoreGas(o.state, lock), m, w.schedule.asyncCallStep + burned)
  {
    SumNonNegative(m);
    SumNonNegative(a.meter.used);
    AccountedSum(a1, o.state, m, burned);
  }

  lemma AccountedSum(a: Active, b: Active, m: map<Address, int>, burned: int)
    requires Accounted(a, b, m, burned)
    ensures SumMap(b.meter.used) == SumMap(a.meter.used) + SumMap(m)
  {
    SumAddMaps(a.meter.used, m);
    forall x
      ensures At(b.meter.used, x) == At(AddMaps(a.meter.used, m), x)
    {
      AddMapsAt(a.meter.used, m, x);
    }
    SameSum(b.meter.used, AddMaps(a.meter.used, m));
  }

  /** The charges of an asynchronous call, by its legs. */
  lemma AsyncChargesAre(w: World, depth: nat, a: Active, e: Ending)
    requires e.AsyncCall?
    ensures var s := AsyncStart(w, a, e);
            if s.err.Some? then
              AsyncCommittedGas(w, depth, a, e) == map[] && AsyncBurnedGas(w, depth, a, e) == s.state.points - a.points
            else
            && s.state.rt.asyncInfo.Some?
            && var info := s.state.rt.asyncInfo.value;
               var input := DestinationInput(s.state, info, e.name);
               var o := Dest(w, depth, s.state, input, e.callee);
               var m := ReportIfCommitted(w, depth, s.state, input, e.callee, false);
               var burned := w.schedule.asyncCallStep + BurnedByCall(w, depth, s.state, input, e.callee, false);
               if CallbackGas(o, info) <= CallbackCost(w, o) then
                 && AsyncCommittedGas(w, depth, a, e) == AddMaps(m, map[])
                 && AsyncBurnedGas(w, depth, a, e) == burned + info.gasLocked
               else
                 var back := RestoreGas(o.state, info.gasLocked);
                 var cbInput := CallbackInput(w, back, info, o);
                 && AsyncCommittedGas(w, depth, a, e)
                    == AddMaps(m, ReportIfCommitted(w, depth, back, cbInput, e.callback, false))
                 && AsyncBurnedGas(w, depth, a, e) == burned + BurnedByCall(w, depth, back, cbInput, e.callback, false)
  {
    hide Dest, BurnedByCall, ReportIfCommitted, CallbackGas, CallbackCost, AddMaps, AsyncStart, RestoreGas;
    AsyncIs(w, depth, a, e);
  }

  lemma {:induction false} StartedAsyncGas(w: World, depth: nat, a: Active, e: Ending)
    requires e.AsyncCall? && GasInvariant(a) && GasFree(w, End(e))
    requires var s := AsyncStart(w, a, e);
             && s.err.None? && s.state.rt.asyncInfo.Some? && GasInvariant(s.state) && s.state.meter == a.meter
             && s.state.points <= s.state.meter.forExecution
             && s.state.points == a.points + w.schedule.asyncCallStep + s.state.rt.asyncInfo.value.gasLocked
             && SharedWithin(TraceLegs(w, depth, s.state, s.state.rt.asyncInfo.value, e))
    ensures var s := AsyncStart(w, a, e).state;
            Accounted(a, CallLocally(w, depth, s, s.rt.asyncInfo.value, e),
                      AsyncCommittedGas(w, depth, a, e), AsyncBurnedGas(w, depth, a, e))
    decreases e, 1
  {
    hide Accounted, GasInvariant, Covered, AsyncStart, CallLocally, Dest, BurnedByCall, ReportIfCommitted, CallbackGas,
      CallbackCost, SharedWithin, AsyncCommittedGas, AsyncBurnedGas, GasFree, TraceLegs;
    var s := AsyncStart(w, a, e).state;
    AsyncChargesAre(w, depth, a, e);
    LocalGas(w, depth, a, s, s.rt.asyncInfo.value, e);
  }

  lemma {:induction false} AsyncGas(w: World, depth: nat, a: Active, e: Ending)
    requires e.AsyncCall? && GasInvariant(a) && GasFree(w, End(e)) && SharedWithin(TraceAsync(w, depth, a, e))
    ensures Accounted(a, RunAsync(w, depth, a, e).state, AsyncCommittedGas(w, depth, a, e),
                      AsyncBurnedGas(w, depth, a, e))
    decreases e, 2
  {
    hide Accounted, AsyncStart, RunAsync, CallLocally, GetCode, SharedWithin, AsyncCommittedGas, AsyncBurnedGas,
      TraceAsync, TraceLegs, NoTransferGas, SumMap, LockGas;
    var s := AsyncStart(w, a, e);
    LockedGas(w, a, e);
    BurnsAccounted(a, s.state);
    AsyncIs(w, depth, a, e);
    if s.err.Some? {
      AsyncChargesAre(w, depth, a, e);
    } else {
      AccountedInvariant(a, s.state, map[], s.state.points - a.points);
      AsyncWithin(w, depth, a, e);
      StartedAsyncGas(w, depth, a, e);
    }
  }

  lemma {:induction false} LocalGas(w: World, depth: nat, a: Active, a1: Active, info: AsyncCallInfo, e: Ending)
    requires e.AsyncCall? && GasInvariant(a) && GasInvariant(a1) && GasFree(w, End(e))
    requires a1.meter == a.meter && a1.points <= a1.meter.forExecution
    requires a1.points == a.points + w.schedule.asyncCallStep + info.gasLocked
    requires SharedWithin(TraceLegs(w, depth, a1, info, e))
    ensures var input := DestinationInput(a1, info, e.name);
            var o := Dest(w, depth, a1, input, e.callee);
            var m := ReportIfCommitted(w, depth, a1, input, e.callee, false);
            var burned := w.schedule.asyncCallStep + BurnedByCall(w, depth, a1, input, e.callee, false);
            var final := CallLocally(w, depth, a1, info, e);
            && o.vm.gasRemaining <= input.vm.gasProvided
            && if CallbackGas(o, info) <= CallbackCost(w, o)
              then Accounted(a, final, AddMaps(m, map[]), burned + info.gasLocked)
            else
              var back := RestoreGas(o.state, info.gasLocked);
              var cbInput := CallbackInput(w, back, info, o);
              var cb := Dest(w, depth, back, cbInput, e.callback);
              && GasInvariant(back) && Covered(back, cbInput)
              && final.points == cb.state.points
              && Accounted(a, final, AddMaps(m, ReportIfCommitted(w, depth, back, cbInput, e.callback, false)),
                           burned + BurnedByCall(w, depth, back, cbInput, e.callback, false))
    decreases e, 0
  {
    hide Dest, ReportIfCommitted, BurnedByCall, SharedWithin, TraceCall, TraceLegs, SumMap, NonNegative, NoTransferGas,
      CallBack, AddMaps, CreateErrorOutput, CallbackCost, CallbackGas, LockGas, CallbackValue;
    var input := DestinationInput(a1, info, e.name);
    var o := Dest(w, depth, a1, input, e.callee);
    LegsWithin(w, depth, a1, info, e);
    DestGas(w, depth, a1, input, e.callee);
    DestEvolves(w, depth, a1, input, e.callee);
    var m := ReportIfCommitted(w, depth, a1, input, e.callee, false);
    var burned := BurnedByCall(w, depth, a1, input, e.callee, false);
    if CallbackGas(o, info) <= CallbackCost(w, o) {
      UnaffordableGas(w, depth, a, a1, o, info, e, m, burned);
    } else {
      CallbackCovered(w, a1, o, info);
      LockReturned(w, a, a1, o, info.gasLocked, m, burned);
      var back := RestoreGas(o.state, info.gasLocked);
      var cbInput := CallbackInput(w, back, info, o);
      DestGas(w, depth, back, cbInput, e.callback);
      CallbackLegGas(w, depth, a, o, info, e, m, w.schedule.asyncCallStep + burned);
    }
  }

  lemma UnaffordableGas(w: World, depth: nat, a: Active, a1: Active, o: Outcome, info: AsyncCallInfo, e: Ending,
                        m: map<Address, int>, burned: int)
    requires e.AsyncCall? && GasInvariant(a) && a1.meter == a.meter
    requires a1.points == a.points + w.schedule.asyncCallStep + info.gasLocked
    requires Accounted(a1, o.state, m, burned) && CallbackGas(o, info) <= CallbackCost(w, o)
    ensures Accounted(a, CallBack(w, depth, o, info, e), AddMaps(m, map[]),
                      w.schedule.asyncCallStep + burned + info.gasLocked)
  {
    var failed := CreateErrorOutput(w, o.state, ErrNotEnoughGas);
    ReportBurns(w, o.state, failed.vm);
    BurnsAccounted(o.state, failed.state);
    ReportBurns(w, failed.state, failed.vm);
    BurnsAccounted(o.state, ReportCallback(w, failed.state, failed.vm));
    assert Accounted(a, o.state, m, w.schedule.asyncCallStep + burned + info.gasLocked);
    AccountedTransitive(a, o.state, ReportCallback(w, failed.state, failed.vm), m, map[],
                        w.schedule.asyncCallStep + burned + info.gasLocked, 0);
  }

  lemma CallbackLegGas(w: World, depth: nat, a: Active, o: Outcome, info: AsyncCallInfo, e: Ending,
                       m: map<Address, int>, burned: int)
    requires e.AsyncCall? && CallbackGas(o, info) > CallbackCost(w, o)
    requires var back := RestoreGas(o.state, info.gasLocked);
             var cbInput := CallbackInput(w, back, info, o);
             && Accounted(a, back, m, burned)
             && Accounted(back, Dest(w, depth, back, cbInput, e.callback).state,
                          ReportIfCommitted(w, depth, back, cbInput, e.callback, false),
                          BurnedByCall(w, depth, back, cbInput, e.callback, false))
    ensures var back := RestoreGas(o.state, info.gasLocked);
            var cbInput := CallbackInput(w, back, info, o);
            var final := CallBack(w, depth, o, info, e);
            && final.points == Dest(w, depth, back, cbInput, e.callback).state.points
            && Accounted(a, final, AddMaps(m, ReportIfCommitted(w, depth, back, cbInput, e.callback, false)),
                         burned + BurnedByCall(w, depth, back, cbInput, e.callback, false))
  {
    var back := RestoreGas(o.state, info.gasLocked);
    var cbInput := CallbackInput(w, back, info, o);
    var cb := Dest(w, depth, back, cbInput, e.callback);
    var n := ReportIfCommitted(w, depth, back, cbInput, e.callback, false);
    var b := BurnedByCall(w, depth, back, cbInput, e.callback, false);
    AccountedTransitive(a, back, cb.state, m, n, burned, b);
    if cb.err.Some? {
      ReportBurns(w, cb.state, cb.vm);
    }
  }
}
