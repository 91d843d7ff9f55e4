/** Frames whose records include gas-carrying transfers: the exact test the runtime makes, and
    the exit of a contract that hands its remaining gas to another shard. */
module CrossShard {
  import opened Overflow
  import opened Types
  import opened Sums
  import opened Ledger
  import opened Frame
  import opened Calls
  import opened Conservation
  import opened Traces
  import opened GasIdentity

  /** The accounts of a frame at its end. */
  function FinalAccounts(a: Active): Accounts {
    Ensure(a.out.accounts, a.rt.scAddress)
  }

  ghost function OthersUsed(a: Active): int {
    SumMap(a.meter.used) - At(a.meter.used, a.rt.scAddress)
  }

  function CarriedByCurrent(a: Active): nat {
    TransferGas(FinalAccounts(a)[a.rt.scAddress].transfers)
  }

  /** What is known of every nested frame, whatever it does. */
  ghost predicate Metered(a: Active) {
    Known(a) && NothingLocked(a) && a.meter.provided <= MAX_INT64
  }

  lemma CurrentIsPartOfCarried(a: Active)
    ensures 0 <= CarriedByCurrent(a) <= CarriedGas(FinalAccounts(a))
    ensures 0 <= OthersUsed(a)
  {
    SumNonNegative(Carried(FinalAccounts(a)));
    assert Carried(FinalAccounts(a))[a.rt.scAddress] == CarriedByCurrent(a);
    SumNonNegative(a.meter.used);
  }

  /** What updateSCGasUsed assigns to the running contract: the transfers recorded on its own
      account are taken off twice. */
  function AssignedToCurrent(spent: int, byCurrent: int, others: int, carried: int): int {
    if spent >= byCurrent + others + carried then spent - byCurrent - others - carried else 0
  }

  lemma ClosedAssignment(a: Active)
    requires Metered(a)
    ensures var used := CloseGas(a).meter.used;
            && used == a.meter.used[a.rt.scAddress := used[a.rt.scAddress]]
            && used[a.rt.scAddress] == AssignedToCurrent(a.meter.initialCost + a.points, CarriedByCurrent(a),
                                                         OthersUsed(a), CarriedGas(FinalAccounts(a)))
            && CloseGas(a).out.accounts == SetGasUsed(FinalAccounts(a), used)
  {
    hide GasLeft, TransferGas, SetGasUsed, CarriedGas;
    CurrentIsPartOfCarried(a);
    SumNonNegative(a.meter.used);
    OthersAreTheRest(FinalAccounts(a), a.meter.used, a.rt.scAddress);
  }

  lemma ClosedTotal(a: Active)
    requires Metered(a)
    ensures CloseGas(a).meter.used.Keys <= CloseGas(a).out.accounts.Keys
    ensures SumMap(ReportedGas(CloseGas(a).out.accounts)) ==
            AssignedToCurrent(a.meter.initialCost + a.points, CarriedByCurrent(a), OthersUsed(a),
                              CarriedGas(FinalAccounts(a)))
            + OthersUsed(a) + CarriedGas(FinalAccounts(a))
  {
    var self, used := a.rt.scAddress, CloseGas(a).meter.used;
    ClosedAssignment(a);
    SumPut(a.meter.used, self, used[self]);
    ReportIsUsed(FinalAccounts(a), used);
  }

  ghost function Recorded(a: Active): int {
    OthersUsed(a) + CarriedGas(FinalAccounts(a))
  }

  function Spent(a: Active): int {
    a.meter.initialCost + a.points
  }

  /** When the runtime accepts a frame. Within its gas and without transfers on the contract's own
      account: when all that is recorded is covered by what the frame spent, transfers inherited
      from callers included. With such transfers, which are subtracted twice, only when the rest
      happens to account for all that was spent. A frame that overspent is accepted only if the
      double subtraction happens to hide the difference. */
  ghost predicate Accepted(a: Active) {
    var own := CarriedByCurrent(a);
    if a.points <= a.meter.forExecution then
      if own == 0 then Recorded(a) <= Spent(a) else Recorded(a) == Spent(a)
    else
      own > 0 && if own + Recorded(a) <= Spent(a) then Spent(a) - own == a.meter.provided
        else Recorded(a) == a.meter.provided
  }

  /** For every frame, however large its sums are. */
  lemma AcceptedExactly(a: Active)
    requires Metered(a)
    ensures GasMatches(CloseGas(a)) <==> Accepted(a)
    ensures CloseGas(a).meter.used.Keys <= CloseGas(a).out.accounts.Keys
  {
    hide CloseGas, FinalAccounts, CarriedGas, CarriedByCurrent, OthersUsed, Known, ReportedGas;
    CurrentIsPartOfCarried(a);
    ClosedTotal(a);
    ClosedRemaining(a);
  }

  /** An input whose gas is all visible. */
  ghost predicate Visible(vm: VMInput) {
    ProvidedGas(vm) == vm.gasProvided <= MAX_INT64
  }

  /** A frame that was started has all its gas visible when it ends. */
  lemma EndMetered(w: World, depth: nat, a: Active, input: CallInput, c: Contract, shared: bool)
    requires Visible(input.vm)
    ensures var e := CallExecution(w, depth, a, input, c, shared);
            e.err.None? ==> Metered(e.state) && e.state.out.code == Ok && e.state.meter.provided == input.vm.gasProvided
  {
    hide Prepare, Paid, CallExecution, Run, Conserves;
    CallExecutionIs(w, depth, a, input, c, shared);
    ExecutionCode(w, depth, a, input, c, shared);
    PaidFrame(w, a, input, shared);
    var pay := Paid(w, a, input, shared);
    PreparedVisible(w, depth + 1, pay.state, input, c.starts);
    var p := Prepare(w, depth + 1, pay.state, input, c.starts);
    if c.entry.Found? {
      RunEvolves(w, depth + 1, p.state, c.body);
    }
  }

  lemma PreparedVisible(w: World, depth: nat, a: Active, input: CallInput, starts: bool)
    requires a.meter == InitMeter(input.vm) && a.rt.input == input.vm && Visible(input.vm)
    ensures var p := Prepare(w, depth, a, input, starts);
            p.err.None? ==>
              Metered(p.state) && p.state.meter.provided == input.vm.gasProvided
              && p.state.meter.forExecution <= MAX_INT64
  {
  }

  // ----- leaving the shard -----

  /** Programs that make no gas-carrying transfer until they end in a call to another shard. */
  ghost predicate LeavesShard(w: World, p: Program)
    decreases p
  {
    match p
    case Step(act, rest) => GasFreeAction(w, act) && LeavesShard(w, rest)
    case End(e) => e.AsyncCall? && GetCode(w, e.destination).err.Some?
  }

  ghost function ExitOf(p: Program): Ending
    decreases p
  {
    match p
    case Step(_, rest) => ExitOf(rest)
    case End(e) => e
  }

  ghost function StateAtExit(w: World, depth: nat, a: Active, p: Program): Active
    decreases p
  {
    match p
    case Step(act, rest) => StateAtExit(w, depth, Do(w, depth, a, act), rest)
    case End(_) => a
  }

  lemma {:induction false} ReachesExit(w: World, depth: nat, a: Active, p: Program)
    requires GasInvariant(a) && LeavesShard(w, p) && SharedWithin(Trace(w, depth, a, p))
    ensures ExitOf(p).AsyncCall? && GetCode(w, ExitOf(p).destination).err.Some?
    ensures var s := StateAtExit(w, depth, a, p);
            GasInvariant(s) && SameFrame(a, s) && Run(w, depth, a, p) == RunAsync(w, depth, s, ExitOf(p))
    decreases p
  {
    match p
    case Step(act, rest) =>
      StepWithin(w, depth, a, p);
      ActionGas(w, depth, a, act);
      DoEvolves(w, depth, a, act);
      ReachesExit(w, depth, Do(w, depth, a, act), rest);
    case End(_) =>
  }

  /** Recording one transfer. */
  lemma OneTransfer(accounts: Accounts, to: Address, transfer: OutputTransfer)
    ensures CarriedGas(AddTransfer(accounts, to, transfer)) == CarriedGas(accounts) + transfer.gasLimit
            + transfer.gasLocked
    ensures forall x :: x in accounts && x != to ==> AddTransfer(accounts, to, transfer)[x] == accounts[x]
  {
    hide SumMap, TransferGas;
    var known := Ensure(accounts, to);
    var gas := TransferGas(known[to].transfers) + transfer.gasLimit + transfer.gasLocked;
    OneMore(known[to].transfers, transfer);
    KnownCarried(accounts, to);
    SumPut(Carried(known), to, gas);
    var after := AddTransfer(accounts, to, transfer);
    assert Carried(after) == Carried(known)[to := gas];
  }

  lemma KnownCarried(accounts: Accounts, x: Address)
    ensures CarriedGas(Ensure(accounts, x)) == CarriedGas(accounts)
  {
    NothingInNew();
    SumSupport(Carried(accounts), Carried(Ensure(accounts, x)));
  }

  /** Record a transfer, then use up what gas is left. */
  function CarryAway(
    w: World, a: Active, to: Address, limit: uint64, lock: uint64, value: int, data: Bytes, ct: CallType): Attempt {
    var t := Transfer(w, a, to, a.rt.scAddress, limit, lock, value, data, ct);
    Attempt(UseGas(t.state, GasLeft(t.state)), t.err)
  }

  lemma SendsEverything(
    w: World, a: Active, to: Address, limit: uint64, lock: uint64, value: int, data: Bytes, ct: CallType)
    requires GasInvariant(a) && a.points <= a.meter.forExecution
    requires CarryAway(w, a, to, limit, lock, value, data, ct).err.None?
    ensures var b := CarryAway(w, a, to, limit, lock, value, data, ct).state;
            && b == a.(points := a.meter.forExecution, out := a.out.(accounts := b.out.accounts))
            && a.out.accounts.Keys <= b.out.accounts.Keys
            && CarriedGas(b.out.accounts) == limit + lock
            && (a.rt.scAddress != to ==> CarriedByCurrent(b) == 0)
  {
    var check := limit > 0 && ct != AsynchronousCallBack;
    var t := TransferValueOnly(w, a, to, a.rt.scAddress, value, check);
    TransferValueNoGas(w, a, to, a.rt.scAddress, value, check);
    PaysOnly(w, a, to, a.rt.scAddress, value, check);
    var transfer := OutputTransfer(value, limit, lock, data, ct, a.rt.scAddress);
    NothingCarried(t.state.out.accounts);
    OneTransfer(t.state.out.accounts, to, transfer);
    UsesUp(a, SetAccounts(t.state, AddTransfer(t.state.out.accounts, to, transfer)));
  }

  lemma UsesUp(a: Active, t: Active)
    requires a.points <= a.meter.forExecution <= MAX_INT64 && t == SetAccounts(a, t.out.accounts)
    ensures UseGas(t, GasLeft(t)) == t.(points := a.meter.forExecution)
  {
  }

  /** A frame that stayed within its gas and spent all that is recorded, without transfers on its
      own account, is accepted; accounts, transfers and remaining gas make up what it was given. */
  lemma CoveredFrameIsAccepted(w: World, a: Active)
    requires Metered(a) && a.points <= a.meter.forExecution && a.out.code == Ok
    requires CarriedByCurrent(a) == 0 && Recorded(a) <= Spent(a)
    ensures var o := GetVMOutput(w, a);
            && o == Output(CloseGas(a), CloseGas(a).out) && o.vm.code == Ok
            && o.vm.gasRemaining == a.meter.forExecution - a.points
            && CarriedGas(o.vm.accounts) == CarriedGas(a.out.accounts)
            && SumMap(GasReport(o.vm.accounts)) + CarriedGas(o.vm.accounts) + o.vm.gasRemaining == a.meter.provided
            && SumMap(CloseGas(a).meter.used) + CarriedGas(a.out.accounts) == Spent(a)
  {
    hide CloseGas, GasMatches, CarriedGas, FinalAccounts;
    EnsureCarried(a);
    AcceptedExactly(a);
    ClosedTotal(a);
    ClosedRemaining(a);
    ClosedSum(a);
  }

  lemma ClosedSum(a: Active)
    requires Metered(a) && CarriedByCurrent(a) == 0 && Recorded(a) <= Spent(a)
    ensures SumMap(CloseGas(a).meter.used) + CarriedGas(FinalAccounts(a)) == Spent(a)
    ensures CarriedGas(CloseGas(a).out.accounts) == CarriedGas(FinalAccounts(a))
    ensures SumMap(GasReport(CloseGas(a).out.accounts)) == SumMap(CloseGas(a).meter.used)
  {
    hide CloseGas, CarriedGas, FinalAccounts;
    var self, used := a.rt.scAddress, CloseGas(a).meter.used;
    ClosedAssignment(a);
    SumPut(a.meter.used, self, used[self]);
    GasAndCarried(FinalAccounts(a), used);
    AcceptedExactly(a);
    SumSupport(used, GasReport(CloseGas(a).out.accounts));
  }

  /** A frame that ends by handing its gas to another account reports no gas remaining, and its
      accounts together with the transfer account for all it was given. */
  lemma CarryingFrameIsAccepted(
    w: World, a: Active, to: Address, limit: uint64, lock: uint64, value: int, data: Bytes, ct: CallType)
    requires GasInvariant(a) && NothingLocked(a) && a.points <= a.meter.forExecution && a.out.code == Ok
    requires to != a.rt.scAddress && CarryAway(w, a, to, limit, lock, value, data, ct).err.None?
    requires SumMap(a.meter.used) + limit + lock <= a.meter.forExecution
    ensures var b := CarryAway(w, a, to, limit, lock, value, data, ct).state; var o := GetVMOutput(w, b);
            && o.vm == CloseGas(b).out && o.vm.code == Ok && o.vm.gasRemaining == 0
            && CarriedGas(o.vm.accounts) == limit + lock
            && SumMap(GasReport(o.vm.accounts)) + limit + lock == a.meter.provided
  {
    hide CarryAway, CloseGas, GetVMOutput, CarriedGas, CarriedByCurrent, NoTransferGas;
    var b := CarryAway(w, a, to, limit, lock, value, data, ct).state;
    SendsEverything(w, a, to, limit, lock, value, data, ct);
    EnsureCarried(b);
    AtMostSum(b.meter.used, b.rt.scAddress);
    CoveredFrameIsAccepted(w, b);
  }

  lemma EnsureCarried(a: Active)
    ensures CarriedGas(FinalAccounts(a)) == CarriedGas(a.out.accounts)
  {
    SumSupport(Carried(a.out.accounts), Carried(FinalAccounts(a)));
  }

  lemma GasAndCarried(accounts: Accounts, used: GasMap)
    ensures var b := SetGasUsed(accounts, used);
            CarriedGas(b) == CarriedGas(accounts) && SumMap(ReportedGas(b)) == SumMap(GasReport(b)) + CarriedGas(b)
  {
    var b := SetGasUsed(accounts, used);
    assert Carried(b) == Carried(accounts);
    SumPointwise(GasReport(b), Carried(b), ReportedGas(b));
  }
}
