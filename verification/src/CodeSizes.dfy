/** The code size that the runtime remembers, and the gas lock that is computed from it: the size
    is not saved with a frame, so that it is the last callee's that counts. */
module CodeSizes {
  import opened Overflow
  import opened Types
  import opened Frame
  import opened Calls
  import Conservation
  import opened Traces
  import opened GasIdentity
  import opened CrossShard

  // ----- the codes found along a run -----

  /** The sizes of the codes found for callees of a run, in order, at every depth, whether those
      callees succeed or not. */
  ghost function Lookups(w: World, depth: nat, a: Active, p: Program): seq<uint64>
    decreases p
  {
    match p
    case Step(act, rest) => LookupsOfAction(w, depth, a, act) + Lookups(w, depth, Do(w, depth, a, act), rest)
    case End(e) => if e.AsyncCall? then LookupsOfAsync(w, depth, a, e) else []
  }

  ghost function LookupsOfAction(w: World, depth: nat, a: Active, act: Action): seq<uint64>
    decreases act
  {
    if MakesCall(w, a, act)
      then LookupsOfCall(w, depth, ActionFrom(a, act), ActionInput(a, act), act.callee, act.CallSame?) else []
  }

  ghost function LookupsOfCall(
    w: World, depth: nat, a: Active, input: CallInput, c: Contract, shared: bool): seq<uint64>
    decreases c, 1
  {
    var pay := Paid(w, a, input, shared);
    if pay.err.Some? then [] else LookupsOfCallee(w, depth + 1, pay.state, input, c)
  }

  ghost function LookupsOfCallee(w: World, depth: nat, a: Active, input: CallInput, c: Contract): seq<uint64>
    decreases c, 0
  {
    var code, p := GetCode(w, input.recipient), Prepare(w, depth, a, input, c.starts);
    if input.name.InitName? || code.err.Some? then []
    else [code.size] + if p.err.None? && c.entry.Found? then Lookups(w, depth, p.state, c.body) else []
  }

  ghost function LookupsOfAsync(w: World, depth: nat, a: Active, e: Ending): seq<uint64>
    requires e.AsyncCall?
    decreases e, 1
  {
    var s := AsyncStart(w, a, e);
    if s.err.Some? || s.state.rt.asyncInfo.None? || GetCode(w, e.destination).err.Some? then []
    else LookupsOfLegs(w, depth, s.state, s.state.rt.asyncInfo.value, e)
  }

  ghost function LookupsOfLegs(w: World, depth: nat, a: Active, info: AsyncCallInfo, e: Ending): seq<uint64>
    requires e.AsyncCall?
    decreases e, 0
  {
    var input := DestinationInput(a, info, e.name);
    var o := Dest(w, depth, a, input, e.callee);
    LookupsOfCall(w, depth, a, input, e.callee, false) +
    if CallbackGas(o, info) <= CallbackCost(w, o) then [] else
    var back := RestoreGas(o.state, info.gasLocked);
    LookupsOfCall(w, depth, back, CallbackInput(w, back, info, o), e.callback, false)
  }

  function Remembered(before: uint64, found: seq<uint64>): uint64 {
    if found == [] then before else found[|found| - 1]
  }

  lemma RememberedTwice(before: uint64, u: seq<uint64>, v: seq<uint64>)
    ensures Remembered(Remembered(before, u), v) == Remembered(before, u + v)
  {
  }

  // ----- the size left by a run -----

  /** A run leaves the size of the last callee whose code was found, or else the one it started with. */
  lemma {:induction false} RunRemembers(w: World, depth: nat, a: Active, p: Program)
    ensures Run(w, depth, a, p).state.codeSize == Remembered(a.codeSize, Lookups(w, depth, a, p))
    decreases p
  {
    hide Do, RunAsync, LookupsOfAction, LookupsOfAsync;
    match p
    case Step(act, rest) =>
      var b := Do(w, depth, a, act);
      ActionRemembers(w, depth, a, act);
      RunRemembers(w, depth, b, rest);
      RememberedTwice(a.codeSize, LookupsOfAction(w, depth, a, act), Lookups(w, depth, b, rest));
    case End(e) =>
      if e.AsyncCall? {
        AsyncRemembers(w, depth, a, e);
      }
  }

  lemma {:induction false} ActionRemembers(w: World, depth: nat, a: Active, act: Action)
    ensures Do(w, depth, a, act).codeSize == Remembered(a.codeSize, LookupsOfAction(w, depth, a, act))
    decreases act
  {
    hide Do, Call, LookupsOfCall;
    if MakesCall(w, a, act) {
      CallRemembers(w, depth, ActionFrom(a, act), ActionInput(a, act), act.callee, act.CallSame?);
      DoesCall(w, depth, a, act);
    } else if act.CallDest? || act.CallSame? {
      DoesNotCall(w, depth, a, act);
    } else {
      SimpleSize(w, depth, a, act);
    }
  }

  lemma LedgerSize(w: World, depth: nat, a: Active, act: Action)
    requires Conservation.TouchesLedger(act)
    ensures Do(w, depth, a, act).codeSize == a.codeSize
  {
    hide Transfer, SetStorage, GetStorage, GetStorageFromAddress, GetBalance;
    match act
    case ReadStorage(key) => Conservation.ReadTouches(w, a, [], key);
    case ReadStorageOf(x, key) => Conservation.ReadTouches(w, a, x, key);
    case WriteStorage(key, data) => Conservation.SetStorageTouches(w, a, key, data, true);
    case WriteProtected(key, data) => Conservation.SetStorageTouches(w, a, key, data, false);
    case ReadBalance(x) => Conservation.BalanceOnly(w, a, x);
    case SendValue(to, value, gas, data) =>
      Conservation.TransferOnly(w, a, to, a.rt.scAddress, gas, 0, value, data, DirectCall);
  }

  lemma SimpleSize(w: World, depth: nat, a: Active, act: Action)
    requires !act.CallDest? && !act.CallSame?
    ensures Do(w, depth, a, act).codeSize == a.codeSize
  {
    hide Transfer, SetStorage, GetStorage, GetStorageFromAddress, GetBalance;
    if Conservation.TouchesLedger(act) {
      LedgerSize(w, depth, a, act);
    }
  }

  lemma {:induction false} CallRemembers(
    w: World, depth: nat, a: Active, input: CallInput, c: Contract, shared: bool)
    ensures Call(w, depth, a, input, c, shared).state.codeSize
            == Remembered(a.codeSize, LookupsOfCall(w, depth, a, input, c, shared))
    decreases c, 1
  {
    hide Call, CallExecution, Paid, Execute, LookupsOfCallee;
    var pay := Paid(w, a, input, shared);
    CallExecutionIs(w, depth, a, input, c, shared);
    CallSize(w, depth, a, input, c, shared);
    PaidSize(w, a, input, shared);
    if pay.err.None? {
      CalleeRemembers(w, depth + 1, pay.state, input, c);
    }
  }

  /** Committed or not, a call leaves its callee's size. */
  lemma CallSize(w: World, depth: nat, a: Active, input: CallInput, c: Contract, shared: bool)
    ensures Call(w, depth, a, input, c, shared).state.codeSize == CallExecution(w, depth, a, input, c,
            shared).state.codeSize
  {
    hide Execute, PayCall, TransferValueOnly, CloseGas, GasMatches, CreateErrorOutput, GetVMOutput;
    var e := CallExecution(w, depth, a, input, c, shared);
    OutputSize(w, e.state);
  }

  lemma OutputSize(w: World, a: Active)
    ensures GetVMOutput(w, a).state.codeSize == a.codeSize
  {
    hide CloseGas, GasMatches;
    Conservation.ClosedIs(a);
  }

  lemma PaidSize(w: World, a: Active, input: CallInput, shared: bool)
    ensures Paid(w, a, input, shared).state.codeSize == a.codeSize
  {
    hide TransferValueOnly;
    Conservation.PaysOnly(w, Entered(a, input, shared), input.recipient, input.vm.caller, input.vm.value, false);
  }

  lemma {:induction false} CalleeRemembers(w: World, depth: nat, a: Active, input: CallInput, c: Contract)
    ensures Execute(w, depth, a, input, c).state.codeSize
            == Remembered(a.codeSize, LookupsOfCallee(w, depth, a, input, c))
    decreases c, 0
  {
    hide Prepare, Run, Lookups, GetCode;
    var p := Prepare(w, depth, a, input, c.starts);
    PreparedSize(w, depth, a, input, c.starts);
    if p.err.None? && c.entry.Found? {
      RunRemembers(w, depth, p.state, c.body);
    }
  }

  lemma PreparedSize(w: World, depth: nat, a: Active, input: CallInput, starts: bool)
    ensures var p, code := Prepare(w, depth, a, input, starts), GetCode(w, input.recipient);
            && p.state.codeSize == (if input.name.InitName? || code.err.Some? then a.codeSize else code.size)
            && (p.err.None? ==> !input.name.InitName? && code.err.None?)
  {
    hide GetCode;
  }

  lemma {:induction false} AsyncRemembers(w: World, depth: nat, a: Active, e: Ending)
    requires e.AsyncCall?
    ensures RunAsync(w, depth, a, e).state.codeSize == Remembered(a.codeSize, LookupsOfAsync(w, depth, a, e))
    decreases e, 1
  {
    hide AsyncStart, RunAsync, CallLocally, SendAsync, GetCode, LookupsOfLegs;
    var s := AsyncStart(w, a, e);
    AsyncIs(w, depth, a, e);
    StartSize(w, a, e);
    if s.err.None? {
      var info := s.state.rt.asyncInfo.value;
      SendSize(w, s.state, info);
      LegsRemember(w, depth, s.state, info, e);
    }
  }

  lemma StartSize(w: World, a: Active, e: Ending)
    requires e.AsyncCall?
    ensures AsyncStart(w, a, e).state.codeSize == a.codeSize
  {
  }

  lemma SendSize(w: World, a: Active, info: AsyncCallInfo)
    ensures SendAsync(w, a, info).state.codeSize == a.codeSize
  {
    hide TransferValueOnly;
    Conservation.PaysOnly(w, a, info.destination, a.rt.scAddress, info.value, info.gasLimit > 0);
  }

  lemma {:induction false} LegsRemember(w: World, depth: nat, a: Active, info: AsyncCallInfo, e: Ending)
    requires e.AsyncCall?
    ensures CallLocally(w, depth, a, info, e).codeSize == Remembered(a.codeSize, LookupsOfLegs(w, depth, a, info, e))
    decreases e, 0
  {
    hide CallLocally, Dest, CallbackGas, CallbackCost, LookupsOfCall;
    var input := DestinationInput(a, info, e.name);
    var o := Dest(w, depth, a, input, e.callee);
    var first := LookupsOfCall(w, depth, a, input, e.callee, false);
    CallsLocally(w, depth, a, info, e);
    CallRemembers(w, depth, a, input, e.callee, false);
    if CallbackGas(o, info) > CallbackCost(w, o) {
      var back := RestoreGas(o.state, info.gasLocked);
      var cbInput := CallbackInput(w, back, info, o);
      CallRemembers(w, depth, back, cbInput, e.callback, false);
      RememberedTwice(a.codeSize, first, LookupsOfCall(w, depth, back, cbInput, e.callback, false));
    }
  }

  // ----- the lock of an asynchronous call -----

  /** The codes found before the program comes to its end. */
  ghost function LookupsBeforeExit(w: World, depth: nat, a: Active, p: Program): seq<uint64>
    decreases p
  {
    match p
    case Step(act, rest) => LookupsOfAction(w, depth, a, act) + LookupsBeforeExit(w, depth, Do(w, depth, a, act), rest)
    case End(_) => []
  }

  lemma {:induction false} ExitRemembers(w: World, depth: nat, a: Active, p: Program)
    ensures StateAtExit(w, depth, a, p).codeSize == Remembered(a.codeSize, LookupsBeforeExit(w, depth, a, p))
    decreases p
  {
    hide Do, LookupsOfAction;
    match p
    case Step(act, rest) =>
      var b := Do(w, depth, a, act);
      ActionRemembers(w, depth, a, act);
      ExitRemembers(w, depth, b, rest);
      RememberedTwice(a.codeSize, LookupsOfAction(w, depth, a, act), LookupsBeforeExit(w, depth, b, rest));
    case End(_) =>
  }

  /** The lock meant for compiling a contract of this size again. */
  function LockFor(w: World, size: uint64): uint64 {
    GasLockedForAsync(w, size)
  }

  /** Below saturation, the lock for one size covers another exactly when it is not smaller, or
      compiling costs nothing. */
  lemma LockCovers(w: World, size: uint64, own: uint64)
    requires LockFor(w, own) < MAX_UINT64
    ensures LockFor(w, size) >= LockFor(w, own) <==> w.schedule.aotPreparePerByte == 0 || size >= own
  {
    var rate := w.schedule.aotPreparePerByte;
    ProductNonNegative(size, rate);
    ProductNonNegative(own, rate);
    if size >= own {
      ScaleMonotone(own, size, rate);
    } else {
      ScaleMonotone(size, own - 1, rate);
      Lower(own, rate);
    }
  }

  lemma Lower(n: int, rate: nat)
    ensures (n - 1) * rate == n * rate - rate
  {
  }

  /** For every program that ends in an asynchronous call with a callback, run in a frame whose own
      code was found last: what is locked is the lock for the last callee's size, and it covers
      preparing the frame's own code again if and only if no callee's code was found, the last one
      was not smaller, or compiling costs nothing. */
  lemma LockedExactly(w: World, depth: nat, a: Active, p: Program)
    requires ExitOf(p).AsyncCall? && ExitOf(p).hasCallback && LockFor(w, a.codeSize) < MAX_UINT64
    requires AsyncStart(w, StateAtExit(w, depth, a, p), ExitOf(p)).err.None?
    ensures AsyncStart(w, StateAtExit(w, depth, a, p), ExitOf(p)).state.rt.asyncInfo.Some?
    ensures var info := AsyncStart(w, StateAtExit(w, depth, a, p), ExitOf(p)).state.rt.asyncInfo.value;
            var found := LookupsBeforeExit(w, depth, a, p);
            && info.gasLocked == LockFor(w, Remembered(a.codeSize, found))
            && (info.gasLocked >= LockFor(w, a.codeSize) <==>
                || w.schedule.aotPreparePerByte == 0 || found == [] || found[|found| - 1] >= a.codeSize)
  {
    hide StateAtExit, ExitOf, LookupsBeforeExit, LockFor, AsyncStart;
    ExitRemembers(w, depth, a, p);
    LockIsFor(w, StateAtExit(w, depth, a, p), ExitOf(p));
    LockCovers(w, Remembered(a.codeSize, LookupsBeforeExit(w, depth, a, p)), a.codeSize);
  }

  lemma LockIsFor(w: World, a: Active, e: Ending)
    requires e.AsyncCall? && e.hasCallback && AsyncStart(w, a, e).err.None?
    ensures AsyncStart(w, a, e).state.rt.asyncInfo.Some?
    ensures AsyncStart(w, a, e).state.rt.asyncInfo.value.gasLocked == LockFor(w, a.codeSize)
  {
    hide GasLockedForAsync;
  }

  /** Whether the callback can be prepared: the lock, with what the destination left, must pay for
      the callback's arguments and for the caller's own code. */
  lemma CallbackPreparedExactly(w: World, depth: nat, o: Outcome, info: AsyncCallInfo)
    requires CallbackGas(o, info) > CallbackCost(w, o) && depth + 1 < MAX_INSTANCES
    requires GetCode(w, o.state.rt.scAddress).err.None?
    ensures var back := RestoreGas(o.state, info.gasLocked);
            var input := CallbackInput(w, back, info, o);
            Prepare(w, depth + 1, Paid(w, back, input, false).state, input, true).err.None?
            <==> InitialCost(w, GetCode(w, back.rt.scAddress).size) <= CallbackGas(o, info) - CallbackCost(w, o)
  {
    hide CallbackGas, CallbackCost, InitialCost, GetCode, Paid;
    var back := RestoreGas(o.state, info.gasLocked);
    PaidFrame(w, back, CallbackInput(w, back, info, o), false);
  }
}
