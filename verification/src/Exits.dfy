/** Frames that leave the shard, anywhere in a tree: as long as nothing else carries gas, every
    frame above keeps its totals exact. */
module Exits {
  import opened Overflow
  import opened Types
  import opened Sums
  import opened Ledger
  import opened Frame
  import opened Calls
  import opened Conservation
  import opened Traces
  import opened GasIdentity
  import opened AsyncCost
  import opened CrossShard
  import opened Carriers

  // ----- the invariant -----

  /** The frame has burned all the gas that is charged to accounts or carried away, and `slack` more. */
  ghost predicate Carrying(w: World, a: Active, slack: nat) {
    && Known(a)
    && SumMap(a.meter.used) + CarriedGas(a.out.accounts) + slack <= a.points
    && CarriedOnly(w, a.out.accounts, true)
    && a.meter.initialCost + a.meter.forExecution <= a.meter.provided <= MAX_INT64
  }

  lemma NothingCarriedYet(w: World, a: Active)
    requires GasInvariant(a)
    ensures Carrying(w, a, 0)
  {
    NothingCarried(a.out.accounts);
  }

  /** A later state of the frame that carries the same and burned more. */
  lemma StillCarrying(w: World, a: Active, b: Active, slack: nat, slack': nat)
    requires Carrying(w, a, slack) && SameCarry(a.out.accounts, b.out.accounts) && b.meter == a.meter
    requires a.points + slack' <= b.points + slack
    ensures Carrying(w, b, slack')
  {
    CarryKept(w, a.out.accounts, b.out.accounts, true);
  }

  lemma CarriedNonNegative(accounts: Accounts)
    ensures 0 <= CarriedGas(accounts)
  {
    SumNonNegative(Carried(accounts));
  }

  /** Transfers carry nothing to a contract on this shard. */
  lemma NothingOfOwn(w: World, a: Active)
    requires CarriedOnly(w, a.out.accounts, true) && GetCode(w, a.rt.scAddress).err.None?
    ensures CarriedByCurrent(a) == 0
  {
    NothingInNew();
  }

  /** A frame on this shard that keeps the invariant is accepted when it stayed within its gas. */
  lemma CarryingIsAccepted(w: World, a: Active)
    requires Carrying(w, a, 0) && NothingLocked(a) && a.out.code == Ok && GetCode(w, a.rt.scAddress).err.None?
    ensures GetVMOutput(w, a).vm.code == Ok <==> a.points <= a.meter.forExecution
    ensures a.points <= a.meter.forExecution ==>
              var o := GetVMOutput(w, a);
              && o == Output(CloseGas(a), CloseGas(a).out)
              && o.vm.gasRemaining == a.meter.forExecution - a.points
              && CarriedGas(o.vm.accounts) == CarriedGas(a.out.accounts)
              && SumMap(GasReport(o.vm.accounts)) + CarriedGas(o.vm.accounts) + o.vm.gasRemaining == a.meter.provided
  {
    hide CloseGas, GasMatches, CarriedGas, CarriedByCurrent, GetCode;
    NothingOfOwn(w, a);
    EnsureCarried(a);
    AtMostSum(a.meter.used, a.rt.scAddress);
    AcceptedExactly(a);
    CloseGasCode(a);
    if a.points <= a.meter.forExecution {
      CoveredFrameIsAccepted(w, a);
    }
  }

  // ----- calls -----

  /** A started callee runs on this shard. */
  lemma EndHasCode(w: World, depth: nat, a: Active, input: CallInput, c: Contract, shared: bool)
    ensures var e := CallExecution(w, depth, a, input, c, shared);
            e.err.None? ==> GetCode(w, e.state.rt.scAddress).err.None?
  {
    hide Prepare, Paid, CallExecution, Run, Conserves, GetCode;
    CallExecutionIs(w, depth, a, input, c, shared);
    PaidFrame(w, a, input, shared);
    var pay := Paid(w, a, input, shared);
    PreparedCode(w, depth + 1, pay.state, input, c.starts);
    var p := Prepare(w, depth + 1, pay.state, input, c.starts);
    if c.entry.Found? {
      RunEvolves(w, depth + 1, p.state, c.body);
    }
  }

  lemma PreparedCode(w: World, depth: nat, a: Active, input: CallInput, starts: bool)
    requires a.rt.scAddress == input.recipient
    ensures var p := Prepare(w, depth, a, input, starts);
            && p.state.rt == a.rt
            && (p.err.None? ==> GetCode(w, p.state.rt.scAddress).err.None?)
  {
  }

  /** A callee that ended without error: visible gas, nothing carried to its own account. */
  lemma EndOfCallee(w: World, depth: nat, a: Active, input: CallInput, c: Contract, shared: bool)
    requires CarriedOnly(w, a.out.accounts, true) && ExitsOnly(w, c.body, true) && Visible(input.vm)
    ensures var e := CallExecution(w, depth, a, input, c, shared);
            e.err.None? ==>
              && Metered(e.state) && e.state.out.code == Ok && e.state.meter.provided == input.vm.gasProvided
              && CarriedOnly(w, e.state.out.accounts, true) && CarriedByCurrent(e.state) == 0
              && e.callerPoints == UseGas(a, input.vm.gasProvided).points
  {
    hide CallExecution, CarriedOnly, CarriedByCurrent, GetCode, Metered;
    var e := CallExecution(w, depth, a, input, c, shared);
    EndMetered(w, depth, a, input, c, shared);
    EndHasCode(w, depth, a, input, c, shared);
    ExecutionCarriers(w, depth, a, input, c, shared, true);
    CallerCharged(w, depth, a, input, c, shared);
    if e.err.None? {
      NothingOfOwn(w, e.state);
    }
  }

  /** A committed callee whose frame was accepted. */
  ghost predicate CommittedAccepted(w: World, depth: nat, a: Active, input: CallInput, c: Contract, shared: bool) {
    Call(w, depth, a, input, c, shared).err.None? ==> Accepted(CallExecution(w, depth, a, input, c, shared).state)
  }

  /** In its own context a callee is committed only if it was accepted. */
  lemma DestIsAccepted(w: World, depth: nat, a: Active, input: CallInput, c: Contract)
    requires Visible(input.vm)
    ensures CommittedAccepted(w, depth, a, input, c, false)
  {
    hide Call, CallExecution, Accepted, CloseGas, GasMatches, Metered;
    var e := CallExecution(w, depth, a, input, c, false);
    CallEnds(w, depth, a, input, c, false);
    EndMetered(w, depth, a, input, c, false);
    if Call(w, depth, a, input, c, false).err.None? {
      AcceptedExactly(e.state);
      CloseGasCode(e.state);
    }
  }

  /** Whatever a callee inherits, carries away or fails to do, its caller keeps the invariant. */
  lemma CallCarries(w: World, depth: nat, a: Active, input: CallInput, c: Contract, shared: bool, slack: nat)
    requires Carrying(w, a, slack) && Covered(a, input) && ExitsOnly(w, c.body, true)
    requires shared ==> CommittedAccepted(w, depth, a, input, c, shared)
    ensures Carrying(w, Call(w, depth, a, input, c, shared).state, slack)
  {
    hide Call, CallExecution, CarriedOnly, CarriedByCurrent, GetVMOutput, CloseGas, Recorded, Metered, UseGas, SumMap,
      SameCarry;
    var e, o := CallExecution(w, depth, a, input, c, shared), Call(w, depth, a, input, c, shared);
    CoveredPoints(w, a, input, slack);
    EndOfCallee(w, depth, a, input, c, shared);
    CallerCharged(w, depth, a, input, c, shared);
    if o.err.Some? {
      FailedCall(w, depth, a, input, c, shared);
      SameCarrySelf(a.out.accounts);
      StillCarrying(w, a, o.state, slack, slack);
    } else {
      CallEnds(w, depth, a, input, c, shared);
      if !shared {
        DestIsAccepted(w, depth, a, input, c);
      }
      AcceptedWithin(e.state);
      AcceptedExactly(e.state);
      CoveredFrameIsAccepted(w, e.state);
      CommittedKept(w, depth, a, input, c, shared);
      KeptCarries(w, a, e.state, e.callerPoints, o.state, slack);
    }
  }

  lemma CoveredPoints(w: World, a: Active, input: CallInput, slack: nat)
    requires Carrying(w, a, slack) && Covered(a, input)
    ensures Visible(input.vm) && UseGas(a, input.vm.gasProvided).points == a.points + input.vm.gasProvided <= MAX_INT64
  {
  }

  lemma AcceptedWithin(a: Active)
    requires Accepted(a) && CarriedByCurrent(a) == 0
    ensures a.points <= a.meter.forExecution && Recorded(a) <= Spent(a)
  {
  }

  /** Committing an accepted callee: what it spent is charged or carried away. */
  lemma KeptCarries(w: World, a: Active, e: Active, callerPoints: Points, b: Active, slack: nat)
    requires Carrying(w, a, slack) && Metered(e) && CarriedOnly(w, e.out.accounts, true)
    requires e.points <= e.meter.forExecution && callerPoints == a.points + e.meter.provided <= MAX_INT64
    requires CloseGas(e).out.gasRemaining == e.meter.forExecution - e.points
    requires SumMap(CloseGas(e).meter.used) + CarriedGas(e.out.accounts) == Spent(e)
    requires CloseGas(e).meter.used.Keys <= CloseGas(e).out.accounts.Keys
    requires Kept(a, CloseGas(e), callerPoints, b)
    ensures Carrying(w, b, slack)
  {
    hide CloseGas, CarriedGas, MergeGas, CarriedOnly;
    CloseCarry(e);
    CarryKept(w, e.out.accounts, CloseGas(e).out.accounts, true);
    CarriedNonNegative(e.out.accounts);
    CarriedNonNegative(a.out.accounts);
    SumNonNegative(a.meter.used);
    MergeGasIsSum(CloseGas(e).meter.used, a.meter.used);
    MergedKeys(CloseGas(e).meter.used, a.meter.used);
  }

  lemma MergedKeys(child: GasMap, parent: GasMap)
    ensures MergeGas(child, parent).Keys == child.Keys + parent.Keys
  {
  }

  // ----- runs -----

  /** Every callee that the frame itself runs in its own context, and keeps, was accepted. */
  ghost predicate SharedAccepted(w: World, depth: nat, a: Active, p: Program)
    decreases p
  {
    match p
    case Step(act, rest) => SharedActionAccepted(w, depth, a, act)
      && SharedAccepted(w, depth, Do(w, depth, a, act), rest)
    case End(_) => true
  }

  ghost predicate SharedActionAccepted(w: World, depth: nat, a: Active, act: Action) {
    MakesCall(w, a, act) && act.CallSame? ==>
      CommittedAccepted(w, depth, ActionFrom(a, act), ActionInput(a, act), act.callee, true)
  }

  /** However deep and however often frames leave the shard, the invariant holds along the run. */
  lemma {:induction false} LeavingRun(w: World, depth: nat, a: Active, p: Program)
    requires Carrying(w, a, 0) && ExitsOnly(w, p, true) && SharedAccepted(w, depth, a, p)
    ensures Carrying(w, Run(w, depth, a, p).state, 0)
    decreases p
  {
    hide Carrying, Do, RunAsync, SharedActionAccepted;
    match p
    case Step(act, rest) =>
      LeavingAction(w, depth, a, act);
      LeavingRun(w, depth, Do(w, depth, a, act), rest);
    case End(e) =>
      if e.AsyncCall? {
        LeavingAsync(w, depth, a, e);
      }
  }

  lemma LeavingAction(w: World, depth: nat, a: Active, act: Action)
    requires Carrying(w, a, 0) && ExitsOnlyAction(w, act, true) && SharedActionAccepted(w, depth, a, act)
    ensures Carrying(w, Do(w, depth, a, act), 0)
  {
    hide Do, Call, CarriedOnly, CarriedGas, CommittedAccepted, SameCarry;
    if MakesCall(w, a, act) {
      var from := ActionFrom(a, act);
      assert Carrying(w, from, 0);
      CallCarries(w, depth, from, ActionInput(a, act), act.callee, act.CallSame?, 0);
      DoesCall(w, depth, a, act);
    } else {
      SimpleActionCarry(w, depth, a, act);
      SimplePoints(w, depth, a, act);
      StillCarrying(w, a, Do(w, depth, a, act), 0, 0);
    }
  }

  lemma SimplePoints(w: World, depth: nat, a: Active, act: Action)
    requires !MakesCall(w, a, act)
    ensures a.points <= Do(w, depth, a, act).points && Do(w, depth, a, act).meter == a.meter
  {
    hide Transfer, SetStorage, GetStorage, GetStorageFromAddress, GetBalance, Dest, Same;
    if TouchesLedger(act) {
      LedgerPoints(w, depth, a, act);
    } else if act.CallDest? || act.CallSame? {
      DoesNotCall(w, depth, a, act);
    }
  }

  lemma LedgerPoints(w: World, depth: nat, a: Active, act: Action)
    requires TouchesLedger(act)
    ensures a.points <= Do(w, depth, a, act).points && Do(w, depth, a, act).meter == a.meter
  {
    hide Transfer, SetStorage, GetStorage, GetStorageFromAddress, GetBalance;
    match act
    case ReadStorage(key) =>
      StoragePoints(w, a, [], key, [], true);
      ReadTouches(w, a, [], key);
    case ReadStorageOf(x, key) =>
      StoragePoints(w, a, x, key, [], true);
      ReadTouches(w, a, x, key);
    case WriteStorage(key, data) =>
      StoragePoints(w, a, [], key, data, true);
      SetStorageTouches(w, a, key, data, true);
    case WriteProtected(key, data) =>
      StoragePoints(w, a, [], key, data, false);
      SetStorageTouches(w, a, key, data, false);
    case ReadBalance(x) => BalanceOnly(w, a, x);
    case SendValue(to, value, gas, data) => TransferOnly(w, a, to, a.rt.scAddress, gas, 0, value, data, DirectCall);
  }

  // ----- trees in which no transfer carries gas -----

  /** There, a callee that stayed within its gas was accepted. */
  lemma {:induction false} WithinIsAccepted(w: World, depth: nat, a: Active, p: Program)
    requires GasInvariant(a) && GasFree(w, p) && SharedWithin(Trace(w, depth, a, p))
    ensures SharedAccepted(w, depth, a, p)
    decreases p
  {
    hide GasInvariant, Do, SharedWithin, TraceAction, SharedActionAccepted, Accounted;
    match p
    case Step(act, rest) =>
      StepWithin(w, depth, a, p);
      ActionGas(w, depth, a, act);
      AccountedInvariant(a, Do(w, depth, a, act), ActionReport(w, depth, a, act), BurnedByAction(w, depth, a, act));
      ActionAccepted(w, depth, a, act);
      WithinIsAccepted(w, depth, Do(w, depth, a, act), rest);
    case End(_) =>
  }

  lemma ActionAccepted(w: World, depth: nat, a: Active, act: Action)
    requires GasInvariant(a) && GasFreeAction(w, act) && SharedWithin(TraceAction(w, depth, a, act))
    ensures SharedActionAccepted(w, depth, a, act)
  {
    hide Call, CallExecution, SharedWithin, TraceCall, Accepted, CloseGas, GasMatches, NoTransferGas, InnerGas, OwnGas,
      StartOf, Metered;
    if MakesCall(w, a, act) && act.CallSame? {
      var from, input := ActionFrom(a, act), ActionInput(a, act);
      var e := CallExecution(w, depth, from, input, act.callee, true);
      FrameGas(w, depth, from, input, act.callee, true);
      CallWithin(w, depth, from, input, act.callee, true);
      CallEnds(w, depth, from, input, act.callee, true);
      EndMetered(w, depth, from, input, act.callee, true);
      if Call(w, depth, from, input, act.callee, true).err.None? {
        CheckGasUnlocked(w, e.state);
        AcceptedExactly(e.state);
        CloseGasCode(e.state);
      }
    }
  }

  // ----- asynchronous calls -----

  lemma LeavingAsync(w: World, depth: nat, a: Active, e: Ending)
    requires e.AsyncCall? && Carrying(w, a, 0) && ExitsOnly(w, End(e), true)
    ensures Carrying(w, RunAsync(w, depth, a, e).state, 0)
  {
    hide AsyncStart, RunAsync, CallLocally, SendAsync, CarriedOnly, CarriedGas, SameCarry, GetCode;
    var s := AsyncStart(w, a, e);
    StartCarry(w, a, e);
    StartPoints(w, a, e);
    StillCarrying(w, a, s.state, 0, s.state.points - a.points);
    StillCarrying(w, a, s.state, 0, 0);
    AsyncIs(w, depth, a, e);
    if s.err.None? {
      var info := s.state.rt.asyncInfo.value;
      if GetCode(w, e.destination).err.Some? {
        SendCarries(w, s.state, info, s.state.points - a.points);
      } else {
        LegsCarry(w, depth, s.state, info, e, s.state.points - a.points);
      }
    }
  }

  lemma StartPoints(w: World, a: Active, e: Ending)
    requires e.AsyncCall? && a.meter.forExecution <= MAX_INT64
    ensures var s := AsyncStart(w, a, e);
            && a.points <= s.state.points && s.state.meter == a.meter
            && (s.err.None? ==>
                  && s.state.rt.asyncInfo.Some? && s.state.rt.asyncInfo.value.gasLocked <= s.state.points - a.points
                  && s.state.points <= s.state.meter.forExecution)
  {
    hide LockGas;
    LockIs(w, a, e);
  }

  /** Leaving the shard: limit and lock are carried away, and all the gas is burned. */
  lemma SendCarries(w: World, a: Active, info: AsyncCallInfo, slack: nat)
    requires Carrying(w, a, slack) && a.points <= a.meter.forExecution && GetCode(w, info.destination).err.Some?
    requires info.gasLimit <= GasLeft(a) && info.gasLocked <= slack
    ensures Carrying(w, SendAsync(w, a, info).state, 0)
  {
    hide CarriedOnly, CarriedGas, GetCode, Transfer, SameCarry;
    var to, limit, lock, value, data := info.destination, info.gasLimit, info.gasLocked, info.value, info.data;
    var t := Transfer(w, a, to, a.rt.scAddress, limit, lock, value, data, AsynchronousCall);
    SendCarriers(w, a, info);
    TransferOnly(w, a, to, a.rt.scAddress, limit, lock, value, data, AsynchronousCall);
    TransferEvolves(w, a, to, a.rt.scAddress, limit, lock, value, data, AsynchronousCall);
    TransferCarried(w, a, to, limit, lock, value, data);
  }

  lemma TransferCarried(w: World, a: Active, to: Address, limit: uint64, lock: uint64, value: int, data: Bytes)
    ensures var t := Transfer(w, a, to, a.rt.scAddress, limit, lock, value, data, AsynchronousCall);
            CarriedGas(t.state.out.accounts) == CarriedGas(a.out.accounts) + if t.err.None? then limit + lock else 0
  {
    hide CarriedGas, TransferValueOnly, AddTransfer, SameCarry;
    var t := TransferValueOnly(w, a, to, a.rt.scAddress, value, limit > 0);
    ValueCarry(w, a, to, a.rt.scAddress, value, limit > 0);
    CarryKept(w, a.out.accounts, t.state.out.accounts, true);
    OneTransfer(t.state.out.accounts, to, OutputTransfer(value, limit, lock, data, AsynchronousCall, a.rt.scAddress));
  }

  /** Both legs of a local call; the destination may itself have left the shard. */
  lemma LegsCarry(w: World, depth: nat, a: Active, info: AsyncCallInfo, e: Ending, slack: nat)
    requires e.AsyncCall? && Carrying(w, a, slack) && ExitsOnly(w, End(e), true)
    requires a.points <= a.meter.forExecution && info.gasLocked <= slack
    ensures Carrying(w, CallLocally(w, depth, a, info, e), 0)
  {
    hide Dest, CarriedOnly, CarriedGas, SumMap, CallbackGas, CallbackCost, CreateErrorOutput, GetCode, SameCarry,
      RestoreGas, CallLocally,
      CallBack;
    var input := DestinationInput(a, info, e.name);
    var o := Dest(w, depth, a, input, e.callee);
    LockWithinPoints(a, info, w, slack);
    CallsLocally(w, depth, a, info, e);
    CallCarries(w, depth, a, input, e.callee, false, slack);
    CallCost(w, depth, a, input, e.callee);
    if CallbackGas(o, info) <= CallbackCost(w, o) {
      ErrorCarry(w, o.state, ErrNotEnoughGas);
      ErrorKeeps(w, o.state);
      StillCarrying(w, o.state, CallLocally(w, depth, a, info, e), slack, 0);
    } else {
      var back := RestoreGas(o.state, info.gasLocked);
      CallbackCovered(w, a, o, info);
      RestoredOnly(o.state, info.gasLocked);
      SameCarrySelf(o.state.out.accounts);
      StillCarrying(w, o.state, back, slack, slack - info.gasLocked);
      StillCarrying(w, o.state, back, slack, 0);
      var cbInput := CallbackInput(w, back, info, o);
      CallCarries(w, depth, back, cbInput, e.callback, false, 0);
      var cb := Dest(w, depth, back, cbInput, e.callback);
      SameCarrySelf(cb.state.out.accounts);
      StillCarrying(w, cb.state, CallLocally(w, depth, a, info, e), 0, 0);
    }
  }

  lemma LockWithinPoints(a: Active, info: AsyncCallInfo, w: World, slack: nat)
    requires Carrying(w, a, slack) && info.gasLocked <= slack
    ensures info.gasLocked <= a.points
  {
    CarriedNonNegative(a.out.accounts);
    SumNonNegative(a.meter.used);
  }

  lemma ErrorKeeps(w: World, a: Active)
    ensures var b := CreateErrorOutput(w, a, ErrNotEnoughGas).state; b == SetAccounts(a, b.out.accounts)
  {
  }

  // ----- callees that inherit carried gas -----

  /** A callee that ended without error is kept exactly when it stayed within its gas and spent at
      least all that is recorded, what its caller had carried away before included. */
  lemma KeptExactly(w: World, depth: nat, a: Active, input: CallInput, c: Contract)
    requires CarriedOnly(w, a.out.accounts, true) && ExitsOnly(w, c.body, true) && Visible(input.vm)
    requires DestExecution(w, depth, a, input, c).err.None?
    ensures var e := DestExecution(w, depth, a, input, c).state;
            && (Dest(w, depth, a, input, c).err.None? <==> e.points <= e.meter.forExecution && Recorded(e) <= Spent(e))
            && CarriedGas(a.out.accounts) <= Recorded(e)
  {
    hide Dest, DestExecution, CarriedOnly, CarriedByCurrent, CloseGas, GasMatches, Metered, CarriedGas, OthersUsed;
    var e := CallExecution(w, depth, a, input, c, false).state;
    EndOfCallee(w, depth, a, input, c, false);
    ErrorOutputCode(w, depth, a, input, c);
    AcceptedExactly(e);
    CloseGasCode(e);
    CurrentIsPartOfCarried(e);
    CallExecutionEvolves(w, depth, a, input, c, false);
    CarriedGrows(a.out.accounts, e.out.accounts);
    EnsureCarried(e);
  }

  /** A callback after its destination has left the shard: it is kept only if it spends at least
      the gas that was carried away. */
  lemma CallbackPaysForExit(w: World, depth: nat, o: Outcome, info: AsyncCallInfo, e: Ending)
    requires e.AsyncCall? && CallbackGas(o, info) > CallbackCost(w, o)
    requires CarriedOnly(w, o.state.out.accounts, true) && ExitsOnly(w, e.callback.body, true)
    requires CallbackGas(o, info) <= MAX_INT64
    ensures var back := RestoreGas(o.state, info.gasLocked);
            var input := CallbackInput(w, back, info, o);
            var end, cb := DestExecution(w, depth, back, input, e.callback), Dest(w, depth, back, input, e.callback);
            end.err.None? ==>
              && (cb.err.None? <==>
                    end.state.points <= end.state.meter.forExecution
                    && Recorded(end.state) <= Spent(end.state))
              && (cb.err.None? ==> CarriedGas(o.state.out.accounts) <= Spent(end.state) <= input.vm.gasProvided)
  {
    hide Dest, DestExecution, CarriedOnly, CarriedGas, Recorded, CallbackCost;
    var back := RestoreGas(o.state, info.gasLocked);
    var input := CallbackInput(w, back, info, o);
    if DestExecution(w, depth, back, input, e.callback).err.None? {
      KeptExactly(w, depth, back, input, e.callback);
      EndOfCallee(w, depth, back, input, e.callback, false);
    }
  }

  lemma CarriedGrows(a: Accounts, b: Accounts)
    requires Extends(a, b)
    ensures CarriedGas(a) <= CarriedGas(b)
  {
    hide TransferGas;
    var grown := map x | x in b :: TransferGas(b[x].transfers) - TransferGas(Account(a, x).transfers);
    var before := map x | x in b :: TransferGas(Account(a, x).transfers);
    forall x | x in b
      ensures 0 <= grown[x]
    {
      if x in a {
        assert ExtendsAccount(a[x], b[x]);
        PrefixCarries(a[x].transfers, b[x].transfers);
      } else {
        NothingInNew();
      }
    }
    NothingInNew();
    SumSupport(Carried(a), before);
    SumPointwise(before, grown, Carried(b));
    SumNonNegative(grown);
  }

  lemma {:induction false} PrefixCarries(u: seq<OutputTransfer>, v: seq<OutputTransfer>)
    requires u <= v
    ensures TransferGas(u) <= TransferGas(v)
    decreases |v|
  {
    if |u| < |v| {
      PrefixCarries(u, v[..|v| - 1]);
    } else {
      assert u == v;
    }
  }
}
