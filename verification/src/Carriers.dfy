/** Who carries gas: in trees where only calls to other shards carry any, no account on this shard
    ever does, whatever is committed, undone or overspent. */
module Carriers {
  import opened Types
  import opened Sums
  import opened Ledger
  import opened Frame
  import opened Calls
  import opened Conservation
  import opened Traces
  import opened GasIdentity
  import opened CrossShard

  /** No transfer that a contract sends carries gas. With `exits`, asynchronous calls may leave the
      shard, and carry all the gas that is left. */
  ghost predicate ExitsOnly(w: World, p: Program, exits: bool)
    decreases p
  {
    match p
    case Step(act, rest) => ExitsOnlyAction(w, act, exits) && ExitsOnly(w, rest, exits)
    case End(e) =>
      e.AsyncCall? ==>
        && (exits || GetCode(w, e.destination).err.None?)
        && ExitsOnly(w, e.callee.body, exits) && ExitsOnly(w, e.callback.body, exits)
  }

  ghost predicate ExitsOnlyAction(w: World, act: Action, exits: bool)
    decreases act
  {
    && (act.SendValue? ==> act.transferGas == 0)
    && (act.CallDest? || act.CallSame? ==> ExitsOnly(w, act.callee.body, exits))
  }

  lemma {:induction false} GasFreeIs(w: World, p: Program, exits: bool)
    requires GasFree(w, p)
    ensures ExitsOnly(w, p, exits)
    decreases p
  {
    match p
    case Step(act, rest) =>
      GasFreeIs(w, rest, exits);
      if act.CallDest? || act.CallSame? {
        GasFreeIs(w, act.callee.body, exits);
      }
    case End(e) =>
      if e.AsyncCall? {
        GasFreeIs(w, e.callee.body, exits);
        GasFreeIs(w, e.callback.body, exits);
      }
  }

  /** Gas is carried to no account, or with `exits` only to those without code here. */
  ghost predicate CarriedOnly(w: World, accounts: Accounts, exits: bool) {
    forall x :: x in accounts && TransferGas(accounts[x].transfers) > 0 ==> exits && GetCode(w, x).err.Some?
  }

  // ----- steps that carry nothing -----

  /** The gas carried to each account stays the same. */
  ghost predicate SameCarry(a: Accounts, b: Accounts) {
    && a.Keys <= b.Keys
    && forall x :: x in b ==> TransferGas(b[x].transfers) == TransferGas(Account(a, x).transfers)
  }

  lemma CarryKept(w: World, a: Accounts, b: Accounts, exits: bool)
    requires SameCarry(a, b)
    ensures CarriedGas(b) == CarriedGas(a)
    ensures CarriedOnly(w, a, exits) ==> CarriedOnly(w, b, exits)
  {
    SumSupport(Carried(a), Carried(b));
    if CarriedOnly(w, a, exits) {
      forall x | x in b && TransferGas(b[x].transfers) > 0
        ensures exits && GetCode(w, x).err.Some?
      {
        assert x in a;
      }
    }
  }

  lemma SameCarrySelf(a: Accounts)
    ensures SameCarry(a, a)
  {
    hide TransferGas;
  }

  lemma SameCarryTransitive(a: Accounts, b: Accounts, c: Accounts)
    requires SameCarry(a, b) && SameCarry(b, c)
    ensures SameCarry(a, c)
  {
    hide TransferGas;
    forall x | x in c
      ensures TransferGas(c[x].transfers) == TransferGas(Account(a, x).transfers)
    {
      if x !in b {
        assert Account(a, x) == NEW_ACCOUNT == Account(b, x);
      }
    }
  }

  lemma OverlayCarry(accounts: Accounts, x: Address, key: Bytes, value: Bytes)
    ensures SameCarry(accounts, PutOverlay(accounts, x, key, value)) && SameCarry(accounts, accounts)
  {
    hide TransferGas;
  }

  lemma BalanceCarry(w: World, a: Active, x: Address)
    ensures SameCarry(a.out.accounts, GetBalance(w, a, x).state.out.accounts)
  {
    hide TransferGas;
  }

  lemma MoveCarry(accounts: Accounts, from: Address, to: Address, value: int)
    ensures SameCarry(accounts, Move(accounts, from, to, value))
  {
    hide TransferGas;
  }

  lemma TransferCarry(w: World, a: Active, to: Address, value: int, data: Bytes)
    ensures SameCarry(a.out.accounts, Transfer(w, a, to, a.rt.scAddress, 0, 0, value, data,
                                               DirectCall).state.out.accounts)
  {
    hide TransferGas, GetBalance, Move, AddTransfer, SameCarry;
    var from := a.rt.scAddress;
    var b := GetBalance(w, a, from).state.out.accounts;
    var t := TransferValueOnly(w, a, to, from, value, false);
    BalanceCarry(w, a, from);
    MoveCarry(b, from, to, value);
    OverlayCarry(a.out.accounts, [], [], []);
    SameCarryTransitive(a.out.accounts, b, Move(b, from, to, value));
    if t.err.None? {
      EmptyTransferCarry(t.state.out.accounts, to, OutputTransfer(value, 0, 0, data, DirectCall, from));
      SameCarryTransitive(a.out.accounts, t.state.out.accounts,
                          AddTransfer(t.state.out.accounts, to, OutputTransfer(value, 0, 0, data, DirectCall, from)));
    }
  }

  lemma EmptyTransferCarry(accounts: Accounts, to: Address, transfer: OutputTransfer)
    requires transfer.gasLimit == transfer.gasLocked == 0
    ensures SameCarry(accounts, AddTransfer(accounts, to, transfer))
  {
    hide TransferGas;
    OneMore(Account(accounts, to).transfers, transfer);
  }

  lemma LedgerActionCarry(w: World, depth: nat, a: Active, act: Action)
    requires TouchesLedger(act) && (act.SendValue? ==> act.transferGas == 0)
    ensures SameCarry(a.out.accounts, Do(w, depth, a, act).out.accounts)
  {
    hide TransferGas, Transfer, SetStorage, GetStorage, GetStorageFromAddress, GetBalance, SameCarry, PutOverlay;
    SameCarrySelf(a.out.accounts);
    match act
    case ReadStorage(key) =>
      ReadTouches(w, a, [], key);
      OverlayCarry(a.out.accounts, a.storageAddress, key, View(w, a.out.accounts, a.storageAddress, key));
    case ReadStorageOf(x, key) =>
      ReadTouches(w, a, x, key);
      OverlayCarry(a.out.accounts, x, key, View(w, a.out.accounts, x, key));
    case WriteStorage(key, data) =>
      SetStorageTouches(w, a, key, data, true);
      OverlayCarry(a.out.accounts, a.storageAddress, key, data);
    case WriteProtected(key, data) =>
      SetStorageTouches(w, a, key, data, false);
      OverlayCarry(a.out.accounts, a.storageAddress, key, data);
    case ReadBalance(x) => BalanceCarry(w, a, x);
    case SendValue(to, value, _, data) => TransferCarry(w, a, to, value, data);
  }

  lemma SimpleActionCarry(w: World, depth: nat, a: Active, act: Action)
    requires !MakesCall(w, a, act) && (act.SendValue? ==> act.transferGas == 0)
    ensures SameCarry(a.out.accounts, Do(w, depth, a, act).out.accounts)
  {
    hide Transfer, SetStorage, GetStorage, GetStorageFromAddress, GetBalance, SameCarry, Dest, Same;
    SameCarrySelf(a.out.accounts);
    if TouchesLedger(act) {
      LedgerActionCarry(w, depth, a, act);
    } else if act.CallDest? || act.CallSame? {
      DoesNotCall(w, depth, a, act);
    }
  }

  // ----- a frame's life -----

  lemma ValueCarry(w: World, a: Active, to: Address, from: Address, value: int, check: bool)
    ensures SameCarry(a.out.accounts, TransferValueOnly(w, a, to, from, value, check).state.out.accounts)
  {
    hide TransferGas, GetBalance, Move, SameCarry;
    var b := GetBalance(w, a, from).state.out.accounts;
    SameCarrySelf(a.out.accounts);
    BalanceCarry(w, a, from);
    MoveCarry(b, from, to, value);
    SameCarryTransitive(a.out.accounts, b, Move(b, from, to, value));
  }

  lemma PaidCarry(w: World, a: Active, input: CallInput, shared: bool)
    ensures SameCarry(a.out.accounts, Paid(w, a, input, shared).state.out.accounts)
  {
    hide TransferValueOnly, SameCarry;
    SameCarrySelf(a.out.accounts);
    ValueCarry(w, Entered(a, input, shared), input.recipient, input.vm.caller, input.vm.value, false);
  }

  lemma EnsureCarry(accounts: Accounts, x: Address)
    ensures SameCarry(accounts, Ensure(accounts, x))
  {
    hide TransferGas;
  }

  lemma GasUsedCarry(accounts: Accounts, used: GasMap)
    ensures SameCarry(accounts, SetGasUsed(accounts, used))
  {
    hide TransferGas;
  }

  lemma CloseCarry(a: Active)
    ensures SameCarry(a.out.accounts, CloseGas(a).out.accounts)
  {
    hide CloseGas, SameCarry;
    var known := FinalAccounts(a);
    ClosedIs(a);
    EnsureCarry(a.out.accounts, a.rt.scAddress);
    GasUsedCarry(known, CloseGas(a).meter.used);
    SameCarryTransitive(a.out.accounts, known, CloseGas(a).out.accounts);
  }

  lemma ErrorCarry(w: World, a: Active, err: Error)
    ensures SameCarry(a.out.accounts, CreateErrorOutput(w, a, err).state.out.accounts)
  {
    hide TransferGas;
  }

  lemma OutputCarry(w: World, a: Active)
    ensures SameCarry(a.out.accounts, GetVMOutput(w, a).state.out.accounts)
  {
    hide CloseGas, GasMatches, CreateErrorOutput, SameCarry;
    var closed := CloseGas(a);
    CloseCarry(a);
    ErrorCarry(w, closed, ErrAccountMissing);
    ErrorCarry(w, closed, ErrGasMismatch);
    SameCarryTransitive(a.out.accounts, closed.out.accounts,
                        CreateErrorOutput(w, closed, ErrAccountMissing).state.out.accounts);
    SameCarryTransitive(a.out.accounts, closed.out.accounts,
                        CreateErrorOutput(w, closed, ErrGasMismatch).state.out.accounts);
  }

  /** What a caller sees of a committed call are the accounts of the callee's output. */
  lemma CommittedAccounts(w: World, depth: nat, a: Active, input: CallInput, c: Contract, shared: bool)
    requires Call(w, depth, a, input, c, shared).err.None?
    ensures Call(w, depth, a, input, c, shared).state.out.accounts
            == GetVMOutput(w, CallExecution(w, depth, a, input, c, shared).state).state.out.accounts
  {
    hide Execute, CreateErrorOutput, GetVMOutput, PayCall, TransferValueOnly, MergeAccounts, MergeGas;
    CallEnds(w, depth, a, input, c, shared);
    if shared {
      SameCommitState(w, depth, a, input, c);
    } else {
      DestCommits(w, depth, a, input, c);
    }
  }

  // ----- whole runs -----

  /** In every run of such a tree, wherever it starts. */
  lemma {:induction false} RunCarriers(w: World, depth: nat, a: Active, p: Program, exits: bool)
    requires CarriedOnly(w, a.out.accounts, exits) && ExitsOnly(w, p, exits)
    ensures CarriedOnly(w, Run(w, depth, a, p).state.out.accounts, exits)
    decreases p
  {
    hide CarriedOnly, Do, RunAsync;
    match p
    case Step(act, rest) =>
      ActionCarriers(w, depth, a, act, exits);
      RunCarriers(w, depth, Do(w, depth, a, act), rest, exits);
    case End(e) =>
      if e.AsyncCall? {
        AsyncCarriers(w, depth, a, e, exits);
      }
  }

  lemma {:induction false} ActionCarriers(w: World, depth: nat, a: Active, act: Action, exits: bool)
    requires CarriedOnly(w, a.out.accounts, exits) && ExitsOnlyAction(w, act, exits)
    ensures CarriedOnly(w, Do(w, depth, a, act).out.accounts, exits)
    decreases act
  {
    hide CarriedOnly, Do, Call, SameCarry;
    if MakesCall(w, a, act) {
      CallCarriers(w, depth, ActionFrom(a, act), ActionInput(a, act), act.callee, act.CallSame?, exits);
      DoesCall(w, depth, a, act);
    } else {
      SimpleActionCarry(w, depth, a, act);
      CarryKept(w, a.out.accounts, Do(w, depth, a, act).out.accounts, exits);
    }
  }

  lemma {:induction false} ExecutionCarriers(
    w: World, depth: nat, a: Active, input: CallInput, c: Contract, shared: bool, exits: bool)
    requires CarriedOnly(w, a.out.accounts, exits) && ExitsOnly(w, c.body, exits)
    ensures CarriedOnly(w, CallExecution(w, depth, a, input, c, shared).state.out.accounts, exits)
    decreases c, 1
  {
    hide CarriedOnly, CallExecution, Paid, Execute, ExitsOnly, SameCarry;
    var pay := Paid(w, a, input, shared);
    CallExecutionIs(w, depth, a, input, c, shared);
    PaidCarry(w, a, input, shared);
    CarryKept(w, a.out.accounts, pay.state.out.accounts, exits);
    if pay.err.None? {
      ExecuteCarriers(w, depth + 1, pay.state, input, c, exits);
    }
  }

  lemma {:induction false} CallCarriers(
    w: World, depth: nat, a: Active, input: CallInput, c: Contract, shared: bool, exits: bool)
    requires CarriedOnly(w, a.out.accounts, exits) && ExitsOnly(w, c.body, exits)
    ensures CarriedOnly(w, Call(w, depth, a, input, c, shared).state.out.accounts, exits)
    decreases c, 2
  {
    hide CarriedOnly, Call, CallExecution, GetVMOutput, ExitsOnly, SameCarry;
    var e := CallExecution(w, depth, a, input, c, shared);
    ExecutionCarriers(w, depth, a, input, c, shared, exits);
    if Call(w, depth, a, input, c, shared).err.Some? {
      FailedCall(w, depth, a, input, c, shared);
    } else {
      OutputCarry(w, e.state);
      CarryKept(w, e.state.out.accounts, GetVMOutput(w, e.state).state.out.accounts, exits);
      CommittedAccounts(w, depth, a, input, c, shared);
    }
  }

  lemma {:induction false} ExecuteCarriers(w: World, depth: nat, a: Active, input: CallInput, c: Contract, exits: bool)
    requires CarriedOnly(w, a.out.accounts, exits) && ExitsOnly(w, c.body, exits)
    ensures CarriedOnly(w, Execute(w, depth, a, input, c).state.out.accounts, exits)
    decreases c, 0
  {
    hide CarriedOnly, Prepare, Run, SameCarry;
    var p := Prepare(w, depth, a, input, c.starts);
    PrepareLedger(w, depth, a, input, c.starts);
    SameCarrySelf(a.out.accounts);
    EnsureCarry(a.out.accounts, input.recipient);
    CarryKept(w, a.out.accounts, p.state.out.accounts, exits);
    if p.err.None? && c.entry.Found? {
      RunCarriers(w, depth, p.state, c.body, exits);
    }
  }

  lemma StartCarry(w: World, a: Active, e: Ending)
    requires e.AsyncCall?
    ensures SameCarry(a.out.accounts, AsyncStart(w, a, e).state.out.accounts)
    ensures AsyncStart(w, a, e).err.None? ==>
              var s := AsyncStart(w, a, e).state;
              s.rt.asyncInfo.Some? && s.rt.asyncInfo.value.destination == e.destination
  {
    hide SameCarry;
    SameCarrySelf(a.out.accounts);
    EnsureCarry(a.out.accounts, e.destination);
  }

  lemma {:induction false} AsyncCarriers(w: World, depth: nat, a: Active, e: Ending, exits: bool)
    requires e.AsyncCall? && CarriedOnly(w, a.out.accounts, exits) && ExitsOnly(w, End(e), exits)
    ensures CarriedOnly(w, RunAsync(w, depth, a, e).state.out.accounts, exits)
    decreases e
  {
    hide CarriedOnly, GetCode, CallLocally, SendAsync, SameCarry;
    StartCarry(w, a, e);
    var s := AsyncStart(w, a, e);
    CarryKept(w, a.out.accounts, s.state.out.accounts, exits);
    if s.err.None? {
      var info := s.state.rt.asyncInfo.value;
      LegsCarriers(w, depth, s.state, info, e, exits);
      if GetCode(w, e.destination).err.Some? {
        SendCarriers(w, s.state, info);
      }
    }
  }

  lemma SendCarriers(w: World, a: Active, info: AsyncCallInfo)
    requires CarriedOnly(w, a.out.accounts, true) && GetCode(w, info.destination).err.Some?
    ensures CarriedOnly(w, SendAsync(w, a, info).state.out.accounts, true)
  {
    hide TransferGas, GetCode, TransferValueOnly, SameCarry;
    var t := TransferValueOnly(w, a, info.destination, a.rt.scAddress, info.value, info.gasLimit > 0);
    ValueCarry(w, a, info.destination, a.rt.scAddress, info.value, info.gasLimit > 0);
    CarryKept(w, a.out.accounts, t.state.out.accounts, true);
  }

  lemma {:induction false} LegsCarriers(w: World, depth: nat, a: Active, info: AsyncCallInfo, e: Ending, exits: bool)
    requires e.AsyncCall? && CarriedOnly(w, a.out.accounts, exits) && ExitsOnly(w, End(e), exits)
    ensures CarriedOnly(w, CallLocally(w, depth, a, info, e).out.accounts, exits)
    decreases e, 0
  {
    hide CarriedOnly, Dest, CallbackGas, CallbackCost, CreateErrorOutput, SameCarry, GetCode;
    var input := DestinationInput(a, info, e.name);
    var o := Dest(w, depth, a, input, e.callee);
    CallCarriers(w, depth, a, input, e.callee, false, exits);
    if CallbackGas(o, info) <= CallbackCost(w, o) {
      ErrorCarry(w, o.state, ErrNotEnoughGas);
      CarryKept(w, o.state.out.accounts, CreateErrorOutput(w, o.state, ErrNotEnoughGas).state.out.accounts, exits);
    } else {
      var back := RestoreGas(o.state, info.gasLocked);
      CallCarriers(w, depth, back, CallbackInput(w, back, info, o), e.callback, false, exits);
    }
  }
}
