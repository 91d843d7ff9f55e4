/** The cached storage overlay behaves like a plain map with transactional frames: at the end
    of any run a read finds the last write that survived, or else what was there before. */
module StorageView {
  import opened Overflow
  import opened Types
  import opened Ledger
  import opened Frame
  import opened Calls
  import opened Conservation
  import opened Traces
  import opened AsyncCost

  datatype Write = Write(address: Address, key: Bytes, value: Bytes)

  /** A plain store: the last write to a cell, or else its previous content. */
  ghost function Lookup(writes: seq<Write>, x: Address, key: Bytes, before: Bytes): Bytes {
    if writes == [] then before else
    var last := writes[|writes| - 1];
    if last.address == x && last.key == key then last.value else Lookup(writes[..|writes| - 1], x, key, before)
  }

  lemma {:induction false} LookupConcat(u: seq<Write>, v: seq<Write>, x: Address, key: Bytes, before: Bytes)
    ensures Lookup(u + v, x, key, before) == Lookup(v, x, key, Lookup(u, x, key, before))
    decreases |v|
  {
    if v == [] {
      assert u + v == u;
    } else {
      var rest := v[..|v| - 1];
      assert (u + v)[..|u + v| - 1] == u + rest;
      LookupConcat(u, rest, x, key, before);
    }
  }

  // ----- the writes that survive a run -----

  ghost function Writes(w: World, depth: nat, a: Active, p: Program): seq<Write>
    decreases p
  {
    match p
    case Step(act, rest) => ActionWrites(w, depth, a, act) + Writes(w, depth, Do(w, depth, a, act), rest)
    case End(e) => if e.AsyncCall? then AsyncWrites(w, depth, a, e) else []
  }

  ghost function StoreWrites(w: World, a: Active, key: Bytes, value: Bytes, protection: bool): seq<Write> {
    if WriteAllowed(w, a, key, protection) then [Write(a.storageAddress, key, value)] else []
  }

  ghost function ActionWrites(w: World, depth: nat, a: Active, act: Action): seq<Write>
    decreases act
  {
    match act
    case WriteStorage(key, data) => StoreWrites(w, a, key, data, true)
    case WriteProtected(key, data) => StoreWrites(w, a, key, data, false)
    case CallDest(_, _, _, _, _, callee) =>
      if MakesCall(w, a, act) then DestWrites(w, depth, a, ActionInput(a, act), callee) else []
    case CallSame(_, _, _, _, _, callee) =>
      if MakesCall(w, a, act) then SameWrites(w, depth, ActionFrom(a, act), ActionInput(a, act), callee) else []
    case _ => []
  }

  ghost function ExecuteWrites(w: World, depth: nat, a: Active, input: CallInput, c: Contract): seq<Write>
    decreases c, 0
  {
    var p := Prepare(w, depth, a, input, c.starts);
    if p.err.None? && c.entry.Found? then Writes(w, depth, p.state, c.body) else []
  }

  /** The writes of a failed call are lost. */
  ghost function DestWrites(w: World, depth: nat, a: Active, input: CallInput, c: Contract): seq<Write>
    decreases c, 1
  {
    if Dest(w, depth, a, input, c).err.Some? then []
    else ExecuteWrites(w, depth + 1, PayCall(w, Enter(a, input), input).state, input, c)
  }

  ghost function SameEntry(w: World, a: Active, input: CallInput): Attempt {
    TransferValueOnly(w, EnterSame(a, input),
                      input.recipient, input.vm.caller, input.vm.value, false)
  }

  ghost function SameWrites(w: World, depth: nat, a: Active, input: CallInput, c: Contract): seq<Write>
    decreases c, 1
  {
    var e := SameExecution(w, depth, a, input, c);
    if e.err.Some? || e.state.out.code != Ok then []
    else ExecuteWrites(w, depth + 1, SameEntry(w, a, input).state, input, c)
  }

  ghost function AsyncWrites(w: World, depth: nat, a: Active, e: Ending): seq<Write>
    requires e.AsyncCall?
    decreases e, 1
  {
    var s := AsyncStart(w, a, e);
    if s.err.Some? || s.state.rt.asyncInfo.None? || GetCode(w, e.destination).err.Some? then []
    else LegWrites(w, depth, s.state, s.state.rt.asyncInfo.value, e)
  }

  ghost function LegWrites(w: World, depth: nat, a: Active, info: AsyncCallInfo, e: Ending): seq<Write>
    requires e.AsyncCall?
    decreases e, 0
  {
    var input := DestinationInput(a, info, e.name);
    var o := Dest(w, depth, a, input, e.callee);
    DestWrites(w, depth, a, input, e.callee) +
    if CallbackGas(o, info) <= CallbackCost(w, o) then [] else
    var back := RestoreGas(o.state, info.gasLocked);
    DestWrites(w, depth, back, CallbackInput(w, back, info, o), e.callback)
  }

  // ----- the overlay refines the plain store -----

  ghost predicate Refines(w: World, a: Accounts, b: Accounts, writes: seq<Write>) {
    forall x, key :: View(w, b, x, key) == Lookup(writes, x, key, View(w, a, x, key))
  }

  ghost predicate SameStorage(a: Accounts, b: Accounts) {
    forall x :: Account(b, x).storage == Account(a, x).storage
  }

  lemma SameRefines(w: World, a: Accounts, b: Accounts)
    requires SameStorage(a, b)
    ensures Refines(w, a, b, [])
  {
    forall x, key
      ensures View(w, b, x, key) == View(w, a, x, key)
    {
      assert Account(b, x).storage == Account(a, x).storage;
    }
  }

  lemma RefinesTransitive(w: World, a: Accounts, b: Accounts, c: Accounts, u: seq<Write>, v: seq<Write>)
    requires Refines(w, a, b, u) && Refines(w, b, c, v)
    ensures Refines(w, a, c, u + v)
  {
    forall x, key
      ensures View(w, c, x, key) == Lookup(u + v, x, key, View(w, a, x, key))
    {
      LookupConcat(u, v, x, key, View(w, a, x, key));
      assert View(w, b, x, key) == Lookup(u, x, key, View(w, a, x, key));
    }
  }

  /** Steps that leave the storage alone, around steps that write. */
  lemma RefinesBetween(w: World, a: Accounts, b: Accounts, c: Accounts, d: Accounts, writes: seq<Write>)
    requires SameStorage(a, b) && Refines(w, b, c, writes) && SameStorage(c, d)
    ensures Refines(w, a, d, writes)
  {
    forall x, key
      ensures View(w, d, x, key) == Lookup(writes, x, key, View(w, a, x, key))
    {
      assert Account(b, x).storage == Account(a, x).storage;
      assert Account(d, x).storage == Account(c, x).storage;
      assert View(w, c, x, key) == Lookup(writes, x, key, View(w, b, x, key));
    }
  }

  lemma PutRefines(w: World, a: Accounts, x: Address, key: Bytes, value: Bytes)
    ensures Refines(w, a, PutOverlay(a, x, key, value), [Write(x, key, value)])
  {
    var writes := [Write(x, key, value)];
    assert writes[..0] == [];
    forall x', key'
      ensures View(w, PutOverlay(a, x, key, value), x', key') == Lookup(writes, x', key', View(w, a, x', key'))
    {
      assert Lookup([], x', key', View(w, a, x', key')) == View(w, a, x', key');
    }
  }

  /** Caching a read changes nothing that later reads see. */
  lemma CacheRefines(w: World, a: Accounts, x: Address, key: Bytes)
    ensures Refines(w, a, PutOverlay(a, x, key, View(w, a, x, key)), [])
  {
  }

  lemma SetStorageRefines(w: World, a: Active, key: Bytes, value: Bytes, protection: bool)
    ensures Refines(w, a.out.accounts, SetStorage(w, a, key, value, protection).out.accounts,
                    StoreWrites(w, a, key, value, protection))
  {
    SetStorageTouches(w, a, key, value, protection);
    PutRefines(w, a.out.accounts, a.storageAddress, key, value);
    SameRefines(w, a.out.accounts, a.out.accounts);
  }

  lemma ReadRefines(w: World, a: Active, x: Address, key: Bytes)
    ensures Refines(w, a.out.accounts, GetStorage(w, a, key).out.accounts, [])
    ensures Refines(w, a.out.accounts, GetStorageFromAddress(w, a, x, key).out.accounts, [])
  {
    ReadTouches(w, a, x, key);
    CacheRefines(w, a.out.accounts, a.storageAddress, key);
    CacheRefines(w, a.out.accounts, x, key);
    SameRefines(w, a.out.accounts, a.out.accounts);
  }

  lemma TransferValueStorage(w: World, a: Active, to: Address, from: Address, value: int, check: bool)
    ensures SameStorage(a.out.accounts, TransferValueOnly(w, a, to, from, value, check).state.out.accounts)
  {
    var b := GetBalance(w, a, from).state.out.accounts;
    BalanceStorage(w, a, from);
    MoveStorage(b, from, to, value);
    StorageTransitive(a.out.accounts, b, Move(b, from, to, value));
  }

  lemma BalanceStorage(w: World, a: Active, x: Address)
    ensures SameStorage(a.out.accounts, GetBalance(w, a, x).state.out.accounts)
  {
  }

  lemma MoveStorage(accounts: Accounts, from: Address, to: Address, value: int)
    ensures SameStorage(accounts, Move(accounts, from, to, value))
  {
  }

  lemma StorageTransitive(a: Accounts, b: Accounts, c: Accounts)
    requires SameStorage(a, b) && SameStorage(b, c)
    ensures SameStorage(a, c)
  {
    forall x
      ensures Account(c, x).storage == Account(a, x).storage
    {
      assert Account(b, x).storage == Account(a, x).storage;
    }
  }

  lemma TransferStorage(
    w: World, a: Active, to: Address, from: Address, limit: uint64, locked: uint64, value: int, data: Bytes,
      ct: CallType)
    ensures SameStorage(a.out.accounts, Transfer(w, a, to, from, limit, locked, value, data, ct).state.out.accounts)
  {
    TransferValueStorage(w, a, to, from, value, limit > 0 && ct != AsynchronousCallBack);
  }

  lemma EnsureStorage(accounts: Accounts, x: Address)
    ensures SameStorage(accounts, Ensure(accounts, x))
  {
  }

  lemma GasUsedStorage(accounts: Accounts, used: GasMap)
    ensures SameStorage(accounts, SetGasUsed(accounts, used))
  {
  }

  lemma OutputStorage(w: World, a: Active, err: Error)
    ensures SameStorage(a.out.accounts, CreateErrorOutput(w, a, err).state.out.accounts)
    ensures SameStorage(a.out.accounts, CloseGas(a).out.accounts)
  {
    hide CloseGas;
    ClosedIs(a);
    EnsureStorage(a.out.accounts, a.rt.scAddress);
    GasUsedStorage(Ensure(a.out.accounts, a.rt.scAddress), CloseGas(a).meter.used);
    StorageTransitive(a.out.accounts, Ensure(a.out.accounts, a.rt.scAddress), CloseGas(a).out.accounts);
  }

  lemma GetVMOutputStorage(w: World, a: Active)
    ensures SameStorage(a.out.accounts, GetVMOutput(w, a).state.out.accounts)
  {
    hide CloseGas, CreateErrorOutput, GasMatches, SameStorage;
    var closed := CloseGas(a);
    OutputStorage(w, a, ErrGasMismatch);
    OutputStorage(w, closed, ErrGasMismatch);
    OutputStorage(w, closed, ErrAccountMissing);
    StorageTransitive(a.out.accounts, closed.out.accounts,
                      CreateErrorOutput(w, closed, ErrGasMismatch).state.out.accounts);
    StorageTransitive(a.out.accounts, closed.out.accounts,
                      CreateErrorOutput(w, closed, ErrAccountMissing).state.out.accounts);
  }

  lemma {:induction false} ExecuteRefines(w: World, depth: nat, a: Active, input: CallInput, c: Contract)
    ensures Refines(w, a.out.accounts, Execute(w, depth, a, input, c).state.out.accounts,
                    ExecuteWrites(w, depth, a, input, c))
    decreases c, 0
  {
    hide Prepare, Run, Refines;
    var p := Prepare(w, depth, a, input, c.starts);
    PrepareStorage(w, depth, a, input, c.starts);
    SameRefines(w, a.out.accounts, p.state.out.accounts);
    if p.err.None? && c.entry.Found? {
      RunRefines(w, depth, p.state, c.body);
      var r := Run(w, depth, p.state, c.body).state;
      RefinesTransitive(w, a.out.accounts, p.state.out.accounts, r.out.accounts, [], Writes(w, depth, p.state, c.body));
      assert [] + Writes(w, depth, p.state, c.body) == Writes(w, depth, p.state, c.body);
    }
  }

  lemma PrepareStorage(w: World, depth: nat, a: Active, input: CallInput, starts: bool)
    ensures SameStorage(a.out.accounts, Prepare(w, depth, a, input, starts).state.out.accounts)
  {
    hide Prepare;
    PrepareLedger(w, depth, a, input, starts);
  }

  lemma {:induction false} DestRefines(w: World, depth: nat, a: Active, input: CallInput, c: Contract)
    ensures Refines(w, a.out.accounts, Dest(w, depth, a, input, c).state.out.accounts,
                    DestWrites(w, depth, a, input, c))
    decreases c, 2
  {
    if Dest(w, depth, a, input, c).err.Some? {
      DestRollsBack(w, depth, a, input, c);
      SameRefines(w, a.out.accounts, a.out.accounts);
    } else {
      CommittedRefines(w, depth, a, input, c);
    }
  }

  lemma {:induction false} CommittedRefines(w: World, depth: nat, a: Active, input: CallInput, c: Contract)
    requires Dest(w, depth, a, input, c).err.None?
    ensures Refines(w, a.out.accounts, Dest(w, depth, a, input, c).state.out.accounts,
                    DestWrites(w, depth, a, input, c))
    decreases c, 1
  {
    var pay := PayCall(w, Enter(a, input), input).state;
    var e := DestExecution(w, depth, a, input, c);
    var closed := DestOutput(w, depth, a, input, c).state;
    DestCommits(w, depth, a, input, c);
    CommittedExecution(w, depth, a, input, c);
    PayCallStorage(w, Enter(a, input), input);
    ExecuteRefines(w, depth + 1, pay, input, c);
    GetVMOutputStorage(w, e.state);
    RefinesBetween(w, a.out.accounts, pay.out.accounts, e.state.out.accounts, closed.out.accounts,
                   DestWrites(w, depth, a, input, c));
  }

  lemma CommittedExecution(w: World, depth: nat, a: Active, input: CallInput, c: Contract)
    requires Dest(w, depth, a, input, c).err.None?
    ensures var pay := PayCall(w, Enter(a, input), input); var e := DestExecution(w, depth, a, input, c);
            && e == Execute(w, depth + 1, pay.state, input, c)
            && DestOutput(w, depth, a, input, c) == GetVMOutput(w, e.state)
            && DestWrites(w, depth, a, input, c) == ExecuteWrites(w, depth + 1, pay.state, input, c)
  {
    ErrorOutputCode(w, depth, a, input, c);
  }

  lemma PayCallStorage(w: World, a: Active, input: CallInput)
    ensures SameStorage(a.out.accounts, PayCall(w, a, input).state.out.accounts)
  {
    TransferValueStorage(w, a, input.recipient, input.vm.caller, input.vm.value, false);
  }

  lemma {:induction false} SameCallRefines(w: World, depth: nat, a: Active, input: CallInput, c: Contract)
    ensures Refines(w, a.out.accounts, Same(w, depth, a, input, c).state.out.accounts,
                    SameWrites(w, depth, a, input, c))
    decreases c, 2
  {
    var e := SameExecution(w, depth, a, input, c);
    if e.state.out.code != Ok || e.err.Some? {
      SameRollsBack(w, depth, a, input, c);
      SameRefines(w, a.out.accounts, a.out.accounts);
    } else {
      var pay := SameEntry(w, a, input).state;
      SameCommits(w, depth, a, input, c);
      TransferValueStorage(w, EnterSame(a, input),
                           input.recipient, input.vm.caller, input.vm.value, false);
      assert e == Execute(w, depth + 1, pay, input, c);
      ExecuteRefines(w, depth + 1, pay, input, c);
      GetVMOutputStorage(w, e.state);
      RefinesBetween(w, a.out.accounts, pay.out.accounts, e.state.out.accounts,
                     GetVMOutput(w, e.state).state.out.accounts,
                     SameWrites(w, depth, a, input, c));
    }
  }

  lemma SimpleActionRefines(w: World, depth: nat, a: Active, act: Action)
    requires !act.CallDest? && !act.CallSame?
    ensures Refines(w, a.out.accounts, Do(w, depth, a, act).out.accounts, ActionWrites(w, depth, a, act))
  {
    hide View, Refines, SetStorage, GetStorage, GetStorageFromAddress, Transfer, Lookup, GetBalance, SameStorage,
      WriteAllowed;
    SameRefines(w, a.out.accounts, a.out.accounts);
    BalanceStorage(w, a, if act.ReadBalance? then act.address else []);
    match act
    case ReadStorage(key) => ReadRefines(w, a, [], key);
    case ReadStorageOf(x, key) => ReadRefines(w, a, x, key);
    case WriteStorage(key, data) => SetStorageRefines(w, a, key, data, true);
    case WriteProtected(key, data) => SetStorageRefines(w, a, key, data, false);
    case ReadBalance(x) => SameRefines(w, a.out.accounts, GetBalance(w, a, x).state.out.accounts);
    case SendValue(to, value, gas, data) =>
      TransferStorage(w, a, to, a.rt.scAddress, gas, 0, value, data, DirectCall);
      SameRefines(w, a.out.accounts, Do(w, depth, a, act).out.accounts);
    case _ =>
  }

  lemma RefusedRefines(w: World, depth: nat, a: Active, act: Action)
    requires (act.CallDest? || act.CallSame?) && !MakesCall(w, a, act)
    ensures Refines(w, a.out.accounts, Do(w, depth, a, act).out.accounts, [])
  {
    DoesNotCall(w, depth, a, act);
    SameRefines(w, a.out.accounts, a.out.accounts);
  }

  lemma {:induction false} ActionRefines(w: World, depth: nat, a: Active, act: Action)
    ensures Refines(w, a.out.accounts, Do(w, depth, a, act).out.accounts, ActionWrites(w, depth, a, act))
    decreases act
  {
    hide Refines, Dest, Same, DestWrites, SameWrites;
    match act
    case CallDest(_, _, _, _, _, callee) =>
      if MakesCall(w, a, act) {
        DestRefines(w, depth, a, ActionInput(a, act), callee);
        DoesCall(w, depth, a, act);
      } else {
        RefusedRefines(w, depth, a, act);
      }
    case CallSame(_, _, _, _, _, callee) =>
      if MakesCall(w, a, act) {
        SameCallRefines(w, depth, ActionFrom(a, act), ActionInput(a, act), callee);
        DoesCall(w, depth, a, act);
      } else {
        RefusedRefines(w, depth, a, act);
      }
    case _ => SimpleActionRefines(w, depth, a, act);
  }

  /** At the end of a run every read sees the last surviving write, or what was there before. */
  lemma {:induction false} RunRefines(w: World, depth: nat, a: Active, p: Program)
    ensures Refines(w, a.out.accounts, Run(w, depth, a, p).state.out.accounts, Writes(w, depth, a, p))
    decreases p
  {
    match p
    case Step(act, rest) =>
      var b := Do(w, depth, a, act);
      ActionRefines(w, depth, a, act);
      RunRefines(w, depth, b, rest);
      RefinesTransitive(w, a.out.accounts, b.out.accounts, Run(w, depth, a, p).state.out.accounts,
                        ActionWrites(w, depth, a, act), Writes(w, depth, b, rest));
    case End(e) =>
      if e.AsyncCall? {
        AsyncRefines(w, depth, a, e);
      } else {
        SameRefines(w, a.out.accounts, a.out.accounts);
      }
  }

  lemma StartStorage(w: World, a: Active, e: Ending)
    requires e.AsyncCall?
    ensures SameStorage(a.out.accounts, AsyncStart(w, a, e).state.out.accounts)
    ensures AsyncStart(w, a, e).err.None? ==> AsyncStart(w, a, e).state.rt.asyncInfo.Some?
  {
  }

  lemma {:induction false} AsyncRefines(w: World, depth: nat, a: Active, e: Ending)
    requires e.AsyncCall?
    ensures Refines(w, a.out.accounts, RunAsync(w, depth, a, e).state.out.accounts, AsyncWrites(w, depth, a, e))
    decreases e, 1
  {
    var s := AsyncStart(w, a, e);
    StartStorage(w, a, e);
    SameRefines(w, a.out.accounts, s.state.out.accounts);
    if s.err.None? {
      var info := s.state.rt.asyncInfo.value;
      var ws := AsyncWrites(w, depth, a, e);
      var b := RunAsync(w, depth, a, e).state;
      if GetCode(w, e.destination).err.Some? {
        TransferStorage(w, s.state, info.destination, s.state.rt.scAddress, info.gasLimit, info.gasLocked, info.value,
                        info.data, AsynchronousCall);
        SameRefines(w, s.state.out.accounts, SendAsync(w, s.state, info).state.out.accounts);
        assert b == SendAsync(w, s.state, info).state;
      } else {
        RunsLocally(w, depth, a, e);
        LegsRefine(w, depth, s.state, info, e);
      }
      RefinesTransitive(w, a.out.accounts, s.state.out.accounts, b.out.accounts, [], ws);
      assert [] + ws == ws;
    }
  }

  lemma {:induction false} LegsRefine(w: World, depth: nat, a: Active, info: AsyncCallInfo, e: Ending)
    requires e.AsyncCall?
    ensures Refines(w, a.out.accounts, CallLocally(w, depth, a, info, e).out.accounts, LegWrites(w, depth, a, info, e))
    decreases e, 0
  {
    var input := DestinationInput(a, info, e.name);
    var o := Dest(w, depth, a, input, e.callee);
    var first := DestWrites(w, depth, a, input, e.callee);
    var final := CallLocally(w, depth, a, info, e);
    DestRefines(w, depth, a, input, e.callee);
    CallBackAccounts(w, depth, o, info, e);
    if CallbackGas(o, info) <= CallbackCost(w, o) {
      OutputStorage(w, o.state, ErrNotEnoughGas);
      SameRefines(w, o.state.out.accounts, final.out.accounts);
      RefinesTransitive(w, a.out.accounts, o.state.out.accounts, final.out.accounts, first, []);
    } else {
      var back := RestoreGas(o.state, info.gasLocked);
      var cbInput := CallbackInput(w, back, info, o);
      DestRefines(w, depth, back, cbInput, e.callback);
      RefinesTransitive(w, a.out.accounts, back.out.accounts, final.out.accounts, first,
                        DestWrites(w, depth, back, cbInput, e.callback));
    }
  }

  lemma CallBackAccounts(w: World, depth: nat, o: Outcome, info: AsyncCallInfo, e: Ending)
    requires e.AsyncCall?
    ensures var back := RestoreGas(o.state, info.gasLocked);
            if CallbackGas(o, info) <= CallbackCost(w, o) then
              CallBack(w, depth, o, info, e).out.accounts == CreateErrorOutput(w, o.state,
                ErrNotEnoughGas).state.out.accounts
            else
            && back.out == o.state.out
            && CallBack(w, depth, o, info, e).out.accounts
               == Dest(w, depth, back, CallbackInput(w, back, info, o), e.callback).state.out.accounts
  {
  }
}
