/** What every step of a run keeps: nothing recorded is lost, value is conserved and no
    account is overdrawn. From this follow the exactness of commits and of rollbacks. */
module Conservation {
  import opened Overflow
  import opened Types
  import opened Sums
  import opened Ledger
  import opened Frame
  import opened Calls

  // ----- accounts -----

  ghost predicate Extends(left: Accounts, right: Accounts) {
    && left.Keys <= right.Keys
    && forall x :: x in left ==> ExtendsAccount(left[x], right[x])
  }

  ghost predicate ExtendsAccount(left: OutputAccount, right: OutputAccount) {
    && left.transfers <= right.transfers
    && left.storage.Keys <= right.storage.Keys
    && (left.balance.Some? ==> right.balance == left.balance)
  }

  /** What an account can spend: the chain's balance and what has been moved since. An address
      without an account on the chain has nothing, whatever was moved to it. */
  function Funds(w: World, accounts: Accounts, x: Address): int {
    if x in w.balances then w.balances[x] + DeltaOf(accounts, x) else 0
  }

  function ChainBalance(w: World, x: Address): int {
    if x in w.balances then w.balances[x] else 0
  }

  /** No account is overdrawn, and cached balances are the chain's. */
  ghost predicate Solvent(w: World, accounts: Accounts) {
    forall x :: x in accounts ==> SolventAccount(w, x, accounts[x])
  }

  ghost predicate SolventAccount(w: World, x: Address, account: OutputAccount) {
    && CacheAgrees(w, x, account)
    && 0 <= ChainBalance(w, x) + account.delta
  }

  /** Every balance that has been cached is the chain's. */
  ghost predicate CachesAgree(w: World, accounts: Accounts) {
    forall x :: x in accounts ==> CacheAgrees(w, x, accounts[x])
  }

  predicate CacheAgrees(w: World, x: Address, account: OutputAccount) {
    account.balance.Some? ==> x in w.balances && account.balance.value == w.balances[x]
  }

  ghost predicate SolventWorld(w: World) {
    forall x :: x in w.balances ==> 0 <= w.balances[x]
  }

  ghost predicate Conserves(w: World, left: Accounts, right: Accounts) {
    && Extends(left, right)
    && TotalDelta(left) == TotalDelta(right)
    && (SolventWorld(w) && Solvent(w, left) ==> Solvent(w, right))
    && (CachesAgree(w, left) ==> CachesAgree(w, right))
  }

  lemma ConservesTransitive(w: World, a: Accounts, b: Accounts, c: Accounts)
    requires Conserves(w, a, b) && Conserves(w, b, c)
    ensures Conserves(w, a, c)
  {
    forall x | x in a
      ensures x in c && ExtendsAccount(a[x], c[x])
    {
      assert ExtendsAccount(a[x], b[x]) && ExtendsAccount(b[x], c[x]);
    }
  }

  lemma PutDelta(accounts: Accounts, x: Address, account: OutputAccount)
    ensures TotalDelta(accounts[x := account]) == TotalDelta(accounts) - Account(accounts, x).delta + account.delta
  {
    SumPut(Deltas(accounts), x, account.delta);
    assert Deltas(accounts[x := account]) == Deltas(accounts)[x := account.delta];
  }

  /** Replacing one account by an extension of it with the same delta. */
  lemma PutConserves(w: World, accounts: Accounts, x: Address, account: OutputAccount)
    requires ExtendsAccount(Account(accounts, x), account)
    requires account.delta == Account(accounts, x).delta
    requires account.balance.Some? && Account(accounts, x).balance.None? ==>
               x in w.balances
               && account.balance.value == w.balances[x]
    ensures Conserves(w, accounts, accounts[x := account])
  {
    PutDelta(accounts, x, account);
  }

  lemma EnsureConserves(w: World, accounts: Accounts, x: Address)
    ensures Conserves(w, accounts, Ensure(accounts, x))
  {
    PutConserves(w, accounts, x, Account(accounts, x));
    assert x in accounts ==> accounts[x := accounts[x]] == accounts;
  }

  /** A covered transfer between two accounts, or from an account to itself. */
  lemma MoveConserves(w: World, accounts: Accounts, sender: Address, destination: Address, value: int)
    requires 0 <= value
    requires SolventWorld(w) && Solvent(w, accounts) ==>
             value <= ChainBalance(w, sender) + Account(accounts, sender).delta
    ensures Conserves(w, accounts, Move(accounts, sender, destination, value))
  {
    var first := Ensure(accounts, sender);
    var known := Ensure(first, destination);
    assert Conserves(w, accounts, known) by {
      EnsureConserves(w, accounts, sender);
      EnsureConserves(w, first, destination);
      ConservesTransitive(w, accounts, first, known);
    }
    assert Move(known, sender, destination, value) == Move(accounts, sender, destination, value);
    assert Conserves(w, known, Move(known, sender, destination, value)) by {
      if SolventWorld(w) && Solvent(w, known) {
        EnsureSolvent(w, accounts, sender, destination);
      }
      MoveKnown(w, known, sender, destination, value);
    }
    ConservesTransitive(w, accounts, known, Move(accounts, sender, destination, value));
  }

  lemma EnsureSolvent(w: World, accounts: Accounts, x: Address, y: Address)
    requires Solvent(w, Ensure(Ensure(accounts, x), y))
    ensures Solvent(w, accounts)
  {
    forall z | z in accounts
      ensures SolventAccount(w, z, accounts[z])
    {
      assert Ensure(Ensure(accounts, x), y)[z] == accounts[z];
    }
  }

  lemma MoveExtends(known: Accounts, sender: Address, destination: Address, value: int)
    requires sender in known && destination in known
    ensures Extends(known, Move(known, sender, destination, value))
  {
  }

  lemma MoveTotal(known: Accounts, sender: Address, destination: Address, value: int)
    requires sender in known && destination in known
    ensures TotalDelta(Move(known, sender, destination, value)) == TotalDelta(known)
  {
    hide TotalDelta;
    var debit := known[sender].(delta := known[sender].delta - value);
    var debited := known[sender := debit];
    var credit := debited[destination].(delta := debited[destination].delta + value);
    PutDelta(known, sender, debit);
    PutDelta(debited, destination, credit);
    assert Move(known, sender, destination, value) == debited[destination := credit];
  }

  lemma MoveSolvent(w: World, known: Accounts, sender: Address, destination: Address, value: int)
    requires 0 <= value && sender in known && destination in known
    requires Solvent(w, known) && value <= ChainBalance(w, sender) + known[sender].delta
    ensures Solvent(w, Move(known, sender, destination, value))
  {
    var moved := Move(known, sender, destination, value);
    forall x | x in moved
      ensures SolventAccount(w, x, moved[x])
    {
      assert SolventAccount(w, x, known[x]);
    }
  }

  lemma MoveCaches(w: World, known: Accounts, sender: Address, destination: Address, value: int)
    requires sender in known && destination in known && CachesAgree(w, known)
    ensures CachesAgree(w, Move(known, sender, destination, value))
  {
    var moved := Move(known, sender, destination, value);
    forall x | x in moved
      ensures CacheAgrees(w, x, moved[x])
    {
      assert CacheAgrees(w, x, known[x]);
    }
  }

  lemma MoveKnown(w: World, known: Accounts, sender: Address, destination: Address, value: int)
    requires 0 <= value && sender in known && destination in known
    requires SolventWorld(w) && Solvent(w, known) ==> value <= ChainBalance(w, sender) + known[sender].delta
    ensures Conserves(w, known, Move(known, sender, destination, value))
  {
    hide Move, TotalDelta, Extends, Solvent, CachesAgree;
    if CachesAgree(w, known) {
      MoveCaches(w, known, sender, destination, value);
    }
    MoveExtends(known, sender, destination, value);
    MoveTotal(known, sender, destination, value);
    if SolventWorld(w) && Solvent(w, known) {
      MoveSolvent(w, known, sender, destination, value);
    }
  }

  lemma SetGasConserves(w: World, accounts: Accounts, used: GasMap)
    ensures Conserves(w, accounts, SetGasUsed(accounts, used))
  {
    assert Deltas(SetGasUsed(accounts, used)) == Deltas(accounts);
  }

  lemma MergeAccountIsRight(l: OutputAccount, r: OutputAccount)
    requires ExtendsAccount(l, r)
    ensures MergeAccount(l, r) == r
  {
    assert l.storage + r.storage == r.storage;
    if |r.transfers| > |l.transfers| {
      assert l.transfers + r.transfers[|l.transfers|..] == r.transfers;
    } else {
      assert l.transfers == r.transfers;
    }
  }

  /** Committing a child that only extended its snapshot keeps exactly the child's accounts. */
  lemma MergeIsRight(left: Accounts, right: Accounts)
    requires Extends(left, right)
    ensures MergeAccounts(left, right) == right
  {
    forall x | x in right
      ensures MergeAccount(Account(left, x), right[x]) == right[x]
    {
      if x in left {
        assert ExtendsAccount(left[x], right[x]);
      }
      MergeAccountIsRight(Account(left, x), right[x]);
    }
  }

  // ----- frames -----

  ghost predicate SameFrame(a: Active, b: Active) {
    && a.rt.scAddress == b.rt.scAddress
    && a.rt.name == b.rt.name
    && a.rt.input == b.rt.input.(gasProvided := a.rt.input.gasProvided)
    && a.storageAddress == b.storageAddress
    && a.meter.(used := b.meter.used) == b.meter
  }

  /** Gas is charged to accounts that the ledger knows. */
  ghost predicate Known(a: Active) {
    a.meter.used.Keys <= a.out.accounts.Keys
  }

  /** Everything a frame may turn its active state into. */
  ghost predicate Evolves(w: World, a: Active, b: Active) {
    && SameFrame(a, b)
    && Conserves(w, a.out.accounts, b.out.accounts)
    && a.journal <= b.journal
    && a.out.logs <= b.out.logs
    && a.out.returnData <= b.out.returnData
    && (Known(a) ==> Known(b))
  }

  lemma EvolvesTransitive(w: World, a: Active, b: Active, c: Active)
    requires Evolves(w, a, b) && Evolves(w, b, c)
    ensures Evolves(w, a, c)
  {
    ConservesTransitive(w, a.out.accounts, b.out.accounts, c.out.accounts);
  }

  lemma GetBalanceConserves(w: World, a: Active, x: Address)
    ensures Evolves(w, a, GetBalance(w, a, x).state)
    ensures CacheAgrees(w, x, Account(a.out.accounts, x)) ==>
              GetBalance(w, a, x).amount == Funds(w, a.out.accounts, x)
  {
    hide Conserves, TotalDelta;
    var account := Account(a.out.accounts, x);
    EnsureConserves(w, a.out.accounts, x);
    if account.balance.None? && x in w.balances {
      var cached := account.(balance := Some(w.balances[x]));
      PutConserves(w, a.out.accounts, x, cached);
      assert Ensure(a.out.accounts, x)[x := cached] == a.out.accounts[x := cached];
    }
    if account.balance.Some? {
      assert x in a.out.accounts;
    }
  }

  lemma TransferValueEvolves(w: World, a: Active, to: Address, from: Address, value: int, check: bool)
    ensures Evolves(w, a, TransferValueOnly(w, a, to, from, value, check).state)
  {
    GetBalanceConserves(w, a, from);
    var b := GetBalance(w, a, from);
    var t := TransferValueOnly(w, a, to, from, value, check);
    if t.err.None? {
      MoveConserves(w, b.state.out.accounts, from, to, value);
      ConservesTransitive(w, a.out.accounts, b.state.out.accounts, t.state.out.accounts);
    }
  }

  lemma PaysOnly(w: World, a: Active, to: Address, from: Address, value: int, check: bool)
    ensures var b := TransferValueOnly(w, a, to, from, value, check).state;
            && b == SetAccounts(a, b.out.accounts)
            && a.out.accounts.Keys <= b.out.accounts.Keys
            && (forall x :: x in a.out.accounts ==> b.out.accounts[x].transfers == a.out.accounts[x].transfers)
  {
  }

  lemma BalanceOnly(w: World, a: Active, x: Address)
    ensures var b := GetBalance(w, a, x).state; b == SetAccounts(a, b.out.accounts)
  {
  }

  lemma TransferOnly(
    w: World, a: Active, to: Address, from: Address, limit: uint64, locked: uint64, value: int, data: Bytes,
      ct: CallType)
    ensures var b := Transfer(w, a, to, from, limit, locked, value, data, ct).state; b == SetAccounts(a, b.out.accounts)
  {
    hide GetBalance;
    BalanceOnly(w, a, from);
  }

  lemma AddTransferConserves(w: World, accounts: Accounts, to: Address, transfer: OutputTransfer)
    ensures Conserves(w, accounts, AddTransfer(accounts, to, transfer))
  {
    var account := Account(accounts, to);
    var account' := account.(transfers := account.transfers + [transfer]);
    PutConserves(w, accounts, to, account');
    assert AddTransfer(accounts, to, transfer) == accounts[to := account'];
  }

  lemma TransferEvolves(
    w: World, a: Active, to: Address, from: Address, limit: uint64, locked: uint64, value: int, data: Bytes,
      ct: CallType)
    ensures Evolves(w, a, Transfer(w, a, to, from, limit, locked, value, data, ct).state)
  {
    hide TransferValueOnly, AddTransfer, TotalDelta, Solvent;
    var check := limit > 0 && ct != AsynchronousCallBack;
    var t := TransferValueOnly(w, a, to, from, value, check);
    TransferValueEvolves(w, a, to, from, value, check);
    if t.err.None? {
      var transfer := OutputTransfer(value, limit, locked, data, ct, from);
      AddTransferConserves(w, t.state.out.accounts, to, transfer);
      var b := SetAccounts(t.state, AddTransfer(t.state.out.accounts, to, transfer));
      assert Evolves(w, t.state, b);
      EvolvesTransitive(w, a, t.state, b);
    }
  }

  lemma PutOverlayConserves(w: World, accounts: Accounts, x: Address, key: Bytes, value: Bytes)
    ensures Conserves(w, accounts, PutOverlay(accounts, x, key, value))
  {
    var account := Account(accounts, x);
    var account' := account.(storage := account.storage[key := value]);
    PutConserves(w, accounts, x, account');
    assert PutOverlay(accounts, x, key, value) == accounts[x := account'];
  }

  lemma ConservesSelf(w: World, accounts: Accounts)
    ensures Conserves(w, accounts, accounts)
  {
  }

  /** The states that differ in gas, refund and one overlay entry. */
  ghost predicate Touches(a: Active, b: Active, accounts: Accounts) {
    b == a.(points := b.points, out := a.out.(accounts := accounts, gasRefund := b.out.gasRefund))
  }

  lemma TouchEvolves(w: World, a: Active, b: Active, x: Address, key: Bytes, value: Bytes)
    requires Touches(a, b, PutOverlay(a.out.accounts, x, key, value)) || Touches(a, b, a.out.accounts)
    ensures Evolves(w, a, b)
  {
    ConservesSelf(w, a.out.accounts);
    PutOverlayConserves(w, a.out.accounts, x, key, value);
  }

  lemma ChargeWriteTouches(w: World, a: Active, old_: Bytes, value: Bytes)
    ensures Touches(a, ChargeWrite(w, a, old_, value), a.out.accounts)
  {
  }

  lemma SetStorageTouches(w: World, a: Active, key: Bytes, value: Bytes, protection: bool)
    ensures var b := SetStorage(w, a, key, value, protection);
            if WriteAllowed(w, a, key, protection)
              then Touches(a, b, PutOverlay(a.out.accounts, a.storageAddress, key, value))
            else b == a
  {
    if WriteAllowed(w, a, key, protection) {
      var a1 := ChargeKey(w, a, key);
      var a2 := SetAccounts(a1, PutOverlay(a1.out.accounts, a1.storageAddress, key, value));
      ChargeWriteTouches(w, a2, View(w, a1.out.accounts, a1.storageAddress, key), value);
    }
  }

  lemma SetStorageEvolves(w: World, a: Active, key: Bytes, value: Bytes, protection: bool)
    ensures Evolves(w, a, SetStorage(w, a, key, value, protection))
  {
    SetStorageTouches(w, a, key, value, protection);
    TouchEvolves(w, a, SetStorage(w, a, key, value, protection), a.storageAddress, key, value);
  }

  lemma ReadTouches(w: World, a: Active, x: Address, key: Bytes)
    ensures Touches(a, GetStorage(w, a, key), CacheRead(w, a, a.storageAddress, key).out.accounts)
    ensures var b := GetStorageFromAddress(w, a, x, key);
            Touches(a, b, CacheRead(w, a, x, key).out.accounts) || Touches(a, b, a.out.accounts)
  {
  }

  lemma ReadEvolves(w: World, a: Active, x: Address, key: Bytes)
    ensures Evolves(w, a, GetStorage(w, a, key))
    ensures Evolves(w, a, GetStorageFromAddress(w, a, x, key))
  {
    ReadTouches(w, a, x, key);
    TouchEvolves(w, a, GetStorage(w, a, key), a.storageAddress, key, View(w, a.out.accounts, a.storageAddress, key));
    TouchEvolves(w, a, GetStorageFromAddress(w, a, x, key), x, key, View(w, a.out.accounts, x, key));
  }

  /** Unlike Evolves, the gas report is what changes here. */
  lemma ErrorOutputEvolves(w: World, a: Active, err: Error)
    ensures Evolves(w, a, CreateErrorOutput(w, a, err).state)
  {
    var self := a.rt.scAddress;
    var account := Account(a.out.accounts, self);
    var account' := account.(gasUsed := AddUint64(account.gasUsed, a.meter.provided));
    PutConserves(w, a.out.accounts, self, account');
    assert CreateErrorOutput(w, a, err).state.out.accounts == a.out.accounts[self := account'];
  }

  /** What closing a frame's gas changes. */
  lemma ClosedIs(a: Active)
    ensures var b := CloseGas(a); var self := a.rt.scAddress;
            && b.meter == a.meter.(used := a.meter.used[self := b.meter.used[self]])
            && b == a.(out := a.out.(accounts := SetGasUsed(Ensure(a.out.accounts, self), b.meter.used),
                                     gasRemaining := GasLeft(a)),
                       meter := b.meter)
  {
    hide OthersGas, SumMap, TransferGas, SetGasUsed, Ensure, GasLeft;
  }

  lemma GasUsedKeys(accounts: Accounts, used: GasMap)
    ensures SetGasUsed(accounts, used).Keys == accounts.Keys
  {
  }

  lemma CloseGasEvolves(w: World, a: Active)
    ensures Evolves(w, a, CloseGas(a))
    ensures CloseGas(a).bigInts == a.bigInts && CloseGas(a).journal == a.journal && CloseGas(a).rt == a.rt
    ensures CloseGas(a).out.logs == a.out.logs && CloseGas(a).out.returnData == a.out.returnData
  {
    hide CloseGas, Conserves, SetGasUsed;
    ClosedIs(a);
    GasUsedKeys(Ensure(a.out.accounts, a.rt.scAddress), CloseGas(a).meter.used);
    var accounts := Ensure(a.out.accounts, a.rt.scAddress);
    EnsureConserves(w, a.out.accounts, a.rt.scAddress);
    SetGasConserves(w, accounts, CloseGas(a).meter.used);
    ConservesTransitive(w, a.out.accounts, accounts, CloseGas(a).out.accounts);
  }

  lemma GetVMOutputEvolves(w: World, a: Active)
    ensures Evolves(w, a, GetVMOutput(w, a).state)
  {
    hide CloseGas, CreateErrorOutput, GasMatches, Conserves;
    var a2 := CloseGas(a);
    CloseGasEvolves(w, a);
    ErrorOutputEvolves(w, a2, ErrAccountMissing);
    ErrorOutputEvolves(w, a2, ErrGasMismatch);
    if GetVMOutput(w, a).state != a2 {
      EvolvesTransitive(w, a, a2, GetVMOutput(w, a).state);
    }
  }

  // ----- whole runs -----

  lemma PayCallEvolves(w: World, a: Active, input: CallInput)
    ensures Evolves(w, a, PayCall(w, a, input).state)
  {
    ConservesSelf(w, a.out.accounts);
    TransferValueEvolves(w, a, input.recipient, input.vm.caller, input.vm.value, false);
  }

  /** The frame's metering is fixed during Prepare, so only the ledger part is related. */
  ghost predicate LedgerEvolves(w: World, a: Active, b: Active) {
    && Conserves(w, a.out.accounts, b.out.accounts)
    && a.journal <= b.journal
    && a.out.logs <= b.out.logs
    && a.out.returnData <= b.out.returnData
    && (Known(a) ==> Known(b))
    && a.storageAddress == b.storageAddress
    && a.rt.scAddress == b.rt.scAddress
  }

  lemma LedgerTransitive(w: World, a: Active, b: Active, c: Active)
    requires LedgerEvolves(w, a, b) && LedgerEvolves(w, b, c)
    ensures LedgerEvolves(w, a, c)
  {
    ConservesTransitive(w, a.out.accounts, b.out.accounts, c.out.accounts);
  }

  lemma PrepareLedger(w: World, depth: nat, a: Active, input: CallInput, starts: bool)
    ensures var p := Prepare(w, depth, a, input, starts).state;
            && (p.out == a.out || p.out == a.out.(accounts := Ensure(a.out.accounts, input.recipient)))
            && p.meter.used == a.meter.used && p.journal == a.journal && p.rt == a.rt
              && p.storageAddress == a.storageAddress
  {
  }

  lemma PrepareEvolves(w: World, depth: nat, a: Active, input: CallInput, starts: bool)
    ensures LedgerEvolves(w, a, Prepare(w, depth, a, input, starts).state)
  {
    hide Prepare, Conserves;
    PrepareLedger(w, depth, a, input, starts);
    ConservesSelf(w, a.out.accounts);
    EnsureConserves(w, a.out.accounts, input.recipient);
  }

  lemma {:induction false} ExecuteEvolves(w: World, depth: nat, a: Active, input: CallInput, c: Contract)
    ensures LedgerEvolves(w, a, Execute(w, depth, a, input, c).state)
    decreases c, 0
  {
    var p := Prepare(w, depth, a, input, c.starts);
    PrepareEvolves(w, depth, a, input, c.starts);
    if p.err.None? && c.entry.Found? {
      RunEvolves(w, depth, p.state, c.body);
      LedgerTransitive(w, a, p.state, Run(w, depth, p.state, c.body).state);
    }
  }

  /** The child of a destination-context call, from its entry to its end. */
  ghost function DestExecution(w: World, depth: nat, a: Active, input: CallInput, c: Contract): Execution {
    var pay := PayCall(w, Enter(a, input), input);
    if pay.err.Some? then Execution(a.points, pay.state, pay.err) else Execute(w, depth + 1, pay.state, input, c)
  }

  lemma {:induction false} DestExecutionEvolves(w: World, depth: nat, a: Active, input: CallInput, c: Contract)
    ensures LedgerEvolves(w, Enter(a, input), DestExecution(w, depth, a, input, c).state)
    decreases c, 1
  {
    var pay := PayCall(w, Enter(a, input), input);
    PayCallEvolves(w, Enter(a, input), input);
    if pay.err.None? {
      ExecuteEvolves(w, depth + 1, pay.state, input, c);
      LedgerTransitive(w, Enter(a, input), pay.state, DestExecution(w, depth, a, input, c).state);
    }
  }

  /** The child's contexts when its output has been taken. */
  ghost function DestOutput(w: World, depth: nat, a: Active, input: CallInput, c: Contract): Output {
    var e := DestExecution(w, depth, a, input, c);
    if e.err.Some? then CreateErrorOutput(w, e.state, e.err.value) else GetVMOutput(w, e.state)
  }

  lemma {:induction false} DestOutputEvolves(w: World, depth: nat, a: Active, input: CallInput, c: Contract)
    ensures LedgerEvolves(w, Enter(a, input), DestOutput(w, depth, a, input, c).state)
    decreases c, 2
  {
    var e := DestExecution(w, depth, a, input, c);
    DestExecutionEvolves(w, depth, a, input, c);
    GetVMOutputEvolves(w, e.state);
    if e.err.Some? {
      ErrorOutputEvolves(w, e.state, e.err.value);
    }
    LedgerTransitive(w, Enter(a, input), e.state, DestOutput(w, depth, a, input, c).state);
  }

  /** A failed call is undone: only the gas paid for it, and the remembered code size, differ. */
  lemma {:induction false} DestRollsBack(w: World, depth: nat, a: Active, input: CallInput, c: Contract)
    requires Dest(w, depth, a, input, c).err.Some?
    ensures Dest(w, depth, a, input, c).state ==
            a.(points := DestExecution(w, depth, a, input, c).callerPoints,
               codeSize := DestExecution(w, depth, a, input, c).state.codeSize)
    decreases c, 3
  {
    hide Execute, PayCall, Merge, MergeGas, Conserves;
    var e := DestExecution(w, depth, a, input, c);
    DestExecutionEvolves(w, depth, a, input, c);
    assert Revert(e.state.journal, |a.journal|) == a.journal;
    ErrorOutputCode(w, depth, a, input, c);
  }

  lemma ErrorOutputCode(w: World, depth: nat, a: Active, input: CallInput, c: Contract)
    ensures Dest(w, depth, a, input, c).err.Some? <==> DestOutput(w, depth, a, input, c).vm.code != Ok
    ensures Dest(w, depth, a, input, c).vm == DestOutput(w, depth, a, input, c).vm
    ensures Dest(w, depth, a, input, c).err.Some? ==> Dest(w, depth, a, input, c).vm.gasRemaining == 0
  {
    hide Execute, PayCall, Enter, CloseGas, GasMatches, Merge, MergeGas, RestoreGas;
    ExecutionEndsOk(w, depth, a, input, c);
    CloseGasCode(DestExecution(w, depth, a, input, c).state);
  }

  lemma CloseGasCode(a: Active)
    ensures CloseGas(a).out.code == a.out.code
  {
  }

  /** A frame that ends without an error has return code Ok. */
  lemma ExecutionEndsOk(w: World, depth: nat, a: Active, input: CallInput, c: Contract)
    ensures var e := DestExecution(w, depth, a, input, c); e.err.None? ==> e.state.out.code == Ok
  {
    hide Prepare, Run, PayCall, Enter;
  }

  /** A successful call keeps exactly its child's accounts and journal, and puts its return
      data and logs after the caller's. The refund is the child's alone. */
  lemma {:induction false} DestCommits(w: World, depth: nat, a: Active, input: CallInput, c: Contract)
    requires Dest(w, depth, a, input, c).err.None?
    ensures Committed(a, DestOutput(w, depth, a, input, c).state, Dest(w, depth, a, input, c).state)
    decreases c, 3
  {
    DestOutputEvolves(w, depth, a, input, c);
    ErrorOutputCode(w, depth, a, input, c);
    FinishCommits(w, a, input, DestExecution(w, depth, a, input, c));
  }

  ghost predicate Committed(a: Active, child: Active, b: Active) {
    && b.out == child.out.(returnData := a.out.returnData + child.out.returnData, logs := a.out.logs + child.out.logs)
    && b.journal == child.journal
    && b.meter == a.meter.(used := MergeGas(child.meter.used, a.meter.used))
    && b.bigInts == a.bigInts && b.rt == a.rt && b.storageAddress == a.storageAddress
  }

  lemma FinishCommits(w: World, a: Active, input: CallInput, e: Execution)
    requires e.err.None? && GetVMOutput(w, e.state).vm.code == Ok
    requires Extends(a.out.accounts, GetVMOutput(w, e.state).state.out.accounts)
    ensures Committed(a, GetVMOutput(w, e.state).state, FinishDest(w, a, e).state)
  {
    hide GetVMOutput, CloseGas, MergeAccounts, MergeGas, Extends;
    var o := GetVMOutput(w, e.state);
    MergeIsRight(a.out.accounts, o.state.out.accounts);
    OkOutputIsState(w, e.state);
  }

  lemma ClosedJournal(a: Active)
    ensures CloseGas(a).journal == a.journal
  {
  }

  lemma OkOutputIsState(w: World, a: Active)
    requires GetVMOutput(w, a).vm.code == Ok
    ensures GetVMOutput(w, a) == Output(CloseGas(a), CloseGas(a).out)
    ensures GetVMOutput(w, a).state.journal == a.journal
  {
    hide CloseGas, GasMatches;
    ClosedJournal(a);
  }

  lemma {:induction false} DestEvolves(w: World, depth: nat, a: Active, input: CallInput, c: Contract)
    ensures Evolves(w, a, Dest(w, depth, a, input, c).state)
    decreases c, 4
  {
    if Dest(w, depth, a, input, c).err.Some? {
      DestRollsBack(w, depth, a, input, c);
      ConservesSelf(w, a.out.accounts);
    } else {
      DestCommits(w, depth, a, input, c);
      DestOutputEvolves(w, depth, a, input, c);
    }
  }

  /** The child of a same-context call, from its entry to its end. */
  ghost function SameExecution(w: World, depth: nat, a: Active, input: CallInput, c: Contract): Execution {
    var a1 := EnterSame(a, input);
    var pay := TransferValueOnly(w, a1, input.recipient, input.vm.caller, input.vm.value, false);
    if pay.err.Some? then Execution(a.points, pay.state, pay.err) else Execute(w, depth + 1, pay.state, input, c)
  }

  lemma {:induction false} SameExecutionEvolves(w: World, depth: nat, a: Active, input: CallInput, c: Contract)
    ensures LedgerEvolves(w, EnterSame(a, input), SameExecution(w, depth, a, input, c).state)
    decreases c, 1
  {
    var a1 := EnterSame(a, input);
    var pay := TransferValueOnly(w, a1, input.recipient, input.vm.caller, input.vm.value, false);
    TransferValueEvolves(w, a1, input.recipient, input.vm.caller, input.vm.value, false);
    if pay.err.None? {
      ExecuteEvolves(w, depth + 1, pay.state, input, c);
      LedgerTransitive(w, a1, pay.state, SameExecution(w, depth, a, input, c).state);
    }
  }

  lemma {:induction false} SameEvolves(w: World, depth: nat, a: Active, input: CallInput, c: Contract)
    ensures Evolves(w, a, Same(w, depth, a, input, c).state)
    ensures Same(w, depth, a, input, c).state.rt == a.rt
    decreases c, 4
  {
    var e := SameExecution(w, depth, a, input, c);
    SameExecutionEvolves(w, depth, a, input, c);
    if e.state.out.code != Ok || e.err.Some? {
      SameRollsBack(w, depth, a, input, c);
      ConservesSelf(w, a.out.accounts);
    } else {
      SameCommits(w, depth, a, input, c);
      SameKnown(w, depth, a, input, c);
    }
  }

  /** A failed same-context call is undone as completely as a destination-context one. */
  lemma {:induction false} SameRollsBack(w: World, depth: nat, a: Active, input: CallInput, c: Contract)
    requires var e := SameExecution(w, depth, a, input, c); e.err.Some? || e.state.out.code != Ok
    ensures Same(w, depth, a, input, c).state ==
            a.(points := SameExecution(w, depth, a, input, c).callerPoints,
               codeSize := SameExecution(w, depth, a, input, c).state.codeSize)
    decreases c, 2
  {
    SameExecutionEvolves(w, depth, a, input, c);
    assert Revert(SameExecution(w, depth, a, input, c).state.journal, |a.journal|) == a.journal;
  }

  /** A successful one keeps its child's outputs, storage, journal and big integers, which extend
      the caller's; the runtime and the meter are the caller's again, with the gas map added. */
  lemma {:induction false} SameCommits(w: World, depth: nat, a: Active, input: CallInput, c: Contract)
    requires var e := SameExecution(w, depth, a, input, c); e.err.None? && e.state.out.code == Ok
    ensures var b := Same(w, depth, a, input, c).state;
            var child := GetVMOutput(w, SameExecution(w, depth, a, input, c).state).state;
            && b == child.(points := b.points, rt := a.rt,
                           meter := a.meter.(used := MergeGas(child.meter.used, a.meter.used)))
            && Conserves(w, a.out.accounts, b.out.accounts)
            && a.out.logs <= b.out.logs && a.out.returnData <= b.out.returnData && a.journal <= b.journal
            && b.storageAddress == a.storageAddress
    decreases c, 2
  {
    var e := SameExecution(w, depth, a, input, c);
    SameCommitState(w, depth, a, input, c);
    SameExecutionEvolves(w, depth, a, input, c);
    GetVMOutputEvolves(w, e.state);
    LedgerTransitive(w, EnterSame(a, input), e.state, GetVMOutput(w, e.state).state);
  }

  lemma {:induction false} SameKnown(w: World, depth: nat, a: Active, input: CallInput, c: Contract)
    requires var e := SameExecution(w, depth, a, input, c); e.err.None? && e.state.out.code == Ok
    ensures Known(a) ==> Known(Same(w, depth, a, input, c).state)
    decreases c, 3
  {
    SameCommits(w, depth, a, input, c);
    SameExecutionEvolves(w, depth, a, input, c);
    GetVMOutputEvolves(w, SameExecution(w, depth, a, input, c).state);
  }

  lemma SameCommitState(w: World, depth: nat, a: Active, input: CallInput, c: Contract)
    requires var e := SameExecution(w, depth, a, input, c); e.err.None? && e.state.out.code == Ok
    ensures var b := Same(w, depth, a, input, c).state;
            var child := GetVMOutput(w, SameExecution(w, depth, a, input, c).state).state;
            b == child.(points := b.points, rt := a.rt,
                        meter := a.meter.(used := MergeGas(child.meter.used, a.meter.used)))
  {
  }

  predicate TouchesLedger(act: Action) {
    || act.ReadStorage? || act.ReadStorageOf? || act.WriteStorage? || act.WriteProtected?
    || act.ReadBalance? || act.SendValue?
  }

  lemma LedgerActionEvolves(w: World, depth: nat, a: Active, act: Action)
    requires TouchesLedger(act)
    ensures Evolves(w, a, Do(w, depth, a, act))
  {
    hide Transfer, SetStorage, GetStorage, GetStorageFromAddress, GetBalance, Evolves;
    match act
    case ReadStorage(key) => ReadEvolves(w, a, [], key);
    case ReadStorageOf(x, key) => ReadEvolves(w, a, x, key);
    case WriteStorage(key, data) => SetStorageEvolves(w, a, key, data, true);
    case WriteProtected(key, data) => SetStorageEvolves(w, a, key, data, false);
    case ReadBalance(x) => GetBalanceConserves(w, a, x);
    case SendValue(to, value, gas, data) => TransferEvolves(w, a, to, a.rt.scAddress, gas, 0, value, data, DirectCall);
  }

  lemma SimpleActionEvolves(w: World, depth: nat, a: Active, act: Action)
    requires !act.CallDest? && !act.CallSame?
    ensures Evolves(w, a, Do(w, depth, a, act))
  {
    hide Transfer, SetStorage, GetStorage, GetStorageFromAddress, GetBalance, Conserves;
    ConservesSelf(w, a.out.accounts);
    if TouchesLedger(act) {
      LedgerActionEvolves(w, depth, a, act);
    }
  }

  lemma RefuseEvolves(w: World, a: Active)
    ensures Evolves(w, a, RefuseCall(w, a))
  {
    ConservesSelf(w, a.out.accounts);
  }

  lemma {:induction false} DoEvolves(w: World, depth: nat, a: Active, act: Action)
    ensures Evolves(w, a, Do(w, depth, a, act))
    decreases act
  {
    hide Conserves, RefuseCall, Dest, Same;
    RefuseEvolves(w, a);
    match act
    case CallDest(byCaller, to, value, limit, name, callee) =>
      var sender := if byCaller then a.rt.input.caller else a.rt.scAddress;
      DestEvolves(w, depth, a, IndirectInput(a, sender, value, limit, to, name), callee);
    case CallSame(asReadOnly, to, value, limit, name, callee) =>
      var input := IndirectInput(a, a.rt.scAddress, value, limit, to, name);
      SameEvolves(w, depth, a, input, callee);
      SameEvolves(w, depth, a.(rt := a.rt.(readOnly := true)), input, callee);
    case _ => SimpleActionEvolves(w, depth, a, act);
  }

  /** Along every run, whatever the contract does and whichever nested calls fail. */
  lemma {:induction false} RunEvolves(w: World, depth: nat, a: Active, p: Program)
    ensures Evolves(w, a, Run(w, depth, a, p).state)
    decreases p
  {
    match p
    case Step(act, rest) =>
      DoEvolves(w, depth, a, act);
      RunEvolves(w, depth, Do(w, depth, a, act), rest);
      EvolvesTransitive(w, a, Do(w, depth, a, act), Run(w, depth, a, p).state);
    case End(e) =>
      ConservesSelf(w, a.out.accounts);
      if e.AsyncCall? {
        RunAsyncEvolves(w, depth, a, e);
      }
  }

  lemma LockGasEvolves(w: World, a: Active, to: Address, data: Bytes, value: nat, hasCallback: bool)
    ensures Evolves(w, a, LockGas(w, a, to, data, value, hasCallback).state)
  {
    ConservesSelf(w, a.out.accounts);
  }

  lemma SendAsyncEvolves(w: World, a: Active, info: AsyncCallInfo)
    ensures Evolves(w, a, SendAsync(w, a, info).state)
  {
    TransferEvolves(w, a, info.destination, a.rt.scAddress, info.gasLimit, info.gasLocked, info.value, info.data,
                    AsynchronousCall);
  }

  lemma {:induction false} RunAsyncEvolves(w: World, depth: nat, a: Active, e: Ending)
    requires e.AsyncCall?
    ensures Evolves(w, a, RunAsync(w, depth, a, e).state)
    decreases e, 2
  {
    hide SendAsync, CallLocally, Conserves, GetCode;
    var l := LockGas(w, a, e.destination, e.data, e.value, e.hasCallback);
    LockGasEvolves(w, a, e.destination, e.data, e.value, e.hasCallback);
    if l.err.None? && e.parses {
      var info := l.state.rt.asyncInfo.value;
      var a1 := SetAccounts(l.state, Ensure(l.state.out.accounts, e.destination));
      assert Evolves(w, l.state, a1) by {
        EnsureConserves(w, l.state.out.accounts, e.destination);
      }
      EvolvesTransitive(w, a, l.state, a1);
      CallLocallyEvolves(w, depth, a1, info, e);
      SendAsyncEvolves(w, a1, info);
      EvolvesTransitive(w, a, a1, RunAsync(w, depth, a, e).state);
    }
  }

  lemma {:induction false} CallLocallyEvolves(w: World, depth: nat, a: Active, info: AsyncCallInfo, e: Ending)
    requires e.AsyncCall?
    ensures Evolves(w, a, CallLocally(w, depth, a, info, e))
    decreases e, 1
  {
    var o := Dest(w, depth, a, DestinationInput(a, info, e.name), e.callee);
    DestEvolves(w, depth, a, DestinationInput(a, info, e.name), e.callee);
    CallBackEvolves(w, depth, o, info, e);
    EvolvesTransitive(w, a, o.state, CallLocally(w, depth, a, info, e));
  }

  lemma {:induction false} CallBackEvolves(w: World, depth: nat, o: Outcome, info: AsyncCallInfo, e: Ending)
    requires e.AsyncCall?
    ensures Evolves(w, o.state, CallBack(w, depth, o, info, e))
    decreases e, 0
  {
    if CallbackGas(o, info) <= CallbackCost(w, o) {
      ErrorOutputEvolves(w, o.state, ErrNotEnoughGas);
    } else {
      var back := RestoreGas(o.state, info.gasLocked);
      ConservesSelf(w, o.state.out.accounts);
      DestEvolves(w, depth, back, CallbackInput(w, back, info, o), e.callback);
    }
  }
}
