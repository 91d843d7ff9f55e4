/** The accounts of the output context as the objects they are (arwen/contexts/output.go): saved
    and active states share no account and no overlay. They do share storage entries, which are
    never written after they were made. */
module OutputHeap {
  import opened Overflow
  import opened Types
  import opened Ledger
  import opened Frame
  import opened Calls
  import opened Conservation

  class StorageUpdate {
    const data: Bytes

    constructor (data: Bytes)
      ensures this.data == data
    {
      this.data := data;
    }
  }

  class Overlay {
    var updates: map<Bytes, StorageUpdate>

    constructor ()
      ensures updates == map[]
    {
      updates := map[];
    }
  }

  class AccountObject {
    var balance: Option<int>
    var delta: int
    /** Made with the account and never replaced. */
    const overlay: Overlay
    var transfers: seq<OutputTransfer>
    var gasUsed: uint64

    constructor ()
      ensures fresh(overlay) && overlay.updates == map[]
      ensures balance == None && delta == 0 && transfers == [] && gasUsed == 0
    {
      balance, delta, transfers, gasUsed := None, 0, [], 0;
      overlay := new Overlay();
    }
  }

  type Objects = map<Address, AccountObject>

  // ----- what the objects stand for -----

  ghost function Entries(updates: map<Bytes, StorageUpdate>): map<Bytes, Bytes> {
    map k | k in updates :: updates[k].data
  }

  ghost function Value(account: AccountObject): OutputAccount
    reads account, account.overlay
  {
    OutputAccount(account.balance, account.delta, Entries(account.overlay.updates), account.transfers, account.gasUsed)
  }

  ghost function Values(m: Objects): Accounts
    reads m.Values, Overlays(m)
  {
    map x | x in m :: Value(m[x])
  }

  /** No two addresses share an account or an overlay. */
  ghost predicate Separate(m: Objects) {
    forall x, y :: x in m && y in m && x != y ==> m[x] != m[y] && m[x].overlay != m[y].overlay
  }

  /** Nor do two states. */
  ghost predicate Apart(m: Objects, n: Objects) {
    m.Values !! n.Values && Overlays(m) !! Overlays(n)
  }

  ghost function Overlays(m: Objects): set<Overlay> {
    set x | x in m :: m[x].overlay
  }

  // ----- merging -----

  /** The entries of the right side are shared, not copied. */
  method MergeStorageUpdates(left: Overlay, right: Overlay)
    requires left != right
    modifies left
    ensures left.updates == old(left.updates) + right.updates
  {
    ghost var before := left.updates;
    var keys := right.updates.Keys;
    while keys != {}
      invariant keys <= right.updates.Keys
      invariant left.updates.Keys == before.Keys + (right.updates.Keys - keys)
      invariant forall k :: k in left.updates ==>
                  left.updates[k] == if k in right.updates && k !in keys then right.updates[k] else before[k]
      decreases keys
    {
      var key :| key in keys;
      left.updates := left.updates[key := right.updates[key]];
      keys := keys - {key};
    }
  }

  lemma EntriesMerge(left: map<Bytes, StorageUpdate>, right: map<Bytes, StorageUpdate>)
    ensures Entries(left + right) == Entries(left) + Entries(right)
  {
  }

  method MergeOutputAccounts(left: AccountObject, right: AccountObject)
    requires left != right && left.overlay != right.overlay
    modifies left, left.overlay
    ensures Value(left) == MergeAccount(old(Value(left)), old(Value(right)))
  {
    hide Entries;
    EntriesMerge(left.overlay.updates, right.overlay.updates);
    MergeStorageUpdates(left.overlay, right.overlay);
    left.delta := right.delta;
    if right.balance.Some? {
      left.balance := right.balance;
    }
    if |right.transfers| > |left.transfers| {
      left.transfers := left.transfers + right.transfers[|left.transfers|..];
    }
    left.gasUsed := right.gasUsed;
  }

  /** The ledger after merging all accounts but those still to do. */
  ghost function MergedBut(left: Accounts, right: Accounts, todo: set<Address>): Accounts {
    map x | x in left.Keys + (right.Keys - todo) ::
      if x in right && x !in todo then MergeAccount(Account(left, x), right[x]) else left[x]
  }

  lemma MergedStep(left: Accounts, right: Accounts, todo: set<Address>, x: Address)
    requires x in todo && x in right
    ensures MergedBut(left, right, todo - {x})
            == MergedBut(left, right, todo)[x := MergeAccount(Account(MergedBut(left, right, todo), x), right[x])]
  {
  }

  /** One account of the right side, into its account on the left or into a new one. */
  method MergeOne(left: Objects, right: Objects, x: Address) returns (r: Objects)
    requires Separate(left) && Apart(left, right) && x in right
    modifies left.Values, Overlays(left)
    ensures Separate(r) && Apart(r, right)
    ensures Values(right) == old(Values(right))
    ensures fresh(r.Values - left.Values) && fresh(Overlays(r) - Overlays(left))
    ensures Values(r) == old(Values(left))[x := MergeAccount(Account(old(Values(left)), x), old(Values(right))[x])]
  {
    hide MergeAccount, Entries, Value, Separate, Values;
    r := WithAccount(left, right, x);
    assert Values(left) == old(Values(left)) && Values(right) == old(Values(right));
    assert r[x] in r.Values && r[x].overlay in Overlays(r);
    MergeInto(r, right, x);
  }

  method MergeInto(left: Objects, right: Objects, x: Address)
    requires Separate(left) && Apart(left, right) && x in right && x in left
    modifies left[x], left[x].overlay
    ensures Values(left) == old(Values(left))[x := MergeAccount(old(Values(left))[x], old(Values(right))[x])]
  {
    hide MergeAccount, Entries;
    assert left[x] in left.Values && right[x] in right.Values && left[x].overlay in Overlays(left)
      && right[x].overlay in Overlays(right);
    MergeOutputAccounts(left[x], right[x]);
    forall y | y in left && y != x
      ensures Value(left[y]) == old(Value(left[y]))
    {
      assert left[y] != left[x] && left[y].overlay != left[x].overlay;
    }
  }

  method WithAccount(left: Objects, right: Objects, x: Address) returns (r: Objects)
    requires Separate(left) && Apart(left, right)
    ensures Separate(r) && Apart(r, right) && x in r
    ensures fresh(r.Values - left.Values) && fresh(Overlays(r) - Overlays(left))
    ensures Values(r) == Ensure(Values(left), x)
  {
    r := left;
    if x !in left {
      var account := new AccountObject();
      NoEntries(account);
      r := r[x := account];
    }
  }

  lemma BothEnds(left: Objects, right: Objects)
    ensures Values(left).Keys == left.Keys && Values(right).Keys == right.Keys
    ensures MergedBut(Values(left), Values(right), right.Keys) == Values(left)
    ensures MergedBut(Values(left), Values(right), {}) == MergeAccounts(Values(left), Values(right))
  {
  }

  lemma NoEntries(account: AccountObject)
    requires account.balance == None && account.delta == 0 && account.overlay.updates == map[]
    requires account.transfers == [] && account.gasUsed == 0
    ensures Value(account) == NEW_ACCOUNT
  {
  }

  /** Only the left side changes, and what it gains is new. */
  method MergeVMOutputs(left: Objects, right: Objects) returns (r: Objects)
    requires Separate(left) && Apart(left, right)
    modifies left.Values, Overlays(left)
    ensures Separate(r) && Apart(r, right)
    ensures fresh(r.Values - left.Values) && fresh(Overlays(r) - Overlays(left))
    ensures Values(r) == MergeAccounts(old(Values(left)), old(Values(right)))
  {
    hide MergeAccount, Entries, Separate, Apart, Values, MergedBut, MergeAccounts;
    BothEnds(left, right);
    r := left;
    ghost var ours, theirs := Values(left), Values(right);
    var addresses := right.Keys;
    while addresses != {}
      invariant addresses <= right.Keys
      invariant Separate(r) && Apart(r, right) && Values(right) == theirs
      invariant fresh(r.Values - left.Values) && fresh(Overlays(r) - Overlays(left))
      invariant Values(r) == MergedBut(ours, theirs, addresses)
      decreases addresses
    {
      var x :| x in addresses;
      MergedStep(ours, theirs, addresses, x);
      r := MergeOne(r, right, x);
      addresses := addresses - {x};
    }
  }

  /** The active state merged into the saved one, and the result copied. */
  method MergeAndCopy(saved: Objects, active: Objects) returns (r: Objects)
    requires Separate(saved) && Apart(saved, active)
    modifies saved.Values, Overlays(saved)
    ensures Separate(r) && fresh(r.Values) && fresh(Overlays(r))
    ensures Values(r) == MergeAccounts(old(Values(saved)), old(Values(active)))
  {
    hide Separate, Values;
    NothingOwned();
    var merged := MergeVMOutputs(saved, active);
    MergesIntoNothing(Values(merged));
    r := MergeVMOutputs(map[], merged);
  }

  // ----- the stack of states -----

  class OutputAccounts {
    var active: Objects
    var stack: seq<Objects>

    /** No account and no overlay belongs to two states or to two addresses. */
    ghost predicate Valid()
      reads this
    {
      && Separate(active)
      && (forall i :: 0 <= i < |stack| ==> Separate(stack[i]) && Apart(active, stack[i]))
      && (forall i, j :: 0 <= i < j < |stack| ==> Apart(stack[i], stack[j]))
    }

    constructor ()
      ensures Valid() && active == map[] && stack == []
    {
      active, stack := map[], [];
    }

    /** The saved state has the same values in new objects. */
    method PushState()
      requires Valid()
      modifies this`stack
      ensures Valid() && |stack| == |old(stack)| + 1 && stack[..|stack| - 1] == old(stack)
      ensures Values(stack[|stack| - 1]) == old(Values(active))
    {
      hide Separate, Values;
      NothingOwned();
      var newState := MergeVMOutputs(map[], active);
      MergesIntoNothing(Values(active));
      stack := stack + [newState];
    }

    method PopSetActiveState()
      requires Valid()
      modifies this
      ensures Valid()
      ensures if old(|stack|) == 0 then active == old(active) && stack == old(stack)
              else active == old(stack[|stack| - 1]) && stack == old(stack[..|stack| - 1])
    {
      var n := |stack|;
      if n == 0 {
        return;
      }
      active, stack := stack[n - 1], stack[..n - 1];
    }

    /** The objects that a merge into the top of the stack writes to. */
    ghost function Top(): Objects
      reads this
    {
      if |stack| == 0 then map[] else stack[|stack| - 1]
    }

    /** Merge into the saved state, then copy: the new active state shares nothing with the old one,
        and the states below keep their values. */
    method PopMergeActiveState()
      requires Valid()
      modifies this, Top().Values, Overlays(Top())
      ensures Valid()
      ensures old(|stack|) == 0 ==> active == old(active) && stack == old(stack)
      ensures old(|stack|) > 0 ==>
                && stack == old(stack[..|stack| - 1])
                && Values(active) == MergeAccounts(old(Values(stack[|stack| - 1])), old(Values(active)))
                && fresh(active.Values) && fresh(Overlays(active))
      ensures forall i :: 0 <= i < |stack| ==> Values(stack[i]) == old(Values(stack[i]))
    {
      hide Separate, Values;
      NothingOwned();
      var n := |stack|;
      if n == 0 {
        return;
      }
      var prevState := stack[n - 1];
      stack := stack[..n - 1];
      active := MergeAndCopy(prevState, active);
    }

    // ----- the writes of the active frame -----

    /** The account at an address; a missing one is created. */
    method GetOutputAccount(x: Address) returns (account: AccountObject, isNew: bool)
      requires Valid()
      modifies this`active
      ensures Valid() && x in active && account == active[x] && isNew == (x !in old(active))
      ensures active == if x in old(active) then old(active) else old(active)[x := account]
      ensures isNew ==> fresh(account) && fresh(account.overlay)
      ensures Values(active) == Ensure(old(Values(active)), x)
    {
      isNew := x !in active;
      if isNew {
        account := new AccountObject();
        NoEntries(account);
        active := active[x := account];
      }
      account := active[x];
    }

    /** What writing to an address may change. */
    ghost function At(x: Address): set<AccountObject>
      reads this
    {
      if x in active then {active[x]} else {}
    }

    ghost function OverlayAt(x: Address): set<Overlay>
      reads this
    {
      if x in active then {active[x].overlay} else {}
    }

    /** No write to the active state changes a saved one. */
    method PutUpdate(x: Address, key: Bytes, value: Bytes)
      requires Valid()
      modifies this`active, OverlayAt(x)
      ensures Valid() && Values(active) == PutOverlay(old(Values(active)), x, key, value)
      ensures forall i :: 0 <= i < |stack| ==> Values(stack[i]) == old(Values(stack[i]))
    {
      hide Separate, Values, Value;
      var _, _ := GetOutputAccount(x);
      assert active[x].overlay in Overlays(active);
      WriteEntry(active, x, key, value);
    }

    method AddDelta(x: Address, value: int)
      requires Valid()
      modifies this`active, At(x)
      ensures Valid()
      ensures Values(active) == AddTxValue(old(Values(active)), x, value)
      ensures forall i :: 0 <= i < |stack| ==> Values(stack[i]) == old(Values(stack[i]))
    {
      hide Separate, Values, Value;
      var _, _ := GetOutputAccount(x);
      assert active[x] in active.Values;
      WriteDelta(active, x, value);
    }

    method AppendTransfer(x: Address, transfer: OutputTransfer)
      requires Valid()
      modifies this`active, At(x)
      ensures Valid() && Values(active) == AddTransfer(old(Values(active)), x, transfer)
      ensures forall i :: 0 <= i < |stack| ==> Values(stack[i]) == old(Values(stack[i]))
    {
      hide Separate, Values, Value;
      var _, _ := GetOutputAccount(x);
      assert active[x] in active.Values;
      WriteTransfer(active, x, transfer);
    }
  }

  // ----- writing to one account -----

  lemma OneChanged(before: Accounts, after: Accounts, x: Address, account: OutputAccount)
    requires after.Keys == before.Keys && x in before
    requires forall y :: y in before ==> after[y] == if y == x then account else before[y]
    ensures after == before[x := account]
  {
  }

  /** Store a value: a new entry replaces the old one, which stays as it was. */
  method WriteEntry(m: Objects, x: Address, key: Bytes, value: Bytes)
    requires Separate(m) && x in m
    modifies m[x].overlay
    ensures Values(m) == PutOverlay(old(Values(m)), x, key, value)
  {
    var update := new StorageUpdate(value);
    var updates := m[x].overlay.updates;
    m[x].overlay.updates := updates[key := update];
    assert Entries(updates[key := update]) == Entries(updates)[key := value];
    OneChanged(old(Values(m)), Values(m), x, Value(m[x]));
  }

  method WriteDelta(m: Objects, x: Address, value: int)
    requires Separate(m) && x in m
    modifies m[x]
    ensures Values(m) == AddTxValue(old(Values(m)), x, value)
  {
    m[x].delta := m[x].delta + value;
    OneChanged(old(Values(m)), Values(m), x, Value(m[x]));
  }

  method WriteTransfer(m: Objects, x: Address, transfer: OutputTransfer)
    requires Separate(m) && x in m
    modifies m[x]
    ensures Values(m) == AddTransfer(old(Values(m)), x, transfer)
  {
    m[x].transfers := m[x].transfers + [transfer];
    OneChanged(old(Values(m)), Values(m), x, Value(m[x]));
  }

  lemma NothingOwned()
    ensures Separate(map[]) && Overlays(map[]) == {} && Values(map[]) == map[]
  {
  }

  lemma MergesIntoNothing(accounts: Accounts)
    ensures MergeAccounts(map[], accounts) == accounts
  {
    MergeIsRight(map[], accounts);
  }
}
