/** What a transfer does to every account, and exactly when it fails, in terms of the chain. */
module Payments {
  import opened Overflow
  import opened Types
  import opened Ledger
  import opened Frame
  import opened Conservation

  /** Value went from one account to another, or from an account to itself. */
  ghost predicate Moved(a: Accounts, b: Accounts, from: Address, to: Address, value: int) {
    forall y :: DeltaOf(b, y) == DeltaOf(a, y) - (if y == from then value else 0) + (if y == to then value else 0)
  }

  ghost predicate NothingMoved(a: Accounts, b: Accounts) {
    forall y :: DeltaOf(b, y) == DeltaOf(a, y)
  }

  /** The accounts differ in deltas and cached balances alone. */
  ghost predicate RestKept(a: Accounts, b: Accounts) {
    forall y :: Account(b, y).(balance := None, delta := 0) == Account(a, y).(balance := None, delta := 0)
  }

  /** One transfer is added to the record of its destination. */
  ghost predicate Appended(a: Accounts, b: Accounts, to: Address, transfer: OutputTransfer) {
    forall y :: Account(b, y).transfers == Account(a, y).transfers + if y == to then [transfer] else []
  }

  /** Why a transfer fails, if it does. Whether the destination is payable only matters when the
      transfer may run code there, brings value and is not made within an asynchronous call. */
  function TransferError(
    w: World, accounts: Accounts, within: CallType, to: Address, from: Address, value: int, check: bool): Option<Error>
  {
    if value < 0 then Some(ErrTransferNegativeValue)
    else if Funds(w, accounts, from) < value then Some(ErrTransferInsufficientFunds)
    else if to !in w.payable then Some(ErrHook)
    else if check && value > 0 && within != AsynchronousCall && !w.payable[to] then Some(ErrAccountNotPayable)
    else None
  }

  lemma MoveMoves(accounts: Accounts, from: Address, to: Address, value: int)
    ensures Moved(accounts, Move(accounts, from, to, value), from, to, value)
    ensures RestKept(accounts, Move(accounts, from, to, value))
  {
  }

  lemma BalanceReadKeeps(w: World, a: Active, x: Address)
    ensures var b := GetBalance(w, a, x).state;
            NothingMoved(a.out.accounts, b.out.accounts) && RestKept(a.out.accounts, b.out.accounts)
  {
  }

  /** A transfer either moves its value between exactly two accounts, or fails and moves nothing. */
  lemma TransferMoves(w: World, a: Active, to: Address, from: Address, value: int, check: bool)
    ensures var t := TransferValueOnly(w, a, to, from, value, check);
            && (if t.err.None? then Moved(a.out.accounts, t.state.out.accounts, from, to, value)
                else NothingMoved(a.out.accounts, t.state.out.accounts))
            && RestKept(a.out.accounts, t.state.out.accounts)
  {
    hide GetBalance, Move;
    var b := GetBalance(w, a, from);
    BalanceReadKeeps(w, a, from);
    MoveMoves(b.state.out.accounts, from, to, value);
    var t := TransferValueOnly(w, a, to, from, value, check);
    if t.err.None? {
      MovedAfter(a.out.accounts, b.state.out.accounts, t.state.out.accounts, from, to, value);
    }
    KeptSelf(a.out.accounts);
  }

  lemma KeptSelf(a: Accounts)
    ensures NothingMoved(a, a) && RestKept(a, a)
  {
  }

  lemma MovedAfter(a: Accounts, b: Accounts, c: Accounts, from: Address, to: Address, value: int)
    requires NothingMoved(a, b) && RestKept(a, b) && Moved(b, c, from, to, value) && RestKept(b, c)
    ensures Moved(a, c, from, to, value) && RestKept(a, c)
  {
    forall y
      ensures Account(c, y).(balance := None, delta := 0) == Account(a, y).(balance := None, delta := 0)
    {
      assert Account(b, y).(balance := None, delta := 0) == Account(a, y).(balance := None, delta := 0);
    }
  }

  /** When the sender's cached balance, if any, is the chain's, the error is exactly this one. In
      particular a transfer fails for lack of funds if and only if what the sender has on the chain,
      with what was moved since, does not cover it. */
  lemma TransferExactly(w: World, a: Active, to: Address, from: Address, value: int, check: bool)
    requires CacheAgrees(w, from, Account(a.out.accounts, from))
    ensures TransferValueOnly(w, a, to, from, value, check).err
            == TransferError(w, a.out.accounts, a.rt.input.callType, to, from, value, check)
    ensures TransferValueOnly(w, a, to, from, value, check).err == Some(ErrTransferInsufficientFunds)
            <==> 0 <= value && Funds(w, a.out.accounts, from) < value
  {
    hide GetBalance, Move, Funds, Evolves;
    GetBalanceConserves(w, a, from);
    BalanceOnly(w, a, from);
  }

  /** A recorded transfer moves its value and is appended on its destination; a failed one leaves
      neither. */
  lemma TransferRecords(
    w: World, a: Active, to: Address, from: Address, limit: uint64, locked: uint64, value: int, data: Bytes,
      ct: CallType)
    ensures var t := Transfer(w, a, to, from, limit, locked, value, data, ct);
            && t.err == TransferValueOnly(w, a, to, from, value, limit > 0 && ct != AsynchronousCallBack).err
            && (t.err.None? ==>
                  && Moved(a.out.accounts, t.state.out.accounts, from, to, value)
                  && Appended(a.out.accounts, t.state.out.accounts, to,
                              OutputTransfer(value, limit, locked, data, ct, from)))
            && (t.err.Some? ==>
                  NothingMoved(a.out.accounts, t.state.out.accounts) && RestKept(a.out.accounts, t.state.out.accounts))
  {
    hide TransferValueOnly, AddTransfer;
    var check := limit > 0 && ct != AsynchronousCallBack;
    var t := TransferValueOnly(w, a, to, from, value, check);
    TransferMoves(w, a, to, from, value, check);
    if t.err.None? {
      var transfer := OutputTransfer(value, limit, locked, data, ct, from);
      var b := AddTransfer(t.state.out.accounts, to, transfer);
      AddsTransfer(t.state.out.accounts, to, transfer);
      forall y
        ensures Account(b, y).transfers == Account(a.out.accounts, y).transfers + if y == to then [transfer] else []
      {
        assert Account(t.state.out.accounts, y).(balance := None, delta := 0) == Account(a.out.accounts,
            y).(balance := None, delta := 0);
      }
    }
  }

  lemma AddsTransfer(accounts: Accounts, to: Address, transfer: OutputTransfer)
    ensures NothingMoved(accounts, AddTransfer(accounts, to, transfer))
    ensures Appended(accounts, AddTransfer(accounts, to, transfer), to, transfer)
  {
  }
}
