/** What every request costs, in the rates of the gas schedule. */
module Prices {
  import opened Overflow
  import opened Types
  import opened Ledger
  import opened Frame
  import opened Calls
  import opened Conservation
  import opened Traces
  import opened Payments
  import opened StorageBytes
  import opened Entries

  // ----- requests -----

  /** A request that fails the execution takes all the gas left; what only changes the output is
      free, and nested calls that are made are charged by their callees. */
  function PriceOf(w: World, a: Active, act: Action): nat
    requires !MakesCall(w, a, act)
  {
    match act
    case Burn(gas) => gas
    case ReadStorage(key) => ReadPrice(w, key, View(w, a.out.accounts, a.storageAddress, key))
    case ReadStorageOf(x, key) =>
      ReadPrice(w, key, if x != a.storageAddress && (x !in w.balances || x !in w.readable) then []
                        else if w.reservedPrefix <= key then if (x, key) in w.storage then w.storage[(x, key)] else []
                        else View(w, a.out.accounts, x, key))
    case WriteStorage(key, data) => WritePrice(w, a, key, data, true)
    case WriteProtected(key, data) => WritePrice(w, a, key, data, false)
    case FailExecution(_) => Unspent(a)
    case CallDest(_, _, _, _, _, _) => Unspent(a)
    case CallSame(_, _, _, _, _, _) => Unspent(a)
    case _ => 0
  }

  /** Per byte of the value, and of the key beyond the length of an address. */
  function ReadPrice(w: World, key: Bytes, value: Bytes): nat {
    ProductNonNegative(w.schedule.dataCopyPerByte, KeyBytes(key) + |value|);
    w.schedule.dataCopyPerByte * (KeyBytes(key) + |value|)
  }

  function WritePrice(w: World, a: Active, key: Bytes, value: Bytes, protection: bool): nat {
    ProductNonNegative(w.schedule.dataCopyPerByte, KeyBytes(key));
    if !WriteAllowed(w, a, key, protection) then 0
    else w.schedule.dataCopyPerByte * KeyBytes(key) + WriteCost(w, Previous(w, a, key), value)
  }

  /** Every request other than a nested call that is made costs exactly its price. */
  lemma ActionCharges(w: World, depth: nat, a: Active, act: Action)
    requires !MakesCall(w, a, act) && a.points + PriceOf(w, a, act) <= MAX_INT64
    ensures Do(w, depth, a, act).points == a.points + PriceOf(w, a, act)
  {
    hide GetStorage, GetStorageFromAddress, SetStorage, Transfer, GetBalance, View, WritePrice, AfterCopy;
    match act
    case ReadStorage(key) =>
      ReadCharges(w, a, [], key);
      CopyFits(w, a.points, KeyBytes(key) + |View(w, a.out.accounts, a.storageAddress, key)|);
    case ReadStorageOf(x, key) =>
      ReadCharges(w, a, x, key);
      CopyFits(w, a.points, KeyBytes(key) +
               if x != a.storageAddress && (x !in w.balances || x !in w.readable) then 0
               else if w.reservedPrefix <= key then |if (x, key) in w.storage then w.storage[(x, key)] else []|
               else |View(w, a.out.accounts, x, key)|);
    case WriteStorage(key, data) => WriteIsCharged(w, a, key, data, true);
    case WriteProtected(key, data) => WriteIsCharged(w, a, key, data, false);
    case ReadBalance(x) => BalanceOnly(w, a, x);
    case SendValue(to, value, gas, data) => TransferOnly(w, a, to, a.rt.scAddress, gas, 0, value, data, DirectCall);
    case CallDest(_, _, _, _, _, _) => DoesNotCall(w, depth, a, act);
    case CallSame(_, _, _, _, _, _) => DoesNotCall(w, depth, a, act);
    case _ =>
  }

  lemma CopyFits(w: World, points: Points, bytes: nat)
    ensures var sum := points + w.schedule.dataCopyPerByte * bytes;
            sum <= MAX_INT64 ==> AfterCopy(w, points, bytes) == sum
  {
  }

  lemma WriteIsCharged(w: World, a: Active, key: Bytes, value: Bytes, protection: bool)
    requires a.points + WritePrice(w, a, key, value, protection) <= MAX_INT64
    ensures SetStorage(w, a, key, value, protection).points == a.points + WritePrice(w, a, key, value, protection)
  {
    hide SetStorage, WriteCost, View;
    var rate := w.schedule.dataCopyPerByte;
    ProductNonNegative(rate, KeyBytes(key));
    if WriteAllowed(w, a, key, protection) {
      KeyPrice(w, key);
      SetStorageGas(w, a, key, value, protection);
    } else {
      RejectedWrite(w, a, KeyValue(key, value), protection);
    }
  }

  lemma KeyPrice(w: World, key: Bytes)
    requires w.schedule.dataCopyPerByte * KeyBytes(key) <= MAX_UINT64
    ensures KeyCost(w, key) == w.schedule.dataCopyPerByte * KeyBytes(key)
  {
    if |key| > 32 {
      CappedProduct(w.schedule.dataCopyPerByte, KeyBytes(key));
    } else {
      assert w.schedule.dataCopyPerByte * 0 == 0;
    }
  }

  // ----- calls -----

  /** A failed call costs its caller nothing if the callee could not be paid or the initialiser was
      asked for, and all the gas that was given otherwise. */
  lemma FailedCallCharges(w: World, depth: nat, a: Active, input: CallInput, c: Contract, shared: bool)
    requires CacheAgrees(w, input.vm.caller, Account(a.out.accounts, input.vm.caller))
    requires Call(w, depth, a, input, c, shared).err.Some?
    ensures Call(w, depth, a, input, c, shared).state.points ==
            if PaymentError(w, a.out.accounts, input, shared).Some? || input.name.InitName? then a.points
            else UseGas(a, InitMeter(input.vm).provided).points
  {
    hide Dest, Same, Start, PaymentError, UseGas, CallExecution, ProvidedGas;
    StartsExactly(w, depth, a, input, c.starts, shared);
    CallerPaid(w, depth, a, input, c, shared);
    FailedPoints(w, depth, a, input, c, shared);
  }

  lemma CallerPaid(w: World, depth: nat, a: Active, input: CallInput, c: Contract, shared: bool)
    ensures CallExecution(w, depth, a, input, c, shared).callerPoints
            == Start(w, depth, a, input, c.starts, shared).callerPoints
  {
    hide Prepare, Paid, Run, CallExecution;
    CallExecutionIs(w, depth, a, input, c, shared);
  }

  lemma FailedPoints(w: World, depth: nat, a: Active, input: CallInput, c: Contract, shared: bool)
    requires Call(w, depth, a, input, c, shared).err.Some?
    ensures Call(w, depth, a, input, c, shared).state.points
            == CallExecution(w, depth, a, input, c, shared).callerPoints
  {
    hide Dest, Same, SameExecution, DestExecution;
    if shared {
      SameErr(w, depth, a, input, c);
      SameRollsBack(w, depth, a, input, c);
    } else {
      DestRollsBack(w, depth, a, input, c);
    }
  }

  /** The preparation of a code of this size, the callback's step and the fixed lock, capped as one
      sum. */
  function LockPrice(w: World, size: uint64): uint64 {
    ProductNonNegative(size, w.schedule.aotPreparePerByte);
    Cap(size * w.schedule.aotPreparePerByte + w.schedule.asyncCallStep + w.schedule.asyncCallbackGasLock)
  }

  /** An asynchronous call costs its step, and locks its callback's gas if there is a callback; it
      fails exactly when that leaves no gas, or when its data does not parse. */
  lemma AsyncCharges(w: World, a: Active, e: Ending)
    requires e.AsyncCall? && a.meter.forExecution <= MAX_INT64
    ensures var s, step := AsyncStart(w, a, e), w.schedule.asyncCallStep;
            var lock := if e.hasCallback then LockPrice(w, a.codeSize) else 0;
            && s.err == (if Unspent(a) <= step then Some(ErrNotEnoughGas)
                         else if e.hasCallback && Unspent(a) <= step + lock then Some(ErrNotEnoughGas)
                         else if !e.parses then Some(ErrCallDataParser) else None)
            && (s.err.None? ==> s.state.points == a.points + step + lock)
  {
    hide GasLockedForAsync, LockPrice;
    LockIs(w, a.codeSize);
  }

  lemma LockIs(w: World, size: uint64)
    ensures GasLockedForAsync(w, size) == LockPrice(w, size)
  {
    ProductNonNegative(size, w.schedule.aotPreparePerByte);
  }

  // ----- callbacks -----

  /** The callback is charged for its step, and per byte for its name, the destination's return code
      and each return value, or the message if the destination failed, and one separator each. */
  lemma CallbackPrice(w: World, o: Outcome)
    ensures var bytes := CALLBACK_NAME_LEN + 1 + |w.codeBytes(o.vm.code)| +
              if o.err.None? && o.vm.code == Ok then |o.vm.returnData| + TotalLength(o.vm.returnData)
              else 1 + |o.vm.message|;
            CallbackCost(w, o)
            == AddUint64(w.schedule.asyncCallStep, MulUint64(w.schedule.dataCopyPerByte, Cap(bytes)))
  {
    var said := if o.err.None? && o.vm.code == Ok then o.vm.returnData else [o.vm.message];
    LengthsAdd([w.codeBytes(o.vm.code)], said);
    OneLength(w.codeBytes(o.vm.code));
    OneLength(o.vm.message);
  }

  lemma OneLength(arg: Bytes)
    ensures TotalLength([arg]) == |arg|
  {
    assert [arg][..0] == [];
  }

  lemma {:induction false} LengthsAdd(u: seq<Bytes>, v: seq<Bytes>)
    ensures TotalLength(u + v) == TotalLength(u) + TotalLength(v)
    decreases |v|
  {
    if v == [] {
      assert u + v == u;
    } else {
      assert (u + v)[..|u + v| - 1] == u + v[..|v| - 1];
      LengthsAdd(u, v[..|v| - 1]);
    }
  }
}
