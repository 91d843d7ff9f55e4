/** What a run leaves behind besides gas and storage: payments, recorded transfers, return data,
    logs, the hook's journal, big integers, return code and message. It is what its requests asked
    for, in order, without those of failed calls. */
module Trails {
  import opened Overflow
  import opened Types
  import opened Ledger
  import opened Frame
  import opened Calls
  import opened Conservation
  import opened Traces
  import opened Payments

  datatype Payment = Payment(from: Address, to: Address, value: int)

  datatype Sending = Sending(to: Address, transfer: OutputTransfer)

  /** A code and a message are there only if the run sets them. */
  datatype Trail = Trail(
    payments: seq<Payment>, sent: seq<Sending>, returned: seq<Bytes>, logs: seq<LogEntry>, journal: seq<Bytes>,
    bigInts: map<int32, int>, code: Option<ReturnCode>, message: Option<Bytes>)

  const NOTHING := Trail([], [], [], [], [], map[], None, None)

  function Or<T>(value: Option<T>, before: T): T {
    if value.Some? then value.value else before
  }

  function Then(t: Trail, u: Trail): Trail {
    Trail(t.payments + u.payments, t.sent + u.sent, t.returned + u.returned, t.logs + u.logs, t.journal + u.journal,
          t.bigInts + u.bigInts, if u.code.Some? then u.code else t.code,
          if u.message.Some? then u.message else t.message)
  }

  /** What an account gained, less what it spent. */
  function Net(payments: seq<Payment>, x: Address): int {
    if payments == [] then 0 else
    var p := payments[0];
    (if p.to == x then p.value else 0) - (if p.from == x then p.value else 0) + Net(payments[1..], x)
  }

  function SentTo(sent: seq<Sending>, x: Address): seq<OutputTransfer> {
    if sent == [] then [] else SentOne(sent[0], x) + SentTo(sent[1..], x)
  }

  function SentOne(s: Sending, x: Address): seq<OutputTransfer> {
    if s.to == x then [s.transfer] else []
  }

  lemma {:induction false} NetConcat(u: seq<Payment>, v: seq<Payment>, x: Address)
    ensures Net(u + v, x) == Net(u, x) + Net(v, x)
  {
    if u == [] {
      assert u + v == v;
    } else {
      assert (u + v)[1..] == u[1..] + v;
      NetConcat(u[1..], v, x);
    }
  }

  lemma {:induction false} SentConcat(u: seq<Sending>, v: seq<Sending>, x: Address)
    ensures SentTo(u + v, x) == SentTo(u, x) + SentTo(v, x)
  {
    hide SentOne;
    if u == [] {
      assert u + v == v;
    } else {
      assert (u + v)[0] == u[0] && (u + v)[1..] == u[1..] + v;
      SentConcat(u[1..], v, x);
      Regroup(SentOne(u[0], x), SentTo(u[1..], x), SentTo(v, x));
    }
  }

  lemma Regroup<T>(r: seq<T>, s: seq<T>, t: seq<T>)
    ensures r + (s + t) == (r + s) + t
  {
  }

  // ----- the trail of a run -----

  ghost function RunTrail(w: World, depth: nat, a: Active, p: Program): Trail
    decreases p
  {
    match p
    case Step(act, rest) => Then(ActionTrail(w, depth, a, act), RunTrail(w, depth, Do(w, depth, a, act), rest))
    case End(e) => if e.AsyncCall? then AsyncTrail(w, depth, a, e) else NOTHING
  }

  function Failure(w: World, err: Error): Trail {
    NOTHING.(code := Some(ExecutionFailed), message := Some(w.errorText(err)))
  }

  function SimpleTrail(w: World, a: Active, act: Action): Trail
    requires !act.CallDest? && !act.CallSame?
  {
    var self := a.rt.scAddress;
    match act
    case SendValue(to, value, gas, data) =>
      if Transfer(w, a, to, self, gas, 0, value, data, DirectCall).err.Some? then NOTHING
      else NOTHING.(payments := [Payment(self, to, value)],
                    sent := [Sending(to, OutputTransfer(value, gas, 0, data, DirectCall, self))])
    case Finish(data) => NOTHING.(returned := [data])
    case WriteLog(topics, data) =>
      if a.rt.readOnly then NOTHING else NOTHING.(logs := [LogEntry(self, topics, data)])
    case SetBigInt(handle, value) => NOTHING.(bigInts := map[handle := value])
    case HookWrite(entry) => NOTHING.(journal := [entry])
    case FailExecution(err) => Failure(w, err)
    case SignalUserError(message) => NOTHING.(code := Some(UserError), message := Some(message))
    case _ => NOTHING
  }

  /** A nested call pays what its caller asked for, out of its caller's or its caller's caller's
      balance. */
  ghost function ActionTrail(w: World, depth: nat, a: Active, act: Action): Trail
    decreases act
  {
    if !act.CallDest? && !act.CallSame? then SimpleTrail(w, a, act)
    else if w.shards(a.rt.scAddress) != w.shards(act.destination) then Failure(w, ErrSyncExecutionNotInSameShard)
    else
      var sender := if act.CallDest? && act.byCaller then a.rt.input.caller else a.rt.scAddress;
      CallTrail(w, depth, ActionFrom(a, act), ActionInput(a, act), act.callee, act.CallSame?,
                [Payment(sender, act.destination, act.value)])
  }

  /** A failed call leaves nothing. One in its own context has big integers of its own, and its
      return code and message replace its caller's. */
  ghost function CallTrail(
    w: World, depth: nat, a: Active, input: CallInput, c: Contract, shared: bool, payments: seq<Payment>): Trail
    decreases c, 1
  {
    if Call(w, depth, a, input, c, shared).err.Some? then NOTHING else
    var t := Then(NOTHING.(payments := payments),
                  CalleeTrail(w, depth + 1, Paid(w, a, input, shared).state, input, c));
    if shared then t else Own(t)
  }

  function Own(t: Trail): Trail {
    t.(bigInts := map[], code := Some(Ok), message := Some(Or(t.message, [])))
  }

  ghost function CalleeTrail(w: World, depth: nat, a: Active, input: CallInput, c: Contract): Trail
    decreases c, 0
  {
    var p := Prepare(w, depth, a, input, c.starts);
    if p.err.None? && c.entry.Found? then RunTrail(w, depth, p.state, c.body) else NOTHING
  }

  ghost function AsyncTrail(w: World, depth: nat, a: Active, e: Ending): Trail
    requires e.AsyncCall?
    decreases e, 1
  {
    var s := AsyncStart(w, a, e);
    if s.err.Some? || s.state.rt.asyncInfo.None? then NOTHING
    else if GetCode(w, e.destination).err.Some? then SendTrail(w, s.state, s.state.rt.asyncInfo.value, e)
    else LegsTrail(w, depth, s.state, s.state.rt.asyncInfo.value, e)
  }

  /** The transfer that leaves the shard carries all the gas left, and the lock for the callback. */
  function SendTrail(w: World, a: Active, info: AsyncCallInfo, e: Ending): Trail
    requires e.AsyncCall?
  {
    var self, err := a.rt.scAddress, SendAsync(w, a, info).err;
    var lock := if e.hasCallback then GasLockedForAsync(w, a.codeSize) else 0;
    if err.Some? then Failure(w, err.value)
    else NOTHING.(payments := [Payment(self, e.destination, e.value)],
                  sent := [Sending(e.destination,
                                   OutputTransfer(e.value, GasLeft(a), lock, e.data, AsynchronousCall, self))])
  }

  ghost function LegsTrail(w: World, depth: nat, a: Active, info: AsyncCallInfo, e: Ending): Trail
    requires e.AsyncCall?
    decreases e, 0
  {
    var input := DestinationInput(a, info, e.name);
    var o := Dest(w, depth, a, input, e.callee);
    Then(CallTrail(w, depth, a, input, e.callee, false, [Payment(a.rt.scAddress, e.destination, e.value)]),
         if CallbackGas(o, info) <= CallbackCost(w, o) then
           Report(w, OutOfGas, if o.state.out.message == [] then w.errorText(ErrNotEnoughGas) else o.state.out.message)
         else
           var back := RestoreGas(o.state, info.gasLocked);
           var cbInput := CallbackInput(w, back, info, o);
           var cb := Dest(w, depth, back, cbInput, e.callback);
           if cb.err.Some? then Report(w, cb.vm.code, cb.vm.message)
           else CallTrail(w, depth, back, cbInput, e.callback, false, []))
  }

  /** What a callback that failed leaves in its caller's output. */
  function Report(w: World, code: ReturnCode, message: Bytes): Trail {
    NOTHING.(returned := [w.codeText(code), w.txHash], message := Some(message))
  }

  // ----- following a trail -----

  ghost predicate Follows(a: Active, b: Active, t: Trail) {
    && Pays(a.out.accounts, b.out.accounts, t.payments)
    && Sends(a.out.accounts, b.out.accounts, t.sent)
    && b.out.returnData == a.out.returnData + t.returned
    && b.out.logs == a.out.logs + t.logs
    && b.journal == a.journal + t.journal
    && b.bigInts == a.bigInts + t.bigInts
    && b.out.code == Or(t.code, a.out.code)
    && b.out.message == Or(t.message, a.out.message)
  }

  ghost predicate Pays(a: Accounts, b: Accounts, payments: seq<Payment>) {
    forall x :: DeltaOf(b, x) == DeltaOf(a, x) + Net(payments, x)
  }

  ghost predicate Sends(a: Accounts, b: Accounts, sent: seq<Sending>) {
    forall x :: Account(b, x).transfers == Account(a, x).transfers + SentTo(sent, x)
  }

  lemma FollowsThen(a: Active, b: Active, c: Active, t: Trail, u: Trail)
    requires Follows(a, b, t) && Follows(b, c, u)
    ensures Follows(a, c, Then(t, u))
  {
    PaysThen(a.out.accounts, b.out.accounts, c.out.accounts, t.payments, u.payments);
    SendsThen(a.out.accounts, b.out.accounts, c.out.accounts, t.sent, u.sent);
    hide Pays, Sends;
  }

  lemma PaysThen(a: Accounts, b: Accounts, c: Accounts, t: seq<Payment>, u: seq<Payment>)
    requires Pays(a, b, t) && Pays(b, c, u)
    ensures Pays(a, c, t + u)
  {
    hide Net;
    forall x
      ensures DeltaOf(c, x) == DeltaOf(a, x) + Net(t + u, x)
    {
      NetConcat(t, u, x);
      assert DeltaOf(b, x) == DeltaOf(a, x) + Net(t, x);
    }
  }

  lemma SendsThen(a: Accounts, b: Accounts, c: Accounts, t: seq<Sending>, u: seq<Sending>)
    requires Sends(a, b, t) && Sends(b, c, u)
    ensures Sends(a, c, t + u)
  {
    hide SentTo;
    forall x
      ensures Account(c, x).transfers == Account(a, x).transfers + SentTo(t + u, x)
    {
      SentConcat(t, u, x);
      Regroup(Account(a, x).transfers, SentTo(t, x), SentTo(u, x));
      assert Account(b, x).transfers == Account(a, x).transfers + SentTo(t, x);
    }
  }

  /** Nothing that a trail records has changed. */
  ghost predicate Keeps(a: Active, b: Active) {
    && NothingMoved(a.out.accounts, b.out.accounts)
    && NothingSent(a.out.accounts, b.out.accounts)
    && SameRest(a, b)
  }

  ghost predicate NothingSent(a: Accounts, b: Accounts) {
    forall x :: Account(b, x).transfers == Account(a, x).transfers
  }

  predicate SameRest(a: Active, b: Active) {
    && b.out.returnData == a.out.returnData && b.out.logs == a.out.logs && b.journal == a.journal
    && b.bigInts == a.bigInts && b.out.code == a.out.code && b.out.message == a.out.message
  }

  lemma KeepsFollows(a: Active, b: Active)
    requires Keeps(a, b)
    ensures Follows(a, b, NOTHING)
  {
    assert a.bigInts + map[] == a.bigInts;
  }

  lemma ThenNothing(t: Trail)
    ensures Then(t, NOTHING) == t && Then(NOTHING, t) == t
  {
    assert t.bigInts + map[] == t.bigInts && map[] + t.bigInts == t.bigInts;
  }

  /** Steps that leave no trail, around steps that do. */
  lemma FollowsBetween(a: Active, b: Active, c: Active, d: Active, t: Trail)
    requires Keeps(a, b) && Follows(b, c, t) && Keeps(c, d)
    ensures Follows(a, d, t)
  {
    hide Follows, Keeps, Then;
    KeepsFollows(a, b);
    KeepsFollows(c, d);
    FollowsThen(a, b, c, NOTHING, t);
    ThenNothing(t);
    FollowsThen(a, c, d, t, NOTHING);
  }

  lemma KeepsSelf(a: Active)
    ensures Keeps(a, a)
  {
  }

  lemma TransferFollows(a: Active, b: Active, from: Address, to: Address, transfer: OutputTransfer)
    requires b == SetAccounts(a, b.out.accounts)
    requires Moved(a.out.accounts, b.out.accounts, from, to, transfer.value)
    requires Appended(a.out.accounts, b.out.accounts, to, transfer)
    ensures Follows(a, b, NOTHING.(payments := [Payment(from, to, transfer.value)], sent := [Sending(to, transfer)]))
  {
    hide Moved, Appended;
    OnePayment(a.out.accounts, b.out.accounts, from, to, transfer.value);
    OneSending(a.out.accounts, b.out.accounts, to, transfer);
    assert a.bigInts + map[] == a.bigInts;
    hide Pays, Sends;
  }

  lemma OnePayment(a: Accounts, b: Accounts, from: Address, to: Address, value: int)
    requires Moved(a, b, from, to, value)
    ensures Pays(a, b, [Payment(from, to, value)])
  {
    assert [Payment(from, to, value)][1..] == [];
  }

  lemma OneSending(a: Accounts, b: Accounts, to: Address, transfer: OutputTransfer)
    requires Appended(a, b, to, transfer)
    ensures Sends(a, b, [Sending(to, transfer)])
  {
    assert [Sending(to, transfer)][1..] == [];
  }

  // ----- simple requests -----

  lemma KeptAccounts(a: Active, b: Active)
    requires NothingMoved(a.out.accounts, b.out.accounts) && RestKept(a.out.accounts, b.out.accounts) && SameRest(a, b)
    ensures Keeps(a, b)
  {
    forall x
      ensures Account(b.out.accounts, x).transfers == Account(a.out.accounts, x).transfers
    {
      assert Account(b.out.accounts, x).(balance := None, delta := 0) == Account(a.out.accounts,
          x).(balance := None, delta := 0);
    }
  }

  lemma TouchKeeps(a: Active, b: Active, x: Address, key: Bytes, value: Bytes)
    requires Touches(a, b, PutOverlay(a.out.accounts, x, key, value)) || Touches(a, b, a.out.accounts)
    ensures Keeps(a, b)
  {
  }

  lemma LedgerFollows(w: World, depth: nat, a: Active, act: Action)
    requires TouchesLedger(act)
    ensures Follows(a, Do(w, depth, a, act), SimpleTrail(w, a, act))
  {
    hide Follows, Keeps, SetStorage, GetStorage, GetStorageFromAddress, Transfer, GetBalance, View, WriteAllowed,
      Moved, Appended, NothingMoved, RestKept, PutOverlay;
    var b, self := Do(w, depth, a, act), a.rt.scAddress;
    match act
    case ReadStorage(key) =>
      ReadTouches(w, a, [], key);
      CachesRead(w, a, self, key, b);
      KeepsFollows(a, b);
    case ReadStorageOf(x, key) =>
      ReadTouches(w, a, x, key);
      CachesRead(w, a, x, key, b);
      KeepsFollows(a, b);
    case WriteStorage(key, data) =>
      WriteKeeps(w, a, key, data, true);
      KeepsFollows(a, b);
    case WriteProtected(key, data) =>
      WriteKeeps(w, a, key, data, false);
      KeepsFollows(a, b);
    case ReadBalance(x) =>
      BalanceReadKeeps(w, a, x);
      BalanceOnly(w, a, x);
      KeptAccounts(a, b);
      KeepsFollows(a, b);
    case SendValue(to, value, gas, data) =>
      TransferRecords(w, a, to, self, gas, 0, value, data, DirectCall);
      TransferOnly(w, a, to, self, gas, 0, value, data, DirectCall);
      if Transfer(w, a, to, self, gas, 0, value, data, DirectCall).err.None? {
        TransferFollows(a, b, self, to, OutputTransfer(value, gas, 0, data, DirectCall, self));
      } else {
        KeptAccounts(a, b);
        KeepsFollows(a, b);
      }
  }

  lemma CachesRead(w: World, a: Active, x: Address, key: Bytes, b: Active)
    requires || Touches(a, b, CacheRead(w, a, x, key).out.accounts)
             || Touches(a, b, CacheRead(w, a, a.storageAddress, key).out.accounts)
             || Touches(a, b, a.out.accounts)
    ensures Keeps(a, b)
  {
    hide Keeps, View, PutOverlay;
    var y := if Touches(a, b, CacheRead(w, a, x, key).out.accounts) then x else a.storageAddress;
    TouchKeeps(a, b, y, key, View(w, a.out.accounts, y, key));
  }

  lemma WriteKeeps(w: World, a: Active, key: Bytes, value: Bytes, protection: bool)
    ensures Keeps(a, SetStorage(w, a, key, value, protection))
  {
    hide Keeps, SetStorage, WriteAllowed, PutOverlay;
    SetStorageTouches(w, a, key, value, protection);
    KeepsSelf(a);
    if WriteAllowed(w, a, key, protection) {
      TouchKeeps(a, SetStorage(w, a, key, value, protection), a.storageAddress, key, value);
    }
  }

  lemma SimpleFollows(w: World, depth: nat, a: Active, act: Action)
    requires !act.CallDest? && !act.CallSame?
    ensures Follows(a, Do(w, depth, a, act), SimpleTrail(w, a, act))
  {
    hide SetStorage, GetStorage, GetStorageFromAddress, Transfer, GetBalance;
    if TouchesLedger(act) {
      hide Follows;
      LedgerFollows(w, depth, a, act);
    } else {
      assert a.bigInts + map[] == a.bigInts;
      SameLedger(a);
    }
  }

  lemma SameLedger(a: Active)
    ensures Pays(a.out.accounts, a.out.accounts, []) && Sends(a.out.accounts, a.out.accounts, [])
  {
  }

  lemma RefusedFollows(w: World, a: Active)
    ensures Follows(a, RefuseCall(w, a), Failure(w, ErrSyncExecutionNotInSameShard))
  {
    assert a.bigInts + map[] == a.bigInts;
    SameLedger(a);
  }

  // ----- nested calls -----

  /** What is expected to be paid for a call is what its input says; a callback that brings value
      has been paid already. */
  ghost predicate Agreed(payments: seq<Payment>, input: CallInput, shared: bool) {
    forall x :: Net(payments, x) ==
      if !shared && input.vm.callType == AsynchronousCallBack && input.vm.value != 0 then 0
      else Net([Payment(input.vm.caller, input.recipient, input.vm.value)], x)
  }

  lemma PaidFollows(w: World, a: Active, input: CallInput, shared: bool, payments: seq<Payment>)
    requires Agreed(payments, input, shared) && Paid(w, a, input, shared).err.None?
    ensures Follows(Entered(a, input, shared), Paid(w, a, input, shared).state, NOTHING.(payments := payments))
  {
    hide TransferValueOnly, Moved, RestKept, NothingMoved;
    var start, pay := Entered(a, input, shared), Paid(w, a, input, shared).state;
    TransferMoves(w, start, input.recipient, input.vm.caller, input.vm.value, false);
    PaysOnly(w, start, input.recipient, input.vm.caller, input.vm.value, false);
    PaymentSplit(start, pay, input.vm.caller, input.recipient, input.vm.value);
    assert start.bigInts + map[] == start.bigInts;
    SameLedger(start);
    PaysAlike(start.out.accounts, pay.out.accounts, input, shared, payments);
    hide Pays, Sends;
  }

  /** The transfers of a paid callee are those it was entered with. */
  lemma PaymentSplit(a: Active, b: Active, from: Address, to: Address, value: int)
    ensures RestKept(a.out.accounts, b.out.accounts) ==> Sends(a.out.accounts, b.out.accounts, [])
    ensures Moved(a.out.accounts, b.out.accounts, from, to, value) ==> Pays(a.out.accounts, b.out.accounts,
                                                                           [Payment(from, to, value)])
  {
    if RestKept(a.out.accounts, b.out.accounts) {
      forall x
        ensures Account(b.out.accounts, x).transfers == Account(a.out.accounts, x).transfers + SentTo([], x)
      {
        assert Account(b.out.accounts, x).(balance := None, delta := 0) == Account(a.out.accounts,
            x).(balance := None, delta := 0);
      }
    }
    if Moved(a.out.accounts, b.out.accounts, from, to, value) {
      OnePayment(a.out.accounts, b.out.accounts, from, to, value);
    }
  }

  lemma PaysAlike(a: Accounts, b: Accounts, input: CallInput, shared: bool, payments: seq<Payment>)
    requires Agreed(payments, input, shared)
    requires if !shared && input.vm.callType == AsynchronousCallBack && input.vm.value != 0 then Pays(a, b, [])
             else Pays(a, b, [Payment(input.vm.caller, input.recipient, input.vm.value)])
    ensures Pays(a, b, payments)
  {
    hide Net;
    forall x
      ensures DeltaOf(b, x) == DeltaOf(a, x) + Net(payments, x)
    {
      NoPayment(x);
    }
  }

  lemma NoPayment(x: Address)
    ensures Net([], x) == 0
  {
  }

  lemma PreparedKeeps(w: World, depth: nat, a: Active, input: CallInput, starts: bool)
    ensures Keeps(a, Prepare(w, depth, a, input, starts).state)
  {
    hide GetCode, InitialCost;
  }

  lemma {:induction false} CalleeFollows(w: World, depth: nat, a: Active, input: CallInput, c: Contract)
    ensures Follows(a, Execute(w, depth, a, input, c).state, CalleeTrail(w, depth, a, input, c))
    decreases c, 0
  {
    hide Prepare, Run, Follows, Keeps;
    var p := Prepare(w, depth, a, input, c.starts);
    PreparedKeeps(w, depth, a, input, c.starts);
    KeepsFollows(a, p.state);
    if p.err.None? && c.entry.Found? {
      var r := Run(w, depth, p.state, c.body).state;
      RunFollows(w, depth, p.state, c.body);
      KeepsSelf(r);
      FollowsBetween(a, p.state, r, r, RunTrail(w, depth, p.state, c.body));
    }
  }

  lemma ClosedKeeps(w: World, a: Active)
    ensures Keeps(a, CloseGas(a))
  {
    hide CloseGas;
    ClosedIs(a);
  }

  lemma ErrorKeeps(w: World, a: Active, err: Error)
    ensures Keeps(a, CreateErrorOutput(w, a, err).state)
  {
  }

  lemma KeepsTwice(a: Active, b: Active, c: Active)
    requires Keeps(a, b) && Keeps(b, c)
    ensures Keeps(a, c)
  {
    forall x
      ensures Account(c.out.accounts, x).transfers == Account(a.out.accounts, x).transfers
      ensures DeltaOf(c.out.accounts, x) == DeltaOf(a.out.accounts, x)
    {
      assert Account(b.out.accounts, x).transfers == Account(a.out.accounts, x).transfers;
      assert DeltaOf(b.out.accounts, x) == DeltaOf(a.out.accounts, x);
    }
  }

  lemma OutputKeeps(w: World, a: Active)
    ensures Keeps(a, GetVMOutput(w, a).state)
  {
    hide Keeps, CloseGas, GasMatches, CreateErrorOutput;
    ClosedKeeps(w, a);
    ErrorKeeps(w, CloseGas(a), ErrAccountMissing);
    ErrorKeeps(w, CloseGas(a), ErrGasMismatch);
    if GetVMOutput(w, a).state != CloseGas(a) {
      KeepsTwice(a, CloseGas(a), GetVMOutput(w, a).state);
    }
  }

  /** The callee's own contexts, from its entry until its output has been taken. */
  lemma {:induction false} OutputFollows(
    w: World, depth: nat, a: Active, input: CallInput, c: Contract, shared: bool, payments: seq<Payment>)
    requires Agreed(payments, input, shared) && CallExecution(w, depth, a, input, c, shared).err.None?
    ensures Follows(Entered(a, input, shared),
                    GetVMOutput(w, CallExecution(w, depth, a, input, c, shared).state).state,
                    Then(NOTHING.(payments := payments),
                         CalleeTrail(w, depth + 1, Paid(w, a, input, shared).state, input, c)))
    decreases c, 1
  {
    hide Follows, Keeps, Then, CallExecution, Paid, Execute, CalleeTrail, GetVMOutput, Agreed, Entered;
    CallExecutionIs(w, depth, a, input, c, shared);
    var start, pay := Entered(a, input, shared), Paid(w, a, input, shared);
    var e := CallExecution(w, depth, a, input, c, shared);
    var inner := CalleeTrail(w, depth + 1, pay.state, input, c);
    PaidFollows(w, a, input, shared, payments);
    CalleeFollows(w, depth + 1, pay.state, input, c);
    FollowsThen(start, pay.state, e.state, NOTHING.(payments := payments), inner);
    KeepsSelf(start);
    OutputKeeps(w, e.state);
    FollowsBetween(start, start, e.state, GetVMOutput(w, e.state).state, Then(NOTHING.(payments := payments), inner));
  }

  lemma OwnFollows(a: Active, input: CallInput, child: Active, b: Active, t: Trail)
    requires Follows(Enter(a, input), child, t) && Committed(a, child, b) && child.out.code == Ok
    ensures Follows(a, b, Own(t))
  {
    hide Pays, Sends;
    var start := Enter(a, input);
    assert start.out == Censor(a.out) && start.out.accounts == a.out.accounts;
    assert a.bigInts + map[] == a.bigInts;
    assert start.out.returnData + t.returned == t.returned && start.out.logs + t.logs == t.logs;
  }

  lemma SharedFollows(a: Active, input: CallInput, child: Active, b: Active, t: Trail)
    requires Follows(EnterSame(a, input), child, t)
    requires b.out == child.out && b.journal == child.journal && b.bigInts == child.bigInts
    ensures Follows(a, b, t)
  {
    hide Pays, Sends;
  }

  lemma {:induction false} CallFollows(
    w: World, depth: nat, a: Active, input: CallInput, c: Contract, shared: bool, payments: seq<Payment>)
    requires Agreed(payments, input, shared)
    ensures Follows(a, Call(w, depth, a, input, c, shared).state, CallTrail(w, depth, a, input, c, shared, payments))
    decreases c, 2
  {
    hide Follows, Keeps, Then, GetVMOutput, Agreed, CalleeTrail, Own, Paid, Call, CallExecution;
    var b := Call(w, depth, a, input, c, shared);
    if b.err.Some? {
      FailedKeeps(w, depth, a, input, c, shared);
      KeepsFollows(a, b.state);
    } else {
      var child := GetVMOutput(w, CallExecution(w, depth, a, input, c, shared).state).state;
      var t := Then(NOTHING.(payments := payments),
                    CalleeTrail(w, depth + 1, Paid(w, a, input, shared).state, input, c));
      CommittedIs(w, depth, a, input, c, shared);
      OutputFollows(w, depth, a, input, c, shared, payments);
      if shared {
        SharedFollows(a, input, child, b.state, t);
      } else {
        OwnFollows(a, input, child, b.state, t);
      }
    }
  }

  lemma FailedKeeps(w: World, depth: nat, a: Active, input: CallInput, c: Contract, shared: bool)
    requires Call(w, depth, a, input, c, shared).err.Some?
    ensures Keeps(a, Call(w, depth, a, input, c, shared).state)
  {
    hide Dest, SameExecution, Keeps, GetVMOutput;
    if shared {
      SameErr(w, depth, a, input, c);
      SameRollsBack(w, depth, a, input, c);
    } else {
      DestRollsBack(w, depth, a, input, c);
    }
    UndoneKeeps(a, Call(w, depth, a, input, c, shared).state);
  }

  lemma UndoneKeeps(a: Active, b: Active)
    requires b == a.(points := b.points, codeSize := b.codeSize)
    ensures Keeps(a, b)
  {
  }

  lemma CommittedIs(w: World, depth: nat, a: Active, input: CallInput, c: Contract, shared: bool)
    requires Call(w, depth, a, input, c, shared).err.None?
    ensures CallExecution(w, depth, a, input, c, shared).err.None?
    ensures var child := GetVMOutput(w, CallExecution(w, depth, a, input, c, shared).state).state;
            var b := Call(w, depth, a, input, c, shared).state;
            if shared then b.out == child.out && b.journal == child.journal && b.bigInts == child.bigInts
            else Committed(a, child, b) && child.out.code == Ok
  {
    hide GetVMOutput, Dest, SameExecution, DestExecution, MergeGas;
    if shared {
      SameErr(w, depth, a, input, c);
      ExecutionCode(w, depth, a, input, c, shared);
      SameCommitState(w, depth, a, input, c);
    } else {
      ErrorOutputCode(w, depth, a, input, c);
      DestCommits(w, depth, a, input, c);
      DestCommitted(w, depth, a, input, c);
    }
  }

  lemma DestCommitted(w: World, depth: nat, a: Active, input: CallInput, c: Contract)
    requires DestOutput(w, depth, a, input, c).vm.code == Ok
    ensures DestExecution(w, depth, a, input, c).err.None?
    ensures DestOutput(w, depth, a, input, c).state.out.code == Ok
  {
    hide GetVMOutput, DestExecution;
    var e := DestExecution(w, depth, a, input, c);
    if e.err.None? {
      OkOutputIsState(w, e.state);
    }
  }

  lemma AgreedDirect(input: CallInput, shared: bool)
    requires input.vm.callType != AsynchronousCallBack
    ensures Agreed([Payment(input.vm.caller, input.recipient, input.vm.value)], input, shared)
  {
  }

  lemma {:induction false} ActionFollows(w: World, depth: nat, a: Active, act: Action)
    ensures Follows(a, Do(w, depth, a, act), ActionTrail(w, depth, a, act))
    decreases act
  {
    hide Follows, Call, CallTrail, Do, SimpleTrail, Agreed;
    if !act.CallDest? && !act.CallSame? {
      SimpleFollows(w, depth, a, act);
    } else if w.shards(a.rt.scAddress) != w.shards(act.destination) {
      DoesNotCall(w, depth, a, act);
      RefusedFollows(w, a);
    } else {
      var from, input := ActionFrom(a, act), ActionInput(a, act);
      var sender := if act.CallDest? && act.byCaller then a.rt.input.caller else a.rt.scAddress;
      var payments := [Payment(sender, act.destination, act.value)];
      AgreedDirect(input, act.CallSame?);
      CallFollows(w, depth, from, input, act.callee, act.CallSame?, payments);
      DoesCall(w, depth, a, act);
      var b := Call(w, depth, from, input, act.callee, act.CallSame?).state;
      ReadOnlyAside(a, from, b, Do(w, depth, a, act), ActionTrail(w, depth, a, act));
    }
  }

  lemma ReadOnlyAside(a: Active, from: Active, b: Active, c: Active, t: Trail)
    requires a.out == from.out && a.journal == from.journal && a.bigInts == from.bigInts
    requires b.out == c.out && b.journal == c.journal && b.bigInts == c.bigInts && Follows(from, b, t)
    ensures Follows(a, c, t)
  {
    hide Pays, Sends;
  }

  // ----- runs -----

  /** At the end of a run every balance has changed by exactly the payments that were asked for and
      were not undone; the transfers, return data, logs, journal entries and big integers are those
      asked for, in order, and the return code and the message the last ones set. */
  lemma {:induction false} RunFollows(w: World, depth: nat, a: Active, p: Program)
    ensures Follows(a, Run(w, depth, a, p).state, RunTrail(w, depth, a, p))
    decreases p
  {
    hide Follows, Do, RunAsync, ActionTrail, AsyncTrail, Keeps, Then;
    match p
    case Step(act, rest) =>
      var b := Do(w, depth, a, act);
      ActionFollows(w, depth, a, act);
      RunFollows(w, depth, b, rest);
      FollowsThen(a, b, Run(w, depth, a, p).state, ActionTrail(w, depth, a, act), RunTrail(w, depth, b, rest));
    case End(e) =>
      if e.AsyncCall? {
        AsyncFollows(w, depth, a, e);
      } else {
        KeepsSelf(a);
        KeepsFollows(a, a);
      }
  }

  lemma StartKeeps(w: World, a: Active, e: Ending)
    requires e.AsyncCall?
    ensures var s := AsyncStart(w, a, e);
            && Keeps(a, s.state)
            && s.state.rt.scAddress == a.rt.scAddress && s.state.rt.readOnly == a.rt.readOnly
            && s.state.codeSize == a.codeSize
            && (s.err.None? ==>
                  && s.state.rt.asyncInfo == Some(AsyncCallInfo(e.destination, e.data, GasLeft(s.state),
                    if e.hasCallback then GasLockedForAsync(w, a.codeSize) else 0, e.value)))
  {
    hide GasLockedForAsync;
  }

  lemma {:induction false} AsyncFollows(w: World, depth: nat, a: Active, e: Ending)
    requires e.AsyncCall?
    ensures Follows(a, RunAsync(w, depth, a, e).state, AsyncTrail(w, depth, a, e))
    decreases e, 1
  {
    hide Follows, Keeps, AsyncStart, RunAsync, SendAsync, CallLocally, GetCode, LegsTrail, SendTrail, GasLeft,
      GasLockedForAsync;
    var s := AsyncStart(w, a, e);
    StartKeeps(w, a, e);
    AsyncIs(w, depth, a, e);
    if s.err.Some? {
      KeepsFollows(a, s.state);
    } else {
      var info, b := s.state.rt.asyncInfo.value, RunAsync(w, depth, a, e).state;
      if GetCode(w, e.destination).err.Some? {
        SendFollows(w, s.state, info, e);
      } else {
        LegsFollow(w, depth, s.state, info, e);
      }
      KeepsSelf(b);
      FollowsBetween(a, s.state, b, b, AsyncTrail(w, depth, a, e));
    }
  }

  /** What is recorded about an asynchronous call is what the contract asked for. */
  predicate InfoOf(w: World, a: Active, info: AsyncCallInfo, e: Ending)
    requires e.AsyncCall?
  {
    info == AsyncCallInfo(e.destination, e.data, GasLeft(a),
                          if e.hasCallback then GasLockedForAsync(w, a.codeSize) else 0, e.value)
  }

  lemma SendFollows(w: World, a: Active, info: AsyncCallInfo, e: Ending)
    requires e.AsyncCall? && InfoOf(w, a, info, e)
    ensures Follows(a, SendAsync(w, a, info).state, SendTrail(w, a, info, e))
  {
    hide Follows, Transfer, GasLeft, GasLockedForAsync, Moved, Appended, NothingMoved, RestKept, Keeps;
    var self := a.rt.scAddress;
    var t := Transfer(w, a, info.destination, self, info.gasLimit, info.gasLocked, info.value, info.data,
                      AsynchronousCall);
    TransferRecords(w, a, info.destination, self, info.gasLimit, info.gasLocked, info.value, info.data,
                    AsynchronousCall);
    TransferOnly(w, a, info.destination, self, info.gasLimit, info.gasLocked, info.value, info.data, AsynchronousCall);
    var b := SendAsync(w, a, info).state;
    if t.err.None? {
      TransferFollows(a, t.state, self, e.destination,
                  OutputTransfer(e.value, info.gasLimit, info.gasLocked, e.data, AsynchronousCall, self));
      PointsAside(a, t.state, b, SendTrail(w, a, info, e));
    } else {
      KeptAccounts(a, t.state);
      FailureFollows(w, a, t.state, b, t.err.value);
    }
  }

  lemma PointsAside(a: Active, b: Active, c: Active, t: Trail)
    requires Follows(a, b, t) && c == b.(points := c.points)
    ensures Follows(a, c, t)
  {
    hide Pays, Sends;
  }

  lemma FailureFollows(w: World, a: Active, b: Active, c: Active, err: Error)
    requires Keeps(a, b) && c == Fail(w, b.(points := c.points), err)
    ensures Follows(a, c, Failure(w, err))
  {
    KeepsFollows(a, b);
    hide Pays, Sends;
  }

  lemma {:induction false} LegsFollow(w: World, depth: nat, a: Active, info: AsyncCallInfo, e: Ending)
    requires e.AsyncCall? && InfoOf(w, a, info, e)
    ensures Follows(a, CallLocally(w, depth, a, info, e), LegsTrail(w, depth, a, info, e))
    decreases e, 0
  {
    hide Follows, Dest, CallTrail, CallLocally, CallbackGas, CallbackCost, RestoreGas, CreateErrorOutput,
      ReportCallback, Agreed, Then, Report, GasLockedForAsync;
    var input := DestinationInput(a, info, e.name);
    var o := Dest(w, depth, a, input, e.callee);
    var b := CallLocally(w, depth, a, info, e);
    var payments := [Payment(a.rt.scAddress, e.destination, e.value)];
    var first := CallTrail(w, depth, a, input, e.callee, false, payments);
    AgreedDirect(input, false);
    CallFollows(w, depth, a, input, e.callee, false, payments);
    CallsLocally(w, depth, a, info, e);
    if CallbackGas(o, info) <= CallbackCost(w, o) {
      UnpaidFollows(w, o.state);
      FollowsThen(a, o.state, b, first,
                  Report(w, OutOfGas, if o.state.out.message == [] then w.errorText(ErrNotEnoughGas)
                         else o.state.out.message));
    } else {
      BackFollows(w, depth, o, info, e);
      var back := RestoreGas(o.state, info.gasLocked);
      var cbInput := CallbackInput(w, back, info, o);
      var cb := Dest(w, depth, back, cbInput, e.callback);
      FollowsThen(a, o.state, b, first, if cb.err.Some? then Report(w, cb.vm.code, cb.vm.message)
                                        else CallTrail(w, depth, back, cbInput, e.callback, false, []));
    }
  }

  lemma ReportFollows(w: World, a: Active, b: Active, vm: VMOutput)
    requires Keeps(a, b)
    ensures Follows(a, ReportCallback(w, b, vm), Report(w, vm.code, vm.message))
  {
    KeepsFollows(a, b);
    hide Pays, Sends;
  }

  lemma UnpaidFollows(w: World, a: Active)
    ensures var failed := CreateErrorOutput(w, a, ErrNotEnoughGas);
            Follows(a, ReportCallback(w, failed.state, failed.vm),
                    Report(w, OutOfGas, if a.out.message == [] then w.errorText(ErrNotEnoughGas) else a.out.message))
  {
    hide Follows, Keeps, ReportCallback, Report;
    var failed := CreateErrorOutput(w, a, ErrNotEnoughGas);
    ErrorKeeps(w, a, ErrNotEnoughGas);
    ReportFollows(w, a, failed.state, failed.vm);
  }

  lemma {:induction false} BackFollows(w: World, depth: nat, o: Outcome, info: AsyncCallInfo, e: Ending)
    requires e.AsyncCall? && CallbackGas(o, info) > CallbackCost(w, o)
    ensures var back := RestoreGas(o.state, info.gasLocked);
            var cbInput := CallbackInput(w, back, info, o);
            var cb := Dest(w, depth, back, cbInput, e.callback);
            Follows(o.state, if cb.err.None? then cb.state else ReportCallback(w, cb.state, cb.vm),
                    if cb.err.Some? then Report(w, cb.vm.code, cb.vm.message)
                    else CallTrail(w, depth, back, cbInput, e.callback, false, []))
    decreases e.callback, 3
  {
    hide Follows, Dest, CallTrail, CallbackGas, CallbackCost, ReportCallback, Agreed, Report, Keeps;
    var back := RestoreGas(o.state, info.gasLocked);
    var cbInput := CallbackInput(w, back, info, o);
    var cb := Dest(w, depth, back, cbInput, e.callback);
    if cb.err.None? {
      AgreedBack(cbInput);
      CallFollows(w, depth, back, cbInput, e.callback, false, []);
      ReadOnlyAside(o.state, back, cb.state, cb.state, CallTrail(w, depth, back, cbInput, e.callback, false, []));
    } else {
      FailedKeeps(w, depth, back, cbInput, e.callback, false);
      ReportFollows(w, back, cb.state, cb.vm);
      var r := ReportCallback(w, cb.state, cb.vm);
      ReadOnlyAside(o.state, back, r, r, Report(w, cb.vm.code, cb.vm.message));
    }
  }

  lemma AgreedBack(input: CallInput)
    requires input.vm.callType == AsynchronousCallBack
    ensures Agreed([], input, false)
  {
    forall x
      ensures Net([], x) == if input.vm.value != 0 then 0
              else Net([Payment(input.vm.caller, input.recipient, input.vm.value)], x)
    {
      assert [Payment(input.vm.caller, input.recipient, input.vm.value)][1..] == [];
    }
  }
}
