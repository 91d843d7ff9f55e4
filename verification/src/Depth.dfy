/** The instance limit bounds the recursion: what a tree does below that depth never runs. */
module Depth {
  import opened Types
  import Ledger
  import opened Frame
  import opened Calls

  /** Cut a tree so that it nests at most `n` calls deep; cut calls do nothing. */
  ghost function Prune(p: Program, n: nat): Program
    decreases p
  {
    match p
    case Step(act, rest) => Step(PruneAction(act, n), Prune(rest, n))
    case End(e) =>
      if e.AsyncCall? then End(e.(callee := PruneContract(e.callee, n), callback := PruneContract(e.callback, n)))
        else p
  }

  ghost function PruneAction(act: Action, n: nat): Action
    decreases act
  {
    match act
    case CallDest(byCaller, to, value, limit, name, callee) =>
      CallDest(byCaller, to, value, limit, name, PruneContract(callee, n))
    case CallSame(asReadOnly, to, value, limit, name, callee) =>
      CallSame(asReadOnly, to, value, limit, name, PruneContract(callee, n))
    case _ => act
  }

  ghost function PruneContract(c: Contract, n: nat): Contract
    decreases c
  {
    c.(body := if n == 0 then End(Return) else Prune(c.body, n - 1))
  }

  function Larger(x: nat, y: nat): nat {
    if x < y then y else x
  }

  /** How deep calls are nested in a tree. */
  ghost function Height(p: Program): nat
    decreases p
  {
    match p
    case Step(act, rest) =>
      Larger(if act.CallDest? || act.CallSame? then 1 + Height(act.callee.body) else 0, Height(rest))
    case End(e) => if e.AsyncCall? then 1 + Larger(Height(e.callee.body), Height(e.callback.body)) else 0
  }

  lemma {:induction false} PrunedHeight(p: Program, n: nat)
    ensures Height(Prune(p, n)) <= n + 1
    decreases p
  {
    match p
    case Step(act, rest) =>
      PrunedHeight(rest, n);
      if act.CallDest? || act.CallSame? {
        PrunedContractHeight(act.callee, n);
      }
    case End(e) =>
      if e.AsyncCall? {
        PrunedContractHeight(e.callee, n);
        PrunedContractHeight(e.callback, n);
      }
  }

  lemma {:induction false} PrunedContractHeight(c: Contract, n: nat)
    ensures Height(PruneContract(c, n).body) <= n
    decreases c
  {
    if n > 0 {
      PrunedHeight(c.body, n - 1);
    }
  }

  /** A frame at `depth` whose tree is cut where instances run out behaves as before. */
  lemma {:induction false} PrunedRun(w: World, depth: nat, a: Active, p: Program, n: nat)
    requires depth + n + 1 >= MAX_INSTANCES
    ensures Run(w, depth, a, Prune(p, n)) == Run(w, depth, a, p)
    decreases p
  {
    match p
    case Step(act, rest) =>
      PrunedAction(w, depth, a, act, n);
      PrunedRun(w, depth, Do(w, depth, a, act), rest, n);
    case End(e) =>
      if e.AsyncCall? {
        PrunedAsync(w, depth, a, e, n);
      }
  }

  lemma {:induction false} PrunedAction(w: World, depth: nat, a: Active, act: Action, n: nat)
    requires depth + n + 1 >= MAX_INSTANCES
    ensures Do(w, depth, a, PruneAction(act, n)) == Do(w, depth, a, act)
    decreases act
  {
    match act
    case CallDest(byCaller, to, value, limit, name, callee) =>
      var sender := if byCaller then a.rt.input.caller else a.rt.scAddress;
      PrunedDest(w, depth, a, IndirectInput(a, sender, value, limit, to, name), callee, n);
    case CallSame(asReadOnly, to, value, limit, name, callee) =>
      var input := IndirectInput(a, a.rt.scAddress, value, limit, to, name);
      PrunedSame(w, depth, a, input, callee, n);
      PrunedSame(w, depth, a.(rt := a.rt.(readOnly := true)), input, callee, n);
    case _ =>
  }

  lemma {:induction false} PrunedExecute(w: World, depth: nat, a: Active, input: CallInput, c: Contract, n: nat)
    requires depth + n >= MAX_INSTANCES
    ensures Execute(w, depth, a, input, PruneContract(c, n)) == Execute(w, depth, a, input, c)
    decreases c, 0
  {
    var p := Prepare(w, depth, a, input, c.starts);
    if p.err.None? && n > 0 {
      PrunedRun(w, depth, p.state, c.body, n - 1);
    }
  }

  lemma {:induction false} PrunedDest(w: World, depth: nat, a: Active, input: CallInput, c: Contract, n: nat)
    requires depth + n + 1 >= MAX_INSTANCES
    ensures Dest(w, depth, a, input, PruneContract(c, n)) == Dest(w, depth, a, input, c)
    decreases c, 1
  {
    var pay := PayCall(w, Enter(a, input), input);
    PrunedExecute(w, depth + 1, pay.state, input, c, n);
  }

  lemma {:induction false} PrunedSame(w: World, depth: nat, a: Active, input: CallInput, c: Contract, n: nat)
    requires depth + n + 1 >= MAX_INSTANCES
    ensures Same(w, depth, a, input, PruneContract(c, n)) == Same(w, depth, a, input, c)
    decreases c, 1
  {
    var a1 := EnterSame(a, input);
    var pay := TransferValueOnly(w, a1, input.recipient, input.vm.caller, input.vm.value, false);
    PrunedExecute(w, depth + 1, pay.state, input, c, n);
  }

  lemma {:induction false} PrunedAsync(w: World, depth: nat, a: Active, e: Ending, n: nat)
    requires e.AsyncCall? && depth + n + 1 >= MAX_INSTANCES
    ensures RunAsync(w, depth, a, e.(callee := PruneContract(e.callee, n), callback := PruneContract(e.callback, n)))
            == RunAsync(w, depth, a, e)
    decreases e
  {
    hide SendAsync, CallLocally;
    var e' := e.(callee := PruneContract(e.callee, n), callback := PruneContract(e.callback, n));
    var l := LockGas(w, a, e.destination, e.data, e.value, e.hasCallback);
    if l.err.None? {
      var info := l.state.rt.asyncInfo.value;
      var a1 := SetAccounts(l.state, Ledger.Ensure(l.state.out.accounts, e.destination));
      PrunedLegs(w, depth, a1, info, e, e', n);
    }
  }

  lemma {:induction false} PrunedLegs(
    w: World, depth: nat, a: Active, info: AsyncCallInfo, e: Ending, e': Ending, n: nat)
    requires e.AsyncCall? && depth + n + 1 >= MAX_INSTANCES
    requires e' == e.(callee := PruneContract(e.callee, n), callback := PruneContract(e.callback, n))
    ensures CallLocally(w, depth, a, info, e') == CallLocally(w, depth, a, info, e)
    decreases e, 0
  {
    hide Dest, CallbackGas, CallbackCost, CreateErrorOutput, ReportCallback, RestoreGas;
    var input := DestinationInput(a, info, e.name);
    PrunedDest(w, depth, a, input, e.callee, n);
    var o := Dest(w, depth, a, input, e.callee);
    if CallbackGas(o, info) > CallbackCost(w, o) {
      var back := RestoreGas(o.state, info.gasLocked);
      PrunedDest(w, depth, back, CallbackInput(w, back, info, o), e.callback, n);
    }
  }

  /** In a transaction no frame runs more than the instance limit deep. */
  lemma TransactionDepth(w: World, a: Active, p: Program)
    ensures Run(w, 0, a, Prune(p, MAX_INSTANCES - 1)) == Run(w, 0, a, p)
    ensures Height(Prune(p, MAX_INSTANCES - 1)) <= MAX_INSTANCES
  {
    PrunedRun(w, 0, a, p, MAX_INSTANCES - 1);
    PrunedHeight(p, MAX_INSTANCES - 1);
  }
}
