/** Trees without gas-carrying transfers in which callees may overspend in their caller's
    context: such a callee is committed all the same, and its caller's check decides. */
module SharedCalls {
  import opened Overflow
  import opened Types
  import opened Sums
  import opened Frame
  import opened Calls
  import opened Conservation
  import opened Traces
  import opened GasIdentity
  import opened AsyncCost
  import opened CrossShard
  import opened Carriers

  // ----- no gas is ever carried -----

  ghost predicate Free(a: Active) {
    NoTransferGas(a.out.accounts)
  }

  lemma FreeCarriers(w: World, a: Active)
    ensures Free(a) <==> CarriedOnly(w, a.out.accounts, false)
  {
  }

  lemma RunFree(w: World, depth: nat, a: Active, p: Program)
    requires Free(a) && GasFree(w, p)
    ensures Free(Run(w, depth, a, p).state)
  {
    hide NoTransferGas, CarriedOnly, Run;
    GasFreeIs(w, p, false);
    FreeCarriers(w, a);
    RunCarriers(w, depth, a, p, false);
    FreeCarriers(w, Run(w, depth, a, p).state);
  }

  lemma ExecutionFree(w: World, depth: nat, a: Active, input: CallInput, c: Contract, shared: bool)
    requires Free(a) && GasFree(w, c.body)
    ensures Free(CallExecution(w, depth, a, input, c, shared).state)
  {
    hide NoTransferGas, CarriedOnly, CallExecution;
    GasFreeIs(w, c.body, false);
    FreeCarriers(w, a);
    ExecutionCarriers(w, depth, a, input, c, shared, false);
    FreeCarriers(w, CallExecution(w, depth, a, input, c, shared).state);
  }

  // ----- the exact condition -----

  lemma NothingOwn(a: Active)
    requires Free(a)
    ensures CarriedByCurrent(a) == 0 && CarriedGas(FinalAccounts(a)) == 0
  {
    NothingCarried(FinalAccounts(a));
  }

  /** However its callees spend, a frame of such a tree is accepted if and only if it stayed within
      its gas and spent at least what its gas map holds for the other accounts. */
  lemma SharedFrameExactly(w: World, depth: nat, a: Active, p: Program)
    requires Free(a) && Metered(a) && GasFree(w, p)
    ensures var b := Run(w, depth, a, p).state;
            GasMatches(CloseGas(b)) <==> FreeAccepted(b)
  {
    hide NoTransferGas, CloseGas, GasMatches, Run, CarriedGas, CarriedByCurrent, OthersUsed, GasFree;
    var b := Run(w, depth, a, p).state;
    RunFree(w, depth, a, p);
    RunEvolves(w, depth, a, p);
    NothingOwn(b);
    AcceptedExactly(b);
  }

  // ----- how far an overspending callee pushes its caller -----

  /** What a committed callee that shared its caller's context adds to its caller's gas map, and what
      it costs. An accepted callee adds and costs what it spent. Any other costs just what it was
      given, but adds all that it spent, or all that its own map held for others if that is more. */
  lemma SharedCharge(w: World, depth: nat, a: Active, input: CallInput, c: Contract)
    requires Free(a) && GasFree(w, c.body) && Visible(input.vm)
    requires input.vm.gasProvided <= GasLeft(a) && a.meter.forExecution <= MAX_INT64
    requires Same(w, depth, a, input, c).err.None?
    ensures var e := SameExecution(w, depth, a, input, c).state; var b := Same(w, depth, a, input, c).state;
            && b.meter.used == MergeGas(CloseGas(e).meter.used, a.meter.used)
            && SumMap(CloseGas(e).meter.used) == Max(Spent(e), OthersUsed(e))
            && b.points - a.points == if FreeAccepted(e) then Spent(e) else input.vm.gasProvided
  {
    hide NoTransferGas, CarriedGas, CarriedByCurrent, OthersUsed, GasFree, Same, SameExecution, GetVMOutput, CloseGas,
      Execute, MergeGas;
    var e := CallExecution(w, depth, a, input, c, true);
    CallEnds(w, depth, a, input, c, true);
    EndMetered(w, depth, a, input, c, true);
    ExecutionFree(w, depth, a, input, c, true);
    FreeClosedSum(e.state);
    SameCommitState(w, depth, a, input, c);
    SamePoints(w, depth, a, input, c);
    CallerCharged(w, depth, a, input, c, true);
    SharedOutput(w, e.state);
  }

  /** The condition of `SharedFrameExactly`. */
  ghost predicate FreeAccepted(a: Active) {
    a.points <= a.meter.forExecution && OthersUsed(a) <= Spent(a)
  }

  lemma FreeClosedSum(a: Active)
    requires Free(a) && Metered(a)
    ensures SumMap(CloseGas(a).meter.used) == Max(Spent(a), OthersUsed(a))
  {
    hide NoTransferGas, CarriedGas, CarriedByCurrent, CloseGas;
    var self, used := a.rt.scAddress, CloseGas(a).meter.used;
    NothingOwn(a);
    ClosedAssignment(a);
    SumPut(a.meter.used, self, used[self]);
  }

  /** The output of an accepted frame says what gas remains; a rejected frame's output says none,
      and its gas map is closed in either case. */
  lemma SharedOutput(w: World, a: Active)
    requires Free(a) && Metered(a) && a.out.code == Ok
    ensures var o := GetVMOutput(w, a);
            && o.state.meter == CloseGas(a).meter
            && o.vm.gasRemaining == if FreeAccepted(a) then a.meter.forExecution - a.points else 0
  {
    hide NoTransferGas, CarriedGas, CarriedByCurrent, OthersUsed, CloseGas, GasMatches;
    NothingOwn(a);
    AcceptedExactly(a);
    ClosedRemaining(a);
  }
}
