/** Splitting the gas that is left between pending asynchronous calls
    (arwen/host/asyncCall.go, setupAsyncCallsGas). */
module AsyncGasSplit {
  import opened Overflow
  import opened Types
  import opened Sums

  datatype AsyncCall = AsyncCall(providedGas: uint64, gasLimit: uint64)

  datatype SplitError = SumOverflows | NotEnoughGas

  // ----- what a split is measured by -----

  ghost function Provided(call: AsyncCall): int { call.providedGas }

  ghost function Undeclared(call: AsyncCall): int { if call.providedGas == 0 then 1 else 0 }

  ghost function Limit(call: AsyncCall): int { call.gasLimit }

  ghost function Over(calls: seq<AsyncCall>, f: AsyncCall -> int): int {
    if calls == [] then 0 else Over(calls[..|calls| - 1], f) + f(calls[|calls| - 1])
  }

  ghost function PerContext(contexts: map<Bytes, seq<AsyncCall>>, f: AsyncCall -> int): map<Bytes, int> {
    map id | id in contexts :: Over(contexts[id], f)
  }

  /** The total of `f` over every pending call, in no particular order. */
  ghost function Total(contexts: map<Bytes, seq<AsyncCall>>, f: AsyncCall -> int): int {
    SumMap(PerContext(contexts, f))
  }

  /** Whether the gas suffices. Nothing here mentions an order of the contexts. */
  ghost predicate CanSplit(contexts: map<Bytes, seq<AsyncCall>>, gasLeft: uint64) {
    && Total(contexts, Provided) <= gasLeft
    && (Total(contexts, Undeclared) > 0 ==> Total(contexts, Provided) < gasLeft)
  }

  /** What each call without declared gas receives. */
  ghost function Share(contexts: map<Bytes, seq<AsyncCall>>, gasLeft: uint64): uint64
    requires CanSplit(contexts, gasLeft)
  {
    TotalsNonNegative(contexts);
    var sharing := Total(contexts, Undeclared);
    if sharing == 0 then 0 else (gasLeft - Total(contexts, Provided)) / sharing
  }

  /** A call keeps the gas declared for it; one without a declaration gets the share. */
  function Assign(call: AsyncCall, share: uint64): AsyncCall {
    call.(gasLimit := if call.providedGas == 0 then share else call.providedGas)
  }

  function AssignCalls(calls: seq<AsyncCall>, share: uint64): (r: seq<AsyncCall>)
    ensures |r| == |calls|
  {
    seq(|calls|, i requires 0 <= i < |calls| => Assign(calls[i], share))
  }

  function AssignAll(contexts: map<Bytes, seq<AsyncCall>>, share: uint64): map<Bytes, seq<AsyncCall>> {
    map id | id in contexts :: AssignCalls(contexts[id], share)
  }

  /** The first pass alone: only declared gas is written. */
  ghost function DeclareCalls(calls: seq<AsyncCall>): (r: seq<AsyncCall>)
    ensures |r| == |calls|
  {
    seq(|calls|, i requires 0 <= i < |calls| => if calls[i].providedGas == 0 then calls[i] else Assign(calls[i], 0))
  }

  ghost function DeclareIn(contexts: map<Bytes, seq<AsyncCall>>, done: set<Bytes>): map<Bytes, seq<AsyncCall>> {
    map id | id in contexts :: if id in done then DeclareCalls(contexts[id]) else contexts[id]
  }

  /** Only gas limits may differ, and only from the old value to the declared gas. */
  ghost predicate PartlyDeclared(before: map<Bytes, seq<AsyncCall>>, after: map<Bytes, seq<AsyncCall>>) {
    && after.Keys == before.Keys
    && forall id :: id in before ==>
         && |after[id]| == |before[id]|
         && forall i :: 0 <= i < |before[id]| ==>
              after[id][i] == before[id][i]
              || after[id][i] == DeclareCalls(before[id])[i]
  }

  // ----- the split never hands out more than there is -----

  lemma {:induction false} AssignedCalls(calls: seq<AsyncCall>, share: uint64)
    ensures Over(AssignCalls(calls, share), Limit) == Over(calls, Provided) + share * Over(calls, Undeclared)
    decreases |calls|
  {
    if calls != [] {
      var front, last := calls[..|calls| - 1], calls[|calls| - 1];
      AssignedCalls(front, share);
      assert AssignCalls(calls, share)[..|calls| - 1] == AssignCalls(front, share);
      Distribute(share, Over(front, Undeclared), Undeclared(last));
    }
  }

  lemma Distribute(a: int, b: int, c: int)
    ensures a * (b + c) == a * b + a * c
  {
  }

  lemma PerContextWithout(contexts: map<Bytes, seq<AsyncCall>>, id: Bytes, f: AsyncCall -> int)
    requires id in contexts
    ensures Total(contexts, f) == Over(contexts[id], f) + Total(contexts - {id}, f)
  {
    SumTake(PerContext(contexts, f), id);
    assert PerContext(contexts, f) - {id} == PerContext(contexts - {id}, f);
  }

  lemma {:induction false} AssignedTotal(contexts: map<Bytes, seq<AsyncCall>>, share: uint64)
    ensures Total(AssignAll(contexts, share), Limit) == Total(contexts, Provided) + share * Total(contexts, Undeclared)
    decreases |contexts|
  {
    if contexts == map[] {
      assert PerContext(contexts, Provided) == map[] == PerContext(contexts, Undeclared);
      assert PerContext(AssignAll(contexts, share), Limit) == map[];
    } else {
      var id :| id in contexts;
      AssignedTotal(contexts - {id}, share);
      AssignedStep(contexts, share, id);
    }
  }

  lemma AssignedStep(contexts: map<Bytes, seq<AsyncCall>>, share: uint64, id: Bytes)
    requires id in contexts
    requires Total(AssignAll(contexts - {id}, share), Limit)
             == Total(contexts - {id}, Provided) + share * Total(contexts - {id}, Undeclared)
    ensures Total(AssignAll(contexts, share), Limit) == Total(contexts, Provided) + share * Total(contexts, Undeclared)
  {
    hide Total, Over;
    var rest := contexts - {id};
    var after := AssignAll(contexts, share);
    assert after - {id} == AssignAll(rest, share);
    AssignedCalls(contexts[id], share);
    PerContextWithout(contexts, id, Provided);
    PerContextWithout(contexts, id, Undeclared);
    PerContextWithout(after, id, Limit);
    Distribute(share, Over(contexts[id], Undeclared), Total(rest, Undeclared));
  }

  /** The limits never exceed the gas left, and what stays unassigned is smaller than the number of sharing calls. */
  lemma SplitWithinGas(contexts: map<Bytes, seq<AsyncCall>>, gasLeft: uint64)
    requires CanSplit(contexts, gasLeft)
    ensures var limits := Total(AssignAll(contexts, Share(contexts, gasLeft)), Limit);
            && limits <= gasLeft
            && (Total(contexts, Undeclared) > 0 ==> gasLeft - limits < Total(contexts, Undeclared))
            && (Total(contexts, Undeclared) == 0 ==> limits == Total(contexts, Provided))
  {
    var share := Share(contexts, gasLeft);
    AssignedTotal(contexts, share);
    TotalsNonNegative(contexts);
    var sharing, rest := Total(contexts, Undeclared), gasLeft - Total(contexts, Provided);
    if sharing > 0 {
      assert rest == (rest / sharing) * sharing + rest % sharing;
    } else {
      assert share * sharing == 0;
    }
  }

  // ----- sums met along the way -----

  ghost predicate Weighs(f: AsyncCall -> int) {
    forall call :: 0 <= f(call)
  }

  lemma {:induction false} PrefixBelow(calls: seq<AsyncCall>, n: nat, f: AsyncCall -> int)
    requires n <= |calls| && Weighs(f)
    ensures 0 <= Over(calls[..n], f) <= Over(calls, f)
    decreases |calls|
  {
    if n == |calls| {
      assert calls[..n] == calls;
      if n > 0 {
        PrefixBelow(calls[..n - 1], n - 1, f);
        assert calls[..n - 1][..n - 1] == calls[..n - 1];
      }
    } else {
      PrefixBelow(calls[..|calls| - 1], n, f);
      assert calls[..|calls| - 1][..n] == calls[..n];
    }
  }

  lemma TotalsNonNegative(contexts: map<Bytes, seq<AsyncCall>>)
    ensures 0 <= Total(contexts, Provided) && 0 <= Total(contexts, Undeclared)
  {
    PerContextNonNegative(contexts, Provided);
    PerContextNonNegative(contexts, Undeclared);
    SumNonNegative(PerContext(contexts, Provided));
    SumNonNegative(PerContext(contexts, Undeclared));
  }

  lemma PerContextNonNegative(contexts: map<Bytes, seq<AsyncCall>>, f: AsyncCall -> int)
    requires Weighs(f)
    ensures NonNegative(PerContext(contexts, f))
  {
    forall id | id in contexts
      ensures 0 <= Over(contexts[id], f)
    {
      PrefixBelow(contexts[id], 0, f);
    }
  }

  lemma VisitOne(contexts: map<Bytes, seq<AsyncCall>>, todo: set<Bytes>, id: Bytes, f: AsyncCall -> int)
    requires id in todo && todo <= contexts.Keys
    ensures Total(contexts - (todo - {id}), f) == Total(contexts - todo, f) + Over(contexts[id], f)
  {
    var visited := contexts - (todo - {id});
    PerContextWithout(visited, id, f);
    assert visited - {id} == contexts - todo;
  }

  lemma {:induction false} RestBelow(contexts: map<Bytes, seq<AsyncCall>>, todo: set<Bytes>)
    requires todo <= contexts.Keys
    ensures Total(contexts - todo, Provided) <= Total(contexts, Provided)
    decreases |todo|
  {
    if todo == {} {
      assert contexts - todo == contexts;
    } else {
      var id :| id in todo;
      VisitOne(contexts, todo, id, Provided);
      PrefixBelow(contexts[id], 0, Provided);
      RestBelow(contexts, todo - {id});
    }
  }

  // ----- the operation -----

  class AsyncContextInfo {
    var contexts: map<Bytes, seq<AsyncCall>>

    constructor (pending: map<Bytes, seq<AsyncCall>>)
      ensures contexts == pending
    {
      contexts := pending;
    }

    /** One context of the first pass, after the gas `needed` by the contexts before it. */
    method DeclareContext(id: Bytes, needed: uint64, gasLeft: uint64)
      returns (failure: Option<SplitError>, gasNeeded: uint64, zeroGas: nat)
      requires id in contexts && needed <= gasLeft
      modifies this
      ensures failure.None? <==> needed + Over(old(contexts)[id], Provided) <= gasLeft
      ensures failure == Some(SumOverflows) ==> needed + Over(old(contexts)[id], Provided) > MAX_UINT64
      ensures failure.None? ==>
                && gasNeeded == needed + Over(old(contexts)[id], Provided)
                && zeroGas == Over(old(contexts)[id], Undeclared)
                && contexts == old(contexts)[id := DeclareCalls(old(contexts)[id])]
      ensures failure.Some? ==> PartlyDeclared(old(contexts), contexts)
    {
      ghost var before := contexts;
      ghost var pending := contexts[id];
      gasNeeded, zeroGas, failure := needed, 0, None;
      for index := 0 to |contexts[id]|
        invariant contexts.Keys == before.Keys && |contexts[id]| == |pending|
        invariant contexts == before[id := contexts[id]]
        invariant forall i :: 0 <= i < |pending| ==>
                    contexts[id][i] == if i < index then DeclareCalls(pending)[i] else pending[i]
        invariant gasNeeded == needed + Over(pending[..index], Provided) <= gasLeft
        invariant zeroGas == Over(pending[..index], Undeclared)
      {
        assert pending[..index + 1][..index] == pending[..index];
        PrefixBelow(pending, index + 1, Provided);
        var call := contexts[id][index];
        var sum := AddUint64WithErr(gasNeeded, call.providedGas);
        if sum.Overflows? {
          return Some(SumOverflows), gasNeeded, zeroGas;
        }
        gasNeeded := sum.value;
        if gasNeeded > gasLeft {
          return Some(NotEnoughGas), gasNeeded, zeroGas;
        }
        if call.providedGas == 0 {
          zeroGas := zeroGas + 1;
          continue;
        }
        contexts := contexts[id := contexts[id][index := call.(gasLimit := call.providedGas)]];
      }
      assert pending[..|pending|] == pending;
      assert contexts[id] == DeclareCalls(pending);
    }

    method ShareContext(id: Bytes, share: uint64)
      requires id in contexts
      modifies this
      ensures contexts.Keys == old(contexts).Keys && contexts == old(contexts)[id := contexts[id]]
      ensures |contexts[id]| == |old(contexts)[id]|
      ensures forall i :: 0 <= i < |contexts[id]| ==>
                var call := old(contexts)[id][i];
                contexts[id][i] == if call.providedGas == 0 then call.(gasLimit := share) else call
    {
      ghost var before := contexts;
      for index := 0 to |contexts[id]|
        invariant contexts.Keys == before.Keys && |contexts[id]| == |before[id]|
        invariant contexts == before[id := contexts[id]]
        invariant forall i :: 0 <= i < |before[id]| ==>
                    contexts[id][i] ==
                    if i < index && before[id][i].providedGas == 0 then before[id][i].(gasLimit := share)
                    else before[id][i]
      {
        var call := contexts[id][index];
        if call.providedGas == 0 {
          contexts := contexts[id := contexts[id][index := call.(gasLimit := share)]];
        }
      }
    }

    /** The first pass. The contexts are visited in an order nobody chose. */
    method DeclareAll(gasLeft: uint64) returns (failure: Option<SplitError>, gasNeeded: uint64, callsWithZeroGas: nat)
      modifies this
      ensures failure.None? <==> Total(old(contexts), Provided) <= gasLeft
      ensures failure == Some(SumOverflows) ==> Total(old(contexts), Provided) > MAX_UINT64
      ensures failure.None? ==>
                && gasNeeded == Total(old(contexts), Provided) && callsWithZeroGas == Total(old(contexts), Undeclared)
                && contexts == DeclareIn(old(contexts), old(contexts).Keys)
      ensures failure.Some? ==> PartlyDeclared(old(contexts), contexts)
    {
      hide Total, Over;
      ghost var before := contexts;
      failure, gasNeeded, callsWithZeroGas := None, 0, 0;
      var todo := contexts.Keys;
      NothingVisited(before, Provided);
      NothingVisited(before, Undeclared);
      while todo != {}
        invariant todo <= before.Keys
        invariant contexts == DeclareIn(before, before.Keys - todo)
        invariant gasNeeded == Total(before - todo, Provided) <= gasLeft
        invariant callsWithZeroGas == Total(before - todo, Undeclared)
        decreases todo
      {
        var id :| id in todo;
        VisitOne(before, todo, id, Provided);
        VisitOne(before, todo, id, Undeclared);
        RestBelow(before, todo - {id});
        var error, needed, zeroGas := DeclareContext(id, gasNeeded, gasLeft);
        if error.Some? {
          StillPartly(before, before.Keys - todo, contexts);
          return error, gasNeeded, callsWithZeroGas;
        }
        gasNeeded, callsWithZeroGas := needed, callsWithZeroGas + zeroGas;
        todo := todo - {id};
      }
      assert before - {} == before;
    }

    /** The second pass, in another order. */
    method ShareAll(gasShare: uint64, ghost before: map<Bytes, seq<AsyncCall>>)
      requires contexts == DeclareIn(before, before.Keys)
      modifies this
      ensures contexts == AssignAll(before, gasShare)
    {
      var todo := contexts.Keys;
      while todo != {}
        invariant todo <= before.Keys && contexts.Keys == before.Keys
        invariant forall id :: id in before ==>
                    contexts[id] == if id in todo then DeclareCalls(before[id]) else AssignCalls(before[id], gasShare)
        decreases todo
      {
        var id :| id in todo;
        ShareContext(id, gasShare);
        assert contexts[id] == AssignCalls(before[id], gasShare);
        todo := todo - {id};
      }
    }

    /** Success depends on the totals alone, never on the order of the contexts. */
    method SetupAsyncCallsGas(gasLeft: uint64) returns (failure: Option<SplitError>)
      modifies this
      ensures failure.None? <==> CanSplit(old(contexts), gasLeft)
      ensures failure == Some(SumOverflows) ==> Total(old(contexts), Provided) > MAX_UINT64
      ensures failure.None? ==>
                && contexts == AssignAll(old(contexts), Share(old(contexts), gasLeft))
                && Total(contexts, Limit) <= gasLeft
                && (Total(old(contexts), Undeclared) > 0 ==>
                    gasLeft - Total(contexts, Limit) < Total(old(contexts), Undeclared))
      ensures failure.Some? ==> PartlyDeclared(old(contexts), contexts)
    {
      hide Total, Over;
      ghost var before := contexts;
      var gasNeeded, callsWithZeroGas;
      failure, gasNeeded, callsWithZeroGas := DeclareAll(gasLeft);
      if failure.Some? {
        return;
      }
      if callsWithZeroGas == 0 {
        NothingUndeclared(before);
        SplitWithinGas(before, gasLeft);
        return None;
      }
      if gasLeft <= gasNeeded {
        return Some(NotEnoughGas);
      }
      var gasShare := (gasLeft - gasNeeded) / callsWithZeroGas;
      ShareAll(gasShare, before);
      SplitWithinGas(before, gasLeft);
    }
  }

  lemma NothingVisited(contexts: map<Bytes, seq<AsyncCall>>, f: AsyncCall -> int)
    ensures Total(contexts - contexts.Keys, f) == 0
  {
    assert PerContext(contexts - contexts.Keys, f) == map[];
  }

  /** Failing in one context after finishing others still only wrote declared gas. */
  lemma StillPartly(before: map<Bytes, seq<AsyncCall>>, done: set<Bytes>, after: map<Bytes, seq<AsyncCall>>)
    requires PartlyDeclared(DeclareIn(before, done), after)
    ensures PartlyDeclared(before, after)
  {
    forall id | id in before
      ensures |after[id]| == |before[id]|
      ensures forall i :: 0 <= i < |before[id]| ==>
                after[id][i] == before[id][i]
                || after[id][i] == DeclareCalls(before[id])[i]
    {
      assert |DeclareIn(before, done)[id]| == |before[id]|;
    }
  }

  lemma {:induction false} AllDeclared(calls: seq<AsyncCall>)
    requires Over(calls, Undeclared) == 0
    ensures DeclareCalls(calls) == AssignCalls(calls, 0)
    decreases |calls|
  {
    if calls != [] {
      PrefixBelow(calls, |calls| - 1, Undeclared);
      AllDeclared(calls[..|calls| - 1]);
      var front := |calls| - 1;
      assert DeclareCalls(calls)[..front] == DeclareCalls(calls[..front])
        && AssignCalls(calls, 0)[..front] == AssignCalls(calls[..front], 0);
    }
  }

  lemma NothingUndeclared(contexts: map<Bytes, seq<AsyncCall>>)
    requires Total(contexts, Undeclared) == 0
    ensures DeclareIn(contexts, contexts.Keys) == AssignAll(contexts, 0)
  {
    PerContextNonNegative(contexts, Undeclared);
    SumNonNegative(PerContext(contexts, Undeclared));
    forall id | id in contexts
      ensures DeclareCalls(contexts[id]) == AssignCalls(contexts[id], 0)
    {
      assert PerContext(contexts, Undeclared)[id] == 0;
      AllDeclared(contexts[id]);
    }
  }
}
