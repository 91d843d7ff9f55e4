/** The big-integer context: handles to mutable cells, with a stack of cloned handle maps. The
    ghost model is what contracts can observe; the cells are what the heap holds. */
module BigInts {
  import opened Overflow

  class BigInt {
    var value: int

    constructor (value: int)
      ensures this.value == value
    {
      this.value := value;
    }
  }

  type Handles = map<int32, BigInt>

  /** Two handles never share a cell. */
  ghost predicate Distinct(m: Handles) {
    forall h, k :: h in m && k in m && h != k ==> m[h] != m[k]
  }

  ghost predicate Shows(m: Handles, model: map<int32, int>)
    reads m.Values
  {
    m.Keys == model.Keys && forall h :: h in m ==> m[h] in m.Values && m[h].value == model[h]
  }

  lemma SubsetSize(a: set<int32>, b: set<int32>)
    requires a <= b
    ensures |a| <= |b|
  {
    assert b == a + (b - a);
  }

  /** The k-th handle that the search looks at. */
  function Nth(start: int32, k: nat): int32 {
    WrapInt32(start + k)
  }

  lemma StepsDiffer(start: int32, j: nat, k: nat)
    requires j < k < j + TWO_32
    ensures Nth(start, j) != Nth(start, k)
  {
    var x, y := start + j, start + k;
    assert x == TWO_32 * (x / TWO_32) + x % TWO_32 && y == TWO_32 * (y / TWO_32) + y % TWO_32;
  }

  lemma NextStep(start: int32, k: nat)
    ensures WrapInt32(Nth(start, k) + 1) == Nth(start, k + 1)
  {
  }

  class BigIntContext {
    var values: Handles
    var stateStack: seq<Handles>
    ghost var model: map<int32, int>
    ghost var modelStack: seq<map<int32, int>>
    ghost var cells: set<BigInt>

    /** No cell is shared between two frames or two handles. */
    ghost predicate Valid()
      reads this, cells
    {
      && values.Values <= cells && Distinct(values) && Shows(values, model)
      && |modelStack| == |stateStack|
      && (forall i :: 0 <= i < |stateStack| ==>
            && stateStack[i].Values <= cells && Distinct(stateStack[i]) && Shows(stateStack[i], modelStack[i])
            && stateStack[i].Values !! values.Values)
      && (forall i, j :: 0 <= i < j < |stateStack| ==> stateStack[i].Values !! stateStack[j].Values)
    }

    constructor ()
      ensures Valid() && model == map[] && modelStack == [] && cells == {}
    {
      values, stateStack := map[], [];
      model, modelStack, cells := map[], [], {};
    }

    method InitState()
      requires Valid()
      modifies this`values, this`model
      ensures Valid() && model == map[]
    {
      values, model := map[], map[];
    }

    method ClearStateStack()
      requires Valid()
      modifies this`stateStack, this`modelStack
      ensures Valid() && modelStack == []
    {
      stateStack, modelStack := [], [];
    }

    method Clone() returns (newState: Handles)
      requires Valid()
      ensures Distinct(newState) && Shows(newState, model)
      ensures fresh(newState.Values)
    {
      newState := map[];
      var handles := values.Keys;
      while handles != {}
        invariant handles <= values.Keys
        invariant newState.Keys == values.Keys - handles
        invariant forall h :: h in newState ==> fresh(newState[h]) && newState[h].value == model[h]
        invariant Distinct(newState)
        decreases handles
      {
        var h :| h in handles;
        var copy := new BigInt(values[h].value);
        newState := newState[h := copy];
        handles := handles - {h};
      }
    }

    method PushState()
      requires Valid()
      modifies this`stateStack, this`modelStack, this`cells
      ensures Valid() && modelStack == old(modelStack) + [model]
      ensures old(cells) <= cells && fresh(cells - old(cells))
    {
      var newState := Clone();
      Save(newState);
    }

    method Save(newState: Handles)
      requires Valid() && newState.Values !! cells && Distinct(newState) && Shows(newState, model)
      modifies this`stateStack, this`modelStack, this`cells
      ensures Valid() && modelStack == old(modelStack) + [model] && cells == old(cells) + newState.Values
    {
      hide Shows, Distinct;
      stateStack := stateStack + [newState];
      modelStack := modelStack + [model];
      cells := cells + newState.Values;
    }

    method PopSetActiveState()
      requires Valid()
      modifies this`values, this`stateStack, this`model, this`modelStack
      ensures Valid()
      ensures if old(|modelStack|) == 0 then model == old(model) && modelStack == old(modelStack)
              else model == old(modelStack[|modelStack| - 1]) && modelStack == old(modelStack[..|modelStack| - 1])
    {
      var n := |stateStack|;
      if n == 0 {
        return;
      }
      values, stateStack := stateStack[n - 1], stateStack[..n - 1];
      model, modelStack := modelStack[n - 1], modelStack[..n - 1];
    }

    method PopDiscard()
      requires Valid()
      modifies this`stateStack, this`modelStack
      ensures Valid()
      ensures modelStack == if old(|modelStack|) == 0 then old(modelStack) else old(modelStack[..|modelStack| - 1])
    {
      var n := |stateStack|;
      if n == 0 {
        return;
      }
      stateStack, modelStack := stateStack[..n - 1], modelStack[..n - 1];
    }

    /** The search for a free handle ends, even when the counter wraps around; with fewer handles
        it stays below the int32 limit. Were every int32 taken, there would be none to find. */
    method FreeHandle() returns (handle: int32)
      requires |values| < TWO_32
      ensures handle !in values
      ensures 2 * |values| <= MAX_INT32 ==> |values| <= handle <= 2 * |values|
    {
      var start: int32 := WrapInt32(|values|);
      handle := start;
      ghost var taken, steps: nat := {}, 0;
      while handle in values
        invariant steps <= |values| && handle == WrapInt32(start + steps)
        invariant taken <= values.Keys && |taken| == steps
        invariant forall h :: h in taken ==> exists k: nat :: k < steps && h == Nth(start, k)
        decreases |values| - steps
      {
        forall k: nat | k < steps
          ensures handle != Nth(start, k)
        {
          StepsDiffer(start, k, steps);
        }
        taken := taken + {handle};
        assert handle == Nth(start, steps);
        SubsetSize(taken, values.Keys);
        NextStep(start, steps);
        handle := WrapInt32(handle + 1);
        steps := steps + 1;
      }
    }

    method Put(value: int64) returns (handle: int32)
      requires Valid() && |values| < TWO_32
      modifies this`values, this`model, this`cells
      ensures Valid() && handle !in old(model) && model == old(model)[handle := value]
      ensures old(cells) <= cells && fresh(cells - old(cells))
    {
      handle := FreeHandle();
      var cell := new BigInt(value);
      AddCell(handle, cell);
    }

    /** The cell under a handle; a missing one is created with value zero. */
    method GetOne(handle: int32) returns (cell: BigInt)
      requires Valid()
      modifies this`values, this`model, this`cells
      ensures Valid() && handle in values && cell == values[handle]
      ensures model == if handle in old(model) then old(model) else old(model)[handle := 0]
      ensures old(cells) <= cells && fresh(cells - old(cells))
    {
      if handle !in values {
        var zero := new BigInt(0);
        AddCell(handle, zero);
      }
      cell := values[handle];
    }

    method AddCell(handle: int32, cell: BigInt)
      requires Valid() && handle !in values && cell !in cells
      modifies this`values, this`model, this`cells
      ensures Valid() && handle in values && values[handle] == cell && values.Keys == old(values.Keys) + {handle}
      ensures model == old(model)[handle := cell.value] && cells == old(cells) + {cell}
    {
      values := values[handle := cell];
      model := model[handle := cell.value];
      cells := cells + {cell};
    }

    /** Writing through a handle: no other handle and no stacked frame can notice. */
    method Write(handle: int32, value: int)
      requires Valid() && handle in values
      modifies values[handle], this`model
      ensures Valid() && model == old(model)[handle := value]
    {
      values[handle].value := value;
      model := model[handle := value];
    }

    method Set(handle: int32, value: int)
      requires Valid()
      modifies this`values, this`model, this`cells, cells
      ensures Valid() && model == old(model)[handle := value]
      ensures old(cells) <= cells && fresh(cells - old(cells))
    {
      hide Valid;
      var _ := GetOne(handle);
      Write(handle, value);
    }
  }
}
