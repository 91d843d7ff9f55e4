/** Reading and writing the memory of a Wasm instance, and the arguments laid out in it
    (arwen/contexts/runtime.go and arwen/elrondapi/elrondei.go). */
module WasmMemory {
  import opened Overflow
  import opened Types

  datatype MemoryError =
    | ErrBadBounds | ErrNegativeLength | ErrBadLowerBounds | ErrBadUpperBounds | ErrGrow | ErrNegativeCount | SlicePanic

  datatype Result<+T> = Success(value: T) | Failure(error: MemoryError)

  const PAGE_SIZE: nat := 65536

  // ----- the values read -----

  /** Bytes past the end of the memory read as zero. */
  function PaddedRead(memory: Bytes, offset: nat, length: nat): (r: Bytes)
    ensures |r| == length
    ensures offset + length <= |memory| ==> r == memory[offset..offset + length]
  {
    seq(length, i requires 0 <= i < length => if offset + i < |memory| then memory[offset + i] else 0)
  }

  /** Reads and writes end at the largest int32: what lies beyond reads as zero too. */
  function Addressable(memory: Bytes): (r: Bytes)
    ensures |memory| <= MAX_INT32 ==> r == memory
  {
    if |memory| <= MAX_INT32 then memory else memory[..MAX_INT32]
  }

  function Load(memory: Bytes, offset: int32, length: int32): Result<Bytes> {
    if length == 0 then Success([])
    else if offset < 0 || offset > |memory| then Failure(ErrBadBounds)
    else if length < 0 then Failure(ErrNegativeLength)
    else Success(PaddedRead(Addressable(memory), offset, length))
  }

  /** The unsigned test of an end that may be negative. */
  predicate LiesBeyond(end: int, length: nat) {
    end % TWO_32 > length
  }

  /** The offset advances with the machine's wrap-around. */
  function LoadMultiple(memory: Bytes, offset: int32, lengths: seq<int32>): Result<seq<Bytes>>
    decreases |lengths|
  {
    if lengths == [] then Success([]) else
    var first := Load(memory, offset, lengths[0]);
    if first.Failure? then Failure(first.error) else
    var rest := LoadMultiple(memory, WrapInt32((offset as int) + lengths[0]), lengths[1..]);
    if rest.Failure? then rest else Success([first.value] + rest.value)
  }

  function Concat(parts: seq<Bytes>): Bytes {
    if parts == [] then [] else parts[0] + Concat(parts[1..])
  }

  function Sum(lengths: seq<int>): int {
    if lengths == [] then 0 else lengths[0] + Sum(lengths[1..])
  }

  lemma PaddedSplit(memory: Bytes, offset: nat, first: nat, rest: nat)
    ensures PaddedRead(memory, offset, first) + PaddedRead(memory, offset + first, rest) == PaddedRead(memory, offset,
            first + rest)
  {
  }

  /** A successful read of several parts had no negative length, even where the offset wrapped. */
  lemma {:induction false} LengthsNonNegative(memory: Bytes, offset: int32, lengths: seq<int32>)
    requires LoadMultiple(memory, offset, lengths).Success?
    ensures forall i :: 0 <= i < |lengths| ==> 0 <= lengths[i]
    ensures 0 <= Sum(lengths)
    decreases |lengths|
  {
    if lengths != [] {
      LengthsNonNegative(memory, WrapInt32((offset as int) + lengths[0]), lengths[1..]);
    }
  }

  /** Several reads in a row are one read of the total length, when the end offset fits. */
  lemma {:induction false} MultipleIsOne(memory: Bytes, offset: int32, lengths: seq<int32>)
    requires LoadMultiple(memory, offset, lengths).Success? && offset + Sum(lengths) <= MAX_INT32
    ensures 0 <= Sum(lengths) <= MAX_INT32
    ensures Load(memory, offset, Sum(lengths)) == Success(Concat(LoadMultiple(memory, offset, lengths).value))
    decreases |lengths|
  {
    hide Load, WrapInt32;
    LoadNothing(memory, offset);
    if lengths != [] {
      var first, rest := lengths[0], lengths[1..];
      LengthsNonNegative(memory, offset, lengths);
      LengthsNonNegative(memory, WrapInt32((offset as int) + first), rest);
      MultipleIsOne(memory, offset + first, rest);
      var head := Load(memory, offset, first).value;
      var tail := LoadMultiple(memory, offset + first, rest).value;
      assert ([head] + tail)[1..] == tail;
      assert Concat([head] + tail) == head + Concat(tail);
      LoadBelowZero(memory, offset, first);
      LoadBelowZero(memory, offset + first, Sum(rest));
      LoadSplit(memory, offset, first, Sum(rest));
    }
  }

  lemma LoadNothing(memory: Bytes, offset: int32)
    ensures Load(memory, offset, 0) == Success([])
  {
  }

  lemma LoadBelowZero(memory: Bytes, offset: int32, length: int32)
    ensures Load(memory, offset, length).Success? && offset < 0 ==> length == 0
  {
  }

  lemma LoadSplit(memory: Bytes, offset: int32, first: int32, rest: int32)
    requires 0 <= first && 0 <= rest && offset + first + rest <= MAX_INT32
    requires first + rest <= MAX_INT32 && MIN_INT32 <= offset + first
    requires Load(memory, offset, first).Success? && Load(memory, offset + first, rest).Success?
    ensures Load(memory, offset, first + rest) == Success(Load(memory, offset, first).value
                                                          + Load(memory, offset + first, rest).value)
  {
    if first > 0 && rest > 0 {
      PaddedSplit(Addressable(memory), offset, first, rest);
    } else if first == 0 {
      var tail := Load(memory, offset, rest).value;
      assert [] + tail == tail;
    } else {
      var head := Load(memory, offset, first).value;
      assert head + [] == head;
    }
  }

  // ----- the memory of an instance -----

  class Memory {
    var data: array<Byte>

    constructor (size: nat)
      ensures fresh(data) && data.Length == size
    {
      data := new Byte[size](_ => 0);
    }

    /** One more page of zeros, unless the instance refuses to grow. */
    method Grow(canGrow: bool) returns (ok: bool)
      modifies this
      ensures ok == canGrow
      ensures !ok ==> data == old(data)
      ensures ok ==> fresh(data) && data.Length == old(data.Length) + PAGE_SIZE
                     && data[..] == old(data[..]) + seq(PAGE_SIZE, _ => 0)
    {
      if !canGrow {
        return false;
      }
      var bigger := new Byte[data.Length + PAGE_SIZE](i requires 0 <= i reads this, data => if i < data.Length
                                                      then data[i] else 0);
      assert bigger[..] == data[..] + seq(PAGE_SIZE, _ => 0);
      data := bigger;
      ok := true;
    }

    method MemLoad(offset: int32, length: int32) returns (r: Result<Bytes>)
      ensures r == Load(data[..], offset, length)
    {
      if length == 0 {
        return Success([]);
      }
      var requestedEnd := AddInt32(offset, length);
      var isOffsetTooSmall := offset < 0;
      var isOffsetTooLarge := offset % TWO_32 > data.Length;
      var isRequestedEndTooLarge := requestedEnd % TWO_32 > data.Length;
      if isOffsetTooSmall || isOffsetTooLarge {
        return Failure(ErrBadBounds);
      }
      if length < 0 {
        return Failure(ErrNegativeLength);
      }
      var result := new Byte[length](_ => 0);
      var end := if isRequestedEndTooLarge then data.Length else requestedEnd;
      CopyInto(result, 0, data[offset..end]);
      assert result[..] == PaddedRead(Addressable(data[..]), offset, length);
      r := Success(result[..]);
    }

    method MemLoadMultiple(offset: int32, lengths: seq<int32>) returns (r: Result<seq<Bytes>>)
      ensures r == LoadMultiple(data[..], offset, lengths)
    {
      var results: seq<Bytes> := [];
      var position := offset;
      ghost var all := LoadMultiple(data[..], offset, lengths);
      assert lengths[0..] == lengths && (all.Success? ==> results + all.value == all.value);
      for i := 0 to |lengths|
        invariant var rest := LoadMultiple(data[..], position, lengths[i..]);
                  LoadMultiple(data[..], offset, lengths) == if rest.Failure? then rest
                    else Success(results + rest.value)
      {
        assert lengths[i..][0] == lengths[i] && lengths[i..][1..] == lengths[i + 1..];
        var result := MemLoad(position, lengths[i]);
        if result.Failure? {
          return Failure(result.error);
        }
        ghost var rest := LoadMultiple(data[..], WrapInt32((position as int) + lengths[i]), lengths[i + 1..]);
        if rest.Success? {
          assert results + ([result.value] + rest.value) == results + [result.value] + rest.value;
        }
        results := results + [result.value];
        position := WrapInt32((position as int) + lengths[i]);
      }
      assert lengths[|lengths|..] == [] && results + [] == results;
      r := Success(results);
    }

    /** What was stored can be loaded back, and no other byte changed. At most one page is added.
        Bytes that would lie beyond the largest int32 are dropped without an error. A length that does
        not fit int32 wraps: the store is then cut, fails, or slices out of range. */
    method MemStore(offset: int32, bytes: Bytes, canGrow: bool) returns (err: Option<MemoryError>)
      modifies this, data
      ensures data.Length == old(data.Length) || data.Length == old(data.Length) + PAGE_SIZE
      ensures var length := WrapInt32(|bytes|);
              var end := if offset + length <= MAX_INT32 then offset + length else MAX_INT32;
              && err == (if length == 0 then None else if offset < 0 then Some(ErrBadLowerBounds)
                         else if LiesBeyond(end, old(data.Length)) && !canGrow then Some(ErrGrow)
                         else if LiesBeyond(end, old(data.Length)) && LiesBeyond(end, old(data.Length) + PAGE_SIZE)
                         then Some(ErrBadUpperBounds)
                         else if length < 0 then Some(SlicePanic) else None)
              && (err.None? && length != 0 ==>
                    && 0 <= offset <= end <= data.Length && data[offset..end] == bytes[..end - offset]
                    && (forall i :: 0 <= i < old(data.Length) && !(offset <= i < end) ==> data[i] == old(data[i]))
                    && (forall i :: old(data.Length) <= i < data.Length && !(offset <= i < end) ==> data[i] == 0))
      ensures err.None? && 0 < |bytes| <= MAX_INT32 && offset + |bytes| <= MAX_INT32 ==>
              Load(data[..], offset, |bytes|) == Success(bytes)
      ensures err.Some? || WrapInt32(|bytes|) == 0 ==> forall i :: 0 <= i < old(data.Length) ==> data[i] == old(data[i])
    {
      var dataLength := WrapInt32(|bytes|);
      if dataLength == 0 {
        return None;
      }
      var requestedEnd := AddInt32(offset, dataLength);
      if offset < 0 {
        return Some(ErrBadLowerBounds);
      }
      if LiesBeyond(requestedEnd, data.Length) {
        var ok := Grow(canGrow);
        if !ok {
          return Some(ErrGrow);
        }
      }
      if LiesBeyond(requestedEnd, data.Length) {
        return Some(ErrBadUpperBounds);
      }
      if requestedEnd < offset {
        return Some(SlicePanic);
      }
      CopyInto(data, offset, bytes[..requestedEnd - offset]);
      assert data[offset..requestedEnd] == bytes[..requestedEnd - offset];
      assert |bytes| <= MAX_INT32 && offset + |bytes| <= MAX_INT32 ==>
        Addressable(data[..])[offset..requestedEnd] == data[offset..requestedEnd]
        == bytes;
      err := None;
    }
  }

  /** Go's copy into a slice that is long enough. */
  method CopyInto(target: array<Byte>, offset: nat, source: Bytes)
    requires offset + |source| <= target.Length
    modifies target
    ensures forall i :: 0 <= i < target.Length ==>
              target[i] == if offset <= i < offset + |source| then source[i - offset] else old(target[i])
  {
    for j := 0 to |source|
      invariant forall i :: 0 <= i < target.Length ==>
                  target[i] == if offset <= i < offset + j then source[i - offset] else old(target[i])
    {
      target[offset + j] := source[j];
    }
  }

  // ----- arguments -----

  function Encode32(n: nat): (r: Bytes)
    requires n < TWO_32
    ensures |r| == 4
  {
    [n % 256, n / 256 % 256, n / 65536 % 256, n / 16777216 % 256]
  }

  function Decode32(b: Bytes): int32
    requires |b| == 4
  {
    WrapInt32(b[0] as int + 256 * (b[1] as int) + 65536 * (b[2] as int) + 16777216 * (b[3] as int))
  }

  lemma Digits(n: nat)
    requires n < TWO_32
    ensures n % 256 + 256 * (n / 256 % 256) + 65536 * (n / 65536 % 256) + 16777216 * (n / 16777216 % 256) == n
  {
    var q := n / 256;
    var r := q / 256;
    var t := r / 256;
    assert n == 256 * q + n % 256 && q == 256 * r + q % 256 && r == 256 * t + r % 256;
    assert r == n / 65536 && t == n / 16777216 && t < 256;
  }

  lemma DecodeEncode(n: nat)
    requires n <= MAX_INT32
    ensures Decode32(Encode32(n)) == n
  {
    Digits(n);
  }

  /** The little-endian table of the arguments' lengths. */
  function LengthTable(args: seq<Bytes>): (r: Bytes)
    requires forall i :: 0 <= i < |args| ==> |args[i]| <= MAX_INT32
    ensures |r| == 4 * |args|
  {
    if args == [] then [] else LengthTable(args[..|args| - 1]) + Encode32(|args[|args| - 1]|)
  }

  lemma {:induction false} TableEntry(args: seq<Bytes>, i: nat)
    requires i < |args| && forall j :: 0 <= j < |args| ==> |args[j]| <= MAX_INT32
    ensures LengthTable(args)[4 * i..4 * i + 4] == Encode32(|args[i]|)
    decreases |args|
  {
    var front := args[..|args| - 1];
    if i < |front| {
      TableEntry(front, i);
      assert LengthTable(args)[4 * i..4 * i + 4] == LengthTable(front)[4 * i..4 * i + 4];
    }
  }

  /** The integers of a raw table; entries the table is too short for stay zero. */
  function DecodeTable(rawData: Bytes, count: nat): (r: seq<int32>)
    ensures |r| == count
  {
    seq(count, i requires 0 <= i < count => if 4 * i + 4 <= |rawData| then Decode32(rawData[4 * i..4 * i + 4]) else 0)
  }

  method CreateInt32Array(rawData: Bytes, numIntegers: int32) returns (integers: seq<int32>)
    requires 0 <= numIntegers && |rawData| % 4 == 0 && |rawData| <= 4 * numIntegers
    ensures integers == DecodeTable(rawData, numIntegers)
  {
    var filled := new int32[numIntegers](_ => 0);
    var index, cursor := 0, 0;
    while cursor < |rawData|
      invariant cursor == 4 * index && cursor <= |rawData|
      invariant forall i :: 0 <= i < numIntegers ==>
                  filled[i] == if i < index then Decode32(rawData[4 * i..4 * i + 4]) else 0
    {
      filled[index] := Decode32(rawData[cursor..cursor + 4]);
      index := index + 1;
      cursor := cursor + 4;
    }
    integers := filled[..];
  }

  datatype Arguments = Arguments(data: seq<Bytes>, totalBytes: int32)

  function WrapSum(lengths: seq<int32>): int32 {
    if lengths == [] then 0 else WrapInt32((WrapSum(lengths[..|lengths| - 1]) as int) + lengths[|lengths| - 1])
  }

  function GetArguments(
    memory: Bytes, numArguments: int32, lengthsOffset: int32, dataOffset: int32): Result<Arguments> {
    if numArguments < 0 then Failure(ErrNegativeCount) else
    var table := Load(memory, lengthsOffset, WrapInt32((numArguments as int) * 4));
    if table.Failure? then Failure(table.error) else
    var lengths := DecodeTable(table.value, numArguments);
    var data := LoadMultiple(memory, dataOffset, lengths);
    if data.Failure? then Failure(data.error) else Success(Arguments(data.value, WrapSum(lengths)))
  }

  lemma TableSize(memory: Bytes, numArguments: int32, offset: int32)
    requires 0 <= numArguments && Load(memory, offset, WrapInt32((numArguments as int) * 4)).Success?
    ensures var table := Load(memory, offset, WrapInt32((numArguments as int) * 4)).value;
            |table| % 4 == 0 && |table| <= 4 * numArguments
  {
  }

  method GetArgumentsFromMemory(memory: Memory, numArguments: int32, lengthsOffset: int32, dataOffset: int32)
    returns (r: Result<Arguments>)
    ensures r == GetArguments(memory.data[..], numArguments, lengthsOffset, dataOffset)
  {
    if numArguments < 0 {
      return Failure(ErrNegativeCount);
    }
    var table := memory.MemLoad(lengthsOffset, WrapInt32((numArguments as int) * 4));
    if table.Failure? {
      return Failure(table.error);
    }
    TableSize(memory.data[..], numArguments, lengthsOffset);
    var lengths := CreateInt32Array(table.value, numArguments);
    var data := memory.MemLoadMultiple(dataOffset, lengths);
    if data.Failure? {
      return Failure(data.error);
    }
    var total: int32 := 0;
    for i := 0 to |lengths|
      invariant total == WrapSum(lengths[..i])
    {
      assert lengths[..i + 1][..i] == lengths[..i];
      total := WrapInt32((total as int) + lengths[i]);
    }
    assert lengths[..|lengths|] == lengths;
    r := Success(Arguments(data.value, total));
  }

  // ----- the round trip -----

  /** A caller has written the length table and the concatenated arguments. */
  ghost predicate LaidOut(memory: Bytes, lengthsOffset: int32, dataOffset: int32, args: seq<Bytes>) {
    && |args| < 0x2000_0000
    && lengthsOffset + 4 * |args| <= MAX_INT32 && dataOffset + |Concat(args)| <= MAX_INT32
    && (forall i :: 0 <= i < |args| ==> |args[i]| <= MAX_INT32)
    && 0 <= lengthsOffset && lengthsOffset + 4 * |args| <= |memory|
    && memory[lengthsOffset..lengthsOffset + 4 * |args|] == LengthTable(args)
    && 0 <= dataOffset && dataOffset + |Concat(args)| <= |memory|
    && memory[dataOffset..dataOffset + |Concat(args)|] == Concat(args)
  }

  ghost function LengthsOf(args: seq<Bytes>): seq<int> {
    seq(|args|, i requires 0 <= i < |args| => |args[i]|)
  }

  lemma TableDecodes(args: seq<Bytes>)
    requires forall i :: 0 <= i < |args| ==> |args[i]| <= MAX_INT32
    ensures DecodeTable(LengthTable(args), |args|) == LengthsOf(args)
  {
    forall i | 0 <= i < |args|
      ensures DecodeTable(LengthTable(args), |args|)[i] == |args[i]|
    {
      TableEntry(args, i);
      DecodeEncode(|args[i]|);
    }
  }

  lemma {:induction false} BlobLoads(memory: Bytes, offset: nat, lengths: seq<int32>, args: seq<Bytes>)
    requires offset + |Concat(args)| <= |memory| && offset + |Concat(args)| <= MAX_INT32
    requires memory[offset..offset + |Concat(args)|] == Concat(args)
    requires |lengths| == |args| && forall i :: 0 <= i < |args| ==> lengths[i] == |args[i]|
    ensures LoadMultiple(memory, offset, lengths) == Success(args)
    decreases |args|
  {
    if args != [] {
      var first, rest := args[0], args[1..];
      var next := offset + |first|;
      assert Concat(args) == first + Concat(rest);
      assert memory[offset..next] == Concat(args)[..|first|] == first;
      assert memory[next..next + |Concat(rest)|] == Concat(args)[|first|..] == Concat(rest);
      BlobLoads(memory, next, lengths[1..], rest);
      assert PaddedRead(Addressable(memory), offset, |first|) == memory[offset..next];
      assert Load(memory, offset, lengths[0]) == Success(first);
      assert [first] + rest == args;
    }
  }

  lemma {:induction false} ConcatFront(args: seq<Bytes>)
    requires args != []
    ensures |Concat(args)| == |Concat(args[..|args| - 1])| + |args[|args| - 1]|
    decreases |args|
  {
    if |args| > 1 {
      ConcatFront(args[1..]);
      assert args[1..][..|args| - 2] == args[..|args| - 1][1..];
    }
  }

  lemma {:induction false} TotalLoads(lengths: seq<int32>, args: seq<Bytes>)
    requires |Concat(args)| <= MAX_INT32
    requires |lengths| == |args| && forall i :: 0 <= i < |args| ==> lengths[i] == |args[i]|
    ensures WrapSum(lengths) == |Concat(args)|
    decreases |args|
  {
    if args != [] {
      ConcatFront(args);
      TotalLoads(lengths[..|args| - 1], args[..|args| - 1]);
    }
  }

  lemma TableLoads(memory: Bytes, offset: nat, args: seq<Bytes>)
    requires (forall i :: 0 <= i < |args| ==> |args[i]| <= MAX_INT32) && offset + 4 * |args| <= MAX_INT32
    requires offset + 4 * |args| <= |memory| && memory[offset..offset + 4 * |args|] == LengthTable(args)
    ensures Load(memory, offset, 4 * |args|) == Success(LengthTable(args))
  {
    assert Addressable(memory)[offset..offset + 4 * |args|] == memory[offset..offset + 4 * |args|];
  }

  /** Arguments that were laid out are recovered exactly, with their total length. */
  lemma ArgumentsRoundTrip(memory: Bytes, lengthsOffset: int32, dataOffset: int32, args: seq<Bytes>)
    requires LaidOut(memory, lengthsOffset, dataOffset, args)
    ensures GetArguments(memory, |args|, lengthsOffset, dataOffset) == Success(Arguments(args, |Concat(args)|))
  {
    hide LoadMultiple, DecodeTable, WrapSum, Concat, LengthTable;
    TableLoads(memory, lengthsOffset, args);
    TableDecodes(args);
    var lengths := DecodeTable(LengthTable(args), |args|);
    forall i | 0 <= i < |args|
      ensures lengths[i] == |args[i]|
    {
      assert lengths[i] == LengthsOf(args)[i];
    }
    BlobLoads(memory, dataOffset, lengths, args);
    TotalLoads(lengths, args);
  }
}
