/** Storage writes and the bytes they pay for: what is charged at the store rate, less what is
    released, is the change in what is stored. */
module StorageBytes {
  import opened Overflow
  import opened Types
  import opened Sums
  import opened Frame
  import opened Conservation

  datatype KeyValue = KeyValue(key: Bytes, value: Bytes)

  ghost function WriteAll(w: World, a: Active, writes: seq<KeyValue>, protection: bool): Active
    decreases |writes|
  {
    if writes == [] then a
    else WriteAll(w, SetStorage(w, a, writes[0].key, writes[0].value, protection), writes[1..], protection)
  }

  function Previous(w: World, a: Active, key: Bytes): Bytes {
    View(w, a.out.accounts, a.storageAddress, key)
  }

  ghost function Stored(w: World, a: Active, writes: seq<KeyValue>, protection: bool): nat
    decreases |writes|
  {
    if writes == [] then 0 else
    var kv := writes[0];
    (if WriteAllowed(w, a, kv.key, protection) then BytesStored(Previous(w, a, kv.key), kv.value) else 0)
    + Stored(w, SetStorage(w, a, kv.key, kv.value, protection), writes[1..], protection)
  }

  ghost function Released(w: World, a: Active, writes: seq<KeyValue>, protection: bool): nat
    decreases |writes|
  {
    if writes == [] then 0 else
    var kv := writes[0];
    (if WriteAllowed(w, a, kv.key, protection) then BytesReleased(Previous(w, a, kv.key), kv.value) else 0)
    + Released(w, SetStorage(w, a, kv.key, kv.value, protection), writes[1..], protection)
  }

  function Lengths(w: World, accounts: Accounts, x: Address, keys: set<Bytes>): map<Bytes, int> {
    map k | k in keys :: |View(w, accounts, x, k)|
  }

  lemma PutLength(w: World, accounts: Accounts, x: Address, key: Bytes, value: Bytes, keys: set<Bytes>)
    requires key in keys
    ensures SumMap(Lengths(w, PutOverlay(accounts, x, key, value), x, keys))
            == SumMap(Lengths(w, accounts, x, keys)) - |View(w, accounts, x, key)| + |value|
  {
    SumPut(Lengths(w, accounts, x, keys), key, |value|);
    assert Lengths(w, PutOverlay(accounts, x, key, value), x, keys) == Lengths(w, accounts, x, keys)[key := |value|];
  }

  /** Over any sequence of writes, whichever of them are rejected. */
  lemma {:induction false} BytesConserved(
    w: World, a: Active, writes: seq<KeyValue>, protection: bool, keys: set<Bytes>)
    requires forall kv :: kv in writes ==> kv.key in keys
    ensures WriteAll(w, a, writes, protection).storageAddress == a.storageAddress
    ensures Stored(w, a, writes, protection) - Released(w, a, writes, protection)
            == SumMap(Lengths(w, WriteAll(w, a, writes, protection).out.accounts, a.storageAddress, keys))
               - SumMap(Lengths(w, a.out.accounts, a.storageAddress, keys))
    decreases |writes|
  {
    if writes != [] {
      var kv := writes[0];
      var b := SetStorage(w, a, kv.key, kv.value, protection);
      SetStorageTouches(w, a, kv.key, kv.value, protection);
      if WriteAllowed(w, a, kv.key, protection) {
        PutLength(w, a.out.accounts, a.storageAddress, kv.key, kv.value, keys);
      }
      BytesConserved(w, b, writes[1..], protection, keys);
    }
  }

  lemma CappedProduct(rate: uint64, n: nat)
    requires rate * n <= MAX_UINT64
    ensures MulUint64(rate, Cap(n)) == rate * n
  {
    if rate > 0 {
      ScaleMonotone(1, rate, n);
    }
  }

  lemma WriteRefund(w: World, a: Active, old_: Bytes, value: Bytes)
    requires w.schedule.releasePerByte * BytesReleased(old_, value) + a.out.gasRefund <= MAX_UINT64
    ensures ChargeWrite(w, a, old_, value).out.gasRefund
            == a.out.gasRefund + w.schedule.releasePerByte * BytesReleased(old_, value)
  {
    if |value| < |old_| {
      CappedProduct(w.schedule.releasePerByte, |old_| - |value|);
    } else {
      assert w.schedule.releasePerByte * 0 == 0;
    }
  }

  lemma SetStorageRefund(w: World, a: Active, key: Bytes, value: Bytes, protection: bool)
    requires w.schedule.releasePerByte * BytesReleased(Previous(w, a, key), value) + a.out.gasRefund <= MAX_UINT64
    ensures SetStorage(w, a, key, value, protection).out.gasRefund ==
            if WriteAllowed(w, a, key, protection)
            then a.out.gasRefund + w.schedule.releasePerByte * BytesReleased(Previous(w, a, key), value)
              else a.out.gasRefund
  {
    if WriteAllowed(w, a, key, protection) {
      var a1 := ChargeKey(w, a, key);
      var a2 := SetAccounts(a1, PutOverlay(a1.out.accounts, a1.storageAddress, key, value));
      WriteRefund(w, a2, Previous(w, a, key), value);
    }
  }

  /** Within a frame the refund grows by the release rate times the bytes released. */
  lemma {:induction false} RefundExact(w: World, a: Active, writes: seq<KeyValue>, protection: bool)
    requires w.schedule.releasePerByte * Released(w, a, writes, protection) + a.out.gasRefund <= MAX_UINT64
    ensures WriteAll(w, a, writes, protection).out.gasRefund
            == a.out.gasRefund + w.schedule.releasePerByte * Released(w, a, writes, protection)
    decreases |writes|
  {
    if writes != [] {
      var kv, rate := writes[0], w.schedule.releasePerByte;
      var b := SetStorage(w, a, kv.key, kv.value, protection);
      var now := if WriteAllowed(w, a, kv.key, protection) then BytesReleased(Previous(w, a, kv.key), kv.value) else 0;
      var later := Released(w, b, writes[1..], protection);
      assert rate * (now + later) == rate * now + rate * later;
      RefundStep(w, a, kv, protection, now, later);
      RefundExact(w, b, writes[1..], protection);
    } else {
      assert w.schedule.releasePerByte * 0 == 0;
    }
  }

  lemma RefundStep(w: World, a: Active, kv: KeyValue, protection: bool, now: nat, later: nat)
    requires now == if WriteAllowed(w, a, kv.key, protection) then BytesReleased(Previous(w, a, kv.key), kv.value)
             else 0
    requires w.schedule.releasePerByte * now + w.schedule.releasePerByte * later + a.out.gasRefund <= MAX_UINT64
    ensures SetStorage(w, a, kv.key, kv.value, protection).out.gasRefund == a.out.gasRefund
            + w.schedule.releasePerByte * now
  {
    ProductNonNegative(w.schedule.releasePerByte, later);
    if WriteAllowed(w, a, kv.key, protection) {
      SetStorageRefund(w, a, kv.key, kv.value, protection);
    } else {
      assert w.schedule.releasePerByte * 0 == 0;
    }
  }

  // ----- the gas side -----

  /** Bytes charged at the persist rate: those kept by a write that changes the length. */
  function BytesPersisted(old_: Bytes, new_: Bytes): nat {
    if old_ == [] || new_ == [] || |old_| == |new_| then 0 else if |old_| < |new_| then |old_| else |new_|
  }

  function BytesCopied(old_: Bytes, new_: Bytes): nat {
    if old_ == new_ then |new_| else 0
  }

  /** The price of one write: rewriting a value with another of the same length is free. */
  function WriteCost(w: World, old_: Bytes, new_: Bytes): nat {
    ProductNonNegative(w.schedule.storePerByte, BytesStored(old_, new_));
    ProductNonNegative(w.schedule.persistPerByte, BytesPersisted(old_, new_));
    ProductNonNegative(w.schedule.dataCopyPerByte, BytesCopied(old_, new_));
    w.schedule.storePerByte * BytesStored(old_, new_)
    + w.schedule.persistPerByte * BytesPersisted(old_, new_)
    + w.schedule.dataCopyPerByte * BytesCopied(old_, new_)
  }

  lemma PricesAreNatural(w: World, old_: Bytes, value: Bytes)
    ensures 0 <= w.schedule.storePerByte * BytesStored(old_, value) <= WriteCost(w, old_, value)
    ensures 0 <= w.schedule.persistPerByte * BytesPersisted(old_, value) <= WriteCost(w, old_, value)
    ensures 0 <= w.schedule.dataCopyPerByte * BytesCopied(old_, value) <= WriteCost(w, old_, value)
    ensures WriteCost(w, old_, value) == w.schedule.storePerByte * BytesStored(old_, value)
                                         + w.schedule.persistPerByte * BytesPersisted(old_, value)
                                         + w.schedule.dataCopyPerByte * BytesCopied(old_, value)
  {
    ProductNonNegative(w.schedule.storePerByte, BytesStored(old_, value));
    ProductNonNegative(w.schedule.persistPerByte, BytesPersisted(old_, value));
    ProductNonNegative(w.schedule.dataCopyPerByte, BytesCopied(old_, value));
  }

  lemma NothingCostsNothing(w: World)
    ensures w.schedule.storePerByte * 0 == w.schedule.persistPerByte * 0 == w.schedule.dataCopyPerByte * 0 == 0
  {
  }

  lemma WriteCharges(w: World, a: Active, old_: Bytes, value: Bytes)
    requires a.points + WriteCost(w, old_, value) <= MAX_INT64
    ensures ChargeWrite(w, a, old_, value).points == a.points + WriteCost(w, old_, value)
  {
    hide MulUint64, AddUint64, Cap, WriteCost;
    PricesAreNatural(w, old_, value);
    CappedProduct(w.schedule.storePerByte, BytesStored(old_, value));
    CappedProduct(w.schedule.persistPerByte, BytesPersisted(old_, value));
    CappedProduct(w.schedule.dataCopyPerByte, BytesCopied(old_, value));
    NothingCostsNothing(w);
  }

  function KeyCost(w: World, key: Bytes): uint64 {
    if |key| > ADDRESS_LEN then CopyCost(w, |key| - ADDRESS_LEN) else 0
  }

  // ----- reads -----

  /** The bytes of a key that are paid for: those beyond the length of an address. */
  function KeyBytes(key: Bytes): nat {
    if |key| > 32 then |key| - 32 else 0
  }

  /** The counter after a number of bytes has been paid for at the copy rate. */
  function AfterCopy(w: World, points: Points, bytes: nat): int {
    var sum := points + w.schedule.dataCopyPerByte * bytes;
    if sum <= MAX_INT64 then sum else MAX_INT64
  }

  lemma CopyCharges(w: World, a: Active, bytes: nat)
    ensures UseGas(a, CopyCost(w, bytes)).points == AfterCopy(w, a.points, bytes)
  {
    var rate := w.schedule.dataCopyPerByte;
    ProductNonNegative(rate, bytes);
    if rate * bytes <= MAX_UINT64 {
      CappedProduct(rate, bytes);
    } else {
      CopyIsDear(rate, bytes);
    }
  }

  lemma CopyIsDear(rate: uint64, bytes: nat)
    requires rate * bytes > MAX_UINT64
    ensures MulUint64(rate, Cap(bytes)) == MAX_UINT64
  {
    if bytes > MAX_UINT64 {
      ScaleMonotone(1, rate, MAX_UINT64);
    }
  }

  lemma CopyTwice(w: World, points: Points, key: nat, value: nat)
    ensures 0 <= AfterCopy(w, points, key) <= MAX_INT64
    ensures AfterCopy(w, AfterCopy(w, points, key), value) == AfterCopy(w, points, key + value)
  {
    var rate := w.schedule.dataCopyPerByte;
    ProductNonNegative(rate, key);
    ProductNonNegative(rate, value);
    SplitProduct(rate, key, value);
  }

  /** What a read costs: the copy rate for the long part of the key and for the value found; nothing
      is found in an account that cannot be read. */
  lemma ReadCharges(w: World, a: Active, x: Address, key: Bytes)
    ensures GetStorage(w, a, key).points
            == AfterCopy(w, a.points, KeyBytes(key) + |View(w, a.out.accounts, a.storageAddress, key)|)
    ensures var chain := if (x, key) in w.storage then w.storage[(x, key)] else [];
            GetStorageFromAddress(w, a, x, key).points == AfterCopy(w, a.points, KeyBytes(key) +
              if x != a.storageAddress && (x !in w.balances || x !in w.readable) then 0
              else if w.reservedPrefix <= key then |chain| else |View(w, a.out.accounts, x, key)|)
  {
    hide CopyCost, AfterCopy, View, PutOverlay, UseGas;
    var a1 := ChargeKey(w, a, key);
    KeyCharges(w, a, key);
    ReadIs(w, a, x, key);
    forall y
      ensures UseGas(CacheRead(w, a1, y, key), CopyCost(w, |View(w, a.out.accounts, y, key)|)).points
              == AfterCopy(w, a.points, KeyBytes(key) + |View(w, a.out.accounts, y, key)|)
    {
      CopyCharges(w, CacheRead(w, a1, y, key), |View(w, a.out.accounts, y, key)|);
      CopyTwice(w, a.points, KeyBytes(key), |View(w, a.out.accounts, y, key)|);
    }
    CopyCharges(w, a1, |ChainValue(w, x, key)|);
    CopyTwice(w, a.points, KeyBytes(key), |ChainValue(w, x, key)|);
  }

  lemma KeyCharges(w: World, a: Active, key: Bytes)
    ensures ChargeKey(w, a, key).points == AfterCopy(w, a.points, KeyBytes(key))
    ensures ChargeKey(w, a, key) == a.(points := ChargeKey(w, a, key).points)
  {
    hide CopyCost;
    if |key| > 32 {
      CopyCharges(w, a, |key| - 32);
    } else {
      assert w.schedule.dataCopyPerByte * 0 == 0;
    }
  }

  lemma ReadIs(w: World, a: Active, x: Address, key: Bytes)
    ensures var a1, y := ChargeKey(w, a, key), a.storageAddress;
            GetStorage(w, a, key) == UseGas(CacheRead(w, a1, y, key), CopyCost(w, |View(w, a.out.accounts, y, key)|))
    ensures var a1 := ChargeKey(w, a, key);
            GetStorageFromAddress(w, a, x, key) ==
            if x != a.storageAddress && (x !in w.balances || x !in w.readable) then a1
            else if w.reservedPrefix <= key then UseGas(a1, CopyCost(w, |ChainValue(w, x, key)|))
            else UseGas(CacheRead(w, a1, x, key), CopyCost(w, |View(w, a.out.accounts, x, key)|))
  {
    hide CopyCost, View, PutOverlay;
  }

  /** What an accepted write costs besides the bytes it stores. */
  function UpkeepOf(w: World, key: Bytes, old_: Bytes, new_: Bytes): nat {
    ProductNonNegative(w.schedule.persistPerByte, BytesPersisted(old_, new_));
    ProductNonNegative(w.schedule.dataCopyPerByte, BytesCopied(old_, new_));
    KeyCost(w, key) + w.schedule.persistPerByte * BytesPersisted(old_, new_)
      + w.schedule.dataCopyPerByte * BytesCopied(old_, new_)
  }

  ghost function Upkeep(w: World, a: Active, writes: seq<KeyValue>, protection: bool): nat
    decreases |writes|
  {
    if writes == [] then 0 else
    var kv := writes[0];
    (if WriteAllowed(w, a, kv.key, protection) then UpkeepOf(w, kv.key, Previous(w, a, kv.key), kv.value) else 0)
    + Upkeep(w, SetStorage(w, a, kv.key, kv.value, protection), writes[1..], protection)
  }

  lemma SetStorageGas(w: World, a: Active, key: Bytes, value: Bytes, protection: bool)
    requires WriteAllowed(w, a, key, protection)
    requires a.points + KeyCost(w, key) + WriteCost(w, Previous(w, a, key), value) <= MAX_INT64
    ensures SetStorage(w, a, key, value, protection).points
            == a.points + KeyCost(w, key) + WriteCost(w, Previous(w, a, key), value)
  {
    hide WriteCost, ChargeWrite, View;
    var a1 := ChargeKey(w, a, key);
    var a2 := SetAccounts(a1, PutOverlay(a1.out.accounts, a1.storageAddress, key, value));
    assert a2.points == a.points + KeyCost(w, key);
    WriteCharges(w, a2, Previous(w, a, key), value);
  }

  /** Over any sequence of writes the gas is the store rate times the bytes stored, plus upkeep. */
  lemma {:induction false} StoreGasExact(w: World, a: Active, writes: seq<KeyValue>, protection: bool)
    requires a.points + w.schedule.storePerByte * Stored(w, a, writes, protection)
             + Upkeep(w, a, writes, protection) <= MAX_INT64
    ensures WriteAll(w, a, writes, protection).points
            == a.points + w.schedule.storePerByte * Stored(w, a, writes, protection) + Upkeep(w, a, writes, protection)
    decreases |writes|
  {
    hide SetStorage, BytesStored, UpkeepOf, View, WriteAllowed;
    var rate := w.schedule.storePerByte;
    if writes != [] {
      var kv := writes[0];
      var b := SetStorage(w, a, kv.key, kv.value, protection);
      var later := Stored(w, b, writes[1..], protection);
      ProductNonNegative(rate, later);
      if WriteAllowed(w, a, kv.key, protection) {
        var now := BytesStored(Previous(w, a, kv.key), kv.value);
        SplitProduct(rate, now, later);
        OneWrite(w, a, kv, protection);
      } else {
        RejectedWrite(w, a, kv, protection);
      }
      StoreGasExact(w, b, writes[1..], protection);
    } else {
      assert rate * 0 == 0;
    }
  }

  lemma SplitProduct(rate: uint64, now: nat, later: nat)
    ensures rate * (now + later) == rate * now + rate * later
  {
  }

  lemma OneWrite(w: World, a: Active, kv: KeyValue, protection: bool)
    requires WriteAllowed(w, a, kv.key, protection)
    requires a.points + w.schedule.storePerByte * BytesStored(Previous(w, a, kv.key), kv.value)
             + UpkeepOf(w, kv.key, Previous(w, a, kv.key), kv.value) <= MAX_INT64
    ensures SetStorage(w, a, kv.key, kv.value, protection).points
            == a.points + w.schedule.storePerByte * BytesStored(Previous(w, a, kv.key), kv.value)
               + UpkeepOf(w, kv.key, Previous(w, a, kv.key), kv.value)
  {
    hide SetStorage, View;
    SetStorageGas(w, a, kv.key, kv.value, protection);
  }

  lemma RejectedWrite(w: World, a: Active, kv: KeyValue, protection: bool)
    requires !WriteAllowed(w, a, kv.key, protection)
    ensures SetStorage(w, a, kv.key, kv.value, protection) == a
  {
  }
}
