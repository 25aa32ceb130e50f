/** The block gas pool and the intrinsic gas of a message. */
module Gas {
  import opened Wrappers

  const MAX_UINT64: nat := 0xffff_ffff_ffff_ffff
  const TX_GAS: nat := 21000
  const TX_GAS_CONTRACT_CREATION: nat := 53000
  const TX_DATA_ZERO_GAS: nat := 4
  const TX_DATA_NON_ZERO_GAS: nat := 16
  const INIT_CODE_WORD_GAS: nat := 2
  const TX_ACCESS_LIST_ADDRESS_GAS: nat := 2400
  const TX_ACCESS_LIST_STORAGE_KEY_GAS: nat := 1900
  const REFUND_QUOTIENT: nat := 5
  const MAX_INIT_CODE_SIZE: nat := 2 * 24576

  type byte = x: int | 0 <= x < 256

  datatype AccessTuple = AccessTuple(address: nat, storageKeys: seq<nat>)

  /** A cell of unsigned 64 bits. */
  class GasPool {
    var gas: nat

    ghost predicate Valid()
      reads this
    {
      gas <= MAX_UINT64
    }

    constructor ()
      ensures Valid() && gas == 0
    {
      gas := 0;
    }

    /** Adds gas, or panics and changes nothing if the sum does not fit. */
    method AddGas(amount: nat) returns (panicked: bool)
      requires Valid()
      modifies this
      ensures Valid() && (panicked <==> old(gas) + amount > MAX_UINT64)
      ensures gas == if panicked then old(gas) else old(gas) + amount
    {
      if amount > MAX_UINT64 || gas > MAX_UINT64 - amount {
        return true;
      }
      gas := gas + amount;
      return false;
    }

    method SubGas(amount: nat) returns (ok: bool)
      requires Valid()
      modifies this
      ensures Valid() && ok == (amount <= old(gas)) && gas == if ok then old(gas) - amount else old(gas)
    {
      ok := gas >= amount;
      if ok {
        gas := gas - amount;
      }
    }

    method SetGas(amount: nat)
      requires amount <= MAX_UINT64
      modifies this
      ensures Valid() && gas == amount
    {
      gas := amount;
    }
  }

  // ----- intrinsic gas -----

  function NonZero(data: seq<byte>): (n: nat)
    ensures n <= |data|
  {
    if data == [] then 0 else (if data[|data| - 1] != 0 then 1 else 0) + NonZero(data[..|data| - 1])
  }

  function Words(size: nat): nat {
    (size + 31) / 32
  }

  function StorageKeys(accessList: seq<AccessTuple>): nat {
    if accessList == [] then 0
    else StorageKeys(accessList[..|accessList| - 1]) + |accessList[|accessList| - 1].storageKeys|
  }

  /** The price of a message's data, without any limit. */
  function DataCost(data: seq<byte>, creation: bool): nat {
    NonZero(data) * TX_DATA_NON_ZERO_GAS + (|data| - NonZero(data)) * TX_DATA_ZERO_GAS
    + if creation then Words(|data|) * INIT_CODE_WORD_GAS else 0
  }

  function BaseCost(creation: bool): nat {
    if creation then TX_GAS_CONTRACT_CREATION else TX_GAS
  }

  function AccessCost(accessList: seq<AccessTuple>): nat {
    |accessList| * TX_ACCESS_LIST_ADDRESS_GAS + StorageKeys(accessList) * TX_ACCESS_LIST_STORAGE_KEY_GAS
  }

  /** The intrinsic gas as it is defined. It has an error exactly when base and data overflow; the
      access list is added without a check. */
  function Intrinsic(data: seq<byte>, accessList: seq<AccessTuple>, creation: bool): (r: Option<nat>)
    ensures r.Some? ==> r.value <= MAX_UINT64
  {
    var gas := BaseCost(creation) + DataCost(data, creation);
    if gas > MAX_UINT64 then None else Some(Wrap(gas + AccessCost(accessList)))
  }

  function Wrap(x: nat): (r: nat)
    ensures r <= MAX_UINT64
    ensures x <= MAX_UINT64 ==> r == x
  {
    x % (MAX_UINT64 + 1)
  }

  /** If base and data fit, the result is the exact price if and only if the access list fits too:
      beyond that the unchecked addition loses gas. */
  lemma IntrinsicExact(data: seq<byte>, accessList: seq<AccessTuple>, creation: bool)
    requires BaseCost(creation) + DataCost(data, creation) <= MAX_UINT64
    ensures var price := BaseCost(creation) + DataCost(data, creation) + AccessCost(accessList);
      && Intrinsic(data, accessList, creation).Some?
      && (Intrinsic(data, accessList, creation).value == price <==> price <= MAX_UINT64)
      && Intrinsic(data, accessList, creation).value <= price
  {
  }

  /** A call starts at 21000 and a creation at 53000, which also pays 2 for each word of its code that
      is begun. */
  lemma StartPrice(data: seq<byte>)
    ensures BaseCost(false) == 21000 && BaseCost(true) == 53000 && DataCost([], false) == 0
    ensures var words := (DataCost(data, true) - DataCost(data, false)) / 2;
      DataCost(data, true) == DataCost(data, false) + 2 * words && 32 * (words - 1) < |data| <= 32 * words
  {
  }

  /** Each byte of the data costs 16, or 4 if it is zero. */
  lemma BytePrice(data: seq<byte>, b: byte)
    ensures DataCost(data + [b], false) == DataCost(data, false) + if b == 0 then 4 else 16
  {
    assert (data + [b])[..|data|] == data;
  }

  /** Each entry of the access list costs 2400, and each of its storage keys 1900. */
  lemma EntryPrice(accessList: seq<AccessTuple>, t: AccessTuple)
    ensures AccessCost([]) == 0 && AccessCost(accessList + [t]) == AccessCost(accessList) + 2400 + 1900 * |t.storageKeys|
  {
    assert (accessList + [t])[..|accessList|] == accessList;
  }

  /** The guard of each addition is exact. */
  lemma GuardExact(gas: nat, price: nat, n: nat)
    requires gas <= MAX_UINT64 && price > 0
    ensures (MAX_UINT64 - gas) / price < n <==> gas + n * price > MAX_UINT64
  {
    var room := MAX_UINT64 - gas;
    var q := room / price;
    assert room == q * price + room % price;
    if q < n {
      assert n * price >= (q + 1) * price by { MulMonotone(q + 1, n, price); }
      assert (q + 1) * price == q * price + price;
    } else {
      assert n * price <= q * price by { MulMonotone(n, q, price); }
    }
  }

  lemma MulMonotone(a: nat, b: nat, c: nat)
    requires a <= b
    ensures a * c <= b * c
  {
    assert b * c == a * c + (b - a) * c;
  }

  function ToWordSize(size: nat): (r: nat)
    requires size <= MAX_UINT64
    ensures r == Words(size)
  {
    if size > MAX_UINT64 - 31 then MAX_UINT64 / 32 + 1 else (size + 31) / 32
  }

  /** Computes the intrinsic gas in unsigned 64 bits. */
  method IntrinsicGas(data: seq<byte>, accessList: seq<AccessTuple>, creation: bool) returns (r: Option<nat>)
    requires |data| <= MAX_UINT64
    ensures r == Intrinsic(data, accessList, creation)
  {
    var gas := BaseCost(creation);
    if |data| > 0 {
      var nz := CountNonZero(data);
      GuardExact(gas, TX_DATA_NON_ZERO_GAS, nz);
      if (MAX_UINT64 - gas) / TX_DATA_NON_ZERO_GAS < nz {
        return None;
      }
      gas := gas + nz * TX_DATA_NON_ZERO_GAS;
      var z := |data| - nz;
      GuardExact(gas, TX_DATA_ZERO_GAS, z);
      if (MAX_UINT64 - gas) / TX_DATA_ZERO_GAS < z {
        return None;
      }
      gas := gas + z * TX_DATA_ZERO_GAS;
      if creation {
        var lenWords := ToWordSize(|data|);
        GuardExact(gas, INIT_CODE_WORD_GAS, lenWords);
        if (MAX_UINT64 - gas) / INIT_CODE_WORD_GAS < lenWords {
          return None;
        }
        gas := gas + lenWords * INIT_CODE_WORD_GAS;
      }
    }
    var full := gas;
    gas := Wrap(gas + Wrap(|accessList| * TX_ACCESS_LIST_ADDRESS_GAS));
    gas := Wrap(gas + Wrap(StorageKeys(accessList) * TX_ACCESS_LIST_STORAGE_KEY_GAS));
    WrapSum(full, |accessList| * TX_ACCESS_LIST_ADDRESS_GAS, StorageKeys(accessList) * TX_ACCESS_LIST_STORAGE_KEY_GAS);
    return Some(gas);
  }

  lemma WrapInner(a: nat, b: nat)
    ensures Wrap(Wrap(a) + b) == Wrap(a + b)
  {
  }

  lemma WrapSum(a: nat, b: nat, c: nat)
    ensures Wrap(Wrap(a + Wrap(b)) + Wrap(c)) == Wrap(a + b + c)
  {
    WrapInner(b, a);
    WrapInner(a + b, Wrap(c));
    WrapInner(c, a + b);
  }

  method CountNonZero(data: seq<byte>) returns (nz: nat)
    ensures nz == NonZero(data)
  {
    nz := 0;
    for i := 0 to |data|
      invariant nz == NonZero(data[..i])
    {
      assert data[..i + 1][..i] == data[..i];
      if data[i] != 0 {
        nz := nz + 1;
      }
    }
    assert data[..|data|] == data;
  }
}
