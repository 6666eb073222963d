/** Gas: the intrinsic cost of a transaction in guarded uint64 arithmetic, and the
    pool of gas left in a block. */
module Gas {
  import opened Wrappers

  const MAX_UINT64: nat := 0xFFFF_FFFF_FFFF_FFFF
  const TWO_64: nat := 0x1_0000_0000_0000_0000

  type Uint64 = x: nat | x <= MAX_UINT64

  const TX_GAS: nat := 21000
  const TX_GAS_CONTRACT_CREATION: nat := 53000
  const TX_DATA_ZERO_GAS: nat := 4
  const TX_DATA_NON_ZERO_GAS_FRONTIER: nat := 68
  const TX_DATA_NON_ZERO_GAS_EIP2028: nat := 16
  const INIT_CODE_WORD_GAS: nat := 2
  const TX_ACCESS_LIST_ADDRESS_GAS: nat := 2400
  const TX_ACCESS_LIST_STORAGE_KEY_GAS: nat := 1900

  type Bytes = seq<bv8>

  /** An access list counts through its addresses and its storage keys. */
  datatype AccessList = NoList | List(addresses: nat, keys: nat)

  datatype Overflow = GasUintOverflow

  /** The number of 32-byte words that hold `size` bytes, for every uint64. */
  function ToWordSize(size: Uint64): (r: Uint64)
    ensures 32 * r >= size > 32 * (r - 1) || (size == 0 && r == 0)
  {
    if size > MAX_UINT64 - 31 then MAX_UINT64 / 32 + 1 else (size + 31) / 32
  }

  function NonZeroGas(eip2028: bool): nat {
    if eip2028 then TX_DATA_NON_ZERO_GAS_EIP2028 else TX_DATA_NON_ZERO_GAS_FRONTIER
  }

  /** The price of the data, byte by byte. */
  function DataCost(data: Bytes, eip2028: bool): nat {
    if data == [] then 0
    else
      var b := data[|data| - 1];
      DataCost(data[..|data| - 1], eip2028) + if b == 0 then TX_DATA_ZERO_GAS else NonZeroGas(eip2028)
  }

  /** The exact cost of a transaction without its access list, on unbounded integers. */
  function Cost(data: Bytes, creation: bool, homestead: bool, eip2028: bool, eip3860: bool): nat {
    (if creation && homestead then TX_GAS_CONTRACT_CREATION else TX_GAS)
    + DataCost(data, eip2028)
    + if creation && eip3860 then (|data| + 31) / 32 * INIT_CODE_WORD_GAS else 0
  }

  function AccessCost(list: AccessList): nat {
    match list
    case NoList => 0
    case List(addresses, keys) =>
      addresses * TX_ACCESS_LIST_ADDRESS_GAS + keys * TX_ACCESS_LIST_STORAGE_KEY_GAS
  }

  function NonZeroBytes(data: Bytes): nat {
    if data == [] then 0
    else NonZeroBytes(data[..|data| - 1]) + if data[|data| - 1] == 0 then 0 else 1
  }

  lemma {:induction false} DataCostByCount(data: Bytes, eip2028: bool)
    ensures NonZeroBytes(data) <= |data|
    ensures DataCost(data, eip2028)
         == NonZeroBytes(data) * NonZeroGas(eip2028) + (|data| - NonZeroBytes(data)) * TX_DATA_ZERO_GAS
  {
    if data == [] {
    } else {
      DataCostByCount(data[..|data| - 1], eip2028);
    }
  }

  /** The prices: 53000 for a creation under the Homestead rules and 21000 otherwise, 16
      per non-zero byte under the Istanbul rules and 68 before, 4 per zero byte, and 2 per
      word of init code under the Shanghai rules; 2400 per address and 1900 per storage key
      of an access list. */
  lemma CostIs(data: Bytes, creation: bool, homestead: bool, eip2028: bool, eip3860: bool, addresses: nat, keys: nat)
    ensures AccessCost(List(addresses, keys)) == 2400 * addresses + 1900 * keys
    ensures var nz := NonZeroBytes(data);
      Cost(data, creation, homestead, eip2028, eip3860) ==
        (if creation && homestead then 53000 else 21000)
        + nz * (if eip2028 then 16 else 68) + (|data| - nz) * 4
        + (if creation && eip3860 then 2 * ((|data| + 31) / 32) else 0)
  {
    DataCostByCount(data, eip2028);
  }

  lemma MulMonotone(a: nat, b: nat, c: nat)
    requires a <= b
    ensures a * c <= b * c
  {
  }

  lemma QuotientGuard(room: nat, price: nat, count: nat)
    requires price > 0
    ensures room / price < count <==> room < count * price
  {
    var q := room / price;
    assert q * price <= room < q * price + price;
    if q < count {
      MulMonotone(q + 1, count, price);
      assert (q + 1) * price == q * price + price;
    } else {
      MulMonotone(count, q, price);
    }
  }

  /** The guard `(max - gas) / price < count` is exactly overflow of the sum. */
  lemma GuardIsExact(gas: Uint64, price: nat, count: nat)
    requires price > 0
    ensures (MAX_UINT64 - gas) / price < count <==> gas + count * price > MAX_UINT64
  {
    QuotientGuard(MAX_UINT64 - gas, price, count);
  }

  method CountNonZero(data: Bytes) returns (nz: nat)
    ensures nz == NonZeroBytes(data)
  {
    nz := 0;
    for i := 0 to |data|
      invariant nz == NonZeroBytes(data[..i])
    {
      assert data[..i + 1][..i] == data[..i];
      if data[i] != 0 {
        nz := nz + 1;
      }
    }
    assert data[..|data|] == data;
  }

  /** One guarded addition of `count` items at `price`. */
  function Charge(gas: Uint64, price: nat, count: nat): (r: Result<Uint64, Overflow>)
    requires price > 0
    ensures r.Ok? <==> gas + count * price <= MAX_UINT64
    ensures r.Ok? ==> r.value == gas + count * price
  {
    GuardIsExact(gas, price, count);
    if (MAX_UINT64 - gas) / price < count then Err(GasUintOverflow) else Ok(gas + count * price)
  }

  /** The unguarded additions for the access list, in wrapping arithmetic. */
  function AddAccessList(gas: Uint64, list: AccessList): (r: Uint64)
    ensures r == (gas + AccessCost(list)) % TWO_64
  {
    match list
    case NoList => gas
    case List(addresses, keys) =>
      var x := addresses * TX_ACCESS_LIST_ADDRESS_GAS;
      var y := keys * TX_ACCESS_LIST_STORAGE_KEY_GAS;
      WrapTwice(gas, x, y);
      ((gas + x % TWO_64) % TWO_64 + y % TWO_64) % TWO_64
  }

  lemma WrapTwice(a: nat, x: nat, y: nat)
    ensures ((a + x % TWO_64) % TWO_64 + y % TWO_64) % TWO_64 == (a + x + y) % TWO_64
  {
  }

  /** The intrinsic gas of a message. The data part is exact, and overflow is reported
      if and only if the exact cost leaves uint64. The access list is added without a
      guard, so with one the result is the exact sum reduced modulo 2^64, and it is the
      exact sum if and only if that fits. */
  method IntrinsicGas(data: Bytes, list: AccessList, creation: bool, homestead: bool, eip2028: bool, eip3860: bool)
    returns (r: Result<Uint64, Overflow>)
    requires |data| <= MAX_UINT64
    ensures r.Err? <==> Cost(data, creation, homestead, eip2028, eip3860) > MAX_UINT64
    ensures r.Ok? ==> r.value == (Cost(data, creation, homestead, eip2028, eip3860) + AccessCost(list)) % TWO_64
    ensures r.Ok? && list.NoList? ==> r.value == Cost(data, creation, homestead, eip2028, eip3860)
    ensures r.Ok? ==>
              var total := Cost(data, creation, homestead, eip2028, eip3860) + AccessCost(list);
              r.value == total <==> total <= MAX_UINT64
  {
    hide Cost, AddAccessList, AccessCost;
    r := DataGas(data, creation, homestead, eip2028, eip3860);
    if r.Ok? {
      r := Ok(AddAccessList(r.value, list));
      NoListIsExact(Cost(data, creation, homestead, eip2028, eip3860), list);
    }
  }

  lemma NoListIsExact(cost: nat, list: AccessList)
    ensures list.NoList? && cost <= MAX_UINT64 ==> (cost + AccessCost(list)) % TWO_64 == cost
  {
  }

  lemma WordsAgree(size: Uint64)
    ensures ToWordSize(size) == (size + 31) / 32
  {
  }

  /** Everything but the access list: base price, data bytes, init code words. */
  method DataGas(data: Bytes, creation: bool, homestead: bool, eip2028: bool, eip3860: bool)
    returns (r: Result<Uint64, Overflow>)
    requires |data| <= MAX_UINT64
    ensures r.Ok? <==> Cost(data, creation, homestead, eip2028, eip3860) <= MAX_UINT64
    ensures r.Ok? ==> r.value == Cost(data, creation, homestead, eip2028, eip3860)
  {
    hide Charge, DataCost, ToWordSize;
    var gas: Uint64 := if creation && homestead then TX_GAS_CONTRACT_CREATION else TX_GAS;
    DataCostByCount(data, eip2028);
    var price := NonZeroGas(eip2028);
    assert price > 0;
    hide NonZeroGas;
    r := Ok(gas);
    if |data| > 0 {
      WordsAgree(|data|);
      var nz := CountNonZero(data);
      r := Charge(gas, price, nz);
      if r.Err? {
        return;
      }
      r := Charge(r.value, TX_DATA_ZERO_GAS, |data| - nz);
      if r.Err? {
        return;
      }
      if creation && eip3860 {
        r := Charge(r.value, INIT_CODE_WORD_GAS, ToWordSize(|data|));
      }
    }
  }

  /** A list of 2^59 addresses is free: the cost wraps to nothing. */
  lemma AccessListWraps()
    ensures AddAccessList(TX_GAS, List(0x800_0000_0000_0000, 0)) == TX_GAS
    ensures TX_GAS + AccessCost(List(0x800_0000_0000_0000, 0)) > MAX_UINT64
  {
  }

  class GasPool {
    var gas: Uint64

    constructor (amount: Uint64)
      ensures gas == amount
    {
      gas := amount;
    }

    /** Make gas available; a result of false is the panic of the overflow check. */
    method AddGas(amount: Uint64) returns (ok: bool)
      modifies this
      ensures ok <==> old(gas) + amount <= MAX_UINT64
      ensures gas == if ok then old(gas) + amount else old(gas)
    {
      if gas > MAX_UINT64 - amount {
        return false;
      }
      gas := gas + amount;
      return true;
    }

    method SubGas(amount: Uint64) returns (ok: bool)
      modifies this
      ensures ok <==> amount <= old(gas)
      ensures gas == if ok then old(gas) - amount else old(gas)
    {
      if gas < amount {
        return false;
      }
      gas := gas - amount;
      return true;
    }
  }
}
