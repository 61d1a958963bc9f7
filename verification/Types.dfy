/** Vocabulary shared by the model: integer widths, book dimensions, orders and callback events. */
module Types {

  const U32: int := 0x1_0000_0000

  /** A 32-bit unsigned value; sums that may exceed it are reduced explicitly. */
  type u32 = x: int | 0 <= x < 0x1_0000_0000

  /** Reduction to 32 bits, as every store to a 32-bit field does. */
  function Wrap(x: int): u32 {
    x % U32
  }

  const MAX_ORDERS: nat := 100_000
  const MINIMUM_BID: int := 1
  const MAXIMUM_ASK: int := 10_000
  const NUM_LEVELS: nat := 10_000
  const SNAPSHOT_DEPTH: nat := 10

  /** The content of one pool slot: `handle` is the slot's own index. */
  datatype Order = Order(
    handle: nat,
    clientId: u32,
    orderId: u32,
    price: int,
    quantity: u32,
    remaining: u32,
    cumulative: u32,
    isBid: bool)

  datatype ErrorCode = BookFull | InvalidVolume | OrderNotFound | Unauthorised | InvalidPrice

  /** One callback made by the engine. Orders are the values passed at the time of the call. */
  datatype Event =
    | Trade(maker: Order, takerClient: u32, takerId: u32, price: int,
            takerTotal: u32, takerCumulative: u32, quantity: u32)
    | Inserted(request: u32, order: Order)
    | Cancelled(request: u32, order: Order)
    | Amended(request: u32, quantityOld: u32, order: Order)
    | LevelUpdate(isBid: bool, price: int, total: u32)
    | Error(client: u32, request: u32, code: ErrorCode)

  function Min(a: int, b: int): int {
    if a <= b then a else b
  }

  /** Resting orders always have something left and account for their whole quantity. */
  predicate Sound(o: Order) {
    0 < o.remaining && o.remaining + o.cumulative == o.quantity
  }

  predicate AllSound(os: seq<Order>) {
    forall i :: 0 <= i < |os| ==> Sound(os[i])
  }

  function SumRemaining(os: seq<Order>): nat {
    if os == [] then 0 else os[0].remaining + SumRemaining(os[1..])
  }

  lemma {:induction false} SumRemainingConcat(a: seq<Order>, b: seq<Order>)
    ensures SumRemaining(a + b) == SumRemaining(a) + SumRemaining(b)
  {
    if a == [] {
      assert a + b == b;
    } else {
      assert (a + b)[1..] == a[1..] + b;
      SumRemainingConcat(a[1..], b);
    }
  }

  /** Removing the order at k takes exactly its remaining quantity off the sum. */
  lemma SumRemainingRemove(os: seq<Order>, k: nat)
    requires k < |os|
    ensures SumRemaining(os[..k] + os[k + 1..]) == SumRemaining(os) - os[k].remaining
  {
    assert os == os[..k] + ([os[k]] + os[k + 1..]);
    SumRemainingConcat(os[..k], [os[k]] + os[k + 1..]);
    SumRemainingConcat([os[k]], os[k + 1..]);
    SumRemainingConcat(os[..k], os[k + 1..]);
    assert SumRemaining([os[k]]) == os[k].remaining + SumRemaining([]);
  }

  lemma SumRemainingUpdate(os: seq<Order>, k: nat, o: Order)
    requires k < |os|
    ensures SumRemaining(os[k := o]) == SumRemaining(os) - os[k].remaining + o.remaining
  {
    SumRemainingRemove(os, k);
    SumRemainingRemove(os[k := o], k);
    assert os[k := o][..k] + os[k := o][k + 1..] == os[..k] + os[k + 1..];
  }
}
