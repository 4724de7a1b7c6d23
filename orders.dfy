/**
 * The order side of server/routes/orderRoutes.js: the records an order is made
 * of, the line items built from the client's cart, the three status buckets
 * the admin listings query, the caller's own orders, and the stock
 * reconciliation that the pay transition applies to the catalog.
 */
module Orders {
  import opened Base
  import Catalog

  /** One entry of the cart the client submits: a snapshot of a product. */
  datatype CartItem = CartItem(
    id: ProductId,
    name: string,
    slug: string,
    image: string,
    price: real,
    quantity: int)

  /**
   * A stored line item: the cart entry spread into the item, plus `product`
   * set to the cart entry's `_id`. The pay loop looks products up by `id`.
   */
  datatype OrderItem = OrderItem(
    id: ProductId,
    product: ProductId,
    name: string,
    slug: string,
    image: string,
    price: real,
    quantity: int)

  /** The confirmation the payment provider returns, stored verbatim. */
  datatype PaymentResult = PaymentResult(
    id: string,
    status: string,
    updateTime: string,
    emailAddress: string)

  datatype Order = Order(
    id: OrderId,
    user: UserId,
    orderItems: seq<OrderItem>,
    shippingAddress: string,   // stored verbatim, never inspected
    paymentMethod: string,
    itemsPrice: real,
    shippingPrice: real,
    taxPrice: real,
    totalPrice: real,
    isPaid: bool,
    paidAt: Option<int>,
    paymentResult: Option<PaymentResult>,
    isDelivered: bool,
    createdAt: int)

  /** The price breakdown the client supplies; it is trusted, not recomputed. */
  datatype Prices = Prices(items: real, shipping: real, tax: real, total: real)

  /** `{ ...x, product: x._id }` for one cart entry. */
  function ItemOf(x: CartItem): (it: OrderItem)
    ensures it.product == x.id && it.id == x.id
    ensures it.price == x.price && it.quantity == x.quantity
    ensures it.name == x.name && it.slug == x.slug && it.image == x.image
  {
    OrderItem(x.id, x.id, x.name, x.slug, x.image, x.price, x.quantity)
  }

  /** `POST /`: the new order of `caller`, unpaid and undelivered. */
  function NewOrder(id: OrderId, caller: UserId, cart: seq<CartItem>, shippingAddress: string,
                    paymentMethod: string, prices: Prices, createdAt: int): (o: Order)
    ensures o.id == id && o.user == caller
    ensures |o.orderItems| == |cart|
    ensures forall i :: 0 <= i < |cart| ==> o.orderItems[i] == ItemOf(cart[i])
    ensures forall i :: 0 <= i < |cart| ==> o.orderItems[i].product == cart[i].id
    ensures o.shippingAddress == shippingAddress && o.paymentMethod == paymentMethod
    ensures o.itemsPrice == prices.items && o.shippingPrice == prices.shipping
    ensures o.taxPrice == prices.tax && o.totalPrice == prices.total
    ensures !o.isPaid && !o.isDelivered && o.paidAt.None? && o.paymentResult.None?
    ensures o.createdAt == createdAt
  {
    Order(id, caller, seq(|cart|, i requires 0 <= i < |cart| => ItemOf(cart[i])),
          shippingAddress, paymentMethod, prices.items, prices.shipping, prices.tax, prices.total,
          false, None, None, false, createdAt)
  }

  // ---------------------------------------------------------------------------
  // Status buckets and listings
  // ---------------------------------------------------------------------------

  /** The three status classes the admin pages and the dashboard query. */
  datatype Bucket = Unpaid | Accepted | Complete

  /**
   * `{isPaid: false}` is Unpaid, `{isPaid: true, isDelivered: false}` is
   * Accepted, `{isPaid: true, isDelivered: true}` is Complete.
   */
  function BucketOf(o: Order): (b: Bucket)
    ensures b == Unpaid <==> !o.isPaid
    ensures b == Accepted <==> o.isPaid && !o.isDelivered
    ensures b == Complete <==> o.isPaid && o.isDelivered
  {
    if !o.isPaid then Unpaid
    else if !o.isDelivered then Accepted
    else Complete
  }

  /** The stored orders of one bucket. */
  function InBucket(orders: map<OrderId, Order>, b: Bucket): (r: map<OrderId, Order>)
    ensures forall id :: id in r <==> id in orders && BucketOf(orders[id]) == b
    ensures forall id :: id in r ==> r[id] == orders[id]
  {
    map id | id in orders && BucketOf(orders[id]) == b :: orders[id]
  }

  /** `GET /managenopayment`: the orders with `isPaid == false`. */
  function ManageNoPayment(orders: map<OrderId, Order>): (r: map<OrderId, Order>)
    ensures forall id :: id in r <==> id in orders && !orders[id].isPaid
    ensures forall id :: id in r ==> r[id] == orders[id]
  {
    InBucket(orders, Unpaid)
  }

  /** `GET /manageaccept`: the paid orders still waiting for delivery. */
  function ManageAccept(orders: map<OrderId, Order>): (r: map<OrderId, Order>)
    ensures forall id :: id in r <==> id in orders && orders[id].isPaid && !orders[id].isDelivered
    ensures forall id :: id in r ==> r[id] == orders[id]
  {
    InBucket(orders, Accepted)
  }

  /** `GET /managecomplete`: the paid and delivered orders. */
  function ManageComplete(orders: map<OrderId, Order>): (r: map<OrderId, Order>)
    ensures forall id :: id in r <==> id in orders && orders[id].isPaid && orders[id].isDelivered
    ensures forall id :: id in r ==> r[id] == orders[id]
  {
    InBucket(orders, Complete)
  }

  /** Every order lies in exactly one bucket, so the bucket sizes add up to the number of orders. */
  lemma BucketsPartition(orders: map<OrderId, Order>)
    ensures InBucket(orders, Unpaid).Keys !! InBucket(orders, Accepted).Keys
    ensures InBucket(orders, Unpaid).Keys !! InBucket(orders, Complete).Keys
    ensures InBucket(orders, Accepted).Keys !! InBucket(orders, Complete).Keys
    ensures |InBucket(orders, Unpaid)| + |InBucket(orders, Accepted)| + |InBucket(orders, Complete)| == |orders|
  {
    var u, a, c := InBucket(orders, Unpaid).Keys, InBucket(orders, Accepted).Keys, InBucket(orders, Complete).Keys;
    assert u + a + c == orders.Keys;
    assert |u + a| == |u| + |a|;
    assert |(u + a) + c| == |u + a| + |c|;
  }

  /** `GET /mine`: exactly the caller's orders. */
  function Mine(orders: map<OrderId, Order>, caller: UserId): (r: map<OrderId, Order>)
    ensures forall id :: id in r <==> id in orders && orders[id].user == caller
    ensures forall id :: id in r ==> r[id] == orders[id]
  {
    map id | id in orders && orders[id].user == caller :: orders[id]
  }

  /** `GET /:id`: the order, or NotFound. */
  function GetOrder(orders: map<OrderId, Order>, id: OrderId): (r: Result<Order>)
    ensures r.Err? <==> id !in orders
    ensures r.Err? ==> r.error == NotFound
    ensures r.Ok? ==> r.value == orders[id]
  {
    if id in orders then Ok(orders[id]) else Err(NotFound)
  }

  // ---------------------------------------------------------------------------
  // Deletions
  // ---------------------------------------------------------------------------

  /** The collection after `deleteMany` on one bucket's query. */
  function Purge(orders: map<OrderId, Order>, b: Bucket): (r: map<OrderId, Order>)
    ensures forall id :: id in r <==> id in orders && BucketOf(orders[id]) != b
    ensures forall id :: id in r ==> r[id] == orders[id]
    ensures InBucket(r, b) == map[]
  {
    map id | id in orders && BucketOf(orders[id]) != b :: orders[id]
  }

  /** The collection after `deleteMany({ user: owner })`. */
  function WithoutOwner(orders: map<OrderId, Order>, owner: UserId): (r: map<OrderId, Order>)
    ensures forall id :: id in r <==> id in orders && orders[id].user != owner
    ensures forall id :: id in r ==> r[id] == orders[id]
    ensures Mine(r, owner) == map[]
  {
    map id | id in orders && orders[id].user != owner :: orders[id]
  }

  /** Removing one owner's orders leaves every other owner's orders exactly as they were. */
  lemma WithoutOwnerKeepsOthers(orders: map<OrderId, Order>, owner: UserId, other: UserId)
    requires other != owner
    ensures Mine(WithoutOwner(orders, owner), other) == Mine(orders, other)
  {
  }

  // ---------------------------------------------------------------------------
  // Stock reconciliation of the pay transition
  // ---------------------------------------------------------------------------

  /** The total quantity of the line items whose `_id` is `pid`. */
  function QtyFor(items: seq<OrderItem>, pid: ProductId): (r: int)
    ensures |items| == 1 ==> r == if items[0].id == pid then items[0].quantity else 0
  {
    if items == [] then 0
    else
      var last := items[|items| - 1];
      QtyFor(items[..|items| - 1], pid) + (if last.id == pid then last.quantity else 0)
  }

  lemma {:induction false} QtyForAppend(a: seq<OrderItem>, b: seq<OrderItem>, pid: ProductId)
    ensures QtyFor(a + b, pid) == QtyFor(a, pid) + QtyFor(b, pid)
  {
    if b == [] {
      assert a + b == a;
    } else {
      QtyForAppend(a, b[..|b| - 1], pid);
      assert (a + b)[..|a + b| - 1] == a + b[..|b| - 1];
    }
  }

  /** With no negative quantity in the order, no product's stock goes up. */
  lemma {:induction false} QtyForNonNegative(items: seq<OrderItem>, pid: ProductId)
    requires forall i :: 0 <= i < |items| ==> items[i].quantity >= 0
    ensures QtyFor(items, pid) >= 0
  {
    if items != [] {
      QtyForNonNegative(items[..|items| - 1], pid);
    }
  }

  lemma {:induction false} QtyForUnreferenced(items: seq<OrderItem>, pid: ProductId)
    requires forall it :: it in items ==> it.id != pid
    ensures QtyFor(items, pid) == 0
  {
    if items != [] {
      assert forall it :: it in items[..|items| - 1] ==> it in items;
      QtyForUnreferenced(items[..|items| - 1], pid);
    }
  }

  /**
   * The catalog after the pay loop over `items`: each product's stock has
   * dropped by the quantities of the line items that reference it, with no
   * lower bound; nothing else about any product changes.
   */
  function AfterPay(ps: seq<Catalog.Product>, items: seq<OrderItem>): (r: seq<Catalog.Product>)
    ensures |r| == |ps|
    ensures forall j :: 0 <= j < |ps| ==>
      r[j].countInStock == ps[j].countInStock - QtyFor(items, ps[j].id) &&
      r[j] == ps[j].(countInStock := r[j].countInStock)
    ensures forall j :: 0 <= j < |ps| && (forall it :: it in items ==> it.id != ps[j].id) ==> r[j] == ps[j]
    ensures Catalog.UniqueIds(ps) ==> Catalog.UniqueIds(r)
  {
    forall j | 0 <= j < |ps| && (forall it :: it in items ==> it.id != ps[j].id)
      ensures QtyFor(items, ps[j].id) == 0
    {
      QtyForUnreferenced(items, ps[j].id);
    }
    seq(|ps|, j requires 0 <= j < |ps| => ps[j].(countInStock := ps[j].countInStock - QtyFor(items, ps[j].id)))
  }

  /** One more iteration of the pay loop: the product the next item references loses that item's quantity. */
  lemma AfterPayStep(ps: seq<Catalog.Product>, items: seq<OrderItem>, i: nat, k: nat)
    requires Catalog.UniqueIds(ps)
    requires i < |items| && k < |ps| && ps[k].id == items[i].id
    ensures var cur := AfterPay(ps, items[..i]);
      AfterPay(ps, items[..i + 1]) == cur[k := cur[k].(countInStock := cur[k].countInStock - items[i].quantity)]
  {
    var cur := AfterPay(ps, items[..i]);
    var next := AfterPay(ps, items[..i + 1]);
    assert items[..i + 1][..i] == items[..i];
    forall j | 0 <= j < |ps|
      ensures next[j] == cur[k := cur[k].(countInStock := cur[k].countInStock - items[i].quantity)][j]
    {
      assert QtyFor(items[..i + 1], ps[j].id) ==
        QtyFor(items[..i], ps[j].id) + (if items[i].id == ps[j].id then items[i].quantity else 0);
    }
  }

  /** Two pay loops in a row decrement by the items of both, in either order. */
  lemma PaysCompose(ps: seq<Catalog.Product>, a: seq<OrderItem>, b: seq<OrderItem>)
    ensures AfterPay(AfterPay(ps, a), b) == AfterPay(ps, a + b)
    ensures AfterPay(AfterPay(ps, a), b) == AfterPay(AfterPay(ps, b), a)
  {
    forall j | 0 <= j < |ps|
      ensures QtyFor(a + b, ps[j].id) == QtyFor(a, ps[j].id) + QtyFor(b, ps[j].id)
      ensures QtyFor(b + a, ps[j].id) == QtyFor(b, ps[j].id) + QtyFor(a, ps[j].id)
    {
      QtyForAppend(a, b, ps[j].id);
      QtyForAppend(b, a, ps[j].id);
    }
    assert AfterPay(ps, a + b) == AfterPay(ps, b + a);
  }

  /** With no guard on `isPaid`, paying the same order twice takes its quantities out of stock twice. */
  lemma PayTwiceDecrementsTwice(ps: seq<Catalog.Product>, items: seq<OrderItem>)
    ensures var twice := AfterPay(AfterPay(ps, items), items);
      forall j :: 0 <= j < |ps| ==> twice[j].countInStock == ps[j].countInStock - 2 * QtyFor(items, ps[j].id)
  {
  }
}
