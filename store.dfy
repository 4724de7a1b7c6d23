/**
 * The three Mongo collections as one in-memory store, and the route handlers
 * that change them: product add/update/delete (productRoutes.js), order
 * creation, the pay and deliver transitions and the order deletions
 * (orderRoutes.js), the cascading user delete and the profile update
 * (userRoutes.js). The read-only `/admin` dashboard is here too, because it
 * counts all three collections at once.
 */
module Store {
  import opened Base
  import Catalog
  import Orders
  import Users

  /** The seven counts of `GET /admin`. */
  datatype Dashboard = Dashboard(
    countAdmin: nat,
    countUser: nat,
    countCategory: nat,
    countProduct: nat,
    countOrder1: nat,   // unpaid
    countOrder2: nat,   // paid, awaiting delivery
    countOrder3: nat)   // paid and delivered

  class Database {
    var products: seq<Catalog.Product>      // the product collection, in natural (insertion) order
    var orders: map<OrderId, Orders.Order>  // the order collection, keyed by `_id`
    var users: map<UserId, Users.User>      // the user collection, keyed by `_id`

    /** Every `_id` identifies one record of its collection. */
    ghost predicate Valid()
      reads this
    {
      && Catalog.UniqueIds(products)
      && (forall id :: id in orders ==> orders[id].id == id)
      && (forall id :: id in users ==> users[id].id == id)
    }

    constructor (ps: seq<Catalog.Product>, os: map<OrderId, Orders.Order>, us: map<UserId, Users.User>)
      requires Catalog.UniqueIds(ps)
      requires forall id :: id in os ==> os[id].id == id
      requires forall id :: id in us ==> us[id].id == id
      ensures Valid()
      ensures products == ps && orders == os && users == us
    {
      products, orders, users := ps, os, us;
    }

    // -------------------------------------------------------------------------
    // Products
    // -------------------------------------------------------------------------

    /** `Product.findById(pid)` on a product that exists: its position in the collection. */
    method Locate(pid: ProductId) returns (k: nat)
      requires exists j :: 0 <= j < |products| && products[j].id == pid
      ensures k < |products| && products[k].id == pid
      ensures forall j :: 0 <= j < k ==> products[j].id != pid
    {
      k := 0;
      while products[k].id != pid
        invariant k < |products|
        invariant forall j :: 0 <= j < k ==> products[j].id != pid
        invariant exists j :: k <= j < |products| && products[j].id == pid
        decreases |products| - k
      {
        k := k + 1;
      }
    }

    /** `POST /addproduct`: appends the new product, its slug derived from its name. */
    method AddProduct(id: ProductId, f: Catalog.ProductFields, toSlug: string -> string, featured: int, createAt: int)
      returns (p: Catalog.Product)
      requires Valid()
      requires forall q :: q in products ==> q.id != id
      modifies this
      ensures Valid()
      ensures p.id == id && p.slug == toSlug(f.name) && Catalog.FieldsOf(p) == f
      ensures products == old(products) + [p]
      ensures orders == old(orders) && users == old(users)
    {
      p := Catalog.NewProduct(id, f, toSlug, featured, createAt);
      products := products + [p];
    }

    /**
     * `PUT /update/:id`: replaces the ten mutable fields of the product with that
     * id (the slug recomputed from the new name) and leaves every other product
     * as it was.
     */
    method UpdateProduct(id: ProductId, f: Catalog.ProductFields, toSlug: string -> string)
      returns (p: Catalog.Product)
      requires Valid()
      requires exists j :: 0 <= j < |products| && products[j].id == id
      modifies this
      ensures Valid()
      ensures p.id == id && p.slug == toSlug(f.name) && Catalog.FieldsOf(p) == f && p in products
      ensures |products| == |old(products)|
      ensures forall j :: 0 <= j < |products| ==>
        products[j] == if old(products)[j].id == id then Catalog.Updated(old(products)[j], f, toSlug) else old(products)[j]
      ensures orders == old(orders) && users == old(users)
    {
      var k := Locate(id);
      p := Catalog.Updated(products[k], f, toSlug);
      products := products[k := p];
      assert products[k] == p;
    }

    /** `DELETE /delete/:id`: removes the product with that id; a missing id is not an error. */
    method DeleteProduct(id: ProductId)
      requires Valid()
      modifies this
      ensures Valid()
      ensures products == Catalog.RemoveId(old(products), id)
      ensures orders == old(orders) && users == old(users)
    {
      products := Catalog.RemoveId(products, id);
    }

    // -------------------------------------------------------------------------
    // Orders
    // -------------------------------------------------------------------------

    /** `POST /`: stores the caller's new order under a fresh id. */
    method CreateOrder(id: OrderId, caller: UserId, cart: seq<Orders.CartItem>, shippingAddress: string,
                       paymentMethod: string, prices: Orders.Prices, createdAt: int)
      returns (o: Orders.Order)
      requires Valid()
      requires id !in orders
      modifies this
      ensures Valid()
      ensures o == Orders.NewOrder(id, caller, cart, shippingAddress, paymentMethod, prices, createdAt)
      ensures orders == old(orders)[id := o]
      ensures products == old(products) && users == old(users)
    {
      o := Orders.NewOrder(id, caller, cart, shippingAddress, paymentMethod, prices, createdAt);
      orders := orders[id := o];
    }

    /**
     * `PUT /:id/pay`: marks the order paid at `now` with the provider's result,
     * then takes each line item's quantity out of the stock of the product it
     * references. The order's `isPaid` is not checked first.
     */
    method Pay(id: OrderId, result: Orders.PaymentResult, now: int) returns (r: Result<Orders.Order>)
      requires Valid()
      requires id in orders ==>
        forall it :: it in orders[id].orderItems ==> exists j :: 0 <= j < |products| && products[j].id == it.id
      modifies this
      ensures Valid()
      ensures id !in old(orders) ==>
        r == Err(NotFound) && products == old(products) && orders == old(orders) && users == old(users)
      ensures id in old(orders) ==>
        && r == Ok(old(orders)[id].(isPaid := true, paidAt := Some(now), paymentResult := Some(result)))
        && orders == old(orders)[id := r.value]
        && products == Orders.AfterPay(old(products), old(orders)[id].orderItems)
        && users == old(users)
    {
      if id !in orders {
        return Err(NotFound);
      }
      var order := orders[id];
      order := order.(isPaid := true, paidAt := Some(now), paymentResult := Some(result));
      var items := order.orderItems;
      ghost var initial := products;
      assert items[..0] == [];
      var i := 0;
      while i < |items|
        invariant 0 <= i <= |items|
        invariant products == Orders.AfterPay(initial, items[..i])
        invariant orders == old(orders) && users == old(users)
      {
        assert items[i] in items;
        var k := Locate(items[i].id);
        Orders.AfterPayStep(initial, items, i, k);
        products := products[k := products[k].(countInStock := products[k].countInStock - items[i].quantity)];
        i := i + 1;
      }
      assert items[..|items|] == items;
      orders := orders[id := order];
      r := Ok(order);
    }

    /** `PUT /update/:id`: marks the order delivered, whether or not it is paid. */
    method Deliver(id: OrderId) returns (r: Result<Orders.Order>)
      requires Valid()
      modifies this
      ensures Valid()
      ensures id !in old(orders) ==>
        r == Err(NotFound) && products == old(products) && orders == old(orders) && users == old(users)
      ensures id in old(orders) ==>
        && r == Ok(old(orders)[id].(isDelivered := true))
        && orders == old(orders)[id := r.value]
        && products == old(products) && users == old(users)
    {
      if id !in orders {
        return Err(NotFound);
      }
      var order := orders[id].(isDelivered := true);
      orders := orders[id := order];
      r := Ok(order);
    }

    /** The pay transition with a guard against paying twice: a paid order is refused and nothing changes. */
    method PayOnce(id: OrderId, result: Orders.PaymentResult, now: int) returns (r: Result<Orders.Order>)
      requires Valid()
      requires id in orders ==>
        forall it :: it in orders[id].orderItems ==> exists j :: 0 <= j < |products| && products[j].id == it.id
      modifies this
      ensures Valid()
      ensures (id !in old(orders) || old(orders)[id].isPaid) ==>
        && r == Err(if id in old(orders) then AlreadyPaid else NotFound)
        && products == old(products) && orders == old(orders) && users == old(users)
      ensures id in old(orders) && !old(orders)[id].isPaid ==>
        && r == Ok(old(orders)[id].(isPaid := true, paidAt := Some(now), paymentResult := Some(result)))
        && orders == old(orders)[id := r.value]
        && products == Orders.AfterPay(old(products), old(orders)[id].orderItems)
        && users == old(users)
    {
      if id in orders && orders[id].isPaid {
        return Err(AlreadyPaid);
      }
      r := Pay(id, result, now);
    }

    /** The deliver transition with the workflow's guard: an unpaid order is refused and nothing changes. */
    method DeliverPaid(id: OrderId) returns (r: Result<Orders.Order>)
      requires Valid()
      modifies this
      ensures Valid()
      ensures (id !in old(orders) || !old(orders)[id].isPaid) ==>
        && r == Err(if id in old(orders) then NotPaid else NotFound)
        && products == old(products) && orders == old(orders) && users == old(users)
      ensures id in old(orders) && old(orders)[id].isPaid ==>
        && r == Ok(old(orders)[id].(isDelivered := true))
        && orders == old(orders)[id := r.value]
        && products == old(products) && users == old(users)
      ensures (forall o :: o in old(orders) ==> old(orders)[o].isDelivered ==> old(orders)[o].isPaid) ==>
        forall o :: o in orders ==> orders[o].isDelivered ==> orders[o].isPaid
    {
      if id in orders && !orders[id].isPaid {
        return Err(NotPaid);
      }
      r := Deliver(id);
    }

    /** `DELETE /deletenopay`: removes exactly the unpaid orders. */
    method DeleteUnpaid()
      requires Valid()
      modifies this
      ensures Valid()
      ensures orders == Orders.Purge(old(orders), Orders.Unpaid)
      ensures products == old(products) && users == old(users)
    {
      orders := Orders.Purge(orders, Orders.Unpaid);
    }

    /** `DELETE /deletecomplete`: removes exactly the paid and delivered orders. */
    method DeleteComplete()
      requires Valid()
      modifies this
      ensures Valid()
      ensures orders == Orders.Purge(old(orders), Orders.Complete)
      ensures products == old(products) && users == old(users)
    {
      orders := Orders.Purge(orders, Orders.Complete);
    }

    /** `DELETE /delete/:id`: removes that order only; a missing id is not an error. */
    method DeleteOrder(id: OrderId)
      requires Valid()
      modifies this
      ensures Valid()
      ensures orders == old(orders) - {id}
      ensures products == old(products) && users == old(users)
    {
      orders := orders - {id};
    }

    // -------------------------------------------------------------------------
    // Users
    // -------------------------------------------------------------------------

    /** `DELETE /delete/:id` of the user routes: removes the user, then every order the user owns. */
    method DeleteUser(id: UserId)
      requires Valid()
      modifies this
      ensures Valid()
      ensures users == old(users) - {id}
      ensures orders == Orders.WithoutOwner(old(orders), id)
      ensures products == old(products)
    {
      users := users - {id};
      orders := Orders.WithoutOwner(orders, id);
    }

    /** `PUT /profile`: merges the request into the caller's record, or NotFound. */
    method UpdateProfile(caller: UserId, req: Users.ProfileRequest) returns (r: Result<Users.User>)
      requires Valid()
      modifies this
      ensures Valid()
      ensures caller !in old(users) ==> r == Err(NotFound) && users == old(users)
      ensures caller in old(users) ==>
        r == Ok(Users.MergeProfile(old(users)[caller], req)) && users == old(users)[caller := r.value]
      ensures products == old(products) && orders == old(orders)
    {
      if caller !in users {
        return Err(NotFound);
      }
      var u := Users.MergeProfile(users[caller], req);
      users := users[caller := u];
      r := Ok(u);
    }

    /**
     * `GET /admin`: the seven counts, read without changing any collection.
     * Admins and non-admins add up to the users, the three order buckets to the
     * orders, and there are no more categories than products.
     */
    method GetDashboard() returns (d: Dashboard)
      ensures d.countAdmin == |Users.WithRole(users, true)| && d.countUser == |Users.WithRole(users, false)|
      ensures d.countAdmin + d.countUser == |users|
      ensures d.countCategory == |Catalog.Categories(products)| && d.countProduct == |products|
      ensures d.countCategory <= d.countProduct
      ensures d.countOrder1 == |Orders.ManageNoPayment(orders)|
      ensures d.countOrder2 == |Orders.ManageAccept(orders)|
      ensures d.countOrder3 == |Orders.ManageComplete(orders)|
      ensures d.countOrder1 + d.countOrder2 + d.countOrder3 == |orders|
    {
      Users.RolesPartition(users);
      Orders.BucketsPartition(orders);
      Catalog.CategoriesAtMostProducts(products);
      d := Dashboard(
        |Users.WithRole(users, true)|,
        |Users.WithRole(users, false)|,
        |Catalog.Categories(products)|,
        |products|,
        |Orders.ManageNoPayment(orders)|,
        |Orders.ManageAccept(orders)|,
        |Orders.ManageComplete(orders)|);
    }
  }
}
