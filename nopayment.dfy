/**
 * The admin "unpaid orders" page of
 * frontend_backend/src/manage/order/Nopayment.js: the reducer behind its
 * fetch state, and the paid and delivered badges it shows for each order.
 */
module Nopayment {
  import opened Base
  import Orders

  /** The page's state; `orders` is undefined (None) until the first successful fetch. */
  datatype State = State(loading: bool, error: string, orders: Option<seq<Orders.Order>>)

  /** An action `type` the reducer's switch has no case for. */
  type UnknownKind = k: string | k !in {"FETCH_REQUEST", "FETCH_SUCCESS", "FETCH_FAIL"} witness ""

  /**
   * The dispatched actions: the three the reducer recognises, each with its
   * payload, and any other `type` string.
   */
  datatype Action =
    | FetchRequest
    | FetchSuccess(payload: seq<Orders.Order>)
    | FetchFail(message: string)
    | Other(kind: UnknownKind)

  /** The state `useReducer` starts from. */
  function InitialState(): (s: State)
    ensures s.loading && s.error == "" && s.orders.None?
  {
    State(true, "", None)
  }

  function Reduce(s: State, a: Action): (r: State)
    ensures a.FetchRequest? ==> r.loading && r.orders == s.orders && r.error == s.error
    ensures a.FetchSuccess? ==> !r.loading && r.orders == Some(a.payload) && r.error == s.error
    ensures a.FetchFail? ==> !r.loading && r.error == a.message && r.orders == s.orders
    ensures a.Other? ==> r == s
  {
    match a
    case FetchRequest => s.(loading := true)
    case FetchSuccess(payload) => s.(orders := Some(payload), loading := false)
    case FetchFail(message) => s.(loading := false, error := message)
    case Other(_) => s
  }

  /**
   * Folds a sequence of dispatched actions into the state. When the last
   * action is a recognised one it decides: the page is loading iff it was a
   * request, and after a success it shows that success's payload.
   * `LastRecognisedDecides` extends this past trailing unknown actions.
   */
  function ReduceAll(s: State, actions: seq<Action>): (r: State)
    ensures actions != [] && !actions[|actions| - 1].Other? ==>
      (r.loading <==> actions[|actions| - 1].FetchRequest?)
    ensures actions != [] && actions[|actions| - 1].FetchSuccess? ==>
      r.orders == Some(actions[|actions| - 1].payload)
    decreases actions
  {
    if actions == [] then s
    else
      assert |actions| > 1 ==> actions[1..][|actions[1..]| - 1] == actions[|actions| - 1];
      ReduceAll(Reduce(s, actions[0]), actions[1..])
  }

  /** Actions of unknown type leave the state alone, however many are dispatched. */
  lemma {:induction false} UnknownActionsIgnored(s: State, actions: seq<Action>)
    requires forall a :: a in actions ==> a.Other?
    ensures ReduceAll(s, actions) == s
  {
    if actions != [] {
      assert forall a :: a in actions[1..] ==> a in actions;
      UnknownActionsIgnored(Reduce(s, actions[0]), actions[1..]);
    }
  }

  /**
   * The last recognised action decides the page's state, whatever unknown
   * actions come after it: loading iff it was a request, the payload after a
   * success, the message after a failure.
   */
  lemma {:induction false} LastRecognisedDecides(s: State, pre: seq<Action>, a: Action, post: seq<Action>)
    requires !a.Other?
    requires forall b :: b in post ==> b.Other?
    ensures ReduceAll(s, pre + [a] + post).loading <==> a.FetchRequest?
    ensures a.FetchSuccess? ==> ReduceAll(s, pre + [a] + post).orders == Some(a.payload)
    ensures a.FetchFail? ==> ReduceAll(s, pre + [a] + post).error == a.message
    decreases |pre|
  {
    if pre == [] {
      assert pre + [a] + post == [a] + post;
      assert ([a] + post)[1..] == post;
      UnknownActionsIgnored(Reduce(s, a), post);
    } else {
      assert (pre + [a] + post)[1..] == pre[1..] + [a] + post;
      LastRecognisedDecides(Reduce(s, pre[0]), pre[1..], a, post);
    }
  }

  /**
   * The page's fetch: FETCH_REQUEST, then FETCH_SUCCESS or FETCH_FAIL. After a
   * success the page shows the fetched orders; after a failure it keeps
   * whatever orders it had and shows the message.
   */
  lemma FetchCycle(s: State, data: seq<Orders.Order>, message: string)
    ensures ReduceAll(s, [FetchRequest, FetchSuccess(data)]) == State(false, s.error, Some(data))
    ensures ReduceAll(s, [FetchRequest, FetchFail(message)]) == State(false, message, s.orders)
  {
    var loading := Reduce(s, FetchRequest);
    assert [FetchRequest, FetchSuccess(data)][1..] == [FetchSuccess(data)];
    assert [FetchSuccess(data)][1..] == [];
    assert ReduceAll(loading, [FetchSuccess(data)]) == ReduceAll(Reduce(loading, FetchSuccess(data)), []);
    assert [FetchRequest, FetchFail(message)][1..] == [FetchFail(message)];
    assert [FetchFail(message)][1..] == [];
    assert ReduceAll(loading, [FetchFail(message)]) == ReduceAll(Reduce(loading, FetchFail(message)), []);
  }

  /** The "Thanh toán" (payment) column. */
  function PaymentBadge(o: Orders.Order): (badge: string)
    ensures badge == "Xong" <==> o.isPaid
    ensures badge == "No" <==> !o.isPaid
  {
    if o.isPaid then "Xong" else "No"
  }

  /** The "Đã giao hàng" (delivered) column. */
  function DeliveryBadge(o: Orders.Order): (badge: string)
    ensures badge == "Xong" <==> o.isDelivered
    ensures badge == "Đang chờ" <==> o.isPaid && !o.isDelivered
    ensures badge == "No" <==> !o.isPaid && !o.isDelivered
  {
    if o.isDelivered then "Xong"
    else if !o.isDelivered && o.isPaid then "Đang chờ"
    else "No"
  }

  /**
   * The delivery badge follows the status bucket except for an order delivered
   * before it was paid: it sits in the unpaid bucket yet shows "Xong".
   */
  lemma DeliveryBadgeByBucket(o: Orders.Order)
    ensures Orders.BucketOf(o) == Orders.Complete ==> DeliveryBadge(o) == "Xong"
    ensures Orders.BucketOf(o) == Orders.Accepted ==> DeliveryBadge(o) == "Đang chờ"
    ensures Orders.BucketOf(o) == Orders.Unpaid ==> DeliveryBadge(o) in {"No", "Xong"}
    ensures Orders.BucketOf(o) == Orders.Unpaid && DeliveryBadge(o) == "Xong" ==> o.isDelivered && !o.isPaid
  {
  }

  /** On this page, which lists the unpaid bucket, the "Đang chờ" badge never appears. */
  lemma NoWaitingBadgeOnUnpaidPage(orders: map<OrderId, Orders.Order>)
    ensures forall id :: id in Orders.ManageNoPayment(orders) ==>
      DeliveryBadge(Orders.ManageNoPayment(orders)[id]) != "Đang chờ" &&
      PaymentBadge(Orders.ManageNoPayment(orders)[id]) == "No"
  {
  }
}
