/**
 * The order controller: creating an order after the required-field check,
 * and changing an order's status through a three-value whitelist. The
 * store is the `Order` table as a sequence of records.
 */
module OrderController {
  import opened Wrappers
  import Seqs
  import opened Js

  /** The fields of `req.body` the controller destructures. */
  datatype OrderBody = OrderBody(
    customerName: Value, customerEmail: Value, customerPhone: Value,
    customerAddress: Value, items: Value, total: Value)

  datatype Order = Order(
    id: string, customerName: Value, customerEmail: Value, customerPhone: Value,
    customerAddress: Value, items: Value, total: Number, status: string, createdAt: int)

  const Pending := "en_attente"
  const Paid := "payée"
  const Shipped := "expédiée"

  /** The statuses `updateOrderStatus` accepts. */
  const Statuses := [Pending, Paid, Shipped]

  const MissingFieldsError := "Missing required fields"
  const PlacedMessage := "Order placed successfully. Payment will be collected on delivery."
  const InvalidStatusError := "Invalid status"
  const InternalError := "Internal server error"

  datatype CreateReply = Created(order: Order, message: string) | MissingFields(error: string)
  {
    function Status(): int
    {
      if Created? then 201 else 400
    }
  }

  datatype StatusReply = Updated(order: Order) | InvalidStatus(error: string) | Failed(error: string)
  {
    function Status(): int
    {
      match this
      case Updated(_) => 200
      case InvalidStatus(_) => 400
      case Failed(_) => 500
    }
  }

  /** The guard of `createOrder`: all six fields truthy (so a total of 0 is missing, while an empty item array is not). */
  predicate HasRequiredFields(body: OrderBody)
  {
    && Truthy(body.customerName) && Truthy(body.customerEmail) && Truthy(body.customerPhone)
    && Truthy(body.customerAddress) && Truthy(body.items) && Truthy(body.total)
  }

  /** `createOrder`: reject incomplete bodies, otherwise store a pending order built from the body. */
  function CreateOrder(store: seq<Order>, body: OrderBody, newId: string, now: int, host: Host): (r: (CreateReply, seq<Order>))
    ensures r.0.MissingFields? <==> !HasRequiredFields(body)
    ensures r.0.MissingFields? ==> r.0.Status() == 400 && r.0.error == MissingFieldsError && r.1 == store
    ensures r.0.Created? ==> && r.0.Status() == 201 && r.0.message == PlacedMessage
                             && r.1 == store + [r.0.order] && r.0.order.id == newId
                             && r.0.order.status == Pending
                             && r.0.order.customerName == body.customerName
                             && r.0.order.customerEmail == body.customerEmail
                             && r.0.order.customerPhone == body.customerPhone
                             && r.0.order.customerAddress == body.customerAddress
                             && r.0.order.items == body.items
                             && r.0.order.total == host.parseFloat(body.total)
  {
    if !HasRequiredFields(body) then
      (MissingFields(MissingFieldsError), store)
    else
      var order := Order(newId, body.customerName, body.customerEmail, body.customerPhone,
                         body.customerAddress, body.items, host.parseFloat(body.total), Pending, now);
      (Created(order, PlacedMessage), store + [order])
  }

  /** `['en_attente', 'payée', 'expédiée'].includes(status)` */
  predicate IsKnownStatus(status: Value)
  {
    status.Str? && status.s in Statuses
  }

  /** The first order with the given id, as Prisma's `update({where: {id}})` finds it. */
  function FindOrder(store: seq<Order>, id: string): (r: Option<nat>)
    ensures r.Some? ==> r.value < |store| && store[r.value].id == id
    ensures r.Some? ==> forall j :: 0 <= j < r.value ==> store[j].id != id
    ensures r.None? ==> forall j :: 0 <= j < |store| ==> store[j].id != id
  {
    Seqs.FirstIndex(store, (o: Order) => o.id == id)
  }

  /** `updateOrderStatus`: an unknown status is refused before the store is touched; a missing id makes Prisma throw. */
  function UpdateOrderStatus(store: seq<Order>, id: string, status: Value): (r: (StatusReply, seq<Order>))
    ensures !IsKnownStatus(status) ==> r.0 == InvalidStatus(InvalidStatusError) && r.1 == store
    ensures IsKnownStatus(status) && FindOrder(store, id).None? ==> r.0 == Failed(InternalError) && r.1 == store
    ensures r.0.Updated? <==> IsKnownStatus(status) && FindOrder(store, id).Some?
    ensures r.0.Updated? ==>
      var k := FindOrder(store, id).value;
      && |r.1| == |store|
      && r.1[k] == store[k].(status := status.s) && r.0.order == r.1[k]
      && forall j :: 0 <= j < |store| && j != k ==> r.1[j] == store[j]
  {
    if !IsKnownStatus(status) then (InvalidStatus(InvalidStatusError), store)
    else
      match FindOrder(store, id)
      case None => (Failed(InternalError), store)
      case Some(k) =>
        var updated := store[k].(status := status.s);
        (Updated(updated), store[k := updated])
  }

  /** Exactly the three whitelisted strings pass the status check. */
  lemma KnownStatuses(status: Value)
    ensures IsKnownStatus(status) <==> status in {Str(Pending), Str(Paid), Str(Shipped)}
  {
  }

  /** A status update with a known status and a stored id changes only the status of that one order. */
  lemma StatusUpdateOnlyChangesStatus(store: seq<Order>, id: string, s: string)
    requires s in Statuses
    requires exists j :: 0 <= j < |store| && store[j].id == id
    requires forall i, j :: 0 <= i < j < |store| ==> store[i].id != store[j].id
    ensures var r := UpdateOrderStatus(store, id, Str(s));
      && r.0.Updated? && r.0.order.status == s && r.0.order.id == id
      && |r.1| == |store|
      && forall j :: 0 <= j < |store| ==>
           if store[j].id == id then r.1[j] == store[j].(status := s) else r.1[j] == store[j]
  {
    var k := FindOrder(store, id).value;
    forall j | 0 <= j < |store| && j != k ensures store[j].id != id {
      if j < k { assert store[j].id != store[k].id; }
      else { assert store[k].id != store[j].id; }
    }
  }
}
