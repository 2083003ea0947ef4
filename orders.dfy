/** The handlers of api/orders.py: placing an order (validation, customer
    lookup, insert, then the confirmation SMS) and listing a customer's orders. */
module Orders {
  import opened Models
  import opened Http
  import opened Database
  import opened Sms
  import Decimal
  import Customers

  /** The JSON body of a place-order request. */
  datatype OrderFields = OrderFields(customerId: Field<Id>, item: Field<string>, amount: Field<Cents>)

  /** The state a placement leaves, its response, and the confirmation it
      hands to the SMS gateway, if any. */
  datatype Placement = Placement(next: Db, response: Response, notification: Option<Confirmation>)

  const PlacedMessage := "Order placed successfully!"
  const MissingMessage := "Missing order details"
  const CustomerNotFoundMessage := "Customer not found"
  const PlaceFailedMessage := "Error placing order"
  const NoOrdersMessage := "No orders found for this customer."

  /** `not customer_id or not item or not amount` is false: each member is
      present, not `null`, and not `0` or `""`. */
  predicate DetailsGiven(data: OrderFields) {
    TruthyInt(data.customerId) && TruthyText(data.item) && TruthyInt(data.amount)
  }

  /** `f"Item: {item}, Amount: {amount}"`. */
  function OrderDetails(item: string, amount: Cents): string {
    "Item: " + item + ", Amount: " + Decimal.AmountText(amount)
  }

  /** `place_order`. Validation comes before the lookup, the lookup before the
      insert, and the confirmation only after the commit. The insert always
      commits, since the one constraint it could break is the foreign key the
      lookup has just checked, so the `IntegrityError` branch (500) is never taken. */
  function PlaceOrderResult(s: Db, data: OrderFields, now: Timestamp): (r: Placement)
    requires s.Valid()
    ensures r.next.Valid()
    ensures r.response.status == 201 || r.response.status == 400 || r.response.status == 404
    ensures !DetailsGiven(data) ==> r == Placement(s, Response(400, ErrorBody(MissingMessage)), None)
    ensures DetailsGiven(data) && data.customerId.value !in s.customers ==>
              r == Placement(s, Response(404, ErrorBody(CustomerNotFoundMessage)), None)
    ensures r.response.status == 201 <==> DetailsGiven(data) && data.customerId.value in s.customers
    ensures r.response.status == 201 ==>
              var id := s.nextOrderId;
              var customer := s.customers[data.customerId.value];
              && id !in s.orders
              && r.next == s.(orders := s.orders[id := Order(data.customerId.value, data.item.value, data.amount.value, Some(now))],
                              nextOrderId := id + 1)
              && r.response.body == MessageBody(PlacedMessage)
              && customer.phoneNumber.Some? && customer.name.Some?
              && r.notification == Some(Confirmation(customer.phoneNumber.value, customer.name.value,
                                                     OrderDetails(data.item.value, data.amount.value)))
    ensures r.response.status != 201 ==> r.notification == None
  {
    if !DetailsGiven(data) then
      Placement(s, Response(400, ErrorBody(MissingMessage)), None)
    else if data.customerId.value !in s.customers then
      Placement(s, Response(404, ErrorBody(CustomerNotFoundMessage)), None)
    else
      var order := Order(data.customerId.value, data.item.value, data.amount.value, Some(now));
      AddOrderIntegrity(s, order);
      if s.AddOrder(order).Valid() then
        var customer := s.customers[data.customerId.value];
        var confirmation := Confirmation(customer.phoneNumber.value, customer.name.value,
                                         OrderDetails(data.item.value, data.amount.value));
        Placement(s.AddOrder(order), Response(201, MessageBody(PlacedMessage)), Some(confirmation))
      else
        Placement(s, Response(500, ErrorBody(PlaceFailedMessage)), None)
  }

  /** The gateway's log after a placement: one attempt exactly when the order committed. */
  function AttemptsAfter(log: seq<Attempt>, notification: Option<Confirmation>, sender: string, accepted: bool): seq<Attempt> {
    if notification.Some? then
      log + [Attempt(MessageText(notification.value), [notification.value.phoneNumber], sender, accepted)]
    else
      log
  }

  /** `accepted` is the gateway's answer; the response does not depend on it. */
  method PlaceOrder(db: Session, gateway: Gateway, data: OrderFields, now: Timestamp, accepted: bool)
    returns (response: Response)
    requires db.Valid()
    modifies db, gateway
    ensures db.Valid()
    ensures var r := PlaceOrderResult(old(db.State()), data, now);
            && db.State() == r.next
            && response == r.response
            && gateway.attempts == AttemptsAfter(old(gateway.attempts), r.notification, gateway.senderId, accepted)
  {
    if !DetailsGiven(data) {
      return Response(400, ErrorBody(MissingMessage));
    }
    var customerId := data.customerId.value;
    var customer := db.Get(customerId);
    if customer.None? {
      return Response(404, ErrorBody(CustomerNotFoundMessage));
    }
    var order := Order(customerId, data.item.value, data.amount.value, Some(now));
    AddOrderIntegrity(db.State(), order);
    var committed := db.Commit(db.State().AddOrder(order));
    if committed {
      var details := OrderDetails(data.item.value, data.amount.value);
      var confirmation := Confirmation(customer.value.phoneNumber.value, customer.value.name.value, details);
      var _ := gateway.SendOrderConfirmation(confirmation, accepted);
      response := Response(201, MessageBody(PlacedMessage));
    } else {
      response := Response(500, ErrorBody(PlaceFailedMessage));
    }
  }

  /** `Order.query.filter_by(customer_id=customerId)`. */
  function OrdersOf(orders: map<Id, Order>, customerId: Id): set<Id> {
    set k | k in orders && orders[k].customerId == customerId
  }

  /** The dictionary `view_orders` builds for a row: `to_dict` without
      `customer_id`, and `str(order.time)`, which reads "None" when the
      timestamp is unset. */
  function OrderSummary(id: Id, o: Order): (r: Json)
    ensures r.JObject? && r.fields.Keys == OrderKeys - {"customer_id"}
    ensures forall k :: k in r.fields && k != "time" ==> r.fields[k] == OrderToDict(id, o)[k]
    ensures r.fields["time"] == JString("None") <==> o.time.None?
  {
    JObject(map[
      "id" := JInt(id),
      "item" := JString(o.item),
      "amount" := JDecimal(o.amount),
      "time" := if o.time.Some? then JTime(o.time.value) else JString("None")
    ])
  }

  lemma OrderSummaryInjective(id1: Id, o1: Order, id2: Id, o2: Order)
    requires OrderSummary(id1, o1) == OrderSummary(id2, o2)
    ensures id1 == id2
  {
    assert OrderSummary(id1, o1).fields["id"] == JInt(id1);
  }

  /** `view_orders`: one entry per order of the customer, in the order `rows`
      in which the engine returns them; 404 when there are none. */
  function ViewOrders(s: Db, customerId: Id, rows: seq<Id>): (r: Response)
    requires Enumerates(rows, OrdersOf(s.orders, customerId))
    ensures r.status == 200 || r.status == 404
    ensures r.status == 200 <==> exists k :: k in s.orders && s.orders[k].customerId == customerId
    ensures r.status == 404 ==> r.body == MessageBody(NoOrdersMessage)
    ensures r.status == 200 ==>
              && r.body.JArray?
              && |r.body.items| == |OrdersOf(s.orders, customerId)|
              && (forall k :: k in s.orders && s.orders[k].customerId == customerId ==>
                                OrderSummary(k, s.orders[k]) in r.body.items)
              && (forall i, j :: 0 <= i < j < |r.body.items| ==> r.body.items[i] != r.body.items[j])
  {
    var matching := OrdersOf(s.orders, customerId);
    EnumerationSize(rows, matching);
    if rows == [] then
      assert forall k :: k in s.orders && s.orders[k].customerId == customerId ==> k in matching;
      Response(404, MessageBody(NoOrdersMessage))
    else
      assert rows[0] in matching;
      var items := seq(|rows|, i requires 0 <= i < |rows| => OrderSummary(rows[i], s.orders[rows[i]]));
      assert forall k :: k in s.orders && s.orders[k].customerId == customerId ==> OrderSummary(k, s.orders[k]) in items by {
        forall k | k in s.orders && s.orders[k].customerId == customerId
          ensures OrderSummary(k, s.orders[k]) in items
        {
          assert k in matching;
          var i :| 0 <= i < |rows| && rows[i] == k;
          assert items[i] == OrderSummary(k, s.orders[k]);
        }
      }
      assert forall i, j :: 0 <= i < j < |items| ==> items[i] != items[j] by {
        forall i, j | 0 <= i < j < |items|
          ensures items[i] != items[j]
        {
          if items[i] == items[j] {
            OrderSummaryInjective(rows[i], s.orders[rows[i]], rows[j], s.orders[rows[j]]);
          }
        }
      }
      Response(200, JArray(items))
  }

  /** A placed order shows up in its customer's listing. */
  lemma PlaceThenView(s: Db, data: OrderFields, now: Timestamp, rows: seq<Id>)
    requires s.Valid() && PlaceOrderResult(s, data, now).response.status == 201
    requires Enumerates(rows, OrdersOf(PlaceOrderResult(s, data, now).next.orders, data.customerId.value))
    ensures var t := PlaceOrderResult(s, data, now).next;
            var v := ViewOrders(t, data.customerId.value, rows);
            && v.status == 200
            && OrderSummary(s.nextOrderId, Order(data.customerId.value, data.item.value, data.amount.value, Some(now))) in v.body.items
  {
    var t := PlaceOrderResult(s, data, now).next;
    assert s.nextOrderId in t.orders && t.orders[s.nextOrderId].customerId == data.customerId.value;
  }

  /** After `delete_customer` removes a customer, its listing is the
      "No orders found" 404. */
  lemma DeleteThenNoOrders(s: Db, id: Id)
    requires s.Valid() && id in s.customers
    ensures var d := Customers.DeleteResult(s, id);
            && d.response.status == 200
            && OrdersOf(d.next.orders, id) == {}
            && ViewOrders(d.next, id, []) == Response(404, MessageBody(NoOrdersMessage))
  {
  }

  /** The confirmation goes to the customer's stored phone number, greets the
      stored name, and carries the item and an amount text that reads back
      to the exact amount. */
  lemma ConfirmationDescribesOrder(s: Db, data: OrderFields, now: Timestamp)
    requires s.Valid() && PlaceOrderResult(s, data, now).notification.Some?
    ensures var n := PlaceOrderResult(s, data, now).notification.value;
            var customer := s.customers[data.customerId.value];
            && Some(n.phoneNumber) == customer.phoneNumber
            && MessageText(n) == "Hello " + customer.name.value + ", your order has been placed. Details: Item: "
                                 + data.item.value + ", Amount: " + Decimal.AmountText(data.amount.value)
            && Decimal.ParseAmount(Decimal.AmountText(data.amount.value)) == Some(data.amount.value)
  {
    Decimal.AmountTextRoundTrip(data.amount.value);
  }
}
