/** The request sequences of the repository's tests, replayed against the
    handlers' contracts on a session over fresh tables. */
module Scenarios {
  import opened Models
  import opened Http
  import opened Database
  import opened Customers
  import opened Orders
  import opened Sms

  /** tests/test_customers.py: a second registration with the same data is refused. */
  method RegisterDuplicateCustomer() {
    var db := new Session();
    var data := CustomerFields(Given("John Doe"), Given("+25756098389"), Given("ABC123"));
    var first := RegisterCustomer(db, data);
    assert first == Response(201, RegisteredBody(1));
    var second := RegisterCustomer(db, data);
    assert second == Response(400, ErrorBody(DuplicateMessage));
    assert db.customers.Keys == {1};
  }

  /** tests/test_customers.py: the listing after one registration has one entry. */
  method ViewOneCustomer() {
    var db := new Session();
    var _ := RegisterCustomer(db, CustomerFields(Given("Jane Doe"), Given("+25756098388"), Given("DEF456")));
    assert db.customers.Keys == {1};
    var listing := ViewCustomers(db.State(), [1]);
    assert listing.status == 200 && |listing.body.items| == 1;
  }

  /** tests/test_orders.py: place an order and list it; then, as in
      tests/test_models.py, delete its customer and its order with it. */
  method PlaceViewAndCascade() {
    var db := new Session();
    var gateway := new Gateway("ORDERS");
    var registered := RegisterCustomer(db, CustomerFields(Given("Alice"), Given("+25756098389"), Given("XYZ789")));
    assert registered == Response(201, RegisteredBody(1));
    var placed := PlaceOrder(db, gateway, OrderFields(Given(1), Given("Laptop"), Given(150000)), 0, false);
    assert placed == Response(201, MessageBody(PlacedMessage));
    assert |gateway.attempts| == 1 && gateway.attempts[0].recipients == ["+25756098389"];
    assert db.orders.Keys == {1};
    var listing := ViewOrders(db.State(), 1, [1]);
    assert listing.status == 200 && |listing.body.items| == 1;
    var deleted := DeleteCustomer(db, 1);
    assert deleted.status == 200 && db.orders == map[];
    assert ViewOrders(db.State(), 1, []) == Response(404, MessageBody(NoOrdersMessage));
  }

  /** tests/test_orders.py: an order for an unknown customer is refused and nothing is stored or sent. */
  method PlaceOrderUnknownCustomer() {
    var db := new Session();
    var gateway := new Gateway("ORDERS");
    var placed := PlaceOrder(db, gateway, OrderFields(Given(999), Given("Laptop"), Given(150000)), 0, true);
    assert placed == Response(404, ErrorBody(CustomerNotFoundMessage));
    assert db.State() == Empty && gateway.attempts == [];
  }
}
