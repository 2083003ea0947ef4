# make-an-order: the customer and order store, in Dafny

This project models the order-management backend's data core. That core is two tables:
- customers: name, phone number and a secondary code;
- orders: a customer reference, an item, an amount and a timestamp.

The HTTP handlers that read and change the two tables are modelled with it, and the model proves the rules the code relies on:
- phone numbers and codes are unique;
- customer columns are never NULL;
- every order references a stored customer;
- deleting a customer deletes its orders;
- updates are partial;
- a failed commit leaves the database unchanged;
- order placement validates before it looks up or inserts;
- the order listing is a filter on the customer id.

The modules follow the source files:

- `Models` (models.py): the rows, the column constraints as one `Integrity` predicate, and `to_dict` for both tables. Each `to_dict` has an inverse that accepts exactly the dictionary `to_dict` builds.
- `Database`: the `db.session` the handlers share. `Db` is a value holding both tables and the two auto-increment counters. `Session` is a class with those four fields.
  - `Session.Commit` either installs the pending state or, when the engine would raise `IntegrityError`, changes nothing. The second case is the handler's `db.session.rollback()`.
  - The `...Integrity` lemmas say exactly when each kind of pending change commits.
- `Customers` (api/customers.py) and `Orders` (api/orders.py): the handlers.
  - Each handler that writes is a pure function `XResult(state, request)`. Its contract states the status codes, the new state and the response body. The function is paired with a `Session` method that performs the add, commit and rollback steps. That method is proved to produce exactly what the function says.
  - The read-only handlers are functions of the committed state. The engine returns rows in no fixed order (the queries have no ORDER BY), so that order is a parameter `rows`. `rows` must list every matching key exactly once.
- `Sms` (services/sms_service.py): the confirmation text, and a `Gateway` class that logs every send attempt.
  - Whether the network call succeeds is an input to the send, which returns `None` on failure.
  - `PlaceOrder` ignores that result, so its response cannot depend on it.
- `Decimal`: how the amount is printed inside the SMS, with a proof that the text reads back to the exact amount.
- `Scenarios`: the request sequences of tests/test_customers.py, tests/test_orders.py and tests/test_models.py, checked against the handlers' contracts.

Where the documented design and the code differ, this model follows the code:
- An update with an empty payload is not rejected. It returns 200 and changes nothing (`EmptyUpdateKeepsRecord`).
- A uniqueness violation on update returns 500, not 400.
- The place-order response has no `sms_status` field and no order id.
- There is no "list all orders" route, and no route to update or delete an order.
- A registration with an empty string for a field is accepted (201): NOT NULL forbids only NULL, and the code does not reject "".
- A registration with a missing or `null` field is stopped by the NOT NULL constraint at commit, not by validation. It gets the same 400 "Phone number or code already exists" as a duplicate.
- In an update, a field set to JSON `null` clears the column. The commit then fails, so the update gets 500.
- `place_order`'s `IntegrityError` branch (500) is kept in the model. It is proved unreachable: the only constraint the insert could break is the foreign key, and the lookup has just checked it.

## Model

| member | source | states |
|---|---|---|
| `Models.CustomerToDict` | models.py:32-38 | the dictionary has exactly the keys `id`, `name`, `phone_number`, `code`; `id` is the row's id and each column reads back as the value it holds, NULL as null |
| `Models.OrderToDict` | models.py:66-73 | the dictionary has exactly the keys `id`, `customer_id`, `item`, `amount`, `time`, each holding that column; `time` is null exactly when the timestamp is unset |
| `Models.CustomerFromDict` | models.py:32-38 | a dictionary that reads back as a customer has exactly the keys `id`, `name`, `phone_number`, `code`, and it is the one `to_dict` builds for that row |
| `Models.CustomerDictRoundTrip` | models.py:32-38 | `Customer.to_dict` holds the row's id and its three stored columns, and nothing else |
| `Models.OrderFromDict` | models.py:66-73 | a dictionary that reads back as an order has exactly the keys `id`, `customer_id`, `item`, `amount`, `time`, and it is the one `to_dict` builds |
| `Models.OrderDictRoundTrip` | models.py:66-73 | `Order.to_dict` holds the row's id and columns; `time` is null exactly when the timestamp is unset |
| `Database.PutCustomerIntegrity` | models.py:22-24 | writing a customer under a key keeps NOT NULL and UNIQUE on phone number and code exactly when the row has every column and shares no phone number or code with another row |
| `Database.AddCustomerIntegrity` | models.py:21-24 | a new customer takes the counter's key, which is not in use, and commits exactly when it is admissible |
| `Database.SetCustomerIntegrity` | models.py:22-24 | changing a stored customer commits exactly when the new columns are admissible against the other rows |
| `Database.DeleteCustomerIntegrity` | models.py:27 | removing a customer together with its orders (cascade) keeps every constraint, so the delete commits |
| `Database.AddOrderIntegrity` | models.py:57-58 | a new order takes the counter's key and satisfies the foreign key exactly when its customer is stored |
| `Database.Session.Commit` | api/customers.py:20-24 | a commit succeeds exactly when the pending state satisfies every constraint; on failure the state after rollback is the state before |
| `Database.Session.constructor` | tests/test_models.py:17 | a session over freshly created tables: both empty, counters at 1 |
| `Customers.RegisterResult` | api/customers.py:12-24 | 201 with the new id exactly when all three fields are present and no stored customer has the phone number or code; then exactly one row is added under a key not in use, and orders are unchanged. Otherwise 400 and nothing changes |
| `Customers.RegisterCustomer` | api/customers.py:17-24 | add, commit, rollback on `IntegrityError`: the new state and response are those of `RegisterResult` |
| `Customers.ViewCustomers` | api/customers.py:31-40 | 200 and a list with one four-field entry per stored customer: as many entries as customers, each stored customer's entry present, no entry twice |
| `Customers.ViewCustomer` | api/customers.py:47-56 | 200 exactly when the id is stored, with a body that reads back as that row; otherwise 404 "Customer not found" |
| `Customers.Merge` | api/customers.py:67-69 | for each column: a missing payload member keeps the stored value, `null` clears it, and a given value replaces it |
| `Customers.UpdateResult` | api/customers.py:63-76 | 404 and nothing changed for an unknown id. Otherwise each column takes the payload value if present and keeps its value if not. 200 with only that row changed exactly when the result is admissible; 500 and nothing changed otherwise |
| `Customers.UpdateCustomer` | api/customers.py:63-76 | lookup, field assignment, commit or rollback: the new state and response are those of `UpdateResult` |
| `Customers.DeleteResult` | api/customers.py:83-88 | 404 and nothing changed for an unknown id. Otherwise 200: the customer is removed, every order of that customer is removed, and every other order is kept unchanged |
| `Customers.DeleteCustomer` | api/customers.py:83-88 | session delete and commit, which cannot fail: the new state and response are those of `DeleteResult` |
| `Customers.RegisterThenView` | tests/test_models.py:28-38 | a registered customer reads back under its new id with exactly the registered columns |
| `Customers.DuplicateRegistration` | tests/test_customers.py:22-27 | after a registration, registering with the same phone number or code gets 400 and changes nothing |
| `Customers.RegisterThenDelete` | api/customers.py:86-88 | deleting the customer just registered restores both tables |
| `Customers.EmptyUpdateKeepsRecord` | api/customers.py:67-73 | an update with an empty payload returns 200 and leaves the state unchanged |
| `Customers.UpdateIdempotent` | api/customers.py:67-69 | repeating an update changes nothing further |
| `Customers.DeleteThenNotFound` | api/customers.py:83-85 | after a delete, viewing, updating and deleting that id all get 404 |
| `Orders.PlaceOrderResult` | api/orders.py:18-48 | 400 and nothing changed if any of customer id, item or amount is missing or falsy, even when the customer exists; then 404 and nothing changed for an unknown customer; otherwise 201. On 201 exactly one order with the given fields is added under a key not in use, and one confirmation is addressed to the customer's stored phone number and name. Never 500 |
| `Orders.PlaceOrder` | api/orders.py:18-48 | the state and response are those of `PlaceOrderResult` whatever the gateway answers; the gateway gets one attempt exactly when the order committed |
| `Orders.OrderSummary` | api/orders.py:59-64 | the listing entry is `to_dict` without `customer_id`: `id`, `item` and `amount` as there, and `time` reads "None" exactly when the timestamp is unset |
| `Orders.ViewOrders` | api/orders.py:56-67 | 200 exactly when the customer has orders, listing one summary per order of that customer and no other entry; otherwise 404 "No orders found for this customer." |
| `Orders.PlaceThenView` | tests/test_orders.py:34-39 | a placed order appears in its customer's listing |
| `Orders.DeleteThenNoOrders` | models.py:27 | after `delete_customer` succeeds on a stored customer, that customer has no orders and its listing is the 404 message |
| `Orders.ConfirmationDescribesOrder` | api/orders.py:38-43 | the confirmation text is "Hello {name}, your order has been placed. Details: Item: {item}, Amount: {amount}", sent to the stored phone number, and the amount text reads back to the exact amount |
| `Sms.Gateway.SendOrderConfirmation` | services/sms_service.py:16-29 | one attempt to the customer's phone number with the confirmation text and the sender id; a receipt when the gateway accepts, `None` when it fails |
| `Decimal.AmountTextRoundTrip` | api/orders.py:38 | the amount printed in the order details parses back to the exact amount in hundredths |

## Left out

- Flask routing, `request.json` parsing and `jsonify` encoding: a request body is a record of `Field`s and a response is a status with a JSON value. A body that is not a JSON object, or a member of the wrong JSON type, is not modelled.
- The SQL engine and SQLAlchemy's session: the committed state is a value and a commit either applies or changes nothing. Column length limits (`String(255)`, `String(15)`, `String(50)`) and the range of `Numeric(10, 2)` are not modelled; the in-memory SQLite test database does not enforce them.
- Auto-increment ids come from a counter that advances only on a successful commit and never reuses a key. Engines differ: SQLite without `AUTOINCREMENT` reuses the highest deleted key (register, delete 1, register gives id 1, where the model gives 2), and MySQL spends an id on a failed insert. The one fact true on every engine is that the new id is not in use. The range of `db.Integer` is not modelled: ids are unbounded integers.
- Concurrency: each request runs alone. In particular a customer deleted between `place_order`'s lookup and its commit, the one way that handler's 500 branch could be taken, is outside the model.
- `amount` is integer hundredths. The float conversions in `to_dict` and in `view_orders` are not modelled, and neither is the rounding of more than two fractional digits on input.
- Decimal.AmountText: renders the amount as Python's `str` does for a float with fewer than sixteen significant digits; an amount sent as a JSON integer (printed without ".0") and exponent notation for huge amounts are not modelled.
- Models.Compatible: uniqueness of `phone_number` and `code` is exact string equality, as in SQLite and PostgreSQL. The configured engine is MySQL (config.py), whose default collation ignores case and trailing spaces; there, registering code "abc123" after "ABC123" is a duplicate (400), while the model gives 201.
- Timestamps are opaque: the server default `now()` is the `now` parameter of placement; `isoformat()` and `str()` renderings are not modelled beyond `str(None)` giving "None".
- `Customer.__repr__` and `Order.__repr__`: debug text only.
- The SMS SDK, its configuration and the `print` logging: the gateway is an abstract call whose success is an input.
- Authentication (auth/auth_routes.py, auth/auth_middleware.py): the `login_required` guard is commented out on the order routes and not applied to the customer routes.
- Process start-up and database creation (app.py, config.py, services/database_service.py): configuration and I/O.
