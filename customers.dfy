/** The handlers of api/customers.py. Each handler that writes is a method on
    the session, proved equal to a function that states what the request does;
    the read-only handlers are functions of the committed state. */
module Customers {
  import opened Models
  import opened Http
  import opened Database

  /** The JSON body of a register or update request. */
  datatype CustomerFields = CustomerFields(name: Field<string>, phoneNumber: Field<string>, code: Field<string>)

  /** The state a request leaves and the response it gets. */
  datatype Outcome = Outcome(next: Db, response: Response)

  const RegisteredMessage := "Customer registered successfully"
  const DuplicateMessage := "Phone number or code already exists"
  const NotFoundMessage := "Customer not found"
  const UpdatedMessage := "Customer updated successfully"
  const UpdateFailedMessage := "Failed to update customer"
  const DeletedMessage := "Customer deleted successfully"

  /** `Customer(name=data.get("name"), phone_number=data.get("phone_number"), code=data.get("code"))`. */
  function NewCustomer(data: CustomerFields): Customer {
    Customer(Lookup(data.name), Lookup(data.phoneNumber), Lookup(data.code))
  }

  function RegisteredBody(id: Id): Json {
    JObject(map["message" := JString(RegisteredMessage), "customer_id" := JInt(id)])
  }

  /** `register_customer`. The row commits when every column is present and no
      stored customer shares its phone number or code; a missing column is an
      `IntegrityError` too, and gets the same 400 as a duplicate. */
  function RegisterResult(s: Db, data: CustomerFields): (r: Outcome)
    requires s.Valid()
    ensures r.next.Valid()
    ensures r.response.status == 201 || r.response.status == 400
    ensures r.response.status == 201 <==>
              NotNull(NewCustomer(data)) && forall j :: j in s.customers ==> Compatible(NewCustomer(data), s.customers[j])
    ensures r.response.status == 201 ==>
              && s.nextCustomerId !in s.customers
              && r.next.customers == s.customers[s.nextCustomerId := NewCustomer(data)]
              && r.next.orders == s.orders
              && r.response.body == RegisteredBody(s.nextCustomerId)
    ensures r.response.status == 400 ==> r == Outcome(s, Response(400, ErrorBody(DuplicateMessage)))
  {
    var c := NewCustomer(data);
    AddCustomerIntegrity(s, c);
    if s.AddCustomer(c).Valid() then
      Outcome(s.AddCustomer(c), Response(201, RegisteredBody(s.nextCustomerId)))
    else
      Outcome(s, Response(400, ErrorBody(DuplicateMessage)))
  }

  method RegisterCustomer(db: Session, data: CustomerFields) returns (response: Response)
    requires db.Valid()
    modifies db
    ensures db.Valid()
    ensures Outcome(db.State(), response) == RegisterResult(old(db.State()), data)
  {
    var customer := NewCustomer(data);
    var id := db.nextCustomerId;
    AddCustomerIntegrity(db.State(), customer);
    var committed := db.Commit(db.State().AddCustomer(customer));
    if committed {
      response := Response(201, RegisteredBody(id));
    } else {
      response := Response(400, ErrorBody(DuplicateMessage));
    }
  }

  /** The dictionary `view_customers` and `view_customer` build for a row. */
  function CustomerJson(id: Id, c: Customer): Json {
    JObject(CustomerToDict(id, c))
  }

  lemma CustomerJsonInjective(id1: Id, c1: Customer, id2: Id, c2: Customer)
    requires CustomerJson(id1, c1) == CustomerJson(id2, c2)
    ensures id1 == id2
  {
    assert CustomerJson(id1, c1).fields["id"] == JInt(id1);
  }

  /** `view_customers`: one four-field entry per stored customer, in the
      order `rows` in which the engine returns the table. */
  function ViewCustomers(s: Db, rows: seq<Id>): (r: Response)
    requires Enumerates(rows, s.customers.Keys)
    ensures r.status == 200 && r.body.JArray?
    ensures |r.body.items| == |s.customers|
    ensures forall id :: id in s.customers ==> CustomerJson(id, s.customers[id]) in r.body.items
    ensures forall i, j :: 0 <= i < j < |r.body.items| ==> r.body.items[i] != r.body.items[j]
  {
    var items := seq(|rows|, k requires 0 <= k < |rows| => CustomerJson(rows[k], s.customers[rows[k]]));
    EnumerationSize(rows, s.customers.Keys);
    assert |s.customers.Keys| == |s.customers|;
    ListingCovers(s.customers, rows, items);
    ListingDistinct(s.customers, rows, items);
    Response(200, JArray(items))
  }

  /** Every stored customer has its entry in a listing built from `rows`. */
  lemma ListingCovers(customers: map<Id, Customer>, rows: seq<Id>, items: seq<Json>)
    requires Enumerates(rows, customers.Keys) && |items| == |rows|
    requires forall k :: 0 <= k < |rows| ==> items[k] == CustomerJson(rows[k], customers[rows[k]])
    ensures forall id :: id in customers ==> CustomerJson(id, customers[id]) in items
  {
    forall id | id in customers
      ensures CustomerJson(id, customers[id]) in items
    {
      var k :| 0 <= k < |rows| && rows[k] == id;
      assert items[k] == CustomerJson(id, customers[id]);
    }
  }

  /** A listing built from distinct keys has no entry twice. */
  lemma ListingDistinct(customers: map<Id, Customer>, rows: seq<Id>, items: seq<Json>)
    requires Enumerates(rows, customers.Keys) && |items| == |rows|
    requires forall k :: 0 <= k < |rows| ==> items[k] == CustomerJson(rows[k], customers[rows[k]])
    ensures forall i, j :: 0 <= i < j < |items| ==> items[i] != items[j]
  {
    forall i, j | 0 <= i < j < |items|
      ensures items[i] != items[j]
    {
      if items[i] == items[j] {
        CustomerJsonInjective(rows[i], customers[rows[i]], rows[j], customers[rows[j]]);
      }
    }
  }

  /** `view_customer`: the row's dictionary, or 404. */
  function ViewCustomer(s: Db, id: Id): (r: Response)
    ensures r.status == 200 || r.status == 404
    ensures r.status == 200 <==> id in s.customers
    ensures r.status == 200 ==> r.body.JObject? && CustomerFromDict(r.body.fields) == Some((id, s.customers[id]))
    ensures r.status == 404 ==> r.body == ErrorBody(NotFoundMessage)
  {
    if id in s.customers then
      CustomerDictRoundTrip(id, s.customers[id]);
      Response(200, CustomerJson(id, s.customers[id]))
    else
      Response(404, ErrorBody(NotFoundMessage))
  }

  /** The loaded customer after `customer.x = data.get("x", customer.x)` for
      each column: a missing member keeps the column, `null` clears it. */
  function Merge(c: Customer, data: CustomerFields): (r: Customer)
    ensures data.name.Absent? ==> r.name == c.name
    ensures data.phoneNumber.Absent? ==> r.phoneNumber == c.phoneNumber
    ensures data.code.Absent? ==> r.code == c.code
    ensures data.name.Null? ==> r.name == None
    ensures data.phoneNumber.Null? ==> r.phoneNumber == None
    ensures data.code.Null? ==> r.code == None
    ensures data.name.Given? ==> r.name == Some(data.name.value)
    ensures data.phoneNumber.Given? ==> r.phoneNumber == Some(data.phoneNumber.value)
    ensures data.code.Given? ==> r.code == Some(data.code.value)
  {
    Customer(LookupOr(data.name, c.name), LookupOr(data.phoneNumber, c.phoneNumber), LookupOr(data.code, c.code))
  }

  /** `update_customer`. A conflicting phone number or code, or a column set
      to `null`, is an `IntegrityError`: rolled back, 500. */
  function UpdateResult(s: Db, id: Id, data: CustomerFields): (r: Outcome)
    requires s.Valid()
    ensures r.next.Valid()
    ensures id !in s.customers ==> r == Outcome(s, Response(404, ErrorBody(NotFoundMessage)))
    ensures id in s.customers ==> r.response.status == 200 || r.response.status == 500
    ensures id in s.customers ==>
              (r.response.status == 200 <==> Admissible(s.customers, id, Merge(s.customers[id], data)))
    ensures r.response.status == 200 ==>
              && r.next == s.(customers := s.customers[id := Merge(s.customers[id], data)])
              && r.response.body == MessageBody(UpdatedMessage)
    ensures r.response.status == 500 ==> r == Outcome(s, Response(500, ErrorBody(UpdateFailedMessage)))
  {
    if id !in s.customers then
      Outcome(s, Response(404, ErrorBody(NotFoundMessage)))
    else
      var c := Merge(s.customers[id], data);
      SetCustomerIntegrity(s, id, c);
      if s.SetCustomer(id, c).Valid() then
        Outcome(s.SetCustomer(id, c), Response(200, MessageBody(UpdatedMessage)))
      else
        Outcome(s, Response(500, ErrorBody(UpdateFailedMessage)))
  }

  method UpdateCustomer(db: Session, id: Id, data: CustomerFields) returns (response: Response)
    requires db.Valid()
    modifies db
    ensures db.Valid()
    ensures Outcome(db.State(), response) == UpdateResult(old(db.State()), id, data)
  {
    var customer := db.Get(id);
    if customer.None? {
      return Response(404, ErrorBody(NotFoundMessage));
    }
    var changed := Merge(customer.value, data);
    SetCustomerIntegrity(db.State(), id, changed);
    var committed := db.Commit(db.State().SetCustomer(id, changed));
    if committed {
      response := Response(200, MessageBody(UpdatedMessage));
    } else {
      response := Response(500, ErrorBody(UpdateFailedMessage));
    }
  }

  /** `delete_customer`: the row goes, and with it every order that references it. */
  function DeleteResult(s: Db, id: Id): (r: Outcome)
    requires s.Valid()
    ensures r.next.Valid()
    ensures id !in s.customers ==> r == Outcome(s, Response(404, ErrorBody(NotFoundMessage)))
    ensures id in s.customers ==>
              && r.response == Response(200, MessageBody(DeletedMessage))
              && r.next.customers == s.customers - {id}
              && (forall k :: k in r.next.orders <==> k in s.orders && s.orders[k].customerId != id)
              && (forall k :: k in r.next.orders ==> r.next.orders[k] == s.orders[k])
              && r.next.nextCustomerId == s.nextCustomerId && r.next.nextOrderId == s.nextOrderId
  {
    if id !in s.customers then
      Outcome(s, Response(404, ErrorBody(NotFoundMessage)))
    else
      DeleteCustomerIntegrity(s, id);
      Outcome(s.DeleteCustomer(id), Response(200, MessageBody(DeletedMessage)))
  }

  /** The source commits without a handler; the cascade keeps every foreign
      key, so the commit never fails. */
  method DeleteCustomer(db: Session, id: Id) returns (response: Response)
    requires db.Valid()
    modifies db
    ensures db.Valid()
    ensures Outcome(db.State(), response) == DeleteResult(old(db.State()), id)
  {
    var customer := db.Get(id);
    if customer.None? {
      return Response(404, ErrorBody(NotFoundMessage));
    }
    DeleteCustomerIntegrity(db.State(), id);
    var _ := db.Commit(db.State().DeleteCustomer(id));
    response := Response(200, MessageBody(DeletedMessage));
  }

  /** A registered customer reads back with exactly the columns it was registered with. */
  lemma RegisterThenView(s: Db, data: CustomerFields)
    requires s.Valid() && RegisterResult(s, data).response.status == 201
    ensures var v := ViewCustomer(RegisterResult(s, data).next, s.nextCustomerId);
            v.status == 200 && CustomerFromDict(v.body.fields) == Some((s.nextCustomerId, NewCustomer(data)))
  {
  }

  /** Registering again with the phone number or the code of a customer just
      registered gets 400 and changes nothing. */
  lemma DuplicateRegistration(s: Db, first: CustomerFields, second: CustomerFields)
    requires s.Valid() && RegisterResult(s, first).response.status == 201
    requires Lookup(second.phoneNumber) == Lookup(first.phoneNumber) || Lookup(second.code) == Lookup(first.code)
    ensures var t := RegisterResult(s, first).next;
            RegisterResult(t, second) == Outcome(t, Response(400, ErrorBody(DuplicateMessage)))
  {
    var t := RegisterResult(s, first).next;
    var id := s.nextCustomerId;
    assert id in t.customers && t.customers[id] == NewCustomer(first);
    assert !Compatible(NewCustomer(second), t.customers[id]);
  }

  /** Deleting the customer just registered restores both tables. */
  lemma RegisterThenDelete(s: Db, data: CustomerFields)
    requires s.Valid() && RegisterResult(s, data).response.status == 201
    ensures var d := DeleteResult(RegisterResult(s, data).next, s.nextCustomerId);
            d.response.status == 200 && d.next.customers == s.customers && d.next.orders == s.orders
  {
    var t := RegisterResult(s, data).next;
    var d := DeleteResult(t, s.nextCustomerId);
    assert s.nextCustomerId !in s.customers;
    assert d.next.orders == s.orders by {
      forall k | k in s.orders
        ensures s.orders[k].customerId != s.nextCustomerId
      {
      }
    }
  }

  /** An update with an empty payload succeeds and leaves the record as it was. */
  lemma EmptyUpdateKeepsRecord(s: Db, id: Id)
    requires s.Valid() && id in s.customers
    ensures UpdateResult(s, id, CustomerFields(Absent, Absent, Absent)) == Outcome(s, Response(200, MessageBody(UpdatedMessage)))
  {
  }

  /** Repeating an update changes nothing more. */
  lemma UpdateIdempotent(s: Db, id: Id, data: CustomerFields)
    requires s.Valid()
    ensures var t := UpdateResult(s, id, data).next;
            UpdateResult(t, id, data).next == t
  {
  }

  /** After a delete, the id is gone for view, update and delete alike. */
  lemma DeleteThenNotFound(s: Db, id: Id, data: CustomerFields)
    requires s.Valid() && id in s.customers
    ensures var t := DeleteResult(s, id).next;
            && ViewCustomer(t, id).status == 404
            && UpdateResult(t, id, data).response.status == 404
            && DeleteResult(t, id).response.status == 404
  {
  }
}
