/** The database behind `db.session`: the committed contents of both tables,
    the auto-increment counters, and a commit that either applies the pending
    changes or, on an `IntegrityError`, rolls back and leaves everything as it was. */
module Database {
  import opened Models

  /** The committed state of the `customers` and `orders` tables. */
  datatype Db = Db(customers: map<Id, Customer>, orders: map<Id, Order>, nextCustomerId: Id, nextOrderId: Id)
  {
    /** Every stored key was issued by its table's counter (`autoincrement=True`),
        so the counter's value is never a key in use. */
    predicate IdsIssued() {
      && 1 <= nextCustomerId && 1 <= nextOrderId
      && (forall i :: i in customers ==> 1 <= i < nextCustomerId)
      && (forall k :: k in orders ==> 1 <= k < nextOrderId)
    }

    /** A state the engine can have committed. */
    predicate Valid() {
      IdsIssued() && Integrity(customers, orders)
    }

    /** The pending state after `db.session.add(Customer(...))`: the row takes the next key. */
    function AddCustomer(c: Customer): Db {
      this.(customers := customers[nextCustomerId := c], nextCustomerId := nextCustomerId + 1)
    }

    /** The pending state after the loaded customer `id` is given the columns of `c`. */
    function SetCustomer(id: Id, c: Customer): Db {
      this.(customers := customers[id := c])
    }

    /** The pending state after `db.session.delete(customer)`, cascading to its orders. */
    function DeleteCustomer(id: Id): Db {
      this.(customers := customers - {id}, orders := CascadeOrders(orders, id))
    }

    /** The pending state after `db.session.add(Order(...))`: the row takes the next key. */
    function AddOrder(o: Order): Db {
      this.(orders := orders[nextOrderId := o], nextOrderId := nextOrderId + 1)
    }
  }

  /** Both tables after `db.create_all()`. */
  const Empty: Db := Db(map[], map[], 1, 1)

  /** Whether `c` can be stored under key `id` (a new key, or the key it
      already has) without violating NOT NULL or UNIQUE against the other rows. */
  predicate Admissible(customers: map<Id, Customer>, id: Id, c: Customer) {
    NotNull(c) && forall j :: j in customers && j != id ==> Compatible(c, customers[j])
  }

  lemma CompatibleSymmetric(a: Customer, b: Customer)
    ensures Compatible(a, b) == Compatible(b, a)
  {
  }

  /** Writing customer `c` under key `id` commits exactly when `c` is admissible there. */
  lemma PutCustomerIntegrity(customers: map<Id, Customer>, orders: map<Id, Order>, id: Id, c: Customer)
    requires Integrity(customers, orders)
    ensures Integrity(customers[id := c], orders) <==> Admissible(customers, id, c)
  {
    var cs := customers[id := c];
    if Admissible(customers, id, c) {
      forall i, j | i in cs && j in cs && i != j
        ensures Compatible(cs[i], cs[j])
      {
        if i == id {
        } else if j == id {
          CompatibleSymmetric(c, customers[i]);
        }
      }
    } else if NotNull(c) {
      var j :| j in customers && j != id && !Compatible(c, customers[j]);
      assert id in cs && j in cs && !Compatible(cs[id], cs[j]);
      assert !UniqueColumns(cs);
    } else {
      assert id in cs && !NotNull(cs[id]);
    }
  }

  /** Adding a customer commits exactly when the row is admissible under its new key. */
  lemma AddCustomerIntegrity(s: Db, c: Customer)
    requires s.Valid()
    ensures s.AddCustomer(c).IdsIssued()
    ensures s.AddCustomer(c).Valid() <==> Admissible(s.customers, s.nextCustomerId, c)
  {
    PutCustomerIntegrity(s.customers, s.orders, s.nextCustomerId, c);
  }

  /** Changing a stored customer commits exactly when the new row is admissible at its key. */
  lemma SetCustomerIntegrity(s: Db, id: Id, c: Customer)
    requires s.Valid() && id in s.customers
    ensures s.SetCustomer(id, c).IdsIssued()
    ensures s.SetCustomer(id, c).Valid() <==> Admissible(s.customers, id, c)
  {
    PutCustomerIntegrity(s.customers, s.orders, id, c);
  }

  /** The cascade keeps the foreign keys: deleting a customer always commits. */
  lemma DeleteCustomerIntegrity(s: Db, id: Id)
    requires s.Valid()
    ensures s.DeleteCustomer(id).Valid()
  {
  }

  /** Adding an order commits exactly when it references a stored customer. */
  lemma AddOrderIntegrity(s: Db, o: Order)
    requires s.Valid()
    ensures s.AddOrder(o).IdsIssued()
    ensures s.AddOrder(o).Valid() <==> o.customerId in s.customers
  {
    assert s.nextOrderId in s.AddOrder(o).orders;
  }

  /** `rows` lists each key of `keys` exactly once: a query result in the
      engine's order (the queries give no ORDER BY). */
  predicate Enumerates(rows: seq<Id>, keys: set<Id>) {
    && (forall i, j :: 0 <= i < j < |rows| ==> rows[i] != rows[j])
    && (forall i :: 0 <= i < |rows| ==> rows[i] in keys)
    && (forall k :: k in keys ==> k in rows)
  }

  lemma {:induction false} EnumerationSize(rows: seq<Id>, keys: set<Id>)
    requires Enumerates(rows, keys)
    ensures |rows| == |keys|
  {
    if rows == [] {
      assert forall k :: k !in keys;
      assert keys == {};
    } else {
      var last := rows[|rows| - 1];
      var init := rows[..|rows| - 1];
      assert rows == init + [last];
      forall k
        ensures k in keys - {last} <==> k in init
      {
        if k in init {
          var i :| 0 <= i < |init| && init[i] == k;
          assert rows[i] != rows[|rows| - 1];
        }
      }
      EnumerationSize(init, keys - {last});
    }
  }

  /** `db.session` bound to the database: the committed rows and the counters. */
  class Session {
    var customers: map<Id, Customer>
    var orders: map<Id, Order>
    var nextCustomerId: Id
    var nextOrderId: Id

    function State(): Db
      reads this
    {
      Db(customers, orders, nextCustomerId, nextOrderId)
    }

    predicate Valid()
      reads this
    {
      State().Valid()
    }

    /** A session on freshly created, empty tables. */
    constructor ()
      ensures Valid() && State() == Empty
    {
      customers, orders := map[], map[];
      nextCustomerId, nextOrderId := 1, 1;
    }

    /** `db.session.get(Customer, id)`. */
    function Get(id: Id): Option<Customer>
      reads this
    {
      if id in customers then Some(customers[id]) else None
    }

    /** `db.session.commit()` of the pending state; when the engine raises
        `IntegrityError`, the caller's `db.session.rollback()` discards it. */
    method Commit(pending: Db) returns (ok: bool)
      requires Valid() && pending.IdsIssued()
      modifies this
      ensures ok == pending.Valid()
      ensures State() == if ok then pending else old(State())
      ensures Valid()
    {
      ok := Integrity(pending.customers, pending.orders);
      if ok {
        customers, orders := pending.customers, pending.orders;
        nextCustomerId, nextOrderId := pending.nextCustomerId, pending.nextOrderId;
      }
    }
  }
}
