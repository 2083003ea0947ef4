/** The two tables of models.py, the column constraints the database engine
    enforces on them, and the dictionaries `to_dict` builds from a row. */
module Models {

  datatype Option<+T> = None | Some(value: T)

  /** Primary and foreign keys, `db.Integer`. */
  type Id = int

  /** `db.Numeric(10, 2)`: an amount with two fractional digits, counted in hundredths. */
  type Cents = int

  /** `db.DateTime`: a moment, kept opaque. */
  type Timestamp = nat

  /** A row of `customers` as the session holds it. A column may hold NULL
      until the engine checks the NOT NULL constraints at commit. */
  datatype Customer = Customer(name: Option<string>, phoneNumber: Option<string>, code: Option<string>)

  /** A row of `orders`; `time` stays NULL unless the server default filled it. */
  datatype Order = Order(customerId: Id, item: string, amount: Cents, time: Option<Timestamp>)

  /** `nullable=False` on `name`, `phone_number` and `code`. */
  predicate NotNull(c: Customer) {
    c.name.Some? && c.phoneNumber.Some? && c.code.Some?
  }

  /** Two rows may coexist under `unique=True` on `phone_number` and on
      `code`; as in SQL, NULL never collides with anything. */
  predicate Compatible(a: Customer, b: Customer) {
    && (a.phoneNumber.None? || a.phoneNumber != b.phoneNumber)
    && (a.code.None? || a.code != b.code)
  }

  predicate UniqueColumns(customers: map<Id, Customer>) {
    forall i, j :: i in customers && j in customers && i != j ==> Compatible(customers[i], customers[j])
  }

  /** `db.ForeignKey('customers.id')` on `orders.customer_id`. */
  predicate ForeignKeys(customers: map<Id, Customer>, orders: map<Id, Order>) {
    forall k :: k in orders ==> orders[k].customerId in customers
  }

  /** What the engine checks at commit; a violation raises `IntegrityError`. */
  predicate Integrity(customers: map<Id, Customer>, orders: map<Id, Order>) {
    && (forall i :: i in customers ==> NotNull(customers[i]))
    && UniqueColumns(customers)
    && ForeignKeys(customers, orders)
  }

  /** The orders left after `cascade='all, delete'` removes customer `id`. */
  function CascadeOrders(orders: map<Id, Order>, id: Id): map<Id, Order> {
    map k | k in orders && orders[k].customerId != id :: orders[k]
  }

  /** JSON values, as `jsonify` renders them. `JDecimal` is a number with two
      fractional digits; `JTime` a rendered timestamp. */
  datatype Json =
    | JNull
    | JInt(i: int)
    | JDecimal(cents: Cents)
    | JString(s: string)
    | JTime(t: Timestamp)
    | JArray(items: seq<Json>)
    | JObject(fields: map<string, Json>)

  function TextJson(v: Option<string>): Json {
    if v.Some? then JString(v.value) else JNull
  }

  /** The inverse of TextJson: None when `j` is neither a string nor null. */
  function JsonText(j: Json): (r: Option<Option<string>>)
    ensures r.Some? ==> TextJson(r.value) == j
  {
    match j
    case JNull => Some(None)
    case JString(s) => Some(Some(s))
    case _ => None
  }

  function TimeJson(t: Option<Timestamp>): Json {
    if t.Some? then JTime(t.value) else JNull
  }

  /** The inverse of TimeJson. */
  function JsonTime(j: Json): (r: Option<Option<Timestamp>>)
    ensures r.Some? ==> TimeJson(r.value) == j
  {
    match j
    case JNull => Some(None)
    case JTime(t) => Some(Some(t))
    case _ => None
  }

  const CustomerKeys: set<string> := {"id", "name", "phone_number", "code"}

  /** `Customer.to_dict`: the id and the three columns under their column
      names, each column readable back as the value it holds, NULL as null. */
  function CustomerToDict(id: Id, c: Customer): (r: map<string, Json>)
    ensures r.Keys == CustomerKeys
    ensures r["id"] == JInt(id)
    ensures JsonText(r["name"]) == Some(c.name)
    ensures JsonText(r["phone_number"]) == Some(c.phoneNumber)
    ensures JsonText(r["code"]) == Some(c.code)
  {
    map[
      "id" := JInt(id),
      "name" := TextJson(c.name),
      "phone_number" := TextJson(c.phoneNumber),
      "code" := TextJson(c.code)
    ]
  }

  /** Reads a customer back from a dictionary with exactly the keys of
      `Customer.to_dict`; the dictionary it accepts is the one `to_dict` builds. */
  function CustomerFromDict(d: map<string, Json>): (r: Option<(Id, Customer)>)
    ensures r.Some? ==> CustomerToDict(r.value.0, r.value.1) == d
  {
    if d.Keys == CustomerKeys && d["id"].JInt?
       && JsonText(d["name"]).Some? && JsonText(d["phone_number"]).Some? && JsonText(d["code"]).Some?
    then
      var r := (d["id"].i, Customer(JsonText(d["name"]).value, JsonText(d["phone_number"]).value, JsonText(d["code"]).value));
      assert CustomerToDict(r.0, r.1).Keys == d.Keys;
      Some(r)
    else None
  }

  /** `Customer.to_dict` holds exactly the row's id and columns. */
  lemma CustomerDictRoundTrip(id: Id, c: Customer)
    ensures CustomerFromDict(CustomerToDict(id, c)) == Some((id, c))
  {
  }

  const OrderKeys: set<string> := {"id", "customer_id", "item", "amount", "time"}

  /** `Order.to_dict`: the id and every column; `time` is null exactly when
      the timestamp is unset. */
  function OrderToDict(id: Id, o: Order): (r: map<string, Json>)
    ensures r.Keys == OrderKeys
    ensures r["id"] == JInt(id) && r["customer_id"] == JInt(o.customerId)
    ensures r["item"] == JString(o.item) && r["amount"] == JDecimal(o.amount)
    ensures JsonTime(r["time"]) == Some(o.time)
    ensures r["time"] == JNull <==> o.time.None?
  {
    map[
      "id" := JInt(id),
      "customer_id" := JInt(o.customerId),
      "item" := JString(o.item),
      "amount" := JDecimal(o.amount),
      "time" := TimeJson(o.time)
    ]
  }

  /** Reads an order back from a dictionary with exactly the keys of `Order.to_dict`. */
  function OrderFromDict(d: map<string, Json>): (r: Option<(Id, Order)>)
    ensures r.Some? ==> OrderToDict(r.value.0, r.value.1) == d
  {
    if d.Keys == OrderKeys && d["id"].JInt? && d["customer_id"].JInt? && d["item"].JString?
       && d["amount"].JDecimal? && JsonTime(d["time"]).Some?
    then
      var r := (d["id"].i, Order(d["customer_id"].i, d["item"].s, d["amount"].cents, JsonTime(d["time"]).value));
      assert OrderToDict(r.0, r.1).Keys == d.Keys;
      Some(r)
    else None
  }

  /** `Order.to_dict` holds exactly the row's id and columns. */
  lemma OrderDictRoundTrip(id: Id, o: Order)
    ensures OrderFromDict(OrderToDict(id, o)) == Some((id, o))
  {
  }
}
