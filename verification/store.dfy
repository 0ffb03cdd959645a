/** The two entities of the booking tool and the storage layer behind them,
    seen only through the accessors the route handlers call: `get` by id,
    `save` of a record that already has an id, and `save` of a new
    reservation, which the storage layer gives a fresh id. */
module Store {
  import opened Results

  type Id = int

  /** A submitted form value; `None` is a field the form did not send. */
  type Field = Option<string>

  datatype Customer = Customer(id: Id, firstName: Field, lastName: Field, phone: Field, notes: Field)

  /** The value `new Date(text)` builds from a submitted text. Its calendar
      meaning is not modelled: two dates are equal when built from the
      same text. */
  datatype Date = DateFrom(text: Field)

  datatype Reservation = Reservation(id: Id, customerId: Id, startAt: Date, numGuests: Field, notes: Field)

  datatype Tables = Tables(customers: map<Id, Customer>, reservations: map<Id, Reservation>)

  /** Every row is stored under its own id. */
  predicate WellKeyed(t: Tables)
  {
    && (forall k :: k in t.customers ==> t.customers[k].id == k)
    && (forall k :: k in t.reservations ==> t.reservations[k].id == k)
  }

  /** The storage contents. */
  type Db = t: Tables | WellKeyed(t) witness Tables(map[], map[])

  /** `Customer.get(id)`: the stored customer, or a not-found error. */
  function GetCustomer(db: Db, id: Id): (r: Result<Customer>)
    ensures r.Ok? <==> id in db.customers
    ensures r.Ok? ==> r.value == db.customers[id] && r.value.id == id
    ensures r.Err? ==> r.error == CustomerNotFound(id)
  {
    if id in db.customers then Ok(db.customers[id]) else Err(CustomerNotFound(id))
  }

  /** `Reservation.get(id)`: the stored reservation, or a not-found error. */
  function GetReservation(db: Db, id: Id): (r: Result<Reservation>)
    ensures r.Ok? <==> id in db.reservations
    ensures r.Ok? ==> r.value == db.reservations[id] && r.value.id == id
    ensures r.Err? ==> r.error == ReservationNotFound(id)
  {
    if id in db.reservations then Ok(db.reservations[id]) else Err(ReservationNotFound(id))
  }

  /** `customer.save()` for a customer that already has a row: that row is
      overwritten unless the storage layer reports `failure`. */
  function SaveCustomer(db: Db, c: Customer, failure: Option<Error>): (r: Result<Db>)
    requires c.id in db.customers
    ensures failure.Some? ==> r == Err(failure.value)
    ensures failure.None? ==> r.Ok?
    ensures r.Ok? ==> r.value.customers.Keys == db.customers.Keys && r.value.customers[c.id] == c
    ensures r.Ok? ==> forall k :: k in db.customers && k != c.id ==> r.value.customers[k] == db.customers[k]
    ensures r.Ok? ==> r.value.reservations == db.reservations
  {
    if failure.Some? then Err(failure.value)
    else var d: Db := db.(customers := db.customers[c.id := c]); Ok(d)
  }

  /** `reservation.save()` for a reservation that already has a row. */
  function SaveReservation(db: Db, v: Reservation, failure: Option<Error>): (r: Result<Db>)
    requires v.id in db.reservations
    ensures failure.Some? ==> r == Err(failure.value)
    ensures failure.None? ==> r.Ok?
    ensures r.Ok? ==> r.value.reservations.Keys == db.reservations.Keys && r.value.reservations[v.id] == v
    ensures r.Ok? ==> forall k :: k in db.reservations && k != v.id ==> r.value.reservations[k] == db.reservations[k]
    ensures r.Ok? ==> r.value.customers == db.customers
  {
    if failure.Some? then Err(failure.value)
    else var d: Db := db.(reservations := db.reservations[v.id := v]); Ok(d)
  }

  /** `reservation.save()` for a new reservation: the storage layer stores it
      under the unused id `newId` unless it reports `failure`. */
  function InsertReservation(db: Db, newId: Id, customerId: Id, startAt: Date, numGuests: Field,
                             notes: Field, failure: Option<Error>): (r: Result<Db>)
    requires newId !in db.reservations
    ensures failure.Some? ==> r == Err(failure.value)
    ensures failure.None? ==> r.Ok?
    ensures r.Ok? ==> r.value.reservations.Keys == db.reservations.Keys + {newId}
    ensures r.Ok? ==> r.value.reservations[newId] == Reservation(newId, customerId, startAt, numGuests, notes)
    ensures r.Ok? ==> forall k :: k in db.reservations ==> r.value.reservations[k] == db.reservations[k]
    ensures r.Ok? ==> r.value.customers == db.customers
  {
    if failure.Some? then Err(failure.value)
    else
      var d: Db := db.(reservations := db.reservations[newId := Reservation(newId, customerId, startAt, numGuests, notes)]);
      Ok(d)
  }

  /** Fetching a customer and saving it back without changes leaves the
      storage as it was. */
  lemma SaveFetchedCustomerIsNoOp(db: Db, id: Id)
    requires GetCustomer(db, id).Ok?
    ensures SaveCustomer(db, GetCustomer(db, id).value, None) == Ok(db)
  {
    assert db.customers[id := db.customers[id]] == db.customers;
  }

  /** Fetching a reservation and saving it back without changes leaves the
      storage as it was. */
  lemma SaveFetchedReservationIsNoOp(db: Db, id: Id)
    requires GetReservation(db, id).Ok?
    ensures SaveReservation(db, GetReservation(db, id).value, None) == Ok(db)
  {
    assert db.reservations[id := db.reservations[id]] == db.reservations;
  }

  /** A reservation inserted under a fresh id is what a later `get` of that
      id returns, with every attribute it was built from. */
  lemma InsertThenGet(db: Db, newId: Id, customerId: Id, startAt: Date, numGuests: Field, notes: Field)
    requires newId !in db.reservations
    ensures var r := InsertReservation(db, newId, customerId, startAt, numGuests, notes, None);
      r.Ok? && GetReservation(r.value, newId) == Ok(Reservation(newId, customerId, startAt, numGuests, notes))
  {
  }
}
