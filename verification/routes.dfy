/** The form-handling routes of the booking tool as pure transitions: each
    handler takes the storage contents, the path parameters and the form
    body, and gives the storage contents afterwards together with the
    response. A thrown error is passed to Express's `next`, which the model
    writes as `Forward`; in that case nothing was written. */
module Routes {
  import opened Results
  import opened Names
  import opened Decimal
  import opened Store

  /** What a handler answers. */
  datatype Response =
    | Redirect(location: string)
    | Render(view: string, customer: Customer)
    | Forward(error: Error)

  datatype Step = Step(db: Db, response: Response)

  datatype CustomerForm = CustomerForm(firstName: Field, lastName: Field, phone: Field, notes: Field)
  datatype ReservationForm = ReservationForm(startAt: Field, numGuests: Field, notes: Field)
  datatype SearchForm = SearchForm(customer: Field)

  /** The customer id that the detail page `GET /:id` reads from `location`:
      the text after the leading "/", without an optional trailing "/",
      read as an integer. */
  function DetailPageId(location: string): Option<Id>
  {
    if |location| < 2 || location[0] != '/' then None
    else if location[|location| - 1] == '/' then ParseInt(location[1..|location| - 1])
    else ParseInt(location[1..])
  }

  /** The location "/<id>/" leads to the detail page of `id`. */
  lemma DetailPageWithSlash(id: Id)
    ensures DetailPageId("/" + IntToString(id) + "/") == Some(id)
  {
    var location := "/" + IntToString(id) + "/";
    assert location[1..|location| - 1] == IntToString(id);
    ParseIntToString(id);
  }

  /** The location "/<id>" leads to the detail page of `id`. */
  lemma DetailPageWithoutSlash(id: Id)
    ensures DetailPageId("/" + IntToString(id)) == Some(id)
  {
    var location := "/" + IntToString(id);
    var s := IntToString(id);
    assert location[1..] == s;
    assert location[|location| - 1] == s[|s| - 1];
    ParseIntToString(id);
  }

  // ---------------------------------------------------------------------------
  // POST /customers

  /** Search by name: the submitted text is normalised and handed to the
      storage layer's `getByName`, which is a parameter here. The list view
      is rendered with the customer found; every throw is forwarded. */
  function SearchCustomer(getByName: string -> Result<Customer>, body: SearchForm): (r: Response)
    ensures r.Render? <==>
      && body.customer.Some?
      && NoEmptyPiece(body.customer.value)
      && getByName(CapitalizeCharwise(body.customer.value)).Ok?
    ensures r.Render? ==>
      && r.view == "customer_list.html"
      && getByName(CapitalizeCharwise(body.customer.value)) == Ok(r.customer)
    ensures body.customer.None? || !NoEmptyPiece(body.customer.value) ==> r == Forward(TypeError)
    ensures body.customer.Some? && NoEmptyPiece(body.customer.value)
            && getByName(CapitalizeCharwise(body.customer.value)).Err?
            ==> r == Forward(getByName(CapitalizeCharwise(body.customer.value)).error)
  {
    match body.customer
    case None => Forward(TypeError)
    case Some(name) =>
      CapitalizeNameSpec(name);
      match CapitalizeName(name)
      case Err(e) => Forward(e)
      case Ok(customerName) =>
        match getByName(customerName)
        case Err(e) => Forward(e)
        case Ok(customer) => Render("customer_list.html", customer)
  }

  // ---------------------------------------------------------------------------
  // POST /:id/edit/

  /** Edit a customer: fetch it, overwrite its four form fields, save it,
      and send the browser to its detail page. */
  function EditCustomer(db: Db, id: Id, body: CustomerForm, failure: Option<Error>): (s: Step)
    ensures s.response.Redirect? <==> id in db.customers && failure.None?
    ensures id !in db.customers ==> s == Step(db, Forward(CustomerNotFound(id)))
    ensures id in db.customers && failure.Some? ==> s == Step(db, Forward(failure.value))
    ensures s.response.Redirect? ==>
      && s.response.location == "/" + IntToString(id) + "/"
      && DetailPageId(s.response.location) == Some(id)
    ensures s.response.Redirect? ==>
      && s.db.customers.Keys == db.customers.Keys
      && s.db.customers[id] == Customer(id, body.firstName, body.lastName, body.phone, body.notes)
      && (forall k :: k in db.customers && k != id ==> s.db.customers[k] == db.customers[k])
    ensures s.db.reservations == db.reservations
  {
    match GetCustomer(db, id)
    case Err(e) => Step(db, Forward(e))
    case Ok(customer) =>
      var edited := customer.(firstName := body.firstName, lastName := body.lastName,
                              phone := body.phone, notes := body.notes);
      match SaveCustomer(db, edited, failure)
      case Err(e) => Step(db, Forward(e))
      case Ok(saved) =>
        DetailPageWithSlash(customer.id);
        Step(saved, Redirect("/" + IntToString(customer.id) + "/"))
  }

  /** Submitting the same customer edit twice leaves the storage as one
      submission does. */
  lemma EditCustomerIdempotent(db: Db, id: Id, body: CustomerForm)
    ensures var once := EditCustomer(db, id, body, None);
      EditCustomer(once.db, id, body, None) == once
  {
    var once := EditCustomer(db, id, body, None);
    if id in db.customers {
      var twice := EditCustomer(once.db, id, body, None);
      assert twice.db.customers == once.db.customers;
    }
  }

  /** After a successful edit, fetching the customer gives the submitted
      fields under the same id. */
  lemma EditCustomerThenGet(db: Db, id: Id, body: CustomerForm)
    requires id in db.customers
    ensures GetCustomer(EditCustomer(db, id, body, None).db, id)
         == Ok(Customer(id, body.firstName, body.lastName, body.phone, body.notes))
  {
  }

  // ---------------------------------------------------------------------------
  // POST /:id/add-reservation/

  /** Add a reservation for the customer of the path: the new row, stored
      under the id `newId` the storage layer allocates, carries the path id
      as its owner and the form values. The path id is not looked up. */
  function AddReservation(db: Db, id: Id, body: ReservationForm, newId: Id, failure: Option<Error>): (s: Step)
    requires newId !in db.reservations
    ensures s.response.Redirect? <==> failure.None?
    ensures failure.Some? ==> s == Step(db, Forward(failure.value))
    ensures s.response.Redirect? ==>
      && s.response.location == "/" + IntToString(id) + "/"
      && DetailPageId(s.response.location) == Some(id)
    ensures s.response.Redirect? ==>
      && s.db.reservations.Keys == db.reservations.Keys + {newId}
      && s.db.reservations[newId] == Reservation(newId, id, DateFrom(body.startAt), body.numGuests, body.notes)
      && (forall k :: k in db.reservations ==> s.db.reservations[k] == db.reservations[k])
    ensures s.db.customers == db.customers
  {
    match InsertReservation(db, newId, id, DateFrom(body.startAt), body.numGuests, body.notes, failure)
    case Err(e) => Step(db, Forward(e))
    case Ok(saved) =>
      DetailPageWithSlash(id);
      Step(saved, Redirect("/" + IntToString(id) + "/"))
  }

  /** The reservation just added is owned by the customer whose detail page
      the browser is sent to. */
  lemma AddedReservationBelongsToRedirectTarget(db: Db, id: Id, body: ReservationForm, newId: Id)
    requires newId !in db.reservations
    ensures var s := AddReservation(db, id, body, newId, None);
      && s.response.Redirect?
      && GetReservation(s.db, newId).Ok?
      && DetailPageId(s.response.location) == Some(GetReservation(s.db, newId).value.customerId)
  {
  }

  // ---------------------------------------------------------------------------
  // POST /:id/edit-reservation/:resId

  /** Edit a reservation: fetch it by `resId`, make the path's customer id
      its owner whatever the old owner was, overwrite the start time, guest
      count and notes, save it, and send the browser to "/<id>" (without a
      trailing slash). The path's customer id is not looked up. */
  function EditReservation(db: Db, id: Id, resId: Id, body: ReservationForm, failure: Option<Error>): (s: Step)
    ensures s.response.Redirect? <==> resId in db.reservations && failure.None?
    ensures resId !in db.reservations ==> s == Step(db, Forward(ReservationNotFound(resId)))
    ensures resId in db.reservations && failure.Some? ==> s == Step(db, Forward(failure.value))
    ensures s.response.Redirect? ==>
      && s.response.location == "/" + IntToString(id)
      && DetailPageId(s.response.location) == Some(id)
    ensures s.response.Redirect? ==>
      && s.db.reservations.Keys == db.reservations.Keys
      && s.db.reservations[resId] == Reservation(resId, id, DateFrom(body.startAt), body.numGuests, body.notes)
      && (forall k :: k in db.reservations && k != resId ==> s.db.reservations[k] == db.reservations[k])
    ensures s.db.customers == db.customers
  {
    match GetReservation(db, resId)
    case Err(e) => Step(db, Forward(e))
    case Ok(reservation) =>
      var edited := reservation.(customerId := id, startAt := DateFrom(body.startAt),
                                 numGuests := body.numGuests, notes := body.notes);
      match SaveReservation(db, edited, failure)
      case Err(e) => Step(db, Forward(e))
      case Ok(saved) =>
        DetailPageWithoutSlash(edited.customerId);
        Step(saved, Redirect("/" + IntToString(edited.customerId)))
  }

  /** Submitting the same reservation edit twice leaves the storage as one
      submission does. */
  lemma EditReservationIdempotent(db: Db, id: Id, resId: Id, body: ReservationForm)
    ensures var once := EditReservation(db, id, resId, body, None);
      EditReservation(once.db, id, resId, body, None) == once
  {
    var once := EditReservation(db, id, resId, body, None);
    if resId in db.reservations {
      var twice := EditReservation(once.db, id, resId, body, None);
      assert twice.db.reservations == once.db.reservations;
    }
  }

  /** A reservation owned by one customer, edited through the URL of
      another, ends up owned by the other: the handler reparents it. */
  lemma EditReservationReparents(db: Db, id: Id, resId: Id, body: ReservationForm)
    requires resId in db.reservations && db.reservations[resId].customerId != id
    ensures var s := EditReservation(db, id, resId, body, None);
      && GetReservation(s.db, resId).Ok?
      && GetReservation(s.db, resId).value.customerId == id
      && GetReservation(s.db, resId).value.customerId != db.reservations[resId].customerId
  {
  }

  /** Worked example: reservation 1 of customer 3, edited through the URL
      of customer 9, becomes customer 9's and the browser goes to "/9". */
  lemma EditReservationExample()
    ensures var v := Reservation(1, 3, DateFrom(Some("2024-05-01T19:00")), Some("4"), Some(""));
      var db: Db := Tables(map[], map[1 := v]);
      var body := ReservationForm(Some("2024-05-01T20:00"), Some("2"), Some("window seat"));
      var s := EditReservation(db, 9, 1, body, None);
      && s.response == Redirect("/9")
      && s.db.reservations[1].customerId == 9
  {
    assert IntToString(9) == "9";
  }
}
