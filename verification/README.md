# Lunchly routes: a verified model

Lunchly is a small Express application for a restaurant's booking desk.
Staff list, create and edit customers, and create and edit reservations
that belong to a customer. This project models the logic in its route
handlers that is more than plumbing:

- **Name normalisation** in the customer search (`POST /customers`). The
  submitted text is split on `" "`. The first character of each piece is
  upper-cased, and the pieces are joined back with `" "`. An empty piece
  makes `part[0]` undefined, so the call throws a `TypeError`, which goes
  to the error handler.
- **The three write handlers** as pure transitions over an abstract store:
  `POST /:id/edit/`, `POST /:id/add-reservation/` and
  `POST /:id/edit-reservation/:resId`. Each one takes the store, the path
  ids, the form body and the storage layer's outcome for the write. It
  gives back the new store and the response: a redirect location, or the
  error forwarded to `next`.

Modules:

- `Results` (`results.dfy`): `Option`, `Result` and the errors a handler can
  throw.
- `Names` (`names.dfy`): `Split` and `Join` with JavaScript's semantics,
  the per-piece capitalisation, and `CapitalizeCharwise`. That last one is
  an independent character-wise description of the whole expression: a
  character that starts a piece is upper-cased and every other one is
  kept. It comes with `NoEmptyPiece`, which says when the expression does
  not throw.
- `Decimal` (`decimal.dfy`): the decimal text of an id, as a template
  literal prints it into a redirect path, and the parse that reads it back.
- `Store` (`store.dfy`): `Customer`, `Reservation` and the storage
  contents. `Db` is a map per table, keyed by row id. Only the accessors
  the handlers call are modelled. `get` returns the map entry or a
  not-found error. `save` of an existing row overwrites that entry. `save`
  of a new reservation stores it under a fresh id that the caller
  supplies.
- `Routes` (`routes.dfy`): the search handler and the three write handlers.
  `DetailPageId` is an idealised reading of a redirect location: the id
  of the customer detail page it leads to.

The edit-reservation handler sets the reservation's owner to the path's
customer id, whatever the owner was before. The model keeps that
behaviour (`Routes.EditReservationReparents`).

## Model

| member | source | states |
|---|---|---|
| Names.UpperAscii | routes.js:62 | `toUpperCase` on one character, restricted to ASCII: a–z become the letter 32 code points lower, every other character is unchanged, and the result is never a lower-case ASCII letter |
| Names.Split | routes.js:59-60 | `split(" ")` always gives at least one piece, and no piece contains a space |
| Names.SplitJoin | routes.js:59-64 | joining the pieces of a split with `" "` gives back the original text |
| Names.SplitAtFirstSpace | routes.js:59-60 | a space-free piece, a space and a rest split into that piece followed by the pieces of the rest |
| Names.JoinSplit | routes.js:59-64 | splitting a `" "`-join of one or more space-free pieces gives those pieces back |
| Names.SplitCount | routes.js:59-60 | a split has exactly one more piece than the text has spaces |
| Names.CapitalizeWord | routes.js:62 | a piece throws `TypeError` exactly when it is empty; otherwise the result has the same length, its first character is upper-cased and `substring(1)` is kept verbatim |
| Names.CapitalizeParts | routes.js:61-63 | mapping over the pieces succeeds exactly when no piece is empty, and then gives one capitalised piece per input piece, in order; otherwise it throws `TypeError` |
| Names.CapitalizeNameSpec | routes.js:58-64 | the whole expression throws `TypeError` exactly when the text is empty, starts or ends with a space, or has two spaces in a row; otherwise it equals the character-wise description |
| Names.CapitalizeFailsOnEmptyPiece | routes.js:59-64 | the expression throws exactly when some piece of the split is empty, and what it throws is a `TypeError` |
| Names.CapitalizeKeepsShape | routes.js:59-64 | on success the output has the input's length and spaces in the same positions; the first character of each piece is upper-cased and every other character is unchanged |
| Names.CapitalizePieces | routes.js:59-64 | on success the output splits into as many pieces as the input, and piece k of the output is piece k of the input with its first character upper-cased |
| Names.CapitalizeIdempotent | routes.js:59-64 | normalising a name that was already normalised changes nothing |
| Names.CapitalizeExampleTwoWords | routes.js:58-64 | "jane doe" becomes "Jane Doe" |
| Names.CapitalizeExamplesThrow | routes.js:58-64 | "", "jane  doe" and " jane" throw `TypeError` |
| Decimal.NatToString | routes.js:115 | the decimal text of an id is non-empty, all digits, and has no leading zero unless it is "0" |
| Decimal.ParseNatToString | routes.js:115 | reading the decimal text of a natural number gives back that number |
| Decimal.ParseIntToString | routes.js:115 | reading the decimal text of an integer id gives back that id |
| Decimal.IntToStringInjective | routes.js:115 | two ids have the same decimal text exactly when they are equal |
| Store.GetCustomer | routes.js:108 | `Customer.get` succeeds exactly when the id is stored, returns that row with that id, and otherwise fails with not-found for that id |
| Store.GetReservation | routes.js:163 | `Reservation.get` succeeds exactly when the id is stored, returns that row with that id, and otherwise fails with not-found for that id |
| Store.SaveCustomer | routes.js:113 | saving an existing customer replaces exactly its own row; the other rows, the set of ids and the reservations table are unchanged; a storage failure is passed on |
| Store.SaveReservation | routes.js:171 | saving an existing reservation replaces exactly its own row; the other rows, the set of ids and the customers table are unchanged; a storage failure is passed on |
| Store.InsertReservation | routes.js:130-136 | saving a new reservation adds exactly one row, under the fresh id, built from the given attributes; the existing rows and the customers table are unchanged |
| Store.SaveFetchedCustomerIsNoOp | routes.js:108-113 | fetching a customer and saving it back unchanged leaves the store as it was |
| Store.SaveFetchedReservationIsNoOp | routes.js:163-171 | fetching a reservation and saving it back unchanged leaves the store as it was |
| Store.InsertThenGet | routes.js:130-136 | a reservation saved under a fresh id is what a later `get` of that id returns |
| Routes.DetailPageWithSlash | routes.js:75-77 | the location "/<id>/" gives `GET /:id` the id it was built from |
| Routes.DetailPageWithoutSlash | routes.js:75-77 | the location "/<id>" gives `GET /:id` the id it was built from |
| Routes.SearchCustomer | routes.js:56-71 | the list view is rendered exactly when the name field is present, has no empty piece, and `getByName` finds the normalised name; the customer rendered is the one found; a missing or badly spaced name forwards `TypeError`; a failed lookup forwards its error; nothing else is rendered |
| Routes.EditCustomer | routes.js:106-119 | on an unknown id, or when the save fails, the store is unchanged and the error is forwarded; otherwise the customer's four fields are overwritten with the body values, its id is kept, every other customer and all reservations are untouched, and the redirect is "/<id>/", which leads back to that customer |
| Routes.EditCustomerIdempotent | routes.js:108-115 | submitting the same edit twice gives the same store and response as submitting it once |
| Routes.EditCustomerThenGet | routes.js:108-113 | after a successful edit, `Customer.get` of the id returns the submitted fields under the same id |
| Routes.AddReservation | routes.js:123-142 | the customer id is not looked up; unless the save fails, exactly one reservation is added, owned by the path id and carrying the body's start time, guest count and notes; existing reservations and all customers are untouched; the redirect is "/<id>/"; a failed save forwards the error and leaves the store unchanged |
| Routes.AddedReservationBelongsToRedirectTarget | routes.js:125-138 | the new reservation's owner is the customer whose detail page the redirect leads to |
| Routes.EditReservation | routes.js:161-177 | on an unknown reservation id, or when the save fails, the store is unchanged and the error is forwarded; otherwise the reservation keeps its id, is owned by the path customer id, its start time, guest count and notes are overwritten, every other row is untouched, and the redirect is "/<id>" with no trailing slash |
| Routes.EditReservationIdempotent | routes.js:163-171 | submitting the same reservation edit twice gives the same store and response as submitting it once |
| Routes.EditReservationReparents | routes.js:163-164 | a reservation edited through another customer's URL becomes that customer's |
| Routes.EditReservationExample | routes.js:161-177 | reservation 1 of customer 3, edited through customer 9's URL, becomes customer 9's and redirects to "/9" |

## Left out

- Express plumbing is not modelled: route matching and dispatch, the
  URL-encoded body parser, and how `res.render` and `res.redirect` work.
  A response is a value: a view name with its customer, a location, or an
  error forwarded to `next`. `Routes.DetailPageId` is an idealised reading
  of a location: an optional trailing "/" and the segment read as an
  integer. It is not a model of Express routing. It serves only to give
  the redirect strings a meaning: the id of the detail page they lead
  to.
- The read-only handlers are not modelled (`GET /`, `GET /add/`,
  `GET /:id`, `GET /:id/edit/`, `GET /:id/edit-reservation/:resId`). They
  only fetch rows and choose a template.
- `POST /add/` (customer creation) is not modelled. Its redirect uses
  the id that `save` assigns to a new customer inside the model class,
  which is not visible. It is also not one of the three write handlers
  on existing records, or on a customer given by the path, that this
  model covers.
- The customer and reservation model classes and the database module are
  not part of this model. `Customer.all`, `getReservations` and
  `fullNameCreator` are left out.
- `getByName` is a function parameter of `Routes.SearchCustomer`, since
  its matching and tie-break are not visible. The `name` attribute that
  the handler attaches via `fullNameCreator` is not part of the rendered
  value.
- The storage layer's outcome for a write is a parameter (`failure`).
  When a new reservation is inserted, the fresh id is also a parameter
  (`newId`), and the caller must supply one not already in use.
- Storage failures on `get` are not modelled: `get` returns the stored
  row or a not-found error.
- `new Date(text)` is opaque: `DateFrom(text)` keeps the submitted text.
  Date parsing, invalid dates and time zones are not modelled.
- Form fields are `Option<string>`, with `None` for a field the form did
  not send. Values the extended body parser turns into arrays or objects
  are not modelled.
- Names.UpperAscii: upper-cases only a–z and leaves every other
  character unchanged. JavaScript's `toUpperCase` also maps non-ASCII
  letters, and some of those change length ("ß" becomes "SS"). The
  length and idempotence statements therefore describe the source only
  for ASCII input.
- Routes.EditReservation: the path id is the integer it spells, and the
  redirect is "/" followed by that integer's decimal text. The source
  (routes.js:164, 173) echoes the raw path segment instead, so a spelling
  such as "007" would redirect to "/007" where the model gives "/7".
- Routes.AddReservation: the same holds here. The source
  (routes.js:125, 138) redirects to "/" + the raw path segment + "/", so
  "007" would give "/007/" where the model gives "/7/".
- Ids are assumed to be safe integers, which JavaScript prints without an
  exponent. This matters only for routes.js:115, the one redirect that
  prints a number (the id of the fetched row).
- Concurrency (requests interleaving at `await` points), `console.log`
  and the unused `worker_threads` import are not modelled.
