# Rental returns: a Dafny model

This project models the return workflow of a movie-rental REST API: the
`POST /api/returns` handler. The request carries an auth token and a body
`{customerId, movieId}`. A request goes through these steps in order:

1. The `auth` middleware checks the token before the handler runs.
2. The handler validates the body.
3. It looks up the rental for the (customer, movie) pair.
4. It refuses a rental that is already returned.
5. It stamps `dateReturned` and computes `rentalFee`. The fee is the daily
   rate from the rental's embedded movie snapshot times the whole days since
   `dateOut`. Then it saves the rental.
6. It increments that movie's `numberInStock` by one.
7. It answers with the updated rental.

Modules:

- `Options`: an optional value (a document field that may be absent, a lookup that may find nothing).
- `Clock`: whole days between two instants in integer milliseconds. The count truncates toward zero, as `moment().diff(d, "days")` does.
- `Rentals`: the rental document with its customer and movie snapshots, and the lookup by (customer id, movie id).
- `Returns`: the request, the response and its HTTP status, validation, and the `$inc` on the catalog. It also holds `Return`, a pure specification of one request, and the class `Store`. `Store` holds the ledger (`rentals: seq<Rental>`) and the stock counts (`stock: map<MovieId, nat>`). Its method `PostReturn` follows the handler step by step and is proved to agree with `Return`.
- `ReturnProperties`: lemmas stating what a return request promises.

Time is an integer number of milliseconds in UTC. The clock is an input: the
`now` parameter.

The handler multiplies the daily rate by the raw truncated day difference
(routes/returns.js:25-26) and does not clamp it, so a `dateOut` a day or more
in the future gives a negative fee (`FutureDateOutChargesNegative`).

## Model

| member | source | states |
|---|---|---|
| Clock.WholeDays | routes/returns.js:26 | the day count is the elapsed time divided into whole 24-hour days and truncated toward zero: it is non-negative and within one day below the elapsed time when `dateOut <= now`, and non-positive and within one day above it otherwise |
| Clock.WholeDaysOfSpan | routes/returns.js:26 | n whole days plus less than a day counts as exactly n days forward and as -n days backward: no partial-day billing and no clamp |
| Rentals.Lookup | routes/returns.js:13-19 | finds nothing exactly when no rental matches both the customer id and the movie id; otherwise it finds a matching rental, the most recent one |
| Rentals.LookupAfterSave | routes/returns.js:24-27 | saving a rental with its customer and movie snapshots kept does not change which rental a later lookup finds |
| Rentals.ReturnedCountAfterClose | routes/returns.js:24-27 | saving an open rental as returned raises the number of returned rentals in the ledger by exactly one |
| Returns.Status | routes/returns.js:11-34 | 200 exactly on success, 401 exactly when the token is missing, 404 exactly when no rental matches, and 400 for a bad token, an invalid body or an already-returned rental |
| Returns.Validate | routes/returns.js:10-11 | the body passes exactly when both ids are non-empty; a missing customer id is reported first, and the movie id only when the customer id is present |
| Returns.RentalFee | routes/returns.js:25-26 | the fee is the snapshot's daily rate for every whole day since `dateOut`: for a past `dateOut` it is non-negative, at most the rate times the elapsed time in days, and more than that amount less one day's rate; a future `dateOut` never gives a positive fee |
| Returns.IncrementStock | routes/returns.js:28-33 | the catalog gains no and loses no movie; the returned movie's stock rises by one and every other movie's stock is unchanged |
| Returns.Return | routes/returns.js:9-35 | a request succeeds exactly when the token is valid, the body is valid, a rental matches and that rental is open; every other outcome leaves the ledger and the stock untouched |
| Returns.Store.PostReturn | routes/returns.js:9-35 | the handler's response and the new ledger and stock are exactly those of `Return` on the old state; it keeps every stored rental's fee present exactly when its return date is |
| ReturnProperties.AuthRejectsFirst | routes/returns.js:9 | a missing token gives 401 and an invalid token 400, before anything else is looked at, and nothing changes |
| ReturnProperties.MissingIdRejected | routes/returns.js:10-11 | an empty customer id or an empty movie id gives 400 whichever one is missing, and the ledger and stock do not change |
| ReturnProperties.NotFoundIffNoMatch | routes/returns.js:13-19 | for a valid request, 404 is answered exactly when no rental matches the pair, and then nothing changes |
| ReturnProperties.AlreadyReturnedChangesNothing | routes/returns.js:21-23 | a matched rental that is already returned gives 400, and its return date, its fee and every stock count stay as they were |
| ReturnProperties.SuccessfulReturn | routes/returns.js:24-34 | on success the saved rental keeps its snapshots and `dateOut`, gets `dateReturned = now` and the fee rate times whole days, is the response body, and is the only rental changed; the rented movie's stock rises by one and no other stock changes |
| ReturnProperties.FeeForWholeDays | routes/returns.js:25-26 | a rental out n whole days plus less than a day is charged the daily rate times n |
| ReturnProperties.FutureDateOutChargesNegative | routes/returns.js:25-26 | a `dateOut` n >= 1 days in the future gives a negative fee at a positive rate, because the day count is not clamped |
| ReturnProperties.ReturnIsOneWay | routes/returns.js:21-27 | no request changes a rental that is already returned |
| ReturnProperties.StockFollowsSavedReturn | routes/returns.js:27-33 | stock changes only on success, and a success marks exactly one more rental returned; every failure leaves the returned count as it was |
| ReturnProperties.ReturnKeepsFeeWithDate | routes/returns.js:24-27 | if every rental has a fee exactly when it has a return date, that still holds after any request |
| ReturnProperties.SecondReturnRejected | routes/returns.js:21-26 | after a successful return, the same request at any later time and with any valid token gives "already returned"; the fee is not recomputed and nothing changes |
| ReturnProperties.SevenDaysAtRateThree | tests/integration/returns.test.js:97-124 | a rental out seven days at rate 3 is returned with fee 21 and `dateReturned = now`, and the movie's stock goes from 10 to 11 |

## Left out

- Authentication: the auth middleware and JWT verification (`middleware/auth`) are not part of this model. The token is an input that is absent, invalid or valid. The mapping to 401 and 400 follows the integration tests.
- Body validation: the Joi schema in `models/rental` is not part of this model. A field passes when it is non-empty. The ObjectId format check is not modelled. The missing customer id is assumed to be reported first, in schema key order. The error message text is not modelled, only the field.
- The body is validated twice, once by `validateMiddleware(validate)` and once inside the handler. Both checks are the same, so the model checks once.
- Rental.lookup: its implementation in `models/rental` is not part of this model. The model takes the most recently created matching rental, which is the last match in ledger order.
- Clock reads: the handler reads the clock twice, with `new Date()` for the return date and `moment()` for the fee. The model uses one instant `now` for both.
- Time zones: moment's adjustment for a time-zone offset change between the two instants is left out, because all instants are UTC milliseconds.
- Rates and fees are whole numbers. Fractional rates and floating-point rounding of JavaScript numbers are left out.
- Persistence: Mongoose, and failures of `rental.save()` or `Movie.updateOne()`, are left out. The error middleware that would answer such a failure is not part of this model. The model has no atomicity across the two writes. Only their order is modelled.
- Concurrency: two simultaneous returns of the same rental are left out. The handler reads, then writes, with awaits in between. The model runs requests one at a time.
- Response serialization (the JSON body and status messages) is left out. The response carries the updated rental and the status code.
- Server plumbing is left out: `index.js`, the CORS toggle in `startup/corsHandler.js`, logging, and the genre CRUD routes exercised by the other tests.
