/** What a return request promises, stated over the `Return` specification
    that `Store.PostReturn` is proved to follow. */
module ReturnProperties {
  import opened Options
  import opened Clock
  import opened Rentals
  import opened Returns

  /** The auth middleware runs first: no token is 401, a bad token is 400,
      and neither touches the database. */
  lemma AuthRejectsFirst(db: Db, credential: Credential, request: ReturnRequest, now: int)
    requires !credential.Token?
    ensures var o := Return(db, credential, request, now);
      && o.db == db
      && (credential.NoToken? ==> o.response == Unauthorized && Status(o.response) == 401)
      && (credential.BadToken? ==> o.response == BadCredential && Status(o.response) == 400)
  {
  }

  /** A body missing either id is a 400, whichever id is missing, and
      nothing changes. */
  lemma MissingIdRejected(db: Db, userId: string, request: ReturnRequest, now: int)
    requires request.customerId == "" || request.movieId == ""
    ensures var o := Return(db, Token(userId), request, now);
      o.response.Invalid? && Status(o.response) == 400 && o.db == db
  {
  }

  /** 404 exactly when no rental matches the pair; then nothing changes. */
  lemma NotFoundIffNoMatch(db: Db, userId: string, request: ReturnRequest, now: int)
    requires request.customerId != "" && request.movieId != ""
    ensures var o := Return(db, Token(userId), request, now);
      && (o.response == NotFound <==>
          forall k :: 0 <= k < |db.rentals| ==> !db.rentals[k].Matches(request.customerId, request.movieId))
      && (o.response == NotFound ==> Status(o.response) == 404 && o.db == db)
  {
  }

  /** A matched rental that is already returned is a 400; its date, its fee
      and every stock count stay as they were. */
  lemma AlreadyReturnedChangesNothing(db: Db, userId: string, request: ReturnRequest, now: int, i: nat)
    requires request.customerId != "" && request.movieId != ""
    requires Lookup(db.rentals, request.customerId, request.movieId) == Some(i)
    requires !db.rentals[i].IsOpen()
    ensures var o := Return(db, Token(userId), request, now);
      && o.response == AlreadyReturned && Status(o.response) == 400
      && o.db.rentals[i].dateReturned == db.rentals[i].dateReturned
      && o.db.rentals[i].rentalFee == db.rentals[i].rentalFee
      && o.db.stock == db.stock
  {
  }

  /** A successful return: the matched rental is saved with `dateReturned`
      set to `now` and the fee for the whole days out, the response is that
      saved rental, no other rental changes, and the stock of the rented
      movie, and of no other, goes up by one. */
  lemma SuccessfulReturn(db: Db, userId: string, request: ReturnRequest, now: int, i: nat)
    requires request.customerId != "" && request.movieId != ""
    requires Lookup(db.rentals, request.customerId, request.movieId) == Some(i)
    requires db.rentals[i].IsOpen()
    ensures var o := Return(db, Token(userId), request, now);
      var rental := db.rentals[i];
      && o.response.Ok? && Status(o.response) == 200
      && o.response.rental.customer == rental.customer
      && o.response.rental.movie == rental.movie
      && o.response.rental.dateOut == rental.dateOut
      && o.response.rental.dateReturned == Some(now)
      && o.response.rental.rentalFee == Some(rental.movie.dailyRentalRate * WholeDays(now, rental.dateOut))
      && o.db.rentals == db.rentals[i := o.response.rental]
      && (request.movieId in db.stock ==> o.db.stock[request.movieId] == db.stock[request.movieId] + 1)
      && (forall id :: id in db.stock && id != request.movieId ==> o.db.stock[id] == db.stock[id])
  {
  }

  /** The fee for a rental out n whole days plus less than a day is the daily
      rate times n. */
  lemma FeeForWholeDays(rental: Rental, now: int, n: int, rem: int)
    requires 0 <= n && 0 <= rem < DayMs
    requires now == rental.dateOut + n * DayMs + rem
    ensures RentalFee(rental, now) == rental.movie.dailyRentalRate * n
  {
    WholeDaysOfSpan(rental.dateOut, n, rem);
  }

  /** The handler does not clamp: a `dateOut` at least a day in the future
      gives a negative day count, and a negative fee at a positive rate. */
  lemma FutureDateOutChargesNegative(rental: Rental, now: int, n: int, rem: int)
    requires 1 <= n && 0 <= rem < DayMs
    requires now == rental.dateOut - n * DayMs - rem
    requires rental.movie.dailyRentalRate > 0
    ensures RentalFee(rental, now) == -(rental.movie.dailyRentalRate * n) < 0
  {
    WholeDaysOfSpan(rental.dateOut, n, rem);
  }

  /** A return is one-way: a rental already returned is never changed. */
  lemma ReturnIsOneWay(db: Db, credential: Credential, request: ReturnRequest, now: int)
    ensures var o := Return(db, credential, request, now);
      forall k :: 0 <= k < |db.rentals| && !db.rentals[k].IsOpen() ==> o.db.rentals[k] == db.rentals[k]
  {
  }

  /** Stock moves only together with a return: if any stock count changed,
      the request succeeded and exactly one more rental is returned. Every
      other outcome leaves the number of returned rentals as it was. */
  lemma StockFollowsSavedReturn(db: Db, credential: Credential, request: ReturnRequest, now: int)
    ensures var o := Return(db, credential, request, now);
      && (o.db.stock != db.stock ==> o.response.Ok?)
      && (o.response.Ok? ==> ReturnedCount(o.db.rentals) == ReturnedCount(db.rentals) + 1)
      && (!o.response.Ok? ==> ReturnedCount(o.db.rentals) == ReturnedCount(db.rentals))
  {
    var o := Return(db, credential, request, now);
    if o.response.Ok? {
      var i := Lookup(db.rentals, request.customerId, request.movieId).value;
      ReturnedCountAfterClose(db.rentals, i, o.response.rental);
    }
  }

  /** Every rental with a fee has a return date and vice versa, before and
      after any request. */
  lemma ReturnKeepsFeeWithDate(db: Db, credential: Credential, request: ReturnRequest, now: int)
    requires forall k :: 0 <= k < |db.rentals| ==> db.rentals[k].FeeIffReturned()
    ensures var o := Return(db, credential, request, now);
      forall k :: 0 <= k < |o.db.rentals| ==> o.db.rentals[k].FeeIffReturned()
  {
  }

  /** Returning the same rental a second time, at any later instant and with
      any valid token, is 400 "already returned": the fee is not recomputed
      and neither the ledger nor the stock changes. */
  lemma SecondReturnRejected(db: Db, userId: string, request: ReturnRequest, now: int, userId2: string, later: int)
    requires Return(db, Token(userId), request, now).response.Ok?
    ensures var first := Return(db, Token(userId), request, now);
      var second := Return(first.db, Token(userId2), request, later);
      second.response == AlreadyReturned && second.db == first.db
  {
    var first := Return(db, Token(userId), request, now);
    var i := Lookup(db.rentals, request.customerId, request.movieId).value;
    LookupAfterSave(db.rentals, i, first.response.rental, request.customerId, request.movieId);
  }

  /** The end-to-end case: a rental checked out seven days ago at a daily
      rate of 3 is returned with a fee of 21, and the movie's stock of 10
      becomes 11. */
  lemma SevenDaysAtRateThree(customer: Customer, movieId: MovieId, title: string, userId: string, now: int)
    requires customer.id != "" && movieId != ""
    ensures var rental := Rental(customer, MovieSnapshot(movieId, title, 3), now - 7 * DayMs, None, None);
      var o := Return(Db([rental], map[movieId := 10]), Token(userId), ReturnRequest(customer.id, movieId), now);
      && Status(o.response) == 200
      && o.response.rental.dateReturned == Some(now)
      && o.response.rental.rentalFee == Some(21)
      && o.db.stock[movieId] == 11
  {
    var rental := Rental(customer, MovieSnapshot(movieId, title, 3), now - 7 * DayMs, None, None);
    FeeForWholeDays(rental, now, 7, 0);
  }
}
