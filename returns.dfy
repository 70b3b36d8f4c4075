/** POST /api/returns: closes an open rental for (customerId, movieId),
    stamps the return date, charges the daily rate for every whole day out,
    and puts the copy back in stock. */
module Returns {
  import opened Options
  import opened Clock
  import opened Rentals

  /** The `x-auth-token` header as the auth middleware sees it. */
  datatype Credential = NoToken | BadToken | Token(userId: string)

  /** The request body; an absent field is the empty string. */
  datatype ReturnRequest = ReturnRequest(customerId: CustomerId, movieId: MovieId)

  datatype Field = CustomerIdField | MovieIdField

  datatype Response =
    | Unauthorized
    | BadCredential
    | Invalid(field: Field)
    | NotFound
    | AlreadyReturned
    | Ok(rental: Rental)

  /** The persistent state the handler reads and writes: the rental ledger
      and the catalog's `numberInStock` per movie id. */
  datatype Db = Db(rentals: seq<Rental>, stock: map<MovieId, nat>)

  datatype Outcome = Outcome(response: Response, db: Db)

  /** The HTTP status sent for each response. */
  function Status(response: Response): (code: int)
    ensures code == 200 <==> response.Ok?
    ensures code == 401 <==> response.Unauthorized?
    ensures code == 404 <==> response.NotFound?
    ensures code == 400 <==> response.BadCredential? || response.Invalid? || response.AlreadyReturned?
  {
    match response
    case Unauthorized => 401
    case NotFound => 404
    case Ok(_) => 200
    case _ => 400
  }

  /** Body validation: both ids are required; the first missing one, in
      schema order, is reported. */
  function Validate(request: ReturnRequest): (error: Option<Field>)
    ensures error.None? <==> request.customerId != "" && request.movieId != ""
    ensures error == Some(CustomerIdField) <==> request.customerId == ""
    ensures error == Some(MovieIdField) <==> request.customerId != "" && request.movieId == ""
  {
    if request.customerId == "" then Some(CustomerIdField)
    else if request.movieId == "" then Some(MovieIdField)
    else None
  }

  /** The fee for a rental returned at `now`: the snapshot's daily rate for
      every whole day since `dateOut`, nothing for a part of a day, and no
      clamping when `dateOut` lies in the future. */
  function RentalFee(rental: Rental, now: int): (fee: int)
    ensures var rate, elapsed := rental.movie.dailyRentalRate, now - rental.dateOut;
      && (elapsed >= 0 ==> 0 <= fee * DayMs <= rate * elapsed)
      && (elapsed >= 0 && rate > 0 ==> rate * elapsed < (fee + rate) * DayMs)
      && (elapsed < 0 ==> fee <= 0)
  {
    var rate, days := rental.movie.dailyRentalRate, WholeDays(now, rental.dateOut);
    ScaleDayBounds(rate, days, now - rental.dateOut);
    rate * days
  }

  /** Multiplying the whole-day bounds of an elapsed time by a daily rate. */
  lemma ScaleDayBounds(rate: nat, days: int, elapsed: int)
    requires elapsed >= 0 ==> 0 <= days && days * DayMs <= elapsed < days * DayMs + DayMs
    requires elapsed < 0 ==> days <= 0
    ensures elapsed >= 0 ==> 0 <= rate * days * DayMs <= rate * elapsed
    ensures elapsed >= 0 && rate > 0 ==> rate * elapsed < (rate * days + rate) * DayMs
    ensures elapsed < 0 ==> rate * days <= 0
  {
  }

  /** `Movie.updateOne({_id: movieId}, {$inc: {numberInStock: 1}})`: one more
      copy of that movie; a movie id missing from the catalog matches no
      document and nothing changes. */
  function IncrementStock(stock: map<MovieId, nat>, movieId: MovieId): (after: map<MovieId, nat>)
    ensures after.Keys == stock.Keys
    ensures movieId in stock ==> after[movieId] == stock[movieId] + 1
    ensures forall id :: id in stock && id != movieId ==> after[id] == stock[id]
  {
    if movieId in stock then stock[movieId := stock[movieId] + 1] else stock
  }

  /** One return request against `db` at instant `now`. */
  function Return(db: Db, credential: Credential, request: ReturnRequest, now: int): (o: Outcome)
    ensures |o.db.rentals| == |db.rentals| && o.db.stock.Keys == db.stock.Keys
    ensures o.response.Ok? <==>
      && credential.Token?
      && Validate(request).None?
      && Lookup(db.rentals, request.customerId, request.movieId).Some?
      && db.rentals[Lookup(db.rentals, request.customerId, request.movieId).value].IsOpen()
    ensures !o.response.Ok? ==> o.db == db
  {
    match credential
    case NoToken => Outcome(Unauthorized, db)
    case BadToken => Outcome(BadCredential, db)
    case Token(_) =>
      match Validate(request)
      case Some(field) => Outcome(Invalid(field), db)
      case None =>
        match Lookup(db.rentals, request.customerId, request.movieId)
        case None => Outcome(NotFound, db)
        case Some(i) =>
          var rental := db.rentals[i];
          if !rental.IsOpen() then Outcome(AlreadyReturned, db)
          else
            var closed := rental.(dateReturned := Some(now), rentalFee := Some(RentalFee(rental, now)));
            Outcome(Ok(closed), Db(db.rentals[i := closed], IncrementStock(db.stock, closed.movie.id)))
  }

  /** The database as the route handler sees it. */
  class Store {
    var rentals: seq<Rental>
    var stock: map<MovieId, nat>

    function State(): Db
      reads this
    {
      Db(rentals, stock)
    }

    /** Every stored rental has its fee exactly when it has its return date. */
    ghost predicate Consistent()
      reads this
    {
      forall k :: 0 <= k < |rentals| ==> rentals[k].FeeIffReturned()
    }

    constructor (rentals: seq<Rental>, stock: map<MovieId, nat>)
      ensures State() == Db(rentals, stock)
    {
      this.rentals := rentals;
      this.stock := stock;
    }

    /** The route handler: the auth middleware, validation, lookup, the
        already-returned guard, then the rental is stamped and saved, and only
        after that is the movie restocked. */
    method PostReturn(credential: Credential, request: ReturnRequest, now: int) returns (response: Response)
      modifies this
      ensures Outcome(response, State()) == Return(old(State()), credential, request, now)
      ensures old(Consistent()) ==> Consistent()
    {
      if credential.NoToken? {
        return Unauthorized;
      }
      if credential.BadToken? {
        return BadCredential;
      }
      var error := Validate(request);
      if error.Some? {
        return Invalid(error.value);
      }
      var found := Lookup(rentals, request.customerId, request.movieId);
      if found.None? {
        return NotFound;
      }
      var rental := rentals[found.value];
      if rental.dateReturned.Some? {
        return AlreadyReturned;
      }
      rental := rental.(dateReturned := Some(now));
      rental := rental.(rentalFee := Some(rental.movie.dailyRentalRate * WholeDays(now, rental.dateOut)));
      rentals := rentals[found.value := rental];
      if rental.movie.id in stock {
        stock := stock[rental.movie.id := stock[rental.movie.id] + 1];
      }
      response := Ok(rental);
    }
  }
}
