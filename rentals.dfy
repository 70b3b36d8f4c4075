/** The rental ledger: rentals as stored documents, each holding frozen
    snapshots of the customer and the movie taken at checkout, and the
    lookup of a rental by (customer id, movie id). */
module Rentals {
  import opened Options

  type CustomerId = string
  type MovieId = string

  /** Snapshot of the customer embedded in a rental. */
  datatype Customer = Customer(id: CustomerId, name: string, phone: string)

  /** Snapshot of the movie embedded in a rental; the fee is computed from
      this rate, never from the catalog's current one. */
  datatype MovieSnapshot = MovieSnapshot(id: MovieId, title: string, dailyRentalRate: nat)

  /** A rental: open while `dateReturned` is absent. */
  datatype Rental = Rental(
    customer: Customer,
    movie: MovieSnapshot,
    dateOut: int,
    dateReturned: Option<int>,
    rentalFee: Option<int>)
  {
    predicate IsOpen() { dateReturned.None? }

    /** A return stamps the date and the fee together. */
    predicate FeeIffReturned() { dateReturned.Some? <==> rentalFee.Some? }

    predicate Matches(customerId: CustomerId, movieId: MovieId) {
      customer.id == customerId && movie.id == movieId
    }
  }

  /** The rental for the pair (customerId, movieId): the most recently
      created match (the last in ledger order), or None when nothing matches. */
  function Lookup(rentals: seq<Rental>, customerId: CustomerId, movieId: MovieId): (found: Option<nat>)
    ensures found.None? <==>
      forall k :: 0 <= k < |rentals| ==> !rentals[k].Matches(customerId, movieId)
    ensures found.Some? ==>
      && found.value < |rentals|
      && rentals[found.value].Matches(customerId, movieId)
      && forall k :: found.value < k < |rentals| ==> !rentals[k].Matches(customerId, movieId)
  {
    if |rentals| == 0 then None
    else if rentals[|rentals| - 1].Matches(customerId, movieId) then Some(|rentals| - 1)
    else Lookup(rentals[..|rentals| - 1], customerId, movieId)
  }

  /** Replacing a rental by one with the same customer and movie ids does not
      change which rental a lookup finds. */
  lemma LookupAfterSave(rentals: seq<Rental>, i: nat, saved: Rental, customerId: CustomerId, movieId: MovieId)
    requires i < |rentals|
    requires saved.customer.id == rentals[i].customer.id && saved.movie.id == rentals[i].movie.id
    ensures Lookup(rentals[i := saved], customerId, movieId) == Lookup(rentals, customerId, movieId)
  {
    var after := rentals[i := saved];
    assert forall k :: 0 <= k < |rentals| ==>
      (after[k].Matches(customerId, movieId) <==> rentals[k].Matches(customerId, movieId));
  }

  /** How many rentals of the ledger are returned. */
  function ReturnedCount(rentals: seq<Rental>): (n: nat)
    ensures n <= |rentals|
    ensures n == 0 <==> forall k :: 0 <= k < |rentals| ==> rentals[k].IsOpen()
  {
    if |rentals| == 0 then 0
    else (if rentals[0].IsOpen() then 0 else 1) + ReturnedCount(rentals[1..])
  }

  /** Saving an open rental as returned raises the returned count by one. */
  lemma {:induction false} ReturnedCountAfterClose(rentals: seq<Rental>, i: nat, closed: Rental)
    requires i < |rentals| && rentals[i].IsOpen() && !closed.IsOpen()
    ensures ReturnedCount(rentals[i := closed]) == ReturnedCount(rentals) + 1
  {
    if i > 0 {
      assert rentals[i := closed][1..] == rentals[1..][i - 1 := closed];
      ReturnedCountAfterClose(rentals[1..], i - 1, closed);
    } else {
      assert rentals[i := closed][1..] == rentals[1..];
    }
  }
}
