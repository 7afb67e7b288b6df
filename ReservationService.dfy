/**
 * The in-memory reservation ledger (Services/ReservationService.cs): an
 * append-only list of reservations with a per-user query.
 */
module Reservations {
  import opened Models

  /** `r` is `s` with some elements left out, the rest kept in their order. */
  ghost predicate IsSubsequence<T>(r: seq<T>, s: seq<T>)
  {
    if r == [] then true
    else if s == [] then false
    else if r[0] == s[0] then IsSubsequence(r[1..], s[1..])
    else IsSubsequence(r, s[1..])
  }

  /**
   * `List.FindAll(r => r.UserId == userId)`: the reservations of `s` whose user
   * identity is exactly `userId`, all of them (with their multiplicity), in the
   * order of `s`, and nothing else.
   */
  function ForUser(s: seq<FoodReservation>, userId: string): (r: seq<FoodReservation>)
    ensures forall x :: x in r ==> x.userId == userId
    ensures forall x :: multiset(r)[x] == if x.userId == userId then multiset(s)[x] else 0
    ensures IsSubsequence(r, s)
  {
    if s == [] then []
    else
      assert s == [s[0]] + s[1..];
      if s[0].userId == userId then [s[0]] + ForUser(s[1..], userId)
      else ForUser(s[1..], userId)
  }

  /** Filtering a list extended by one element extends the filtered list by that element, if it matches. */
  lemma {:induction false} ForUserAppend(s: seq<FoodReservation>, x: FoodReservation, userId: string)
    ensures ForUser(s + [x], userId) == ForUser(s, userId) + (if x.userId == userId then [x] else [])
  {
    if s == [] {
      assert [] + [x] == [x];
    } else {
      assert (s + [x])[1..] == s[1..] + [x];
      ForUserAppend(s[1..], x, userId);
    }
  }

  /** The filter finds nothing exactly when no element has that user identity. */
  lemma ForUserEmpty(s: seq<FoodReservation>, userId: string)
    ensures ForUser(s, userId) == [] <==> forall i :: 0 <= i < |s| ==> s[i].userId != userId
  {
    var r := ForUser(s, userId);
    if r != [] {
      assert multiset(r)[r[0]] > 0;
      assert r[0] in s;
    }
    if exists i :: 0 <= i < |s| && s[i].userId == userId {
      var i :| 0 <= i < |s| && s[i].userId == userId;
      assert multiset(s)[s[i]] > 0;
      assert multiset(r)[s[i]] > 0;
    }
  }

  class ReservationService {
    /** The ledger, in insertion order. */
    var reservations: seq<FoodReservation>

    /** A new service holds no reservations. */
    constructor ()
      ensures reservations == []
    {
      reservations := [];
    }

    /**
     * The `Reservations` view, as a snapshot value (the code hands out the
     * live list behind `IReadOnlyList`).
     */
    function Reservations(): (r: seq<FoodReservation>)
      reads this
      ensures r == reservations
    {
      reservations
    }

    /** Appends `reservation` as given: no field is checked or rewritten. */
    method AddReservation(reservation: FoodReservation)
      modifies this
      ensures reservations == old(reservations) + [reservation]
      ensures |reservations| == |old(reservations)| + 1
      ensures reservations[|reservations| - 1] == reservation
      ensures reservations[..|old(reservations)|] == old(reservations)
      ensures forall u :: ViewReservations(u) ==
                            if u == reservation.userId then old(ViewReservations(u)) + [reservation]
                            else old(ViewReservations(u))
    {
      ghost var before := reservations;
      reservations := reservations + [reservation];
      forall u ensures ForUser(reservations, u) ==
        if u == reservation.userId then ForUser(before, u) + [reservation] else ForUser(before, u)
      {
        ForUserAppend(before, reservation, u);
      }
      assert reservations[..|before|] == before;
    }

    /**
     * `viewReservations(userId)`: exactly the reservations whose user identity
     * equals `userId`, every one of them, in insertion order; an empty list
     * (never null) when there is none. It reads the ledger and changes nothing.
     */
    function ViewReservations(userId: string): (r: seq<FoodReservation>)
      reads this
      ensures forall x :: x in r ==> x.userId == userId && x in reservations
      ensures forall x: FoodReservation :: x.userId == userId ==> multiset(r)[x] == multiset(reservations)[x]
      ensures IsSubsequence(r, reservations)
      ensures r == [] <==> forall i :: 0 <= i < |reservations| ==> reservations[i].userId != userId
    {
      var r := ForUser(reservations, userId);
      ForUserEmpty(reservations, userId);
      assert forall x :: x in r ==> multiset(r)[x] > 0;
      r
    }
  }
}
