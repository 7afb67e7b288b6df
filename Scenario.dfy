/**
 * Clients that use only the contracts of the other modules: seeding the
 * table with generated donations and round-tripping one of them, and a
 * session with each of the two in-memory stores.
 */
module Scenario {
  import opened Wrappers
  import opened Models
  import opened TestData
  import opened Repository
  import opened Reservations
  import opened Analysis

  /**
   * Generate three donations (ids 1, 2, 3) and store them; store the data of
   * donation 2 once more, which gets identity 4; read it back; delete it;
   * it is then not found.
   */
  method SeedAndRoundTrip(draws: seq<Draw>)
    requires 3 <= |draws|
    requires forall i :: 0 <= i < 3 ==> WellFormedDraw(draws[i])
  {
    var batch := GenerateFoodDonations(3, draws);
    assert batch[0].id == 1 && batch[1].id == 2 && batch[2].id == 3;
    var repo := new FoodDonationRepository();
    var r1 := repo.Create(batch[0]);
    var r2 := repo.Create(batch[1]);
    var r3 := repo.Create(batch[2]);
    assert r1 == Ok(1) && r2 == Ok(2) && r3 == Ok(3);
    assert |repo.GetAll()| == 3;
    var r4 := repo.Create(batch[1]);
    assert r4 == Ok(4);
    var found := repo.GetById(4);
    assert found == Some(batch[1].(id := 4));
    assert found.value.donorName == batch[1].donorName && found.value.foodType == batch[1].foodType;
    var deleted := repo.Delete(4);
    assert deleted;
    assert repo.GetById(4) == None;
    assert repo.GetById(2) == Some(batch[1]);
    var again := repo.Delete(4);
    assert !again;
    var picked := repo.Update(batch[0].(isPickedUp := true));
    assert picked && repo.GetById(1).value.isPickedUp;
    var missing := repo.Update(batch[0].(id := 999));
    assert !missing;
  }

  /** An analysis is recorded and read back; clearing twice leaves the store empty. */
  method AnalysisSession(image: string, now: DateTime)
  {
    var store := new FoodAnalysisStore();
    store.Add(image, "bread and apples", "[]", now);
    assert |store.Results()| == 1 && store.Results()[0].caption == "bread and apples";
    store.Clear();
    store.Clear();
    assert store.Results() == [];
  }

  /** Two users reserve; each sees only their own reservation. */
  method LedgerSession(now: DateTime)
  {
    var ledger := new ReservationService();
    var ann := NewFoodReservation(now).(product := "Bread", reservedAmount := 3, userId := "ann");
    var bob := NewFoodReservation(now).(product := "Apples", reservedAmount := -2, userId := "bob");
    ledger.AddReservation(ann);
    ledger.AddReservation(bob);
    assert ledger.ViewReservations("bob") == [bob];
    assert ledger.ViewReservations("ann") == [ann];
  }
}
