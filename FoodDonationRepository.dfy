/**
 * The donation repository (Repositories/FoodDonationRepository.cs). Each method
 * runs one SQL statement against the `FoodDonations` table; the model keeps that
 * table as a map from the `Id` key to the seven other columns, and the table's
 * identity counter as the value `SCOPE_IDENTITY()` reports after an INSERT.
 */
module Repository {
  import opened Wrappers
  import opened Models

  /**
   * The seven non-key columns of `FoodDonations`: exactly those the INSERT lists
   * and the UPDATE sets.
   */
  datatype Row = Row(
    donorName: string,
    foodType: string,
    quantity: Int32,
    unit: string,
    donationDate: DateTime,
    pickupLocation: string,
    isPickedUp: bool)

  /** A store failure that the source propagates to its caller as an exception. */
  datatype StoreError =
    /** The INSERT would assign an identity past the largest `int`. */
    | IdentityOverflow

  /**
   * The parameters `@DonorName … @IsPickedUp` that Dapper binds from a donation:
   * every property but `Id`, so the donation is rebuilt from them and its key.
   */
  function Columns(d: FoodDonation): (r: Row)
    ensures FoodDonation(d.id, r.donorName, r.foodType, r.quantity, r.unit,
                         r.donationDate, r.pickupLocation, r.isPickedUp) == d
  {
    Row(d.donorName, d.foodType, d.quantity, d.unit, d.donationDate, d.pickupLocation, d.isPickedUp)
  }

  /** The object Dapper builds from one row of `SELECT *`. */
  function Materialize(id: Int32, row: Row): (d: FoodDonation)
    ensures d.id == id && Columns(d) == row
  {
    FoodDonation(id, row.donorName, row.foodType, row.quantity, row.unit,
                 row.donationDate, row.pickupLocation, row.isPickedUp)
  }

  /** Writing a donation's columns and reading them back under its own key gives the donation again. */
  lemma ColumnsRoundTrip(d: FoodDonation)
    ensures Materialize(d.id, Columns(d)) == d
  {
  }

  /**
   * `SELECT * FROM FoodDonations` as a set (the query has no ORDER BY): a
   * donation is in the result exactly when the table maps its `Id` to its columns.
   */
  function Scan(table: map<Int32, Row>): (r: set<FoodDonation>)
    ensures forall d: FoodDonation :: d in r <==> d.id in table && table[d.id] == Columns(d)
  {
    set id | id in table :: Materialize(id, table[id])
  }

  /** A full scan yields one distinct donation per row: rows have distinct keys. */
  lemma {:induction false} ScanCardinality(table: map<Int32, Row>)
    ensures |Scan(table)| == |table|
  {
    if table != map[] {
      var k :| k in table;
      var rest := table - {k};
      assert |rest| == |table| - 1 by {
        assert rest.Keys == table.Keys - {k};
      }
      var d := Materialize(k, table[k]);
      assert Scan(table) == Scan(rest) + {d} by {
        forall e | e in Scan(table) ensures e in Scan(rest) + {d} {
          var id :| id in table && e == Materialize(id, table[id]);
          if id != k {
            assert id in rest;
          }
        }
      }
      assert d !in Scan(rest);
      ScanCardinality(rest);
    }
  }

  class FoodDonationRepository {
    /** The `FoodDonations` table: its `Id` column as the key, the other columns as the value. */
    var rows: map<Int32, Row>
    /** The value the table's identity column assigns to the next inserted row. */
    var nextIdentity: int

    /** Every key was assigned by the identity counter (seed 1, increment 1) before its current value. */
    ghost predicate Valid()
      reads this
    {
      1 <= nextIdentity <= MaxInt32 + 1 &&
      forall id :: id in rows ==> 1 <= id < nextIdentity
    }

    /** An empty table whose identity counter has not been used. */
    constructor ()
      ensures Valid()
      ensures rows == map[] && nextIdentity == 1
    {
      rows := map[];
      nextIdentity := 1;
    }

    /**
     * A repository over a table that already holds `table`, whose identity
     * counter will assign `next` to the next inserted row.
     */
    constructor Over(table: map<Int32, Row>, next: int)
      requires 1 <= next <= MaxInt32 + 1
      requires forall id :: id in table ==> 1 <= id < next
      ensures Valid()
      ensures rows == table && nextIdentity == next
    {
      rows := table;
      nextIdentity := next;
    }

    /**
     * The number of rows a statement with `WHERE Id = @Id` touches: `Id` is the
     * primary key, so at most one, and one exactly when a row has that key.
     */
    function AffectedRows(id: Int32): (n: nat)
      reads this
      ensures n <= 1
      ensures n > 0 <==> id in rows
    {
      if id in rows then 1 else 0
    }

    /** `GetAllAsync`: every row of the table, one donation per row, each with its key as `Id`. */
    function GetAll(): (r: set<FoodDonation>)
      reads this
      ensures forall d: FoodDonation :: d in r <==> d.id in rows && rows[d.id] == Columns(d)
      ensures |r| == |rows|
    {
      ScanCardinality(rows);
      Scan(rows)
    }

    /** `GetByIdAsync`: the row with key `id` when there is one, otherwise `None` (C# null); absence is not an error. */
    function GetById(id: Int32): (r: Option<FoodDonation>)
      reads this
      ensures r.Some? <==> id in rows
      ensures r.Some? ==> r.value.id == id && Columns(r.value) == rows[id]
      ensures r.Some? ==> r.value in GetAll()
    {
      if id in rows then Some(Materialize(id, rows[id])) else None
    }

    /**
     * `CreateAsync`: inserts the seven non-key columns of `donation` (its `Id`
     * is ignored) and returns the identity the table assigned, a key no row had.
     * Reading that key back gives the donation with the new `Id`.
     */
    method Create(donation: FoodDonation) returns (r: Result<Int32, StoreError>)
      requires Valid()
      modifies this
      ensures Valid()
      ensures r.Ok? <==> old(nextIdentity) <= MaxInt32
      ensures r.Ok? ==> r.value == old(nextIdentity) && r.value !in old(rows)
      ensures r.Ok? ==> rows == old(rows)[r.value := Columns(donation)] && nextIdentity == old(nextIdentity) + 1
      ensures r.Ok? ==> GetById(r.value) == Some(donation.(id := r.value))
      ensures r.Ok? ==> forall id :: id != r.value ==> GetById(id) == old(GetById(id))
      ensures r.Err? ==> r.error == IdentityOverflow && rows == old(rows) && nextIdentity == old(nextIdentity)
    {
      if nextIdentity > MaxInt32 {
        return Err(IdentityOverflow);
      }
      var id: Int32 := nextIdentity;
      rows := rows[id := Columns(donation)];
      nextIdentity := nextIdentity + 1;
      ColumnsRoundTrip(donation.(id := id));
      r := Ok(id);
    }

    /**
     * `UpdateAsync`: replaces the seven non-key columns of the row keyed by
     * `donation.Id` and reports whether a row was affected; a missing key is
     * no effect, not an error. No key and no other row changes.
     */
    method Update(donation: FoodDonation) returns (updated: bool)
      requires Valid()
      modifies this
      ensures Valid()
      ensures updated <==> donation.id in old(rows)
      ensures rows == if updated then old(rows)[donation.id := Columns(donation)] else old(rows)
      ensures nextIdentity == old(nextIdentity)
      ensures rows.Keys == old(rows).Keys
      ensures updated ==> GetById(donation.id) == Some(donation)
      ensures forall id :: id != donation.id ==> GetById(id) == old(GetById(id))
    {
      var affectedRows := AffectedRows(donation.id);
      if affectedRows > 0 {
        rows := rows[donation.id := Columns(donation)];
        ColumnsRoundTrip(donation);
      }
      updated := affectedRows > 0;
    }

    /**
     * `DeleteAsync`: removes the row keyed by `id` and reports whether there was
     * one; afterwards no row has that key and every other row is as before.
     */
    method Delete(id: Int32) returns (deleted: bool)
      requires Valid()
      modifies this
      ensures Valid()
      ensures deleted <==> id in old(rows)
      ensures rows == old(rows) - {id}
      ensures nextIdentity == old(nextIdentity)
      ensures GetById(id) == None
      ensures forall k :: k != id ==> GetById(k) == old(GetById(k))
    {
      var affectedRows := AffectedRows(id);
      rows := rows - {id};
      deleted := affectedRows > 0;
    }
  }
}
