/**
 * The synthetic donation generator (Services/TestDataService.cs). Each record is
 * built from its position in the batch and from the answers of the random data
 * library (company name, picks, numbers, dates, address, coin flip); those
 * answers and the clock are parameters of the model.
 */
module TestData {
  import opened Models

  /** The `count` of a call that gives none. */
  const DefaultCount: nat := 10

  /** The categories `FoodType` is picked from. */
  const FoodTypes: seq<string> := [
    "Bread", "Vegetables", "Fruits", "Dairy", "Canned Goods",
    "Prepared Meals", "Bakery Items", "Meat", "Beverages"
  ]

  /** The units `Unit` is picked from. */
  const Units: seq<string> := ["kg", "units", "boxes", "bags"]

  /** The window `Date.Recent(30)` draws from, in ticks. */
  const RecentWindow: int := 30 * TicksPerDay

  predicate IsWhiteSpace(c: char)
  {
    c == ' ' || c == '\t' || c == '\n' || c == '\r'
  }

  /** The string has a character that is not white space. */
  predicate NotBlank(s: string)
  {
    |s| > 0 && (!IsWhiteSpace(s[0]) || NotBlank(s[1..]))
  }

  /**
   * What the random data library answers while one record is built, one field
   * per rule in the order the rules are declared.
   */
  datatype Draw = Draw(
    companyName: string,   // Company.CompanyName()
    foodTypePick: int,     // the index PickRandom chooses in FoodTypes
    quantity: int,         // Random.Int(1, 100)
    unitPick: int,         // the index PickRandom chooses in Units
    clock: DateTime,       // the DateTime.Now that Date.Recent(30) reads for this record
    recentOffset: int,     // how far before `clock` Date.Recent(30) lands, in ticks
    fullAddress: string,   // Address.FullAddress()
    coin: bool)            // Random.Bool()

  /** The ranges the library guarantees for its answers. */
  predicate WellFormedDraw(w: Draw)
  {
    && NotBlank(w.companyName)
    && 0 <= w.foodTypePick < |FoodTypes|
    && 1 <= w.quantity <= 100
    && 0 <= w.unitPick < |Units|
    && 0 <= w.recentOffset <= RecentWindow
    && NotBlank(w.fullAddress)
  }

  /** Every string in the two pick lists is non-blank. */
  lemma PickListsNotBlank()
    ensures forall t :: t in FoodTypes ==> NotBlank(t)
    ensures forall u :: u in Units ==> NotBlank(u)
  {
    var types := FoodTypes;
    forall i | 0 <= i < |types| ensures NotBlank(types[i]) {
      assert types[i][0] != ' ' && types[i][0] != '\t' && types[i][0] != '\n' && types[i][0] != '\r';
    }
    var units := Units;
    forall i | 0 <= i < |units| ensures NotBlank(units[i]) {
      assert units[i][0] != ' ' && units[i][0] != '\t' && units[i][0] != '\n' && units[i][0] != '\r';
    }
  }

  /** The record the rules build at 0-based position `index` (Bogus's `IndexFaker`). */
  function Donation(index: nat, w: Draw): (d: FoodDonation)
    requires index < MaxInt32
    requires WellFormedDraw(w)
    ensures d.id == index + 1
    ensures d.foodType in FoodTypes && d.unit in Units
    ensures 1 <= d.quantity <= 100
    ensures w.clock - RecentWindow <= d.donationDate <= w.clock
    ensures NotBlank(d.donorName) && NotBlank(d.foodType) && NotBlank(d.unit) && NotBlank(d.pickupLocation)
  {
    PickListsNotBlank();
    FoodDonation(
      index + 1,
      w.companyName,
      FoodTypes[w.foodTypePick],
      w.quantity,
      Units[w.unitPick],
      w.clock - w.recentOffset,
      w.fullAddress,
      w.coin)
  }

  /**
   * `GenerateFoodDonations(count)` with the library's answers `draws` (the
   * first `count` are used): exactly `count`
   * records, the i-th with `Id` i + 1, each within the rules' ranges.
   */
  function GenerateFoodDonations(count: nat, draws: seq<Draw>): (r: seq<FoodDonation>)
    requires count <= MaxInt32
    requires count <= |draws|
    requires forall i :: 0 <= i < count ==> WellFormedDraw(draws[i])
    ensures |r| == count
    ensures forall i :: 0 <= i < |r| ==> r[i].id == i + 1
    ensures forall i, j :: 0 <= i < j < |r| ==> r[i].id != r[j].id
    ensures forall d :: d in r ==> 1 <= d.id <= count
    ensures forall d :: d in r ==> 1 <= d.quantity <= 100
    ensures forall d :: d in r ==> d.foodType in FoodTypes && d.unit in Units
    ensures forall i :: 0 <= i < |r| ==> draws[i].clock - RecentWindow <= r[i].donationDate <= draws[i].clock
    ensures forall d :: d in r ==>
              NotBlank(d.donorName) && NotBlank(d.foodType) && NotBlank(d.unit) && NotBlank(d.pickupLocation)
    ensures forall i :: 0 <= i < |r| ==> r[i].isPickedUp == draws[i].coin
  {
    seq(count, i requires 0 <= i < count => Donation(i, draws[i]))
  }

  /** `GenerateFoodDonations()` with no argument: ten records. */
  function GenerateDefaultFoodDonations(draws: seq<Draw>): (r: seq<FoodDonation>)
    requires DefaultCount <= |draws|
    requires forall i :: 0 <= i < DefaultCount ==> WellFormedDraw(draws[i])
    ensures |r| == 10
    ensures forall i :: 0 <= i < |r| ==> r[i].id == i + 1
  {
    GenerateFoodDonations(DefaultCount, draws)
  }

  /**
   * When every clock reading taken during the call lies between `start` and
   * `end`, every donation date lies in the 30 days before `start` up to `end`.
   */
  lemma {:induction false} DatesWithinCallWindow(count: nat, draws: seq<Draw>, start: DateTime, end: DateTime)
    requires count <= MaxInt32
    requires count <= |draws|
    requires forall i :: 0 <= i < count ==> WellFormedDraw(draws[i])
    requires forall i :: 0 <= i < count ==> start <= draws[i].clock <= end
    ensures forall d :: d in GenerateFoodDonations(count, draws) ==> start - RecentWindow <= d.donationDate <= end
  {
    var r := GenerateFoodDonations(count, draws);
    forall d | d in r ensures start - RecentWindow <= d.donationDate <= end {
      var i :| 0 <= i < |r| && r[i] == d;
    }
  }
}
