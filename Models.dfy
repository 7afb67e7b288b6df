/**
 * The three record types of the application (Models/FoodDonation.cs,
 * Models/FoodReservation.cs, Models/FoodAnalysisResult.cs) and the primitive
 * .NET types they use.
 */
module Models {

  /** C# `int`: a signed 32-bit integer. */
  const MinInt32: int := -0x8000_0000
  const MaxInt32: int := 0x7FFF_FFFF
  type Int32 = x: int | MinInt32 <= x <= MaxInt32

  /**
   * `System.DateTime`, as its tick count (100-nanosecond intervals since
   * 0001-01-01). `default(DateTime)` is tick 0.
   */
  type DateTime = int
  const TicksPerDay: int := 864_000_000_000

  /** `System.Guid`, as its 128-bit value; `Guid.Empty` is 0. */
  const GuidBound: int := 0x1_0000_0000_0000_0000_0000_0000_0000_0000
  type Guid = x: int | 0 <= x < GuidBound
  const EmptyGuid: Guid := 0

  /** A donation row. Quantity is a plain `int`: nothing in the type keeps it non-negative. */
  datatype FoodDonation = FoodDonation(
    id: Int32,
    donorName: string,
    foodType: string,
    quantity: Int32,
    unit: string,
    donationDate: DateTime,
    pickupLocation: string,
    isPickedUp: bool)

  /** `new FoodDonation()`: every property at its initialiser or its type's default. */
  function NewFoodDonation(): (d: FoodDonation)
    ensures d.id == 0 && d.quantity == 0 && !d.isPickedUp
    ensures d.donorName == "" && d.foodType == "" && d.unit == "" && d.pickupLocation == ""
    ensures d.donationDate == 0
  {
    FoodDonation(0, "", "", 0, "", 0, "", false)
  }

  /**
   * A user's claim on an analysed item. `analysisId` is a plain value: nothing
   * ties it to a stored analysis result.
   */
  datatype FoodReservation = FoodReservation(
    analysisId: Guid,
    product: string,
    reservedAmount: Int32,
    userId: string,
    reservedAt: DateTime)

  /**
   * `new FoodReservation()` at the moment `utcNow` (the initialiser of
   * `ReservedAt` reads `DateTime.UtcNow` once, at construction).
   */
  function NewFoodReservation(utcNow: DateTime): (r: FoodReservation)
    ensures r.analysisId == EmptyGuid && r.product == "" && r.reservedAmount == 0 && r.userId == ""
    ensures r.reservedAt == utcNow
  {
    FoodReservation(EmptyGuid, "", 0, "", utcNow)
  }

  /**
   * The outcome of analysing one food photo. The class has no identity field:
   * two results are told apart only by position and content. `jsonTable` is the
   * property the analysis store assigns (FoodAnalysisStore.cs line 19).
   */
  datatype FoodAnalysisResult = FoodAnalysisResult(
    imageBase64: string,
    caption: string,
    createdAt: DateTime,
    jsonTable: string)

  /**
   * `new FoodAnalysisResult()` at the local time `now` (the initialiser of
   * `CreatedAt` reads `DateTime.Now` once, at construction).
   */
  function NewFoodAnalysisResult(now: DateTime): (a: FoodAnalysisResult)
    ensures a.imageBase64 == "" && a.caption == "" && a.jsonTable == ""
    ensures a.createdAt == now
  {
    FoodAnalysisResult("", "", now, "")
  }
}
