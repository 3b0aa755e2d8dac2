/**
 * The equipment document of the Node/Mongo backend
 * (backend/models/Equipment.model.js): the primary image, the availability
 * test, the tiered rental price and the pre-save hook that makes the total
 * quantity the sum of its parts.
 *
 * Rates are exact integers; an unset rate is `None`.
 */
module LegacyEquipment {
  import opened Wrappers
  import opened LegacyContract

  datatype EquipmentState = Available | Rented | Reserved | Maintenance | Retired

  datatype LegacyImage = LegacyImage(url: string, isPrimary: bool)

  /** The position of the first image flagged primary, as `images.find(img => img.isPrimary)` finds it. */
  function FirstPrimary(images: seq<LegacyImage>): (r: Option<nat>)
    ensures r.Some? ==> (r.value < |images| && images[r.value].isPrimary
                         && forall j :: 0 <= j < r.value ==> !images[j].isPrimary)
    ensures r.None? ==> forall j :: 0 <= j < |images| ==> !images[j].isPrimary
  {
    if images == [] then None
    else if images[0].isPrimary then Some(0)
    else match FirstPrimary(images[1..])
      case None => None
      case Some(k) => Some(k + 1)
  }

  /** A JavaScript number is truthy when it is set and not zero. */
  predicate RateSet(rate: Option<int>)
  {
    rate.Some? && rate.value != 0
  }

  class LegacyEquipmentDoc {
    var status: EquipmentState
    var images: seq<LegacyImage>
    var dailyRate: int
    var weeklyRate: Option<int>
    var monthlyRate: Option<int>
    var quantityTotal: int
    var quantityAvailable: int
    var quantityRented: int
    var quantityReserved: int
    var quantityMaintenance: int

    /** A document with the schema defaults: available, one unit in stock and available. */
    constructor(images: seq<LegacyImage>, dailyRate: int, weeklyRate: Option<int>, monthlyRate: Option<int>)
      ensures this.status == Available && this.images == images
      ensures this.dailyRate == dailyRate && this.weeklyRate == weeklyRate && this.monthlyRate == monthlyRate
      ensures quantityTotal == 1 && quantityAvailable == 1
      ensures quantityRented == 0 && quantityReserved == 0 && quantityMaintenance == 0
    {
      this.status := Available;
      this.images := images;
      this.dailyRate := dailyRate;
      this.weeklyRate := weeklyRate;
      this.monthlyRate := monthlyRate;
      quantityTotal := 1;
      quantityAvailable := 1;
      quantityRented := 0;
      quantityReserved := 0;
      quantityMaintenance := 0;
    }

    /** The `primaryImage` virtual: the first primary image's url, else the first image's, else null. */
    function PrimaryImage(): (r: Option<string>)
      reads this
      ensures r.None? <==> |images| == 0
      ensures r.Some? ==>
        (exists k :: 0 <= k < |images| && images[k].isPrimary && r.value == images[k].url
                     && forall j :: 0 <= j < k ==> !images[j].isPrimary)
        || ((forall j :: 0 <= j < |images| ==> !images[j].isPrimary) && r.value == images[0].url)
    {
      match FirstPrimary(images)
      case Some(k) => Some(images[k].url)
      case None => if |images| > 0 then Some(images[0].url) else None
    }

    /** `isAvailable(quantity)`. */
    predicate IsAvailable(quantity: int)
      reads this
    {
      status == Available && quantityAvailable >= quantity
    }

    /**
     * `calculatePrice(startDate, endDate)`: whole months when a monthly rate
     * is set and the rental is at least 25 days, else whole weeks when a
     * weekly rate is set and it is at least 5 days, else the daily rate.
     */
    function CalculatePrice(start: Millis, end: Millis): int
      reads this
    {
      var days := DayCount(start, end);
      if RateSet(monthlyRate) && days >= 25 then monthlyRate.value * CeilDiv(days, 30)
      else if RateSet(weeklyRate) && days >= 5 then weeklyRate.value * CeilDiv(days, 7)
      else dailyRate * days
    }

    /** The pre-save hook: the total becomes the sum of the four parts, which stay as they are. */
    method PreSave()
      modifies this
      ensures quantityTotal == quantityAvailable + quantityRented + quantityReserved + quantityMaintenance
      ensures quantityAvailable == old(quantityAvailable) && quantityRented == old(quantityRented)
      ensures quantityReserved == old(quantityReserved) && quantityMaintenance == old(quantityMaintenance)
      ensures status == old(status) && images == old(images) && dailyRate == old(dailyRate)
      ensures weeklyRate == old(weeklyRate) && monthlyRate == old(monthlyRate)
    {
      var sum := quantityAvailable + quantityRented + quantityReserved + quantityMaintenance;
      if sum != quantityTotal {
        quantityTotal := sum;
      }
    }
  }

  /** The default request of one unit is available exactly when the status is available and a unit is. */
  lemma AvailableForOne(e: LegacyEquipmentDoc)
    ensures e.IsAvailable(1) <==> e.status == Available && e.quantityAvailable >= 1
    ensures forall q, p :: q <= p && e.IsAvailable(p) ==> e.IsAvailable(q)
  {
  }

  /**
   * The price tiers: the tier chosen, and that a monthly or weekly price
   * covers the whole rental with the fewest whole months or weeks.
   */
  lemma PriceTiers(e: LegacyEquipmentDoc, start: Millis, end: Millis)
    ensures var days := DayCount(start, end);
      if RateSet(e.monthlyRate) && days >= 25 then
        var months := CeilDiv(days, 30);
        e.CalculatePrice(start, end) == e.monthlyRate.value * months
        && months >= 1 && (months - 1) * 30 < days <= months * 30
      else if RateSet(e.weeklyRate) && days >= 5 then
        var weeks := CeilDiv(days, 7);
        e.CalculatePrice(start, end) == e.weeklyRate.value * weeks
        && weeks >= 1 && (weeks - 1) * 7 < days <= weeks * 7
      else e.CalculatePrice(start, end) == e.dailyRate * days
  {
    var days := DayCount(start, end);
    CeilDivBounds(days, 30);
    CeilDivBounds(days, 7);
  }

  /**
   * Nothing checks the order of the dates: with an end before the start and
   * a daily rate, the price is negative.
   */
  lemma InvertedDatesPriceNegative(e: LegacyEquipmentDoc, start: Millis, end: Millis)
    requires end + MsPerDay <= start && e.dailyRate > 0
    ensures e.CalculatePrice(start, end) < 0
  {
    DayCountRoundsUp(start, end);
    var days := DayCount(start, end);
    assert (days - 1) * MsPerDay < end - start <= -(MsPerDay as int);
    if days >= 0 {
      MulLeq(-1, days - 1, MsPerDay);
    }
    assert days < 0;
    MulLeq(days, -1, e.dailyRate);
  }
}
