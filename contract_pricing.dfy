/**
 * `calculate_contract_totals` of the contracts router
 * (backend-python app/api/v1/contracts.py): the inclusive day count of a
 * contract, each item's subtotal for that many days, and their sum.
 *
 * The source writes each subtotal into the item objects it is given; the
 * model returns the priced items and the caller stores them.
 */
module ContractPricing {
  import opened ContractModels

  /** The value of one day of rental: the sum of `daily_rate * quantity` over the items. */
  function DailyAmount(items: seq<ContractItem>): int
  {
    if items == [] then 0
    else DailyAmount(items[..|items| - 1]) + items[|items| - 1].dailyRate * items[|items| - 1].quantity
  }

  /** The sum of the stored subtotals. */
  function SumSubtotals(items: seq<ContractItem>): int
  {
    if items == [] then 0 else SumSubtotals(items[..|items| - 1]) + items[|items| - 1].subtotal
  }

  /** The items with every subtotal set for `days` days, nothing else changed. */
  function Priced(items: seq<ContractItem>, days: int): (r: seq<ContractItem>)
    ensures |r| == |items|
    ensures forall i :: 0 <= i < |items| ==> r[i] == items[i].(subtotal := CalculateSubtotal(items[i], days))
  {
    seq(|items|, i requires 0 <= i < |items| => items[i].(subtotal := CalculateSubtotal(items[i], days)))
  }

  /** The stored total of priced items is the day count times the daily amount. */
  lemma {:induction false} SumOfPriced(items: seq<ContractItem>, days: int)
    ensures SumSubtotals(Priced(items, days)) == days * DailyAmount(items)
  {
    if items != [] {
      var n := |items| - 1;
      var p := Priced(items, days);
      assert p[..n] == Priced(items[..n], days);
      SumOfPriced(items[..n], days);
      var rq := items[n].dailyRate * items[n].quantity;
      assert p[n].subtotal == rq * days;
      assert days * (DailyAmount(items[..n]) + rq) == days * DailyAmount(items[..n]) + days * rq;
    }
  }

  /**
   * `calculate_contract_totals(start, end, items)`: the inclusive day count,
   * the priced items, and a total that is both the sum of their subtotals and
   * the day count times the daily amount.
   */
  method CalculateContractTotals(start: Day, end: Day, items: seq<ContractItem>)
    returns (totalDays: int, totalValue: int, priced: seq<ContractItem>)
    ensures totalDays == end - start + 1
    ensures priced == Priced(items, totalDays)
    ensures totalValue == SumSubtotals(priced)
    ensures totalValue == totalDays * DailyAmount(items)
  {
    totalDays := end - start + 1;
    totalValue := 0;
    priced := [];
    var i := 0;
    while i < |items|
      invariant 0 <= i <= |items|
      invariant priced == Priced(items[..i], totalDays)
      invariant totalValue == totalDays * DailyAmount(items[..i])
    {
      var item := items[i];
      var subtotal := item.dailyRate * item.quantity * totalDays;
      assert items[..i + 1][..i] == items[..i];
      assert DailyAmount(items[..i + 1]) == DailyAmount(items[..i]) + item.dailyRate * item.quantity;
      assert totalDays * (DailyAmount(items[..i]) + item.dailyRate * item.quantity)
        == totalDays * DailyAmount(items[..i]) + subtotal;
      priced := priced + [item.(subtotal := subtotal)];
      totalValue := totalValue + subtotal;
      i := i + 1;
    }
    assert items[..i] == items;
    SumOfPriced(items, totalDays);
  }

  /** Pricing twice for the same day count changes nothing. */
  lemma PricingIdempotent(items: seq<ContractItem>, days: int)
    ensures Priced(Priced(items, days), days) == Priced(items, days)
  {
  }

  /** With valid items (quantity at least 1, rate not negative) the daily amount is not negative. */
  lemma {:induction false} DailyAmountNonNegative(items: seq<ContractItem>)
    requires forall i :: 0 <= i < |items| ==> items[i].quantity >= 1 && items[i].dailyRate >= 0
    ensures DailyAmount(items) >= 0
  {
    if items != [] {
      var n := |items| - 1;
      DailyAmountNonNegative(items[..n]);
      var rq := items[n].dailyRate * items[n].quantity;
      assert rq >= 0;
    }
  }

  /** A contract whose stored day count, subtotals and total agree with its dates and items. */
  predicate PricingConsistent(c: Contract)
  {
    c.totalDays == c.endDate - c.startDate + 1
    && c.items == Priced(c.items, c.totalDays)
    && c.totalValue == SumSubtotals(c.items)
  }

  /**
   * A consistently priced contract with valid items and an end not before its
   * start has a non-negative total; the total changes with the dates only
   * through the day count.
   */
  lemma {:induction false} ConsistentTotal(c: Contract)
    requires PricingConsistent(c)
    requires forall i :: 0 <= i < |c.items| ==> c.items[i].quantity >= 1 && c.items[i].dailyRate >= 0
    requires c.startDate <= c.endDate
    ensures c.totalValue == c.totalDays * DailyAmount(c.items)
    ensures c.totalDays >= 1 && c.totalValue >= 0
  {
    SumOfPriced(c.items, c.totalDays);
    DailyAmountNonNegative(c.items);
    var a := DailyAmount(c.items);
    assert c.totalDays * a >= 0;
  }
}
