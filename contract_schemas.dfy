/**
 * Request validation for contracts (backend-python app/schemas/contract.py):
 * field bounds and the field validators, run before a request reaches the
 * router. A request is accepted when the list of validation errors is empty;
 * like the validation library, every failing field is reported, not only the
 * first.
 */
module ContractSchemas {
  import opened Wrappers
  import opened ContractModels

  /** `ContractItemCreate`: rate in cents. */
  datatype ItemInput = ItemInput(equipmentId: Id, quantity: int, dailyRate: int, notes: Option<string>)

  /** `ContractCreate`. */
  datatype ContractCreateInput = ContractCreateInput(
    customerId: Id, startDate: Day, endDate: Day, notes: Option<string>, items: seq<ItemInput>)

  /** `ContractUpdate`: every field optional. */
  datatype ContractUpdateInput = ContractUpdateInput(startDate: Option<Day>, endDate: Option<Day>, notes: Option<string>)

  /** `ContractItemUpdate`. */
  datatype ItemUpdateInput = ItemUpdateInput(quantity: Option<int>, dailyRate: Option<int>, notes: Option<string>)

  /** `ContractFilters`, and the same bounds on the list endpoint's `page` and `page_size` query parameters. */
  datatype FiltersInput = FiltersInput(
    status: Option<ContractStatus>, customerId: Option<Id>,
    startDateFrom: Option<Day>, startDateTo: Option<Day>, search: Option<string>,
    page: int, pageSize: int)

  datatype ValidationError =
    | EndNotAfterStart
    | NoItems
    | QuantityBelowOne(index: nat)
    | NegativeDailyRate(index: nat)
    | PageBelowOne
    | PageSizeOutOfRange

  predicate ValidItem(item: ItemInput) { item.quantity >= 1 && item.dailyRate >= 0 }

  /** The bound violations of `items[k..]`, reported with their positions in the whole list. */
  function ItemErrors(items: seq<ItemInput>, k: nat): (errs: seq<ValidationError>)
    requires k <= |items|
    ensures errs == [] <==> forall i :: k <= i < |items| ==> ValidItem(items[i])
    ensures forall e :: e in errs ==> (e.QuantityBelowOne? || e.NegativeDailyRate?) && k <= e.index < |items|
    ensures forall i :: k <= i < |items| && items[i].quantity < 1 ==> QuantityBelowOne(i) in errs
    ensures forall i :: k <= i < |items| && items[i].dailyRate < 0 ==> NegativeDailyRate(i) in errs
    decreases |items| - k
  {
    if k == |items| then []
    else
      (if items[k].quantity < 1 then [QuantityBelowOne(k)] else [])
      + (if items[k].dailyRate < 0 then [NegativeDailyRate(k)] else [])
      + ItemErrors(items, k + 1)
  }

  /**
   * `ContractCreate` validation: `end_date` after `start_date`
   * (`ContractBase.validate_end_date`), at least one item (`min_length=1` and
   * `validate_items`), and the bounds of every item.
   */
  function ContractCreateErrors(req: ContractCreateInput): (errs: seq<ValidationError>)
    ensures errs == [] <==>
      req.endDate > req.startDate && |req.items| >= 1 && forall i :: 0 <= i < |req.items| ==> ValidItem(req.items[i])
    ensures EndNotAfterStart in errs <==> req.endDate <= req.startDate
    ensures NoItems in errs <==> req.items == []
  {
    (if req.endDate <= req.startDate then [EndNotAfterStart] else [])
    + (if |req.items| == 0 then [NoItems] else [])
    + ItemErrors(req.items, 0)
  }

  function ValidateContractCreate(req: ContractCreateInput): Result<ContractCreateInput, seq<ValidationError>>
  {
    var errs := ContractCreateErrors(req);
    if errs == [] then Ok(req) else Err(errs)
  }

  /**
   * What an accepted creation request guarantees the pricing: the inclusive
   * day count is at least 2, there is an item, and every subtotal the items
   * can produce for that day count is non-negative.
   */
  lemma AcceptedCreateBounds(req: ContractCreateInput)
    requires ValidateContractCreate(req).Ok?
    ensures req.endDate - req.startDate + 1 >= 2
    ensures |req.items| >= 1
    ensures forall i :: 0 <= i < |req.items| ==>
      req.items[i].dailyRate * req.items[i].quantity * (req.endDate - req.startDate + 1) >= 0
  {
    var days := req.endDate - req.startDate + 1;
    forall i | 0 <= i < |req.items|
      ensures req.items[i].dailyRate * req.items[i].quantity * days >= 0
    {
      assert ValidItem(req.items[i]);
      var rq := req.items[i].dailyRate * req.items[i].quantity;
      assert rq >= 0;
    }
  }

  /**
   * `ContractUpdate.validate_end_date`: the end date is compared with the
   * start date only when both are in the same request.
   */
  function ContractUpdateErrors(upd: ContractUpdateInput): (errs: seq<ValidationError>)
    ensures errs == [] <==> !(upd.startDate.Some? && upd.endDate.Some? && upd.endDate.value <= upd.startDate.value)
  {
    if upd.endDate.Some? && upd.startDate.Some? && upd.endDate.value <= upd.startDate.value
    then [EndNotAfterStart] else []
  }

  /** An end date sent alone is never checked, whatever the stored start date is. */
  lemma LoneEndDateAccepted(end: Day, notes: Option<string>)
    ensures ContractUpdateErrors(ContractUpdateInput(None, Some(end), notes)) == []
  {
  }

  /** `ContractItemUpdate`: the bounds apply only to the fields present. */
  function ItemUpdateErrors(upd: ItemUpdateInput): (errs: seq<ValidationError>)
    ensures errs == [] <==>
      (upd.quantity.Some? ==> upd.quantity.value >= 1) && (upd.dailyRate.Some? ==> upd.dailyRate.value >= 0)
    ensures upd.quantity.None? && upd.dailyRate.None? ==> errs == []
  {
    (if upd.quantity.Some? && upd.quantity.value < 1 then [QuantityBelowOne(0)] else [])
    + (if upd.dailyRate.Some? && upd.dailyRate.value < 0 then [NegativeDailyRate(0)] else [])
  }

  /** `ContractFilters`: `page >= 1` and `1 <= page_size <= 100`. */
  function FiltersErrors(f: FiltersInput): (errs: seq<ValidationError>)
    ensures errs == [] <==> f.page >= 1 && 1 <= f.pageSize <= 100
  {
    (if f.page < 1 then [PageBelowOne] else [])
    + (if f.pageSize < 1 || f.pageSize > 100 then [PageSizeOutOfRange] else [])
  }
}
