/**
 * The contract endpoints of the contracts router
 * (backend-python app/api/v1/contracts.py) over a store of contracts:
 * create, get, update, change status and soft-delete. Request validation runs
 * first (the 422 answer), then the handler's own checks in the handler's
 * order.
 *
 * The `Person` and `Equipment` tables are the sets of existing customer and
 * equipment ids; the user, the clock, the current year and the
 * `%d/%m/%Y %H:%M` rendering of the clock are parameters. A contract's id is
 * its position in the store.
 */
module ContractStore {
  import opened Wrappers
  import opened Text
  import opened ContractModels
  import opened ContractSchemas
  import opened ContractWorkflow
  import opened ContractNumbers
  import opened ContractPricing
  import opened ContractAvailability

  /** The HTTP errors the handlers raise, and the `ValueError` of an unparsable contract number. */
  datatype ApiError =
    | Unprocessable(errors: seq<ValidationError>)               // 422, request validation
    | CustomerNotFound                                          // 404
    | EquipmentNotFound(equipmentId: Id)                        // 404
    | EquipmentUnavailable(equipmentId: Id)                     // 400
    | ContractNotFound                                          // 404
    | NotEditable(status: ContractStatus)                       // 400
    | TransitionNotAllowed(from: ContractStatus, to: ContractStatus) // 400
    | OnlyDraftsDeletable                                       // 400
    | NumberNotParsable(segment: string)                        // unhandled, 500
    | DuplicateNumber(number: string)                           // unique constraint at commit, 500

  /** `ContractStatusUpdate`. */
  datatype StatusUpdateInput = StatusUpdateInput(
    status: ContractStatus, notes: Option<string>, cancellationReason: Option<string>)

  // ---------------------------------------------------------------------------
  // What every stored contract keeps
  // ---------------------------------------------------------------------------

  /**
   * The workflow timestamps agree with the status: a contract still being
   * edited carries none, each later status carries the stamps of the steps
   * that lead to it, only cancelled contracts carry a cancellation, and only
   * drafts are ever soft-deleted.
   */
  predicate StampsAgree(c: Contract)
  {
    (c.status == Rascunho || c.status == AguardandoAprovacao ==>
       c.approvedAt.None? && c.activatedAt.None? && c.finishedAt.None?)
    && (c.status == Aprovado || c.status == Ativo || c.status == Finalizado ==> c.approvedAt.Some?)
    && (c.status == Aprovado ==> c.activatedAt.None? && c.finishedAt.None?)
    && (c.status == Ativo ==> c.activatedAt.Some? && c.finishedAt.None?)
    && (c.status == Finalizado ==> c.activatedAt.Some? && c.finishedAt.Some?)
    && (c.approvedAt.Some? <==> c.approvedById.Some?)
    && (c.status == Cancelado <==> c.cancelledAt.Some?)
    && (c.status != Cancelado ==> c.cancellationReason.None?)
    && (c.deletedAt.Some? ==> c.status == Rascunho)
  }

  /** The item bounds of the creation request. */
  predicate ItemsValid(c: Contract)
  {
    forall i :: 0 <= i < |c.items| ==> c.items[i].quantity >= 1 && c.items[i].dailyRate >= 0
  }

  predicate WellKept(c: Contract)
  {
    StampsAgree(c) && ItemsValid(c) && PricingConsistent(c)
  }

  // ---------------------------------------------------------------------------
  // get_contract
  // ---------------------------------------------------------------------------

  /** `get_contract`, and the lookup every other handler starts with: soft-deleted contracts are not found. */
  function GetContract(contracts: seq<Contract>, id: nat): (r: Result<Contract, ApiError>)
    ensures r.Ok? <==> id < |contracts| && contracts[id].deletedAt.None?
    ensures r.Ok? ==> r.value == contracts[id]
    ensures r.Err? ==> r.error == ContractNotFound
  {
    if id < |contracts| && contracts[id].deletedAt.None? then Ok(contracts[id]) else Err(ContractNotFound)
  }

  // ---------------------------------------------------------------------------
  // create_contract
  // ---------------------------------------------------------------------------

  /** Every stored contract number, soft-deleted contracts included. */
  function Numbers(contracts: seq<Contract>): (ns: seq<string>)
    ensures |ns| == |contracts| && forall i :: 0 <= i < |contracts| ==> ns[i] == contracts[i].contractNumber
  {
    seq(|contracts|, i requires 0 <= i < |contracts| => contracts[i].contractNumber)
  }

  /** No two stored contracts share a number: the `unique=True` constraint of `contract_number`. */
  predicate NumbersDistinct(contracts: seq<Contract>)
  {
    forall i, j :: 0 <= i < j < |contracts| ==> contracts[i].contractNumber != contracts[j].contractNumber
  }

  /** Replacing a contract by one with the same number keeps the numbers distinct. */
  lemma ReplaceKeepsNumbersDistinct(contracts: seq<Contract>, id: nat, c: Contract)
    requires NumbersDistinct(contracts) && id < |contracts| && c.contractNumber == contracts[id].contractNumber
    ensures NumbersDistinct(contracts[id := c])
  {
  }

  /** Every stored contract is well kept. */
  predicate AllWellKept(contracts: seq<Contract>)
  {
    forall i :: 0 <= i < |contracts| ==> WellKept(contracts[i])
  }

  /** Replacing a contract by a well-kept one with the same number keeps every contract well kept and the numbers distinct. */
  lemma ReplaceKeepsStore(contracts: seq<Contract>, id: nat, c: Contract)
    requires AllWellKept(contracts)
    requires NumbersDistinct(contracts) && id < |contracts| && c.contractNumber == contracts[id].contractNumber
    requires WellKept(c)
    ensures AllWellKept(contracts[id := c])
    ensures NumbersDistinct(contracts[id := c])
  {
    ReplaceKeepsNumbersDistinct(contracts, id, c);
  }

  /** The first item, from position `k` on, whose equipment is missing or unavailable. */
  function FirstItemProblem(contracts: seq<Contract>, items: seq<ItemInput>, equipment: set<Id>,
                            start: Day, end: Day, k: nat): Option<ApiError>
    requires k <= |items|
    decreases |items| - k
  {
    if k == |items| then None
    else if items[k].equipmentId !in equipment then Some(EquipmentNotFound(items[k].equipmentId))
    else if !CheckEquipmentAvailability(contracts, items[k].equipmentId, start, end, None)
    then Some(EquipmentUnavailable(items[k].equipmentId))
    else FirstItemProblem(contracts, items, equipment, start, end, k + 1)
  }

  /** No item is refused exactly when every item's equipment exists and is available for the period. */
  lemma {:induction false} NoItemProblem(contracts: seq<Contract>, items: seq<ItemInput>, equipment: set<Id>,
                                         start: Day, end: Day, k: nat)
    requires k <= |items|
    ensures FirstItemProblem(contracts, items, equipment, start, end, k).None? <==>
      forall j :: k <= j < |items| ==>
        items[j].equipmentId in equipment && CheckEquipmentAvailability(contracts, items[j].equipmentId, start, end, None)
    decreases |items| - k
  {
    if k < |items| {
      NoItemProblem(contracts, items, equipment, start, end, k + 1);
    }
  }

  /** `ContractItem(...)` built from a request item: the subtotal starts at its column default, 0. */
  function NewItem(input: ItemInput): ContractItem
  {
    ContractItem(input.equipmentId, input.quantity, input.dailyRate, 0, input.notes)
  }

  function NewItems(inputs: seq<ItemInput>): (r: seq<ContractItem>)
    ensures |r| == |inputs| && forall i :: 0 <= i < |inputs| ==> r[i] == NewItem(inputs[i])
  {
    seq(|inputs|, i requires 0 <= i < |inputs| => NewItem(inputs[i]))
  }

  /** The check loop of `create_contract`: the first item whose equipment is missing or unavailable. */
  method CheckItems(contracts: seq<Contract>, items: seq<ItemInput>, equipment: set<Id>, start: Day, end: Day)
    returns (problem: Option<ApiError>)
    ensures problem == FirstItemProblem(contracts, items, equipment, start, end, 0)
  {
    var i := 0;
    while i < |items|
      invariant 0 <= i <= |items|
      invariant FirstItemProblem(contracts, items, equipment, start, end, 0)
             == FirstItemProblem(contracts, items, equipment, start, end, i)
    {
      var item := items[i];
      if item.equipmentId !in equipment {
        return Some(EquipmentNotFound(item.equipmentId));
      }
      if !CheckEquipmentAvailability(contracts, item.equipmentId, start, end, None) {
        return Some(EquipmentUnavailable(item.equipmentId));
      }
      i := i + 1;
    }
    return None;
  }

  /** The building loop of `create_contract`: one unpriced `ContractItem` per request item, in order. */
  method BuildItems(inputs: seq<ItemInput>) returns (built: seq<ContractItem>)
    ensures built == NewItems(inputs)
  {
    built := [];
    var j := 0;
    while j < |inputs|
      invariant 0 <= j <= |inputs|
      invariant built == NewItems(inputs[..j])
    {
      built := built + [NewItem(inputs[j])];
      j := j + 1;
    }
    assert inputs[..j] == inputs;
  }

  /** The contract `create_contract` stores: a priced draft built from the request. */
  function CreatedContract(req: ContractCreateInput, number: string, actor: Id, now: Instant): Contract
  {
    var days := req.endDate - req.startDate + 1;
    var items := Priced(NewItems(req.items), days);
    NewContract(number, req.customerId, actor, req.startDate, req.endDate, req.notes, now)
      .(items := items, totalDays := days, totalValue := SumSubtotals(items))
  }

  /** The contract built from the totals `calculate_contract_totals` returns is the created contract. */
  lemma CreatedFromTotals(req: ContractCreateInput, number: string, actor: Id, now: Instant,
                          built: seq<ContractItem>, totalDays: int, totalValue: int, priced: seq<ContractItem>)
    requires built == NewItems(req.items)
    requires totalDays == req.endDate - req.startDate + 1
    requires priced == Priced(built, totalDays) && totalValue == SumSubtotals(priced)
    ensures NewContract(number, req.customerId, actor, req.startDate, req.endDate, req.notes, now)
              .(items := priced, totalDays := totalDays, totalValue := totalValue)
            == CreatedContract(req, number, actor, now)
  {
  }

  lemma AppendKeepsWellKept(contracts: seq<Contract>, c: Contract)
    requires forall i :: 0 <= i < |contracts| ==> WellKept(contracts[i])
    requires WellKept(c)
    ensures forall i :: 0 <= i < |contracts + [c]| ==> WellKept((contracts + [c])[i])
  {
  }

  /**
   * The checks of `create_contract` in order: request validation, the
   * customer, each item's equipment and its availability, the contract
   * number, and the unique constraint on that number when the row is
   * committed; the result is the number the new contract gets.
   */
  function CreateCheck(contracts: seq<Contract>, req: ContractCreateInput, customers: set<Id>,
                       equipment: set<Id>, year: nat): Result<string, ApiError>
  {
    var errs := ContractCreateErrors(req);
    if errs != [] then Err(Unprocessable(errs))
    else if req.customerId !in customers then Err(CustomerNotFound)
    else match FirstItemProblem(contracts, req.items, equipment, req.startDate, req.endDate, 0)
      case Some(e) => Err(e)
      case None =>
        match GenerateContractNumber(Numbers(contracts), year)
        case Ok(n) => if n in Numbers(contracts) then Err(DuplicateNumber(n)) else Ok(n)
        case Err(InvalidLiteral(seg)) => Err(NumberNotParsable(seg))
  }

  /** A created contract gets a number no stored contract has, so the numbers stay distinct. */
  lemma CreateKeepsNumbersDistinct(contracts: seq<Contract>, req: ContractCreateInput, customers: set<Id>,
                                   equipment: set<Id>, year: nat, actor: Id, now: Instant)
    requires NumbersDistinct(contracts) && CreateCheck(contracts, req, customers, equipment, year).Ok?
    ensures var number := CreateCheck(contracts, req, customers, equipment, year).value;
      (forall i :: 0 <= i < |contracts| ==> contracts[i].contractNumber != number)
      && NumbersDistinct(contracts + [CreatedContract(req, number, actor, now)])
  {
    var number := CreateCheck(contracts, req, customers, equipment, year).value;
    var all := contracts + [CreatedContract(req, number, actor, now)];
    forall i | 0 <= i < |contracts|
      ensures contracts[i].contractNumber != number
    {
      assert Numbers(contracts)[i] == contracts[i].contractNumber;
    }
    forall i, j | 0 <= i < j < |all|
      ensures all[i].contractNumber != all[j].contractNumber
    {
      if j == |contracts| {
        assert all[i] == contracts[i];
      }
    }
  }

  /**
   * Once `CON-YYYY-9999` and `CON-YYYY-10000` are stored, the generator hands
   * out `CON-YYYY-10000` again, so every later creation of that year fails
   * at the commit and stores nothing.
   */
  lemma CreateAfter9999Refused(contracts: seq<Contract>, req: ContractCreateInput, customers: set<Id>,
                               equipment: set<Id>, year: nat)
    requires Numbers(contracts) == [NumberPrefix(year) + "9999", NumberPrefix(year) + "10000"]
    requires ContractCreateErrors(req) == [] && req.customerId in customers
    requires FirstItemProblem(contracts, req.items, equipment, req.startDate, req.endDate, 0).None?
    ensures CreateCheck(contracts, req, customers, equipment, year) == Err(DuplicateNumber(NumberPrefix(year) + "10000"))
  {
    DuplicateAfter9999(year);
  }

  /**
   * A created contract is a well-kept draft: no stamps, valid items, at
   * least two days, and a non-negative total equal to the day count times
   * the daily amount of the requested items.
   */
  lemma CreatedContractWellKept(req: ContractCreateInput, number: string, actor: Id, now: Instant)
    requires ContractCreateErrors(req) == []
    ensures var c := CreatedContract(req, number, actor, now);
      WellKept(c) && c.status == Rascunho && c.deletedAt.None? && !Blocking(c)
      && c.totalDays >= 2 && c.totalValue == c.totalDays * DailyAmount(NewItems(req.items)) && c.totalValue >= 0
  {
    var c := CreatedContract(req, number, actor, now);
    var items := NewItems(req.items);
    PricingIdempotent(items, c.totalDays);
    SumOfPriced(items, c.totalDays);
    assert forall i :: 0 <= i < |items| ==> ValidItem(req.items[i]);
    DailyAmountNonNegative(items);
    var a := DailyAmount(items);
    assert c.totalDays * a >= 0;
  }

  /** Creating a contract never creates a double booking: it stores a draft. */
  lemma CreateKeepsNoDoubleBooking(contracts: seq<Contract>, c: Contract)
    requires NoDoubleBooking(contracts) && !Blocking(c)
    ensures NoDoubleBooking(contracts + [c])
  {
  }

  // ---------------------------------------------------------------------------
  // update_contract
  // ---------------------------------------------------------------------------

  /**
   * The edit `update_contract` applies: the dates and notes given (notes
   * also when empty), and, when a date was given, the day count, subtotals
   * and total recalculated for the new dates from the stored items.
   */
  function ApplyEdit(c: Contract, upd: ContractUpdateInput): (r: Contract)
    ensures r.startDate == upd.startDate.GetOr(c.startDate) && r.endDate == upd.endDate.GetOr(c.endDate)
    ensures r.notes == (if upd.notes.Some? then upd.notes else c.notes)
    ensures upd.startDate.None? && upd.endDate.None? ==> r.totalDays == c.totalDays && r.totalValue == c.totalValue
    ensures r.(startDate := c.startDate, endDate := c.endDate, notes := c.notes, totalDays := c.totalDays,
               totalValue := c.totalValue, items := c.items) == c
    ensures |r.items| == |c.items|
  {
    var start := if upd.startDate.Some? then upd.startDate.value else c.startDate;
    var end := if upd.endDate.Some? then upd.endDate.value else c.endDate;
    var moved := c.(startDate := start, endDate := end, notes := if upd.notes.Some? then upd.notes else c.notes);
    if upd.startDate.Some? || upd.endDate.Some? then
      var days := end - start + 1;
      var items := Priced(c.items, days);
      moved.(totalDays := days, items := items, totalValue := SumSubtotals(items))
    else moved
  }

  /** `update_contract`: validation, lookup, the editability guard, then the edit. */
  function EditOutcome(contracts: seq<Contract>, id: nat, upd: ContractUpdateInput): Result<Contract, ApiError>
  {
    var errs := ContractUpdateErrors(upd);
    if errs != [] then Err(Unprocessable(errs))
    else match GetContract(contracts, id)
      case Err(e) => Err(e)
      case Ok(c) => if !CanBeEdited(c) then Err(NotEditable(c.status)) else Ok(ApplyEdit(c, upd))
  }

  /**
   * An edit keeps a contract well kept and editable, keeps its status and
   * items apart from their subtotals, and its total is always the day count
   * times the daily amount of its items.
   */
  lemma EditKeepsWellKept(c: Contract, upd: ContractUpdateInput)
    requires WellKept(c) && CanBeEdited(c)
    ensures var r := ApplyEdit(c, upd);
      WellKept(r) && CanBeEdited(r) && r.status == c.status
      && r.totalValue == r.totalDays * DailyAmount(r.items)
      && forall i :: 0 <= i < |c.items| ==> r.items[i].(subtotal := 0) == c.items[i].(subtotal := 0)
  {
    var r := ApplyEdit(c, upd);
    PricingIdempotent(c.items, r.totalDays);
    SumOfPriced(r.items, r.totalDays);
    SumOfPriced(c.items, c.totalDays);
    assert DailyAmount(r.items) == DailyAmount(c.items) by {
      DailyAmountIgnoresSubtotals(r.items, c.items);
    }
  }

  /** The daily amount reads only rates and quantities. */
  lemma {:induction false} DailyAmountIgnoresSubtotals(a: seq<ContractItem>, b: seq<ContractItem>)
    requires |a| == |b|
    requires forall i :: 0 <= i < |a| ==> a[i].dailyRate == b[i].dailyRate && a[i].quantity == b[i].quantity
    ensures DailyAmount(a) == DailyAmount(b)
  {
    if a != [] {
      DailyAmountIgnoresSubtotals(a[..|a| - 1], b[..|b| - 1]);
    }
  }

  /**
   * An end date sent alone is not compared with the stored start date, so an
   * edit can leave a contract ending before it starts, with a day count
   * below one.
   */
  lemma LoneEndDateCanInvertDates(c: Contract)
    requires WellKept(c) && c.status == Rascunho && c.deletedAt.None?
    ensures var r := EditOutcome([c], 0, ContractUpdateInput(None, Some(c.startDate - 1), None));
      r.Ok? && r.value.endDate < r.value.startDate && r.value.totalDays == 0
  {
    LoneEndDateAccepted(c.startDate - 1, None);
  }

  /** Edits apply only to contracts that block nothing, so they never create a double booking. */
  lemma EditKeepsNoDoubleBooking(contracts: seq<Contract>, id: nat, upd: ContractUpdateInput)
    requires NoDoubleBooking(contracts) && EditOutcome(contracts, id, upd).Ok?
    ensures NoDoubleBooking(contracts[id := EditOutcome(contracts, id, upd).value])
  {
    ReplacementKeepsNoDoubleBooking(contracts, id, EditOutcome(contracts, id, upd).value);
  }

  // ---------------------------------------------------------------------------
  // update_contract_status
  // ---------------------------------------------------------------------------

  /** The contract after an allowed status change, with the status note appended. */
  function ChangedStatus(c: Contract, req: StatusUpdateInput, actor: Id, now: Instant, stamp: string): Contract
  {
    ApplyStatusChange(c, req.status, req.cancellationReason, actor, now)
      .(notes := AppendStatusNote(c.notes, req.notes, stamp))
  }

  /** `update_contract_status`: lookup, the transition table, then the change. */
  function StatusOutcome(contracts: seq<Contract>, id: nat, req: StatusUpdateInput, actor: Id, now: Instant,
                         stamp: string): Result<Contract, ApiError>
  {
    match GetContract(contracts, id)
    case Err(e) => Err(e)
    case Ok(c) =>
      if !ValidateStatusTransition(c.status, req.status) then Err(TransitionNotAllowed(c.status, req.status))
      else Ok(ChangedStatus(c, req, actor, now, stamp))
  }

  /** Every allowed status change keeps a live contract well kept. */
  lemma StatusChangeKeepsWellKept(c: Contract, req: StatusUpdateInput, actor: Id, now: Instant, stamp: string)
    requires WellKept(c) && c.deletedAt.None? && ValidateStatusTransition(c.status, req.status)
    ensures WellKept(ChangedStatus(c, req, actor, now, stamp))
  {
  }

  /** A status change other than approval never creates a double booking. */
  lemma StatusChangeKeepsNoDoubleBooking(contracts: seq<Contract>, id: nat, req: StatusUpdateInput,
                                         actor: Id, now: Instant, stamp: string)
    requires NoDoubleBooking(contracts) && req.status != Aprovado
    requires StatusOutcome(contracts, id, req, actor, now, stamp).Ok?
    ensures NoDoubleBooking(contracts[id := StatusOutcome(contracts, id, req, actor, now, stamp).value])
  {
    ReplacementKeepsNoDoubleBooking(contracts, id, StatusOutcome(contracts, id, req, actor, now, stamp).value);
  }

  // ---------------------------------------------------------------------------
  // delete_contract
  // ---------------------------------------------------------------------------

  /** `delete_contract`: lookup, drafts only, then the soft-delete mark. */
  function DeleteOutcome(contracts: seq<Contract>, id: nat, now: Instant): Result<Contract, ApiError>
  {
    match GetContract(contracts, id)
    case Err(e) => Err(e)
    case Ok(c) => if c.status != Rascunho then Err(OnlyDraftsDeletable) else Ok(c.(deletedAt := Some(now)))
  }

  /**
   * A soft-deleted contract can no longer be found, edited, moved or
   * deleted again, but its number still counts for numbering.
   */
  lemma DeletedIsGone(contracts: seq<Contract>, id: nat, now: Instant, upd: ContractUpdateInput,
                      req: StatusUpdateInput, actor: Id, later: Instant, stamp: string)
    requires DeleteOutcome(contracts, id, now).Ok?
    ensures var after := contracts[id := DeleteOutcome(contracts, id, now).value];
      GetContract(after, id) == Err(ContractNotFound)
      && (EditOutcome(after, id, upd).Err? && (ContractUpdateErrors(upd) == [] ==> EditOutcome(after, id, upd) == Err(ContractNotFound)))
      && StatusOutcome(after, id, req, actor, later, stamp) == Err(ContractNotFound)
      && DeleteOutcome(after, id, later) == Err(ContractNotFound)
      && Numbers(after) == Numbers(contracts)
  {
  }

  /** Only drafts are deleted, so deleting never creates a double booking. */
  lemma DeleteKeepsNoDoubleBooking(contracts: seq<Contract>, id: nat, now: Instant)
    requires NoDoubleBooking(contracts) && DeleteOutcome(contracts, id, now).Ok?
    ensures NoDoubleBooking(contracts[id := DeleteOutcome(contracts, id, now).value])
  {
    ReplacementKeepsNoDoubleBooking(contracts, id, DeleteOutcome(contracts, id, now).value);
  }

  // ---------------------------------------------------------------------------
  // The store
  // ---------------------------------------------------------------------------

  /** The `contratos` table with its items. */
  class ContractStore {
    var contracts: seq<Contract>

    /** Every stored contract is well kept, and no two share a number. */
    predicate Valid()
      reads this
    {
      (forall i :: 0 <= i < |contracts| ==> WellKept(contracts[i]))
      && NumbersDistinct(contracts)
    }

    constructor()
      ensures Valid() && contracts == []
    {
      contracts := [];
    }

    /** `create_contract`; the result is the new contract's id. */
    method CreateContract(req: ContractCreateInput, customers: set<Id>, equipment: set<Id>,
                          actor: Id, year: nat, now: Instant) returns (r: Result<nat, ApiError>)
      requires Valid()
      modifies this
      ensures Valid()
      ensures r.Ok? <==> CreateCheck(old(contracts), req, customers, equipment, year).Ok?
      ensures r.Err? ==> r.error == CreateCheck(old(contracts), req, customers, equipment, year).error
                         && contracts == old(contracts)
      ensures r.Ok? ==> (r.value == |old(contracts)|
        && contracts == old(contracts)
             + [CreatedContract(req, CreateCheck(old(contracts), req, customers, equipment, year).value, actor, now)])
    {
      var errs := ContractCreateErrors(req);
      if errs != [] {
        return Err(Unprocessable(errs));
      }
      if req.customerId !in customers {
        return Err(CustomerNotFound);
      }
      var problem := CheckItems(contracts, req.items, equipment, req.startDate, req.endDate);
      if problem.Some? {
        return Err(problem.value);
      }
      var number: string;
      match GenerateContractNumber(Numbers(contracts), year) {
        case Err(InvalidLiteral(seg)) =>
          return Err(NumberNotParsable(seg));
        case Ok(n) =>
          number := n;
      }
      var built := BuildItems(req.items);
      var totalDays, totalValue, priced := CalculateContractTotals(req.startDate, req.endDate, built);
      var c := NewContract(number, req.customerId, actor, req.startDate, req.endDate, req.notes, now)
        .(items := priced, totalDays := totalDays, totalValue := totalValue);
      CreatedFromTotals(req, number, actor, now, built, totalDays, totalValue, priced);
      if number in Numbers(contracts) {
        return Err(DuplicateNumber(number));
      }
      assert CreateCheck(contracts, req, customers, equipment, year) == Ok(number);
      CreatedContractWellKept(req, number, actor, now);
      AppendKeepsWellKept(contracts, c);
      CreateKeepsNumbersDistinct(contracts, req, customers, equipment, year, actor, now);
      contracts := contracts + [c];
      r := Ok(|contracts| - 1);
    }

    /** `update_contract`. */
    method UpdateContract(id: nat, upd: ContractUpdateInput) returns (r: Result<Contract, ApiError>)
      requires Valid()
      modifies this
      ensures Valid()
      ensures r == EditOutcome(old(contracts), id, upd)
      ensures contracts == if r.Ok? then old(contracts)[id := r.value] else old(contracts)
    {
      var errs := ContractUpdateErrors(upd);
      if errs != [] {
        return Err(Unprocessable(errs));
      }
      var found := GetContract(contracts, id);
      if found.Err? {
        return Err(found.error);
      }
      var c := found.value;
      if !CanBeEdited(c) {
        return Err(NotEditable(c.status));
      }
      if upd.startDate.Some? {
        c := c.(startDate := upd.startDate.value);
      }
      if upd.endDate.Some? {
        c := c.(endDate := upd.endDate.value);
      }
      if upd.notes.Some? {
        c := c.(notes := upd.notes);
      }
      if upd.startDate.Some? || upd.endDate.Some? {
        var totalDays, totalValue, priced := CalculateContractTotals(c.startDate, c.endDate, c.items);
        c := c.(totalDays := totalDays, totalValue := totalValue, items := priced);
      }
      assert c == ApplyEdit(found.value, upd);
      EditKeepsWellKept(found.value, upd);
      ReplaceKeepsStore(contracts, id, c);
      contracts := contracts[id := c];
      r := Ok(c);
    }

    /** `update_contract_status`; `stamp` is the current time as `%d/%m/%Y %H:%M`. */
    method UpdateContractStatus(id: nat, req: StatusUpdateInput, actor: Id, now: Instant, stamp: string)
      returns (r: Result<Contract, ApiError>)
      requires Valid()
      modifies this
      ensures Valid()
      ensures r == StatusOutcome(old(contracts), id, req, actor, now, stamp)
      ensures contracts == if r.Ok? then old(contracts)[id := r.value] else old(contracts)
    {
      var found := GetContract(contracts, id);
      if found.Err? {
        return Err(found.error);
      }
      var c := found.value;
      if !ValidateStatusTransition(c.status, req.status) {
        return Err(TransitionNotAllowed(c.status, req.status));
      }
      var changed := ApplyStatusChange(c, req.status, req.cancellationReason, actor, now);
      changed := changed.(notes := AppendStatusNote(c.notes, req.notes, stamp));
      StatusChangeKeepsWellKept(c, req, actor, now, stamp);
      ReplaceKeepsNumbersDistinct(contracts, id, changed);
      contracts := contracts[id := changed];
      r := Ok(changed);
    }

    /** `delete_contract`: marks a draft as deleted; the result is the marked contract. */
    method DeleteContract(id: nat, now: Instant) returns (r: Result<Contract, ApiError>)
      requires Valid()
      modifies this
      ensures Valid()
      ensures r == DeleteOutcome(old(contracts), id, now)
      ensures contracts == if r.Ok? then old(contracts)[id := r.value] else old(contracts)
    {
      var found := GetContract(contracts, id);
      if found.Err? {
        return Err(found.error);
      }
      var c := found.value;
      if c.status != Rascunho {
        return Err(OnlyDraftsDeletable);
      }
      var deleted := c.(deletedAt := Some(now));
      ReplaceKeepsNumbersDistinct(contracts, id, deleted);
      contracts := contracts[id := deleted];
      r := Ok(deleted);
    }
  }
}
