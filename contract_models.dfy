/**
 * The rental contract entity and its line items (backend-python
 * app/models/contract.py): the six-state `ContractStatus`, the contract
 * record with its audit timestamps and soft-delete marker, the read-only
 * guard properties and the item subtotal.
 *
 * Calendar dates are day numbers; datetimes are integer instants; money
 * (`Numeric(10, 2)`) is an exact integer number of cents.
 */
module ContractModels {
  import opened Wrappers

  type Id = string
  /** A calendar date as a day number: `(d2 - d1).days` is `d2 - d1`. */
  type Day = int
  /** A datetime as an integer timestamp. */
  type Instant = int

  datatype ContractStatus =
    | Rascunho             // draft
    | AguardandoAprovacao  // waiting for approval
    | Aprovado             // approved
    | Ativo                // active
    | Finalizado           // finished
    | Cancelado            // cancelled

  /** One equipment line of a contract; `dailyRate` and `subtotal` in cents. */
  datatype ContractItem = ContractItem(
    equipmentId: Id,
    quantity: int,
    dailyRate: int,
    subtotal: int,
    notes: Option<string>)

  /**
   * A contract row. The items are held inside the record, so they exist only
   * as part of their contract (the ORM's `cascade="all, delete-orphan"`).
   */
  datatype Contract = Contract(
    contractNumber: string,
    customerId: Id,
    createdById: Id,
    approvedById: Option<Id>,
    startDate: Day,
    endDate: Day,
    status: ContractStatus,
    totalValue: int,
    totalDays: int,
    notes: Option<string>,
    cancellationReason: Option<string>,
    createdAt: Instant,
    approvedAt: Option<Instant>,
    activatedAt: Option<Instant>,
    finishedAt: Option<Instant>,
    cancelledAt: Option<Instant>,
    deletedAt: Option<Instant>,
    items: seq<ContractItem>)

  /**
   * `Contract(...)` as the router constructs it: the given columns, and the
   * column defaults for the rest (status `RASCUNHO`, `total_value` 0,
   * `total_days` 0, no items, every optional column empty).
   */
  function NewContract(number: string, customerId: Id, createdById: Id, startDate: Day, endDate: Day,
                       notes: Option<string>, createdAt: Instant): (c: Contract)
    ensures c.status == Rascunho && c.totalValue == 0 && c.totalDays == 0 && c.items == []
    ensures c.approvedAt.None? && c.activatedAt.None? && c.finishedAt.None? && c.cancelledAt.None?
    ensures c.deletedAt.None? && c.approvedById.None? && c.cancellationReason.None?
    ensures c.contractNumber == number && c.startDate == startDate && c.endDate == endDate && c.notes == notes
  {
    Contract(number, customerId, createdById, None, startDate, endDate, Rascunho, 0, 0,
             notes, None, createdAt, None, None, None, None, None, [])
  }

  /** `is_active`: active and not soft-deleted. */
  predicate IsActive(c: Contract) { c.status == Ativo && c.deletedAt.None? }

  /** `can_be_edited`. */
  predicate CanBeEdited(c: Contract) { c.status == Rascunho || c.status == AguardandoAprovacao }

  /** `can_be_approved`. */
  predicate CanBeApproved(c: Contract) { c.status == AguardandoAprovacao }

  /** `can_be_activated`. */
  predicate CanBeActivated(c: Contract) { c.status == Aprovado }

  /** `can_be_cancelled`. */
  predicate CanBeCancelled(c: Contract)
  {
    c.status == Rascunho || c.status == AguardandoAprovacao || c.status == Aprovado || c.status == Ativo
  }

  /** `ContractItem.calculate_subtotal(total_days)`. */
  function CalculateSubtotal(item: ContractItem, totalDays: int): int
  {
    item.dailyRate * item.quantity * totalDays
  }

  /** With a non-negative rate, a positive quantity and a non-negative day count, a subtotal is never negative. */
  lemma SubtotalNonNegative(item: ContractItem, totalDays: int)
    requires item.quantity >= 1 && item.dailyRate >= 0 && totalDays >= 0
    ensures CalculateSubtotal(item, totalDays) >= 0
  {
    var rq := item.dailyRate * item.quantity;
    assert rq >= 0;
    assert rq * totalDays >= 0;
  }
}
