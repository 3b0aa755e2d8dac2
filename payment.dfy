/**
 * A payment document of the Node back-end (backend models/Payment.model.js):
 * the pre-save hook that marks a pending payment paid when its payment date
 * is set, the overdue check and the automatic description.
 *
 * Instants are integers and the clock is the parameter `now`. Whether the
 * save touched `paidAt` (mongoose's `isModified`) is the parameter
 * `paidAtModified`. The `type` field is kept as text, as stored.
 */
module PaymentModel {
  import opened Wrappers

  datatype PaymentStatus = Pending | Processing | Paid | Failed | Cancelled | Refunded

  /** The labels `getDescription` gives the six payment types. */
  const TypeLabels: map<string, string> := map[
    "deposit" := "Caução",
    "rental" := "Aluguel",
    "late_fee" := "Multa por Atraso",
    "damage" := "Danos ao Equipamento",
    "additional" := "Taxa Adicional",
    "refund" := "Reembolso"]

  const Fallback := "Pagamento"

  /** The status the pre-save hook leaves. */
  function StatusAfterSave(status: PaymentStatus, paidAtModified: bool, paidAt: Option<int>): PaymentStatus
  {
    if paidAtModified && paidAt.Some? && status == Pending then Paid else status
  }

  /** `typeLabels[type] || 'Pagamento'`. */
  function LabelFor(kind: string): string
  {
    if kind in TypeLabels && TypeLabels[kind] != "" then TypeLabels[kind] else Fallback
  }

  class Payment {
    var kind: string
    var status: PaymentStatus
    var dueDate: Option<int>
    var paidAt: Option<int>
    var description: Option<string>

    /** A new payment with the schema default status, pending. */
    constructor(kind: string, dueDate: Option<int>, description: Option<string>)
      ensures this.kind == kind && status == Pending && this.dueDate == dueDate
      ensures paidAt.None? && this.description == description
    {
      this.kind := kind;
      status := Pending;
      this.dueDate := dueDate;
      paidAt := None;
      this.description := description;
    }

    /**
     * The pre-save hook: a pending payment whose `paidAt` this save set
     * becomes paid; every other status, and every other field, is left as
     * it is.
     */
    method PreSave(paidAtModified: bool)
      modifies this
      ensures status == StatusAfterSave(old(status), paidAtModified, old(paidAt))
      ensures kind == old(kind) && dueDate == old(dueDate) && paidAt == old(paidAt) && description == old(description)
    {
      if paidAtModified && paidAt.Some? && status == Pending {
        status := Paid;
      }
    }

    /** `isOverdue`: not paid, with a due date, and the clock past it. */
    predicate IsOverdue(now: int)
      reads this
    {
      status != Paid && dueDate.Some? && now > dueDate.value
    }

    /** `getDescription`: the description when it is not empty, else the type's label. */
    function GetDescription(): string
      reads this
    {
      if Truthy(description) then description.value else LabelFor(kind)
    }
  }

  /**
   * The hook only ever moves a pending payment to paid, and only when the
   * save set its payment date; saving again changes nothing more.
   */
  lemma SaveStatusRules(status: PaymentStatus, paidAtModified: bool, paidAt: Option<int>)
    ensures StatusAfterSave(status, paidAtModified, paidAt) == Paid <==>
      status == Paid || (status == Pending && paidAtModified && paidAt.Some?)
    ensures StatusAfterSave(status, paidAtModified, paidAt) != status ==>
      status == Pending && StatusAfterSave(status, paidAtModified, paidAt) == Paid
    ensures !paidAtModified || paidAt.None? ==> StatusAfterSave(status, paidAtModified, paidAt) == status
    ensures forall again: bool ::
      StatusAfterSave(StatusAfterSave(status, paidAtModified, paidAt), again, paidAt)
      == StatusAfterSave(status, paidAtModified || again, paidAt)
  {
  }

  /**
   * A paid payment, or one without a due date, is never overdue; any other
   * is overdue exactly after its due date, and stays overdue as time passes.
   */
  lemma OverdueRules(p: Payment, now: int, later: int)
    ensures p.status == Paid || p.dueDate.None? ==> !p.IsOverdue(now)
    ensures p.status != Paid && p.dueDate.Some? ==> (p.IsOverdue(now) <==> now > p.dueDate.value)
    ensures p.IsOverdue(now) && later >= now ==> p.IsOverdue(later)
  {
  }

  /**
   * The description is never empty: a non-empty description wins, else the
   * label of a known type, else "Pagamento".
   */
  lemma DescriptionRules(p: Payment)
    ensures p.GetDescription() != ""
    ensures Truthy(p.description) ==> p.GetDescription() == p.description.value
    ensures !Truthy(p.description) && p.kind in TypeLabels ==> p.GetDescription() == TypeLabels[p.kind]
    ensures !Truthy(p.description) && p.kind !in TypeLabels ==> p.GetDescription() == Fallback
    ensures !Truthy(p.description) && p.kind == "late_fee" ==> p.GetDescription() == "Multa por Atraso"
  {
  }

  /**
   * Setting the payment date of a pending payment and saving marks it paid,
   * after which it is no longer overdue at any time.
   */
  method PayAndSave(p: Payment, when: int)
    modifies p
    requires p.status == Pending
    ensures p.status == Paid && p.paidAt == Some(when)
    ensures forall now: int :: !p.IsOverdue(now)
  {
    p.paidAt := Some(when);
    p.PreSave(true);
  }
}
