/**
 * The contract status workflow of the contracts router
 * (backend-python app/api/v1/contracts.py): the transition table of
 * `validate_status_transition`, the timestamps `update_contract_status`
 * records for each target status, and the status note it appends.
 */
module ContractWorkflow {
  import opened Wrappers
  import opened ContractModels

  /** The `valid_transitions` dictionary. */
  function TransitionTable(): map<ContractStatus, seq<ContractStatus>>
  {
    map[
      Rascunho := [AguardandoAprovacao, Cancelado],
      AguardandoAprovacao := [Aprovado, Rascunho, Cancelado],
      Aprovado := [Ativo, Cancelado],
      Ativo := [Finalizado, Cancelado],
      Finalizado := [],
      Cancelado := []
    ]
  }

  /** `valid_transitions.get(current, [])`. */
  function AllowedTargets(current: ContractStatus): seq<ContractStatus>
  {
    var table := TransitionTable();
    if current in table then table[current] else []
  }

  /** `validate_status_transition(current, new)`. */
  predicate ValidateStatusTransition(current: ContractStatus, next: ContractStatus)
  {
    next in AllowedTargets(current)
  }

  /**
   * The flow the function's documentation describes: draft to waiting,
   * waiting to approved or back to draft, approved to active, active to
   * finished, and any status to cancelled except finished.
   */
  predicate DocumentedFlow(current: ContractStatus, next: ContractStatus)
  {
    (current == Rascunho && next == AguardandoAprovacao)
    || (current == AguardandoAprovacao && (next == Aprovado || next == Rascunho))
    || (current == Aprovado && next == Ativo)
    || (current == Ativo && next == Finalizado)
    || (next == Cancelado && current != Finalizado)
  }

  /**
   * The table is the documented flow, except that a cancelled contract cannot
   * be cancelled again (the documentation's "any" includes it, the table does
   * not).
   */
  lemma TableMatchesDocumentedFlow(current: ContractStatus, next: ContractStatus)
    ensures ValidateStatusTransition(current, next) <==>
      DocumentedFlow(current, next) && !(current == Cancelado && next == Cancelado)
  {
  }

  /** No status moves to itself, and the finished and cancelled statuses are final. */
  lemma NoSelfLoopsAndFinalStates(s: ContractStatus, t: ContractStatus)
    ensures !ValidateStatusTransition(s, s)
    ensures s == Finalizado || s == Cancelado ==> !ValidateStatusTransition(s, t)
  {
  }

  /** The model's guard properties agree with the table. */
  lemma GuardsAgreeWithTable(c: Contract)
    ensures CanBeCancelled(c) <==> ValidateStatusTransition(c.status, Cancelado)
    ensures CanBeApproved(c) <==> ValidateStatusTransition(c.status, Aprovado)
    ensures CanBeActivated(c) <==> ValidateStatusTransition(c.status, Ativo)
    ensures ValidateStatusTransition(c.status, Finalizado) <==> c.status == Ativo
  {
  }

  /**
   * An active contract (`is_active`) is past editing and approval, can only
   * be finished or cancelled, and only an approved contract becomes active.
   */
  lemma ActiveContractRules(c: Contract, next: ContractStatus)
    ensures IsActive(c) ==> !CanBeEdited(c) && !CanBeApproved(c) && !CanBeActivated(c) && CanBeCancelled(c)
    ensures IsActive(c) ==> (ValidateStatusTransition(c.status, next) <==> next == Finalizado || next == Cancelado)
    ensures ValidateStatusTransition(next, Ativo) <==> next == Aprovado
    ensures c.deletedAt.Some? ==> !IsActive(c)
  {
  }

  /** The stage a status belongs to; draft and waiting share the editing stage. */
  function Stage(s: ContractStatus): (n: nat)
    ensures n == 0 <==> s == Rascunho || s == AguardandoAprovacao
  {
    match s
    case Rascunho => 0
    case AguardandoAprovacao => 0
    case Aprovado => 1
    case Ativo => 2
    case Finalizado => 3
    case Cancelado => 4
  }

  /** Every allowed transition keeps or raises the stage, and keeps it only inside the editing stage. */
  lemma TransitionRaisesStage(s: ContractStatus, t: ContractStatus)
    requires ValidateStatusTransition(s, t)
    ensures Stage(s) <= Stage(t)
    ensures Stage(s) == Stage(t) ==> Stage(s) == 0
  {
  }

  /** A sequence of statuses each reached from the previous one by an allowed transition. */
  predicate IsRun(run: seq<ContractStatus>)
  {
    forall k :: 0 <= k < |run| - 1 ==> ValidateStatusTransition(run[k], run[k + 1])
  }

  lemma {:induction false} RunStageMonotone(run: seq<ContractStatus>, i: nat, j: nat)
    requires IsRun(run) && i < j < |run|
    ensures Stage(run[i]) <= Stage(run[j])
    ensures Stage(run[i]) == Stage(run[j]) ==> Stage(run[i]) == 0
    decreases j - i
  {
    TransitionRaisesStage(run[i], run[i + 1]);
    if i + 1 < j {
      RunStageMonotone(run, i + 1, j);
    }
  }

  /**
   * Along any run of allowed transitions the only statuses a contract can
   * come back to are draft and waiting-for-approval: approval, activation,
   * finishing and cancelling each happen at most once, so each of their
   * timestamps is written at most once.
   */
  lemma OnlyEditableStatusesRepeat(run: seq<ContractStatus>, i: nat, j: nat)
    requires IsRun(run) && i < j < |run| && run[i] == run[j]
    ensures run[i] == Rascunho || run[i] == AguardandoAprovacao
  {
    RunStageMonotone(run, i, j);
  }

  /** Once a contract leaves the editable statuses it never becomes editable again. */
  lemma EditingEndsForGood(run: seq<ContractStatus>, i: nat, j: nat)
    requires IsRun(run) && i < j < |run|
    requires !(run[i] == Rascunho || run[i] == AguardandoAprovacao)
    ensures !(run[j] == Rascunho || run[j] == AguardandoAprovacao)
  {
    RunStageMonotone(run, i, j);
  }

  /**
   * The status change `update_contract_status` applies once the transition
   * is allowed: the new status, plus the timestamp of the target status
   * (approval also records the approver, cancellation its reason, even when
   * none is given).
   */
  function ApplyStatusChange(c: Contract, target: ContractStatus, reason: Option<string>,
                             actor: Id, now: Instant): (r: Contract)
    ensures r.status == target
    ensures r.approvedAt == (if target == Aprovado then Some(now) else c.approvedAt)
    ensures r.approvedById == (if target == Aprovado then Some(actor) else c.approvedById)
    ensures r.activatedAt == (if target == Ativo then Some(now) else c.activatedAt)
    ensures r.finishedAt == (if target == Finalizado then Some(now) else c.finishedAt)
    ensures r.cancelledAt == (if target == Cancelado then Some(now) else c.cancelledAt)
    ensures r.cancellationReason == (if target == Cancelado then reason else c.cancellationReason)
    ensures r.(status := c.status, approvedAt := c.approvedAt, approvedById := c.approvedById,
               activatedAt := c.activatedAt, finishedAt := c.finishedAt, cancelledAt := c.cancelledAt,
               cancellationReason := c.cancellationReason) == c
  {
    var moved := c.(status := target);
    match target
    case Aprovado => moved.(approvedAt := Some(now), approvedById := Some(actor))
    case Ativo => moved.(activatedAt := Some(now))
    case Finalizado => moved.(finishedAt := Some(now))
    case Cancelado => moved.(cancelledAt := Some(now), cancellationReason := reason)
    case _ => moved
  }

  /** One history entry: `[stamp] note`. */
  function NoteEntry(stamp: string, note: string): string { "[" + stamp + "] " + note }

  /**
   * The note appended by `update_contract_status`: with a non-empty note,
   * its entry is appended to non-empty existing notes after a blank line, or
   * replaces empty ones; `stamp` is the `%d/%m/%Y %H:%M` rendering of the
   * current time.
   */
  function AppendStatusNote(notes: Option<string>, note: Option<string>, stamp: string): (r: Option<string>)
    ensures !Truthy(note) ==> r == notes
    ensures Truthy(note) ==> r.Some? && |r.value| > |note.value| && r.value[|r.value| - |note.value|..] == note.value
    ensures Truthy(note) && Truthy(notes) ==> |r.value| > |notes.value| && r.value[..|notes.value|] == notes.value
    ensures Truthy(note) && !Truthy(notes) ==> r.value[0] == '['
  {
    if !Truthy(note) then notes
    else
      var entry := NoteEntry(stamp, note.value);
      if Truthy(notes) then Some(notes.value + "\n\n" + entry) else Some(entry)
  }

  /**
   * One status note: the entry `[stamp] note` is written after the existing
   * notes and a blank line, or on its own when there are no notes yet.
   */
  lemma OneStatusNote(notes: Option<string>, note: Option<string>, stamp: string)
    ensures Truthy(note) && Truthy(notes) ==>
      AppendStatusNote(notes, note, stamp) == Some(notes.value + "\n\n[" + stamp + "] " + note.value)
    ensures Truthy(note) && !Truthy(notes) ==>
      AppendStatusNote(notes, note, stamp) == Some("[" + stamp + "] " + note.value)
  {
    if Truthy(note) && Truthy(notes) {
      assert "\n\n[" == "\n\n" + "[";
      assert notes.value + "\n\n" + NoteEntry(stamp, note.value)
          == notes.value + "\n\n[" + stamp + "] " + note.value;
    }
  }

  /**
   * Notes accumulate: after two status notes the earlier notes, the first
   * entry and the second entry all appear in order, separated by blank lines.
   */
  lemma {:induction false} NotesAccumulate(notes: Option<string>, n1: string, n2: string, s1: string, s2: string)
    requires n1 != "" && n2 != ""
    ensures AppendStatusNote(AppendStatusNote(notes, Some(n1), s1), Some(n2), s2)
      == Some((if Truthy(notes) then notes.value + "\n\n" else "")
              + NoteEntry(s1, n1) + "\n\n" + NoteEntry(s2, n2))
  {
    var e1 := NoteEntry(s1, n1);
    var once := AppendStatusNote(notes, Some(n1), s1);
    assert Truthy(once);
    if !Truthy(notes) {
      assert once.value == e1;
      assert "" + e1 == e1;
    }
  }
}
