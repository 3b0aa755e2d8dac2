/**
 * `check_equipment_availability` of the contracts router
 * (backend-python app/api/v1/contracts.py), and the reservation property it
 * is meant to protect: no piece of equipment is held by two approved or
 * active contracts on the same day.
 *
 * The stored contracts are a sequence; a contract's id is its position.
 */
module ContractAvailability {
  import opened Wrappers
  import opened ContractModels
  import opened ContractWorkflow

  /**
   * The three OR-ed date conditions of the query, for an existing contract
   * running from `s` to `e` and a requested period from `start` to `end`.
   */
  predicate ClauseOverlap(s: Day, e: Day, start: Day, end: Day)
  {
    (s <= start && e >= start) || (s <= end && e >= end) || (s >= start && e <= end)
  }

  predicate InRange(d: Day, s: Day, e: Day) { s <= d <= e }

  /** Two date ranges (both ends included) have a day in common. */
  predicate SharesDay(s1: Day, e1: Day, s2: Day, e2: Day)
  {
    var lo := if s1 >= s2 then s1 else s2;
    var hi := if e1 <= e2 then e1 else e2;
    lo <= hi && s1 <= e1 && s2 <= e2
  }

  lemma SharesDayMeansCommonDay(s1: Day, e1: Day, s2: Day, e2: Day)
    ensures SharesDay(s1, e1, s2, e2) <==> exists d :: InRange(d, s1, e1) && InRange(d, s2, e2)
    ensures SharesDay(s1, e1, s2, e2) <==> SharesDay(s2, e2, s1, e1)
  {
    if SharesDay(s1, e1, s2, e2) {
      var lo := if s1 >= s2 then s1 else s2;
      assert InRange(lo, s1, e1) && InRange(lo, s2, e2);
    }
  }

  /** Every range that shares a day with the requested one is caught by the query. */
  lemma SharedDayIsCaught(s: Day, e: Day, start: Day, end: Day)
    requires SharesDay(s, e, start, end)
    ensures ClauseOverlap(s, e, start, end)
  {
  }

  /** For well-formed ranges the query's test is exactly "shares a day". */
  lemma ClauseOverlapExact(s: Day, e: Day, start: Day, end: Day)
    requires s <= e && start <= end
    ensures ClauseOverlap(s, e, start, end) <==> SharesDay(s, e, start, end)
  {
  }

  /**
   * A stored contract whose end date lies before its start date covers no
   * day, yet the third condition still reports it as a conflict; contracts
   * on consecutive periods sharing the hand-over day conflict too.
   */
  lemma QueryBoundaryCases()
    ensures ClauseOverlap(5, 1, 0, 10) && !SharesDay(5, 1, 0, 10)
    ensures ClauseOverlap(1, 5, 5, 9) && SharesDay(1, 5, 5, 9)
    ensures !ClauseOverlap(1, 4, 5, 9)
  {
  }

  /** Approved or active, and not soft-deleted: the contracts the query looks at. */
  predicate Blocking(c: Contract)
  {
    (c.status == Aprovado || c.status == Ativo) && c.deletedAt.None?
  }

  /** The contracts that hold equipment are the active ones (`is_active`) and the approved, undeleted ones. */
  lemma ActiveContractBlocks(c: Contract)
    ensures Blocking(c) <==> IsActive(c) || (c.status == Aprovado && c.deletedAt.None?)
    ensures IsActive(c) ==> Blocking(c)
  {
  }

  predicate HoldsEquipment(c: Contract, equipmentId: Id)
  {
    exists k :: 0 <= k < |c.items| && c.items[k].equipmentId == equipmentId
  }

  /** The number of items of a contract for the given equipment: its rows in the joined query. */
  function MatchingItems(items: seq<ContractItem>, equipmentId: Id): (n: nat)
    ensures n > 0 <==> exists k :: 0 <= k < |items| && items[k].equipmentId == equipmentId
  {
    if items == [] then 0
    else
      var last := |items| - 1;
      MatchingItems(items[..last], equipmentId) + (if items[last].equipmentId == equipmentId then 1 else 0)
  }

  /** Contract `i` is one the query counts for this request. */
  predicate Conflicts(contracts: seq<Contract>, i: nat, equipmentId: Id, start: Day, end: Day, exclude: Option<nat>)
    requires i < |contracts|
  {
    var c := contracts[i];
    HoldsEquipment(c, equipmentId) && Blocking(c)
    && ClauseOverlap(c.startDate, c.endDate, start, end)
    && exclude != Some(i)
  }

  /** `query.count()` over the first `n` contracts. */
  function ConflictCount(contracts: seq<Contract>, n: nat, equipmentId: Id, start: Day, end: Day, exclude: Option<nat>): nat
    requires n <= |contracts|
  {
    if n == 0 then 0
    else
      var c := contracts[n - 1];
      var rows := if Blocking(c) && ClauseOverlap(c.startDate, c.endDate, start, end) && exclude != Some(n - 1)
                  then MatchingItems(c.items, equipmentId) else 0;
      ConflictCount(contracts, n - 1, equipmentId, start, end, exclude) + rows
  }

  /** `check_equipment_availability(db, equipment_id, start, end, exclude_contract_id)`. */
  predicate CheckEquipmentAvailability(contracts: seq<Contract>, equipmentId: Id, start: Day, end: Day, exclude: Option<nat>)
  {
    ConflictCount(contracts, |contracts|, equipmentId, start, end, exclude) == 0
  }

  lemma {:induction false} ConflictCountZero(contracts: seq<Contract>, n: nat, equipmentId: Id, start: Day, end: Day, exclude: Option<nat>)
    requires n <= |contracts|
    ensures ConflictCount(contracts, n, equipmentId, start, end, exclude) == 0 <==>
      forall i :: 0 <= i < n ==> !Conflicts(contracts, i, equipmentId, start, end, exclude)
  {
    if n > 0 {
      ConflictCountZero(contracts, n - 1, equipmentId, start, end, exclude);
      var c := contracts[n - 1];
      var rows := ConflictCount(contracts, n, equipmentId, start, end, exclude)
        - ConflictCount(contracts, n - 1, equipmentId, start, end, exclude);
      assert HoldsEquipment(c, equipmentId) <==> MatchingItems(c.items, equipmentId) > 0;
      assert rows == 0 <==> !Conflicts(contracts, n - 1, equipmentId, start, end, exclude);
    }
  }

  /** The equipment is available exactly when no stored contract conflicts with the request. */
  lemma AvailabilityMeansNoConflict(contracts: seq<Contract>, equipmentId: Id, start: Day, end: Day, exclude: Option<nat>)
    ensures CheckEquipmentAvailability(contracts, equipmentId, start, end, exclude) <==>
      forall i :: 0 <= i < |contracts| ==> !Conflicts(contracts, i, equipmentId, start, end, exclude)
  {
    ConflictCountZero(contracts, |contracts|, equipmentId, start, end, exclude);
  }

  /** Two distinct blocking contracts that hold the same equipment on a common day. */
  predicate Clash(a: Contract, b: Contract)
  {
    Blocking(a) && Blocking(b)
    && (exists k :: 0 <= k < |a.items| && HoldsEquipment(b, a.items[k].equipmentId))
    && SharesDay(a.startDate, a.endDate, b.startDate, b.endDate)
  }

  /** No equipment is held by two approved or active contracts on the same day. */
  predicate NoDoubleBooking(contracts: seq<Contract>)
  {
    forall i, j :: 0 <= i < |contracts| && 0 <= j < |contracts| && i != j ==> !Clash(contracts[i], contracts[j])
  }

  lemma ClashSymmetric(a: Contract, b: Contract)
    requires Clash(a, b)
    ensures Clash(b, a)
  {
    var k :| 0 <= k < |a.items| && HoldsEquipment(b, a.items[k].equipmentId);
    var m :| 0 <= m < |b.items| && b.items[m].equipmentId == a.items[k].equipmentId;
    assert HoldsEquipment(a, b.items[m].equipmentId);
    SharesDayMeansCommonDay(a.startDate, a.endDate, b.startDate, b.endDate);
  }

  /**
   * Replacing a contract by one that blocks nothing, or by one that blocks
   * with the same dates and items as before, cannot create a double booking:
   * edits of drafts, soft deletes, and every transition except approval.
   */
  lemma ReplacementKeepsNoDoubleBooking(contracts: seq<Contract>, id: nat, c: Contract)
    requires NoDoubleBooking(contracts) && id < |contracts|
    requires !Blocking(c)
      || (Blocking(contracts[id]) && c.startDate == contracts[id].startDate
          && c.endDate == contracts[id].endDate && c.items == contracts[id].items)
    ensures NoDoubleBooking(contracts[id := c])
  {
  }

  /** Every allowed transition other than approval keeps the reservation property. */
  lemma TransitionKeepsNoDoubleBooking(contracts: seq<Contract>, id: nat, target: ContractStatus,
                                       reason: Option<string>, actor: Id, now: Instant)
    requires NoDoubleBooking(contracts) && id < |contracts|
    requires ValidateStatusTransition(contracts[id].status, target) && target != Aprovado
    ensures NoDoubleBooking(contracts[id := ApplyStatusChange(contracts[id], target, reason, actor, now)])
  {
    ReplacementKeepsNoDoubleBooking(contracts, id, ApplyStatusChange(contracts[id], target, reason, actor, now));
  }

  /**
   * Approval keeps the reservation property when, at the moment of approval,
   * every item's equipment passes the availability check with the contract
   * itself excluded.
   */
  lemma ApprovalAfterCheckKeepsNoDoubleBooking(contracts: seq<Contract>, id: nat, reason: Option<string>,
                                               actor: Id, now: Instant)
    requires NoDoubleBooking(contracts) && id < |contracts|
    requires forall k :: 0 <= k < |contracts[id].items| ==>
      CheckEquipmentAvailability(contracts, contracts[id].items[k].equipmentId,
                                 contracts[id].startDate, contracts[id].endDate, Some(id))
    ensures NoDoubleBooking(contracts[id := ApplyStatusChange(contracts[id], Aprovado, reason, actor, now)])
  {
    var c := ApplyStatusChange(contracts[id], Aprovado, reason, actor, now);
    var after := contracts[id := c];
    forall i, j | 0 <= i < |after| && 0 <= j < |after| && i != j
      ensures !Clash(after[i], after[j])
    {
      if i == id || j == id {
        var other := if i == id then j else i;
        if Clash(c, after[other]) || Clash(after[other], c) {
          if Clash(after[other], c) { ClashSymmetric(after[other], c); }
          var k :| 0 <= k < |c.items| && HoldsEquipment(after[other], c.items[k].equipmentId);
          var o := contracts[other];
          SharesDayMeansCommonDay(c.startDate, c.endDate, o.startDate, o.endDate);
          SharedDayIsCaught(o.startDate, o.endDate, c.startDate, c.endDate);
          AvailabilityMeansNoConflict(contracts, c.items[k].equipmentId, c.startDate, c.endDate, Some(id));
          assert Conflicts(contracts, other, c.items[k].equipmentId, c.startDate, c.endDate, Some(id));
          assert false;
        }
      }
    }
  }

  /** A draft on one equipment for days 1 to 5. */
  function SamplePending(number: string): Contract
  {
    Contract(number, "customer", "clerk", None, 1, 5, AguardandoAprovacao, 0, 5, None, None, 0,
             None, None, None, None, None, [ContractItem("crane", 1, 100, 500, None)])
  }

  /**
   * Availability is checked only when a contract is created, and then only
   * against approved or active contracts: two pending contracts for the same
   * equipment and days both pass the check, both can be approved, and the
   * equipment ends up double-booked.
   */
  lemma ApprovalWithoutCheckCanDoubleBook()
    ensures var a := SamplePending("CON-2024-0001");
      var b := SamplePending("CON-2024-0002");
      CheckEquipmentAvailability([a], "crane", b.startDate, b.endDate, None)
      && ValidateStatusTransition(a.status, Aprovado) && ValidateStatusTransition(b.status, Aprovado)
      && NoDoubleBooking([a, b])
      && !NoDoubleBooking([ApplyStatusChange(a, Aprovado, None, "manager", 10),
                           ApplyStatusChange(b, Aprovado, None, "manager", 11)])
  {
    var a := SamplePending("CON-2024-0001");
    var b := SamplePending("CON-2024-0002");
    var a2 := ApplyStatusChange(a, Aprovado, None, "manager", 10);
    var b2 := ApplyStatusChange(b, Aprovado, None, "manager", 11);
    assert HoldsEquipment(b2, a2.items[0].equipmentId);
    assert Clash(a2, b2);
    var both := [a2, b2];
    assert both[0] == a2 && both[1] == b2;
    assert Clash(both[0], both[1]);
  }
}
