/**
 * `list_contracts` of the contracts router
 * (backend-python app/api/v1/contracts.py): filters, newest-first order,
 * offset pagination and the page count.
 *
 * A truthy `search` makes the handler join `Person` and filter on
 * `Person.name`, an attribute the `Person` model does not have
 * (app/models/person.py declares `full_name`, `company_name` and
 * `trade_name`); building that filter raises before the query runs, so a
 * search ends in a server error. Contracts are stored in creation order, so
 * newest first is the reverse of the stored order.
 */
module ContractListing {
  import opened Wrappers
  import opened Text
  import opened ContractModels
  import opened ContractSchemas
  import opened ContractWorkflow

  /** The filters of the listing query without a search; the soft-deleted are always left out. */
  predicate Matches(c: Contract, f: FiltersInput)
  {
    c.deletedAt.None?
    && (f.status.Some? ==> c.status == f.status.value)
    && (Truthy(f.customerId) ==> c.customerId == f.customerId.value)
    && (f.startDateFrom.Some? ==> c.startDate >= f.startDateFrom.value)
    && (f.startDateTo.Some? ==> c.startDate <= f.startDateTo.value)
  }

  /** The ids of the matching contracts among the first `n`, newest first. */
  function MatchingIds(contracts: seq<Contract>, f: FiltersInput, n: nat): (ids: seq<nat>)
    requires n <= |contracts|
    ensures forall k :: 0 <= k < |ids| ==> ids[k] < n
  {
    if n == 0 then []
    else (if Matches(contracts[n - 1], f) then [n - 1] else []) + MatchingIds(contracts, f, n - 1)
  }

  /** Every listed id is a matching contract. */
  lemma {:induction false} MatchingIdsSound(contracts: seq<Contract>, f: FiltersInput, n: nat)
    requires n <= |contracts|
    ensures forall k :: 0 <= k < |MatchingIds(contracts, f, n)| ==>
      Matches(contracts[MatchingIds(contracts, f, n)[k]], f)
  {
    if n > 0 {
      MatchingIdsSound(contracts, f, n - 1);
      var rest := MatchingIds(contracts, f, n - 1);
      var head: seq<nat> := if Matches(contracts[n - 1], f) then [n - 1] else [];
      var ids := MatchingIds(contracts, f, n);
      assert ids == head + rest;
      forall k | 0 <= k < |ids|
        ensures Matches(contracts[ids[k]], f)
      {
        if k >= |head| {
          assert ids[k] == rest[k - |head|];
        }
      }
    }
  }

  /** Every matching contract among the first `n` is listed. */
  lemma {:induction false} MatchingIdsComplete(contracts: seq<Contract>, f: FiltersInput, n: nat)
    requires n <= |contracts|
    ensures forall i :: 0 <= i < n && Matches(contracts[i], f) ==> i in MatchingIds(contracts, f, n)
  {
    if n > 0 {
      MatchingIdsComplete(contracts, f, n - 1);
      var rest := MatchingIds(contracts, f, n - 1);
      var ids := MatchingIds(contracts, f, n);
      assert ids == (if Matches(contracts[n - 1], f) then [n - 1] else []) + rest;
      assert forall i :: i in rest ==> i in ids;
    }
  }

  /** The listed ids strictly decrease: newest first, each once. */
  lemma {:induction false} MatchingIdsDescending(contracts: seq<Contract>, f: FiltersInput, n: nat)
    requires n <= |contracts|
    ensures forall a, b :: 0 <= a < b < |MatchingIds(contracts, f, n)| ==>
      MatchingIds(contracts, f, n)[a] > MatchingIds(contracts, f, n)[b]
  {
    if n > 0 {
      MatchingIdsDescending(contracts, f, n - 1);
      var rest := MatchingIds(contracts, f, n - 1);
      var head: seq<nat> := if Matches(contracts[n - 1], f) then [n - 1] else [];
      var ids := MatchingIds(contracts, f, n);
      assert ids == head + rest;
      forall a, b | 0 <= a < b < |ids|
        ensures ids[a] > ids[b]
      {
        assert ids[b] == rest[b - |head|];
        if a >= |head| {
          assert ids[a] == rest[a - |head|];
        }
      }
    }
  }

  /**
   * The listed ids are exactly the matching contracts, each once, newest
   * (highest id) first.
   */
  lemma MatchingIdsExact(contracts: seq<Contract>, f: FiltersInput, n: nat)
    requires n <= |contracts|
    ensures var ids := MatchingIds(contracts, f, n);
      (forall k :: 0 <= k < |ids| ==> Matches(contracts[ids[k]], f))
      && (forall i :: 0 <= i < n && Matches(contracts[i], f) ==> i in ids)
      && (forall a, b :: 0 <= a < b < |ids| ==> ids[a] > ids[b])
  {
    MatchingIdsSound(contracts, f, n);
    MatchingIdsComplete(contracts, f, n);
    MatchingIdsDescending(contracts, f, n);
  }

  /** The page number and size take no part in which contracts match. */
  lemma {:induction false} MatchingIdsIgnorePaging(contracts: seq<Contract>, f: FiltersInput, g: FiltersInput,
                                                   n: nat)
    requires n <= |contracts|
    requires g == f.(page := g.page, pageSize := g.pageSize)
    ensures MatchingIds(contracts, g, n) == MatchingIds(contracts, f, n)
  {
    if n > 0 {
      MatchingIdsIgnorePaging(contracts, f, g, n - 1);
      assert Matches(contracts[n - 1], g) == Matches(contracts[n - 1], f);
    }
  }

  /** `.offset(lo).limit(len)`. */
  function Window<T>(s: seq<T>, lo: nat, len: nat): (r: seq<T>)
    ensures |r| <= len
    ensures lo < |s| ==> |r| == Min(len, |s| - lo)
    ensures forall k :: 0 <= k < |r| ==> lo + k < |s| && r[k] == s[lo + k]
  {
    if lo >= |s| then [] else s[lo..lo + Min(len, |s| - lo)]
  }

  /** `(page - 1) * page_size`: the number of results before the page. */
  function Offset(page: nat, pageSize: nat): nat
    requires page >= 1
  {
    (page - 1) * pageSize
  }

  /** `(total + page_size - 1) // page_size`. */
  function TotalPages(total: nat, pageSize: nat): nat
    requires pageSize >= 1
  {
    (total + pageSize - 1) / pageSize
  }

  /** The page count is the least number of pages that holds every result. */
  lemma TotalPagesIsCeiling(total: nat, pageSize: nat)
    requires pageSize >= 1
    ensures TotalPages(total, pageSize) * pageSize >= total
    ensures TotalPages(total, pageSize) >= 1 ==> (TotalPages(total, pageSize) - 1) * pageSize < total
    ensures total == 0 <==> TotalPages(total, pageSize) == 0
  {
    var t := TotalPages(total, pageSize);
    var m := total + pageSize - 1;
    assert m == t * pageSize + m % pageSize;
    assert 0 <= m % pageSize < pageSize;
    if t >= 1 {
      assert (t - 1) * pageSize == t * pageSize - pageSize;
    }
  }

  /** The contracts whose ids are at positions `lo` up to `lo + len` (exclusive) of `ids`. */
  function PageOf(contracts: seq<Contract>, ids: seq<nat>, lo: nat, len: nat): (r: seq<Contract>)
    requires forall k :: 0 <= k < |ids| ==> ids[k] < |contracts|
    ensures |r| <= len
    ensures lo < |ids| ==> |r| == Min(len, |ids| - lo)
    ensures forall k :: 0 <= k < |r| ==> lo + k < |ids| && r[k] == contracts[ids[lo + k]]
  {
    var pageIds := Window(ids, lo, len);
    seq(|pageIds|, k requires 0 <= k < |pageIds| => contracts[pageIds[k]])
  }

  lemma PageEntry(contracts: seq<Contract>, ids: seq<nat>, lo: nat, len: nat, m: nat)
    requires forall k :: 0 <= k < |ids| ==> ids[k] < |contracts|
    requires lo + m < |ids| && m < len
    ensures m < |PageOf(contracts, ids, lo, len)|
    ensures PageOf(contracts, ids, lo, len)[m] == contracts[ids[lo + m]]
  {
  }

  datatype ContractPage = ContractPage(items: seq<Contract>, total: nat, page: nat, pageSize: nat, totalPages: nat)

  /** Why `list_contracts` gives no page. */
  datatype ListError =
    | InvalidFilters(errors: seq<ValidationError>)   // 422, query parameter validation
    | SearchFails                                    // 500, the `Person.name` filter cannot be built

  /**
   * `list_contracts(...)`: out-of-range paging parameters are rejected before
   * the handler runs, and a truthy search fails while the query is built;
   * otherwise the page of the newest-first matches.
   */
  function ListContracts(contracts: seq<Contract>, f: FiltersInput): (r: Result<ContractPage, ListError>)
    ensures r.Ok? <==> f.page >= 1 && 1 <= f.pageSize <= 100 && !Truthy(f.search)
    ensures FiltersErrors(f) != [] ==> r == Err(InvalidFilters(FiltersErrors(f)))
    ensures FiltersErrors(f) == [] && Truthy(f.search) ==> r == Err(SearchFails)
    ensures r.Ok? ==> |r.value.items| <= f.pageSize
    ensures r.Ok? ==> r.value.total == |MatchingIds(contracts, f, |contracts|)|
  {
    var errs := FiltersErrors(f);
    if errs != [] then Err(InvalidFilters(errs))
    else if Truthy(f.search) then Err(SearchFails)
    else
      var ids := MatchingIds(contracts, f, |contracts|);
      Ok(ContractPage(PageOf(contracts, ids, Offset(f.page, f.pageSize), f.pageSize),
                      |ids|, f.page, f.pageSize, TotalPages(|ids|, f.pageSize)))
  }

  /** What the listing returns for page `p`, in terms of the matches of any page. */
  lemma ListedPageAt(contracts: seq<Contract>, f: FiltersInput, p: nat)
    requires p >= 1 && 1 <= f.pageSize <= 100 && !Truthy(f.search)
    ensures var ids := MatchingIds(contracts, f, |contracts|);
      ListContracts(contracts, f.(page := p))
        == Ok(ContractPage(PageOf(contracts, ids, Offset(p, f.pageSize), f.pageSize),
                           |ids|, p, f.pageSize, TotalPages(|ids|, f.pageSize)))
  {
    MatchingIdsIgnorePaging(contracts, f, f.(page := p), |contracts|);
  }

  lemma MulCancel(a: nat, b: nat, c: nat)
    requires c >= 1 && a * c < b * c
    ensures a < b
  {
    assert (b - a) * c == b * c - a * c;
  }

  /**
   * Every position `k` of the results falls on page `k / size + 1`, at entry
   * `k % size`, and that page is within the page count.
   */
  lemma PageOfPosition(k: nat, total: nat, pageSize: nat)
    requires pageSize >= 1 && k < total
    ensures Offset(k / pageSize + 1, pageSize) + k % pageSize == k
    ensures k % pageSize < pageSize
    ensures k / pageSize + 1 <= TotalPages(total, pageSize)
  {
    var q := k / pageSize;
    TotalPagesIsCeiling(total, pageSize);
    var t := TotalPages(total, pageSize);
    assert k == q * pageSize + k % pageSize;
    assert q * pageSize <= k < total <= t * pageSize;
    MulCancel(q, t, pageSize);
  }

  /**
   * Entry `m` of page `p` is the result at position `(p - 1) * page_size + m`
   * of the newest-first matches, and page `p` is counted in `total_pages`;
   * with `PageOfPosition`, every match is listed on its page.
   */
  lemma MatchOnPage(contracts: seq<Contract>, f: FiltersInput, p: nat, m: nat)
    requires 1 <= f.pageSize <= 100 && p >= 1 && m < f.pageSize && !Truthy(f.search)
    requires Offset(p, f.pageSize) + m < |MatchingIds(contracts, f, |contracts|)|
    ensures var r := ListContracts(contracts, f.(page := p));
      r.Ok? && m < |r.value.items|
      && r.value.items[m] == contracts[MatchingIds(contracts, f, |contracts|)[Offset(p, f.pageSize) + m]]
      && p <= r.value.totalPages
  {
    var ids := MatchingIds(contracts, f, |contracts|);
    var ps := f.pageSize;
    ListedPageAt(contracts, f, p);
    PageEntry(contracts, ids, Offset(p, ps), ps, m);
    var items := PageOf(contracts, ids, Offset(p, ps), ps);
    assert ListContracts(contracts, f.(page := p)).value.items == items;
    assert items[m] == contracts[ids[Offset(p, ps) + m]];
    PageCounted(p, |ids|, ps);
  }

  /** A page that starts before the end of the results is counted. */
  lemma PageCounted(p: nat, total: nat, pageSize: nat)
    requires p >= 1 && pageSize >= 1 && Offset(p, pageSize) < total
    ensures p <= TotalPages(total, pageSize)
  {
    TotalPagesIsCeiling(total, pageSize);
    MulCancel(p - 1, TotalPages(total, pageSize), pageSize);
  }

  /** Every listed contract passes the filters, so soft-deleted contracts are never listed. */
  lemma ListedContractsMatch(contracts: seq<Contract>, f: FiltersInput)
    requires ListContracts(contracts, f).Ok?
    ensures var items := ListContracts(contracts, f).value.items;
      forall k :: 0 <= k < |items| ==> Matches(items[k], f) && items[k].deletedAt.None?
  {
    var ids := MatchingIds(contracts, f, |contracts|);
    MatchingIdsSound(contracts, f, |contracts|);
    var lo := Offset(f.page, f.pageSize);
    var items := PageOf(contracts, ids, lo, f.pageSize);
    assert ListContracts(contracts, f).value.items == items;
    forall k | 0 <= k < |items|
      ensures Matches(items[k], f)
    {
      var j := lo + k;
      assert j < |ids| && items[k] == contracts[ids[j]];
      assert Matches(contracts[ids[j]], f);
    }
  }
}
