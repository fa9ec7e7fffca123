/** Pages of Ledger transactions, filtered after fetching, with a rewritten total count.
    Model of GetTransactions in backend/internal/infrastructure/clients/ledger.go, of
    GetTransactions, GetMyTransactions, GetAllMyTransactions, GetCategoryTransactions and
    clampFilteredTotalCount in backend/internal/service/initiative_service.go, and of the
    client in frontend/app/composables/initiatives/useInitiativeTransactions.ts. */
module Paging {
  import opened Lists

  datatype Txn = Txn(id: string, amount: int, category: string, organization: bool)

  /** Which rows survive the filter of an endpoint. */
  type Filter = Txn -> bool

  function Positive(): Filter {
    (t: Txn) => t.amount > 0
  }

  function KeptIn(rows: seq<Txn>, lo: nat, hi: nat, keep: Filter): (r: seq<Txn>)
    requires lo <= hi <= |rows|
    ensures |r| <= hi - lo
  {
    if lo == hi then []
    else
      var rest := KeptIn(rows, lo, hi - 1, keep);
      if keep(rows[hi-1]) then rest + [rows[hi-1]] else rest
  }

  function Kept(rows: seq<Txn>, keep: Filter): (r: seq<Txn>)
    ensures |r| <= |rows|
  {
    KeptIn(rows, 0, |rows|, keep)
  }

  /** Filtering keeps exactly the rows that survive, each as often and in the order as listed. */
  lemma {:induction false} KeptPicks(rows: seq<Txn>, n: nat, keep: Filter) returns (at: seq<nat>)
    requires n <= |rows|
    ensures Picks(rows[..n], keep, KeptIn(rows, 0, n, keep), at)
  {
    at := [];
    if n > 0 {
      at := KeptPicks(rows, n - 1, keep);
      at := PicksNext(rows[..n-1], keep, KeptIn(rows, 0, n - 1, keep), at, rows[n-1]);
      assert rows[..n-1] + [rows[n-1]] == rows[..n];
      assert KeptIn(rows, 0, n, keep) == KeptIn(rows, 0, n - 1, keep) + if keep(rows[n-1]) then [rows[n-1]] else [];
    }
  }

  lemma {:induction false} KeptMeans(rows: seq<Txn>, lo: nat, hi: nat, keep: Filter)
    requires lo <= hi <= |rows|
    ensures |KeptIn(rows, lo, hi, keep)| == hi - lo <==> forall i :: lo <= i < hi ==> keep(rows[i])
    ensures |KeptIn(rows, lo, hi, keep)| == 0 <==> forall i :: lo <= i < hi ==> !keep(rows[i])
  {
    if lo < hi { KeptMeans(rows, lo, hi - 1, keep); }
  }

  lemma {:induction false} KeptJoins(rows: seq<Txn>, lo: nat, mid: nat, hi: nat, keep: Filter)
    requires lo <= mid <= hi <= |rows|
    ensures KeptIn(rows, lo, hi, keep) == KeptIn(rows, lo, mid, keep) + KeptIn(rows, mid, hi, keep)
  {
    if mid < hi { KeptJoins(rows, lo, mid, hi - 1, keep); }
  }

  lemma {:induction false} KeptOfSlice(rows: seq<Txn>, lo: nat, hi: nat, n: nat, keep: Filter)
    requires lo <= lo + n <= hi <= |rows|
    ensures KeptIn(rows[lo..hi], 0, n, keep) == KeptIn(rows, lo, lo + n, keep)
  {
    if n > 0 { KeptOfSlice(rows, lo, hi, n - 1, keep); }
  }

  /* ---- one page from the Ledger ---- */

  function Min(a: int, b: int): int {
    if a < b then a else b
  }

  /** The limit-aligned offsets: limit added k times. */
  function Offset(limit: nat, k: nat): nat {
    if k == 0 then 0 else Offset(limit, k - 1) + limit
  }

  /** The Ledger's own paging: 1-based page numbers over a fixed list. */
  function LedgerPage(rows: seq<Txn>, perPage: nat, page: nat): (r: seq<Txn>)
    requires perPage > 0 && page > 0
    ensures |r| <= perPage
  {
    var start := Offset(perPage, page - 1);
    rows[Min(start, |rows|)..Min(start + perPage, |rows|)]
  }

  /** The page at the k-th aligned offset. */
  function PageAt(rows: seq<Txn>, limit: nat, k: nat): seq<Txn>
    requires limit > 0
  {
    LedgerPage(rows, limit, k + 1)
  }

  lemma {:induction false} OffsetIsProduct(limit: nat, k: nat)
    ensures Offset(limit, k) == limit * k
  {
    if k > 0 { OffsetIsProduct(limit, k - 1); }
  }

  lemma OffsetOverLimit(limit: nat, k: nat)
    requires limit > 0
    ensures Offset(limit, k) / limit == k
  {
    OffsetIsProduct(limit, k);
    Quotient(Offset(limit, k), limit, Offset(limit, k) / limit, k);
  }

  lemma Quotient(n: int, d: nat, q: int, k: int)
    requires n == d * k && d * q <= n < d * q + d
    ensures q == k
  {
    if k < q { TimesMonotonic(d, k + 1, q); }
    if q < k { TimesMonotonic(d, q + 1, k); }
  }

  lemma {:induction false} TimesMonotonic(d: nat, a: int, b: int)
    requires a <= b
    ensures d * a <= d * b
    decreases b - a
  {
    if a < b { TimesMonotonic(d, a, b - 1); }
  }

  /** The conversion from offsets to page numbers is exact for aligned offsets. */
  lemma AlignedOffset(rows: seq<Txn>, limit: nat, k: nat)
    requires limit > 0
    ensures LedgerPage(rows, limit, Offset(limit, k) / limit + 1) == PageAt(rows, limit, k)
  {
    OffsetOverLimit(limit, k);
    var page := Offset(limit, k) / limit + 1;
    assert page == k + 1;
  }

  /** The rows of the list from `start` on, as many as there are up to the limit. */
  predicate IsPage(rows: seq<Txn>, limit: nat, start: nat, page: seq<Txn>) {
    && |page| == (if start >= |rows| then 0 else if start + limit <= |rows| then limit else |rows| - start)
    && forall i :: 0 <= i < |page| ==> page[i] == rows[start + i]
  }

  /** Pages start at the multiples of their length. */
  lemma PageMeans(rows: seq<Txn>, perPage: nat, page: nat)
    requires perPage > 0 && page > 0
    ensures perPage * (page - 1) >= 0 && IsPage(rows, perPage, perPage * (page - 1), LedgerPage(rows, perPage, page))
  {
    OffsetIsProduct(perPage, page - 1);
  }

  /** The Ledger client: an offset becomes a page number, which is exact for aligned offsets. */
  method FetchTransactions(rows: seq<Txn>, limit: int, offset: int)
    returns (data: array<Txn>, totalCount: nat, limit': nat, offset': nat)
    ensures fresh(data)
    ensures limit' == (if limit <= 0 then 10 else limit) && offset' == (if offset < 0 then 0 else offset)
    ensures totalCount == |rows|
    ensures data[..] == LedgerPage(rows, limit', offset' / limit' + 1)
  {
    limit' := if limit <= 0 then 10 else limit;
    offset' := if offset < 0 then 0 else offset;
    var page := offset' / limit' + 1;
    assert page > 0;
    var resp := LedgerPage(rows, limit', page);
    data := new Txn[|resp|](i requires 0 <= i < |resp| => resp[i]);
    totalCount := |rows|;
  }

  /* ---- filtering it ---- */

  function ClampFilteredTotalCount(totalCount: int, dropped: int, offset: int, limit: int, kept: int, hasMorePages: bool): int {
    var adjusted := totalCount - dropped;
    var minTotal := if hasMorePages && kept == 0 then offset + limit + 1 else offset + kept;
    if adjusted < minTotal then minTotal else adjusted
  }

  /** The total count returned with a page. */
  function TotalWith(total: int, page: seq<Txn>, limit: int, offset: int, keep: Filter): int {
    ClampFilteredTotalCount(total, |page| - |Kept(page, keep)|, offset, limit, |Kept(page, keep)|, total > offset + |page|)
  }

  /** The total for a page of which `kept` rows are left: the Ledger's less what was dropped, but
      at least what the client has by then, and one more than the page could hold if the page is
      empty and not the last. */
  predicate IsTotal(totalCount: int, all: nat, pageLen: nat, kept: nat, limit: nat, offset: nat) {
    var least := if all > offset + pageLen && kept == 0 then offset + limit + 1 else offset + kept;
    && totalCount >= least && totalCount >= all - (pageLen - kept)
    && (totalCount == least || totalCount == all - (pageLen - kept))
  }

  /** The filter writes the kept rows over the page it reads. */
  method KeepInPlace(data: array<Txn>, keep: Filter) returns (kept: nat)
    modifies data
    ensures kept <= data.Length
    ensures data[..kept] == Kept(old(data[..]), keep)
    ensures data[kept..] == old(data[kept..])
  {
    ghost var was := data[..];
    kept := 0;
    for i := 0 to data.Length
      invariant kept <= i
      invariant data[..kept] == KeptIn(was, 0, i, keep)
      invariant forall j :: kept <= j < data.Length ==> data[j] == was[j]
    {
      ghost var before := data[..kept];
      if keep(data[i]) {
        data[kept] := data[i];
        kept := kept + 1;
        assert data[..kept] == before + [was[i]];
      }
    }
  }

  /** What stands at these positions, which are those of the page's rows with a positive amount. */
  ghost predicate PositiveRows(page: seq<Txn>, rows: seq<Txn>, at: seq<nat>) {
    && Positions(at, |page|) && |at| == |rows|
    && (forall k :: 0 <= k < |at| ==> rows[k] == page[at[k]])
    && (forall i :: 0 <= i < |page| ==> (i in at <==> page[i].amount > 0))
  }

  lemma PositivePicks(page: seq<Txn>) returns (at: seq<nat>)
    ensures PositiveRows(page, Kept(page, Positive()), at)
  {
    at := KeptPicks(page, |page|, Positive());
    assert page[..|page|] == page;
  }

  /** The block for donations: filters the page in place and rewrites its total. */
  method FilterDonations(data: array<Txn>, all: nat, limit: nat, offset: nat)
    returns (kept: nat, totalCount: int, ghost at: seq<nat>)
    modifies data
    ensures kept <= data.Length
    ensures data[..kept] == Kept(old(data[..]), Positive())
    ensures totalCount == TotalWith(all, old(data[..]), limit, offset, Positive())
    ensures PositiveRows(old(data[..]), data[..kept], at) && IsTotal(totalCount, all, data.Length, kept, limit, offset)
  {
    at := PositivePicks(data[..]);
    var fullPageLen := data.Length;
    var hasMorePages := all > offset + fullPageLen;
    kept := KeepInPlace(data, Positive());
    totalCount := ClampFilteredTotalCount(all, fullPageLen - kept, offset, limit, kept, hasMorePages);
  }

  /** GetTransactions, GetMyTransactions and GetAllMyTransactions: for donations the page is
      filtered, for other types it is passed on. */
  method GetTransactions(rows: seq<Txn>, donations: bool, limit: nat, offset: nat)
    returns (data: array<Txn>, kept: nat, totalCount: int, ghost page: seq<Txn>, ghost at: seq<nat>)
    requires limit > 0
    ensures fresh(data) && kept <= data.Length
    ensures page == LedgerPage(rows, limit, offset / limit + 1)
    ensures !donations ==> data[..kept] == page && totalCount == |rows|
    // Of the page, exactly the positive credits, and a total never below what the client has.
    ensures donations ==> PositiveRows(page, data[..kept], at)
    ensures donations ==> IsTotal(totalCount, |rows|, |page|, kept, limit, offset)
    ensures donations ==> data[..kept] == Kept(page, Positive())
    ensures donations ==> totalCount == TotalWith(|rows|, page, limit, offset, Positive())
  {
    var limit', offset';
    data, totalCount, limit', offset' := FetchTransactions(rows, limit, offset);
    kept, page, at := data.Length, data[..], [];
    assert data[..kept] == page;
    if donations { kept, totalCount, at := FilterDonations(data, totalCount, limit, offset); }
  }

  /** What stands at these positions, which are those of the page's positive credits of the
      category that are an organization's, or that are not. */
  ghost predicate DonorRows(page: seq<Txn>, matches: Filter, organization: bool, rows: seq<Txn>, at: seq<nat>) {
    && Positions(at, |page|) && |at| == |rows|
    && (forall k :: 0 <= k < |at| ==> rows[k] == page[at[k]])
    && (forall i :: 0 <= i < |page| ==>
          (i in at <==> page[i].organization == organization && page[i].amount > 0 && matches(page[i])))
  }

  lemma DonorRowsNext(page: seq<Txn>, matches: Filter, organization: bool, rows: seq<Txn>, before: seq<nat>, t: Txn)
    returns (at: seq<nat>)
    requires DonorRows(page, matches, organization, rows, before)
    ensures DonorRows(page + [t], matches, organization,
                      rows + if t.organization == organization && t.amount > 0 && matches(t) then [t] else [], at)
  {
    var keep := (t: Txn) => t.organization == organization && t.amount > 0 && matches(t);
    at := PicksNext(page, keep, rows, before, t);
    assert forall i :: 0 <= i < |page + [t]| ==> (i in at <==> keep((page + [t])[i]));
  }

  method SplitByDonor(data: array<Txn>, matches: Filter)
    returns (organizations: seq<Txn>, individuals: seq<Txn>, dropped: nat, ghost orgsAt: seq<nat>, ghost usersAt: seq<nat>)
    ensures DonorRows(data[..], matches, true, organizations, orgsAt) && DonorRows(data[..], matches, false, individuals, usersAt)
    ensures organizations == Kept(Kept(data[..], PositiveAnd(matches)), Organizational())
    ensures individuals == Kept(Kept(data[..], PositiveAnd(matches)), Individual())
    ensures dropped == data.Length - |organizations| - |individuals|
  {
    organizations, individuals, dropped, orgsAt, usersAt := [], [], 0, [], [];
    ghost var page, keep := data[..], PositiveAnd(matches);
    for i := 0 to data.Length
      invariant data[..] == page
      invariant organizations == Kept(KeptIn(page, 0, i, keep), Organizational())
      invariant individuals == Kept(KeptIn(page, 0, i, keep), Individual())
      invariant dropped == i - |organizations| - |individuals|
      invariant DonorRows(page[..i], matches, true, organizations, orgsAt)
      invariant DonorRows(page[..i], matches, false, individuals, usersAt)
    {
      var txn := data[i];
      assert txn == page[i] && page[..i] + [txn] == page[..i+1];
      orgsAt := DonorRowsNext(page[..i], matches, true, organizations, orgsAt, txn);
      usersAt := DonorRowsNext(page[..i], matches, false, individuals, usersAt, txn);
      KeptAppend(KeptIn(page, 0, i, keep), txn, Organizational());
      KeptAppend(KeptIn(page, 0, i, keep), txn, Individual());
      if txn.amount <= 0 || !matches(txn) {
        dropped := dropped + 1;
      } else if txn.organization {
        organizations := organizations + [txn];
      } else {
        individuals := individuals + [txn];
      }
    }
    assert page[..|page|] == page;
  }

  lemma KeptAppend(rows: seq<Txn>, t: Txn, keep: Filter)
    ensures Kept(rows + [t], keep) == Kept(rows, keep) + if keep(t) then [t] else []
  {
    KeptOfSlice(rows + [t], 0, |rows|, |rows|, keep);
    assert (rows + [t])[0..|rows|] == rows;
  }

  /** GetCategoryTransactions: `matches` is the trimmed, case-folded category comparison. */
  method GetCategoryTransactions(rows: seq<Txn>, matches: Filter, limit: nat, offset: nat)
    returns (organizations: seq<Txn>, individuals: seq<Txn>, totalCount: int,
             ghost page: seq<Txn>, ghost orgsAt: seq<nat>, ghost usersAt: seq<nat>)
    requires limit > 0
    ensures page == LedgerPage(rows, limit, offset / limit + 1)
    // Of the page's positive credits of the category, organizations hold exactly those of
    // organization donors and individuals all others.
    ensures DonorRows(page, matches, true, organizations, orgsAt)
    ensures DonorRows(page, matches, false, individuals, usersAt)
    ensures IsTotal(totalCount, |rows|, |page|, |organizations| + |individuals|, limit, offset)
    ensures organizations == Kept(Kept(page, PositiveAnd(matches)), Organizational())
    ensures individuals == Kept(Kept(page, PositiveAnd(matches)), Individual())
    ensures totalCount == TotalWith(|rows|, page, limit, offset, PositiveAnd(matches))
  {
    var data, total, limit', offset' := FetchTransactions(rows, limit, offset);
    page := data[..];
    var fullPageLen := data.Length;
    var hasMorePages := total > offset + fullPageLen;
    var dropped;
    organizations, individuals, dropped, orgsAt, usersAt := SplitByDonor(data, matches);
    var kept := |organizations| + |individuals|;
    SplitCounts(Kept(data[..], PositiveAnd(matches)), |Kept(data[..], PositiveAnd(matches))|);
    totalCount := ClampFilteredTotalCount(total, dropped, offset, limit, kept, hasMorePages);
  }

  function PositiveAnd(matches: Filter): Filter {
    (t: Txn) => t.amount > 0 && matches(t)
  }

  function Organizational(): Filter {
    (t: Txn) => t.organization
  }

  function Individual(): Filter {
    (t: Txn) => !t.organization
  }

  lemma {:induction false} SplitCounts(rows: seq<Txn>, n: nat)
    requires n <= |rows|
    ensures |KeptIn(rows, 0, n, Organizational())| + |KeptIn(rows, 0, n, Individual())| == n
  {
    if n > 0 { SplitCounts(rows, n - 1); }
  }

  /* ---- what the rewritten total tells a client ---- */

  function TotalAt(rows: seq<Txn>, limit: nat, k: nat, keep: Filter): int
    requires limit > 0
  {
    TotalWith(|rows|, PageAt(rows, limit, k), limit, Offset(limit, k), keep)
  }

  function KeptAt(rows: seq<Txn>, limit: nat, k: nat, keep: Filter): nat
    requires limit > 0
  {
    |Kept(PageAt(rows, limit, k), keep)|
  }

  /** Page k is the last, or lies past it. */
  predicate AtEnd(rows: seq<Txn>, limit: nat, k: nat) {
    Offset(limit, k) + limit >= |rows|
  }

  /** The total exceeds offset + kept exactly while the Ledger has more pages, and equals it
      from the last page on. */
  lemma TotalTellsMore(rows: seq<Txn>, limit: nat, k: nat, keep: Filter)
    requires limit > 0
    ensures TotalAt(rows, limit, k, keep) >= Offset(limit, k) + KeptAt(rows, limit, k, keep)
    ensures TotalAt(rows, limit, k, keep) == Offset(limit, k) + KeptAt(rows, limit, k, keep) <==> AtEnd(rows, limit, k)
  {
  }

  /** Everything a client has after pages 0 to k. */
  function Loaded(rows: seq<Txn>, limit: nat, k: nat, keep: Filter): seq<Txn>
    requires limit > 0
  {
    (if k == 0 then [] else Loaded(rows, limit, k - 1, keep)) + Kept(PageAt(rows, limit, k), keep)
  }

  /** Where the first k pages end. */
  function End(rows: seq<Txn>, limit: nat, k: nat): (end: nat)
    ensures end <= |rows|
  {
    Min(Offset(limit, k), |rows|)
  }

  lemma KeptOfPage(rows: seq<Txn>, limit: nat, k: nat, keep: Filter)
    requires limit > 0
    ensures Kept(PageAt(rows, limit, k), keep) == KeptIn(rows, End(rows, limit, k), End(rows, limit, k + 1), keep)
  {
    var lo, hi := End(rows, limit, k), End(rows, limit, k + 1);
    KeptOfSlice(rows, lo, hi, hi - lo, keep);
  }

  lemma PageJoins(rows: seq<Txn>, limit: nat, k: nat, keep: Filter)
    requires limit > 0
    ensures KeptIn(rows, 0, End(rows, limit, k + 1), keep) ==
            KeptIn(rows, 0, End(rows, limit, k), keep) + Kept(PageAt(rows, limit, k), keep)
  {
    KeptOfPage(rows, limit, k, keep);
    KeptJoins(rows, 0, End(rows, limit, k), End(rows, limit, k + 1), keep);
  }

  /** The pages tile the list: what was loaded is each kept row so far, once, in order. */
  lemma {:induction false} LoadedSoFar(rows: seq<Txn>, limit: nat, k: nat, keep: Filter)
    requires limit > 0
    ensures Loaded(rows, limit, k, keep) == KeptIn(rows, 0, End(rows, limit, k + 1), keep)
  {
    PageJoins(rows, limit, k, keep);
    if k > 0 {
      LoadedSoFar(rows, limit, k - 1, keep);
    } else {
      assert KeptIn(rows, 0, End(rows, limit, 0), keep) == [];
    }
  }

  lemma LoadedCount(rows: seq<Txn>, limit: nat, k: nat, keep: Filter)
    requires limit > 0
    ensures |Loaded(rows, limit, k, keep)| == |KeptIn(rows, 0, End(rows, limit, k), keep)| + KeptAt(rows, limit, k, keep)
  {
    LoadedSoFar(rows, limit, k, keep);
    PageJoins(rows, limit, k, keep);
  }

  /** A client that asks for the next page while it has fewer rows than the total. */
  predicate CountingClientStops(rows: seq<Txn>, limit: nat, k: nat, keep: Filter)
    requires limit > 0
  {
    |Loaded(rows, limit, k, keep)| >= TotalAt(rows, limit, k, keep)
  }

  /** Such a client never stops early: when it stops it has every kept row exactly once. */
  lemma CountingClientIsComplete(rows: seq<Txn>, limit: nat, k: nat, keep: Filter)
    requires limit > 0 && CountingClientStops(rows, limit, k, keep)
    ensures Loaded(rows, limit, k, keep) == Kept(rows, keep)
  {
    TotalTellsMore(rows, limit, k, keep);
    LoadedCount(rows, limit, k, keep);
    LoadedSoFar(rows, limit, k, keep);
  }

  /** But it does stop, at its last page, only if the filter dropped no row of an earlier
      page: the total never falls below the offset. */
  lemma CountingClientStopsIff(rows: seq<Txn>, limit: nat, k: nat, keep: Filter)
    requires limit > 0
    ensures CountingClientStops(rows, limit, k, keep) <==>
      AtEnd(rows, limit, k) && Offset(limit, k) <= |rows| && forall i :: 0 <= i < Offset(limit, k) ==> keep(rows[i])
  {
    TotalTellsMore(rows, limit, k, keep);
    LoadedCount(rows, limit, k, keep);
    LoadedSoFar(rows, limit, k, keep);
    KeptMeans(rows, 0, End(rows, limit, k), keep);
  }

  /* ---- the client the frontend has ---- */

  /** It asks for the next page while offset + limit is below the total. */
  predicate FrontendStops(rows: seq<Txn>, limit: nat, k: nat, keep: Filter)
    requires limit > 0
  {
    Offset(limit, k) + limit >= TotalAt(rows, limit, k, keep)
  }

  /** Page k is not the last, kept something, and dropped at least as many rows as are left. */
  predicate TurnsAway(rows: seq<Txn>, limit: nat, k: nat, keep: Filter)
    requires limit > 0
  {
    && !AtEnd(rows, limit, k) && KeptAt(rows, limit, k, keep) > 0
    && limit - KeptAt(rows, limit, k, keep) >= |rows| - (Offset(limit, k) + limit)
  }

  predicate NothingBeyond(rows: seq<Txn>, limit: nat, k: nat, keep: Filter) {
    forall i :: Offset(limit, k) + limit <= i < |rows| ==> !keep(rows[i])
  }

  /** It stops exactly at the last page and at every such page before. */
  lemma FrontendStopsIff(rows: seq<Txn>, limit: nat, k: nat, keep: Filter)
    requires limit > 0
    ensures FrontendStops(rows, limit, k, keep) <==> AtEnd(rows, limit, k) || TurnsAway(rows, limit, k, keep)
  {
  }

  /** The page it stops at, asking from page k on. */
  function StopPage(rows: seq<Txn>, limit: nat, k: nat, keep: Filter): (stop: nat)
    requires limit > 0
    ensures stop >= k && FrontendStops(rows, limit, stop, keep)
    ensures forall j :: k <= j < stop ==> !FrontendStops(rows, limit, j, keep)
    decreases |rows| - Offset(limit, k)
  {
    FrontendStopsIff(rows, limit, k, keep);
    if FrontendStops(rows, limit, k, keep) then k
    else StopPage(rows, limit, k + 1, keep)
  }

  lemma {:induction false} OffsetGrows(limit: nat, j: nat, k: nat)
    requires j <= k
    ensures Offset(limit, j) <= Offset(limit, k)
  {
    if j < k { OffsetGrows(limit, j, k - 1); }
  }

  /** The frontend always stops, and has then every kept row exactly once if and only if no
      page that kept a row and dropped at least as many as were left has a kept row beyond it. */
  lemma FrontendCompleteIff(rows: seq<Txn>, limit: nat, keep: Filter)
    requires limit > 0
    ensures Loaded(rows, limit, StopPage(rows, limit, 0, keep), keep) == Kept(rows, keep) <==>
      forall k: nat :: TurnsAway(rows, limit, k, keep) ==> NothingBeyond(rows, limit, k, keep)
  {
    var stop := StopPage(rows, limit, 0, keep);
    LoadedUpTo(rows, limit, stop, keep);
    FrontendStopsIff(rows, limit, stop, keep);
    if NothingBeyond(rows, limit, stop, keep) {
      forall k: nat | TurnsAway(rows, limit, k, keep) ensures NothingBeyond(rows, limit, k, keep) {
        FrontendStopsIff(rows, limit, k, keep);
        OffsetGrows(limit, stop, k);
      }
    } else {
      assert TurnsAway(rows, limit, stop, keep);
    }
  }

  /** What the first pages hold is everything exactly when nothing kept lies beyond them. */
  lemma LoadedUpTo(rows: seq<Txn>, limit: nat, k: nat, keep: Filter)
    requires limit > 0
    ensures Loaded(rows, limit, k, keep) == Kept(rows, keep) <==> NothingBeyond(rows, limit, k, keep)
  {
    var hi := End(rows, limit, k + 1);
    LoadedSoFar(rows, limit, k, keep);
    KeptJoins(rows, 0, hi, |rows|, keep);
    KeptMeans(rows, hi, |rows|, keep);
    WholeIff(Loaded(rows, limit, k, keep), KeptIn(rows, hi, |rows|, keep), Kept(rows, keep));
  }

  lemma WholeIff<T>(a: seq<T>, b: seq<T>, whole: seq<T>)
    requires whole == a + b
    ensures a == whole <==> |b| == 0
  {
  }

  /** With the frontend's five rows a page, one disbursement among the first five of six
      credits hides the sixth. */
  lemma FrontendLosesADonation(t: Txn, refund: Txn)
    requires t.amount > 0 && refund.amount <= 0
    ensures var rows := [t, t, refund, t, t, t];
      StopPage(rows, 5, 0, Positive()) == 0 && |Loaded(rows, 5, 0, Positive())| == 4 && |Kept(rows, Positive())| == 5
  {
    var rows := [t, t, refund, t, t, t];
    var k := Positive();
    assert Offset(5, 0) == 0 && Offset(5, 1) == 5;
    KeptOfPage(rows, 5, 0, k);
    assert KeptIn(rows, 0, 1, k) == [t] && KeptIn(rows, 0, 2, k) == [t, t];
    assert KeptIn(rows, 0, 3, k) == [t, t];
    assert KeptIn(rows, 0, 4, k) == [t, t, t];
    assert KeptIn(rows, 0, 5, k) == [t, t, t, t];
    FrontendStopsIff(rows, 5, 0, k);
  }
}
