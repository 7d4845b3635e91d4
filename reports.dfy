/**
 * The reports page as a function of the request: the `event` query
 * parameter picks the event (or the page asks for one), the other
 * parameters are normalised to the query's filters, and the page shows
 * either the amount-sorted list or the date groups, the summary, an
 * export of every listed entry, or an empty-state message.
 */
module Reports {
  import opened Wrappers
  import opened Schema
  import opened Ledger
  import Actions

  /** The query parameters as they arrive: each one absent or some text. */
  datatype SearchParams = SearchParams(
    txType: Option<string>, sortBy: Option<string>, sortOrder: Option<string>,
    event: Option<string>, paymentMode: Option<string>)

  /** The query's filters after normalisation. */
  datatype Filters = Filters(typeFilter: Option<TxType>, sortBy: SortField, order: SortOrder, modeFilter: Option<PaymentMode>)

  /** What the page renders. */
  datatype Page =
    | SelectEventPrompt
    | EventNotFound
    | Report(event: Event, filters: Filters, result: GroupedResult, summary: Summary,
             isEmpty: bool, allEntries: seq<Transaction>, emptyMessage: string)

  /**
   * Unknown values fall back to the defaults: no type filter, date order,
   * descending, no payment-mode filter. Only the exact texts select
   * anything else.
   */
  function Normalize(params: SearchParams): (f: Filters)
    ensures f.typeFilter == Some(Income) <==> params.txType == Some("income")
    ensures f.typeFilter == Some(Expenditure) <==> params.txType == Some("expenditure")
    ensures f.sortBy == ByAmount <==> params.sortBy == Some("amount")
    ensures f.order == Asc <==> params.sortOrder == Some("asc")
    ensures f.modeFilter == Some(Cash) <==> params.paymentMode == Some("cash")
    ensures f.modeFilter == Some(Bank) <==> params.paymentMode == Some("bank")
  {
    Filters(
      if params.txType == Some("income") then Some(Income)
      else if params.txType == Some("expenditure") then Some(Expenditure)
      else None,
      if params.sortBy == Some("amount") then ByAmount else ByDate,
      if params.sortOrder == Some("asc") then Asc else Desc,
      if params.paymentMode == Some("cash") then Some(Cash)
      else if params.paymentMode == Some("bank") then Some(Bank)
      else None)
  }

  /** `params.event ? Number(params.event) : null`: an absent or empty parameter gives `null`. */
  function EventParam(params: SearchParams, toNumber: string -> Coerced): Option<Coerced>
  {
    if params.event.Some? && params.event.value != "" then Some(toNumber(params.event.value)) else None
  }

  /** `getEventById`: the first event whose id equals the number. */
  function FindEvent(events: seq<Event>, id: Coerced): (found: Option<Event>)
    ensures found.Some? ==> found.value in events && Actions.IdMatches(found.value.id, id)
    ensures found.None? <==> forall i :: 0 <= i < |events| ==> !Actions.IdMatches(events[i].id, id)
  {
    if events == [] then None
    else if Actions.IdMatches(events[0].id, id) then Some(events[0])
    else FindEvent(events[1..], id)
  }

  /** `isEmpty`: no sorted rows in amount mode, no groups in date mode (a missing view counts as empty). */
  function IsEmpty(sortBy: SortField, result: GroupedResult): bool
  {
    if sortBy == ByAmount then result.sorted.None? || |result.sorted.value| == 0
    else result.grouped.None? || |result.grouped.value| == 0
  }

  /** `allEntries`: the sorted list in amount mode, else the groups' entries in group order. */
  function AllEntries(sortBy: SortField, result: GroupedResult): seq<Transaction>
  {
    if sortBy == ByAmount && result.sorted.Some? then result.sorted.value
    else if result.grouped.Some? then Flatten(result.grouped.value)
    else []
  }

  /** How the page names a transaction type. */
  function TypeWord(t: TxType): string
  {
    if t == Income then "income" else "expenditure"
  }

  const NoTransactions: string := "No transactions found. "

  /** The empty-state text: it names the type filter when one is set. */
  function EmptyMessage(typeFilter: Option<TxType>): (m: string)
    ensures |NoTransactions| <= |m| && m[..|NoTransactions|] == NoTransactions
    ensures typeFilter.Some? ==>
      var w := TypeWord(typeFilter.value);
      |NoTransactions| + 3 + |w| <= |m| && m[|NoTransactions| + 3..|NoTransactions| + 3 + |w|] == w
  {
    var hint := if typeFilter.Some? then "No " + TypeWord(typeFilter.value) + " entries recorded yet."
                else "Start by adding your first entry.";
    assert (NoTransactions + hint)[..|NoTransactions|] == NoTransactions;
    assert typeFilter.Some? ==>
      (NoTransactions + hint)[|NoTransactions| + 3..|NoTransactions| + 3 + |TypeWord(typeFilter.value)|]
      == TypeWord(typeFilter.value);
    NoTransactions + hint
  }

  /**
   * The page: without a usable event number it asks for an event; with a
   * number no event has it reports the event missing; otherwise it runs
   * the query and the summary for that event with the normalised filters.
   */
  function ReportsPage(events: seq<Event>, store: seq<Transaction>, params: SearchParams,
                       toNumber: string -> Coerced): (page: Page)
    ensures page.SelectEventPrompt? <==> EventParam(params, toNumber).None? || Actions.IdRejected(EventParam(params, toNumber).value)
    ensures page.EventNotFound? <==>
      && EventParam(params, toNumber).Some? && !Actions.IdRejected(EventParam(params, toNumber).value)
      && FindEvent(events, EventParam(params, toNumber).value).None?
    ensures page.Report? ==> page.event in events && page.filters == Normalize(params)
    ensures page.Report? ==>
      EventParam(params, toNumber).Some? && Actions.IdMatches(page.event.id, EventParam(params, toNumber).value)
  {
    var eventId := EventParam(params, toNumber);
    if eventId.None? || Actions.IdRejected(eventId.value) then SelectEventPrompt
    else
      var event := FindEvent(events, eventId.value);
      if event.None? then EventNotFound
      else
        var f := Normalize(params);
        var id := event.value.id;
        var result := Query(store, id, f.typeFilter, f.sortBy, f.order, f.modeFilter);
        var summary := GetSummary(store, id, f.modeFilter);
        Report(event.value, f, result, summary, IsEmpty(f.sortBy, result), AllEntries(f.sortBy, result),
               EmptyMessage(f.typeFilter))
  }

  /** The fetched rows of a report: the event's rows under the normalised filters, in date order. */
  function ReportRows(store: seq<Transaction>, page: Page): seq<Transaction>
    requires page.Report?
  {
    Fetch(store, page.event.id, page.filters.typeFilter, page.filters.order, page.filters.modeFilter)
  }

  /** Date mode: the grouping is empty exactly when there are no rows. */
  lemma GroupingEmptyIff(order: SortOrder, rows: seq<Transaction>)
    requires SortedBy(FetchOrder(order), rows)
    ensures |Grouping(rows)| == 0 <==> rows == []
  {
    FlattenGrouping(order, rows);
  }

  /**
   * The export lists the fetched rows: in date mode exactly them, in
   * amount mode a reordering of them by amount; the page is empty exactly
   * when there are no such rows, and the download is offered exactly when
   * there is something to export.
   */
  lemma ReportEntries(events: seq<Event>, store: seq<Transaction>, params: SearchParams, toNumber: string -> Coerced)
    requires ReportsPage(events, store, params, toNumber).Report?
    ensures var page := ReportsPage(events, store, params, toNumber);
      var rows := ReportRows(store, page);
      && (page.filters.sortBy == ByDate ==> page.allEntries == rows)
      && (page.filters.sortBy == ByAmount ==> multiset(page.allEntries) == multiset(rows))
      && (page.isEmpty <==> rows == [])
      && (page.isEmpty <==> page.allEntries == [])
  {
    var page := ReportsPage(events, store, params, toNumber);
    var f := page.filters;
    var id := page.event.id;
    var rows := ReportRows(store, page);
    SortByCorrect(FetchOrder(f.order), Select(store, id, f.typeFilter, f.modeFilter));
    if f.sortBy == ByDate {
      QueryByDate(store, id, f.typeFilter, f.order, f.modeFilter);
      GroupingEmptyIff(f.order, rows);
    } else {
      QueryByAmount(store, id, f.typeFilter, f.order, f.modeFilter, 0.0);
      assert |multiset(page.allEntries)| == |multiset(rows)|;
    }
  }

  /** The summary follows the payment-mode filter and the event, never the type filter. */
  lemma SummaryIgnoresTypeFilter(events: seq<Event>, store: seq<Transaction>, params: SearchParams,
                                 toNumber: string -> Coerced, otherType: Option<string>)
    requires ReportsPage(events, store, params, toNumber).Report?
    ensures var page := ReportsPage(events, store, params, toNumber);
      var other := ReportsPage(events, store, params.(txType := otherType), toNumber);
      && other.Report?
      && other.summary == page.summary
      && page.summary == GetSummary(store, page.event.id, Normalize(params).modeFilter)
  {
  }
}
