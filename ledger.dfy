/**
 * The aggregation layer over the transactions of one event: the filtered,
 * ordered fetch; the amount-sorted view; the date-grouped view with
 * per-date subtotals; the per-type summary; and the recent-entries list.
 * The store is a sequence of rows; SQL selection, ordering, grouping and
 * summation are replaced by the functions below.
 */
module Ledger {
  import opened Wrappers
  import opened Strings
  import opened Schema

  datatype SortField = ByDate | ByAmount

  datatype SortOrder = Asc | Desc

  // ---------------------------------------------------------------------
  // Selection (the WHERE clause)
  // ---------------------------------------------------------------------

  /** The row belongs to the event and passes the optional type and payment-mode filters. */
  predicate Matches(t: Transaction, eventId: int, typeFilter: Option<TxType>, modeFilter: Option<PaymentMode>)
  {
    && t.eventId == eventId
    && (typeFilter.Some? ==> t.txType == typeFilter.value)
    && (modeFilter.Some? ==> t.paymentMode == modeFilter.value)
  }

  /** The matching rows, in store order: every matching row, with its multiplicity, and nothing else. */
  function Select(store: seq<Transaction>, eventId: int, typeFilter: Option<TxType>, modeFilter: Option<PaymentMode>)
    : (rows: seq<Transaction>)
    ensures forall i :: 0 <= i < |rows| ==> Matches(rows[i], eventId, typeFilter, modeFilter)
    ensures forall t :: multiset(rows)[t] == if Matches(t, eventId, typeFilter, modeFilter) then multiset(store)[t] else 0
  {
    if store == [] then []
    else
      assert store == [store[0]] + store[1..];
      (if Matches(store[0], eventId, typeFilter, modeFilter) then [store[0]] else [])
      + Select(store[1..], eventId, typeFilter, modeFilter)
  }

  // ---------------------------------------------------------------------
  // Ordering: a stable insertion sort under a strict weak order
  // ---------------------------------------------------------------------

  /**
   * The three orders the layer sorts by: the fetch order (date as requested,
   * then newest `createdAt` first), the amount order of the re-sort, and the
   * newest-first order of the recent-entries list.
   */
  datatype Ordering = FetchOrder(dateOrder: SortOrder) | AmountOrder(amountOrder: SortOrder) | NewestFirst

  /** `a` must come strictly before `b` under `o`. */
  predicate Precedes(o: Ordering, a: Transaction, b: Transaction)
  {
    match o
    case FetchOrder(Asc) => Less(a.date, b.date) || (a.date == b.date && a.createdAt > b.createdAt)
    case FetchOrder(Desc) => Less(b.date, a.date) || (a.date == b.date && a.createdAt > b.createdAt)
    case AmountOrder(Asc) => a.amount < b.amount
    case AmountOrder(Desc) => a.amount > b.amount
    case NewestFirst => a.createdAt > b.createdAt
  }

  lemma PrecedesAsymmetric(o: Ordering, a: Transaction, b: Transaction)
    requires Precedes(o, a, b)
    ensures !Precedes(o, b, a)
  {
    match o
    case FetchOrder(Asc) =>
      if Less(a.date, b.date) { LessAsymmetric(a.date, b.date); LessIrreflexive(a.date); }
    case FetchOrder(Desc) =>
      if Less(b.date, a.date) { LessAsymmetric(b.date, a.date); LessIrreflexive(a.date); }
    case _ =>
  }

  /** "Not after" is transitive: the orders are strict weak orders. */
  lemma PrecedesNegativelyTransitive(o: Ordering, a: Transaction, b: Transaction, c: Transaction)
    requires !Precedes(o, a, b) && !Precedes(o, b, c)
    ensures !Precedes(o, a, c)
  {
    match o
    case FetchOrder(Asc) =>
      LessNegativelyTransitive(a.date, b.date, c.date);
      LessTotal(a.date, b.date);
    case FetchOrder(Desc) =>
      LessNegativelyTransitive(c.date, b.date, a.date);
      LessTotal(a.date, b.date);
    case _ =>
  }

  /** No element is followed by one that should precede it. */
  predicate SortedBy(o: Ordering, s: seq<Transaction>)
  {
    forall i, j :: 0 <= i < j < |s| ==> !Precedes(o, s[j], s[i])
  }

  /** Places `x` before the first element that does not strictly precede it. */
  function Insert(o: Ordering, x: Transaction, s: seq<Transaction>): (r: seq<Transaction>)
    ensures multiset(r) == multiset(s) + multiset{x}
    ensures |r| == |s| + 1
  {
    if s == [] then [x]
    else if Precedes(o, s[0], x) then
      assert s == [s[0]] + s[1..];
      [s[0]] + Insert(o, x, s[1..])
    else [x] + s
  }

  /** Stable insertion sort: elements that are equivalent under `o` keep their input order. */
  function SortBy(o: Ordering, s: seq<Transaction>): seq<Transaction>
  {
    if s == [] then [] else Insert(o, s[0], SortBy(o, s[1..]))
  }

  lemma {:induction false} InsertSorted(o: Ordering, x: Transaction, s: seq<Transaction>)
    requires SortedBy(o, s)
    ensures SortedBy(o, Insert(o, x, s))
  {
    if s != [] {
      var r := Insert(o, x, s);
      if Precedes(o, s[0], x) {
        var tail := Insert(o, x, s[1..]);
        InsertSorted(o, x, s[1..]);
        assert r == [s[0]] + tail;
        forall j | 0 < j < |r| ensures !Precedes(o, r[j], s[0]) {
          var e := r[j];
          assert e in multiset(tail);
          assert e in multiset(s[1..]) + multiset{x};
          if e == x {
            PrecedesAsymmetric(o, s[0], x);
          } else {
            assert e in s[1..];
            var m :| 0 <= m < |s[1..]| && s[1..][m] == e;
            assert s[m + 1] == e;
          }
        }
      } else {
        assert r == [x] + s;
        forall j | 0 < j < |r| ensures !Precedes(o, r[j], x) {
          if j > 1 {
            PrecedesNegativelyTransitive(o, s[j - 1], s[0], x);
          }
        }
      }
    }
  }

  /** The sort returns a permutation of its input, in order. */
  lemma {:induction false} SortByCorrect(o: Ordering, s: seq<Transaction>)
    ensures multiset(SortBy(o, s)) == multiset(s)
    ensures |SortBy(o, s)| == |s|
    ensures SortedBy(o, SortBy(o, s))
  {
    if s != [] {
      SortByCorrect(o, s[1..]);
      InsertSorted(o, s[0], SortBy(o, s[1..]));
      assert s == [s[0]] + s[1..];
    }
  }

  /** The elements of `s` whose amount is `v`, in order. */
  function WithAmount(s: seq<Transaction>, v: real): seq<Transaction>
  {
    if s == [] then [] else (if s[0].amount == v then [s[0]] else []) + WithAmount(s[1..], v)
  }

  lemma WithAmountCons(e: Transaction, rest: seq<Transaction>, v: real)
    ensures WithAmount([e] + rest, v) == (if e.amount == v then [e] else []) + WithAmount(rest, v)
  {
    assert ([e] + rest)[1..] == rest;
  }

  /** The rows of amount `v` among `[x]`, as a prefix. */
  function TieOf(x: Transaction, v: real): seq<Transaction>
  {
    if x.amount == v then [x] else []
  }

  /** Inserting after a head that strictly precedes `x`: the head and `x` cannot share an amount. */
  lemma TiesPastHead(order: SortOrder, x: Transaction, s: seq<Transaction>, v: real)
    requires s != [] && Precedes(AmountOrder(order), s[0], x)
    requires WithAmount(Insert(AmountOrder(order), x, s[1..]), v) == TieOf(x, v) + WithAmount(s[1..], v)
    ensures WithAmount(Insert(AmountOrder(order), x, s), v) == TieOf(x, v) + WithAmount(s, v)
  {
    var tail := Insert(AmountOrder(order), x, s[1..]);
    assert Insert(AmountOrder(order), x, s) == [s[0]] + tail;
    assert s == [s[0]] + s[1..];
    TiesPastElement(s[0], x, tail, s[1..], v);
  }

  /** A row of another amount than `x` can move in front of `x`'s tie without changing the amount-`v` rows. */
  lemma TiesPastElement(h: Transaction, x: Transaction, tail: seq<Transaction>, rest: seq<Transaction>, v: real)
    requires h.amount != x.amount
    requires WithAmount(tail, v) == TieOf(x, v) + WithAmount(rest, v)
    ensures WithAmount([h] + tail, v) == TieOf(x, v) + WithAmount([h] + rest, v)
  {
    WithAmountCons(h, tail, v);
    WithAmountCons(h, rest, v);
    if h.amount == v {
      assert TieOf(x, v) == [];
    } else {
      assert TieOf(h, v) == [];
    }
  }

  lemma TiesAtHead(order: SortOrder, x: Transaction, s: seq<Transaction>, v: real)
    requires s == [] || !Precedes(AmountOrder(order), s[0], x)
    ensures WithAmount(Insert(AmountOrder(order), x, s), v) == TieOf(x, v) + WithAmount(s, v)
  {
    assert Insert(AmountOrder(order), x, s) == [x] + s;
    WithAmountCons(x, s, v);
  }

  lemma {:induction false} InsertKeepsTies(order: SortOrder, x: Transaction, s: seq<Transaction>, v: real)
    ensures WithAmount(Insert(AmountOrder(order), x, s), v) == TieOf(x, v) + WithAmount(s, v)
  {
    if s != [] && Precedes(AmountOrder(order), s[0], x) {
      InsertKeepsTies(order, x, s[1..], v);
      TiesPastHead(order, x, s, v);
    } else {
      TiesAtHead(order, x, s, v);
    }
  }

  /** The amount sort is stable: for every amount, the rows carrying it appear in input order. */
  lemma {:induction false} SortByAmountStable(order: SortOrder, s: seq<Transaction>, v: real)
    ensures WithAmount(SortBy(AmountOrder(order), s), v) == WithAmount(s, v)
  {
    if s != [] {
      SortByAmountStable(order, s[1..], v);
      InsertKeepsTies(order, s[0], SortBy(AmountOrder(order), s[1..]), v);
    }
  }

  // ---------------------------------------------------------------------
  // The fetch and the two views
  // ---------------------------------------------------------------------

  /**
   * The rows the query reads: the matching rows ordered by date as
   * requested, newest `createdAt` first within a date. Rows the SQL
   * ordering leaves tied keep store order.
   */
  function Fetch(store: seq<Transaction>, eventId: int, typeFilter: Option<TxType>, order: SortOrder,
                 modeFilter: Option<PaymentMode>): seq<Transaction>
  {
    SortBy(FetchOrder(order), Select(store, eventId, typeFilter, modeFilter))
  }

  /** Per-date subtotals of one group, as the report shows them. */
  datatype DateGroup = DateGroup(entries: seq<Transaction>, incomeTotal: real, expenditureTotal: real)

  /** One entry of the insertion-ordered map from date to its group. */
  datatype Bucket = Bucket(date: string, group: DateGroup)

  /** Sum of the amounts of the income rows. */
  function IncomeTotal(s: seq<Transaction>): real
  {
    if s == [] then 0.0
    else IncomeTotal(s[..|s| - 1]) + (if s[|s| - 1].txType == Income then s[|s| - 1].amount else 0.0)
  }

  /** Sum of the amounts of every row that is not income. */
  function ExpenditureTotal(s: seq<Transaction>): real
  {
    if s == [] then 0.0
    else ExpenditureTotal(s[..|s| - 1]) + (if s[|s| - 1].txType == Income then 0.0 else s[|s| - 1].amount)
  }

  /** The rows dated `d`, in order. */
  function OnDate(s: seq<Transaction>, d: string): seq<Transaction>
  {
    if s == [] then []
    else OnDate(s[..|s| - 1], d) + (if s[|s| - 1].date == d then [s[|s| - 1]] else [])
  }

  /** The distinct dates of `s`, in order of first occurrence. */
  function Dates(s: seq<Transaction>): seq<string>
  {
    if s == [] then []
    else
      var ds := Dates(s[..|s| - 1]);
      if s[|s| - 1].date in ds then ds else ds + [s[|s| - 1].date]
  }

  function Summarize(entries: seq<Transaction>): DateGroup
  {
    DateGroup(entries, IncomeTotal(entries), ExpenditureTotal(entries))
  }

  /**
   * The date grouping, stated without reference to how it is built: one
   * bucket per distinct date in first-seen order, holding that date's rows
   * in order and their income and expenditure subtotals.
   */
  function Grouping(s: seq<Transaction>): (gs: seq<Bucket>)
    ensures |gs| == |Dates(s)|
  {
    var ds := Dates(s);
    seq(|ds|, i requires 0 <= i < |ds| => Bucket(ds[i], Summarize(OnDate(s, ds[i]))))
  }

  /** Position of the bucket for `d`, or `|gs|` when there is none (`Map.has` / `Map.get`). */
  function Lookup(gs: seq<Bucket>, d: string): (k: nat)
    ensures k <= |gs|
    ensures k < |gs| ==> gs[k].date == d
    ensures forall j :: 0 <= j < k ==> gs[j].date != d
  {
    if gs == [] then 0
    else if gs[0].date == d then 0
    else 1 + Lookup(gs[1..], d)
  }

  /** One step of the fold: `push` the row and add its amount to the matching subtotal. */
  function Absorb(g: DateGroup, r: Transaction): DateGroup
  {
    if r.txType == Income then DateGroup(g.entries + [r], g.incomeTotal + r.amount, g.expenditureTotal)
    else DateGroup(g.entries + [r], g.incomeTotal, g.expenditureTotal + r.amount)
  }

  /** The map after folding in one more row: its date's bucket grows, or a new one is appended. */
  function Place(gs: seq<Bucket>, r: Transaction): seq<Bucket>
  {
    var k := Lookup(gs, r.date);
    if k < |gs| then gs[k := Bucket(r.date, Absorb(gs[k].group, r))]
    else gs + [Bucket(r.date, Absorb(DateGroup([], 0.0, 0.0), r))]
  }

  lemma {:induction false} DatesCover(s: seq<Transaction>, d: string)
    ensures d in Dates(s) <==> OnDate(s, d) != []
  {
    if s != [] {
      DatesCover(s[..|s| - 1], d);
    }
  }

  lemma {:induction false} DatesDistinct(s: seq<Transaction>)
    ensures forall i, j :: 0 <= i < j < |Dates(s)| ==> Dates(s)[i] != Dates(s)[j]
  {
    if s != [] {
      DatesDistinct(s[..|s| - 1]);
    }
  }

  lemma {:induction false} OnDateAll(s: seq<Transaction>, d: string)
    ensures forall i :: 0 <= i < |OnDate(s, d)| ==> OnDate(s, d)[i].date == d
  {
    if s != [] {
      OnDateAll(s[..|s| - 1], d);
    }
  }

  lemma OnDateSnoc(s: seq<Transaction>, r: Transaction, d: string)
    ensures OnDate(s + [r], d) == OnDate(s, d) + (if r.date == d then [r] else [])
  {
    assert (s + [r])[..|s|] == s;
  }

  lemma DatesSnoc(s: seq<Transaction>, r: Transaction)
    ensures Dates(s + [r]) == if r.date in Dates(s) then Dates(s) else Dates(s) + [r.date]
  {
    assert (s + [r])[..|s|] == s;
  }

  /** Subtotals computed over a longer list agree with the running subtotals. */
  lemma SummarizeSnoc(e: seq<Transaction>, r: Transaction)
    ensures Summarize(e + [r]) == Absorb(Summarize(e), r)
  {
    assert (e + [r])[..|e|] == e;
  }

  /** Bucket `i` of the grouping holds the `i`-th date's rows and their subtotals. */
  lemma GroupingAt(s: seq<Transaction>, i: nat)
    requires i < |Dates(s)|
    ensures Grouping(s)[i] == Bucket(Dates(s)[i], Summarize(OnDate(s, Dates(s)[i])))
  {
  }

  /** A bucket of another date is untouched by one more row. */
  lemma GroupingAppendOther(s: seq<Transaction>, r: Transaction, i: nat)
    requires i < |Dates(s)| && Dates(s)[i] != r.date
    ensures i < |Dates(s + [r])| && Grouping(s + [r])[i] == Grouping(s)[i]
  {
    var d := Dates(s)[i];
    DatesSnocPrefix(s, r, i);
    OnDateSnoc(s, r, d);
    calc {
      Grouping(s + [r])[i];
    == { GroupingAt(s + [r], i); }
      Bucket(d, Summarize(OnDate(s + [r], d)));
    == { assert OnDate(s + [r], d) == OnDate(s, d) + []; }
      Bucket(d, Summarize(OnDate(s, d)));
    == { GroupingAt(s, i); }
      Grouping(s)[i];
    }
  }

  /** One more row keeps every earlier date at its position. */
  lemma DatesSnocPrefix(s: seq<Transaction>, r: Transaction, i: nat)
    requires i < |Dates(s)|
    ensures i < |Dates(s + [r])| && Dates(s + [r])[i] == Dates(s)[i]
  {
    DatesSnoc(s, r);
  }

  /** The bucket of the row's date absorbs the row. */
  lemma GroupingAppendSame(s: seq<Transaction>, r: Transaction, i: nat)
    requires i < |Dates(s)| && Dates(s)[i] == r.date
    ensures i < |Dates(s + [r])| && Grouping(s + [r])[i] == Bucket(r.date, Absorb(Grouping(s)[i].group, r))
  {
    DatesSnocPrefix(s, r, i);
    OnDateSnoc(s, r, r.date);
    GroupingAt(s, i);
    GroupingAt(s + [r], i);
    SummarizeSnoc(OnDate(s, r.date), r);
  }

  /** A row of a new date opens the last bucket, holding only that row. */
  lemma GroupingAppendNew(s: seq<Transaction>, r: Transaction)
    requires r.date !in Dates(s)
    ensures |Dates(s + [r])| == |Dates(s)| + 1
    ensures Grouping(s + [r])[|Dates(s)|] == Bucket(r.date, Absorb(DateGroup([], 0.0, 0.0), r))
  {
    DatesSnoc(s, r);
    OnDateSnoc(s, r, r.date);
    DatesCover(s, r.date);
    GroupingAt(s + [r], |Dates(s)|);
    SummarizeSnoc([], r);
    assert [] + [r] == [r];
  }

  /** Folding one more row into the grouping of `s` gives the grouping of `s + [r]`. */
  lemma GroupingAppend(s: seq<Transaction>, r: Transaction)
    ensures Grouping(s + [r]) == Place(Grouping(s), r)
  {
    var ds := Dates(s);
    var gs := Grouping(s);
    var k := Lookup(gs, r.date);
    var lhs := Grouping(s + [r]);
    var rhs := Place(gs, r);
    DatesSnoc(s, r);
    if k < |gs| {
      DatesDistinct(s);
      assert ds[k] == r.date;
      assert |lhs| == |rhs|;
      forall i | 0 <= i < |lhs| ensures lhs[i] == rhs[i] {
        if i == k {
          GroupingAppendSame(s, r, i);
        } else {
          GroupingAppendOther(s, r, i);
        }
      }
    } else {
      assert r.date !in ds by {
        forall j | 0 <= j < |ds| ensures ds[j] != r.date {
          assert gs[j].date == ds[j];
        }
      }
      GroupingAppendNew(s, r);
      assert |lhs| == |rhs|;
      forall i | 0 <= i < |lhs| ensures lhs[i] == rhs[i] {
        if i < |ds| {
          GroupingAppendOther(s, r, i);
        }
      }
    }
  }

  /**
   * The date-grouping loop: walks the fetched rows once, creating a bucket
   * the first time a date is seen, appending each row to its date's bucket
   * and adding its amount to that bucket's income or expenditure subtotal.
   */
  method GroupByDate(rows: seq<Transaction>) returns (grouped: seq<Bucket>)
    ensures grouped == Grouping(rows)
  {
    grouped := [];
    for i := 0 to |rows|
      invariant grouped == Grouping(rows[..i])
    {
      var row := rows[i];
      ghost var before := grouped;
      var k := Lookup(grouped, row.date);
      if k == |grouped| {
        grouped := grouped + [Bucket(row.date, DateGroup([], 0.0, 0.0))];
      }
      var group := grouped[k].group;
      group := group.(entries := group.entries + [row]);
      if row.txType == Income {
        group := group.(incomeTotal := group.incomeTotal + row.amount);
      } else {
        group := group.(expenditureTotal := group.expenditureTotal + row.amount);
      }
      assert group == Absorb(if k < |before| then before[k].group else DateGroup([], 0.0, 0.0), row);
      grouped := grouped[k := Bucket(row.date, group)];
      assert grouped == Place(before, row);
      GroupingAppend(rows[..i], row);
      assert rows[..i + 1] == rows[..i] + [row];
    }
    assert rows[..|rows|] == rows;
  }

  /** What the query hands back: exactly one of the two views, the other `null`. */
  datatype GroupedResult = GroupedResult(sorted: Option<seq<Transaction>>, grouped: Option<seq<Bucket>>)

  /** The query's result as a function of the store and the request. */
  function Query(store: seq<Transaction>, eventId: int, typeFilter: Option<TxType>, sortBy: SortField,
                 order: SortOrder, modeFilter: Option<PaymentMode>): GroupedResult
  {
    var rows := Fetch(store, eventId, typeFilter, order, modeFilter);
    if sortBy == ByAmount then GroupedResult(Some(SortBy(AmountOrder(order), rows)), None)
    else GroupedResult(None, Some(Grouping(rows)))
  }

  /**
   * The query: fetch the matching rows in date order, then either re-sort
   * them by amount or fold them into the date grouping.
   */
  method TransactionsGroupedByDate(store: seq<Transaction>, eventId: int, typeFilter: Option<TxType>,
                                   sortBy: SortField, order: SortOrder, modeFilter: Option<PaymentMode>)
    returns (result: GroupedResult)
    ensures result == Query(store, eventId, typeFilter, sortBy, order, modeFilter)
  {
    var rows := Fetch(store, eventId, typeFilter, order, modeFilter);
    if sortBy == ByAmount {
      rows := SortBy(AmountOrder(order), rows);
      return GroupedResult(Some(rows), None);
    }
    var grouped := GroupByDate(rows);
    result := GroupedResult(None, Some(grouped));
  }

  // ---------------------------------------------------------------------
  // Properties of the views
  // ---------------------------------------------------------------------

  /** `a` comes before `b` in the requested date order. */
  predicate DateBefore(order: SortOrder, a: string, b: string)
  {
    if order == Asc then Less(a, b) else Less(b, a)
  }

  /** The fetch is exactly the matching rows, ordered by date then newest first. */
  lemma FetchCorrect(store: seq<Transaction>, eventId: int, typeFilter: Option<TxType>, order: SortOrder,
                     modeFilter: Option<PaymentMode>)
    ensures var rows := Fetch(store, eventId, typeFilter, order, modeFilter);
      && (forall i :: 0 <= i < |rows| ==> Matches(rows[i], eventId, typeFilter, modeFilter))
      && multiset(rows) == multiset(Select(store, eventId, typeFilter, modeFilter))
      && (forall i, j :: 0 <= i < j < |rows| ==>
            DateBefore(order, rows[i].date, rows[j].date)
            || (rows[i].date == rows[j].date && rows[i].createdAt >= rows[j].createdAt))
  {
    var sel := Select(store, eventId, typeFilter, modeFilter);
    var rows := Fetch(store, eventId, typeFilter, order, modeFilter);
    SortByCorrect(FetchOrder(order), sel);
    forall i | 0 <= i < |rows| ensures Matches(rows[i], eventId, typeFilter, modeFilter) {
      assert rows[i] in multiset(sel);
    }
    forall i, j | 0 <= i < j < |rows|
      ensures DateBefore(order, rows[i].date, rows[j].date)
              || (rows[i].date == rows[j].date && rows[i].createdAt >= rows[j].createdAt)
    {
      LessTotal(rows[i].date, rows[j].date);
    }
  }

  /** In date order, the distinct dates of the rows come out strictly ordered. */
  lemma {:induction false} DatesOrdered(order: SortOrder, s: seq<Transaction>)
    requires SortedBy(FetchOrder(order), s)
    ensures forall i, j :: 0 <= i < j < |Dates(s)| ==> DateBefore(order, Dates(s)[i], Dates(s)[j])
  {
    if s != [] {
      var p := s[..|s| - 1];
      var r := s[|s| - 1];
      DatesOrdered(order, p);
      var ds := Dates(p);
      if r.date !in ds {
        forall i | 0 <= i < |ds| ensures DateBefore(order, ds[i], r.date) {
          LastRowNotBefore(order, s, ds[i]);
          LessTotal(ds[i], r.date);
        }
      }
    }
  }

  /** In rows in fetch order, the last row's date is not before any date seen earlier. */
  lemma LastRowNotBefore(order: SortOrder, s: seq<Transaction>, d: string)
    requires SortedBy(FetchOrder(order), s)
    requires s != [] && d in Dates(s[..|s| - 1])
    ensures !DateBefore(order, s[|s| - 1].date, d)
  {
    var p := s[..|s| - 1];
    DatesCover(p, d);
    OnDateAll(p, d);
    var e := OnDate(p, d);
    OnDateMember(p, d, e[0]);
    var m :| 0 <= m < |p| && p[m] == e[0];
    assert s[m] == p[m];
  }

  lemma {:induction false} OnDateMember(s: seq<Transaction>, d: string, t: Transaction)
    requires t in OnDate(s, d)
    ensures t in s
  {
    if s != [] {
      var p := s[..|s| - 1];
      if t in OnDate(p, d) {
        OnDateMember(p, d, t);
        assert forall x :: x in p ==> x in s;
      }
    }
  }

  /** The entries of the buckets, concatenated in bucket order. */
  function Flatten(gs: seq<Bucket>): seq<Transaction>
  {
    if gs == [] then [] else Flatten(gs[..|gs| - 1]) + gs[|gs| - 1].group.entries
  }

  /** Placing a row in the last bucket or a new one appends it to the flattened entries. */
  lemma FlattenPlaceLast(gs: seq<Bucket>, r: Transaction)
    requires gs != [] && Lookup(gs, r.date) == |gs| - 1
    ensures Flatten(Place(gs, r)) == Flatten(gs) + [r]
  {
    FlattenAbsorbLast(gs, r);
  }

  /** Absorbing a row into the last bucket appends it to the flattening. */
  lemma FlattenAbsorbLast(gs: seq<Bucket>, r: Transaction)
    requires gs != []
    ensures Flatten(gs[|gs| - 1 := Bucket(r.date, Absorb(gs[|gs| - 1].group, r))]) == Flatten(gs) + [r]
  {
    var n := |gs|;
    var b := Bucket(r.date, Absorb(gs[n - 1].group, r));
    FlattenUpdateLast(gs, b);
    FlattenUpdateLast(gs, gs[n - 1]);
    assert gs[n - 1 := gs[n - 1]] == gs;
  }

  /** Replacing the last bucket replaces its entries at the end of the flattening. */
  lemma FlattenUpdateLast(gs: seq<Bucket>, b: Bucket)
    requires gs != []
    ensures Flatten(gs[|gs| - 1 := b]) == Flatten(gs[..|gs| - 1]) + b.group.entries
  {
    var n := |gs|;
    assert gs[n - 1 := b] == gs[..n - 1] + [b];
    FlattenSnoc(gs[..n - 1], b);
  }

  lemma FlattenSnoc(gs: seq<Bucket>, b: Bucket)
    ensures Flatten(gs + [b]) == Flatten(gs) + b.group.entries
  {
    assert (gs + [b])[..|gs|] == gs;
  }

  lemma FlattenPlaceNew(gs: seq<Bucket>, r: Transaction)
    requires Lookup(gs, r.date) == |gs|
    ensures Flatten(Place(gs, r)) == Flatten(gs) + [r]
  {
    var b := Bucket(r.date, Absorb(DateGroup([], 0.0, 0.0), r));
    assert b.group.entries == [r];
    FlattenSnoc(gs, b);
  }

  /** In fetch order, a row's date is either new or the date of the last bucket so far. */
  lemma LookupLastOrNew(order: SortOrder, s: seq<Transaction>)
    requires SortedBy(FetchOrder(order), s) && s != []
    ensures Lookup(Grouping(s[..|s| - 1]), s[|s| - 1].date) + 1 >= |Grouping(s[..|s| - 1])|
  {
    var p := s[..|s| - 1];
    var r := s[|s| - 1];
    var gs := Grouping(p);
    var k := Lookup(gs, r.date);
    if k < |gs| {
      var last := |gs| - 1;
      LastRowNotBefore(order, s, gs[last].date);
      DatesOrdered(order, p);
      assert k == last;
    }
  }

  /**
   * On rows in fetch order, concatenating the buckets' entries gives back
   * the rows themselves: every row lands in its date's bucket, in order.
   */
  lemma {:induction false} FlattenGrouping(order: SortOrder, s: seq<Transaction>)
    requires SortedBy(FetchOrder(order), s)
    ensures Flatten(Grouping(s)) == s
  {
    if s != [] {
      var p := s[..|s| - 1];
      var r := s[|s| - 1];
      assert s == p + [r];
      FlattenGrouping(order, p);
      GroupingAppend(p, r);
      LookupLastOrNew(order, s);
      if Lookup(Grouping(p), r.date) == |Grouping(p)| {
        FlattenPlaceNew(Grouping(p), r);
      } else {
        FlattenPlaceLast(Grouping(p), r);
      }
    }
  }

  /** An empty fetch yields an empty grouping (a map of size 0), never an error. */
  lemma EmptyFetchEmptyGrouping(store: seq<Transaction>, eventId: int, typeFilter: Option<TxType>,
                                order: SortOrder, modeFilter: Option<PaymentMode>)
    requires Select(store, eventId, typeFilter, modeFilter) == []
    ensures Query(store, eventId, typeFilter, ByDate, order, modeFilter) == GroupedResult(None, Some([]))
  {
  }

  /**
   * The grouping of rows in fetch order: one bucket per distinct date, the
   * dates strictly ordered as requested, each bucket holding exactly that
   * date's rows (never none) with their subtotals, and the buckets together
   * reproducing the rows in order.
   */
  lemma GroupingOfSorted(order: SortOrder, rows: seq<Transaction>)
    requires SortedBy(FetchOrder(order), rows)
    ensures var gs := Grouping(rows);
      && (forall i, j :: 0 <= i < j < |gs| ==> DateBefore(order, gs[i].date, gs[j].date))
      && (forall i :: 0 <= i < |rows| ==> exists k :: 0 <= k < |gs| && gs[k].date == rows[i].date)
      && (forall k :: 0 <= k < |gs| ==>
            && gs[k].group.entries == OnDate(rows, gs[k].date)
            && gs[k].group.entries != []
            && gs[k].group.incomeTotal == IncomeTotal(gs[k].group.entries)
            && gs[k].group.expenditureTotal == ExpenditureTotal(gs[k].group.entries))
      && Flatten(gs) == rows
  {
    DatesOrdered(order, rows);
    FlattenGrouping(order, rows);
    var gs := Grouping(rows);
    forall i | 0 <= i < |rows| ensures exists k :: 0 <= k < |gs| && gs[k].date == rows[i].date {
      OnDateHas(rows, i);
      DatesCover(rows, rows[i].date);
      var k :| 0 <= k < |Dates(rows)| && Dates(rows)[k] == rows[i].date;
      assert gs[k].date == rows[i].date;
    }
    forall k | 0 <= k < |gs| ensures gs[k].group.entries != [] {
      DatesCover(rows, gs[k].date);
    }
  }

  /** Date mode: no sorted list, and the grouping of the fetched rows as above. */
  lemma QueryByDate(store: seq<Transaction>, eventId: int, typeFilter: Option<TxType>, order: SortOrder,
                    modeFilter: Option<PaymentMode>)
    ensures var res := Query(store, eventId, typeFilter, ByDate, order, modeFilter);
      var rows := Fetch(store, eventId, typeFilter, order, modeFilter);
      && res.sorted.None? && res.grouped.Some?
      && var gs := res.grouped.value;
      && (forall i, j :: 0 <= i < j < |gs| ==> DateBefore(order, gs[i].date, gs[j].date))
      && (forall i :: 0 <= i < |rows| ==> exists k :: 0 <= k < |gs| && gs[k].date == rows[i].date)
      && (forall k :: 0 <= k < |gs| ==>
            && gs[k].group.entries == OnDate(rows, gs[k].date)
            && gs[k].group.entries != []
            && gs[k].group.incomeTotal == IncomeTotal(gs[k].group.entries)
            && gs[k].group.expenditureTotal == ExpenditureTotal(gs[k].group.entries))
      && Flatten(gs) == rows
  {
    SortByCorrect(FetchOrder(order), Select(store, eventId, typeFilter, modeFilter));
    GroupingOfSorted(order, Fetch(store, eventId, typeFilter, order, modeFilter));
  }

  lemma {:induction false} OnDateHas(s: seq<Transaction>, i: nat)
    requires i < |s|
    ensures s[i] in OnDate(s, s[i].date)
  {
    var p := s[..|s| - 1];
    if i < |s| - 1 {
      assert p[i] == s[i];
      OnDateHas(p, i);
    }
  }

  /**
   * Amount mode: no grouping; the fetched rows, permuted, ordered by amount
   * as requested, rows of equal amount keeping fetch order.
   */
  lemma QueryByAmount(store: seq<Transaction>, eventId: int, typeFilter: Option<TxType>, order: SortOrder,
                      modeFilter: Option<PaymentMode>, v: real)
    ensures var res := Query(store, eventId, typeFilter, ByAmount, order, modeFilter);
      var rows := Fetch(store, eventId, typeFilter, order, modeFilter);
      && res.grouped.None? && res.sorted.Some?
      && var r := res.sorted.value;
      && multiset(r) == multiset(rows)
      && (forall i, j :: 0 <= i < j < |r| ==>
            if order == Asc then r[i].amount <= r[j].amount else r[i].amount >= r[j].amount)
      && WithAmount(r, v) == WithAmount(rows, v)
  {
    var rows := Fetch(store, eventId, typeFilter, order, modeFilter);
    SortByCorrect(AmountOrder(order), rows);
    SortByAmountStable(order, rows, v);
  }

  // ---------------------------------------------------------------------
  // Summary
  // ---------------------------------------------------------------------

  /** One row of the grouped SUM: a type present among the rows and its total. */
  datatype TypeTotal = TypeTotal(txType: TxType, total: real)

  predicate HasType(s: seq<Transaction>, t: TxType)
  {
    exists i :: 0 <= i < |s| && s[i].txType == t
  }

  /** `GROUP BY type` with `SUM(amount)`: one row per type that occurs, none for an absent type. */
  function TotalsByType(s: seq<Transaction>): seq<TypeTotal>
  {
    (if HasType(s, Income) then [TypeTotal(Income, IncomeTotal(s))] else [])
    + (if HasType(s, Expenditure) then [TypeTotal(Expenditure, ExpenditureTotal(s))] else [])
  }

  /** `result.find(r => r.type === t)?.total`. */
  function FindTotal(result: seq<TypeTotal>, t: TxType): Option<real>
  {
    if result == [] then None
    else if result[0].txType == t then Some(result[0].total)
    else FindTotal(result[1..], t)
  }

  datatype Summary = Summary(totalIncome: real, totalExpenditure: real, netTotal: real)

  lemma {:induction false} AbsentTypeTotalsZero(s: seq<Transaction>)
    ensures !HasType(s, Income) ==> IncomeTotal(s) == 0.0
    ensures !HasType(s, Expenditure) ==> ExpenditureTotal(s) == 0.0
  {
    if s != [] {
      var p := s[..|s| - 1];
      AbsentTypeTotalsZero(p);
      assert HasType(p, Income) ==> HasType(s, Income) by {
        if HasType(p, Income) {
          var i :| 0 <= i < |p| && p[i].txType == Income;
          assert s[i] == p[i];
        }
      }
      assert HasType(p, Expenditure) ==> HasType(s, Expenditure) by {
        if HasType(p, Expenditure) {
          var i :| 0 <= i < |p| && p[i].txType == Expenditure;
          assert s[i] == p[i];
        }
      }
      assert s[|s| - 1].txType == Income ==> HasType(s, Income);
      assert s[|s| - 1].txType == Expenditure ==> HasType(s, Expenditure);
    }
  }

  /** Looking a type up in the grouped sums finds its total exactly when the type occurs. */
  lemma FindTotalByType(s: seq<Transaction>)
    ensures FindTotal(TotalsByType(s), Income) == if HasType(s, Income) then Some(IncomeTotal(s)) else None
    ensures FindTotal(TotalsByType(s), Expenditure)
      == if HasType(s, Expenditure) then Some(ExpenditureTotal(s)) else None
  {
    var inc := if HasType(s, Income) then [TypeTotal(Income, IncomeTotal(s))] else [];
    var exp := if HasType(s, Expenditure) then [TypeTotal(Expenditure, ExpenditureTotal(s))] else [];
    assert TotalsByType(s) == inc + exp;
    if inc != [] {
      assert (inc + exp)[1..] == exp;
    } else {
      assert inc + exp == exp;
    }
  }

  /**
   * The summary of one event, optionally for one payment mode: a missing
   * type bucket counts as 0, so the totals are the sums over the matching
   * rows, and the net is their difference (negative when spending exceeds income).
   */
  function GetSummary(store: seq<Transaction>, eventId: int, modeFilter: Option<PaymentMode>): (s: Summary)
    ensures s.totalIncome == IncomeTotal(Select(store, eventId, None, modeFilter))
    ensures s.totalExpenditure == ExpenditureTotal(Select(store, eventId, None, modeFilter))
    ensures s.netTotal == s.totalIncome - s.totalExpenditure
  {
    var rows := Select(store, eventId, None, modeFilter);
    var result := TotalsByType(rows);
    var income := FindTotal(result, Income);
    var expenditure := FindTotal(result, Expenditure);
    FindTotalByType(rows);
    AbsentTypeTotalsZero(rows);
    var totalIncome := if income.Some? then income.value else 0.0;
    var totalExpenditure := if expenditure.Some? then expenditure.value else 0.0;
    Summary(totalIncome, totalExpenditure, totalIncome - totalExpenditure)
  }

  // ---------------------------------------------------------------------
  // Recent entries
  // ---------------------------------------------------------------------

  const DefaultRecentLimit: int := 10

  /** `LIMIT n`: the first `n` rows, or all of them when `n` is negative (SQLite's reading of a negative limit). */
  function Limit(rows: seq<Transaction>, n: int): seq<Transaction>
  {
    if 0 <= n < |rows| then rows[..n] else rows
  }

  /**
   * The newest `limit` rows of the event (all of them for a negative
   * limit): newest first, and no omitted row of the event is newer than a
   * returned one.
   */
  function RecentEntries(store: seq<Transaction>, eventId: int, limit: int): (r: seq<Transaction>)
    ensures var all := Select(store, eventId, None, None);
      && |r| == (if 0 <= limit < |all| then limit else |all|)
      && (forall i :: 0 <= i < |r| ==> r[i].eventId == eventId)
      && (forall i, j :: 0 <= i < j < |r| ==> r[i].createdAt >= r[j].createdAt)
      && multiset(r) <= multiset(all)
      && (forall x, y :: x in r && y in all && y !in r ==> y.createdAt <= x.createdAt)
  {
    var all := Select(store, eventId, None, None);
    LimitNewest(all, eventId, limit);
    Limit(SortBy(NewestFirst, all), limit)
  }

  /** `getRecentEntries` called without a limit: at most ten rows, and fewer only when the event has fewer. */
  function DefaultRecentEntries(store: seq<Transaction>, eventId: int): (r: seq<Transaction>)
    ensures |r| <= DefaultRecentLimit
    ensures |r| < DefaultRecentLimit ==> |r| == |Select(store, eventId, None, None)|
    ensures forall i :: 0 <= i < |r| ==> r[i].eventId == eventId
  {
    RecentEntries(store, eventId, DefaultRecentLimit)
  }

  lemma LimitNewest(all: seq<Transaction>, eventId: int, limit: int)
    requires forall i :: 0 <= i < |all| ==> all[i].eventId == eventId
    ensures var r := Limit(SortBy(NewestFirst, all), limit);
      && |r| == (if 0 <= limit < |all| then limit else |all|)
      && (forall i :: 0 <= i < |r| ==> r[i].eventId == eventId)
      && (forall i, j :: 0 <= i < j < |r| ==> r[i].createdAt >= r[j].createdAt)
      && multiset(r) <= multiset(all)
      && (forall x, y :: x in r && y in all && y !in r ==> y.createdAt <= x.createdAt)
  {
    SortByCorrect(NewestFirst, all);
    LimitOfArrangement(SortBy(NewestFirst, all), all, eventId, limit);
  }

  lemma LimitOfArrangement(rows: seq<Transaction>, all: seq<Transaction>, eventId: int, limit: int)
    requires SortedBy(NewestFirst, rows) && multiset(rows) == multiset(all)
    requires forall i :: 0 <= i < |all| ==> all[i].eventId == eventId
    ensures var r := Limit(rows, limit);
      && |r| == (if 0 <= limit < |all| then limit else |all|)
      && (forall i :: 0 <= i < |r| ==> r[i].eventId == eventId)
      && (forall i, j :: 0 <= i < j < |r| ==> r[i].createdAt >= r[j].createdAt)
      && multiset(r) <= multiset(all)
      && (forall x, y :: x in r && y in all && y !in r ==> y.createdAt <= x.createdAt)
  {
    var r := Limit(rows, limit);
    assert |rows| == |all| by {
      assert |multiset(rows)| == |multiset(all)|;
    }
    assert rows == r + rows[|r|..];
    assert multiset(rows) == multiset(r) + multiset(rows[|r|..]);
    forall i | 0 <= i < |r| ensures r[i].eventId == eventId {
      assert r[i] in multiset(all);
    }
    forall x, y | x in r && y in all && y !in r ensures y.createdAt <= x.createdAt {
      assert y in multiset(rows);
      var j :| 0 <= j < |rows| && rows[j] == y;
      var i :| 0 <= i < |r| && r[i] == x;
      assert j >= |r|;
    }
  }
}
