/** The expense tracker's view-model: the expense list, the search and
    category filters, the sort header toggle, the derived visible rows
    with their total, and the add-expense form. */
module Ledger {
  import opened Common
  import opened Text
  import opened Seqs
  import opened Sorting
  import opened ExpenseOrder

  /** Sentinel of the category selector meaning "do not filter by category". */
  const ALL_CATEGORIES: string := "all"

  const Categories: seq<string> := [
    "Office Supplies", "Marketing", "Utilities", "Rent", "Software", "Travel",
    "Meals", "Equipment", "Contractors", "Insurance", "Taxes", "Other"]

  const PaymentMethods: seq<string> := [
    "Cash", "Credit Card", "Debit Card", "Bank Transfer", "PayPal", "Check",
    "Mobile Payment"]

  /** Milliseconds in a day. */
  const DAY_MS: int := 86400000

  /** The sample ledger the page starts with. Amounts are in cents; a
      date-only string such as '2023-08-01' denotes UTC midnight, and
      2023-08-01 is day 19570 since 1970-01-01. */
  const InitialExpenses: seq<Expense> := [
    Expense("1", 19570 * DAY_MS, "Office Supplies", "Printer Paper and Ink", 12050, "Credit Card"),
    Expense("2", 19572 * DAY_MS, "Marketing", "Facebook Ads", 20000, "Credit Card"),
    Expense("3", 19574 * DAY_MS, "Utilities", "Electricity Bill", 15075, "Bank Transfer"),
    Expense("4", 19579 * DAY_MS, "Rent", "Office Space", 120000, "Bank Transfer"),
    Expense("5", 19584 * DAY_MS, "Software", "Accounting Software Subscription", 4999, "Credit Card")]

  /** The add-expense form: an expense that has no id yet. */
  datatype Draft = Draft(date: int, category: string, description: string, amount: int, paymentMethod: string)

  /** The state of the page. */
  datatype LedgerState = LedgerState(
    expenses: seq<Expense>,
    searchTerm: string,
    selectedCategory: string,
    sortConfig: Option<SortConfig>,
    draft: Draft,
    dialogOpen: bool)

  /** The blank form; `now` is the moment (a timestamp, time of day
      included) the form's date defaults to. */
  function EmptyDraft(now: int): Draft
  {
    Draft(now, "", "", 0, "")
  }

  function InitialState(now: int): LedgerState
  {
    LedgerState(InitialExpenses, "", ALL_CATEGORIES, None, EmptyDraft(now), false)
  }

  // ---------------------------------------------------------------------
  // Sorting
  // ---------------------------------------------------------------------

  /** The header-click rule: the column currently sorted ascending flips
      to descending; every other click sorts that column ascending. */
  function NextSort(current: Option<SortConfig>, key: SortKey): (r: SortConfig)
    ensures r.key == key
    ensures r.direction == Descending <==> current == Some(SortConfig(key, Ascending))
  {
    if current.Some? && current.value.key == key && current.value.direction == Ascending
    then SortConfig(key, Descending)
    else SortConfig(key, Ascending)
  }

  function HandleSort(l: LedgerState, key: SortKey): LedgerState
  {
    l.(sortConfig := Some(NextSort(l.sortConfig, key)))
  }

  /** Clicking the same header again always flips the direction, and two
      clicks on a column sorted ascending bring it back to ascending. */
  lemma SortToggleAlternates(l: LedgerState, key: SortKey)
    ensures HandleSort(HandleSort(l, key), key).sortConfig.value.direction
         != HandleSort(l, key).sortConfig.value.direction
    ensures l.sortConfig == Some(SortConfig(key, Ascending))
        ==> HandleSort(HandleSort(l, key), key).sortConfig == l.sortConfig
  {
  }

  /** The rows in display order, before filtering. The stored list is
      never reordered: sorting works on a copy. */
  function SortedExpenses(l: LedgerState): (r: seq<Expense>)
    ensures l.sortConfig.None? ==> r == l.expenses
    ensures multiset(r) == multiset(l.expenses)
    ensures l.sortConfig.Some? ==>
      && (forall i, j :: 0 <= i < j < |r| ==> Compare(r[i], r[j], l.sortConfig.value) <= 0)
      && StableWrt(r, l.expenses, Comparator(l.sortConfig.value))
  {
    match l.sortConfig
    case None => l.expenses
    case Some(c) => SortRows(l.expenses, c)
  }

  // ---------------------------------------------------------------------
  // Filtering and the total
  // ---------------------------------------------------------------------

  /** The case-insensitive search over description and category. */
  predicate MatchesSearch(e: Expense, term: string)
  {
    Contains(Lower(e.description), Lower(term)) || Contains(Lower(e.category), Lower(term))
  }

  predicate MatchesCategory(e: Expense, selected: string)
  {
    selected == ALL_CATEGORIES || e.category == selected
  }

  function RowFilter(term: string, selected: string): Expense -> bool
  {
    e => MatchesSearch(e, term) && MatchesCategory(e, selected)
  }

  /** The visible rows: exactly the sorted rows that pass both tests, in
      sorted order. */
  function FilteredExpenses(l: LedgerState): (r: seq<Expense>)
    ensures IsSubsequence(r, SortedExpenses(l))
    ensures forall i :: 0 <= i < |r| ==>
      MatchesSearch(r[i], l.searchTerm) && MatchesCategory(r[i], l.selectedCategory)
    ensures forall i :: 0 <= i < |SortedExpenses(l)| ==>
      (MatchesSearch(SortedExpenses(l)[i], l.searchTerm)
       && MatchesCategory(SortedExpenses(l)[i], l.selectedCategory)
       ==> SortedExpenses(l)[i] in r)
    ensures forall e :: multiset(r)[e] ==
              (if MatchesSearch(e, l.searchTerm) && MatchesCategory(e, l.selectedCategory)
               then multiset(SortedExpenses(l))[e] else 0)
  {
    var rows := SortedExpenses(l);
    FilterIsSubsequence(rows, RowFilter(l.searchTerm, l.selectedCategory));
    FilterCounts(rows, l.searchTerm, l.selectedCategory);
    Filter(rows, RowFilter(l.searchTerm, l.selectedCategory))
  }

  /** A passing row is shown as many times as it occurs, a failing one never. */
  lemma FilterCounts(rows: seq<Expense>, term: string, selected: string)
    ensures forall e :: multiset(Filter(rows, RowFilter(term, selected)))[e] ==
              (if MatchesSearch(e, term) && MatchesCategory(e, selected) then multiset(rows)[e] else 0)
  {
    forall e
      ensures multiset(Filter(rows, RowFilter(term, selected)))[e] ==
        if MatchesSearch(e, term) && MatchesCategory(e, selected) then multiset(rows)[e] else 0
    {
      FilterCount(rows, RowFilter(term, selected), e);
    }
  }

  /** An empty search with "all" categories hides nothing. */
  lemma UnfilteredShowsAll(l: LedgerState)
    requires l.searchTerm == "" && l.selectedCategory == ALL_CATEGORIES
    ensures FilteredExpenses(l) == SortedExpenses(l)
  {
    var rows := SortedExpenses(l);
    assert Lower("") == "";
    forall i | 0 <= i < |rows|
      ensures RowFilter(l.searchTerm, l.selectedCategory)(rows[i])
    {
      ContainsEmpty(Lower(rows[i].description));
    }
    FilterAllPass(rows, RowFilter(l.searchTerm, l.selectedCategory));
  }

  function AmountOf(e: Expense): int
  {
    e.amount
  }

  /** The amount a row contributes to the total: its amount when visible, 0 otherwise. */
  function Contribution(term: string, selected: string): Expense -> int
  {
    e => if RowFilter(term, selected)(e) then e.amount else 0
  }

  /** The displayed total: the sum of the amounts of the visible rows. */
  function Total(l: LedgerState): int
  {
    Sum(FilteredExpenses(l), AmountOf)
  }

  /** The total counts every stored row that passes the filters once and
      nothing else, so it is the same whichever way the table is sorted. */
  lemma TotalOverVisibleRows(l: LedgerState)
    ensures Total(l) == Sum(l.expenses, Contribution(l.searchTerm, l.selectedCategory))
    ensures forall c :: Total(l.(sortConfig := c)) == Total(l)
    ensures FilteredExpenses(l) == [] ==> Total(l) == 0
  {
    forall c
      ensures Total(l.(sortConfig := c)) == Sum(l.expenses, Contribution(l.searchTerm, l.selectedCategory))
    {
      var l' := l.(sortConfig := c);
      var rows := SortedExpenses(l');
      SumFilter(rows, RowFilter(l.searchTerm, l.selectedCategory), AmountOf, Contribution(l.searchTerm, l.selectedCategory));
      SumPermutation(rows, l.expenses, Contribution(l.searchTerm, l.selectedCategory));
    }
    assert l.(sortConfig := l.sortConfig) == l;
  }

  /** `filteredExpenses.reduce((sum, e) => sum + e.amount, 0)`, a left fold. */
  method ReduceTotal(rows: seq<Expense>) returns (t: int)
    ensures t == Sum(rows, AmountOf)
  {
    t := 0;
    var i := 0;
    while i < |rows|
      invariant 0 <= i <= |rows|
      invariant t == Sum(rows[..i], AmountOf)
    {
      SumConcat(rows[..i], [rows[i]], AmountOf);
      assert rows[..i + 1] == rows[..i] + [rows[i]];
      t := t + rows[i].amount;
      i := i + 1;
    }
    assert rows[..i] == rows;
  }

  /** The sample ledger totals $1721.24. */
  lemma SampleTotal(now: int)
    ensures Total(InitialState(now)) == 172124
  {
    var l := InitialState(now);
    UnfilteredShowsAll(l);
    assert FilteredExpenses(l) == InitialExpenses;
    SampleSum();
  }

  lemma SampleSum()
    ensures Sum(InitialExpenses, AmountOf) == 172124
  {
    var xs := InitialExpenses;
    assert Sum(xs[4..], AmountOf) == 4999 by { assert xs[4..][1..] == []; }
    assert Sum(xs[3..], AmountOf) == 124999 by { assert xs[3..][1..] == xs[4..]; }
    assert Sum(xs[2..], AmountOf) == 140074 by { assert xs[2..][1..] == xs[3..]; }
    assert Sum(xs[1..], AmountOf) == 160074 by { assert xs[1..][1..] == xs[2..]; }
  }

  /** Filtering the sample ledger to Marketing leaves the one $200.00 row. */
  lemma SampleMarketingTotal(now: int)
    ensures Total(InitialState(now).(selectedCategory := "Marketing")) == 20000
  {
    var m := InitialState(now).(selectedCategory := "Marketing");
    var xs := InitialExpenses;
    assert SortedExpenses(m) == xs;
    MarketingRows();
    assert FilteredExpenses(m) == [xs[1]];
    assert Sum([xs[1]], AmountOf) == 20000;
  }

  lemma MarketingRows()
    ensures Filter(InitialExpenses, RowFilter("", "Marketing")) == [InitialExpenses[1]]
  {
    var xs := InitialExpenses;
    var p := RowFilter("", "Marketing");
    assert Lower("") == "";
    ContainsEmpty(Lower("Facebook Ads"));
    assert p(xs[1]);
    assert !p(xs[0]) && !p(xs[2]) && !p(xs[3]) && !p(xs[4]);
    assert Filter(xs[4..], p) == [] by { assert xs[4..][1..] == []; }
    assert Filter(xs[3..], p) == [] by { assert xs[3..][1..] == xs[4..]; }
    assert Filter(xs[2..], p) == [] by { assert xs[2..][1..] == xs[3..]; }
    assert Filter(xs[1..], p) == [xs[1]] by { assert xs[1..][1..] == xs[2..]; }
  }

  // ---------------------------------------------------------------------
  // Adding an expense
  // ---------------------------------------------------------------------

  /** `handleAddExpense`: the form becomes a record with the given id,
      prepended to the list; the form resets and the dialog closes. */
  function AddExpense(l: LedgerState, id: string, now: int): (r: LedgerState)
    ensures |r.expenses| == |l.expenses| + 1
    ensures r.expenses[1..] == l.expenses
    ensures r.expenses[0] == Expense(id, l.draft.date, l.draft.category, l.draft.description,
                                     l.draft.amount, l.draft.paymentMethod)
    ensures r.draft == EmptyDraft(now) && !r.dialogOpen
    ensures r.searchTerm == l.searchTerm && r.selectedCategory == l.selectedCategory
    ensures r.sortConfig == l.sortConfig
  {
    var d := l.draft;
    var e := Expense(id, d.date, d.category, d.description, d.amount, d.paymentMethod);
    l.(expenses := [e] + l.expenses, draft := EmptyDraft(now), dialogOpen := false)
  }

  /** No two rows share an id. */
  ghost predicate UniqueIds(xs: seq<Expense>)
  {
    forall i, j :: 0 <= i < j < |xs| ==> xs[i].id != xs[j].id
  }

  /** One use of the form: fill it with `draft`, then save under `id`. */
  datatype Entry = Entry(draft: Draft, id: string)

  function AddAll(l: LedgerState, entries: seq<Entry>, now: int): LedgerState
    decreases |entries|
  {
    if |entries| == 0 then l
    else AddAll(AddExpense(l.(draft := entries[0].draft), entries[0].id, now), entries[1..], now)
  }

  /** After a run of additions the list has grown by the number of
      additions, and ids stay unique provided each new id is fresh. */
  lemma {:induction false} AddAllKeepsIdsUnique(l: LedgerState, entries: seq<Entry>, now: int)
    requires UniqueIds(l.expenses)
    requires forall i, j :: 0 <= i < j < |entries| ==> entries[i].id != entries[j].id
    requires forall i, j :: 0 <= i < |entries| && 0 <= j < |l.expenses| ==> entries[i].id != l.expenses[j].id
    ensures |AddAll(l, entries, now).expenses| == |l.expenses| + |entries|
    ensures UniqueIds(AddAll(l, entries, now).expenses)
    decreases |entries|
  {
    if |entries| > 0 {
      var l' := AddExpense(l.(draft := entries[0].draft), entries[0].id, now);
      var rest := entries[1..];
      forall i, j | 0 <= i < |rest| && 0 <= j < |l'.expenses|
        ensures rest[i].id != l'.expenses[j].id
      {
        if j > 0 {
          assert l'.expenses[j] == l.expenses[j - 1];
        }
        assert rest[i] == entries[i + 1];
      }
      forall i, j | 0 <= i < j < |l'.expenses|
        ensures l'.expenses[i].id != l'.expenses[j].id
      {
        assert l'.expenses[j] == l.expenses[j - 1];
        if i > 0 {
          assert l'.expenses[i] == l.expenses[i - 1];
        }
      }
      AddAllKeepsIdsUnique(l', rest, now);
    }
  }
}
