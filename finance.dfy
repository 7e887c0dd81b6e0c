/**
 * The finance screen: the record filter, the summary cards and the
 * per-category breakdown. Amounts are integers (shillings).
 */
module Finance {
  import opened Seqs
  import opened JsText
  import opened DateUtils
  import opened Types

  /** `filterType`: `'all'` or one record type. */
  datatype TypeFilter = AllTypes | OnlyType(recordType: RecordType)

  /** The filter bar; `filterCategory` is `"all"` or a category, empty bounds are unset. */
  datatype Filters = Filters(filterType: TypeFilter, filterCategory: string, start: string, end: string)

  /** What "Clear Filters" sets, which is also the initial state. */
  const Cleared: Filters := Filters(AllTypes, "all", "", "")

  /** The condition of `filteredRecords`; `>=` and `<=` compare strings. */
  predicate Matches(r: FinanceRecord, f: Filters) {
    (f.filterType.AllTypes? || r.recordType == f.filterType.recordType) &&
    (f.filterCategory == "all" || r.category == f.filterCategory) &&
    (f.start == "" || !Less(r.date, f.start)) &&
    (f.end == "" || !Less(f.end, r.date))
  }

  function MatchesFilters(f: Filters): FinanceRecord -> bool {
    (r: FinanceRecord) => Matches(r, f)
  }

  /** `filteredRecords`: the matching records, in order. */
  function FilteredRecords(records: seq<FinanceRecord>, f: Filters): (r: seq<FinanceRecord>)
    ensures IsSubsequence(r, records)
    ensures forall i :: 0 <= i < |r| ==> Matches(r[i], f)
    ensures forall i :: 0 <= i < |records| && Matches(records[i], f) ==> records[i] in r
  {
    FilterIsSubsequence(records, MatchesFilters(f));
    Filter(records, MatchesFilters(f))
  }

  /** After "Clear Filters" every record is listed, in order. */
  lemma ClearedListsAll(records: seq<FinanceRecord>)
    ensures FilteredRecords(records, Cleared) == records
  {
    FilterAll(records, MatchesFilters(Cleared));
  }

  /**
   * For dates written by `formatYYYYMMDD` with four-digit years, the string
   * bounds of the filter are the chronological bounds.
   */
  lemma DateBoundsAreChronological(date: CivilDate, start: CivilDate, end: CivilDate)
    requires Valid(date) && Valid(start) && Valid(end)
    requires FourDigitYear(date) && FourDigitYear(start) && FourDigitYear(end)
    ensures !Less(FormatYYYYMMDD(date), FormatYYYYMMDD(start)) <==> !Before(date, start)
    ensures !Less(FormatYYYYMMDD(end), FormatYYYYMMDD(date)) <==> !Before(end, date)
  {
    FormatOrder(date, start);
    FormatOrder(end, date);
  }

  /** `.reduce((sum, r) => sum + r.amount, 0)`. */
  function SumAmounts(rs: seq<FinanceRecord>): int
    decreases |rs|
  {
    if |rs| == 0 then 0 else SumAmounts(rs[..|rs| - 1]) + rs[|rs| - 1].amount
  }

  lemma {:induction false} SumAmountsAppend(a: seq<FinanceRecord>, b: seq<FinanceRecord>)
    ensures SumAmounts(a + b) == SumAmounts(a) + SumAmounts(b)
    decreases |b|
  {
    if |b| == 0 {
      assert a + b == a;
    } else {
      SumAmountsAppend(a, b[..|b| - 1]);
      assert (a + b)[..|a + b| - 1] == a + b[..|b| - 1];
    }
  }

  /** Filtering one more record adds its amount exactly when it passes. */
  lemma SumFilterSnoc(rs: seq<FinanceRecord>, x: FinanceRecord, p: FinanceRecord -> bool)
    ensures SumAmounts(Filter(rs + [x], p)) == SumAmounts(Filter(rs, p)) + (if p(x) then x.amount else 0)
  {
    FilterAppend(rs, [x], p);
    assert [x][1..] == [];
    SumAmountsAppend(Filter(rs, p), Filter([x], p));
  }

  function OfType(t: RecordType): FinanceRecord -> bool {
    (r: FinanceRecord) => r.recordType == t
  }

  /** The summary cards. */
  datatype Summary = Summary(income: int, expenses: int, netIncome: int, totalTransactions: nat)

  /** `summary`, over the filtered records. */
  function Summarize(filtered: seq<FinanceRecord>): (s: Summary)
    ensures s.netIncome == s.income - s.expenses
    ensures s.totalTransactions == |filtered|
  {
    var income := SumAmounts(Filter(filtered, OfType(Income)));
    var expenses := SumAmounts(Filter(filtered, OfType(Expense)));
    Summary(income, expenses, income - expenses, |filtered|)
  }

  /** Every record is income or expense, so the two cards split the total amount. */
  lemma {:induction false} IncomeAndExpensesSplitTotal(filtered: seq<FinanceRecord>)
    ensures Summarize(filtered).income + Summarize(filtered).expenses == SumAmounts(filtered)
    decreases |filtered|
  {
    if |filtered| > 0 {
      var front, x := filtered[..|filtered| - 1], filtered[|filtered| - 1];
      IncomeAndExpensesSplitTotal(front);
      SplitLast(filtered);
      SumFilterSnoc(front, x, OfType(Income));
      SumFilterSnoc(front, x, OfType(Expense));
    }
  }

  /** The categories of the records, each once, in order of first appearance. */
  function Categories(rs: seq<FinanceRecord>): seq<string>
    decreases |rs|
  {
    if |rs| == 0 then []
    else
      var cs := Categories(rs[..|rs| - 1]);
      var c := rs[|rs| - 1].category;
      if c in cs then cs else cs + [c]
  }

  predicate Distinct(cs: seq<string>) {
    forall i, j :: 0 <= i < j < |cs| ==> cs[i] != cs[j]
  }

  /** `Categories` lists each category of the records exactly once and nothing else. */
  lemma {:induction false} CategoriesSpec(rs: seq<FinanceRecord>)
    ensures Distinct(Categories(rs))
    ensures forall c :: c in Categories(rs) <==> exists k :: 0 <= k < |rs| && rs[k].category == c
    decreases |rs|
  {
    if |rs| > 0 {
      var front := rs[..|rs| - 1];
      CategoriesSpec(front);
      forall c ensures (exists k :: 0 <= k < |rs| && rs[k].category == c) <==>
                       (c in Categories(front) || c == rs[|rs| - 1].category)
      {
        if exists k :: 0 <= k < |rs| && rs[k].category == c {
          var k :| 0 <= k < |rs| && rs[k].category == c;
          if k < |rs| - 1 {
            assert front[k].category == c;
          }
        }
        if c in Categories(front) {
          var k :| 0 <= k < |front| && front[k].category == c;
          assert rs[k].category == c;
        }
      }
    }
  }

  function InCategory(c: string, t: RecordType): FinanceRecord -> bool {
    (r: FinanceRecord) => r.category == c && r.recordType == t
  }

  /** The amount of type `t` booked under category `c`. */
  function CategoryTotal(rs: seq<FinanceRecord>, c: string, t: RecordType): int {
    SumAmounts(Filter(rs, InCategory(c, t)))
  }

  lemma CategoryTotalSnoc(rs: seq<FinanceRecord>, x: FinanceRecord, c: string, t: RecordType)
    ensures CategoryTotal(rs + [x], c, t) ==
            CategoryTotal(rs, c, t) + (if x.category == c && x.recordType == t then x.amount else 0)
  {
    SumFilterSnoc(rs, x, InCategory(c, t));
  }

  /** A category no record has totals 0. */
  lemma CategoryTotalAbsent(rs: seq<FinanceRecord>, c: string, t: RecordType)
    requires forall k :: 0 <= k < |rs| ==> rs[k].category != c
    ensures CategoryTotal(rs, c, t) == 0
  {
    var f := Filter(rs, InCategory(c, t));
    if |f| > 0 {
      assert f[0] in rs;
    }
  }

  /** The sum of the category totals of type `t` over `cs`. */
  function SumOverCategories(rs: seq<FinanceRecord>, cs: seq<string>, t: RecordType): int
    decreases |cs|
  {
    if |cs| == 0 then 0 else SumOverCategories(rs, cs[..|cs| - 1], t) + CategoryTotal(rs, cs[|cs| - 1], t)
  }

  lemma {:induction false} SumOverCategoriesSnoc(rs: seq<FinanceRecord>, x: FinanceRecord, cs: seq<string>, t: RecordType)
    requires Distinct(cs)
    ensures SumOverCategories(rs + [x], cs, t) ==
            SumOverCategories(rs, cs, t) + (if x.recordType == t && x.category in cs then x.amount else 0)
    decreases |cs|
  {
    if |cs| > 0 {
      var front := cs[..|cs| - 1];
      assert Distinct(front);
      SumOverCategoriesSnoc(rs, x, front, t);
      CategoryTotalSnoc(rs, x, cs[|cs| - 1], t);
      assert cs == front + [cs[|cs| - 1]];
      assert cs[|cs| - 1] !in front;
    }
  }

  /** Summed over all categories, the breakdown's totals of a type equal the summary's. */
  lemma {:induction false} CategoryTotalsSum(rs: seq<FinanceRecord>, t: RecordType)
    ensures SumOverCategories(rs, Categories(rs), t) == SumAmounts(Filter(rs, OfType(t)))
    decreases |rs|
  {
    if |rs| > 0 {
      CategoryTotalsSum(rs[..|rs| - 1], t);
      CategoryTotalsLast(rs, t);
    }
  }

  /** `SumFilterSnoc` for the last record of a non-empty sequence. */
  lemma SumFilterLast(rs: seq<FinanceRecord>, p: FinanceRecord -> bool)
    requires |rs| > 0
    ensures SumAmounts(Filter(rs, p)) ==
            SumAmounts(Filter(rs[..|rs| - 1], p)) + (if p(rs[|rs| - 1]) then rs[|rs| - 1].amount else 0)
  {
    SplitLast(rs);
    SumFilterSnoc(rs[..|rs| - 1], rs[|rs| - 1], p);
  }

  /** `SumOverCategoriesSnoc` for the last record of a non-empty sequence. */
  lemma SumOverCategoriesLast(rs: seq<FinanceRecord>, cs: seq<string>, t: RecordType)
    requires |rs| > 0 && Distinct(cs)
    ensures SumOverCategories(rs, cs, t) == SumOverCategories(rs[..|rs| - 1], cs, t) +
            (if rs[|rs| - 1].recordType == t && rs[|rs| - 1].category in cs then rs[|rs| - 1].amount else 0)
  {
    SplitLast(rs);
    SumOverCategoriesSnoc(rs[..|rs| - 1], rs[|rs| - 1], cs, t);
  }

  /** The step of `CategoryTotalsSum`: the last record keeps the two sides equal. */
  lemma CategoryTotalsLast(rs: seq<FinanceRecord>, t: RecordType)
    requires |rs| > 0
    requires SumOverCategories(rs[..|rs| - 1], Categories(rs[..|rs| - 1]), t) ==
             SumAmounts(Filter(rs[..|rs| - 1], OfType(t)))
    ensures SumOverCategories(rs, Categories(rs), t) == SumAmounts(Filter(rs, OfType(t)))
  {
    SumFilterLast(rs, OfType(t));
    if rs[|rs| - 1].category in Categories(rs[..|rs| - 1]) {
      KnownCategoryLast(rs, t);
    } else {
      NewCategoryLast(rs, t);
    }
  }

  /** A last record of a category already listed leaves the rows as they are. */
  lemma KnownCategoryLast(rs: seq<FinanceRecord>, t: RecordType)
    requires |rs| > 0 && rs[|rs| - 1].category in Categories(rs[..|rs| - 1])
    ensures SumOverCategories(rs, Categories(rs), t) ==
            SumOverCategories(rs[..|rs| - 1], Categories(rs[..|rs| - 1]), t) +
            (if rs[|rs| - 1].recordType == t then rs[|rs| - 1].amount else 0)
  {
    var cs := Categories(rs[..|rs| - 1]);
    assert Categories(rs) == cs;
    CategoriesDistinct(rs[..|rs| - 1]);
    SumOverCategoriesLast(rs, cs, t);
  }

  /** A last record of a new category adds its amount through the new row. */
  lemma NewCategoryLast(rs: seq<FinanceRecord>, t: RecordType)
    requires |rs| > 0 && rs[|rs| - 1].category !in Categories(rs[..|rs| - 1])
    ensures SumOverCategories(rs, Categories(rs), t) ==
            SumOverCategories(rs[..|rs| - 1], Categories(rs[..|rs| - 1]), t) +
            (if rs[|rs| - 1].recordType == t then rs[|rs| - 1].amount else 0)
  {
    var cs := Categories(rs[..|rs| - 1]);
    CategoriesDistinct(rs[..|rs| - 1]);
    SumOverCategoriesLast(rs, cs, t);
    NewCategorySum(rs, t);
  }

  lemma CategoriesDistinct(rs: seq<FinanceRecord>)
    ensures Distinct(Categories(rs))
  {
    CategoriesSpec(rs);
  }

  /** A last record with a new category adds a row whose total is its own amount. */
  lemma NewCategorySum(rs: seq<FinanceRecord>, t: RecordType)
    requires |rs| > 0 && rs[|rs| - 1].category !in Categories(rs[..|rs| - 1])
    ensures SumOverCategories(rs, Categories(rs), t) ==
            SumOverCategories(rs, Categories(rs[..|rs| - 1]), t) +
            (if rs[|rs| - 1].recordType == t then rs[|rs| - 1].amount else 0)
  {
    var front, x := rs[..|rs| - 1], rs[|rs| - 1];
    var cs := Categories(front);
    assert Categories(rs) == cs + [x.category];
    assert Categories(rs)[..|Categories(rs)| - 1] == cs;
    CategoryAbsentFromRecords(front, x.category);
    CategoryTotalAbsent(front, x.category, t);
    SplitLast(rs);
    CategoryTotalSnoc(front, x, x.category, t);
  }

  /** One row of the breakdown. */
  datatype BreakdownEntry = BreakdownEntry(category: string, income: int, expense: int, net: int)

  datatype Amounts = Amounts(income: int, expense: int)

  function EntryCategory(e: BreakdownEntry): string { e.category }

  /** The sum of one column of breakdown rows. */
  function ColumnSum(entries: seq<BreakdownEntry>, t: RecordType): int
    decreases |entries|
  {
    if |entries| == 0 then 0
    else ColumnSum(entries[..|entries| - 1], t) +
         (if t == Income then entries[|entries| - 1].income else entries[|entries| - 1].expense)
  }

  /** A category that `Categories` does not list occurs in no record. */
  lemma CategoryAbsentFromRecords(rs: seq<FinanceRecord>, c: string)
    requires c !in Categories(rs)
    ensures forall k :: 0 <= k < |rs| ==> rs[k].category != c
  {
    CategoriesSpec(rs);
  }

  /**
   * The accumulator of `categoryBreakdown` after the records `rs`: its keys,
   * in insertion order, are `Categories(rs)` and each holds that category's
   * income and expense totals.
   */
  ghost predicate Tallied(rs: seq<FinanceRecord>, breakdown: map<string, Amounts>, order: seq<string>) {
    order == Categories(rs) &&
    (forall c :: c in breakdown <==> c in order) &&
    (forall c :: c in breakdown ==>
      breakdown[c] == Amounts(CategoryTotal(rs, c, Income), CategoryTotal(rs, c, Expense)))
  }

  /** The accumulator after one more record. */
  function Tally(breakdown: map<string, Amounts>, r: FinanceRecord): map<string, Amounts> {
    var a := if r.category in breakdown then breakdown[r.category] else Amounts(0, 0);
    breakdown[r.category := if r.recordType == Income then a.(income := a.income + r.amount)
                            else a.(expense := a.expense + r.amount)]
  }

  /** The insertion order after one more record. */
  function TallyOrder(breakdown: map<string, Amounts>, order: seq<string>, r: FinanceRecord): seq<string> {
    if r.category in breakdown then order else order + [r.category]
  }

  /** One record's effect on one category's row. */
  lemma TallyAt(rs: seq<FinanceRecord>, breakdown: map<string, Amounts>, r: FinanceRecord, c: string)
    requires c in breakdown ==> breakdown[c] == Amounts(CategoryTotal(rs, c, Income), CategoryTotal(rs, c, Expense))
    requires r.category !in breakdown ==> forall k :: 0 <= k < |rs| ==> rs[k].category != r.category
    ensures c in Tally(breakdown, r) ==>
      Tally(breakdown, r)[c] == Amounts(CategoryTotal(rs + [r], c, Income), CategoryTotal(rs + [r], c, Expense))
  {
    CategoryTotalSnoc(rs, r, c, Income);
    CategoryTotalSnoc(rs, r, c, Expense);
    if r.category !in breakdown {
      CategoryTotalAbsent(rs, r.category, Income);
      CategoryTotalAbsent(rs, r.category, Expense);
    }
  }

  /** One loop step keeps the accumulator in step with the records seen. */
  lemma TallyStep(rs: seq<FinanceRecord>, breakdown: map<string, Amounts>, order: seq<string>, r: FinanceRecord)
    requires Tallied(rs, breakdown, order)
    ensures Tallied(rs + [r], Tally(breakdown, r), TallyOrder(breakdown, order, r))
  {
    var rs' := rs + [r];
    assert rs'[..|rs'| - 1] == rs;
    if r.category !in breakdown {
      CategoryAbsentFromRecords(rs, r.category);
    }
    forall c ensures c in Tally(breakdown, r) ==>
      Tally(breakdown, r)[c] == Amounts(CategoryTotal(rs', c, Income), CategoryTotal(rs', c, Expense))
    {
      TallyAt(rs, breakdown, r, c);
    }
  }

  /** `TallyStep` at the `i`-th record of the loop. */
  lemma TallyPrefixStep(filtered: seq<FinanceRecord>, i: int, breakdown: map<string, Amounts>, order: seq<string>)
    requires 0 <= i < |filtered|
    requires Tallied(filtered[..i], breakdown, order)
    ensures Tallied(filtered[..i + 1], Tally(breakdown, filtered[i]), TallyOrder(breakdown, order, filtered[i]))
  {
    PrefixSnoc(filtered, i);
    TallyStep(filtered[..i], breakdown, order, filtered[i]);
  }

  /** One row: `{ category, ...amounts, net: amounts.income - amounts.expense }`. */
  function ToEntry(c: string, a: Amounts): BreakdownEntry {
    BreakdownEntry(c, a.income, a.expense, a.income - a.expense)
  }

  /** `Object.entries(breakdown).map(...)`, where `order` is the key insertion order. */
  function Entries(breakdown: map<string, Amounts>, order: seq<string>): (r: seq<BreakdownEntry>)
    requires forall k :: 0 <= k < |order| ==> order[k] in breakdown
    ensures |r| == |order|
    ensures forall k :: 0 <= k < |r| ==> r[k] == ToEntry(order[k], breakdown[order[k]])
    decreases |order|
  {
    if |order| == 0 then []
    else Entries(breakdown, order[..|order| - 1]) + [ToEntry(order[|order| - 1], breakdown[order[|order| - 1]])]
  }

  /** Rows carrying their categories' totals add up, column by column, to the totals over those categories. */
  lemma {:induction false} EntriesColumnSum(rs: seq<FinanceRecord>, breakdown: map<string, Amounts>,
                                            order: seq<string>, t: RecordType)
    requires forall k :: 0 <= k < |order| ==>
      order[k] in breakdown &&
      breakdown[order[k]] == Amounts(CategoryTotal(rs, order[k], Income), CategoryTotal(rs, order[k], Expense))
    ensures ColumnSum(Entries(breakdown, order), t) == SumOverCategories(rs, order, t)
    decreases |order|
  {
    if |order| > 0 {
      var front := order[..|order| - 1];
      EntriesColumnSum(rs, breakdown, front, t);
      var es := Entries(breakdown, order);
      assert es[..|es| - 1] == Entries(breakdown, front);
    }
  }

  /** The rows built from a complete accumulator are the breakdown the screen promises. */
  lemma EntriesOfTally(rs: seq<FinanceRecord>, breakdown: map<string, Amounts>, order: seq<string>)
    requires Tallied(rs, breakdown, order)
    ensures forall k :: 0 <= k < |order| ==> order[k] in breakdown
    ensures Map(Entries(breakdown, order), EntryCategory) == Categories(rs)
    ensures var entries := Entries(breakdown, order);
      forall i :: 0 <= i < |entries| ==>
        entries[i].income == CategoryTotal(rs, entries[i].category, Income) &&
        entries[i].expense == CategoryTotal(rs, entries[i].category, Expense) &&
        entries[i].net == entries[i].income - entries[i].expense
    ensures ColumnSum(Entries(breakdown, order), Income) == Summarize(rs).income
    ensures ColumnSum(Entries(breakdown, order), Expense) == Summarize(rs).expenses
  {
    assert Map(Entries(breakdown, order), EntryCategory) == order;
    CategoryTotalsSum(rs, Income);
    EntriesColumnSum(rs, breakdown, order, Income);
    CategoryTotalsSum(rs, Expense);
    EntriesColumnSum(rs, breakdown, order, Expense);
  }

  /**
   * The `forEach` callback of `categoryBreakdown`: a missing category gets a
   * zero row (and so its place in the key order), then the record's amount
   * is added to the column of its type.
   */
  method AddRecord(breakdown: map<string, Amounts>, order: seq<string>, r: FinanceRecord)
    returns (breakdown': map<string, Amounts>, order': seq<string>)
    ensures breakdown' == Tally(breakdown, r) && order' == TallyOrder(breakdown, order, r)
  {
    breakdown', order' := breakdown, order;
    if r.category !in breakdown' {
      breakdown' := breakdown'[r.category := Amounts(0, 0)];
      order' := order' + [r.category];
    }
    var a := breakdown'[r.category];
    if r.recordType == Income {
      breakdown' := breakdown'[r.category := a.(income := a.income + r.amount)];
    } else {
      breakdown' := breakdown'[r.category := a.(expense := a.expense + r.amount)];
    }
  }

  /**
   * `categoryBreakdown`: one pass over the filtered records accumulating a
   * dictionary, then `Object.entries(...).map(...)`. `order` is the
   * dictionary's key insertion order, which `Object.entries` follows.
   */
  method CategoryBreakdown(filtered: seq<FinanceRecord>) returns (entries: seq<BreakdownEntry>)
    ensures Map(entries, EntryCategory) == Categories(filtered)
    ensures forall i :: 0 <= i < |entries| ==>
      entries[i].income == CategoryTotal(filtered, entries[i].category, Income) &&
      entries[i].expense == CategoryTotal(filtered, entries[i].category, Expense) &&
      entries[i].net == entries[i].income - entries[i].expense
    ensures ColumnSum(entries, Income) == Summarize(filtered).income
    ensures ColumnSum(entries, Expense) == Summarize(filtered).expenses
  {
    var breakdown: map<string, Amounts> := map[];
    var order: seq<string> := [];
    var i := 0;
    while i < |filtered|
      invariant 0 <= i <= |filtered|
      invariant Tallied(filtered[..i], breakdown, order)
    {
      TallyPrefixStep(filtered, i, breakdown, order);
      breakdown, order := AddRecord(breakdown, order, filtered[i]);
      i := i + 1;
    }
    assert filtered[..i] == filtered;
    EntriesOfTally(filtered, breakdown, order);
    entries := Entries(breakdown, order);
  }
}
