/** What the dashboard's three aggregations compute, stated as functions of the
    transaction list, and the properties those results have. */
module Aggregation {
  import opened Records
  import opened Sequences

  datatype Summary = Summary(totalIncome: int, totalExpenses: int, balance: int)

  /** One point of the monthly chart; `month` stands for the short month label. */
  datatype MonthEntry = MonthEntry(month: Month, income: int, expenses: int)

  /** One slice of the category chart. */
  datatype CategorySlice = CategorySlice(name: string, value: int)

  // ---------------------------------------------------------------------------
  // Sums and selections

  /** The sum of the amounts in `s`. */
  function Sum(s: seq<Transaction>): int
  {
    if s == [] then 0 else Sum(s[..|s| - 1]) + s[|s| - 1].amount
  }

  /** The records whose type is exactly "income", in list order. */
  function Incomes(s: seq<Transaction>): seq<Transaction>
  {
    if s == [] then []
    else
      var last := s[|s| - 1];
      Incomes(s[..|s| - 1]) + (if IsIncome(last) then [last] else [])
  }

  /** The records of every other type string, in list order. */
  function Expenses(s: seq<Transaction>): seq<Transaction>
  {
    if s == [] then []
    else
      var last := s[|s| - 1];
      Expenses(s[..|s| - 1]) + (if !IsIncome(last) then [last] else [])
  }

  /** The grouping key of every record, in list order. */
  function KeysOf<K>(s: seq<Transaction>, key: Transaction -> K): seq<K>
  {
    seq(|s|, i requires 0 <= i < |s| => key(s[i]))
  }

  /** The records whose grouping key is `k`, in list order. */
  function InGroup<K(==)>(s: seq<Transaction>, key: Transaction -> K, k: K): seq<Transaction>
  {
    if s == [] then []
    else
      var last := s[|s| - 1];
      InGroup(s[..|s| - 1], key, k) + (if key(last) == k then [last] else [])
  }

  function RecordMonth(t: Transaction): Month
  {
    MonthOf(t.date)
  }

  function RecordCategory(t: Transaction): string
  {
    t.category
  }

  // ---------------------------------------------------------------------------
  // The three views

  /** The monthly entry for label `m`: income and expense sums over the records with that label. */
  function MonthEntryOf(s: seq<Transaction>, m: Month): MonthEntry
  {
    var g := InGroup(s, RecordMonth, m);
    MonthEntry(m, Sum(Incomes(g)), Sum(Expenses(g)))
  }

  /** The monthly series: one entry per distinct label, in first-occurrence order. */
  function MonthlySeries(s: seq<Transaction>): seq<MonthEntry>
  {
    EntriesFor(s, Distinct(KeysOf(s, RecordMonth)))
  }

  /** The monthly entries of the labels in `d`, in the order of `d`. */
  function EntriesFor(s: seq<Transaction>, d: seq<Month>): seq<MonthEntry>
  {
    seq(|d|, i requires 0 <= i < |d| => MonthEntryOf(s, d[i]))
  }

  /** The total of all amounts with category `c`, whatever their type. */
  function CategoryValue(s: seq<Transaction>, c: string): int
  {
    Sum(InGroup(s, RecordCategory, c))
  }

  /** The category breakdown: one slice per distinct category, in first-occurrence order. */
  function CategoryBreakdown(s: seq<Transaction>): seq<CategorySlice>
  {
    var d := Distinct(KeysOf(s, RecordCategory));
    seq(|d|, i requires 0 <= i < |d| => CategorySlice(d[i], CategoryValue(s, d[i])))
  }

  /** Sum of `income + expenses` over the monthly series. */
  function SeriesTotal(series: seq<MonthEntry>): int
  {
    if series == [] then 0 else series[0].income + series[0].expenses + SeriesTotal(series[1..])
  }

  /** Sum of the income side over the monthly series. */
  function IncomeColumn(series: seq<MonthEntry>): int
  {
    if series == [] then 0 else series[0].income + IncomeColumn(series[1..])
  }

  /** Sum of the expense side over the monthly series. */
  function ExpenseColumn(series: seq<MonthEntry>): int
  {
    if series == [] then 0 else series[0].expenses + ExpenseColumn(series[1..])
  }

  /** Sum of the slice values of a category breakdown. */
  function SliceTotal(slices: seq<CategorySlice>): int
  {
    if slices == [] then 0 else slices[0].value + SliceTotal(slices[1..])
  }

  /** Sum of the group sums for the keys in `d`. */
  function GroupTotal<K(==)>(s: seq<Transaction>, key: Transaction -> K, d: seq<K>): int
  {
    if d == [] then 0 else Sum(InGroup(s, key, d[0])) + GroupTotal(s, key, d[1..])
  }

  // ---------------------------------------------------------------------------
  // One more record at the end: how each function changes

  lemma SumSnoc(s: seq<Transaction>, t: Transaction)
    ensures Sum(s + [t]) == Sum(s) + t.amount
  {
    assert (s + [t])[..|s|] == s;
  }

  lemma IncomesSnoc(s: seq<Transaction>, t: Transaction)
    ensures IsIncome(t) ==> Incomes(s + [t]) == Incomes(s) + [t] && Expenses(s + [t]) == Expenses(s)
    ensures !IsIncome(t) ==> Incomes(s + [t]) == Incomes(s) && Expenses(s + [t]) == Expenses(s) + [t]
  {
    assert (s + [t])[..|s|] == s;
  }

  /** One more record adds its amount to exactly one of the two totals. */
  lemma TotalsSnoc(s: seq<Transaction>, t: Transaction)
    ensures IsIncome(t) ==>
      Sum(Incomes(s + [t])) == Sum(Incomes(s)) + t.amount && Sum(Expenses(s + [t])) == Sum(Expenses(s))
    ensures !IsIncome(t) ==>
      Sum(Incomes(s + [t])) == Sum(Incomes(s)) && Sum(Expenses(s + [t])) == Sum(Expenses(s)) + t.amount
  {
    IncomesSnoc(s, t);
    SumSnoc(Incomes(s), t);
    SumSnoc(Expenses(s), t);
  }

  lemma InGroupSnoc<K>(s: seq<Transaction>, t: Transaction, key: Transaction -> K, k: K)
    ensures key(t) == k ==> InGroup(s + [t], key, k) == InGroup(s, key, k) + [t]
    ensures key(t) != k ==> InGroup(s + [t], key, k) == InGroup(s, key, k)
  {
    assert (s + [t])[..|s|] == s;
  }

  lemma KeysOfSnoc<K>(s: seq<Transaction>, t: Transaction, key: Transaction -> K)
    ensures KeysOf(s + [t], key) == KeysOf(s, key) + [key(t)]
  {
  }

  /** The key order after one more record: its key is appended on first sight. */
  lemma KeyOrderSnoc<K(!new)>(s: seq<Transaction>, t: Transaction, key: Transaction -> K)
    ensures Distinct(KeysOf(s + [t], key)) ==
      if key(t) in Distinct(KeysOf(s, key)) then Distinct(KeysOf(s, key))
      else Distinct(KeysOf(s, key)) + [key(t)]
  {
    KeysOfSnoc(s, t, key);
    DistinctSnoc(KeysOf(s, key), key(t));
  }

  /** A key that no record carries has an empty group. */
  lemma {:induction false} InGroupAbsent<K>(s: seq<Transaction>, key: Transaction -> K, k: K)
    requires k !in KeysOf(s, key)
    ensures InGroup(s, key, k) == []
  {
    if s != [] {
      var init := s[..|s| - 1];
      assert KeysOf(s, key) == KeysOf(init, key) + [key(s[|s| - 1])];
      InGroupAbsent(init, key, k);
    }
  }

  /** `e` with the amount of `t` added on the side its type selects. */
  function Credit(e: MonthEntry, t: Transaction): (r: MonthEntry)
    ensures r.month == e.month
    ensures r.income + r.expenses == e.income + e.expenses + t.amount
  {
    if IsIncome(t) then e.(income := e.income + t.amount) else e.(expenses := e.expenses + t.amount)
  }

  /** A record at the end is credited to the entry of its own month. */
  lemma MonthEntrySnoc(s: seq<Transaction>, t: Transaction)
    ensures MonthEntryOf(s + [t], RecordMonth(t)) == Credit(MonthEntryOf(s, RecordMonth(t)), t)
  {
    var g := InGroup(s, RecordMonth, RecordMonth(t));
    InGroupSnoc(s, t, RecordMonth, RecordMonth(t));
    IncomesSnoc(g, t);
    if IsIncome(t) {
      SumSnoc(Incomes(g), t);
    } else {
      SumSnoc(Expenses(g), t);
    }
  }

  lemma MonthEntryOther(s: seq<Transaction>, t: Transaction, m: Month)
    requires RecordMonth(t) != m
    ensures MonthEntryOf(s + [t], m) == MonthEntryOf(s, m)
  {
    InGroupSnoc(s, t, RecordMonth, m);
  }

  lemma CategoryValueSnoc(s: seq<Transaction>, t: Transaction, c: string)
    ensures CategoryValue(s + [t], c) ==
      CategoryValue(s, c) + (if t.category == c then t.amount else 0)
  {
    InGroupSnoc(s, t, RecordCategory, c);
    if t.category == c {
      SumSnoc(InGroup(s, RecordCategory, c), t);
    }
  }

  // ---------------------------------------------------------------------------
  // Totals

  /** Every record is counted exactly once, either as income or as expense. */
  lemma {:induction false} SumSplitsByType(s: seq<Transaction>)
    ensures Sum(Incomes(s)) + Sum(Expenses(s)) == Sum(s)
  {
    if s != [] {
      var init, last := s[..|s| - 1], s[|s| - 1];
      assert s == init + [last];
      SumSplitsByType(init);
      IncomesSnoc(init, last);
      SumSnoc(init, last);
      if IsIncome(last) {
        SumSnoc(Incomes(init), last);
      } else {
        SumSnoc(Expenses(init), last);
      }
    }
  }

  lemma {:induction false} SumConcat(a: seq<Transaction>, b: seq<Transaction>)
    ensures Sum(a + b) == Sum(a) + Sum(b)
  {
    if b != [] {
      var init, last := b[..|b| - 1], b[|b| - 1];
      assert b == init + [last];
      assert a + b == (a + init) + [last];
      SumConcat(a, init);
      SumSnoc(a + init, last);
      SumSnoc(init, last);
    } else {
      assert a + b == a;
    }
  }

  /** A sum of amounts does not depend on the order of the records. */
  lemma {:induction false} SumPermutation(a: seq<Transaction>, b: seq<Transaction>)
    requires multiset(a) == multiset(b)
    ensures Sum(a) == Sum(b)
    decreases |a|
  {
    if a != [] {
      var init, last := a[..|a| - 1], a[|a| - 1];
      assert a == init + [last];
      assert last in multiset(b);
      var k :| 0 <= k < |b| && b[k] == last;
      var rest := b[..k] + b[k + 1..];
      assert b == b[..k] + [last] + b[k + 1..];
      assert multiset(a) == multiset(init) + multiset{last};
      assert multiset(b) == multiset(b[..k]) + multiset{last} + multiset(b[k + 1..]);
      assert multiset(rest) == multiset(b[..k]) + multiset(b[k + 1..]);
      assert multiset(init) == multiset(a) - multiset{last};
      assert multiset(rest) == multiset(b) - multiset{last};
      SumPermutation(init, rest);
      SumConcat(b[..k] + [last], b[k + 1..]);
      SumConcat(b[..k], [last]);
      SumConcat(b[..k], b[k + 1..]);
      SumSnoc(init, last);
      assert Sum([last]) == last.amount by { assert [last][..0] == []; }
    }
  }

  /** The income records of `s` are its records of type "income", with their multiplicities. */
  lemma {:induction false} IncomesMultiset(s: seq<Transaction>)
    ensures forall x :: multiset(Incomes(s))[x] == if IsIncome(x) then multiset(s)[x] else 0
    ensures forall x :: multiset(Expenses(s))[x] == if IsIncome(x) then 0 else multiset(s)[x]
  {
    if s != [] {
      var init, last := s[..|s| - 1], s[|s| - 1];
      assert s == init + [last];
      IncomesMultiset(init);
      IncomesSnoc(init, last);
    }
  }

  /** The summary is the same for every ordering of the same records. */
  lemma TotalsPermutationInvariant(a: seq<Transaction>, b: seq<Transaction>)
    requires multiset(a) == multiset(b)
    ensures Sum(Incomes(a)) == Sum(Incomes(b))
    ensures Sum(Expenses(a)) == Sum(Expenses(b))
  {
    IncomesMultiset(a);
    IncomesMultiset(b);
    forall x ensures multiset(Incomes(a))[x] == multiset(Incomes(b))[x] {
    }
    forall x ensures multiset(Expenses(a))[x] == multiset(Expenses(b))[x] {
    }
    assert multiset(Incomes(a)) == multiset(Incomes(b));
    assert multiset(Expenses(a)) == multiset(Expenses(b));
    SumPermutation(Incomes(a), Incomes(b));
    SumPermutation(Expenses(a), Expenses(b));
  }

  // ---------------------------------------------------------------------------
  // Groupings

  lemma {:induction false} GroupTotalEmpty<K>(key: Transaction -> K, d: seq<K>)
    ensures GroupTotal([], key, d) == 0
  {
    if d != [] {
      GroupTotalEmpty(key, d[1..]);
    }
  }

  lemma {:induction false} GroupTotalSnoc<K>(s: seq<Transaction>, t: Transaction, key: Transaction -> K, d: seq<K>)
    requires NoDuplicates(d)
    ensures GroupTotal(s + [t], key, d) == GroupTotal(s, key, d) + (if key(t) in d then t.amount else 0)
  {
    if d != [] {
      assert NoDuplicates(d[1..]);
      GroupTotalSnoc(s, t, key, d[1..]);
      InGroupSnoc(s, t, key, d[0]);
      if key(t) == d[0] {
        SumSnoc(InGroup(s, key, d[0]), t);
        assert key(t) !in d[1..];
      }
      assert d == [d[0]] + d[1..];
    }
  }

  /** When every record's key is listed once in `d`, the group sums add up to the sum of all amounts. */
  lemma {:induction false} GroupTotalCovers<K>(s: seq<Transaction>, key: Transaction -> K, d: seq<K>)
    requires NoDuplicates(d)
    requires forall i :: 0 <= i < |s| ==> key(s[i]) in d
    ensures GroupTotal(s, key, d) == Sum(s)
  {
    if s == [] {
      GroupTotalEmpty(key, d);
    } else {
      var init, last := s[..|s| - 1], s[|s| - 1];
      assert s == init + [last];
      GroupTotalCovers(init, key, d);
      GroupTotalSnoc(init, last, key, d);
      SumSnoc(init, last);
    }
  }

  lemma {:induction false} SeriesTotalIsGroupTotal(s: seq<Transaction>, d: seq<Month>, series: seq<MonthEntry>)
    requires |series| == |d|
    requires forall i :: 0 <= i < |d| ==> series[i] == MonthEntryOf(s, d[i])
    ensures SeriesTotal(series) == GroupTotal(s, RecordMonth, d)
  {
    if d != [] {
      SeriesTotalIsGroupTotal(s, d[1..], series[1..]);
      SumSplitsByType(InGroup(s, RecordMonth, d[0]));
    }
  }

  lemma {:induction false} SliceTotalIsGroupTotal(s: seq<Transaction>, d: seq<string>, slices: seq<CategorySlice>)
    requires |slices| == |d|
    requires forall i :: 0 <= i < |d| ==> slices[i] == CategorySlice(d[i], CategoryValue(s, d[i]))
    ensures SliceTotal(slices) == GroupTotal(s, RecordCategory, d)
  {
    if d != [] {
      SliceTotalIsGroupTotal(s, d[1..], slices[1..]);
    }
  }

  /** Every amount falls into exactly one monthly entry. */
  lemma MonthlyConservation(s: seq<Transaction>)
    ensures SeriesTotal(MonthlySeries(s)) == Sum(s)
  {
    var ks := KeysOf(s, RecordMonth);
    var d := Distinct(ks);
    forall i | 0 <= i < |s| ensures RecordMonth(s[i]) in d {
      assert ks[i] == RecordMonth(s[i]);
    }
    SeriesTotalIsGroupTotal(s, d, MonthlySeries(s));
    GroupTotalCovers(s, RecordMonth, d);
  }

  /** Every amount falls into exactly one category slice, whatever its type. */
  lemma CategoryConservation(s: seq<Transaction>)
    ensures SliceTotal(CategoryBreakdown(s)) == Sum(s)
  {
    var ks := KeysOf(s, RecordCategory);
    var d := Distinct(ks);
    forall i | 0 <= i < |s| ensures RecordCategory(s[i]) in d {
      assert ks[i] == RecordCategory(s[i]);
    }
    SliceTotalIsGroupTotal(s, d, CategoryBreakdown(s));
    GroupTotalCovers(s, RecordCategory, d);
  }

  /** Selecting by type and selecting by key commute. */
  lemma {:induction false} TypeOfGroup<K>(s: seq<Transaction>, key: Transaction -> K, k: K)
    ensures Incomes(InGroup(s, key, k)) == InGroup(Incomes(s), key, k)
    ensures Expenses(InGroup(s, key, k)) == InGroup(Expenses(s), key, k)
  {
    if s != [] {
      var init, t := s[..|s| - 1], s[|s| - 1];
      assert s == init + [t];
      TypeOfGroup(init, key, k);
      InGroupSnoc(init, t, key, k);
      IncomesSnoc(init, t);
      IncomesSnoc(InGroup(init, key, k), t);
      InGroupSnoc(Incomes(init), t, key, k);
      InGroupSnoc(Expenses(init), t, key, k);
    }
  }

  lemma {:induction false} ColumnsAreGroupTotals(s: seq<Transaction>, d: seq<Month>, series: seq<MonthEntry>)
    requires |series| == |d|
    requires forall i :: 0 <= i < |d| ==> series[i] == MonthEntryOf(s, d[i])
    ensures IncomeColumn(series) == GroupTotal(Incomes(s), RecordMonth, d)
    ensures ExpenseColumn(series) == GroupTotal(Expenses(s), RecordMonth, d)
  {
    if d != [] {
      ColumnsAreGroupTotals(s, d[1..], series[1..]);
      TypeOfGroup(s, RecordMonth, d[0]);
    }
  }

  /** Both selections take their records from `s`. */
  lemma {:induction false} SelectionsFromList(s: seq<Transaction>)
    ensures forall x :: x in Incomes(s) ==> x in s
    ensures forall x :: x in Expenses(s) ==> x in s
  {
    if s != [] {
      var init, t := s[..|s| - 1], s[|s| - 1];
      assert s == init + [t];
      SelectionsFromList(init);
      IncomesSnoc(init, t);
    }
  }

  /** The month label of every record taken from `s` has an entry in the series of `s`. */
  lemma MonthsCovered(s: seq<Transaction>, sub: seq<Transaction>)
    requires forall x :: x in sub ==> x in s
    ensures forall i :: 0 <= i < |sub| ==> RecordMonth(sub[i]) in Distinct(KeysOf(s, RecordMonth))
  {
    var ks := KeysOf(s, RecordMonth);
    forall i | 0 <= i < |sub| ensures RecordMonth(sub[i]) in Distinct(ks) {
      assert sub[i] in s;
      var k :| 0 <= k < |s| && s[k] == sub[i];
      assert ks[k] == RecordMonth(sub[i]);
    }
  }

  /** The monthly income bars add up to the summary's total income, and the expense bars
      to its total expenses. */
  lemma MonthlyColumnsMatchTotals(s: seq<Transaction>)
    ensures IncomeColumn(MonthlySeries(s)) == Sum(Incomes(s))
    ensures ExpenseColumn(MonthlySeries(s)) == Sum(Expenses(s))
  {
    var d := Distinct(KeysOf(s, RecordMonth));
    SelectionsFromList(s);
    MonthsCovered(s, Incomes(s));
    MonthsCovered(s, Expenses(s));
    ColumnsAreGroupTotals(s, d, MonthlySeries(s));
    GroupTotalCovers(Incomes(s), RecordMonth, d);
    GroupTotalCovers(Expenses(s), RecordMonth, d);
  }

  /** Conservation across the three views: the category values, the monthly
      `income + expenses` and the two totals all add up to the same amount. */
  lemma Conservation(s: seq<Transaction>)
    ensures SliceTotal(CategoryBreakdown(s)) == SeriesTotal(MonthlySeries(s))
    ensures SeriesTotal(MonthlySeries(s)) == Sum(Incomes(s)) + Sum(Expenses(s))
  {
    MonthlyConservation(s);
    CategoryConservation(s);
    SumSplitsByType(s);
  }

  /** Records of the same month share one entry, whatever their years and days. */
  lemma SameMonthOneEntry(s: seq<Transaction>, a: nat, b: nat)
    requires a < |s| && b < |s| && s[a].date.month == s[b].date.month
    ensures exists i ::
              && 0 <= i < |MonthlySeries(s)|
              && MonthlySeries(s)[i].month == MonthOf(s[a].date)
              && MonthlySeries(s)[i].month == MonthOf(s[b].date)
  {
    MonthlySeriesKeys(s);
  }

  /** The monthly series has one entry per distinct month label of `s`, no other entries,
      and lists them in the order in which each label first occurs in `s`. */
  lemma MonthlySeriesKeys(s: seq<Transaction>)
    ensures forall i, j :: 0 <= i < j < |MonthlySeries(s)| ==>
      MonthlySeries(s)[i].month != MonthlySeries(s)[j].month
    ensures forall k :: 0 <= k < |s| ==>
      exists i :: 0 <= i < |MonthlySeries(s)| && MonthlySeries(s)[i].month == MonthOf(s[k].date)
    ensures forall i :: 0 <= i < |MonthlySeries(s)| ==>
      MonthlySeries(s)[i].month in KeysOf(s, RecordMonth)
    ensures forall i, j :: 0 <= i < j < |MonthlySeries(s)| ==>
      FirstIndex(KeysOf(s, RecordMonth), MonthlySeries(s)[i].month)
        < FirstIndex(KeysOf(s, RecordMonth), MonthlySeries(s)[j].month)
  {
    var ks := KeysOf(s, RecordMonth);
    var d := Distinct(ks);
    DistinctFirstOccurrenceOrder(ks);
    forall k | 0 <= k < |s|
      ensures exists i :: 0 <= i < |MonthlySeries(s)| && MonthlySeries(s)[i].month == MonthOf(s[k].date)
    {
      assert ks[k] == RecordMonth(s[k]);
      assert ks[k] in d;
      var i :| 0 <= i < |d| && d[i] == ks[k];
      assert MonthlySeries(s)[i].month == d[i];
    }
  }

  /** The category breakdown has one slice per distinct category of `s`, no other slices,
      and lists them in the order in which each category first occurs in `s`. */
  lemma CategoryBreakdownKeys(s: seq<Transaction>)
    ensures forall i, j :: 0 <= i < j < |CategoryBreakdown(s)| ==>
      CategoryBreakdown(s)[i].name != CategoryBreakdown(s)[j].name
    ensures forall k :: 0 <= k < |s| ==>
      exists i :: 0 <= i < |CategoryBreakdown(s)| && CategoryBreakdown(s)[i].name == s[k].category
    ensures forall i :: 0 <= i < |CategoryBreakdown(s)| ==>
      CategoryBreakdown(s)[i].name in KeysOf(s, RecordCategory)
    ensures forall i, j :: 0 <= i < j < |CategoryBreakdown(s)| ==>
      FirstIndex(KeysOf(s, RecordCategory), CategoryBreakdown(s)[i].name)
        < FirstIndex(KeysOf(s, RecordCategory), CategoryBreakdown(s)[j].name)
  {
    var ks := KeysOf(s, RecordCategory);
    var d := Distinct(ks);
    DistinctFirstOccurrenceOrder(ks);
    forall k | 0 <= k < |s|
      ensures exists i :: 0 <= i < |CategoryBreakdown(s)| && CategoryBreakdown(s)[i].name == s[k].category
    {
      assert ks[k] == RecordCategory(s[k]);
      assert ks[k] in d;
      var i :| 0 <= i < |d| && d[i] == ks[k];
      assert CategoryBreakdown(s)[i].name == d[i];
    }
  }

  /** A record with amount 0 changes neither total. */
  lemma ZeroAmountTotals(s: seq<Transaction>, t: Transaction)
    requires t.amount == 0
    ensures Sum(Incomes(s + [t])) == Sum(Incomes(s))
    ensures Sum(Expenses(s + [t])) == Sum(Expenses(s))
  {
    IncomesSnoc(s, t);
    SumSnoc(Incomes(s), t);
    SumSnoc(Expenses(s), t);
  }

  lemma MonthEntryZero(s: seq<Transaction>, t: Transaction, m: Month)
    requires t.amount == 0
    ensures MonthEntryOf(s + [t], m) == MonthEntryOf(s, m)
  {
    if RecordMonth(t) == m {
      MonthEntrySnoc(s, t);
    } else {
      MonthEntryOther(s, t, m);
    }
  }

  /** A record with amount 0 creates its month entry (at the end, when its label is new)
      and changes no entry's sums. */
  lemma ZeroAmountMonthly(s: seq<Transaction>, t: Transaction)
    requires t.amount == 0
    ensures MonthlySeries(s + [t]) ==
      if MonthOf(t.date) in KeysOf(s, RecordMonth) then MonthlySeries(s)
      else MonthlySeries(s) + [MonthEntry(MonthOf(t.date), 0, 0)]
  {
    var m := RecordMonth(t);
    KeysOfSnoc(s, t, RecordMonth);
    DistinctSnoc(KeysOf(s, RecordMonth), m);
    var d, d' := Distinct(KeysOf(s, RecordMonth)), Distinct(KeysOf(s + [t], RecordMonth));
    forall i | 0 <= i < |d'| ensures MonthEntryOf(s + [t], d'[i]) == MonthEntryOf(s, d'[i]) {
      MonthEntryZero(s, t, d'[i]);
    }
    EntriesForSame(s + [t], s, d');
    if m !in KeysOf(s, RecordMonth) {
      InGroupAbsent(s, RecordMonth, m);
      assert MonthEntryOf(s, m) == MonthEntry(m, 0, 0);
      EntriesForSnoc(s, d, m);
    }
  }

  lemma EntriesForSame(s: seq<Transaction>, s': seq<Transaction>, d: seq<Month>)
    requires forall i :: 0 <= i < |d| ==> MonthEntryOf(s, d[i]) == MonthEntryOf(s', d[i])
    ensures EntriesFor(s, d) == EntriesFor(s', d)
  {
  }

  lemma EntriesForSnoc(s: seq<Transaction>, d: seq<Month>, m: Month)
    ensures EntriesFor(s, d + [m]) == EntriesFor(s, d) + [MonthEntryOf(s, m)]
  {
  }

  /** A record with amount 0 creates its category slice (at the end, when its category is new)
      and changes no slice's value. */
  lemma ZeroAmountCategory(s: seq<Transaction>, t: Transaction)
    requires t.amount == 0
    ensures CategoryBreakdown(s + [t]) ==
      if t.category in KeysOf(s, RecordCategory) then CategoryBreakdown(s)
      else CategoryBreakdown(s) + [CategorySlice(t.category, 0)]
  {
    var c := RecordCategory(t);
    KeysOfSnoc(s, t, RecordCategory);
    DistinctSnoc(KeysOf(s, RecordCategory), c);
    var d, d' := Distinct(KeysOf(s, RecordCategory)), Distinct(KeysOf(s + [t], RecordCategory));
    forall i | 0 <= i < |d'| ensures CategoryValue(s + [t], d'[i]) == CategoryValue(s, d'[i]) {
      CategoryValueSnoc(s, t, d'[i]);
    }
    var slices, slices' := CategoryBreakdown(s), CategoryBreakdown(s + [t]);
    if c !in KeysOf(s, RecordCategory) {
      InGroupAbsent(s, RecordCategory, c);
      assert CategoryValue(s, c) == 0;
      assert d' == d + [c];
      forall i | 0 <= i < |d| ensures slices'[i] == slices[i] {
        assert d'[i] == d[i];
      }
      assert slices'[|d|] == CategorySlice(c, 0);
      assert slices' == slices + [CategorySlice(c, 0)];
    } else {
      assert d' == d;
      assert slices' == slices;
    }
  }
}
