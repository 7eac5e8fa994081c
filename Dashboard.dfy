/** The dashboard's three reductions over the fetched transaction list. Each keeps
    an accumulator that the loop updates in place; a JavaScript object accumulator
    is a sequence of its keys in insertion order together with a map. */
module Dashboard {
  import opened Records
  import opened Sequences
  import opened Aggregation

  /** `calculateSummary`: income and expense totals and the balance. */
  method CalculateSummary(data: seq<Transaction>) returns (summary: Summary)
    ensures summary.totalIncome == Sum(Incomes(data))
    ensures summary.totalExpenses == Sum(Expenses(data))
    ensures summary.balance == summary.totalIncome - summary.totalExpenses
    ensures data == [] ==> summary == Summary(0, 0, 0)
  {
    var totalIncome, totalExpenses := 0, 0;
    for i := 0 to |data|
      invariant totalIncome == Sum(Incomes(data[..i]))
      invariant totalExpenses == Sum(Expenses(data[..i]))
    {
      var t := data[i];
      PrefixSnoc(data, i);
      TotalsSnoc(data[..i], t);
      if IsIncome(t) {
        totalIncome := totalIncome + t.amount;
      } else {
        totalExpenses := totalExpenses + t.amount;
      }
    }
    assert data[..|data|] == data;
    summary := Summary(totalIncome, totalExpenses, totalIncome - totalExpenses);
  }

  /** The state of the monthly reduction after the records `done`: the labels seen, in
      insertion order, and for each of them the entry of its records so far. */
  ghost predicate MonthlyAccumulator(done: seq<Transaction>, keys: seq<Month>, acc: map<Month, MonthEntry>)
  {
    && keys == Distinct(KeysOf(done, RecordMonth))
    && (forall m :: m in acc <==> m in keys)
    && (forall m :: m in acc ==> acc[m] == MonthEntryOf(done, m))
  }

  /** The credited entry of the record's label: a label seen for the first time starts
      from zero sums. */
  lemma MonthlyEntryStep(done: seq<Transaction>, t: Transaction, keys: seq<Month>, acc: map<Month, MonthEntry>,
                         entry: MonthEntry)
    requires MonthlyAccumulator(done, keys, acc)
    requires entry ==
      Credit(if MonthOf(t.date) in acc then acc[MonthOf(t.date)] else MonthEntry(MonthOf(t.date), 0, 0), t)
    ensures entry == MonthEntryOf(done + [t], MonthOf(t.date))
  {
    if MonthOf(t.date) !in acc {
      InGroupAbsent(done, RecordMonth, MonthOf(t.date));
    }
    MonthEntrySnoc(done, t);
  }

  /** One step of the monthly reduction: a new label is added with zero sums, then its entry
      is credited with the record. */
  lemma MonthlyStep(done: seq<Transaction>, t: Transaction, keys: seq<Month>, acc: map<Month, MonthEntry>,
                    keys': seq<Month>, entry: MonthEntry)
    requires MonthlyAccumulator(done, keys, acc)
    requires keys' == if MonthOf(t.date) in acc then keys else keys + [MonthOf(t.date)]
    requires entry ==
      Credit(if MonthOf(t.date) in acc then acc[MonthOf(t.date)] else MonthEntry(MonthOf(t.date), 0, 0), t)
    ensures MonthlyAccumulator(done + [t], keys', acc[MonthOf(t.date) := entry])
  {
    var m, done', acc' := MonthOf(t.date), done + [t], acc[MonthOf(t.date) := entry];
    KeyOrderSnoc(done, t, RecordMonth);
    assert forall m' :: m' in acc' <==> m' in keys';
    forall m' | m' in acc' ensures acc'[m'] == MonthEntryOf(done', m') {
      if m' == m {
        MonthlyEntryStep(done, t, keys, acc, entry);
      } else {
        MonthEntryOther(done, t, m');
      }
    }
  }

  /** `getMonthlyData`: one entry per month label, created on first sight with zero
      sums and then credited with the record's amount on its income or expense side. */
  method GetMonthlyData(transactions: seq<Transaction>) returns (series: seq<MonthEntry>)
    ensures series == MonthlySeries(transactions)
  {
    var keys: seq<Month> := [];
    var acc: map<Month, MonthEntry> := map[];
    for i := 0 to |transactions|
      invariant MonthlyAccumulator(transactions[..i], keys, acc)
    {
      var t := transactions[i];
      PrefixSnoc(transactions, i);
      var month := MonthOf(t.date);
      // `acc[month]` is an object that the reduction updates through its reference
      var entry: MonthEntry;
      var keys' := keys;
      if month in acc {
        entry := acc[month];
      } else {
        entry := MonthEntry(month, 0, 0);
        keys' := keys + [month];
      }
      if IsIncome(t) {
        entry := entry.(income := entry.income + t.amount);
      } else {
        entry := entry.(expenses := entry.expenses + t.amount);
      }
      MonthlyStep(transactions[..i], t, keys, acc, keys', entry);
      keys, acc := keys', acc[month := entry];
    }
    assert transactions[..|transactions|] == transactions;
    series := seq(|keys|, k requires 0 <= k < |keys| => acc[keys[k]]);
  }

  /** The state of the category reduction after the records `done`: the categories seen,
      in insertion order, and for each of them the total of its records so far. */
  ghost predicate CategoryAccumulator(done: seq<Transaction>, keys: seq<string>, acc: map<string, int>)
  {
    && keys == Distinct(KeysOf(done, RecordCategory))
    && (forall c :: c in acc <==> c in keys)
    && (forall c :: c in acc ==> acc[c] == CategoryValue(done, c))
  }

  /** One step of the category reduction: the record's category gets the old total, or 0
      when there is none or it is 0, plus the record's amount. */
  lemma CategoryStep(done: seq<Transaction>, t: Transaction, keys: seq<string>, acc: map<string, int>,
                     keys': seq<string>, total: int)
    requires CategoryAccumulator(done, keys, acc)
    requires keys' == if t.category in acc then keys else keys + [t.category]
    requires total == (if t.category in acc && acc[t.category] != 0 then acc[t.category] else 0) + t.amount
    ensures CategoryAccumulator(done + [t], keys', acc[t.category := total])
  {
    var c, done', acc' := t.category, done + [t], acc[t.category := total];
    KeyOrderSnoc(done, t, RecordCategory);
    assert forall c' :: c' in acc' <==> c' in keys';
    forall c' | c' in acc' ensures acc'[c'] == CategoryValue(done', c') {
      if c' == c && c !in acc {
        InGroupAbsent(done, RecordCategory, c);
      }
      CategoryValueSnoc(done, t, c');
    }
  }

  /** `getCategoryData`: one slice per category, summing every amount with that
      category regardless of type. The source's test `!acc[category]` is true for an
      absent key and for a total of 0; both reset the total to 0, and re-assigning a
      key that is present keeps its place in the key order. */
  method GetCategoryData(transactions: seq<Transaction>) returns (slices: seq<CategorySlice>)
    ensures slices == CategoryBreakdown(transactions)
  {
    var keys: seq<string> := [];
    var acc: map<string, int> := map[];
    for i := 0 to |transactions|
      invariant CategoryAccumulator(transactions[..i], keys, acc)
    {
      var t := transactions[i];
      PrefixSnoc(transactions, i);
      var category := t.category;
      // `acc[category]` read once, reset when falsy, then incremented
      var total: int;
      var keys' := keys;
      if category !in acc || acc[category] == 0 {
        if category !in acc {
          keys' := keys + [category];
        }
        total := 0;
      } else {
        total := acc[category];
      }
      total := total + t.amount;
      CategoryStep(transactions[..i], t, keys, acc, keys', total);
      keys, acc := keys', acc[category := total];
    }
    assert transactions[..|transactions|] == transactions;
    slices := seq(|keys|, k requires 0 <= k < |keys| => CategorySlice(keys[k], acc[keys[k]]));
  }
}
