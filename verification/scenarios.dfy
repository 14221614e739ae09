/** Worked examples of the tracker's behaviour on concrete ledgers. */
module Scenarios {
  import opened Text
  import opened Expenses
  import opened Views
  import opened Summary
  import opened Ledger

  /** A stored row still labelled "Travel" is merged on load; the view of the
      whole ledger then totals 120.00 rupees, in the merged category. */
  lemma LegacyTaxiRow()
    ensures var taxi := Expense(Date(2024, 1, 5), "Travel", 12000, "taxi");
            var l := Normalize([taxi]);
            && l == [taxi.(category := Merged)]
            && Total(l) == 12000
            && TopCategory(l) == Merged
  {
    var taxi := Expense(Date(2024, 1, 5), "Travel", 12000, "taxi");
    var l := Normalize([taxi]);
    assert l == [taxi.(category := Merged)];
    TopCategoryCorrect(l, Merged);
  }

  /** Two Food rows a month apart fall into two month buckets, in order. */
  lemma TwoMonthsOfFood()
    ensures MonthlySummary([Expense(Date(2024, 1, 10), "Food", 5000, ""),
                            Expense(Date(2024, 2, 10), "Food", 7000, "")])
            == [Group("2024-01", 5000), Group("2024-02", 7000)]
  {
    var jan := Expense(Date(2024, 1, 10), "Food", 5000, "");
    var feb := Expense(Date(2024, 2, 10), "Food", 7000, "");
    MonthLabelsOf2024();
    MonthKeyOrder(jan.date, feb.date);
    var pairs := [Group("2024-01", 5000), Group("2024-02", 7000)];
    assert MonthPairs([jan, feb]) == pairs;
    assert GroupBy(pairs[1..]) == [pairs[1]];
  }

  lemma MonthLabelsOf2024()
    ensures MonthKey(Date(2024, 1, 10)) == "2024-01"
    ensures MonthKey(Date(2024, 2, 10)) == "2024-02"
  {
    assert Digits(2024, 4) == "2024" by {
      assert Digits(2, 1) == "2";
      assert Digits(20, 2) == "20";
      assert Digits(202, 3) == "202";
    }
    assert Digits(1, 2) == "01" && Digits(2, 2) == "02";
  }

  /** A session on a stored ledger: pressing delete with the empty choice
      changes nothing (in particular it does not drop row 0), a real choice
      drops that row, and an added row lands at the end; after each write the
      load-time rewrite of the model's file is a no-op. */
  method Session(stored: seq<Expense>)
    requires |stored| >= 2 && AllDatesValid(stored)
  {
    var ledger := new ExpenseLedger.Load(Some(stored));
    var before := ledger.records;
    var outcome := ledger.Delete(NoRow);
    assert outcome == NothingSelected && ledger.records == before;
    assert ledger.file == Some(stored);

    outcome := ledger.Delete(Row(0));
    assert outcome == Deleted(before[0]);
    assert ledger.records == before[1..];

    var rest := ledger.records;
    ledger.Add(Date(2024, 2, 29), "Travel & Transport", 1, "");
    assert ledger.records == rest + [Expense(Date(2024, 2, 29), Merged, 1, "")];
    assert Normalize(ledger.file.value) == ledger.records;
  }
}
