/** The figures the summary page shows for a filtered view: the total spent,
    the per-category and per-month sums (pandas `groupby(...).sum()`, whose
    keys come out sorted), and the top category (`idxmax` of the category
    sums). */
module Summary {
  import opened Text
  import opened Expenses
  import opened Views

  /** One row of a grouped sum: a key and the sum of its amounts. */
  datatype Group = Group(key: string, sum: int)

  /** `filtered_df["Amount"].sum()`. When every amount is positive, as the
      entry form ensures, the total is positive exactly when there is a row. */
  function Total(l: seq<Expense>): (r: int)
    ensures (forall i :: 0 <= i < |l| ==> l[i].amount > 0) ==> (r > 0 <==> l != [])
  {
    if l == [] then 0 else l[0].amount + Total(l[1..])
  }

  /** The amount spent in category `c`, by definition. */
  function CategoryTotal(l: seq<Expense>, c: string): int
  {
    if l == [] then 0
    else (if l[0].category == c then l[0].amount else 0) + CategoryTotal(l[1..], c)
  }

  /** The amount spent in the calendar month of `d`, by definition. */
  function MonthTotal(l: seq<Expense>, d: Date): int
  {
    if l == [] then 0
    else (if SameMonth(l[0].date, d) then l[0].amount else 0) + MonthTotal(l[1..], d)
  }

  /** The sum of a column of sums. */
  function GroupSum(g: seq<Group>): int
  {
    if g == [] then 0 else g[0].sum + GroupSum(g[1..])
  }

  /** The sum of the entries with key `k`. */
  function KeyTotal(g: seq<Group>, k: string): int
  {
    if g == [] then 0
    else (if g[0].key == k then g[0].sum else 0) + KeyTotal(g[1..], k)
  }

  function Keys(g: seq<Group>): set<string>
  {
    set x | x in g :: x.key
  }

  /** Keys ascending in Python's string order, hence distinct. */
  predicate StrictlySorted(g: seq<Group>)
  {
    forall i, j :: 0 <= i < j < |g| ==> StrLess(g[i].key, g[j].key)
  }

  lemma KeysCons(x: Group, g: seq<Group>)
    ensures Keys([x] + g) == {x.key} + Keys(g)
  {
    assert forall y :: y in [x] + g <==> y == x || y in g;
  }

  /** A key of a grouping is the key of one of its positions. */
  lemma KeyAt(g: seq<Group>, k: string) returns (j: int)
    requires k in Keys(g)
    ensures 0 <= j < |g| && g[j].key == k
  {
    var y :| y in g && y.key == k;
    j :| 0 <= j < |g| && g[j] == y;
  }

  lemma SortedCons(x: Group, t: seq<Group>)
    requires StrictlySorted(t)
    requires forall j :: 0 <= j < |t| ==> StrLess(x.key, t[j].key)
    ensures StrictlySorted([x] + t)
  {
    var r := [x] + t;
    forall i, j | 0 <= i < j < |r| ensures StrLess(r[i].key, r[j].key) {
      if i > 0 {
        assert r[i] == t[i - 1] && r[j] == t[j - 1];
      }
    }
  }

  /** Adding amount `a` under key `k` to a sorted grouping: into the existing
      entry for `k`, or as a new entry at its sorted place. */
  function AddTo(g: seq<Group>, k: string, a: int): (r: seq<Group>)
    requires StrictlySorted(g)
    ensures StrictlySorted(r)
    ensures Keys(r) == Keys(g) + {k}
  {
    if g == [] then [Group(k, a)]
    else if g[0].key == k then
      MergeAtHead(g, a);
      [Group(k, g[0].sum + a)] + g[1..]
    else if StrLess(k, g[0].key) then
      InsertBeforeHead(g, k, a);
      [Group(k, a)] + g
    else
      var tail := AddTo(g[1..], k, a);
      KeepHead(g, k, tail);
      [g[0]] + tail
  }

  lemma MergeAtHead(g: seq<Group>, a: int)
    requires StrictlySorted(g) && g != []
    ensures StrictlySorted([Group(g[0].key, g[0].sum + a)] + g[1..])
    ensures Keys([Group(g[0].key, g[0].sum + a)] + g[1..]) == Keys(g) + {g[0].key}
  {
    KeysCons(g[0], g[1..]);
    KeysCons(Group(g[0].key, g[0].sum + a), g[1..]);
    assert g == [g[0]] + g[1..];
    SortedCons(Group(g[0].key, g[0].sum + a), g[1..]);
  }

  lemma InsertBeforeHead(g: seq<Group>, k: string, a: int)
    requires StrictlySorted(g) && g != [] && StrLess(k, g[0].key)
    ensures StrictlySorted([Group(k, a)] + g)
    ensures Keys([Group(k, a)] + g) == Keys(g) + {k}
  {
    KeysCons(Group(k, a), g);
    forall j | 0 <= j < |g| ensures StrLess(k, g[j].key) {
      if j > 0 {
        StrLessTransitive(k, g[0].key, g[j].key);
      }
    }
    SortedCons(Group(k, a), g);
  }

  lemma KeepHead(g: seq<Group>, k: string, tail: seq<Group>)
    requires StrictlySorted(g) && g != [] && g[0].key != k && !StrLess(k, g[0].key)
    requires StrictlySorted(tail) && Keys(tail) == Keys(g[1..]) + {k}
    ensures StrictlySorted([g[0]] + tail)
    ensures Keys([g[0]] + tail) == Keys(g) + {k}
  {
    StrLessTotal(k, g[0].key);
    KeysCons(g[0], g[1..]);
    KeysCons(g[0], tail);
    assert g == [g[0]] + g[1..];
    forall j | 0 <= j < |tail| ensures StrLess(g[0].key, tail[j].key) {
      assert tail[j] in tail;
      assert tail[j].key in Keys(tail);
      if tail[j].key != k {
        var m := KeyAt(g[1..], tail[j].key);
        assert g[m + 1] == g[1..][m];
      }
    }
    SortedCons(g[0], tail);
  }

  /** Adding to a grouping adds `a` to the grand total. */
  lemma {:induction false} AddToSum(g: seq<Group>, k: string, a: int)
    requires StrictlySorted(g)
    ensures GroupSum(AddTo(g, k, a)) == GroupSum(g) + a
  {
    if g != [] && g[0].key != k && !StrLess(k, g[0].key) {
      AddToSum(g[1..], k, a);
    }
  }

  /** Adding to a grouping adds `a` to key `k`'s total and leaves every other
      key's total alone. */
  lemma {:induction false} AddToKeyTotal(g: seq<Group>, k: string, a: int, x: string)
    requires StrictlySorted(g)
    ensures KeyTotal(AddTo(g, k, a), x) == KeyTotal(g, x) + (if x == k then a else 0)
  {
    if g != [] && g[0].key != k && !StrLess(k, g[0].key) {
      AddToKeyTotal(g[1..], k, a, x);
    }
  }

  /** `groupby(key)[amount].sum()` over (key, amount) rows: sorted distinct
      keys, the same keys as the rows. */
  function GroupBy(p: seq<Group>): (r: seq<Group>)
    ensures StrictlySorted(r)
    ensures Keys(r) == Keys(p)
  {
    if p == [] then []
    else
      KeysCons(p[0], p[1..]);
      assert p == [p[0]] + p[1..];
      AddTo(GroupBy(p[1..]), p[0].key, p[0].sum)
  }

  /** Grouping keeps the grand total. */
  lemma {:induction false} GroupBySum(p: seq<Group>)
    ensures GroupSum(GroupBy(p)) == GroupSum(p)
  {
    if p != [] {
      GroupBySum(p[1..]);
      AddToSum(GroupBy(p[1..]), p[0].key, p[0].sum);
    }
  }

  /** Grouping keeps every key's total. */
  lemma {:induction false} GroupByKeyTotal(p: seq<Group>, x: string)
    ensures KeyTotal(GroupBy(p), x) == KeyTotal(p, x)
  {
    if p != [] {
      GroupByKeyTotal(p[1..], x);
      AddToKeyTotal(GroupBy(p[1..]), p[0].key, p[0].sum, x);
    }
  }

  /** In a sorted grouping each key has one entry, so its entry's sum is the
      key's whole total. */
  lemma {:induction false} KeyTotalOfSorted(g: seq<Group>, i: int)
    requires StrictlySorted(g) && 0 <= i < |g|
    ensures KeyTotal(g, g[i].key) == g[i].sum
  {
    if i == 0 {
      KeyTotalAbsent(g[1..], g[0].key);
    } else {
      StrLessIrreflexive(g[i].key);
      KeyTotalOfSorted(g[1..], i - 1);
    }
  }

  lemma {:induction false} KeyTotalAbsent(g: seq<Group>, k: string)
    requires forall j :: 0 <= j < |g| ==> StrLess(k, g[j].key)
    ensures KeyTotal(g, k) == 0
  {
    if g != [] {
      StrLessIrreflexive(k);
      KeyTotalAbsent(g[1..], k);
    }
  }

  /** The (Category, Amount) columns of the view. */
  function CategoryPairs(l: seq<Expense>): (p: seq<Group>)
    ensures |p| == |l|
  {
    if l == [] then [] else [Group(l[0].category, l[0].amount)] + CategoryPairs(l[1..])
  }

  /** The (Month, Amount) columns, after the Month column is derived from
      each row's date. */
  function MonthPairs(l: seq<Expense>): (p: seq<Group>)
    requires AllDatesValid(l)
    ensures |p| == |l|
  {
    if l == [] then [] else [Group(MonthKey(l[0].date), l[0].amount)] + MonthPairs(l[1..])
  }

  lemma {:induction false} CategoryPairsAgree(l: seq<Expense>)
    ensures GroupSum(CategoryPairs(l)) == Total(l)
    ensures Keys(CategoryPairs(l)) == PresentCategories(l)
    ensures forall c :: KeyTotal(CategoryPairs(l), c) == CategoryTotal(l, c)
  {
    if l != [] {
      CategoryPairsAgree(l[1..]);
      KeysCons(Group(l[0].category, l[0].amount), CategoryPairs(l[1..]));
      assert l == [l[0]] + l[1..];
      assert PresentCategories(l) == {l[0].category} + PresentCategories(l[1..]);
    }
  }

  /** The month labels present in the view. */
  function MonthLabels(l: seq<Expense>): set<string>
    requires AllDatesValid(l)
  {
    set i | 0 <= i < |l| :: MonthKey(l[i].date)
  }

  lemma {:induction false} MonthPairsAgree(l: seq<Expense>)
    requires AllDatesValid(l)
    ensures GroupSum(MonthPairs(l)) == Total(l)
    ensures Keys(MonthPairs(l)) == MonthLabels(l)
  {
    if l != [] {
      assert AllDatesValid(l[1..]);
      MonthPairsAgree(l[1..]);
      KeysCons(Group(MonthKey(l[0].date), l[0].amount), MonthPairs(l[1..]));
      MonthLabelsCons(l);
    }
  }

  lemma {:induction false} MonthPairsMonthTotal(l: seq<Expense>, d: Date)
    requires AllDatesValid(l) && ValidDate(d)
    ensures KeyTotal(MonthPairs(l), MonthKey(d)) == MonthTotal(l, d)
  {
    if l != [] {
      assert AllDatesValid(l[1..]);
      MonthPairsMonthTotal(l[1..], d);
      MonthKeyOrder(l[0].date, d);
    }
  }

  lemma MonthLabelsCons(l: seq<Expense>)
    requires AllDatesValid(l) && l != []
    ensures AllDatesValid(l[1..])
    ensures MonthLabels(l) == {MonthKey(l[0].date)} + MonthLabels(l[1..])
  {
    assert AllDatesValid(l[1..]);
    forall k | k in MonthLabels(l) ensures k in {MonthKey(l[0].date)} + MonthLabels(l[1..]) {
      var i :| 0 <= i < |l| && MonthKey(l[i].date) == k;
      if i > 0 {
        assert l[1..][i - 1] == l[i];
      }
    }
    forall k | k in MonthLabels(l[1..]) ensures k in MonthLabels(l) {
      var i :| 0 <= i < |l[1..]| && MonthKey(l[1..][i].date) == k;
      assert l[i + 1] == l[1..][i];
    }
  }

  /** `category_summary`: the category sums, one entry per category of the
      view, keys sorted. */
  function CategorySummary(v: seq<Expense>): (r: seq<Group>)
    ensures StrictlySorted(r)
    ensures Keys(r) == PresentCategories(v)
  {
    CategoryPairsAgree(v);
    GroupBy(CategoryPairs(v))
  }

  /** `monthly_summary`: the month sums, one entry per month label of the
      view, keys sorted. */
  function MonthlySummary(v: seq<Expense>): (r: seq<Group>)
    requires AllDatesValid(v)
    ensures StrictlySorted(r)
    ensures Keys(r) == MonthLabels(v)
  {
    MonthPairsAgree(v);
    GroupBy(MonthPairs(v))
  }

  /** The category table has one entry per category of the view, in sorted
      order, each holding that category's total. */
  lemma CategorySummaryCorrect(v: seq<Expense>)
    ensures StrictlySorted(CategorySummary(v))
    ensures Keys(CategorySummary(v)) == PresentCategories(v)
    ensures forall i :: 0 <= i < |CategorySummary(v)| ==>
              CategorySummary(v)[i].sum == CategoryTotal(v, CategorySummary(v)[i].key)
  {
    var cs := CategorySummary(v);
    CategoryPairsAgree(v);
    forall i | 0 <= i < |cs| ensures cs[i].sum == CategoryTotal(v, cs[i].key) {
      KeyTotalOfSorted(cs, i);
      GroupByKeyTotal(CategoryPairs(v), cs[i].key);
    }
  }

  /** The month table has one entry per month of the view; each entry's
      label is a month of the view and holds that month's total. */
  lemma MonthlySummaryCorrect(v: seq<Expense>, i: int, e: Expense)
    requires AllDatesValid(v)
    requires 0 <= i < |MonthlySummary(v)|
    requires e in v && MonthKey(e.date) == MonthlySummary(v)[i].key
    ensures MonthlySummary(v)[i].sum == MonthTotal(v, e.date)
  {
    var ms := MonthlySummary(v);
    MonthPairsMonthTotal(v, e.date);
    KeyTotalOfSorted(ms, i);
    GroupByKeyTotal(MonthPairs(v), ms[i].key);
  }

  /** Entries of the month table run in calendar order. */
  lemma MonthlyChronological(v: seq<Expense>, i: int, j: int, e1: Expense, e2: Expense)
    requires AllDatesValid(v)
    requires 0 <= i < j < |MonthlySummary(v)|
    requires e1 in v && MonthKey(e1.date) == MonthlySummary(v)[i].key
    requires e2 in v && MonthKey(e2.date) == MonthlySummary(v)[j].key
    ensures MonthBefore(e1.date, e2.date)
  {
    MonthKeyOrder(e1.date, e2.date);
  }

  /** The total agrees with the sum of the category sums and with the sum of
      the month sums. */
  lemma TotalsAgree(v: seq<Expense>)
    requires AllDatesValid(v)
    ensures GroupSum(CategorySummary(v)) == Total(v)
    ensures GroupSum(MonthlySummary(v)) == Total(v)
  {
    CategoryPairsAgree(v);
    MonthPairsAgree(v);
    GroupBySum(CategoryPairs(v));
    GroupBySum(MonthPairs(v));
  }

  /** `idxmax`: the position of the largest sum, the first one on a tie. */
  function ArgMax(g: seq<Group>): (k: nat)
    requires |g| > 0
    ensures k < |g|
    ensures forall j :: 0 <= j < |g| ==> g[j].sum <= g[k].sum
    ensures forall j :: 0 <= j < k ==> g[j].sum < g[k].sum
  {
    if |g| == 1 then 0
    else
      var k := ArgMax(g[..|g| - 1]);
      if g[|g| - 1].sum > g[k].sum then |g| - 1 else k
  }

  /** `groupby("Category")["Amount"].sum().idxmax()`, asked only of a
      non-empty view. */
  function TopCategory(v: seq<Expense>): (top: string)
    requires |v| > 0
    ensures top in PresentCategories(v)
  {
    var cs := CategorySummary(v);
    assert v[0] in v;
    assert |cs| > 0;
    assert cs[ArgMax(cs)] in cs;
    cs[ArgMax(cs)].key
  }

  /** The key `idxmax` picks in a sorted grouping: no key has a larger sum,
      and a key with an equal sum comes after it. */
  lemma ArgMaxKey(g: seq<Group>, j: int)
    requires StrictlySorted(g) && |g| > 0 && 0 <= j < |g|
    ensures g[j].sum <= g[ArgMax(g)].sum
    ensures g[j].sum == g[ArgMax(g)].sum ==> j == ArgMax(g) || StrLess(g[ArgMax(g)].key, g[j].key)
  {
  }

  /** The top category is a category of the view, no category of the view
      spent more, and among the categories that spent as much it is the first
      in sorted order. */
  lemma TopCategoryCorrect(v: seq<Expense>, c: string)
    requires |v| > 0
    ensures TopCategory(v) in PresentCategories(v)
    ensures c in PresentCategories(v) ==> CategoryTotal(v, c) <= CategoryTotal(v, TopCategory(v))
    ensures c in PresentCategories(v) && CategoryTotal(v, c) == CategoryTotal(v, TopCategory(v))
            ==> c == TopCategory(v) || StrLess(TopCategory(v), c)
  {
    var cs := CategorySummary(v);
    CategorySummaryCorrect(v);
    var k := ArgMax(cs);
    assert TopCategory(v) == cs[k].key;
    assert cs[k] in cs;
    assert cs[k].sum == CategoryTotal(v, cs[k].key);
    if c in PresentCategories(v) {
      var j := KeyAt(cs, c);
      assert cs[j].sum == CategoryTotal(v, c);
      ArgMaxKey(cs, j);
    }
  }

  /** What the summary page shows. */
  datatype Report =
    | NoData     // "No expense data yet."
    | NoMatches  // "No data available for the selected filters."
    | Dashboard(total: int, top: string, monthly: seq<Group>, byCategory: seq<Group>)

  lemma FilterKeepsDates(l: seq<Expense>, cats: set<string>, start: Date, end: Date)
    requires AllDatesValid(l)
    ensures AllDatesValid(Filter(l, cats, start, end))
  {
    var r := Filter(l, cats, start, end);
    forall i | 0 <= i < |r| ensures ValidDate(r[i].date) {
      FilterCount(l, cats, start, end, r[i]);
      assert r[i] in r;
      var j :| 0 <= j < |l| && l[j] == r[i];
    }
  }

  /** The summary page for a ledger and the filter widgets' values. */
  function Summarize(l: seq<Expense>, cats: set<string>, start: Date, end: Date): (r: Report)
    requires AllDatesValid(l)
    ensures r.NoData? <==> l == []
    ensures r.Dashboard? <==> Filter(l, cats, start, end) != []
  {
    if l == [] then NoData
    else
      var v := Filter(l, cats, start, end);
      FilterKeepsDates(l, cats, start, end);
      if v == [] then NoMatches
      else Dashboard(Total(v), TopCategory(v), MonthlySummary(v), CategorySummary(v))
  }

  /** The page shows figures exactly when both the ledger and the view are
      non-empty, and its figures agree with each other. */
  lemma SummarizeCorrect(l: seq<Expense>, cats: set<string>, start: Date, end: Date)
    requires AllDatesValid(l)
    ensures Summarize(l, cats, start, end).NoData? <==> l == []
    ensures Summarize(l, cats, start, end).NoMatches? <==> l != [] && Filter(l, cats, start, end) == []
    ensures Summarize(l, cats, start, end).Dashboard? ==>
              var r := Summarize(l, cats, start, end);
              && r.total == GroupSum(r.byCategory) == GroupSum(r.monthly)
              && r.top in Keys(r.byCategory)
  {
    if l != [] {
      var v := Filter(l, cats, start, end);
      FilterKeepsDates(l, cats, start, end);
      if v != [] {
        TotalsAgree(v);
        CategorySummaryCorrect(v);
        TopCategoryCorrect(v, v[0].category);
      }
    }
  }
}
