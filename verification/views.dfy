/** The filtered view the summary page works on: a category multiselect and
    an inclusive start/end date range, with their default values. */
module Views {
  import opened Expenses

  /** The row mask: category among the chosen ones, `start <= date <= end`. */
  predicate Keeps(e: Expense, cats: set<string>, start: Date, end: Date)
  {
    e.category in cats && DateLe(start, e.date) && DateLe(e.date, end)
  }

  function Filter(l: seq<Expense>, cats: set<string>, start: Date, end: Date): (r: seq<Expense>)
    ensures |r| <= |l|
  {
    if l == [] then []
    else if Keeps(l[0], cats, start, end) then [l[0]] + Filter(l[1..], cats, start, end)
    else Filter(l[1..], cats, start, end)
  }

  /** `a` is `b` with some rows left out, the rest in their order. */
  predicate IsSubsequence(a: seq<Expense>, b: seq<Expense>)
  {
    if a == [] then true
    else if b == [] then false
    else (a[0] == b[0] && IsSubsequence(a[1..], b[1..])) || IsSubsequence(a, b[1..])
  }

  /** The view keeps the ledger's order and invents no rows. */
  lemma {:induction false} FilterIsSubsequence(l: seq<Expense>, cats: set<string>, start: Date, end: Date)
    ensures IsSubsequence(Filter(l, cats, start, end), l)
  {
    if l != [] {
      FilterIsSubsequence(l[1..], cats, start, end);
      var r := Filter(l, cats, start, end);
      if Keeps(l[0], cats, start, end) {
        assert r[0] == l[0] && r[1..] == Filter(l[1..], cats, start, end);
      }
    }
  }

  /** Every row of the view passes the mask. */
  lemma {:induction false} FilterSound(l: seq<Expense>, cats: set<string>, start: Date, end: Date)
    ensures forall e :: e in Filter(l, cats, start, end) ==> Keeps(e, cats, start, end)
  {
    if l != [] {
      FilterSound(l[1..], cats, start, end);
    }
  }

  /** The view holds each row exactly as often as the ledger does when the row
      passes the mask, and never otherwise. */
  lemma {:induction false} FilterCount(l: seq<Expense>, cats: set<string>, start: Date, end: Date, e: Expense)
    ensures multiset(Filter(l, cats, start, end))[e]
            == if Keeps(e, cats, start, end) then multiset(l)[e] else 0
  {
    if l != [] {
      FilterCount(l[1..], cats, start, end, e);
      assert l == [l[0]] + l[1..];
    }
  }

  /** Every ledger row that passes the mask is in the view. */
  lemma {:induction false} FilterComplete(l: seq<Expense>, cats: set<string>, start: Date, end: Date)
    ensures forall e :: e in l && Keeps(e, cats, start, end) ==> e in Filter(l, cats, start, end)
  {
    forall e | e in l && Keeps(e, cats, start, end) ensures e in Filter(l, cats, start, end) {
      FilterCount(l, cats, start, end, e);
    }
  }

  /** Nothing survives an empty category selection. */
  lemma {:induction false} FilterNoCategories(l: seq<Expense>, start: Date, end: Date)
    ensures Filter(l, {}, start, end) == []
  {
    if l != [] {
      FilterNoCategories(l[1..], start, end);
    }
  }

  /** Nothing survives a range whose start lies after its end. */
  lemma {:induction false} FilterEmptyRange(l: seq<Expense>, cats: set<string>, start: Date, end: Date)
    requires !DateLe(start, end)
    ensures Filter(l, cats, start, end) == []
  {
    if l != [] {
      FilterEmptyRange(l[1..], cats, start, end);
    }
  }

  /** The set of categories that occur in the table. */
  function PresentCategories(l: seq<Expense>): set<string>
  {
    set e | e in l :: e.category
  }

  lemma PresentSnoc(l: seq<Expense>)
    requires l != []
    ensures PresentCategories(l)
            == PresentCategories(l[..|l| - 1]) + {l[|l| - 1].category}
  {
    assert l == l[..|l| - 1] + [l[|l| - 1]];
    assert forall e :: e in l <==> e in l[..|l| - 1] || e == l[|l| - 1];
  }

  /** The multiselect's options and default, `df["Category"].unique()`: each
      category of the table once, in the order it first appears. */
  function UniqueCategories(l: seq<Expense>): (u: seq<string>)
    ensures forall i, j :: 0 <= i < j < |u| ==> u[i] != u[j]
    ensures forall c :: c in u <==> c in PresentCategories(l)
  {
    if l == [] then []
    else
      var last := l[|l| - 1].category;
      var init := UniqueCategories(l[..|l| - 1]);
      PresentSnoc(l);
      if last in init then init else init + [last]
  }

  /** The position of the first row with category `c`. */
  function FirstAt(l: seq<Expense>, c: string): (p: nat)
    requires c in PresentCategories(l)
    ensures p < |l| && l[p].category == c
    ensures forall q :: 0 <= q < p ==> l[q].category != c
  {
    if l[0].category == c then 0
    else
      var e :| e in l && e.category == c;
      assert e in l[1..] by {
        assert l == [l[0]] + l[1..];
      }
      1 + FirstAt(l[1..], c)
  }

  /** A category already present in a prefix first appears where it first
      appears in that prefix. */
  lemma FirstAtPrefix(l: seq<Expense>, c: string)
    requires l != [] && c in PresentCategories(l[..|l| - 1])
    ensures c in PresentCategories(l)
    ensures FirstAt(l, c) == FirstAt(l[..|l| - 1], c)
  {
    PresentSnoc(l);
    var init := l[..|l| - 1];
    var p0 := FirstAt(init, c);
    assert l[p0] == init[p0];
    assert forall q :: 0 <= q < p0 ==> l[q] == init[q];
  }

  /** The options come in order of first appearance. */
  lemma {:induction false} UniqueCategoriesOrder(l: seq<Expense>, i: int, j: int)
    requires 0 <= i < j < |UniqueCategories(l)|
    ensures UniqueCategories(l)[i] in PresentCategories(l)
    ensures UniqueCategories(l)[j] in PresentCategories(l)
    ensures FirstAt(l, UniqueCategories(l)[i]) < FirstAt(l, UniqueCategories(l)[j])
  {
    var u := UniqueCategories(l);
    assert u[i] in u && u[j] in u;
    var n := |l|;
    var init := l[..n - 1];
    var ui := UniqueCategories(init);
    PresentSnoc(l);
    assert ui[i] == u[i];
    assert ui[i] in ui;
    FirstAtPrefix(l, u[i]);
    if j < |ui| {
      assert ui[j] == u[j];
      assert ui[j] in ui;
      UniqueCategoriesOrder(init, i, j);
      FirstAtPrefix(l, u[j]);
    } else {
      assert u[j] == l[n - 1].category && u[j] !in ui;
      forall q | 0 <= q < n - 1 ensures l[q].category != u[j] {
        assert l[q] == init[q] && init[q] in init;
      }
    }
  }

  /** The default start date, `df["Date"].min()`. */
  function MinDate(l: seq<Expense>): (d: Date)
    requires |l| > 0
    ensures forall e :: e in l ==> DateLe(d, e.date)
    ensures exists e :: e in l && e.date == d
  {
    if |l| == 1 then l[0].date
    else
      var rest := MinDate(l[1..]);
      assert forall e :: e in l[1..] ==> e in l;
      if DateLe(l[0].date, rest) then l[0].date else rest
  }

  /** The default end date, `df["Date"].max()`. */
  function MaxDate(l: seq<Expense>): (d: Date)
    requires |l| > 0
    ensures forall e :: e in l ==> DateLe(e.date, d)
    ensures exists e :: e in l && e.date == d
  {
    if |l| == 1 then l[0].date
    else
      var rest := MaxDate(l[1..]);
      assert forall e :: e in l[1..] ==> e in l;
      if DateLe(rest, l[0].date) then l[0].date else rest
  }

  /** With the widgets at their defaults the view is the whole ledger. */
  lemma DefaultFilterKeepsAll(l: seq<Expense>)
    requires |l| > 0
    ensures Filter(l, (set c | c in UniqueCategories(l)), MinDate(l), MaxDate(l)) == l
  {
    AllKept(l, (set c | c in UniqueCategories(l)), MinDate(l), MaxDate(l));
  }

  lemma {:induction false} AllKept(l: seq<Expense>, cats: set<string>, start: Date, end: Date)
    requires forall e :: e in l ==> Keeps(e, cats, start, end)
    ensures Filter(l, cats, start, end) == l
  {
    if l != [] {
      assert forall e :: e in l[1..] ==> e in l;
      AllKept(l[1..], cats, start, end);
      assert l == [l[0]] + l[1..];
    }
  }
}
