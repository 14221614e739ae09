/** One row of the expense ledger (Date, Category, Amount, Description) and
    the rewrite that merges the legacy travel labels into one category. */
module Expenses {
  import opened Text

  /** A calendar date without time of day. */
  datatype Date = Date(year: int, month: int, day: int)

  predicate IsLeapYear(y: int)
  {
    y % 4 == 0 && (y % 100 != 0 || y % 400 == 0)
  }

  function DaysInMonth(y: int, m: int): int
    requires 1 <= m <= 12
  {
    if m == 2 then (if IsLeapYear(y) then 29 else 28)
    else if m == 4 || m == 6 || m == 9 || m == 11 then 30
    else 31
  }

  /** The dates Python's `datetime.date` can hold (years 1 to 9999). */
  predicate ValidDate(d: Date)
  {
    1 <= d.year <= 9999 && 1 <= d.month <= 12 && 1 <= d.day <= DaysInMonth(d.year, d.month)
  }

  /** Chronological order of dates, `a <= b`. */
  predicate DateLe(a: Date, b: Date)
  {
    a.year < b.year
    || (a.year == b.year && (a.month < b.month || (a.month == b.month && a.day <= b.day)))
  }

  /** Amounts are whole paise: the amount widget steps by 0.01 rupees. */
  datatype Expense = Expense(date: Date, category: string, amount: int, description: string)

  /** The seven categories the entry form offers. */
  const CategoryOptions: seq<string> :=
    ["Food", "Rent", "Travel & Transport", "Shopping", "Bills", "Entertainment", "Other"]

  const Merged: string := "Travel & Transport"

  /** The labels older data may still carry. */
  predicate IsLegacy(c: string)
  {
    c == "Travel" || c == "Transport"
  }

  function NormalizeCategory(c: string): string
  {
    if IsLegacy(c) then Merged else c
  }

  function NormalizeRecord(e: Expense): Expense
  {
    e.(category := NormalizeCategory(e.category))
  }

  /** `Category.replace(['Travel', 'Transport'], 'Travel & Transport')` over
      the whole ledger. */
  function Normalize(l: seq<Expense>): (r: seq<Expense>)
    ensures |r| == |l|
  {
    if l == [] then [] else [NormalizeRecord(l[0])] + Normalize(l[1..])
  }

  /** No record carries a legacy label. */
  predicate Normalized(l: seq<Expense>)
  {
    forall i :: 0 <= i < |l| ==> !IsLegacy(l[i].category)
  }

  predicate AllDatesValid(l: seq<Expense>)
  {
    forall i :: 0 <= i < |l| ==> ValidDate(l[i].date)
  }

  /** The rewrite touches only the category, and only a legacy one, which it
      turns into the merged label; length and order are kept. */
  lemma {:induction false} NormalizeAt(l: seq<Expense>, i: int)
    requires 0 <= i < |l|
    ensures Normalize(l)[i].date == l[i].date
    ensures Normalize(l)[i].amount == l[i].amount
    ensures Normalize(l)[i].description == l[i].description
    ensures IsLegacy(l[i].category) ==> Normalize(l)[i].category == Merged
    ensures !IsLegacy(l[i].category) ==> Normalize(l)[i].category == l[i].category
  {
    if i > 0 {
      NormalizeAt(l[1..], i - 1);
    }
  }

  /** After the rewrite no record has the category Travel or Transport. */
  lemma {:induction false} NormalizeRemovesLegacy(l: seq<Expense>)
    ensures Normalized(Normalize(l))
  {
    forall i | 0 <= i < |l| ensures !IsLegacy(Normalize(l)[i].category) {
      NormalizeAt(l, i);
    }
  }

  /** A ledger without legacy labels is left exactly as it is. */
  lemma {:induction false} NormalizeKeepsNormalized(l: seq<Expense>)
    requires Normalized(l)
    ensures Normalize(l) == l
  {
    forall i | 0 <= i < |l| ensures Normalize(l)[i] == l[i] {
      NormalizeAt(l, i);
    }
  }

  /** Applying the rewrite twice gives what applying it once gives. */
  lemma {:induction false} NormalizeIdempotent(l: seq<Expense>)
    ensures Normalize(Normalize(l)) == Normalize(l)
  {
    NormalizeRemovesLegacy(l);
    NormalizeKeepsNormalized(Normalize(l));
  }

  /** The rewrite works row by row, so it distributes over concatenation. */
  lemma {:induction false} NormalizeAppend(a: seq<Expense>, b: seq<Expense>)
    ensures Normalize(a + b) == Normalize(a) + Normalize(b)
  {
    if a != [] {
      assert (a + b)[1..] == a[1..] + b;
      NormalizeAppend(a[1..], b);
    } else {
      assert a + b == b;
    }
  }

  /** The rewrite keeps dates, so it keeps their validity. */
  lemma {:induction false} NormalizeKeepsDates(l: seq<Expense>)
    requires AllDatesValid(l)
    ensures AllDatesValid(Normalize(l))
  {
    forall i | 0 <= i < |l| ensures ValidDate(Normalize(l)[i].date) {
      NormalizeAt(l, i);
    }
  }

  /** The label a date's month gets from `to_period("M").astype(str)`:
      four-digit year, a dash, two-digit month. */
  function MonthKey(d: Date): (k: string)
    requires ValidDate(d)
    ensures |k| == 7 && k[4] == '-'
  {
    assert d.year < Power10(4) && d.month < Power10(2);
    Digits(d.year, 4) + "-" + Digits(d.month, 2)
  }

  /** Chronological order of the months of two dates. */
  predicate MonthBefore(a: Date, b: Date)
  {
    a.year < b.year || (a.year == b.year && a.month < b.month)
  }

  predicate SameMonth(a: Date, b: Date)
  {
    a.year == b.year && a.month == b.month
  }

  /** Month labels sort in calendar order and two dates share a label exactly
      when they fall in the same month. */
  lemma MonthKeyOrder(a: Date, b: Date)
    requires ValidDate(a) && ValidDate(b)
    ensures StrLess(MonthKey(a), MonthKey(b)) <==> MonthBefore(a, b)
    ensures MonthKey(a) == MonthKey(b) <==> SameMonth(a, b)
  {
    assert a.year < Power10(4) && a.month < Power10(2);
    assert b.year < Power10(4) && b.month < Power10(2);
    var ya, yb := Digits(a.year, 4), Digits(b.year, 4);
    var ma, mb := Digits(a.month, 2), Digits(b.month, 2);
    DigitsOrder(a.year, b.year, 4);
    DigitsOrder(a.month, b.month, 2);
    KeyCompare(ya, ma, yb, mb);
    assert MonthKey(a) == (ya + "-") + ma && MonthKey(b) == (yb + "-") + mb;
  }

  /** Comparing "YYYY-MM" labels piece by piece. */
  lemma KeyCompare(ya: string, ma: string, yb: string, mb: string)
    requires |ya| == |yb| == 4 && |ma| == |mb| == 2
    ensures StrLess((ya + "-") + ma, (yb + "-") + mb)
            <==> StrLess(ya, yb) || (ya == yb && StrLess(ma, mb))
    ensures (ya + "-") + ma == (yb + "-") + mb <==> ya == yb && ma == mb
  {
    KeyOrder(ya, ma, yb, mb);
    KeyEquality(ya, ma, yb, mb);
  }

  lemma KeyOrder(ya: string, ma: string, yb: string, mb: string)
    requires |ya| == |yb| == 4 && |ma| == |mb| == 2
    ensures StrLess((ya + "-") + ma, (yb + "-") + mb)
            <==> StrLess(ya, yb) || (ya == yb && StrLess(ma, mb))
  {
    StrLessConcat(ya + "-", ma, yb + "-", mb);
    StrLessConcat(ya, "-", yb, "-");
    StrLessIrreflexive("-");
    if ya + "-" == yb + "-" {
      assert ya == (ya + "-")[..4] && yb == (yb + "-")[..4];
    }
  }

  lemma KeyEquality(ya: string, ma: string, yb: string, mb: string)
    requires |ya| == |yb| == 4 && |ma| == |mb| == 2
    ensures (ya + "-") + ma == (yb + "-") + mb <==> ya == yb && ma == mb
  {
    var ka, kb := (ya + "-") + ma, (yb + "-") + mb;
    if ka == kb {
      assert ya == ka[..4] && yb == kb[..4];
      assert ma == ka[5..] && mb == kb[5..];
    }
  }
}
