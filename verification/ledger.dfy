/** The ledger the tracker keeps between interactions: the in-memory table,
    the CSV file it is written to, and the add and delete paths that change
    both. */
module Ledger {
  import opened Expenses

  datatype Option<T> = None | Some(value: T)

  /** What the row selector of the delete panel holds: the empty choice `""`
      or a row index. */
  datatype Choice = NoRow | Row(index: int)

  datatype DeleteOutcome =
    | Deleted(removed: Expense)  // the row was dropped and the file rewritten
    | NothingSelected            // the warning "Please select a row index to delete."
    | NoSuchRow                  // `drop` raises for a label the table does not have

  /** The table without its row at position `i`; `reset_index(drop=True)`
      then numbers the rest 0..n-2, which is their position here. */
  function RemoveAt(l: seq<Expense>, i: int): (r: seq<Expense>)
    requires 0 <= i < |l|
    ensures |r| == |l| - 1
    ensures forall j :: 0 <= j < i ==> r[j] == l[j]
    ensures forall j :: i <= j < |r| ==> r[j] == l[j + 1]
  {
    l[..i] + l[i + 1..]
  }

  /** Deleting a row removes exactly one occurrence of it and nothing else. */
  lemma RemoveAtMultiset(l: seq<Expense>, i: int)
    requires 0 <= i < |l|
    ensures multiset(RemoveAt(l, i)) + multiset{l[i]} == multiset(l)
  {
    assert l == l[..i] + [l[i]] + l[i + 1..];
  }

  /** Row numbers are positions, not identities: deleting row `i` twice
      removes the row that was at `i` and then the one that was at `i + 1`. */
  lemma RemoveAtTwice(l: seq<Expense>, i: int)
    requires 0 <= i && i + 1 < |l|
    ensures RemoveAt(RemoveAt(l, i), i) == l[..i] + l[i + 2..]
    ensures RemoveAt(l, i)[i] == l[i + 1]
  {
  }

  lemma RemoveAtKeeps(l: seq<Expense>, i: int)
    requires 0 <= i < |l|
    requires Normalized(l) && AllDatesValid(l)
    ensures Normalized(RemoveAt(l, i)) && AllDatesValid(RemoveAt(l, i))
  {
  }

  /** The options of the row selector: `""` first, then every index of the
      table, which after `reset_index` are 0..n-1. */
  function DeleteOptions(n: nat): (r: seq<Choice>)
    ensures |r| == n + 1 && r[0] == NoRow
  {
    [NoRow] + seq(n, i => Row(i))
  }

  /** The selector offers the empty choice and exactly the current positions. */
  lemma OptionsAreCurrentPositions(n: nat, i: int)
    ensures NoRow in DeleteOptions(n)
    ensures Row(i) in DeleteOptions(n) <==> 0 <= i < n
  {
    var opts := DeleteOptions(n);
    assert opts[0] == NoRow;
    if 0 <= i < n {
      assert opts[i + 1] == Row(i);
    }
  }

  class ExpenseLedger {
    /** The table `df`, in row order. */
    var records: seq<Expense>
    /** The CSV file: `None` before anything was ever saved. */
    var file: Option<seq<Expense>>

    /** The standing invariant: no legacy labels in memory, real dates. */
    ghost predicate Valid()
      reads this
    {
      Normalized(records) && AllDatesValid(records)
    }

    /** `load_data()` followed by the merge of the legacy labels: the file's
        rows if it exists, an empty table otherwise. Reading leaves the file
        as it was. */
    constructor Load(stored: Option<seq<Expense>>)
      requires stored.Some? ==> AllDatesValid(stored.value)
      ensures Valid()
      ensures file == stored
      ensures records == Normalize(if stored.Some? then stored.value else [])
    {
      var rows := if stored.Some? then stored.value else [];
      NormalizeRemovesLegacy(rows);
      NormalizeKeepsDates(rows);
      records := Normalize(rows);
      file := stored;
    }

    /** The entry form's submit: append the row, merge the legacy labels
        across the table, and write the whole table to the file. */
    method Add(date: Date, category: string, amount: int, description: string)
      requires Valid()
      requires ValidDate(date)
      requires category in CategoryOptions
      requires amount >= 1
      modifies this
      ensures Valid()
      ensures records == Normalize(old(records) + [Expense(date, category, amount, description)])
      ensures records == old(records) + [Expense(date, category, amount, description)]
      ensures file == Some(records)
      ensures Normalize(file.value) == records
    {
      var entry := Expense(date, category, amount, description);
      records := records + [entry];
      ghost var appended := records;
      records := Normalize(records);
      NormalizeKeepsNormalized(appended);
      file := Some(records);
      NormalizeKeepsNormalized(records);
    }

    /** The delete button: with no row chosen only a warning is shown;
        otherwise the chosen row is dropped, the rest renumbered, and the
        table written to the file. The app draws the delete panel only for a
        non-empty table, so on an empty table the method is never reached
        through the UI; if called there it changes nothing. */
    method Delete(choice: Choice) returns (outcome: DeleteOutcome)
      requires Valid()
      modifies this
      ensures Valid()
      ensures choice.NoRow? ==> outcome == NothingSelected
      ensures outcome.NothingSelected? || outcome.NoSuchRow? ==>
                records == old(records) && file == old(file)
      ensures choice.Row? ==>
                (outcome.Deleted? <==> 0 <= choice.index < |old(records)|)
      ensures choice.Row? && !outcome.Deleted? ==> outcome == NoSuchRow
      ensures outcome.Deleted? ==>
                choice.Row? && 0 <= choice.index < |old(records)|
                && outcome.removed == old(records)[choice.index]
                && records == RemoveAt(old(records), choice.index)
                && file == Some(records)
                && Normalize(file.value) == records
    {
      match choice
      case NoRow =>
        outcome := NothingSelected;
      case Row(i) =>
        if 0 <= i < |records| {
          outcome := Deleted(records[i]);
          RemoveAtKeeps(records, i);
          records := RemoveAt(records, i);
          file := Some(records);
          NormalizeKeepsNormalized(records);
        } else {
          outcome := NoSuchRow;
        }
    }
  }
}
