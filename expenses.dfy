/**
 * The `Expense` record of src/api.py: how a CSV row becomes an expense (or is
 * refused), and how a tag is attached to it. The pure functions say what the
 * fields become; the class below holds the same fields and is updated in place.
 */
module Expenses {
  import opened Wrappers
  import opened Config

  /** One CSV row: `id, account_type, timestamp, description, amount`, with the amount parsed. */
  datatype Row = Row(id: string, accountType: string, timestamp: string, description: string, amount: real)

  /** The `ValueError` raised by `Expense.__init__` for a strictly positive amount. */
  datatype Rejection = PositiveAmount

  /** The fields of an `Expense` object at one moment; `None` is Python's `None`. */
  datatype ExpenseData = ExpenseData(
    name: string, amount: real, date: string, fi: string,
    tag: Option<Tag>, icon: Option<string>)

  /** The tag and the icon are set together, and the icon is the tag's `TAG_ICONS` entry. */
  predicate IconMatchesTag(d: ExpenseData) {
    (d.tag.None? <==> d.icon.None?) &&
    (d.tag.Some? ==> d.icon == Some(Icon(d.tag.value)))
  }

  /** `Expense(**row)`: a rejection for a positive amount, otherwise the new expense's fields. */
  function Build(row: Row): (r: Result<ExpenseData, Rejection>)
    ensures r.Err? <==> row.amount > 0.0
    ensures r.Ok? ==> r.value.amount == -row.amount && r.value.amount >= 0.0
    ensures r.Ok? ==> r.value.name == row.description && r.value.date == row.timestamp
                      && r.value.fi == row.accountType
    ensures r.Ok? ==> r.value.tag == None && r.value.icon == None && IconMatchesTag(r.value)
  {
    if row.amount > 0.0 then Err(PositiveAmount)
    else Ok(ExpenseData(row.description, -1.0 * row.amount, row.timestamp, row.accountType, None, None))
  }

  /** `Expense.tag_expense(t)`: the tag becomes `t`, the icon `TAG_ICONS[t]`, nothing else moves. */
  function Retag(d: ExpenseData, t: Tag): (r: ExpenseData)
    ensures r.tag == Some(t) && IconMatchesTag(r)
    ensures r.name == d.name && r.amount == d.amount && r.date == d.date && r.fi == d.fi
  {
    d.(tag := Some(t), icon := Some(Icon(t)))
  }

  /**
   * The expenses a batch of rows yields, in row order: the fields `Build`
   * gives for each row it accepts; refused rows leave no trace.
   */
  function Imported(rows: seq<Row>): (r: seq<ExpenseData>)
    ensures |r| <= |rows|
    ensures forall i :: 0 <= i < |r| ==> r[i].amount >= 0.0 && r[i].tag == None && IconMatchesTag(r[i])
    decreases |rows|
  {
    if rows == [] then []
    else
      var last := rows[|rows| - 1];
      Imported(rows[..|rows| - 1]) + (match Build(last) case Ok(d) => [d] case Err(_) => [])
  }

  /** One row: imported exactly when its amount is at most 0, as the expense `Build` gives. */
  lemma ImportedOne(row: Row)
    ensures Imported([row]) == if row.amount > 0.0 then [] else [Build(row).value]
  {
    assert [row][..0] == [];
  }

  /** Importing two batches in turn imports their concatenation: row order is kept. */
  lemma {:induction false} ImportedAppend(a: seq<Row>, b: seq<Row>)
    ensures Imported(a + b) == Imported(a) + Imported(b)
    decreases |b|
  {
    if b == [] {
      assert a + b == a;
    } else {
      var b' := b[..|b| - 1];
      assert (a + b)[..|a + b| - 1] == a + b';
      assert (a + b)[|a + b| - 1] == b[|b| - 1];
      ImportedAppend(a, b');
    }
  }

  /** A batch of payments only (every amount positive) imports nothing. */
  lemma {:induction false} ImportedNoneAccepted(rows: seq<Row>)
    requires forall i :: 0 <= i < |rows| ==> rows[i].amount > 0.0
    ensures Imported(rows) == []
    decreases |rows|
  {
    if rows != [] {
      ImportedNoneAccepted(rows[..|rows| - 1]);
    }
  }

  /** A batch without payments imports every row, each at its own position. */
  lemma {:induction false} ImportedAllAccepted(rows: seq<Row>)
    requires forall i :: 0 <= i < |rows| ==> rows[i].amount <= 0.0
    ensures |Imported(rows)| == |rows|
    ensures forall i :: 0 <= i < |rows| ==> Build(rows[i]) == Ok(Imported(rows)[i])
    decreases |rows|
  {
    if rows != [] {
      ImportedAllAccepted(rows[..|rows| - 1]);
    }
  }

  /** An `Expense` object; its fields are reassigned in place by `TagExpense`. */
  class Expense {
    var name: string
    var amount: real
    var date: string
    var fi: string
    var tag: Option<Tag>
    var icon: Option<string>

    /** The current fields, as a value. */
    function Data(): ExpenseData
      reads this
    {
      ExpenseData(name, amount, date, fi, tag, icon)
    }

    /** The field assignments of `Expense.__init__`, once the amount check has passed. */
    constructor (row: Row)
      requires row.amount <= 0.0
      ensures Build(row) == Ok(Data())
    {
      name := row.description;
      amount := -1.0 * row.amount;
      date := row.timestamp;
      fi := row.accountType;
      tag := None;
      icon := None;
    }

    /** `Expense(**row)`: raises (here: returns `Err`) for a positive amount, else a new expense. */
    static method Create(row: Row) returns (r: Result<Expense, Rejection>)
      ensures r.Err? <==> row.amount > 0.0
      ensures r.Ok? ==> fresh(r.value) && Build(row) == Ok(r.value.Data())
    {
      if row.amount > 0.0 {
        return Err(PositiveAmount);
      }
      var e := new Expense(row);
      return Ok(e);
    }

    /** `Expense.tag_expense(t)`. */
    method TagExpense(t: Tag)
      modifies this
      ensures Data() == Retag(old(Data()), t)
    {
      tag := Some(t);
      icon := Some(Icon(t));
    }
  }
}
