/**
 * The `Caelum` importer of src/api.py: it reads the database schema, records
 * the name-to-id dictionaries, appends the missing tags to the `"Tag"`
 * option list and sends it back, and imports and classifies a batch of rows.
 * The Notion client is not modelled: the retrieved schema is a constructor
 * argument, and each `databases.update` call is recorded in `updates`.
 */
module Api {
  import opened Wrappers
  import opened Config
  import Text
  import opened Expenses
  import opened Classifier
  import opened Reconcile

  /** The three select properties of the expense database: `"Card"`, `"Month"` and `"Tag"`. */
  datatype Properties = Properties(card: seq<SelectOption>, month: seq<SelectOption>, tag: seq<SelectOption>)

  /** A schema as the database returns it: every option has an id. */
  predicate Retrieved(p: Properties) {
    HasIds(p.card) && HasIds(p.month) && HasIds(p.tag)
  }

  /** The fields of each expense of a list, in list order. */
  function Snapshots(es: seq<Expense>): (r: seq<ExpenseData>)
    reads es
    ensures |r| == |es| && forall i :: 0 <= i < |es| ==> r[i] == es[i].Data()
  {
    seq(|es|, i requires 0 <= i < |es| reads es => es[i].Data())
  }

  lemma SnapshotsSnoc(es: seq<Expense>, e: Expense)
    ensures Snapshots(es + [e]) == Snapshots(es) + [e.Data()]
  {
  }

  /** No expense object appears twice in the list. */
  predicate Distinct(es: seq<Expense>) {
    forall i, j :: 0 <= i < j < |es| ==> es[i] != es[j]
  }

  class Caelum {
    /** `self.expense_database["properties"]`, reduced to its three select properties. */
    var properties: Properties
    /** The `"Tag"` option list sent by each `databases.update` call, oldest first. */
    var updates: seq<seq<SelectOption>>
    var cards: map<string, string>
    var months: map<string, string>
    var tags: map<string, string>
    var expenses: seq<Expense>

    /** The expense list holds distinct objects, each with its tag and icon in step. */
    ghost predicate Valid()
      reads this, expenses
    {
      Distinct(expenses) &&
      forall i :: 0 <= i < |expenses| ==> IconMatchesTag(expenses[i].Data())
    }

    /** `Caelum()`: given the schema the database returned, set up the properties. */
    constructor (retrieved: Properties)
      requires Retrieved(retrieved)
      ensures Valid() && expenses == []
      ensures cards == IdMap(retrieved.card) && months == IdMap(retrieved.month)
      ensures tags == IdMap(retrieved.tag)
      ensures properties == retrieved.(tag := Reconciled(retrieved.tag, Keys()))
      ensures updates == [properties.tag]
    {
      properties := retrieved;
      updates := [];
      cards, months, tags := map[], map[], map[];
      expenses := [];
      new;
      SetupProperties();
    }

    /** `setup_properties`: the card and month dictionaries, then `setup_tags`. */
    method SetupProperties()
      requires Retrieved(properties)
      modifies this
      ensures cards == IdMap(old(properties).card) && months == IdMap(old(properties).month)
      ensures tags == IdMap(old(properties).tag)
      ensures properties == old(properties).(tag := Reconciled(old(properties).tag, Keys()))
      ensures updates == old(updates) + [properties.tag]
      ensures expenses == old(expenses)
    {
      cards := IdMap(properties.card);
      months := IdMap(properties.month);
      SetupTags();
    }

    /**
     * `setup_tags`: record the tag dictionary, append a gray option for each
     * declared tag whose name is not yet an option, and send the list back,
     * whether or not anything was appended.
     */
    method SetupTags()
      requires HasIds(properties.tag)
      modifies this
      ensures tags == IdMap(old(properties).tag)
      ensures properties == old(properties).(tag := Reconciled(old(properties).tag, Keys()))
      ensures updates == old(updates) + [properties.tag]
      ensures cards == old(cards) && months == old(months) && expenses == old(expenses)
    {
      tags := IdMap(properties.tag);
      ghost var original := properties.tag;
      AppendMissingTags(tags.Keys, Keys());
      ReconciledSplit(original, Keys());
      updates := updates + [properties.tag];
    }

    /** The loop of `setup_tags`: a gray option for each of `keys` not in `existingKeys`, in order. */
    method AppendMissingTags(existingKeys: set<string>, keys: seq<string>)
      modifies this
      ensures properties == old(properties).(tag := old(properties).tag + GrayOptions(Missing(existingKeys, keys)))
      ensures tags == old(tags) && updates == old(updates)
      ensures cards == old(cards) && months == old(months) && expenses == old(expenses)
    {
      var i := 0;
      while i < |keys|
        invariant 0 <= i <= |keys|
        invariant properties == old(properties).(tag := old(properties).tag + GrayOptions(Missing(existingKeys, keys[..i])))
        invariant tags == old(tags) && updates == old(updates)
        invariant cards == old(cards) && months == old(months) && expenses == old(expenses)
      {
        ghost var done := Missing(existingKeys, keys[..i]);
        MissingSnoc(existingKeys, keys, i);
        if keys[i] !in existingKeys {
          properties := properties.(tag := properties.tag + [Gray(keys[i])]);
          GrayOptionsSnoc(done, keys[i]);
        } else {
          assert done + [] == done;
        }
        i := i + 1;
      }
      assert keys[..i] == keys;
    }

    /**
     * `Caelum.tag_expense`: scan `TAG_FILTERS` in order and each keyword list
     * in order, retagging the expense on every keyword found in its lowered
     * name; the last hit wins.
     */
    method TagExpense(e: Expense)
      modifies e
      ensures e.Data() == Classify(old(e.Data()))
    {
      var name := Text.Lower(e.name);
      ghost var d0 := e.Data();
      var i := 0;
      while i < |Filters|
        invariant 0 <= i <= |Filters|
        invariant e.Data() == ApplyMatch(LastMatch(Filters[..i], name), d0)
      {
        var tag := Filters[i].0;
        var keywords := Filters[i].1;
        var j := 0;
        while j < |keywords|
          invariant 0 <= j <= |keywords|
          invariant e.Data() == if AnyHit(keywords[..j], name) then Retag(d0, tag)
                                else ApplyMatch(LastMatch(Filters[..i], name), d0)
        {
          AnyHitSnoc(keywords, j, name);
          if Text.Contains(name, keywords[j]) {
            e.TagExpense(tag);
          }
          j := j + 1;
        }
        assert keywords[..j] == keywords;
        LastMatchSnoc(Filters, i, name);
        i := i + 1;
      }
      assert Filters[..i] == Filters;
    }

    /**
     * `parse_csv`: append an expense for every row that `Expense` accepts, in
     * row order, keeping the expenses already held; then classify every held
     * expense, in list order.
     */
    method ParseCsv(rows: seq<Row>)
      requires Valid()
      modifies this, expenses
      ensures Valid()
      ensures |expenses| == |old(expenses)| + |Imported(rows)|
      ensures expenses[..|old(expenses)|] == old(expenses)
      ensures forall k :: |old(expenses)| <= k < |expenses| ==> fresh(expenses[k])
      ensures Snapshots(expenses) == ClassifyAll(old(Snapshots(expenses)) + Imported(rows))
      ensures properties == old(properties) && updates == old(updates)
      ensures cards == old(cards) && months == old(months) && tags == old(tags)
    {
      AppendRows(rows);
      ghost var pre := Snapshots(expenses);
      TagAll();
      forall k | 0 <= k < |expenses| ensures IconMatchesTag(expenses[k].Data()) {
        ClassifyKeepsIcon(pre[k]);
      }
    }

    /** The reading half of `parse_csv`: each accepted row becomes a new expense at the end of the list. */
    method AppendRows(rows: seq<Row>)
      requires Distinct(expenses)
      modifies this
      ensures Distinct(expenses)
      ensures |old(expenses)| <= |expenses| && expenses[..|old(expenses)|] == old(expenses)
      ensures forall k :: |old(expenses)| <= k < |expenses| ==> fresh(expenses[k])
      ensures Snapshots(expenses) == old(Snapshots(expenses)) + Imported(rows)
      ensures properties == old(properties) && updates == old(updates)
      ensures cards == old(cards) && months == old(months) && tags == old(tags)
    {
      ghost var before := Snapshots(expenses);
      var i := 0;
      while i < |rows|
        invariant 0 <= i <= |rows|
        invariant |old(expenses)| <= |expenses| && expenses[..|old(expenses)|] == old(expenses)
        invariant forall k :: |old(expenses)| <= k < |expenses| ==> fresh(expenses[k])
        invariant Distinct(expenses)
        invariant Snapshots(expenses) == before + Imported(rows[..i])
        invariant properties == old(properties) && updates == old(updates)
        invariant cards == old(cards) && months == old(months) && tags == old(tags)
      {
        assert rows[..i + 1] == rows[..i] + [rows[i]];
        ImportedAppend(rows[..i], [rows[i]]);
        AppendRow(rows[i]);
        i := i + 1;
      }
      assert rows[..i] == rows;
    }

    /** One pass of the reading loop: the row becomes a new expense at the end, unless it is rejected. */
    method AppendRow(row: Row)
      requires Distinct(expenses)
      modifies this
      ensures Distinct(expenses)
      ensures |old(expenses)| <= |expenses| && expenses[..|old(expenses)|] == old(expenses)
      ensures forall k :: |old(expenses)| <= k < |expenses| ==> fresh(expenses[k])
      ensures Snapshots(expenses) == old(Snapshots(expenses)) + Imported([row])
      ensures properties == old(properties) && updates == old(updates)
      ensures cards == old(cards) && months == old(months) && tags == old(tags)
    {
      ImportedOne(row);
      var r := Expense.Create(row);
      if r.Ok? {
        SnapshotsSnoc(expenses, r.value);
        expenses := expenses + [r.value];
      }
    }

    /** The tagging half of `parse_csv`: `tag_expense` on every held expense, in list order. */
    method TagAll()
      requires Distinct(expenses)
      modifies expenses
      ensures Snapshots(expenses) == ClassifyAll(old(Snapshots(expenses)))
    {
      ghost var pre := Snapshots(expenses);
      var j := 0;
      while j < |expenses|
        invariant 0 <= j <= |expenses|
        invariant forall k :: 0 <= k < |expenses| ==>
          expenses[k].Data() == if k < j then Classify(pre[k]) else pre[k]
      {
        var e := expenses[j];
        assert forall k :: 0 <= k < |expenses| && k != j ==> expenses[k] != e;
        TagExpense(e);
        j := j + 1;
      }
    }
  }
}
