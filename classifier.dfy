/**
 * The keyword classifier of `Caelum.tag_expense` in src/api.py, as values:
 * the reference "last matching category" definition and the effect of one
 * classification on an expense's fields. The imperative nested loop is
 * `Api.Caelum.TagExpense`, proved against `Classify`.
 */
module Classifier {
  import opened Wrappers
  import opened Config
  import Text
  import opened Expenses

  /** Some keyword of the list is a substring of `text` (Python `item in text`). */
  predicate AnyHit(keywords: seq<string>, text: string)
    ensures AnyHit(keywords, text) ==> exists k :: 0 <= k < |keywords| && |keywords[k]| <= |text|
    ensures text in keywords ==> AnyHit(keywords, text)
  {
    exists k :: 0 <= k < |keywords| && Text.Contains(text, keywords[k])
  }

  /**
   * The category of the last table entry that has a keyword occurring in
   * `text`, or `None` when no entry has one. The contract determines the
   * result: `None` exactly when nothing hits, and otherwise the tag of the
   * one hitting entry after which nothing hits.
   */
  function LastMatch(table: seq<(Tag, seq<string>)>, text: string): (r: Option<Tag>)
    ensures r.None? <==> forall j :: 0 <= j < |table| ==> !AnyHit(table[j].1, text)
    ensures r.Some? ==> exists j :: 0 <= j < |table| && table[j].0 == r.value && AnyHit(table[j].1, text)
                                    && forall k :: j < k < |table| ==> !AnyHit(table[k].1, text)
    decreases |table|
  {
    if table == [] then None
    else if AnyHit(table[|table| - 1].1, text) then Some(table[|table| - 1].0)
    else
      assert forall k :: 0 <= k < |table| - 1 ==> table[..|table| - 1][k] == table[k];
      LastMatch(table[..|table| - 1], text)
  }

  /** The expense retagged with the match, or left alone when there is none. */
  function ApplyMatch(m: Option<Tag>, d: ExpenseData): ExpenseData {
    if m.Some? then Retag(d, m.value) else d
  }

  /**
   * What `Caelum.tag_expense` does to an expense: the lowered description is
   * matched against `TAG_FILTERS`; a hit retags the expense with the last
   * matching category, and no hit leaves every field as it was.
   */
  function Classify(d: ExpenseData): (r: ExpenseData)
    ensures r.name == d.name && r.amount == d.amount && r.date == d.date && r.fi == d.fi
    ensures LastMatch(Filters, Text.Lower(d.name)).None? ==> r == d
    ensures LastMatch(Filters, Text.Lower(d.name)).Some? ==>
      r.tag == LastMatch(Filters, Text.Lower(d.name)) && IconMatchesTag(r)
  {
    ApplyMatch(LastMatch(Filters, Text.Lower(d.name)), d)
  }

  /** Every expense of a list classified, in list order. */
  function ClassifyAll(ds: seq<ExpenseData>): (r: seq<ExpenseData>)
    ensures |r| == |ds| && forall i :: 0 <= i < |ds| ==> r[i] == Classify(ds[i])
  {
    seq(|ds|, i requires 0 <= i < |ds| => Classify(ds[i]))
  }

  /** One more keyword: the list hits when the shorter one did or the new keyword does. */
  lemma AnyHitSnoc(keywords: seq<string>, j: nat, text: string)
    requires j < |keywords|
    ensures AnyHit(keywords[..j + 1], text) <==> AnyHit(keywords[..j], text) || Text.Contains(text, keywords[j])
  {
    assert keywords[..j + 1][j] == keywords[j];
    assert forall k :: 0 <= k < j ==> keywords[..j + 1][k] == keywords[..j][k];
  }

  /** Extending the table by one entry: a hit there wins, otherwise the earlier answer stands. */
  lemma LastMatchSnoc(table: seq<(Tag, seq<string>)>, i: nat, text: string)
    requires i < |table|
    ensures LastMatch(table[..i + 1], text) ==
      if AnyHit(table[i].1, text) then Some(table[i].0) else LastMatch(table[..i], text)
  {
    assert table[..i + 1][..i] == table[..i];
  }

  /**
   * Later entries win: when the entries at positions `i < j` both hit, the
   * result is the category of an entry at position `j` or later, and it is
   * the one at `j` when nothing after `j` hits.
   */
  lemma LaterWins(table: seq<(Tag, seq<string>)>, text: string, i: nat, j: nat)
    requires i < j < |table|
    requires AnyHit(table[i].1, text) && AnyHit(table[j].1, text)
    ensures LastMatch(table, text).Some?
    ensures exists k :: j <= k < |table| && table[k].0 == LastMatch(table, text).value
    ensures (forall k :: j < k < |table| ==> !AnyHit(table[k].1, text)) ==>
      LastMatch(table, text) == Some(table[j].0)
  {
  }

  /**
   * In `TAG_FILTERS`, whose categories are distinct, an earlier hitting
   * category is never the answer when a later one also hits.
   */
  lemma LaterWinsInFilters(text: string, i: nat, j: nat)
    requires i < j < |Filters|
    requires AnyHit(Filters[i].1, text) && AnyHit(Filters[j].1, text)
    ensures LastMatch(Filters, text) != Some(Filters[i].0)
  {
    FiltersOrder();
    LaterWins(Filters, text, i, j);
  }

  /** The classifier never assigns `Misc`, which has no `TAG_FILTERS` entry. */
  lemma NeverMisc(d: ExpenseData)
    requires d.tag != Some(Misc)
    ensures Classify(d).tag != Some(Misc)
  {
    FiltersOrder();
  }

  /** Classifying twice is classifying once. */
  lemma ClassifyIdempotent(ds: seq<ExpenseData>)
    ensures ClassifyAll(ClassifyAll(ds)) == ClassifyAll(ds)
  {
  }

  /** Classification keeps a tag and its icon in step. */
  lemma ClassifyKeepsIcon(d: ExpenseData)
    requires IconMatchesTag(d)
    ensures IconMatchesTag(Classify(d))
  {
  }

  /**
   * Matching is case-insensitive: a keyword of `TAG_FILTERS` is a substring
   * of the lowered description exactly when some block of the description
   * equals it up to the case of ASCII letters.
   */
  lemma MatchIgnoresCase(description: string, i: nat, k: nat)
    requires i < |Filters| && k < |Filters[i].1|
    ensures Text.Contains(Text.Lower(description), Filters[i].1[k]) <==>
      Text.ContainsIgnoringCase(description, Filters[i].1[k])
  {
    FiltersLowerCase();
    assert LowerKeywords(Filters[i].1);
    Text.LowerContainsIgnoringCase(description, Filters[i].1[k]);
  }

  /** The last entry of `TAG_FILTERS` decides whenever it hits, and otherwise passes over. */
  lemma LastMatchFilters(text: string)
    ensures LastMatch(Filters, text) ==
      if AnyHit(Filters[4].1, text) then Some(Shopping) else LastMatch(Filters[..4], text)
  {
    FiltersOrder();
    LastMatchSnoc(Filters, 4, text);
    assert Filters[..5] == Filters;
  }

  lemma SteamNotShopping()
    ensures !AnyHit(Filters[4].1, "steam purchase")
  {
    assert Filters[4].1 == ["amazon.ca", "mec"];
    Text.NotContainsPair("steam purchase", "amazon.ca", 2);
    Text.NotContainsPair("steam purchase", "mec", 0);
  }

  lemma SteamIsGames()
    ensures AnyHit(Filters[3].1, "steam purchase")
  {
    assert Filters[3].1[2] == "steam";
    assert Text.OccursAt("steam purchase", "steam", 0);
  }

  /** "STEAM PURCHASE" is classified as `Games` through the keyword "steam". */
  lemma SteamPurchaseIsGames()
    ensures Text.Lower("STEAM PURCHASE") == "steam purchase"
    ensures LastMatch(Filters, Text.Lower("STEAM PURCHASE")) == Some(Games)
  {
    var text := "steam purchase";
    assert Text.Lower("STEAM PURCHASE") == text;
    SteamNotShopping();
    SteamIsGames();
    LastMatchFilters(text);
    LastMatchSnoc(Filters, 3, text);
  }

  lemma UberNotShopping()
    ensures !AnyHit(Filters[4].1, "uber* eats toronto")
  {
    assert Filters[4].1 == ["amazon.ca", "mec"];
    Text.NotContainsPair("uber* eats toronto", "amazon.ca", 0);
    Text.NotContainsPair("uber* eats toronto", "mec", 0);
  }

  lemma UberNotGames()
    ensures !AnyHit(Filters[3].1, "uber* eats toronto")
  {
    assert Filters[3].1 == ["games", "game", "steam"];
    Text.NotContainsPair("uber* eats toronto", "games", 0);
    Text.NotContainsPair("uber* eats toronto", "game", 0);
    Text.NotContainsPair("uber* eats toronto", "steam", 0);
  }

  lemma UberIsRestaurants()
    ensures AnyHit(Filters[2].1, "uber* eats toronto")
  {
    assert Filters[2].1[1] == "uber* eats";
    assert Text.OccursAt("uber* eats toronto", "uber* eats", 0);
  }

  /** "Uber* Eats Toronto" is classified as `Restaurants` through the keyword "uber* eats". */
  lemma UberEatsIsRestaurants()
    ensures Text.Lower("Uber* Eats Toronto") == "uber* eats toronto"
    ensures LastMatch(Filters, Text.Lower("Uber* Eats Toronto")) == Some(Restaurants)
  {
    var text := "uber* eats toronto";
    assert Text.Lower("Uber* Eats Toronto") == text;
    UberNotShopping();
    UberNotGames();
    UberIsRestaurants();
    LastMatchFilters(text);
    FiltersOrder();
    LastMatchSnoc(Filters, 3, text);
    LastMatchSnoc(Filters, 2, text);
    assert Filters[..4][..3] == Filters[..3];
  }

  /**
   * A batch of two rows: the card payment (positive amount) is refused, and
   * the delivery order becomes a `Restaurants` expense with its icon.
   */
  lemma ImportAndClassifyExample()
    ensures ClassifyAll(Imported([
        Row("1", "Visa", "2024-01-05", "Uber* Eats Toronto", -23.5),
        Row("2", "Visa", "2024-01-06", "Payment - Thank You", 50.0)]))
      == [ExpenseData("Uber* Eats Toronto", 23.5, "2024-01-05", "Visa", Some(Restaurants), Some(Icon(Restaurants)))]
  {
    var r1 := Row("1", "Visa", "2024-01-05", "Uber* Eats Toronto", -23.5);
    var r2 := Row("2", "Visa", "2024-01-06", "Payment - Thank You", 50.0);
    assert [r1, r2] == [r1] + [r2];
    ImportedAppend([r1], [r2]);
    ImportedOne(r1);
    ImportedOne(r2);
    UberEatsIsRestaurants();
  }
}
