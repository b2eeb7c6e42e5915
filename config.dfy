/**
 * The static tag taxonomy of src/config.py: the `Tags` enumeration, its
 * `keys()` list of labels, the `TAG_ICONS` dictionary and the ordered
 * `TAG_FILTERS` keyword table.
 */
module Config {
  import Text

  /** The members of the `Tags` enumeration, in declaration order. */
  datatype Tag = Recurring | Groceries | Restaurants | Games | Shopping | Misc

  /** The enumeration value (label) of each member. */
  function Label(t: Tag): (r: string)
    ensures r != [] && 'A' <= r[0] <= 'Z'
  {
    match t
    case Recurring => "Recurring"
    case Groceries => "Groceries"
    case Restaurants => "Restaurants"
    case Games => "Games"
    case Shopping => "Shopping"
    case Misc => "Misc"
  }

  /** Iterating the enumeration yields its members in declaration order. */
  const AllTags: seq<Tag> := [Recurring, Groceries, Restaurants, Games, Shopping, Misc]

  /** `Tags.keys()`: the label of every member, in declaration order. */
  function Keys(): (r: seq<string>)
    ensures |r| == |AllTags|
    ensures forall i :: 0 <= i < |r| ==> r[i] == Label(AllTags[i])
  {
    seq(|AllTags|, i requires 0 <= i < |AllTags| => Label(AllTags[i]))
  }

  /** `TAG_ICONS`: one display icon per tag. */
  const TagIcons: map<Tag, string> := map[
    Recurring := "\U{1F4B5}",
    Groceries := "\U{1F966}",
    Restaurants := "\U{1F35C}",
    Games := "\U{1F3AE}",
    Shopping := "\U{1F6CD}",
    Misc := "\U{2B50}\U{FE0F}"
  ]

  /** `TAG_FILTERS`: categories in declared order, each with its keywords in order. */
  const Filters: seq<(Tag, seq<string>)> := [
    (Recurring, ["amazon web services", "apple.com/bill", "bitwarden", "proton", "insurance"]),
    (Groceries, ["supermarket", "wholesale", "superstore"]),
    (Restaurants, ["ubereats", "uber* eats", "restaurant", "resta", "bar", "grill", "cuisine",
                   "kitchen", "eatery", "liquor", "coffee", "starbucks", "cafe", "tea", "sushi", "bbq"]),
    (Games, ["games", "game", "steam"]),
    (Shopping, ["amazon.ca", "mec"])
  ]

  /** `TAG_ICONS[t]`, which never raises because the dictionary has every tag. */
  function Icon(t: Tag): (r: string)
    ensures t in TagIcons && r == TagIcons[t] && r != []
  {
    IconsTotal();
    TagIcons[t]
  }

  /** The enumeration lists every tag, each exactly once. */
  lemma AllTagsComplete()
    ensures forall t: Tag :: t in AllTags
    ensures forall i, j :: 0 <= i < j < |AllTags| ==> AllTags[i] != AllTags[j]
  {
    forall t: Tag ensures t in AllTags {
      match t
      case Recurring => assert AllTags[0] == t;
      case Groceries => assert AllTags[1] == t;
      case Restaurants => assert AllTags[2] == t;
      case Games => assert AllTags[3] == t;
      case Shopping => assert AllTags[4] == t;
      case Misc => assert AllTags[5] == t;
    }
  }

  /** Distinct tags have distinct labels, so a label identifies its tag. */
  lemma LabelsDistinct()
    ensures forall s, t :: Label(s) == Label(t) ==> s == t
  {
  }

  /** `Tags.keys()` is exactly the six labels, in declaration order, without repeats. */
  lemma KeysInOrder()
    ensures Keys() == ["Recurring", "Groceries", "Restaurants", "Games", "Shopping", "Misc"]
    ensures forall i, j :: 0 <= i < j < |Keys()| ==> Keys()[i] != Keys()[j]
  {
    AllTagsComplete();
    LabelsDistinct();
  }

  /** `TAG_ICONS` has exactly one non-empty icon for each of the six tags. */
  lemma IconsTotal()
    ensures forall t: Tag :: t in TagIcons && TagIcons[t] != []
    ensures TagIcons.Keys == set t | t in AllTags
  {
    AllTagsComplete();
    forall t: Tag ensures t in TagIcons && TagIcons[t] != [] {
      assert t in AllTags;
    }
  }

  /** `TAG_FILTERS` lists five categories, in this order; `Misc` has no entry. */
  lemma FiltersOrder()
    ensures |Filters| == 5
    ensures Filters[0].0 == Recurring && Filters[1].0 == Groceries && Filters[2].0 == Restaurants
    ensures Filters[3].0 == Games && Filters[4].0 == Shopping
    ensures forall i :: 0 <= i < |Filters| ==> Filters[i].0 != Misc
    ensures forall i, j :: 0 <= i < j < |Filters| ==> Filters[i].0 != Filters[j].0
  {
  }

  /** Every keyword of the list is non-empty and already lower case. */
  predicate LowerKeywords(keywords: seq<string>) {
    forall k :: 0 <= k < |keywords| ==> keywords[k] != [] && Text.IsLower(keywords[k])
  }

  lemma RecurringKeywordsLower()
    ensures LowerKeywords(Filters[0].1)
  {
    assert Text.IsLower("amazon web services");
    assert Text.IsLower("apple.com/bill");
  }
  lemma GroceriesKeywordsLower() ensures LowerKeywords(Filters[1].1) {}
  lemma RestaurantsKeywordsLower() ensures LowerKeywords(Filters[2].1) {}
  lemma GamesKeywordsLower() ensures LowerKeywords(Filters[3].1) {}
  lemma ShoppingKeywordsLower() ensures LowerKeywords(Filters[4].1) {}

  /** Every keyword of `TAG_FILTERS` is already lower case and non-empty. */
  lemma FiltersLowerCase()
    ensures forall i :: 0 <= i < |Filters| ==> LowerKeywords(Filters[i].1)
  {
    RecurringKeywordsLower();
    GroceriesKeywordsLower();
    RestaurantsKeywordsLower();
    GamesKeywordsLower();
    ShoppingKeywordsLower();
  }
}
