# Caelum: verified model of the expense importer and classifier

Caelum imports credit-card transactions from a CSV export into a Notion
expense database. This project models its core in Dafny and proves
properties of the model:

- **Expense construction** (`Expense.__init__`): a row with a strictly positive
  amount is a card payment and is refused with `ValueError`. Any other row
  becomes an expense with the sign flipped, its fields copied from the row, and
  no tag or icon (`Expenses.Build`, `Expenses.Expense`).
- **Import** (`Caelum.parse_csv`): the accepted rows are appended to the held
  expenses in row order, and then every held expense is classified, in list
  order (`Api.Caelum.ParseCsv`, `Api.Caelum.AppendRows`, `Api.Caelum.TagAll`).
- **Keyword classifier** (`Caelum.tag_expense`, `Expense.tag_expense`): the
  description is lower-cased. `TAG_FILTERS` is walked category by category and
  keyword by keyword, and the expense is retagged on every substring hit. The
  last hit wins, and setting a tag also sets its `TAG_ICONS` icon. The
  imperative nested loop (`Api.Caelum.TagExpense`) is proved equal to the
  reference definition `Classifier.Classify`, which in turn rests on
  `Classifier.LastMatch`, "the category of the last table entry that hits".
- **Schema set-up** (`setup_properties`, `setup_tags`): the name-to-id
  dictionaries of the `"Card"`, `"Month"` and `"Tag"` options
  (`Reconcile.IdMap`). A gray option is appended, in place, for every declared
  tag missing from the `"Tag"` list, and the list is sent back
  (`Api.Caelum.SetupTags`, proved equal to `Reconcile.Reconciled`).
- **Tag taxonomy** (src/config.py): the `Tags` enumeration, `Tags.keys()`,
  `TAG_ICONS` and `TAG_FILTERS` as constants (`Config`), with lemmas about them.
  These cover completeness, order, distinct labels, no `Misc` filter, and
  lower-case keywords.

Modules follow the program: `Config` (src/config.py), `Expenses` (the
`Expense` class), `Classifier` and `Reconcile` (value-level definitions of
what `Caelum` computes), `Api` (the `Caelum` class), plus `Text` (ASCII lower
case and substring search) and `Wrappers` (`Option`, `Result`).

The model follows the code as written, including these points a reader might not expect:

- An amount of exactly 0 is accepted, because the test is `> 0` (src/api.py:28).
- `databases.update` is sent even when no tag was missing (src/api.py:105).
  Each call is recorded in `Caelum.updates`.
- `self.expenses` is only set to `[]` in the constructor. A second `parse_csv`
  appends to it, and re-classifies the expenses already held (src/api.py:53,
  src/api.py:135, src/api.py:140).
- Classification does not stop at the first hit, so the last hit in table order
  decides (src/api.py:117-120).

## Model

| member | source | states |
|---|---|---|
| Expenses.Build | src/api.py:27-36 | refused exactly when the amount is > 0 (0 is accepted); otherwise amount is the negated raw amount and so >= 0, name/date/fi are description/timestamp/account_type, tag and icon are None |
| Expenses.Expense.constructor | src/api.py:31-36 | the new object's fields are the accepted expense `Build` gives for the row |
| Expenses.Expense.Create | src/api.py:27-36 | returns an error exactly when the amount is > 0, otherwise a fresh object holding `Build`'s fields |
| Expenses.Retag | src/api.py:41-43 | tag becomes t, icon becomes TAG_ICONS[t], name/amount/date/fi do not change |
| Expenses.Expense.TagExpense | src/api.py:41-43 | the object's new fields are `Retag` of its old fields |
| Expenses.Imported | src/api.py:133-138 | the expenses a batch yields are at most as many as the rows, each with amount >= 0 and no tag |
| Expenses.ImportedOne | src/api.py:133-138 | a single row yields its `Build` expense when its amount is <= 0, and nothing otherwise |
| Expenses.ImportedAppend | src/api.py:133-135 | importing a + b yields a's expenses followed by b's, so row order is kept |
| Expenses.ImportedNoneAccepted | src/api.py:133-138 | a batch whose every amount is positive yields nothing |
| Expenses.ImportedAllAccepted | src/api.py:133-135 | a batch without positive amounts yields exactly one expense per row, at the row's position |
| Config.Label | src/config.py:16-21 | the enumeration value of each tag, a non-empty capitalised name; `LabelsDistinct` makes it one-to-one |
| Config.Keys | src/config.py:13-14 | one label per enumeration member, in declaration order |
| Config.KeysInOrder | src/config.py:13-21 | `Tags.keys()` is exactly Recurring, Groceries, Restaurants, Games, Shopping, Misc, with no repeats |
| Config.AllTagsComplete | src/config.py:11-21 | the enumeration lists every tag exactly once |
| Config.LabelsDistinct | src/config.py:16-21 | distinct tags have distinct labels |
| Config.Icon | src/config.py:23-30 | TAG_ICONS lookup never fails and gives a non-empty icon |
| Config.IconsTotal | src/config.py:23-30 | TAG_ICONS has exactly the six tags as keys, each with a non-empty icon |
| Config.FiltersOrder | src/config.py:32-39 | TAG_FILTERS lists Recurring, Groceries, Restaurants, Games, Shopping in this order, distinct, and no Misc |
| Config.FiltersLowerCase | src/config.py:33-38 | every keyword of every TAG_FILTERS entry is non-empty and already lower case |
| Text.Lower | src/api.py:116 | same length, each character lowered on its own (ASCII) |
| Text.Contains | src/api.py:119 | `pat in text`: the pattern occurs as a contiguous block; a hit needs a pattern no longer than the text, and the empty pattern and the text itself always hit |
| Text.LowerIsLower | src/api.py:116 | the lowered string is lower case, and lowering leaves a string unchanged exactly when it is already lower case |
| Text.LowerContainsIgnoringCase | src/api.py:116-119 | a lower-case pattern is a substring of the lowered text exactly when it occurs in the text up to letter case |
| Classifier.AnyHit | src/api.py:118-119 | the hit test of the inner keyword loop: some keyword of the list is a substring of the text; its substance is `AnyHitSnoc`, the keyword-by-keyword scan on which `Api.Caelum.TagExpense`'s inner invariant rests (its own contract adds only that a hit needs a keyword no longer than the text) |
| Classifier.AnyHitSnoc | src/api.py:118-119 | scanning one more keyword: the list hits exactly when the shorter list hit or the new keyword is a substring |
| Classifier.LastMatch | src/api.py:117-120 | None exactly when no entry hits; otherwise the tag of a hitting entry with no hitting entry after it |
| Classifier.Classify | src/api.py:116-120 | keeps name/amount/date/fi; with no hit on the lowered name the expense is unchanged, otherwise the tag is the last match and the icon matches it |
| Classifier.ClassifyAll | src/api.py:140-141 | every expense of the list classified, at its own position |
| Classifier.LastMatchSnoc | src/api.py:117-120 | one more table entry: its hit wins, otherwise the earlier result stands |
| Classifier.LaterWins | src/api.py:117-120 | when entries i < j both hit, the result comes from j or later, and is j's tag when nothing after j hits |
| Classifier.LaterWinsInFilters | src/api.py:117-120 | in TAG_FILTERS an earlier hitting category is never the result when a later one also hits |
| Classifier.NeverMisc | src/config.py:32-39 | classification never assigns Misc to an expense not already tagged Misc |
| Classifier.ClassifyIdempotent | src/api.py:140-141 | classifying a list twice gives the same as classifying it once |
| Classifier.ClassifyKeepsIcon | src/api.py:116-120 | classification keeps tag and icon in step |
| Classifier.MatchIgnoresCase | src/api.py:116-119 | a TAG_FILTERS keyword hits the lowered description exactly when it occurs in it ignoring case |
| Classifier.LastMatchFilters | src/api.py:117-120 | a Shopping hit decides; otherwise the first four categories do |
| Classifier.SteamPurchaseIsGames | src/api.py:116-120 | "STEAM PURCHASE" lowers to "steam purchase" and is classified Games |
| Classifier.UberEatsIsRestaurants | src/api.py:116-120 | "Uber* Eats Toronto" is classified Restaurants |
| Classifier.ImportAndClassifyExample | src/api.py:133-141 | a payment row is dropped and an Uber Eats row becomes a 23.5 Restaurants expense with its icon |
| Reconcile.IdMap | src/api.py:74-75 | keys are exactly the option names; each name maps to the id of the last option with that name |
| Reconcile.Missing | src/api.py:99-101 | the declared names absent from the existing names, in declared order: no more than declared, none of them existing (`MissingMembers`, `MissingAppend`) |
| Reconcile.MissingMembers | src/api.py:99-101 | a name is missing exactly when it is declared and not among the existing names |
| Reconcile.MissingAppend | src/api.py:100-103 | missing names of a concatenation are those of each part, in declared order |
| Reconcile.MissingDistinct | src/api.py:100-103 | no name is missing twice when the declaration has no repeats |
| Reconcile.MissingNoneWhenPresent | src/api.py:99-103 | nothing is missing once every declared name exists |
| Reconcile.Gray | src/api.py:103 | the appended option `{"color": "gray", "name": tag}`: the given name, gray, and no id yet |
| Reconcile.GrayOptions | src/api.py:103 | one gray, id-less option per name, in order |
| Reconcile.Reconciled | src/api.py:92-103 | the original options unchanged and in place, followed by gray options for the missing names in declared order |
| Reconcile.ReconciledCovers | src/api.py:99-103 | afterwards the option names are the old names plus every declared name, and nothing else |
| Reconcile.ReconcileIdempotent | src/api.py:99-103 | merging the merged list again appends nothing |
| Reconcile.ReconcileAddsEachOnce | src/api.py:99-103 | every appended option is gray with a new name, and no name is appended twice |
| Reconcile.ReconcileExample | src/api.py:99-103 | with A and B present and A, B, C declared, the result is A, B, then gray C |
| Api.Caelum.constructor | src/api.py:46-55 | no expenses; the three dictionaries are the id maps of the retrieved options; the tag list is reconciled with `Tags.keys()` and sent once |
| Api.Caelum.SetupProperties | src/api.py:57-77 | cards and months are the id maps of their options, then `SetupTags`'s effect; expenses untouched |
| Api.Caelum.SetupTags | src/api.py:79-105 | tags is the id map of the old tag list; the tag list becomes `Reconciled(old, Tags.keys())`, and is sent once; nothing else changes |
| Api.Caelum.AppendMissingTags | src/api.py:99-103 | the loop of `setup_tags`: the tag list gains one gray option per missing name, in declared order, in place; nothing else changes |
| Api.Caelum.TagExpense | src/api.py:107-121 | the expense's new fields are `Classify` of its old fields |
| Api.Caelum.ParseCsv | src/api.py:124-141 | old expenses keep their places, new fresh ones follow; the fields of the whole list are `ClassifyAll` of the old fields followed by `Imported(rows)`; tag and icon stay in step; nothing else changes |
| Api.Caelum.AppendRows | src/api.py:131-138 | the list grows by fresh objects holding `Imported(rows)`, in row order, after the old ones |
| Api.Caelum.AppendRow | src/api.py:134-138 | one row: a fresh expense is appended exactly when the row is accepted |
| Api.Caelum.TagAll | src/api.py:140-141 | the fields of the list become `ClassifyAll` of the old fields |

## Left out

- The Notion client is not modelled: `Client(...)`, `databases.retrieve` and `databases.update` are network calls into a foreign library (src/api.py:47-48, src/api.py:105). The retrieved schema is a constructor argument, reduced to its three select option lists. Each update is an entry appended to `Caelum.updates`.
- `.env` loading and the `NOTION_TOKEN`/`NOTION_DATABASE` constants are environment I/O (src/config.py:6-9).
- Opening the CSV file and `csv.DictReader` are file I/O. The rows are a given sequence of records.
- `float(...)` parsing is not modelled. The amount is an already-parsed `real`, so floating-point rounding and `-0.0` are not modelled. Two more effects are left out with it. An amount string `float()` cannot parse raises `ValueError`, which `parse_csv` catches (src/api.py:136), so that row is skipped just like a payment. A `"nan"` amount passes the `> 0` test (src/api.py:28) and is kept with a NaN amount, for which Build's "amount >= 0" does not hold.
- `logging.info`, `pprint` and `__repr__` produce output only (src/api.py:38-39, src/api.py:102, src/api.py:121, src/api.py:137).
- Text.Lower: lowers ASCII letters only, not all of Unicode's `str.lower()`.
- Reconcile.IdMap: requires every option to carry an id. In Python an option without `"id"` raises `KeyError`, which is not modelled as a result.
- Expenses.Expense.constructor: requires an amount <= 0. The refusal of a positive amount is `Expenses.Expense.Create`, which stands for the raising constructor.
- Api.Caelum.SetupTags: takes no argument and works on the object's own schema. The only caller passes `self.expense_database["properties"]`, so the in-place append lands in that schema.
- Api.Caelum.ParseCsv: requires `Valid()`, the object invariant the constructor establishes: distinct expense objects, each with tag and icon in step.
- Api.Caelum.ParseCsv: the read loop and the tag loop are the separate methods `AppendRows` and `TagAll`.
- The schema's other properties and option fields are not modelled. Only name, id and color of the `"Card"`, `"Month"` and `"Tag"` options are.
