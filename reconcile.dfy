/**
 * The schema side of src/api.py as values: the name-to-id dictionaries of
 * `setup_properties` and `setup_tags`, and the option list `setup_tags`
 * leaves behind once every declared tag is present.
 */
module Reconcile {
  import opened Wrappers

  /**
   * One entry of a select property's `options` list. Entries read from the
   * database carry an id; an entry appended by `setup_tags` has none yet.
   */
  datatype SelectOption = SelectOption(name: string, id: Option<string>, color: string)

  /** The names of the options of a list. */
  function Names(options: seq<SelectOption>): set<string> {
    set i | 0 <= i < |options| :: options[i].name
  }

  /** Every option has an `"id"` key, so `option["id"]` does not raise. */
  predicate HasIds(options: seq<SelectOption>) {
    forall i :: 0 <= i < |options| ==> options[i].id.Some?
  }

  /** An entry that is the last one of the list with its name. */
  predicate LastWithName(options: seq<SelectOption>, i: int) {
    0 <= i < |options| && forall j :: i < j < |options| ==> options[j].name != options[i].name
  }

  /** An entry stays the last with its name when an option with another name follows. */
  lemma LastWithNameSnoc(options: seq<SelectOption>, i: int)
    requires |options| > 0 && LastWithName(options[..|options| - 1], i)
    requires options[i].name != options[|options| - 1].name
    ensures LastWithName(options, i)
  {
    forall j | i < j < |options| - 1 ensures options[j].name != options[i].name {
      assert options[..|options| - 1][j] == options[j];
      assert options[..|options| - 1][i] == options[i];
    }
  }

  /**
   * `dict((o["name"], o["id"]) for o in options)`: every name maps to the id
   * of the last option that has that name.
   */
  function IdMap(options: seq<SelectOption>): (m: map<string, string>)
    requires HasIds(options)
    ensures m.Keys == Names(options)
    ensures forall n :: n in m ==>
      exists i :: LastWithName(options, i) && options[i].name == n && options[i].id == Some(m[n])
    decreases |options|
  {
    if options == [] then map[]
    else
      var init := options[..|options| - 1];
      var last := options[|options| - 1];
      var m0 := IdMap(init);
      var m := m0[last.name := last.id.value];
      assert Names(options) == Names(init) + {last.name} by {
        assert forall i :: 0 <= i < |init| ==> init[i] == options[i];
      }
      assert forall n :: n in m ==>
        exists i :: LastWithName(options, i) && options[i].name == n && options[i].id == Some(m[n]) by {
        forall n | n in m
          ensures exists i :: LastWithName(options, i) && options[i].name == n && options[i].id == Some(m[n])
        {
          if n == last.name {
            assert LastWithName(options, |options| - 1);
          } else {
            var i :| LastWithName(init, i) && init[i].name == n && init[i].id == Some(m0[n]);
            assert init[i] == options[i];
            LastWithNameSnoc(options, i);
          }
        }
      }
      m
  }

  /** The declared names absent from `existing`, in declared order. */
  function Missing(existing: set<string>, declared: seq<string>): (r: seq<string>)
    ensures |r| <= |declared|
    ensures forall i :: 0 <= i < |r| ==> r[i] !in existing
    decreases |declared|
  {
    if declared == [] then []
    else
      var last := declared[|declared| - 1];
      Missing(existing, declared[..|declared| - 1]) + (if last in existing then [] else [last])
  }

  /** The missing names are exactly the declared names absent from `existing`. */
  lemma {:induction false} MissingMembers(existing: set<string>, declared: seq<string>)
    ensures forall x :: x in Missing(existing, declared) <==> x in declared && x !in existing
    decreases |declared|
  {
    if declared != [] {
      var d' := declared[..|declared| - 1];
      MissingMembers(existing, d');
      assert declared == d' + [declared[|declared| - 1]];
    }
  }

  /** One more declared name: it is missing exactly when absent from `existing`. */
  lemma MissingSnoc(existing: set<string>, declared: seq<string>, i: nat)
    requires i < |declared|
    ensures Missing(existing, declared[..i + 1]) ==
      Missing(existing, declared[..i]) + (if declared[i] in existing then [] else [declared[i]])
  {
    assert declared[..i + 1][..i] == declared[..i];
  }

  /** `Missing` filters each part of a concatenation on its own, so declared order is kept. */
  lemma {:induction false} MissingAppend(existing: set<string>, a: seq<string>, b: seq<string>)
    ensures Missing(existing, a + b) == Missing(existing, a) + Missing(existing, b)
    decreases |b|
  {
    if b == [] {
      assert a + b == a;
    } else {
      var b' := b[..|b| - 1];
      assert (a + b)[..|a + b| - 1] == a + b';
      assert (a + b)[|a + b| - 1] == b[|b| - 1];
      MissingAppend(existing, a, b');
    }
  }

  /** Without repeats among the declared names there are none among the missing ones. */
  lemma {:induction false} MissingDistinct(existing: set<string>, declared: seq<string>)
    requires forall i, j :: 0 <= i < j < |declared| ==> declared[i] != declared[j]
    ensures forall i, j :: 0 <= i < j < |Missing(existing, declared)| ==>
      Missing(existing, declared)[i] != Missing(existing, declared)[j]
    decreases |declared|
  {
    if declared != [] {
      var d' := declared[..|declared| - 1];
      MissingDistinct(existing, d');
      MissingMembers(existing, d');
      assert declared[|declared| - 1] !in d';
    }
  }

  /** Nothing is missing once every declared name exists. */
  lemma {:induction false} MissingNoneWhenPresent(existing: set<string>, declared: seq<string>)
    requires forall x :: x in declared ==> x in existing
    ensures Missing(existing, declared) == []
    decreases |declared|
  {
    if declared != [] {
      var d' := declared[..|declared| - 1];
      assert forall x :: x in d' ==> x in declared;
      MissingNoneWhenPresent(existing, d');
    }
  }

  /** The option `{"color": "gray", "name": name}` that `setup_tags` appends. */
  function Gray(name: string): (r: SelectOption)
    ensures r.name == name && r.id.None? && r.color == "gray"
  {
    SelectOption(name, None, "gray")
  }

  /** One gray option per name, in order. */
  function GrayOptions(names: seq<string>): (r: seq<SelectOption>)
    ensures |r| == |names| && forall i :: 0 <= i < |names| ==> r[i] == Gray(names[i])
  {
    seq(|names|, i requires 0 <= i < |names| => Gray(names[i]))
  }

  lemma GrayOptionsSnoc(names: seq<string>, x: string)
    ensures GrayOptions(names + [x]) == GrayOptions(names) + [Gray(x)]
  {
  }

  /**
   * The `"Tag"` option list after `setup_tags`: the original entries,
   * unchanged and in place, followed by a gray option for each declared name
   * missing from them, in declared order.
   */
  function Reconciled(options: seq<SelectOption>, declared: seq<string>): (r: seq<SelectOption>)
    ensures |r| >= |options| && r[..|options|] == options
    ensures r[|options|..] == GrayOptions(Missing(Names(options), declared))
  {
    var r := options + GrayOptions(Missing(Names(options), declared));
    assert r[..|options|] == options;
    r
  }

  /** The merged list is the original list followed by the appended options. */
  lemma ReconciledSplit(options: seq<SelectOption>, declared: seq<string>)
    ensures Reconciled(options, declared) == options + GrayOptions(Missing(Names(options), declared))
  {
  }

  /** Afterwards every declared name is an option name, and no other name was added. */
  lemma ReconciledCovers(options: seq<SelectOption>, declared: seq<string>)
    ensures Names(Reconciled(options, declared)) == Names(options) + (set x | x in declared)
  {
    var r := Reconciled(options, declared);
    var added := Missing(Names(options), declared);
    MissingMembers(Names(options), declared);
    assert r == options + GrayOptions(added);
    forall x | x in declared ensures x in Names(r) {
      if x !in Names(options) {
        var k :| 0 <= k < |added| && added[k] == x;
        assert r[|options| + k].name == x;
      }
    }
    forall x | x in Names(r) ensures x in Names(options) || x in declared {
      var i :| 0 <= i < |r| && r[i].name == x;
      if i >= |options| {
        assert r[i] == Gray(added[i - |options|]);
      } else {
        assert r[i] == options[i];
      }
    }
  }

  /** A second merge on the merged list appends nothing. */
  lemma ReconcileIdempotent(options: seq<SelectOption>, declared: seq<string>)
    ensures Reconciled(Reconciled(options, declared), declared) == Reconciled(options, declared)
  {
    var r := Reconciled(options, declared);
    ReconciledCovers(options, declared);
    assert forall x :: x in declared ==> x in (set y | y in declared) && x in Names(r);
    MissingNoneWhenPresent(Names(r), declared);
    assert GrayOptions([]) == [];
    assert r + [] == r;
  }

  /** The appended names are new and, for a repeat-free declaration, appended once each. */
  lemma ReconcileAddsEachOnce(options: seq<SelectOption>, declared: seq<string>)
    requires forall i, j :: 0 <= i < j < |declared| ==> declared[i] != declared[j]
    ensures var added := Reconciled(options, declared)[|options|..];
      (forall i :: 0 <= i < |added| ==> added[i].name !in Names(options) && added[i].color == "gray") &&
      (forall i, j :: 0 <= i < j < |added| ==> added[i].name != added[j].name)
  {
    MissingDistinct(Names(options), declared);
    MissingMembers(Names(options), declared);
  }

  /**
   * Declared {A, B, C} against a database holding A and B: the result is A and
   * B unchanged, then C, gray and without an id.
   */
  lemma ReconcileExample(a: SelectOption, b: SelectOption, c: string)
    requires a.name != c && b.name != c
    ensures Reconciled([a, b], [a.name, b.name, c]) == [a, b, Gray(c)]
  {
    var names := Names([a, b]);
    assert [a, b][0] == a && [a, b][1] == b;
    assert a.name in names && b.name in names && c !in names;
    assert [a.name, b.name, c][..2] == [a.name, b.name];
    assert [a.name, b.name][..1] == [a.name];
    assert Missing(names, [a.name]) == [] by {
      assert [a.name][..0] == [];
    }
    assert Missing(names, [a.name, b.name, c]) == [c];
    assert GrayOptions([c]) == [Gray(c)];
  }
}
