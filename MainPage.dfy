/**
  * The main page's place list: a search box and three multi-select filters
  * (categories, budgets, time bounds) narrow the loaded places by a chain of
  * `filter` calls; toggles, removal and "clear all" update the selections;
  * the active-filter chips list the selections in order.
  */
module MainPage {
  import opened Common

  /** A place as loaded from the server; `estimatedTime` is the minutes
      column, where 0 reads as falsy like a missing value. */
  datatype Place = Place(id: nat, title: Option<string>, description: Option<string>,
                         category: Option<string>, budget: Option<string>, estimatedTime: Option<int>)

  /** The page's filter state. */
  datatype Selection = Selection(query: string, categories: seq<string>, budgets: seq<string>, times: seq<string>)

  // ---------------------------------------------------------------------
  // The four tests
  // ---------------------------------------------------------------------

  /** `v && v.toLowerCase().includes(q)`. */
  predicate FieldMatches(v: Option<string>, q: string) {
    Truthy(v) && Includes(ToLower(v.value), q)
  }

  /** The search test, against the lower-cased, untrimmed query. */
  predicate MatchesSearch(p: Place, query: string) {
    var q := ToLower(query);
    FieldMatches(p.title, q) || FieldMatches(p.description, q)
  }

  /** `!p.category ? false : selected.includes(p.category)`. */
  predicate InSelection(v: Option<string>, selected: seq<string>) {
    Truthy(v) && v.value in selected
  }

  /** `parseInt` of each selected bound, `None` for `NaN`. */
  function Bounds(times: seq<string>): (r: seq<Option<int>>)
    ensures |r| == |times| && forall i :: 0 <= i < |times| ==> r[i] == ParseInt(times[i])
  {
    seq(|times|, i requires 0 <= i < |times| => ParseInt(times[i]))
  }

  /** `bounds.some(b => t <= b)`, where `t <= NaN` is false. */
  predicate WithinSomeBound(t: int, bounds: seq<Option<int>>) {
    exists i :: 0 <= i < |bounds| && bounds[i].Some? && t <= bounds[i].value
  }

  /** The time test: a truthy `estimated_time` within some selected bound. */
  predicate MatchesTime(p: Place, times: seq<string>) {
    p.estimatedTime.Some? && p.estimatedTime.value != 0 && WithinSomeBound(p.estimatedTime.value, Bounds(times))
  }

  /** The largest bound that is a number, if any. */
  function MaxBound(bounds: seq<Option<int>>): Option<int> {
    if bounds == [] then None
    else
      var init := MaxBound(bounds[..|bounds| - 1]);
      var last := bounds[|bounds| - 1];
      if last.None? then init
      else if init.None? || init.value < last.value then last
      else init
  }

  /** Being within some selected bound is being within the largest one. */
  lemma {:induction false} WithinLargestBound(t: int, bounds: seq<Option<int>>)
    ensures WithinSomeBound(t, bounds) <==> MaxBound(bounds).Some? && t <= MaxBound(bounds).value
    decreases |bounds|
  {
    if bounds != [] {
      var n := |bounds| - 1;
      var init := bounds[..n];
      WithinLargestBound(t, init);
      var last := bounds[n];
      assert WithinSomeBound(t, bounds) <==> WithinSomeBound(t, init) || (last.Some? && t <= last.value) by {
        if WithinSomeBound(t, bounds) {
          var i :| 0 <= i < |bounds| && bounds[i].Some? && t <= bounds[i].value;
          if i < n {
            assert bounds[i] == init[i];
          }
        }
        if WithinSomeBound(t, init) {
          var i :| 0 <= i < |init| && init[i].Some? && t <= init[i].value;
          assert bounds[i] == init[i];
        }
      }
    }
  }

  /** The test one `filter` call applies. */
  datatype Test = Search(query: string) | Categories(ids: seq<string>) | Budgets(ids: seq<string>) | Times(ids: seq<string>)

  predicate Passes(t: Test, p: Place) {
    match t
    case Search(q) => MatchesSearch(p, q)
    case Categories(ids) => InSelection(p.category, ids)
    case Budgets(ids) => InSelection(p.budget, ids)
    case Times(ids) => MatchesTime(p, ids)
  }

  // ---------------------------------------------------------------------
  // `filter`, the chain, and a single filter by every active test
  // ---------------------------------------------------------------------

  /** `ps.filter(keep)`: the elements `keep` accepts, in their order. */
  function FilterBy(ps: seq<Place>, keep: Place -> bool): seq<Place> {
    if ps == [] then []
    else (if keep(ps[0]) then [ps[0]] else []) + FilterBy(ps[1..], keep)
  }

  /** The callback `place => Passes(t, place)`. */
  function KeepTest(t: Test): Place -> bool {
    p => Passes(t, p)
  }

  /** `ps.filter(place => Passes(t, place))`. */
  function Filter(ps: seq<Place>, t: Test): seq<Place> {
    FilterBy(ps, KeepTest(t))
  }

  /** The filter effect: search, then categories, then budgets, then times,
      each stage applied only when active. */
  function Filtered(places: seq<Place>, s: Selection): seq<Place> {
    var afterSearch := if Trim(s.query) != "" then Filter(places, Search(s.query)) else places;
    var afterCategory := if |s.categories| > 0 then Filter(afterSearch, Categories(s.categories)) else afterSearch;
    var afterBudget := if |s.budgets| > 0 then Filter(afterCategory, Budgets(s.budgets)) else afterCategory;
    if |s.times| > 0 then Filter(afterBudget, Times(s.times)) else afterBudget
  }

  /** `[t]` when the stage is active. */
  function Stage(active: bool, t: Test): seq<Test> {
    if active then [t] else []
  }

  /** The stages that run, in order. */
  function ActiveTests(s: Selection): seq<Test> {
    Stage(Trim(s.query) != "", Search(s.query))
    + Stage(|s.categories| > 0, Categories(s.categories))
    + Stage(|s.budgets| > 0, Budgets(s.budgets))
    + Stage(|s.times| > 0, Times(s.times))
  }

  predicate PassesAll(ts: seq<Test>, p: Place) {
    forall i :: 0 <= i < |ts| ==> Passes(ts[i], p)
  }

  /** The places that pass every test, in their order. */
  function KeepAll(ps: seq<Place>, ts: seq<Test>): seq<Place> {
    if ps == [] then []
    else (if PassesAll(ts, ps[0]) then [ps[0]] else []) + KeepAll(ps[1..], ts)
  }

  /** A place passes the chain's tests exactly when, for each stage that is
      active, it passes that stage. */
  predicate Keeps(s: Selection, p: Place) {
    && (Trim(s.query) != "" ==> MatchesSearch(p, s.query))
    && (|s.categories| > 0 ==> InSelection(p.category, s.categories))
    && (|s.budgets| > 0 ==> InSelection(p.budget, s.budgets))
    && (|s.times| > 0 ==> MatchesTime(p, s.times))
  }

  lemma PassesAllAppend(a: seq<Test>, b: seq<Test>, p: Place)
    ensures PassesAll(a + b, p) <==> PassesAll(a, p) && PassesAll(b, p)
  {
    if PassesAll(a, p) && PassesAll(b, p) {
      forall i | 0 <= i < |a + b| ensures Passes((a + b)[i], p) {
        if i >= |a| {
          assert (a + b)[i] == b[i - |a|];
        }
      }
    }
    if PassesAll(a + b, p) {
      forall i | 0 <= i < |a| ensures Passes(a[i], p) {
        assert (a + b)[i] == a[i];
      }
      forall i | 0 <= i < |b| ensures Passes(b[i], p) {
        assert (a + b)[|a| + i] == b[i];
      }
    }
  }

  lemma {:induction false} FilterKeepAll(ps: seq<Place>, ts: seq<Test>, t: Test)
    ensures Filter(KeepAll(ps, ts), t) == KeepAll(ps, ts + [t])
    decreases |ps|
  {
    if ps != [] {
      var x := ps[0];
      FilterKeepAll(ps[1..], ts, t);
      PassesAllAppend(ts, [t], x);
      assert PassesAll([t], x) <==> Passes(t, x) by {
        assert [t][0] == t;
      }
      var rest := KeepAll(ps[1..], ts);
      if PassesAll(ts, x) {
        assert KeepAll(ps, ts) == [x] + rest;
        FilterAppend([x], rest, t);
        assert Filter([x], t) == (if Passes(t, x) then [x] else []) + Filter([x][1..], t);
        assert [x][1..] == [];
      } else {
        assert KeepAll(ps, ts) == rest;
      }
    }
  }

  lemma FilterAppend(a: seq<Place>, b: seq<Place>, t: Test)
    ensures Filter(a + b, t) == Filter(a, t) + Filter(b, t)
  {
    FilterByAppend(a, b, KeepTest(t));
  }

  lemma {:induction false} FilterByAppend(a: seq<Place>, b: seq<Place>, keep: Place -> bool)
    ensures FilterBy(a + b, keep) == FilterBy(a, keep) + FilterBy(b, keep)
    decreases |a|
  {
    if a == [] {
      assert a + b == b;
    } else {
      var head := if keep(a[0]) then [a[0]] else [];
      FilterByAppend(a[1..], b, keep);
      calc {
        FilterBy(a + b, keep);
        { assert (a + b)[0] == a[0]; }
        head + FilterBy((a + b)[1..], keep);
        { assert (a + b)[1..] == a[1..] + b; }
        head + FilterBy(a[1..] + b, keep);
        head + (FilterBy(a[1..], keep) + FilterBy(b, keep));
        FilterBy(a, keep) + FilterBy(b, keep);
      }
    }
  }

  lemma {:induction false} KeepAllNone(ps: seq<Place>)
    ensures KeepAll(ps, []) == ps
    decreases |ps|
  {
    if ps != [] {
      KeepAllNone(ps[1..]);
    }
  }

  /** One stage of the chain extends the tests applied so far. */
  lemma StageStep(ps: seq<Place>, x: seq<Place>, ts: seq<Test>, active: bool, t: Test)
    requires x == KeepAll(ps, ts)
    ensures (if active then Filter(x, t) else x) == KeepAll(ps, ts + Stage(active, t))
  {
    if active {
      FilterKeepAll(ps, ts, t);
    } else {
      assert ts + [] == ts;
    }
  }

  /** The chain of `filter` calls is one filter by every active test. */
  lemma FilteredIsOneFilter(places: seq<Place>, s: Selection)
    ensures Filtered(places, s) == KeepAll(places, ActiveTests(s))
  {
    var s1 := Stage(Trim(s.query) != "", Search(s.query));
    var s2 := Stage(|s.categories| > 0, Categories(s.categories));
    var s3 := Stage(|s.budgets| > 0, Budgets(s.budgets));
    var s4 := Stage(|s.times| > 0, Times(s.times));
    KeepAllNone(places);
    assert [] + s1 == s1;
    var a := if Trim(s.query) != "" then Filter(places, Search(s.query)) else places;
    StageStep(places, places, [], Trim(s.query) != "", Search(s.query));
    var b := if |s.categories| > 0 then Filter(a, Categories(s.categories)) else a;
    StageStep(places, a, s1, |s.categories| > 0, Categories(s.categories));
    var c := if |s.budgets| > 0 then Filter(b, Budgets(s.budgets)) else b;
    StageStep(places, b, s1 + s2, |s.budgets| > 0, Budgets(s.budgets));
    StageStep(places, c, s1 + s2 + s3, |s.times| > 0, Times(s.times));
  }

  /** Passing every active test is passing each stage that is active. */
  lemma ActiveTestsMeaning(s: Selection, p: Place)
    ensures PassesAll(ActiveTests(s), p) <==> Keeps(s, p)
  {
    var s1 := Stage(Trim(s.query) != "", Search(s.query));
    var s2 := Stage(|s.categories| > 0, Categories(s.categories));
    var s3 := Stage(|s.budgets| > 0, Budgets(s.budgets));
    var s4 := Stage(|s.times| > 0, Times(s.times));
    PassesAllAppend(s1, s2, p);
    PassesAllAppend(s1 + s2, s3, p);
    PassesAllAppend(s1 + s2 + s3, s4, p);
    PassesAllStage(Trim(s.query) != "", Search(s.query), p);
    PassesAllStage(|s.categories| > 0, Categories(s.categories), p);
    PassesAllStage(|s.budgets| > 0, Budgets(s.budgets), p);
    PassesAllStage(|s.times| > 0, Times(s.times), p);
  }

  lemma PassesAllStage(active: bool, t: Test, p: Place)
    ensures PassesAll(Stage(active, t), p) <==> (active ==> Passes(t, p))
  {
    if active {
      assert Stage(active, t)[0] == t;
    }
  }

  // ---------------------------------------------------------------------
  // Order-preserving sub-lists
  // ---------------------------------------------------------------------

  /** `idx` maps each element of `a` to an equal element of `b`, in increasing positions. */
  predicate Embeds(a: seq<Place>, b: seq<Place>, idx: seq<nat>) {
    && |idx| == |a|
    && (forall i :: 0 <= i < |idx| ==> idx[i] < |b| && a[i] == b[idx[i]])
    && (forall i, j :: 0 <= i < j < |idx| ==> idx[i] < idx[j])
  }

  /** `a` is `b` with some elements dropped and the rest in their order. */
  ghost predicate SubList(a: seq<Place>, b: seq<Place>) {
    exists idx :: Embeds(a, b, idx)
  }

  /** Every position moved one to the right. */
  function Shift(idx: seq<nat>): (r: seq<nat>)
    ensures |r| == |idx| && forall i :: 0 <= i < |idx| ==> r[i] == idx[i] + 1
  {
    seq(|idx|, i requires 0 <= i < |idx| => idx[i] + 1)
  }

  /** An embedding into the tail of `b` is an embedding into `b`, one
      position further right. */
  lemma EmbedsShift(a: seq<Place>, b: seq<Place>, idx: seq<nat>)
    requires b != [] && Embeds(a, b[1..], idx)
    ensures Embeds(a, b, Shift(idx))
  {
    var shifted := Shift(idx);
    forall i | 0 <= i < |shifted| ensures shifted[i] < |b| && a[i] == b[shifted[i]] {
      assert a[i] == b[1..][idx[i]];
    }
  }

  /** The head of `b` can be put in front of an embedding that avoids
      position 0. */
  lemma EmbedsCons(a: seq<Place>, b: seq<Place>, idx: seq<nat>)
    requires b != [] && Embeds(a, b, idx)
    requires forall i :: 0 <= i < |idx| ==> idx[i] > 0
    ensures Embeds([b[0]] + a, b, [0] + idx)
  {
    var r, k := [b[0]] + a, [0] + idx;
    forall i | 0 <= i < |k| ensures k[i] < |b| && r[i] == b[k[i]] {
      if i > 0 {
        assert r[i] == a[i - 1] && k[i] == idx[i - 1];
      }
    }
    forall i, j | 0 <= i < j < |k| ensures k[i] < k[j] {
      assert k[j] == idx[j - 1];
      if i > 0 {
        assert k[i] == idx[i - 1];
      }
    }
  }

  /** Keeping some places keeps them in their order. */
  lemma {:induction false} KeepAllSubList(ps: seq<Place>, ts: seq<Test>) returns (idx: seq<nat>)
    ensures Embeds(KeepAll(ps, ts), ps, idx)
    decreases |ps|
  {
    if ps == [] {
      idx := [];
    } else {
      var rest := KeepAllSubList(ps[1..], ts);
      var tail := KeepAll(ps[1..], ts);
      EmbedsShift(tail, ps, rest);
      var shifted := Shift(rest);
      if PassesAll(ts, ps[0]) {
        EmbedsCons(tail, ps, shifted);
        idx := [0] + shifted;
        assert KeepAll(ps, ts) == [ps[0]] + tail;
      } else {
        idx := shifted;
        assert KeepAll(ps, ts) == [] + tail;
      }
    }
  }

  /** A place is kept exactly when it is one of the places and passes every test. */
  lemma {:induction false} KeepAllMembers(ps: seq<Place>, ts: seq<Test>, x: Place)
    ensures x in KeepAll(ps, ts) <==> x in ps && PassesAll(ts, x)
    decreases |ps|
  {
    if ps != [] {
      KeepAllMembers(ps[1..], ts, x);
      assert x in ps <==> x == ps[0] || x in ps[1..];
    }
  }

  /** The result is an order-preserving sub-list of the places, and a place
      is in it exactly when it passes every active stage. */
  lemma FilteredSubList(places: seq<Place>, s: Selection)
    ensures SubList(Filtered(places, s), places)
    ensures forall p :: p in Filtered(places, s) <==> p in places && Keeps(s, p)
  {
    FilteredIsOneFilter(places, s);
    var idx := KeepAllSubList(places, ActiveTests(s));
    forall p ensures p in KeepAll(places, ActiveTests(s)) <==> p in places && Keeps(s, p) {
      ActiveTestsMeaning(s, p);
      KeepAllMembers(places, ActiveTests(s), p);
    }
  }

  /** With a blank query and no selection, every place is shown. */
  lemma NothingSelectedShowsAll(places: seq<Place>, query: string)
    requires IsBlank(query)
    ensures Filtered(places, Selection(query, [], [], [])) == places
  {
  }

  /** A blank query skips the search, whatever it holds. */
  lemma BlankQuerySkipsSearch(places: seq<Place>, s: Selection)
    requires IsBlank(s.query)
    ensures Filtered(places, s) == Filtered(places, s.(query := ""))
  {
    assert Trim("") == "";
  }

  /** The query is not trimmed before matching: " мост" does not match the
      title "Мост" although "мост" does. */
  lemma UntrimmedQuery()
    ensures !MatchesSearch(Place(1, Some("Мост"), None, None, None, None), " мост")
    ensures MatchesSearch(Place(1, Some("Мост"), None, None, None, None), "мост")
  {
    var title := ToLower("Мост");
    assert title == "мост";
    assert ToLower("мост") == "мост";
    assert InfixAt(title, "мост", 0);
    assert |title| < |ToLower(" мост")|;
  }

  // ---------------------------------------------------------------------
  // Toggles, removal, clearing and the chips
  // ---------------------------------------------------------------------

  /** The list without `id`, as the toggles' `prev.filter(...)` keeps every other value. */
  function Without(prev: seq<string>, id: string): (r: seq<string>)
    ensures forall x :: x in r <==> x in prev && x != id
    ensures |r| <= |prev|
  {
    if prev == [] then []
    else (if prev[0] == id then [] else [prev[0]]) + Without(prev[1..], id)
  }

  /** `toggleCategory`, `toggleBudget` and `toggleTime`: `prev.includes(id) ? prev.filter(...) : [...prev, id]`. */
  function Toggle(prev: seq<string>, id: string): seq<string> {
    if id in prev then Without(prev, id) else prev + [id]
  }

  /** A toggle flips the membership of `id` and of nothing else; an absent
      id goes to the end. */
  lemma ToggleFlips(prev: seq<string>, id: string)
    ensures id in Toggle(prev, id) <==> id !in prev
    ensures forall x :: x != id ==> (x in Toggle(prev, id) <==> x in prev)
    ensures id !in prev ==> Toggle(prev, id) == prev + [id]
  {
  }

  /** Toggling an absent id twice restores the selection. */
  lemma {:induction false} ToggleTwice(prev: seq<string>, id: string)
    requires id !in prev
    ensures Toggle(Toggle(prev, id), id) == prev
  {
    WithoutAppendAbsent(prev, id);
  }

  lemma {:induction false} WithoutAppendAbsent(prev: seq<string>, id: string)
    requires id !in prev
    ensures Without(prev + [id], id) == prev
    decreases |prev|
  {
    if prev == [] {
      assert [id][1..] == [];
    } else {
      assert (prev + [id])[1..] == prev[1..] + [id];
      WithoutAppendAbsent(prev[1..], id);
    }
  }

  /** The kinds of chip. */
  datatype Kind = CategoryKind | BudgetKind | TimeKind

  /** `removeFilter(type, id)`; an unknown type changes nothing. */
  function RemoveFilter(s: Selection, kind: Option<Kind>, id: string): Selection {
    match kind
    case Some(CategoryKind) => s.(categories := Without(s.categories, id))
    case Some(BudgetKind) => s.(budgets := Without(s.budgets, id))
    case Some(TimeKind) => s.(times := Without(s.times, id))
    case None => s
  }

  /** Removal drops every copy of `id` from one selection and touches nothing else. */
  lemma RemoveFilterOnlyThatKind(s: Selection, kind: Kind, id: string)
    ensures var s' := RemoveFilter(s, Some(kind), id);
            && s'.query == s.query
            && (kind == CategoryKind ==> id !in s'.categories && s'.budgets == s.budgets && s'.times == s.times)
            && (kind == BudgetKind ==> id !in s'.budgets && s'.categories == s.categories && s'.times == s.times)
            && (kind == TimeKind ==> id !in s'.times && s'.categories == s.categories && s'.budgets == s.budgets)
  {
  }

  /** `clearAllFilters`. */
  function ClearAll(): Selection {
    Selection("", [], [], [])
  }

  /** After clearing, every place is shown and there is no chip. */
  lemma ClearAllShowsAll(places: seq<Place>)
    ensures Filtered(places, ClearAll()) == places
    ensures ActiveFilters(ClearAll()) == []
    ensures !HasActiveFilters(ClearAll())
  {
    NothingSelectedShowsAll(places, "");
  }

  /** A chip: its kind, the selected id and the label found for it. */
  datatype Chip = Chip(kind: Kind, id: string, caption: Option<string>)

  /** The option lists: id and label. */
  const CATEGORY_OPTIONS: seq<(string, string)> := [
    ("Музеи", "Музеи"), ("Парки", "Парки"), ("Памятники", "Памятники"), ("Архитектура", "Архитектура"),
    ("Галереи", "Галереи"), ("Мосты", "Мосты"), ("Тематическое Кафе", "Тематическое Кафе")]
  const BUDGET_OPTIONS: seq<(string, string)> := [
    ("бесплатно", "Бесплатно"), ("бюджетно", "Бюджетно"), ("средний", "Средний"), ("премиум", "Премиум")]
  const TIME_OPTIONS: seq<(string, string)> := [
    ("30", "До 30 мин"), ("60", "До 1 часа"), ("120", "До 2 часов"), ("180", "До 3 часов")]

  /** One chip per selected id, in selection order, labelled with
      `options.find(o => o.id === id)?.label`. */
  function Chips(kind: Kind, options: seq<(string, string)>, ids: seq<string>): (r: seq<Chip>)
    ensures |r| == |ids|
    ensures forall i :: 0 <= i < |ids| ==> r[i] == Chip(kind, ids[i], TableLookup(options, ids[i]))
  {
    seq(|ids|, i requires 0 <= i < |ids| => Chip(kind, ids[i], TableLookup(options, ids[i])))
  }

  /** `activeFilters`: the category chips, then the budget chips, then the time chips. */
  function ActiveFilters(s: Selection): seq<Chip> {
    Chips(CategoryKind, CATEGORY_OPTIONS, s.categories)
    + Chips(BudgetKind, BUDGET_OPTIONS, s.budgets)
    + Chips(TimeKind, TIME_OPTIONS, s.times)
  }

  /** One chip per selected id, in selection order, categories first, then
      budgets, then times. */
  lemma ActiveFiltersOrder(s: Selection)
    ensures var r := ActiveFilters(s);
            var nc, nb := |s.categories|, |s.budgets|;
            && |r| == nc + nb + |s.times|
            && (forall i :: 0 <= i < nc ==> r[i].kind == CategoryKind && r[i].id == s.categories[i])
            && (forall i :: 0 <= i < nb ==> r[nc + i].kind == BudgetKind && r[nc + i].id == s.budgets[i])
            && (forall i :: 0 <= i < |s.times| ==> r[nc + nb + i].kind == TimeKind && r[nc + nb + i].id == s.times[i])
  {
    ChipsInOrder(CATEGORY_OPTIONS, BUDGET_OPTIONS, TIME_OPTIONS, s);
  }

  /** The same, for any option lists. */
  lemma ChipsInOrder(co: seq<(string, string)>, bo: seq<(string, string)>, to: seq<(string, string)>, s: Selection)
    ensures var r := Chips(CategoryKind, co, s.categories) + Chips(BudgetKind, bo, s.budgets) + Chips(TimeKind, to, s.times);
            var nc, nb := |s.categories|, |s.budgets|;
            && |r| == nc + nb + |s.times|
            && (forall i :: 0 <= i < nc ==> r[i].kind == CategoryKind && r[i].id == s.categories[i])
            && (forall i :: 0 <= i < nb ==> r[nc + i].kind == BudgetKind && r[nc + i].id == s.budgets[i])
            && (forall i :: 0 <= i < |s.times| ==> r[nc + nb + i].kind == TimeKind && r[nc + nb + i].id == s.times[i])
  {
    ChipKindsAndIds(CategoryKind, co, s.categories);
    ChipKindsAndIds(BudgetKind, bo, s.budgets);
    ChipKindsAndIds(TimeKind, to, s.times);
    ConcatThree(Chips(CategoryKind, co, s.categories), Chips(BudgetKind, bo, s.budgets), Chips(TimeKind, to, s.times));
  }

  lemma ChipKindsAndIds(kind: Kind, options: seq<(string, string)>, ids: seq<string>)
    ensures var r := Chips(kind, options, ids);
            |r| == |ids| && forall i :: 0 <= i < |ids| ==> r[i].kind == kind && r[i].id == ids[i]
  {
  }

  lemma ConcatThree(a: seq<Chip>, b: seq<Chip>, c: seq<Chip>)
    ensures |a + b + c| == |a| + |b| + |c|
    ensures forall i :: 0 <= i < |a| ==> (a + b + c)[i] == a[i]
    ensures forall i :: 0 <= i < |b| ==> (a + b + c)[|a| + i] == b[i]
    ensures forall i :: 0 <= i < |c| ==> (a + b + c)[|a| + |b| + i] == c[i]
  {
  }

  /** `activeFilters.length > 0 || searchQuery`. */
  predicate HasActiveFilters(s: Selection) {
    |ActiveFilters(s)| > 0 || s.query != ""
  }
}
