/**
  * `GET /places`: the SELECT statement and its parameters, built from the
  * optional `category`, `budget`, `time` and `search` query-string values.
  * Each present (truthy) filter adds one `AND` clause, in that fixed order,
  * numbered by a running placeholder counter.
  */
module Places {
  import opened Common
  import opened Sql

  const SELECT_ALL: string := "SELECT * FROM places WHERE 1=1"
  const ORDER_BY: string := " ORDER BY title ASC"
  const CATEGORY_EQ: string := " AND category = "
  const BUDGET_EQ: string := " AND budget = "
  const TIME_AT_MOST: string := " AND estimated_time <= "
  const TITLE_LIKE: string := " AND (title ILIKE "
  const DESCRIPTION_LIKE: string := " OR description ILIKE "
  const CLOSE: string := ")"

  /** The query-string filters. */
  datatype PlaceFilters = PlaceFilters(category: Option<string>, budget: Option<string>, time: Option<string>, search: Option<string>)

  /** The kinds of clause, in the order they are appended. */
  datatype Filter = Category | Budget | Time | Search

  function Rank(k: Filter): nat {
    match k
    case Category => 0
    case Budget => 1
    case Time => 2
    case Search => 3
  }

  /** `[k]` when the value is truthy. */
  function Part(o: Option<string>, k: Filter): seq<Filter> {
    if Truthy(o) then [k] else []
  }

  lemma Extend(kinds: seq<Filter>, o: Option<string>, k: Filter)
    ensures kinds + Part(o, k) == if Truthy(o) then kinds + [k] else kinds
  {
    if !Truthy(o) {
      assert kinds + [] == kinds;
    }
  }

  /** The filters present, in the order their clauses are appended. */
  function Present(f: PlaceFilters): seq<Filter> {
    Part(f.category, Category) + Part(f.budget, Budget) + Part(f.time, Time) + Part(f.search, Search)
  }

  /** A filter has a clause exactly when its value is truthy, at most once,
      and the clauses follow the fixed order category, budget, time, search. */
  lemma PresentFilters(f: PlaceFilters)
    ensures var r := Present(f);
            && |r| <= 4
            && (forall i, j :: 0 <= i < j < |r| ==> Rank(r[i]) < Rank(r[j]))
            && (Category in r <==> Truthy(f.category))
            && (Budget in r <==> Truthy(f.budget))
            && (Time in r <==> Truthy(f.time))
            && (Search in r <==> Truthy(f.search))
  {
    var a, b, c, d := Part(f.category, Category), Part(f.budget, Budget), Part(f.time, Time), Part(f.search, Search);
    PartsMembers(a, b, c, d);
    PartsRanked(a, b, c, d);
  }

  lemma PartsMembers(a: seq<Filter>, b: seq<Filter>, c: seq<Filter>, d: seq<Filter>)
    ensures forall x :: x in a + b + c + d <==> x in a || x in b || x in c || x in d
  {
  }

  lemma PartsRanked(a: seq<Filter>, b: seq<Filter>, c: seq<Filter>, d: seq<Filter>)
    requires a == [] || a == [Category]
    requires b == [] || b == [Budget]
    requires c == [] || c == [Time]
    requires d == [] || d == [Search]
    ensures |a + b + c + d| <= 4
    ensures forall i, j :: 0 <= i < j < |a + b + c + d| ==> Rank((a + b + c + d)[i]) < Rank((a + b + c + d)[j])
  {
    forall i, j | 0 <= i < j < |a + b + c + d| ensures Rank((a + b + c + d)[i]) < Rank((a + b + c + d)[j]) {
      PartRank(a, b, c, d, i, j);
    }
  }

  lemma PartRank(a: seq<Filter>, b: seq<Filter>, c: seq<Filter>, d: seq<Filter>, i: nat, j: nat)
    requires a == [] || a == [Category]
    requires b == [] || b == [Budget]
    requires c == [] || c == [Time]
    requires d == [] || d == [Search]
    requires i < j < |a + b + c + d|
    ensures Rank((a + b + c + d)[i]) < Rank((a + b + c + d)[j])
  {
  }

  /** The clause for one filter, using placeholder `$n`. */
  function Clause(k: Filter, n: nat): Query {
    match k
    case Category => [Text(CATEGORY_EQ), Param(n)]
    case Budget => [Text(BUDGET_EQ), Param(n)]
    case Time => [Text(TIME_AT_MOST), Param(n)]
    case Search => [Text(TITLE_LIKE), Param(n), Text(DESCRIPTION_LIKE), Param(n), Text(CLOSE)]
  }

  /** The clauses for `kinds`, the i-th using placeholder `$(from + i)`. */
  function Clauses(kinds: seq<Filter>, from: nat): Query
    decreases |kinds|
  {
    if kinds == [] then []
    else Clauses(kinds[..|kinds| - 1], from) + Clause(kinds[|kinds| - 1], from + |kinds| - 1)
  }

  /** The text of an optional query-string value, empty when absent. */
  function Given(o: Option<string>): string {
    if o.Some? then o.value else ""
  }

  /** The query-string text of filter `k`. */
  function Field(f: PlaceFilters, k: Filter): string {
    match k
    case Category => Given(f.category)
    case Budget => Given(f.budget)
    case Time => Given(f.time)
    case Search => Given(f.search)
  }

  /** The parameter bound for filter `k` with query-string value `v`: the
      value itself, `parseInt(v)`, or `%v%`. */
  function Bound(k: Filter, v: string): Value {
    match k
    case Category => Str(v)
    case Budget => Str(v)
    case Time => (match ParseInt(v) case None => NaN case Some(i) => Num(i))
    case Search => Str("%" + v + "%")
  }

  /** The parameters for the filters `kinds`, in order. */
  function Params(f: PlaceFilters, kinds: seq<Filter>): (r: seq<Value>)
    ensures |r| == |kinds|
    decreases |kinds|
  {
    if kinds == [] then []
    else
      var k := kinds[|kinds| - 1];
      Params(f, kinds[..|kinds| - 1]) + [Bound(k, Field(f, k))]
  }

  lemma ClausesSnoc(kinds: seq<Filter>, k: Filter, from: nat)
    ensures Clauses(kinds + [k], from) == Clauses(kinds, from) + Clause(k, from + |kinds|)
  {
    assert (kinds + [k])[..|kinds|] == kinds;
  }

  lemma ParamsSnoc(f: PlaceFilters, kinds: seq<Filter>, k: Filter)
    ensures Params(f, kinds + [k]) == Params(f, kinds) + [Bound(k, Field(f, k))]
  {
    assert (kinds + [k])[..|kinds|] == kinds;
  }

  /** The route's query builder. */
  method BuildPlacesQuery(f: PlaceFilters) returns (query: Query, params: seq<Value>)
    ensures query == [Text(SELECT_ALL)] + Clauses(Present(f), 1) + [Text(ORDER_BY)]
    ensures params == Params(f, Present(f))
  {
    query := [Text(SELECT_ALL)];
    params := [];
    var paramCount: nat := 1;
    ghost var kinds: seq<Filter> := [];

    if Truthy(f.category) {
      var clause := [Text(CATEGORY_EQ), Param(paramCount)];
      var value := Str(f.category.value);
      AddClause(f, kinds, query, params, paramCount, Category, clause, value);
      query, params, paramCount := query + clause, params + [value], paramCount + 1;
    }
    kinds := Part(f.category, Category);
    if Truthy(f.budget) {
      var clause := [Text(BUDGET_EQ), Param(paramCount)];
      var value := Str(f.budget.value);
      AddClause(f, kinds, query, params, paramCount, Budget, clause, value);
      query, params, paramCount := query + clause, params + [value], paramCount + 1;
    }
    Extend(kinds, f.budget, Budget);
    kinds := kinds + Part(f.budget, Budget);
    if Truthy(f.time) {
      var clause := [Text(TIME_AT_MOST), Param(paramCount)];
      var minutes := ParseInt(f.time.value);
      var value := if minutes.None? then NaN else Num(minutes.value);
      AddClause(f, kinds, query, params, paramCount, Time, clause, value);
      query, params, paramCount := query + clause, params + [value], paramCount + 1;
    }
    Extend(kinds, f.time, Time);
    kinds := kinds + Part(f.time, Time);
    if Truthy(f.search) {
      var clause := [Text(TITLE_LIKE), Param(paramCount), Text(DESCRIPTION_LIKE), Param(paramCount), Text(CLOSE)];
      var value := Str("%" + f.search.value + "%");
      AddClause(f, kinds, query, params, paramCount, Search, clause, value);
      query, params := query + clause, params + [value];
    }
    Extend(kinds, f.search, Search);
    kinds := kinds + Part(f.search, Search);
    assert query == [Text(SELECT_ALL)] + Clauses(kinds, 1) && params == Params(f, kinds);
    assert kinds == Present(f);
    query := query + [Text(ORDER_BY)];
  }

  /** The statement and parameters are those of the filters `kinds` handled
      so far, and the counter names the next placeholder. */
  ghost predicate InStep(f: PlaceFilters, kinds: seq<Filter>, query: Query, params: seq<Value>, paramCount: nat) {
    && query == [Text(SELECT_ALL)] + Clauses(kinds, 1)
    && params == Params(f, kinds)
    && paramCount == |kinds| + 1
  }

  /** One step of the builder: appending filter `k`'s clause and value keeps
      the statement and the parameters in step with the filters handled. */
  lemma AddClause(f: PlaceFilters, kinds: seq<Filter>, query: Query, params: seq<Value>, paramCount: nat,
                  k: Filter, clause: Query, value: Value)
    requires InStep(f, kinds, query, params, paramCount)
    requires clause == Clause(k, paramCount) && value == Bound(k, Field(f, k))
    ensures query + clause == [Text(SELECT_ALL)] + Clauses(kinds + [k], 1)
    ensures params + [value] == Params(f, kinds + [k])
    ensures paramCount + 1 == |kinds + [k]| + 1
  {
    ClausesSnoc(kinds, k, 1);
    ParamsSnoc(f, kinds, k);
  }

  // ---------------------------------------------------------------------
  // Properties of the statement
  // ---------------------------------------------------------------------

  /** With no filter the statement is the plain ordered SELECT with no
      parameters. */
  lemma NoFilters(f: PlaceFilters)
    requires !Truthy(f.category) && !Truthy(f.budget) && !Truthy(f.time) && !Truthy(f.search)
    ensures Render([Text(SELECT_ALL)] + Clauses(Present(f), 1) + [Text(ORDER_BY)]) == SELECT_ALL + ORDER_BY
    ensures Present(f) == []
  {
    assert Present(f) == [];
    var q := [Text(SELECT_ALL), Text(ORDER_BY)];
    assert [Text(SELECT_ALL)] + Clauses([], 1) + [Text(ORDER_BY)] == q;
    assert q[1..] == [Text(ORDER_BY)];
    assert q[1..][1..] == [];
    assert Render([Text(ORDER_BY)]) == ORDER_BY;
    assert Render(q) == SELECT_ALL + ORDER_BY;
  }

  /** The placeholders of one clause: `$n` once, or twice for the search,
      which matches title and description against the same parameter. */
  lemma ClausePlaceholders(k: Filter, n: nat)
    ensures Placeholders(Clause(k, n)) == if k == Search then [n, n] else [n]
  {
    var c := Clause(k, n);
    if k == Search {
      var t1 := Text(DESCRIPTION_LIKE);
      var t2 := Text(CLOSE);
      assert c[1..] == [Param(n), t1, Param(n), t2];
      assert c[1..][1..] == [t1, Param(n), t2];
      assert c[1..][1..][1..] == [Param(n), t2];
      assert c[1..][1..][1..][1..] == [t2];
      assert c[1..][1..][1..][1..][1..] == [];
      assert Placeholders([t2]) == [];
      assert Placeholders([Param(n), t2]) == [n];
      assert Placeholders([t1, Param(n), t2]) == [n];
      assert Placeholders([Param(n), t1, Param(n), t2]) == [n, n];
    } else {
      assert c[1..] == [Param(n)];
      assert c[1..][1..] == [];
      assert Placeholders([Param(n)]) == [n];
    }
  }

  lemma ClauseUsesOnePlaceholder(k: Filter, n: nat)
    ensures forall x :: x in Placeholders(Clause(k, n)) <==> x == n
  {
    ClausePlaceholders(k, n);
  }

  /** The placeholder numbers used are exactly `$from` .. `$(from + |kinds| - 1)`,
      one per filter. */
  lemma {:induction false} ClausesPlaceholderSet(kinds: seq<Filter>, from: nat)
    ensures forall n :: n in Placeholders(Clauses(kinds, from)) <==> from <= n < from + |kinds|
    decreases |kinds|
  {
    if kinds != [] {
      var m := |kinds|;
      var init, c := Clauses(kinds[..m - 1], from), Clause(kinds[m - 1], from + m - 1);
      assert Clauses(kinds, from) == init + c;
      PlaceholdersAppend(init, c);
      ClausesPlaceholderSet(kinds[..m - 1], from);
      ClauseUsesOnePlaceholder(kinds[m - 1], from + m - 1);
      var p1, p2 := Placeholders(init), Placeholders(c);
      forall n ensures n in p1 + p2 <==> from <= n < from + m {
        assert n in p1 + p2 <==> n in p1 || n in p2;
      }
      assert Placeholders(Clauses(kinds, from)) == p1 + p2;
    } else {
      assert Placeholders(Clauses(kinds, from)) == [];
    }
  }

  predicate Ascending(p: seq<nat>) {
    forall i, j :: 0 <= i <= j < |p| ==> p[i] <= p[j]
  }

  /** ... and they appear in non-decreasing order. */
  lemma {:induction false} ClausesPlaceholdersSorted(kinds: seq<Filter>, from: nat)
    ensures Ascending(Placeholders(Clauses(kinds, from)))
    decreases |kinds|
  {
    if kinds != [] {
      var m := |kinds|;
      var init := Clauses(kinds[..m - 1], from);
      var c := Clause(kinds[m - 1], from + m - 1);
      var last := from + m - 1;
      assert Clauses(kinds, from) == init + c;
      PlaceholdersAppend(init, c);
      assert Placeholders(Clauses(kinds, from)) == Placeholders(init) + Placeholders(c);
      ClausesPlaceholdersSorted(kinds[..m - 1], from);
      assert forall x :: x in Placeholders(init) ==> x < last by {
        ClausesPlaceholderSet(kinds[..m - 1], from);
      }
      assert forall x :: x in Placeholders(c) ==> x == last by {
        ClausePlaceholders(kinds[m - 1], last);
      }
      AscendingThenLast(Placeholders(init), Placeholders(c), last);
    }
  }

  lemma AscendingThenLast(p1: seq<nat>, p2: seq<nat>, last: nat)
    requires Ascending(p1)
    requires forall x :: x in p1 ==> x < last
    requires forall x :: x in p2 ==> x == last
    ensures Ascending(p1 + p2)
  {
    var p := p1 + p2;
    forall i, j | 0 <= i <= j < |p| ensures p[i] <= p[j] {
      if j < |p1| {
        assert p[i] == p1[i] && p[j] == p1[j];
        assert p1[i] <= p1[j];
      } else if i < |p1| {
        assert p1[i] in p1;
        assert p[j] == p2[j - |p1|];
        assert p2[j - |p1|] in p2;
      } else {
        assert p[i] == p2[i - |p1|] && p[j] == p2[j - |p1|];
        assert p2[i - |p1|] in p2 && p2[j - |p1|] in p2;
      }
    }
  }

  lemma PlaceholdersOfText(s: string)
    ensures Placeholders([Text(s)]) == []
  {
    PlaceholdersSingle(Text(s));
  }

  /** The statement's placeholders are exactly $1..$k for k parameters, in
      non-decreasing order, so `$i` is bound to the i-th parameter. */
  lemma StatementPlaceholders(f: PlaceFilters)
    ensures var p := Placeholders([Text(SELECT_ALL)] + Clauses(Present(f), 1) + [Text(ORDER_BY)]);
            && Ascending(p)
            && (forall n :: n in p <==> 1 <= n <= |Present(f)|)
  {
    var c := Clauses(Present(f), 1);
    PlaceholdersAppend([Text(SELECT_ALL)], c);
    PlaceholdersAppend([Text(SELECT_ALL)] + c, [Text(ORDER_BY)]);
    PlaceholdersOfText(SELECT_ALL);
    PlaceholdersOfText(ORDER_BY);
    ClausesPlaceholderSet(Present(f), 1);
    ClausesPlaceholdersSorted(Present(f), 1);
    assert [Text(SELECT_ALL)] + c + [Text(ORDER_BY)] == ([Text(SELECT_ALL)] + c) + [Text(ORDER_BY)];
  }

  /** When a search is given its clause comes last, its placeholder is used
      twice and it is bound to the last parameter, `%search%`. */
  lemma SearchClauseLast(f: PlaceFilters)
    requires Truthy(f.search)
    ensures var kinds := Present(f);
            var k := |kinds|;
            && k >= 1 && kinds[k - 1] == Search
            && Clauses(kinds, 1) == Clauses(kinds[..k - 1], 1) + Clause(Search, k)
            && Placeholders(Clause(Search, k)) == [k, k]
            && Params(f, kinds)[k - 1] == Str("%" + f.search.value + "%")
  {
    var kinds := Present(f);
    var k := |kinds|;
    PresentFilters(f);
    assert kinds[k - 1] == Search;
    assert kinds == kinds[..k - 1] + [Search];
    ClausesSnoc(kinds[..k - 1], Search, 1);
    ClausePlaceholders(Search, k);
  }

  /** The i-th parameter is the value of the i-th present filter. */
  lemma {:induction false} ParamsAt(f: PlaceFilters, kinds: seq<Filter>)
    ensures forall i :: 0 <= i < |kinds| ==> Params(f, kinds)[i] == Bound(kinds[i], Field(f, kinds[i]))
    decreases |kinds|
  {
    if kinds != [] {
      var m := |kinds|;
      var init := kinds[..m - 1];
      ParamsAt(f, init);
      assert kinds == init + [kinds[m - 1]];
      ParamsSnoc(f, init, kinds[m - 1]);
      var p := Params(f, kinds);
      forall i | 0 <= i < m ensures p[i] == Bound(kinds[i], Field(f, kinds[i])) {
        if i < m - 1 {
          assert kinds[i] == init[i];
        }
      }
    }
  }

  /** The `time` filter is bound to `parseInt(time)`: NaN when the text
      starts with something other than a blank, a sign or a digit ... */
  lemma TimeWithoutDigits(v: string)
    requires v != [] && !IsWhitespace(v[0]) && !IsDigit(v[0]) && v[0] != '-' && v[0] != '+'
    ensures Bound(Time, v) == NaN
  {
    ParseIntOfNonNumber(v);
  }

  /** ... and its leading integer otherwise, ignoring what follows, so
      "90 min" is bound to 90. */
  lemma TimeLeadingInteger(n: nat, rest: string)
    requires rest == [] || !IsDigit(rest[0])
    ensures Bound(Time, NatToString(n) + rest) == Num(n)
  {
    var d := NatToString(n);
    ParseIntOfDigitsThen(d, rest);
    NatToStringValue(n);
    assert ParseInt(d + rest) == Some(n);
  }
}
