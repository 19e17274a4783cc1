/**
  * Parameterised SQL text as the route handlers build it: literal text and
  * numbered placeholders `$n`, and the values bound to them.
  */
module Sql {
  import opened Common

  /** A piece of query text: literal SQL, or the placeholder `$n`. */
  datatype Piece = Text(sql: string) | Param(n: nat)

  type Query = seq<Piece>

  /** A bound parameter value. `NaN` is what `parseInt` yields for text with no digits. */
  datatype Value = Str(s: string) | Num(i: int) | NaN

  /** The query text sent to the database. */
  function Render(q: Query): string {
    if q == [] then ""
    else
      var head := match q[0] case Text(t) => t case Param(n) => "$" + NatToString(n);
      head + Render(q[1..])
  }

  /** The placeholder numbers in order of appearance. */
  function Placeholders(q: Query): seq<nat> {
    if q == [] then []
    else (match q[0] case Text(_) => [] case Param(n) => [n]) + Placeholders(q[1..])
  }

  lemma {:induction false} PlaceholdersAppend(a: Query, b: Query)
    ensures Placeholders(a + b) == Placeholders(a) + Placeholders(b)
  {
    if a != [] {
      assert (a + b)[1..] == a[1..] + b;
      PlaceholdersAppend(a[1..], b);
    } else {
      assert a + b == b;
    }
  }

  lemma {:induction false} RenderAppend(a: Query, b: Query)
    ensures Render(a + b) == Render(a) + Render(b)
  {
    if a != [] {
      assert (a + b)[1..] == a[1..] + b;
      RenderAppend(a[1..], b);
    } else {
      assert a + b == b;
    }
  }

  lemma PlaceholdersSingle(p: Piece)
    ensures Placeholders([p]) == match p case Text(_) => [] case Param(n) => [n]
  {
    assert [p][1..] == [];
  }

  /** The numbers 1, 2, ..., k. */
  function OneTo(k: nat): (r: seq<nat>)
    ensures |r| == k && forall i :: 0 <= i < k ==> r[i] == i + 1
  {
    if k == 0 then [] else OneTo(k - 1) + [k]
  }

  /** `parts.join(', ')` over query fragments. */
  function Join(parts: seq<Query>): Query {
    if |parts| == 0 then []
    else if |parts| == 1 then parts[0]
    else Join(parts[..|parts| - 1]) + [Text(", ")] + parts[|parts| - 1]
  }

  lemma JoinOne(a: Query)
    ensures Join([a]) == a
  {
  }

  lemma JoinTwo(a: Query, b: Query)
    ensures Join([a, b]) == a + [Text(", ")] + b
  {
    assert [a, b][..1] == [a];
  }

  /** The assignment `column = $n`. */
  function Assignment(column: string, n: nat): (q: Query)
    ensures Placeholders(q) == [n]
  {
    PlaceholdersSingle(Text(column + " = "));
    PlaceholdersSingle(Param(n));
    PlaceholdersAppend([Text(column + " = ")], [Param(n)]);
    [Text(column + " = ")] + [Param(n)]
  }

  /** The query sets `column` from placeholder `$n`. */
  predicate Assigns(q: Query, column: string, n: nat) {
    exists i :: 0 <= i < |q| - 1 && q[i] == Text(column + " = ") && q[i + 1] == Param(n)
  }
}
