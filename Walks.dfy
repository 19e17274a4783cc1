/**
  * The walk routes over two tables: `walks` (owner, title, favourite flag)
  * and `walk_places` (one row per place in a walk, with its position
  * `order_index` and a `visited` flag), plus the set of known place ids.
  * The database is an abstract table held in a class; each handler is a
  * method, specified by a function of the tables before it.
  */
module Walks {
  import opened Common

  /** A row of `walks`. */
  datatype Walk = Walk(userId: nat, title: string, isFavorite: bool)

  /** A row of `walk_places`. */
  datatype WalkPlace = WalkPlace(walkId: nat, placeId: nat, orderIndex: int, visited: bool)

  /** What a handler answers. */
  datatype WalkReply =
    | BadRequest                         // 400
    | NotFound                           // 404
    | Created(row: WalkPlace)            // 201, the inserted row
    | Inserted(rows: seq<WalkPlace>)     // 201, `Добавлено <n> мест` with the rows
    | Updated(row: WalkPlace)            // the first updated row
    | Renamed(walk: Walk)                // the updated walk
    | Done                               // `{ success: true }`

  /** A JSON body field that must be an array: absent, some other value, or an array. */
  datatype IdList = Absent | NotAList | List(ids: seq<nat>)

  /** An element of the reorder body; a missing field reads as 0, which is falsy. */
  datatype OrderEntry = OrderEntry(placeId: nat, orderIndex: int)

  /** `WHERE id = walkId AND user_id = userId` finds a row. */
  predicate Owns(walks: map<nat, Walk>, walkId: nat, userId: nat) {
    walkId in walks && walks[walkId].userId == userId
  }

  /** The places already in walk `w`. */
  function PlacesIn(rows: seq<WalkPlace>, w: nat): set<nat> {
    set r | r in rows && r.walkId == w :: r.placeId
  }

  lemma PlacesInSnoc(rows: seq<WalkPlace>, row: WalkPlace, w: nat)
    ensures PlacesIn(rows + [row], w) == if row.walkId == w then PlacesIn(rows, w) + {row.placeId} else PlacesIn(rows, w)
  {
    assert forall r :: r in rows + [row] <==> r in rows || r == row;
  }

  /** `MAX(order_index)` over the walk's rows, or `None` (SQL NULL) when it has none. */
  function MaxOrder(rows: seq<WalkPlace>, w: nat): (m: Option<int>)
    ensures m.None? <==> w !in (set r | r in rows :: r.walkId)
    ensures m.Some? ==> exists r :: r in rows && r.walkId == w && r.orderIndex == m.value
    ensures m.Some? ==> forall r :: r in rows && r.walkId == w ==> r.orderIndex <= m.value
  {
    if rows == [] then None
    else
      var init := MaxOrder(rows[..|rows| - 1], w);
      var last := rows[|rows| - 1];
      assert rows == rows[..|rows| - 1] + [last];
      if last.walkId != w then init
      else match init
        case None => Some(last.orderIndex)
        case Some(m) => Some(if last.orderIndex > m then last.orderIndex else m)
  }

  /** `(max_order || 0) + 1`. */
  function NextOrder(rows: seq<WalkPlace>, w: nat): int {
    match MaxOrder(rows, w)
    case None => 1
    case Some(m) => m + 1
  }

  /** `n` is past every position in walk `w`. */
  predicate AbovePositions(rows: seq<WalkPlace>, w: nat, n: int) {
    forall r :: r in rows && r.walkId == w ==> r.orderIndex < n
  }

  /** The next position is past every position in the walk, and 1 for an empty walk. */
  lemma NextOrderAbove(rows: seq<WalkPlace>, w: nat)
    ensures forall r :: r in rows && r.walkId == w ==> r.orderIndex < NextOrder(rows, w)
    ensures (forall r :: r in rows ==> r.walkId != w) ==> NextOrder(rows, w) == 1
  {
  }

  // ---------------------------------------------------------------------
  // POST /:walkId/places
  // ---------------------------------------------------------------------

  /** Adding one place, as a function of the tables before it. */
  function AddPlaceSpec(walks: map<nat, Walk>, rows: seq<WalkPlace>, places: set<nat>, walkId: nat, userId: nat, placeId: nat)
    : (WalkReply, seq<WalkPlace>)
  {
    if placeId == 0 then (BadRequest, rows)
    else if !Owns(walks, walkId, userId) then (NotFound, rows)
    else if placeId !in places then (NotFound, rows)
    else if placeId in PlacesIn(rows, walkId) then (BadRequest, rows)
    else
      var row := WalkPlace(walkId, placeId, NextOrder(rows, walkId), false);
      (Created(row), rows + [row])
  }

  /** A missing id, an unknown walk or place, and a place already in the
      walk are refused with the table unchanged; otherwise exactly one row
      is appended, one past the walk's highest position. */
  lemma AddPlaceOutcome(walks: map<nat, Walk>, rows: seq<WalkPlace>, places: set<nat>, walkId: nat, userId: nat, placeId: nat)
    ensures var (reply, rows') := AddPlaceSpec(walks, rows, places, walkId, userId, placeId);
            && (placeId == 0 ==> reply == BadRequest)
            && (placeId != 0 && Owns(walks, walkId, userId) && placeId in places && placeId in PlacesIn(rows, walkId) ==> reply == BadRequest)
            && (!reply.Created? ==> rows' == rows)
            && (reply.Created? <==> placeId != 0 && Owns(walks, walkId, userId) && placeId in places && placeId !in PlacesIn(rows, walkId))
            && (reply.Created? ==>
                  && rows' == rows + [reply.row] && reply.row.placeId == placeId && !reply.row.visited
                  && (forall r :: r in rows && r.walkId == walkId ==> r.orderIndex < reply.row.orderIndex))
            && (reply.Created? && placeId in PlacesIn(rows', walkId) && (forall r :: r in rows ==> r.walkId != walkId) ==> reply.row.orderIndex == 1)
  {
    NextOrderAbove(rows, walkId);
  }

  // ---------------------------------------------------------------------
  // POST /:walkId/places/batch
  // ---------------------------------------------------------------------

  /** The rows the batch loop inserts, from position `next` on: unknown
      places and places already in the walk (including earlier ids of the
      same batch) are skipped without using up a position. */
  function BatchRows(rows: seq<WalkPlace>, places: set<nat>, w: nat, ids: seq<nat>, next: int): seq<WalkPlace>
    decreases |ids|
  {
    if ids == [] then []
    else if ids[0] !in places || ids[0] in PlacesIn(rows, w) then BatchRows(rows, places, w, ids[1..], next)
    else
      var row := WalkPlace(w, ids[0], next, false);
      [row] + BatchRows(rows + [row], places, w, ids[1..], next + 1)
  }

  /** The batch handler, as a function of the tables before it. */
  function BatchSpec(walks: map<nat, Walk>, rows: seq<WalkPlace>, places: set<nat>, walkId: nat, userId: nat, body: IdList)
    : (WalkReply, seq<WalkPlace>)
  {
    if !body.List? || body.ids == [] then (BadRequest, rows)
    else if !Owns(walks, walkId, userId) then (NotFound, rows)
    else
      var added := BatchRows(rows, places, walkId, body.ids, NextOrder(rows, walkId));
      (Inserted(added), rows + added)
  }

  /** The inserted rows take consecutive positions from `next`, belong to
      walk `w` and start unvisited. */
  lemma {:induction false} BatchRowsPositions(rows: seq<WalkPlace>, places: set<nat>, w: nat, ids: seq<nat>, next: int)
    ensures var r := BatchRows(rows, places, w, ids, next);
            && |r| <= |ids|
            && forall k :: 0 <= k < |r| ==> r[k] == WalkPlace(w, r[k].placeId, next + k, false)
    decreases |ids|
  {
    if ids != [] {
      var id := ids[0];
      if id !in places || id in PlacesIn(rows, w) {
        BatchRowsPositions(rows, places, w, ids[1..], next);
      } else {
        var row := WalkPlace(w, id, next, false);
        BatchRowsPositions(rows + [row], places, w, ids[1..], next + 1);
        var tail := BatchRows(rows + [row], places, w, ids[1..], next + 1);
        var r := [row] + tail;
        forall k | 0 <= k < |r| ensures r[k] == WalkPlace(w, r[k].placeId, next + k, false) {
          if k > 0 {
            assert r[k] == tail[k - 1];
          }
        }
      }
    }
  }

  /** Every row names a known place listed in `ids` that is not in walk `w` of `rows`. */
  predicate NewPlaces(r: seq<WalkPlace>, rows: seq<WalkPlace>, places: set<nat>, w: nat, ids: seq<nat>) {
    forall k :: 0 <= k < |r| ==> r[k].placeId in places && r[k].placeId in ids && r[k].placeId !in PlacesIn(rows, w)
  }

  /** No place appears in two rows. */
  predicate DistinctPlaces(r: seq<WalkPlace>) {
    forall k, l :: 0 <= k < l < |r| ==> r[k].placeId != r[l].placeId
  }

  /** The inserted rows name known places from the batch that were not yet
      in the walk, each at most once. */
  lemma {:induction false} BatchRowsNew(rows: seq<WalkPlace>, places: set<nat>, w: nat, ids: seq<nat>, next: int)
    ensures NewPlaces(BatchRows(rows, places, w, ids, next), rows, places, w, ids)
    ensures DistinctPlaces(BatchRows(rows, places, w, ids, next))
    decreases |ids|
  {
    if ids != [] {
      var id := ids[0];
      assert forall x :: x in ids[1..] ==> x in ids;
      if id !in places || id in PlacesIn(rows, w) {
        BatchRowsNew(rows, places, w, ids[1..], next);
      } else {
        var row := WalkPlace(w, id, next, false);
        BatchRowsNew(rows + [row], places, w, ids[1..], next + 1);
        var tail := BatchRows(rows + [row], places, w, ids[1..], next + 1);
        var r := [row] + tail;
        PlacesInSnoc(rows, row, w);
        assert id in PlacesIn(rows + [row], w);
        assert NewPlaces(tail, rows + [row], places, w, ids[1..]);
        forall k | 0 <= k < |r|
          ensures r[k].placeId in places && r[k].placeId in ids && r[k].placeId !in PlacesIn(rows, w)
        {
          if k > 0 {
            assert r[k] == tail[k - 1];
          }
        }
        assert DistinctPlaces(tail);
        forall k, l | 0 <= k < l < |r| ensures r[k].placeId != r[l].placeId {
          if k > 0 {
            assert r[k] == tail[k - 1];
          }
          assert r[l] == tail[l - 1];
        }
      }
    }
  }

  /** `ids.indexOf(x)`: the position of the first occurrence of `x`. */
  function FirstIndex(ids: seq<nat>, x: nat): (i: nat)
    requires x in ids
    ensures i < |ids| && ids[i] == x && x !in ids[..i]
  {
    if ids[0] == x then 0
    else
      assert ids == [ids[0]] + ids[1..];
      var j := FirstIndex(ids[1..], x);
      assert ids[..j + 1] == [ids[0]] + ids[1..][..j];
      j + 1
  }

  /** Every row's place is in `ids`, and each first occurs there before the
      place of every later row. */
  predicate InRequestOrder(r: seq<WalkPlace>, ids: seq<nat>) {
    && (forall k :: 0 <= k < |r| ==> r[k].placeId in ids)
    && (forall k, l :: 0 <= k < l < |r| ==> FirstIndex(ids, r[k].placeId) < FirstIndex(ids, r[l].placeId))
  }

  /** The inserted rows follow the batch's order: the reply's places are
      the batch's new places in request order. */
  lemma {:induction false} BatchRowsInRequestOrder(rows: seq<WalkPlace>, places: set<nat>, w: nat, ids: seq<nat>, next: int)
    ensures InRequestOrder(BatchRows(rows, places, w, ids, next), ids)
    decreases |ids|
  {
    if ids != [] {
      var id := ids[0];
      var rest := ids[1..];
      if id !in places || id in PlacesIn(rows, w) {
        BatchRowsInRequestOrder(rows, places, w, rest, next);
        BatchRowsNew(rows, places, w, rest, next);
        InRequestOrderOfTail(BatchRows(rows, places, w, rest, next), ids);
      } else {
        var row := WalkPlace(w, id, next, false);
        BatchRowsInRequestOrder(rows + [row], places, w, rest, next + 1);
        BatchRowsNew(rows + [row], places, w, rest, next + 1);
        PlacesInSnoc(rows, row, w);
        var tail := BatchRows(rows + [row], places, w, rest, next + 1);
        InRequestOrderOfTail(tail, ids);
        InRequestOrderCons(row, tail, ids);
      }
    }
  }

  /** Rows in the order of a list's tail, none naming its head, are in the
      order of the whole list. */
  lemma InRequestOrderOfTail(r: seq<WalkPlace>, ids: seq<nat>)
    requires ids != [] && InRequestOrder(r, ids[1..])
    requires forall k :: 0 <= k < |r| ==> r[k].placeId != ids[0]
    ensures InRequestOrder(r, ids)
    ensures forall k :: 0 <= k < |r| ==> FirstIndex(ids, r[k].placeId) > 0
  {
    forall k | 0 <= k < |r| ensures r[k].placeId in ids && FirstIndex(ids, r[k].placeId) == FirstIndex(ids[1..], r[k].placeId) + 1 {
      FirstIndexOfTail(ids, r[k].placeId);
    }
  }

  /** A row for the list's head, put before rows in the list's order that
      do not name the head, keeps the order. */
  lemma InRequestOrderCons(row: WalkPlace, tail: seq<WalkPlace>, ids: seq<nat>)
    requires ids != [] && row.placeId == ids[0] && InRequestOrder(tail, ids)
    requires forall k :: 0 <= k < |tail| ==> FirstIndex(ids, tail[k].placeId) > 0
    ensures InRequestOrder([row] + tail, ids)
  {
    var r := [row] + tail;
    assert FirstIndex(ids, row.placeId) == 0;
    forall k | 0 <= k < |r| ensures r[k].placeId in ids {
      if k > 0 {
        assert r[k] == tail[k - 1];
      }
    }
    forall k, l | 0 <= k < l < |r| ensures FirstIndex(ids, r[k].placeId) < FirstIndex(ids, r[l].placeId) {
      assert r[l] == tail[l - 1];
      if k > 0 {
        assert r[k] == tail[k - 1];
        assert FirstIndex(ids, tail[k - 1].placeId) < FirstIndex(ids, tail[l - 1].placeId);
      }
    }
  }

  /** A value other than the head first occurs one further on in the list than in its tail. */
  lemma FirstIndexOfTail(ids: seq<nat>, x: nat)
    requires ids != [] && x in ids[1..] && x != ids[0]
    ensures x in ids && FirstIndex(ids, x) == FirstIndex(ids[1..], x) + 1
  {
  }

  /** After the batch every known place it lists is in the walk. */
  lemma {:induction false} BatchRowsComplete(rows: seq<WalkPlace>, places: set<nat>, w: nat, ids: seq<nat>, next: int)
    ensures forall id :: id in ids && id in places ==> id in PlacesIn(rows + BatchRows(rows, places, w, ids, next), w)
    decreases |ids|
  {
    if ids != [] {
      var id := ids[0];
      if id !in places || id in PlacesIn(rows, w) {
        BatchRowsComplete(rows, places, w, ids[1..], next);
        var r := BatchRows(rows, places, w, ids[1..], next);
        forall x | x in ids && x in places ensures x in PlacesIn(rows + r, w) {
          if x == id {
            PlacesInPrefix(rows, r, w);
          } else {
            assert x in ids[1..];
          }
        }
      } else {
        var row := WalkPlace(w, id, next, false);
        BatchRowsComplete(rows + [row], places, w, ids[1..], next + 1);
        var tail := BatchRows(rows + [row], places, w, ids[1..], next + 1);
        var r := [row] + tail;
        PlacesInSnoc(rows, row, w);
        assert rows + r == (rows + [row]) + tail;
        forall x | x in ids && x in places ensures x in PlacesIn(rows + r, w) {
          if x == id {
            PlacesInPrefix(rows + [row], tail, w);
          } else {
            assert x in ids[1..];
          }
        }
      }
    }
  }

  lemma PlacesInPrefix(rows: seq<WalkPlace>, more: seq<WalkPlace>, w: nat)
    ensures PlacesIn(rows, w) <= PlacesIn(rows + more, w)
  {
    forall p | p in PlacesIn(rows, w) ensures p in PlacesIn(rows + more, w) {
      var r :| r in rows && r.walkId == w && r.placeId == p;
      assert r in rows + more;
    }
  }

  /** A batch that is not a non-empty array is refused and inserts nothing;
      otherwise the reply lists exactly the rows appended. */
  lemma BatchOutcome(walks: map<nat, Walk>, rows: seq<WalkPlace>, places: set<nat>, walkId: nat, userId: nat, body: IdList)
    ensures var (reply, rows') := BatchSpec(walks, rows, places, walkId, userId, body);
            && (body == Absent || body == NotAList || body == List([]) ==> reply == BadRequest && rows' == rows)
            && (reply.Inserted? ==> rows' == rows + reply.rows)
            && (!reply.Inserted? ==> rows' == rows)
            && (reply.Inserted? ==> forall k :: 0 <= k < |reply.rows| ==> reply.rows[k].orderIndex == NextOrder(rows, walkId) + k)
  {
    if body.List? && body.ids != [] && Owns(walks, walkId, userId) {
      BatchRowsPositions(rows, places, walkId, body.ids, NextOrder(rows, walkId));
    }
  }

  /** A known place, new to the walk, listed twice: inserted once. */
  lemma RepeatedIdInsertedOnce(rows: seq<WalkPlace>, places: set<nat>, w: nat, p: nat, next: int)
    requires p in places && p !in PlacesIn(rows, w)
    ensures BatchRows(rows, places, w, [p, p], next) == [WalkPlace(w, p, next, false)]
  {
    var row := WalkPlace(w, p, next, false);
    PlacesInSnoc(rows, row, w);
    assert [p, p][1..] == [p];
    assert BatchRows(rows + [row], places, w, [p], next + 1) == BatchRows(rows + [row], places, w, [], next + 1);
  }

  // ---------------------------------------------------------------------
  // PUT /:walkId/places/order
  // ---------------------------------------------------------------------

  /** `UPDATE walk_places SET order_index = i WHERE walk_id = w AND place_id = p`. */
  function SetOrder(rows: seq<WalkPlace>, w: nat, p: nat, i: int): (r: seq<WalkPlace>)
    ensures |r| == |rows|
    ensures forall k :: 0 <= k < |r| ==> r[k] == if rows[k].walkId == w && rows[k].placeId == p then rows[k].(orderIndex := i) else rows[k]
  {
    seq(|rows|, k requires 0 <= k < |rows| => if rows[k].walkId == w && rows[k].placeId == p then rows[k].(orderIndex := i) else rows[k])
  }

  /** One loop step: an entry with a falsy place id or position is skipped. */
  function ReorderStep(rows: seq<WalkPlace>, w: nat, e: OrderEntry): seq<WalkPlace> {
    if e.placeId == 0 || e.orderIndex == 0 then rows else SetOrder(rows, w, e.placeId, e.orderIndex)
  }

  /** The table after the loop over `entries`. */
  function Reordered(rows: seq<WalkPlace>, w: nat, entries: seq<OrderEntry>): seq<WalkPlace>
    decreases |entries|
  {
    if entries == [] then rows
    else ReorderStep(Reordered(rows, w, entries[..|entries| - 1]), w, entries[|entries| - 1])
  }

  /** The last usable position given for place `p`, if any. */
  function LastOrder(entries: seq<OrderEntry>, p: nat): Option<int>
    decreases |entries|
  {
    if entries == [] then None
    else
      var e := entries[|entries| - 1];
      if e.placeId == p && p != 0 && e.orderIndex != 0 then Some(e.orderIndex)
      else LastOrder(entries[..|entries| - 1], p)
  }

  /** The reorder handler. */
  function ReorderSpec(walks: map<nat, Walk>, rows: seq<WalkPlace>, walkId: nat, userId: nat, body: Option<seq<OrderEntry>>)
    : (WalkReply, seq<WalkPlace>)
  {
    if body.None? then (BadRequest, rows)
    else if !Owns(walks, walkId, userId) then (NotFound, rows)
    else (Done, Reordered(rows, walkId, body.value))
  }

  /** After the loop each row of walk `w` holds the last usable position
      given for its place (or keeps its own), rows of other walks are
      unchanged, and nothing but positions changes. */
  lemma {:induction false} ReorderedRows(rows: seq<WalkPlace>, w: nat, entries: seq<OrderEntry>)
    ensures var r := Reordered(rows, w, entries);
            && |r| == |rows|
            && (forall k :: 0 <= k < |r| ==> r[k] == rows[k].(orderIndex := r[k].orderIndex))
            && (forall k :: 0 <= k < |r| && rows[k].walkId != w ==> r[k] == rows[k])
            && (forall k :: 0 <= k < |r| && rows[k].walkId == w ==>
                  r[k].orderIndex == match LastOrder(entries, rows[k].placeId) case Some(i) => i case None => rows[k].orderIndex)
    decreases |entries|
  {
    if entries != [] {
      var init := entries[..|entries| - 1];
      ReorderedRows(rows, w, init);
    }
  }

  /** Skipping falsy positions means no position is ever set to 0. */
  lemma ReorderNeverWritesZero(rows: seq<WalkPlace>, w: nat, entries: seq<OrderEntry>)
    requires forall k :: 0 <= k < |rows| ==> rows[k].orderIndex != 0
    ensures forall r :: r in Reordered(rows, w, entries) ==> r.orderIndex != 0
  {
    ReorderedRows(rows, w, entries);
    LastOrderNonZero(entries);
    var r := Reordered(rows, w, entries);
    forall x | x in r ensures x.orderIndex != 0 {
      var k :| 0 <= k < |r| && r[k] == x;
      if rows[k].walkId == w {
        assert LastOrder(entries, rows[k].placeId).Some? ==> LastOrder(entries, rows[k].placeId).value != 0;
      }
    }
  }

  lemma {:induction false} LastOrderNonZero(entries: seq<OrderEntry>)
    ensures forall p :: LastOrder(entries, p).Some? ==> LastOrder(entries, p).value != 0
    decreases |entries|
  {
    if entries != [] {
      LastOrderNonZero(entries[..|entries| - 1]);
    }
  }

  // ---------------------------------------------------------------------
  // PUT /:walkId/places/:placeId/visit
  // ---------------------------------------------------------------------

  /** `UPDATE walk_places SET visited = v WHERE walk_id = w AND place_id = p`. */
  function SetVisited(rows: seq<WalkPlace>, w: nat, p: nat, v: bool): (r: seq<WalkPlace>)
    ensures |r| == |rows|
    ensures forall k :: 0 <= k < |r| ==> r[k] == if rows[k].walkId == w && rows[k].placeId == p then rows[k].(visited := v) else rows[k]
  {
    seq(|rows|, k requires 0 <= k < |rows| => if rows[k].walkId == w && rows[k].placeId == p then rows[k].(visited := v) else rows[k])
  }

  /** The visit handler; `visited` is `None` when the body field is not a boolean. */
  function VisitSpec(walks: map<nat, Walk>, rows: seq<WalkPlace>, walkId: nat, userId: nat, placeId: nat, visited: Option<bool>)
    : (WalkReply, seq<WalkPlace>)
  {
    if visited.None? then (BadRequest, rows)
    else if !Owns(walks, walkId, userId) then (NotFound, rows)
    else if placeId !in PlacesIn(rows, walkId) then (NotFound, rows)
    else
      var rows' := SetVisited(rows, walkId, placeId, visited.value);
      (Updated(rows'[FirstRow(rows, walkId, placeId)]), rows')
  }

  /** The index of the first row of `p` in walk `w`. */
  function FirstRow(rows: seq<WalkPlace>, w: nat, p: nat): (k: nat)
    requires p in PlacesIn(rows, w)
    ensures k < |rows| && rows[k].walkId == w && rows[k].placeId == p
    ensures forall j :: 0 <= j < k ==> !(rows[j].walkId == w && rows[j].placeId == p)
    decreases |rows|
  {
    if rows[0].walkId == w && rows[0].placeId == p then 0
    else
      assert forall r :: r in rows[1..] <==> r in rows && (r != rows[0] || r in rows[1..]);
      assert p in PlacesIn(rows[1..], w) by {
        var r :| r in rows && r.walkId == w && r.placeId == p;
        assert r != rows[0];
        var i :| 0 <= i < |rows| && rows[i] == r;
        assert rows[1..][i - 1] == r;
      }
      1 + FirstRow(rows[1..], w, p)
  }

  /** A non-boolean `visited` is refused before any lookup; otherwise only
      the `visited` flag of the place's rows in that walk changes, and the
      reply shows the new flag. */
  lemma VisitOutcome(walks: map<nat, Walk>, rows: seq<WalkPlace>, walkId: nat, userId: nat, placeId: nat, visited: Option<bool>)
    ensures var (reply, rows') := VisitSpec(walks, rows, walkId, userId, placeId, visited);
            && (visited.None? ==> reply == BadRequest && rows' == rows)
            && (!reply.Updated? ==> rows' == rows)
            && (reply.Updated? ==> visited.Some? && reply.row.visited == visited.value && reply.row.placeId == placeId)
            && |rows'| == |rows|
            && (forall k :: 0 <= k < |rows| ==> rows'[k] == rows[k].(visited := rows'[k].visited))
            && (forall k :: 0 <= k < |rows| && (rows[k].walkId != walkId || rows[k].placeId != placeId) ==> rows'[k] == rows[k])
  {
  }

  // ---------------------------------------------------------------------
  // DELETE /:walkId and PUT /:walkId
  // ---------------------------------------------------------------------

  /** All rows except those of walk `w` (the cascade). */
  function RowsOutside(rows: seq<WalkPlace>, w: nat): (r: seq<WalkPlace>)
    ensures forall x :: x in r <==> x in rows && x.walkId != w
  {
    if rows == [] then []
    else (if rows[0].walkId == w then [] else [rows[0]]) + RowsOutside(rows[1..], w)
  }

  /** The delete handler: a favourite walk is refused. */
  function DeleteSpec(walks: map<nat, Walk>, rows: seq<WalkPlace>, walkId: nat, userId: nat)
    : (WalkReply, map<nat, Walk>, seq<WalkPlace>)
  {
    if !Owns(walks, walkId, userId) then (NotFound, walks, rows)
    else if walks[walkId].isFavorite then (BadRequest, walks, rows)
    else (Done, walks - {walkId}, RowsOutside(rows, walkId))
  }

  /** A favourite walk is never deleted; a deleted walk takes its rows with
      it and leaves every other walk and row alone. */
  lemma FavouriteNeverDeleted(walks: map<nat, Walk>, rows: seq<WalkPlace>, walkId: nat, userId: nat)
    ensures var (reply, walks', rows') := DeleteSpec(walks, rows, walkId, userId);
            && (walkId in walks && walks[walkId].isFavorite ==> walks' == walks && rows' == rows && reply != Done)
            && (reply == Done <==> Owns(walks, walkId, userId) && !walks[walkId].isFavorite)
            && (reply == Done ==> walkId !in walks' && forall v :: v != walkId ==> (v in walks' <==> v in walks) && (v in walks ==> walks'[v] == walks[v]))
            && (reply == Done ==> forall x :: x in rows' <==> x in rows && x.walkId != walkId)
  {
  }

  /** The title handler: a missing or blank title is refused before the
      lookup; the stored title is trimmed. */
  function RenameSpec(walks: map<nat, Walk>, walkId: nat, userId: nat, title: Option<string>)
    : (WalkReply, map<nat, Walk>)
  {
    if !Truthy(title) || Trim(title.value) == "" then (BadRequest, walks)
    else if !Owns(walks, walkId, userId) then (NotFound, walks)
    else
      var walk := walks[walkId].(title := Trim(title.value));
      (Renamed(walk), walks[walkId := walk])
  }

  lemma RenameOutcome(walks: map<nat, Walk>, walkId: nat, userId: nat, title: Option<string>)
    ensures var (reply, walks') := RenameSpec(walks, walkId, userId, title);
            && (title.None? || IsBlank(title.value) ==> reply == BadRequest && walks' == walks)
            && (reply.Renamed? <==> title.Some? && !IsBlank(title.value) && Owns(walks, walkId, userId))
            && (reply.Renamed? ==>
                  && reply.walk.title == Trim(title.value) && reply.walk.title != ""
                  && walks' == walks[walkId := reply.walk]
                  && reply.walk == walks[walkId].(title := reply.walk.title))
            && (!reply.Renamed? ==> walks' == walks)
  {
    if title.Some? {
      BlankIffAllWhitespace(title.value);
    }
  }

  // ---------------------------------------------------------------------
  // The tables and the handlers
  // ---------------------------------------------------------------------

  /** The database as the walk routes see it. */
  class WalkTables {
    var walks: map<nat, Walk>
    var rows: seq<WalkPlace>
    var places: set<nat>

    constructor (walks: map<nat, Walk>, rows: seq<WalkPlace>, places: set<nat>)
      ensures this.walks == walks && this.rows == rows && this.places == places
    {
      this.walks := walks;
      this.rows := rows;
      this.places := places;
    }

    /** `SELECT MAX(order_index) ...` then `(max_order || 0) + 1`. */
    method NextOrderIndex(walkId: nat) returns (next: int)
      ensures AbovePositions(rows, walkId, next)
      ensures PlacesIn(rows, walkId) == {} ==> next == 1
      ensures next == NextOrder(rows, walkId)
    {
      var maxOrder := MaxOrder(rows, walkId);
      next := (if maxOrder.Some? then maxOrder.value else 0) + 1;
      NextOrderAbove(rows, walkId);
      assert forall r :: r in rows && r.walkId == walkId ==> r.placeId in PlacesIn(rows, walkId);
    }

    /** `POST /:walkId/places`. */
    method AddPlace(walkId: nat, userId: nat, placeId: nat) returns (reply: WalkReply)
      modifies this
      ensures (reply, rows) == AddPlaceSpec(old(walks), old(rows), old(places), walkId, userId, placeId)
      ensures walks == old(walks) && places == old(places)
    {
      if placeId == 0 {
        return BadRequest;
      }
      if !Owns(walks, walkId, userId) {
        return NotFound;
      }
      if placeId !in places {
        return NotFound;
      }
      if placeId in PlacesIn(rows, walkId) {
        return BadRequest;
      }
      var nextOrder := NextOrderIndex(walkId);
      var row := WalkPlace(walkId, placeId, nextOrder, false);
      rows := rows + [row];
      reply := Created(row);
    }

    /** `POST /:walkId/places/batch`: the insert loop. */
    method AddPlaces(walkId: nat, userId: nat, body: IdList) returns (reply: WalkReply)
      modifies this
      ensures (reply, rows) == BatchSpec(old(walks), old(rows), old(places), walkId, userId, body)
      ensures walks == old(walks) && places == old(places)
    {
      if !body.List? || |body.ids| == 0 {
        return BadRequest;
      }
      if !Owns(walks, walkId, userId) {
        return NotFound;
      }
      var placeIds := body.ids;
      var results: seq<WalkPlace> := [];
      var orderIndex := NextOrderIndex(walkId);
      ghost var start := orderIndex;
      var i := 0;
      while i < |placeIds|
        invariant 0 <= i <= |placeIds|
        invariant walks == old(walks) && places == old(places)
        invariant rows == old(rows) + results
        invariant results + BatchRows(rows, places, walkId, placeIds[i..], orderIndex)
               == BatchRows(old(rows), places, walkId, placeIds, start)
      {
        var placeId := placeIds[i];
        assert placeIds[i..][0] == placeId && placeIds[i..][1..] == placeIds[i + 1..];
        if placeId !in places {
          assert BatchRows(rows, places, walkId, placeIds[i..], orderIndex)
              == BatchRows(rows, places, walkId, placeIds[i + 1..], orderIndex);
          i := i + 1;
          continue;
        }
        if placeId in PlacesIn(rows, walkId) {
          assert BatchRows(rows, places, walkId, placeIds[i..], orderIndex)
              == BatchRows(rows, places, walkId, placeIds[i + 1..], orderIndex);
          i := i + 1;
          continue;
        }
        var row := WalkPlace(walkId, placeId, orderIndex, false);
        assert BatchRows(rows, places, walkId, placeIds[i..], orderIndex)
            == [row] + BatchRows(rows + [row], places, walkId, placeIds[i + 1..], orderIndex + 1);
        rows := rows + [row];
        results := results + [row];
        orderIndex := orderIndex + 1;
        i := i + 1;
      }
      assert placeIds[i..] == [];
      assert results + [] == results;
      reply := Inserted(results);
    }

    /** `PUT /:walkId/places/order`: the update loop. */
    method Reorder(walkId: nat, userId: nat, body: Option<seq<OrderEntry>>) returns (reply: WalkReply)
      modifies this
      ensures (reply, rows) == ReorderSpec(old(walks), old(rows), walkId, userId, body)
      ensures walks == old(walks) && places == old(places)
    {
      if body.None? {
        return BadRequest;
      }
      if !Owns(walks, walkId, userId) {
        return NotFound;
      }
      var entries := body.value;
      var i := 0;
      while i < |entries|
        invariant 0 <= i <= |entries|
        invariant walks == old(walks) && places == old(places)
        invariant rows == Reordered(old(rows), walkId, entries[..i])
      {
        var place := entries[i];
        assert entries[..i + 1][..i] == entries[..i];
        if place.placeId == 0 || place.orderIndex == 0 {
          i := i + 1;
          continue;
        }
        rows := SetOrder(rows, walkId, place.placeId, place.orderIndex);
        i := i + 1;
      }
      assert entries[..i] == entries;
      reply := Done;
    }

    /** `PUT /:walkId/places/:placeId/visit`. */
    method Visit(walkId: nat, userId: nat, placeId: nat, visited: Option<bool>) returns (reply: WalkReply)
      modifies this
      ensures (reply, rows) == VisitSpec(old(walks), old(rows), walkId, userId, placeId, visited)
      ensures walks == old(walks) && places == old(places)
    {
      if visited.None? {
        return BadRequest;
      }
      if !Owns(walks, walkId, userId) {
        return NotFound;
      }
      if placeId !in PlacesIn(rows, walkId) {
        return NotFound;
      }
      var first := FirstRow(rows, walkId, placeId);
      rows := SetVisited(rows, walkId, placeId, visited.value);
      reply := Updated(rows[first]);
    }

    /** `DELETE /:walkId`. */
    method DeleteWalk(walkId: nat, userId: nat) returns (reply: WalkReply)
      modifies this
      ensures (reply, walks, rows) == DeleteSpec(old(walks), old(rows), walkId, userId)
      ensures places == old(places)
    {
      if !Owns(walks, walkId, userId) {
        return NotFound;
      }
      if walks[walkId].isFavorite {
        return BadRequest;
      }
      walks := walks - {walkId};
      rows := RowsOutside(rows, walkId);
      reply := Done;
    }

    /** `PUT /:walkId`. */
    method Rename(walkId: nat, userId: nat, title: Option<string>) returns (reply: WalkReply)
      modifies this
      ensures (reply, walks) == RenameSpec(old(walks), walkId, userId, title)
      ensures rows == old(rows) && places == old(places)
    {
      if !Truthy(title) || Trim(title.value) == "" {
        return BadRequest;
      }
      if !Owns(walks, walkId, userId) {
        return NotFound;
      }
      var walk := walks[walkId].(title := Trim(title.value));
      walks := walks[walkId := walk];
      reply := Renamed(walk);
    }
  }
}
