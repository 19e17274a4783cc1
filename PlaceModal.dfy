/**
  * The place card's "add to walk" panel: which walks it offers, what the
  * Add button sends, and when the button is disabled.
  */
module PlaceModal {
  import opened Common

  /** A walk as the card receives it. */
  datatype Walk = Walk(id: int, title: string, isFavorite: bool)

  /** The value of `selectedWalk`: `''`, `'create'`, or a walk's id. */
  datatype Choice = Unselected | Create | Existing(id: int)

  /** The panel's state. */
  datatype Panel = Panel(selected: Choice, showCreate: bool, newTitle: string)

  /** What `onAddToWalk` receives. */
  datatype Request = Request(placeId: int, choice: Choice, walkTitle: string)

  const CREATE_PREFIX := "Прогулка "
  const FALLBACK_TITLE := "прогулку"

  /** `!!selectedWalk`: the empty string and the id 0 are falsy. */
  predicate IsSelected(c: Choice) {
    c.Create? || (c.Existing? && c.id != 0)
  }

  // ---------------------------------------------------------------------
  // The offered walks
  // ---------------------------------------------------------------------

  /** `walks.find(walk => walk.is_favorite)`. */
  function FirstFavorite(walks: seq<Walk>): Option<Walk> {
    if walks == [] then None
    else if walks[0].isFavorite then Some(walks[0])
    else FirstFavorite(walks[1..])
  }

  /** `walks.filter(walk => !walk.is_favorite)`. */
  function OtherWalks(walks: seq<Walk>): seq<Walk> {
    if walks == [] then []
    else if walks[0].isFavorite then OtherWalks(walks[1..])
    else [walks[0]] + OtherWalks(walks[1..])
  }

  /** The favourite on offer is the first favourite in the list, and there
      is one exactly when some walk is a favourite. */
  lemma {:induction false} FirstFavoriteSpec(walks: seq<Walk>)
    ensures FirstFavorite(walks).None? <==> forall i :: 0 <= i < |walks| ==> !walks[i].isFavorite
    ensures FirstFavorite(walks).Some? ==>
              exists i :: 0 <= i < |walks| && walks[i] == FirstFavorite(walks).value && walks[i].isFavorite
                          && forall j :: 0 <= j < i ==> !walks[j].isFavorite
  {
    if walks != [] && !walks[0].isFavorite {
      FirstFavoriteSpec(walks[1..]);
      assert forall i :: 1 <= i < |walks| ==> walks[i] == walks[1..][i - 1];
      if FirstFavorite(walks).Some? {
        var i :| 0 <= i < |walks[1..]| && walks[1..][i] == FirstFavorite(walks).value && walks[1..][i].isFavorite
                 && forall j :: 0 <= j < i ==> !walks[1..][j].isFavorite;
        assert walks[i + 1] == walks[1..][i];
      }
    }
  }

  /** The other walks are exactly the walks that are not favourites, and
      together with the favourites they account for every walk. */
  lemma {:induction false} OtherWalksSpec(walks: seq<Walk>)
    ensures forall w :: w in OtherWalks(walks) <==> w in walks && !w.isFavorite
    ensures |OtherWalks(walks)| + |Favorites(walks)| == |walks|
  {
    if walks != [] {
      OtherWalksSpec(walks[1..]);
      assert walks == [walks[0]] + walks[1..];
    }
  }

  /** The favourites, in order. */
  function Favorites(walks: seq<Walk>): seq<Walk> {
    if walks == [] then []
    else if walks[0].isFavorite then [walks[0]] + Favorites(walks[1..])
    else Favorites(walks[1..])
  }

  /** The favourite on offer is the head of the list of favourites. */
  lemma {:induction false} FirstFavoriteIsHeadOfFavorites(walks: seq<Walk>)
    ensures FirstFavorite(walks) == if Favorites(walks) == [] then None else Some(Favorites(walks)[0])
  {
    if walks != [] && !walks[0].isFavorite {
      FirstFavoriteIsHeadOfFavorites(walks[1..]);
    }
  }

  /** The walks the panel offers a button for: the favourite, then the others. */
  function Offered(walks: seq<Walk>): seq<Walk> {
    (match FirstFavorite(walks) case Some(w) => [w] case None => []) + OtherWalks(walks)
  }

  /** Every favourite after the first goes missing from the offer: the panel
      shows one button per walk, less one per extra favourite. */
  lemma LaterFavoritesNotOffered(walks: seq<Walk>)
    ensures |Offered(walks)| == |walks| - |Favorites(walks)| + (if Favorites(walks) == [] then 0 else 1)
  {
    FirstFavoriteIsHeadOfFavorites(walks);
    OtherWalksSpec(walks);
  }

  /** `walks.find(w => w.id == selectedWalk)`. */
  function FindById(walks: seq<Walk>, id: int): (r: Option<Walk>)
    ensures r.Some? ==> r.value in walks && r.value.id == id
    ensures r.None? ==> forall w :: w in walks ==> w.id != id
  {
    if walks == [] then None
    else if walks[0].id == id then Some(walks[0])
    else FindById(walks[1..], id)
  }

  // ---------------------------------------------------------------------
  // The Add button
  // ---------------------------------------------------------------------

  /** `handleAddClick`: the request it sends, if any. */
  function AddRequest(p: Panel, walks: seq<Walk>, placeId: int): Option<Request> {
    if !IsSelected(p.selected) then None
    else if p.selected.Create? then
      if IsBlank(p.newTitle) then None
      else Some(Request(placeId, Create, p.newTitle))
    else
      var title := match FindById(walks, p.selected.id)
        case Some(w) => w.title
        case None => FALLBACK_TITLE;
      Some(Request(placeId, p.selected, title))
  }

  /** The panel after `handleAddClick`: a sent request closes the create box
      and clears the typed title; a rejected click changes nothing. */
  function AfterAdd(p: Panel, walks: seq<Walk>, placeId: int): Panel {
    if AddRequest(p, walks, placeId).Some? then p.(showCreate := false, newTitle := "") else p
  }

  /** The `disabled` expression of the Add button. */
  predicate AddDisabled(p: Panel) {
    !IsSelected(p.selected) || (p.selected.Create? && IsBlank(p.newTitle))
  }

  /** The button is disabled exactly when a click would send nothing. */
  lemma DisabledIffRejected(p: Panel, walks: seq<Walk>, placeId: int)
    ensures AddDisabled(p) <==> AddRequest(p, walks, placeId).None?
  {
  }

  /** What a sent request carries: the place and the choice as given; for a
      new walk the typed title exactly as typed, untrimmed; for an existing
      walk its title, or the fallback when no walk has that id. */
  lemma RequestContents(p: Panel, walks: seq<Walk>, placeId: int)
    requires AddRequest(p, walks, placeId).Some?
    ensures var r := AddRequest(p, walks, placeId).value;
            && r.placeId == placeId && r.choice == p.selected
            && (p.selected.Create? ==> r.walkTitle == p.newTitle && !IsBlank(p.newTitle))
            && (p.selected.Existing? ==>
                  (exists w :: w in walks && w.id == p.selected.id && r.walkTitle == w.title)
                  || ((forall w :: w in walks ==> w.id != p.selected.id) && r.walkTitle == FALLBACK_TITLE))
  {
  }

  /** A click the button allows closes the create box and clears the typed
      title, keeping the choice; a click it refuses leaves the panel as it
      was. After a request for a new walk the emptied title disables the
      button, so a second click sends nothing; after one for an existing walk
      the button stays enabled. */
  lemma AfterAddSpec(p: Panel, walks: seq<Walk>, placeId: int)
    ensures var q := AfterAdd(p, walks, placeId);
            && (!AddDisabled(p) ==> q == Panel(p.selected, false, ""))
            && (AddDisabled(p) ==> q == p)
            && (!AddDisabled(p) ==> (AddDisabled(q) <==> p.selected.Create?))
  {
    DisabledIffRejected(p, walks, placeId);
    BlankIffAllWhitespace("");
  }

  /** A title of spaces is refused even though it is not empty. */
  lemma SpacesTitleRefused(walks: seq<Walk>, placeId: int)
    ensures AddRequest(Panel(Create, true, "  "), walks, placeId).None?
  {
    assert AllWhitespace("  ");
    BlankIffAllWhitespace("  ");
  }

  // ---------------------------------------------------------------------
  // Choosing
  // ---------------------------------------------------------------------

  /** `handleCreateWalk`, given the date as `toLocaleDateString` renders it. */
  function ChooseCreate(p: Panel, today: string): Panel {
    Panel(Create, true, CREATE_PREFIX + today)
  }

  /** `handleSelectWalk`. */
  function ChooseWalk(p: Panel, id: int): Panel {
    Panel(Existing(id), false, "")
  }

  /** Choosing to create fills in a non-blank default title, so the Add
      button is enabled whatever the date text. */
  lemma CreateEnablesAdd(p: Panel, today: string)
    ensures !AddDisabled(ChooseCreate(p, today))
  {
    var t := CREATE_PREFIX + today;
    assert !IsWhitespace(t[0]);
    BlankIffAllWhitespace(t);
  }

  /** Choosing a walk empties the create box, and enables the button unless
      the id is the falsy 0. */
  lemma ChooseWalkEnablesAdd(p: Panel, id: int)
    ensures var q := ChooseWalk(p, id);
            && !q.showCreate && q.newTitle == ""
            && (AddDisabled(q) <==> id == 0)
  {
  }
}
