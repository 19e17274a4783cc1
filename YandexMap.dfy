/**
  * The map widget: where each place is pinned, how its pin and category
  * label look, and which places the map shows. Coordinates are opaque
  * values; nothing is computed from them.
  */
module YandexMap {
  import opened Common

  /** A point: either the record's own coordinates as stored, or one of the
      fixed points of the widget, written as in its tables. */
  datatype Coords = Parsed(latitude: string, longitude: string) | Fixed(lat: string, lng: string)

  /** A place as the map receives it; absent fields are `None`. */
  datatype MapPlace = MapPlace(
    title: Option<string>, category: Option<string>,
    latitude: Option<string>, longitude: Option<string>, visited: bool)

  const HERMITAGE := Fixed("59.939831", "30.314559")
  const SUMMER_GARDEN := Fixed("59.945309", "30.336458")
  const BRONZE_HORSEMAN := Fixed("59.936204", "30.302087")
  const SAVIOUR_ON_BLOOD := Fixed("59.940163", "30.328844")
  const RUSSIAN_MUSEUM := Fixed("59.938874", "30.331554")
  const CAFE_POINT := Fixed("59.939000", "30.315000")
  const PALACE_BRIDGE := Fixed("59.941280", "30.308090")
  const ISAAC := Fixed("59.934121", "30.306200")
  const CITY_CENTRE := Fixed("59.934280", "30.335099")

  /** The preset points, searched for in the title, in declared order. */
  const PRESETS: seq<(string, Coords)> := [
    ("Эрмитаж", HERMITAGE), ("Летний сад", SUMMER_GARDEN), ("Медный всадник", BRONZE_HORSEMAN),
    ("Храм Спаса на Крови", SAVIOUR_ON_BLOOD), ("Русский музей", RUSSIAN_MUSEUM),
    ("Петергоф", Fixed("59.883333", "29.900000")), ("Исаакиевский собор", ISAAC),
    ("Кунсткамера", Fixed("59.941399", "30.304516")), ("Дворцовый мост", PALACE_BRIDGE),
    ("музей", HERMITAGE), ("памятник", BRONZE_HORSEMAN), ("парк", SUMMER_GARDEN),
    ("собор", ISAAC), ("архитектура", SAVIOUR_ON_BLOOD), ("галереи", RUSSIAN_MUSEUM),
    ("мосты", PALACE_BRIDGE), ("кафе", CAFE_POINT)]

  /** The points by exact category key. */
  const CATEGORY_POINTS: seq<(string, Coords)> := [
    ("museum", HERMITAGE), ("park", SUMMER_GARDEN), ("monument", BRONZE_HORSEMAN),
    ("architecture", SAVIOUR_ON_BLOOD), ("gallery", RUSSIAN_MUSEUM), ("bridge", PALACE_BRIDGE),
    ("cafe", CAFE_POINT)]

  // ---------------------------------------------------------------------
  // getCoordinates
  // ---------------------------------------------------------------------

  /** The title search: the point of the first preset, in order, whose
      lower-cased key occurs in the lower-cased title. */
  function TitlePreset(presets: seq<(string, Coords)>, title: string): Option<Coords> {
    if presets == [] then None
    else if Includes(ToLower(title), ToLower(presets[0].0)) then Some(presets[0].1)
    else TitlePreset(presets[1..], title)
  }

  /** The title search finds nothing exactly when no key occurs, and
      otherwise returns the point of a key that occurs, with no earlier key
      occurring. */
  lemma {:induction false} TitlePresetSpec(presets: seq<(string, Coords)>, title: string)
    ensures TitlePreset(presets, title).None? <==>
              forall i :: 0 <= i < |presets| ==> !Includes(ToLower(title), ToLower(presets[i].0))
    ensures TitlePreset(presets, title).Some? ==>
              exists i :: 0 <= i < |presets| && presets[i].1 == TitlePreset(presets, title).value
                          && Includes(ToLower(title), ToLower(presets[i].0))
                          && forall j :: 0 <= j < i ==> !Includes(ToLower(title), ToLower(presets[j].0))
  {
    if presets != [] && !Includes(ToLower(title), ToLower(presets[0].0)) {
      TitlePresetSpec(presets[1..], title);
      assert forall i :: 1 <= i < |presets| ==> presets[i] == presets[1..][i - 1];
      if TitlePreset(presets, title).Some? {
        var i :| 0 <= i < |presets[1..]| && presets[1..][i].1 == TitlePreset(presets, title).value
                 && Includes(ToLower(title), ToLower(presets[1..][i].0))
                 && forall j :: 0 <= j < i ==> !Includes(ToLower(title), ToLower(presets[1..][j].0));
        assert presets[i + 1] == presets[1..][i];
      }
    }
  }

  /** `getCoordinates`: the stored coordinates when both are truthy; then
      the title presets; then the category table; then the city centre. */
  function Coordinates(p: MapPlace): Coords {
    if Truthy(p.latitude) && Truthy(p.longitude) then Parsed(p.latitude.value, p.longitude.value)
    else if Truthy(p.title) && TitlePreset(PRESETS, p.title.value).Some? then TitlePreset(PRESETS, p.title.value).value
    else if Truthy(p.category) && TableLookup(CATEGORY_POINTS, p.category.value).Some? then TableLookup(CATEGORY_POINTS, p.category.value).value
    else CITY_CENTRE
  }

  /** Which source decides the point, in priority order. */
  datatype Source = FromRecord | FromTitle | FromCategory | FromDefault

  function SourceOf(p: MapPlace): Source {
    if Truthy(p.latitude) && Truthy(p.longitude) then FromRecord
    else if Truthy(p.title) && TitlePreset(PRESETS, p.title.value).Some? then FromTitle
    else if Truthy(p.category) && TableLookup(CATEGORY_POINTS, p.category.value).Some? then FromCategory
    else FromDefault
  }

  /** Each source decides only when every earlier one is silent, and then
      gives the point it holds: the stored pair; the first preset key in
      the title; the entry for exactly that category; the city centre. */
  lemma CoordinatesPriority(p: MapPlace)
    ensures SourceOf(p) == FromRecord <==> Truthy(p.latitude) && Truthy(p.longitude)
    ensures SourceOf(p) == FromRecord ==> Coordinates(p) == Parsed(p.latitude.value, p.longitude.value)
    ensures SourceOf(p) == FromTitle ==>
              exists i :: 0 <= i < |PRESETS| && Coordinates(p) == PRESETS[i].1
                          && Includes(ToLower(p.title.value), ToLower(PRESETS[i].0))
                          && forall j :: 0 <= j < i ==> !Includes(ToLower(p.title.value), ToLower(PRESETS[j].0))
    ensures SourceOf(p) == FromCategory ==>
              (forall i :: 0 <= i < |PRESETS| ==> !Truthy(p.title) || !Includes(ToLower(p.title.value), ToLower(PRESETS[i].0)))
              && exists i :: 0 <= i < |CATEGORY_POINTS| && CATEGORY_POINTS[i] == (p.category.value, Coordinates(p))
    ensures SourceOf(p) == FromDefault ==> Coordinates(p) == CITY_CENTRE
  {
    if Truthy(p.title) {
      TitlePresetSpec(PRESETS, p.title.value);
    }
  }

  // ---------------------------------------------------------------------
  // getCategoryLabel and getIconPreset
  // ---------------------------------------------------------------------

  const LABELS: seq<(string, string)> := [
    ("museum", "Музей"), ("park", "Парк"), ("monument", "Памятник"), ("architecture", "Архитектура"),
    ("gallery", "Галерея"), ("bridge", "Мост"), ("cafe", "Кафе")]

  /** `labels[category] || category`. */
  function CategoryLabel(category: string): string {
    match TableLookup(LABELS, category)
    case Some(l) => l
    case None => category
  }

  /** A known category gets its label, any other is shown as it is. */
  lemma CategoryLabelSpec(category: string)
    ensures (exists i :: 0 <= i < |LABELS| && LABELS[i] == (category, CategoryLabel(category)))
            || ((forall i :: 0 <= i < |LABELS| ==> LABELS[i].0 != category) && CategoryLabel(category) == category)
  {
  }

  const VISITED_ICON := "islands#greenStretchyIcon"
  const DEFAULT_ICON := "islands#blueStretchyIcon"

  const ICONS: seq<(string, string)> := [
    ("museum", "islands#blueMuseumIcon"), ("park", "islands#greenParkIcon"),
    ("monument", "islands#darkOrangeMonumentIcon"), ("architecture", "islands#violetArchitectureIcon"),
    ("gallery", "islands#brownArtIcon"), ("bridge", "islands#blueBridgeIcon"), ("cafe", "islands#redCafeIcon")]

  /** `getIconPreset`. */
  function IconPreset(p: MapPlace): string {
    if p.visited then VISITED_ICON
    else if !Truthy(p.category) then DEFAULT_ICON
    else match TableLookup(ICONS, p.category.value)
      case Some(icon) => icon
      case None => DEFAULT_ICON
  }

  /** A visited place is always green; otherwise its category's icon, or
      the blue default when it has none in the table. */
  lemma IconPresetSpec(p: MapPlace)
    ensures p.visited ==> IconPreset(p) == VISITED_ICON
    ensures !p.visited && Truthy(p.category) && TableLookup(ICONS, p.category.value).Some? ==>
              exists i :: 0 <= i < |ICONS| && ICONS[i] == (p.category.value, IconPreset(p))
    ensures !p.visited && (!Truthy(p.category) || forall i :: 0 <= i < |ICONS| ==> ICONS[i].0 != p.category.value) ==>
              IconPreset(p) == DEFAULT_ICON
  {
  }

  // ---------------------------------------------------------------------
  // The places shown and their pins
  // ---------------------------------------------------------------------

  /** The `allPlaces` effect: a route with a non-empty list shows the list,
      anything else shows the one place. */
  function Shown(place: MapPlace, isRoute: bool, places: Option<seq<MapPlace>>): seq<MapPlace> {
    if isRoute && places.Some? && |places.value| > 0 then places.value else [place]
  }

  /** The map always shows something: every place of a non-empty route, or
      else exactly the single place. */
  lemma ShownSpec(place: MapPlace, isRoute: bool, places: Option<seq<MapPlace>>)
    ensures |Shown(place, isRoute, places)| > 0
    ensures isRoute && places.Some? && places.value != [] ==> Shown(place, isRoute, places) == places.value
    ensures !(isRoute && places.Some? && places.value != []) ==> Shown(place, isRoute, places) == [place]
  {
  }

  /** A pin: its point, its icon and the number in its hint. */
  datatype Pin = Pin(at: Coords, icon: string, number: nat)

  /** One pin per place, numbered from 1 in list order. */
  function Pins(places: seq<MapPlace>): (r: seq<Pin>)
    ensures |r| == |places|
  {
    seq(|places|, i requires 0 <= i < |places| => Pin(Coordinates(places[i]), IconPreset(places[i]), i + 1))
  }

  /** Pins on a route are numbered 1, 2, ... in the walk's order, each at
      its place's point with its place's icon. */
  lemma PinsNumbered(places: seq<MapPlace>)
    ensures forall i :: 0 <= i < |places| ==>
              Pins(places)[i].number == i + 1 && Pins(places)[i].at == Coordinates(places[i])
              && Pins(places)[i].icon == IconPreset(places[i])
  {
  }
}
