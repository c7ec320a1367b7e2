/** The map page's place list: shelters and cafés filtered by two toggles and, once the
    user's position is known, ordered by distance. The distance computation itself
    (haversine, rounding to 0.1 km) is abstract: a key giving each place's distance in
    tenths of a kilometre. */
module Places {
  import opened Wrappers
  import Seqs

  /** The fields of a place the list logic reads (coordinates and address enter only
      through the distance key). */
  datatype Place = Place(id: int, kind: string, name: string)

  /** The user's position `[latitude, longitude]`. */
  datatype Coords = Coords(lat: real, lng: real)

  /** The fixed catalogue `PLACES`, in its declared order. */
  const AllPlaces: seq<Place> := [
    Place(1, "cafe", "浪浪別哭"),
    Place(2, "shelter", "新北動物保護防疫所"),
    Place(3, "cafe", "転運棧-貓咪中途咖啡廳"),
    Place(4, "cafe", "喵喵屋"),
    Place(5, "cafe", "朵朵嚐嚐"),
    Place(6, "cafe", "貓食光"),
    Place(7, "cafe", "咪途之家"),
    Place(8, "cafe", "貓．領事館"),
    Place(9, "cafe", "O CAT CAFÈ"),
    Place(10, "shelter", "台北市動物之家"),
    Place(11, "shelter", "巴克幫-浪犬之家"),
    Place(12, "shelter", "好好善待動物協會"),
    Place(13, "cafe", "FUFUCatCafe")
  ]

  /** The toggle rule: a shelter shows with the shelter toggle, a café with the café toggle. */
  predicate Shown(p: Place, showShelter: bool, showCafe: bool)
  {
    (p.kind == "shelter" && showShelter) || (p.kind == "cafe" && showCafe)
  }

  /** `PLACES.filter(...)` */
  function Visible(places: seq<Place>, showShelter: bool, showCafe: bool): seq<Place>
  {
    Seqs.Filter(places, (p: Place) => Shown(p, showShelter, showCafe))
  }

  /** `getDistance` returns `null` when the user's latitude or longitude is falsy (0). */
  predicate DistanceKnown(user: Coords)
  {
    user.lat != 0.0 && user.lng != 0.0
  }

  /** The key the list is sorted by. With a falsy coordinate every distance is `null`,
      `parseFloat(null)` is `NaN`, and a comparator returning `NaN` counts as "equal", so
      every place has the same key. */
  function DistanceKey(user: Coords, dist: Place -> int): Place -> int
  {
    if DistanceKnown(user) then dist else (p: Place) => 0
  }

  /** `sortedPlaces`: the visible places, and without a position that is all; with one,
      the stable sort of a copy by distance. */
  function SortedPlaces(places: seq<Place>, showShelter: bool, showCafe: bool,
                        user: Option<Coords>, dist: Place -> int): seq<Place>
  {
    var filtered := Visible(places, showShelter, showCafe);
    if user.None? then filtered else Seqs.SortBy(filtered, DistanceKey(user.value, dist))
  }

  /** A place is visible exactly when its toggle is on, in catalogue order, and with both
      toggles off nothing is. */
  lemma VisibleSpec(places: seq<Place>, showShelter: bool, showCafe: bool)
    ensures forall p :: p in Visible(places, showShelter, showCafe) ==> p in places && Shown(p, showShelter, showCafe)
    ensures forall i :: 0 <= i < |places| && Shown(places[i], showShelter, showCafe) ==>
              places[i] in Visible(places, showShelter, showCafe)
    ensures Seqs.OrderedWithin(Visible(places, showShelter, showCafe), places)
    ensures !showShelter && !showCafe ==> Visible(places, showShelter, showCafe) == []
  {
    var pr := (p: Place) => Shown(p, showShelter, showCafe);
    var r := Visible(places, showShelter, showCafe);
    forall p | p in r ensures p in places && Shown(p, showShelter, showCafe) {
      var i :| 0 <= i < |r| && r[i] == p;
      Seqs.FilterFrom(places, pr, i);
    }
    forall i | 0 <= i < |places| && Shown(places[i], showShelter, showCafe) ensures places[i] in r {
      Seqs.FilterKeeps(places, pr, i);
    }
    Seqs.FilterOrdered(places, pr);
    if !showShelter && !showCafe {
      Seqs.FilterKeepsNone(places, pr);
    }
  }

  /** Without a position, or with a falsy coordinate, the list is the visible places in
      catalogue order; with a known position it is a permutation of them in non-decreasing
      distance, places at equal distance keeping their catalogue order. */
  lemma SortedPlacesSpec(places: seq<Place>, showShelter: bool, showCafe: bool,
                         user: Option<Coords>, dist: Place -> int, d: int)
    ensures user.None? ==> SortedPlaces(places, showShelter, showCafe, user, dist) == Visible(places, showShelter, showCafe)
    ensures user.Some? && !DistanceKnown(user.value) ==>
              SortedPlaces(places, showShelter, showCafe, user, dist) == Visible(places, showShelter, showCafe)
    ensures multiset(SortedPlaces(places, showShelter, showCafe, user, dist)) == multiset(Visible(places, showShelter, showCafe))
    ensures user.Some? && DistanceKnown(user.value) ==>
              Seqs.SortedBy(SortedPlaces(places, showShelter, showCafe, user, dist), dist)
    ensures user.Some? && DistanceKnown(user.value) ==>
              Seqs.WithKey(SortedPlaces(places, showShelter, showCafe, user, dist), dist, d)
              == Seqs.WithKey(Visible(places, showShelter, showCafe), dist, d)
  {
    var filtered := Visible(places, showShelter, showCafe);
    if user.Some? {
      if DistanceKnown(user.value) {
        Seqs.SortBySorted(filtered, dist);
        Seqs.SortByStable(filtered, dist, d);
      } else {
        Seqs.SortByConstantKey(filtered, (p: Place) => 0, 0);
      }
    }
  }

  /** Every place of the catalogue is a shelter or a café, so with both toggles on (the
      initial state) and no position the whole catalogue is listed in its order. */
  lemma CatalogueListedWhole(dist: Place -> int)
    ensures SortedPlaces(AllPlaces, true, true, None, dist) == AllPlaces
  {
    assert forall i :: 0 <= i < |AllPlaces| ==> AllPlaces[i].kind in {"shelter", "cafe"};
    Seqs.FilterKeepsAll(AllPlaces, (p: Place) => Shown(p, true, true));
  }

  /** `sortedPlaces` as the page computes it: a copy of the visible places, sorted in place. */
  method ComputeSortedPlaces(places: seq<Place>, showShelter: bool, showCafe: bool,
                             user: Option<Coords>, dist: Place -> int) returns (r: seq<Place>)
    ensures r == SortedPlaces(places, showShelter, showCafe, user, dist)
  {
    var filtered := Visible(places, showShelter, showCafe);
    if user.None? {
      return filtered;
    }
    var copy := new Place[|filtered|](i requires 0 <= i < |filtered| => filtered[i]);
    assert copy[..] == filtered;
    Seqs.SortInPlace(copy, DistanceKey(user.value, dist));
    r := copy[..];
  }

  /** The map page's state: the two toggles, the highlighted place and the position. */
  class MapPage {
    var showShelter: bool
    var showCafe: bool
    var selected: Option<Place>
    var user: Option<Coords>

    /** Both toggles on, nothing selected, no position. */
    constructor()
      ensures showShelter && showCafe && selected.None? && user.None?
    {
      showShelter := true;
      showCafe := true;
      selected := None;
      user := None;
    }

    /** The list beside the map. */
    function Listing(dist: Place -> int): seq<Place>
      reads this
    {
      SortedPlaces(AllPlaces, showShelter, showCafe, user, dist)
    }

    method ToggleShelter()
      modifies this
      ensures showShelter == !old(showShelter)
      ensures showCafe == old(showCafe) && selected == old(selected) && user == old(user)
    {
      showShelter := !showShelter;
    }

    method ToggleCafe()
      modifies this
      ensures showCafe == !old(showCafe)
      ensures showShelter == old(showShelter) && selected == old(selected) && user == old(user)
    {
      showCafe := !showCafe;
    }

    /** Clicking a marker or a list entry, or closing the details (`None`). */
    method Select(p: Option<Place>)
      modifies this
      ensures selected == p
      ensures showShelter == old(showShelter) && showCafe == old(showCafe) && user == old(user)
    {
      selected := p;
    }

    /** The locate button reporting a position. */
    method Locate(coords: Coords)
      modifies this
      ensures user == Some(coords)
      ensures showShelter == old(showShelter) && showCafe == old(showCafe) && selected == old(selected)
    {
      user := Some(coords);
    }
  }
}
