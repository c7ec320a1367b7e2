/** The adoption bookmark list (`adoptList`) and the confirmed adoptions
    (`confirmedAdoptions`): confirming an adoption, bookmarking an animal from its detail
    page, and the list page that shows both and removes bookmarks. */
module Adoption {
  import opened Wrappers
  import Seqs
  import opened Animals
  import opened LocalStore

  const AdoptListKey := "adoptList"
  const ConfirmedKey := "confirmedAdoptions"
  const UserKey := "user"
  const AdoptListRoute := "/adoptlist"

  /** How `handleConfirm` ends: nothing happens without an animal, a stored list that is
      not a JSON list throws, otherwise the page navigates. */
  datatype ConfirmOutcome = NoAnimal | Navigated(route: string) | Threw

  datatype ConfirmStep = ConfirmStep(cells: Cells, outcome: ConfirmOutcome)

  /** `handleConfirm` on the storage `cells`, for the animal the route found and the
      adoption date (an opaque timestamp). */
  function Confirmed(cells: Cells, animal: Option<Animal>, date: int): ConfirmStep
  {
    if animal.None? then ConfirmStep(cells, NoAnimal)
    else
      var a := animal.value;
      match ParsedOrEmpty(cells, ConfirmedKey)
      case None => ConfirmStep(cells, Threw)
      case Some(confirmed) =>
        var recorded := if HasId(confirmed, a.id) then cells
                        else cells[ConfirmedKey := List(confirmed + [Adoption(a, date)])];
        match ParsedOrEmpty(recorded, AdoptListKey)
        case None => ConfirmStep(recorded, Threw)
        case Some(waiting) =>
          ConfirmStep(recorded[AdoptListKey := List(WithoutId(waiting, a.id))], Navigated(AdoptListRoute))
  }

  /** The list under `key`, when the key holds one. */
  function StoredList(cells: Cells, key: string): Option<seq<Entry>>
  {
    if key in cells && cells[key].List? then Some(cells[key].items) else None
  }

  /** What `handleConfirm` promises: without an animal nothing changes; a completed
      confirmation leaves the animal among the confirmed adoptions (appended with its date
      only if it was not there yet, the earlier records untouched) and not among the
      bookmarks, the other bookmarks kept, and goes to the adoption list page; a stored
      value that is not a list throws; no other key changes. */
  lemma ConfirmedSpec(cells: Cells, animal: Option<Animal>, date: int)
    ensures animal.None? ==> Confirmed(cells, animal, date) == ConfirmStep(cells, NoAnimal)
    ensures var r := Confirmed(cells, animal, date);
            r.outcome.Navigated? ==>
              && animal.Some?
              && r.outcome.route == AdoptListRoute
              && StoredList(r.cells, ConfirmedKey).Some?
              && HasId(StoredList(r.cells, ConfirmedKey).value, animal.value.id)
              && StoredList(r.cells, AdoptListKey).Some?
              && !HasId(StoredList(r.cells, AdoptListKey).value, animal.value.id)
    ensures var r := Confirmed(cells, animal, date);
            r.outcome.Navigated? ==>
              var before := ParsedOrEmpty(cells, ConfirmedKey).value;
              var after := StoredList(r.cells, ConfirmedKey).value;
              after == if HasId(before, animal.value.id) then before
                       else before + [Adoption(animal.value, date)]
    ensures var r := Confirmed(cells, animal, date);
            r.outcome.Navigated? ==>
              StoredList(r.cells, AdoptListKey).value == WithoutId(ParsedOrEmpty(cells, AdoptListKey).value, animal.value.id)
    ensures animal.Some? ==>
              (Confirmed(cells, animal, date).outcome == Threw
               <==> ParsedOrEmpty(cells, ConfirmedKey).None? || ParsedOrEmpty(cells, AdoptListKey).None?)
    ensures var r := Confirmed(cells, animal, date);
            forall k :: k != ConfirmedKey && k != AdoptListKey ==> (k in r.cells <==> k in cells)
    ensures var r := Confirmed(cells, animal, date);
            forall k :: k != ConfirmedKey && k != AdoptListKey && k in cells ==> r.cells[k] == cells[k]
  {
    var r := Confirmed(cells, animal, date);
    if animal.Some? && r.outcome.Navigated? {
      var a := animal.value;
      var confirmed := ParsedOrEmpty(cells, ConfirmedKey).value;
      var waiting := ParsedOrEmpty(cells, AdoptListKey).value;
      WithoutIdSpec(waiting, a.id);
      if !HasId(confirmed, a.id) {
        assert (confirmed + [Adoption(a, date)])[|confirmed|] == Adoption(a, date);
      }
    }
  }

  /** Confirming the same animal again, once a confirmation has completed, changes
      nothing and navigates again. */
  lemma ConfirmedIdempotent(cells: Cells, animal: Option<Animal>, date: int, later: int)
    requires Confirmed(cells, animal, date).outcome.Navigated?
    ensures Confirmed(Confirmed(cells, animal, date).cells, animal, later) == Confirmed(cells, animal, date)
  {
    var r := Confirmed(cells, animal, date);
    ConfirmedSpec(cells, animal, date);
    var a := animal.value;
    var waiting := ParsedOrEmpty(cells, AdoptListKey).value;
    WithoutIdIdempotent(waiting, a.id);
    assert r.cells[AdoptListKey := List(WithoutId(WithoutId(waiting, a.id), a.id))] == r.cells;
  }

  /** Confirmation keeps the ids of both lists unique. */
  lemma ConfirmedKeepsUnique(cells: Cells, animal: Option<Animal>, date: int)
    requires StoredList(cells, ConfirmedKey).Some? ==> UniqueIds(StoredList(cells, ConfirmedKey).value)
    requires StoredList(cells, AdoptListKey).Some? ==> UniqueIds(StoredList(cells, AdoptListKey).value)
    ensures var r := Confirmed(cells, animal, date).cells;
            StoredList(r, ConfirmedKey).Some? ==> UniqueIds(StoredList(r, ConfirmedKey).value)
    ensures var r := Confirmed(cells, animal, date).cells;
            StoredList(r, AdoptListKey).Some? ==> UniqueIds(StoredList(r, AdoptListKey).value)
  {
    var r := Confirmed(cells, animal, date);
    if animal.Some? && ParsedOrEmpty(cells, ConfirmedKey).Some? {
      var a := animal.value;
      var confirmed := ParsedOrEmpty(cells, ConfirmedKey).value;
      if !HasId(confirmed, a.id) {
        AppendAbsentUnique(confirmed, Adoption(a, date), a.id);
      }
      if r.outcome.Navigated? {
        WithoutIdUnique(ParsedOrEmpty(cells, AdoptListKey).value, a.id);
      }
    }
  }

  /** Appending a record whose id the list does not carry keeps the ids unique. */
  lemma AppendAbsentUnique(items: seq<Entry>, e: Entry, id: int)
    requires UniqueIds(items) && IdOf(e) == Some(id) && !HasId(items, id)
    ensures UniqueIds(items + [e])
  {
    var t := items + [e];
    forall i, j | 0 <= i < j < |t| && IdOf(t[i]).Some? ensures IdOf(t[i]) != IdOf(t[j]) {
      if j == |items| {
        assert t[i] == items[i];
      } else {
        assert t[i] == items[i] && t[j] == items[j];
      }
    }
  }

  /** `handleConfirm` as the page runs it: look the animal up, record the adoption if it
      is new, drop the bookmark, navigate. */
  method Confirm(store: Storage, animals: seq<Animal>, routeId: Option<int>, date: int)
    returns (outcome: ConfirmOutcome)
    modifies store
    ensures ConfirmStep(store.cells, outcome) == Confirmed(old(store.cells), FindAnimal(animals, routeId), date)
  {
    var animal := FindAnimal(animals, routeId);
    if animal.None? {
      return NoAnimal;
    }
    var a := animal.value;
    var confirmed := ParsedOrEmpty(store.cells, ConfirmedKey);
    if confirmed.None? {
      return Threw;
    }
    if !HasId(confirmed.value, a.id) {
      store.SetList(ConfirmedKey, confirmed.value + [Adoption(a, date)]);
    }
    var waiting := ParsedOrEmpty(store.cells, AdoptListKey);
    if waiting.None? {
      return Threw;
    }
    store.SetList(AdoptListKey, WithoutId(waiting.value, a.id));
    outcome := Navigated(AdoptListRoute);
  }

  /** How `addToAdoptList` ends. */
  datatype AddOutcome = LoginRequired | Added | AlreadyListed | AddThrew

  datatype AddStep = AddStep(cells: Cells, outcome: AddOutcome)

  /** `addToAdoptList` on the detail page of `animal`. */
  function AddedToList(cells: Cells, animal: Animal): AddStep
  {
    if !IsSet(cells, UserKey) then AddStep(cells, LoginRequired)
    else match ParsedOrEmpty(cells, AdoptListKey)
      case None => AddStep(cells, AddThrew)
      case Some(list) =>
        if HasId(list, animal.id) then AddStep(cells, AlreadyListed)
        else AddStep(cells[AdoptListKey := List(list + [Bookmark(animal)])], Added)
  }

  /** Without a stored user nothing changes; a new animal is appended at the end with the
      earlier bookmarks kept, a listed one leaves the list as it was; either way the animal
      is then bookmarked. */
  lemma AddedToListSpec(cells: Cells, animal: Animal)
    ensures AddedToList(cells, animal).outcome == LoginRequired <==> !IsSet(cells, UserKey)
    ensures AddedToList(cells, animal).outcome != Added ==> AddedToList(cells, animal).cells == cells
    ensures AddedToList(cells, animal).outcome == Added ==>
              AddedToList(cells, animal).cells
              == cells[AdoptListKey := List(ParsedOrEmpty(cells, AdoptListKey).value + [Bookmark(animal)])]
    ensures AddedToList(cells, animal).outcome in {Added, AlreadyListed} ==>
              HasId(ParsedOrEmpty(AddedToList(cells, animal).cells, AdoptListKey).value, animal.id)
  {
    var r := AddedToList(cells, animal);
    if r.outcome == Added {
      var list := ParsedOrEmpty(cells, AdoptListKey).value;
      assert (list + [Bookmark(animal)])[|list|] == Bookmark(animal);
    }
  }

  /** Bookmarking twice is bookmarking once: the second call finds the animal listed. */
  lemma AddedToListIdempotent(cells: Cells, animal: Animal)
    requires AddedToList(cells, animal).outcome == Added
    ensures AddedToList(AddedToList(cells, animal).cells, animal)
            == AddStep(AddedToList(cells, animal).cells, AlreadyListed)
  {
    AddedToListSpec(cells, animal);
    assert IsSet(AddedToList(cells, animal).cells, UserKey);
  }

  /** Bookmarking keeps the bookmark ids unique. */
  lemma AddedToListKeepsUnique(cells: Cells, animal: Animal)
    requires StoredList(cells, AdoptListKey).Some? ==> UniqueIds(StoredList(cells, AdoptListKey).value)
    ensures var r := AddedToList(cells, animal).cells;
            StoredList(r, AdoptListKey).Some? ==> UniqueIds(StoredList(r, AdoptListKey).value)
  {
    if AddedToList(cells, animal).outcome == Added {
      AppendAbsentUnique(ParsedOrEmpty(cells, AdoptListKey).value, Bookmark(animal), animal.id);
    }
  }

  /** `addToAdoptList` as the page runs it. */
  method AddToAdoptList(store: Storage, animal: Animal) returns (outcome: AddOutcome)
    modifies store
    ensures AddStep(store.cells, outcome) == AddedToList(old(store.cells), animal)
  {
    if !IsSet(store.cells, UserKey) {
      return LoginRequired;
    }
    var list := ParsedOrEmpty(store.cells, AdoptListKey);
    if list.None? {
      return AddThrew;
    }
    if HasId(list.value, animal.id) {
      return AlreadyListed;
    }
    store.SetList(AdoptListKey, list.value + [Bookmark(animal)]);
    outcome := Added;
  }

  /** The lists the adoption list page shows after its mount effect; `loaded` is false when
      a stored value is not a list and the effect throws part-way. */
  datatype Shown = Shown(waiting: seq<Entry>, confirmed: seq<Entry>, loaded: bool)

  function LoadedLists(cells: Cells, waiting: seq<Entry>, confirmed: seq<Entry>): Shown
  {
    match ParsedOrEmpty(cells, AdoptListKey)
    case None => Shown(waiting, confirmed, false)
    case Some(w) =>
      match ParsedOrEmpty(cells, ConfirmedKey)
      case None => Shown(w, confirmed, false)
      case Some(c) => Shown(w, c, true)
  }

  /** Each missing key loads as an empty list and each stored list as stored. An unreadable
      `adoptList` throws before either list is set; an unreadable `confirmedAdoptions`
      throws after the waiting list is set. */
  lemma LoadedListsSpec(cells: Cells, waiting: seq<Entry>, confirmed: seq<Entry>)
    ensures AdoptListKey !in cells && ConfirmedKey !in cells ==>
              LoadedLists(cells, waiting, confirmed) == Shown([], [], true)
    ensures AdoptListKey !in cells ==> ParsedOrEmpty(cells, AdoptListKey) == Some([])
    ensures ConfirmedKey !in cells ==> ParsedOrEmpty(cells, ConfirmedKey) == Some([])
    ensures ParsedOrEmpty(cells, AdoptListKey).Some? && ParsedOrEmpty(cells, ConfirmedKey).Some? ==>
              LoadedLists(cells, waiting, confirmed)
              == Shown(ParsedOrEmpty(cells, AdoptListKey).value, ParsedOrEmpty(cells, ConfirmedKey).value, true)
    ensures ParsedOrEmpty(cells, AdoptListKey).None? ==>
              LoadedLists(cells, waiting, confirmed) == Shown(waiting, confirmed, false)
    ensures ParsedOrEmpty(cells, AdoptListKey).Some? && ParsedOrEmpty(cells, ConfirmedKey).None? ==>
              LoadedLists(cells, waiting, confirmed) == Shown(ParsedOrEmpty(cells, AdoptListKey).value, confirmed, false)
    ensures StoredList(cells, AdoptListKey).Some? && StoredList(cells, ConfirmedKey).Some? ==>
              LoadedLists(cells, waiting, confirmed)
              == Shown(StoredList(cells, AdoptListKey).value, StoredList(cells, ConfirmedKey).value, true)
    ensures LoadedLists(cells, waiting, confirmed).loaded <==>
              ParsedOrEmpty(cells, AdoptListKey).Some? && ParsedOrEmpty(cells, ConfirmedKey).Some?
  {
  }

  /** The adoption list page: the bookmarks still waiting and the confirmed adoptions. */
  class AdoptListPage {
    var waiting: seq<Entry>
    var confirmed: seq<Entry>

    /** Both lists start empty (`useState([])`). */
    constructor()
      ensures waiting == [] && confirmed == []
    {
      waiting := [];
      confirmed := [];
    }

    /** The mount effect: read both keys. */
    method Load(store: Storage) returns (loaded: bool)
      modifies this
      ensures Shown(waiting, confirmed, loaded) == LoadedLists(store.cells, old(waiting), old(confirmed))
    {
      var w := ParsedOrEmpty(store.cells, AdoptListKey);
      if w.None? {
        return false;
      }
      waiting := w.value;
      var c := ParsedOrEmpty(store.cells, ConfirmedKey);
      if c.None? {
        return false;
      }
      confirmed := c.value;
      loaded := true;
    }

    /** `removeAnimal(id)`: the shown bookmarks lose the id and are written back, so the
        stored and the shown waiting lists agree; the confirmed list is not touched. */
    method RemoveAnimal(store: Storage, id: int)
      modifies this, store
      ensures waiting == WithoutId(old(waiting), id)
      ensures confirmed == old(confirmed)
      ensures store.cells == old(store.cells)[AdoptListKey := List(waiting)]
    {
      var newList := WithoutId(waiting, id);
      store.SetList(AdoptListKey, newList);
      waiting := newList;
    }
  }
}
