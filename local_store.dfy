/** The browser's `localStorage` as the pages use it: a map from key to stored text. A cell
    holds either a JSON list of records or some other text; `JSON.stringify`/`JSON.parse`
    themselves are not modelled, a list written is the list read back. */
module LocalStore {
  import opened Wrappers
  import Seqs
  import opened Animals

  /** The records the pages keep in storage lists. */
  datatype Entry =
    | Bookmark(animal: Animal)                  // an `adoptList` entry: the animal itself
    | Adoption(animal: Animal, adoptDate: int)  // a `confirmedAdoptions` entry: `{...animal, adoptDate}`
    | Donation(animalId: int, animalName: string, amount: real, date: int) // a `sponsorList` entry
    | PostRecord(id: int, title: string, createdAt: int, author: string, avatar: string)
    | CommentRecord(id: int, postId: int, postTitle: string, text: string, createdAt: int,
                    author: string, avatar: string)

  /** The record's `id` field; donations have none (`undefined`, equal to no number). */
  function IdOf(e: Entry): Option<int>
  {
    match e
    case Bookmark(a) => Some(a.id)
    case Adoption(a, _) => Some(a.id)
    case Donation(_, _, _, _) => None
    case PostRecord(id, _, _, _, _) => Some(id)
    case CommentRecord(id, _, _, _, _, _, _) => Some(id)
  }

  /** A stored value: a JSON list of records, or other text (which the list readers cannot
      parse as a list). */
  datatype Cell = List(items: seq<Entry>) | Text(raw: string)

  type Cells = map<string, Cell>

  /** `list.find(a => a.id === id)` is truthy: some record carries the id. */
  predicate HasId(items: seq<Entry>, id: int)
  {
    exists i :: 0 <= i < |items| && IdOf(items[i]) == Some(id)
  }

  /** No two records of the list carry the same id. */
  predicate UniqueIds(items: seq<Entry>)
  {
    forall i, j :: 0 <= i < j < |items| && IdOf(items[i]).Some? ==> IdOf(items[i]) != IdOf(items[j])
  }

  /** `list.filter(a => a.id !== id)`: the records not carrying the id, in their order. */
  function WithoutId(items: seq<Entry>, id: int): seq<Entry>
  {
    Seqs.Filter(items, (e: Entry) => IdOf(e) != Some(id))
  }

  /** After the removal no record carries the id, every record with another id is kept,
      and nothing new appears. */
  lemma WithoutIdSpec(items: seq<Entry>, id: int)
    ensures !HasId(WithoutId(items, id), id)
    ensures forall i :: 0 <= i < |items| && IdOf(items[i]) != Some(id) ==> items[i] in WithoutId(items, id)
    ensures forall e :: e in WithoutId(items, id) ==> e in items
  {
    var p := (e: Entry) => IdOf(e) != Some(id);
    forall i | 0 <= i < |items| && IdOf(items[i]) != Some(id) ensures items[i] in WithoutId(items, id) {
      Seqs.FilterKeeps(items, p, i);
    }
    forall e | e in WithoutId(items, id) ensures e in items {
      var i :| 0 <= i < |WithoutId(items, id)| && WithoutId(items, id)[i] == e;
      Seqs.FilterFrom(items, p, i);
    }
  }

  /** Removal keeps the relative order of the records it keeps. */
  lemma WithoutIdOrder(items: seq<Entry>, id: int)
    ensures Seqs.OrderedWithin(WithoutId(items, id), items)
  {
    Seqs.FilterOrdered(items, (e: Entry) => IdOf(e) != Some(id));
  }

  /** Removing an id no record carries leaves the list as it was. */
  lemma WithoutIdAbsent(items: seq<Entry>, id: int)
    requires !HasId(items, id)
    ensures WithoutId(items, id) == items
  {
    Seqs.FilterKeepsAll(items, (e: Entry) => IdOf(e) != Some(id));
  }

  /** Removing the same id twice is removing it once. */
  lemma WithoutIdIdempotent(items: seq<Entry>, id: int)
    ensures WithoutId(WithoutId(items, id), id) == WithoutId(items, id)
  {
    WithoutIdSpec(items, id);
    WithoutIdAbsent(WithoutId(items, id), id);
  }

  /** Removal keeps distinct ids distinct. */
  lemma WithoutIdUnique(items: seq<Entry>, id: int)
    requires UniqueIds(items)
    ensures UniqueIds(WithoutId(items, id))
  {
    var p := (e: Entry) => IdOf(e) != Some(id);
    var r := WithoutId(items, id);
    forall i, j | 0 <= i < j < |r| && IdOf(r[i]).Some? ensures IdOf(r[i]) != IdOf(r[j]) {
      Seqs.FilterPairs(items, p, i, j);
    }
  }

  /** `JSON.parse(localStorage.getItem(key)) || []`: a missing key reads as the empty list
      (`JSON.parse(null)` is `null`); other text makes the page code throw (`None`). */
  function ParsedOrEmpty(cells: Cells, key: string): Option<seq<Entry>>
  {
    if key !in cells then Some([])
    else match cells[key]
      case List(items) => Some(items)
      case Text(_) => None
  }

  /** `JSON.parse(localStorage.getItem(key) || "[]")`: a missing key and the empty string
      read as the empty list; other text throws (`None`). */
  function ParsedOrEmptyText(cells: Cells, key: string): Option<seq<Entry>>
  {
    if key !in cells then Some([])
    else match cells[key]
      case List(items) => Some(items)
      case Text(raw) => if raw == "" then Some([]) else None
  }

  /** `localStorage.getItem(key)` is truthy: the key is present and not the empty string
      (a serialised list is never empty text). */
  predicate IsSet(cells: Cells, key: string)
  {
    key in cells && cells[key] != Text("")
  }

  /** The storage object the pages share. */
  class Storage {
    var cells: Cells

    constructor(initial: Cells)
      ensures cells == initial
    {
      cells := initial;
    }

    /** `localStorage.setItem(key, JSON.stringify(items))` */
    method SetList(key: string, items: seq<Entry>)
      modifies this
      ensures cells == old(cells)[key := List(items)]
    {
      cells := cells[key := List(items)];
    }

    /** `localStorage.removeItem(key)` */
    method Remove(key: string)
      modifies this
      ensures cells == old(cells) - {key}
    {
      cells := cells - {key};
    }
  }
}
