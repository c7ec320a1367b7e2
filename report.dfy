/** The adoptable-animals listing: the search, category and neutered filters, eight
    animals per page with clamped previous/next buttons, and the card click that needs a
    signed-in user. */
module Report {
  import opened Strings
  import Seqs
  import opened Animals

  const PerPage := 8
  const LoginRoute := "/login"
  const DetailPrefix := "/report/"

  /** The category rule: `"cat"` and `"dog"` match exactly, `"other"` is anything but a cat
      or a dog, every other choice (the `"all"` option) keeps everything. */
  predicate MatchesCategory(a: Animal, category: string)
  {
    if category == "cat" || category == "dog" then a.category == category
    else if category == "other" then a.category != "cat" && a.category != "dog"
    else true
  }

  /** The predicate `filteredAnimals` keeps an animal by. */
  predicate Matches(a: Animal, search: string, category: string, onlyNeutered: bool)
  {
    Includes(a.name, search) && MatchesCategory(a, category) && (!onlyNeutered || a.neutered)
  }

  /** `filteredAnimals` */
  function Filtered(animals: seq<Animal>, search: string, category: string, onlyNeutered: bool): seq<Animal>
  {
    Seqs.Filter(animals, (a: Animal) => Matches(a, search, category, onlyNeutered))
  }

  /** The three category choices of the menu, and the neutered toggle, as rules. */
  lemma CategoryRules(a: Animal)
    ensures MatchesCategory(a, "all")
    ensures MatchesCategory(a, "cat") <==> a.category == "cat"
    ensures MatchesCategory(a, "dog") <==> a.category == "dog"
    ensures MatchesCategory(a, "other") <==> a.category != "cat" && a.category != "dog"
    ensures Matches(a, "", "all", false)
    ensures Matches(a, "", "all", true) <==> a.neutered
  {
    IncludesEmpty(a.name);
  }

  /** An animal is listed exactly when it matches, the listing keeps the catalogue's order,
      and it adds nothing. */
  lemma FilteredSpec(animals: seq<Animal>, search: string, category: string, onlyNeutered: bool)
    ensures forall a :: a in Filtered(animals, search, category, onlyNeutered) ==>
              a in animals && Matches(a, search, category, onlyNeutered)
    ensures forall i :: 0 <= i < |animals| && Matches(animals[i], search, category, onlyNeutered) ==>
              animals[i] in Filtered(animals, search, category, onlyNeutered)
    ensures Seqs.OrderedWithin(Filtered(animals, search, category, onlyNeutered), animals)
  {
    var p := (a: Animal) => Matches(a, search, category, onlyNeutered);
    var r := Filtered(animals, search, category, onlyNeutered);
    forall a | a in r ensures a in animals && Matches(a, search, category, onlyNeutered) {
      var i :| 0 <= i < |r| && r[i] == a;
      Seqs.FilterFrom(animals, p, i);
    }
    forall i | 0 <= i < |animals| && Matches(animals[i], search, category, onlyNeutered) ensures animals[i] in r {
      Seqs.FilterKeeps(animals, p, i);
    }
    Seqs.FilterOrdered(animals, p);
  }

  /** With the initial controls (no search text, all categories, toggle off) the whole
      catalogue is listed. */
  lemma FilteredInitially(animals: seq<Animal>)
    ensures Filtered(animals, "", "all", false) == animals
  {
    forall i | 0 <= i < |animals| ensures Matches(animals[i], "", "all", false) {
      IncludesEmpty(animals[i].name);
    }
    Seqs.FilterKeepsAll(animals, (a: Animal) => Matches(a, "", "all", false));
  }

  /** `Math.ceil(n / perPage)` */
  function PageCount(n: nat): nat
  {
    (n + PerPage - 1) / PerPage
  }

  /** The page count is the least number of pages of eight that hold `n` items. */
  lemma PageCountSpec(n: nat)
    ensures PageCount(n) * PerPage >= n
    ensures PageCount(n) > 0 ==> (PageCount(n) - 1) * PerPage < n
    ensures PageCount(n) == 0 <==> n == 0
  {
  }

  function Clamp(i: int, n: nat): nat
  {
    if i < 0 then (if n + i < 0 then 0 else n + i) else if i > n then n else i
  }

  /** `s.slice(start, end)`: negative bounds count from the end, bounds are clamped to the
      sequence, and an empty range gives `[]`. */
  function Slice<T>(s: seq<T>, start: int, end: int): seq<T>
  {
    var lo := Clamp(start, |s|);
    var hi := Clamp(end, |s|);
    if lo < hi then s[lo..hi] else []
  }

  /** `currentAnimals`: the slice from `(currentPage - 1) * perPage` of length `perPage`. */
  function PageItems<T>(list: seq<T>, page: int): seq<T>
  {
    var start := (page - 1) * PerPage;
    Slice(list, start, start + PerPage)
  }

  /** A page holds at most eight items; page `p` from 1 on holds the items from index
      `(p - 1) * 8`; page 0 (reached by "next" with nothing listed) shows nothing. */
  lemma PageItemsSpec<T>(list: seq<T>, page: int)
    ensures |PageItems(list, page)| <= PerPage
    ensures page >= 1 ==> forall k :: 0 <= k < |PageItems(list, page)| ==>
              (page - 1) * PerPage + k < |list| && PageItems(list, page)[k] == list[(page - 1) * PerPage + k]
    ensures page >= 1 && page * PerPage <= |list| ==> |PageItems(list, page)| == PerPage
    ensures page == 0 ==> PageItems(list, page) == []
  {
  }

  /** Every listed item is on exactly the page its index says, and that page exists. */
  lemma EveryItemOnItsPage<T>(list: seq<T>, k: nat)
    requires k < |list|
    ensures 1 <= k / PerPage + 1 <= PageCount(|list|)
    ensures k % PerPage < |PageItems(list, k / PerPage + 1)|
    ensures PageItems(list, k / PerPage + 1)[k % PerPage] == list[k]
  {
    var page := k / PerPage + 1;
    assert (page - 1) * PerPage + k % PerPage == k;
    PageItemsSpec(list, page);
  }

  /** The "previous" button: `Math.max(1, p - 1)`. */
  function PrevPage(p: int): int
  {
    if p - 1 > 1 then p - 1 else 1
  }

  /** The "next" button: `Math.min(totalPages, p + 1)`. */
  function NextPage(p: int, totalPages: nat): int
  {
    if p + 1 < totalPages then p + 1 else totalPages
  }

  /** The pages the buttons can reach: 1 to the page count, and 0 or 1 when nothing is
      listed. */
  predicate PageInRange(p: int, totalPages: nat)
  {
    if totalPages == 0 then 0 <= p <= 1 else 1 <= p <= totalPages
  }

  /** "Previous" never goes below 1 and "next" never past the last page, so with no match
      "next" moves to page 0; both buttons stay within the reachable pages. */
  lemma PageButtonsSpec(p: int, totalPages: nat)
    ensures PrevPage(p) >= 1
    ensures NextPage(p, totalPages) <= totalPages
    ensures totalPages == 0 && p >= 0 ==> NextPage(p, totalPages) == 0
    ensures PageInRange(p, totalPages) ==> PageInRange(PrevPage(p), totalPages)
    ensures PageInRange(p, totalPages) ==> PageInRange(NextPage(p, totalPages), totalPages)
    ensures 1 <= p < totalPages ==> NextPage(p, totalPages) == p + 1
    ensures p > 1 ==> PrevPage(p) == p - 1
  {
  }

  /** `handleAnimalClick(id)`: to the login page without a user, else to the animal's
      detail page. */
  function ClickRoute(signedIn: bool, id: int): string
  {
    if !signedIn then LoginRoute else DetailPrefix + IntToString(id)
  }

  /** A signed-in click always opens a detail page, and different animals open different
      pages. */
  lemma ClickRouteSpec(id: int, other: int)
    ensures ClickRoute(false, id) == LoginRoute
    ensures StartsWith(ClickRoute(true, id), DetailPrefix) && ClickRoute(true, id) != LoginRoute
    ensures ClickRoute(true, id) == ClickRoute(true, other) ==> id == other
  {
    var r := ClickRoute(true, id);
    assert r[..|DetailPrefix|] == DetailPrefix;
    assert r[1] == 'r';
    if r == ClickRoute(true, other) {
      assert IntToString(id) == r[|DetailPrefix|..] == IntToString(other);
      IntToStringInjective(id, other);
    }
  }

  /** The listing page's state. */
  class ReportPage {
    const animals: seq<Animal>
    var currentPage: int
    var search: string
    var category: string
    var onlyNeutered: bool

    function Listed(): seq<Animal>
      reads this
    {
      Filtered(animals, search, category, onlyNeutered)
    }

    function TotalPages(): nat
      reads this
    {
      PageCount(|Listed()|)
    }

    /** The animals shown on the current page. */
    function Shown(): seq<Animal>
      reads this
    {
      PageItems(Listed(), currentPage)
    }

    /** The current page is one the buttons can reach. */
    predicate Valid()
      reads this
    {
      PageInRange(currentPage, TotalPages())
    }

    /** Page 1, no search text, all categories, toggle off. */
    constructor(animals: seq<Animal>)
      ensures this.animals == animals
      ensures currentPage == 1 && search == "" && category == "all" && !onlyNeutered
      ensures Listed() == animals
      ensures Valid()
    {
      this.animals := animals;
      currentPage := 1;
      search := "";
      category := "all";
      onlyNeutered := false;
      FilteredInitially(animals);
    }

    /** Typing in the search box: back to page 1. */
    method SetSearch(text: string)
      requires Valid()
      modifies this
      ensures search == text && currentPage == 1
      ensures category == old(category) && onlyNeutered == old(onlyNeutered)
      ensures Valid()
    {
      currentPage := 1;
      search := text;
    }

    /** Choosing a category: back to page 1. */
    method SetCategory(choice: string)
      requires Valid()
      modifies this
      ensures category == choice && currentPage == 1
      ensures search == old(search) && onlyNeutered == old(onlyNeutered)
      ensures Valid()
    {
      currentPage := 1;
      category := choice;
    }

    /** The neutered toggle: flips and goes back to page 1. */
    method ToggleNeutered()
      requires Valid()
      modifies this
      ensures onlyNeutered == !old(onlyNeutered) && currentPage == 1
      ensures search == old(search) && category == old(category)
      ensures Valid()
    {
      currentPage := 1;
      onlyNeutered := !onlyNeutered;
    }

    method Prev()
      requires Valid()
      modifies this
      ensures currentPage == PrevPage(old(currentPage))
      ensures search == old(search) && category == old(category) && onlyNeutered == old(onlyNeutered)
      ensures Valid()
    {
      PageButtonsSpec(currentPage, TotalPages());
      currentPage := if currentPage - 1 > 1 then currentPage - 1 else 1;
    }

    method Next()
      requires Valid()
      modifies this
      ensures currentPage == NextPage(old(currentPage), old(TotalPages()))
      ensures search == old(search) && category == old(category) && onlyNeutered == old(onlyNeutered)
      ensures Valid()
    {
      var total := TotalPages();
      PageButtonsSpec(currentPage, total);
      currentPage := if currentPage + 1 < total then currentPage + 1 else total;
    }
  }
}
