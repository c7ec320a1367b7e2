/** The donation ledger (`sponsorList`): the donate dialog that validates an amount and
    appends a record, the per-animal total on the detail page, and the sponsor list page
    that shows the records newest first with their overall total. */
module Donations {
  import opened Wrappers
  import Seqs
  import opened LocalStore

  const SponsorKey := "sponsorList"

  /** A JavaScript number as `Number(amount)` yields it: `NaN` or a finite value. */
  datatype Num = NaN | Finite(value: real)

  /** A number is truthy unless it is `0` or `NaN`. */
  predicate Truthy(n: Num)
  {
    n.Finite? && n.value != 0.0
  }

  /** `!numAmount || numAmount <= 0` (a comparison with `NaN` is false). */
  predicate Rejected(n: Num)
  {
    !Truthy(n) || (n.Finite? && n.value <= 0.0)
  }

  /** An amount is accepted exactly when it is a number above zero. */
  lemma AcceptedIff(n: Num)
    ensures !Rejected(n) <==> n.Finite? && n.value > 0.0
    ensures Rejected(NaN) && Rejected(Finite(0.0))
  {
  }

  /** The preset buttons of the dialog. */
  const Presets: seq<real> := [50.0, 100.0, 300.0, 500.0]

  /** Every preset amount passes the validation. */
  lemma PresetsAccepted()
    ensures forall i :: 0 <= i < |Presets| ==> !Rejected(Finite(Presets[i]))
  {
  }

  /** How `donate` ends: a rejected amount writes nothing, a stored value that is not a
      JSON list throws, otherwise the thank-you names the amount. */
  datatype DonateOutcome = InvalidAmount | Thanked(amount: real) | DonateThrew

  datatype DonateStep = DonateStep(cells: Cells, outcome: DonateOutcome)

  /** `DonateModal.donate(amount)` for the animal the dialog was opened on; `date` is the
      opaque timestamp of the record. */
  function Donated(cells: Cells, animalId: int, animalName: string, amount: Num, date: int): DonateStep
  {
    if Rejected(amount) then DonateStep(cells, InvalidAmount)
    else match ParsedOrEmpty(cells, SponsorKey)
      case None => DonateStep(cells, DonateThrew)
      case Some(records) =>
        DonateStep(cells[SponsorKey := List(records + [Donation(animalId, animalName, amount.value, date)])],
                   Thanked(amount.value))
  }

  /** `donate` as the dialog runs it. */
  method Donate(store: Storage, animalId: int, animalName: string, amount: Num, date: int)
    returns (outcome: DonateOutcome)
    modifies store
    ensures DonateStep(store.cells, outcome) == Donated(old(store.cells), animalId, animalName, amount, date)
  {
    if !Truthy(amount) || amount.value <= 0.0 {
      return InvalidAmount;
    }
    var records := ParsedOrEmpty(store.cells, SponsorKey);
    if records.None? {
      return DonateThrew;
    }
    store.SetList(SponsorKey, records.value + [Donation(animalId, animalName, amount.value, date)]);
    outcome := Thanked(amount.value);
  }

  /** The amount a record adds to a total (records of other shapes carry none). */
  function AmountOf(e: Entry): real
  {
    if e.Donation? then e.amount else 0.0
  }

  /** `records.reduce((sum, item) => sum + Number(item.amount), 0)`: a left fold. */
  function Total(records: seq<Entry>): real
  {
    if records == [] then 0.0 else Total(records[..|records| - 1]) + AmountOf(records[|records| - 1])
  }

  /** The records of the animal whose page is shown (`r.animalId === Number(id)`). */
  function DonationsTo(records: seq<Entry>, routeId: Option<int>): seq<Entry>
  {
    Seqs.Filter(records, (e: Entry) => e.Donation? && Some(e.animalId) == routeId)
  }

  /** `totalDonated` on the detail page. */
  function TotalDonated(records: seq<Entry>, routeId: Option<int>): real
  {
    Total(DonationsTo(records, routeId))
  }

  /** The detail page shows its donation badge when the animal has received something. */
  predicate BadgeShown(totalDonated: real)
  {
    totalDonated > 0.0
  }

  /** Every stored donation is above zero. */
  predicate PositiveLedger(records: seq<Entry>)
  {
    forall i :: 0 <= i < |records| ==> AmountOf(records[i]) >= 0.0 && (records[i].Donation? ==> records[i].amount > 0.0)
  }

  /** The total of a concatenation is the sum of the totals. */
  lemma {:induction false} TotalConcat(a: seq<Entry>, b: seq<Entry>)
    ensures Total(a + b) == Total(a) + Total(b)
    decreases |b|
  {
    if b == [] {
      assert a + b == a;
    } else {
      var c := b[..|b| - 1];
      assert (a + b)[..|a + b| - 1] == a + c;
      TotalConcat(a, c);
    }
  }

  /** In exact real arithmetic the total does not depend on the order of the records. */
  lemma {:induction false} TotalPermutation(a: seq<Entry>, b: seq<Entry>)
    requires multiset(a) == multiset(b)
    ensures Total(a) == Total(b)
    decreases |a|
  {
    if a != [] {
      var x := a[|a| - 1];
      var init := a[..|a| - 1];
      assert a == init + [x];
      assert x in multiset(b);
      var k :| 0 <= k < |b| && b[k] == x;
      var rest := b[..k] + b[k + 1..];
      assert b == b[..k] + [x] + b[k + 1..];
      assert multiset(a) == multiset(init) + multiset{x};
      assert multiset(b) == multiset(b[..k]) + multiset{x} + multiset(b[k + 1..]);
      assert multiset(rest) == multiset(b[..k]) + multiset(b[k + 1..]);
      assert multiset(init) == multiset(a) - multiset{x};
      assert multiset(rest) == multiset(b) - multiset{x};
      TotalPermutation(init, rest);
      TotalConcat(b[..k] + [x], b[k + 1..]);
      TotalConcat(b[..k], [x]);
      TotalConcat(b[..k], b[k + 1..]);
      assert Total([x]) == AmountOf(x) by {
        assert [x][..0] == [];
      }
    }
  }

  /** A ledger of positive donations has a total of at least zero, and no animal's share
      exceeds it. */
  lemma {:induction false} TotalBounds(records: seq<Entry>, routeId: Option<int>)
    requires PositiveLedger(records)
    ensures Total(records) >= 0.0
    ensures 0.0 <= TotalDonated(records, routeId) <= Total(records)
    decreases |records|
  {
    if records != [] {
      var x := records[|records| - 1];
      var init := records[..|records| - 1];
      assert records == init + [x];
      TotalBounds(init, routeId);
      var p := (e: Entry) => e.Donation? && Some(e.animalId) == routeId;
      Seqs.FilterConcat(init, [x], p);
      TotalConcat(DonationsTo(init, routeId), Seqs.Filter([x], p));
      assert Seqs.Filter([x], p) == if p(x) then [x] else [];
      assert Total([x]) == AmountOf(x) by {
        assert [x][..0] == [];
      }
    }
  }

  /** An animal without donations has a total of zero and no badge. */
  lemma TotalDonatedNone(records: seq<Entry>, routeId: Option<int>)
    requires forall i :: 0 <= i < |records| ==> !(records[i].Donation? && Some(records[i].animalId) == routeId)
    ensures TotalDonated(records, routeId) == 0.0
    ensures !BadgeShown(TotalDonated(records, routeId))
  {
    Seqs.FilterKeepsNone(records, (e: Entry) => e.Donation? && Some(e.animalId) == routeId);
  }

  /** Appending one positive donation to the ledger raises the overall total and the
      total of the animal it names by its amount, and keeps the ledger positive. */
  lemma AppendDonation(records: seq<Entry>, animalId: int, animalName: string, amount: real, date: int)
    requires amount > 0.0
    ensures var after := records + [Donation(animalId, animalName, amount, date)];
            && Total(after) == Total(records) + amount
            && TotalDonated(after, Some(animalId)) == TotalDonated(records, Some(animalId)) + amount
            && (PositiveLedger(records) ==> PositiveLedger(after))
  {
    var d := Donation(animalId, animalName, amount, date);
    var after := records + [d];
    assert after[..|after| - 1] == records;
    var p := (e: Entry) => e.Donation? && Some(e.animalId) == Some(animalId);
    Seqs.FilterConcat(records, [d], p);
    assert Seqs.Filter([d], p) == [d];
    TotalConcat(DonationsTo(records, Some(animalId)), [d]);
    assert Total([d]) == amount by {
      assert [d][..0] == [];
    }
    if PositiveLedger(records) {
      forall i | 0 <= i < |after| ensures AmountOf(after[i]) >= 0.0 && (after[i].Donation? ==> after[i].amount > 0.0) {
        if i < |records| { assert after[i] == records[i]; }
      }
    }
  }

  /** A rejected amount writes nothing; an accepted one appends exactly one record at the
      end of a readable ledger, with the consequences `AppendDonation` states. */
  lemma DonatedSpec(cells: Cells, animalId: int, animalName: string, amount: Num, date: int)
    ensures Donated(cells, animalId, animalName, amount, date).outcome == InvalidAmount <==> Rejected(amount)
    ensures Donated(cells, animalId, animalName, amount, date).outcome == DonateThrew <==>
              !Rejected(amount) && ParsedOrEmpty(cells, SponsorKey).None?
    ensures Donated(cells, animalId, animalName, amount, date).outcome.Thanked? ==>
              && amount.Finite? && amount.value > 0.0
              && Donated(cells, animalId, animalName, amount, date).outcome.amount == amount.value
              && ParsedOrEmpty(cells, SponsorKey).Some?
              && ParsedOrEmpty(Donated(cells, animalId, animalName, amount, date).cells, SponsorKey)
                 == Some(ParsedOrEmpty(cells, SponsorKey).value + [Donation(animalId, animalName, amount.value, date)])
    ensures !Donated(cells, animalId, animalName, amount, date).outcome.Thanked? ==>
              Donated(cells, animalId, animalName, amount, date).cells == cells
  {
  }

  /** Newest first: the stable sort ascending by the negated instant. How the source
      compares records whose date is not a valid date is not part of this model. */
  function NewestKey(e: Entry): int
  {
    if e.Donation? then -e.date else 0
  }

  /** What the sponsor list page shows. */
  datatype SponsorView = SponsorView(sponsors: seq<Entry>, total: real)

  /** The sponsor list effect: read the ledger, sort it in place newest first, then sum
      the sorted array. `None` when the stored value is not a JSON list. */
  method LoadSponsors(store: Storage) returns (r: Option<SponsorView>)
    ensures r.None? <==> ParsedOrEmpty(store.cells, SponsorKey).None?
    ensures r.Some? ==> r.value.sponsors == Seqs.SortBy(ParsedOrEmpty(store.cells, SponsorKey).value, NewestKey)
    ensures r.Some? ==> r.value.total == Total(ParsedOrEmpty(store.cells, SponsorKey).value)
  {
    var records := ParsedOrEmpty(store.cells, SponsorKey);
    if records.None? {
      return None;
    }
    var a := new Entry[|records.value|](i requires 0 <= i < |records.value| => records.value[i]);
    assert a[..] == records.value;
    Seqs.SortInPlace(a, NewestKey);
    var total := Total(a[..]);
    Seqs.SortBySorted(records.value, NewestKey);
    TotalPermutation(a[..], records.value);
    r := Some(SponsorView(a[..], total));
  }

  /** The shown list is a permutation of the stored records, newest first, and its total is
      the total of the stored records. */
  lemma SponsorViewSpec(records: seq<Entry>)
    ensures multiset(Seqs.SortBy(records, NewestKey)) == multiset(records)
    ensures forall i, j :: 0 <= i < j < |records| ==>
              NewestKey(Seqs.SortBy(records, NewestKey)[i]) <= NewestKey(Seqs.SortBy(records, NewestKey)[j])
    ensures Total(Seqs.SortBy(records, NewestKey)) == Total(records)
  {
    Seqs.SortBySorted(records, NewestKey);
    TotalPermutation(Seqs.SortBy(records, NewestKey), records);
  }
}
