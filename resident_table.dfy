/** `src/components/board/ResidentTable.tsx`: the board's resident list, with its search filter and
    the confirmed delete. */
module ResidentTable {
  import opened Wrappers
  import opened Text
  import opened Seqs

  datatype Resident = Resident(
    id: string, firstName: string, lastName: string, email: string, phone: string,
    lotNumber: string, address: string, status: string)

  datatype Write = DeleteResident(id: string)

  /** `${first_name} ${last_name}`. */
  function FullName(r: Resident): string {
    r.firstName + " " + r.lastName
  }

  /** The search test: the lower-cased "first last" or the lower-cased lot number contains the
      lower-cased query. */
  predicate Matches(search: string, r: Resident) {
    var q := Lower(search);
    Contains(Lower(FullName(r)), q) || Contains(Lower(r.lotNumber), q)
  }

  /** `filtered`: the residents the search keeps, in their order. */
  function Filtered(residents: seq<Resident>, search: string): (r: seq<Resident>)
    ensures Subseq(r, residents) && multiset(r) <= multiset(residents)
    ensures forall x :: x in r <==> x in residents && Matches(search, x)
  {
    Filter(residents, (x: Resident) => Matches(search, x))
  }

  /** A resident is kept exactly when the query occurs somewhere in its lower-cased full name or
      lot number. */
  lemma MatchesIff(search: string, r: Resident)
    ensures Matches(search, r) <==>
      (exists k :: OccursAt(Lower(FullName(r)), Lower(search), k))
      || (exists k :: OccursAt(Lower(r.lotNumber), Lower(search), k))
  {
    var name, lot, q := Lower(FullName(r)), Lower(r.lotNumber), Lower(search);
    ContainsIff(name, q);
    ContainsIff(lot, q);
    if exists k :: OccursAt(name, q, k) {
      assert Matches(search, r);
    }
    if exists k :: OccursAt(lot, q, k) {
      assert Matches(search, r);
    }

  }

  /** An empty search box shows every resident. */
  lemma EmptySearchKeepsAll(residents: seq<Resident>)
    ensures Filtered(residents, "") == residents
  {
    forall x | x in residents ensures Matches("", x) {
      EveryStringContainsEmpty(Lower(x.lotNumber));
    }
    FilterKeepsAll(residents, (x: Resident) => Matches("", x));
  }

  /** Searches that differ only in the case of ASCII letters show the same residents. */
  lemma SearchCaseInsensitive(residents: seq<Resident>, a: string, b: string)
    requires Lower(a) == Lower(b)
    ensures Filtered(residents, a) == Filtered(residents, b)
  {
    FilterAgrees(residents, (x: Resident) => Matches(a, x), (x: Resident) => Matches(b, x));
  }

  /** The list after deleting `id`: every resident with another id, in order. */
  function Without(residents: seq<Resident>, id: string): (r: seq<Resident>)
    ensures Subseq(r, residents)
    ensures forall x :: x in r <==> x in residents && x.id != id
  {
    Filter(residents, (x: Resident) => x.id != id)
  }

  /** Deleting an id that is not in the list changes nothing, and deleting twice is deleting once. */
  lemma WithoutAbsent(residents: seq<Resident>, id: string)
    requires forall x :: x in residents ==> x.id != id
    ensures Without(residents, id) == residents
  {
    FilterKeepsAll(residents, (x: Resident) => x.id != id);
  }

  lemma WithoutTwice(residents: seq<Resident>, id: string)
    ensures Without(Without(residents, id), id) == Without(residents, id)
  {
    WithoutAbsent(Without(residents, id), id);
  }

  class Component {
    var residents: seq<Resident>
    var search: string
    var deleteId: Option<string>
    var deleteOpen: bool
    /** The `residents` deletes sent so far, in order. */
    var writes: seq<Write>

    constructor ()
      ensures residents == [] && search == "" && deleteId == None && !deleteOpen && writes == []
    {
      residents := [];
      search := "";
      deleteId := None;
      deleteOpen := false;
      writes := [];
    }

    /** The rows the table shows. */
    function Shown(): seq<Resident>
      reads this
    {
      Filtered(residents, search)
    }

    /** The delete button of a row: remembers the id and opens the confirmation. */
    method AskDelete(id: string)
      modifies this
      ensures deleteId == Some(id) && deleteOpen
      ensures residents == old(residents) && search == old(search) && writes == old(writes)
    {
      deleteId := Some(id);
      deleteOpen := true;
    }

    /** `handleDelete`: with no id to delete (null or '') nothing happens; otherwise the row is
        deleted, every resident with that id leaves the list, and the dialog closes. */
    method HandleDelete()
      modifies this
      ensures old(deleteId) == None || old(deleteId) == Some("") ==>
        residents == old(residents) && deleteId == old(deleteId) && deleteOpen == old(deleteOpen)
        && writes == old(writes)
      ensures old(deleteId).Some? && old(deleteId) != Some("") ==>
        writes == old(writes) + [DeleteResident(old(deleteId).value)]
        && residents == Without(old(residents), old(deleteId).value)
        && deleteId == None && !deleteOpen
      ensures search == old(search)
    {
      if deleteId == None || deleteId == Some("") {
        return;
      }
      var id := deleteId.value;
      writes := writes + [DeleteResident(id)];
      residents := Without(residents, id);
      deleteId := None;
      deleteOpen := false;
    }
  }
}
