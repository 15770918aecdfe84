/** `src/components/board/AnnouncementTable.tsx`: the board's announcement list, with the priority
    colour, the published switch and the confirmed delete. */
module AnnouncementTable {
  import opened Wrappers
  import opened Seqs
  import opened Chips

  datatype Announcement = Announcement(
    id: string, title: string, body: string, priority: string, published: bool, createdAt: string)

  datatype Write = SetPublished(id: string, published: bool) | DeleteAnnouncement(id: string)

  /** `priorityColor`: urgent is red, high amber, normal blue, and 'low' or anything else gets the
      default colour. */
  function PriorityColor(priority: string): (r: ChipColor)
    ensures r == Error <==> priority == "urgent"
    ensures r == Warning <==> priority == "high"
    ensures r == Info <==> priority == "normal"
    ensures r == Default <==> priority !in {"urgent", "high", "normal"}
  {
    match priority
    case "urgent" => Error
    case "high" => Warning
    case "normal" => Info
    case "low" => Default
    case _ => Default
  }

  /** The list after setting `published` on the announcements with `id`. */
  function WithPublished(list: seq<Announcement>, id: string, published: bool): seq<Announcement> {
    UpdateWhere(list, (a: Announcement) => a.id == id, (a: Announcement) => a.(published := published))
  }

  /** Only the matching announcements change, and only their flag; count and order stay. */
  lemma WithPublishedChangesOnlyThatOne(list: seq<Announcement>, id: string, published: bool)
    ensures |WithPublished(list, id, published)| == |list|
    ensures forall i :: 0 <= i < |list| && list[i].id != id ==> WithPublished(list, id, published)[i] == list[i]
    ensures forall i :: 0 <= i < |list| && list[i].id == id ==>
      WithPublished(list, id, published)[i] == list[i].(published := published)
  {
  }

  /** Setting the same flag twice is setting it once. */
  lemma WithPublishedTwice(list: seq<Announcement>, id: string, published: bool)
    ensures WithPublished(WithPublished(list, id, published), id, published) == WithPublished(list, id, published)
  {
    UpdateWhereTwice(list, (a: Announcement) => a.id == id, (a: Announcement) => a.(published := published));
  }

  /** The list after deleting `id`: every announcement with another id, in order. */
  function Without(list: seq<Announcement>, id: string): (r: seq<Announcement>)
    ensures Subseq(r, list)
    ensures forall a :: a in r <==> a in list && a.id != id
  {
    Filter(list, (a: Announcement) => a.id != id)
  }

  /** Deleting an id no announcement has changes nothing. */
  lemma WithoutAbsent(list: seq<Announcement>, id: string)
    requires forall a :: a in list ==> a.id != id
    ensures Without(list, id) == list
  {
    FilterKeepsAll(list, (a: Announcement) => a.id != id);
  }

  class Component {
    var announcements: seq<Announcement>
    var deleteId: Option<string>
    var deleteOpen: bool
    /** The store writes sent so far, in order. */
    var writes: seq<Write>

    constructor ()
      ensures announcements == [] && deleteId == None && !deleteOpen && writes == []
    {
      announcements := [];
      deleteId := None;
      deleteOpen := false;
      writes := [];
    }

    /** `handlePublishedToggle(id, published)`. */
    method HandlePublishedToggle(id: string, published: bool)
      modifies this
      ensures writes == old(writes) + [SetPublished(id, published)]
      ensures announcements == WithPublished(old(announcements), id, published)
      ensures deleteId == old(deleteId) && deleteOpen == old(deleteOpen)
    {
      writes := writes + [SetPublished(id, published)];
      announcements := WithPublished(announcements, id, published);
    }

    /** `handleDelete`: with no id (null or '') nothing happens; otherwise the row is deleted,
        the announcements with that id leave the list, and the dialog closes. */
    method HandleDelete()
      modifies this
      ensures old(deleteId) == None || old(deleteId) == Some("") ==>
        announcements == old(announcements) && deleteId == old(deleteId) && deleteOpen == old(deleteOpen)
        && writes == old(writes)
      ensures old(deleteId).Some? && old(deleteId) != Some("") ==>
        writes == old(writes) + [DeleteAnnouncement(old(deleteId).value)]
        && announcements == Without(old(announcements), old(deleteId).value)
        && deleteId == None && !deleteOpen
    {
      if deleteId == None || deleteId == Some("") {
        return;
      }
      var id := deleteId.value;
      writes := writes + [DeleteAnnouncement(id)];
      announcements := Without(announcements, id);
      deleteId := None;
      deleteOpen := false;
    }
  }
}
