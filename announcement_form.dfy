/** `src/components/board/AnnouncementForm.tsx`: the dialog that writes a new announcement or edits
    one. Opening it loads the announcement (or the defaults); saving writes title, body, priority and
    the published flag, then tells the parent and closes. */
module AnnouncementForm {
  import opened Wrappers
  import opened Text

  datatype Announcement = Announcement(id: string, title: string, body: string, priority: string, published: bool)

  /** The dialog's fields; the same four are what a save writes. */
  datatype Fields = Fields(title: string, body: string, priority: string, published: bool)

  /** A new announcement: empty text, normal priority, not published. */
  const Defaults := Fields("", "", "normal", false)

  /** What the dialog asks of the database and of its parent, in order. */
  datatype Call =
    | UpdateAnnouncement(id: string, data: Fields)
    | InsertAnnouncement(data: Fields)
    | OnSave
    | OnClose

  /** The effect run when the dialog opens. */
  function Loaded(announcement: Option<Announcement>): (f: Fields)
    ensures announcement.None? ==> f == Defaults
  {
    match announcement
    case None => Defaults
    case Some(a) => Fields(a.title, a.body, a.priority, a.published)
  }

  /** The announcement a write leaves in the table. */
  function Stored(id: string, f: Fields): Announcement {
    Announcement(id, f.title, f.body, f.priority, f.published)
  }

  /** Saving without editing writes the announcement back unchanged. */
  lemma SaveUneditedWritesBack(a: Announcement)
    ensures Stored(a.id, Loaded(Some(a))) == a
  {
  }

  /** Reopening the dialog on a saved announcement shows what was saved. */
  lemma ReopenShowsSaved(id: string, f: Fields)
    ensures Loaded(Some(Stored(id, f))) == f
  {
  }

  /** The Save button is enabled and `handleSave` goes on: title and body are not blank. */
  predicate CanSave(f: Fields) {
    !Blank(f.title) && !Blank(f.body)
  }

  lemma CanSaveIff(f: Fields)
    ensures CanSave(f) <==> Trim(f.title) != "" && Trim(f.body) != ""
  {
    BlankIff(f.title);
    BlankIff(f.body);
  }

  /** A new announcement cannot be saved before its title and body are typed. */
  lemma DefaultsCannotSave()
    ensures !CanSave(Defaults)
  {
    assert Blank(Defaults.title);
  }

  function SaveCall(announcement: Option<Announcement>, f: Fields): Call {
    match announcement
    case Some(a) => UpdateAnnouncement(a.id, f)
    case None => InsertAnnouncement(f)
  }

  class Component {
    var fields: Fields
    var saving: bool
    /** The calls made so far, in order. */
    var calls: seq<Call>

    constructor ()
      ensures fields == Defaults && !saving && calls == []
    {
      fields := Defaults;
      saving := false;
      calls := [];
    }

    /** The effect that runs when `announcement` or `open` changes. */
    method Open(announcement: Option<Announcement>)
      modifies this
      ensures fields == Loaded(announcement)
      ensures saving == old(saving) && calls == old(calls)
    {
      fields := Loaded(announcement);
    }

    /** `handleSave`: nothing happens while title or body is blank; otherwise the row is updated
        (editing) or inserted (new), `saving` drops back, and the parent is told, then closed. */
    method HandleSave(announcement: Option<Announcement>)
      modifies this
      ensures !CanSave(old(fields)) ==> calls == old(calls) && saving == old(saving)
      ensures CanSave(old(fields)) ==>
        calls == old(calls) + [SaveCall(announcement, old(fields)), OnSave, OnClose] && !saving
      ensures announcement.Some? && CanSave(old(fields)) ==>
        calls[|old(calls)|] == UpdateAnnouncement(announcement.value.id, old(fields))
      ensures announcement.None? && CanSave(old(fields)) ==>
        calls[|old(calls)|] == InsertAnnouncement(old(fields))
      ensures fields == old(fields)
    {
      if !CanSave(fields) {
        return;
      }
      saving := true;
      calls := calls + [SaveCall(announcement, fields)];
      saving := false;
      calls := calls + [OnSave, OnClose];
    }
  }
}
