/** `src/components/board/CallNotesList.tsx`: the board's list of voice-assistant call notes, with
    the summary truncation, the caller label, the chip colours and the expand/save handlers. */
module CallNotesList {
  import opened Wrappers
  import opened Text
  import opened Seqs
  import opened Chips

  /** A row of `call_notes`; `board_notes` may be null. */
  datatype CallNote = CallNote(
    id: string, callerName: string, callerPhone: string, category: string, summary: string,
    transcript: string, status: string, boardNotes: Option<string>, createdAt: string)

  /** The store writes the component performs. */
  datatype Write = UpdateNote(id: string, boardNotes: string, status: string)

  /** The summary column's `maxLength`. */
  const SummaryLength: nat := 80

  /** `truncate(text, maxLength)`: text that fits is kept, longer text is cut to `maxLength`
      characters followed by an ellipsis. */
  function Truncate(text: string, maxLength: nat): (r: string)
    ensures |text| <= maxLength ==> r == text
    ensures |text| > maxLength ==>
      |r| == maxLength + 3 && r[..maxLength] == text[..maxLength] && r[maxLength..] == "..."
  {
    if text == "" then ""
    else if |text| > maxLength then text[..maxLength] + "..."
    else text
  }

  /** A truncated summary is never longer than the limit plus the ellipsis, and it begins with as
      much of the text as the limit allows. */
  lemma TruncateBound(text: string, maxLength: nat)
    ensures |Truncate(text, maxLength)| <= maxLength + 3
    ensures var n := if |text| < maxLength then |text| else maxLength;
      Truncate(text, maxLength)[..n] == text[..n]
  {
  }

  /** The summary cell holds at most 83 characters. */
  lemma SummaryCellBound(note: CallNote)
    ensures |Truncate(note.summary, SummaryLength)| <= 83
  {
    TruncateBound(note.summary, SummaryLength);
  }

  /** `caller_name || caller_phone || 'Unknown'`: the label is never empty. */
  function CallerLabel(note: CallNote): (r: string)
    ensures r != ""
    ensures note.callerName != "" ==> r == note.callerName
    ensures note.callerName == "" && note.callerPhone != "" ==> r == note.callerPhone
    ensures r in {note.callerName, note.callerPhone, "Unknown"}
  {
    if note.callerName != "" then note.callerName
    else if note.callerPhone != "" then note.callerPhone
    else "Unknown"
  }

  const CategoryColors: map<string, ChipColor> :=
    map["complaint" := Error, "request" := Info, "concern" := Warning, "emergency" := Error, "general" := Default]

  const StatusColors: map<string, ChipColor> :=
    map["new" := Warning, "reviewed" := Info, "in_progress" := Primary, "resolved" := Success, "dismissed" := Default]

  /** `categoryColorMap[category] ?? 'default'`: complaints and emergencies are shown in red, and
      'general' and every category outside the map get the default colour. */
  function CategoryColor(category: string): (r: ChipColor)
    ensures r == Error <==> category == "complaint" || category == "emergency"
    ensures r == Info <==> category == "request"
    ensures r == Warning <==> category == "concern"
    ensures r == Default <==> category !in {"complaint", "emergency", "request", "concern"}
  {
    if category in CategoryColors then CategoryColors[category] else Default
  }

  /** `statusColorMap[status] ?? 'default'`: the four live statuses each have their own colour, and
      'dismissed' and every unknown status get the default one. */
  function StatusColor(status: string): (r: ChipColor)
    ensures r == Default <==> status !in {"new", "reviewed", "in_progress", "resolved"}
  {
    if status in StatusColors then StatusColors[status] else Default
  }

  /** Two different live statuses never share a colour. */
  lemma StatusColorsDistinct(s: string, t: string)
    requires s in {"new", "reviewed", "in_progress", "resolved"} && t in {"new", "reviewed", "in_progress", "resolved"}
    requires s != t
    ensures StatusColor(s) != StatusColor(t)
  {
  }

  /** `status.replace('_', ' ')`: only the first underscore becomes a space. */
  function StatusLabel(status: string): (r: string)
    ensures |r| == |status|
    ensures '_' !in status ==> r == status
  {
    var r := ReplaceFirst(status, '_', ' ');
    assert '_' !in status ==> r == status by {
      if '_' !in status {
        assert forall k :: 0 <= k < |status| ==> r[k] == status[k];
      }
    }
    r
  }

  /** The one status the editor offers with an underscore is shown with a space. */
  lemma InProgressLabel()
    ensures StatusLabel("in_progress") == "in progress"
  {
    var s := "in_progress";
    var r := StatusLabel(s);
    assert s[2] == '_' && '_' !in s[..2];
    forall k | 0 <= k < |r| ensures r[k] == "in progress"[k] {
      if k > 2 {
        assert s[..k][2] == '_';
      }
    }
  }

  /** The notes list after a save of `id`: that note carries the edited notes and status. */
  function Saved(notes: seq<CallNote>, id: string, boardNotes: string, status: string): seq<CallNote> {
    UpdateWhere(notes, (n: CallNote) => n.id == id, (n: CallNote) => n.(boardNotes := Some(boardNotes), status := status))
  }

  /** Saving rewrites only the notes with that id, and only their notes and status; count and order
      are kept. */
  lemma SavedChangesOnlyThatNote(notes: seq<CallNote>, id: string, boardNotes: string, status: string)
    ensures |Saved(notes, id, boardNotes, status)| == |notes|
    ensures forall i :: 0 <= i < |notes| && notes[i].id != id ==> Saved(notes, id, boardNotes, status)[i] == notes[i]
    ensures forall i :: 0 <= i < |notes| && notes[i].id == id ==>
      Saved(notes, id, boardNotes, status)[i] == notes[i].(boardNotes := Some(boardNotes), status := status)
  {
  }

  /** Saving the same edit twice is saving it once. */
  lemma SaveTwice(notes: seq<CallNote>, id: string, boardNotes: string, status: string)
    ensures Saved(Saved(notes, id, boardNotes, status), id, boardNotes, status) == Saved(notes, id, boardNotes, status)
  {
    UpdateWhereTwice(notes, (n: CallNote) => n.id == id, (n: CallNote) => n.(boardNotes := Some(boardNotes), status := status));
  }

  /** The component's state. */
  class Component {
    var callNotes: seq<CallNote>
    var loading: bool
    var expandedId: Option<string>
    var editNotes: string
    var editStatus: string
    var saving: bool
    /** The `call_notes` updates sent so far, in order. */
    var writes: seq<Write>

    constructor ()
      ensures callNotes == [] && loading && expandedId == None
      ensures editNotes == "" && editStatus == "" && !saving && writes == []
    {
      callNotes := [];
      loading := true;
      expandedId := None;
      editNotes := "";
      editStatus := "";
      saving := false;
      writes := [];
    }

    /** `fetchCallNotes`: the rows the store returned, or none when it returned nothing. */
    method Load(data: Option<seq<CallNote>>)
      modifies this
      ensures callNotes == data.GetOr([]) && !loading
      ensures expandedId == old(expandedId) && editNotes == old(editNotes) && editStatus == old(editStatus)
      ensures saving == old(saving) && writes == old(writes)
    {
      callNotes := data.GetOr([]);
      loading := false;
    }

    /** `handleExpand(note)`: collapses the note when it is the expanded one, otherwise expands it
        and loads its notes (null read as '') and status into the editor. */
    method HandleExpand(note: CallNote)
      modifies this
      ensures old(expandedId) == Some(note.id) ==>
        expandedId == None && editNotes == old(editNotes) && editStatus == old(editStatus)
      ensures old(expandedId) != Some(note.id) ==>
        expandedId == Some(note.id) && editNotes == note.boardNotes.GetOr("") && editStatus == note.status
      ensures callNotes == old(callNotes) && loading == old(loading) && saving == old(saving) && writes == old(writes)
    {
      if expandedId == Some(note.id) {
        expandedId := None;
      } else {
        expandedId := Some(note.id);
        editNotes := note.boardNotes.GetOr("");
        editStatus := note.status;
      }
    }

    /** `handleSave(id)`: sends the edited notes and status for `id`, then applies them to the
        local list whatever the store answered; `saving` is back to false at the end. */
    method HandleSave(id: string)
      modifies this
      ensures writes == old(writes) + [UpdateNote(id, old(editNotes), old(editStatus))]
      ensures callNotes == Saved(old(callNotes), id, old(editNotes), old(editStatus))
      ensures !saving
      ensures expandedId == old(expandedId) && editNotes == old(editNotes) && editStatus == old(editStatus)
      ensures loading == old(loading)
    {
      saving := true;
      writes := writes + [UpdateNote(id, editNotes, editStatus)];
      callNotes := Saved(callNotes, id, editNotes, editStatus);
      saving := false;
    }
  }
}
