/** `src/app/board/form-submissions/page.tsx`: the board's list of resident form submissions. Each
    row shows the project type and status as chips, expands into the contact and project details,
    and saves the board's status and notes. */
module FormSubmissions {
  import opened Wrappers
  import opened Text
  import opened Chips
  import ArchitecturalReview

  datatype Submission = Submission(
    id: string, formType: string, residentName: string, lotNumber: string,
    email: Option<string>, phone: Option<string>, formData: map<string, string>,
    status: string, boardNotes: Option<string>, reviewedAt: Option<string>, createdAt: string)

  /** The status chip colours; a status outside the table has no colour (MUI's default). */
  const StatusColors: map<string, ChipColor> :=
    map["pending" := Warning, "under_review" := Info, "approved" := Success, "denied" := Error,
        "completed" := Default]

  /** The statuses the row's editor offers. */
  const StatusMenu: seq<string> := ["pending", "under_review", "approved", "denied", "completed"]

  const ProjectTypeLabels: map<string, string> :=
    map["fence" := "Fence", "paint" := "Exterior Paint", "roof" := "Roof",
        "landscaping" := "Landscaping", "driveway" := "Driveway/Walkway",
        "deck_patio" := "Deck/Patio", "shed" := "Shed/Storage", "solar" := "Solar Panels",
        "windows_doors" := "Windows/Doors", "siding" := "Siding", "addition" := "Home Addition",
        "other" := "Other"]

  /** `data.key` read as a string: a missing key is `undefined`, which every use below treats like
      the empty string. */
  function Field(data: map<string, string>, key: string): (r: string)
    ensures key in data ==> r == data[key]
    ensures key !in data ==> r == ""
  {
    if key in data then data[key] else ""
  }

  /** The Type chip: the label of the project type, else the raw project type, else 'N/A'. */
  function ProjectTypeLabel(data: map<string, string>): (r: string)
    ensures r != ""
    ensures Field(data, "project_type") in ProjectTypeLabels ==> r == ProjectTypeLabels[Field(data, "project_type")]
    ensures Field(data, "project_type") !in ProjectTypeLabels && Field(data, "project_type") != "" ==>
      r == Field(data, "project_type")
    ensures Field(data, "project_type") == "" ==> r == "N/A"
  {
    var t := Field(data, "project_type");
    OrElse(if t in ProjectTypeLabels then ProjectTypeLabels[t] else "", OrElse(t, "N/A"))
  }

  /** The Status chip's colour. */
  function StatusColor(status: string): (r: Option<ChipColor>)
    ensures r.Some? <==> status in StatusColors
    ensures r == Some(Default) <==> status == "completed"
  {
    if status in StatusColors then Some(StatusColors[status]) else None
  }

  /** Every status the editor offers has its own colour. */
  lemma MenuStatusesHaveDistinctColors()
    ensures forall s :: s in StatusMenu ==> StatusColor(s).Some?
    ensures forall i, j :: 0 <= i < j < |StatusMenu| ==> StatusColor(StatusMenu[i]) != StatusColor(StatusMenu[j])
  {
  }

  /** The Status chip's text: the first '_' becomes a space. */
  function StatusChipLabel(status: string): (r: string)
    ensures |r| == |status|
    ensures '_' !in status ==> r == status
  {
    ReplaceFirst(status, '_', ' ')
  }

  /** The one menu status with an underscore is shown with a space. */
  lemma UnderReviewChipLabel()
    ensures StatusChipLabel("under_review") == "under review"
  {
    var s := "under_review";
    var r := StatusChipLabel(s);
    assert s[5] == '_' && '_' !in s[..5];
    forall k | 0 <= k < |r| ensures r[k] == "under review"[k] {
      if k > 5 {
        assert s[..k][5] == '_';
      }
    }
  }

  /** A detail cell (start date, completion date, materials, colours, contractor and phone; also
      the contact email and phone): the value, or 'N/A' when it is empty or missing. */
  function Detail(value: string): (r: string)
    ensures r != ""
    ensures value != "" ==> r == value
    ensures value == "" ==> r == "N/A"
  {
    OrElse(value, "N/A")
  }

  /** The description paragraph, or 'No description provided'. */
  function Description(data: map<string, string>): (r: string)
    ensures r != ""
    ensures Field(data, "project_description") != "" ==> r == Field(data, "project_description")
    ensures Field(data, "project_description") == "" ==> r == "No description provided"
  {
    OrElse(Field(data, "project_description"), "No description provided")
  }

  /** Every type the architectural-review form offers has its label, so the chip never shows the
      raw value or 'N/A' for a submission made through that form. */
  lemma EveryOfferedTypeHasLabel()
    ensures forall t :: t in ArchitecturalReview.ProjectTypes ==> t in ProjectTypeLabels
  {
  }

  /** What the board sees for a submission the architectural-review form made: the type chip shows
      the label of the chosen type, the description is the one typed, and each contact and project
      detail is the field as typed, or 'N/A' when it was left empty. */
  lemma ShowsWhatWasSubmitted(f: ArchitecturalReview.Form)
    requires ArchitecturalReview.CanSubmit(f)
    requires f.projectType in ArchitecturalReview.ProjectTypes
    ensures ProjectTypeLabel(ArchitecturalReview.RecordOf(f).formData) == ProjectTypeLabels[f.projectType]
    ensures Description(ArchitecturalReview.RecordOf(f).formData) == f.projectDescription
    ensures Detail(ArchitecturalReview.RecordOf(f).email.GetOr("")) == Detail(f.email)
    ensures Detail(ArchitecturalReview.RecordOf(f).phone.GetOr("")) == Detail(f.phone)
    ensures Detail(Field(ArchitecturalReview.RecordOf(f).formData, "estimated_start_date")) == Detail(f.estimatedStartDate)
    ensures Detail(Field(ArchitecturalReview.RecordOf(f).formData, "estimated_completion_date"))
      == Detail(f.estimatedCompletionDate)
    ensures Detail(Field(ArchitecturalReview.RecordOf(f).formData, "materials")) == Detail(f.materials)
    ensures Detail(Field(ArchitecturalReview.RecordOf(f).formData, "colors")) == Detail(f.colors)
    ensures Detail(Field(ArchitecturalReview.RecordOf(f).formData, "contractor_name")) == Detail(f.contractorName)
    ensures Detail(Field(ArchitecturalReview.RecordOf(f).formData, "contractor_phone")) == Detail(f.contractorPhone)
  {
    EveryOfferedTypeHasLabel();
    assert ArchitecturalReview.RecordOf(f).formData == ArchitecturalReview.FormData(f);
  }

  /** What a row asks of the database and of the page, in order. */
  datatype Call =
    | UpdateSubmission(id: string, status: string, boardNotes: Option<string>, reviewedAt: string)
    | OnUpdate

  /** `SubmissionRow`: one submission with its own expand flag and editor state. */
  class Row {
    const sub: Submission
    var open: bool
    var boardNotes: string
    var status: string
    var saving: bool
    var calls: seq<Call>

    /** The editor starts from the stored notes (null as '') and the stored status. */
    constructor (sub: Submission)
      ensures this.sub == sub && !open && boardNotes == sub.boardNotes.GetOr("") && status == sub.status
      ensures !saving && calls == []
    {
      this.sub := sub;
      open := false;
      boardNotes := sub.boardNotes.GetOr("");
      status := sub.status;
      saving := false;
      calls := [];
    }

    method ToggleOpen()
      modifies this
      ensures open == !old(open)
      ensures boardNotes == old(boardNotes) && status == old(status) && saving == old(saving) && calls == old(calls)
    {
      open := !open;
    }

    /** `handleSave` at time `now` (its ISO text): the row is updated with the chosen status, the
        notes (empty as null) and the review time; then the page refetches. */
    method HandleSave(now: string)
      modifies this
      ensures calls == old(calls) + [UpdateSubmission(sub.id, old(status), NullIfEmpty(old(boardNotes)), now), OnUpdate]
      ensures !saving
      ensures open == old(open) && boardNotes == old(boardNotes) && status == old(status)
    {
      saving := true;
      calls := calls + [UpdateSubmission(sub.id, status, NullIfEmpty(boardNotes), now)];
      saving := false;
      calls := calls + [OnUpdate];
    }
  }

  /** `FormSubmissionsPage`: the list and its loading flag. */
  class Page {
    var submissions: seq<Submission>
    var loading: bool

    constructor ()
      ensures submissions == [] && loading
    {
      submissions := [];
      loading := true;
    }

    /** `fetchSubmissions`: the rows the query returned (already newest first), or none when it
        returned null. */
    method Fetch(data: Option<seq<Submission>>)
      modifies this
      ensures submissions == data.GetOr([]) && !loading
    {
      submissions := data.GetOr([]);
      loading := false;
    }
  }
}
