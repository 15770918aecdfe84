/** `src/app/forms/architectural-review/page.tsx`: the public form a resident fills in to ask the
    board's approval for an exterior change. Submitting checks the acknowledgment, inserts one
    `form_submissions` row and then shows either the confirmation or the error. */
module ArchitecturalReview {
  import opened Wrappers
  import opened Text

  /** The page's input fields. */
  datatype Form = Form(
    residentName: string, lotNumber: string, email: string, phone: string,
    projectType: string, projectDescription: string,
    estimatedStartDate: string, estimatedCompletionDate: string,
    contractorName: string, contractorPhone: string, materials: string, colors: string,
    acknowledge: bool)

  const EmptyForm := Form("", "", "", "", "", "", "", "", "", "", "", "", false)

  /** The values of the "Type of Modification" menu. */
  const ProjectTypes: seq<string> :=
    ["fence", "paint", "roof", "landscaping", "driveway", "deck_patio", "shed", "solar",
     "windows_doors", "siding", "addition", "other"]

  /** The keys of `form_data`. */
  const FormDataKeys: set<string> :=
    {"project_type", "project_description", "estimated_start_date", "estimated_completion_date",
     "contractor_name", "contractor_phone", "materials", "colors"}

  const FormType := "architectural_review"

  const AcknowledgeMessage := "Please acknowledge the terms before submitting."

  /** The row handed to `insert`. */
  datatype Record = Record(
    formType: string, residentName: string, lotNumber: string,
    email: Option<string>, phone: Option<string>, formData: map<string, string>)

  /** The Submit button is enabled: name, lot, project type and description are non-empty (not
      trimmed; a field of spaces passes). */
  predicate CanSubmit(f: Form) {
    f.residentName != "" && f.lotNumber != "" && f.projectType != "" && f.projectDescription != ""
  }

  /** `form_data`: the eight project fields under their column names, copied as typed. */
  function FormData(f: Form): (m: map<string, string>)
    ensures m.Keys == FormDataKeys
    ensures m["project_type"] == f.projectType && m["project_description"] == f.projectDescription
    ensures m["estimated_start_date"] == f.estimatedStartDate
    ensures m["estimated_completion_date"] == f.estimatedCompletionDate
    ensures m["contractor_name"] == f.contractorName && m["contractor_phone"] == f.contractorPhone
    ensures m["materials"] == f.materials && m["colors"] == f.colors
  {
    map["project_type" := f.projectType,
        "project_description" := f.projectDescription,
        "estimated_start_date" := f.estimatedStartDate,
        "estimated_completion_date" := f.estimatedCompletionDate,
        "contractor_name" := f.contractorName,
        "contractor_phone" := f.contractorPhone,
        "materials" := f.materials,
        "colors" := f.colors]
  }

  /** The record inserted: the form type, name and lot as typed, empty email or phone as null, and
      the project fields. */
  function RecordOf(f: Form): (r: Record)
    ensures r.formType == FormType
    ensures r.email.None? <==> f.email == ""
    ensures r.phone.None? <==> f.phone == ""
    ensures r.email.GetOr("") == f.email && r.phone.GetOr("") == f.phone
    ensures r.formData.Keys == FormDataKeys
  {
    Record(FormType, f.residentName, f.lotNumber, NullIfEmpty(f.email), NullIfEmpty(f.phone), FormData(f))
  }

  /** Two forms give the same record exactly when they agree on every field but the acknowledgment. */
  lemma RecordOfInjective(f: Form, g: Form)
    ensures RecordOf(f) == RecordOf(g) <==> f.(acknowledge := g.acknowledge) == g
  {
    if RecordOf(f) == RecordOf(g) {
      assert FormData(f) == FormData(g);
      assert f.email == RecordOf(f).email.GetOr("");
      assert f.phone == RecordOf(f).phone.GetOr("");
    }
  }

  class Page {
    var form: Form
    var submitted: bool
    var submitting: bool
    /** The error shown above the buttons; '' shows nothing. */
    var error: string
    /** The records sent to `insert`, in order. */
    var inserts: seq<Record>

    constructor ()
      ensures form == EmptyForm && !submitted && !submitting && error == "" && inserts == []
    {
      form := EmptyForm;
      submitted := false;
      submitting := false;
      error := "";
      inserts := [];
    }

    /** `handleSubmit`. Without the acknowledgment the message asks for it and nothing is written.
        Otherwise the record is inserted; `insertError` is the error the insert reports, if any.
        Success shows the confirmation; a failure shows the error's message and leaves `submitted`
        as it was. `submitting` is false at the end either way. */
    method HandleSubmit(insertError: Option<string>)
      modifies this
      ensures !old(form).acknowledge ==>
        error == AcknowledgeMessage && inserts == old(inserts)
        && submitted == old(submitted) && submitting == old(submitting)
      ensures old(form).acknowledge ==> inserts == old(inserts) + [RecordOf(old(form))] && !submitting
      ensures old(form).acknowledge && insertError.None? ==> submitted && error == ""
      ensures old(form).acknowledge && insertError.Some? ==>
        submitted == old(submitted) && error == insertError.value
      ensures form == old(form)
    {
      if !form.acknowledge {
        error := AcknowledgeMessage;
        return;
      }
      submitting := true;
      error := "";
      inserts := inserts + [RecordOf(form)];
      if insertError.Some? {
        error := insertError.value;
      } else {
        submitted := true;
      }
      submitting := false;
    }
  }
}
