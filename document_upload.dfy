/** `src/components/board/DocumentUpload.tsx`: the board's upload form. `handleUpload` checks the
    form, stores the file under a timestamped, sanitised name, inserts the `documents` row and
    reports progress and the outcome. */
module DocumentUpload {
  import opened Wrappers
  import opened Text

  /** The chosen file; its size is a byte count. */
  datatype File = File(name: string, size: nat, contentType: string)

  /** The row inserted into `documents`. */
  datatype DocumentRow = DocumentRow(
    title: string, description: Option<string>, category: string, fileName: string, filePath: string,
    fileUrl: string, fileSize: nat, contentType: string)

  datatype Severity = Success | Failure

  datatype Message = Message(text: string, severity: Severity)

  /** The storage and store calls, and the `onUpload` callback, in the order they happen. */
  datatype Call = UploadObject(path: string) | InsertDocument(row: DocumentRow) | NotifyUploaded

  /** The category menu: stored value and shown label. */
  const CategoryOptions: seq<(string, string)> := [
    ("bylaws", "Bylaws"), ("policy", "Policy"), ("meeting_minutes", "Meeting Minutes"), ("form", "Form"),
    ("other", "Other")]

  const SuccessText := "Document uploaded successfully!"

  /** The characters `[a-zA-Z0-9._-]` leaves alone. */
  predicate IsSafe(c: char) {
    ('a' <= c <= 'z') || ('A' <= c <= 'Z') || ('0' <= c <= '9') || c == '.' || c == '_' || c == '-'
  }

  /** `name.replace(/[^a-zA-Z0-9._-]/g, '_')`. */
  function Sanitize(name: string): (r: string)
    ensures |r| == |name|
  {
    if name == [] then [] else [if IsSafe(name[0]) then name[0] else '_'] + Sanitize(name[1..])
  }

  /** Each character is kept when safe and becomes '_' otherwise, so every character of the result
      is safe. */
  lemma {:induction false} SanitizeChars(name: string)
    ensures forall k :: 0 <= k < |name| && IsSafe(name[k]) ==> Sanitize(name)[k] == name[k]
    ensures forall k :: 0 <= k < |name| && !IsSafe(name[k]) ==> Sanitize(name)[k] == '_'
    ensures forall k :: 0 <= k < |name| ==> IsSafe(Sanitize(name)[k])
  {
    if name != [] {
      SanitizeChars(name[1..]);
    }
  }

  /** Sanitising a sanitised name changes nothing. */
  lemma SanitizeIdempotent(name: string)
    ensures Sanitize(Sanitize(name)) == Sanitize(name)
  {
    SanitizeChars(name);
    SanitizeChars(Sanitize(name));
  }

  /** `${timestamp}_${sanitizedName}`. */
  function StoredPath(timestamp: nat, name: string): string {
    DecimalString(timestamp) + "_" + Sanitize(name)
  }

  /** The timestamp's digits come first and the first '_' follows them, so the timestamp and the
      sanitised name can be read back from the path. */
  lemma StoredPathSplits(timestamp: nat, name: string)
    ensures var d := DecimalString(timestamp); var p := StoredPath(timestamp, name);
      |p| == |d| + 1 + |name| && p[..|d|] == d && p[|d|] == '_'
      && (forall k :: 0 <= k < |d| ==> p[k] != '_') && p[|d| + 1..] == Sanitize(name)
  {
    var d := DecimalString(timestamp);
    var p := StoredPath(timestamp, name);
    assert forall k :: 0 <= k < |d| ==> p[k] == d[k];
    assert p[|d| + 1..] == Sanitize(name);
  }

  /** The progress values an upload goes through, given the outcome of the two calls: strictly
      increasing from 20, and reaching 100 exactly when both succeed. */
  function ProgressSteps(uploadError: Option<string>, insertError: Option<string>): (r: seq<nat>)
    ensures |r| >= 2 && r[0] == 20
    ensures forall i, j :: 0 <= i < j < |r| ==> r[i] < r[j]
    ensures r[|r| - 1] == 100 <==> uploadError.None? && insertError.None?
  {
    if uploadError.Some? then [20, 40]
    else if insertError.Some? then [20, 40, 70, 85]
    else [20, 40, 70, 85, 100]
  }

  /** The form may be sent: the trimmed title is not empty and a file is chosen. */
  predicate CanUpload(title: string, file: Option<File>) {
    !Blank(title) && file.Some?
  }

  /** The guard is the source's `!title.trim() || !file`, negated. */
  lemma CanUploadIff(title: string, file: Option<File>)
    ensures CanUpload(title, file) <==> Trim(title) != "" && file.Some?
  {
    BlankIff(title);
  }

  /** The calls an upload makes: the object first; the row only when the object was stored; the
      callback only when both succeeded. */
  function UploadCalls(path: string, row: DocumentRow, uploadError: Option<string>, insertError: Option<string>): (r: seq<Call>)
    ensures |r| >= 1 && r[0] == UploadObject(path)
    ensures InsertDocument(row) in r <==> uploadError.None?
    ensures NotifyUploaded in r <==> uploadError.None? && insertError.None?
  {
    if uploadError.Some? then [UploadObject(path)]
    else if insertError.Some? then [UploadObject(path), InsertDocument(row)]
    else [UploadObject(path), InsertDocument(row), NotifyUploaded]
  }

  /** The message an upload ends with: the first error, or the success text. */
  function Outcome(uploadError: Option<string>, insertError: Option<string>): (r: Message)
    ensures r.severity == Success <==> uploadError.None? && insertError.None?
    ensures uploadError.Some? ==> r.text == uploadError.value
    ensures uploadError.None? && insertError.Some? ==> r.text == insertError.value
  {
    if uploadError.Some? then Message(uploadError.value, Failure)
    else if insertError.Some? then Message(insertError.value, Failure)
    else Message(SuccessText, Success)
  }

  /** The row inserted for `file` stored at `path`; an empty description is stored as null. */
  function Row(title: string, description: string, category: string, file: File, path: string, publicUrl: string): (r: DocumentRow)
    ensures r.description.None? <==> description == ""
    ensures r.description.Some? ==> r.description.value == description
    ensures r.title == title && r.category == category && r.filePath == path && r.fileName == file.name
  {
    DocumentRow(title, NullIfEmpty(description), category, file.name, path,
      publicUrl, file.size, file.contentType)
  }

  /** The form's fields: title, description, category and chosen file. */
  datatype Form = Form(title: string, description: string, category: string, file: Option<File>)

  const EmptyForm := Form("", "", "other", None)

  /** The steps of `handleUpload` once its guard has passed, on the form, the progress values so
      far and the calls so far: each progress value and call is appended as it happens; the form is
      cleared only when both the object and the row were stored. */
  method Upload(form: Form, log: seq<nat>, calls: seq<Call>, timestamp: nat, uploadError: Option<string>,
                publicUrl: string, insertError: Option<string>)
    returns (form': Form, log': seq<nat>, calls': seq<Call>, shown: Message)
    requires form.file.Some?
    ensures var path := StoredPath(timestamp, form.file.value.name);
      calls' == calls + UploadCalls(path, Row(form.title, form.description, form.category, form.file.value, path, publicUrl), uploadError, insertError)
    ensures log' == log + ProgressSteps(uploadError, insertError)
    ensures shown == Outcome(uploadError, insertError)
    ensures form' == if uploadError.None? && insertError.None? then EmptyForm else form
  {
    var f := form.file.value;
    form', log', calls' := form, log, calls;
    log' := log' + [20];
    var path := StoredPath(timestamp, f.name);
    log' := log' + [40];
    calls' := calls' + [UploadObject(path)];
    var row := Row(form.title, form.description, form.category, f, path, publicUrl);
    if uploadError.Some? {
      shown := Message(uploadError.value, Failure);
      return;
    }
    log' := log' + [70];
    log' := log' + [85];
    calls' := calls' + [InsertDocument(row)];
    if insertError.Some? {
      shown := Message(insertError.value, Failure);
      return;
    }
    log' := log' + [100];
    shown := Message(SuccessText, Success);
    form' := EmptyForm;
    calls' := calls' + [NotifyUploaded];
  }

  class Component {
    var form: Form
    var uploading: bool
    var progress: nat
    /** Every value `progress` was set to, in order. */
    var progressLog: seq<nat>
    var message: Option<Message>
    /** A `setTimeout` that will set `progress` back to 0 has been started. */
    var resetPending: bool
    var calls: seq<Call>

    constructor ()
      ensures form == EmptyForm && !uploading && progress == 0 && progressLog == [] && message == None
      ensures !resetPending && calls == []
    {
      form := EmptyForm;
      uploading := false;
      progress := 0;
      progressLog := [];
      message := None;
      resetPending := false;
      calls := [];
    }

    /** `handleUpload` at `Date.now() == timestamp`. The storage answers `uploadError`, the public
        URL is `publicUrl` and the insert answers `insertError`. Without a title or a file nothing
        happens; otherwise `Upload` runs the steps, the state takes their outcome, and the timer
        that clears the progress bar is started. `uploading` is true only while the steps run. */
    method HandleUpload(timestamp: nat, uploadError: Option<string>, publicUrl: string, insertError: Option<string>)
      modifies this
      ensures !CanUpload(old(form.title), old(form.file)) ==>
        form == old(form) && uploading == old(uploading) && progress == old(progress)
        && progressLog == old(progressLog) && message == old(message) && resetPending == old(resetPending)
        && calls == old(calls)
      ensures CanUpload(old(form.title), old(form.file)) ==>
        var f := old(form);
        var path := StoredPath(timestamp, f.file.value.name);
        && calls == old(calls) + UploadCalls(path, Row(f.title, f.description, f.category, f.file.value, path, publicUrl), uploadError, insertError)
        && progressLog == old(progressLog) + ProgressSteps(uploadError, insertError)
        && progress == progressLog[|progressLog| - 1]
        && message == Some(Outcome(uploadError, insertError))
        && !uploading && resetPending
        && form == if uploadError.None? && insertError.None? then EmptyForm else old(form)
    {
      if Blank(form.title) || form.file.None? {
        return;
      }
      uploading := true;
      message := None;
      var shown;
      form, progressLog, calls, shown := Upload(form, progressLog, calls, timestamp, uploadError, publicUrl, insertError);
      progress := progressLog[|progressLog| - 1];
      message := Some(shown);
      uploading := false;
      resetPending := true;
    }

    /** The timer started by the last upload fires. */
    method TimerFires()
      modifies this
      ensures old(resetPending) ==> progress == 0 && progressLog == old(progressLog) + [0] && !resetPending
      ensures !old(resetPending) ==> progress == old(progress) && progressLog == old(progressLog) && !resetPending
      ensures form == old(form) && uploading == old(uploading) && message == old(message) && calls == old(calls)
    {
      if resetPending {
        progress := 0;
        progressLog := progressLog + [0];
        resetPending := false;
      }
    }
  }
}
