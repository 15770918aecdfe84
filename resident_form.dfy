/** `src/components/board/ResidentForm.tsx`: the dialog that adds a resident or edits one. Opening it
    loads the resident's fields (or clears them); saving writes the six fields, with an empty email
    or phone stored as null. */
module ResidentForm {
  import opened Wrappers
  import opened Text

  /** A stored resident; email and phone may be null in the table. */
  datatype Resident = Resident(
    id: string, firstName: string, lastName: string, email: Option<string>, phone: Option<string>,
    lotNumber: string, address: string)

  /** The six text fields of the dialog. */
  datatype Fields = Fields(
    firstName: string, lastName: string, email: string, phone: string, lotNumber: string,
    address: string)

  const EmptyFields := Fields("", "", "", "", "", "")

  /** The object handed to `update` or `insert`. */
  datatype ResidentData = ResidentData(
    firstName: string, lastName: string, email: Option<string>, phone: Option<string>,
    lotNumber: string, address: string)

  /** What the dialog asks of the database and of its parent, in order. */
  datatype Call = UpdateResident(id: string, data: ResidentData) | InsertResident(data: ResidentData) | OnSave

  /** The effect run when the dialog opens: the resident's fields, null email or phone shown as
      empty, or every field empty for a new resident. */
  function Loaded(resident: Option<Resident>): (f: Fields)
    ensures resident.None? ==> f == EmptyFields
  {
    match resident
    case None => EmptyFields
    case Some(r) => Fields(r.firstName, r.lastName, r.email.GetOr(""), r.phone.GetOr(""), r.lotNumber, r.address)
  }

  /** The Save button is enabled and `handleSave` goes on: first name, last name, lot number and
      address are not blank after trimming (email and phone are optional). */
  predicate CanSave(f: Fields) {
    !Blank(f.firstName) && !Blank(f.lastName) && !Blank(f.lotNumber) && !Blank(f.address)
  }

  lemma CanSaveIff(f: Fields)
    ensures CanSave(f) <==>
      Trim(f.firstName) != "" && Trim(f.lastName) != "" && Trim(f.lotNumber) != "" && Trim(f.address) != ""
  {
    BlankIff(f.firstName);
    BlankIff(f.lastName);
    BlankIff(f.lotNumber);
    BlankIff(f.address);
  }

  /** The row that is written: the fields as typed (not trimmed), empty email or phone as null. */
  function Data(f: Fields): (d: ResidentData)
    ensures d.email.None? <==> f.email == ""
    ensures d.phone.None? <==> f.phone == ""
  {
    ResidentData(f.firstName, f.lastName, NullIfEmpty(f.email), NullIfEmpty(f.phone), f.lotNumber, f.address)
  }

  /** The resident a write leaves in the table. */
  function Stored(id: string, d: ResidentData): Resident {
    Resident(id, d.firstName, d.lastName, d.email, d.phone, d.lotNumber, d.address)
  }

  /** Saving a resident without editing anything writes the resident back unchanged, as long as no
      field holds a stored empty email or phone. */
  lemma SaveUneditedWritesBack(r: Resident)
    requires r.email != Some("") && r.phone != Some("")
    ensures Stored(r.id, Data(Loaded(Some(r)))) == r
  {
    NullIfEmptyRoundTrip(r.email);
    NullIfEmptyRoundTrip(r.phone);
  }

  /** Reopening the dialog on a saved resident shows exactly the fields that were saved. */
  lemma ReopenShowsSaved(id: string, f: Fields)
    ensures Loaded(Some(Stored(id, Data(f)))) == f
  {
  }

  /** The database call for a save: an update of that row when editing, an insert otherwise. */
  function SaveCall(resident: Option<Resident>, d: ResidentData): Call {
    match resident
    case Some(r) => UpdateResident(r.id, d)
    case None => InsertResident(d)
  }

  class Component {
    var fields: Fields
    var saving: bool
    /** The calls made so far, in order. */
    var calls: seq<Call>

    constructor ()
      ensures fields == EmptyFields && !saving && calls == []
    {
      fields := EmptyFields;
      saving := false;
      calls := [];
    }

    /** The effect that runs when `resident` or `open` changes. */
    method Open(resident: Option<Resident>)
      modifies this
      ensures fields == Loaded(resident)
      ensures saving == old(saving) && calls == old(calls)
    {
      fields := Loaded(resident);
    }

    /** `handleSave`: nothing happens while a required field is blank; otherwise the row is updated
        (editing) or inserted (adding), `saving` drops back and the parent is told. */
    method HandleSave(resident: Option<Resident>)
      modifies this
      ensures !CanSave(old(fields)) ==> calls == old(calls) && saving == old(saving)
      ensures CanSave(old(fields)) ==>
        calls == old(calls) + [SaveCall(resident, Data(old(fields))), OnSave] && !saving
      ensures resident.Some? && CanSave(old(fields)) ==>
        calls[|old(calls)|] == UpdateResident(resident.value.id, Data(old(fields)))
      ensures resident.None? && CanSave(old(fields)) ==>
        calls[|old(calls)|] == InsertResident(Data(old(fields)))
      ensures fields == old(fields)
    {
      if !CanSave(fields) {
        return;
      }
      saving := true;
      calls := calls + [SaveCall(resident, Data(fields))];
      saving := false;
      calls := calls + [OnSave];
    }
  }
}
