/** `src/components/board/DocumentManager.tsx`: the board's document list, with the public file URL,
    the category chip and the confirmed delete of the stored object and its row. */
module DocumentManager {
  import opened Wrappers
  import opened Seqs
  import opened Chips
  import DocumentUpload

  datatype Document = Document(
    id: string, title: string, category: string, fileName: string, filePath: string, createdAt: string)

  /** The storage and store calls, in the order they happen. */
  datatype Call = RemoveObject(path: string) | DeleteDocument(id: string)

  const BucketPath := "/storage/v1/object/public/hoa-documents/"

  /** `getDocUrl(filePath)`, with `base` standing for `NEXT_PUBLIC_SUPABASE_URL`. */
  function DocUrl(base: string, filePath: string): (r: string)
    ensures |r| == |base| + |BucketPath| + |filePath|
    ensures r[..|base|] == base && r[|base|..|base| + |BucketPath|] == BucketPath
    ensures r[|base| + |BucketPath|..] == filePath
  {
    base + BucketPath + filePath
  }

  /** Two documents stored under different paths get different URLs. */
  lemma DocUrlInjective(base: string, p: string, q: string)
    requires DocUrl(base, p) == DocUrl(base, q)
    ensures p == q
  {
    assert p == DocUrl(base, p)[|base| + |BucketPath|..];
  }

  const CategoryLabels: map<string, string> :=
    map["bylaws" := "Bylaws", "policy" := "Policy", "meeting_minutes" := "Meeting Minutes", "form" := "Form", "other" := "Other"]

  const CategoryColors: map<string, ChipColor> :=
    map["bylaws" := Primary, "policy" := Secondary, "meeting_minutes" := Info, "form" := Warning, "other" := Default]

  /** `categoryLabel[category] ?? category`. */
  function CategoryLabel(category: string): (r: string)
    ensures category !in CategoryLabels ==> r == category
  {
    if category in CategoryLabels then CategoryLabels[category] else category
  }

  /** `categoryColorMap[category] ?? 'default'`: each of the four named categories has its own
      colour; 'other' and every unknown category get the default one. */
  function CategoryColor(category: string): (r: ChipColor)
    ensures r == Default <==> category !in {"bylaws", "policy", "meeting_minutes", "form"}
  {
    if category in CategoryColors then CategoryColors[category] else Default
  }

  /** The chip shows the same label the upload menu shows for each category a document can be
      uploaded with. */
  lemma LabelsMatchUploadMenu()
    ensures forall i :: 0 <= i < |DocumentUpload.CategoryOptions| ==>
      CategoryLabel(DocumentUpload.CategoryOptions[i].0) == DocumentUpload.CategoryOptions[i].1
  {
  }

  /** The five known categories have five different labels. */
  lemma LabelsDistinct(c: string, d: string)
    requires c in CategoryLabels && d in CategoryLabels && c != d
    ensures CategoryLabel(c) != CategoryLabel(d)
  {
  }

  /** The list after deleting `id`: every document with another id, in order. */
  function Without(docs: seq<Document>, id: string): (r: seq<Document>)
    ensures Subseq(r, docs)
    ensures forall d :: d in r <==> d in docs && d.id != id
  {
    Filter(docs, (d: Document) => d.id != id)
  }

  /** Deleting an id no document has changes nothing. */
  lemma WithoutAbsent(docs: seq<Document>, id: string)
    requires forall d :: d in docs ==> d.id != id
    ensures Without(docs, id) == docs
  {
    FilterKeepsAll(docs, (d: Document) => d.id != id);
  }

  class Component {
    var documents: seq<Document>
    var deleteDoc: Option<Document>
    var deleteOpen: bool
    var calls: seq<Call>

    constructor ()
      ensures documents == [] && deleteDoc == None && !deleteOpen && calls == []
    {
      documents := [];
      deleteDoc := None;
      deleteOpen := false;
      calls := [];
    }

    /** `handleDelete`: with no document selected nothing happens; otherwise its stored object is
        removed first, then its row, then the documents with its id leave the list and the dialog
        closes. */
    method HandleDelete()
      modifies this
      ensures old(deleteDoc).None? ==>
        documents == old(documents) && deleteDoc == old(deleteDoc) && deleteOpen == old(deleteOpen) && calls == old(calls)
      ensures old(deleteDoc).Some? ==>
        var d := old(deleteDoc).value;
        calls == old(calls) + [RemoveObject(d.filePath), DeleteDocument(d.id)]
        && documents == Without(old(documents), d.id) && deleteDoc == None && !deleteOpen
    {
      if deleteDoc.None? {
        return;
      }
      var d := deleteDoc.value;
      calls := calls + [RemoveObject(d.filePath), DeleteDocument(d.id)];
      documents := Without(documents, d.id);
      deleteDoc := None;
      deleteOpen := false;
    }
  }
}
