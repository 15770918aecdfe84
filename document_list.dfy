/** `src/components/documents/DocumentList.tsx`: the public document library and its category tabs. */
module DocumentList {
  import opened Wrappers
  import opened Text
  import opened Seqs
  import DocumentUpload

  datatype DocumentItem = DocumentItem(
    id: string, title: string, description: Option<string>, category: string, filePath: string,
    fileName: string, createdAt: string)

  /** The tab labels, 'All' first. */
  const Categories: seq<string> := ["All", "Bylaws", "Policies", "Meeting Minutes", "Forms", "Other"]

  /** `filteredDocuments` on tab `tab`: everything on 'All', otherwise the documents whose
      lower-cased category equals the lower-cased tab label, in order. */
  function FilteredDocuments(docs: seq<DocumentItem>, tab: nat): (r: seq<DocumentItem>)
    requires tab < |Categories|
    ensures tab == 0 ==> r == docs
    ensures Subseq(r, docs)
    ensures tab != 0 ==> forall d :: d in r <==> d in docs && Lower(d.category) == Lower(Categories[tab])
  {
    if tab == 0 then SubseqOfItself(docs); docs
    else Filter(docs, (d: DocumentItem) => Lower(d.category) == Lower(Categories[tab]))
  }

  /** The lower-cased tab labels are pairwise different. */
  lemma TabLabelsDistinct(i: nat, j: nat)
    requires 0 < i < j < |Categories|
    ensures Lower(Categories[i]) != Lower(Categories[j])
  {
    if i == 4 && j == 5 {
      LowerDiffersAt(Categories[i], Categories[j], 0);
    } else {
      LowerLengthDiffers(Categories[i], Categories[j]);
    }
  }

  /** A document shows under at most one tab besides 'All'. */
  lemma AtMostOneTab(docs: seq<DocumentItem>, d: DocumentItem, i: nat, j: nat)
    requires 0 < i < |Categories| && 0 < j < |Categories|
    requires d in FilteredDocuments(docs, i) && d in FilteredDocuments(docs, j)
    ensures i == j
  {
    if i < j {
      TabLabelsDistinct(i, j);
    } else if j < i {
      TabLabelsDistinct(j, i);
    }
  }

  /** Of the categories the upload form offers, only 'bylaws' and 'other' equal a lower-cased tab
      label. */
  lemma BylawsAndOtherFindTheirTabs()
    ensures Lower(Categories[1]) == "bylaws" && Lower(Categories[5]) == "other"
  {
    assert Categories[1] == ['B'] + "ylaws";
    LowerCapitalized('B', "ylaws");
    assert Categories[5] == ['O'] + "ther";
    LowerCapitalized('O', "ther");
  }

  /** A document uploaded as 'policy', 'meeting_minutes' or 'form' matches no tab but 'All'. */
  lemma MisfiledCategoriesMatchNoTab(c: string, tab: nat)
    requires c in {"policy", "meeting_minutes", "form"}
    requires 0 < tab < |Categories|
    ensures Lower(c) != Lower(Categories[tab])
  {
    var t := Categories[tab];
    if |c| != |t| {
      LowerLengthDiffers(c, t);
    } else if c == "policy" {
      LowerDiffersAt(c, t, 0);
    } else {
      LowerDiffersAt(c, t, 7);
    }
  }

  /** So such a document never appears under 'Policies', 'Meeting Minutes', 'Forms' or any other
      tab except 'All'. */
  lemma MisfiledDocumentsNeverShown(docs: seq<DocumentItem>, d: DocumentItem, tab: nat)
    requires d.category in {"policy", "meeting_minutes", "form"}
    requires 0 < tab < |Categories|
    ensures d !in FilteredDocuments(docs, tab)
  {
    MisfiledCategoriesMatchNoTab(d.category, tab);
  }

  /** The stored category each tab stands for, in the order of the tabs ('' for 'All'). */
  const TabKeys: seq<string> := ["", "bylaws", "policy", "meeting_minutes", "form", "other"]

  /** The tab filter as evidently intended: each tab keeps the documents stored with its key. */
  function FilteredByKey(docs: seq<DocumentItem>, tab: nat): (r: seq<DocumentItem>)
    requires tab < |TabKeys|
    ensures tab == 0 ==> r == docs
    ensures Subseq(r, docs)
    ensures tab != 0 ==> forall d :: d in r <==> d in docs && d.category == TabKeys[tab]
  {
    if tab == 0 then SubseqOfItself(docs); docs
    else Filter(docs, (d: DocumentItem) => d.category == TabKeys[tab])
  }

  /** With the keyed filter every category the upload form offers has exactly one tab, in the same
      order as the menu, and each document of that category appears under it. */
  lemma EveryUploadCategoryHasItsTab(docs: seq<DocumentItem>, i: nat)
    requires i < |DocumentUpload.CategoryOptions|
    ensures TabKeys[i + 1] == DocumentUpload.CategoryOptions[i].0
    ensures forall d :: d in docs && d.category == DocumentUpload.CategoryOptions[i].0 ==> d in FilteredByKey(docs, i + 1)
    ensures forall t :: 0 < t < |TabKeys| && t != i + 1 ==> TabKeys[t] != DocumentUpload.CategoryOptions[i].0
  {
  }
}
