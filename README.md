# O'Hara Village HOA portal: the news feed and the board's working logic, in Dafny

This project models the parts of the HOA portal that have behaviour worth stating, and proves that
behaviour.

**The news endpoint (`src/app/api/news/route.ts`).**
- It reads one RSS 2.0 feed per search query.
- It cuts each feed's text into `<item>…</item>` blocks by pattern matching, not XML parsing.
- From each block it takes the title, link, date, source and description. Each field has its own
  fallback, and only items with both a title and a link are kept.
- It gathers the articles of the four queries, sorts them newest first in place and keeps the first
  twenty.
- Each regular expression is an explicit left-to-right scanner (`NewsRoute.Pattern`, `MatchAt`,
  `SearchFrom`). The item loop is a method proved equal to a specification function. The sort is an
  insertion sort on an array, proved to permute its input and to order it newest first.

**The board and public pages.** Each React component is a Dafny `class`:
- its state variables are fields;
- its handlers are methods with `modifies this`;
- each database, storage or parent call it makes is appended to a `calls` (or `writes`) log, with the
  call's outcome passed in as a parameter.

The pure parts are functions with lemmas beside them: labels, colours, filters, guards and record
builders.
- The call-notes list: truncation, caller label, colours, expand and save.
- The resident table: search and delete.
- The payment table: status toggle and add form.
- The announcement table: priority colour, publish switch and delete.
- The document manager: URL, label, colour and delete.
- The public document list's tabs.
- The document upload form: guard, file-name sanitising, path, progress steps, outcome and reset.
- The form-submissions page and its row editor.
- The resident and announcement dialogs.
- The architectural-review form.
- The board sidebar's active item.
- The voice-call widget's state machine.
- The voice webhook's payload-to-row mapping.

**Shared modules.**
- `Wrappers`: `Option`.
- `Seqs`: order-preserving filter, in-place update by predicate, subsequence.
- `Text`: JavaScript's `trim`, ASCII `toLowerCase`, `includes`, `startsWith`, `replace` of the first
  occurrence, `||` on strings, `value || null`.
- `Chips`: MUI chip colours.

**Parameters standing in for the environment.**
- The current time: `now` (its ISO text) or `timestamp` (`Date.now()`).
- Date parsing: `time: string -> Option<int>`, where `None` stands for `NaN`.
- Each feed's HTTP response: `Response`, which is `Threw` or `Replied(ok, body)`.
- The outcome of each database or storage call: `Option<string>`, holding the error message.

The tag-stripping pattern removes only complete `<…>` spans, so an unmatched `<` or a lone `>` can
remain in a description. `NewsRoute.StripTags` promises exactly that: no `<` followed later by `>`.

## Model

| member | source | states |
|---|---|---|
| NewsRoute.LineCloseFromIsFirst | src/app/api/news/route.ts:27-33 | a lazy `(.*?)close` capture ends at the first `close` after its start and spans no line terminator |
| NewsRoute.LineCloseFromFails | src/app/api/news/route.ts:27-33 | the lazy capture fails only when a line terminator comes before every later `close` |
| NewsRoute.MatchAt | src/app/api/news/route.ts:27-33 | a pattern tried at one position captures a span inside the text, after that position |
| NewsRoute.SearchFromIsLeftmost | src/app/api/news/route.ts:27-33 | `String.match` finds the leftmost position at which the pattern matches |
| NewsRoute.SearchFromNoneIsNoMatch | src/app/api/news/route.ts:27-33 | no match means the pattern matches at no position |
| NewsRoute.NextItemIsLeftmostShortest | src/app/api/news/route.ts:21-24 | the next item starts at the leftmost `<item>` and ends at the first `</item>` after it; when there is none, no later `<item>` is ever closed |
| NewsRoute.ContentIsShortest | src/app/api/news/route.ts:21-25 | an item's content never contains `</item>` (the lazy quantifier) |
| NewsRoute.ItemsAreShortest | src/app/api/news/route.ts:21-25 | no item of a feed contains `</item>` |
| NewsRoute.UnclosedItemYieldsNothing | src/app/api/news/route.ts:21-25 | from a point after which no `</item>` occurs, no further item is found, so an unterminated trailing `<item>` is dropped |
| NewsRoute.StripTags | src/app/api/news/route.ts:40 | removing every `<…>` span leaves no `<` followed later by `>`, never lengthens the text, and leaves text without `>` unchanged |
| NewsRoute.StripTagsOfTagFree | src/app/api/news/route.ts:40 | text with nothing to strip is unchanged |
| NewsRoute.StripTagsIdempotent | src/app/api/news/route.ts:40 | stripping twice is stripping once |
| NewsRoute.TagFreeTrim | src/app/api/news/route.ts:40 | trimming stripped text keeps it free of tags |
| NewsRoute.CaptureIsOneLine | src/app/api/news/route.ts:27-33 | every capture is a single line (`.` does not match line terminators) |
| NewsRoute.FieldsAreTrimmedLines | src/app/api/news/route.ts:35-37 | title, link and date are single trimmed lines |
| NewsRoute.DescriptionIsTagFree | src/app/api/news/route.ts:39-41 | the extracted description holds no `<…>` span |
| NewsRoute.NoLeadNoCapture | src/app/api/news/route.ts:27-33 | a pattern whose opening text does not occur captures nothing |
| NewsRoute.NoTitleOrLinkNoArticle | src/app/api/news/route.ts:35-43 | an item without `<title>` or without `<link>` yields no article |
| NewsRoute.SourceFallsBackToQuery | src/app/api/news/route.ts:30-38 | without a `<source` tag the source is the query |
| NewsRoute.NoDescription | src/app/api/news/route.ts:31-41 | without `<description>` the description is empty |
| NewsRoute.DescriptionFallsBackToTitle | src/app/api/news/route.ts:39-49 | without `<description>` the article's description is its title |
| NewsRoute.NoPubDate | src/app/api/news/route.ts:29-37 | without `<pubDate>` the date is empty |
| NewsRoute.DateFallsBackToNow | src/app/api/news/route.ts:37-47 | without `<pubDate>` the article is dated `now` |
| NewsRoute.AssembleIsPresentable | src/app/api/news/route.ts:35-51 | an item yields an article exactly when its trimmed title and link are non-empty, and that article has a one-line trimmed title and url, a non-empty description that is tag-free or the title, and a date or `now` |
| NewsRoute.CdataTitle | src/app/api/news/route.ts:27-35 | a `<title><![CDATA[x]]>` title is the trimmed `x` |
| NewsRoute.MultiLineTitleDropsItem | src/app/api/news/route.ts:27-43 | a title whose text spans lines does not match, so the item yields no article |
| NewsRoute.Collect | src/app/api/news/route.ts:24-52 | each item yields at most one article |
| NewsRoute.CollectIsPresentable | src/app/api/news/route.ts:24-52 | every article collected from a feed is presentable |
| NewsRoute.QueryIsPresentable | src/app/api/news/route.ts:14-57 | every article of a query (none for a failed or thrown response) is presentable |
| NewsRoute.FetchRssFeed | src/app/api/news/route.ts:11-58 | the cursor loop over items returns exactly the articles of the feed's items, in order, and nothing for a non-OK or thrown response |
| NewsRoute.GatheredKeepsEveryFeed | src/app/api/news/route.ts:68-69 | every query's articles appear in the concatenation as often as the feed gave them |
| NewsRoute.GatheredComesFromFeeds | src/app/api/news/route.ts:68-69 | every gathered article comes from some query's feed and is presentable |
| NewsRoute.CompareSign | src/app/api/news/route.ts:72-76 | the comparator is positive exactly when the second article is newer, negative exactly when the first is |
| NewsRoute.InsertSwap | src/app/api/news/route.ts:72-76 | swapping an article past an older neighbour keeps the sorted prefix and the insertion invariant |
| NewsRoute.SwapPermutes | src/app/api/news/route.ts:72-76 | a swap of neighbours keeps the same articles |
| NewsRoute.InsertDone | src/app/api/news/route.ts:72-76 | once the inserted article meets one no older, the sorted prefix grows by one |
| NewsRoute.SortNewestFirst | src/app/api/news/route.ts:72-76 | the in-place sort permutes the articles and, when every date parses, orders them newest first |
| NewsRoute.InsertNewest | src/app/api/news/route.ts:72-76 | one insertion pass keeps the same articles and, when every date parses, grows the newest-first prefix by one |
| NewsRoute.GatherAll | src/app/api/news/route.ts:64-69 | the loop over the queries returns exactly the gathered articles, in query order |
| NewsRoute.NewestTop | src/app/api/news/route.ts:72-79 | the first twenty of the sorted copy are min(20, total) of the articles (all of them when at most 20); when every date parses they are newest first and nothing left out is newer |
| NewsRoute.NewestFirstSlice | src/app/api/news/route.ts:79 | a prefix of a newest-first list is newest first and no article after it is newer than one in it |
| NewsRoute.SliceKeepsNewest | src/app/api/news/route.ts:79 | the first n of the sorted articles are a sub-multiset of all articles, all of them when n is the length, and, when every date parses, newest first with nothing left out newer than anything kept |
| NewsRoute.Get | src/app/api/news/route.ts:60-79 | the response holds min(20, total) of the gathered articles (all of them when at most 20); when every date parses they are newest first and no article left out is newer than one kept |
| Text.Trim | src/app/api/news/route.ts:35-41 | `trim` returns the middle slice with only white space around it, starting and ending with non-space |
| Text.TrimIdempotent | src/app/api/news/route.ts:35-41 | trimming twice is trimming once |
| Text.BlankIff | src/components/board/ResidentForm.tsx:63 | the character-by-character blank test is exactly `!value.trim()` |
| Text.NullIfEmpty | src/components/board/ResidentForm.tsx:73-74 | `value \|\| null` maps '' to null and keeps anything else; reading it back with `?? ''` gives the value |
| Text.NullIfEmptyRoundTrip | src/components/board/ResidentForm.tsx:48-74 | loading a stored value with `?? ''` and saving it with `\|\| null` gives it back, except a stored '' which becomes null |
| Text.OrElse | src/app/board/form-submissions/page.tsx:117-148 | `s \|\| fallback` is `s` unless `s` is empty |
| Text.ReplaceFirst | src/components/board/CallNotesList.tsx:163 | `replace('_', ' ')` changes only the first '_' and keeps the length |
| Text.LowerChars | src/components/board/ResidentTable.tsx:74-76 | `toLowerCase` lowers each ASCII capital and keeps every other character |
| Text.LowerIdempotent | src/components/board/ResidentTable.tsx:74-76 | lowering twice is lowering once |
| Seqs.Filter | src/components/board/ResidentTable.tsx:73-77 | `filter` keeps exactly the elements that pass, in order, as a subsequence, each as many times as it occurs in the input |
| Seqs.UpdateWhere | src/components/board/CallNotesList.tsx:94-98 | `map` with a conditional rewrites exactly the selected elements, keeping length and order |
| CallNotesList.Truncate | src/components/board/CallNotesList.tsx:102-105 | text of at most the maximum length (including '') is unchanged; longer text becomes its first `maxLength` characters plus '...' |
| CallNotesList.TruncateBound | src/components/board/CallNotesList.tsx:102-105 | the result is at most three characters over the maximum |
| CallNotesList.SummaryCellBound | src/components/board/CallNotesList.tsx:158 | the summary cell holds at most 83 characters |
| CallNotesList.CallerLabel | src/components/board/CallNotesList.tsx:145 | the label is never empty: the caller's name, else the phone, else 'Unknown' |
| CallNotesList.CategoryColor | src/components/board/CallNotesList.tsx:39-45 | complaint and emergency are red, request blue, concern amber; 'general' and every category outside the map get the default |
| CallNotesList.StatusColor | src/components/board/CallNotesList.tsx:47-53 | only the four live statuses get a colour; dismissed and unknown statuses get the default |
| CallNotesList.StatusColorsDistinct | src/components/board/CallNotesList.tsx:47-53 | the four live statuses have four different colours |
| CallNotesList.StatusLabel | src/components/board/CallNotesList.tsx:163 | the chip text has the status's length and equals it when there is no '_' |
| CallNotesList.InProgressLabel | src/components/board/CallNotesList.tsx:163 | 'in_progress' is shown as 'in progress' |
| CallNotesList.SavedChangesOnlyThatNote | src/components/board/CallNotesList.tsx:94-98 | a save sets the notes and status of the notes with that id only; count and order are kept |
| CallNotesList.SaveTwice | src/components/board/CallNotesList.tsx:94-98 | saving the same values twice is saving once |
| CallNotesList.Component.Load | src/components/board/CallNotesList.tsx:63-71 | the list becomes the fetched rows (none for null) and loading ends |
| CallNotesList.Component.HandleExpand | src/components/board/CallNotesList.tsx:77-85 | on the expanded note it collapses and leaves the editor alone; on another note it expands that one and loads its notes (null as '') and status |
| CallNotesList.Component.HandleSave | src/components/board/CallNotesList.tsx:87-100 | one update with the edited notes and status is sent and the list changes only at that id |
| ResidentTable.Filtered | src/components/board/ResidentTable.tsx:73-77 | the shown residents are an order-preserving subsequence holding exactly the residents that match the search |
| ResidentTable.MatchesIff | src/components/board/ResidentTable.tsx:74-76 | a resident matches exactly when the lowered "first last" or the lowered lot number contains the lowered query |
| ResidentTable.EmptySearchKeepsAll | src/components/board/ResidentTable.tsx:73-77 | an empty search shows every resident |
| ResidentTable.SearchCaseInsensitive | src/components/board/ResidentTable.tsx:73-77 | searches equal up to ASCII case show the same residents |
| ResidentTable.Without | src/components/board/ResidentTable.tsx:68 | deleting drops exactly the residents with that id and keeps the others in order |
| ResidentTable.WithoutAbsent | src/components/board/ResidentTable.tsx:68 | deleting an id nobody has changes nothing |
| ResidentTable.WithoutTwice | src/components/board/ResidentTable.tsx:68 | deleting twice is deleting once |
| ResidentTable.Component.AskDelete | src/components/board/ResidentTable.tsx:168-169 | the row's delete button remembers the id and opens the confirmation |
| ResidentTable.Component.HandleDelete | src/components/board/ResidentTable.tsx:64-71 | with no id (null or '') nothing happens; otherwise one delete is sent, that id's residents leave the list, the id is cleared and the dialog closes |
| PaymentTable.ToggledStatus | src/components/board/PaymentTable.tsx:88 | 'paid' becomes 'unpaid' and every other status becomes 'paid' |
| PaymentTable.DatePaidFor | src/components/board/PaymentTable.tsx:89 | the paid date is `now` exactly when the new status is 'paid', null otherwise |
| PaymentTable.Toggled | src/components/board/PaymentTable.tsx:88-99 | a toggled payment keeps its other fields, flips between paid and unpaid, and has a paid date exactly when paid |
| PaymentTable.ToggleTwice | src/components/board/PaymentTable.tsx:88-89 | toggling a paid or unpaid payment twice restores its status |
| PaymentTable.ToggleInChangesOnlyThatPayment | src/components/board/PaymentTable.tsx:88-102 | only the rows with the toggled id change, and only in status and date, which become the values derived from the clicked payment even when that copy is stale; a row equal to the clicked payment becomes its toggle; length and order are kept |
| PaymentTable.NewRecord | src/components/board/PaymentTable.tsx:111-119 | the new payment carries the form's values and has a paid date exactly when its status is 'paid' |
| PaymentTable.Component.TogglePaymentStatus | src/components/board/PaymentTable.tsx:86-103 | one update with the status and date derived from the clicked payment is sent, and every list row with that id then holds exactly the status and date that update wrote |
| PaymentTable.Component.HandleAddPayment | src/components/board/PaymentTable.tsx:105-128 | with resident, amount or period empty nothing happens; otherwise the record is inserted, the list is refetched and the form resets to '', '', '', 'unpaid', hidden, not adding |
| PaymentTable.Component.Load | src/components/board/PaymentTable.tsx:61-69 | the list becomes the fetched rows (none for null) |
| AnnouncementTable.PriorityColor | src/components/board/AnnouncementTable.tsx:37-50 | urgent is red, high amber, normal blue, and everything else (low included) the default |
| AnnouncementTable.WithPublishedChangesOnlyThatOne | src/components/board/AnnouncementTable.tsx:77-79 | the switch sets `published` on that id only; length and order are kept |
| AnnouncementTable.WithPublishedTwice | src/components/board/AnnouncementTable.tsx:78 | setting the same value twice is setting it once |
| AnnouncementTable.Without | src/components/board/AnnouncementTable.tsx:86 | deleting drops exactly the announcements with that id, keeping the others in order |
| AnnouncementTable.WithoutAbsent | src/components/board/AnnouncementTable.tsx:86 | deleting an absent id changes nothing |
| AnnouncementTable.Component.HandlePublishedToggle | src/components/board/AnnouncementTable.tsx:74-80 | one update is sent and the list changes only at that id |
| AnnouncementTable.Component.HandleDelete | src/components/board/AnnouncementTable.tsx:82-89 | with no id (null or '') nothing happens; otherwise one delete is sent, that id leaves the list, the id is cleared and the dialog closes |
| DocumentManager.DocUrl | src/components/board/DocumentManager.tsx:35-37 | the URL is the base, then '/storage/v1/object/public/hoa-documents/', then the file path |
| DocumentManager.DocUrlInjective | src/components/board/DocumentManager.tsx:35-37 | different files get different URLs |
| DocumentManager.CategoryLabel | src/components/board/DocumentManager.tsx:47-53 | an unknown category is shown as it is |
| DocumentManager.CategoryColor | src/components/board/DocumentManager.tsx:39-45 | only bylaws, policy, meeting minutes and form get a colour; other and unknown categories get the default |
| DocumentManager.LabelsMatchUploadMenu | src/components/board/DocumentManager.tsx:47-53 | each category the upload menu offers is shown with the menu's own label |
| DocumentManager.LabelsDistinct | src/components/board/DocumentManager.tsx:47-53 | the five known categories have five different labels |
| DocumentManager.Without | src/components/board/DocumentManager.tsx:86 | deleting drops exactly the documents with that id, keeping the others in order |
| DocumentManager.WithoutAbsent | src/components/board/DocumentManager.tsx:86 | deleting an absent id changes nothing |
| DocumentManager.Component.HandleDelete | src/components/board/DocumentManager.tsx:79-89 | with no document selected nothing happens; otherwise the stored file is removed before the row is deleted, that id leaves the list, the selection is cleared and the dialog closes |
| DocumentList.FilteredDocuments | src/components/documents/DocumentList.tsx:47-52 | tab 0 shows every document unchanged; any other tab shows, in order, exactly the documents whose lowered category equals the lowered tab label |
| DocumentList.TabLabelsDistinct | src/components/documents/DocumentList.tsx:23 | the lowered labels of the five category tabs differ |
| DocumentList.AtMostOneTab | src/components/documents/DocumentList.tsx:23-52 | a document appears under at most one category tab |
| DocumentList.BylawsAndOtherFindTheirTabs | src/components/documents/DocumentList.tsx:23-51 | 'Bylaws' and 'Other' lower to the upload keys 'bylaws' and 'other' |
| DocumentList.MisfiledCategoriesMatchNoTab | src/components/documents/DocumentList.tsx:23-51 | the upload keys 'policy', 'meeting_minutes' and 'form' equal no lowered tab label |
| DocumentList.MisfiledDocumentsNeverShown | src/components/documents/DocumentList.tsx:47-52 | a document uploaded as policy, meeting minutes or form appears under no category tab |
| DocumentList.FilteredByKey | src/components/documents/DocumentList.tsx:47-52 | the corrected filter: tab 0 shows everything; any other tab shows exactly the documents stored under that tab's category key |
| DocumentList.EveryUploadCategoryHasItsTab | src/components/board/DocumentUpload.tsx:127-131 | with the corrected filter, every category the upload menu offers has its own tab, which shows all of its documents, and no other tab shows them |
| DocumentUpload.Sanitize | src/components/board/DocumentUpload.tsx:46 | sanitising keeps the name's length |
| DocumentUpload.SanitizeChars | src/components/board/DocumentUpload.tsx:46 | allowed characters stay in place, every other character becomes '_', and the result holds only `[a-zA-Z0-9._-]` |
| DocumentUpload.SanitizeIdempotent | src/components/board/DocumentUpload.tsx:46 | sanitising twice is sanitising once |
| DocumentUpload.StoredPathSplits | src/components/board/DocumentUpload.tsx:45-47 | the path is the timestamp's digits, then '_', then the sanitised name |
| DocumentUpload.ProgressSteps | src/components/board/DocumentUpload.tsx:39-82 | progress starts at 20, only rises, and reaches 100 exactly when both the upload and the insert succeed |
| DocumentUpload.CanUploadIff | src/components/board/DocumentUpload.tsx:36 | the guard passes exactly when the trimmed title is non-empty and a file is chosen |
| DocumentUpload.UploadCalls | src/components/board/DocumentUpload.tsx:51-89 | the object is uploaded first; the row is inserted exactly when the upload succeeded; the parent is told exactly when both succeeded |
| DocumentUpload.Outcome | src/components/board/DocumentUpload.tsx:83-94 | the message is a success exactly when both succeeded, and otherwise carries the first error's text |
| DocumentUpload.Row | src/components/board/DocumentUpload.tsx:67-76 | the row carries the form and file values, with an empty description stored as null |
| DocumentUpload.Upload | src/components/board/DocumentUpload.tsx:38-94 | the steps after the guard append exactly the progress values and calls above, show the outcome, and clear the form only on success |
| DocumentUpload.Component.HandleUpload | src/components/board/DocumentUpload.tsx:35-99 | with a blank title or no file nothing happens; otherwise the state takes the steps' outcome, uploading ends false and the progress reset is pending |
| DocumentUpload.Component.TimerFires | src/components/board/DocumentUpload.tsx:97 | the pending timer sets progress back to 0 |
| FormSubmissions.Field | src/app/board/form-submissions/page.tsx:83-148 | a missing `form_data` key reads as '' |
| FormSubmissions.ProjectTypeLabel | src/app/board/form-submissions/page.tsx:99 | the type chip is never empty: the mapped label, else the raw project type, else 'N/A' |
| FormSubmissions.StatusColor | src/app/board/form-submissions/page.tsx:42-48 | a status has a colour exactly when it is one of the five listed, and only 'completed' has the default |
| FormSubmissions.MenuStatusesHaveDistinctColors | src/app/board/form-submissions/page.tsx:42-48 | each of the five statuses the editor offers has its own colour |
| FormSubmissions.StatusChipLabel | src/app/board/form-submissions/page.tsx:105 | the chip text has the status's length and equals it when there is no '_' |
| FormSubmissions.UnderReviewChipLabel | src/app/board/form-submissions/page.tsx:105 | 'under_review' is shown as 'under review' |
| FormSubmissions.Detail | src/app/board/form-submissions/page.tsx:117-148 | a detail is never empty: the value when there is one, and 'N/A' when it is empty or missing |
| FormSubmissions.Description | src/app/board/form-submissions/page.tsx:122 | the description is never empty: the text when there is one, and 'No description provided' when it is empty or missing |
| FormSubmissions.EveryOfferedTypeHasLabel | src/app/board/form-submissions/page.tsx:50-63 | every project type the architectural-review form offers has a label |
| FormSubmissions.ShowsWhatWasSubmitted | src/app/board/form-submissions/page.tsx:83-148 | for a submission made through the architectural-review form, the board sees the chosen type's label, the typed description, and the email, phone, start date, completion date, materials, colours, contractor and contractor phone each as typed or 'N/A' |
| FormSubmissions.Row.constructor | src/app/board/form-submissions/page.tsx:65-69 | the editor starts from the stored notes (null as '') and the stored status |
| FormSubmissions.Row.ToggleOpen | src/app/board/form-submissions/page.tsx:89 | the expand button flips the row open or closed |
| FormSubmissions.Row.HandleSave | src/app/board/form-submissions/page.tsx:71-81 | one update is sent with the chosen status, the notes (empty as null) and the review time; the page then refetches |
| FormSubmissions.Page.Fetch | src/app/board/form-submissions/page.tsx:193-201 | the list becomes the fetched rows (none for null) and loading ends |
| ResidentForm.Loaded | src/components/board/ResidentForm.tsx:44-59 | opening without a resident clears every field |
| ResidentForm.CanSaveIff | src/components/board/ResidentForm.tsx:63-65 | saving goes on exactly when first name, last name, lot number and address are non-empty after trimming |
| ResidentForm.Data | src/components/board/ResidentForm.tsx:70-77 | the written row has a null email or phone exactly when the field is empty |
| ResidentForm.SaveUneditedWritesBack | src/components/board/ResidentForm.tsx:44-83 | opening a resident and saving without edits writes the same resident back |
| ResidentForm.ReopenShowsSaved | src/components/board/ResidentForm.tsx:44-83 | reopening a saved resident shows exactly the fields that were saved |
| ResidentForm.Component.Open | src/components/board/ResidentForm.tsx:44-60 | the dialog's fields become the resident's (null email or phone as '') or empty |
| ResidentForm.Component.HandleSave | src/components/board/ResidentForm.tsx:62-87 | with a blank required field nothing happens; otherwise the row is updated by the resident's id (editing) or inserted (adding), then `onSave` is called |
| AnnouncementForm.Loaded | src/components/board/AnnouncementForm.tsx:46-58 | opening without an announcement gives '', '', 'normal', not published |
| AnnouncementForm.SaveUneditedWritesBack | src/components/board/AnnouncementForm.tsx:46-74 | opening an announcement and saving without edits writes the same values back |
| AnnouncementForm.ReopenShowsSaved | src/components/board/AnnouncementForm.tsx:46-74 | reopening a saved announcement shows what was saved |
| AnnouncementForm.CanSaveIff | src/components/board/AnnouncementForm.tsx:61 | saving goes on exactly when the trimmed title and the trimmed body are non-empty |
| AnnouncementForm.DefaultsCannotSave | src/components/board/AnnouncementForm.tsx:52-61 | a new announcement cannot be saved before a title and body are typed |
| AnnouncementForm.Component.Open | src/components/board/AnnouncementForm.tsx:46-58 | the dialog's fields become the announcement's or the defaults |
| AnnouncementForm.Component.HandleSave | src/components/board/AnnouncementForm.tsx:60-80 | with a blank title or body nothing happens; otherwise the four fields are updated by id (editing) or inserted (new), then `onSave` and `onClose` are called |
| ArchitecturalReview.FormData | src/app/forms/architectural-review/page.tsx:60-69 | `form_data` has exactly the eight project keys, each holding its form field as typed |
| ArchitecturalReview.RecordOf | src/app/forms/architectural-review/page.tsx:54-70 | the record's form type is 'architectural_review', its email and phone are null exactly when empty, and its `form_data` has the eight keys |
| ArchitecturalReview.RecordOfInjective | src/app/forms/architectural-review/page.tsx:54-70 | two forms give the same record exactly when every field but the acknowledgment agrees, so nothing typed is lost |
| ArchitecturalReview.Page.HandleSubmit | src/app/forms/architectural-review/page.tsx:42-79 | without the acknowledgment the error asks for it and nothing is inserted; otherwise the record is inserted, success shows the confirmation, failure shows the error and leaves `submitted` unchanged, and `submitting` ends false |
| BoardSidebar.OverviewActiveIff | src/components/layout/BoardSidebar.tsx:49 | Overview is highlighted exactly on '/board' |
| BoardSidebar.OtherActiveIff | src/components/layout/BoardSidebar.tsx:50 | every other item is highlighted exactly when the path starts with its href |
| BoardSidebar.HrefsDifferAtSeven | src/components/layout/BoardSidebar.tsx:27-36 | the hrefs other than Overview's differ in their first letter after '/board/' |
| BoardSidebar.AtMostOneActive | src/components/layout/BoardSidebar.tsx:27-51 | for any path at most one item is highlighted |
| BoardSidebar.ResidentSubPage | src/components/layout/BoardSidebar.tsx:49-50 | on '/board/residents/x' Residents is highlighted and Overview is not |
| VapiWidget.GetColor | src/components/shared/VapiWidget.tsx:52-59 | each status has its colour, with idle taking the default branch |
| VapiWidget.GetTooltip | src/components/shared/VapiWidget.tsx:61-68 | each status has its hint, with idle taking the default branch |
| VapiWidget.ColorAndTooltipDistinguish | src/components/shared/VapiWidget.tsx:52-68 | different statuses get different colours and different hints |
| VapiWidget.Widget.Click | src/components/shared/VapiWidget.tsx:21-32 | an active or connecting call with a client is stopped and shows 'ended', with a return to 'idle' pending; without a client nothing changes; from idle or ended it starts connecting |
| VapiWidget.Widget.StartSettled | src/components/shared/VapiWidget.tsx:33-49 | a failed import or a throwing start returns to 'idle'; the client is kept once it was made |
| VapiWidget.Widget.CallStart | src/components/shared/VapiWidget.tsx:37 | 'call-start' makes the call active |
| VapiWidget.Widget.CallEnd | src/components/shared/VapiWidget.tsx:38-41 | 'call-end' shows 'ended' with a return to 'idle' pending |
| VapiWidget.Widget.Error | src/components/shared/VapiWidget.tsx:42-44 | 'error' returns to 'idle' |
| VapiWidget.Widget.Tick | src/components/shared/VapiWidget.tsx:26 | a pending 2-second timer sets 'idle', whatever the status is by then; 'ended' never lasts without a pending timer |
| VapiWidget.Widget.LabelTimerFires | src/components/shared/VapiWidget.tsx:16-19 | after the 5-second timer the bubble shows only while a call is active |
| VapiWebhook.Member | src/app/api/vapi/webhook/route.ts:8 | `v?.key` is defined exactly when `v` is an object with that key |
| VapiWebhook.Path | src/app/api/vapi/webhook/route.ts:8-36 | an optional chain is undefined once any step is |
| VapiWebhook.FirstTruthy | src/app/api/vapi/webhook/route.ts:18-36 | an `\|\|` chain yields a truthy value or its final default |
| VapiWebhook.FirstTruthyPicks | src/app/api/vapi/webhook/route.ts:18-36 | the chain yields its first truthy candidate |
| VapiWebhook.FirstTruthyDefault | src/app/api/vapi/webhook/route.ts:18-36 | with no truthy candidate (missing, null, '', 0 or false) the chain yields its default |
| VapiWebhook.RowOf | src/app/api/vapi/webhook/route.ts:43-51 | the row's status is always 'new' and its category is never falsy |
| VapiWebhook.RowHasNoNulls | src/app/api/vapi/webhook/route.ts:28-51 | no column of the row is null, undefined, false or 0: each is a truthy value or '', and the category is truthy |
| VapiWebhook.CallerPhoneFallback | src/app/api/vapi/webhook/route.ts:18-21 | the phone is the call's customer number, else the body's customer number, else '' |
| VapiWebhook.SummaryFallback | src/app/api/vapi/webhook/route.ts:23-26 | the summary is the message's, else the analysis's, else '' |
| VapiWebhook.CategoryDefaultsToGeneral | src/app/api/vapi/webhook/route.ts:33-34 | a missing or empty category is filed as 'general' |
| VapiWebhook.Handle | src/app/api/vapi/webhook/route.ts:4-69 | an unreadable body gives 500 'Internal server error'; a non-report gives 200 and no insert; a report inserts its row and gives 500 with the insert's error, or 200 success; success is reported exactly with status 200 |
| CallNotesList.Component.constructor | src/components/board/CallNotesList.tsx:56-61 | the list starts empty and loading, nothing expanded, the editor empty and not saving |
| ResidentTable.Component.constructor | src/components/board/ResidentTable.tsx:42-48 | the list and search start empty, with no resident marked for deletion and the dialog closed |
| PaymentTable.Component.constructor | src/components/board/PaymentTable.tsx:51-59 | the list starts empty and the add form starts at '', '', '', 'unpaid', hidden, not adding |
| AnnouncementTable.Component.constructor | src/components/board/AnnouncementTable.tsx:53-58 | the list starts empty, with no announcement marked for deletion and the dialog closed |
| DocumentManager.Component.constructor | src/components/board/DocumentManager.tsx:60-63 | the list starts empty, with no document selected for deletion and the dialog closed |
| DocumentUpload.Component.constructor | src/components/board/DocumentUpload.tsx:23-33 | the form starts empty with category 'other', no file, progress 0 and no message |
| ResidentForm.Component.constructor | src/components/board/ResidentForm.tsx:36-42 | every field starts empty and the dialog is not saving |
| AnnouncementForm.Component.constructor | src/components/board/AnnouncementForm.tsx:40-44 | the fields start at '', '', 'normal', not published |
| ArchitecturalReview.Page.constructor | src/app/forms/architectural-review/page.tsx:24-40 | every field starts empty and unacknowledged, with no error and nothing submitted |
| FormSubmissions.Page.constructor | src/app/board/form-submissions/page.tsx:190-191 | the list starts empty and loading |
| VapiWidget.Widget.constructor | src/components/shared/VapiWidget.tsx:12-14 | the widget starts idle, with no client, no pending timer and the bubble shown |
| Text.ContainsIff | src/components/board/ResidentTable.tsx:76 | `includes` holds exactly when the pattern occurs at some position |
| Text.TrimEmptyIffAllSpace | src/components/board/ResidentForm.tsx:63 | trimming leaves nothing exactly when the text is all white space |
| Text.LowerConcat | src/components/board/ResidentTable.tsx:75-76 | lowering a concatenation lowers each part |
| Text.DecimalString | src/components/board/DocumentUpload.tsx:45 | the timestamp's text is a non-empty run of decimal digits that reads back as the timestamp, with no leading zero unless it is 0 |

## Left out

- Rendering, styling and page composition: only the state, handlers and values the components compute are modelled.
- The database, storage and authentication service: each call becomes an entry in a `calls` or `writes` log, and its answer becomes a parameter. Orderings done by the query (`order('created_at')`) are taken as given.
- The feed fetch, the `Promise.all` concurrency, `revalidate: 3600` and the `Cache-Control` header: each query's response is a parameter, and the queries are visited in order. Concurrency does not change the result, because `Promise.all` keeps query order.
- Dates: `new Date(...).getTime()` is the parameter `time` (partial), and `toISOString()` is the parameter `now`. `toLocaleDateString` is display only.
- NewsRoute.SortNewestFirst: claims no order when some date does not parse (`NaN`). JavaScript's `sort` with such a comparator has an order that depends on the implementation. The model uses an insertion sort that treats `NaN` as 0 and only promises a permutation in that case.
- NewsRoute.Get: proves that the output is newest first and holds the newest articles. When every date parses, the engine's sort is stable, so articles with equal dates keep their gathered order and the twenty kept are fully determined. The model's insertion sort also swaps only strictly older neighbours, but the order of equal-dated articles is not stated in any contract.
- JavaScript strings are UTF-16 code units; the model uses Dafny characters. Lengths differ for characters outside the Basic Multilingual Plane, such as emoji, which affects `truncate` and `substring`.
- `toLowerCase` is modelled for ASCII letters only; other letters are left unchanged.
- Floating point: the payment amount is kept as the text given to `parseFloat`. File sizes divided by 1024 and `toFixed` are display only.
- `Record` lookups with inherited keys such as 'constructor' (`map['constructor']` returns a function in JavaScript) are not modelled; every lookup of a key outside the table gives the fallback.
- The general regular-expression engine: only the five field patterns, the item pattern and the tag pattern are modelled, as scanners.
- VapiWidget.Widget.Click: the awaited SDK import and `start` are a separate step, `StartSettled`, and a second click in between is allowed. The SDK itself and the 2-second and 5-second timers are external. The timers are the `Tick` and `LabelTimerFires` steps.
- VapiWebhook.Handle: every exception inside the handler is modelled as an unreadable body. The only other thing that can throw there is the client constructor.
- The `saving`, `adding`, `submitting` and `uploading` flags are true only while a handler runs. Their effect on disabled buttons is modelled by the guards (`CanSave`, `CanAdd`, `CanSubmit`, `CanUpload`).
- ArchitecturalReview.CanSubmit states when the button is enabled. `HandleSubmit` itself checks only the acknowledgment, as the code does.

## Findings

| source | as written | input that shows it | evidently intended | confidence | as-written member | corrected member |
|---|---|---|---|---|---|---|
| src/components/documents/DocumentList.tsx:23-51 | the category tabs compare a document's lowered category with the lowered tab label ('policies', 'meeting minutes', 'forms') | a document uploaded with category 'policy' (src/components/board/DocumentUpload.tsx:128) is shown under no tab but 'All', and the same holds for 'meeting_minutes' and 'form' | each tab shows the documents stored under its category key | not executed | DocumentList.MisfiledDocumentsNeverShown | DocumentList.EveryUploadCategoryHasItsTab |
