# PDF merger page — a verified model

This project models the logic of the PDF merger's single page, the `Home`
component in `src/routes/index.tsx`. The page holds three pieces of state:
the ordered list of selected PDF files, an `isMerging` busy flag and the
output file name, which starts as `merged.pdf`. The event handlers work on
that state:

- a file selection replaces the list;
- the buttons next to each entry remove it or move it one place up or down;
- the merge button loads every file in list order and appends all of its
  pages to one new document. It then saves that document and downloads it
  under the output name. Any failure aborts the merge without a download.

The PDF library (pdf-lib) is opaque here. In the model:

- a parsed document is just its sequence of pages (`PdfLib.Document`);
- reading a file, parsing bytes and saving pages are total functions that
  may fail (`PdfLib.Library`);
- the accumulator document is a small class (`PdfLib.MergedDocument`) whose
  `AddPage` appends one page.

Modules:

- `Wrappers`: `Option` and `Result`.
- `Platform`: files, bytes and downloads.
- `PdfLib`: the library abstraction.
- `FileList`: the pure list operations behind the buttons, with their lemmas.
- `Merging`: what a merge computes, stated as functions, with their lemmas.
  `Accumulate` is the fail-fast accumulation over the list. `Merge` is the
  whole handler. `PagesOf` is an independent reference definition: the
  concatenation of every file's pages.
- `IndexRoute`: the component itself. The class `Home` has the fields
  `pdfFiles`, `isMerging`, `fileName` and `downloads`, and one method per
  handler. `downloads` records each `saveAs` call: the bytes and the name
  delivered. `MergePdfs` is an imperative method. Its outer loop walks the
  files; its inner loop adds each copied page, as the source's `forEach`
  does. It is proved equal to `Merging.Merge`.

## Model

| member | source | states |
|---|---|---|
| IndexRoute.Home.constructor | src/routes/index.tsx:17-19 | The component starts with no files, not merging, and the output name `merged.pdf`; nothing has been downloaded. |
| IndexRoute.Home.HandlePdfFilesChange | src/routes/index.tsx:21-27 | A present, non-empty selection replaces the list with the selected files in selection order. A missing or empty selection leaves the list unchanged. |
| IndexRoute.Home.SetFileName | src/routes/index.tsx:160 | Typing in the name field sets the name that the next download uses. |
| IndexRoute.Home.RemoveFile | src/routes/index.tsx:29-31 | The list becomes the position filter of the old list. For an index inside the list that is the old list without that one entry. Any other index leaves the list unchanged. |
| IndexRoute.Home.MoveFileUp | src/routes/index.tsx:33-40 | The list becomes `MoveUp` of the old list, so it keeps the same entries with the same multiplicities. |
| IndexRoute.Home.MoveFileDown | src/routes/index.tsx:42-49 | The list becomes `MoveDown` of the old list, so it keeps the same entries with the same multiplicities. |
| IndexRoute.Home.MergePdfs | src/routes/index.tsx:51-89 | The outcome equals `Merge` of the current list and name, and the list and name are unchanged. An empty list does not touch the busy flag; otherwise the flag is false on every exit. Exactly one download, of the outcome, is recorded on success, and none on failure. The loop invariant is that the accumulator holds `Accumulate` of the files visited so far. |
| FileList.KeepOthersSlices | src/routes/index.tsx:30 | Filtering out position `index` from a list that starts at position `from` gives the slices around that position when the position is in range, and the whole list otherwise. |
| FileList.RemoveSpec | src/routes/index.tsx:29-31 | For `0 <= i < |files|`, removal gives `files[..i] + files[i+1..]`. For any index outside that range, the list is unchanged. |
| FileList.RemoveDropsOne | src/routes/index.tsx:29-31 | Removing a valid position shortens the list by exactly one. The multiset of entries loses exactly the removed entry. |
| FileList.SwappedAtSplits | src/routes/index.tsx:37 | Exchanging two neighbours keeps the parts before and after the pair, reverses the pair, and is a permutation. |
| FileList.MoveUp | src/routes/index.tsx:33-40 | Index 0 leaves the list unchanged. For `0 < i < |files|`, positions `i-1` and `i` are exchanged and every other position is unchanged. The result is always a permutation of the input. |
| FileList.MoveDown | src/routes/index.tsx:42-49 | The last index leaves the list unchanged. For `0 <= i < |files|-1`, positions `i` and `i+1` are exchanged and every other position is unchanged. The result is always a permutation of the input. |
| FileList.MoveDownIsMoveUpOfNext | src/routes/index.tsx:33-49 | Moving entry `i` down gives the same list as moving entry `i+1` up, because both swap the same pair. |
| FileList.MoveDownUndoesMoveUp | src/routes/index.tsx:33-49 | For `0 < i < |files|`, `moveFileDown(i-1)` after `moveFileUp(i)` restores the original list. |
| FileList.MoveUpUndoesMoveDown | src/routes/index.tsx:33-49 | For `0 <= i < |files|-1`, `moveFileUp(i+1)` after `moveFileDown(i)` restores the original list. |
| PdfLib.CopyAllPages | src/routes/index.tsx:68-71 | Copying a document's pages at all of its page indices yields exactly its pages, in their original order. |
| PdfLib.MergedDocument.Create | src/routes/index.tsx:60 | A freshly created accumulator has no pages. |
| PdfLib.MergedDocument.AddPage | src/routes/index.tsx:74 | Adding a page appends it at the end and keeps the earlier pages. |
| Merging.Accumulate | src/routes/index.tsx:63-75 | The fail-fast loop over the files succeeds exactly when every file loads. On failure it names a file inside the list whose read or parse failed, with the failure kind. Every file before that one loads, so the named file is the first failing one. |
| Merging.AccumulateAllLoaded | src/routes/index.tsx:63-75 | When every file loads, the accumulated pages are the concatenation, in list order, of each file's pages in their own order. |
| Merging.PagesOfLength | src/routes/index.tsx:63-75 | The merged page count is the sum of the per-file page counts. |
| Merging.AccumulateStopsAtFailure | src/routes/index.tsx:58-85 | Once a prefix of the list fails, the files after it do not change the outcome: the first failure aborts the whole merge. |
| Merging.AllLoadAppend | src/routes/index.tsx:63 | Every file of a joined list loads exactly when every file of both parts loads. |
| Merging.PagesOfAppend | src/routes/index.tsx:63-75 | The pages of two joined lists are the pages of the first list followed by those of the second. |
| Merging.MergeOutcome | src/routes/index.tsx:51-89 | A merge downloads something exactly when the list is non-empty, every file loads and the merged pages serialise. The download then holds the serialisation of all pages in list order and the current output name. An empty list gives `EmptySelection`. A load failure names the first failing file. A failed save gives `SerializeFailure`. |
| Merging.PagesOfRemove | src/routes/index.tsx:29-31 | Removing entry `i` before merging takes exactly that file's pages out of the result. The pages before and after it keep their order. |
| Merging.PagesOfTwoSplits | src/routes/index.tsx:63-75 | The pages of `front + [x, y] + back` are front's pages, then x's, then y's, then back's. |
| Merging.PagesOfMoveUp | src/routes/index.tsx:33-40 | Moving entry `i` up before merging exchanges the page blocks of files `i-1` and `i` in the merged output. Nothing else in the output changes. |
| Merging.PagesOfMoveDown | src/routes/index.tsx:42-49 | States the merged output before and after moving entry `i` down. Only the page blocks of files `i` and `i+1` change places; nothing else in the output changes. |

## Left out

- `saveAs` (src/routes/index.tsx:5-14) is not modelled as browser code. Creating the object URL and anchor, the simulated click and the revocation are browser side effects. The model records only the bytes and the name that were delivered (`Home.downloads`).
- pdf-lib internals are not modelled. `PDFDocument.create`, `load`, `copyPages`, `getPageIndices`, `addPage` and `save` are abstracted over opaque pages. Only reading a file's bytes, `load` and `save` can fail in the model. `PDFDocument.create`, `getPageIndices`, `copyPages` and `addPage` are treated as infallible. In the source, a throw from any of these (src/routes/index.tsx:60, 68-74) is caught like the others and ends the merge with no download and the flag reset. So a file that loads but whose pages then fail to copy or add aborts the source's merge, and the model cannot express that. `Merging.MergeOutcome`'s download condition therefore assumes those calls succeed. The `Blob` MIME type is not modelled.
- The `alert` and `console.error` notices are not modelled; they only notify and log.
- The `async`/`await` suspension points are not modelled. The merge runs as one sequential method. In the source, the list buttons and the name field stay enabled while a merge is waiting on the library, and the name is read only after the last page is saved. A rename typed during a merge therefore names the download. The model has no interleaving, so it cannot express this.
- IndexRoute.Home.MoveFileUp: requires `index == 0 || 0 < index < |pdfFiles|`. The buttons only pass positions of the rendered list. In JavaScript, a larger index would write `undefined` into a grown array, and a negative one would set non-index properties. These cases are not modelled.
- IndexRoute.Home.MoveFileDown: requires `index == |pdfFiles| - 1 || 0 <= index < |pdfFiles| - 1`, for the same reason as `MoveFileUp`.
- The JSX rendering is not modelled. That includes the `disabled` expressions of the buttons (src/routes/index.tsx:124, 132, 168), which ignore clicks on the first entry's up button, the last entry's down button, and the merge button while busy or with an empty list. `MergePdfs` does not require the line-168 guard. It models the handler itself, which also runs its empty-list branch.
- The two failure kinds of a load, unreadable bytes and unparseable content, are told apart in `MergeError`. The source catches every exception in one handler; this only refines the error value, and the handler's observable behaviour (no download, flag reset) is the same.
- `app.config.ts` holds build settings only and is not part of this model.
- No file-count cap or drag-and-drop selection appears in `src/routes/index.tsx`, so none is modelled.
