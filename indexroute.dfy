/**
 * The page component of the PDF merger: the selected files, the busy flag
 * and the output name, with one method per event handler.  Downloads the
 * page triggers are recorded in `downloads`, one entry per `saveAs`.
 */
module IndexRoute {
  import opened Wrappers
  import opened Platform
  import opened PdfLib
  import opened FileList
  import opened Merging

  class Home {
    var pdfFiles: seq<File>
    var isMerging: bool
    var fileName: string
    var downloads: seq<Download>

    /** The component's initial state: no files, not busy, output named "merged.pdf". */
    constructor ()
      ensures pdfFiles == [] && !isMerging && fileName == "merged.pdf" && downloads == []
    {
      pdfFiles := [];
      isMerging := false;
      fileName := "merged.pdf";
      downloads := [];
    }

    /**
     * `handlePdfFilesChange`: a non-empty selection replaces the list, in
     * selection order; a missing or empty selection leaves it alone.
     */
    method HandlePdfFilesChange(selection: Option<seq<File>>)
      modifies this`pdfFiles
      ensures selection.Some? && |selection.value| > 0 ==> pdfFiles == selection.value
      ensures selection.None? || |selection.value| == 0 ==> pdfFiles == old(pdfFiles)
    {
      if selection.Some? && |selection.value| > 0 {
        pdfFiles := selection.value;
      }
    }

    /** The output-name field's `onInput`: the next download is named `name`. */
    method SetFileName(name: string)
      modifies this`fileName
      ensures fileName == name
    {
      fileName := name;
    }

    /** `removeFile(index)`. */
    method RemoveFile(index: int)
      modifies this`pdfFiles
      ensures pdfFiles == Remove(old(pdfFiles), index)
      ensures 0 <= index < |old(pdfFiles)| ==>
        pdfFiles == old(pdfFiles)[..index] + old(pdfFiles)[index + 1..]
      ensures !(0 <= index < |old(pdfFiles)|) ==> pdfFiles == old(pdfFiles)
    {
      RemoveSpec(pdfFiles, index);
      pdfFiles := Remove(pdfFiles, index);
    }

    /** `moveFileUp(index)`. */
    method MoveFileUp(index: int)
      requires index == 0 || 0 < index < |pdfFiles|
      modifies this`pdfFiles
      ensures pdfFiles == MoveUp(old(pdfFiles), index)
      ensures multiset(pdfFiles) == multiset(old(pdfFiles))
    {
      if index == 0 {
        return;
      }
      pdfFiles := MoveUp(pdfFiles, index);
    }

    /** `moveFileDown(index)`. */
    method MoveFileDown(index: int)
      requires index == |pdfFiles| - 1 || 0 <= index < |pdfFiles| - 1
      modifies this`pdfFiles
      ensures pdfFiles == MoveDown(old(pdfFiles), index)
      ensures multiset(pdfFiles) == multiset(old(pdfFiles))
    {
      if index == |pdfFiles| - 1 {
        return;
      }
      pdfFiles := MoveDown(pdfFiles, index);
    }

    /**
     * `mergePdfs`: an empty list is rejected before the busy flag or the
     * library is touched.  Otherwise the flag is raised, every file is read,
     * parsed and has all its pages appended to a fresh accumulator, the
     * accumulator is saved and the bytes are downloaded under `fileName`.
     * The first failure abandons the merge without a download; the flag is
     * lowered on every exit.  The list and the name are not changed.
     */
    method MergePdfs(lib: Library) returns (outcome: Result<Download, MergeError>)
      modifies this`isMerging, this`downloads
      ensures outcome == Merge(lib, pdfFiles, fileName)
      ensures old(pdfFiles) == [] ==> isMerging == old(isMerging)
      ensures old(pdfFiles) != [] ==> !isMerging
      ensures downloads == if outcome.Ok? then old(downloads) + [outcome.value] else old(downloads)
    {
      if |pdfFiles| == 0 {
        return Err(EmptySelection);
      }

      isMerging := true;
      var merged := new MergedDocument.Create();
      var failure: Option<MergeError> := None;
      var i := 0;
      while i < |pdfFiles| && failure.None?
        invariant 0 <= i <= |pdfFiles|
        invariant failure.None? ==> Accumulate(lib, pdfFiles[..i]) == Ok(merged.pages)
        invariant failure.Some? ==> Accumulate(lib, pdfFiles[..i]) == Err(failure.value)
        modifies merged
        decreases |pdfFiles| - i
      {
        var file := pdfFiles[i];
        assert pdfFiles[..i + 1][..i] == pdfFiles[..i];
        assert pdfFiles[..i + 1][i] == file;
        var bytes := lib.readBytes(file);
        if bytes.None? {
          failure := Some(FileFailure(i, Unreadable));
        } else {
          var loaded := lib.load(bytes.value);
          if loaded.None? {
            failure := Some(FileFailure(i, Unparseable));
          } else {
            var doc := loaded.value;
            CopyAllPages(doc);
            var copied := CopyPages(doc, PageIndices(doc));
            ghost var before := merged.pages;
            var j := 0;
            while j < |copied|
              invariant 0 <= j <= |copied|
              invariant merged.pages == before + copied[..j]
              modifies merged
            {
              merged.AddPage(copied[j]);
              j := j + 1;
            }
            assert copied[..j] == doc.pages;
          }
        }
        i := i + 1;
      }

      if failure.Some? {
        AccumulateStopsAtFailure(lib, pdfFiles, i);
        outcome := Err(failure.value);
      } else {
        assert pdfFiles[..i] == pdfFiles;
        var saved := lib.save(merged.pages);
        if saved.None? {
          outcome := Err(SerializeFailure);
        } else {
          outcome := Ok(Download(saved.value, fileName));
          downloads := downloads + [outcome.value];
        }
      }
      isMerging := false;
    }
  }
}
