/**
 * What a merge computes, stated as functions of the library and the file
 * list: the files are loaded one after another in list order, every page
 * of each is appended to one accumulator, and the first failure aborts the
 * whole merge.
 */
module Merging {
  import opened Wrappers
  import opened Platform
  import opened PdfLib
  import opened FileList

  /** Why one file could not be brought into the merge. */
  datatype LoadFailure = Unreadable | Unparseable

  /** Every way a merge can end without a download. */
  datatype MergeError =
    | EmptySelection                                // no file selected
    | FileFailure(index: nat, kind: LoadFailure)    // the file at `index` could not be read or parsed
    | SerializeFailure                              // the merged document could not be saved

  /** Read one file's bytes and parse them into a document. */
  function LoadFile(lib: Library, file: File): Result<Document, LoadFailure>
  {
    match lib.readBytes(file)
    case None => Err(Unreadable)
    case Some(bytes) =>
      match lib.load(bytes)
      case None => Err(Unparseable)
      case Some(doc) => Ok(doc)
  }

  /** Every file of the list loads. */
  ghost predicate AllLoad(lib: Library, files: seq<File>)
  {
    forall i :: 0 <= i < |files| ==> LoadFile(lib, files[i]).Ok?
  }

  /** The pages of a file that loads. */
  function PagesOfFile(lib: Library, file: File): seq<Page>
    requires LoadFile(lib, file).Ok?
  {
    LoadFile(lib, file).value.pages
  }

  /**
   * The accumulator after the loop has visited `files`, one file after the
   * other: either the pages gathered so far or the failure that stopped it.
   * A failure names the first file that does not load.
   */
  function Accumulate(lib: Library, files: seq<File>): (r: Result<seq<Page>, MergeError>)
    ensures r.Ok? <==> AllLoad(lib, files)
    ensures r.Err? ==>
      r.error.FileFailure? && r.error.index < |files| &&
      LoadFile(lib, files[r.error.index]) == Err(r.error.kind) &&
      AllLoad(lib, files[..r.error.index])
    decreases |files|
  {
    if files == [] then Ok([])
    else
      var n := |files| - 1;
      assert files[..n][..n] == files[..n];
      match Accumulate(lib, files[..n])
      case Err(e) =>
        assert files[..n][..e.index] == files[..e.index];
        Err(e)
      case Ok(pages) =>
        match LoadFile(lib, files[n])
        case Err(kind) => Err(FileFailure(n, kind))
        case Ok(doc) => Ok(pages + doc.pages)
  }

  /** The whole merge: reject an empty list, gather the pages, serialise them, deliver the bytes. */
  function Merge(lib: Library, files: seq<File>, fileName: string): Result<Download, MergeError>
  {
    if files == [] then Err(EmptySelection)
    else
      match Accumulate(lib, files)
      case Err(e) => Err(e)
      case Ok(pages) =>
        match lib.save(pages)
        case None => Err(SerializeFailure)
        case Some(bytes) => Ok(Download(bytes, fileName))
  }

  /** Reference definition: the pages of all files, file after file, each file's pages in order. */
  function PagesOf(lib: Library, files: seq<File>): seq<Page>
    requires AllLoad(lib, files)
  {
    if files == [] then [] else PagesOfFile(lib, files[0]) + PagesOf(lib, files[1..])
  }

  /** The number of pages of every file, summed over the list. */
  function PageCount(lib: Library, files: seq<File>): nat
    requires AllLoad(lib, files)
  {
    if files == [] then 0 else |PagesOfFile(lib, files[0])| + PageCount(lib, files[1..])
  }

  lemma AllLoadAppend(lib: Library, a: seq<File>, b: seq<File>)
    ensures AllLoad(lib, a + b) <==> AllLoad(lib, a) && AllLoad(lib, b)
  {
    if AllLoad(lib, a) && AllLoad(lib, b) {
      forall i | 0 <= i < |a + b| ensures LoadFile(lib, (a + b)[i]).Ok? {
        if i >= |a| { assert (a + b)[i] == b[i - |a|]; }
      }
    }
    if AllLoad(lib, a + b) {
      forall i | 0 <= i < |a| ensures LoadFile(lib, a[i]).Ok? {
        assert (a + b)[i] == a[i];
      }
      forall i | 0 <= i < |b| ensures LoadFile(lib, b[i]).Ok? {
        assert (a + b)[|a| + i] == b[i];
      }
    }
  }

  /** The pages of two lists placed one after the other are the pages of the first, then those of the second. */
  lemma {:induction false} PagesOfAppend(lib: Library, a: seq<File>, b: seq<File>)
    requires AllLoad(lib, a) && AllLoad(lib, b)
    ensures AllLoad(lib, a + b)
    ensures PagesOf(lib, a + b) == PagesOf(lib, a) + PagesOf(lib, b)
    decreases |a|
  {
    AllLoadAppend(lib, a, b);
    if a != [] {
      assert (a + b)[1..] == a[1..] + b;
      PagesOfAppend(lib, a[1..], b);
    } else {
      assert a + b == b;
    }
  }

  /**
   * When every file loads, the accumulator ends up holding every page of
   * every file: the files in list order, each file's pages in their own order.
   */
  lemma {:induction false} AccumulateAllLoaded(lib: Library, files: seq<File>)
    requires AllLoad(lib, files)
    ensures Accumulate(lib, files) == Ok(PagesOf(lib, files))
    decreases |files|
  {
    if files != [] {
      var n := |files| - 1;
      assert files == files[..n] + [files[n]];
      AllLoadAppend(lib, files[..n], [files[n]]);
      AccumulateAllLoaded(lib, files[..n]);
      PagesOfAppend(lib, files[..n], [files[n]]);
      assert PagesOf(lib, [files[n]]) == PagesOfFile(lib, files[n]);
    }
  }

  /** The merged pages number exactly the sum of the per-file page counts. */
  lemma {:induction false} PagesOfLength(lib: Library, files: seq<File>)
    requires AllLoad(lib, files)
    ensures |PagesOf(lib, files)| == PageCount(lib, files)
    decreases |files|
  {
    if files != [] {
      PagesOfLength(lib, files[1..]);
    }
  }

  /** Once a prefix of the list has failed, visiting the rest of it changes nothing. */
  lemma {:induction false} AccumulateStopsAtFailure(lib: Library, files: seq<File>, k: nat)
    requires k <= |files|
    requires Accumulate(lib, files[..k]).Err?
    ensures Accumulate(lib, files) == Accumulate(lib, files[..k])
    decreases |files| - k
  {
    if k == |files| {
      assert files[..k] == files;
    } else {
      var n := |files| - 1;
      assert files[..n][..k] == files[..k];
      AccumulateStopsAtFailure(lib, files[..n], k);
    }
  }

  /**
   * A merge delivers a download exactly when the list is non-empty, every
   * file loads and the merged pages serialise; the download then carries
   * the serialisation of all pages in list order and the requested name.
   * Otherwise the error is the empty selection, the first file that fails
   * to load, or the failed serialisation, in that order of precedence.
   */
  lemma MergeOutcome(lib: Library, files: seq<File>, fileName: string)
    ensures Merge(lib, files, fileName).Ok? <==>
      files != [] && AllLoad(lib, files) && lib.save(PagesOf(lib, files)).Some?
    ensures Merge(lib, files, fileName).Ok? ==>
      Merge(lib, files, fileName).value == Download(lib.save(PagesOf(lib, files)).value, fileName)
    ensures files == [] ==> Merge(lib, files, fileName) == Err(EmptySelection)
    ensures files != [] && !AllLoad(lib, files) ==>
      var e := Merge(lib, files, fileName).error;
      e.FileFailure? && e.index < |files| && LoadFile(lib, files[e.index]) == Err(e.kind) &&
      forall j :: 0 <= j < e.index ==> LoadFile(lib, files[j]).Ok?
    ensures files != [] && AllLoad(lib, files) && lib.save(PagesOf(lib, files)).None? ==>
      Merge(lib, files, fileName) == Err(SerializeFailure)
  {
    if AllLoad(lib, files) {
      AccumulateAllLoaded(lib, files);
    } else if files != [] {
      var e := Accumulate(lib, files).error;
      assert AllLoad(lib, files[..e.index]);
      forall j | 0 <= j < e.index ensures LoadFile(lib, files[j]).Ok? {
        assert files[..e.index][j] == files[j];
      }
    }
  }

  /**
   * Removing entry `i` before merging takes exactly that file's pages out of
   * the result and leaves the pages on either side in their order.
   */
  lemma PagesOfRemove(lib: Library, files: seq<File>, i: int)
    requires AllLoad(lib, files)
    requires 0 <= i < |files|
    ensures AllLoad(lib, Remove(files, i))
    ensures PagesOf(lib, files) ==
      PagesOf(lib, files[..i]) + PagesOfFile(lib, files[i]) + PagesOf(lib, files[i + 1..])
    ensures PagesOf(lib, Remove(files, i)) == PagesOf(lib, files[..i]) + PagesOf(lib, files[i + 1..])
  {
    RemoveSpec(files, i);
    assert files == files[..i] + ([files[i]] + files[i + 1..]);
    AllLoadAppend(lib, files[..i], [files[i]] + files[i + 1..]);
    AllLoadAppend(lib, [files[i]], files[i + 1..]);
    PagesOfAppend(lib, files[..i], [files[i]] + files[i + 1..]);
    assert ([files[i]] + files[i + 1..])[1..] == files[i + 1..];
    PagesOfAppend(lib, files[..i], files[i + 1..]);
  }

  /**
   * Moving entry `i` up before merging exchanges the page blocks of files
   * `i - 1` and `i` in the result and changes nothing else.
   */
  lemma PagesOfMoveUp(lib: Library, files: seq<File>, i: int)
    requires AllLoad(lib, files)
    requires 0 < i < |files|
    ensures AllLoad(lib, MoveUp(files, i))
    ensures PagesOf(lib, files) ==
      PagesOf(lib, files[..i - 1]) + PagesOfFile(lib, files[i - 1]) + PagesOfFile(lib, files[i]) +
      PagesOf(lib, files[i + 1..])
    ensures PagesOf(lib, MoveUp(files, i)) ==
      PagesOf(lib, files[..i - 1]) + PagesOfFile(lib, files[i]) + PagesOfFile(lib, files[i - 1]) +
      PagesOf(lib, files[i + 1..])
  {
    var front, back := files[..i - 1], files[i + 1..];
    SwappedAtSplits(files, MoveUp(files, i), i - 1);
    AllLoadSlice(lib, files, 0, i - 1);
    AllLoadSlice(lib, files, i + 1, |files|);
    PagesOfTwoSplits(lib, front, files[i - 1], files[i], back);
    PagesOfTwoSplits(lib, front, files[i], files[i - 1], back);
  }

  lemma AllLoadSlice(lib: Library, files: seq<File>, lo: int, hi: int)
    requires AllLoad(lib, files)
    requires 0 <= lo <= hi <= |files|
    ensures AllLoad(lib, files[lo..hi])
  {
    forall j | 0 <= j < hi - lo ensures LoadFile(lib, files[lo..hi][j]).Ok? {
      assert files[lo..hi][j] == files[lo + j];
    }
  }

  lemma PagesOfTwoSplits(lib: Library, front: seq<File>, x: File, y: File, back: seq<File>)
    requires AllLoad(lib, front) && AllLoad(lib, back)
    requires LoadFile(lib, x).Ok? && LoadFile(lib, y).Ok?
    ensures AllLoad(lib, front + [x, y] + back)
    ensures PagesOf(lib, front + [x, y] + back) ==
      PagesOf(lib, front) + PagesOfFile(lib, x) + PagesOfFile(lib, y) + PagesOf(lib, back)
  {
    assert AllLoad(lib, [x, y]);
    assert [x, y][1..] == [y];
    assert PagesOf(lib, [y]) == PagesOfFile(lib, y);
    PagesOfAppend(lib, front, [x, y]);
    PagesOfAppend(lib, front + [x, y], back);
  }

  /**
   * Moving entry `i` down before merging exchanges the page blocks of files
   * `i` and `i + 1` in the result and changes nothing else.
   */
  lemma PagesOfMoveDown(lib: Library, files: seq<File>, i: int)
    requires AllLoad(lib, files)
    requires 0 <= i < |files| - 1
    ensures AllLoad(lib, MoveDown(files, i))
    ensures PagesOf(lib, files) ==
      PagesOf(lib, files[..i]) + PagesOfFile(lib, files[i]) + PagesOfFile(lib, files[i + 1]) +
      PagesOf(lib, files[i + 2..])
    ensures PagesOf(lib, MoveDown(files, i)) ==
      PagesOf(lib, files[..i]) + PagesOfFile(lib, files[i + 1]) + PagesOfFile(lib, files[i]) +
      PagesOf(lib, files[i + 2..])
  {
    MoveDownIsMoveUpOfNext(files, i);
    PagesOfMoveUp(lib, files, i + 1);
  }
}
