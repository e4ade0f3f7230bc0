/**
 * The PDF library, seen from the outside.  Its parser and serialiser are
 * opaque: reading a file's bytes, parsing them into a document and
 * serialising a list of pages are total functions that either fail
 * (`None`) or deliver their result.  A document is nothing but its pages,
 * in their internal order.
 */
module PdfLib {
  import opened Wrappers
  import opened Platform

  /** A page as it travels between documents; its content is opaque. */
  datatype Page = Page(content: Bytes)

  /** A parsed document: its pages in their internal order. */
  datatype Document = Document(pages: seq<Page>)

  /** The collaborators a merge depends on. */
  datatype Library = Library(
    readBytes: File -> Option<Bytes>,      // `file.arrayBuffer()`
    load: Bytes -> Option<Document>,       // `PDFDocument.load(bytes)`
    save: seq<Page> -> Option<Bytes>)      // `doc.save()` on a document holding these pages

  /** `doc.getPageIndices()`: the indices of all pages, in increasing order. */
  function PageIndices(doc: Document): seq<nat>
  {
    seq(|doc.pages|, k => k)
  }

  /** `target.copyPages(src, indices)`: copies of the selected pages, in the order of `indices`. */
  function CopyPages(src: Document, indices: seq<nat>): seq<Page>
    requires forall k :: 0 <= k < |indices| ==> indices[k] < |src.pages|
  {
    seq(|indices|, k requires 0 <= k < |indices| => src.pages[indices[k]])
  }

  /** Copying every page index yields every page, each once, in document order. */
  lemma CopyAllPages(doc: Document)
    ensures forall k :: 0 <= k < |PageIndices(doc)| ==> PageIndices(doc)[k] < |doc.pages|
    ensures CopyPages(doc, PageIndices(doc)) == doc.pages
  {
  }

  /** The accumulator document that a merge copies pages into. */
  class MergedDocument {
    var pages: seq<Page>

    /** `PDFDocument.create()`: a fresh document without pages. */
    constructor Create()
      ensures pages == []
    {
      pages := [];
    }

    /** `doc.addPage(page)`: appends one page at the end. */
    method AddPage(page: Page)
      modifies this
      ensures pages == old(pages) + [page]
    {
      pages := pages + [page];
    }
  }
}
