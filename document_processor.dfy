/** The document list of src/core/document-processor.js. The list is an array, as in the
    source, so that the model shows which array each operation reads and writes:
    `loadDocuments` keeps the caller's array itself, and `processDocuments` replaces it by
    a new one instead of writing into it. */
module DocumentProcessing {
  import opened Text

  /** Every document has no whitespace at either end. */
  predicate AllTrimmed(ds: seq<string>) { forall i :: 0 <= i < |ds| ==> Trimmed(ds[i]) }

  /** `documents.map(doc => doc.trim())`. */
  function TrimAll(ds: seq<string>): (r: seq<string>)
    ensures |r| == |ds|
    ensures forall i :: 0 <= i < |ds| ==> r[i] == Trim(ds[i])
  {
    seq(|ds|, i requires 0 <= i < |ds| => Trim(ds[i]))
  }

  /** Trimming every document leaves them all trimmed, so a second pass changes nothing. */
  lemma TrimAllIdempotent(ds: seq<string>)
    ensures AllTrimmed(TrimAll(ds))
    ensures TrimAll(TrimAll(ds)) == TrimAll(ds)
  {
    forall i | 0 <= i < |ds| ensures Trimmed(Trim(ds[i])) && Trim(Trim(ds[i])) == Trim(ds[i]) {
      TrimKeeps(ds[i], IsSpace);
      TrimIdempotent(ds[i]);
    }
  }

  /** Documents that are all trimmed are left as they are. */
  lemma TrimAllOfTrimmed(ds: seq<string>)
    requires AllTrimmed(ds)
    ensures TrimAll(ds) == ds
  {
    forall i | 0 <= i < |ds| ensures Trim(ds[i]) == ds[i] {
      TrimOfTrimmed(ds[i]);
    }
  }

  class DocumentProcessor {
    var documents: array<string>

    /** A new processor holds no documents. */
    constructor()
      ensures documents.Length == 0 && fresh(documents)
    {
      documents := new string[0];
    }

    /** `loadDocuments`: keep the given array itself (no copy is made). */
    method LoadDocuments(ds: array<string>)
      modifies this
      ensures documents == ds
    {
      documents := ds;
    }

    /** `preprocess`: the document with leading and trailing whitespace removed. */
    function Preprocess(document: string): (r: string)
      ensures Trimmed(r)
      ensures Trim(r) == r
      ensures Filter(r, NotSpace) == Filter(document, NotSpace)
    {
      TrimKeeps(document, IsSpace);
      TrimIdempotent(document);
      FilterTrim(document, NotSpace);
      Trim(document)
    }

    /** `processDocuments`: a new array holding the trimmed documents, in the same order. The
        array that was held before, which may be the caller's, is not written to. Processing
        already-processed documents gives them back unchanged. */
    method ProcessDocuments()
      modifies this
      ensures fresh(documents)
      ensures documents.Length == old(documents.Length)
      ensures documents[..] == TrimAll(old(documents[..]))
      ensures AllTrimmed(documents[..])
      ensures AllTrimmed(old(documents[..])) ==> documents[..] == old(documents[..])
      ensures unchanged(old(documents))
    {
      var current := documents;
      var processed := new string[current.Length](i reads current requires 0 <= i < current.Length =>
        Preprocess(current[i]));
      documents := processed;
      TrimAllIdempotent(current[..]);
      assert processed[..] == TrimAll(current[..]);
      if AllTrimmed(current[..]) { TrimAllOfTrimmed(current[..]); }
    }

    /** `getDocuments`: the array currently held, by reference. */
    method GetDocuments() returns (ds: array<string>)
      ensures ds == documents
    {
      ds := documents;
    }
  }
}
