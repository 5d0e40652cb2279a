/** The chunk store of backend/main.py: the module global `VECTOR_DB`, the
    functions that clear and fill it (`clear_database`, `add_chunk_to_database`,
    `process_uploaded_file`), and the result assembly of `chat_query` and of
    the empty case of `generate_response`. Calls into Ollama (embeddings and
    generation) and the floating-point retrieval appear as parameters. */
module VectorStore {
  import opened Common
  import opened DocumentProcessor

  type Embedding = seq<real>

  /** One element of `VECTOR_DB`: the tuple `(chunk, embedding, source)`. */
  datatype Entry = Entry(chunk: string, embedding: Embedding, source: string)

  /** A Python list object holding store entries. It has an identity, so a
      second name (the `VECTOR_DB` that backend/app.py imports) can refer to it. */
  class ChunkList {
    var items: seq<Entry>

    constructor ()
      ensures items == []
    {
      items := [];
    }
  }

  /** The entries that the chunk loop of `process_uploaded_file` appends:
      one per chunk whose embedding call succeeded, in chunk order.
      `embedAt(i)` is the outcome of the embedding call for chunk `i`
      (None when it raised). */
  function Embedded(chunks: seq<string>, source: string, embedAt: nat -> Option<Embedding>): (r: seq<Entry>)
    ensures |r| <= |chunks|
    ensures forall e :: e in r ==> e.source == source && e.chunk in chunks
  {
    if chunks == [] then []
    else
      var i := |chunks| - 1;
      var prefix := Embedded(chunks[..i], source, embedAt);
      match embedAt(i)
      case Some(embedding) => prefix + [Entry(chunks[i], embedding, source)]
      case None => prefix
  }

  /** When every embedding call succeeds, the store holds exactly the chunks,
      in order, each with its own embedding. */
  lemma {:induction false} EmbeddedAllSucceed(chunks: seq<string>, source: string, embedAt: nat -> Option<Embedding>)
    requires forall i :: 0 <= i < |chunks| ==> embedAt(i).Some?
    ensures var r := Embedded(chunks, source, embedAt);
            |r| == |chunks|
            && forall i :: 0 <= i < |chunks| ==> r[i] == Entry(chunks[i], embedAt(i).value, source)
  {
    if chunks != [] {
      var i := |chunks| - 1;
      var init := chunks[..i];
      EmbeddedAllSucceed(init, source, embedAt);
      var prefix := Embedded(init, source, embedAt);
      var r := prefix + [Entry(chunks[i], embedAt(i).value, source)];
      assert Embedded(chunks, source, embedAt) == r;
      forall k | 0 <= k < |chunks|
        ensures r[k] == Entry(chunks[k], embedAt(k).value, source)
      {
        if k < i {
          assert prefix[k] == Entry(init[k], embedAt(k).value, source);
          assert r[k] == prefix[k];
          assert init[k] == chunks[k];
          assert r[k] == Entry(chunks[k], embedAt(k).value, source);
        } else {
          assert r[k] == Entry(chunks[i], embedAt(i).value, source);
          assert k == i;
          assert r[k] == Entry(chunks[k], embedAt(k).value, source);
        }
      }
    }
  }

  /** One more chunk: its entry is appended exactly when its embedding
      call succeeded. */
  lemma EmbeddedNext(chunks: seq<string>, i: nat, source: string, embedAt: nat -> Option<Embedding>)
    requires i < |chunks|
    ensures Embedded(chunks[..i + 1], source, embedAt)
            == Embedded(chunks[..i], source, embedAt)
               + (if embedAt(i).Some? then [Entry(chunks[i], embedAt(i).value, source)] else [])
  {
    var next := chunks[..i + 1];
    assert next[..i] == chunks[..i];
    assert next[i] == chunks[i];
  }

  /** The module globals of backend/main.py: the name `VECTOR_DB` and the
      list it is currently bound to. */
  class RagStore {
    var vectorDb: ChunkList

    constructor ()
      ensures fresh(vectorDb) && vectorDb.items == []
    {
      vectorDb := new ChunkList();
    }

    /** `clear_database` as written: `VECTOR_DB = []` under `global`, which
        binds the name to a new list and leaves the old list untouched. */
    method RebindDatabase()
      modifies this
      ensures fresh(vectorDb) && vectorDb.items == []
    {
      vectorDb := new ChunkList();
    }

    /** `clear_database` as evidently intended: empty the one list every
        importer of `VECTOR_DB` holds. */
    method ClearDatabase()
      modifies vectorDb
      ensures vectorDb.items == []
    {
      vectorDb.items := [];
    }

    /** `add_chunk_to_database`. `embedding` is what the embedding call
        returned, None when it raised; a failure is swallowed. */
    method AddChunkToDatabase(chunk: string, source: string, embedding: Option<Embedding>)
      modifies vectorDb
      ensures embedding.Some? ==> vectorDb.items == old(vectorDb.items) + [Entry(chunk, embedding.value, source)]
      ensures embedding.None? ==> vectorDb.items == old(vectorDb.items)
    {
      if embedding.Some? {
        vectorDb.items := vectorDb.items + [Entry(chunk, embedding.value, source)];
      }
    }

    /** The chunk loop of `process_uploaded_file`: one `add_chunk_to_database`
        per chunk, in order, into the list `VECTOR_DB` is bound to. */
    method AddChunks(chunks: seq<string>, source: string, embedAt: nat -> Option<Embedding>)
      modifies vectorDb
      ensures vectorDb.items == old(vectorDb.items) + Embedded(chunks, source, embedAt)
    {
      var i := 0;
      while i < |chunks|
        invariant 0 <= i <= |chunks|
        invariant vectorDb.items == old(vectorDb.items) + Embedded(chunks[..i], source, embedAt)
      {
        EmbeddedNext(chunks, i, source, embedAt);
        ghost var before := Embedded(chunks[..i], source, embedAt);
        ghost var added := if embedAt(i).Some? then [Entry(chunks[i], embedAt(i).value, source)] else [];
        AddChunkToDatabase(chunks[i], source, embedAt(i));
        assert vectorDb.items == old(vectorDb.items) + before + added;
        assert old(vectorDb.items) + before + added == old(vectorDb.items) + (before + added);
        i := i + 1;
      }
      assert chunks[..i] == chunks;
    }

    /** `process_uploaded_file(path)` as written: `clear_database()` binds
        `VECTOR_DB` to a new list, then the document is loaded and every
        chunk is added under the file's base name. `found` and `read` stand
        for the file system as in `LoadDocument`; `embedAt` for the embedding
        calls. It returns False exactly when `load_document` raised, and the
        new list is then empty. */
    method ProcessUploadedFile(path: string, found: bool, read: DocKind -> Option<string>,
                               embedAt: nat -> Option<Embedding>) returns (ok: bool)
      modifies this
      ensures fresh(vectorDb)
      ensures ok <==> DocumentChunks(path, found, read).Ok?
      ensures !ok ==> vectorDb.items == []
      ensures ok ==> vectorDb.items == Embedded(DocumentChunks(path, found, read).value, Basename(path), embedAt)
      ensures forall e :: e in vectorDb.items ==> e.source == Basename(path)
    {
      RebindDatabase();
      ok := LoadAndAdd(path, found, read, embedAt);
    }

    /** `process_uploaded_file(path)` with the in-place clear: the list
        `VECTOR_DB` is bound to stays the same object and ends up holding
        the new chunks. */
    method ProcessUploadedFileInPlace(path: string, found: bool, read: DocKind -> Option<string>,
                                      embedAt: nat -> Option<Embedding>) returns (ok: bool)
      modifies vectorDb
      ensures vectorDb == old(vectorDb)
      ensures ok <==> DocumentChunks(path, found, read).Ok?
      ensures !ok ==> vectorDb.items == []
      ensures ok ==> vectorDb.items == Embedded(DocumentChunks(path, found, read).value, Basename(path), embedAt)
      ensures forall e :: e in vectorDb.items ==> e.source == Basename(path)
    {
      ClearDatabase();
      ok := LoadAndAdd(path, found, read, embedAt);
    }

    /** The part of `process_uploaded_file` after the clear, starting from an
        empty list. */
    method LoadAndAdd(path: string, found: bool, read: DocKind -> Option<string>,
                      embedAt: nat -> Option<Embedding>) returns (ok: bool)
      requires vectorDb.items == []
      modifies vectorDb
      ensures ok <==> DocumentChunks(path, found, read).Ok?
      ensures !ok ==> vectorDb.items == []
      ensures ok ==> vectorDb.items == Embedded(DocumentChunks(path, found, read).value, Basename(path), embedAt)
      ensures forall e :: e in vectorDb.items ==> e.source == Basename(path)
    {
      var loaded := LoadDocument(path, found, read);
      if loaded.Err? {
        return false;
      }
      AddChunks(loaded.value, Basename(path), embedAt);
      assert vectorDb.items == [] + Embedded(loaded.value, Basename(path), embedAt);
      return true;
    }
  }

  /** What backend/app.py sees after an upload when `clear_database` rebinds
      the global. app.py took the list object at import time, while the store
      was empty. Whatever the upload, that list keeps 0 entries, while
      main.py's store holds every embedded chunk of the document. */
  method StaleImportAfterUpload(path: string, found: bool, read: DocKind -> Option<string>,
                                embedAt: nat -> Option<Embedding>) returns (ok: bool, mainCount: nat, importedCount: nat)
    ensures ok <==> DocumentChunks(path, found, read).Ok?
    ensures ok ==> mainCount == |Embedded(DocumentChunks(path, found, read).value, Basename(path), embedAt)|
    ensures !ok ==> mainCount == 0
    ensures importedCount == 0
  {
    var store := new RagStore();
    var imported := store.vectorDb;
    ok := store.ProcessUploadedFile(path, found, read, embedAt);
    mainCount := |store.vectorDb.items|;
    importedCount := |imported.items|;
  }

  /** The same upload with `clear_database` emptying the list in place: the
      list app.py imported is the store, so both names see every chunk. */
  method SharedImportAfterUpload(path: string, found: bool, read: DocKind -> Option<string>,
                                 embedAt: nat -> Option<Embedding>) returns (ok: bool, mainCount: nat, importedCount: nat)
    ensures ok <==> DocumentChunks(path, found, read).Ok?
    ensures ok ==> mainCount == |Embedded(DocumentChunks(path, found, read).value, Basename(path), embedAt)|
    ensures !ok ==> mainCount == 0
    ensures importedCount == mainCount
  {
    var store := new RagStore();
    var imported := store.vectorDb;
    ok := store.ProcessUploadedFileInPlace(path, found, read, embedAt);
    mainCount := |store.vectorDb.items|;
    importedCount := |imported.items|;
  }

  // ------------------------------------------------------------------ chat_query

  /** One element of what `retrieve` returns: `(chunk, similarity, source)`. */
  datatype Retrieved = Retrieved(chunk: string, similarity: real, source: string)

  /** The outcome of the language-model call in `generate_response`. */
  datatype Generation = Generated(text: string) | GenerationRaised(error: string)

  /** The dictionary `chat_query` returns. */
  datatype ChatResult = ChatResult(response: string, sources: seq<string>, chunksUsed: nat)

  const NotEnoughInformation := "I don't have enough information to answer that question."
  const NoDocumentsReply := "No documents have been uploaded yet. Please upload a document first."
  const NoMatchReply := "I couldn't find any relevant information in the uploaded documents."

  /** `generate_response`: nothing retrieved means the canned answer and no
      model call; otherwise the model's text, or the error text when the call
      raised. */
  function GenerateResponse(retrieved: seq<Retrieved>, llm: Generation): (r: string)
    ensures retrieved == [] ==> r == NotEnoughInformation
    ensures retrieved != [] && llm.Generated? ==> r == llm.text
    ensures retrieved != [] && llm.GenerationRaised? ==> r == "Error generating response: " + llm.error
  {
    if retrieved == [] then NotEnoughInformation
    else match llm
      case Generated(text) => text
      case GenerationRaised(error) => "Error generating response: " + error
  }

  /** The source of every retrieved tuple, in order. */
  function SourcesOf(retrieved: seq<Retrieved>): (r: seq<string>)
    ensures |r| == |retrieved| && forall i :: 0 <= i < |r| ==> r[i] == retrieved[i].source
  {
    seq(|retrieved|, i requires 0 <= i < |retrieved| => retrieved[i].source)
  }

  /** `list(set(xs))`: the distinct elements of `xs`, each once. The order of
      a Python set is unspecified; this picks first-occurrence order. */
  function Distinct(xs: seq<string>): (r: seq<string>)
    ensures forall i, j :: 0 <= i < j < |r| ==> r[i] != r[j]
    ensures forall x :: x in r <==> x in xs
  {
    if xs == [] then []
    else
      var init := Distinct(xs[..|xs| - 1]);
      var last := xs[|xs| - 1];
      assert forall x :: x in xs <==> x in xs[..|xs| - 1] || x == last;
      if last in init then init else init + [last]
  }

  /** `chat_query(query)` over the current store entries. `retrieved` is what
      `retrieve(query)` returned and `llm` the outcome of the model call. */
  function ChatQuery(entries: seq<Entry>, retrieved: seq<Retrieved>, llm: Generation): (r: ChatResult)
    ensures entries == [] ==> r == ChatResult(NoDocumentsReply, [], 0)
    ensures entries != [] && retrieved == [] ==> r == ChatResult(NoMatchReply, [], 0)
    ensures entries != [] && retrieved != [] ==>
              && r.chunksUsed == |retrieved|
              && r.response == GenerateResponse(retrieved, llm)
              && (forall i, j :: 0 <= i < j < |r.sources| ==> r.sources[i] != r.sources[j])
              && (forall s :: s in r.sources <==> exists k :: 0 <= k < |retrieved| && retrieved[k].source == s)
  {
    if entries == [] then ChatResult(NoDocumentsReply, [], 0)
    else if retrieved == [] then ChatResult(NoMatchReply, [], 0)
    else ChatResult(GenerateResponse(retrieved, llm), Distinct(SourcesOf(retrieved)), |retrieved|)
  }

  /** A non-empty answer always names at least one source, and never more
      sources than chunks used. */
  lemma ChatQuerySources(entries: seq<Entry>, retrieved: seq<Retrieved>, llm: Generation)
    requires entries != [] && retrieved != []
    ensures var r := ChatQuery(entries, retrieved, llm);
            1 <= |r.sources| <= r.chunksUsed
  {
    var r := ChatQuery(entries, retrieved, llm);
    var all := SourcesOf(retrieved);
    assert all[0] in r.sources;
    DistinctNoLonger(all);
  }

  /** A duplicate-free list is no longer than the list it was drawn from. */
  lemma {:induction false} DistinctNoLonger(xs: seq<string>)
    ensures |Distinct(xs)| <= |xs|
  {
    if xs != [] {
      DistinctNoLonger(xs[..|xs| - 1]);
    }
  }
}
