/**
 * `uploadContract`: the ingestion pipeline for a merchant's contract PDF.
 * The file is parsed, stored, recorded in `contracts`, split by the chunker,
 * and each chunk is embedded and recorded in `contract_embeddings`. Any
 * failure throws, leaving the writes already made in place.
 *
 * The PDF parser and the embedder are oracles; the database's answers to
 * the three writes are `UploadFaults`; the id and `created_at` the database
 * gives the new contract row are parameters. `Ingest` specifies the whole
 * pipeline and `UploadContract` is the action itself.
 */
module UploadContract {
  import opened Js
  import opened Store
  import opened Chunking
  import opened AiProvider

  /** The `contract` entry of the form data. */
  datatype UploadedFile = UploadedFile(name: string, bytes: seq<bv8>)

  /** The text `PDFParse.getText` extracts, or the message it throws. */
  datatype ParseResult = Parsed(text: string) | ParseFailed(message: string)

  datatype EmbedAllResult = Vectors(vs: seq<seq<real>>) | EmbedError(message: string)

  datatype UploadFaults = UploadFaults(storage: Option<DbError>, contract: Option<DbError>, embeddings: Option<DbError>)

  /** `{ success: true, contractId }`, an exception, or a chunker that has
      not finished within its fuel. */
  datatype UploadResult = Uploaded(contractId: string) | Threw(message: string) | OutOfFuel

  datatype Ingested = Ingested(tables: Tables, result: UploadResult, embedCalls: seq<string>)

  /** `merchants/${merchantId}/${file.name}`: the name is used as given. */
  function StoragePath(merchantId: string, fileName: string): (p: string)
    ensures StartsWith(p, "merchants/" + merchantId + "/")
    ensures p[|"merchants/" + merchantId + "/"|..] == fileName
  {
    "merchants/" + merchantId + "/" + fileName
  }

  /** `Promise.all(chunks.map(generateEmbedding))` in one order: every
      vector when all succeed, else the error of the first chunk that fails. */
  function EmbedAll(chunks: seq<string>, embed: string -> EmbedResult): (r: EmbedAllResult)
    ensures r.Vectors? <==> forall i :: 0 <= i < |chunks| ==> embed(chunks[i]).Vector?
    ensures r.Vectors? ==> |r.vs| == |chunks| && forall i :: 0 <= i < |chunks| ==> embed(chunks[i]) == Vector(r.vs[i])
    ensures r.EmbedError? ==>
      exists i :: 0 <= i < |chunks| && embed(chunks[i]) == EmbedFailed(r.message) && forall j :: 0 <= j < i ==> embed(chunks[j]).Vector?
    decreases |chunks|
  {
    if chunks == [] then Vectors([])
    else match embed(chunks[0])
      case EmbedFailed(msg) =>
        assert embed(chunks[0]) == EmbedFailed(msg);
        EmbedError(msg)
      case Vector(v) =>
        match EmbedAll(chunks[1..], embed)
        case EmbedError(msg) =>
          var k :| 0 <= k < |chunks[1..]| && embed(chunks[1..][k]) == EmbedFailed(msg)
            && forall j :: 0 <= j < k ==> embed(chunks[1..][j]).Vector?;
          assert embed(chunks[k + 1]) == EmbedFailed(msg);
          assert forall j :: 0 <= j < k + 1 ==> embed(chunks[j]).Vector? by {
            forall j | 0 <= j < k + 1 ensures embed(chunks[j]).Vector? {
              if j > 0 { assert chunks[j] == chunks[1..][j - 1]; }
            }
          }
          EmbedError(msg)
        case Vectors(vs) =>
          assert forall i :: 1 <= i < |chunks| ==> chunks[i] == chunks[1..][i - 1];
          Vectors([v] + vs)
  }

  /** The rows of lines 46-50: one per chunk, in order. */
  function Records(contractId: string, chunks: seq<string>, vs: seq<seq<real>>): (r: seq<Embedding>)
    requires |vs| == |chunks|
    ensures |r| == |chunks|
  {
    seq(|chunks|, i requires 0 <= i < |chunks| => Embedding(contractId, chunks[i], vs[i]))
  }

  /** The pipeline: parse, store, record the contract, chunk, embed, record
      the embeddings, stopping at the first failure. */
  function Ingest(t: Tables, merchantId: string, file: Option<UploadedFile>, parse: seq<bv8> -> ParseResult,
                  embed: string -> EmbedResult, f: UploadFaults, newId: string, createdAt: int, fuel: nat): Ingested {
    match file
    case None => Ingested(t, Threw("No file provided"), [])
    case Some(u) =>
      match parse(u.bytes)
      case ParseFailed(msg) => Ingested(t, Threw(msg), [])
      case Parsed(rawText) =>
        var path := StoragePath(merchantId, u.name);
        if f.storage.Some? then Ingested(t, Threw("Storage error: " + f.storage.value.message), [])
        else
          var stored := t.(files := t.files[path := StoredFile(u.bytes, "application/pdf")]);
          if f.contract.Some? then Ingested(stored, Threw("Contract table error: " + f.contract.value.message), [])
          else
            var recorded := stored.(contracts := stored.contracts + [Contract(newId, merchantId, u.name, path, rawText, createdAt)]);
            match Chunks(rawText, DefaultChunkSize, DefaultChunkOverlap, fuel)
            case None => Ingested(recorded, OutOfFuel, [])
            case Some(chunks) =>
              match EmbedAll(chunks, embed)
              case EmbedError(msg) => Ingested(recorded, Threw(msg), chunks)
              case Vectors(vs) =>
                if f.embeddings.Some? then
                  Ingested(recorded, Threw("Embeddings error: " + f.embeddings.value.message), chunks)
                else
                  Ingested(recorded.(embeddings := recorded.embeddings + Records(newId, chunks, vs)), Uploaded(newId), chunks)
  }

  // ---------------------------------------------------------------------
  // Properties of the pipeline
  // ---------------------------------------------------------------------

  /** No file, or a file the parser rejects, throws before any write and
      before any embedding. */
  lemma NothingWrittenBeforeParse(t: Tables, merchantId: string, file: Option<UploadedFile>, parse: seq<bv8> -> ParseResult,
                                  embed: string -> EmbedResult, f: UploadFaults, newId: string, createdAt: int, fuel: nat)
    requires file.None? || parse(file.value.bytes).ParseFailed?
    ensures var o := Ingest(t, merchantId, file, parse, embed, f, newId, createdAt, fuel);
      o.tables == t && o.result.Threw? && o.embedCalls == []
    ensures file.None? ==> Ingest(t, merchantId, file, parse, embed, f, newId, createdAt, fuel).result == Threw("No file provided")
  {
  }

  /** A storage error leaves every table as it was (no contract row); a
      contract-row error leaves only the stored file (no embedding rows). */
  lemma EarlyThrows(t: Tables, merchantId: string, u: UploadedFile, parse: seq<bv8> -> ParseResult,
                    embed: string -> EmbedResult, f: UploadFaults, newId: string, createdAt: int, fuel: nat)
    requires parse(u.bytes).Parsed?
    ensures var o := Ingest(t, merchantId, Some(u), parse, embed, f, newId, createdAt, fuel);
      && (f.storage.Some? ==> o == Ingested(t, Threw("Storage error: " + f.storage.value.message), []))
      && (f.storage.None? && f.contract.Some? ==>
            && o.result == Threw("Contract table error: " + f.contract.value.message)
            && o.tables == t.(files := t.files[StoragePath(merchantId, u.name) := StoredFile(u.bytes, "application/pdf")])
            && o.embedCalls == [])
  {
  }

  /** A successful upload stores the bytes as `application/pdf` at the
      merchant's path (replacing any earlier object there), records one
      contract row and one embedding row per chunk of the extracted text,
      in chunk order, and returns the new row's id. */
  lemma SuccessfulUpload(t: Tables, merchantId: string, file: Option<UploadedFile>, parse: seq<bv8> -> ParseResult,
                         embed: string -> EmbedResult, f: UploadFaults, newId: string, createdAt: int, fuel: nat)
    requires Ingest(t, merchantId, file, parse, embed, f, newId, createdAt, fuel).result.Uploaded?
    ensures file.Some? && parse(file.value.bytes).Parsed?
    ensures var u := file.value;
      var rawText := parse(u.bytes).text;
      var path := StoragePath(merchantId, u.name);
      var o := Ingest(t, merchantId, file, parse, embed, f, newId, createdAt, fuel);
      && o.result == Uploaded(newId)
      && f == UploadFaults(None, None, None)
      && o.tables.files == t.files[path := StoredFile(u.bytes, "application/pdf")]
      && o.tables.contracts == t.contracts + [Contract(newId, merchantId, u.name, path, rawText, createdAt)]
      && Chunks(rawText, DefaultChunkSize, DefaultChunkOverlap, fuel) == Some(o.embedCalls)
      && |o.tables.embeddings| == |t.embeddings| + |o.embedCalls|
      && o.tables.embeddings[..|t.embeddings|] == t.embeddings
      && (forall i :: 0 <= i < |o.embedCalls| ==>
            && o.tables.embeddings[|t.embeddings| + i].contractId == newId
            && o.tables.embeddings[|t.embeddings| + i].content == o.embedCalls[i]
            && embed(o.embedCalls[i]) == Vector(o.tables.embeddings[|t.embeddings| + i].embedding))
      && o.tables.debtors == t.debtors && o.tables.payments == t.payments && o.tables.merchants == t.merchants
  {
    var u := file.value;
    var rawText := parse(u.bytes).text;
    var path := StoragePath(merchantId, u.name);
    var chunks := Chunks(rawText, DefaultChunkSize, DefaultChunkOverlap, fuel).value;
    var vs := EmbedAll(chunks, embed).vs;
    var recorded := t.(files := t.files[path := StoredFile(u.bytes, "application/pdf")]).(contracts := t.contracts + [Contract(newId, merchantId, u.name, path, rawText, createdAt)]);
    var rows := Records(newId, chunks, vs);
    assert Ingest(t, merchantId, file, parse, embed, f, newId, createdAt, fuel) ==
      Ingested(recorded.(embeddings := t.embeddings + rows), Uploaded(newId), chunks);
    forall i | 0 <= i < |chunks|
      ensures (t.embeddings + rows)[|t.embeddings| + i] == Embedding(newId, chunks[i], vs[i])
    {
    }
    assert (t.embeddings + rows)[..|t.embeddings|] == t.embeddings;
  }

  /** Every stored embedding row of an upload holds a non-empty chunk of at
      most 1000 characters, the trim of a slice of the extracted text. */
  lemma UploadedChunksBounded(t: Tables, merchantId: string, file: Option<UploadedFile>, parse: seq<bv8> -> ParseResult,
                              embed: string -> EmbedResult, f: UploadFaults, newId: string, createdAt: int, fuel: nat)
    requires Ingest(t, merchantId, file, parse, embed, f, newId, createdAt, fuel).result.Uploaded?
    ensures var o := Ingest(t, merchantId, file, parse, embed, f, newId, createdAt, fuel);
      var text := parse(file.value.bytes).text;
      forall c :: c in o.embedCalls ==>
        && 0 < |c| <= DefaultChunkSize
        && exists i, j :: 0 <= i < j <= |text| && j - i <= DefaultChunkSize && c == Trim(text[i..j])
  {
    SuccessfulUpload(t, merchantId, file, parse, embed, f, newId, createdAt, fuel);
    var rawText := parse(file.value.bytes).text;
    ChunksBounded(rawText, DefaultChunkSize, DefaultChunkOverlap, fuel);
  }

  /** Nothing removes the contract row when embedding fails: the row stays
      without embeddings. */
  lemma EmbeddingFailureLeavesContract(t: Tables, merchantId: string, u: UploadedFile, parse: seq<bv8> -> ParseResult,
                                       embed: string -> EmbedResult, newId: string, createdAt: int, fuel: nat)
    requires parse(u.bytes).Parsed?
    requires var chunks := Chunks(parse(u.bytes).text, DefaultChunkSize, DefaultChunkOverlap, fuel);
      chunks.Some? && EmbedAll(chunks.value, embed).EmbedError?
    ensures var o := Ingest(t, merchantId, Some(u), parse, embed, UploadFaults(None, None, None), newId, createdAt, fuel);
      && o.result.Threw?
      && o.tables.contracts == t.contracts + [Contract(newId, merchantId, u.name, StoragePath(merchantId, u.name), parse(u.bytes).text, createdAt)]
      && o.tables.embeddings == t.embeddings
  {
  }

  // ---------------------------------------------------------------------
  // The action
  // ---------------------------------------------------------------------

  /** `parse` stands for `PDFParse.getText`, `embed` for
      `generateEmbedding`; `embedCalls` lists the chunks sent to the
      embedder. `fuel` bounds the chunker's loop. */
  method UploadContract(db: Db, merchantId: string, file: Option<UploadedFile>, parse: seq<bv8> -> ParseResult,
                        embed: string -> EmbedResult, faults: UploadFaults, newId: string, createdAt: int, fuel: nat)
    returns (result: UploadResult, embedCalls: seq<string>)
    modifies db
    ensures Ingested(db.Snapshot(), result, embedCalls) ==
      Ingest(old(db.Snapshot()), merchantId, file, parse, embed, faults, newId, createdAt, fuel)
  {
    if file.None? {
      return Threw("No file provided"), [];
    }
    var u := file.value;
    var data := parse(u.bytes);
    if data.ParseFailed? {
      return Threw(data.message), [];
    }
    var rawText := data.text;

    var filePath := StoragePath(merchantId, u.name);
    var storageError := db.Upsert(filePath, StoredFile(u.bytes, "application/pdf"), faults.storage);
    if storageError.Some? {
      return Threw("Storage error: " + storageError.value.message), [];
    }

    var contract := Contract(newId, merchantId, u.name, filePath, rawText, createdAt);
    var contractError := db.InsertContract(contract, faults.contract);
    if contractError.Some? {
      return Threw("Contract table error: " + contractError.value.message), [];
    }

    var chunks, finished := ChunkText(rawText, DefaultChunkSize, DefaultChunkOverlap, fuel);
    if !finished {
      return OutOfFuel, [];
    }
    embedCalls := chunks;
    var embeddings := EmbedAll(chunks, embed);
    if embeddings.EmbedError? {
      return Threw(embeddings.message), embedCalls;
    }

    var embeddingsError := db.InsertEmbeddings(Records(contract.id, chunks, embeddings.vs), faults.embeddings);
    if embeddingsError.Some? {
      return Threw("Embeddings error: " + embeddingsError.value.message), embedCalls;
    }
    result := Uploaded(contract.id);
  }
}
