/**
 * The two upload endpoints (`upload_files`, `upload_json`): validate the uploads, load
 * them into documents, build the index and the agent over it, and register a session.
 * The index build, UTF-8 encoding and the loader's library calls are `Services`; the
 * new session's id and the current time are inputs.
 */
module Upload {
  import opened Base
  import opened Text
  import opened Json
  import opened Config
  import opened Documents
  import opened Workflow
  import opened SessionStore

  /** A multipart upload: the client's file name and the bytes read from it. */
  datatype UploadFile = UploadFile(filename: string, content: seq<byte>)

  datatype UploadResponse = UploadResponse(sessionId: string, message: string, filesProcessed: nat)

  /** The library calls behind the endpoints: the loader's, the FAISS build, and `str.encode('utf-8')`. */
  datatype Services = Services(
    codec: Codec,
    build: seq<Document> -> Result<IndexHandle, string>,
    encodeUtf8: string -> seq<byte>)

  /** Number of chunks the retriever returns (`search_kwargs={"k": 3}`). */
  const RetrieverK: nat := 3

  const NoFilesProvided := "No files provided"
  const NoValidDocuments := "No valid documents extracted"
  const FilesUploaded := "Files uploaded successfully"
  const JsonUploaded := "JSON data uploaded successfully"

  /** `upload_json`'s file name when the request gives none. */
  const DefaultJsonFilename := "invoice_data.json"

  /** What `str()` gives for the 400 raised inside the `try`: "<status>: <detail>". */
  const NoValidDocumentsText := "400: " + NoValidDocuments

  /** `str(e)` for the `AttributeError` a `None` file name raises in the loader. */
  const NoneFilenameText := "'NoneType' object has no attribute 'endswith'"

  /** Python's `repr` of a list of strings, as an f-string prints it. */
  function ReprList(items: seq<string>): string {
    "[" + ReprItems(items) + "]"
  }

  function ReprItems(items: seq<string>): string {
    if items == [] then ""
    else if |items| == 1 then "'" + items[0] + "'"
    else "'" + items[0] + "', " + ReprItems(items[1..])
  }

  function UnsupportedFormat(name: string, allowed: seq<string>): string {
    "File " + name + " has unsupported format. Allowed: " + ReprList(allowed)
  }

  function TooLarge(name: string): string {
    "File " + name + " exceeds maximum size"
  }

  /** The lower-cased name ends with "." followed by one of the allowed types, taken as configured. */
  predicate HasAllowedExtension(name: string, allowed: seq<string>) {
    exists k | 0 <= k < |allowed| :: EndsWith(Lower(name), "." + allowed[k])
  }

  /**
   * The check one file gets against the allowed types and the size limit: extension first,
   * then size; nothing when the file passes.
   */
  function CheckFile(f: UploadFile, allowed: seq<string>, maxFileSize: int): (e: Option<HttpError>)
    ensures e.Some? <==> !HasAllowedExtension(f.filename, allowed) || |f.content| > maxFileSize
    ensures e.Some? ==> e.value.status == 400
    ensures !HasAllowedExtension(f.filename, allowed) ==> e == Some(HttpError(400, UnsupportedFormat(f.filename, allowed)))
    ensures HasAllowedExtension(f.filename, allowed) && |f.content| > maxFileSize ==> e == Some(HttpError(400, TooLarge(f.filename)))
  {
    if !HasAllowedExtension(f.filename, allowed) then
      Some(HttpError(400, UnsupportedFormat(f.filename, allowed)))
    else if |f.content| > maxFileSize then
      Some(HttpError(400, TooLarge(f.filename)))
    else
      None
  }

  /** Every file passes its check, and there is at least one. */
  predicate AllValid(files: seq<UploadFile>, allowed: seq<string>, maxFileSize: int) {
    files != [] && forall i :: 0 <= i < |files| ==> CheckFile(files[i], allowed, maxFileSize).None?
  }

  /** The same, with the limits taken from the settings. */
  predicate Valid(files: seq<UploadFile>, settings: Settings) {
    AllValid(files, settings.AllowedFileTypes(), settings.maxFileSize)
  }

  /** The `(filename, content)` pairs handed to the loader. */
  function Pairs(files: seq<UploadFile>): (r: seq<(string, seq<byte>)>)
    ensures |r| == |files|
    ensures forall i :: 0 <= i < |r| ==> r[i] == (files[i].filename, files[i].content)
  {
    seq(|files|, i requires 0 <= i < |files| => (files[i].filename, files[i].content))
  }

  /**
   * The validation loop of `upload_files`: an empty upload is refused, the files are checked
   * in order, and the first file that fails decides the error.
   */
  method ValidateUploads(files: seq<UploadFile>, allowed: seq<string>, maxFileSize: int) returns (r: Result<seq<(string, seq<byte>)>, HttpError>)
    ensures files == [] ==> r == Err(HttpError(400, NoFilesProvided))
    ensures r.Ok? <==> AllValid(files, allowed, maxFileSize)
    ensures r.Ok? ==> r.value == Pairs(files)
    ensures r.Err? && files != [] ==>
              exists i :: 0 <= i < |files| && CheckFile(files[i], allowed, maxFileSize) == Some(r.error)
                          && forall j :: 0 <= j < i ==> CheckFile(files[j], allowed, maxFileSize).None?
  {
    if files == [] {
      return Err(HttpError(400, NoFilesProvided));
    }
    var processed: seq<(string, seq<byte>)> := [];
    var i := 0;
    while i < |files|
      invariant 0 <= i <= |files|
      invariant |processed| == i
      invariant forall j :: 0 <= j < i ==> processed[j] == (files[j].filename, files[j].content)
      invariant forall j :: 0 <= j < i ==> CheckFile(files[j], allowed, maxFileSize).None?
    {
      var e := CheckFile(files[i], allowed, maxFileSize);
      if e.Some? {
        assert 0 <= i < |files| && CheckFile(files[i], allowed, maxFileSize) == Some(e.value)
               && forall j :: 0 <= j < i ==> CheckFile(files[j], allowed, maxFileSize).None?;
        assert !AllValid(files, allowed, maxFileSize);
        return Err(e.value);
      }
      processed := processed + [(files[i].filename, files[i].content)];
      i := i + 1;
    }
    assert processed == Pairs(files);
    return Ok(processed);
  }

  /**
   * The `try` block up to the session: load the documents, refuse an empty result, build the
   * index and wire the agent to a k = 3 retriever over it. The error is `str()` of what escaped.
   */
  function BuildSession(pairs: seq<(string, seq<byte>)>, services: Services): (r: Result<(IndexHandle, Agent), string>)
    ensures LoadDocuments(pairs, services.codec).Err? ==>
              r == Err(LoadErrorMessage(LoadDocuments(pairs, services.codec).error))
    ensures LoadDocuments(pairs, services.codec) == Ok([]) ==> r == Err(NoValidDocumentsText)
    ensures r.Ok? ==>
              && LoadDocuments(pairs, services.codec).Ok?
              && LoadDocuments(pairs, services.codec).value != []
              && services.build(LoadDocuments(pairs, services.codec).value) == Ok(r.value.0)
              && r.value.1 == Agent(Retriever(r.value.0, RetrieverK))
    ensures LoadDocuments(pairs, services.codec).Ok? && LoadDocuments(pairs, services.codec).value != [] ==>
              && (r.Ok? <==> services.build(LoadDocuments(pairs, services.codec).value).Ok?)
              && (r.Err? ==> r.error == services.build(LoadDocuments(pairs, services.codec).value).error)
  {
    match LoadDocuments(pairs, services.codec)
    case Err(e) => Err(LoadErrorMessage(e))
    case Ok(docs) =>
      if docs == [] then Err(NoValidDocumentsText)
      else
        var index :- CreateVectorStore(docs, services.build);
        Ok((index, Agent(Retriever(index, RetrieverK))))
  }

  /**
   * `upload_files`: validation errors are 400s and leave the store alone; any failure of the
   * `try` block, including its own 400, becomes a 500 "Error: ..."; success registers a
   * session under `id` and reports the number of files.
   */
  method UploadFiles(store: Store, files: seq<UploadFile>, settings: Settings, services: Services, id: string, now: int)
    returns (store': Store, r: Result<UploadResponse, HttpError>)
    ensures r.Err? ==> store' == store
    ensures files == [] ==> r == Err(HttpError(400, NoFilesProvided))
    ensures !Valid(files, settings) ==> r.Err? && r.error.status == 400
    ensures !Valid(files, settings) && files != [] ==>
              exists i :: 0 <= i < |files| && CheckFile(files[i], settings.AllowedFileTypes(), settings.maxFileSize) == Some(r.error)
                          && forall j :: 0 <= j < i ==> CheckFile(files[j], settings.AllowedFileTypes(), settings.maxFileSize).None?
    ensures Valid(files, settings) && BuildSession(Pairs(files), services).Err? ==>
              r == Err(HttpError(500, "Error: " + BuildSession(Pairs(files), services).error))
    ensures r.Ok? <==> Valid(files, settings) && BuildSession(Pairs(files), services).Ok?
    ensures r.Ok? ==>
              && r.value == UploadResponse(id, FilesUploaded, |files|)
              && store' == Create(store, id, BuildSession(Pairs(files), services).value.0,
                                  BuildSession(Pairs(files), services).value.1, now)
  {
    var checked := ValidateUploads(files, settings.AllowedFileTypes(), settings.maxFileSize);
    if checked.Err? {
      return store, Err(checked.error);
    }
    match BuildSession(checked.value, services)
    case Err(msg) =>
      return store, Err(HttpError(500, "Error: " + msg));
    case Ok(built) =>
      return Create(store, id, built.0, built.1, now), Ok(UploadResponse(id, FilesUploaded, |files|));
  }

  /**
   * `upload_json`: the body's data is dumped to JSON text, encoded, and loaded as one file
   * under the given name; every failure is a 500 "Error: ...". The request model admits only
   * an object or a list of objects.
   */
  function UploadJson(store: Store, data: Json, filename: Option<string>, services: Services, id: string, now: int)
    : (r: (Store, Result<UploadResponse, HttpError>))
    requires data.JObject? || IsRecordArray(data)
    ensures r.1.Err? ==> r.0 == store && r.1.error.status == 500 && StartsWith(r.1.error.detail, "Error: ")
    ensures filename.None? ==> r.1 == Err(HttpError(500, "Error: " + NoneFilenameText))
    ensures r.1.Ok? ==>
              && filename.Some?
              && r.1.value == UploadResponse(id, JsonUploaded, 1)
              && var pairs := [(filename.value, services.encodeUtf8(services.codec.dumps(data)))];
                 && BuildSession(pairs, services).Ok?
                 && r.0 == Create(store, id, BuildSession(pairs, services).value.0, BuildSession(pairs, services).value.1, now)
    ensures filename.Some? ==>
              var pairs := [(filename.value, services.encodeUtf8(services.codec.dumps(data)))];
              && (r.1.Ok? <==> BuildSession(pairs, services).Ok?)
              && (BuildSession(pairs, services).Err? ==> r.1 == Err(HttpError(500, "Error: " + BuildSession(pairs, services).error)))
  {
    if filename.None? then (store, Err(HttpError(500, "Error: " + NoneFilenameText)))
    else
      var pairs := [(filename.value, services.encodeUtf8(services.codec.dumps(data)))];
      match BuildSession(pairs, services)
      case Err(msg) => (store, Err(HttpError(500, "Error: " + msg)))
      case Ok(built) => (Create(store, id, built.0, built.1, now), Ok(UploadResponse(id, JsonUploaded, 1)))
  }

  /** An allowed type written with an upper-case letter never matches: only the file name is lower-cased. */
  lemma UpperCaseTypeNeverMatches(name: string, ext: string, j: int)
    requires 0 <= j < |ext| && IsUpper(ext[j])
    ensures !EndsWith(Lower(name), "." + ext)
  {
    var w := "." + ext;
    assert w[1 + j] == ext[j];
  }

  /** A file exactly at the size limit is accepted: only a strictly larger one is refused. */
  lemma SizeLimitInclusive(f: UploadFile, allowed: seq<string>, maxFileSize: int)
    requires HasAllowedExtension(f.filename, allowed)
    ensures CheckFile(f, allowed, maxFileSize).None? <==> |f.content| <= maxFileSize
  {
  }

  lemma LowerDataJson()
    ensures EndsWith(Lower("DATA.JSON"), ".json")
  {
    var low := Lower("DATA.JSON");
    forall i | 4 <= i < 9
      ensures low[i] == ".json"[i - 4]
    {
      assert low[i] == LowerChar("DATA.JSON"[i]);
    }
    assert low[4..] == ".json";
  }

  /**
   * A file whose name ends in ".json" only once lower-cased (say "DATA.JSON") passes
   * validation whenever "json" is allowed, since validation lower-cases the name, but the
   * case-sensitive loader skips it; the upload then fails inside the `try` with the wrapped 400.
   */
  lemma CaseMismatchValidatedButNotLoaded(f: UploadFile, settings: Settings, services: Services)
    requires "json" in settings.AllowedFileTypes() && |f.content| <= settings.maxFileSize
    requires EndsWith(Lower(f.filename), ".json")
    requires !EndsWith(f.filename, ".json") && !EndsWith(f.filename, ".csv")
    ensures Valid([f], settings)
    ensures BuildSession(Pairs([f]), services) == Err(NoValidDocumentsText)
  {
    var allowed := settings.AllowedFileTypes();
    var k :| 0 <= k < |allowed| && allowed[k] == "json";
    CaseMismatchPasses(f, allowed, settings.maxFileSize, k);
    CaseMismatchNotLoaded(f, services);
  }

  lemma CaseMismatchPasses(f: UploadFile, allowed: seq<string>, maxFileSize: int, k: int)
    requires 0 <= k < |allowed| && allowed[k] == "json"
    requires |f.content| <= maxFileSize
    requires EndsWith(Lower(f.filename), ".json")
    ensures AllValid([f], allowed, maxFileSize)
  {
    DotSuffix(allowed, k, Lower(f.filename));
    PassesWhenMatched(f, allowed, maxFileSize, k);
    SingleFileValid(f, allowed, maxFileSize);
  }

  lemma DotSuffix(allowed: seq<string>, k: int, name: string)
    requires 0 <= k < |allowed| && allowed[k] == "json"
    requires EndsWith(name, ".json")
    ensures EndsWith(name, "." + allowed[k])
  {
    assert "." + allowed[k] == ".json";
  }

  /** A single file that passes its check is a valid upload. */
  lemma SingleFileValid(f: UploadFile, allowed: seq<string>, maxFileSize: int)
    requires CheckFile(f, allowed, maxFileSize).None?
    ensures AllValid([f], allowed, maxFileSize)
  {
  }

  lemma CaseMismatchNotLoaded(f: UploadFile, services: Services)
    requires !EndsWith(f.filename, ".json") && !EndsWith(f.filename, ".csv")
    ensures BuildSession(Pairs([f]), services) == Err(NoValidDocumentsText)
  {
    var pairs := Pairs([f]);
    assert pairs == [(f.filename, f.content)];
    OtherNamesIgnored(pairs, services.codec);
  }

  /** A file of allowed size whose lower-cased name ends with one allowed type passes. */
  lemma PassesWhenMatched(f: UploadFile, allowed: seq<string>, maxFileSize: int, k: int)
    requires 0 <= k < |allowed|
    requires EndsWith(Lower(f.filename), "." + allowed[k])
    requires |f.content| <= maxFileSize
    ensures CheckFile(f, allowed, maxFileSize).None?
  {
  }

  /** "DATA.JSON" is such a name: it ends in ".json" only after lower-casing. */
  lemma DataJsonIsCaseMismatch()
    ensures EndsWith(Lower("DATA.JSON"), ".json")
    ensures !EndsWith("DATA.JSON", ".json") && !EndsWith("DATA.JSON", ".csv")
  {
    LowerDataJson();
    NoLowerCaseExtension();
  }

  lemma NoLowerCaseExtension()
    ensures !EndsWith("DATA.JSON", ".json") && !EndsWith("DATA.JSON", ".csv")
  {
    assert "DATA.JSON"[4..][1] == 'J';
    assert "DATA.JSON"[5..][0] == 'J';
  }

  /**
   * When encoding and decoding round-trip and the parser reads back what `json.dumps` wrote,
   * a JSON upload under a ".json" name loads exactly the documents of the posted data.
   */
  lemma JsonUploadLoads(data: Json, name: string, services: Services)
    requires EndsWith(name, ".json")
    requires services.codec.decodeUtf8(services.encodeUtf8(services.codec.dumps(data))) == Ok(services.codec.dumps(data))
    requires services.codec.parse(services.codec.dumps(data)) == Ok(data)
    ensures LoadDocuments([(name, services.encodeUtf8(services.codec.dumps(data)))], services.codec)
              == Ok(JsonDocuments(data, name, services.codec.dumps))
  {
    var pairs := [(name, services.encodeUtf8(services.codec.dumps(data)))];
    assert pairs[1..] == [];
    assert JsonDocuments(data, name, services.codec.dumps) + [] == JsonDocuments(data, name, services.codec.dumps);
  }

  /**
   * Under the request's default name `invoice_data.json`, a posted object is loaded as one
   * document, and the upload succeeds exactly when the index build does.
   */
  lemma DefaultNameObjectUpload(store: Store, data: Json, services: Services, id: string, now: int)
    requires data.JObject?
    requires services.codec.decodeUtf8(services.encodeUtf8(services.codec.dumps(data))) == Ok(services.codec.dumps(data))
    requires services.codec.parse(services.codec.dumps(data)) == Ok(data)
    ensures EndsWith(DefaultJsonFilename, ".json")
    ensures var docs := [Document(services.codec.dumps(data), DefaultJsonFilename, None)];
            && (UploadJson(store, data, Some(DefaultJsonFilename), services, id, now).1.Ok? <==> services.build(docs).Ok?)
            && (services.build(docs).Ok? ==>
                  UploadJson(store, data, Some(DefaultJsonFilename), services, id, now)
                    == (Create(store, id, services.build(docs).value, Agent(Retriever(services.build(docs).value, RetrieverK)), now),
                        Ok(UploadResponse(id, JsonUploaded, 1))))
  {
    assert DefaultJsonFilename[|DefaultJsonFilename| - 5..] == ".json";
    JsonUploadLoads(data, DefaultJsonFilename, services);
  }

  /** Posting an empty list loads no documents, so the endpoint answers 500 with the wrapped 400. */
  lemma EmptyJsonListRejected(store: Store, name: string, services: Services, id: string, now: int)
    requires EndsWith(name, ".json")
    requires services.codec.decodeUtf8(services.encodeUtf8(services.codec.dumps(JArray([])))) == Ok(services.codec.dumps(JArray([])))
    requires services.codec.parse(services.codec.dumps(JArray([]))) == Ok(JArray([]))
    ensures UploadJson(store, JArray([]), Some(name), services, id, now) == (store, Err(HttpError(500, "Error: " + NoValidDocumentsText)))
  {
    JsonUploadLoads(JArray([]), name, services);
  }

  /** A JSON upload whose name ends in neither ".json" nor ".csv" loads nothing and is refused the same way. */
  lemma JsonUploadNeedsJsonName(store: Store, data: Json, name: string, services: Services, id: string, now: int)
    requires data.JObject? || IsRecordArray(data)
    requires !EndsWith(name, ".json") && !EndsWith(name, ".csv")
    ensures UploadJson(store, data, Some(name), services, id, now) == (store, Err(HttpError(500, "Error: " + NoValidDocumentsText)))
  {
    OtherNamesIgnored([(name, services.encodeUtf8(services.codec.dumps(data)))], services.codec);
  }
}
