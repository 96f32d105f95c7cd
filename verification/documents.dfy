/**
 * Turning uploaded `(filename, bytes)` pairs into retrievable documents
 * (`load_documents_from_files`) and the empty-input guard of `create_vector_store`.
 * UTF-8 decoding, `json.loads`, `json.dumps`, the CSV loader and the FAISS build are
 * library calls; they enter as function-typed parameters.
 */
module Documents {
  import opened Base
  import opened Text
  import opened Json
  import opened Config

  /** A langchain `Document`: page text plus its `source` and optional `item_index` metadata. */
  datatype Document = Document(content: string, source: string, itemIndex: Option<nat>)

  /** The library calls the loader delegates to; each may fail with the exception's text. */
  datatype Codec = Codec(
    decodeUtf8: seq<byte> -> Result<string, string>,
    parse: JsonLoads,
    dumps: Json -> string,
    /** The `page_content` of each row document `CSVLoader` reads from the file. */
    csvRows: seq<byte> -> Result<seq<string>, string>)

  /** The exceptions `load_documents_from_files` lets escape. */
  datatype LoadError =
    | InvalidJson(file: string, reason: string)
    | JsonProcessingFailed(file: string, reason: string)
    | CsvFailed(reason: string)

  /** `str(e)` of the escaping exception. */
  function LoadErrorMessage(e: LoadError): string {
    match e
    case InvalidJson(file, reason) => "Invalid JSON file " + file + ": " + reason
    case JsonProcessingFailed(file, reason) => "Error processing JSON file " + file + ": " + reason
    case CsvFailed(reason) => reason
  }

  /**
   * The documents of the object elements of a top-level JSON array whose first element
   * sits at position `start` (the `enumerate` loop over a parsed list).
   */
  function ArrayDocuments(items: seq<Json>, file: string, dumps: Json -> string, start: nat): (r: seq<Document>)
    ensures |r| <= |items|
    decreases |items|
  {
    if items == [] then []
    else
      var rest := ArrayDocuments(items[1..], file, dumps, start + 1);
      if items[0].JObject? then [Document(dumps(items[0]), file, Some(start))] + rest else rest
  }

  /** `ArrayDocuments(...)[j]` comes from the object at the position its `item_index` names. */
  ghost predicate FromObjectAt(d: Document, items: seq<Json>, file: string, dumps: Json -> string, start: nat) {
    && d.source == file
    && d.itemIndex.Some?
    && start <= d.itemIndex.value < start + |items|
    && items[d.itemIndex.value - start].JObject?
    && d.content == dumps(items[d.itemIndex.value - start])
  }

  /** Every array document is the dump of an object element, tagged with that element's position. */
  lemma {:induction false} ArrayDocumentsSound(items: seq<Json>, file: string, dumps: Json -> string, start: nat)
    ensures forall j :: 0 <= j < |ArrayDocuments(items, file, dumps, start)| ==>
              FromObjectAt(ArrayDocuments(items, file, dumps, start)[j], items, file, dumps, start)
    decreases |items|
  {
    if items != [] {
      var rest := ArrayDocuments(items[1..], file, dumps, start + 1);
      ArrayDocumentsSound(items[1..], file, dumps, start + 1);
      forall j | 0 <= j < |rest|
        ensures FromObjectAt(rest[j], items, file, dumps, start)
      {
        assert FromObjectAt(rest[j], items[1..], file, dumps, start + 1);
        var i := rest[j].itemIndex.value;
        assert items[1..][i - (start + 1)] == items[i - start];
      }
    }
  }

  /** The array documents appear in increasing element order, so no element is used twice. */
  lemma {:induction false} ArrayDocumentsOrdered(items: seq<Json>, file: string, dumps: Json -> string, start: nat)
    ensures forall j :: 0 <= j < |ArrayDocuments(items, file, dumps, start)| ==>
              ArrayDocuments(items, file, dumps, start)[j].itemIndex.Some?
    ensures forall j, k :: 0 <= j < k < |ArrayDocuments(items, file, dumps, start)| ==>
              ArrayDocuments(items, file, dumps, start)[j].itemIndex.value
                < ArrayDocuments(items, file, dumps, start)[k].itemIndex.value
    decreases |items|
  {
    ArrayDocumentsSound(items, file, dumps, start);
    if items != [] {
      ArrayDocumentsOrdered(items[1..], file, dumps, start + 1);
      ArrayDocumentsSound(items[1..], file, dumps, start + 1);
    }
  }

  /** Every object element of the array has its document, tagged with its position. */
  lemma {:induction false} ArrayDocumentsComplete(items: seq<Json>, file: string, dumps: Json -> string, start: nat)
    ensures forall i :: 0 <= i < |items| && items[i].JObject? ==>
              Document(dumps(items[i]), file, Some(start + i)) in ArrayDocuments(items, file, dumps, start)
    decreases |items|
  {
    if items != [] {
      var rest := ArrayDocuments(items[1..], file, dumps, start + 1);
      ArrayDocumentsComplete(items[1..], file, dumps, start + 1);
      forall i | 1 <= i < |items| && items[i].JObject?
        ensures Document(dumps(items[i]), file, Some(start + i)) in rest
      {
        assert items[1..][i - 1] == items[i];
      }
    }
  }

  /** A non-object element still takes up a position: `[1, {}]` gives one document with `item_index` 1. */
  lemma SkippedElementKeepsPosition(file: string, dumps: Json -> string)
    ensures ArrayDocuments([JNumber("1"), JObject(map[])], file, dumps, 0)
              == [Document(dumps(JObject(map[])), file, Some(1))]
  {
    var items := [JNumber("1"), JObject(map[])];
    assert items[1..] == [JObject(map[])];
    assert items[1..][1..] == [];
  }

  /** The documents made of one parsed `.json` file. */
  function JsonDocuments(data: Json, file: string, dumps: Json -> string): seq<Document> {
    match data
    case JArray(items) => ArrayDocuments(items, file, dumps, 0)
    case JObject(_) => [Document(dumps(data), file, None)]
    case _ => [Document(ScalarText(data), file, None)]
  }

  /** `"\n".join(rows)`: the rows one after another, a line break between neighbours. */
  function JoinLines(rows: seq<string>): string {
    if rows == [] then "" else Join(rows, '\n')
  }

  /** Rows without line breaks of their own can be read back from the joined text. */
  lemma JoinLinesSplit(rows: seq<string>)
    requires rows != []
    requires forall i :: 0 <= i < |rows| ==> '\n' !in rows[i]
    ensures Split(JoinLines(rows), '\n') == rows
  {
    SplitJoin(rows, '\n');
  }

  /**
   * One iteration of the loader's loop. The extension tests are case-sensitive, `.json`
   * is tested first, and any other name contributes nothing.
   */
  function LoadFile(file: string, bytes: seq<byte>, codec: Codec): Result<seq<Document>, LoadError> {
    if EndsWith(file, ".json") then
      match codec.decodeUtf8(bytes)
      case Err(reason) => Err(JsonProcessingFailed(file, reason))
      case Ok(text) =>
        match codec.parse(text)
        case Err(Malformed(reason)) => Err(InvalidJson(file, reason))
        case Err(Raised(reason)) => Err(JsonProcessingFailed(file, reason))
        case Ok(data) => Ok(JsonDocuments(data, file, codec.dumps))
    else if EndsWith(file, ".csv") then
      match codec.csvRows(bytes)
      case Err(reason) => Err(CsvFailed(reason))
      case Ok(rows) => Ok([Document(JoinLines(rows), file, None)])
    else
      Ok([])
  }

  /** `load_documents_from_files`: the files' documents in upload order; the first failure escapes. */
  function LoadDocuments(files: seq<(string, seq<byte>)>, codec: Codec): (r: Result<seq<Document>, LoadError>)
    ensures r.Ok? ==> forall j :: 0 <= j < |r.value| ==> exists k :: 0 <= k < |files| && r.value[j].source == files[k].0
  {
    if files == [] then Ok([])
    else
      var first :- LoadFile(files[0].0, files[0].1, codec);
      var rest :- LoadDocuments(files[1..], codec);
      LoadFileSources(files[0].0, files[0].1, codec);
      assert forall j :: 0 <= j < |rest| ==> exists k :: 0 <= k < |files| && rest[j].source == files[k].0 by {
        forall j | 0 <= j < |rest|
          ensures exists k :: 0 <= k < |files| && rest[j].source == files[k].0
        {
          var k :| 0 <= k < |files[1..]| && rest[j].source == files[1..][k].0;
          assert files[1..][k] == files[k + 1];
        }
      }
      Ok(first + rest)
  }

  /**
   * The outcomes of one file. A `.json` name: a decoding failure is "Error processing JSON
   * file", a parse failure "Invalid JSON file", otherwise the documents of the parsed value.
   * A `.csv` name: the loader's failure escapes as is, otherwise one document of the rows
   * joined by line breaks.
   */
  lemma LoadFileOutcome(file: string, bytes: seq<byte>, codec: Codec)
    ensures EndsWith(file, ".json") && codec.decodeUtf8(bytes).Err? ==>
              && LoadFile(file, bytes, codec).Err?
              && LoadErrorMessage(LoadFile(file, bytes, codec).error)
                   == "Error processing JSON file " + file + ": " + codec.decodeUtf8(bytes).error
    ensures EndsWith(file, ".json") && codec.decodeUtf8(bytes).Ok? && codec.parse(codec.decodeUtf8(bytes).value).Err? ==>
              && LoadFile(file, bytes, codec).Err?
              && LoadErrorMessage(LoadFile(file, bytes, codec).error)
                   == match codec.parse(codec.decodeUtf8(bytes).value).error
                      case Malformed(reason) => "Invalid JSON file " + file + ": " + reason
                      case Raised(reason) => "Error processing JSON file " + file + ": " + reason
    ensures EndsWith(file, ".json") && codec.decodeUtf8(bytes).Ok? && codec.parse(codec.decodeUtf8(bytes).value).Ok? ==>
              LoadFile(file, bytes, codec) == Ok(JsonDocuments(codec.parse(codec.decodeUtf8(bytes).value).value, file, codec.dumps))
    ensures !EndsWith(file, ".json") && EndsWith(file, ".csv") && codec.csvRows(bytes).Err? ==>
              LoadFile(file, bytes, codec).Err? && LoadErrorMessage(LoadFile(file, bytes, codec).error) == codec.csvRows(bytes).error
    ensures !EndsWith(file, ".json") && EndsWith(file, ".csv") && codec.csvRows(bytes).Ok? ==>
              LoadFile(file, bytes, codec) == Ok([Document(JoinLines(codec.csvRows(bytes).value), file, None)])
  {
  }

  /** Every document of a file names that file as its source. */
  lemma LoadFileSources(file: string, bytes: seq<byte>, codec: Codec)
    ensures LoadFile(file, bytes, codec).Ok? ==>
              forall d :: d in LoadFile(file, bytes, codec).value ==> d.source == file
  {
    if EndsWith(file, ".json") && codec.decodeUtf8(bytes).Ok? {
      var parsed := codec.parse(codec.decodeUtf8(bytes).value);
      if parsed.Ok? && parsed.value.JArray? {
        ArrayDocumentsSound(parsed.value.items, file, codec.dumps, 0);
      }
    }
  }

  /** A `.json` file holding one object, or one scalar, gives exactly one untagged document. */
  lemma JsonSingleDocument(file: string, bytes: seq<byte>, codec: Codec, text: string, data: Json)
    requires EndsWith(file, ".json")
    requires codec.decodeUtf8(bytes) == Ok(text) && codec.parse(text) == Ok(data)
    requires !data.JArray?
    ensures LoadFile(file, bytes, codec) == Ok([Document(if data.JObject? then codec.dumps(data) else ScalarText(data), file, None)])
  {
  }

  /** A file whose name ends in neither `.json` nor `.csv` (in that exact case) gives nothing. */
  lemma OtherNamesIgnored(files: seq<(string, seq<byte>)>, codec: Codec)
    requires forall k :: 0 <= k < |files| ==> !EndsWith(files[k].0, ".json") && !EndsWith(files[k].0, ".csv")
    ensures LoadDocuments(files, codec) == Ok([])
  {
    if files != [] {
      assert forall k :: 0 <= k < |files[1..]| ==> files[1..][k] == files[k + 1];
      OtherNamesIgnored(files[1..], codec);
      var none: seq<Document> := [];
      assert LoadFile(files[0].0, files[0].1, codec) == Ok(none);
      assert none + none == none;
    }
  }

  /** An upper-case `.JSON` name is not loaded: the extension test is case-sensitive. */
  lemma UpperCaseExtensionIgnored(bytes: seq<byte>, codec: Codec)
    ensures LoadFile("DATA.JSON", bytes, codec) == Ok([])
  {
    assert !EndsWith("DATA.JSON", ".json") by {
      assert "DATA.JSON"[4..] != ".json" by {
        assert "DATA.JSON"[4..][1] == 'J';
      }
    }
    assert !EndsWith("DATA.JSON", ".csv") by {
      assert "DATA.JSON"[5..][0] == 'J';
    }
  }

  /**
   * Loading two batches one after the other is loading their concatenation: the first batch's
   * failure escapes before the second is read, then the second's, else the documents concatenate.
   */
  lemma {:induction false} LoadDocumentsAppend(a: seq<(string, seq<byte>)>, b: seq<(string, seq<byte>)>, codec: Codec)
    ensures LoadDocuments(a + b, codec) ==
              match LoadDocuments(a, codec)
              case Err(e) => Err(e)
              case Ok(first) =>
                match LoadDocuments(b, codec)
                case Ok(rest) => Ok(first + rest)
                case Err(e) => Err(e)
  {
    if a == [] {
      EmptyConcat(a, b);
      if LoadDocuments(b, codec).Ok? {
        EmptyConcat(LoadDocuments(a, codec).value, LoadDocuments(b, codec).value);
      }
    } else {
      ConsShape(a, b);
      LoadDocumentsAppend(a[1..], b, codec);
      match LoadFile(a[0].0, a[0].1, codec)
      case Err(e) =>
      case Ok(first) =>
        if LoadDocuments(a[1..], codec).Ok? && LoadDocuments(b, codec).Ok? {
          ConcatAssoc(first, LoadDocuments(a[1..], codec).value, LoadDocuments(b, codec).value);
        }
    }
  }

  /** A FAISS index, known to the model only as an opaque handle. */
  datatype IndexHandle = IndexHandle(token: nat)

  const NoDocumentsMessage := "No documents provided to create vector store"

  /** `create_vector_store`: an empty document list is rejected before any index is built. */
  function CreateVectorStore(docs: seq<Document>, build: seq<Document> -> Result<IndexHandle, string>): (r: Result<IndexHandle, string>)
    ensures docs == [] ==> r == Err(NoDocumentsMessage)
    ensures docs != [] ==> r == build(docs)
  {
    if docs == [] then Err(NoDocumentsMessage) else build(docs)
  }
}
