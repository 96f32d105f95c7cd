# Invoice RAG service: a Dafny model

This project models the core of a small FastAPI service that answers questions about uploaded invoices. The service has three parts:

- **Upload.** The client posts JSON or CSV files, or one JSON body. The service validates them and turns them into retrievable documents. It builds an index and a seven-node LangGraph agent over that index, then registers a session.
- **Session registry.** Sessions are kept in memory. A session expires after a sliding idle timeout; strictly more than `timeout` seconds of inactivity removes it.
- **Analysis.** The endpoint looks up the session and runs the agent on the question. The agent retrieves, grades relevance, generates an answer, and optionally formats a table and a chart. The endpoint turns the final state into the response.

Modules, following the program's structure:

- `Base`: `Option`, `Result`, bytes and HTTP errors.
- `Text`: ASCII `lower`, `strip`, `endswith` and substring search.
- `Json`.
- `Config`: the settings and the `allowed_file_types` parse.
- `Documents`: `load_documents_from_files` and `create_vector_store`.
- `Workflow`: the state, the seven nodes and the graph interpreter.
- `WorkflowRuns`: theorems about whole invocations.
- `SessionStore`: `SessionManager`.
- `Upload`: the two upload endpoints.
- `Analyze`: the analysis endpoint.

The outside world enters as inputs.

- **Clock and uuid.** Every operation takes the clock as `now`, and creation takes the new session id.
- **Retriever, LLM and `json.loads`.** These form the workflow environment `Env`. Each one is a function of exactly what the node hands it, and each may fail with the exception's text. The grading and generation prompts receive the documents' page texts joined by blank lines (`Workflow.PageText`), never their metadata. `json.loads` fails either with a decode error (`Malformed`) or with any other exception (`Raised`); the file loader reports the two differently.
- **Loader and endpoint libraries.** UTF-8 decoding, `json.dumps`, the CSV loader, the FAISS build and PNG rendering are parameters too (`Codec`, `Services`, `render`).

Three behaviours of the code are easy to misread:

- A failing LLM call in any node aborts the invocation. The analysis endpoint then answers 500. Only the JSON handling inside `format_table` and `format_graph` is guarded, so a bad reply there gives `None`.
- In `upload_files`, the 400 "No valid documents extracted" is raised inside the `try` block. The blanket handler therefore turns it into a 500 whose detail is "Error: 400: No valid documents extracted".
- Validation lower-cases the file name, but the loader's extension test is case-sensitive. An upper-case `DATA.JSON` therefore passes validation, loads nothing, and ends in that 500.

## Model

| member | source | states |
|---|---|---|
| Text.LowerChar | app/routers/upload.py:32 | a capital letter becomes the small letter at the same place in the alphabet; every other character is unchanged |
| Text.Lower | app/routers/upload.py:32 | `str.lower()` keeps the length, turns each capital into the small letter at the same place in the alphabet, and leaves every other character as it is |
| Text.Strip | app/core/config.py:37 | the result is a slice of the text with only white space before and after it, has no white space at either end, and is empty exactly when the text is all white space |
| Text.StripIdempotent | app/core/config.py:37 | stripping twice is stripping once |
| Text.StripAvoids | app/core/config.py:37 | stripping never introduces a character |
| Text.ContainsIff | app/core/rag_pipeline.py:174 | the left-to-right substring scan succeeds exactly when the word occurs at some index |
| Config.Split | app/core/config.py:37 | `split(',')` gives one more piece than there are separators, and no piece contains one |
| Config.JoinSplit | app/core/config.py:37 | joining the pieces with the separator restores the text |
| Config.SplitJoin | app/core/config.py:37 | splitting a join of separator-free pieces gives the pieces back |
| Config.KeepNonBlank | app/core/config.py:37 | the comprehension keeps at most one element per piece, each non-empty and stripped |
| Config.KeepNonBlankAppend | app/core/config.py:37 | the comprehension keeps the pieces' order: it distributes over concatenation |
| Config.KeepNonBlankOfStripped | app/core/config.py:37 | stripped non-blank pieces are all kept, unchanged |
| Config.SplitAppend | app/core/config.py:37 | splitting two texts joined by the separator gives the pieces of the first followed by the pieces of the second |
| Config.ParseAllowedFileTypes | app/core/config.py:34-37 | every allowed type is non-empty, stripped and comma-free; there are at most commas+1 of them; a blank setting allows nothing |
| Config.ParseAppend | app/core/config.py:34-37 | parsing two settings joined by a comma gives the types of the first followed by those of the second, so the parse keeps the setting's order for every input |
| Config.OnePiece | app/core/config.py:37 | a comma-free setting allows exactly its stripped text, when that is not blank |
| Config.ParseJoinRoundTrip | app/core/config.py:34-37 | a comma-joined list of non-empty, stripped, comma-free types parses back to exactly that list, in order |
| Config.KeepNonBlankMembers | app/core/config.py:37 | the comprehension keeps a text exactly when it is non-empty and some piece strips to it |
| Config.AllowedTypeMembers | app/core/config.py:34-37 | a type is allowed exactly when it is non-empty and some comma-separated piece of the setting strips to it |
| Config.Defaults | app/core/config.py:24-28 | the defaults are 3600 seconds, 10485760 bytes and "json,csv" |
| Config.DefaultAllowsJsonAndCsv | app/core/config.py:28 | the default "json,csv" allows exactly json, then csv |
| Documents.ArrayDocumentsSound | app/core/rag_pipeline.py:58-66 | every document made from a top-level list is the dump of an object element, tagged with that element's position and the file |
| Documents.ArrayDocumentsOrdered | app/core/rag_pipeline.py:60-66 | list documents come in strictly increasing element order |
| Documents.ArrayDocumentsComplete | app/core/rag_pipeline.py:60-66 | every object element of the list has its document |
| Documents.SkippedElementKeepsPosition | app/core/rag_pipeline.py:60-61 | a non-object element is skipped but still counts a position |
| Documents.JoinLinesSplit | app/core/rag_pipeline.py:90-91 | rows without line breaks of their own are recovered by splitting the joined CSV text at line breaks |
| Documents.LoadFileOutcome | app/core/rag_pipeline.py:52-92 | for a ".json" name a UTF-8 decoding failure or a `json.loads` exception other than a decode error is "Error processing JSON file", a decode error "Invalid JSON file", otherwise the parsed value's documents; for a ".csv" name the loader's failure escapes, otherwise one document of the rows joined by line breaks |
| Documents.LoadDocuments | app/core/rag_pipeline.py:42-96 | every loaded document names one of the uploaded files as its source |
| Documents.LoadFileSources | app/core/rag_pipeline.py:51-92 | every document of one file names that file |
| Documents.JsonSingleDocument | app/core/rag_pipeline.py:67-74 | a `.json` file holding an object or a scalar gives exactly one untagged document |
| Documents.OtherNamesIgnored | app/core/rag_pipeline.py:52-81 | files ending in neither ".json" nor ".csv" give no documents and no error |
| Documents.UpperCaseExtensionIgnored | app/core/rag_pipeline.py:52-81 | the extension test is case-sensitive: "DATA.JSON" loads nothing |
| Documents.LoadDocumentsAppend | app/core/rag_pipeline.py:50-96 | loading a concatenation is loading each batch in turn: a failure of the first batch escapes before the second is read, then a failure of the second, else the documents concatenate |
| Documents.CreateVectorStore | app/core/rag_pipeline.py:98-104 | an empty list is refused with its message before any build; otherwise the build decides |
| Workflow.TableFromJson | app/core/rag_pipeline.py:196-208 | a table is made exactly when the reply parses to a list of dicts, and it holds those dicts in order |
| Workflow.EmptyListIsEmptyTable | app/core/rag_pipeline.py:202-204 | an empty JSON list gives an empty table, not `None` |
| Workflow.FigureFromJson | app/core/rag_pipeline.py:220-252 | a figure is made exactly when the reply parses to a dict (plotting errors aside, see below); its title defaults to "" and its chart is the one the dict's "type" selects |
| Workflow.ChartKinds | app/core/rag_pipeline.py:228-246 | the chart is a bar, line or pie chart exactly when "type" says so; each data list is the reply's when present and empty when missing; each axis label is the reply's when present and "" when missing |
| Workflow.PageTextOnlyContent | app/core/rag_pipeline.py:168-184 | the grading and generation prompts depend only on the documents' page texts, in order; two document lists with the same texts give the same prompt whatever their metadata |
| Workflow.Step | app/core/rag_pipeline.py:162-252 | a node changes only the field it returns and fills it; it raises a missing-key error exactly when a field it reads is absent |
| Workflow.Next | app/core/rag_pipeline.py:268-286 | routing follows the graph's edges, lowers the rank, and applies the routers' defaults when a decision is missing |
| Workflow.WalkCons | app/core/rag_pipeline.py:268-286 | a node with an edge into a walk extends the walk |
| Workflow.Exec | app/core/rag_pipeline.py:255-290 | a finished run keeps the question and visits a walk along the graph's edges that starts at the given node, visiting each node at most once |
| WorkflowRuns.ExecIsPipeline | app/core/rag_pipeline.py:255-290 | the graph interpreter from retrieve is the straight-line pipeline retrieve, grade, and then generate with its table and graph branches |
| WorkflowRuns.GradePartFacts | app/core/rag_pipeline.py:168-286 | after grading: irrelevant documents end the run untouched; relevant ones lead to generate and the table and graph branches |
| WorkflowRuns.TablePartFacts | app/core/rag_pipeline.py:187-217 | route_to_table sends the run to format_table exactly on "yes", and the table is what format_table makes of its reply |
| WorkflowRuns.RunTrace | app/core/rag_pipeline.py:255-286 | every successful invocation follows one of five node sequences, chosen by its three routing decisions |
| WorkflowRuns.RunOutcome | app/core/rag_pipeline.py:162-286 | the final state field by field: documents from the retriever, relevance iff grade_documents answered "yes", then the answer, table and figure, or nothing past grading |
| WorkflowRuns.AffirmativeIff | app/core/rag_pipeline.py:174 | a classifier reply counts as "yes" exactly when the letters y, e, s appear consecutively in any case |
| WorkflowRuns.AffirmativeExamples | app/core/rag_pipeline.py:174 | "Yes." and "eyes" are positive, "no" and "" are negative |
| WorkflowRuns.ExecFaults | app/core/rag_pipeline.py:162-252 | from a state holding what the node reads, a run fails only with the retriever's or an LLM call's own error |
| WorkflowRuns.InvokeFaults | app/core/rag_pipeline.py:162-252 | an invocation never fails on a missing key, only on the retriever or the LLM |
| WorkflowRuns.ExecIgnoresParse | app/core/rag_pipeline.py:196-252 | `json.loads` decides only the table and the figure: the trace, answer, decisions and errors do not depend on it |
| WorkflowRuns.EveryTraceReachable | app/core/rag_pipeline.py:255-286 | each of the five node sequences is taken by some invocation |
| SessionStore.Global | app/core/session_manager.py:108 | the global registry starts empty with the 3600-second timeout, equal to the configured default |
| SessionStore.Sweep | app/core/session_manager.py:84-93 | exactly the sessions idle for strictly longer than the timeout are removed; the others are kept unchanged |
| SessionStore.Create | app/core/session_manager.py:27-49 | the new session is stored with both timestamps at `now`, other sessions are swept and kept unchanged otherwise, every session left is live, and a negative timeout sweeps the new one too |
| SessionStore.Get | app/core/session_manager.py:51-70 | found exactly when stored and not expired; then refreshed to `now` and returned; an expired one is removed; nothing else changes |
| SessionStore.Delete | app/core/session_manager.py:72-82 | reports whether the id was stored, and removes it |
| SessionStore.ActiveCount | app/core/session_manager.py:95-99 | the count is the number of live sessions, and the store is swept |
| SessionStore.ClearAll | app/core/session_manager.py:101-104 | no session is left and the timeout is kept |
| SessionStore.OperationsPreserveWellFormed | app/core/session_manager.py:27-104 | every operation keeps sessions under their own ids, with creation no later than last access and last access no later than now |
| SessionStore.SweepIdempotent | app/core/session_manager.py:84-93 | sweeping twice at the same time is sweeping once |
| SessionStore.SweepLaterSubsumes | app/core/session_manager.py:84-93 | a later sweep subsumes an earlier one |
| SessionStore.GetAfterCreate | app/core/session_manager.py:27-70 | a new session can be fetched at any time up to and including creation plus timeout |
| SessionStore.GetAfterTimeout | app/core/session_manager.py:64-66 | strictly after creation plus timeout, the fetch fails and removes the session |
| SessionStore.GetSlidesWindow | app/core/session_manager.py:64-70 | each successful fetch restarts the idle window |
| SessionStore.DeleteIdempotent | app/core/session_manager.py:72-82 | a second delete reports false and changes nothing |
| SessionStore.GetAfterDelete | app/core/session_manager.py:51-82 | a deleted session cannot be fetched |
| SessionStore.CountAfterCreate | app/core/session_manager.py:27-99 | creating under an unused id adds one to the live count |
| SessionStore.CountAfterDelete | app/core/session_manager.py:72-99 | deleting a live session removes one from the live count |
| SessionStore.CountAfterClear | app/core/session_manager.py:51-104 | after clearing, the count is zero and every fetch fails |
| Upload.CheckFile | app/routers/upload.py:31-43 | a file fails exactly when no allowed type matches its lower-cased name or it is over the limit; the extension error wins and names the allowed list; otherwise the size error says "File <name> exceeds maximum size" |
| Upload.ValidateUploads | app/routers/upload.py:27-45 | no files gives "No files provided"; success exactly when all files pass, giving their (name, content) pairs in order; otherwise the first failing file's error |
| Upload.SizeLimitInclusive | app/routers/upload.py:39 | a file exactly at the size limit is accepted |
| Upload.UpperCaseTypeNeverMatches | app/routers/upload.py:32 | an allowed type written with an upper-case letter matches no file name |
| Upload.BuildSession | app/routers/upload.py:47-54 | load errors and an empty load fail with their messages; after a non-empty load it succeeds exactly when the index build does, failing with the build's message, and the agent's retriever uses k = 3 |
| Upload.UploadFiles | app/routers/upload.py:19-65 | validation errors are 400s from the first failing file, errors inside the try are 500 "Error: ...", and success registers the session and reports the file count; failures leave the store alone |
| Upload.UploadJson | app/routers/upload.py:67-96 | every failure is a 500 "Error: ..." and leaves the store alone; a missing name fails; with a name, it succeeds exactly when the session can be built, else the detail carries the build's message; success processes one file and registers the session |
| Upload.CaseMismatchValidatedButNotLoaded | app/routers/upload.py:32-50 | a name ending in ".json" only after lower-casing passes validation when json is allowed, but loads nothing and ends in the wrapped 400 |
| Upload.DataJsonIsCaseMismatch | app/routers/upload.py:32 | "DATA.JSON" is such a name |
| Upload.JsonUploadLoads | app/routers/upload.py:76-79 | when dumping, encoding and parsing round-trip, a JSON upload loads exactly the documents of the posted data |
| Upload.DefaultNameObjectUpload | app/models/schemas.py:41 | under the default name "invoice_data.json" a posted object loads as one document, and the upload succeeds exactly when the index build does, registering the session |
| Upload.EmptyJsonListRejected | app/routers/upload.py:79-81 | posting an empty list ends in 500 "Error: 400: No valid documents extracted" |
| Upload.JsonUploadNeedsJsonName | app/routers/upload.py:77-81 | a JSON upload under a name ending in neither ".json" nor ".csv" is refused the same way |
| Analyze.Respond | app/routers/analyze.py:26-43 | the answer defaults to "No relevant information found.", the table is passed through, a figure is rendered exactly when present and the response carries the renderer's text, a rendering failure is the renderer's message, and the session id is echoed |
| Analyze.Analyze | app/routers/analyze.py:11-49 | 404 exactly when the session is missing or expired; for a found session, a failing invocation is a 500 with the exception's text, a failing render is a 500 with the renderer's message, and otherwise the response of the final state is returned; the lookup's refresh is kept |
| Analyze.NotFoundRunsNothing | app/routers/analyze.py:16-21 | for a missing session the outcome depends on neither the LLM nor the renderer |
| Analyze.IrrelevantGivesDefault | app/routers/analyze.py:24-43 | when grade_documents rejects the documents, the response has the default answer and no table or graph |
| Analyze.RelevantGivesGenerated | app/routers/analyze.py:24-43 | when grade_documents accepts, the response's answer is the generated one |

## Left out

- Locking: the `RLock` serialises the operations, and each operation is modelled as one atomic step.
- Clock and uuid: they are inputs. `get_session` reads the clock twice, and `create_session` reads it again for its sweep. All readings within one operation are modelled as the same `now`. Timestamps are integers rather than floats.
- The LLM, the embeddings, the FAISS index and retriever ranking: `Env.search`, `Env.ask` and `Services.build` are unconstrained parameters. Prompts are reduced to the values filled into them: the question, the answer, and for grading and generation the page texts joined by blank lines.
- The CSV branch's temporary file and `CSVLoader`: one parameter gives the rows' page contents or the error. Joining them with line breaks is modelled.
- pandas: a table is the list of records it was built from. Filling missing columns with NaN in `to_dict('records')` is not modelled.
- matplotlib: a figure is its title and chart data. Rendering to a base64 PNG is the `render` parameter.
- Workflow.FigureFromJson: a figure is made for every reply that parses to a dict. In the code the plotting calls run inside the same `try`, so data matplotlib refuses (a line chart whose `x` and `y` differ in length, say) gives `None` instead; plotting errors are not modelled.
- JSON objects are maps: key order and duplicate keys are lost. So the order of keys in `json.dumps` output, and the column order a DataFrame takes from first appearance, are not modelled; `dumps` is a parameter and a table row is a map.
- `ReprList` wraps each item in single quotes and escapes nothing. Python's `repr` doubles backslashes, escapes tabs and other non-printable characters, and switches to double quotes for an item that contains a single quote.
- Text handling covers only ASCII white space and case. Unicode `lower` and `strip` are wider.
- `upload_files` with a `None` file name raises outside the `try` block, and FastAPI answers it. That path is not modelled. The same name in `upload_json` is modelled: it fails inside the loader.
- Request validation (FastAPI's 422), the health routes, application start-up and the test suite are not part of this model.
- Upload.UploadJson: requires the posted data to be an object or a list of objects, as the request model enforces before the endpoint runs.
