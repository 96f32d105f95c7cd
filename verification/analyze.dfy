/**
 * The analysis endpoint (`analyze_invoices`): look the session up, run its agent on the
 * question, and turn the final workflow state into the response. Rendering a figure to a
 * base64 PNG is a parameter; it may fail with the exception's text.
 */
module Analyze {
  import opened Base
  import opened Text
  import opened Documents
  import opened Workflow
  import opened WorkflowRuns
  import opened SessionStore

  datatype AnalyzeRequest = AnalyzeRequest(sessionId: string, question: string)

  /** The response body: the answer, the table as a list of records, the chart as base64 text. */
  datatype AnalyzeResponse = AnalyzeResponse(answer: string, table: Option<Table>, graph: Option<string>, sessionId: string)

  /** The answer reported when the workflow produced none. */
  const NoAnswer := "No relevant information found."
  const SessionNotFound := "Session not found or expired"
  const AnalysisErrorPrefix := "Error during analysis: "

  /** The state key a node reads with `state[...]`. */
  function FieldName(f: Field): string {
    match f
    case QuestionField => "question"
    case DocumentsField => "documents"
    case AnswerField => "answer"
    case TableField => "table"
    case DecisionField => "decision"
    case TableDecisionField => "table_decision"
    case GraphDecisionField => "graph_decision"
    case GraphFigField => "graph_fig"
  }

  /** `str(e)` of an exception escaping `agent.invoke`; a `KeyError` prints its quoted key. */
  function FaultMessage(f: Fault): string {
    match f
    case RetrievalFailed(reason) => reason
    case OracleFailed(_, reason) => reason
    case MissingField(_, field) => "'" + FieldName(field) + "'"
  }

  /**
   * The response built from the final state: the answer or the default, the table's records,
   * and the figure rendered when there is one.
   */
  function Respond(final: State, render: Figure -> Result<string, string>, sessionId: string): (r: Result<AnalyzeResponse, string>)
    ensures r.Ok? ==> r.value.sessionId == sessionId && r.value.table == final.table
    ensures r.Ok? ==> (final.answer.Some? ==> r.value.answer == final.answer.value)
                      && (final.answer.None? ==> r.value.answer == NoAnswer)
    ensures r.Ok? ==> (r.value.graph.Some? <==> final.graphFig.Some?)
    ensures r.Ok? && final.graphFig.Some? ==>
              render(final.graphFig.value).Ok? && r.value.graph == Some(render(final.graphFig.value).value)
    ensures r.Err? <==> final.graphFig.Some? && render(final.graphFig.value).Err?
    ensures r.Err? ==> r.error == render(final.graphFig.value).error
  {
    var answer := final.answer.GetOr(NoAnswer);
    match final.graphFig
    case None => Ok(AnalyzeResponse(answer, final.table, None, sessionId))
    case Some(fig) =>
      match render(fig)
      case Err(msg) => Err(msg)
      case Ok(image) => Ok(AnalyzeResponse(answer, final.table, Some(image), sessionId))
  }

  /**
   * `analyze_invoices`. A missing or expired session is a 404 and the agent is not run;
   * anything that escapes the agent or the rendering is a 500 with the exception's text.
   * The lookup refreshes the session even when the analysis then fails.
   */
  function Analyze(store: Store, now: int, req: AnalyzeRequest, env: Env, render: Figure -> Result<string, string>)
    : (r: (Store, Result<AnalyzeResponse, HttpError>))
    ensures r.0 == Get(store, req.sessionId, now).0
    ensures Get(store, req.sessionId, now).1.None? <==> r.1 == Err(HttpError(404, SessionNotFound))
    ensures r.1.Err? && r.1.error.status != 404 ==>
              r.1.error.status == 500 && StartsWith(r.1.error.detail, AnalysisErrorPrefix)
    ensures r.1.Ok? ==> r.1.value.sessionId == req.sessionId
    ensures r.1.Ok? ==>
              && Get(store, req.sessionId, now).1.Some?
              && Invoke(env, Get(store, req.sessionId, now).1.value.agent, req.question).Ok?
              && Respond(Invoke(env, Get(store, req.sessionId, now).1.value.agent, req.question).value, render, req.sessionId) == Ok(r.1.value)
    ensures Get(store, req.sessionId, now).1.Some? ==>
              var run := Invoke(env, Get(store, req.sessionId, now).1.value.agent, req.question);
              && (run.Err? ==> r.1 == Err(HttpError(500, AnalysisErrorPrefix + FaultMessage(run.error))))
              && (run.Ok? && Respond(run.value, render, req.sessionId).Err? ==>
                    r.1 == Err(HttpError(500, AnalysisErrorPrefix + Respond(run.value, render, req.sessionId).error)))
              && (run.Ok? && Respond(run.value, render, req.sessionId).Ok? ==>
                    r.1 == Ok(Respond(run.value, render, req.sessionId).value))
  {
    var (st, found) := Get(store, req.sessionId, now);
    if found.None? then (st, Err(HttpError(404, SessionNotFound)))
    else
      match Invoke(env, found.value.agent, req.question)
      case Err(f) => (st, Err(HttpError(500, AnalysisErrorPrefix + FaultMessage(f))))
      case Ok(final) =>
        match Respond(final, render, req.sessionId)
        case Err(msg) => (st, Err(HttpError(500, AnalysisErrorPrefix + msg)))
        case Ok(resp) => (st, Ok(resp))
  }

  /** For a missing or expired session the outcome does not depend on the LLM, the retriever or the renderer. */
  lemma NotFoundRunsNothing(store: Store, now: int, req: AnalyzeRequest, env1: Env, env2: Env,
                            render1: Figure -> Result<string, string>, render2: Figure -> Result<string, string>)
    requires Get(store, req.sessionId, now).1.None?
    ensures Analyze(store, now, req, env1, render1) == Analyze(store, now, req, env2, render2)
  {
  }

  /**
   * When grade_documents rejects the retrieved documents, the response carries the default answer
   * and neither a table nor a graph, and the renderer is never called.
   */
  lemma IrrelevantGivesDefault(store: Store, now: int, req: AnalyzeRequest, env: Env,
                               render: Figure -> Result<string, string>, docs: seq<Document>, reply: string)
    requires Get(store, req.sessionId, now).1.Some?
    requires env.search(Get(store, req.sessionId, now).1.value.agent.retriever, req.question) == Ok(docs)
    requires env.ask(GradeQuery(PageText(docs), req.question)) == Ok(reply) && !Affirmative(reply)
    ensures Analyze(store, now, req, env, render).1 == Ok(AnalyzeResponse(NoAnswer, None, None, req.sessionId))
  {
    var rt := Get(store, req.sessionId, now).1.value.agent.retriever;
    ExecIsPipeline(env, rt, req.question);
    RunOutcome(env, rt, req.question);
    var s1 := Initial(req.question).(documents := Some(docs));
    assert Step(env, rt, Retrieve, Initial(req.question)) == Ok(s1);
    assert Step(env, rt, GradeDocuments, s1) == Ok(s1.(decision := Some(Stop)));
  }

  /** When grade_documents accepts the documents and the run completes, the response's answer is the generated one. */
  lemma RelevantGivesGenerated(store: Store, now: int, req: AnalyzeRequest, env: Env,
                               render: Figure -> Result<string, string>, docs: seq<Document>, answer: string)
    requires Get(store, req.sessionId, now).1.Some?
    requires env.search(Get(store, req.sessionId, now).1.value.agent.retriever, req.question) == Ok(docs)
    requires env.ask(GradeQuery(PageText(docs), req.question)).Ok? && Affirmative(env.ask(GradeQuery(PageText(docs), req.question)).value)
    requires env.ask(GenerateQuery(PageText(docs), req.question)) == Ok(answer)
    requires Analyze(store, now, req, env, render).1.Ok?
    ensures Analyze(store, now, req, env, render).1.value.answer == answer
  {
    var rt := Get(store, req.sessionId, now).1.value.agent.retriever;
    RunOutcome(env, rt, req.question);
  }
}
