/**
 * The analysis workflow of `create_agent`: seven nodes threaded over one state record,
 * wired as a fixed conditional graph
 *
 *   retrieve -> grade_documents -> [generate | END]
 *   generate -> route_to_table -> [format_table | route_to_graph]
 *   format_table -> route_to_graph -> [format_graph | END]
 *   format_graph -> END
 *
 * The retriever, the LLM and `json.loads` are the environment `Env`: each call is a
 * function of exactly the inputs the node hands it, and may fail with the exception's text.
 */
module Workflow {
  import opened Base
  import opened Text
  import opened Json
  import opened Documents

  /** `vector_store.as_retriever(search_kwargs={"k": k})`. */
  datatype Retriever = Retriever(store: IndexHandle, k: nat)

  /** The compiled graph returned by `create_agent`, bound to the retriever it closes over. */
  datatype Agent = Agent(retriever: Retriever)

  datatype Node = Retrieve | GradeDocuments | Generate | RouteToTable | FormatTable | RouteToGraph | FormatGraph | End

  /** `decision`: the strings "generate" (Continue) and "end" (Stop). */
  datatype Decision = Continue | Stop

  /** `table_decision`: the strings "format_table" and "route_to_graph". */
  datatype TableDecision = FormatTableNext | SkipTable

  /** `graph_decision`: the strings "format_graph" and "end". */
  datatype GraphDecision = FormatGraphNext | SkipGraph

  /** One record of a pandas DataFrame built from a list of dicts. */
  type Row = map<string, Json>
  type Table = seq<Row>

  /** What `format_graph` draws, by the reply's "type"; any other type draws only the title. */
  datatype Chart =
    | Bar(categories: Json, values: Json, xLabel: Json, yLabel: Json)
    | Line(x: Json, y: Json, xLabel: Json, yLabel: Json)
    | Pie(labels: Json, values: Json)
    | TitleOnly

  /** A matplotlib figure, known by its title and what was plotted on it. */
  datatype Figure = Figure(title: Json, chart: Chart)

  /** The LangGraph `State`; `None` stands for a key that was never written or was written as `None`. */
  datatype State = State(
    question: string,
    documents: Option<seq<Document>>,
    answer: Option<string>,
    table: Option<Table>,
    decision: Option<Decision>,
    tableDecision: Option<TableDecision>,
    graphDecision: Option<GraphDecision>,
    graphFig: Option<Figure>)

  /** `agent.invoke({"question": question})` starts from a state holding only the question. */
  function Initial(question: string): State {
    State(question, None, None, None, None, None, None, None)
  }

  datatype Field =
    | QuestionField | DocumentsField | AnswerField | TableField
    | DecisionField | TableDecisionField | GraphDecisionField | GraphFigField

  /** The one state field each node returns in its update dict. */
  function Writes(n: Node): Field
    requires n != End
  {
    match n
    case Retrieve => DocumentsField
    case GradeDocuments => DecisionField
    case Generate => AnswerField
    case RouteToTable => TableDecisionField
    case FormatTable => TableField
    case RouteToGraph => GraphDecisionField
    case FormatGraph => GraphFigField
  }

  /** `s` and `t` hold the same value in every field other than `f`. */
  predicate AgreeExcept(s: State, t: State, f: Field) {
    && (f != QuestionField ==> s.question == t.question)
    && (f != DocumentsField ==> s.documents == t.documents)
    && (f != AnswerField ==> s.answer == t.answer)
    && (f != TableField ==> s.table == t.table)
    && (f != DecisionField ==> s.decision == t.decision)
    && (f != TableDecisionField ==> s.tableDecision == t.tableDecision)
    && (f != GraphDecisionField ==> s.graphDecision == t.graphDecision)
    && (f != GraphFigField ==> s.graphFig == t.graphFig)
  }

  /** `"\n\n".join(doc.page_content for doc in docs)`: the documents' text as the prompts see it. */
  function PageText(docs: seq<Document>): string {
    if docs == [] then ""
    else if |docs| == 1 then docs[0].content
    else docs[0].content + "\n\n" + PageText(docs[1..])
  }

  /** Two retrievals whose documents hold the same texts fill the prompts identically. */
  lemma {:induction false} PageTextOnlyContent(a: seq<Document>, b: seq<Document>)
    requires |a| == |b| && forall i :: 0 <= i < |a| ==> a[i].content == b[i].content
    ensures PageText(a) == PageText(b)
  {
    if |a| > 1 {
      assert forall i :: 0 <= i < |a| - 1 ==> a[1..][i].content == b[1..][i].content by {
        forall i | 0 <= i < |a| - 1
          ensures a[1..][i].content == b[1..][i].content
        {
          assert a[1..][i] == a[i + 1] && b[1..][i] == b[i + 1];
        }
      }
      PageTextOnlyContent(a[1..], b[1..]);
    }
  }

  /** The prompt each LLM call is made with, reduced to the values filled into it. */
  datatype Query =
    | GradeQuery(docs: string, question: string)
    | GenerateQuery(docs: string, question: string)
    | TableRouteQuery(question: string, answer: string)
    | TableFormatQuery(answer: string)
    | GraphRouteQuery(question: string, answer: string)
    | GraphFormatQuery(question: string, answer: string)

  /** The outside world of one invocation: the retriever, the LLM and `json.loads`. */
  datatype Env = Env(
    search: (Retriever, string) -> Result<seq<Document>, string>,
    ask: Query -> Result<string, string>,
    parse: JsonLoads)

  /** An exception escaping a node; it aborts the invocation. */
  datatype Fault =
    | RetrievalFailed(reason: string)
    | OracleFailed(node: Node, reason: string)
    /** `state[key]` on a key that no earlier node wrote. */
    | MissingField(node: Node, field: Field)

  /** The classifiers' test `"yes" in response.lower()`. */
  predicate Affirmative(reply: string) {
    Contains(Lower(reply), "yes")
  }

  /** The reply is a JSON list whose elements are all dicts. */
  predicate IsRecordArray(v: Json) {
    v.JArray? && forall i :: 0 <= i < |v.items| ==> v.items[i].JObject?
  }

  /** A table written back as the JSON list of dicts it was built from. */
  function TableToJson(t: Table): Json {
    JArray(seq(|t|, i requires 0 <= i < |t| => JObject(t[i])))
  }

  /**
   * `format_table`'s handling of the reply: a list of dicts becomes a DataFrame, anything
   * else (including a reply that does not parse) becomes `None`.
   */
  function TableFromJson(parsed: Result<Json, ParseFailure>): (t: Option<Table>)
    ensures t.Some? <==> parsed.Ok? && IsRecordArray(parsed.value)
    ensures t.Some? ==> TableToJson(t.value) == parsed.value
  {
    if parsed.Ok? && IsRecordArray(parsed.value) then
      var items := parsed.value.items;
      Some(seq(|items|, i requires 0 <= i < |items| => items[i].fields))
    else
      None
  }

  /** The plot `format_graph` draws for the dict it parsed, chosen by its "type". */
  function ChartOf(spec: map<string, Json>): Chart {
    var kind := Get(spec, "type");
    if kind == Some(JString("bar")) then
      Bar(GetOr(spec, "categories", JArray([])), GetOr(spec, "values", JArray([])),
          GetOr(spec, "x_label", JString("")), GetOr(spec, "y_label", JString("")))
    else if kind == Some(JString("line")) then
      Line(GetOr(spec, "x", JArray([])), GetOr(spec, "y", JArray([])),
           GetOr(spec, "x_label", JString("")), GetOr(spec, "y_label", JString("")))
    else if kind == Some(JString("pie")) then
      Pie(GetOr(spec, "labels", JArray([])), GetOr(spec, "values", JArray([])))
    else
      TitleOnly
  }

  /**
   * `format_graph`'s handling of the reply: a dict gives a figure; a reply that does not
   * parse, or parses to a non-dict (whose `.get` raises), gives `None`.
   */
  function FigureFromJson(parsed: Result<Json, ParseFailure>): (f: Option<Figure>)
    ensures f.Some? <==> parsed.Ok? && parsed.value.JObject?
    ensures f.Some? ==> f.value.title == GetOr(parsed.value.fields, "title", JString(""))
    ensures f.Some? ==> f.value.chart == ChartOf(parsed.value.fields)
  {
    if parsed.Ok? && parsed.value.JObject? then
      var spec := parsed.value.fields;
      Some(Figure(GetOr(spec, "title", JString("")), ChartOf(spec)))
    else
      None
  }

  /** An empty JSON list is an empty table, not a missing one. */
  lemma EmptyListIsEmptyTable()
    ensures TableFromJson(Ok(JArray([]))) == Some([])
  {
    assert IsRecordArray(JArray([]));
  }

  /**
   * The chart kind follows the reply's "type" exactly; a missing or unknown type draws only the
   * title. Each data list and axis label is the reply's value when present, else empty.
   */
  lemma ChartKinds(spec: map<string, Json>)
    ensures ChartOf(spec).Bar? <==> Get(spec, "type") == Some(JString("bar"))
    ensures ChartOf(spec).Line? <==> Get(spec, "type") == Some(JString("line"))
    ensures ChartOf(spec).Pie? <==> Get(spec, "type") == Some(JString("pie"))
    ensures ChartOf(spec).Bar? ==>
              && ("categories" !in spec ==> ChartOf(spec).categories == JArray([]))
              && ("values" !in spec ==> ChartOf(spec).values == JArray([]))
    ensures ChartOf(spec).Line? ==>
              && ("x" !in spec ==> ChartOf(spec).x == JArray([]))
              && ("y" !in spec ==> ChartOf(spec).y == JArray([]))
    ensures ChartOf(spec).Pie? ==>
              && ("labels" !in spec ==> ChartOf(spec).labels == JArray([]))
              && ("values" !in spec ==> ChartOf(spec).values == JArray([]))
    ensures (ChartOf(spec).Bar? || ChartOf(spec).Line?) ==>
              && ("x_label" !in spec ==> ChartOf(spec).xLabel == JString(""))
              && ("y_label" !in spec ==> ChartOf(spec).yLabel == JString(""))
              && ("x_label" in spec ==> ChartOf(spec).xLabel == spec["x_label"])
              && ("y_label" in spec ==> ChartOf(spec).yLabel == spec["y_label"])
    ensures ChartOf(spec).Bar? ==>
              && ("categories" in spec ==> ChartOf(spec).categories == spec["categories"])
              && ("values" in spec ==> ChartOf(spec).values == spec["values"])
    ensures ChartOf(spec).Line? ==>
              && ("x" in spec ==> ChartOf(spec).x == spec["x"])
              && ("y" in spec ==> ChartOf(spec).y == spec["y"])
    ensures ChartOf(spec).Pie? ==>
              && ("labels" in spec ==> ChartOf(spec).labels == spec["labels"])
              && ("values" in spec ==> ChartOf(spec).values == spec["values"])
  {
    assert "bar" != "line" && "bar" != "pie" && "line" != "pie" by {
      assert "bar"[0] != "line"[0] && "bar"[0] != "pie"[0] && "line"[0] != "pie"[0];
    }
  }

  /** The fields node `n` reads with `state[...]` are present. */
  predicate Ready(n: Node, s: State) {
    && (n in {GradeDocuments, Generate} ==> s.documents.Some?)
    && (n in {RouteToTable, FormatTable, RouteToGraph, FormatGraph} ==> s.answer.Some?)
  }

  /** The field `n` owns holds a value afterwards (the two formatters may legitimately write `None`). */
  predicate Filled(n: Node, s: State) {
    && (n == Retrieve ==> s.documents.Some?)
    && (n == GradeDocuments ==> s.decision.Some?)
    && (n == Generate ==> s.answer.Some?)
    && (n == RouteToTable ==> s.tableDecision.Some?)
    && (n == RouteToGraph ==> s.graphDecision.Some?)
  }

  /** The field whose absence makes node `n` raise `KeyError`. */
  function ReadField(n: Node): Field {
    if n in {GradeDocuments, Generate} then DocumentsField else AnswerField
  }

  /** The prompt an LLM node sends, filled from the state. */
  function QueryOf(n: Node, s: State): Query
    requires n !in {Retrieve, End} && Ready(n, s)
  {
    match n
    case GradeDocuments => GradeQuery(PageText(s.documents.value), s.question)
    case Generate => GenerateQuery(PageText(s.documents.value), s.question)
    case RouteToTable => TableRouteQuery(s.question, s.answer.value)
    case FormatTable => TableFormatQuery(s.answer.value)
    case RouteToGraph => GraphRouteQuery(s.question, s.answer.value)
    case FormatGraph => GraphFormatQuery(s.question, s.answer.value)
  }

  /** The update an LLM node makes from the reply it got. */
  function Absorb(n: Node, s: State, reply: string, parse: JsonLoads): State
    requires n !in {Retrieve, End}
  {
    match n
    case GradeDocuments => s.(decision := Some(if Affirmative(reply) then Continue else Stop))
    case Generate => s.(answer := Some(reply))
    case RouteToTable => s.(tableDecision := Some(if Affirmative(reply) then FormatTableNext else SkipTable))
    case FormatTable => s.(table := TableFromJson(parse(reply)))
    case RouteToGraph => s.(graphDecision := Some(if Affirmative(reply) then FormatGraphNext else SkipGraph))
    case FormatGraph => s.(graphFig := FigureFromJson(parse(reply)))
  }

  /**
   * Running node `n` on state `s`: the node function followed by LangGraph's merge of its
   * update. Only the JSON handling of the two formatters is inside a `try`; a failing
   * retriever or LLM call escapes from every node.
   */
  function Step(env: Env, retriever: Retriever, n: Node, s: State): (r: Result<State, Fault>)
    requires n != End
    ensures r.Ok? ==> AgreeExcept(s, r.value, Writes(n)) && Filled(n, r.value)
    ensures (r.Err? && r.error.MissingField?) <==> !Ready(n, s)
  {
    if n == Retrieve then
      match env.search(retriever, s.question)
      case Err(reason) => Err(RetrievalFailed(reason))
      case Ok(docs) => Ok(s.(documents := Some(docs)))
    else if !Ready(n, s) then
      Err(MissingField(n, ReadField(n)))
    else
      match env.ask(QueryOf(n, s))
      case Err(reason) => Err(OracleFailed(n, reason))
      case Ok(reply) => Ok(Absorb(n, s, reply, env.parse))
  }

  /** The edges `create_agent` adds: the targets each node's edge or path map can lead to. */
  function Successors(n: Node): set<Node> {
    match n
    case Retrieve => {GradeDocuments}
    case GradeDocuments => {Generate, End}
    case Generate => {RouteToTable}
    case RouteToTable => {FormatTable, RouteToGraph}
    case FormatTable => {RouteToGraph}
    case RouteToGraph => {FormatGraph, End}
    case FormatGraph => {End}
    case End => {}
  }

  /** Distance to END along the longest path; every edge lowers it. */
  function Rank(n: Node): nat {
    match n
    case Retrieve => 7
    case GradeDocuments => 6
    case Generate => 5
    case RouteToTable => 4
    case FormatTable => 3
    case RouteToGraph => 2
    case FormatGraph => 1
    case End => 0
  }

  /**
   * The node LangGraph runs after `n`, given the state `n` left behind. The routing lambdas
   * read the decision with a default: a missing `decision` ends, a missing `table_decision`
   * goes to route_to_graph and a missing `graph_decision` ends.
   */
  function Next(n: Node, s: State): (m: Node)
    requires n != End
    ensures m in Successors(n)
    ensures Rank(m) < Rank(n)
    ensures n == GradeDocuments && s.decision.None? ==> m == End
    ensures n == RouteToTable && s.tableDecision.None? ==> m == RouteToGraph
    ensures n == RouteToGraph && s.graphDecision.None? ==> m == End
  {
    match n
    case Retrieve => GradeDocuments
    case GradeDocuments => if s.decision.GetOr(Stop) == Continue then Generate else End
    case Generate => RouteToTable
    case RouteToTable => if s.tableDecision.GetOr(SkipTable) == FormatTableNext then FormatTable else RouteToGraph
    case FormatTable => RouteToGraph
    case RouteToGraph => if s.graphDecision.GetOr(SkipGraph) == FormatGraphNext then FormatGraph else End
    case FormatGraph => End
  }

  /** A finished invocation: the final state and the nodes that ran, in order. */
  datatype Run = Run(final: State, trace: seq<Node>)

  /** The trace is a walk along the graph's edges that ends where END is reachable. */
  ghost predicate IsWalk(trace: seq<Node>) {
    && (forall i :: 0 <= i < |trace| ==> trace[i] != End)
    && (forall i :: 0 <= i < |trace| - 1 ==> trace[i + 1] in Successors(trace[i]))
    && (|trace| > 0 ==> End in Successors(trace[|trace| - 1]))
  }

  /** Ranks strictly fall along the trace. */
  ghost predicate RanksFall(trace: seq<Node>) {
    forall i, j :: 0 <= i < j < |trace| ==> Rank(trace[j]) < Rank(trace[i])
  }

  /** Prefixing a walk from `m` with a node `n` that has an edge to `m` gives a walk from `n`. */
  lemma WalkCons(n: Node, m: Node, trace: seq<Node>)
    requires n != End && m in Successors(n) && Rank(m) < Rank(n)
    requires IsWalk(trace) && RanksFall(trace)
    requires m == End <==> trace == []
    requires m != End ==> trace[0] == m
    ensures IsWalk([n] + trace) && RanksFall([n] + trace)
    ensures ([n] + trace)[0] == n
  {
    var t := [n] + trace;
    assert forall k :: 0 < k < |t| ==> t[k] == trace[k - 1];
    forall i, j | 0 <= i < j < |t|
      ensures Rank(t[j]) < Rank(t[i])
    {
      if i > 0 {
        assert Rank(trace[j - 1]) < Rank(trace[i - 1]);
      } else if j > 1 {
        assert Rank(trace[j - 1]) < Rank(trace[0]);
      }
    }
  }

  /** The graph interpreter: run node `n` and follow the edges until END. */
  function Exec(env: Env, retriever: Retriever, n: Node, s: State): (r: Result<Run, Fault>)
    ensures r.Ok? ==> r.value.final.question == s.question
    ensures r.Ok? ==> IsWalk(r.value.trace)
    ensures r.Ok? ==> (n == End <==> r.value.trace == [])
    ensures r.Ok? && n != End ==> r.value.trace[0] == n
    ensures r.Ok? ==> RanksFall(r.value.trace)
    decreases Rank(n)
  {
    if n == End then Ok(Run(s, []))
    else
      match Step(env, retriever, n, s)
      case Err(f) => Err(f)
      case Ok(s') =>
        match Exec(env, retriever, Next(n, s'), s')
        case Err(f) => Err(f)
        case Ok(run) =>
          WalkCons(n, Next(n, s'), run.trace);
          Ok(Run(run.final, [n] + run.trace))
  }

  /** `agent.invoke({"question": question})`: the final state, or the exception that escaped. */
  function Invoke(env: Env, agent: Agent, question: string): Result<State, Fault> {
    match Exec(env, agent.retriever, Retrieve, Initial(question))
    case Ok(run) => Ok(run.final)
    case Err(f) => Err(f)
  }
}
