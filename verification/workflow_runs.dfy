/**
 * Whole invocations of the analysis workflow. `Pipeline` is an independent, straight-line
 * reading of the graph that `create_agent` wires; `ExecIsPipeline` shows that the graph
 * interpreter `Exec` computes exactly it, and the remaining lemmas read the possible runs
 * off that straight-line form.
 */
module WorkflowRuns {
  import opened Base
  import opened Text
  import opened Json
  import opened Documents
  import opened Workflow

  /** The nodes a run visits after route_to_table, given the two later routing outcomes. */
  function TailTrace(tabled: bool, drawn: bool): seq<Node> {
    (if tabled then [FormatTable] else []) + [RouteToGraph] + (if drawn then [FormatGraph] else [])
  }

  /** The nodes a run visits, given the three routing outcomes. */
  function ExpectedTrace(relevant: bool, tabled: bool, drawn: bool): seq<Node> {
    if relevant then [Retrieve, GradeDocuments, Generate, RouteToTable] + TailTrace(tabled, drawn)
    else [Retrieve, GradeDocuments]
  }

  /** The five node sequences an invocation can follow. */
  function PossibleTraces(): set<seq<Node>> {
    { ExpectedTrace(false, false, false),
      ExpectedTrace(true, false, false), ExpectedTrace(true, true, false),
      ExpectedTrace(true, false, true), ExpectedTrace(true, true, true) }
  }

  /** The reply the LLM gave to query `q` in a run that went on past the call. */
  function Reply(env: Env, q: Query): string
    requires env.ask(q).Ok?
  {
    env.ask(q).value
  }

  /** route_to_graph, then format_graph when the classifier says so. */
  function GraphPart(env: Env, rt: Retriever, s: State): Result<Run, Fault> {
    var s1 :- Step(env, rt, RouteToGraph, s);
    if s1.graphDecision == Some(FormatGraphNext) then
      var s2 :- Step(env, rt, FormatGraph, s1);
      Ok(Run(s2, [RouteToGraph, FormatGraph]))
    else
      Ok(Run(s1, [RouteToGraph]))
  }

  /** format_table, then the graph part. */
  function FormatTablePart(env: Env, rt: Retriever, s: State): Result<Run, Fault> {
    var s1 :- Step(env, rt, FormatTable, s);
    var rest :- GraphPart(env, rt, s1);
    Ok(Run(rest.final, [FormatTable] + rest.trace))
  }

  /** route_to_table, then format_table when the classifier says so, then the graph part. */
  function TablePart(env: Env, rt: Retriever, s: State): Result<Run, Fault> {
    var s1 :- Step(env, rt, RouteToTable, s);
    var rest :- if s1.tableDecision == Some(FormatTableNext) then FormatTablePart(env, rt, s1) else GraphPart(env, rt, s1);
    Ok(Run(rest.final, [RouteToTable] + rest.trace))
  }

  /** generate, then the table part. */
  function AnswerPart(env: Env, rt: Retriever, s: State): Result<Run, Fault> {
    var s1 :- Step(env, rt, Generate, s);
    var rest :- TablePart(env, rt, s1);
    Ok(Run(rest.final, [Generate] + rest.trace))
  }

  /** grade_documents, then the answer part only when the documents were judged relevant. */
  function GradePart(env: Env, rt: Retriever, s: State): Result<Run, Fault> {
    var s1 :- Step(env, rt, GradeDocuments, s);
    if s1.decision == Some(Continue) then
      var rest :- AnswerPart(env, rt, s1);
      Ok(Run(rest.final, [GradeDocuments] + rest.trace))
    else
      Ok(Run(s1, [GradeDocuments]))
  }

  /** retrieve, then the grading part: the whole invocation read as straight-line code. */
  function Pipeline(env: Env, rt: Retriever, question: string): Result<Run, Fault> {
    var s1 :- Step(env, rt, Retrieve, Initial(question));
    var rest :- GradePart(env, rt, s1);
    Ok(Run(rest.final, [Retrieve] + rest.trace))
  }

  /** A run that starts with node `n` has `n` in front of the rest of its trace. */
  function Prepend(n: Node, r: Result<Run, Fault>): Result<Run, Fault> {
    match r
    case Err(f) => Err(f)
    case Ok(run) => Ok(Run(run.final, [n] + run.trace))
  }

  /** One unfolding of the interpreter. */
  lemma ExecUnfold(env: Env, rt: Retriever, n: Node, s: State)
    requires n != End
    ensures Step(env, rt, n, s).Err? ==> Exec(env, rt, n, s) == Err(Step(env, rt, n, s).error)
    ensures Step(env, rt, n, s).Ok? ==>
              Exec(env, rt, n, s) == Prepend(n, Exec(env, rt, Next(n, Step(env, rt, n, s).value), Step(env, rt, n, s).value))
  {
  }

  lemma ExecGraphPart(env: Env, rt: Retriever, s: State)
    ensures Exec(env, rt, RouteToGraph, s) == GraphPart(env, rt, s)
  {
    ExecUnfold(env, rt, RouteToGraph, s);
    var r := Step(env, rt, RouteToGraph, s);
    if r.Ok? {
      var s1 := r.value;
      if s1.graphDecision == Some(FormatGraphNext) {
        assert Next(RouteToGraph, s1) == FormatGraph;
        ExecUnfold(env, rt, FormatGraph, s1);
        var r2 := Step(env, rt, FormatGraph, s1);
        if r2.Ok? {
          assert Next(FormatGraph, r2.value) == End;
          assert Exec(env, rt, End, r2.value) == Ok(Run(r2.value, []));
          assert [RouteToGraph] + ([FormatGraph] + []) == [RouteToGraph, FormatGraph];
        }
      } else {
        assert Next(RouteToGraph, s1) == End;
        assert Exec(env, rt, End, s1) == Ok(Run(s1, []));
        assert [RouteToGraph] + [] == [RouteToGraph];
      }
    }
  }

  lemma ExecFormatTablePart(env: Env, rt: Retriever, s: State)
    ensures Exec(env, rt, FormatTable, s) == FormatTablePart(env, rt, s)
  {
    ExecUnfold(env, rt, FormatTable, s);
    var r := Step(env, rt, FormatTable, s);
    if r.Ok? {
      assert Next(FormatTable, r.value) == RouteToGraph;
      ExecGraphPart(env, rt, r.value);
    }
  }

  lemma ExecTablePart(env: Env, rt: Retriever, s: State)
    ensures Exec(env, rt, RouteToTable, s) == TablePart(env, rt, s)
  {
    ExecUnfold(env, rt, RouteToTable, s);
    var r := Step(env, rt, RouteToTable, s);
    if r.Ok? {
      if r.value.tableDecision == Some(FormatTableNext) {
        assert Next(RouteToTable, r.value) == FormatTable;
        ExecFormatTablePart(env, rt, r.value);
      } else {
        assert Next(RouteToTable, r.value) == RouteToGraph;
        ExecGraphPart(env, rt, r.value);
      }
    }
  }

  lemma ExecAnswerPart(env: Env, rt: Retriever, s: State)
    ensures Exec(env, rt, Generate, s) == AnswerPart(env, rt, s)
  {
    ExecUnfold(env, rt, Generate, s);
    var r := Step(env, rt, Generate, s);
    if r.Ok? {
      assert Next(Generate, r.value) == RouteToTable;
      ExecTablePart(env, rt, r.value);
    }
  }

  lemma ExecGradePart(env: Env, rt: Retriever, s: State)
    ensures Exec(env, rt, GradeDocuments, s) == GradePart(env, rt, s)
  {
    ExecUnfold(env, rt, GradeDocuments, s);
    var r := Step(env, rt, GradeDocuments, s);
    if r.Ok? {
      if r.value.decision == Some(Continue) {
        assert Next(GradeDocuments, r.value) == Generate;
        ExecAnswerPart(env, rt, r.value);
      } else {
        assert Next(GradeDocuments, r.value) == End;
        assert Exec(env, rt, End, r.value) == Ok(Run(r.value, []));
        assert [GradeDocuments] + [] == [GradeDocuments];
      }
    }
  }

  /** The graph interpreter, started at the entry point, runs exactly the straight-line pipeline. */
  lemma ExecIsPipeline(env: Env, rt: Retriever, question: string)
    ensures Exec(env, rt, Retrieve, Initial(question)) == Pipeline(env, rt, question)
  {
    ExecUnfold(env, rt, Retrieve, Initial(question));
    var r := Step(env, rt, Retrieve, Initial(question));
    if r.Ok? {
      assert Next(Retrieve, r.value) == GradeDocuments;
      ExecGradePart(env, rt, r.value);
    }
  }

  /**
   * The table fields of `t` are what route_to_table and format_table make of the LLM's
   * replies for `answer`; `before` is the table held before route_to_table ran.
   */
  ghost predicate TableOutcome(env: Env, question: string, answer: string, before: Option<Table>, t: State) {
    var tabled := t.tableDecision == Some(FormatTableNext);
    && env.ask(TableRouteQuery(question, answer)).Ok?
    && t.tableDecision.Some?
    && (tabled <==> Affirmative(Reply(env, TableRouteQuery(question, answer))))
    && (tabled ==> env.ask(TableFormatQuery(answer)).Ok?
                   && t.table == TableFromJson(env.parse(Reply(env, TableFormatQuery(answer)))))
    && (!tabled ==> t.table == before)
  }

  /** The graph fields of `t` are what route_to_graph and format_graph make of the LLM's replies. */
  ghost predicate GraphOutcome(env: Env, question: string, answer: string, before: Option<Figure>, t: State) {
    var drawn := t.graphDecision == Some(FormatGraphNext);
    && env.ask(GraphRouteQuery(question, answer)).Ok?
    && t.graphDecision.Some?
    && (drawn <==> Affirmative(Reply(env, GraphRouteQuery(question, answer))))
    && (drawn ==> env.ask(GraphFormatQuery(question, answer)).Ok?
                  && t.graphFig == FigureFromJson(env.parse(Reply(env, GraphFormatQuery(question, answer)))))
    && (!drawn ==> t.graphFig == before)
  }

  /** Whether the final state routed to format_table and to format_graph. */
  predicate Tabled(t: State) { t.tableDecision == Some(FormatTableNext) }
  predicate Drawn(t: State) { t.graphDecision == Some(FormatGraphNext) }

  lemma GraphPartFacts(env: Env, rt: Retriever, s: State)
    ensures GraphPart(env, rt, s).Ok? ==>
              var run := GraphPart(env, rt, s).value;
              var t := run.final;
              && run.trace == [RouteToGraph] + (if Drawn(t) then [FormatGraph] else [])
              && t.question == s.question && t.documents == s.documents && t.answer == s.answer
              && t.table == s.table && t.decision == s.decision && t.tableDecision == s.tableDecision
              && s.answer.Some? && GraphOutcome(env, s.question, s.answer.value, s.graphFig, t)
  {
    var r := Step(env, rt, RouteToGraph, s);
    if r.Ok? && r.value.graphDecision == Some(FormatGraphNext) {
      var r2 := Step(env, rt, FormatGraph, r.value);
      if r2.Ok? {
        assert r2.value.graphDecision == r.value.graphDecision;
      }
    }
  }

  lemma FormatTablePartFacts(env: Env, rt: Retriever, s: State)
    ensures FormatTablePart(env, rt, s).Ok? ==>
              var run := FormatTablePart(env, rt, s).value;
              var t := run.final;
              && run.trace == [FormatTable, RouteToGraph] + (if Drawn(t) then [FormatGraph] else [])
              && t.question == s.question && t.documents == s.documents && t.answer == s.answer
              && t.decision == s.decision && t.tableDecision == s.tableDecision
              && s.answer.Some? && env.ask(TableFormatQuery(s.answer.value)).Ok?
              && t.table == TableFromJson(env.parse(Reply(env, TableFormatQuery(s.answer.value))))
              && GraphOutcome(env, s.question, s.answer.value, s.graphFig, t)
  {
    var r := Step(env, rt, FormatTable, s);
    if r.Ok? {
      GraphPartFacts(env, rt, r.value);
      var g := GraphPart(env, rt, r.value);
      if g.Ok? {
        ConcatAssoc([FormatTable], [RouteToGraph], if Drawn(g.value.final) then [FormatGraph] else []);
      }
    }
  }

  lemma TablePartFacts(env: Env, rt: Retriever, s: State)
    ensures TablePart(env, rt, s).Ok? ==>
              var run := TablePart(env, rt, s).value;
              var t := run.final;
              && run.trace == [RouteToTable] + TailTrace(Tabled(t), Drawn(t))
              && t.question == s.question && t.documents == s.documents && t.answer == s.answer
              && t.decision == s.decision
              && s.answer.Some?
              && TableOutcome(env, s.question, s.answer.value, s.table, t)
              && GraphOutcome(env, s.question, s.answer.value, s.graphFig, t)
  {
    var r := Step(env, rt, RouteToTable, s);
    if r.Ok? {
      var s1 := r.value;
      if Tabled(s1) {
        FormatTablePartFacts(env, rt, s1);
        var f := FormatTablePart(env, rt, s1);
        if f.Ok? {
          assert TailTrace(true, Drawn(f.value.final)) == [FormatTable, RouteToGraph] + (if Drawn(f.value.final) then [FormatGraph] else []);
        }
      } else {
        GraphPartFacts(env, rt, s1);
        var g := GraphPart(env, rt, s1);
        if g.Ok? {
          assert TailTrace(false, Drawn(g.value.final)) == [RouteToGraph] + (if Drawn(g.value.final) then [FormatGraph] else []);
        }
      }
    }
  }

  lemma AnswerPartFacts(env: Env, rt: Retriever, s: State)
    ensures AnswerPart(env, rt, s).Ok? ==>
              var run := AnswerPart(env, rt, s).value;
              var t := run.final;
              && run.trace == [Generate, RouteToTable] + TailTrace(Tabled(t), Drawn(t))
              && t.question == s.question && t.documents == s.documents && t.decision == s.decision
              && s.documents.Some? && env.ask(GenerateQuery(PageText(s.documents.value), s.question)).Ok?
              && t.answer == Some(Reply(env, GenerateQuery(PageText(s.documents.value), s.question)))
              && TableOutcome(env, s.question, t.answer.value, s.table, t)
              && GraphOutcome(env, s.question, t.answer.value, s.graphFig, t)
  {
    var r := Step(env, rt, Generate, s);
    if r.Ok? {
      TablePartFacts(env, rt, r.value);
      var p := TablePart(env, rt, r.value);
      if p.Ok? {
        ConcatAssoc([Generate], [RouteToTable], TailTrace(Tabled(p.value.final), Drawn(p.value.final)));
      }
    }
  }

  lemma GradePartFacts(env: Env, rt: Retriever, s: State)
    ensures GradePart(env, rt, s).Ok? ==>
              var run := GradePart(env, rt, s).value;
              var t := run.final;
              var relevant := t.decision == Some(Continue);
              && t.question == s.question && t.documents == s.documents
              && s.documents.Some? && env.ask(GradeQuery(PageText(s.documents.value), s.question)).Ok?
              && (relevant <==> Affirmative(Reply(env, GradeQuery(PageText(s.documents.value), s.question))))
              && (relevant ==>
                    && run.trace == [GradeDocuments, Generate, RouteToTable] + TailTrace(Tabled(t), Drawn(t))
                    && env.ask(GenerateQuery(PageText(s.documents.value), s.question)).Ok?
                    && t.answer == Some(Reply(env, GenerateQuery(PageText(s.documents.value), s.question)))
                    && TableOutcome(env, s.question, t.answer.value, s.table, t)
                    && GraphOutcome(env, s.question, t.answer.value, s.graphFig, t))
              && (!relevant ==>
                    && run.trace == [GradeDocuments]
                    && t.answer == s.answer && t.table == s.table && t.tableDecision == s.tableDecision
                    && t.graphDecision == s.graphDecision && t.graphFig == s.graphFig)
  {
    GradePartTrace(env, rt, s);
    var r := Step(env, rt, GradeDocuments, s);
    if r.Ok? && r.value.decision == Some(Continue) {
      AnswerPartFacts(env, rt, r.value);
    }
  }

  lemma GradePartTrace(env: Env, rt: Retriever, s: State)
    ensures GradePart(env, rt, s).Ok? ==>
              var run := GradePart(env, rt, s).value;
              var t := run.final;
              run.trace == if t.decision == Some(Continue)
                           then [GradeDocuments, Generate, RouteToTable] + TailTrace(Tabled(t), Drawn(t))
                           else [GradeDocuments]
  {
    var r := Step(env, rt, GradeDocuments, s);
    if r.Ok? && r.value.decision == Some(Continue) {
      AnswerPartFacts(env, rt, r.value);
      var p := AnswerPart(env, rt, r.value);
      if p.Ok? {
        ConcatAssoc([GradeDocuments], [Generate, RouteToTable], TailTrace(Tabled(p.value.final), Drawn(p.value.final)));
      }
    }
  }

  /** The straight-line pipeline's trace is fixed by the three decisions it leaves behind. */
  lemma PipelineTrace(env: Env, rt: Retriever, question: string)
    ensures Pipeline(env, rt, question).Ok? ==>
              var run := Pipeline(env, rt, question).value;
              run.trace == ExpectedTrace(run.final.decision == Some(Continue), Tabled(run.final), Drawn(run.final))
  {
    var r := Step(env, rt, Retrieve, Initial(question));
    if r.Ok? {
      GradePartTrace(env, rt, r.value);
      var g := GradePart(env, rt, r.value);
      if g.Ok? {
        assert Pipeline(env, rt, question) == Ok(Run(g.value.final, [Retrieve] + g.value.trace));
        var t := g.value.final;
        RetrieveThenGrade(t.decision == Some(Continue), Tabled(t), Drawn(t), g.value.trace);
      }
    }
  }

  lemma RetrieveThenGrade(relevant: bool, tabled: bool, drawn: bool, rest: seq<Node>)
    requires rest == if relevant then [GradeDocuments, Generate, RouteToTable] + TailTrace(tabled, drawn) else [GradeDocuments]
    ensures [Retrieve] + rest == ExpectedTrace(relevant, tabled, drawn)
  {
    if relevant {
      ConcatAssoc([Retrieve], [GradeDocuments, Generate, RouteToTable], TailTrace(tabled, drawn));
    }
  }

  lemma ExpectedTracePossible(relevant: bool, tabled: bool, drawn: bool)
    ensures ExpectedTrace(relevant, tabled, drawn) in PossibleTraces()
  {
    if !relevant {
      assert ExpectedTrace(relevant, tabled, drawn) == ExpectedTrace(false, false, false);
    }
  }

  /** Every successful invocation follows one of the five traces, chosen by the three decisions it leaves behind. */
  lemma RunTrace(env: Env, rt: Retriever, question: string)
    ensures Exec(env, rt, Retrieve, Initial(question)).Ok? ==>
              var run := Exec(env, rt, Retrieve, Initial(question)).value;
              && run.trace == ExpectedTrace(run.final.decision == Some(Continue), Tabled(run.final), Drawn(run.final))
              && run.trace in PossibleTraces()
  {
    ExecIsPipeline(env, rt, question);
    PipelineTrace(env, rt, question);
    var r := Pipeline(env, rt, question);
    if r.Ok? {
      var t := r.value.final;
      ExpectedTracePossible(t.decision == Some(Continue), Tabled(t), Drawn(t));
    }
  }

  /**
   * The final state of a successful invocation, field by field: the retrieved documents,
   * the relevance verdict, and, only when the documents were judged relevant, the generated
   * answer and what the table and graph branches made of the replies about that answer.
   */
  lemma RunOutcome(env: Env, rt: Retriever, question: string)
    ensures Exec(env, rt, Retrieve, Initial(question)).Ok? ==>
              var t := Exec(env, rt, Retrieve, Initial(question)).value.final;
              var relevant := t.decision == Some(Continue);
              && t.question == question
              && env.search(rt, question).Ok? && t.documents == Some(env.search(rt, question).value)
              && env.ask(GradeQuery(PageText(t.documents.value), question)).Ok?
              && t.decision.Some?
              && (relevant <==> Affirmative(Reply(env, GradeQuery(PageText(t.documents.value), question))))
              && (relevant ==>
                    && env.ask(GenerateQuery(PageText(t.documents.value), question)).Ok?
                    && t.answer == Some(Reply(env, GenerateQuery(PageText(t.documents.value), question)))
                    && TableOutcome(env, question, t.answer.value, None, t)
                    && GraphOutcome(env, question, t.answer.value, None, t))
              && (!relevant ==>
                    && t.answer.None? && t.table.None? && t.graphFig.None?
                    && t.tableDecision.None? && t.graphDecision.None?)
  {
    ExecIsPipeline(env, rt, question);
    var r := Step(env, rt, Retrieve, Initial(question));
    if r.Ok? {
      GradePartFacts(env, rt, r.value);
    }
  }

  /** The letters y, e, s, in any case, start at position `i` of `reply`. */
  predicate YesAt(reply: string, i: int) {
    && 0 <= i && i + 3 <= |reply|
    && LowerChar(reply[i]) == 'y' && LowerChar(reply[i + 1]) == 'e' && LowerChar(reply[i + 2]) == 's'
  }

  lemma OccursYesAt(reply: string, i: int)
    ensures OccursAt(Lower(reply), "yes", i) <==> YesAt(reply, i)
  {
    var low := Lower(reply);
    if 0 <= i && i + 3 <= |reply| {
      var w := low[i..i + 3];
      assert w[0] == low[i] && w[1] == low[i + 1] && w[2] == low[i + 2];
      assert w == "yes" <==> (w[0] == 'y' && w[1] == 'e' && w[2] == 's');
    }
  }

  /** The three classifiers take their positive branch exactly when the reply contains "yes" in any letter case. */
  lemma AffirmativeIff(reply: string)
    ensures Affirmative(reply) <==> exists i :: YesAt(reply, i)
  {
    ContainsIff(Lower(reply), "yes");
    forall i
      ensures OccursAt(Lower(reply), "yes", i) <==> YesAt(reply, i)
    {
      OccursYesAt(reply, i);
    }
  }

  /** "Yes." and "eyes" route to the positive branch; "no" and the empty reply do not. */
  lemma AffirmativeExamples()
    ensures Affirmative("yes") && Affirmative("Yes.") && Affirmative("eyes")
    ensures !Affirmative("no") && !Affirmative("")
  {
    AffirmativeIff("yes");
    assert YesAt("yes", 0);
    AffirmativeIff("Yes.");
    AffirmativeIff("eyes");
    AffirmativeIff("no");
    AffirmativeIff("");
    assert YesAt("Yes.", 0);
    assert YesAt("eyes", 1);
  }

  /**
   * Started in a state holding what node `n` reads, the interpreter never hits a missing
   * key: every failure is the retriever's or an LLM call's, passed on unchanged.
   */
  lemma {:induction false} ExecFaults(env: Env, rt: Retriever, n: Node, s: State)
    requires Ready(n, s)
    ensures Exec(env, rt, n, s).Err? ==>
              match Exec(env, rt, n, s).error
              case RetrievalFailed(reason) => env.search(rt, s.question) == Err(reason)
              case OracleFailed(_, reason) => exists q :: env.ask(q) == Err(reason)
              case MissingField(_, _) => false
    decreases Rank(n)
  {
    if n != End {
      ExecUnfold(env, rt, n, s);
      var r := Step(env, rt, n, s);
      if r.Err? {
        if r.error.OracleFailed? {
          assert env.ask(QueryOf(n, s)) == Err(r.error.reason);
        }
      } else {
        var m := Next(n, r.value);
        assert Ready(m, r.value);
        ExecFaults(env, rt, m, r.value);
      }
    }
  }

  /** An invocation fails only when the retriever or an LLM call fails. */
  lemma InvokeFaults(env: Env, agent: Agent, question: string)
    ensures Invoke(env, agent, question).Err? ==>
              match Invoke(env, agent, question).error
              case RetrievalFailed(reason) => env.search(agent.retriever, question) == Err(reason)
              case OracleFailed(_, reason) => exists q :: env.ask(q) == Err(reason)
              case MissingField(_, _) => false
  {
    ExecFaults(env, agent.retriever, Retrieve, Initial(question));
  }

  /** The fields the routing and the prompts read; the two formatters' outputs are not among them. */
  predicate SameCore(s: State, t: State) {
    && s.question == t.question && s.documents == t.documents && s.answer == t.answer
    && s.decision == t.decision && s.tableDecision == t.tableDecision && s.graphDecision == t.graphDecision
  }

  lemma StepIgnoresParse(env: Env, parse: JsonLoads, rt: Retriever, n: Node, s: State, s2: State)
    requires n != End && SameCore(s, s2)
    ensures Step(env, rt, n, s).Ok? <==> Step(env.(parse := parse), rt, n, s2).Ok?
    ensures Step(env, rt, n, s).Ok? ==> SameCore(Step(env, rt, n, s).value, Step(env.(parse := parse), rt, n, s2).value)
    ensures Step(env, rt, n, s).Err? ==> Step(env, rt, n, s).error == Step(env.(parse := parse), rt, n, s2).error
  {
    if n != Retrieve && Ready(n, s) {
      assert QueryOf(n, s) == QueryOf(n, s2);
    }
  }

  /**
   * `json.loads` decides only the table and the figure: with any other parser, and whatever
   * table or figure the start state holds, the same invocation fails the same way or
   * succeeds along the same trace with the same answer and decisions.
   */
  lemma {:induction false} ExecIgnoresParse(env: Env, parse: JsonLoads, rt: Retriever, n: Node, s: State, s2: State)
    requires SameCore(s, s2)
    ensures Exec(env, rt, n, s).Ok? <==> Exec(env.(parse := parse), rt, n, s2).Ok?
    ensures Exec(env, rt, n, s).Ok? ==>
              && Exec(env, rt, n, s).value.trace == Exec(env.(parse := parse), rt, n, s2).value.trace
              && SameCore(Exec(env, rt, n, s).value.final, Exec(env.(parse := parse), rt, n, s2).value.final)
    ensures Exec(env, rt, n, s).Err? ==> Exec(env, rt, n, s).error == Exec(env.(parse := parse), rt, n, s2).error
    decreases Rank(n)
  {
    if n != End {
      var env2 := env.(parse := parse);
      ExecUnfold(env, rt, n, s);
      ExecUnfold(env2, rt, n, s2);
      StepIgnoresParse(env, parse, rt, n, s, s2);
      var r := Step(env, rt, n, s);
      var r2 := Step(env2, rt, n, s2);
      if r.Ok? {
        assert Next(n, r.value) == Next(n, r2.value);
        ExecIgnoresParse(env, parse, rt, Next(n, r.value), r.value, r2.value);
      }
    }
  }

  /** A classifier reply that is plainly "yes" or "no". */
  function Verdict(yes: bool): string {
    if yes then "yes" else "no"
  }

  /** An environment whose retriever finds nothing and whose LLM answers the three classifiers as told. */
  function Scripted(relevant: bool, tabled: bool, drawn: bool): Env {
    Env((rt: Retriever, q: string) => Ok([]),
        (q: Query) => Ok(match q
                         case GradeQuery(_, _) => Verdict(relevant)
                         case TableRouteQuery(_, _) => Verdict(tabled)
                         case GraphRouteQuery(_, _) => Verdict(drawn)
                         case _ => ""),
        (text: string) => Err(Malformed("Expecting value")))
  }

  /** An invocation whose calls all succeed follows the trace its three classifiers' replies choose. */
  lemma TraceFromReplies(env: Env, rt: Retriever, question: string, relevant: bool, tabled: bool, drawn: bool)
    requires env.search(rt, question).Ok?
    requires forall q :: env.ask(q).Ok?
    requires forall d :: Affirmative(Reply(env, GradeQuery(d, question))) == relevant
    requires forall a :: Affirmative(Reply(env, TableRouteQuery(question, a))) == tabled
    requires forall a :: Affirmative(Reply(env, GraphRouteQuery(question, a))) == drawn
    ensures Exec(env, rt, Retrieve, Initial(question)).Ok?
    ensures Exec(env, rt, Retrieve, Initial(question)).value.trace == ExpectedTrace(relevant, tabled, drawn)
  {
    ExecFaults(env, rt, Retrieve, Initial(question));
    RunTrace(env, rt, question);
    RunOutcome(env, rt, question);
  }

  /** Each of the five traces is the trace of some invocation, for any retriever and question. */
  lemma EveryTraceReachable(rt: Retriever, question: string, relevant: bool, tabled: bool, drawn: bool)
    ensures exists env :: Exec(env, rt, Retrieve, Initial(question)).Ok?
                          && Exec(env, rt, Retrieve, Initial(question)).value.trace == ExpectedTrace(relevant, tabled, drawn)
  {
    var env := Scripted(relevant, tabled, drawn);
    AffirmativeExamples();
    assert forall q :: env.ask(q).Ok?;
    assert forall d :: Reply(env, GradeQuery(d, question)) == Verdict(relevant);
    assert forall a :: Reply(env, TableRouteQuery(question, a)) == Verdict(tabled);
    assert forall a :: Reply(env, GraphRouteQuery(question, a)) == Verdict(drawn);
    TraceFromReplies(env, rt, question, relevant, tabled, drawn);
  }
}
