/** The Synapse parser: an object with a cursor, whose methods read what the productions say. */
module SynapseParser {
  import opened Options
  import opened Strings
  import opened SynapseTokens
  import opened SynapseLexer
  import opened SynapseGrammar

  /** A method's answer is the production's: `ok` is false where the original throws. */
  predicate Agrees<T(==)>(ok: bool, value: T, rest: seq<Tok>, r: Result<T>) {
    if ok then r == Ok(value, rest) else r.Err?
  }

  /** A production that starts with a keyword. */
  function Led<T>(ts: seq<Tok>, word: string, r: Result<T>): Result<T> {
    if CheckKeyword(ts, word) then r else Err
  }

  class Parser {
    const tokens: seq<Token>
    var pos: nat

    ghost predicate Valid()
      reads `pos
    {
      pos <= |tokens|
    }

    /** What is still to be read. */
    ghost function Rest(): seq<Tok>
      reads `pos
      requires Valid()
    {
      Toks(tokens)[pos..]
    }

    constructor (tokens: seq<Token>)
      ensures Valid() && this.tokens == tokens && Rest() == Toks(tokens)
    {
      this.tokens := tokens;
      pos := 0;
    }

    function Now(): (t: Tok)
      reads `pos
      requires Valid()
      ensures t == Current(Rest())
    {
      if pos < |tokens| then tokens[pos].tok else EOF
    }

    method Advance()
      requires Valid()
      modifies `pos
      ensures Valid() && Rest() == Advanced(old(Rest()))
    {
      if pos < |tokens| {
        pos := pos + 1;
      }
    }

    method SkipNewlines()
      requires Valid()
      modifies `pos
      ensures Valid() && Rest() == SkipNewlineToks(old(Rest()))
    {
      hide Rest;
      while Now().kind == Newline
        invariant Valid() && SkipNewlineToks(Rest()) == SkipNewlineToks(old(Rest()))
        decreases |Rest()|
      {
        Advance();
      }
    }

    method ExpectToken(kind: TokenType) returns (ok: bool, value: string)
      requires Valid()
      modifies `pos
      ensures Valid() && Agrees(ok, value, Rest(), Expect(old(Rest()), kind))
    {
      hide Rest;
      ok, value := Now().kind == kind, Now().value;
      if ok {
        Advance();
      }
    }

    method ExpectKeyword(word: string) returns (ok: bool)
      requires Valid()
      modifies `pos
      ensures Valid() && ok == CheckKeyword(old(Rest()), word)
      ensures ok ==> Rest() == Advanced(old(Rest()))
    {
      hide Rest;
      ok := Now().kind == Keyword && Now().value == word;
      if ok {
        Advance();
      }
    }

    method ExpectWord() returns (ok: bool, value: string)
      requires Valid()
      modifies `pos
      ensures Valid() && Agrees(ok, value, Rest(), ExpectIdentifier(old(Rest())))
    {
      hide Rest;
      ok, value := IsWordTok(Now()), Now().value;
      if ok {
        Advance();
      }
    }

    method ExpectHeader() returns (ok: bool, id: string)
      requires Valid()
      modifies `pos
      ensures Valid() && Agrees(ok, id, Rest(), Header(old(Rest())))
    {
      hide Rest, SkipNewlineToks;
      ok, id := ExpectWord();
      if !ok {
        return;
      }
      var brace;
      ok, brace := ExpectToken(BlockStart);
      if ok {
        SkipNewlines();
      }
    }

    method ExpectBrace() returns (ok: bool)
      requires Valid()
      modifies `pos
      ensures Valid() && Agrees(ok, (), Rest(), OpenBrace((), old(Rest())))
    {
      hide Rest, SkipNewlineToks;
      var brace;
      ok, brace := ExpectToken(BlockStart);
      if ok {
        SkipNewlines();
      }
    }

    method ParseList() returns (ok: bool, items: seq<string>)
      requires Valid()
      modifies `pos
      ensures Valid() && Agrees(ok, items, Rest(), ListOf(old(Rest())))
    {
      hide Rest, SkipNewlineToks, ListRest;
      var token;
      items := [];
      ok, token := ExpectToken(ListStart);
      if !ok {
        return;
      }
      ghost var whole := ListRest(Rest(), []);
      while Now().kind != ListEnd && Now().kind != Eof
        invariant Valid() && ListRest(Rest(), items) == whole
        decreases |Rest()|
      {
        ListRestUnfolds(Rest(), items);
        SkipNewlines();
        ListRestUnfolds(Rest(), items);
        if Now().kind == ListEnd {
          break;
        }
        if !IsItem(Now()) {
          return false, items;
        }
        items := items + [Now().value];
        Advance();
        if Now().kind == Comma {
          Advance();
        }
        SkipNewlines();
      }
      ListRestUnfolds(Rest(), items);
      ok, token := ExpectToken(ListEnd);
    }

    method ParsePromptBlock() returns (ok: bool, prompt: string)
      requires Valid()
      modifies `pos
      ensures Valid() && Agrees(ok, prompt, Rest(), Led(old(Rest()), "prompt", PromptOf(Advanced(old(Rest())))))
    {
      hide Rest, PromptParts, Normalised;
      prompt := "";
      ok := ExpectKeyword("prompt");
      if !ok {
        return;
      }
      if Now().kind == MultilineString {
        prompt := Now().value;
        Advance();
        return;
      }
      var token;
      ok, token := ExpectToken(BlockStart);
      if !ok {
        return;
      }
      var raw := CollectPrompt();
      prompt := Normalised(raw);
    }

    /** The loop of `ParsePromptBlock` over the tokens of the prompt. */
    method CollectPrompt() returns (raw: string)
      requires Valid()
      modifies `pos
      ensures Valid() && (raw, Rest()) == PromptParts(old(Rest()), 1, "")
    {
      hide Rest;
      var depth := 1;
      raw := "";
      ghost var whole := PromptParts(Rest(), 1, "");
      while Now().kind != Eof && depth > 0
        invariant Valid() && 1 <= depth && PromptParts(Rest(), depth, raw) == whole
        decreases |Rest()|
      {
        var t := Now();
        if t.kind == BlockStart {
          depth := depth + 1;
          raw := raw + "{";
          Advance();
        } else if t.kind == BlockEnd {
          depth := depth - 1;
          if depth == 0 {
            Advance();
            break;
          }
          raw := raw + "}";
          Advance();
        } else if t.kind == Newline {
          raw := raw + "\n";
          Advance();
        } else {
          Advance();
          raw := raw + t.value + (if Now().kind != Newline && Now().kind != BlockEnd then " " else "");
        }
      }
    }

    // ---- Agents ----

    method ParseAgent() returns (ok: bool, node: Agent)
      requires Valid()
      modifies `pos
      ensures Valid() && Agrees(ok, node, Rest(), Led(old(Rest()), "agent", AgentOf(Advanced(old(Rest())))))
    {
      hide Rest, SkipNewlineToks, Block, Item, Header, AgentItem;
      node := NewAgent("");
      ok := ExpectKeyword("agent");
      if !ok {
        return;
      }
      var id, token;
      ok, id := ExpectHeader();
      if !ok {
        return;
      }
      node := NewAgent(id);
      ghost var whole := Block(Rest(), InAgent(node));
      while Now().kind != BlockEnd && Now().kind != Eof
        invariant Valid() && Block(Rest(), InAgent(node)) == whole
        decreases |Rest()|
      {
        BlockUnfolds(Rest(), InAgent(node));
        SkipNewlines();
        BlockUnfolds(Rest(), InAgent(node));
        if Now().kind == BlockEnd {
          break;
        }
        ItemOfAgent(Rest(), node);
        ok, node := ReadAgentItem(node);
        if !ok {
          return;
        }
        SkipNewlines();
      }
      BlockUnfolds(Rest(), InAgent(node));
      ok, token := ExpectToken(BlockEnd);
    }

    /** One pass of the loop of `ParseAgent`. */
    method ReadAgentItem(a: Agent) returns (ok: bool, node: Agent)
      requires Valid()
      modifies `pos
      ensures Valid() && Agrees(ok, InAgent(node), Rest(), AgentItem(old(Rest()), a))
    {
      hide Rest, PromptOf, ListOf, HandlerOf, SetProperty;
      node := a;
      if Now() == Tok(Keyword, "prompt") {
        var prompt;
        ok, prompt := ParsePromptBlock();
        node := node.(prompt := Some(prompt));
      } else if Now() == Tok(Keyword, "tools") {
        Advance();
        var tools;
        ok, tools := ParseList();
        node := node.(tools := Some(tools));
      } else if Now() == Tok(Keyword, "when") {
        var handler;
        ok, handler := ParseHandler();
        node := node.(handlers := node.handlers + [handler]);
      } else if Now().kind == Keyword {
        var key := Now().value;
        Advance();
        if Now().kind == ListStart {
          var items;
          ok, items := ParseList();
          node := node.(properties := SetProperty(node.properties, key, Items(items)));
        } else if IsItem(Now()) {
          ok := true;
          node := node.(properties := SetProperty(node.properties, key, Text(Now().value)));
          Advance();
        } else {
          ok := false;
        }
      } else {
        ok := false;
      }
    }

    method ParseHandler() returns (ok: bool, handler: Handler)
      requires Valid()
      modifies `pos
      ensures Valid() && Agrees(ok, handler, Rest(), Led(old(Rest()), "when", HandlerOf(Advanced(old(Rest())))))
    {
      hide Rest, SkipNewlineToks, Block, Item, HandlerItem, ConditionOf, Trim, OpenBrace;
      handler := Handler("", []);
      ok := ExpectKeyword("when");
      if !ok {
        return;
      }
      ghost var ts := Rest();
      var condition := ReadCondition();
      if condition == "" {
        return false, handler;
      }
      ok := ExpectBrace();
      if !ok {
        return;
      }
      handler := Handler(Trim(condition), []);
      ghost var whole := Block(Rest(), InHandler(handler));
      while Now().kind != BlockEnd && Now().kind != Eof
        invariant Valid() && Block(Rest(), InHandler(handler)) == whole
        decreases |Rest()|
      {
        BlockUnfolds(Rest(), InHandler(handler));
        SkipNewlines();
        BlockUnfolds(Rest(), InHandler(handler));
        if Now().kind == BlockEnd {
          break;
        }
        ItemOfHandler(Rest(), handler);
        ok, handler := ReadHandlerItem(handler);
        if !ok {
          return;
        }
        SkipNewlines();
      }
      BlockUnfolds(Rest(), InHandler(handler));
      var token;
      ok, token := ExpectToken(BlockEnd);
    }

    method ReadCondition() returns (condition: string)
      requires Valid()
      modifies `pos
      ensures Valid() && (condition, Rest()) == ConditionOf(old(Rest()), "")
    {
      hide Rest;
      condition := "";
      while Now().kind != BlockStart && Now().kind != Eof
        invariant Valid() && ConditionOf(Rest(), condition) == ConditionOf(old(Rest()), "")
        decreases |Rest()|
      {
        if Now().kind == Newline {
          break;
        }
        if condition != "" {
          condition := condition + " ";
        }
        condition := condition + Now().value;
        Advance();
      }
    }

    /** One pass of the loop of `ParseHandler`. */
    method ReadHandlerItem(h: Handler) returns (ok: bool, handler: Handler)
      requires Valid()
      modifies `pos
      ensures Valid() && Agrees(ok, InHandler(handler), Rest(), HandlerItem(old(Rest()), h))
    {
      hide Rest;
      handler := h;
      if Now() == Tok(Keyword, "request") || Now() == Tok(Keyword, "notify") {
        var isRequest := Now().value == "request";
        Advance();
        var target;
        ok, target := ExpectWord();
        handler := AddAction(handler, if isRequest then Request(target) else Notify(target));
      } else if Now() == Tok(Keyword, "include") {
        Advance();
        handler := AddAction(handler, Include(Now().value));
        Advance();
        ok := true;
      } else if Now() == Tok(Identifier, "escalate") {
        Advance();
        handler := AddAction(handler, Escalate);
        ok := true;
      } else {
        ok := false;
      }
    }

    // ---- Workflows ----

    method ParseWorkflow() returns (ok: bool, node: Workflow)
      requires Valid()
      modifies `pos
      ensures Valid() && Agrees(ok, node, Rest(), Led(old(Rest()), "workflow", WorkflowOf(Advanced(old(Rest())))))
    {
      hide Rest, SkipNewlineToks, Block, Item, Header, WorkflowItem, StepOf;
      node := Workflow("", None, []);
      ok := ExpectKeyword("workflow");
      if !ok {
        return;
      }
      var id, token;
      ok, id := ExpectHeader();
      if !ok {
        return;
      }
      node := Workflow(id, None, []);
      ghost var whole := Block(Rest(), InWorkflow(node));
      while Now().kind != BlockEnd && Now().kind != Eof
        invariant Valid() && Block(Rest(), InWorkflow(node)) == whole
        decreases |Rest()|
      {
        BlockUnfolds(Rest(), InWorkflow(node));
        SkipNewlines();
        BlockUnfolds(Rest(), InWorkflow(node));
        if Now().kind == BlockEnd {
          break;
        }
        ItemOfWorkflow(Rest(), node);
        ok, node := ReadWorkflowItem(node);
        if !ok {
          return;
        }
        SkipNewlines();
      }
      BlockUnfolds(Rest(), InWorkflow(node));
      ok, token := ExpectToken(BlockEnd);
    }

    /** One pass of the loop of `ParseWorkflow`. */
    method ReadWorkflowItem(w: Workflow) returns (ok: bool, node: Workflow)
      requires Valid()
      modifies `pos
      ensures Valid() && Agrees(ok, InWorkflow(node), Rest(), WorkflowItem(old(Rest()), w))
    {
      hide Rest, StepOf;
      node := w;
      if Now() == Tok(Keyword, "trigger") {
        Advance();
        var trigger;
        ok, trigger := ExpectToken(StringToken);
        node := node.(trigger := Some(trigger));
      } else if Now() == Tok(Keyword, "step") {
        var step;
        ok, step := ParseStep();
        node := node.(steps := node.steps + [step]);
      } else {
        ok := false;
      }
    }

    method ParseStep() returns (ok: bool, step: WorkflowStep)
      requires Valid()
      modifies `pos
      ensures Valid() && Agrees(ok, step, Rest(), Led(old(Rest()), "step", StepOf(Advanced(old(Rest())))))
    {
      hide Rest, SkipNewlineToks, Block, Item, Header, StepItem;
      step := NewStep("");
      ok := ExpectKeyword("step");
      if !ok {
        return;
      }
      var id, token;
      ok, id := ExpectHeader();
      if !ok {
        return;
      }
      step := NewStep(id);
      ghost var whole := Block(Rest(), InStep(step));
      while Now().kind != BlockEnd && Now().kind != Eof
        invariant Valid() && Block(Rest(), InStep(step)) == whole
        decreases |Rest()|
      {
        BlockUnfolds(Rest(), InStep(step));
        SkipNewlines();
        BlockUnfolds(Rest(), InStep(step));
        if Now().kind == BlockEnd {
          break;
        }
        ItemOfStep(Rest(), step);
        ok, step := ReadStepItem(step);
        if !ok {
          return;
        }
        SkipNewlines();
      }
      BlockUnfolds(Rest(), InStep(step));
      ok, token := ExpectToken(BlockEnd);
    }

    /** One pass of the loop of `ParseStep`. */
    method ReadStepItem(s: WorkflowStep) returns (ok: bool, step: WorkflowStep)
      requires Valid()
      modifies `pos
      ensures Valid() && Agrees(ok, InStep(step), Rest(), StepItem(old(Rest()), s))
    {
      hide Rest, OnFailOf;
      step := s;
      if Now().kind != Keyword {
        return false, step;
      }
      var value;
      match Now().value {
        case "agent" =>
          Advance();
          ok, value := ExpectWord();
          step := step.(agent := value);
        case "action" =>
          Advance();
          ok, value := ExpectToken(StringToken);
          step := step.(action := value);
        case "requires" =>
          Advance();
          ok, value := ExpectWord();
          step := step.(needs := Some(value));
        case "on-fail" =>
          Advance();
          ok, value := ExpectWord();
          if ok && OnFailOf(value).None? {
            ok := false;
          }
          step := step.(onFail := OnFailOf(value));
        case _ =>
          ok := false;
      }
    }

    // ---- Pipelines ----

    method ParsePipeline() returns (ok: bool, node: Pipeline)
      requires Valid()
      modifies `pos
      ensures Valid() && Agrees(ok, node, Rest(), Led(old(Rest()), "pipeline", PipelineOf(Advanced(old(Rest())))))
    {
      hide Rest, SkipNewlineToks, Block, Item, Header, StageOf;
      node := Pipeline("", []);
      ok := ExpectKeyword("pipeline");
      if !ok {
        return;
      }
      var id, token;
      ok, id := ExpectHeader();
      if !ok {
        return;
      }
      node := Pipeline(id, []);
      ghost var whole := Block(Rest(), InPipeline(node));
      while Now().kind != BlockEnd && Now().kind != Eof
        invariant Valid() && Block(Rest(), InPipeline(node)) == whole
        decreases |Rest()|
      {
        BlockUnfolds(Rest(), InPipeline(node));
        SkipNewlines();
        BlockUnfolds(Rest(), InPipeline(node));
        if Now().kind == BlockEnd {
          break;
        }
        ItemOfPipeline(Rest(), node);
        if Now() == Tok(Keyword, "parallel") || Now() == Tok(Keyword, "then") {
          var stage;
          ok, stage := ParsePipelineStage(if Now().value == "parallel" then Parallel else Then);
          if !ok {
            return;
          }
          node := node.(stages := node.stages + [stage]);
        } else {
          return false, node;
        }
        SkipNewlines();
      }
      BlockUnfolds(Rest(), InPipeline(node));
      ok, token := ExpectToken(BlockEnd);
    }

    method ParsePipelineStage(kind: StageKind) returns (ok: bool, stage: Stage)
      requires Valid()
      modifies `pos
      ensures Valid() && Agrees(ok, stage, Rest(), StageOf(Advanced(old(Rest())), kind))
    {
      hide Rest, SkipNewlineToks, Block, Item, StageItem, OpenBrace;
      stage := Stage(kind, []);
      Advance();
      ok := ExpectBrace();
      if !ok {
        return;
      }
      ghost var whole := Block(Rest(), InStage(stage));
      while Now().kind != BlockEnd && Now().kind != Eof
        invariant Valid() && Block(Rest(), InStage(stage)) == whole
        decreases |Rest()|
      {
        BlockUnfolds(Rest(), InStage(stage));
        SkipNewlines();
        BlockUnfolds(Rest(), InStage(stage));
        if Now().kind == BlockEnd {
          break;
        }
        ItemOfStage(Rest(), stage);
        ok, stage := ReadStageItem(stage);
        if !ok {
          return;
        }
        SkipNewlines();
      }
      BlockUnfolds(Rest(), InStage(stage));
      var token;
      ok, token := ExpectToken(BlockEnd);
    }

    /** One pass of the loop of `ParsePipelineStage`. */
    method ReadStageItem(s: Stage) returns (ok: bool, stage: Stage)
      requires Valid()
      modifies `pos
      ensures Valid() && Agrees(ok, InStage(stage), Rest(), StageItem(old(Rest()), s))
    {
      hide Rest;
      stage := s;
      ok := ExpectKeyword("agent");
      if !ok {
        return;
      }
      var agent, token, action;
      ok, agent := ExpectWord();
      if !ok {
        return;
      }
      ok, token := ExpectToken(Arrow);
      if !ok {
        return;
      }
      ok, action := ExpectToken(StringToken);
      stage := stage.(tasks := stage.tasks + [StageTask(agent, action)]);
    }

    // ---- Programs ----

    /** The whole program: `ok` is false where the original throws. */
    method ParseProgram() returns (ok: bool, nodes: seq<Node>)
      requires Valid()
      modifies `pos
      ensures Valid() && (if ok then Some(nodes) else None) == Parse(old(Rest()))
    {
      hide Rest, SkipNewlineToks, ProgramRest, NodeOf;
      nodes := [];
      SkipNewlines();
      ProgramRestUnfolds(old(Rest()), []);
      ProgramRestUnfolds(Rest(), []);
      while Now().kind != Eof
        invariant Valid() && ProgramRest(Rest(), nodes) == Parse(old(Rest()))
        decreases |Rest()|
      {
        ProgramRestUnfolds(Rest(), nodes);
        if Now().kind == Newline {
          NewlineProgram(Rest(), nodes);
          Advance();
          continue;
        }
        var node;
        ok, node := ParseNode();
        if !ok {
          return;
        }
        nodes := nodes + [node];
        ghost var rest := Rest();
        SkipNewlines();
        ProgramRestUnfolds(rest, nodes);
        ProgramRestUnfolds(Rest(), nodes);
      }
      ProgramRestUnfolds(Rest(), nodes);
      ok := true;
    }

    /** A top-level node. */
    method ParseNode() returns (ok: bool, node: Node)
      requires Valid()
      modifies `pos
      ensures Valid() && Agrees(ok, node, Rest(), NodeOf(old(Rest())))
    {
      hide Rest, AgentOf, WorkflowOf, PipelineOf;
      node := AgentNode(NewAgent(""));
      ok := false;
      if Now() == Tok(Keyword, "agent") {
        var agent;
        ok, agent := ParseAgent();
        node := AgentNode(agent);
      } else if Now() == Tok(Keyword, "workflow") {
        var workflow;
        ok, workflow := ParseWorkflow();
        node := WorkflowNode(workflow);
      } else if Now() == Tok(Keyword, "pipeline") {
        var pipeline;
        ok, pipeline := ParsePipeline();
        node := PipelineNode(pipeline);
      }
    }
  }

  // ---- Unfolding the productions ----

  lemma SkipNewlineToksTwice(ts: seq<Tok>)
    ensures SkipNewlineToks(SkipNewlineToks(ts)) == SkipNewlineToks(ts)
    ensures !Check(SkipNewlineToks(ts), Newline)
  {
  }

  lemma {:induction false} ListRestUnfolds(ts: seq<Tok>, items: seq<string>)
    ensures ListRest(SkipNewlineToks(ts), items) == ListRest(ts, items)
    ensures !Check(ts, Newline) ==> ListRest(ts, items) == ListAt(ts, items)
    ensures !Check(SkipNewlineToks(ts), Newline)
  {
    hide ListAt;
    SkipNewlineToksTwice(ts);
  }

  lemma {:induction false} BlockUnfolds(ts: seq<Tok>, open: Open)
    ensures Block(SkipNewlineToks(ts), open) == Block(ts, open)
    ensures !Check(ts, Newline) ==> Block(ts, open) == BlockAt(ts, open)
    ensures Check(ts, Eof) ==> Block(ts, open).Err?
    ensures !Check(SkipNewlineToks(ts), Newline)
  {
    hide Item;
    SkipNewlineToksTwice(ts);
    if Check(ts, Eof) {
      NoItemAtEnd(ts, open);
    }
  }

  lemma {:induction false} NoItemAtEnd(ts: seq<Tok>, open: Open)
    requires Check(ts, Eof)
    ensures Item(ts, open).Err?
  {
    hide Block;
  }

  lemma {:induction false} ItemOfAgent(ts: seq<Tok>, a: Agent)
    ensures Item(ts, InAgent(a)) == AgentItem(ts, a)
  {
    hide AgentItem;
  }

  lemma {:induction false} ItemOfHandler(ts: seq<Tok>, h: Handler)
    ensures Item(ts, InHandler(h)) == HandlerItem(ts, h)
  {
    hide HandlerItem;
  }

  lemma {:induction false} ItemOfWorkflow(ts: seq<Tok>, w: Workflow)
    ensures Item(ts, InWorkflow(w)) == WorkflowItem(ts, w)
  {
    hide WorkflowItem;
  }

  lemma {:induction false} ItemOfStep(ts: seq<Tok>, s: WorkflowStep)
    ensures Item(ts, InStep(s)) == StepItem(ts, s)
  {
    hide StepItem;
  }

  lemma {:induction false} ItemOfPipeline(ts: seq<Tok>, p: Pipeline)
    ensures Item(ts, InPipeline(p)) == PipelineItem(ts, p)
  {
    hide PipelineItem;
  }

  lemma {:induction false} ItemOfStage(ts: seq<Tok>, s: Stage)
    ensures Item(ts, InStage(s)) == StageItem(ts, s)
  {
    hide StageItem;
  }

  lemma {:induction false} ProgramRestUnfolds(ts: seq<Tok>, nodes: seq<Node>)
    ensures ProgramRest(SkipNewlineToks(ts), nodes) == ProgramRest(ts, nodes)
    ensures !Check(ts, Newline) ==> ProgramRest(ts, nodes) == ProgramAt(ts, nodes)
    ensures !Check(SkipNewlineToks(ts), Newline)
  {
    hide ProgramAt;
    SkipNewlineToksTwice(ts);
  }

  lemma {:induction false} NewlineProgram(ts: seq<Tok>, nodes: seq<Node>)
    requires Check(ts, Newline)
    ensures ProgramRest(Advanced(ts), nodes) == ProgramRest(ts, nodes)
  {
    hide NodeOf;
  }
}
