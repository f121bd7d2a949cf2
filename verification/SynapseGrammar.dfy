/** The Synapse grammar: the syntax tree, and what each production reads from a token stream. */
module SynapseGrammar {
  import opened Options
  import opened Strings
  import opened SynapseTokens
  import opened SynapseLexer

  // ---- The syntax tree ----

  datatype Value = Text(text: string) | Items(items: seq<string>)

  datatype Action = Request(target: string) | Notify(target: string) | Include(target: string) | Escalate

  datatype Handler = Handler(condition: string, actions: seq<Action>)

  /** `properties` keeps the order in which the keys were first set. */
  datatype Agent = Agent(
    id: string,
    properties: seq<(string, Value)>,
    prompt: Option<string>,
    tools: Option<seq<string>>,
    handlers: seq<Handler>
  )

  datatype OnFail = OnFailEscalate | OnFailSkip | OnFailRetry

  datatype WorkflowStep = WorkflowStep(
    id: string,
    agent: string,
    action: string,
    needs: Option<string>,
    onFail: Option<OnFail>
  )

  datatype Workflow = Workflow(id: string, trigger: Option<string>, steps: seq<WorkflowStep>)

  datatype StageKind = Parallel | Then

  datatype StageTask = StageTask(agent: string, action: string)

  datatype Stage = Stage(kind: StageKind, tasks: seq<StageTask>)

  datatype Pipeline = Pipeline(id: string, stages: seq<Stage>)

  datatype Node = AgentNode(agent: Agent) | WorkflowNode(workflow: Workflow) | PipelineNode(pipeline: Pipeline)

  /** A block whose body is being read. */
  datatype Open =
    | InAgent(agent: Agent)
    | InHandler(handler: Handler)
    | InWorkflow(workflow: Workflow)
    | InStep(step: WorkflowStep)
    | InPipeline(pipeline: Pipeline)
    | InStage(stage: Stage)

  predicate SameBlock(a: Open, b: Open) {
    match a
    case InAgent(_) => b.InAgent?
    case InHandler(_) => b.InHandler?
    case InWorkflow(_) => b.InWorkflow?
    case InStep(_) => b.InStep?
    case InPipeline(_) => b.InPipeline?
    case InStage(_) => b.InStage?
  }

  function NewAgent(id: string): Agent {
    Agent(id, [], None, None, [])
  }

  function NewStep(id: string): WorkflowStep {
    WorkflowStep(id, "", "", None, None)
  }

  /** Assigning to a key of an object: a key that is there keeps its place. */
  function SetProperty(properties: seq<(string, Value)>, key: string, value: Value): seq<(string, Value)> {
    if properties == [] then [(key, value)]
    else if properties[0].0 == key then [(key, value)] + properties[1..]
    else [properties[0]] + SetProperty(properties[1..], key, value)
  }

  // ---- Token navigation ----

  datatype Result<+T> = Err | Ok(value: T, rest: seq<Tok>)

  function Current(ts: seq<Tok>): Tok {
    if ts == [] then EOF else ts[0]
  }

  function Advanced(ts: seq<Tok>): seq<Tok> {
    if ts == [] then [] else ts[1..]
  }

  predicate Check(ts: seq<Tok>, kind: TokenType) {
    Current(ts).kind == kind
  }

  predicate CheckKeyword(ts: seq<Tok>, word: string) {
    Current(ts) == Tok(Keyword, word)
  }

  function SkipNewlineToks(ts: seq<Tok>): (r: seq<Tok>)
    ensures |r| <= |ts|
  {
    if Check(ts, Newline) then SkipNewlineToks(Advanced(ts)) else ts
  }

  function Expect(ts: seq<Tok>, kind: TokenType): (r: Result<string>)
    ensures r.Ok? && kind != Eof ==> |r.rest| < |ts|
  {
    if Check(ts, kind) then Ok(Current(ts).value, Advanced(ts)) else Err
  }

  function ExpectIdentifier(ts: seq<Tok>): (r: Result<string>)
    ensures r.Ok? ==> |r.rest| < |ts|
  {
    if IsWordTok(Current(ts)) then Ok(Current(ts).value, Advanced(ts)) else Err
  }

  /** An identifier and an opening brace, with the newlines after it. */
  function Header(ts: seq<Tok>): (r: Result<string>)
    ensures r.Ok? ==> |r.rest| < |ts|
  {
    match ExpectIdentifier(ts)
    case Err => Err
    case Ok(id, more) => OpenBrace(id, more)
  }

  function OpenBrace<T>(value: T, ts: seq<Tok>): (r: Result<T>)
    ensures r.Ok? ==> |r.rest| < |ts|
  {
    match Expect(ts, BlockStart)
    case Err => Err
    case Ok(_, rest) => Ok(value, SkipNewlineToks(rest))
  }

  // ---- Lists and prompts ----

  predicate IsItem(t: Tok) {
    IsWordTok(t) || t.kind == StringToken
  }

  function SkipComma(ts: seq<Tok>): (r: seq<Tok>)
    ensures |r| <= |ts|
  {
    if Check(ts, Comma) then Advanced(ts) else ts
  }

  /** The rest of a list, `items` having been read. */
  function ListRest(ts: seq<Tok>, items: seq<string>): (r: Result<seq<string>>)
    ensures r.Ok? ==> |r.rest| < |ts|
    decreases |ts|, 1
  {
    ListAt(SkipNewlineToks(ts), items)
  }

  function ListAt(ts: seq<Tok>, items: seq<string>): (r: Result<seq<string>>)
    ensures r.Ok? ==> |r.rest| < |ts|
    decreases |ts|, 0
  {
    if Check(ts, ListEnd) then Ok(items, Advanced(ts))
    else if IsItem(Current(ts)) then
      ListRest(SkipNewlineToks(SkipComma(Advanced(ts))), items + [Current(ts).value])
    else Err
  }

  function ListOf(ts: seq<Tok>): (r: Result<seq<string>>)
    ensures r.Ok? ==> |r.rest| < |ts|
  {
    match Expect(ts, ListStart)
    case Err => Err
    case Ok(_, rest) => ListRest(rest, [])
  }

  /** A prompt whose text the lexer did not read as one token, put together again from its tokens. */
  function PromptParts(ts: seq<Tok>, depth: nat, raw: string): (r: (string, seq<Tok>))
    requires depth > 0
    ensures |r.1| <= |ts|
    decreases |ts|
  {
    var t := Current(ts);
    if t.kind == Eof then (raw, ts)
    else if t.kind == BlockStart then PromptParts(Advanced(ts), depth + 1, raw + "{")
    else if t.kind == BlockEnd then
      if depth == 1 then (raw, Advanced(ts)) else PromptParts(Advanced(ts), depth - 1, raw + "}")
    else if t.kind == Newline then PromptParts(Advanced(ts), depth, raw + "\n")
    else
      var next := Current(Advanced(ts)).kind;
      PromptParts(Advanced(ts), depth, raw + t.value + if next != Newline && next != BlockEnd then " " else "")
  }

  /** What follows the keyword `prompt`. */
  function PromptOf(ts: seq<Tok>): (r: Result<string>)
    ensures r.Ok? ==> |r.rest| < |ts|
  {
    if Check(ts, MultilineString) then Ok(Current(ts).value, Advanced(ts))
    else
      match Expect(ts, BlockStart)
      case Err => Err
      case Ok(_, rest) => var (raw, more) := PromptParts(rest, 1, ""); Ok(Normalised(raw), more)
  }

  /** The condition of a handler, up to its opening brace. */
  function ConditionOf(ts: seq<Tok>, condition: string): (r: (string, seq<Tok>))
    ensures |r.1| <= |ts|
    decreases |ts|
  {
    var t := Current(ts);
    if t.kind == BlockStart || t.kind == Eof || t.kind == Newline then (condition, ts)
    else ConditionOf(Advanced(ts), (if condition != "" then condition + " " else "") + t.value)
  }

  function ValueOf(ts: seq<Tok>): (r: Result<Value>)
    ensures r.Ok? ==> |r.rest| < |ts|
  {
    if Check(ts, ListStart) then
      match ListOf(ts)
      case Err => Err
      case Ok(items, rest) => Ok(Items(items), rest)
    else if IsItem(Current(ts)) then Ok(Text(Current(ts).value), Advanced(ts))
    else Err
  }

  // ---- Blocks ----

  /** The rest of a block's body and its closing brace. */
  function Block(ts: seq<Tok>, open: Open): (r: Result<Open>)
    ensures r.Ok? ==> |r.rest| < |ts| && SameBlock(open, r.value)
    decreases |ts|, 2
  {
    BlockAt(SkipNewlineToks(ts), open)
  }

  function BlockAt(ts: seq<Tok>, open: Open): (r: Result<Open>)
    ensures r.Ok? ==> |r.rest| < |ts| && SameBlock(open, r.value)
    decreases |ts|, 1
  {
    if Check(ts, BlockEnd) then Ok(open, Advanced(ts))
    else
      match Item(ts, open)
      case Err => Err
      case Ok(open', rest) => Block(SkipNewlineToks(rest), open')
  }

  /** One entry of a block's body. */
  function Item(ts: seq<Tok>, open: Open): (r: Result<Open>)
    ensures r.Ok? ==> |r.rest| < |ts| && SameBlock(open, r.value)
    decreases |ts|, 0
  {
    match open
    case InAgent(a) => AgentItem(ts, a)
    case InHandler(h) => HandlerItem(ts, h)
    case InWorkflow(w) => WorkflowItem(ts, w)
    case InStep(s) => StepItem(ts, s)
    case InPipeline(p) => PipelineItem(ts, p)
    case InStage(s) => StageItem(ts, s)
  }

  function AgentItem(ts: seq<Tok>, a: Agent): (r: Result<Open>)
    ensures r.Ok? ==> |r.rest| < |ts| && r.value.InAgent?
    decreases |ts|, 0, 0
  {
    var more := Advanced(ts);
    if !Check(ts, Keyword) then Err
    else if Current(ts).value == "prompt" then
      match PromptOf(more)
      case Err => Err
      case Ok(prompt, rest) => Ok(InAgent(a.(prompt := Some(prompt))), rest)
    else if Current(ts).value == "tools" then
      match ListOf(more)
      case Err => Err
      case Ok(tools, rest) => Ok(InAgent(a.(tools := Some(tools))), rest)
    else if Current(ts).value == "when" then
      match HandlerOf(more)
      case Err => Err
      case Ok(h, rest) => Ok(InAgent(a.(handlers := a.handlers + [h])), rest)
    else
      match ValueOf(more)
      case Err => Err
      case Ok(v, rest) => Ok(InAgent(a.(properties := SetProperty(a.properties, Current(ts).value, v))), rest)
  }

  /** What follows the keyword `when`. */
  function HandlerOf(ts: seq<Tok>): (r: Result<Handler>)
    ensures r.Ok? ==> |r.rest| < |ts|
    decreases |ts|, 3
  {
    var (condition, more) := ConditionOf(ts, "");
    if condition == "" then Err
    else
      match OpenBrace((), more)
      case Err => Err
      case Ok(_, body) =>
        match Block(body, InHandler(Handler(Trim(condition), [])))
        case Err => Err
        case Ok(open, rest) => Ok(open.handler, rest)
  }

  function HandlerItem(ts: seq<Tok>, h: Handler): (r: Result<Open>)
    ensures r.Ok? ==> |r.rest| < |ts| && r.value.InHandler?
    decreases |ts|, 0, 0
  {
    var more := Advanced(ts);
    if CheckKeyword(ts, "request") || CheckKeyword(ts, "notify") then
      match ExpectIdentifier(more)
      case Err => Err
      case Ok(target, rest) => Ok(InHandler(AddAction(h, if CheckKeyword(ts, "request") then Request(target) else Notify(target))), rest)
    else if CheckKeyword(ts, "include") then
      Ok(InHandler(AddAction(h, Include(Current(more).value))), Advanced(more))
    else if Current(ts) == Tok(Identifier, "escalate") then Ok(InHandler(AddAction(h, Escalate)), more)
    else Err
  }

  function AddAction(h: Handler, action: Action): Handler {
    h.(actions := h.actions + [action])
  }

  function WorkflowItem(ts: seq<Tok>, w: Workflow): (r: Result<Open>)
    ensures r.Ok? ==> |r.rest| < |ts| && r.value.InWorkflow?
    decreases |ts|, 0, 0
  {
    var more := Advanced(ts);
    if CheckKeyword(ts, "trigger") then
      match Expect(more, StringToken)
      case Err => Err
      case Ok(trigger, rest) => Ok(InWorkflow(w.(trigger := Some(trigger))), rest)
    else if CheckKeyword(ts, "step") then
      match StepOf(more)
      case Err => Err
      case Ok(s, rest) => Ok(InWorkflow(w.(steps := w.steps + [s])), rest)
    else Err
  }

  /** What follows the keyword `step`. */
  function StepOf(ts: seq<Tok>): (r: Result<WorkflowStep>)
    ensures r.Ok? ==> |r.rest| < |ts|
    decreases |ts|, 3
  {
    match Header(ts)
    case Err => Err
    case Ok(id, body) =>
      match Block(body, InStep(NewStep(id)))
      case Err => Err
      case Ok(open, rest) => Ok(open.step, rest)
  }

  function OnFailOf(value: string): Option<OnFail> {
    if value == "escalate" then Some(OnFailEscalate)
    else if value == "skip" then Some(OnFailSkip)
    else if value == "retry" then Some(OnFailRetry)
    else None
  }

  function StepItem(ts: seq<Tok>, s: WorkflowStep): (r: Result<Open>)
    ensures r.Ok? ==> |r.rest| < |ts| && r.value.InStep?
    decreases |ts|, 0, 0
  {
    var more := Advanced(ts);
    if CheckKeyword(ts, "agent") then
      match ExpectIdentifier(more)
      case Err => Err
      case Ok(agent, rest) => Ok(InStep(s.(agent := agent)), rest)
    else if CheckKeyword(ts, "action") then
      match Expect(more, StringToken)
      case Err => Err
      case Ok(action, rest) => Ok(InStep(s.(action := action)), rest)
    else if CheckKeyword(ts, "requires") then
      match ExpectIdentifier(more)
      case Err => Err
      case Ok(id, rest) => Ok(InStep(s.(needs := Some(id))), rest)
    else if CheckKeyword(ts, "on-fail") then
      match ExpectIdentifier(more)
      case Err => Err
      case Ok(value, rest) =>
        if OnFailOf(value).None? then Err else Ok(InStep(s.(onFail := OnFailOf(value))), rest)
    else Err
  }

  function PipelineItem(ts: seq<Tok>, p: Pipeline): (r: Result<Open>)
    ensures r.Ok? ==> |r.rest| < |ts| && r.value.InPipeline?
    decreases |ts|, 0, 0
  {
    if CheckKeyword(ts, "parallel") || CheckKeyword(ts, "then") then
      match StageOf(Advanced(ts), if CheckKeyword(ts, "parallel") then Parallel else Then)
      case Err => Err
      case Ok(s, rest) => Ok(InPipeline(p.(stages := p.stages + [s])), rest)
    else Err
  }

  /** What follows the keyword of a stage. */
  function StageOf(ts: seq<Tok>, kind: StageKind): (r: Result<Stage>)
    ensures r.Ok? ==> |r.rest| < |ts|
    decreases |ts|, 3
  {
    match OpenBrace((), ts)
    case Err => Err
    case Ok(_, body) =>
      match Block(body, InStage(Stage(kind, [])))
      case Err => Err
      case Ok(open, rest) => Ok(open.stage, rest)
  }

  function StageItem(ts: seq<Tok>, s: Stage): (r: Result<Open>)
    ensures r.Ok? ==> |r.rest| < |ts| && r.value.InStage?
    decreases |ts|, 0, 0
  {
    if !CheckKeyword(ts, "agent") then Err
    else
      match ExpectIdentifier(Advanced(ts))
      case Err => Err
      case Ok(agent, more) =>
        match Expect(more, Arrow)
        case Err => Err
        case Ok(_, more) =>
          match Expect(more, StringToken)
          case Err => Err
          case Ok(action, rest) => Ok(InStage(s.(tasks := s.tasks + [StageTask(agent, action)])), rest)
  }

  // ---- Programs ----

  /** A top-level node. */
  function NodeOf(ts: seq<Tok>): (r: Result<Node>)
    ensures r.Ok? ==> |r.rest| < |ts|
  {
    if CheckKeyword(ts, "agent") then
      match AgentOf(Advanced(ts))
      case Err => Err
      case Ok(a, rest) => Ok(AgentNode(a), rest)
    else if CheckKeyword(ts, "workflow") then
      match WorkflowOf(Advanced(ts))
      case Err => Err
      case Ok(w, rest) => Ok(WorkflowNode(w), rest)
    else if CheckKeyword(ts, "pipeline") then
      match PipelineOf(Advanced(ts))
      case Err => Err
      case Ok(p, rest) => Ok(PipelineNode(p), rest)
    else Err
  }

  function AgentOf(ts: seq<Tok>): (r: Result<Agent>)
    ensures r.Ok? ==> |r.rest| < |ts|
  {
    match Header(ts)
    case Err => Err
    case Ok(id, body) =>
      match Block(body, InAgent(NewAgent(id)))
      case Err => Err
      case Ok(open, rest) => Ok(open.agent, rest)
  }

  function WorkflowOf(ts: seq<Tok>): (r: Result<Workflow>)
    ensures r.Ok? ==> |r.rest| < |ts|
  {
    match Header(ts)
    case Err => Err
    case Ok(id, body) =>
      match Block(body, InWorkflow(Workflow(id, None, [])))
      case Err => Err
      case Ok(open, rest) => Ok(open.workflow, rest)
  }

  function PipelineOf(ts: seq<Tok>): (r: Result<Pipeline>)
    ensures r.Ok? ==> |r.rest| < |ts|
  {
    match Header(ts)
    case Err => Err
    case Ok(id, body) =>
      match Block(body, InPipeline(Pipeline(id, [])))
      case Err => Err
      case Ok(open, rest) => Ok(open.pipeline, rest)
  }

  /** The rest of a program, `nodes` having been read. */
  function ProgramRest(ts: seq<Tok>, nodes: seq<Node>): Option<seq<Node>>
    decreases |ts|, 1
  {
    ProgramAt(SkipNewlineToks(ts), nodes)
  }

  function ProgramAt(ts: seq<Tok>, nodes: seq<Node>): Option<seq<Node>>
    decreases |ts|, 0
  {
    if Check(ts, Eof) then Some(nodes)
    else
      match NodeOf(ts)
      case Err => None
      case Ok(n, rest) => ProgramRest(rest, nodes + [n])
  }

  /** The nodes of a token stream, or nothing where the parser throws. */
  function Parse(ts: seq<Tok>): Option<seq<Node>> {
    ProgramRest(ts, [])
  }
}
