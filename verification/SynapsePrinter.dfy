/** A printer for the Synapse grammar, and the theorem that the parser undoes it. Each function takes
    the tokens that follow what it prints. */
module SynapsePrinter {
  import opened Options
  import opened Strings
  import opened SynapseTokens
  import opened SynapseLexer
  import opened SynapseGrammar
  import opened SynapseParser

  // ---- The printer ----

  function Cons(t: Tok, k: seq<Tok>): (r: seq<Tok>)
    ensures r != [] && r[0] == t && r[1..] == k
    ensures Current(r) == t && Advanced(r) == k
  {
    [t] + k
  }

  function Key(word: string): Tok {
    Tok(Keyword, word)
  }

  function StringTok(s: string): Tok {
    Tok(StringToken, s)
  }

  const OPEN := Tok(BlockStart, "{")
  const CLOSE := Tok(BlockEnd, "}")
  const LIST_OPEN := Tok(ListStart, "[")
  const LIST_CLOSE := Tok(ListEnd, "]")
  const COMMA := Tok(Comma, ",")
  const ARROW := Tok(Arrow, "->")

  /** A value that may be a word or a string. */
  function ItemTok(s: string): Tok {
    if IsWord(s) then WordTok(s) else StringTok(s)
  }

  function ItemsTo(items: seq<string>, k: seq<Tok>): seq<Tok> {
    if items == [] then k
    else if |items| == 1 then Cons(ItemTok(items[0]), k)
    else Cons(ItemTok(items[0]), Cons(COMMA, ItemsTo(items[1..], k)))
  }

  function ListTo(items: seq<string>, k: seq<Tok>): seq<Tok> {
    Cons(LIST_OPEN, ItemsTo(items, Cons(LIST_CLOSE, k)))
  }

  function ValueTo(v: Value, k: seq<Tok>): seq<Tok> {
    match v
    case Text(s) => Cons(ItemTok(s), k)
    case Items(items) => ListTo(items, k)
  }

  function PropertiesTo(properties: seq<(string, Value)>, k: seq<Tok>): seq<Tok> {
    if properties == [] then k
    else Cons(Key(properties[0].0), ValueTo(properties[0].1, Cons(NEWLINE, PropertiesTo(properties[1..], k))))
  }

  function PromptTo(prompt: Option<string>, k: seq<Tok>): seq<Tok> {
    if prompt.None? then k else Cons(Key("prompt"), Cons(Tok(MultilineString, prompt.value), Cons(NEWLINE, k)))
  }

  function ToolsTo(tools: Option<seq<string>>, k: seq<Tok>): seq<Tok> {
    if tools.None? then k else Cons(Key("tools"), ListTo(tools.value, Cons(NEWLINE, k)))
  }

  /** The condition is all words, and can stand before a brace without quotes. */
  ghost predicate IsPlain(condition: string) {
    var words := Split(condition, ' ');
    (forall w :: w in words ==> IsWord(w)) && words[|words| - 1] != "prompt"
  }

  function WordsTo(words: seq<string>, k: seq<Tok>): seq<Tok> {
    if words == [] then k else Cons(WordTok(words[0]), WordsTo(words[1..], k))
  }

  ghost function ConditionTo(condition: string, k: seq<Tok>): seq<Tok> {
    if IsPlain(condition) then WordsTo(Split(condition, ' '), k) else Cons(StringTok(condition), k)
  }

  function ActionTo(action: Action, k: seq<Tok>): seq<Tok> {
    match action
    case Request(target) => Cons(Key("request"), Cons(WordTok(target), k))
    case Notify(target) => Cons(Key("notify"), Cons(WordTok(target), k))
    case Include(target) => Cons(Key("include"), Cons(ItemTok(target), k))
    case Escalate => Cons(Tok(Identifier, "escalate"), k)
  }

  function ActionsTo(actions: seq<Action>, k: seq<Tok>): seq<Tok> {
    if actions == [] then k else ActionTo(actions[0], Cons(NEWLINE, ActionsTo(actions[1..], k)))
  }

  ghost function HandlerTo(h: Handler, k: seq<Tok>): seq<Tok> {
    Cons(Key("when"), ConditionTo(h.condition, Cons(OPEN, ActionsTo(h.actions, Cons(CLOSE, k)))))
  }

  ghost function HandlersTo(handlers: seq<Handler>, k: seq<Tok>): seq<Tok> {
    if handlers == [] then k else HandlerTo(handlers[0], Cons(NEWLINE, HandlersTo(handlers[1..], k)))
  }

  function HeaderTo(word: string, id: string, k: seq<Tok>): seq<Tok> {
    Cons(Key(word), Cons(WordTok(id), Cons(OPEN, k)))
  }

  ghost function AgentTo(a: Agent, k: seq<Tok>): seq<Tok> {
    HeaderTo("agent", a.id,
      PropertiesTo(a.properties, PromptTo(a.prompt, ToolsTo(a.tools, HandlersTo(a.handlers, Cons(CLOSE, k))))))
  }

  function OnFailWord(f: OnFail): string {
    match f
    case OnFailEscalate => "escalate"
    case OnFailSkip => "skip"
    case OnFailRetry => "retry"
  }

  function StepTo(s: WorkflowStep, k: seq<Tok>): seq<Tok> {
    HeaderTo("step", s.id, StepAgentTo(s.agent,
      Cons(Key("action"), Cons(StringTok(s.action), Cons(NEWLINE, NeedsTo(s.needs, OnFailTo(s.onFail, Cons(CLOSE, k))))))))
  }

  function StepAgentTo(agent: string, k: seq<Tok>): seq<Tok> {
    if agent == "" then k else Cons(Key("agent"), Cons(WordTok(agent), Cons(NEWLINE, k)))
  }

  function NeedsTo(needs: Option<string>, k: seq<Tok>): seq<Tok> {
    if needs.None? then k else Cons(Key("requires"), Cons(WordTok(needs.value), Cons(NEWLINE, k)))
  }

  function OnFailTo(onFail: Option<OnFail>, k: seq<Tok>): seq<Tok> {
    if onFail.None? then k else Cons(Key("on-fail"), Cons(WordTok(OnFailWord(onFail.value)), Cons(NEWLINE, k)))
  }

  function StepsTo(steps: seq<WorkflowStep>, k: seq<Tok>): seq<Tok> {
    if steps == [] then k else StepTo(steps[0], Cons(NEWLINE, StepsTo(steps[1..], k)))
  }

  function TriggerTo(trigger: Option<string>, k: seq<Tok>): seq<Tok> {
    if trigger.None? then k else Cons(Key("trigger"), Cons(StringTok(trigger.value), Cons(NEWLINE, k)))
  }

  function WorkflowTo(w: Workflow, k: seq<Tok>): seq<Tok> {
    HeaderTo("workflow", w.id, TriggerTo(w.trigger, StepsTo(w.steps, Cons(CLOSE, k))))
  }

  function TaskTo(t: StageTask, k: seq<Tok>): seq<Tok> {
    Cons(Key("agent"), Cons(WordTok(t.agent), Cons(ARROW, Cons(StringTok(t.action), k))))
  }

  function TasksTo(tasks: seq<StageTask>, k: seq<Tok>): seq<Tok> {
    if tasks == [] then k else TaskTo(tasks[0], Cons(NEWLINE, TasksTo(tasks[1..], k)))
  }

  function StageTo(s: Stage, k: seq<Tok>): seq<Tok> {
    Cons(Key(if s.kind == Parallel then "parallel" else "then"), Cons(OPEN, TasksTo(s.tasks, Cons(CLOSE, k))))
  }

  function StagesTo(stages: seq<Stage>, k: seq<Tok>): seq<Tok> {
    if stages == [] then k else StageTo(stages[0], Cons(NEWLINE, StagesTo(stages[1..], k)))
  }

  function PipelineTo(p: Pipeline, k: seq<Tok>): seq<Tok> {
    HeaderTo("pipeline", p.id, StagesTo(p.stages, Cons(CLOSE, k)))
  }

  ghost function NodeTo(n: Node, k: seq<Tok>): seq<Tok> {
    match n
    case AgentNode(a) => AgentTo(a, k)
    case WorkflowNode(w) => WorkflowTo(w, k)
    case PipelineNode(p) => PipelineTo(p, k)
  }

  ghost function ProgramTo(nodes: seq<Node>, k: seq<Tok>): seq<Tok> {
    if nodes == [] then k else NodeTo(nodes[0], Cons(NEWLINE, ProgramTo(nodes[1..], k)))
  }

  // ---- What the parser can return ----

  predicate IsPropertyKey(key: string) {
    key != "prompt" && key != "tools" && key != "when"
  }

  ghost predicate KeysOk(properties: seq<(string, Value)>) {
    && (forall i :: 0 <= i < |properties| ==> IsPropertyKey(properties[i].0))
    && (forall i, j :: 0 <= i < j < |properties| ==> properties[i].0 != properties[j].0)
  }

  predicate ConditionOk(condition: string) {
    condition != "" && IsTrimmed(condition)
  }

  ghost predicate AgentOk(a: Agent) {
    KeysOk(a.properties) && forall h :: h in a.handlers ==> ConditionOk(h.condition)
  }

  ghost predicate NodeOk(n: Node) {
    n.AgentNode? ==> AgentOk(n.agent)
  }

  ghost predicate ProgramOk(nodes: seq<Node>) {
    forall n :: n in nodes ==> NodeOk(n)
  }

  // ---- The parser undoes the printer ----

  /** An entry of a block, and the newline after it. */
  lemma {:induction false} BlockLine(ts: seq<Tok>, open: Open, open': Open, k: seq<Tok>)
    requires Item(ts, open) == Ok(open', Cons(NEWLINE, k))
    requires Current(ts).kind != Newline && Current(ts).kind != BlockEnd
    ensures Block(ts, open) == Block(k, open')
  {
    hide Item, Block, Cons, SkipNewlineToks;
    BlockUnfolds(ts, open);
    SkipOneNewline(k);
    BlockUnfolds(k, open');
  }

  lemma SkipOneNewline(k: seq<Tok>)
    ensures SkipNewlineToks(Cons(NEWLINE, k)) == SkipNewlineToks(k)
  {
  }

  lemma {:induction false} BlockCloses(k: seq<Tok>, open: Open)
    ensures Block(Cons(CLOSE, k), open) == Ok(open, k)
  {
    hide Block, Cons, Item;
    BlockUnfolds(Cons(CLOSE, k), open);
  }

  lemma {:induction false} ItemsRead(items: seq<string>, done: seq<string>, k: seq<Tok>)
    ensures ListRest(ItemsTo(items, Cons(LIST_CLOSE, k)), done) == Ok(done + items, k)
    decreases |items|
  {
    hide Cons, ListRest, ItemTok, SkipNewlineToks;
    var end := Cons(LIST_CLOSE, k);
    ListRestUnfolds(end, done + items);
    if items == [] {
      assert done + items == done;
    } else {
      var ts := ItemsTo(items, end);
      ItemTokIsItem(items[0]);
      ListRestUnfolds(ts, done);
      if |items| == 1 {
        assert done + [items[0]] == done + items;
        ListRestUnfolds(end, done + items);
      } else {
        var more := ItemsTo(items[1..], end);
        ListRestUnfolds(more, done + [items[0]]);
        ItemsRead(items[1..], done + [items[0]], k);
        assert done + [items[0]] + items[1..] == done + items;
      }
    }
  }

  lemma ItemTokIsItem(s: string)
    ensures IsItem(ItemTok(s)) && ItemTok(s).value == s
  {
  }

  lemma {:induction false} ListReads(items: seq<string>, k: seq<Tok>)
    ensures ListOf(ListTo(items, k)) == Ok(items, k)
  {
    hide Cons, ListRest, ItemsTo;
    ItemsRead(items, [], k);
    assert [] + items == items;
  }

  lemma {:induction false} ValueReads(v: Value, k: seq<Tok>)
    ensures ValueOf(ValueTo(v, k)) == Ok(v, k)
  {
    hide Cons, ListOf, IsWord;
    match v
    case Text(s) => ItemTokIsItem(s);
    case Items(items) => ListReads(items, k);
  }

  lemma {:induction false} SetNewProperty(properties: seq<(string, Value)>, key: string, v: Value)
    requires forall i :: 0 <= i < |properties| ==> properties[i].0 != key
    ensures SetProperty(properties, key, v) == properties + [(key, v)]
  {
    if properties == [] {
    } else {
      SetNewProperty(properties[1..], key, v);
      assert properties == [properties[0]] + properties[1..];
    }
  }

  lemma {:induction false} PropertiesRead(a: Agent, properties: seq<(string, Value)>, k: seq<Tok>)
    requires KeysOk(a.properties + properties)
    ensures Block(PropertiesTo(properties, k), InAgent(a)) == Block(k, InAgent(a.(properties := a.properties + properties)))
    decreases |properties|
  {
    hide Cons, Block, ValueOf, ValueTo, SetProperty, KeysOk;
    if properties == [] {
      assert a.properties + properties == a.properties;
    } else {
      var ts := PropertiesTo(properties, k);
      var (key, v) := properties[0];
      var more := PropertiesTo(properties[1..], k);
      ValueReads(v, Cons(NEWLINE, more));
      FirstNewKey(a.properties, properties);
      SetNewProperty(a.properties, key, v);
      var a' := a.(properties := a.properties + [(key, v)]);
      ItemOfAgent(ts, a);
      BlockLine(ts, InAgent(a), InAgent(a'), more);
      assert a.properties + [(key, v)] + properties[1..] == a.properties + properties;
      PropertiesRead(a', properties[1..], k);
    }
  }

  lemma {:induction false} FirstNewKey(old_: seq<(string, Value)>, new_: seq<(string, Value)>)
    requires KeysOk(old_ + new_) && new_ != []
    ensures IsPropertyKey(new_[0].0) && forall i :: 0 <= i < |old_| ==> old_[i].0 != new_[0].0
  {
    var all := old_ + new_;
    assert all[|old_|] == new_[0];
    forall i | 0 <= i < |old_|
      ensures old_[i].0 != new_[0].0
    {
      assert all[i] == old_[i];
    }
  }

  lemma {:induction false} PromptReads(a: Agent, prompt: Option<string>, k: seq<Tok>)
    requires a.prompt.None?
    ensures Block(PromptTo(prompt, k), InAgent(a)) == Block(k, InAgent(a.(prompt := prompt)))
  {
    hide Cons, Block;
    if prompt.Some? {
      var ts := PromptTo(prompt, k);
      ItemOfAgent(ts, a);
      BlockLine(ts, InAgent(a), InAgent(a.(prompt := prompt)), k);
    }
  }

  lemma {:induction false} ToolsRead(a: Agent, tools: Option<seq<string>>, k: seq<Tok>)
    requires a.tools.None?
    ensures Block(ToolsTo(tools, k), InAgent(a)) == Block(k, InAgent(a.(tools := tools)))
  {
    hide Cons, Block, ListOf, ListTo;
    if tools.Some? {
      var ts := ToolsTo(tools, k);
      ListReads(tools.value, Cons(NEWLINE, k));
      ItemOfAgent(ts, a);
      BlockLine(ts, InAgent(a), InAgent(a.(tools := tools)), k);
    }
  }

  // Conditions

  /** How words are joined while a condition is read. */
  function JoinOn(condition: string, words: seq<string>): string
    decreases |words|
  {
    if words == [] then condition
    else JoinOn((if condition != "" then condition + " " else "") + words[0], words[1..])
  }

  lemma {:induction false} WordsRead(words: seq<string>, condition: string, k: seq<Tok>)
    requires Check(k, BlockStart)
    ensures ConditionOf(WordsTo(words, k), condition) == (JoinOn(condition, words), k)
    decreases |words|
  {
    hide Cons;
    if words == [] {
    } else {
      WordsRead(words[1..], (if condition != "" then condition + " " else "") + words[0], k);
    }
  }

  lemma {:induction false} JoinOnIsJoin(condition: string, words: seq<string>)
    requires words != [] && forall w :: w in words ==> w != ""
    ensures JoinOn(condition, words) == if condition != "" then condition + " " + Join(words, " ") else Join(words, " ")
    decreases |words|
  {
    var first := (if condition != "" then condition + " " else "") + words[0];
    assert words[0] in words;
    if |words| == 1 {
      assert words[1..] == [];
    } else {
      assert forall w :: w in words[1..] ==> w in words;
      JoinOnIsJoin(first, words[1..]);
    }
  }

  lemma {:induction false} ConditionReads(condition: string, k: seq<Tok>)
    requires condition != "" && Check(k, BlockStart)
    ensures ConditionOf(ConditionTo(condition, k), "") == (condition, k)
  {
    hide Cons, IsWord;
    if IsPlain(condition) {
      var words := Split(condition, ' ');
      NoEmptyWord(words);
      WordsRead(words, "", k);
      JoinOnIsJoin("", words);
      JoinSplit(condition, ' ');
    } else {
      assert "" + condition == condition;
    }
  }

  lemma NoEmptyWord(words: seq<string>)
    requires forall w :: w in words ==> IsWord(w)
    ensures forall w :: w in words ==> w != ""
  {
  }

  // Handlers

  lemma {:induction false} ActionReads(h: Handler, action: Action, k: seq<Tok>)
    ensures HandlerItem(ActionTo(action, k), h) == Ok(InHandler(AddAction(h, action)), k)
    ensures Current(ActionTo(action, k)).kind in {Keyword, Identifier}
  {
    hide Cons, IsWord;
    match action
    case Request(_) =>
    case Notify(_) =>
    case Include(target) => ItemTokIsItem(target);
    case Escalate =>
  }

  lemma {:induction false} ActionsRead(h: Handler, actions: seq<Action>, k: seq<Tok>)
    ensures Block(ActionsTo(actions, k), InHandler(h)) == Block(k, InHandler(h.(actions := h.actions + actions)))
    decreases |actions|
  {
    hide Cons, Block, HandlerItem, ActionTo, Item;
    if actions == [] {
      assert h.actions + actions == h.actions;
    } else {
      var ts := ActionsTo(actions, k);
      var h' := AddAction(h, actions[0]);
      var more := ActionsTo(actions[1..], k);
      ActionReads(h, actions[0], Cons(NEWLINE, more));
      ItemOfHandler(ts, h);
      BlockLine(ts, InHandler(h), InHandler(h'), more);
      ActionsRead(h', actions[1..], k);
      assert h.actions + [actions[0]] + actions[1..] == h.actions + actions;
    }
  }

  lemma {:induction false} HandlerReads(h: Handler, k: seq<Tok>)
    requires ConditionOk(h.condition)
    ensures HandlerOf(Advanced(HandlerTo(h, k))) == Ok(h, k)
  {
    hide Cons, Block, ConditionTo, ConditionOf, ActionsTo, Trim, IsTrimmed, SkipNewlineToks;
    var body := ActionsTo(h.actions, Cons(CLOSE, k));
    ConditionReads(h.condition, Cons(OPEN, body));
    TrimTrimmed(h.condition);
    var new_ := Handler(h.condition, []);
    BlockUnfolds(body, InHandler(new_));
    ActionsRead(new_, h.actions, Cons(CLOSE, k));
    assert [] + h.actions == h.actions;
    BlockCloses(k, InHandler(h));
  }

  lemma {:induction false} HandlerItemReads(a: Agent, h: Handler, k: seq<Tok>)
    requires ConditionOk(h.condition)
    ensures AgentItem(HandlerTo(h, k), a) == Ok(InAgent(a.(handlers := a.handlers + [h])), k)
    ensures Current(HandlerTo(h, k)).kind == Keyword
  {
    hide Cons, HandlerOf, ConditionTo, ActionsTo, ConditionOk, ValueOf, ListOf, PromptOf, SetProperty;
    HandlerReads(h, k);
  }

  lemma {:induction false} HandlersRead(a: Agent, handlers: seq<Handler>, k: seq<Tok>)
    requires forall h :: h in handlers ==> ConditionOk(h.condition)
    ensures Block(HandlersTo(handlers, k), InAgent(a)) == Block(k, InAgent(a.(handlers := a.handlers + handlers)))
    decreases |handlers|
  {
    hide Cons, Block, AgentItem, HandlerTo, ConditionOk, Item;
    if handlers == [] {
      assert a.handlers + handlers == a.handlers;
    } else {
      var ts := HandlersTo(handlers, k);
      var a' := a.(handlers := a.handlers + [handlers[0]]);
      var more := HandlersTo(handlers[1..], k);
      HandlerItemReads(a, handlers[0], Cons(NEWLINE, more));
      ItemOfAgent(ts, a);
      BlockLine(ts, InAgent(a), InAgent(a'), more);
      assert forall h :: h in handlers[1..] ==> h in handlers;
      HandlersRead(a', handlers[1..], k);
      assert a.handlers + [handlers[0]] + handlers[1..] == a.handlers + handlers;
    }
  }

  /** A keyword, an identifier and an opening brace before a body. */
  lemma {:induction false} HeaderReads(word: string, id: string, k: seq<Tok>)
    ensures Header(Advanced(HeaderTo(word, id, k))) == Ok(id, SkipNewlineToks(k))
  {
    hide Cons;
  }

  lemma {:induction false} AgentReads(a: Agent, k: seq<Tok>)
    requires AgentOk(a)
    ensures AgentOf(Advanced(AgentTo(a, k))) == Ok(a, k)
  {
    hide Cons, Block, PropertiesTo, PromptTo, ToolsTo, HandlersTo, HeaderTo, Header, SkipNewlineToks, KeysOk, ConditionOk;
    var end := Cons(CLOSE, k);
    var handlers := HandlersTo(a.handlers, end);
    var tools := ToolsTo(a.tools, handlers);
    var prompt := PromptTo(a.prompt, tools);
    var body := PropertiesTo(a.properties, prompt);
    var a0 := NewAgent(a.id);
    HeaderReads("agent", a.id, body);
    BlockUnfolds(body, InAgent(a0));
    assert [] + a.properties == a.properties && [] + a.handlers == a.handlers;
    PropertiesRead(a0, a.properties, prompt);
    var a1 := a0.(properties := a.properties);
    PromptReads(a1, a.prompt, tools);
    var a2 := a1.(prompt := a.prompt);
    ToolsRead(a2, a.tools, handlers);
    HandlersRead(a2.(tools := a.tools), a.handlers, end);
    BlockCloses(k, InAgent(a));
  }

  // Workflows

  lemma {:induction false} StepReads(s: WorkflowStep, k: seq<Tok>)
    ensures StepOf(Advanced(StepTo(s, k))) == Ok(s, k)
  {
    hide Cons, Block, HeaderTo, Header, SkipNewlineToks, StepAgentTo, NeedsTo, OnFailTo;
    var end := Cons(CLOSE, k);
    var onFail := OnFailTo(s.onFail, end);
    var needs := NeedsTo(s.needs, onFail);
    var action := Cons(Key("action"), Cons(StringTok(s.action), Cons(NEWLINE, needs)));
    var body := StepAgentTo(s.agent, action);
    var s0 := NewStep(s.id);
    HeaderReads("step", s.id, body);
    BlockUnfolds(body, InStep(s0));
    StepAgentReads(s0, s.agent, action);
    var s1 := s0.(agent := s.agent);
    ItemOfStep(action, s1);
    BlockLine(action, InStep(s1), InStep(s1.(action := s.action)), needs);
    NeedsReads(s1.(action := s.action), s.needs, onFail);
    OnFailReads(s1.(action := s.action, needs := s.needs), s.onFail, end);
    BlockCloses(k, InStep(s));
  }

  lemma {:induction false} StepAgentReads(s: WorkflowStep, agent: string, k: seq<Tok>)
    requires s.agent == ""
    ensures Block(StepAgentTo(agent, k), InStep(s)) == Block(k, InStep(s.(agent := agent)))
  {
    hide Cons, Block;
    if agent != "" {
      var ts := StepAgentTo(agent, k);
      ItemOfStep(ts, s);
      BlockLine(ts, InStep(s), InStep(s.(agent := agent)), k);
    }
  }

  lemma {:induction false} NeedsReads(s: WorkflowStep, needs: Option<string>, k: seq<Tok>)
    requires s.needs.None?
    ensures Block(NeedsTo(needs, k), InStep(s)) == Block(k, InStep(s.(needs := needs)))
  {
    hide Cons, Block;
    if needs.Some? {
      var ts := NeedsTo(needs, k);
      ItemOfStep(ts, s);
      BlockLine(ts, InStep(s), InStep(s.(needs := needs)), k);
    }
  }

  lemma {:induction false} OnFailReads(s: WorkflowStep, onFail: Option<OnFail>, k: seq<Tok>)
    requires s.onFail.None?
    ensures Block(OnFailTo(onFail, k), InStep(s)) == Block(k, InStep(s.(onFail := onFail)))
  {
    hide Cons, Block;
    if onFail.Some? {
      var ts := OnFailTo(onFail, k);
      assert OnFailOf(OnFailWord(onFail.value)) == onFail;
      ItemOfStep(ts, s);
      BlockLine(ts, InStep(s), InStep(s.(onFail := onFail)), k);
    }
  }

  lemma {:induction false} StepItemReads(w: Workflow, s: WorkflowStep, k: seq<Tok>)
    ensures WorkflowItem(StepTo(s, k), w) == Ok(InWorkflow(w.(steps := w.steps + [s])), k)
    ensures Current(StepTo(s, k)).kind == Keyword
  {
    hide Cons, StepOf, StepAgentTo, NeedsTo, OnFailTo, WordTok, Expect;
    StepReads(s, k);
  }

  lemma {:induction false} StepsRead(w: Workflow, steps: seq<WorkflowStep>, k: seq<Tok>)
    ensures Block(StepsTo(steps, k), InWorkflow(w)) == Block(k, InWorkflow(w.(steps := w.steps + steps)))
    decreases |steps|
  {
    hide Cons, Block, WorkflowItem, StepTo, Item;
    if steps == [] {
      assert w.steps + steps == w.steps;
    } else {
      var ts := StepsTo(steps, k);
      var w' := w.(steps := w.steps + [steps[0]]);
      var more := StepsTo(steps[1..], k);
      StepItemReads(w, steps[0], Cons(NEWLINE, more));
      ItemOfWorkflow(ts, w);
      BlockLine(ts, InWorkflow(w), InWorkflow(w'), more);
      StepsRead(w', steps[1..], k);
      assert w.steps + [steps[0]] + steps[1..] == w.steps + steps;
    }
  }

  lemma {:induction false} TriggerReads(w: Workflow, trigger: Option<string>, k: seq<Tok>)
    requires w.trigger.None?
    ensures Block(TriggerTo(trigger, k), InWorkflow(w)) == Block(k, InWorkflow(w.(trigger := trigger)))
  {
    hide Cons, Block;
    if trigger.Some? {
      var ts := TriggerTo(trigger, k);
      ItemOfWorkflow(ts, w);
      BlockLine(ts, InWorkflow(w), InWorkflow(w.(trigger := trigger)), k);
    }
  }

  lemma {:induction false} WorkflowReads(w: Workflow, k: seq<Tok>)
    ensures WorkflowOf(Advanced(WorkflowTo(w, k))) == Ok(w, k)
  {
    hide Cons, Block, HeaderTo, Header, SkipNewlineToks, TriggerTo, StepsTo;
    var end := Cons(CLOSE, k);
    var steps := StepsTo(w.steps, end);
    var body := TriggerTo(w.trigger, steps);
    var w0 := Workflow(w.id, None, []);
    HeaderReads("workflow", w.id, body);
    BlockUnfolds(body, InWorkflow(w0));
    TriggerReads(w0, w.trigger, steps);
    StepsRead(w0.(trigger := w.trigger), w.steps, end);
    assert [] + w.steps == w.steps;
    BlockCloses(k, InWorkflow(w));
  }

  // Pipelines

  lemma {:induction false} TasksRead(s: Stage, tasks: seq<StageTask>, k: seq<Tok>)
    ensures Block(TasksTo(tasks, k), InStage(s)) == Block(k, InStage(s.(tasks := s.tasks + tasks)))
    decreases |tasks|
  {
    hide Cons, Block, StageItem, TaskTo, Item;
    if tasks == [] {
      assert s.tasks + tasks == s.tasks;
    } else {
      var ts := TasksTo(tasks, k);
      var s' := s.(tasks := s.tasks + [tasks[0]]);
      var more := TasksTo(tasks[1..], k);
      TaskReads(s, tasks[0], Cons(NEWLINE, more));
      ItemOfStage(ts, s);
      BlockLine(ts, InStage(s), InStage(s'), more);
      TasksRead(s', tasks[1..], k);
      assert s.tasks + [tasks[0]] + tasks[1..] == s.tasks + tasks;
    }
  }

  lemma {:induction false} TaskReads(s: Stage, t: StageTask, k: seq<Tok>)
    ensures StageItem(TaskTo(t, k), s) == Ok(InStage(s.(tasks := s.tasks + [t])), k)
    ensures Current(TaskTo(t, k)).kind == Keyword
  {
    hide Cons;
  }

  lemma {:induction false} StageReads(s: Stage, k: seq<Tok>)
    ensures StageOf(Advanced(StageTo(s, k)), s.kind) == Ok(s, k)
  {
    hide Cons, Block, SkipNewlineToks, TasksTo;
    var end := Cons(CLOSE, k);
    var s0 := Stage(s.kind, []);
    var body := TasksTo(s.tasks, end);
    BlockUnfolds(body, InStage(s0));
    TasksRead(s0, s.tasks, end);
    assert [] + s.tasks == s.tasks;
    BlockCloses(k, InStage(s));
  }

  lemma {:induction false} StageItemReads(p: Pipeline, s: Stage, k: seq<Tok>)
    ensures PipelineItem(StageTo(s, k), p) == Ok(InPipeline(p.(stages := p.stages + [s])), k)
    ensures Current(StageTo(s, k)).kind == Keyword
  {
    hide Cons, StageOf, TasksTo;
    StageReads(s, k);
  }

  lemma {:induction false} StagesRead(p: Pipeline, stages: seq<Stage>, k: seq<Tok>)
    ensures Block(StagesTo(stages, k), InPipeline(p)) == Block(k, InPipeline(p.(stages := p.stages + stages)))
    decreases |stages|
  {
    hide Cons, Block, PipelineItem, StageTo, Item;
    if stages == [] {
      assert p.stages + stages == p.stages;
    } else {
      var ts := StagesTo(stages, k);
      var p' := p.(stages := p.stages + [stages[0]]);
      var more := StagesTo(stages[1..], k);
      StageItemReads(p, stages[0], Cons(NEWLINE, more));
      ItemOfPipeline(ts, p);
      BlockLine(ts, InPipeline(p), InPipeline(p'), more);
      StagesRead(p', stages[1..], k);
      assert p.stages + [stages[0]] + stages[1..] == p.stages + stages;
    }
  }

  lemma {:induction false} PipelineReads(p: Pipeline, k: seq<Tok>)
    ensures PipelineOf(Advanced(PipelineTo(p, k))) == Ok(p, k)
  {
    hide Cons, Block, HeaderTo, Header, SkipNewlineToks, StagesTo;
    var end := Cons(CLOSE, k);
    var body := StagesTo(p.stages, end);
    var p0 := Pipeline(p.id, []);
    HeaderReads("pipeline", p.id, body);
    BlockUnfolds(body, InPipeline(p0));
    StagesRead(p0, p.stages, end);
    assert [] + p.stages == p.stages;
    BlockCloses(k, InPipeline(p));
  }

  // Programs

  lemma {:induction false} NodeReads(n: Node, k: seq<Tok>)
    requires NodeOk(n)
    ensures NodeOf(NodeTo(n, k)) == Ok(n, k)
    ensures Current(NodeTo(n, k)).kind == Keyword
  {
    hide Cons, AgentOf, WorkflowOf, PipelineOf, AgentOk, PropertiesTo, TriggerTo, StagesTo;
    match n
    case AgentNode(a) => AgentReads(a, k);
    case WorkflowNode(w) => WorkflowReads(w, k);
    case PipelineNode(p) => PipelineReads(p, k);
  }

  lemma {:induction false} ProgramReads(nodes: seq<Node>, done: seq<Node>, k: seq<Tok>)
    requires ProgramOk(nodes) && Check(k, Eof)
    ensures ProgramRest(ProgramTo(nodes, k), done) == Some(done + nodes)
    decreases |nodes|
  {
    hide Cons, ProgramRest, NodeOf, NodeTo, NodeOk, SkipNewlineToks;
    var ts := ProgramTo(nodes, k);
    ProgramRestUnfolds(ts, done);
    if nodes == [] {
      assert done + nodes == done;
    } else {
      var more := ProgramTo(nodes[1..], k);
      NodeReads(nodes[0], Cons(NEWLINE, more));
      NewlineProgram(Cons(NEWLINE, more), done + [nodes[0]]);
      ProgramReads(nodes[1..], done + [nodes[0]], k);
      assert done + [nodes[0]] + nodes[1..] == done + nodes;
    }
  }

  /** The parser undoes the printer, for every program that it could return at all. */
  lemma {:induction false} ParseInvertsPrint(nodes: seq<Node>, k: seq<Tok>)
    requires ProgramOk(nodes) && Check(k, Eof)
    ensures Parse(ProgramTo(nodes, k)) == Some(nodes)
  {
    ProgramReads(nodes, [], k);
    assert [] + nodes == nodes;
  }
}
