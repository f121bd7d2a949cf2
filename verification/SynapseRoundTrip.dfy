/** From a program to source text and back: printed tokens can be laid out as text, and every good
    layout of them is read back as the same program. */
module SynapseRoundTrip {
  import opened Options
  import opened Strings
  import opened SynapseTokens
  import opened SynapseLexer
  import opened LexerInverts
  import opened SynapseGrammar
  import opened SynapseParser
  import opened SynapsePrinter

  // ---- Keywords are words ----

  lemma {:induction false} PlainWord(s: string)
    requires s != [] && IsIdentStart(s[0]) && AllIdent(s)
    ensures IsWord(s)
  {
    hide Segment;
    SegmentIs(s, "");
    assert s + "" == s && s[|s|..] == "";
  }

  lemma {:induction false} DashedWord(first: string, second: string)
    requires first != [] && IsIdentStart(first[0]) && AllIdent(first) && second != [] && AllIdent(second)
    ensures IsWord(first + Dash(second, ""))
  {
    hide IsWord, AllIdent, Dash;
    PlainWord(first);
    WordGrows(first, second);
  }

  lemma {:induction false} KeywordsAreWords(s: string)
    requires IsKeyword(s)
    ensures IsWord(s)
  {
    hide IsWord;
    if s == "on-fail" {
      DashedWord("on", "fail");
      assert s == "on" + Dash("fail", "");
    } else if s == "escalates-to" {
      DashedWord("escalates", "to");
      assert s == "escalates" + Dash("to", "");
    } else {
      PlainKeyword(s);
      PlainWord(s);
    }
  }

  lemma PlainKeyword(s: string)
    requires IsKeyword(s) && s != "on-fail" && s != "escalates-to"
    ensures s != [] && IsIdentStart(s[0]) && AllIdent(s)
  {
  }

  lemma {:induction false} PlainIdentifiers()
    ensures IsWord("escalate") && IsWord("skip") && IsWord("retry")
    ensures !IsKeyword("escalate")
  {
    hide IsWord;
    PlainWord("escalate");
    PlainWord("skip");
    PlainWord("retry");
  }

  // ---- Tokens that the lexer can produce in a row ----

  /** Each token fits after the one before it, up to the end of the file. */
  ghost predicate AllFit(ts: seq<Tok>, last: Option<Tok>) {
    ts == [EOF] || (ts != [] && Printable(ts[0], last) && AllFit(ts[1..], Some(ts[0])))
  }

  /** The tokens can start a line. */
  ghost predicate FitsLine(ts: seq<Tok>) {
    AllFit(ts, None) && AllFit(ts, Some(OPEN)) && AllFit(ts, Some(NEWLINE))
  }

  lemma {:induction false} FitCons(t: Tok, k: seq<Tok>, last: Option<Tok>)
    requires Printable(t, last) && AllFit(k, Some(t))
    ensures AllFit(Cons(t, k), last)
  {
    hide Printable, Cons;
  }

  lemma {:induction false} FitKey(word: string, k: seq<Tok>, last: Option<Tok>)
    requires IsKeyword(word) && AllFit(k, Some(Key(word)))
    ensures AllFit(Cons(Key(word), k), last)
  {
    hide AllFit, Cons, IsWord, IsKeyword;
    KeywordsAreWords(word);
    FitCons(Key(word), k, last);
  }

  lemma {:induction false} FitWord(s: string, k: seq<Tok>, last: Option<Tok>)
    requires IsWord(s) && AllFit(k, Some(WordTok(s)))
    ensures AllFit(Cons(WordTok(s), k), last)
  {
    hide AllFit, Cons, IsWord, IsKeyword;
    FitCons(WordTok(s), k, last);
  }

  lemma {:induction false} FitString(s: string, k: seq<Tok>, last: Option<Tok>)
    requires AllFit(k, Some(StringTok(s)))
    ensures AllFit(Cons(StringTok(s), k), last)
  {
    hide AllFit, Cons;
    FitCons(StringTok(s), k, last);
  }

  lemma {:induction false} FitItem(s: string, k: seq<Tok>, last: Option<Tok>)
    requires AllFit(k, Some(ItemTok(s)))
    ensures AllFit(Cons(ItemTok(s), k), last)
  {
    hide AllFit, Cons, IsWord, WordTok;
    if IsWord(s) {
      FitWord(s, k, last);
    } else {
      FitString(s, k, last);
    }
  }

  lemma {:induction false} FitMark(t: Tok, k: seq<Tok>, last: Option<Tok>)
    requires t in {CLOSE, LIST_OPEN, LIST_CLOSE, COMMA, ARROW} && AllFit(k, Some(t))
    ensures AllFit(Cons(t, k), last)
  {
    hide AllFit, Cons;
    FitCons(t, k, last);
  }

  lemma {:induction false} FitOpen(k: seq<Tok>, last: Option<Tok>)
    requires !AfterPrompt(last) && FitsLine(k)
    ensures AllFit(Cons(OPEN, k), last)
  {
    hide AllFit, Cons;
    FitCons(OPEN, k, last);
  }

  lemma {:induction false} FitNewline(k: seq<Tok>, last: Tok)
    requires last.kind != Newline && last.kind != BlockStart && FitsLine(k)
    ensures AllFit(Cons(NEWLINE, k), Some(last))
  {
    hide AllFit, Cons;
    FitCons(NEWLINE, k, Some(last));
  }

  /** A line that starts with a keyword. */
  lemma {:induction false} LineOfKey(word: string, k: seq<Tok>)
    requires IsKeyword(word) && AllFit(k, Some(Key(word)))
    ensures FitsLine(Cons(Key(word), k))
  {
    hide AllFit, Cons, IsKeyword;
    FitKey(word, k, None);
    FitKey(word, k, Some(OPEN));
    FitKey(word, k, Some(NEWLINE));
  }

  lemma {:induction false} LineOfClose(k: seq<Tok>)
    requires AllFit(k, Some(CLOSE))
    ensures FitsLine(Cons(CLOSE, k))
  {
    hide AllFit, Cons;
    FitMark(CLOSE, k, None);
    FitMark(CLOSE, k, Some(OPEN));
    FitMark(CLOSE, k, Some(NEWLINE));
  }

  // ---- Programs that can be written down ----

  /** The words that name a property of an agent. The documented ones come first; the others name
      something only elsewhere, and are taken for a property here all the same. */
  predicate IsPropertyWord(w: string) {
    || w == "name" || w == "tier" || w == "sections" || w == "capabilities" || w == "dependencies"
    || w == "llm" || w == "format" || w == "escalates-to" || w == "context"
    || w == "agent" || w == "workflow" || w == "pipeline" || w == "step" || w == "trigger" || w == "action"
    || w == "requires" || w == "on-fail" || w == "parallel" || w == "then" || w == "request" || w == "notify"
    || w == "include"
  }

  lemma PropertyWordIsKeyword(w: string)
    requires IsPropertyWord(w)
    ensures IsKeyword(w) && IsPropertyKey(w)
  {
  }

  lemma KeywordIsPropertyWord(w: string)
    requires IsKeyword(w) && IsPropertyKey(w)
    ensures IsPropertyWord(w)
  {
  }

  predicate NameOk(id: string) {
    IsWord(id) && id != "prompt"
  }

  predicate ActionWritable(a: Action) {
    match a
    case Request(target) => IsWord(target)
    case Notify(target) => IsWord(target)
    case Include(_) => true
    case Escalate => true
  }

  ghost predicate AgentWritable(a: Agent) {
    && NameOk(a.id)
    && (forall p :: p in a.properties ==> IsPropertyWord(p.0))
    && (a.prompt.Some? ==> Balanced(a.prompt.value, 1) && LinesTrimmed(a.prompt.value))
    && (forall h, x :: h in a.handlers && x in h.actions ==> ActionWritable(x))
  }

  predicate StepWritable(s: WorkflowStep) {
    && NameOk(s.id) && (s.agent == "" || IsWord(s.agent))
    && (s.needs.Some? ==> IsWord(s.needs.value))
  }

  ghost predicate NodeWritable(n: Node) {
    match n
    case AgentNode(a) => AgentWritable(a)
    case WorkflowNode(w) => NameOk(w.id) && forall s :: s in w.steps ==> StepWritable(s)
    case PipelineNode(p) => NameOk(p.id) && forall s, t :: s in p.stages && t in s.tasks ==> IsWord(t.agent)
  }

  // ---- What is printed fits ----

  lemma {:induction false} ItemsFit(items: seq<string>, k: seq<Tok>, last: Option<Tok>)
    requires AllFit(k, Some(LIST_CLOSE))
    ensures AllFit(ItemsTo(items, Cons(LIST_CLOSE, k)), last)
    decreases |items|
  {
    hide AllFit, Cons, ItemTok;
    var end := Cons(LIST_CLOSE, k);
    if items == [] {
      FitMark(LIST_CLOSE, k, last);
    } else if |items| == 1 {
      FitMark(LIST_CLOSE, k, Some(ItemTok(items[0])));
      FitItem(items[0], end, last);
    } else {
      var more := ItemsTo(items[1..], end);
      ItemsFit(items[1..], k, Some(COMMA));
      FitMark(COMMA, more, Some(ItemTok(items[0])));
      FitItem(items[0], Cons(COMMA, more), last);
    }
  }

  lemma {:induction false} ListFits(items: seq<string>, k: seq<Tok>, last: Option<Tok>)
    requires AllFit(k, Some(LIST_CLOSE))
    ensures AllFit(ListTo(items, k), last)
  {
    hide AllFit, Cons, ItemsTo;
    ItemsFit(items, k, Some(LIST_OPEN));
    FitMark(LIST_OPEN, ItemsTo(items, Cons(LIST_CLOSE, k)), last);
  }

  lemma {:induction false} ValueFits(v: Value, k: seq<Tok>, last: Option<Tok>)
    requires FitsLine(k)
    ensures AllFit(ValueTo(v, Cons(NEWLINE, k)), last)
  {
    hide AllFit, Cons, ListTo, IsWord;
    match v
    case Text(s) =>
      FitNewline(k, ItemTok(s));
      FitItem(s, Cons(NEWLINE, k), last);
    case Items(items) =>
      FitNewline(k, LIST_CLOSE);
      ListFits(items, Cons(NEWLINE, k), last);
  }

  lemma {:induction false} PropertiesFit(properties: seq<(string, Value)>, k: seq<Tok>)
    requires FitsLine(k) && forall p :: p in properties ==> IsPropertyWord(p.0)
    ensures FitsLine(PropertiesTo(properties, k))
    decreases |properties|
  {
    hide AllFit, FitsLine, Cons, ValueTo, IsKeyword, IsPropertyWord;
    if properties == [] {
    } else {
      assert properties[0] in properties && forall p :: p in properties[1..] ==> p in properties;
      PropertiesFit(properties[1..], k);
      var (key, v) := properties[0];
      var more := PropertiesTo(properties[1..], k);
      ValueFits(v, more, Some(Key(key)));
      PropertyWordIsKeyword(key);
      LineOfKey(key, ValueTo(v, Cons(NEWLINE, more)));
    }
  }

  lemma {:induction false} PromptFits(prompt: Option<string>, k: seq<Tok>)
    requires FitsLine(k) && (prompt.Some? ==> Balanced(prompt.value, 1) && LinesTrimmed(prompt.value))
    ensures FitsLine(PromptTo(prompt, k))
  {
    hide AllFit, FitsLine, Cons, Balanced, LinesTrimmed;
    if prompt.Some? {
      var t := Tok(MultilineString, prompt.value);
      FitNewline(k, t);
      FitCons(t, Cons(NEWLINE, k), Some(Key("prompt")));
      LineOfKey("prompt", Cons(t, Cons(NEWLINE, k)));
    }
  }

  lemma {:induction false} ToolsFit(tools: Option<seq<string>>, k: seq<Tok>)
    requires FitsLine(k)
    ensures FitsLine(ToolsTo(tools, k))
  {
    hide AllFit, FitsLine, Cons, ListTo;
    if tools.Some? {
      FitNewline(k, LIST_CLOSE);
      ListFits(tools.value, Cons(NEWLINE, k), Some(Key("tools")));
      LineOfKey("tools", ListTo(tools.value, Cons(NEWLINE, k)));
    }
  }

  lemma {:induction false} WordsFit(words: seq<string>, k: seq<Tok>, last: Option<Tok>)
    requires words != [] && (forall w :: w in words ==> IsWord(w)) && words[|words| - 1] != "prompt" && FitsLine(k)
    ensures AllFit(WordsTo(words, Cons(OPEN, k)), last)
    decreases |words|
  {
    hide AllFit, FitsLine, Cons, IsWord, IsKeyword;
    assert words[0] in words;
    var end := Cons(OPEN, k);
    if |words| == 1 {
      assert words[1..] == [];
      FitOpen(k, Some(WordTok(words[0])));
      FitWord(words[0], end, last);
    } else {
      assert forall w :: w in words[1..] ==> w in words;
      WordsFit(words[1..], k, Some(WordTok(words[0])));
      FitWord(words[0], WordsTo(words[1..], end), last);
    }
  }

  lemma {:induction false} ConditionFits(condition: string, k: seq<Tok>, last: Option<Tok>)
    requires FitsLine(k)
    ensures AllFit(ConditionTo(condition, Cons(OPEN, k)), last)
  {
    hide AllFit, FitsLine, Cons, IsWord, WordsTo, Split;
    if IsPlain(condition) {
      WordsFit(Split(condition, ' '), k, last);
    } else {
      FitOpen(k, Some(StringTok(condition)));
      FitString(condition, Cons(OPEN, k), last);
    }
  }

  lemma {:induction false} ActionFits(a: Action, k: seq<Tok>)
    requires FitsLine(k) && ActionWritable(a)
    ensures FitsLine(ActionTo(a, Cons(NEWLINE, k)))
  {
    hide AllFit, FitsLine, Cons, IsWord, IsKeyword;
    var line := Cons(NEWLINE, k);
    match a
    case Request(target) => WordLineFits("request", target, k);
    case Notify(target) => WordLineFits("notify", target, k);
    case Include(target) =>
      FitNewline(k, ItemTok(target));
      FitItem(target, line, Some(Key("include")));
      IncludeIsKeyword();
      LineOfKey("include", Cons(ItemTok(target), line));
    case Escalate =>
      PlainIdentifiers();
      FitNewline(k, WordTok("escalate"));
      LineOfWord("escalate", line);
  }

  lemma IncludeIsKeyword()
    ensures IsKeyword("include") && IsKeyword("request") && IsKeyword("notify")
  {
  }

  lemma {:induction false} LineOfWord(word: string, k: seq<Tok>)
    requires IsWord(word) && AllFit(k, Some(WordTok(word)))
    ensures FitsLine(Cons(WordTok(word), k))
  {
    hide AllFit, Cons, IsWord, WordTok;
    FitWord(word, k, None);
    FitWord(word, k, Some(OPEN));
    FitWord(word, k, Some(NEWLINE));
  }

  /** A line of a keyword and a word. */
  lemma {:induction false} WordLineFits(word: string, id: string, k: seq<Tok>)
    requires word in {"request", "notify", "agent", "requires", "on-fail"} && IsWord(id) && FitsLine(k)
    ensures FitsLine(Cons(Key(word), Cons(WordTok(id), Cons(NEWLINE, k))))
  {
    hide AllFit, FitsLine, Cons, IsWord;
    FitNewline(k, WordTok(id));
    FitWord(id, Cons(NEWLINE, k), Some(Key(word)));
    LineOfKey(word, Cons(WordTok(id), Cons(NEWLINE, k)));
  }

  /** A line of a keyword and a string. */
  lemma {:induction false} StringLineFits(word: string, s: string, k: seq<Tok>)
    requires word in {"trigger", "action"} && FitsLine(k)
    ensures FitsLine(Cons(Key(word), Cons(StringTok(s), Cons(NEWLINE, k))))
  {
    hide AllFit, FitsLine, Cons;
    FitNewline(k, StringTok(s));
    FitString(s, Cons(NEWLINE, k), Some(Key(word)));
    LineOfKey(word, Cons(StringTok(s), Cons(NEWLINE, k)));
  }

  lemma {:induction false} ActionsFit(actions: seq<Action>, k: seq<Tok>)
    requires FitsLine(k) && forall a :: a in actions ==> ActionWritable(a)
    ensures FitsLine(ActionsTo(actions, k))
    decreases |actions|
  {
    hide FitsLine, Cons, ActionTo, ActionWritable;
    if actions == [] {
    } else {
      assert actions[0] in actions && forall a :: a in actions[1..] ==> a in actions;
      ActionsFit(actions[1..], k);
      ActionFits(actions[0], ActionsTo(actions[1..], k));
    }
  }

  lemma {:induction false} HandlerFits(h: Handler, k: seq<Tok>)
    requires AllFit(k, Some(CLOSE)) && forall a :: a in h.actions ==> ActionWritable(a)
    ensures FitsLine(HandlerTo(h, k))
  {
    hide AllFit, FitsLine, Cons, ConditionTo, ActionsTo, ActionWritable;
    LineOfClose(k);
    var body := ActionsTo(h.actions, Cons(CLOSE, k));
    ActionsFit(h.actions, Cons(CLOSE, k));
    ConditionFits(h.condition, body, Some(Key("when")));
    LineOfKey("when", ConditionTo(h.condition, Cons(OPEN, body)));
  }

  lemma {:induction false} HandlersFit(handlers: seq<Handler>, k: seq<Tok>)
    requires FitsLine(k) && forall h, a :: h in handlers && a in h.actions ==> ActionWritable(a)
    ensures FitsLine(HandlersTo(handlers, k))
    decreases |handlers|
  {
    hide AllFit, FitsLine, Cons, HandlerTo, ActionWritable;
    if handlers == [] {
    } else {
      assert handlers[0] in handlers && forall h :: h in handlers[1..] ==> h in handlers;
      HandlersFit(handlers[1..], k);
      FitNewline(HandlersTo(handlers[1..], k), CLOSE);
      HandlerFits(handlers[0], Cons(NEWLINE, HandlersTo(handlers[1..], k)));
    }
  }

  lemma {:induction false} HeaderFits(word: string, id: string, k: seq<Tok>)
    requires word in {"agent", "step", "workflow", "pipeline"} && NameOk(id) && FitsLine(k)
    ensures FitsLine(HeaderTo(word, id, k))
  {
    hide AllFit, FitsLine, Cons, IsWord;
    FitOpen(k, Some(WordTok(id)));
    FitWord(id, Cons(OPEN, k), Some(Key(word)));
    LineOfKey(word, Cons(WordTok(id), Cons(OPEN, k)));
  }

  lemma {:induction false} AgentFits(a: Agent, k: seq<Tok>)
    requires AgentWritable(a) && AllFit(k, Some(CLOSE))
    ensures FitsLine(AgentTo(a, k))
  {
    hide AllFit, FitsLine, Cons, PropertiesTo, PromptTo, ToolsTo, HandlersTo, HeaderTo, NameOk, IsPropertyWord, ActionWritable, Balanced, LinesTrimmed;
    var end := Cons(CLOSE, k);
    LineOfClose(k);
    var handlers := HandlersTo(a.handlers, end);
    HandlersFit(a.handlers, end);
    var tools := ToolsTo(a.tools, handlers);
    ToolsFit(a.tools, handlers);
    var prompt := PromptTo(a.prompt, tools);
    PromptFits(a.prompt, tools);
    PropertiesFit(a.properties, prompt);
    HeaderFits("agent", a.id, PropertiesTo(a.properties, prompt));
  }

  lemma {:induction false} OnFailFits(onFail: Option<OnFail>, k: seq<Tok>)
    requires FitsLine(k)
    ensures FitsLine(OnFailTo(onFail, k))
  {
    hide AllFit, FitsLine, Cons, IsWord;
    if onFail.Some? {
      PlainIdentifiers();
      WordLineFits("on-fail", OnFailWord(onFail.value), k);
    }
  }

  lemma {:induction false} StepFits(s: WorkflowStep, k: seq<Tok>)
    requires StepWritable(s) && AllFit(k, Some(CLOSE))
    ensures FitsLine(StepTo(s, k))
  {
    hide AllFit, FitsLine, Cons, HeaderTo, NameOk, IsWord, OnFailTo;
    LineOfClose(k);
    var onFail := OnFailTo(s.onFail, Cons(CLOSE, k));
    OnFailFits(s.onFail, Cons(CLOSE, k));
    var needs := NeedsTo(s.needs, onFail);
    if s.needs.Some? {
      WordLineFits("requires", s.needs.value, onFail);
    }
    assert FitsLine(needs);
    StringLineFits("action", s.action, needs);
    var action := Cons(Key("action"), Cons(StringTok(s.action), Cons(NEWLINE, needs)));
    if s.agent != "" {
      WordLineFits("agent", s.agent, action);
    }
    HeaderFits("step", s.id, StepAgentTo(s.agent, action));
  }

  lemma {:induction false} StepsFit(steps: seq<WorkflowStep>, k: seq<Tok>)
    requires FitsLine(k) && forall s :: s in steps ==> StepWritable(s)
    ensures FitsLine(StepsTo(steps, k))
    decreases |steps|
  {
    hide AllFit, FitsLine, Cons, StepTo, StepWritable;
    if steps == [] {
    } else {
      assert steps[0] in steps && forall s :: s in steps[1..] ==> s in steps;
      StepsFit(steps[1..], k);
      FitNewline(StepsTo(steps[1..], k), CLOSE);
      StepFits(steps[0], Cons(NEWLINE, StepsTo(steps[1..], k)));
    }
  }

  lemma {:induction false} WorkflowFits(w: Workflow, k: seq<Tok>)
    requires NodeWritable(WorkflowNode(w)) && AllFit(k, Some(CLOSE))
    ensures FitsLine(WorkflowTo(w, k))
  {
    hide AllFit, FitsLine, Cons, HeaderTo, StepsTo, NameOk, StepWritable;
    LineOfClose(k);
    var steps := StepsTo(w.steps, Cons(CLOSE, k));
    StepsFit(w.steps, Cons(CLOSE, k));
    if w.trigger.Some? {
      StringLineFits("trigger", w.trigger.value, steps);
    }
    HeaderFits("workflow", w.id, TriggerTo(w.trigger, steps));
  }

  lemma {:induction false} TaskFits(t: StageTask, k: seq<Tok>)
    requires IsWord(t.agent) && FitsLine(k)
    ensures FitsLine(TaskTo(t, Cons(NEWLINE, k)))
  {
    hide AllFit, FitsLine, Cons, IsWord;
    var line := Cons(NEWLINE, k);
    FitNewline(k, StringTok(t.action));
    FitString(t.action, line, Some(ARROW));
    var action := Cons(StringTok(t.action), line);
    FitMark(ARROW, action, Some(WordTok(t.agent)));
    FitWord(t.agent, Cons(ARROW, action), Some(Key("agent")));
    LineOfKey("agent", Cons(WordTok(t.agent), Cons(ARROW, action)));
  }

  lemma {:induction false} TasksFit(tasks: seq<StageTask>, k: seq<Tok>)
    requires FitsLine(k) && forall t :: t in tasks ==> IsWord(t.agent)
    ensures FitsLine(TasksTo(tasks, k))
    decreases |tasks|
  {
    hide FitsLine, Cons, TaskTo, IsWord;
    if tasks == [] {
    } else {
      assert tasks[0] in tasks && forall t :: t in tasks[1..] ==> t in tasks;
      TasksFit(tasks[1..], k);
      TaskFits(tasks[0], TasksTo(tasks[1..], k));
    }
  }

  lemma {:induction false} StageFits(s: Stage, k: seq<Tok>)
    requires AllFit(k, Some(CLOSE)) && forall t :: t in s.tasks ==> IsWord(t.agent)
    ensures FitsLine(StageTo(s, k))
  {
    hide AllFit, FitsLine, Cons, TasksTo, IsWord;
    LineOfClose(k);
    var body := TasksTo(s.tasks, Cons(CLOSE, k));
    TasksFit(s.tasks, Cons(CLOSE, k));
    var word := if s.kind == Parallel then "parallel" else "then";
    FitOpen(body, Some(Key(word)));
    LineOfKey(word, Cons(OPEN, body));
  }

  lemma {:induction false} StagesFit(stages: seq<Stage>, k: seq<Tok>)
    requires FitsLine(k) && forall s, t :: s in stages && t in s.tasks ==> IsWord(t.agent)
    ensures FitsLine(StagesTo(stages, k))
    decreases |stages|
  {
    hide AllFit, FitsLine, Cons, StageTo, IsWord;
    if stages == [] {
    } else {
      assert stages[0] in stages && forall s :: s in stages[1..] ==> s in stages;
      StagesFit(stages[1..], k);
      FitNewline(StagesTo(stages[1..], k), CLOSE);
      StageFits(stages[0], Cons(NEWLINE, StagesTo(stages[1..], k)));
    }
  }

  lemma {:induction false} PipelineFits(p: Pipeline, k: seq<Tok>)
    requires NodeWritable(PipelineNode(p)) && AllFit(k, Some(CLOSE))
    ensures FitsLine(PipelineTo(p, k))
  {
    hide AllFit, FitsLine, Cons, HeaderTo, StagesTo, NameOk, IsWord;
    LineOfClose(k);
    StagesFit(p.stages, Cons(CLOSE, k));
    HeaderFits("pipeline", p.id, StagesTo(p.stages, Cons(CLOSE, k)));
  }

  lemma {:induction false} NodeFits(n: Node, k: seq<Tok>)
    requires NodeWritable(n) && AllFit(k, Some(CLOSE))
    ensures FitsLine(NodeTo(n, k))
  {
    hide AllFit, FitsLine, AgentTo, WorkflowTo, PipelineTo, AgentWritable;
    match n
    case AgentNode(a) => AgentFits(a, k);
    case WorkflowNode(w) => WorkflowFits(w, k);
    case PipelineNode(p) => PipelineFits(p, k);
  }

  lemma {:induction false} ProgramFits(nodes: seq<Node>)
    requires forall n :: n in nodes ==> NodeWritable(n)
    ensures FitsLine(ProgramTo(nodes, [EOF]))
    decreases |nodes|
  {
    hide Cons, NodeTo, NodeWritable;
    if nodes == [] {
    } else {
      hide AllFit, FitsLine;
      assert nodes[0] in nodes && forall n :: n in nodes[1..] ==> n in nodes;
      ProgramFits(nodes[1..]);
      FitNewline(ProgramTo(nodes[1..], [EOF]), CLOSE);
      NodeFits(nodes[0], Cons(NEWLINE, ProgramTo(nodes[1..], [EOF])));
    }
  }

  // ---- Layouts ----

  /** The pieces lay out the tokens up to the end of the file. */
  predicate LaysOut(pieces: seq<Piece>, ts: seq<Tok>) {
    TokensOf(pieces) + [EOF] == ts
  }

  /** A layout with a space before every token. */
  function Spaced(ts: seq<Tok>): seq<Piece> {
    if |ts| <= 1 then [] else [Piece(" ", None, "\n", ts[0])] + Spaced(ts[1..])
  }

  lemma {:induction false} SpacedPiece(t: Tok, last: Option<Tok>)
    requires Printable(t, last)
    ensures GoodPiece(Piece(" ", None, "\n", t), last)
  {
    hide Printable;
    assert AllBlank(" ") && AllWhite("\n");
  }

  /** Tokens that fit have a good layout. */
  lemma {:induction false} SpacedIsGood(ts: seq<Tok>, last: Option<Tok>)
    requires AllFit(ts, last)
    ensures Good(Spaced(ts), last) && LaysOut(Spaced(ts), ts)
    decreases |ts|
  {
    hide Printable, Good, TokensOf, GoodPiece;
    if ts == [EOF] {
      NothingIsGood(last);
    } else {
      var more := Spaced(ts[1..]);
      SpacedIsGood(ts[1..], Some(ts[0]));
      SpacedPiece(ts[0], last);
      GoodCons(Piece(" ", None, "\n", ts[0]), more, last);
      assert ts == [ts[0]] + ts[1..];
      assert [ts[0]] + TokensOf(more) + [EOF] == [ts[0]] + (TokensOf(more) + [EOF]);
    }
  }

  lemma NothingIsGood(last: Option<Tok>)
    ensures Good([], last) && TokensOf([]) == []
  {
  }

  lemma {:induction false} GoodCons(p: Piece, pieces: seq<Piece>, last: Option<Tok>)
    requires GoodPiece(p, last) && Good(pieces, Some(p.tok))
    ensures Good([p] + pieces, last) && TokensOf([p] + pieces) == [p.tok] + TokensOf(pieces)
  {
    hide GoodPiece;
    assert ([p] + pieces)[1..] == pieces;
  }

  /** Reading source text: lexing it, then parsing the tokens and the end of file after them. */
  function ReadProgram(source: string): Option<seq<Node>> {
    match Lex(source, None)
    case LexError => None
    case Lexed(toks) => Parse(toks + [EOF])
  }

  /** Every good layout of a printed program reads back as that program. */
  lemma {:induction false} ReadInvertsWrite(nodes: seq<Node>, pieces: seq<Piece>, tail: string)
    requires ProgramOk(nodes)
    requires LaysOut(pieces, ProgramTo(nodes, [EOF])) && Good(pieces, None) && AllBlank(tail)
    ensures ReadProgram(LayoutText(pieces) + tail) == Some(nodes)
  {
    hide Good, Lex, Parse, ProgramTo, LayoutText;
    LexUndoesLayout(pieces, None, tail);
    ParseInvertsPrint(nodes, [EOF]);
  }

  /** Every program that can be written down has such a layout. */
  lemma {:induction false} WritableHasText(nodes: seq<Node>)
    requires forall n :: n in nodes ==> NodeWritable(n)
    ensures LaysOut(Spaced(ProgramTo(nodes, [EOF])), ProgramTo(nodes, [EOF]))
    ensures Good(Spaced(ProgramTo(nodes, [EOF])), None)
  {
    hide NodeWritable, ProgramTo, Good, LaysOut, AllFit;
    ProgramFits(nodes);
    SpacedIsGood(ProgramTo(nodes, [EOF]), None);
  }

  // ---- What the parser returns can be printed ----

  ghost predicate AgentShaped(a: Agent) {
    KeysOk(a.properties) && forall h :: h in a.handlers ==> IsTrimmed(h.condition)
  }

  ghost predicate OpenShaped(open: Open) {
    match open
    case InAgent(a) => AgentShaped(a)
    case InHandler(h) => IsTrimmed(h.condition)
    case _ => true
  }

  lemma {:induction false} TrimIsTrimmed(s: string)
    ensures IsTrimmed(Trim(s))
  {
    var r := Trim(s);
    if r != [] {
      assert r[0] == TrimStart(s)[0];
    }
  }

  lemma {:induction false} SetPropertyKeys(properties: seq<(string, Value)>, key: string, v: Value)
    ensures var r := SetProperty(properties, key, v);
      && |r| >= |properties|
      && (forall i :: 0 <= i < |properties| ==> r[i].0 == properties[i].0)
      && (|r| > |properties| ==> |r| == |properties| + 1 && r[|properties|].0 == key)
      && (|r| > |properties| ==> forall i :: 0 <= i < |properties| ==> properties[i].0 != key)
    decreases |properties|
  {
    if properties != [] && properties[0].0 != key {
      SetPropertyKeys(properties[1..], key, v);
      var more := SetProperty(properties[1..], key, v);
      var r := [properties[0]] + more;
      assert forall i :: 0 < i < |properties| ==> r[i] == more[i - 1] && properties[i] == properties[1..][i - 1];
    }
  }

  lemma {:induction false} SetPropertyKeysOk(properties: seq<(string, Value)>, key: string, v: Value)
    requires KeysOk(properties) && IsPropertyKey(key)
    ensures KeysOk(SetProperty(properties, key, v))
  {
    hide SetProperty;
    SetPropertyKeys(properties, key, v);
  }

  lemma {:induction false} BlockShaped(ts: seq<Tok>, open: Open)
    requires OpenShaped(open) && Block(ts, open).Ok?
    ensures OpenShaped(Block(ts, open).value)
    decreases |ts|, 3
  {
    hide OpenShaped, Item;
    var more := SkipNewlineToks(ts);
    if !Check(more, BlockEnd) {
      ItemShaped(more, open);
      var Ok(open', rest) := Item(more, open);
      BlockShaped(SkipNewlineToks(rest), open');
    }
  }

  lemma {:induction false} ItemShaped(ts: seq<Tok>, open: Open)
    requires OpenShaped(open) && Item(ts, open).Ok?
    ensures OpenShaped(Item(ts, open).value)
    decreases |ts|, 2
  {
    hide WorkflowItem, StepItem, PipelineItem, StageItem, HandlerOf, IsTrimmed, KeysOk, AgentItem;
    match open
    case InAgent(a) => AgentItemShaped(ts, a);
    case _ =>
  }

  lemma {:induction false} AgentItemShaped(ts: seq<Tok>, a: Agent)
    requires AgentShaped(a) && AgentItem(ts, a).Ok?
    ensures AgentShaped(AgentItem(ts, a).value.agent)
    decreases |ts|, 1
  {
    hide HandlerOf, IsTrimmed, KeysOk, SetProperty, ValueOf, ListOf, PromptOf;
    if Check(ts, Keyword) {
      var word, more := Current(ts).value, Advanced(ts);
      if word == "when" {
        HandlerShaped(more);
      } else if IsPropertyKey(word) {
        SetPropertyKeysOk(a.properties, word, ValueOf(more).value);
      }
    }
  }

  lemma {:induction false} HandlerShaped(ts: seq<Tok>)
    requires HandlerOf(ts).Ok?
    ensures IsTrimmed(HandlerOf(ts).value.condition)
    decreases |ts|, 4
  {
    hide Block, ConditionOf, Trim, IsTrimmed, SkipNewlineToks;
    var (condition, more) := ConditionOf(ts, "");
    TrimIsTrimmed(condition);
    BlockShaped(OpenBrace((), more).rest, InHandler(Handler(Trim(condition), [])));
  }

  ghost predicate NodeShaped(n: Node) {
    n.AgentNode? ==> AgentShaped(n.agent)
  }

  lemma {:induction false} NodeOfShaped(ts: seq<Tok>)
    requires NodeOf(ts).Ok?
    ensures NodeShaped(NodeOf(ts).value)
  {
    hide Block, Header, IsTrimmed, WorkflowOf, PipelineOf;
    if CheckKeyword(ts, "agent") {
      var Ok(id, body) := Header(Advanced(ts));
      BlockShaped(body, InAgent(NewAgent(id)));
    }
  }

  lemma {:induction false} ProgramShaped(ts: seq<Tok>, nodes: seq<Node>)
    requires (forall n :: n in nodes ==> NodeShaped(n)) && ProgramRest(ts, nodes).Some?
    ensures forall n :: n in ProgramRest(ts, nodes).value ==> NodeShaped(n)
    decreases |ts|
  {
    hide NodeOf, NodeShaped;
    var more := SkipNewlineToks(ts);
    if !Check(more, Eof) {
      NodeOfShaped(more);
      var Ok(n, rest) := NodeOf(more);
      ProgramShaped(rest, nodes + [n]);
    }
  }

  /** A condition made only of spaces, which the parser trims away. */
  predicate HasBlankCondition(nodes: seq<Node>) {
    exists n :: n in nodes && n.AgentNode? && exists h :: h in n.agent.handlers && h.condition == ""
  }

  /** Whatever the parser returns, printing it gives tokens that parse to the same program again, exactly
      when no condition was blank. */
  lemma {:induction false} ParseOfPrintOfParse(ts: seq<Tok>)
    requires Parse(ts).Some?
    ensures Parse(ProgramTo(Parse(ts).value, [EOF])) == Parse(ts) <==> !HasBlankCondition(Parse(ts).value)
  {
    hide ProgramRest, ProgramTo, KeysOk, IsTrimmed, AllIdent;
    ProgramShaped(ts, []);
    var nodes := Parse(ts).value;
    if HasBlankCondition(nodes) {
      BlankProgramRefused(nodes, []);
    } else {
      assert ProgramOk(nodes) by {
        forall n | n in nodes
          ensures NodeOk(n)
        {
          assert NodeShaped(n);
        }
      }
      ParseInvertsPrint(nodes, [EOF]);
    }
  }

  /** A condition made only of spaces is read, and trimmed to nothing: a handler with a string of one space
      is one. */
  lemma {:induction false} BlankIsRead(k: seq<Tok>)
    ensures HandlerOf(Cons(StringTok(" "), Cons(OPEN, Cons(CLOSE, k)))) == Ok(Handler("", []), k)
  {
    hide Cons, Block, ConditionOf, Trim;
    var body := Cons(CLOSE, k);
    StringIsCondition(" ", Cons(OPEN, body));
    SpaceIsTrimmed();
    BlockUnfolds(body, InHandler(Handler("", [])));
    BlockCloses(k, InHandler(Handler("", [])));
  }

  lemma SpaceIsTrimmed()
    ensures Trim(" ") == ""
  {
  }

  /** A condition that is one string. */
  lemma {:induction false} StringIsCondition(s: string, k: seq<Tok>)
    requires Check(k, BlockStart)
    ensures ConditionOf(Cons(StringTok(s), k), "") == (s, k)
  {
    hide Cons;
    assert "" + s == s;
  }

  /** A program of one agent with such a handler is read, and what is printed for it is not. */
  lemma {:induction false} BlankConditionIsLost(id: string)
    ensures var ts := HeaderTo("agent", id, Cons(Key("when"), Cons(StringTok(" "), Cons(OPEN, Cons(CLOSE, Cons(CLOSE, [EOF]))))));
      var nodes := [AgentNode(NewAgent(id).(handlers := [Handler("", [])]))];
      Parse(ts) == Some(nodes) && Parse(ProgramTo(nodes, [EOF])) == None
  {
    hide Cons, HeaderTo, ProgramRest, ProgramTo, NodeOf, IsTrimmed, KeysOk;
    var a := NewAgent(id).(handlers := [Handler("", [])]);
    var body := Cons(Key("when"), Cons(StringTok(" "), Cons(OPEN, Cons(CLOSE, Cons(CLOSE, [EOF])))));
    var ts := HeaderTo("agent", id, body);
    BlankAgentIsRead(id, [EOF]);
    StartsWithKey("agent", id, body);
    ProgramRestUnfolds(ts, []);
    ProgramRestUnfolds([EOF], [AgentNode(a)]);
    assert [] + [AgentNode(a)] == [AgentNode(a)];
    BlankProgramRefused([AgentNode(a)], []) by {
      assert Handler("", []) in a.handlers && AgentNode(a) in [AgentNode(a)];
      NothingIsTrimmed();
    }
  }

  lemma {:induction false} BlankAgentIsRead(id: string, k: seq<Tok>)
    ensures var ts := HeaderTo("agent", id, Cons(Key("when"), Cons(StringTok(" "), Cons(OPEN, Cons(CLOSE, Cons(CLOSE, k))))));
      NodeOf(ts) == Ok(AgentNode(NewAgent(id).(handlers := [Handler("", [])])), k)
  {
    hide Cons, Block, HandlerOf, HeaderTo, Header, SkipNewlineToks;
    var a0 := NewAgent(id);
    var a := a0.(handlers := [Handler("", [])]);
    var end := Cons(CLOSE, k);
    var body := Cons(Key("when"), Cons(StringTok(" "), Cons(OPEN, Cons(CLOSE, end))));
    HeaderReads("agent", id, body);
    StartsWithKey("agent", id, body);
    BlankIsRead(end);
    ItemOfAgent(body, a0);
    BlockUnfolds(body, InAgent(a0));
    assert [] + [Handler("", [])] == [Handler("", [])];
    BlockUnfolds(end, InAgent(a));
    BlockCloses(k, InAgent(a));
  }

  lemma NothingIsTrimmed()
    ensures IsTrimmed("") && KeysOk([])
  {
  }

  lemma StartsWithKey(word: string, id: string, k: seq<Tok>)
    ensures Current(HeaderTo(word, id, k)) == Key(word)
  {
  }

  /** What is printed for a handler with such a condition is refused. */
  lemma {:induction false} BlankHandlerRefused(h: Handler, k: seq<Tok>)
    requires h.condition == ""
    ensures HandlerOf(Advanced(HandlerTo(h, k))) == Err
  {
    hide Cons, Block, Split, Trim, ActionsTo;
    BlankIsNotPlain();
    StringIsCondition("", Cons(OPEN, ActionsTo(h.actions, Cons(CLOSE, k))));
  }

  lemma {:induction false} BlankIsNotPlain()
    ensures !IsPlain("")
  {
    assert "" in Split("", ' ');
  }

  predicate SomeBlank(handlers: seq<Handler>) {
    exists h :: h in handlers && h.condition == ""
  }

  /** Handlers are read up to the first with a blank condition. */
  lemma {:induction false} BlankHandlersRefused(a: Agent, handlers: seq<Handler>, k: seq<Tok>)
    requires SomeBlank(handlers) && forall h :: h in handlers ==> IsTrimmed(h.condition)
    ensures Block(HandlersTo(handlers, k), InAgent(a)) == Err
    decreases |handlers|
  {
    hide Cons, Block, HandlerOf, ConditionTo, ActionsTo, IsTrimmed;
    var ts := HandlersTo(handlers, k);
    var more := HandlersTo(handlers[1..], k);
    assert handlers[0] in handlers && forall h :: h in handlers[1..] ==> h in handlers;
    ItemOfAgent(ts, a);
    if handlers[0].condition == "" {
      BlankHandlerRefused(handlers[0], Cons(NEWLINE, more));
      BlockUnfolds(ts, InAgent(a));
    } else {
      var a' := a.(handlers := a.handlers + [handlers[0]]);
      HandlerReads(handlers[0], Cons(NEWLINE, more));
      BlockLine(ts, InAgent(a), InAgent(a'), more);
      assert handlers == [handlers[0]] + handlers[1..];
      BlankHandlersRefused(a', handlers[1..], k);
    }
  }

  lemma {:induction false} BlankAgentRefused(a: Agent, k: seq<Tok>)
    requires AgentShaped(a) && SomeBlank(a.handlers)
    ensures AgentOf(Advanced(AgentTo(a, k))) == Err
  {
    hide Cons, Block, PropertiesTo, PromptTo, ToolsTo, HandlersTo, HeaderTo, Header, SkipNewlineToks, KeysOk, IsTrimmed, SomeBlank;
    var end := Cons(CLOSE, k);
    var handlers := HandlersTo(a.handlers, end);
    var tools := ToolsTo(a.tools, handlers);
    var prompt := PromptTo(a.prompt, tools);
    var body := PropertiesTo(a.properties, prompt);
    var a0 := NewAgent(a.id);
    HeaderReads("agent", a.id, body);
    BlockUnfolds(body, InAgent(a0));
    assert [] + a.properties == a.properties;
    PropertiesRead(a0, a.properties, prompt);
    var a1 := a0.(properties := a.properties);
    PromptReads(a1, a.prompt, tools);
    ToolsRead(a1.(prompt := a.prompt), a.tools, handlers);
    BlankHandlersRefused(a1.(prompt := a.prompt, tools := a.tools), a.handlers, end);
  }

  lemma {:induction false} BlankNodeRefused(n: Node, k: seq<Tok>)
    requires NodeShaped(n) && n.AgentNode? && SomeBlank(n.agent.handlers)
    ensures NodeOf(NodeTo(n, k)) == Err && Current(NodeTo(n, k)) == Key("agent")
  {
    hide AgentOf, AgentShaped, SomeBlank, PropertiesTo;
    BlankAgentRefused(n.agent, k);
  }

  /** A program is read up to the first agent with a blank condition, and then refused. */
  lemma {:induction false} BlankProgramRefused(nodes: seq<Node>, done: seq<Node>)
    requires HasBlankCondition(nodes) && forall n :: n in nodes ==> NodeShaped(n)
    ensures ProgramRest(ProgramTo(nodes, [EOF]), done) == None
    decreases |nodes|
  {
    hide Cons, ProgramRest, NodeOf, NodeTo, SkipNewlineToks, AgentShaped, AgentOk, SomeBlank;
    var n, ts := nodes[0], ProgramTo(nodes, [EOF]);
    var more := ProgramTo(nodes[1..], [EOF]);
    assert n in nodes && forall m :: m in nodes[1..] ==> m in nodes;
    ProgramRestUnfolds(ts, done);
    if n.AgentNode? && SomeBlank(n.agent.handlers) {
      BlankNodeRefused(n, Cons(NEWLINE, more));
    } else {
      ShapedIsOk(n);
      NodeReads(n, Cons(NEWLINE, more));
      NewlineProgram(Cons(NEWLINE, more), done + [n]);
      BlankIsLater(nodes);
      BlankProgramRefused(nodes[1..], done + [n]);
    }
  }

  lemma ShapedIsOk(n: Node)
    requires NodeShaped(n) && !(n.AgentNode? && SomeBlank(n.agent.handlers))
    ensures NodeOk(n)
  {
  }

  lemma {:induction false} BlankIsLater(nodes: seq<Node>)
    requires HasBlankCondition(nodes) && !(nodes[0].AgentNode? && SomeBlank(nodes[0].agent.handlers))
    ensures HasBlankCondition(nodes[1..])
  {
    assert nodes == [nodes[0]] + nodes[1..];
  }
}
