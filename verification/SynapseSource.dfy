/** What the lexer can produce, and what is therefore read from any source text: a program that can be
    written down again. */
module SynapseSource {
  import opened Options
  import opened Strings
  import opened SynapseTokens
  import opened SynapseLexer
  import opened LexerInverts
  import opened SynapseGrammar
  import opened SynapseParser
  import opened SynapsePrinter
  import opened SynapseRoundTrip

  // ---- Braces of a prompt ----

  predicate IsBrace(c: char) {
    c == '{' || c == '}'
  }

  function BraceIn(c: char): string {
    if IsBrace(c) then [c] else []
  }

  function Braces(s: string): string {
    if s == [] then [] else BraceIn(s[0]) + Braces(s[1..])
  }

  function BracesAll(parts: seq<string>): string {
    if parts == [] then [] else Braces(parts[0]) + BracesAll(parts[1..])
  }

  lemma {:induction false} BracesConcat(a: string, b: string)
    ensures Braces(a + b) == Braces(a) + Braces(b)
  {
    hide BraceIn;
    if a == [] {
      assert a + b == b;
    } else {
      var first, more, rest := BraceIn(a[0]), Braces(a[1..]), Braces(b);
      assert (a + b)[1..] == a[1..] + b && (a + b)[0] == a[0];
      BracesConcat(a[1..], b);
      assert first + (more + rest) == first + more + rest;
    }
  }

  /** Whether braces match depends on the braces alone. */
  lemma {:induction false} BalancedByBraces(s: string, depth: nat)
    ensures Balanced(s, depth) == Balanced(Braces(s), depth)
    decreases |s|
  {
    if s == [] {
    } else if IsBrace(s[0]) {
      var more := Braces(s[1..]);
      assert ([s[0]] + more)[1..] == more;
      if s[0] == '{' {
        BalancedByBraces(s[1..], depth + 1);
      } else if depth > 1 {
        BalancedByBraces(s[1..], depth - 1);
      }
    } else {
      assert Braces(s) == Braces(s[1..]);
      BalancedByBraces(s[1..], depth);
    }
  }

  lemma {:induction false} BracesTrimStart(s: string)
    ensures Braces(TrimStart(s)) == Braces(s)
  {
    if s != [] && IsSpace(s[0]) {
      BracesTrimStart(s[1..]);
    }
  }

  lemma {:induction false} BracesTrimEnd(s: string)
    ensures Braces(TrimEnd(s)) == Braces(s)
  {
    if s != [] && IsSpace(s[|s| - 1]) {
      BracesTrimEnd(s[..|s| - 1]);
      assert s == s[..|s| - 1] + [s[|s| - 1]];
      BracesConcat(s[..|s| - 1], [s[|s| - 1]]);
      NoBraces(s[|s| - 1]);
    }
  }

  lemma NoBraces(c: char)
    requires !IsBrace(c)
    ensures Braces([c]) == []
  {
  }

  lemma {:induction false} BracesTrimAll(lines: seq<string>)
    ensures BracesAll(TrimAll(lines)) == BracesAll(lines)
  {
    hide TrimStart, TrimEnd;
    if lines == [] {
    } else {
      BracesTrimStart(lines[0]);
      BracesTrimEnd(TrimStart(lines[0]));
      BracesTrimAll(lines[1..]);
      assert TrimAll(lines)[1..] == TrimAll(lines[1..]);
    }
  }

  lemma {:induction false} BracesAllConcat(a: seq<string>, b: seq<string>)
    ensures BracesAll(a + b) == BracesAll(a) + BracesAll(b)
  {
    hide Braces;
    if a == [] {
      assert a + b == b;
    } else {
      var first, more, rest := Braces(a[0]), BracesAll(a[1..]), BracesAll(b);
      assert (a + b)[1..] == a[1..] + b && (a + b)[0] == a[0];
      BracesAllConcat(a[1..], b);
      assert first + (more + rest) == first + more + rest;
    }
  }

  lemma {:induction false} BracesDropEnds(lines: seq<string>)
    requires lines != []
    ensures BracesAll(DropEmptyEnds(lines)) == BracesAll(lines)
  {
    hide Braces, BracesAll;
    var n := |lines|;
    NoBracesIn();
    BracesOne(lines[0]);
    BracesOne(lines[n - 1]);
    if n == 1 {
      assert lines == [lines[0]];
      assert lines[0..1] == lines && lines[1..1] == [] && lines[0..0] == [];
    } else {
      var middle := lines[1..n - 1];
      assert lines == [lines[0]] + middle + [lines[n - 1]];
      BracesAllConcat([lines[0]] + middle, [lines[n - 1]]);
      BracesAllConcat([lines[0]], middle);
      BracesAllConcat(middle, [lines[n - 1]]);
      assert lines[1..n] == middle + [lines[n - 1]];
      assert lines[0..n - 1] == [lines[0]] + middle;
      assert lines[0..n] == lines;
    }
  }

  lemma NoBracesIn()
    ensures Braces("") == [] && BracesAll([]) == []
  {
  }

  lemma {:induction false} BracesOne(s: string)
    ensures BracesAll([s]) == Braces(s)
  {
    assert [s][1..] == [];
    assert BracesAll([]) == [];
  }

  lemma {:induction false} BracesJoin(parts: seq<string>)
    ensures Braces(Join(parts, "\n")) == BracesAll(parts)
    decreases |parts|
  {
    if parts == [] {
    } else if |parts| == 1 {
      BracesOne(parts[0]);
      assert parts == [parts[0]];
    } else {
      BracesJoin(parts[1..]);
      BracesConcat(parts[0] + "\n", Join(parts[1..], "\n"));
      BracesConcat(parts[0], "\n");
      NoBraces('\n');
    }
  }

  lemma {:induction false} BlockIsBalanced(s: string, depth: nat)
    requires depth >= 1 && ReadBlock(s, depth).Reads?
    ensures Balanced(ReadBlock(s, depth).value, depth)
    decreases |s|
  {
    if s[0] == '{' {
      BlockIsBalanced(s[1..], depth + 1);
    } else if s[0] == '}' {
      if depth > 1 {
        BlockIsBalanced(s[1..], depth - 1);
      }
    } else {
      BlockIsBalanced(s[1..], depth);
    }
  }

  /** Normalising a prompt keeps its braces. */
  lemma {:induction false} NormalisedIsBalanced(s: string)
    requires Balanced(s, 1)
    ensures Balanced(Normalised(s), 1)
  {
    hide Split, TrimAll, DropEmptyEnds, Join, Braces, BracesAll, Balanced;
    var lines := Split(s, '\n');
    JoinSplit(s, '\n');
    BracesJoin(lines);
    BracesTrimAll(lines);
    BracesDropEnds(TrimAll(lines));
    BracesJoin(DropEmptyEnds(TrimAll(lines)));
    BalancedByBraces(s, 1);
    BalancedByBraces(Normalised(s), 1);
  }

  // ---- Lines of a prompt ----

  lemma {:induction false} SplitJoin(parts: seq<string>)
    requires parts != [] && forall p :: p in parts ==> '\n' !in p
    ensures Split(Join(parts, "\n"), '\n') == parts
    decreases |parts|
  {
    assert parts[0] in parts;
    SplitWithout(parts[0], '\n');
    if |parts| == 1 {
      assert parts == [parts[0]];
    } else {
      assert forall p :: p in parts[1..] ==> p in parts;
      SplitJoin(parts[1..]);
      SplitConcat(parts[0], Join(parts[1..], "\n"), '\n');
      assert parts == [parts[0]] + parts[1..];
    }
  }

  lemma {:induction false} NormalisedLines(s: string)
    ensures LinesTrimmed(Normalised(s))
  {
    hide Split, Join, Trim, IsTrimmed;
    var lines := TrimAll(Split(s, '\n'));
    PartsLack(s, '\n');
    forall l | l in lines
      ensures '\n' !in l && IsTrimmed(l)
    {
      var i :| 0 <= i < |lines| && lines[i] == l;
      TrimIsTrimmed(Split(s, '\n')[i]);
      TrimPart(Split(s, '\n')[i]);
      assert Split(s, '\n')[i] in Split(s, '\n');
    }
    hide TrimAll;
    var kept := DropEmptyEnds(lines);
    assert forall l :: l in kept ==> l in lines;
    if kept == [] {
      NothingSplit();
    } else {
      SplitJoin(kept);
    }
  }

  lemma NothingSplit()
    ensures LinesTrimmed(Join([], "\n"))
  {
  }

  // ---- Words ----

  lemma LooksIsWord(s: string)
    requires LooksLikeIdentWithHyphen(s)
    ensures IsWord(s)
  {
  }

  lemma {:induction false} AbsorbIsWord(value: string, rest: string)
    requires IsWord(value)
    ensures IsWord(Absorb(value, rest).value)
    decreases |rest|
  {
    hide IsWord, IsKeyword, LooksLikeIdentWithHyphen, Segment;
    if rest != [] && rest[0] == '-' && !(|rest| > 1 && rest[1] == '>') {
      var n := Segment(rest[1..]);
      var combined := value + rest[..n + 1];
      if IsKeyword(combined) {
        KeywordsAreWords(combined);
        AbsorbIsWord(combined, rest[n + 1..]);
      } else if LooksLikeIdentWithHyphen(combined) {
        LooksIsWord(combined);
        AbsorbIsWord(combined, rest[n + 1..]);
      }
    }
  }

  lemma {:induction false} ReadWordIsWord(s: string)
    requires s != [] && IsIdentStart(s[0])
    ensures IsWord(ReadWord(s).value)
  {
    hide IsWord, Absorb;
    var first := s[..Segment(s)];
    assert IsIdentChar(s[0]);
    PlainWord(first);
    AbsorbIsWord(first, s[Segment(s)..]);
  }

  // ---- Every token the lexer emits can follow the one before it ----

  lemma {:induction false} PromptIsPrintable(s: string, last: Option<Tok>)
    requires AfterPrompt(last) && LexPrompt(s).Emits?
    ensures Printable(LexPrompt(s).tok, last)
  {
    hide ReadBlock, Normalised, Balanced, LinesTrimmed;
    var v := ReadBlock(s, 1).value;
    BlockIsBalanced(s, 1);
    NormalisedIsBalanced(v);
    NormalisedLines(v);
  }

  lemma {:induction false} TokenIsPrintable(s: string, last: Option<Tok>)
    requires s != [] && LexToken(s, last).Emits?
    ensures Printable(LexToken(s, last).tok, last)
  {
    hide LexPrompt, ReadString, ReadWord, IsWord, IsKeyword, Balanced, LinesTrimmed;
    var c := s[0];
    if c == '{' && AfterPrompt(last) {
      PromptIsPrintable(s[1..], last);
    } else if IsIdentStart(c) {
      ReadWordIsWord(s);
    }
  }

  lemma {:induction false} StepIsPrintable(s: string, last: Option<Tok>)
    requires s != [] && !IsBlank(s[0]) && LexStep(s, last).Emits?
    ensures Printable(LexStep(s, last).tok, last)
  {
    hide LexToken, SkipNewlines, SkipComment, IsWord, IsKeyword, Balanced, LinesTrimmed;
    if !IsNewline(s[0]) && !(s[0] == '/' && |s| > 1 && s[1] == '/') {
      TokenIsPrintable(s, last);
    }
  }

  /** The tokens of any text fit, each after the one before it: whatever is lexed could be laid out. */
  lemma {:induction false} LexedFits(s: string, last: Option<Tok>)
    requires Lex(s, last).Lexed?
    ensures AllFit(Lex(s, last).toks + [EOF], last)
    decreases |s|
  {
    hide LexStep, Printable;
    var t := SkipBlanks(s);
    if t == [] {
      assert [] + [EOF] == [EOF];
    } else {
      match LexStep(t, last)
      case Skips(rest) => LexedFits(rest, last);
      case Emits(tok, rest) =>
        StepIsPrintable(t, last);
        LexedFits(rest, Some(tok));
        var more := Lex(rest, Some(tok)).toks;
        var ts := [tok] + more + [EOF];
        assert ts[1..] == more + [EOF];
    }
  }

  // ---- What the parser makes of such tokens ----

  ghost predicate TokOk(t: Tok) {
    match t.kind
    case Keyword => IsKeyword(t.value) && IsWord(t.value)
    case Identifier => !IsKeyword(t.value) && IsWord(t.value)
    case MultilineString => Balanced(t.value, 1) && LinesTrimmed(t.value)
    case _ => true
  }

  /** Tokens as the lexer emits them: in particular, no block opens right after `prompt`. */
  ghost predicate FromLexer(ts: seq<Tok>) {
    && (forall t :: t in ts ==> TokOk(t))
    && (forall i :: 0 < i < |ts| && ts[i].kind == BlockStart ==> !AfterPrompt(Some(ts[i - 1])))
  }

  lemma {:induction false} FitsFromLexer(ts: seq<Tok>, last: Option<Tok>)
    requires AllFit(ts, last)
    ensures FromLexer(ts)
    decreases |ts|
  {
    hide IsKeyword, IsWord, Balanced, LinesTrimmed;
    if ts == [EOF] {
    } else {
      FitsFromLexer(ts[1..], Some(ts[0]));
      assert ts == [ts[0]] + ts[1..];
      forall i | 0 < i < |ts| && ts[i].kind == BlockStart
        ensures !AfterPrompt(Some(ts[i - 1]))
      {
        if i > 1 {
          assert ts[1..][i - 1] == ts[i] && ts[1..][i - 2] == ts[i - 1];
        }
      }
    }
  }

  lemma {:induction false} AdvancedFromLexer(ts: seq<Tok>)
    requires FromLexer(ts)
    ensures FromLexer(Advanced(ts)) && TokOk(Current(ts))
    ensures ts != [] && Check(Advanced(ts), BlockStart) ==> !AfterPrompt(Some(Current(ts)))
  {
    hide TokOk;
    if ts == [] {
      EofIsOk();
    } else {
      var more := ts[1..];
      assert forall i :: 0 <= i < |more| ==> more[i] == ts[i + 1];
    }
  }

  lemma EofIsOk()
    ensures TokOk(EOF)
  {
  }

  lemma {:induction false} SkipFromLexer(ts: seq<Tok>)
    requires FromLexer(ts)
    ensures FromLexer(SkipNewlineToks(ts))
  {
    hide FromLexer;
    if Check(ts, Newline) {
      AdvancedFromLexer(ts);
      SkipFromLexer(Advanced(ts));
    }
  }

  lemma {:induction false} WordFromLexer(ts: seq<Tok>)
    requires FromLexer(ts) && ExpectIdentifier(ts).Ok?
    ensures IsWord(ExpectIdentifier(ts).value) && FromLexer(ExpectIdentifier(ts).rest)
  {
    hide IsWord, IsKeyword, FromLexer;
    AdvancedFromLexer(ts);
  }

  lemma {:induction false} BraceFromLexer(ts: seq<Tok>)
    requires FromLexer(ts) && OpenBrace((), ts).Ok?
    ensures FromLexer(OpenBrace((), ts).rest)
  {
    hide FromLexer, SkipNewlineToks;
    AdvancedFromLexer(ts);
    SkipFromLexer(Advanced(ts));
  }

  /** The identifier before a brace is a word other than `prompt`. */
  lemma {:induction false} HeaderFromLexer(ts: seq<Tok>)
    requires FromLexer(ts) && Header(ts).Ok?
    ensures NameOk(Header(ts).value) && FromLexer(Header(ts).rest)
  {
    hide FromLexer, SkipNewlineToks, IsWord;
    WordFromLexer(ts);
    AdvancedFromLexer(ts);
    BraceFromLexer(Advanced(ts));
    PromptIsKeyword();
    hide IsKeyword;
  }

  lemma PromptIsKeyword()
    ensures IsKeyword("prompt")
  {
  }

  lemma {:induction false} ListFromLexer(ts: seq<Tok>, items: seq<string>)
    requires FromLexer(ts) && ListRest(ts, items).Ok?
    ensures FromLexer(ListRest(ts, items).rest)
    decreases |ts|
  {
    hide FromLexer;
    SkipFromLexer(ts);
    var more := SkipNewlineToks(ts);
    AdvancedFromLexer(more);
    if !Check(more, ListEnd) {
      var next := Advanced(more);
      AdvancedFromLexer(next);
      SkipFromLexer(SkipComma(next));
      ListFromLexer(SkipNewlineToks(SkipComma(next)), items + [Current(more).value]);
    }
  }

  lemma {:induction false} ListOfFromLexer(ts: seq<Tok>)
    requires FromLexer(ts) && ListOf(ts).Ok?
    ensures FromLexer(ListOf(ts).rest)
  {
    hide FromLexer, ListRest;
    AdvancedFromLexer(ts);
    ListFromLexer(Advanced(ts), []);
  }

  lemma {:induction false} ValueFromLexer(ts: seq<Tok>)
    requires FromLexer(ts) && ValueOf(ts).Ok?
    ensures FromLexer(ValueOf(ts).rest)
  {
    hide FromLexer, ListOf;
    AdvancedFromLexer(ts);
    if Check(ts, ListStart) {
      ListOfFromLexer(ts);
    }
  }

  /** A prompt read from lexed text is always one token: it is never put together from others. */
  lemma {:induction false} PromptFromLexer(ts: seq<Tok>)
    requires FromLexer(ts) && Current(ts) == Key("prompt") && PromptOf(Advanced(ts)).Ok?
    ensures Check(Advanced(ts), MultilineString)
    ensures var r := PromptOf(Advanced(ts)); Balanced(r.value, 1) && LinesTrimmed(r.value) && FromLexer(r.rest)
  {
    hide FromLexer, PromptParts, Balanced, LinesTrimmed;
    AdvancedFromLexer(ts);
    AdvancedFromLexer(Advanced(ts));
  }

  lemma {:induction false} ConditionFromLexer(ts: seq<Tok>, condition: string)
    requires FromLexer(ts)
    ensures FromLexer(ConditionOf(ts, condition).1)
    decreases |ts|
  {
    hide FromLexer;
    var t := Current(ts);
    if t.kind != BlockStart && t.kind != Eof && t.kind != Newline {
      AdvancedFromLexer(ts);
      ConditionFromLexer(Advanced(ts), (if condition != "" then condition + " " else "") + t.value);
    }
  }

  // Blocks

  ghost predicate OpenWritable(open: Open) {
    match open
    case InAgent(a) => AgentWritable(a)
    case InHandler(h) => forall x :: x in h.actions ==> ActionWritable(x)
    case InWorkflow(w) => NodeWritable(WorkflowNode(w))
    case InStep(s) => StepWritable(s)
    case InPipeline(p) => NodeWritable(PipelineNode(p))
    case InStage(s) => forall t :: t in s.tasks ==> IsWord(t.agent)
  }

  ghost predicate ReadsWritable(r: Result<Open>) {
    r.Ok? ==> OpenWritable(r.value) && FromLexer(r.rest)
  }

  lemma {:induction false} BlockFromLexer(ts: seq<Tok>, open: Open)
    requires FromLexer(ts) && OpenWritable(open)
    ensures ReadsWritable(Block(ts, open))
    decreases |ts|, 3
  {
    hide OpenWritable, Item, FromLexer;
    SkipFromLexer(ts);
    var more := SkipNewlineToks(ts);
    if Check(more, BlockEnd) {
      AdvancedFromLexer(more);
    } else {
      ItemFromLexer(more, open);
      match Item(more, open)
      case Err =>
      case Ok(open', rest) =>
        SkipFromLexer(rest);
        BlockFromLexer(SkipNewlineToks(rest), open');
    }
  }

  lemma {:induction false} ItemFromLexer(ts: seq<Tok>, open: Open)
    requires FromLexer(ts) && OpenWritable(open)
    ensures ReadsWritable(Item(ts, open))
    decreases |ts|, 2
  {
    hide FromLexer, OpenWritable, AgentItem, HandlerItem, WorkflowItem, StepItem, PipelineItem, StageItem;
    match open
    case InAgent(a) => AgentItemFromLexer(ts, a);
    case InHandler(h) => HandlerItemFromLexer(ts, h);
    case InWorkflow(w) => WorkflowItemFromLexer(ts, w);
    case InStep(s) => StepItemFromLexer(ts, s);
    case InPipeline(p) => PipelineItemFromLexer(ts, p);
    case InStage(s) => StageItemFromLexer(ts, s);
  }

  lemma {:induction false} SetPropertyAmong(properties: seq<(string, Value)>, key: string, v: Value)
    ensures forall p :: p in SetProperty(properties, key, v) ==> p == (key, v) || p in properties
    decreases |properties|
  {
    if properties == [] {
    } else {
      SetPropertyAmong(properties[1..], key, v);
      assert properties == [properties[0]] + properties[1..];
    }
  }

  lemma {:induction false} AgentItemFromLexer(ts: seq<Tok>, a: Agent)
    requires FromLexer(ts) && OpenWritable(InAgent(a))
    ensures ReadsWritable(AgentItem(ts, a))
    decreases |ts|, 1
  {
    hide FromLexer, HandlerOf, ListOf, ValueOf, PromptOf, SetProperty, IsWord, IsKeyword, IsPropertyWord, Balanced, LinesTrimmed, ActionWritable;
    AdvancedFromLexer(ts);
    var word, more := Current(ts).value, Advanced(ts);
    if !AgentItem(ts, a).Ok? {
    } else if word == "prompt" {
      PromptFromLexer(ts);
    } else if word == "tools" {
      ListOfFromLexer(more);
    } else if word == "when" {
      HandlerFromLexer(more);
    } else {
      ValueFromLexer(more);
      KeywordIsPropertyWord(word);
      SetPropertyAmong(a.properties, word, ValueOf(more).value);
    }
  }

  lemma {:induction false} HandlerFromLexer(ts: seq<Tok>)
    requires FromLexer(ts) && HandlerOf(ts).Ok?
    ensures FromLexer(HandlerOf(ts).rest) && forall x :: x in HandlerOf(ts).value.actions ==> ActionWritable(x)
    decreases |ts|, 4
  {
    hide FromLexer, Block, ConditionOf, Trim, SkipNewlineToks, ActionWritable;
    ConditionFromLexer(ts, "");
    var (condition, more) := ConditionOf(ts, "");
    BraceFromLexer(more);
    BlockFromLexer(OpenBrace((), more).rest, InHandler(Handler(Trim(condition), [])));
  }

  lemma {:induction false} HandlerItemFromLexer(ts: seq<Tok>, h: Handler)
    requires FromLexer(ts) && OpenWritable(InHandler(h))
    ensures ReadsWritable(HandlerItem(ts, h))
  {
    hide FromLexer, ExpectIdentifier, IsWord;
    AdvancedFromLexer(ts);
    var more := Advanced(ts);
    AdvancedFromLexer(more);
    if ExpectIdentifier(more).Ok? {
      WordFromLexer(more);
    }
  }

  lemma {:induction false} ExpectFromLexer(ts: seq<Tok>, kind: TokenType)
    requires FromLexer(ts) && Expect(ts, kind).Ok?
    ensures FromLexer(Expect(ts, kind).rest)
  {
    hide FromLexer;
    AdvancedFromLexer(ts);
  }

  lemma {:induction false} WorkflowItemFromLexer(ts: seq<Tok>, w: Workflow)
    requires FromLexer(ts) && OpenWritable(InWorkflow(w))
    ensures ReadsWritable(WorkflowItem(ts, w))
    decreases |ts|, 1
  {
    hide FromLexer, StepOf, Expect, StepWritable, NameOk, IsWord, IsKeyword;
    AdvancedFromLexer(ts);
    var more := Advanced(ts);
    if !WorkflowItem(ts, w).Ok? {
    } else if CheckKeyword(ts, "trigger") {
      ExpectFromLexer(more, StringToken);
    } else {
      StepFromLexer(more);
    }
  }

  lemma {:induction false} StepFromLexer(ts: seq<Tok>)
    requires FromLexer(ts) && StepOf(ts).Ok?
    ensures FromLexer(StepOf(ts).rest) && StepWritable(StepOf(ts).value)
    decreases |ts|, 4
  {
    hide FromLexer, Block, Header, IsWord;
    HeaderFromLexer(ts);
    var Ok(id, body) := Header(ts);
    BlockFromLexer(body, InStep(NewStep(id)));
  }

  lemma {:induction false} StepItemFromLexer(ts: seq<Tok>, s: WorkflowStep)
    requires FromLexer(ts) && OpenWritable(InStep(s))
    ensures ReadsWritable(StepItem(ts, s))
  {
    hide FromLexer, ExpectIdentifier, Expect, IsWord, OnFailOf;
    AdvancedFromLexer(ts);
    var more := Advanced(ts);
    if ExpectIdentifier(more).Ok? {
      WordFromLexer(more);
    }
    if Expect(more, StringToken).Ok? {
      ExpectFromLexer(more, StringToken);
    }
  }

  lemma {:induction false} PipelineItemFromLexer(ts: seq<Tok>, p: Pipeline)
    requires FromLexer(ts) && OpenWritable(InPipeline(p))
    ensures ReadsWritable(PipelineItem(ts, p))
    decreases |ts|, 1
  {
    hide FromLexer, StageOf, IsWord, NameOk;
    AdvancedFromLexer(ts);
    if PipelineItem(ts, p).Ok? {
      StageFromLexer(Advanced(ts), if CheckKeyword(ts, "parallel") then Parallel else Then);
    }
  }

  lemma {:induction false} StageFromLexer(ts: seq<Tok>, kind: StageKind)
    requires FromLexer(ts) && StageOf(ts, kind).Ok?
    ensures FromLexer(StageOf(ts, kind).rest) && forall t :: t in StageOf(ts, kind).value.tasks ==> IsWord(t.agent)
    decreases |ts|, 4
  {
    hide FromLexer, Block, IsWord, SkipNewlineToks;
    BraceFromLexer(ts);
    BlockFromLexer(OpenBrace((), ts).rest, InStage(Stage(kind, [])));
  }

  lemma {:induction false} StageItemFromLexer(ts: seq<Tok>, s: Stage)
    requires FromLexer(ts) && OpenWritable(InStage(s))
    ensures ReadsWritable(StageItem(ts, s))
  {
    hide FromLexer, ExpectIdentifier, Expect, IsWord;
    AdvancedFromLexer(ts);
    if StageItem(ts, s).Ok? {
      WordFromLexer(Advanced(ts));
      var more := ExpectIdentifier(Advanced(ts)).rest;
      ExpectFromLexer(more, Arrow);
      ExpectFromLexer(Expect(more, Arrow).rest, StringToken);
    }
  }

  // Programs

  lemma {:induction false} NodeFromLexer(ts: seq<Tok>)
    requires FromLexer(ts) && NodeOf(ts).Ok?
    ensures NodeWritable(NodeOf(ts).value) && FromLexer(NodeOf(ts).rest)
  {
    hide FromLexer, Block, Header, IsWord, AgentWritable, StepWritable, NameOk;
    AdvancedFromLexer(ts);
    HeaderFromLexer(Advanced(ts));
    var Ok(id, body) := Header(Advanced(ts));
    NewIsWritable(id);
    BlockFromLexer(body, InAgent(NewAgent(id)));
    BlockFromLexer(body, InWorkflow(Workflow(id, None, [])));
    BlockFromLexer(body, InPipeline(Pipeline(id, [])));
  }

  lemma NewIsWritable(id: string)
    requires NameOk(id)
    ensures AgentWritable(NewAgent(id))
  {
  }

  lemma {:induction false} ProgramFromLexer(ts: seq<Tok>, nodes: seq<Node>)
    requires FromLexer(ts) && (forall n :: n in nodes ==> NodeWritable(n)) && ProgramRest(ts, nodes).Some?
    ensures forall n :: n in ProgramRest(ts, nodes).value ==> NodeWritable(n)
    decreases |ts|
  {
    hide FromLexer, NodeOf, NodeWritable;
    SkipFromLexer(ts);
    var more := SkipNewlineToks(ts);
    if !Check(more, Eof) {
      NodeFromLexer(more);
      var Ok(n, rest) := NodeOf(more);
      ProgramFromLexer(rest, nodes + [n]);
    }
  }

  /** Whatever is read from source text can be written down. */
  lemma {:induction false} ReadIsWritable(source: string)
    requires ReadProgram(source).Some?
    ensures forall n :: n in ReadProgram(source).value ==> NodeWritable(n)
  {
    hide Lex, AllFit, FromLexer, NodeWritable, ProgramRest;
    LexedFits(source, None);
    var ts := Lex(source, None).toks + [EOF];
    FitsFromLexer(ts, None);
    ProgramFromLexer(ts, []);
  }

  /** Reading, writing and reading again: every good layout of what was read from source text reads back
      as the same program, exactly when no condition was blank. */
  lemma {:induction false} WriteInvertsRead(source: string, pieces: seq<Piece>, tail: string)
    requires ReadProgram(source).Some?
    requires LaysOut(pieces, ProgramTo(ReadProgram(source).value, [EOF])) && Good(pieces, None) && AllBlank(tail)
    ensures ReadProgram(LayoutText(pieces) + tail) == ReadProgram(source) <==> !HasBlankCondition(ReadProgram(source).value)
  {
    hide Good, Lex, Parse, ProgramTo, LayoutText, HasBlankCondition;
    ParseOfPrintOfParse(Lex(source, None).toks + [EOF]);
    LexUndoesLayout(pieces, None, tail);
  }

  /** What was read from source text always has such a layout. */
  lemma {:induction false} ReadHasText(source: string)
    requires ReadProgram(source).Some?
    ensures var ts := ProgramTo(ReadProgram(source).value, [EOF]); LaysOut(Spaced(ts), ts) && Good(Spaced(ts), None)
  {
    hide ReadProgram, NodeWritable, ProgramTo, Good, LaysOut;
    ReadIsWritable(source);
    WritableHasText(ReadProgram(source).value);
  }
}
