/** What an agent's properties may be called and how their values may be written, beside the one form
    that the printer uses. */
module SynapseForms {
  import opened Options
  import opened Strings
  import opened SynapseTokens
  import opened SynapseLexer
  import opened LexerInverts
  import opened SynapseGrammar
  import opened SynapseParser
  import opened SynapsePrinter
  import opened SynapseRoundTrip

  // ---- The words ----

  /** Each documented property, with any value, can be written down, and every layout of it reads back. */
  lemma {:induction false} DocumentedProperty(id: string, key: string, v: Value)
    requires NameOk(id)
    requires key in ["name", "tier", "sections", "capabilities", "dependencies", "llm", "format", "escalates-to", "context"]
    ensures var nodes := [AgentNode(NewAgent(id).(properties := [(key, v)]))];
      var spaced := Spaced(ProgramTo(nodes, [EOF]));
      && LaysOut(spaced, ProgramTo(nodes, [EOF])) && Good(spaced, None)
      && forall pieces, tail :: LaysOut(pieces, ProgramTo(nodes, [EOF])) && Good(pieces, None) && AllBlank(tail) ==>
           ReadProgram(LayoutText(pieces) + tail) == Some(nodes)
  {
    hide Good, LaysOut, ProgramTo, Spaced, LayoutText, ReadProgram, NameOk, AllBlank;
    var a := NewAgent(id).(properties := [(key, v)]);
    var nodes := [AgentNode(a)];
    assert NodeWritable(AgentNode(a));
    WritableHasText(nodes);
    assert NodeOk(AgentNode(a)) by { PropertyWordIsKeyword(key); }
    forall pieces, tail | LaysOut(pieces, ProgramTo(nodes, [EOF])) && Good(pieces, None) && AllBlank(tail)
      ensures ReadProgram(LayoutText(pieces) + tail) == Some(nodes)
    {
      ReadInvertsWrite(nodes, pieces, tail);
    }
  }

  /** A word that is none of these, and not one of the three with a form of their own. */
  predicate IsUnknown(word: string) {
    IsWord(word) && !IsPropertyWord(word) && word != "prompt" && word != "tools" && word != "when"
  }

  lemma {:induction false} UnknownIsIdentifier(word: string)
    requires IsUnknown(word)
    ensures WordTok(word) == Tok(Identifier, word)
  {
    hide IsWord, IsPropertyWord, IsKeyword;
    if IsKeyword(word) {
      KeywordIsPropertyWord(word);
    }
  }

  /** No property has such a name. */
  lemma {:induction false} UnknownItemRefused(word: string, a: Agent, k: seq<Tok>)
    requires IsUnknown(word)
    ensures AgentItem(Cons(WordTok(word), k), a) == Err
  {
    hide IsUnknown, IsKeyword, Cons;
    UnknownIsIdentifier(word);
  }

  /** A program whose agent starts with such a word is refused, however it is laid out. */
  lemma {:induction false} UnknownWordRefused(id: string, word: string, k: seq<Tok>, pieces: seq<Piece>, tail: string)
    requires IsUnknown(word)
    requires LaysOut(pieces, HeaderTo("agent", id, Cons(WordTok(word), k))) && Good(pieces, None) && AllBlank(tail)
    ensures ReadProgram(LayoutText(pieces) + tail) == None
  {
    hide Good, Lex, LayoutText, AllBlank, IsUnknown, HeaderTo, Header, Cons, Block, Item, SkipNewlineToks, ProgramRest;
    LexUndoesLayout(pieces, None, tail);
    var body := Cons(WordTok(word), k);
    var ts := HeaderTo("agent", id, body);
    UnknownIsIdentifier(word);
    HeaderReads("agent", id, body);
    StartsWithKey("agent", id, body);
    UnknownItemRefused(word, NewAgent(id), k);
    BlockUnfolds(body, InAgent(NewAgent(id)));
    ItemOfAgent(body, NewAgent(id));
    ProgramRestUnfolds(ts, []);
  }

  // ---- Values ----

  /** An item, and whether a comma follows it, and how many newlines then. */
  datatype Slot = Slot(item: Tok, comma: bool, newlines: nat)

  function NewlinesTo(n: nat, k: seq<Tok>): seq<Tok> {
    if n == 0 then k else Cons(NEWLINE, NewlinesTo(n - 1, k))
  }

  function SlotsTo(slots: seq<Slot>, k: seq<Tok>): seq<Tok> {
    if slots == [] then k
    else
      var more := NewlinesTo(slots[0].newlines, SlotsTo(slots[1..], k));
      Cons(slots[0].item, if slots[0].comma then Cons(COMMA, more) else more)
  }

  function ValuesOf(slots: seq<Slot>): (values: seq<string>)
    ensures |values| == |slots| && forall i :: 0 <= i < |slots| ==> values[i] == slots[i].item.value
  {
    if slots == [] then [] else [slots[0].item.value] + ValuesOf(slots[1..])
  }

  /** A list over any lines, with or without commas. */
  function LooseListTo(newlines: nat, slots: seq<Slot>, k: seq<Tok>): seq<Tok> {
    Cons(LIST_OPEN, NewlinesTo(newlines, SlotsTo(slots, Cons(LIST_CLOSE, k))))
  }

  /** An item is a word or a string, whatever its text. */
  ghost predicate SlotsOk(slots: seq<Slot>) {
    forall s :: s in slots ==> s.item.kind == Keyword || s.item.kind == Identifier || s.item.kind == StringToken
  }

  lemma {:induction false} SkipNewlinesTo(n: nat, k: seq<Tok>)
    ensures SkipNewlineToks(NewlinesTo(n, k)) == SkipNewlineToks(k)
  {
    hide Cons;
    if n == 0 {
    } else {
      SkipNewlinesTo(n - 1, k);
    }
  }

  lemma {:induction false} SlotsRead(slots: seq<Slot>, done: seq<string>, n: nat, k: seq<Tok>)
    requires SlotsOk(slots)
    ensures ListRest(NewlinesTo(n, SlotsTo(slots, Cons(LIST_CLOSE, k))), done) == Ok(done + ValuesOf(slots), k)
    decreases |slots|
  {
    hide Cons, ListRest, NewlinesTo, SkipNewlineToks, SkipComma;
    var end := Cons(LIST_CLOSE, k);
    var ts := SlotsTo(slots, end);
    SkipNewlinesTo(n, ts);
    if slots == [] {
      assert done + [] == done;
      SkipNothing(end);
      ListRestIs(NewlinesTo(n, end), done);
    } else {
      assert slots[0] in slots && forall s :: s in slots[1..] ==> s in slots;
      SkipNothing(ts);
      ListRestIs(NewlinesTo(n, ts), done);
      var more := NewlinesTo(slots[0].newlines, SlotsTo(slots[1..], end));
      SlotsRead(slots[1..], done + [slots[0].item.value], slots[0].newlines, k);
      CommaSkipped(slots, end);
      ListRestUnfolds(more, done + [slots[0].item.value]);
      assert done + [slots[0].item.value] + ValuesOf(slots[1..]) == done + ValuesOf(slots);
    }
  }

  lemma SkipNothing(ts: seq<Tok>)
    requires Current(ts).kind != Newline
    ensures SkipNewlineToks(ts) == ts
  {
  }

  lemma ListRestIs(ts: seq<Tok>, done: seq<string>)
    ensures ListRest(ts, done) == ListAt(SkipNewlineToks(ts), done)
  {
  }

  /** What follows an item once a comma is passed over; a newline is no comma. */
  lemma {:induction false} CommaSkipped(slots: seq<Slot>, k: seq<Tok>)
    requires slots != [] && SlotsOk(slots) && Current(k).kind != Comma
    ensures var more := NewlinesTo(slots[0].newlines, SlotsTo(slots[1..], k));
      SkipComma(Advanced(SlotsTo(slots, k))) == more
  {
    hide Cons;
    if !slots[0].comma {
      NoComma(slots[0].newlines, slots[1..], k);
    }
  }

  lemma NoComma(n: nat, slots: seq<Slot>, k: seq<Tok>)
    requires Current(k).kind != Comma && SlotsOk(slots)
    ensures Current(NewlinesTo(n, SlotsTo(slots, k))).kind != Comma
  {
  }

  /** A list reads as its items, with commas or without, on one line or over several. */
  lemma {:induction false} LooseListReads(newlines: nat, slots: seq<Slot>, k: seq<Tok>)
    requires SlotsOk(slots)
    ensures ListOf(LooseListTo(newlines, slots, k)) == Ok(ValuesOf(slots), k)
    ensures ValueOf(LooseListTo(newlines, slots, k)) == Ok(Items(ValuesOf(slots)), k)
  {
    hide Cons, ListRest, SlotsTo, NewlinesTo;
    SlotsRead(slots, [], newlines, k);
    assert [] + ValuesOf(slots) == ValuesOf(slots);
  }

  /** Any text reads as itself from a string, also one that is a word; so does any word without quotes. */
  lemma TextReads(s: string, k: seq<Tok>)
    ensures ValueOf(Cons(StringTok(s), k)) == Ok(Text(s), k)
    ensures IsWord(s) ==> ValueOf(Cons(WordTok(s), k)) == Ok(Text(s), k)
  {
    hide Cons, IsWord, IsKeyword;
  }

  /** An agent of one property reads back from every layout of any form of its value, on one line or
      over several. */
  lemma {:induction false} PropertyReads(id: string, key: string, v: Value, ts: seq<Tok>, n: nat, m: nat, pieces: seq<Piece>, tail: string)
    requires IsPropertyWord(key) && ValueOf(ts) == Ok(v, NewlinesTo(n, Cons(CLOSE, NewlinesTo(m, [EOF]))))
    requires LaysOut(pieces, HeaderTo("agent", id, Cons(Key(key), ts))) && Good(pieces, None) && AllBlank(tail)
    ensures ReadProgram(LayoutText(pieces) + tail) == Some([AgentNode(NewAgent(id).(properties := [(key, v)]))])
  {
    hide Good, Lex, LayoutText, AllBlank, HeaderTo, Header, Cons, Block, NewlinesTo, ProgramRest, IsPropertyWord, IsKeyword, Item, SkipNewlineToks;
    LexUndoesLayout(pieces, None, tail);
    var body := Cons(Key(key), ts);
    var end := NewlinesTo(m, [EOF]);
    var a0, a := NewAgent(id), NewAgent(id).(properties := [(key, v)]);
    HeaderReads("agent", id, body);
    StartsWithKey("agent", id, body);
    PropertyWordIsKeyword(key);
    ItemOfAgent(body, a0);
    PropertyItem(key, v, ts, a0, NewlinesTo(n, Cons(CLOSE, end)));
    BlockUnfolds(body, InAgent(a0));
    BlockUnfolds(NewlinesTo(n, Cons(CLOSE, end)), InAgent(a));
    SkipNewlinesTo(n, Cons(CLOSE, end));
    BlockUnfolds(Cons(CLOSE, end), InAgent(a));
    BlockCloses(end, InAgent(a));
    ProgramRestUnfolds(HeaderTo("agent", id, body), []);
    SkipNewlinesTo(m, [EOF]);
    ProgramRestUnfolds(end, [AgentNode(a)]);
    ProgramRestUnfolds([EOF], [AgentNode(a)]);
    assert [] + [AgentNode(a)] == [AgentNode(a)];
  }

  lemma PropertyItem(key: string, v: Value, ts: seq<Tok>, a: Agent, rest: seq<Tok>)
    requires IsPropertyKey(key) && ValueOf(ts) == Ok(v, rest) && a.properties == []
    ensures AgentItem(Cons(Key(key), ts), a) == Ok(InAgent(a.(properties := [(key, v)])), rest)
  {
    hide Cons, ValueOf;
  }

  // ---- An agent as it is written ----

  predicate IsLetter(c: char) {
    'a' <= c <= 'z' || 'A' <= c <= 'Z' || c == '_'
  }

  predicate IsName(s: string) {
    s != "" && IsLetter(s[0]) && forall i :: 0 <= i < |s| ==> IsLetter(s[i]) || '0' <= s[i] <= '9'
  }

  /** Names joined by hyphens are words too. */
  predicate IsHyphenated(s: string, parts: seq<string>) {
    && parts != [] && (forall i :: 0 <= i < |parts| ==> IsName(parts[i]))
    && s == Join(parts, "-")
  }

  lemma {:induction false} NameIsWord(s: string)
    requires IsName(s)
    ensures IsWord(s)
  {
    hide IsWord, Segment;
    PlainWord(s);
  }

  lemma {:induction false} HyphenatedIsWord(s: string, parts: seq<string>)
    requires IsHyphenated(s, parts)
    ensures IsWord(s)
    decreases |parts|
  {
    hide IsWord, IsName, Join;
    if |parts| == 1 {
      OneName(parts);
      NameIsWord(s);
    } else {
      var n := |parts| - 1;
      var front, last := parts[..n], parts[n];
      HyphenatedIsWord(Join(front, "-"), front);
      JoinSnoc(front, last);
      assert parts == front + [last];
      HyphenStep(Join(front, "-"), last);
    }
  }

  lemma OneName(parts: seq<string>)
    requires |parts| == 1
    ensures Join(parts, "-") == parts[0]
  {
  }

  lemma {:induction false} HyphenStep(front: string, last: string)
    requires IsWord(front) && IsName(last)
    ensures IsWord(front + "-" + last)
  {
    hide IsWord, Dash, LooksLikeIdentWithHyphen, AllIdent;
    DashIs(last);
    WordGrows(front, last);
    assert front + "-" + last == front + ("-" + last);
  }

  lemma DashIs(part: string)
    requires IsName(part)
    ensures Dash(part, "") == "-" + part && AllIdent(part)
  {
  }

  lemma {:induction false} JoinSnoc(parts: seq<string>, last: string)
    requires parts != []
    ensures Join(parts + [last], "-") == Join(parts, "-") + "-" + last
    decreases |parts|
  {
    if |parts| == 1 {
      assert (parts + [last])[1..] == [last];
    } else {
      assert (parts + [last])[1..] == parts[1..] + [last];
      JoinSnoc(parts[1..], last);
      assert parts[0] + "-" + (Join(parts[1..], "-") + "-" + last) == parts[0] + "-" + Join(parts[1..], "-") + "-" + last;
    }
  }

  predicate AreBlanks(s: string) {
    forall i :: 0 <= i < |s| ==> s[i] == ' ' || s[i] == '\t'
  }

  predicate AreBlankLines(s: string) {
    forall i :: 0 <= i < |s| ==> s[i] == ' ' || s[i] == '\t' || s[i] == '\n' || s[i] == '\r'
  }

  /** What stands between a value and the closing brace: blanks, or the end of the line, perhaps with a
      comment, and any blank lines. */
  datatype Gap = SameLine(blanks: string) | NewLine(blanks: string, comment: Option<string>, lines: string)

  predicate GapOk(g: Gap) {
    && AreBlanks(g.blanks)
    && (g.NewLine? ==>
          && g.lines != "" && AreBlankLines(g.lines)
          && (if g.comment.Some? then '\n' !in g.comment.value && g.lines[0] == '\n' else g.lines[0] == '\n' || g.lines[0] == '\r'))
  }

  function GapText(g: Gap): string {
    match g
    case SameLine(blanks) => blanks
    case NewLine(blanks, comment, lines) => blanks + (if comment.Some? then "//" + comment.value else "") + lines
  }

  lemma BlanksAre(s: string)
    ensures AreBlanks(s) ==> AllBlank(s)
    ensures AreBlankLines(s) ==> AllWhite(s)
  {
  }

  function GapPieces(g: Gap): seq<Piece> {
    match g
    case SameLine(blanks) => [Piece(blanks, None, "", CLOSE)]
    case NewLine(blanks, comment, lines) => [Piece(blanks, comment, lines, NEWLINE), Piece("", None, "", CLOSE)]
  }

  lemma {:induction false} GapPiecesOk(g: Gap, last: Tok)
    requires GapOk(g) && last.kind != Newline && last.kind != BlockStart
    ensures Good(GapPieces(g), Some(last)) && LayoutText(GapPieces(g)) == GapText(g) + "}"
    ensures TokensOf(GapPieces(g)) == if g.SameLine? then [CLOSE] else [NEWLINE, CLOSE]
  {
    hide GoodPiece;
    BlanksAre(g.blanks);
    ClosePiece("", Some(NEWLINE));
    ClosePiece(g.blanks, Some(last));
    var close := Piece("", None, "", CLOSE);
    NoPieces(Some(CLOSE));
    if g.SameLine? {
      PutBefore(Piece(g.blanks, None, "", CLOSE), [], Some(last));
      assert PieceText(Piece(g.blanks, None, "", CLOSE)) + "" == g.blanks + "}";
    } else {
      var newline := Piece(g.blanks, g.comment, g.lines, NEWLINE);
      NewlinePiece(g, last);
      PutBefore(close, [], Some(NEWLINE));
      PutBefore(newline, [close], Some(last));
      assert PieceText(newline) == GapText(g) && PieceText(close) + "" == "}";
      TokensConcat([newline], [close]);
    }
  }

  lemma NoPieces(last: Option<Tok>)
    ensures Good([], last) && LayoutText([]) == ""
  {
  }

  lemma ClosePiece(space: string, last: Option<Tok>)
    requires AreBlanks(space) && last.Some? && last.value.kind != BlockStart
    ensures GoodPiece(Piece(space, None, "", CLOSE), last)
  {
    BlanksAre(space);
  }

  lemma NewlinePiece(g: Gap, last: Tok)
    requires g.NewLine? && GapOk(g) && last.kind != Newline && last.kind != BlockStart
    ensures GoodPiece(Piece(g.blanks, g.comment, g.lines, NEWLINE), Some(last))
  {
    BlanksAre(g.blanks);
    BlanksAre(g.lines);
  }

  /** An agent of one documented property, a word or words joined by hyphens, is read as it is written:
      with any blanks between its words, and its body on the same line or on lines of its own. */
  lemma {:induction false} AgentTextReads(id: string, key: string, value: string, idParts: seq<string>, valueParts: seq<string>,
                                          b1: string, b2: string, lines: string, b3: string, gap: Gap, tail: string)
    requires IsHyphenated(id, idParts) && id != "prompt" && IsHyphenated(value, valueParts)
    requires key in ["name", "tier", "sections", "capabilities", "dependencies", "llm", "format", "escalates-to", "context"]
    requires AreBlanks(b1) && b1 != "" && AreBlanks(b2) && AreBlankLines(lines) && AreBlanks(b3) && b3 != "" && GapOk(gap) && AreBlanks(tail)
    ensures ReadProgram("agent" + b1 + id + b2 + "{" + lines + key + b3 + value + GapText(gap) + "}" + tail)
      == Some([AgentNode(NewAgent(id).(properties := [(key, Text(value))]))])
  {
    hide ReadProgram, IsWord, IsKeyword, IsHyphenated, ValueOf, HeaderTo, Good, LayoutText, TokensOf, GapOk, GapText, GapPieces, IsPropertyWord, AreBlanks, AreBlankLines, Cons;
    DocumentedIsProperty(key);
    HyphenatedIsWord(id, idParts);
    HyphenatedIsWord(value, valueParts);
    var pieces := HeadPieces(id, key, value, b1, b2, lines, b3) + GapPieces(gap);
    HeadPiecesOk(id, key, value, b1, b2, lines, b3, gap);
    BlanksAre(tail);
    var n := if gap.SameLine? then 0 else 1;
    var ts := Cons(WordTok(value), NewlinesTo(n, Cons(CLOSE, [EOF])));
    TextReads(value, NewlinesTo(n, Cons(CLOSE, [EOF])));
    PiecesLayOut(id, key, value, b1, b2, lines, b3, gap);
    PropertyReads(id, key, Text(value), ts, n, 0, pieces, tail);
    assert "agent" + b1 + id + b2 + "{" + lines + key + b3 + value + (GapText(gap) + "}") + tail
        == "agent" + b1 + id + b2 + "{" + lines + key + b3 + value + GapText(gap) + "}" + tail;
  }

  lemma DocumentedIsProperty(key: string)
    requires key in ["name", "tier", "sections", "capabilities", "dependencies", "llm", "format", "escalates-to", "context"]
    ensures IsPropertyWord(key)
  {
  }

  function HeadPieces(id: string, key: string, value: string, b1: string, b2: string, lines: string, b3: string): seq<Piece> {
    [Piece("", None, "", Key("agent")), Piece(b1, None, "", WordTok(id)), Piece(b2, None, "", OPEN),
     Piece(lines, None, "", Key(key)), Piece(b3, None, "", WordTok(value))]
  }

  lemma {:induction false} HeadPiecesOk(id: string, key: string, value: string, b1: string, b2: string, lines: string, b3: string, gap: Gap)
    requires IsWord(id) && id != "prompt" && IsPropertyWord(key) && IsWord(value) && GapOk(gap)
    requires AreBlanks(b1) && b1 != "" && AreBlanks(b2) && AreBlankLines(lines) && AreBlanks(b3) && b3 != ""
    ensures var pieces := HeadPieces(id, key, value, b1, b2, lines, b3) + GapPieces(gap);
      && Good(pieces, None)
      && LayoutText(pieces) == "agent" + b1 + id + b2 + "{" + lines + key + b3 + value + (GapText(gap) + "}")
  {
    hide IsWord, IsKeyword, IsPropertyWord, Good, LayoutText, GapOk, GapText, GapPieces, AreBlanks, AreBlankLines, GoodPiece, PieceText;
    var end := GapPieces(gap);
    GapPiecesOk(gap, WordTok(value));
    BlanksAre(b1);
    BlanksAre(b2);
    BlanksAre(lines);
    BlanksAre(b3);
    AgentIsPropertyWord();
    KeyPiece("", "agent", None);
    WordPiece(b1, id, Some(Key("agent")));
    OpenPiece(b2, Some(WordTok(id)));
    KeyPiece(lines, key, Some(OPEN));
    WordPiece(b3, value, Some(Key(key)));
    var p5, p4, p3, p2, p1 := Piece(b3, None, "", WordTok(value)), Piece(lines, None, "", Key(key)), Piece(b2, None, "", OPEN),
      Piece(b1, None, "", WordTok(id)), Piece("", None, "", Key("agent"));
    var q5 := [p5] + end;
    var q4 := [p4] + q5;
    var q3 := [p3] + q4;
    var q2 := [p2] + q3;
    PutBefore(p5, end, Some(Key(key)));
    PutBefore(p4, q5, Some(OPEN));
    PutBefore(p3, q4, Some(WordTok(id)));
    PutBefore(p2, q3, Some(Key("agent")));
    PutBefore(p1, q2, None);
    FiveBefore(p1, p2, p3, p4, p5, end);
    HeadText(b1 + id, b2 + "{", lines + key, b3 + value, GapText(gap) + "}");
    RegroupText(b1, id, b2, lines, key, b3, value, GapText(gap) + "}");
  }

  lemma FiveBefore(p1: Piece, p2: Piece, p3: Piece, p4: Piece, p5: Piece, end: seq<Piece>)
    ensures [p1, p2, p3, p4, p5] + end == [p1] + ([p2] + ([p3] + ([p4] + ([p5] + end))))
  {
  }

  lemma HeadText(a: string, b: string, c: string, d: string, e: string)
    ensures ("" + "agent") + (a + (b + (c + (d + e)))) == "agent" + a + b + c + d + e
  {
  }

  lemma {:induction false} RegroupText(b1: string, id: string, b2: string, lines: string, key: string, b3: string, value: string, e: string)
    ensures "agent" + (b1 + id) + (b2 + "{") + (lines + key) + (b3 + value) + e == "agent" + b1 + id + b2 + "{" + lines + key + b3 + value + e
  {
    var s0 := "agent";
    assert s0 + (b1 + id) == s0 + b1 + id;
    var s1 := s0 + b1 + id;
    assert s1 + (b2 + "{") == s1 + b2 + "{";
    var s2 := s1 + b2 + "{";
    assert s2 + (lines + key) == s2 + lines + key;
    var s3 := s2 + lines + key;
    assert s3 + (b3 + value) == s3 + b3 + value;
  }

  lemma AgentIsPropertyWord()
    ensures IsPropertyWord("agent") && AllBlank("") && AllWhite("")
  {
  }

  lemma {:induction false} PutBefore(p: Piece, pieces: seq<Piece>, last: Option<Tok>)
    requires GoodPiece(p, last) && Good(pieces, Some(p.tok))
    ensures Good([p] + pieces, last) && LayoutText([p] + pieces) == PieceText(p) + LayoutText(pieces)
  {
    hide GoodPiece, PieceText;
    assert ([p] + pieces)[1..] == pieces;
  }

  lemma {:induction false} KeyPiece(space: string, word: string, last: Option<Tok>)
    requires IsPropertyWord(word) && (last.None? || last == Some(OPEN)) && SpaceBefore(space, last)
    ensures GoodPiece(Piece(space, None, "", Key(word)), last) && PieceText(Piece(space, None, "", Key(word))) == space + word
  {
    hide IsWord, IsKeyword, IsPropertyWord, SpaceBefore;
    PropertyWordIsKeyword(word);
    KeywordsAreWords(word);
  }

  lemma {:induction false} WordPiece(space: string, word: string, last: Option<Tok>)
    requires IsWord(word) && last.Some? && last.value.kind != BlockStart && AllBlank(space) && space != ""
    ensures GoodPiece(Piece(space, None, "", WordTok(word)), last) && PieceText(Piece(space, None, "", WordTok(word))) == space + word
  {
    hide IsWord, IsKeyword, AllBlank;
  }

  lemma {:induction false} OpenPiece(space: string, last: Option<Tok>)
    requires last.Some? && last.value.kind != BlockStart && !AfterPrompt(last) && AllBlank(space)
    ensures GoodPiece(Piece(space, None, "", OPEN), last) && PieceText(Piece(space, None, "", OPEN)) == space + "{"
  {
    hide AllBlank;
  }

  lemma {:induction false} PiecesLayOut(id: string, key: string, value: string, b1: string, b2: string, lines: string, b3: string, gap: Gap)
    requires GapOk(gap)
    ensures var n := if gap.SameLine? then 0 else 1;
      LaysOut(HeadPieces(id, key, value, b1, b2, lines, b3) + GapPieces(gap),
              HeaderTo("agent", id, Cons(Key(key), Cons(WordTok(value), NewlinesTo(n, Cons(CLOSE, [EOF]))))))
  {
    hide IsKeyword, GapPieces, GapOk, HeadPieces, TokensOf, WordTok, NewlinesTo, Cons;
    var head, end := HeadPieces(id, key, value, b1, b2, lines, b3), GapPieces(gap);
    GapPiecesOk(gap, CLOSE);
    TokensConcat(head, end);
    HeadTokens(id, key, value, b1, b2, lines, b3);
    CloseTokens();
    FiveTokens(Key("agent"), WordTok(id), OPEN, Key(key), WordTok(value), TokensOf(end));
  }

  lemma CloseTokens()
    ensures [CLOSE] + [EOF] == NewlinesTo(0, Cons(CLOSE, [EOF]))
    ensures [NEWLINE, CLOSE] + [EOF] == NewlinesTo(1, Cons(CLOSE, [EOF]))
  {
    assert NewlinesTo(0, Cons(CLOSE, [EOF])) == Cons(CLOSE, [EOF]);
  }

  lemma FiveTokens(a: Tok, b: Tok, c: Tok, d: Tok, e: Tok, end: seq<Tok>)
    ensures [a, b, c, d, e] + end + [EOF] == Cons(a, Cons(b, Cons(c, Cons(d, Cons(e, end + [EOF])))))
  {
  }

  lemma {:induction false} HeadTokens(id: string, key: string, value: string, b1: string, b2: string, lines: string, b3: string)
    ensures TokensOf(HeadPieces(id, key, value, b1, b2, lines, b3)) == [Key("agent"), WordTok(id), OPEN, Key(key), WordTok(value)]
  {
    hide WordTok;
    var ps := HeadPieces(id, key, value, b1, b2, lines, b3);
    assert ps == [ps[0]] + ([ps[1]] + ([ps[2]] + ([ps[3]] + [ps[4]])));
    TokensConcat([ps[0]], [ps[1]] + ([ps[2]] + ([ps[3]] + [ps[4]])));
    TokensConcat([ps[1]], [ps[2]] + ([ps[3]] + [ps[4]]));
    TokensConcat([ps[2]], [ps[3]] + [ps[4]]);
    TokensConcat([ps[3]], [ps[4]]);
    forall p: Piece
      ensures TokensOf([p]) == [p.tok]
    {
      assert [p][1..] == [];
    }
  }

  lemma {:induction false} TokensConcat(a: seq<Piece>, b: seq<Piece>)
    ensures TokensOf(a + b) == TokensOf(a) + TokensOf(b)
    decreases |a|
  {
    if a == [] {
      assert a + b == b;
    } else {
      assert (a + b)[1..] == a[1..] + b;
      TokensConcat(a[1..], b);
    }
  }
}
