/** The Synapse lexer: what it reads from a source text, and the object that reads it. */
module SynapseLexer {
  import opened Options
  import opened Strings
  import opened SynapseTokens

  datatype Read = Fails | Reads(value: string, rest: string)

  function Before(c: char, r: Read): Read {
    match r
    case Fails => Fails
    case Reads(v, rest) => Reads([c] + v, rest)
  }

  // ---- Skipping ----

  function SkipBlanks(s: string): (r: string)
    ensures |r| <= |s| && (r != [] ==> !IsBlank(r[0]))
  {
    if s != [] && IsBlank(s[0]) then SkipBlanks(s[1..]) else s
  }

  /** Newlines, and the blanks between and after them. */
  function SkipNewlines(s: string): (r: string)
    ensures |r| <= |s|
  {
    if s != [] && (IsNewline(s[0]) || IsBlank(s[0])) then SkipNewlines(s[1..]) else s
  }

  function SkipComment(s: string): (r: string)
    ensures |r| <= |s|
  {
    if s != [] && s[0] != '\n' then SkipComment(s[1..]) else s
  }

  // ---- Readers ----

  function Unescaped(c: char): char {
    if c == 'n' then '\n' else if c == 't' then '\t' else c
  }

  /** The rest of a string literal, after its opening quote. */
  function ReadString(s: string): (r: Read)
    ensures r.Reads? ==> |r.rest| < |s|
    decreases |s|
  {
    if s == [] then Fails
    else if s[0] == '\\' then
      if |s| == 1 then Fails else Before(Unescaped(s[1]), ReadString(s[2..]))
    else if s[0] == '"' then Reads("", s[1..])
    else Before(s[0], ReadString(s[1..]))
  }

  /** The rest of a prompt block, with `depth` braces open. */
  function ReadBlock(s: string, depth: nat): (r: Read)
    ensures r.Reads? ==> |r.rest| < |s|
    decreases |s|
  {
    if s == [] then Fails
    else if s[0] == '{' then Before('{', ReadBlock(s[1..], depth + 1))
    else if s[0] == '}' then
      if depth <= 1 then Reads("", s[1..]) else Before('}', ReadBlock(s[1..], depth - 1))
    else Before(s[0], ReadBlock(s[1..], depth))
  }

  function TrimAll(lines: seq<string>): (r: seq<string>)
    ensures |r| == |lines| && forall i :: 0 <= i < |r| ==> r[i] == Trim(lines[i])
  {
    if lines == [] then [] else [Trim(lines[0])] + TrimAll(lines[1..])
  }

  /** Drop the first line if it is empty, and the last if it is. */
  function DropEmptyEnds(lines: seq<string>): seq<string>
    requires lines != []
  {
    var lo := if lines[0] == "" then 1 else 0;
    var hi := if lines[|lines| - 1] == "" then |lines| - 1 else |lines|;
    if lo <= hi then lines[lo..hi] else []
  }

  /** The text of a prompt block: its lines trimmed, without an empty first and last one. */
  function Normalised(s: string): string {
    Join(DropEmptyEnds(TrimAll(Split(s, '\n'))), "\n")
  }

  /** Absorb hyphenated segments for as long as the longer word is a keyword or looks like one. */
  function Absorb(value: string, rest: string): (r: Read)
    ensures r.Reads? && |r.rest| <= |rest|
    decreases |rest|
  {
    if rest == [] || rest[0] != '-' || (|rest| > 1 && rest[1] == '>') then Reads(value, rest)
    else
      var n := Segment(rest[1..]);
      var combined := value + rest[..n + 1];
      if IsKeyword(combined) || LooksLikeIdentWithHyphen(combined)
      then Absorb(combined, rest[n + 1..])
      else Reads(value, rest)
  }

  function ReadWord(s: string): (r: Read)
    requires s != [] && IsIdentStart(s[0])
    ensures r.Reads? && |r.rest| < |s|
  {
    Absorb(s[..Segment(s)], s[Segment(s)..])
  }

  // ---- The main loop ----

  /** One pass: an error, something skipped, or a token. */
  datatype Step = Bad | Skips(rest: string) | Emits(tok: Tok, rest: string)

  function EmitRead(kind: TokenType, r: Read): Step {
    match r
    case Fails => Bad
    case Reads(v, rest) => Emits(Tok(kind, v), rest)
  }

  predicate AfterPrompt(last: Option<Tok>) {
    last == Some(Tok(Keyword, "prompt"))
  }

  predicate NeedsNewline(last: Option<Tok>) {
    last.None? || (last.value.kind != Newline && last.value.kind != BlockStart)
  }

  function LexPrompt(s: string): (r: Step)
    ensures r.Bad? || (r.Emits? && |r.rest| < |s|)
  {
    match ReadBlock(s, 1)
    case Fails => Bad
    case Reads(v, rest) => Emits(Tok(MultilineString, Normalised(v)), rest)
  }

  /** The tokens of a single character, other than an opening brace. */
  function Punctuation(c: char): Option<Tok> {
    if c == '}' then Some(Tok(BlockEnd, "}"))
    else if c == '[' then Some(Tok(ListStart, "["))
    else if c == ']' then Some(Tok(ListEnd, "]"))
    else if c == ',' then Some(Tok(Comma, ","))
    else None
  }

  /** A token, from text that starts with neither white space nor a comment. */
  function LexToken(s: string, last: Option<Tok>): (r: Step)
    requires s != []
    ensures !r.Bad? ==> r.Emits? && |r.rest| < |s|
  {
    var c := s[0];
    if c == '"' then EmitRead(StringToken, ReadString(s[1..]))
    else if c == '-' && |s| > 1 && s[1] == '>' then Emits(Tok(Arrow, "->"), s[2..])
    else if c == '{' then
      if AfterPrompt(last) then LexPrompt(s[1..]) else Emits(Tok(BlockStart, "{"), s[1..])
    else if Punctuation(c).Some? then Emits(Punctuation(c).value, s[1..])
    else if IsIdentStart(c) then
      var r := ReadWord(s);
      Emits(WordTok(r.value), r.rest)
    else Bad
  }

  /** One pass over text that starts with neither a space nor a tab. */
  function LexStep(s: string, last: Option<Tok>): (r: Step)
    requires s != [] && !IsBlank(s[0])
    ensures !r.Bad? ==> |r.rest| < |s|
  {
    if IsNewline(s[0]) then
      var rest := SkipNewlines(s[1..]);
      if NeedsNewline(last) then Emits(NEWLINE, rest) else Skips(rest)
    else if s[0] == '/' && |s| > 1 && s[1] == '/' then Skips(SkipComment(s[2..]))
    else LexToken(s, last)
  }

  datatype LexResult = LexError | Lexed(toks: seq<Tok>)

  function After(toks: seq<Tok>, r: LexResult): LexResult {
    match r
    case LexError => LexError
    case Lexed(more) => Lexed(toks + more)
  }

  /** The tokens of `s` when `last` is the token before it. */
  function Lex(s: string, last: Option<Tok>): LexResult
    decreases |s|
  {
    var t := SkipBlanks(s);
    if t == [] then Lexed([])
    else
      match LexStep(t, last)
      case Bad => LexError
      case Skips(rest) => Lex(rest, last)
      case Emits(tok, rest) => After([tok], Lex(rest, Some(tok)))
  }

  // ---- The lexer object ----

  function LastOf(toks: seq<Tok>): Option<Tok> {
    if toks == [] then None else Some(toks[|toks| - 1])
  }

  class Lexer {
    const source: string
    var pos: nat
    var line: int
    var column: int
    var tokens: seq<Token>

    ghost predicate Valid()
      reads `pos
    {
      pos <= |source|
    }

    /** What is still to be read. */
    function Rest(): string
      reads `pos
      requires Valid()
    {
      source[pos..]
    }

    constructor (source: string)
      ensures Valid() && this.source == source && Rest() == source && tokens == []
    {
      this.source := source;
      pos, line, column, tokens := 0, 1, 1, [];
    }

    /** The whole source: `ok` is false where the original throws. */
    method Tokenize() returns (ok: bool)
      requires Valid()
      modifies this
      ensures Valid()
      ensures match After(Toks(old(tokens)), Lex(old(Rest()), LastOf(Toks(old(tokens)))))
        case LexError => !ok
        case Lexed(toks) => ok && Toks(tokens) == toks + [EOF]
    {
      hide LexStep, Toks, LastOf;
      ghost var whole := After(Toks(tokens), Lex(Rest(), LastOf(Toks(tokens))));
      SkipSpacesAndTabs();
      LexSkipsBlanks(old(Rest()), LastOf(Toks(tokens)));
      while pos < |source|
        invariant Valid() && Rest() == SkipBlanks(Rest())
        invariant After(Toks(tokens), Lex(Rest(), LastOf(Toks(tokens)))) == whole
        decreases |source| - pos
      {
        ghost var toks, rest := Toks(tokens), Rest();
        LexUnfolds(rest, toks);
        ok := NextToken();
        if !ok {
          return;
        }
        LexSkipsBlanks(Rest(), LastOf(Toks(tokens)));
        SkipSpacesAndTabs();
      }
      tokens := tokens + [Token(EOF, line, column)];
      ToksSnoc(tokens[..|tokens| - 1], tokens[|tokens| - 1]);
      ok := true;
    }

    /** One pass of the main loop. */
    method NextToken() returns (ok: bool)
      requires Valid() && Rest() != [] && !IsBlank(Rest()[0])
      modifies this
      ensures Valid()
      ensures match LexStep(old(Rest()), LastOf(Toks(old(tokens))))
        case Bad => !ok
        case Skips(rest) => ok && Rest() == rest && Toks(tokens) == Toks(old(tokens))
        case Emits(tok, rest) => ok && Rest() == rest && Toks(tokens) == Toks(old(tokens)) + [tok]
    {
      hide LexToken, SkipNewlines, SkipComment, NeedsNewline, Toks, LastOf;
      var ch := source[pos];
      if IsNewline(ch) {
        ReadNewline();
        return true;
      }
      if ch == '/' && pos + 1 < |source| && source[pos + 1] == '/' {
        ReadComment();
        return true;
      }
      var tok: Token;
      ok, tok := ReadToken();
      if ok {
        ToksSnoc(tokens, tok);
        tokens := tokens + [tok];
      }
    }

    method ReadToken() returns (ok: bool, tok: Token)
      requires Valid() && Rest() != []
      modifies `pos, `line, `column
      ensures Valid()
      ensures match LexToken(old(Rest()), LastOf(Toks(tokens)))
        case Bad => !ok
        case Emits(t, rest) => ok && tok.tok == t && Rest() == rest
        case Skips(_) => false
    {
      hide ReadString, ReadWord, LexPrompt, WordTok, Toks, LastOf;
      var ch := source[pos];
      LastOfTokens(tokens);
      ok := true;
      if ch == '"' {
        ok, tok := ReadStringToken();
      } else if ch == '-' && pos + 1 < |source| && source[pos + 1] == '>' {
        tok := MakeToken(Arrow, "->", 2);
      } else if ch == '{' {
        if |tokens| > 0 && tokens[|tokens| - 1].tok == Tok(Keyword, "prompt") {
          ok, tok := ReadPromptBlock();
        } else {
          tok := MakeToken(BlockStart, "{", 1);
        }
      } else if Punctuation(ch).Some? {
        var t := Punctuation(ch).value;
        tok := MakeToken(t.kind, t.value, 1);
      } else if IsIdentStart(ch) {
        tok := ReadIdentifierOrKeyword();
      } else {
        tok := Token(EOF, line, column);
        ok := false;
      }
    }

    method Advance()
      requires Valid() && pos < |source|
      modifies `pos, `column
      ensures Valid() && pos == old(pos) + 1 && column == old(column) + 1
      ensures Rest() == old(Rest())[1..]
    {
      assert source[pos..][1..] == source[pos + 1..];
      pos := pos + 1;
      column := column + 1;
    }

    /** The text left, by its first character. */
    lemma RestStarts()
      requires Valid()
      ensures pos < |source| ==> Rest() != [] && Rest()[0] == source[pos]
      ensures pos == |source| ==> Rest() == []
      ensures pos + 1 < |source| ==> |Rest()| > 1 && Rest()[1] == source[pos + 1]
      ensures pos + 1 >= |source| ==> |Rest()| <= 1
    {
    }

    method MakeToken(kind: TokenType, value: string, length: nat) returns (tok: Token)
      requires Valid() && pos + length <= |source|
      modifies `pos, `column
      ensures Valid() && pos == old(pos) + length && tok == Token(Tok(kind, value), line, old(column))
    {
      tok := Token(Tok(kind, value), line, column);
      for i := 0 to length
        invariant Valid() && pos == old(pos) + i
      {
        Advance();
      }
    }

    method SkipSpacesAndTabs()
      requires Valid()
      modifies `pos, `column
      ensures Valid() && Rest() == SkipBlanks(old(Rest()))
    {
      while pos < |source| && IsBlank(source[pos])
        invariant Valid() && SkipBlanks(Rest()) == SkipBlanks(old(Rest()))
        decreases |source| - pos
      {
        assert source[pos..][1..] == source[pos + 1..];
        Advance();
      }
    }

    method ReadComment()
      requires Valid() && pos + 2 <= |source| && source[pos] == '/' && source[pos + 1] == '/'
      modifies `pos, `column
      ensures Valid() && Rest() == SkipComment(old(Rest())[2..])
    {
      Advance();
      Advance();
      assert source[old(pos)..][2..] == source[pos..];
      while pos < |source| && source[pos] != '\n'
        invariant Valid() && SkipComment(Rest()) == SkipComment(old(Rest())[2..])
        decreases |source| - pos
      {
        assert source[pos..][1..] == source[pos + 1..];
        Advance();
      }
    }

    /** Collapse newlines; a token is made unless one just was, or a block was just opened. */
    method ReadNewline()
      requires Valid() && pos < |source| && IsNewline(source[pos])
      modifies this
      ensures Valid() && Rest() == SkipNewlines(old(Rest())[1..])
      ensures Toks(tokens) == Toks(old(tokens)) + if NeedsNewline(LastOf(Toks(old(tokens)))) then [NEWLINE] else []
    {
      hide Rest, LastOf, Toks;
      LastOfTokens(tokens);
      RestStarts();
      var needsToken := |tokens| == 0 || (tokens[|tokens| - 1].tok.kind != Newline && tokens[|tokens| - 1].tok.kind != BlockStart);
      while pos < |source| && (IsNewline(source[pos]) || IsBlank(source[pos]))
        invariant Valid() && tokens == old(tokens)
        invariant SkipNewlines(Rest()) == SkipNewlines(old(Rest())[1..])
        decreases |source| - pos
      {
        RestStarts();
        if source[pos] == '\r' {
          Advance();
          column := 1;
          RestStarts();
          if pos < |source| && source[pos] == '\n' {
            Advance();
            column := 1;
          }
          line := line + 1;
        } else if source[pos] == '\n' {
          Advance();
          line := line + 1;
          column := 1;
        } else {
          Advance();
        }
      }
      RestStarts();
      if needsToken {
        ToksSnoc(tokens, Token(NEWLINE, line, column));
        tokens := tokens + [Token(NEWLINE, line, column)];
      }
    }

    method ReadStringToken() returns (ok: bool, tok: Token)
      requires Valid() && pos < |source| && source[pos] == '"'
      modifies `pos, `line, `column
      ensures Valid()
      ensures match ReadString(old(Rest())[1..])
        case Fails => !ok
        case Reads(v, rest) => ok && tok.tok == Tok(StringToken, v) && Rest() == rest
    {
      hide Rest;
      var startLine, startCol := line, column;
      tok := Token(Tok(StringToken, ""), startLine, startCol);
      RestStarts();
      ghost var whole := ReadString(Rest()[1..]);
      Advance();
      var value := "";
      PrependNothing(ReadString(Rest()));
      while pos < |source|
        invariant Valid() && Prepend(value, ReadString(Rest())) == whole
        decreases |source| - pos
      {
        var ch := source[pos];
        RestStarts();
        if ch == '\\' {
          Advance();
          RestStarts();
          if pos >= |source| {
            return false, tok;
          }
          var escaped := Unescaped(source[pos]);
          PrependBefore(value, escaped, ReadString(Rest()[1..]));
          value := value + [escaped];
          Advance();
        } else if ch == '"' {
          Advance();
          assert value + "" == value;
          return true, Token(Tok(StringToken, value), startLine, startCol);
        } else {
          if ch == '\n' {
            line := line + 1;
            column := 1;
          }
          PrependBefore(value, ch, ReadString(Rest()[1..]));
          value := value + [ch];
          Advance();
        }
      }
      RestStarts();
      return false, tok;
    }

    method ReadPromptBlock() returns (ok: bool, tok: Token)
      requires Valid() && pos < |source| && source[pos] == '{'
      modifies `pos, `line, `column
      ensures Valid()
      ensures match LexPrompt(old(Rest())[1..])
        case Bad => !ok
        case Emits(t, rest) => ok && tok.tok == t && Rest() == rest
        case Skips(_) => false
    {
      hide Normalised, Rest;
      var startLine, startCol := line, column;
      tok := Token(Tok(MultilineString, ""), startLine, startCol);
      RestStarts();
      ghost var whole := ReadBlock(Rest()[1..], 1);
      Advance();
      var depth := 1;
      var value := "";
      PrependNothing(ReadBlock(Rest(), depth));
      while pos < |source| && depth > 0
        invariant Valid() && 1 <= depth
        invariant Prepend(value, ReadBlock(Rest(), depth)) == whole
        decreases |source| - pos
      {
        var ch := source[pos];
        RestStarts();
        if ch == '{' {
          depth := depth + 1;
          PrependBefore(value, ch, ReadBlock(Rest()[1..], depth));
          value := value + [ch];
          Advance();
        } else if ch == '}' {
          depth := depth - 1;
          if depth == 0 {
            Advance();
            assert value + "" == value;
            break;
          }
          PrependBefore(value, ch, ReadBlock(Rest()[1..], depth));
          value := value + [ch];
          Advance();
        } else {
          if ch == '\n' {
            line := line + 1;
            column := 0;
          }
          PrependBefore(value, ch, ReadBlock(Rest()[1..], depth));
          value := value + [ch];
          Advance();
        }
      }
      RestStarts();
      if depth != 0 {
        return false, tok;
      }
      return true, Token(Tok(MultilineString, Normalised(value)), startLine, startCol);
    }

    method ReadSegment() returns (segment: string)
      requires Valid()
      modifies `pos, `column
      ensures Valid() && old(pos) <= pos && segment == old(Rest())[..Segment(old(Rest()))] && Rest() == old(Rest())[Segment(old(Rest()))..]
    {
      hide Segment;
      segment := "";
      ghost var start := pos;
      while pos < |source| && IsIdentChar(source[pos])
        invariant Valid() && start <= pos && segment == source[start..pos]
        invariant Segment(source[start..]) == (pos - start) + Segment(source[pos..])
        decreases |source| - pos
      {
        assert source[pos..][1..] == source[pos + 1..];
        SegmentStep(source[pos..]);
        segment := segment + [source[pos]];
        Advance();
      }
      SegmentStep(source[pos..]);
      assert source[start..][..pos - start] == source[start..pos];
      assert source[start..][pos - start..] == source[pos..];
    }

    method ReadIdentifierOrKeyword() returns (tok: Token)
      requires Valid() && pos < |source| && IsIdentStart(source[pos])
      modifies `pos, `line, `column
      ensures Valid() && var r := ReadWord(old(Rest())); tok.tok == WordTok(r.value) && Rest() == r.rest
    {
      hide LooksLikeIdentWithHyphen, Segment, IsKeyword, Absorb, WordTok, Rest;
      var startLine, startCol := line, column;
      RestStarts();
      ghost var whole := ReadWord(Rest());
      var value := ReadSegment();
      RestStarts();
      while pos < |source| && source[pos] == '-' && !(pos + 1 < |source| && source[pos + 1] == '>')
        invariant Valid() && Absorb(value, Rest()) == whole
        decreases |source| - pos
      {
        var savedPos, savedCol, savedLine := pos, column, line;
        ghost var rest := source[pos..];
        SameRest(rest, pos);
        RestStarts();
        AbsorbStep(value, rest);
        Advance();
        var segment := ReadSegment();
        var combined := value + "-" + segment;
        CombinedSegment(value, rest, segment);
        if IsKeyword(combined) || LooksLikeIdentWithHyphen(combined) {
          value := combined;
        } else {
          pos, column, line := savedPos, savedCol, savedLine;
          SameRest(rest, savedPos);
          return Token(WordTok(value), startLine, startCol);
        }
      }
      RestStarts();
      AbsorbStops(value, Rest());
      tok := Token(WordTok(value), startLine, startCol);
    }

    lemma SameRest(rest: string, p: nat)
      requires Valid() && pos == p && rest == source[p..]
      ensures Rest() == rest
    {
    }
  }

  lemma {:induction false} CombinedSegment(value: string, rest: string, segment: string)
    requires rest != [] && rest[0] == '-' && segment == rest[1..][..Segment(rest[1..])]
    ensures value + "-" + segment == value + rest[..Segment(rest[1..]) + 1]
    ensures rest[1..][Segment(rest[1..])..] == rest[Segment(rest[1..]) + 1..]
  {
    hide Segment;
    var n := Segment(rest[1..]);
    assert rest[..n + 1] == "-" + rest[1..][..n];
    assert value + "-" + segment == value + ("-" + segment);
  }

  // ---- Lemmas for the object ----

  lemma {:induction false} AbsorbStep(value: string, rest: string)
    requires rest != [] && rest[0] == '-' && !(|rest| > 1 && rest[1] == '>')
    ensures var n := Segment(rest[1..]);
      var combined := value + rest[..n + 1];
      Absorb(value, rest) ==
        if IsKeyword(combined) || LooksLikeIdentWithHyphen(combined) then Absorb(combined, rest[n + 1..]) else Reads(value, rest)
  {
    hide Segment, LooksLikeIdentWithHyphen, IsKeyword;
  }

  lemma AbsorbStops(value: string, rest: string)
    requires !(rest != [] && rest[0] == '-' && !(|rest| > 1 && rest[1] == '>'))
    ensures Absorb(value, rest) == Reads(value, rest)
  {
  }

  function Prepend(value: string, r: Read): Read {
    match r
    case Fails => Fails
    case Reads(v, rest) => Reads(value + v, rest)
  }

  lemma {:induction false} PrependNothing(r: Read)
    ensures Prepend("", r) == r
  {
    if r.Reads? {
      assert "" + r.value == r.value;
    }
  }

  lemma {:induction false} PrependBefore(value: string, c: char, r: Read)
    ensures Prepend(value, Before(c, r)) == Prepend(value + [c], r)
  {
    if r.Reads? {
      assert value + ([c] + r.value) == (value + [c]) + r.value;
    }
  }

  lemma {:induction false} ToksSnoc(tokens: seq<Token>, t: Token)
    ensures Toks(tokens + [t]) == Toks(tokens) + [t.tok]
  {
    assert (tokens + [t])[..|tokens|] == tokens;
  }

  lemma LastOfTokens(tokens: seq<Token>)
    ensures LastOf(Toks(tokens)) == if tokens == [] then None else Some(tokens[|tokens| - 1].tok)
  {
  }

  lemma {:induction false} LexSkipsBlanks(s: string, last: Option<Tok>)
    ensures Lex(SkipBlanks(s), last) == Lex(s, last)
  {
    assert SkipBlanks(SkipBlanks(s)) == SkipBlanks(s);
  }

  /** How one pass changes what is left to lex. */
  lemma {:induction false} LexUnfolds(s: string, toks: seq<Tok>)
    requires s != [] && s == SkipBlanks(s)
    ensures After(toks, Lex(s, LastOf(toks))) ==
      match LexStep(s, LastOf(toks))
      case Bad => LexError
      case Skips(rest) => After(toks, Lex(rest, LastOf(toks)))
      case Emits(tok, rest) => After(toks + [tok], Lex(rest, LastOf(toks + [tok])))
  {
    hide LexStep;
    match LexStep(s, LastOf(toks))
    case Bad =>
    case Skips(_) =>
    case Emits(tok, rest) =>
      AfterAfter(toks, [tok], Lex(rest, Some(tok)));
  }

  lemma {:induction false} AfterAfter(a: seq<Tok>, b: seq<Tok>, r: LexResult)
    ensures After(a, After(b, r)) == After(a + b, r)
  {
    if r.Lexed? {
      assert a + (b + r.toks) == (a + b) + r.toks;
    }
  }
}
