/** The lexer undoes printing: text laid out from tokens, with any blanks, blank lines and comments
    that the language allows, lexes to those tokens. */
module LexerInverts {
  import opened Options
  import opened Strings
  import opened SynapseTokens
  import opened SynapseLexer

  // ---- The text of a token ----

  function Escaped(c: char): string {
    if c == '\\' then "\\\\"
    else if c == '"' then "\\\""
    else if c == '\n' then "\\n"
    else if c == '\t' then "\\t"
    else [c]
  }

  function Escape(s: string): string {
    if s == [] then [] else Escaped(s[0]) + Escape(s[1..])
  }

  /** The text of a token other than a newline. */
  function TextOf(t: Tok): string {
    match t.kind
    case StringToken => "\"" + Escape(t.value) + "\""
    case MultilineString => "{\n" + t.value + "\n}"
    case _ => t.value
  }

  // ---- Layouts ----

  /** A token with what stands before it: blanks and, before a newline, perhaps a comment. A newline
      is printed as `run`: a newline character followed by more newlines and blanks. */
  datatype Piece = Piece(blanks: string, comment: Option<string>, run: string, tok: Tok)

  function PieceText(p: Piece): string {
    if p.tok.kind == Newline then
      p.blanks + (if p.comment.Some? then "//" + p.comment.value else "") + p.run
    else p.blanks + TextOf(p.tok)
  }

  function LayoutText(pieces: seq<Piece>): string {
    if pieces == [] then [] else PieceText(pieces[0]) + LayoutText(pieces[1..])
  }

  function TokensOf(pieces: seq<Piece>): (toks: seq<Tok>)
    ensures |toks| == |pieces|
  {
    if pieces == [] then [] else [pieces[0].tok] + TokensOf(pieces[1..])
  }

  predicate AllBlank(s: string) {
    forall c :: c in s ==> IsBlank(c)
  }

  predicate AllWhite(s: string) {
    forall c :: c in s ==> IsNewline(c) || IsBlank(c)
  }

  /** Braces in `s` never close more than is open and are balanced, `depth` being open around it. */
  predicate Balanced(s: string, depth: nat) {
    if s == [] then depth == 1
    else if s[0] == '{' then Balanced(s[1..], depth + 1)
    else if s[0] == '}' then depth > 1 && Balanced(s[1..], depth - 1)
    else Balanced(s[1..], depth)
  }

  ghost predicate LinesTrimmed(s: string) {
    forall l :: l in Split(s, '\n') ==> IsTrimmed(l)
  }

  /** The token is one the lexer can produce after `last`. */
  ghost predicate Printable(t: Tok, last: Option<Tok>) {
    match t.kind
    case Keyword => IsKeyword(t.value) && IsWord(t.value)
    case Identifier => !IsKeyword(t.value) && IsWord(t.value)
    case StringToken => true
    case MultilineString => AfterPrompt(last) && Balanced(t.value, 1) && LinesTrimmed(t.value)
    case BlockStart => t.value == "{" && !AfterPrompt(last)
    case BlockEnd => t.value == "}"
    case ListStart => t.value == "["
    case ListEnd => t.value == "]"
    case Arrow => t.value == "->"
    case Comma => t.value == ","
    case Newline => t == NEWLINE && NeedsNewline(last)
    case Eof => false
  }

  /** What may stand before a token: blanks, and after an opening brace newlines too. */
  predicate SpaceBefore(space: string, last: Option<Tok>) {
    if last.Some? && last.value.kind == BlockStart then AllWhite(space) else AllBlank(space)
  }

  /** The layout of one piece after `last`: two words in a row need a blank between them. */
  ghost predicate GoodPiece(p: Piece, last: Option<Tok>) {
    && Printable(p.tok, last)
    && SpaceBefore(p.blanks, last)
    && (last.Some? && IsWordTok(last.value) && IsWordTok(p.tok) ==> p.blanks != [])
    && (p.tok.kind == Newline ==>
          && p.run != [] && IsNewline(p.run[0]) && AllWhite(p.run)
          && (p.comment.Some? ==> '\n' !in p.comment.value && p.run[0] == '\n'))
  }

  ghost predicate Good(pieces: seq<Piece>, last: Option<Tok>) {
    pieces != [] ==> GoodPiece(pieces[0], last) && Good(pieces[1..], Some(pieces[0].tok))
  }

  // ---- Readers undo printing ----

  lemma {:induction false} SkipBlanksOver(blanks: string, s: string)
    requires AllBlank(blanks)
    ensures SkipBlanks(blanks + s) == SkipBlanks(s)
  {
    if blanks == [] {
      assert blanks + s == s;
    } else {
      assert (blanks + s)[1..] == blanks[1..] + s;
      assert blanks[0] in blanks;
      SkipBlanksOver(blanks[1..], s);
    }
  }

  lemma {:induction false} SkipNewlinesOver(run: string, s: string)
    requires AllWhite(run)
    ensures SkipNewlines(run + s) == SkipNewlines(s)
  {
    if run == [] {
      assert run + s == s;
    } else {
      assert (run + s)[1..] == run[1..] + s;
      assert run[0] in run;
      SkipNewlinesOver(run[1..], s);
    }
  }

  lemma {:induction false} SkipCommentOver(comment: string, s: string)
    requires '\n' !in comment && s != [] && s[0] == '\n'
    ensures SkipComment(comment + s) == s
  {
    if comment == [] {
      assert comment + s == s;
    } else {
      assert (comment + s)[1..] == comment[1..] + s;
      assert comment[0] in comment;
      SkipCommentOver(comment[1..], s);
    }
  }

  lemma {:induction false} ReadStringEscape(v: string, rest: string)
    ensures ReadString(Escape(v) + "\"" + rest) == Reads(v, rest)
  {
    if v == [] {
      assert Escape(v) + "\"" + rest == "\"" + rest;
    } else {
      ReadStringEscape(v[1..], rest);
      var more := Escape(v[1..]) + "\"" + rest;
      assert Escape(v) + "\"" + rest == Escaped(v[0]) + more;
      ReadEscapedChar(v[0], more);
      assert v == [v[0]] + v[1..];
    }
  }

  lemma {:induction false} ReadEscapedChar(c: char, more: string)
    ensures ReadString(Escaped(c) + more) == Before(c, ReadString(more))
  {
    var s := Escaped(c) + more;
    if |Escaped(c)| == 2 {
      assert s[0] == '\\' && s[1] == Escaped(c)[1] && s[2..] == more;
    } else {
      assert s[0] == c && s[1..] == more;
    }
  }

  lemma {:induction false} ReadBlockBalanced(v: string, depth: nat, rest: string)
    requires Balanced(v, depth)
    ensures ReadBlock(v + "}" + rest, depth) == Reads(v, rest)
    decreases |v|
  {
    var s := v + "}" + rest;
    if v == [] {
      assert s[0] == '}' && s[1..] == rest;
    } else {
      assert s[0] == v[0] && s[1..] == v[1..] + "}" + rest;
      assert v == [v[0]] + v[1..];
      ReadBlockBalanced(v[1..], if v[0] == '{' then depth + 1 else if v[0] == '}' then depth - 1 else depth, rest);
    }
  }

  /** Everything is read through the closing brace of the block, newlines around it included. */
  lemma {:induction false} ReadPromptText(v: string, rest: string)
    requires Balanced(v, 1)
    ensures ReadBlock("\n" + v + "\n}" + rest, 1) == Reads("\n" + v + "\n", rest)
  {
    BalancedSnoc(v, 1);
    var w := v + "\n";
    assert "\n" + v + "\n}" + rest == "\n" + (w + "}" + rest);
    assert ("\n" + (w + "}" + rest))[1..] == w + "}" + rest;
    ReadBlockBalanced(w, 1, rest);
    assert "\n" + w == "\n" + v + "\n";
  }

  lemma {:induction false} BalancedSnoc(v: string, depth: nat)
    requires Balanced(v, depth)
    ensures Balanced(v + "\n", depth)
    decreases |v|
  {
    if v == [] {
      assert v + "\n" == "\n";
      assert "\n"[1..] == [];
    } else {
      assert (v + "\n")[1..] == v[1..] + "\n" && (v + "\n")[0] == v[0];
      BalancedSnoc(v[1..], if v[0] == '{' then depth + 1 else if v[0] == '}' then depth - 1 else depth);
    }
  }

  lemma {:induction false} TrimAllTrimmed(lines: seq<string>)
    requires forall l :: l in lines ==> IsTrimmed(l)
    ensures TrimAll(lines) == lines
  {
    forall i | 0 <= i < |lines|
      ensures TrimAll(lines)[i] == lines[i]
    {
      assert lines[i] in lines;
      TrimTrimmed(lines[i]);
    }
  }

  /** Normalising undoes the newlines printed inside the braces. */
  lemma {:induction false} NormalisedText(v: string)
    requires LinesTrimmed(v)
    ensures Normalised("\n" + v + "\n") == v
  {
    var lines := Split(v, '\n');
    SplitConcat("", v, '\n');
    assert "" + "\n" + v == "\n" + v;
    SplitConcat("\n" + v, "", '\n');
    assert ("\n" + v) + "\n" + "" == "\n" + v + "\n";
    var all := [""] + lines + [""];
    assert Split("\n" + v + "\n", '\n') == all;
    TrimAllTrimmed(all);
    assert DropEmptyEnds(all) == lines;
    JoinSplit(v, '\n');
  }

  // ---- Words ----

  /** What follows a word does not continue it. */
  predicate EndsWord(rest: string) {
    rest == [] || (!IsIdentChar(rest[0]) && (rest[0] != '-' || (|rest| > 1 && rest[1] == '>')))
  }

  function Dash(segment: string, rest: string): (r: string)
    ensures |r| == 1 + |segment| + |rest| && r[0] == '-' && r[1..] == segment + rest
  {
    "-" + (segment + rest)
  }

  lemma {:induction false} TailCons(segment: string, more: string)
    requires segment != [] && AllIdent(segment) && IsHyphenTail(more)
    ensures IsHyphenTail(Dash(segment, more))
  {
    hide Dash, AllIdent, Segment;
    SegmentIs(segment, more);
    assert (segment + more)[|segment|..] == more;
  }

  /** A hyphenated tail that is not empty is one segment and a shorter tail. */
  lemma {:induction false} TailUncons(tail: string) returns (segment: string, more: string)
    requires IsHyphenTail(tail) && tail != []
    ensures segment != [] && AllIdent(segment) && IsHyphenTail(more) && !StartsIdent(more)
    ensures tail == Dash(segment, more)
  {
    hide Segment;
    var s := tail[1..];
    segment, more := s[..Segment(s)], s[Segment(s)..];
    assert tail == [tail[0]] + s;
    assert s == segment + more;
  }

  lemma {:induction false} HyphenTailAppend(tail: string, other: string)
    requires IsHyphenTail(tail) && IsHyphenTail(other)
    ensures IsHyphenTail(tail + other)
    decreases |tail|
  {
    hide IsHyphenTail, AllIdent, Segment, StartsIdent;
    if tail == [] {
      assert tail + other == other;
    } else {
      var segment, more := TailUncons(tail);
      HyphenTailAppend(more, other);
      TailCons(segment, more + other);
      assert tail + other == Dash(segment, more + other);
    }
  }

  /** A word followed by a hyphenated segment is a word, and looks like one. */
  lemma {:induction false} WordGrows(word: string, segment: string)
    requires IsWord(word) && segment != [] && AllIdent(segment)
    ensures IsWord(word + Dash(segment, "")) && LooksLikeIdentWithHyphen(word + Dash(segment, ""))
  {
    hide IsHyphenTail, AllIdent, Segment, Dash;
    var n := Segment(word);
    var part := Dash(segment, "");
    assert IsHyphenTail("") by { EmptyTail(); }
    TailCons(segment, "");
    HyphenTailAppend(word[n..], part);
    WordHead(word);
    SegmentIs(word[..n], word[n..] + part);
    assert word + part == word[..n] + (word[n..] + part);
    assert (word + part)[n..] == word[n..] + part;
  }

  lemma EmptyTail()
    ensures IsHyphenTail("")
  {
  }

  /** The first segment of a word. */
  lemma {:induction false} WordHead(word: string)
    requires IsWord(word)
    ensures var n := Segment(word);
      && AllIdent(word[..n]) && (word[n..] != [] ==> word[n..][0] == '-') && IsWord(word[..n])
  {
    hide Segment;
    var n := Segment(word);
    assert AllIdent(word[..n]);
    assert word[..n] + "" == word[..n];
    SegmentIs(word[..n], "");
    assert word[..n][n..] == [];
  }

  /** One step of absorbing a tail. */
  lemma {:induction false} AbsorbDash(word: string, segment: string, rest: string)
    requires IsWord(word) && segment != [] && AllIdent(segment) && !StartsIdent(rest)
    ensures Absorb(word, Dash(segment, rest)) == Absorb(word + Dash(segment, ""), rest)
  {
    hide IsWord, LooksLikeIdentWithHyphen, IsKeyword, Segment, Absorb, Dash;
    var s := Dash(segment, rest);
    SegmentIs(segment, rest);
    assert s[1] == s[1..][0] == segment[0];
    AbsorbStep(word, s);
    assert s[..|segment| + 1] == Dash(segment, "") && s[|segment| + 1..] == rest by {
      hide *;
      DashSlices(segment, rest);
    }
    WordGrows(word, segment);
  }

  lemma {:induction false} DashSlices(segment: string, rest: string)
    ensures Dash(segment, rest)[..|segment| + 1] == Dash(segment, "")
    ensures Dash(segment, rest)[|segment| + 1..] == rest
  {
    assert Dash(segment, rest) == Dash(segment, "") + rest;
  }

  /** Reading a word's hyphenated tail absorbs all of it. */
  lemma {:induction false} AbsorbTail(word: string, tail: string, rest: string)
    requires IsWord(word) && IsHyphenTail(tail) && EndsWord(rest)
    ensures Absorb(word, tail + rest) == Reads(word + tail, rest)
    decreases |tail|
  {
    hide IsWord, IsHyphenTail, AllIdent, Segment, Absorb;
    if tail == [] {
      assert tail + rest == rest && word + tail == word;
      AbsorbStops(word, rest);
    } else {
      var segment, more := TailUncons(tail);
      assert tail + rest == Dash(segment, more + rest);
      AbsorbDash(word, segment, more + rest);
      WordGrows(word, segment);
      AbsorbTail(word + Dash(segment, ""), more, rest);
      assert word + Dash(segment, "") + more == word + tail;
    }
  }

  lemma {:induction false} ReadWordText(word: string, rest: string)
    requires IsWord(word) && EndsWord(rest)
    ensures ReadWord(word + rest) == Reads(word, rest)
  {
    hide Segment, Absorb, IsHyphenTail, IsWord, AllIdent;
    var s := word + rest;
    var n := Segment(word);
    var head, tail := word[..n], word[n..];
    WordHead(word);
    WordTail(word);
    SegmentIs(head, tail + rest);
    assert s == head + (tail + rest) && word == head + tail;
    AbsorbTail(head, tail, rest);
    assert s[..n] == head && s[n..] == tail + rest;
    assert IsIdentStart(s[0]);
  }

  lemma WordTail(word: string)
    requires IsWord(word)
    ensures IsHyphenTail(word[Segment(word)..]) && word != [] && IsIdentStart(word[0])
  {
  }

  // ---- One piece ----

  /** A token other than a newline, with nothing before it, is read back whole. */
  lemma {:induction false} LexTokenText(t: Tok, last: Option<Tok>, rest: string)
    requires Printable(t, last) && t.kind != Newline
    requires IsWordTok(t) ==> EndsWord(rest)
    ensures var s := TextOf(t) + rest;
      s != [] && !IsBlank(s[0]) && LexStep(s, last) == Emits(t, rest)
  {
    hide LexStep, Escape, IsWord, IsKeyword, Balanced, LinesTrimmed;
    match t.kind
    case StringToken => LexStringText(t.value, last, rest);
    case MultilineString => LexPromptText(t.value, last, rest);
    case Keyword => LexWordText(t, last, rest);
    case Identifier => LexWordText(t, last, rest);
    case _ => LexMarkText(t, last, rest);
  }

  lemma {:induction false} LexStringText(v: string, last: Option<Tok>, rest: string)
    ensures LexStep("\"" + Escape(v) + "\"" + rest, last) == Emits(Tok(StringToken, v), rest)
  {
    hide ReadString, ReadWord, LexPrompt, Escape;
    ReadStringEscape(v, rest);
    var s := "\"" + Escape(v) + "\"" + rest;
    assert s[0] == '"' && s[1..] == Escape(v) + "\"" + rest;
  }

  lemma {:induction false} LexPromptText(v: string, last: Option<Tok>, rest: string)
    requires AfterPrompt(last) && Balanced(v, 1) && LinesTrimmed(v)
    ensures LexStep("{\n" + v + "\n}" + rest, last) == Emits(Tok(MultilineString, v), rest)
  {
    hide ReadString, ReadBlock, ReadWord, Normalised, Balanced, LinesTrimmed;
    ReadPromptText(v, rest);
    NormalisedText(v);
    var s := "{\n" + v + "\n}" + rest;
    assert s[0] == '{' && s[1..] == "\n" + v + "\n}" + rest;
  }

  /** Tokens of fixed text. */
  lemma {:induction false} LexMarkText(t: Tok, last: Option<Tok>, rest: string)
    requires Printable(t, last) && t.kind in {Arrow, BlockStart, BlockEnd, ListStart, ListEnd, Comma}
    ensures var s := t.value + rest;
      s != [] && !IsBlank(s[0]) && LexStep(s, last) == Emits(t, rest)
  {
    hide ReadString, ReadWord, LexPrompt;
    var s := t.value + rest;
    if t.kind == Arrow {
      assert s[0] == '-' && s[1] == '>' && s[2..] == rest;
    } else {
      assert s[0] == t.value[0] && s[1..] == rest;
    }
  }

  lemma {:induction false} LexWordText(t: Tok, last: Option<Tok>, rest: string)
    requires Printable(t, last) && IsWordTok(t) && EndsWord(rest)
    ensures var s := t.value + rest;
      s != [] && !IsBlank(s[0]) && LexStep(s, last) == Emits(t, rest)
  {
    hide IsKeyword;
    ReadWordText(t.value, rest);
    assert (t.value + rest)[0] == t.value[0] && IsIdentStart(t.value[0]);
    hide ReadWord;
  }

  /** Text in which the next token is not a newline: skipping newlines skips only blanks. */
  predicate NoNewlineNext(s: string) {
    var t := SkipBlanks(s);
    t == [] || !IsNewline(t[0])
  }

  lemma {:induction false} SkipNewlinesIsBlanks(s: string)
    requires NoNewlineNext(s)
    ensures SkipNewlines(s) == SkipBlanks(s)
  {
    if s != [] && IsBlank(s[0]) {
      SkipNewlinesIsBlanks(s[1..]);
    }
  }

  lemma {:induction false} LexNewlineText(p: Piece, last: Option<Tok>, rest: string)
    requires GoodPiece(p, last) && p.tok.kind == Newline && NoNewlineNext(rest)
    ensures Lex(PieceText(p) + rest, last) == After([NEWLINE], Lex(rest, Some(NEWLINE)))
  {
    assert forall c :: c in p.run[1..] ==> c in p.run;
    hide LexStep, Lex, SkipNewlines, NoNewlineNext, AllBlank, SkipBlanks, IsKeyword, IsWord, Balanced, LinesTrimmed, PieceText;
    var run := p.run + rest;
    LexRun(p.run, last, rest);
    NewlineParts(p, rest);
    if p.comment.Some? {
      var s := "//" + p.comment.value + run;
      LexByBlanks(p.blanks, s, last);
      LexComment(p.comment.value, run, last);
    } else {
      LexByBlanks(p.blanks, run, last);
    }
  }

  /** The text of a newline with what stands before it. */
  lemma {:induction false} NewlineParts(p: Piece, rest: string)
    requires p.tok.kind == Newline
    ensures PieceText(p) + rest == p.blanks + (if p.comment.Some? then "//" + p.comment.value + (p.run + rest) else p.run + rest)
  {
    if p.comment.Some? {
      assert p.blanks + ("//" + p.comment.value) + p.run + rest == p.blanks + ("//" + p.comment.value + (p.run + rest));
    } else {
      assert p.blanks + "" + p.run + rest == p.blanks + (p.run + rest);
    }
  }

  lemma {:induction false} LexRun(run: string, last: Option<Tok>, rest: string)
    requires NeedsNewline(last) && run != [] && IsNewline(run[0]) && AllWhite(run[1..]) && NoNewlineNext(rest)
    ensures Lex(run + rest, last) == After([NEWLINE], Lex(rest, Some(NEWLINE)))
  {
    hide LexToken, SkipNewlines, NeedsNewline;
    var s := run + rest;
    assert s[0] == run[0] && s[1..] == run[1..] + rest;
    assert SkipBlanks(s) == s;
    SkipNewlinesOver(run[1..], rest);
    SkipNewlinesIsBlanks(rest);
    LexSkipsBlanks(rest, Some(NEWLINE));
  }

  lemma {:induction false} LexByBlanks(blanks: string, s: string, last: Option<Tok>)
    requires AllBlank(blanks)
    ensures Lex(blanks + s, last) == Lex(s, last)
  {
    hide Lex;
    SkipBlanksOver(blanks, s);
    LexSkipsBlanks(blanks + s, last);
    LexSkipsBlanks(s, last);
  }

  /** After an opening brace, newlines are skipped like blanks. */
  lemma {:induction false} LexAfterBrace(space: string, s: string, last: Option<Tok>)
    requires AllWhite(space) && last.Some? && last.value.kind == BlockStart
    requires s != [] && !IsBlank(s[0]) && !IsNewline(s[0])
    ensures Lex(space + s, last) == Lex(s, last)
  {
    hide LexToken;
    var t := space + s;
    if space == [] {
      assert t == s;
    } else {
      assert t[0] == space[0] && t[1..] == space[1..] + s && space[0] in space;
      assert forall c :: c in space[1..] ==> c in space;
      if IsBlank(space[0]) {
        LexAfterBrace(space[1..], s, last);
        assert t == [space[0]] + (space[1..] + s);
        LexByBlanks([space[0]], space[1..] + s, last);
      } else {
        SkipNewlinesOver(space[1..], s);
        assert SkipNewlines(s) == s && SkipBlanks(t) == t;
      }
    }
  }

  /** A comment is skipped up to the end of its line. */
  lemma {:induction false} LexComment(comment: string, run: string, last: Option<Tok>)
    requires '\n' !in comment && run != [] && run[0] == '\n'
    ensures Lex("//" + comment + run, last) == Lex(run, last)
  {
    hide LexToken, SkipComment;
    var s := "//" + comment + run;
    assert s[0] == '/' && s[1] == '/' && s[2..] == comment + run;
    assert SkipBlanks(s) == s;
    SkipCommentOver(comment, run);
  }

  lemma {:induction false} LexPieceText(p: Piece, last: Option<Tok>, rest: string)
    requires GoodPiece(p, last) && p.tok.kind != Newline
    requires IsWordTok(p.tok) ==> EndsWord(rest)
    ensures Lex(PieceText(p) + rest, last) == After([p.tok], Lex(rest, Some(p.tok)))
  {
    hide Printable, LexStep, TextOf;
    LexTokenText(p.tok, last, rest);
    var s := TextOf(p.tok) + rest;
    assert PieceText(p) + rest == p.blanks + s;
    if last.Some? && last.value.kind == BlockStart {
      TextStarts(p.tok, last, rest);
      LexAfterBrace(p.blanks, s, last);
    } else {
      LexByBlanks(p.blanks, s, last);
    }
    assert SkipBlanks(s) == s;
  }

  // ---- What follows a piece ----

  /** The text of a good layout, after a word, does not continue the word; after a newline it does
      not start with one. */
  lemma {:induction false} NextPiece(pieces: seq<Piece>, last: Tok, tail: string)
    requires Good(pieces, Some(last)) && EndsWord(tail) && NoNewlineNext(tail)
    ensures IsWordTok(last) ==> EndsWord(LayoutText(pieces) + tail)
    ensures last.kind == Newline ==> NoNewlineNext(LayoutText(pieces) + tail)
  {
    hide GoodPiece, PieceText, EndsWord, NoNewlineNext;
    if pieces == [] {
      assert LayoutText(pieces) + tail == tail;
    } else {
      var more := LayoutText(pieces[1..]) + tail;
      assert LayoutText(pieces) + tail == PieceText(pieces[0]) + more;
      NextPieceStart(pieces[0], last, more);
    }
  }

  lemma {:induction false} BlankTail(tail: string)
    requires AllBlank(tail)
    ensures EndsWord(tail) && NoNewlineNext(tail)
  {
    SkipBlanksOver(tail, "");
    assert tail + "" == tail;
    if tail != [] {
      assert tail[0] in tail;
    }
  }

  lemma {:induction false} NextPieceStart(p: Piece, last: Tok, more: string)
    requires GoodPiece(p, Some(last))
    ensures IsWordTok(last) ==> EndsWord(PieceText(p) + more)
    ensures last.kind == Newline ==> NoNewlineNext(PieceText(p) + more)
  {
    hide IsWord, IsKeyword, Balanced, LinesTrimmed, Escape;
    var s := PieceText(p) + more;
    if p.tok.kind == Newline {
      if p.blanks != [] {
        assert s[0] == p.blanks[0] && p.blanks[0] in p.blanks;
      } else if p.comment.Some? {
        assert s[0] == '/';
      } else {
        assert s[0] == p.run[0];
      }
    } else {
      var t := TextOf(p.tok) + more;
      assert s == p.blanks + t;
      if last.kind != BlockStart {
        SkipBlanksOver(p.blanks, t);
      }
      TextStarts(p.tok, Some(last), more);
      if p.blanks != [] {
        assert s[0] == p.blanks[0] && p.blanks[0] in p.blanks;
      } else {
        assert s == t;
      }
    }
  }

  /** How the text of a token starts. */
  lemma {:induction false} TextStarts(t: Tok, last: Option<Tok>, more: string)
    requires Printable(t, last) && t.kind != Newline
    ensures var s := TextOf(t) + more;
      && s != [] && !IsBlank(s[0]) && !IsNewline(s[0])
      && (IsWordTok(t) || EndsWord(s))
  {
    hide IsKeyword, Balanced, LinesTrimmed, Escape, IsHyphenTail, Segment;
    var s := TextOf(t) + more;
    match t.kind
    case StringToken => assert s[0] == '"';
    case MultilineString => assert s[0] == '{';
    case Arrow => assert s[0] == '-' && s[1] == '>';
    case Keyword | Identifier | BlockStart | BlockEnd | ListStart | ListEnd | Comma => assert s[0] == t.value[0];
    case _ =>
  }

  function LastTok(pieces: seq<Piece>, last: Option<Tok>): Option<Tok> {
    if pieces == [] then last else Some(pieces[|pieces| - 1].tok)
  }

  /** A good layout lexes to its tokens, and what follows it is lexed after them. */
  lemma {:induction false} LexOverLayout(pieces: seq<Piece>, last: Option<Tok>, tail: string)
    requires Good(pieces, last) && EndsWord(tail) && NoNewlineNext(tail)
    ensures Lex(LayoutText(pieces) + tail, last) == After(TokensOf(pieces), Lex(tail, LastTok(pieces, last)))
    decreases |pieces|
  {
    hide GoodPiece, PieceText, EndsWord, NoNewlineNext, Lex;
    if pieces == [] {
      assert LayoutText(pieces) + tail == tail;
      AfterNothing(Lex(tail, last));
    } else {
      var p := pieces[0];
      var rest := LayoutText(pieces[1..]) + tail;
      assert LayoutText(pieces) + tail == PieceText(p) + rest;
      NextPiece(pieces[1..], p.tok, tail);
      if p.tok.kind == Newline {
        NewlineTok(p, last);
        LexNewlineText(p, last, rest);
      } else {
        LexPieceText(p, last, rest);
      }
      LexOverLayout(pieces[1..], Some(p.tok), tail);
      AfterTwice([p.tok], TokensOf(pieces[1..]), Lex(tail, LastTok(pieces, last)));
    }
  }

  lemma {:induction false} AfterNothing(r: LexResult)
    ensures After([], r) == r
  {
    if r.Lexed? {
      assert [] + r.toks == r.toks;
    }
  }

  lemma {:induction false} AfterTwice(a: seq<Tok>, b: seq<Tok>, r: LexResult)
    ensures After(a, After(b, r)) == After(a + b, r)
  {
    if r.Lexed? {
      assert a + (b + r.toks) == a + b + r.toks;
    }
  }

  /** Lexing undoes any good layout. */
  lemma {:induction false} LexUndoesLayout(pieces: seq<Piece>, last: Option<Tok>, tail: string)
    requires Good(pieces, last) && AllBlank(tail)
    ensures Lex(LayoutText(pieces) + tail, last) == Lexed(TokensOf(pieces))
  {
    hide Good, LayoutText, AllBlank, EndsWord, NoNewlineNext;
    BlankTail(tail);
    LexOverLayout(pieces, last, tail);
    LexByBlanks(tail, "", LastTok(pieces, last));
    assert tail + "" == tail && TokensOf(pieces) + [] == TokensOf(pieces);
  }

  /** A character that no token starts with. */
  predicate IsForeign(c: char) {
    && !('a' <= c <= 'z') && !('A' <= c <= 'Z') && !('0' <= c <= '9') && c !in "_ \t\n\r\"{}[],-/"
  }

  /** Such a character outside strings, prompts and comments is an error, wherever it stands. */
  lemma {:induction false} ForeignRefused(pieces: seq<Piece>, c: char, rest: string)
    requires Good(pieces, None) && IsForeign(c)
    ensures Lex(LayoutText(pieces) + ([c] + rest), None) == LexError
  {
    hide Good, LayoutText, ReadString, ReadWord, LexPrompt;
    var s := [c] + rest;
    assert s[0] == c && SkipBlanks(s) == s;
    LexOverLayout(pieces, None, s);
  }

  lemma NewlineTok(p: Piece, last: Option<Tok>)
    requires GoodPiece(p, last) && p.tok.kind == Newline
    ensures p.tok == NEWLINE
  {
  }
}
