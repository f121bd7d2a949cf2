/** Tokens of the Synapse language, and the characters that words are made of. */
module SynapseTokens {
  import opened Strings

  datatype TokenType =
    | Keyword | Identifier | StringToken | MultilineString
    | BlockStart | BlockEnd | ListStart | ListEnd
    | Arrow | Comma | Newline | Eof

  /** What the parser reads of a token. */
  datatype Tok = Tok(kind: TokenType, value: string)

  datatype Token = Token(tok: Tok, line: int, column: int)

  function Toks(tokens: seq<Token>): (r: seq<Tok>)
    ensures |r| == |tokens| && forall i :: 0 <= i < |r| ==> r[i] == tokens[i].tok
  {
    if tokens == [] then [] else Toks(tokens[..|tokens| - 1]) + [tokens[|tokens| - 1].tok]
  }

  const KEYWORDS: set<string> := {
    "agent", "workflow", "pipeline", "step", "when", "trigger", "action", "requires", "on-fail",
    "parallel", "then", "prompt", "tools", "name", "tier", "sections", "capabilities",
    "dependencies", "llm", "format", "escalates-to", "request", "notify", "include", "context"
  }

  predicate IsKeyword(s: string) {
    s in KEYWORDS
  }

  predicate IsWordTok(t: Tok) {
    t.kind == Keyword || t.kind == Identifier
  }

  const NEWLINE := Tok(Newline, "\\n")
  const EOF := Tok(Eof, "")

  predicate IsBlank(c: char) {
    c == ' ' || c == '\t'
  }

  predicate IsNewline(c: char) {
    c == '\n' || c == '\r'
  }

  /** The whole of `s` is hyphens, each followed by a segment that is not empty. */
  predicate IsHyphenTail(s: string)
    decreases |s|
  {
    s == [] || (s[0] == '-' && Segment(s[1..]) > 0 && IsHyphenTail(s[1..][Segment(s[1..])..]))
  }

  /** An identifier followed by at least one hyphenated segment. */
  predicate LooksLikeIdentWithHyphen(s: string) {
    s != [] && IsIdentStart(s[0]) && Segment(s) < |s| && IsHyphenTail(s[Segment(s)..])
  }

  /** A word: an identifier, or identifiers joined by hyphens. */
  predicate IsWord(s: string) {
    s != [] && IsIdentStart(s[0]) && IsHyphenTail(s[Segment(s)..])
  }

  /** The token of a word. */
  function WordTok(s: string): Tok {
    Tok(if IsKeyword(s) then Keyword else Identifier, s)
  }
}
