/** Strings as JavaScript trims, splits and joins them. */
module Strings {
  predicate IsIdentStart(c: char) {
    'a' <= c <= 'z' || 'A' <= c <= 'Z' || c == '_'
  }

  predicate IsIdentChar(c: char) {
    IsIdentStart(c) || '0' <= c <= '9'
  }

  /** How many characters from the front on can continue an identifier. */
  function Segment(s: string): (n: nat)
    ensures n <= |s| && (forall i :: 0 <= i < n ==> IsIdentChar(s[i])) && (n < |s| ==> !IsIdentChar(s[n]))
  {
    if s == [] || !IsIdentChar(s[0]) then 0 else 1 + Segment(s[1..])
  }

  lemma SegmentStep(s: string)
    ensures Segment(s) == if s != [] && IsIdentChar(s[0]) then 1 + Segment(s[1..]) else 0
  {
  }

  predicate AllIdent(s: string) {
    forall i :: 0 <= i < |s| ==> IsIdentChar(s[i])
  }

  predicate StartsIdent(s: string) {
    s != [] && IsIdentChar(s[0])
  }

  /** A segment ends where no character continues it. */
  lemma {:induction false} SegmentIs(segment: string, rest: string)
    requires AllIdent(segment) && !StartsIdent(rest)
    ensures Segment(segment + rest) == |segment|
  {
    hide Segment;
    var s := segment + rest;
    assert forall i :: 0 <= i < |segment| ==> s[i] == segment[i];
    assert rest != [] ==> s[|segment|] == rest[0];
  }

  /** White space as JavaScript's `trim` and `\s` take it. */
  predicate IsSpace(c: char) {
    || c == ' ' || c == '\t' || c == '\n' || c == '\r'
    || c as int in {0x0B, 0x0C, 0xA0, 0x1680, 0x2028, 0x2029, 0x202F, 0x205F, 0x3000, 0xFEFF}
    || 0x2000 <= c as int <= 0x200A
  }

  function TrimStart(s: string): (r: string)
    ensures |r| <= |s| && (r != [] ==> !IsSpace(r[0]))
  {
    if s != [] && IsSpace(s[0]) then TrimStart(s[1..]) else s
  }

  function TrimEnd(s: string): (r: string)
    ensures r <= s && (r != [] ==> !IsSpace(r[|r| - 1]))
  {
    if s != [] && IsSpace(s[|s| - 1]) then TrimEnd(s[..|s| - 1]) else s
  }

  function Trim(s: string): string {
    TrimEnd(TrimStart(s))
  }

  predicate IsTrimmed(s: string) {
    s == [] || (!IsSpace(s[0]) && !IsSpace(s[|s| - 1]))
  }

  lemma {:induction false} TrimTrimmed(s: string)
    ensures Trim(s) == s <==> IsTrimmed(s)
  {
    if IsTrimmed(s) {
    } else if IsSpace(s[0]) {
      assert |TrimStart(s)| < |s|;
    } else {
      assert |TrimEnd(s)| < |s|;
    }
  }

  /** The parts of a string between the occurrences of a character. */
  function Split(s: string, d: char): (parts: seq<string>)
    ensures parts != []
  {
    if s == [] then [""] else SplitCons(s[0], Split(s[1..], d), d)
  }

  function SplitCons(c: char, parts: seq<string>, d: char): (r: seq<string>)
    requires parts != []
    ensures r != []
  {
    if c == d then [""] + parts else [[c] + parts[0]] + parts[1..]
  }

  /** The parts with a separator between them. */
  function Join(parts: seq<string>, d: string): string {
    if parts == [] then ""
    else if |parts| == 1 then parts[0]
    else parts[0] + d + Join(parts[1..], d)
  }

  lemma {:induction false} JoinSplit(s: string, d: char)
    ensures Join(Split(s, d), [d]) == s
  {
    if s == [] {
    } else {
      JoinSplit(s[1..], d);
      var rest := Split(s[1..], d);
      assert s == [s[0]] + s[1..];
      if s[0] == d {
        assert ([""] + rest)[1..] == rest;
        assert Join([""] + rest, [d]) == "" + [d] + Join(rest, [d]);
      } else {
        JoinHead(s[0], rest, [d]);
      }
    }
  }

  lemma {:induction false} JoinHead(c: char, parts: seq<string>, d: string)
    requires parts != []
    ensures Join([[c] + parts[0]] + parts[1..], d) == [c] + Join(parts, d)
  {
    var parts' := [[c] + parts[0]] + parts[1..];
    assert parts'[1..] == parts[1..];
  }

  lemma {:induction false} SplitConcat(s: string, t: string, d: char)
    ensures Split(s + [d] + t, d) == Split(s, d) + Split(t, d)
  {
    if s == [] {
      assert s + [d] + t == [d] + t;
      assert ([d] + t)[1..] == t;
    } else {
      hide SplitCons;
      SplitConcat(s[1..], t, d);
      var whole := s + [d] + t;
      assert whole[1..] == s[1..] + [d] + t && whole[0] == s[0];
      SplitConsConcat(s[0], Split(s[1..], d), Split(t, d), d);
    }
  }

  lemma {:induction false} SplitConsConcat(c: char, p: seq<string>, q: seq<string>, d: char)
    requires p != []
    ensures SplitCons(c, p + q, d) == SplitCons(c, p, d) + q
  {
    assert (p + q)[0] == p[0] && (p + q)[1..] == p[1..] + q;
  }

  lemma {:induction false} SplitWithout(s: string, d: char)
    requires d !in s
    ensures Split(s, d) == [s]
  {
    if s == [] {
    } else {
      SplitWithout(s[1..], d);
      assert s == [s[0]] + s[1..];
    }
  }

  lemma {:induction false} PartsLack(s: string, d: char)
    ensures forall p :: p in Split(s, d) ==> d !in p
  {
    if s == [] {
    } else {
      PartsLack(s[1..], d);
    }
  }

  lemma {:induction false} TrimPart(s: string)
    ensures forall c :: c in Trim(s) ==> c in s
  {
    TrimStartPart(s);
  }

  lemma {:induction false} TrimStartPart(s: string)
    ensures exists n :: 0 <= n <= |s| && TrimStart(s) == s[n..]
  {
    if s != [] && IsSpace(s[0]) {
      TrimStartPart(s[1..]);
      var n :| 0 <= n <= |s| - 1 && TrimStart(s[1..]) == s[1..][n..];
      assert s[1..][n..] == s[n + 1..];
    } else {
      assert s[0..] == s;
    }
  }
}
