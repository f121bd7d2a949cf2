/** Reading an agent file gives back the agent that was registered when it was written, exactly for
    the specs whose values survive on one line. */
module AgentFileRoundTrip {
  import opened Options
  import opened Strings
  import opened AgentFile

  // ---- One value ----

  /** How a value written after a key is read. */
  function Reading(v: string): Yaml {
    ReadValue(Trim(v))
  }

  predicate NoEdgeQuotes(s: string) {
    s == "" || (!IsQuote(s[0]) && !IsQuote(s[|s| - 1]))
  }

  /** The value is read back as itself: trimmed, without quotes at its edges, not in brackets, and
      not a mark that opens a list. */
  predicate ScalarOk(v: string) {
    IsTrimmed(v) && NoEdgeQuotes(v) && !IsInlineList(v) && v != "|" && v != ">"
  }

  /** An item of a list is read back as itself. */
  predicate AtomOk(s: string) {
    s != "" && ',' !in s && IsTrimmed(s) && NoEdgeQuotes(s)
  }

  ghost predicate AtomsOk(items: seq<string>) {
    forall x :: x in items ==> AtomOk(x)
  }

  /** The characters of parts and of a separator after each. */
  function Size(parts: seq<string>): nat {
    if parts == [] then 0 else |parts[0]| + 1 + Size(parts[1..])
  }

  lemma {:induction false} JoinSize(parts: seq<string>)
    ensures parts != [] ==> |Join(parts, ",")| + 1 == Size(parts)
  {
    if |parts| > 1 {
      JoinSize(parts[1..]);
    } else if |parts| == 1 {
      assert parts[1..] == [];
    }
  }

  lemma TrimLength(s: string)
    ensures |Trim(s)| <= |s|
  {
  }

  lemma {:induction false} CleanAllSize(parts: seq<string>)
    ensures Size(CleanAll(parts)) <= Size(parts)
  {
    hide Trim, StripQuotes;
    if parts == [] {
    } else {
      var c := Clean(parts[0]);
      TrimLength(parts[0]);
      CleanAllSize(parts[1..]);
      var more := CleanAll(parts[1..]);
      assert ([c] + more)[1..] == more;
      assert [] + more == more;
    }
  }

  /** A value in brackets is read as something shorter. */
  lemma {:induction false} BracketsShrink(v: string)
    requires IsInlineList(v)
    ensures |AsString(ReadValue(v))| < |v|
  {
    hide CleanAll, Split, Join, Size;
    var inner := v[1..|v| - 1];
    var parts := Split(inner, ',');
    JoinSplit(inner, ',');
    JoinSize(parts);
    CleanAllSize(parts);
    JoinSize(CleanAll(parts));
    if CleanAll(parts) == [] {
      assert Join([], ",") == "" by { EmptyJoin(); }
    }
  }

  lemma EmptyJoin()
    ensures Join([], ",") == ""
  {
  }

  /** A scalar is read back as itself exactly when it is `ScalarOk`; otherwise it is read as a
      different text, or dropped. */
  lemma {:induction false} ScalarReadsBack(v: string)
    ensures AsString(Reading(v)) == v <==> ScalarOk(v)
    ensures ScalarOk(v) ==> Reading(v) != Str("")
  {
    hide Trim, Split, CleanAll, StripQuotes, IsInlineList, IsTrimmed, AsString;
    TrimTrimmed(v);
    TrimLength(v);
    var t := Trim(v);
    TextLength(t);
    ShorterTrim(v);
  }

  lemma {:induction false} ShorterTrim(v: string)
    ensures Trim(v) != v ==> |Trim(v)| < |v|
  {
    var t := TrimStart(v);
    if v != [] && IsSpace(v[0]) {
    } else {
      assert t == v;
    }
  }

  /** What a trimmed value is read as. */
  lemma {:induction false} TextLength(t: string)
    ensures |AsString(ReadValue(t))| <= |t|
    ensures AsString(ReadValue(t)) == t <==> NoEdgeQuotes(t) && !IsInlineList(t) && t != "|" && t != ">"
    ensures t == "" ==> ReadValue(t) == List([])
    ensures t != "" && AsString(ReadValue(t)) == t ==> ReadValue(t) == Str(t)
  {
    hide Split, CleanAll, StripQuotes;
    if IsInlineList(t) {
      BracketsShrink(t);
    } else {
      EmptyJoin();
    }
  }

  // ---- Lists ----

  /** Each item with a space before it, but for the first. */
  function Padded(items: seq<string>): seq<string> {
    if items == [] then [] else [" " + items[0]] + Padded(items[1..])
  }

  lemma {:induction false} TrimPad(s: string)
    ensures Trim(" " + s) == Trim(s)
  {
    assert (" " + s)[1..] == s;
  }

  lemma {:induction false} CleanPadded(items: seq<string>)
    ensures CleanAll(Padded(items)) == CleanAll(items)
  {
    hide Trim, StripQuotes;
    if items == [] {
    } else {
      TrimPad(items[0]);
      CleanPadded(items[1..]);
      assert Padded(items)[1..] == Padded(items[1..]);
    }
  }

  /** Splitting what was joined: the items, with the space of the separator. */
  lemma {:induction false} SplitJoined(items: seq<string>)
    requires items != [] && forall x :: x in items ==> ',' !in x
    ensures Split(Join(items, ", "), ',') == [items[0]] + Padded(items[1..])
    decreases |items|
  {
    hide Split;
    SplitWithout(items[0], ',');
    if |items| == 1 {
      assert items[1..] == [];
    } else {
      var more := Join(items[1..], ", ");
      assert items[0] + ", " + more == items[0] + "," + (" " + more);
      SplitConcat(items[0], " " + more, ',');
      SplitPad(more);
      SplitJoined(items[1..]);
      assert items[1..][1..] == items[2..];
    }
  }

  lemma {:induction false} SplitPad(s: string)
    ensures Split(" " + s, ',') == [" " + Split(s, ',')[0]] + Split(s, ',')[1..]
  {
    assert (" " + s)[1..] == s;
  }

  lemma {:induction false} CleanCommaFree(s: string)
    requires ',' !in s
    ensures ',' !in Clean(s)
  {
    TrimPart(s);
  }

  lemma {:induction false} CleanAllCommaFree(parts: seq<string>)
    requires forall p :: p in parts ==> ',' !in p
    ensures forall p :: p in CleanAll(parts) ==> ',' !in p
  {
    hide Clean;
    if parts == [] {
    } else {
      assert parts[0] in parts && forall p :: p in parts[1..] ==> p in parts;
      CleanCommaFree(parts[0]);
      CleanAllCommaFree(parts[1..]);
    }
  }

  predicate IsClean(s: string) {
    s != "" && Clean(s) == s
  }

  /** Cleaning keeps all the items exactly when there is nothing to clean. */
  lemma {:induction false} CleanAllKeeps(items: seq<string>)
    ensures CleanAll(items) == items <==> forall x :: x in items ==> IsClean(x)
  {
    hide CleanAll, IsClean;
    if forall x :: x in items ==> IsClean(x) {
      CleanAllOfClean(items);
    } else {
      var k :| 0 <= k < |items| && !IsClean(items[k]);
      CleanAllChanges(items, k);
    }
  }

  lemma {:induction false} CleanAllOfClean(items: seq<string>)
    requires forall x :: x in items ==> IsClean(x)
    ensures CleanAll(items) == items
  {
    hide Clean;
    if items == [] {
    } else {
      assert items[0] in items && forall x :: x in items[1..] ==> x in items;
      CleanAllOfClean(items[1..]);
      assert items == [items[0]] + items[1..];
    }
  }

  /** An item that is not clean is lost or changed. */
  lemma {:induction false} CleanAllChanges(items: seq<string>, k: nat)
    requires k < |items| && !IsClean(items[k])
    ensures CleanAll(items) != items
  {
    hide Clean;
    var c, more := Clean(items[0]), CleanAll(items[1..]);
    if c == "" {
      assert [] + more == more && |more| < |items|;
    } else {
      var cleaned := [c] + more;
      assert cleaned[0] == c && cleaned[1..] == more;
      if k > 0 {
        assert items[1..][k - 1] == items[k];
        CleanAllChanges(items[1..], k - 1);
      }
    }
  }

  lemma {:induction false} CleanIsAtom(s: string)
    requires ',' !in s
    ensures IsClean(s) <==> AtomOk(s)
  {
    hide Trim, StripQuotes, IsTrimmed;
    TrimTrimmed(s);
    TrimLength(s);
    ShorterTrim(s);
  }

  /** A written list is read back as itself exactly when all its items are `AtomOk`. */
  lemma {:induction false} ListReadsBack(items: seq<string>)
    ensures Reading(ListText(items)) == List(items) <==> AtomsOk(items)
  {
    hide Split, CleanAll, AtomOk, Join;
    BracketsRead(items);
    var parts := Split(Join(items, ", "), ',');
    if forall x :: x in items ==> ',' !in x {
      JoinedCleans(items);
      CleanAllKeeps(items);
      forall x | x in items
        ensures IsClean(x) <==> AtomOk(x)
      {
        CleanIsAtom(x);
      }
    } else {
      PartsLack(Join(items, ", "), ',');
      CleanAllCommaFree(parts);
      var x :| x in items && ',' in x;
      assert !AtomOk(x) by { CommaIsNoAtom(x); }
    }
  }

  lemma CommaIsNoAtom(x: string)
    requires ',' in x
    ensures !AtomOk(x)
  {
  }

  lemma {:induction false} BracketsRead(items: seq<string>)
    ensures Reading(ListText(items)) == List(CleanAll(Split(Join(items, ", "), ',')))
  {
    hide Split, CleanAll, Join, Trim;
    var t := ListText(items);
    TrimTrimmed(t);
    assert t[1..|t| - 1] == Join(items, ", ");
  }

  lemma {:induction false} JoinedCleans(items: seq<string>)
    requires forall x :: x in items ==> ',' !in x
    ensures CleanAll(Split(Join(items, ", "), ',')) == CleanAll(items)
  {
    if items == [] {
      assert Split("", ',') == [""];
      assert Clean("") == "";
      assert [""][1..] == [];
    } else {
      hide Split, Clean, Join;
      SplitJoined(items);
      CleanPadded(items[1..]);
      assert ([items[0]] + Padded(items[1..]))[1..] == Padded(items[1..]);
    }
  }

  // ---- One line ----

  predicate IsKey(key: string) {
    key != "" && AllIdent(key)
  }

  /** A line of a key and a value sets that key, and no other. */
  lemma {:induction false} LineReads(st: YamlState, key: string, v: string)
    requires IsKey(key) && OneLine(v)
    ensures YamlLine(st, LineOf((key, v))).result == st.result[key := Reading(v)]
  {
    hide Segment, Trim, TrimStart, ReadValue, IsSpace, IsInlineList;
    var line := LineOf((key, v));
    KeySegment(key, v);
    KeyIsNoSpace(key[0]);
    assert line[0] == key[0];
    TrimStarts(line);
    assert line[|key| + 1..] == " " + v;
    TrimPad(v);
    TrimStartPad(v);
    OneLineTrim(v);
    assert line[..|key|] == key;
    assert KeyValue(line) == Some((key, Trim(v)));
    OpensListReads(Trim(v));
  }

  lemma OpensListReads(t: string)
    ensures !IsInlineList(t) && OpensList(t) ==> ReadValue(t) == List([])
  {
  }

  lemma {:induction false} KeySegment(key: string, v: string)
    requires IsKey(key)
    ensures var line := LineOf((key, v)); Segment(line) == |key| && line[|key|] == ':'
  {
    hide Segment, AllIdent;
    assert LineOf((key, v)) == key + (": " + v);
    SegmentIs(key, ": " + v);
  }

  lemma KeyIsNoSpace(c: char)
    requires IsIdentChar(c)
    ensures !IsSpace(c) && c != '#'
  {
  }

  lemma {:induction false} TrimStarts(line: string)
    requires line != [] && !IsSpace(line[0])
    ensures TrimStart(line) == line && Trim(line) != "" && Trim(line)[0] == line[0]
  {
    TrimEndKeeps(line);
  }

  lemma {:induction false} TrimEndKeeps(s: string)
    requires s != [] && !IsSpace(s[0])
    ensures TrimEnd(s) != "" && TrimEnd(s)[0] == s[0]
  {
    if IsSpace(s[|s| - 1]) {
      TrimEndKeeps(s[..|s| - 1]);
    }
  }

  lemma {:induction false} TrimStartPad(v: string)
    ensures TrimStart(" " + v) == TrimStart(v)
  {
    assert (" " + v)[1..] == v;
  }

  lemma {:induction false} OneLineTrim(v: string)
    requires OneLine(v)
    ensures OneLine(TrimStart(v))
  {
    TrimStartPart(v);
  }

  // ---- All lines ----

  ghost predicate EntriesOk(entries: seq<(string, string)>) {
    forall e :: e in entries ==> IsKey(e.0) && OneLine(e.1)
  }

  function ReadEntries(m: map<string, Yaml>, entries: seq<(string, string)>): map<string, Yaml>
    decreases |entries|
  {
    if entries == [] then m else ReadEntries(m[entries[0].0 := Reading(entries[0].1)], entries[1..])
  }

  lemma {:induction false} LinesRead(st: YamlState, entries: seq<(string, string)>)
    requires EntriesOk(entries)
    ensures YamlLines(st, LinesOf(entries)).result == ReadEntries(st.result, entries)
    decreases |entries|
  {
    hide YamlLine, Reading, IsKey, OneLine, LineOf;
    if entries == [] {
    } else {
      var (key, v) := entries[0];
      assert entries[0] in entries && forall e :: e in entries[1..] ==> e in entries;
      LineReads(st, key, v);
      assert LinesOf(entries)[1..] == LinesOf(entries[1..]);
      LinesRead(YamlLine(st, LineOf(entries[0])), entries[1..]);
    }
  }

  lemma {:induction false} ReadEntriesConcat(m: map<string, Yaml>, a: seq<(string, string)>, b: seq<(string, string)>)
    ensures ReadEntries(m, a + b) == ReadEntries(ReadEntries(m, a), b)
    decreases |a|
  {
    hide Reading;
    if a == [] {
      assert a + b == b;
    } else {
      assert (a + b)[1..] == a[1..] + b;
      ReadEntriesConcat(m[a[0].0 := Reading(a[0].1)], a[1..], b);
    }
  }

  // ---- The frontmatter ----

  /** A line that can stand in the frontmatter. */
  predicate IsBlockLine(line: string) {
    line != "" && line[0] != '-' && OneLine(line)
  }

  lemma {:induction false} SplitLinesJoin(lines: seq<string>)
    requires lines != [] && forall l :: l in lines ==> OneLine(l)
    ensures SplitLines(Join(lines, "\n")) == lines
    decreases |lines|
  {
    hide SplitLines, OneLine;
    assert lines[0] in lines;
    if |lines| == 1 {
      assert lines[0] + "" == lines[0];
      SplitLinesOver(lines[0], "");
      assert lines == [lines[0]];
    } else {
      assert forall l :: l in lines[1..] ==> l in lines;
      SplitLinesJoin(lines[1..]);
      var more := Join(lines[1..], "\n");
      assert lines[0] + "\n" + more == lines[0] + ("\n" + more);
      SplitLinesOver(lines[0], "\n" + more);
      assert lines == [lines[0]] + lines[1..];
    }
  }

  /** A line before the end or a newline is split off whole. */
  lemma {:induction false} SplitLinesOver(line: string, rest: string)
    requires OneLine(line) && (rest == "" || rest[0] == '\n')
    ensures SplitLines(line + rest) == [line] + if rest == "" then [] else SplitLines(rest[1..])
  {
    var s := line + rest;
    if line == [] {
      assert s == rest;
    } else {
      assert s[0] == line[0] && s[1..] == line[1..] + rest;
      SplitLinesOver(line[1..], rest);
      assert line == [line[0]] + line[1..];
    }
  }

  function Closing(tail: string): string {
    "\n---" + tail
  }

  lemma {:induction false} BeforeEndOver(line: string, rest: string)
    requires OneLine(line) && BeforeEnd(rest).Some?
    ensures BeforeEnd(line + rest) == Some(line + BeforeEnd(rest).value)
  {
    var s := line + rest;
    if line == [] {
      assert s == rest && line + BeforeEnd(rest).value == BeforeEnd(rest).value;
    } else {
      assert s[0] == line[0] && s[1..] == line[1..] + rest;
      BeforeEndOver(line[1..], rest);
      assert line + BeforeEnd(rest).value == [line[0]] + (line[1..] + BeforeEnd(rest).value);
    }
  }

  lemma {:induction false} BeforeEndJoin(lines: seq<string>, tail: string)
    requires lines != [] && forall l :: l in lines ==> IsBlockLine(l)
    ensures BeforeEnd(Join(lines, "\n") + Closing(tail)) == Some(Join(lines, "\n"))
    decreases |lines|
  {
    hide BeforeEnd, OneLine, Closing;
    assert lines[0] in lines;
    if |lines| == 1 {
      AtClosing(tail);
      BeforeEndOver(lines[0], Closing(tail));
      assert lines[0] + "" == lines[0];
    } else {
      assert forall l :: l in lines[1..] ==> l in lines;
      BeforeEndJoin(lines[1..], tail);
      var more := Join(lines[1..], "\n");
      assert lines[1] in lines;
      JoinStarts(lines[1..]);
      AtNewline(more + Closing(tail));
      assert lines[0] + "\n" + more + Closing(tail) == lines[0] + ("\n" + (more + Closing(tail)));
      BeforeEndOver(lines[0], "\n" + (more + Closing(tail)));
      assert lines[0] + ("\n" + more) == lines[0] + "\n" + more;
    }
  }

  lemma JoinStarts(lines: seq<string>)
    requires lines != [] && lines[0] != ""
    ensures Join(lines, "\n") != "" && Join(lines, "\n")[0] == lines[0][0]
  {
  }

  lemma AtClosing(tail: string)
    ensures BeforeEnd(Closing(tail)) == Some("")
  {
  }

  lemma {:induction false} AtNewline(s: string)
    requires s != "" && s[0] != '-' && BeforeEnd(s).Some?
    ensures BeforeEnd("\n" + s) == Some("\n" + BeforeEnd(s).value)
  {
    var t := "\n" + s;
    assert t[0] == '\n' && t[1] == s[0] && t[1..] == s;
  }

  lemma {:induction false} JoinConcat(a: seq<string>, b: seq<string>, d: string)
    requires a != [] && b != []
    ensures Join(a + b, d) == Join(a, d) + d + Join(b, d)
    decreases |a|
  {
    if |a| == 1 {
      assert (a + b)[1..] == b;
    } else {
      assert (a + b)[1..] == a[1..] + b;
      JoinConcat(a[1..], b, d);
      assert a[0] + d + (Join(a[1..], d) + d + Join(b, d)) == a[0] + d + Join(a[1..], d) + d + Join(b, d);
    }
  }

  /** The frontmatter of a written file is its entries, one a line. */
  lemma {:induction false} FrontmatterOfFile(spec: Spec)
    requires EntriesOk(Entries(spec))
    ensures Frontmatter(FileText(spec)) == Some(Join(LinesOf(Entries(spec)), "\n"))
  {
    hide Join, BeforeEnd, Entries, OneLine;
    var lines := LinesOf(Entries(spec));
    EntriesNotEmpty(spec);
    var rest := ["---", "", spec.systemPrompt, ""];
    var block := Join(lines, "\n");
    BlockLines(Entries(spec));
    JoinConcat(["---"] + lines, rest, "\n");
    JoinConcat(["---"], lines, "\n");
    JoinConcat(["---"], ["", spec.systemPrompt, ""], "\n");
    OneJoin("---");
    assert ["---"] + ["", spec.systemPrompt, ""] == rest;
    var tail := "\n" + Join(["", spec.systemPrompt, ""], "\n");
    var content := FileText(spec);
    assert content == "---\n" + (block + Closing(tail));
    assert content[4..] == block + Closing(tail);
    BeforeEndJoin(lines, tail);
  }

  lemma OneJoin(s: string)
    ensures Join([s], "\n") == s
  {
  }

  lemma EntriesNotEmpty(spec: Spec)
    ensures |Entries(spec)| >= 4
  {
  }

  lemma {:induction false} BlockLines(entries: seq<(string, string)>)
    requires EntriesOk(entries)
    ensures forall l :: l in LinesOf(entries) ==> IsBlockLine(l)
  {
    forall l | l in LinesOf(entries)
      ensures IsBlockLine(l)
    {
      var i :| 0 <= i < |entries| && l == LineOf(entries[i]);
      assert entries[i] in entries;
      LineIsBlockLine(entries[i].0, entries[i].1);
    }
  }

  lemma {:induction false} LineIsBlockLine(key: string, v: string)
    requires IsKey(key) && OneLine(v)
    ensures IsBlockLine(LineOf((key, v)))
  {
    var line := LineOf((key, v));
    forall i | 0 <= i < |line|
      ensures !IsTerminator(line[i])
    {
      if i < |key| {
        assert line[i] == key[i];
      } else if i >= |key| + 2 {
        assert line[i] == v[i - |key| - 2];
      }
    }
  }

  // ---- The file ----

  ghost predicate AllOneLine(items: seq<string>) {
    forall x :: x in items ==> OneLine(x)
  }

  /** Every value of the frontmatter is on one line. */
  ghost predicate SingleLine(spec: Spec) {
    && OneLine(spec.id) && OneLine(spec.name) && OneLine(spec.tier)
    && AllOneLine(spec.capabilities) && AllOneLine(OrEmpty(spec.sections)) && AllOneLine(OrEmpty(spec.dependencies))
    && (spec.escalationTarget.Some? ==> OneLine(spec.escalationTarget.value))
  }

  lemma {:induction false} JoinOneLine(items: seq<string>, d: string)
    requires AllOneLine(items) && OneLine(d)
    ensures OneLine(Join(items, d))
    decreases |items|
  {
    hide OneLine;
    if items == [] {
      EmptyOneLine();
    } else {
      assert items[0] in items;
      if |items| > 1 {
        assert forall x :: x in items[1..] ==> x in items;
        JoinOneLine(items[1..], d);
        ConcatOneLine(items[0], d);
        ConcatOneLine(items[0] + d, Join(items[1..], d));
      }
    }
  }

  lemma EmptyOneLine()
    ensures OneLine("") && OneLine(", ") && OneLine(",") && OneLine("[") && OneLine("]") && OneLine("true") && OneLine("worker")
  {
  }

  lemma ConcatOneLine(a: string, b: string)
    requires OneLine(a) && OneLine(b)
    ensures OneLine(a + b)
  {
  }

  lemma {:induction false} ListTextOneLine(items: seq<string>)
    requires AllOneLine(items)
    ensures OneLine(ListText(items))
  {
    hide OneLine, Join;
    EmptyOneLine();
    JoinOneLine(items, ", ");
    ConcatOneLine("[", Join(items, ", "));
    ConcatOneLine("[" + Join(items, ", "), "]");
  }

  lemma KeysAreKeys()
    ensures IsKey("id") && IsKey("name") && IsKey("tier") && IsKey("capabilities") && IsKey("sections")
    ensures IsKey("dependencies") && IsKey("escalationTarget") && IsKey("ephemeral")
  {
  }

  lemma {:induction false} SingleLineEntries(spec: Spec)
    requires SingleLine(spec)
    ensures EntriesOk(Entries(spec))
  {
    hide OneLine, ListText, IsKey, AllOneLine;
    KeysAreKeys();
    EmptyOneLine();
    ListTextOneLine(spec.capabilities);
    ListTextOneLine(OrEmpty(spec.sections));
    ListTextOneLine(OrEmpty(spec.dependencies));
  }

  predicate TargetOk(target: Option<string>) {
    target.Some? ==> target.value != "" && ScalarOk(target.value)
  }

  ghost predicate SpecOk(spec: Spec) {
    && ScalarOk(spec.id) && ScalarOk(spec.name) && ScalarOk(spec.tier)
    && AtomsOk(spec.capabilities) && AtomsOk(OrEmpty(spec.sections)) && AtomsOk(OrEmpty(spec.dependencies))
    && TargetOk(spec.escalationTarget)
  }

  /** What a single-line spec's file is read as. */
  lemma {:induction false} FileReads(spec: Spec, fallbackName: string)
    requires SingleLine(spec)
    ensures Metadata(FileText(spec), fallbackName) ==
            Some(Interpreted(ReadEntries(map[], Entries(spec)), fallbackName, TitleOf(fallbackName)))
  {
    hide Entries, FileText, Interpreted, Join, YamlLines, EntriesOk, Frontmatter, SplitLines;
    SingleLineEntries(spec);
    FrontmatterOfFile(spec);
    var lines := LinesOf(Entries(spec));
    EntriesNotEmpty(spec);
    BlockLines(Entries(spec));
    SplitLinesJoin(lines);
    LinesRead(NO_YAML, Entries(spec));
  }

  /** The values of all the keys that are read. */
  lemma {:induction false} KeysRead(spec: Spec)
    ensures var m := ReadEntries(map[], Entries(spec));
      && "id" in m && m["id"] == Reading(spec.id)
      && "name" in m && m["name"] == Reading(spec.name)
      && "tier" in m && m["tier"] == Reading(spec.tier)
      && "capabilities" in m && m["capabilities"] == Reading(ListText(spec.capabilities))
      && ("sections" in m <==> OrEmpty(spec.sections) != [])
      && ("sections" in m ==> m["sections"] == Reading(ListText(OrEmpty(spec.sections))))
      && ("dependencies" in m <==> OrEmpty(spec.dependencies) != [])
      && ("dependencies" in m ==> m["dependencies"] == Reading(ListText(OrEmpty(spec.dependencies))))
      && ("escalationTarget" in m <==> spec.escalationTarget.Some? && spec.escalationTarget.value != "")
      && ("escalationTarget" in m ==> m["escalationTarget"] == Reading(spec.escalationTarget.value))
      && "escalation_target" !in m && "format" !in m
      && "llmRequirement" !in m && "llm_requirement" !in m && "model" !in m
  {
    hide Reading, ListText, ReadEntries;
    var required := [("id", spec.id), ("name", spec.name), ("tier", spec.tier), ("capabilities", ListText(spec.capabilities))];
    var sections := ListEntry("sections", spec.sections);
    var dependencies := ListEntry("dependencies", spec.dependencies);
    var target := TargetEntry(spec.escalationTarget);
    var ephemeral := if spec.ephemeral then [("ephemeral", "true")] else [];
    ReadEntriesConcat(map[], required + sections + dependencies + target, ephemeral);
    ReadEntriesConcat(map[], required + sections + dependencies, target);
    ReadEntriesConcat(map[], required + sections, dependencies);
    ReadEntriesConcat(map[], required, sections);
    ReadRequired(spec);
    var m0 := ReadEntries(map[], required);
    ReadOptional(m0, sections);
    var m1 := ReadEntries(m0, sections);
    ReadOptional(m1, dependencies);
    var m2 := ReadEntries(m1, dependencies);
    ReadOptional(m2, target);
    ReadOptional(ReadEntries(m2, target), ephemeral);
  }

  lemma {:induction false} ReadRequired(spec: Spec)
    ensures ReadEntries(map[], [("id", spec.id), ("name", spec.name), ("tier", spec.tier), ("capabilities", ListText(spec.capabilities))])
            == map["id" := Reading(spec.id), "name" := Reading(spec.name), "tier" := Reading(spec.tier),
                   "capabilities" := Reading(ListText(spec.capabilities))]
  {
    hide Reading, ListText, ReadEntries;
    var a, b, c, d := [("id", spec.id)], [("name", spec.name)], [("tier", spec.tier)], [("capabilities", ListText(spec.capabilities))];
    assert a + b + c + d == [("id", spec.id), ("name", spec.name), ("tier", spec.tier), ("capabilities", ListText(spec.capabilities))];
    ReadEntriesConcat(map[], a + b + c, d);
    ReadEntriesConcat(map[], a + b, c);
    ReadEntriesConcat(map[], a, b);
    ReadOptional(map[], a);
    var m := map["id" := Reading(spec.id)];
    ReadOptional(m, b);
    ReadOptional(m["name" := Reading(spec.name)], c);
    ReadOptional(m["name" := Reading(spec.name)]["tier" := Reading(spec.tier)], d);
  }

  lemma {:induction false} ReadOptional(m: map<string, Yaml>, entries: seq<(string, string)>)
    requires |entries| <= 1
    ensures ReadEntries(m, entries) == if entries == [] then m else m[entries[0].0 := Reading(entries[0].1)]
  {
    hide Reading;
  }

  // ---- Nothing that is read spans lines ----

  ghost predicate YamlOneLine(y: Yaml) {
    match y
    case Str(s) => OneLine(s)
    case List(items) => AllOneLine(items)
  }

  ghost predicate MapOneLine(m: map<string, Yaml>) {
    forall k :: k in m ==> YamlOneLine(m[k])
  }

  lemma {:induction false} PartOneLine(s: string, t: string)
    requires OneLine(s) && forall c :: c in t ==> c in s
    ensures OneLine(t)
  {
    forall i | 0 <= i < |t|
      ensures !IsTerminator(t[i])
    {
      assert t[i] in s;
    }
  }

  lemma {:induction false} CleanOneLine(s: string)
    requires OneLine(s)
    ensures OneLine(Clean(s)) && OneLine(Trim(s)) && OneLine(StripQuotes(s))
  {
    hide OneLine, Trim;
    TrimPart(s);
    PartOneLine(s, Trim(s));
    PartOneLine(s, StripQuotes(s));
    PartOneLine(s, Clean(s));
  }

  lemma {:induction false} SplitPart(s: string, d: char)
    ensures forall p, c :: p in Split(s, d) && c in p ==> c in s
  {
    if s == [] {
    } else {
      SplitPart(s[1..], d);
    }
  }

  lemma {:induction false} CleanAllOneLine(parts: seq<string>)
    requires AllOneLine(parts)
    ensures AllOneLine(CleanAll(parts))
  {
    hide OneLine, Clean;
    if parts == [] {
    } else {
      assert parts[0] in parts && forall p :: p in parts[1..] ==> p in parts;
      CleanOneLine(parts[0]);
      CleanAllOneLine(parts[1..]);
    }
  }

  lemma {:induction false} SplitCleanOneLine(s: string)
    requires OneLine(s)
    ensures AllOneLine(CleanAll(Split(s, ',')))
  {
    hide OneLine, CleanAll, Split;
    SplitPart(s, ',');
    forall p | p in Split(s, ',')
      ensures OneLine(p)
    {
      PartOneLine(s, p);
    }
    CleanAllOneLine(Split(s, ','));
  }

  lemma {:induction false} ReadValueOneLine(v: string)
    requires OneLine(v)
    ensures YamlOneLine(ReadValue(v))
  {
    hide OneLine, CleanAll, Split, StripQuotes;
    CleanOneLine(v);
    if IsInlineList(v) {
      PartOneLine(v, v[1..|v| - 1]);
      SplitCleanOneLine(v[1..|v| - 1]);
    }
  }

  lemma {:induction false} ListItemOneLine(line: string)
    ensures ListItem(line).Some? ==> OneLine(ListItem(line).value)
  {
    hide OneLine, Trim, TrimStart;
    EmptyOneLine();
    if ListItem(line).Some? {
      var rest := TrimStart(TrimStart(line)[1..]);
      if rest != [] {
        CleanOneLine(rest);
      }
    }
  }

  lemma {:induction false} YamlLineOneLine(st: YamlState, line: string)
    requires MapOneLine(st.result)
    ensures MapOneLine(YamlLine(st, line).result)
  {
    hide OneLine, Trim, TrimStart, ReadValue, Segment, OpensList, IsInlineList, StartsWith;
    EmptyOneLine();
    ListItemOneLine(line);
    hide ListItem;
    match KeyValue(line)
    case None =>
    case Some((key, value)) =>
      TrimOfStart(line[Segment(line) + 1..]);
      CleanOneLine(TrimStart(line[Segment(line) + 1..]));
      ReadValueOneLine(value);
  }

  lemma {:induction false} TrimOfStart(s: string)
    ensures Trim(TrimStart(s)) == Trim(s)
  {
    hide TrimEnd;
    assert TrimStart(TrimStart(s)) == TrimStart(s);
  }

  lemma {:induction false} YamlLinesOneLine(st: YamlState, lines: seq<string>)
    requires MapOneLine(st.result)
    ensures MapOneLine(YamlLines(st, lines).result)
    decreases |lines|
  {
    hide YamlLine, MapOneLine;
    if lines == [] {
    } else {
      YamlLineOneLine(st, lines[0]);
      YamlLinesOneLine(YamlLine(st, lines[0]), lines[1..]);
    }
  }

  lemma {:induction false} AsStringOneLine(y: Yaml)
    requires YamlOneLine(y)
    ensures OneLine(AsString(y)) && AllOneLine(ToStringArray(y))
  {
    hide OneLine, Join, CleanAll, Split, Trim;
    EmptyOneLine();
    match y
    case Str(s) =>
      CleanOneLine(s);
      var c := Trim(s);
      var c1 := if StartsWith(c, '[') then c[1..] else c;
      PartOneLine(c, c1);
      var c2 := if EndsWith(c1, ']') then c1[..|c1| - 1] else c1;
      PartOneLine(c1, c2);
      SplitCleanOneLine(c2);
    case List(items) => JoinOneLine(items, ",");
  }

  /** Whatever a file says, each value read from it is on one line. */
  lemma {:induction false} InterpretedOneLine(m: map<string, Yaml>, fallbackName: string, title: string)
    requires MapOneLine(m)
    ensures var d := Interpreted(m, fallbackName, title);
      && (d.id == fallbackName || OneLine(d.id)) && (d.name == title || OneLine(d.name)) && OneLine(d.tier)
      && AllOneLine(d.sections) && AllOneLine(d.capabilities) && AllOneLine(d.dependencies)
      && (d.escalationTarget.Some? ==> OneLine(d.escalationTarget.value))
  {
    hide OneLine, TextOr, ListOr, Escalation, Requirement, MapOneLine;
    EmptyOneLine();
    TextOrOneLine(m, "id", fallbackName);
    TextOrOneLine(m, "name", title);
    TextOrOneLine(m, "tier", "worker");
    ListOrOneLine(m, "sections");
    ListOrOneLine(m, "capabilities");
    ListOrOneLine(m, "dependencies");
    EscalationOneLine(m);
  }

  lemma {:induction false} TextOrOneLine(m: map<string, Yaml>, key: string, other: string)
    requires MapOneLine(m)
    ensures TextOr(m, key, other) == other || OneLine(TextOr(m, key, other))
  {
    hide OneLine, AsString;
    if key in m {
      AsStringOneLine(m[key]);
    }
  }

  lemma {:induction false} ListOrOneLine(m: map<string, Yaml>, key: string)
    requires MapOneLine(m)
    ensures AllOneLine(ListOr(m, key))
  {
    hide OneLine, ToStringArray;
    if key in m {
      AsStringOneLine(m[key]);
    }
  }

  lemma {:induction false} EscalationOneLine(m: map<string, Yaml>)
    requires MapOneLine(m)
    ensures Escalation(m).Some? ==> OneLine(Escalation(m).value)
  {
    hide OneLine, AsString;
    if "escalationTarget" in m {
      AsStringOneLine(m["escalationTarget"]);
    } else if "escalation_target" in m {
      AsStringOneLine(m["escalation_target"]);
    }
  }

  // ---- The theorem ----

  /** The value is read back where `other` stands for a value that reads as nothing: as itself, or as that. */
  predicate TextOk(v: string, other: string) {
    ScalarOk(v) || (Reading(v) == Str("") && other == v)
  }

  /** The specs that a file of this name is read back for. */
  ghost predicate ReadsBackAs(spec: Spec, fallbackName: string) {
    && TextOk(spec.id, fallbackName) && TextOk(spec.name, TitleOf(fallbackName)) && ScalarOk(spec.tier)
    && AtomsOk(spec.capabilities) && AtomsOk(OrEmpty(spec.sections)) && AtomsOk(OrEmpty(spec.dependencies))
    && TargetOk(spec.escalationTarget)
  }

  /** For values on one line, and a file of any name, such as the id that the forge names it after: the file
      is read as the registered agent exactly when the id and the name are read back as themselves, or read
      as nothing and happen to be what the file's name gives, and the other values are read back. */
  lemma {:induction false} RoundTripUnderName(spec: Spec, model: string, fallbackName: string)
    requires SingleLine(spec)
    ensures ReadsBackAs(spec, fallbackName) <==>
      Metadata(FileText(spec), fallbackName) == Some(Registered(spec, model).(llmRequirement := "haiku"))
  {
    hide FileText, Metadata, Interpreted, ReadsBackAs, Registered, Entries, SingleLine, TitleOf;
    FileReads(spec, fallbackName);
    InterpretedOk(spec, model, fallbackName);
  }

  /** Such an id is a pair of quotes, in the file named after it. */
  lemma QuotesReadBack()
    ensures !ScalarOk("\"\"") && TextOk("\"\"", "\"\"")
  {
  }

  /** A name that no id or name of the spec happens to equal. */
  lemma {:induction false} OtherName(spec: Spec) returns (fallbackName: string)
    ensures fallbackName != spec.id && TitleOf(fallbackName) != spec.name
  {
    fallbackName := spec.id + spec.name + "-";
    assert |fallbackName| > |spec.id| && |TitleOf(fallbackName)| > |spec.name|;
  }

  /** A written file is read as the registered agent, whatever the file is called, exactly when each
      value is on one line and is read back as itself. The model is not written: it is read as haiku. */
  lemma {:induction false} RoundTrip(spec: Spec, model: string)
    ensures SingleLine(spec) && SpecOk(spec) <==> forall fallbackName ::
      Metadata(FileText(spec), fallbackName) == Some(Registered(spec, model).(llmRequirement := "haiku"))
  {
    hide FileText, Metadata, Registered, SingleLine, TitleOf, ScalarOk, AtomsOk, TargetOk, Reading;
    if SingleLine(spec) && SpecOk(spec) {
      forall fallbackName
        ensures Metadata(FileText(spec), fallbackName) == Some(Registered(spec, model).(llmRequirement := "haiku"))
      {
        RoundTripUnderName(spec, model, fallbackName);
      }
    } else {
      var fallbackName := OtherName(spec);
      if SingleLine(spec) {
        RoundTripUnderName(spec, model, fallbackName);
      } else {
        NeverReadBack(spec, model, fallbackName);
      }
      assert Metadata(FileText(spec), fallbackName) != Some(Registered(spec, model).(llmRequirement := "haiku"));
    }
  }

  /** A value that spans lines is never read back, from any frontmatter. */
  lemma {:induction false} NeverReadBack(spec: Spec, model: string, fallbackName: string)
    requires !SingleLine(spec) && fallbackName != spec.id && TitleOf(fallbackName) != spec.name
    ensures forall content :: Metadata(content, fallbackName) != Some(Registered(spec, model).(llmRequirement := "haiku"))
  {
    hide OneLine, AllOneLine, Interpreted, YamlLines, Frontmatter, SplitLines, MapOneLine, TitleOf;
    forall content
      ensures Metadata(content, fallbackName) != Some(Registered(spec, model).(llmRequirement := "haiku"))
    {
      match Frontmatter(content)
      case None =>
      case Some(block) =>
        EmptyMapOneLine();
        YamlLinesOneLine(NO_YAML, SplitLines(block));
        InterpretedOneLine(SimpleYaml(block), fallbackName, TitleOf(fallbackName));
    }
  }

  lemma EmptyMapOneLine()
    ensures MapOneLine(NO_YAML.result)
  {
  }

  lemma {:induction false} TextReadsBack(m: map<string, Yaml>, key: string, v: string, other: string)
    requires key in m && m[key] == Reading(v)
    ensures TextOr(m, key, other) == v <==> TextOk(v, other)
  {
    hide Reading, ScalarOk;
    ScalarReadsBack(v);
    ScalarIsSomething(v);
  }

  lemma ScalarIsSomething(v: string)
    ensures ScalarOk(v) ==> Reading(v) != Str("")
  {
  }

  lemma {:induction false} ListOrReadsBack(m: map<string, Yaml>, key: string, items: seq<string>)
    requires key in m <==> items != []
    requires key in m ==> m[key] == Reading(ListText(items))
    ensures ListOr(m, key) == items <==> AtomsOk(items)
  {
    hide Reading, ListText, AtomOk;
    if items != [] {
      BracketsRead(items);
      ListReadsBack(items);
    }
  }

  lemma {:induction false} InterpretedOk(spec: Spec, model: string, fallbackName: string)
    ensures var d := Interpreted(ReadEntries(map[], Entries(spec)), fallbackName, TitleOf(fallbackName));
      d == Registered(spec, model).(llmRequirement := "haiku") <==> ReadsBackAs(spec, fallbackName)
  {
    hide Reading, ListText, ReadEntries, Entries, TextOr, ListOr, ScalarOk, AtomsOk, Truthy, AsString, TextOk, TitleOf;
    KeysRead(spec);
    var m := ReadEntries(map[], Entries(spec));
    TextReadsBack(m, "id", spec.id, fallbackName);
    TextReadsBack(m, "name", spec.name, TitleOf(fallbackName));
    TierReadsBack(m, spec.tier);
    CapabilitiesReadBack(m, spec.capabilities);
    ListOrReadsBack(m, "sections", OrEmpty(spec.sections));
    ListOrReadsBack(m, "dependencies", OrEmpty(spec.dependencies));
    TargetReadsBack(m, spec.escalationTarget);
    Defaults(m);
  }

  lemma {:induction false} TierReadsBack(m: map<string, Yaml>, tier: string)
    requires "tier" in m && m["tier"] == Reading(tier)
    ensures TextOr(m, "tier", "worker") == tier <==> ScalarOk(tier)
  {
    hide Reading, TextOr, ScalarOk;
    TextReadsBack(m, "tier", tier, "worker");
    WorkerIsScalar();
  }

  lemma WorkerIsScalar()
    ensures ScalarOk("worker")
  {
  }

  lemma {:induction false} CapabilitiesReadBack(m: map<string, Yaml>, items: seq<string>)
    requires "capabilities" in m && m["capabilities"] == Reading(ListText(items))
    ensures ListOr(m, "capabilities") == items <==> AtomsOk(items)
  {
    hide Reading, ListText, AtomOk;
    BracketsRead(items);
    ListReadsBack(items);
  }

  lemma {:induction false} TargetReadsBack(m: map<string, Yaml>, target: Option<string>)
    requires "escalation_target" !in m
    requires "escalationTarget" in m <==> target.Some? && target.value != ""
    requires "escalationTarget" in m ==> m["escalationTarget"] == Reading(target.value)
    ensures Escalation(m) == target <==> TargetOk(target)
  {
    hide Reading, ScalarOk, AsString;
    if "escalationTarget" in m {
      ScalarReadsBack(target.value);
    }
  }

  lemma Defaults(m: map<string, Yaml>)
    requires "format" !in m && "llmRequirement" !in m && "llm_requirement" !in m && "model" !in m
    ensures Requirement(m) == "haiku" && TextOr(m, "format", "markdown") == "markdown"
  {
  }
}
