/** Agent files written by hand: quoted values, inline lists of quoted items, lists over several
    lines, comments, and either kind of line end. */
module AgentFileByHand {
  import opened Options
  import opened Strings
  import opened AgentFile
  import opened AgentFileRoundTrip

  // ---- A text with or without quotes ----

  datatype Quoted = Quoted(open: string, text: string, close: string)

  function Raw(q: Quoted): string {
    q.open + q.text + q.close
  }

  predicate IsMark(mark: string) {
    mark == "" || mark == "\"" || mark == "'"
  }

  predicate EdgeOk(c: char) {
    c != '"' && c != '\''
  }

  /** Any quotes at the ends, none at the ends of the text itself; where there is no quote, the text
      does not end in white space. */
  predicate QuotedOk(q: Quoted) {
    && IsMark(q.open) && IsMark(q.close) && OneLine(q.text)
    && (q.text != "" ==>
          && EdgeOk(q.text[0]) && EdgeOk(q.text[|q.text| - 1])
          && (q.open == "" ==> !IsSpace(q.text[0])) && (q.close == "" ==> !IsSpace(q.text[|q.text| - 1])))
  }

  lemma {:induction false} RawRead(q: Quoted)
    requires QuotedOk(q)
    ensures Trim(Raw(q)) == Raw(q) && StripQuotes(Raw(q)) == q.text && OneLine(Raw(q))
  {
    hide Trim, OneLine;
    RawTrimmed(q);
    TrimTrimmed(Raw(q));
    RawStripped(q);
    MarkOneLine(q.open);
    MarkOneLine(q.close);
    ConcatOneLine(q.open, q.text);
    ConcatOneLine(q.open + q.text, q.close);
  }

  lemma MarkOneLine(mark: string)
    requires IsMark(mark)
    ensures OneLine(mark)
  {
  }

  lemma RawTrimmed(q: Quoted)
    requires QuotedOk(q)
    ensures IsTrimmed(Raw(q))
  {
    hide OneLine;
  }

  lemma {:induction false} RawStripped(q: Quoted)
    requires QuotedOk(q)
    ensures StripQuotes(Raw(q)) == q.text
  {
    hide OneLine, IsSpace;
    if q.text == "" {
      MarksStripped(q.open, q.close);
    } else {
      FrontStripped(q);
      BackStripped(q);
    }
  }

  lemma MarksStripped(open: string, close: string)
    requires IsMark(open) && IsMark(close)
    ensures StripQuotes(open + "" + close) == ""
  {
  }

  lemma {:induction false} FrontStripped(q: Quoted)
    requires QuotedOk(q) && q.text != ""
    ensures var s := Raw(q); s != "" && (if IsQuote(s[0]) then s[1..] else s) == q.text + q.close
  {
    hide OneLine, IsSpace;
    var s := Raw(q);
    if q.open == "" {
      assert s == q.text + q.close && s[0] == q.text[0];
    } else {
      assert s == q.open + (q.text + q.close) && s[0] == q.open[0];
      assert s[1..] == q.text + q.close;
    }
  }

  lemma {:induction false} BackStripped(q: Quoted)
    requires QuotedOk(q) && q.text != ""
    ensures var t := q.text + q.close; t != "" && (if IsQuote(t[|t| - 1]) then t[..|t| - 1] else t) == q.text
  {
    hide OneLine, IsSpace;
    var t := q.text + q.close;
    if q.close == "" {
      assert t == q.text;
    } else {
      assert t[|t| - 1] == q.close[0];
      assert t[..|t| - 1] == q.text;
    }
  }

  // ---- Entries ----

  /** An item of a list over several lines. */
  datatype Item = Item(indent: string, gap: string, text: string)

  datatype Entry =
    | Scalar(key: string, value: Quoted)
    | Inline(key: string, quoted: seq<Quoted>)
    | Block(key: string, mark: string, items: seq<Item>)
    | Skipped(line: string)

  predicate Blank(s: string) {
    s != "" && forall i :: 0 <= i < |s| ==> IsSpace(s[i]) && !IsTerminator(s[i])
  }

  predicate ItemOk(item: Item) {
    Blank(item.indent) && Blank(item.gap) && item.text != "" && IsTrimmed(item.text) && OneLine(item.text)
  }

  function ItemLine(item: Item): string {
    item.indent + ("-" + (item.gap + item.text))
  }

  function ItemLines(items: seq<Item>): (lines: seq<string>)
    ensures |lines| == |items| && forall i :: 0 <= i < |items| ==> lines[i] == ItemLine(items[i])
  {
    if items == [] then [] else [ItemLine(items[0])] + ItemLines(items[1..])
  }

  function Raws(quoted: seq<Quoted>): (raws: seq<string>)
    ensures |raws| == |quoted| && forall i :: 0 <= i < |quoted| ==> raws[i] == Raw(quoted[i])
  {
    if quoted == [] then [] else [Raw(quoted[0])] + Raws(quoted[1..])
  }

  function Texts(quoted: seq<Quoted>): (texts: seq<string>)
    ensures |texts| == |quoted| && forall i :: 0 <= i < |quoted| ==> texts[i] == quoted[i].text
  {
    if quoted == [] then [] else [quoted[0].text] + Texts(quoted[1..])
  }

  function ItemTexts(items: seq<Item>): (texts: seq<string>)
    ensures |texts| == |items| && forall i :: 0 <= i < |items| ==> texts[i] == items[i].text
  {
    if items == [] then [] else [items[0].text] + ItemTexts(items[1..])
  }

  /** A key and its value on the next lines, or after it. */
  function EntryLines(e: Entry): seq<string> {
    match e
    case Scalar(key, value) => [key + ": " + Raw(value)]
    case Inline(key, quoted) => [key + ": [" + Join(Raws(quoted), ", ") + "]"]
    case Block(key, mark, items) => [key + ":" + mark] + ItemLines(items)
    case Skipped(line) => [line]
  }

  /** Quoted at either end; or a plain word or phrase. */
  predicate ScalarEntryOk(q: Quoted) {
    QuotedOk(q) && (q.open == "" && q.close == "" ==> q.text != "" && ScalarOk(q.text))
  }

  predicate InlineItemOk(q: Quoted) {
    QuotedOk(q) && q.text != "" && ',' !in q.text
  }

  predicate EntryOk(e: Entry) {
    match e
    case Scalar(key, value) => IsKey(key) && ScalarEntryOk(value)
    case Inline(key, quoted) => IsKey(key) && forall q :: q in quoted ==> InlineItemOk(q)
    case Block(key, mark, items) => IsKey(key) && mark in ["", " |", " >"] && forall i :: i in items ==> ItemOk(i)
    case Skipped(line) =>
      line != "" && line[0] != '-' && OneLine(line) && (Trim(line) == "" || Trim(line)[0] == '#')
  }

  /** Quotes go from values and from the items of inline lists, and stay in lists over several lines. */
  function Meaning(m: map<string, Yaml>, e: Entry): map<string, Yaml> {
    match e
    case Scalar(key, value) => m[key := Str(value.text)]
    case Inline(key, quoted) => m[key := List(Texts(quoted))]
    case Block(key, _, items) => m[key := List(ItemTexts(items))]
    case Skipped(_) => m
  }

  function AllLines(entries: seq<Entry>): seq<string> {
    if entries == [] then [] else EntryLines(entries[0]) + AllLines(entries[1..])
  }

  function Meanings(m: map<string, Yaml>, entries: seq<Entry>): map<string, Yaml>
    decreases |entries|
  {
    if entries == [] then m else Meanings(Meaning(m, entries[0]), entries[1..])
  }

  ghost predicate AllEntriesOk(entries: seq<Entry>) {
    forall e :: e in entries ==> EntryOk(e)
  }

  // ---- Reading each kind of entry ----

  lemma {:induction false} ScalarRead(st: YamlState, key: string, q: Quoted)
    requires IsKey(key) && ScalarEntryOk(q)
    ensures YamlLine(st, key + ": " + Raw(q)).result == st.result[key := Str(q.text)]
  {
    hide YamlLine, QuotedOk, Trim, StripQuotes, IsKey, ScalarOk, OneLine, Raw;
    assert key + ": " + Raw(q) == LineOf((key, Raw(q)));
    RawRead(q);
    LineReads(st, key, Raw(q));
    ScalarValue(q);
  }

  lemma {:induction false} ScalarValue(q: Quoted)
    requires ScalarEntryOk(q)
    ensures ReadValue(Raw(q)) == Str(q.text)
  {
    hide StripQuotes, IsInlineList, OpensList, QuotedOk, Raw, ScalarOk;
    RawRead(q);
    OpensNoList(q);
  }

  lemma {:induction false} OpensNoList(q: Quoted)
    requires ScalarEntryOk(q)
    ensures !IsInlineList(Raw(q)) && !OpensList(Raw(q))
  {
    hide OneLine, IsTrimmed, NoEdgeQuotes, IsSpace;
    if q.open != "" {
      assert Raw(q)[0] == q.open[0];
    } else if q.close != "" {
      assert Raw(q)[|Raw(q)| - 1] == q.close[0];
    } else {
      assert Raw(q) == q.text;
    }
  }

  lemma {:induction false} InlineRead(st: YamlState, key: string, quoted: seq<Quoted>)
    requires IsKey(key) && forall q :: q in quoted ==> InlineItemOk(q)
    ensures YamlLine(st, key + ": [" + Join(Raws(quoted), ", ") + "]").result == st.result[key := List(Texts(quoted))]
    ensures OneLine(ListText(Raws(quoted)))
  {
    hide YamlLine, IsKey, OneLine, Join, Split, CleanAll, Reading, Raw, QuotedOk;
    var raws := Raws(quoted);
    forall x | x in raws
      ensures OneLine(x) && ',' !in x
    {
      var i :| 0 <= i < |raws| && raws[i] == x;
      assert quoted[i] in quoted;
      RawRead(quoted[i]);
      RawHasNoComma(quoted[i]);
    }
    ListTextOneLine(raws);
    assert key + ": [" + Join(raws, ", ") + "]" == LineOf((key, ListText(raws)));
    LineReads(st, key, ListText(raws));
    BracketsRead(raws);
    JoinedCleans(raws);
    RawsClean(quoted);
  }

  lemma RawHasNoComma(q: Quoted)
    requires InlineItemOk(q)
    ensures ',' !in Raw(q)
  {
    hide OneLine;
  }

  lemma {:induction false} RawsClean(quoted: seq<Quoted>)
    requires forall q :: q in quoted ==> InlineItemOk(q)
    ensures CleanAll(Raws(quoted)) == Texts(quoted)
  {
    hide Trim, StripQuotes, QuotedOk, Raw;
    if quoted == [] {
    } else {
      assert quoted[0] in quoted && forall q :: q in quoted[1..] ==> q in quoted;
      RawRead(quoted[0]);
      RawsClean(quoted[1..]);
      assert Raws(quoted)[1..] == Raws(quoted[1..]);
    }
  }

  // ---- Lists over several lines ----

  lemma {:induction false} HeaderRead(st: YamlState, key: string, mark: string)
    requires IsKey(key) && mark in ["", " |", " >"]
    ensures YamlLine(st, key + ":" + mark) == YamlState(st.result[key := List([])], key, true)
  {
    hide Segment, Trim, TrimStart, IsSpace;
    var line := key + ":" + mark;
    assert line == key + (":" + mark);
    SegmentIs(key, ":" + mark);
    KeyIsNoSpace(key[0]);
    assert line[0] == key[0] && line[..|key|] == key && line[|key| + 1..] == mark;
    TrimStarts(line);
    MarkTrims(mark);
  }

  lemma MarkTrims(mark: string)
    requires mark in ["", " |", " >"]
    ensures Trim(mark) == (if mark == "" then "" else mark[1..]) && OneLine(TrimStart(mark))
  {
    assert mark != "" ==> IsSpace(mark[0]) && !IsSpace(mark[1..][0]);
  }

  lemma {:induction false} SkipBlank(blank: string, rest: string)
    requires forall i :: 0 <= i < |blank| ==> IsSpace(blank[i])
    requires rest == "" || !IsSpace(rest[0])
    ensures TrimStart(blank + rest) == rest
  {
    hide IsSpace;
    if blank == "" {
      assert blank + rest == rest;
    } else {
      assert (blank + rest)[1..] == blank[1..] + rest;
      SkipBlank(blank[1..], rest);
    }
  }

  lemma DashIsNoSpace()
    ensures !IsSpace('-')
  {
  }

  lemma {:induction false} ItemRead(item: Item)
    requires ItemOk(item)
    ensures ListItem(ItemLine(item)) == Some(item.text)
    ensures Trim(ItemLine(item)) != "" && Trim(ItemLine(item))[0] == '-'
  {
    hide Trim, TrimStart, IsSpace, OneLine;
    DashIsNoSpace();
    var line, afterDash := ItemLine(item), item.gap + item.text;
    SkipBlank(item.indent, "-" + afterDash);
    assert ("-" + afterDash)[1..] == afterDash;
    SkipBlank(item.gap, item.text);
    TrimTrimmed(item.text);
    TrimFromStart(line, "-" + afterDash);
  }

  lemma {:induction false} TrimFromStart(s: string, t: string)
    requires TrimStart(s) == t && t != ""
    ensures Trim(s) != "" && Trim(s)[0] == t[0]
  {
    hide TrimStart, TrimEnd, IsSpace;
    TrimEndKeeps(t);
  }

  /** The state while the list of a key is collected. */
  function Collecting(m: map<string, Yaml>, key: string, items: seq<string>): YamlState {
    YamlState(m[key := List(items)], key, true)
  }

  lemma {:induction false} ItemTaken(m: map<string, Yaml>, key: string, had: seq<string>, item: Item)
    requires ItemOk(item) && key != ""
    ensures YamlLine(Collecting(m, key, had), ItemLine(item)) == Collecting(m, key, had + [item.text])
  {
    hide ListItem, KeyValue, Trim, ItemLine, ItemOk;
    ItemRead(item);
    assert m[key := List(had)][key := List(had + [item.text])] == m[key := List(had + [item.text])];
  }

  lemma {:induction false} ItemsRead(m: map<string, Yaml>, key: string, had: seq<string>, items: seq<Item>)
    requires key != "" && forall i :: i in items ==> ItemOk(i)
    ensures YamlLines(Collecting(m, key, had), ItemLines(items)) == Collecting(m, key, had + ItemTexts(items))
    decreases |items|
  {
    hide YamlLine, ItemLine, ItemOk, Collecting;
    if items == [] {
      assert had + [] == had;
    } else {
      assert items[0] in items && forall i :: i in items[1..] ==> i in items;
      ItemTaken(m, key, had, items[0]);
      assert ItemLines(items)[1..] == ItemLines(items[1..]);
      ItemsRead(m, key, had + [items[0].text], items[1..]);
      assert had + ([items[0].text] + ItemTexts(items[1..])) == had + [items[0].text] + ItemTexts(items[1..]);
    }
  }

  // ---- All entries ----

  lemma {:induction false} YamlLinesConcat(st: YamlState, a: seq<string>, b: seq<string>)
    ensures YamlLines(st, a + b) == YamlLines(YamlLines(st, a), b)
    decreases |a|
  {
    hide YamlLine;
    if a == [] {
      assert a + b == b;
    } else {
      assert (a + b)[1..] == a[1..] + b;
      YamlLinesConcat(YamlLine(st, a[0]), a[1..], b);
    }
  }

  lemma {:induction false} OneYamlLine(st: YamlState, line: string)
    ensures YamlLines(st, [line]) == YamlLine(st, line)
  {
    hide YamlLine;
    assert [line][1..] == [];
  }

  lemma {:induction false} BlockEntryRead(st: YamlState, key: string, mark: string, items: seq<Item>)
    requires IsKey(key) && mark in ["", " |", " >"] && forall i :: i in items ==> ItemOk(i)
    ensures YamlLines(st, [key + ":" + mark] + ItemLines(items)).result == st.result[key := List(ItemTexts(items))]
  {
    hide YamlLine, YamlLines, IsKey, ItemOk, ItemLines, ItemTexts;
    HeaderRead(st, key, mark);
    OneYamlLine(st, key + ":" + mark);
    YamlLinesConcat(st, [key + ":" + mark], ItemLines(items));
    KeyNotEmpty(key);
    ItemsRead(st.result, key, [], items);
    assert [] + ItemTexts(items) == ItemTexts(items);
  }

  lemma {:induction false} EntryRead(st: YamlState, e: Entry)
    requires EntryOk(e)
    ensures YamlLines(st, EntryLines(e)).result == Meaning(st.result, e)
  {
    hide YamlLine, YamlLines, IsKey, ScalarEntryOk, InlineItemOk, ItemOk, Join, Trim, OneLine, Raw, ItemLines, ItemTexts, Raws, Texts;
    match e
    case Scalar(key, value) =>
      ScalarRead(st, key, value);
      OneYamlLine(st, key + ": " + Raw(value));
    case Inline(key, quoted) =>
      InlineRead(st, key, quoted);
      OneYamlLine(st, key + ": [" + Join(Raws(quoted), ", ") + "]");
    case Block(key, mark, items) => BlockEntryRead(st, key, mark, items);
    case Skipped(line) =>
      OneYamlLine(st, line);
      SkippedRead(st, line);
  }

  lemma KeyNotEmpty(key: string)
    requires IsKey(key)
    ensures key != ""
  {
  }

  lemma SkippedRead(st: YamlState, line: string)
    requires Trim(line) == "" || Trim(line)[0] == '#'
    ensures YamlLine(st, line) == st
  {
    hide Trim, ListItem, KeyValue;
  }

  lemma {:induction false} EntriesRead(st: YamlState, entries: seq<Entry>)
    requires AllEntriesOk(entries)
    ensures YamlLines(st, AllLines(entries)).result == Meanings(st.result, entries)
    decreases |entries|
  {
    hide YamlLines, EntryOk, Meaning, EntryLines;
    if entries == [] {
      assert YamlLines(st, []) == st by { NoYamlLines(st); }
    } else {
      assert entries[0] in entries && forall e :: e in entries[1..] ==> e in entries;
      EntryRead(st, entries[0]);
      YamlLinesConcat(st, EntryLines(entries[0]), AllLines(entries[1..]));
      EntriesRead(YamlLines(st, EntryLines(entries[0])), entries[1..]);
    }
  }

  lemma NoYamlLines(st: YamlState)
    ensures YamlLines(st, []) == st
  {
  }

  // ---- Lines and their ends ----

  predicate IsLineEnd(end: string) {
    end == "\n" || end == "\r\n"
  }

  /** A line that can stand in the frontmatter. */
  ghost predicate AllBlockLines(lines: seq<string>) {
    forall l :: l in lines ==> IsBlockLine(l)
  }

  lemma {:induction false} SplitAtEnd(line: string, end: string, rest: string)
    requires OneLine(line) && IsLineEnd(end)
    ensures SplitLines(line + (end + rest)) == [line] + SplitLines(rest)
  {
    var s := line + (end + rest);
    if line == "" {
      assert s == end + rest && s[|end|..] == rest;
      assert end == "\r\n" ==> s[1] == '\n';
    } else {
      assert s[0] == line[0] && s[1..] == line[1..] + (end + rest);
      SplitAtEnd(line[1..], end, rest);
      assert line == [line[0]] + line[1..];
    }
  }

  lemma {:induction false} SplitJoinedLines(lines: seq<string>, end: string)
    requires lines != [] && AllBlockLines(lines) && IsLineEnd(end)
    ensures SplitLines(Join(lines, end)) == lines
    decreases |lines|
  {
    hide SplitLines, OneLine;
    assert lines[0] in lines;
    if |lines| == 1 {
      assert lines[0] + "" == lines[0];
      SplitLinesOver(lines[0], "");
      assert lines == [lines[0]];
    } else {
      assert forall l :: l in lines[1..] ==> l in lines;
      SplitJoinedLines(lines[1..], end);
      var more := Join(lines[1..], end);
      assert lines[0] + end + more == lines[0] + (end + more);
      SplitAtEnd(lines[0], end, more);
      assert lines == [lines[0]] + lines[1..];
    }
  }

  lemma {:induction false} BeforeEndAtEnd(end: string, rest: string)
    requires IsLineEnd(end) && rest != "" && rest[0] != '-' && BeforeEnd(rest).Some?
    ensures BeforeEnd(end + rest) == Some(end + BeforeEnd(rest).value)
  {
    AtNewline(rest);
    if end == "\r\n" {
      var s := end + rest;
      assert s[0] == '\r' && s[1] == '\n' && s[2] == rest[0] && s[1..] == "\n" + rest;
      assert ['\r'] + ("\n" + BeforeEnd(rest).value) == end + BeforeEnd(rest).value;
    }
  }

  lemma BeforeEndClosing(end: string, tail: string)
    requires IsLineEnd(end)
    ensures BeforeEnd(end + "---" + tail) == Some("")
  {
  }

  lemma {:induction false} BeforeEndLines(lines: seq<string>, end: string, tail: string)
    requires lines != [] && AllBlockLines(lines) && IsLineEnd(end)
    ensures BeforeEnd(Join(lines, end) + (end + "---" + tail)) == Some(Join(lines, end))
    decreases |lines|
  {
    hide BeforeEnd, OneLine;
    assert lines[0] in lines;
    var closing := end + "---" + tail;
    if |lines| == 1 {
      BeforeEndClosing(end, tail);
      BeforeEndOver(lines[0], closing);
      assert lines[0] + "" == lines[0];
    } else {
      assert forall l :: l in lines[1..] ==> l in lines;
      BeforeEndLines(lines[1..], end, tail);
      var more := Join(lines[1..], end);
      assert lines[1] in lines;
      assert more != "" && more[0] == lines[1][0];
      BeforeEndAtEnd(end, more + closing);
      assert lines[0] + end + more + closing == lines[0] + (end + (more + closing));
      BeforeEndOver(lines[0], end + (more + closing));
      assert lines[0] + (end + more) == lines[0] + end + more;
    }
  }

  lemma {:induction false} EntryBlockLines(e: Entry)
    requires EntryOk(e)
    ensures EntryLines(e) != [] && AllBlockLines(EntryLines(e))
  {
    hide QuotedOk, OneLine, IsKey, IsBlockLine, ItemOk, Raw, Join, ScalarOk;
    match e
    case Scalar(key, value) =>
      RawRead(value);
      LineIsBlockLine(key, Raw(value));
      assert key + ": " + Raw(value) == LineOf((key, Raw(value)));
    case Inline(key, quoted) =>
      InlineRead(NO_YAML, key, quoted);
      LineIsBlockLine(key, ListText(Raws(quoted)));
      assert key + ": [" + Join(Raws(quoted), ", ") + "]" == LineOf((key, ListText(Raws(quoted))));
    case Block(key, mark, items) =>
      HeaderIsBlockLine(key, mark);
      forall l | l in ItemLines(items)
        ensures IsBlockLine(l)
      {
        var i :| 0 <= i < |items| && l == ItemLine(items[i]);
        ItemIsBlockLine(items[i]);
      }
    case Skipped(line) => SkippedIsBlockLine(line);
  }

  lemma SkippedIsBlockLine(line: string)
    requires line != "" && line[0] != '-' && OneLine(line)
    ensures IsBlockLine(line)
  {
  }

  lemma {:induction false} HeaderIsBlockLine(key: string, mark: string)
    requires IsKey(key) && mark in ["", " |", " >"]
    ensures IsBlockLine(key + ":" + mark)
  {
    hide IsIdentChar;
    KeyOneLine(key);
    ConcatOneLine(key, ":");
    ConcatOneLine(key + ":", mark);
  }

  lemma KeyOneLine(key: string)
    requires IsKey(key)
    ensures OneLine(key) && key[0] != '-'
  {
  }

  lemma {:induction false} ItemIsBlockLine(item: Item)
    requires ItemOk(item)
    ensures IsBlockLine(ItemLine(item))
  {
    hide IsSpace, IsTrimmed, IsTerminator;
    DashIsNoSpace();
    DashIsNoTerminator();
    assert IsSpace(item.indent[0]);
    ConcatOneLine(item.gap, item.text);
    ConcatOneLine("-", item.gap + item.text);
    ConcatOneLine(item.indent, "-" + (item.gap + item.text));
  }

  lemma DashIsNoTerminator()
    ensures OneLine("-")
  {
  }

  lemma {:induction false} AllLinesOk(entries: seq<Entry>)
    requires AllEntriesOk(entries)
    ensures AllBlockLines(AllLines(entries)) && (entries != [] ==> AllLines(entries) != [])
  {
    hide EntryOk, EntryLines, IsBlockLine;
    if entries == [] {
    } else {
      assert entries[0] in entries && forall e :: e in entries[1..] ==> e in entries;
      EntryBlockLines(entries[0]);
      AllLinesOk(entries[1..]);
    }
  }

  // ---- The file ----

  /** The frontmatter of the entries, with any text after it. */
  function FileOf(entries: seq<Entry>, end: string, tail: string): string {
    "---" + end + Join(AllLines(entries), end) + end + "---" + tail
  }

  /** Whatever is written by hand in these forms, each key means what its last entry says. */
  lemma {:induction false} FileByHand(entries: seq<Entry>, end: string, tail: string, fallbackName: string)
    requires entries != [] && AllEntriesOk(entries) && IsLineEnd(end)
    ensures Metadata(FileOf(entries, end, tail), fallbackName)
      == Some(Interpreted(Meanings(map[], entries), fallbackName, TitleOf(fallbackName)))
  {
    hide AllLines, Meanings, Interpreted, Join, BeforeEnd, SplitLines, YamlLines, AllEntriesOk, AllBlockLines;
    AllLinesOk(entries);
    var lines := AllLines(entries);
    var block := Join(lines, end);
    BeforeEndLines(lines, end, tail);
    var content := FileOf(entries, end, tail);
    assert content == "---" + end + (block + (end + "---" + tail));
    assert content[3 + |end|..] == block + (end + "---" + tail);
    assert content[3] == end[0];
    SplitJoinedLines(lines, end);
    EntriesRead(NO_YAML, entries);
  }

  // ---- What the runtime makes of the keys ----

  /** The value of the last entry for a key. */
  function Last(entries: seq<Entry>, key: string): Option<Yaml> {
    if entries == [] then None
    else
      match Last(entries[1..], key)
      case Some(v) => Some(v)
      case None =>
        match entries[0]
        case Scalar(k, value) => if k == key then Some(Str(value.text)) else None
        case Inline(k, quoted) => if k == key then Some(List(Texts(quoted))) else None
        case Block(k, _, items) => if k == key then Some(List(ItemTexts(items))) else None
        case Skipped(_) => None
  }

  ghost predicate Holds(m: map<string, Yaml>, key: string, v: Option<Yaml>) {
    (key in m <==> v.Some?) && (key in m ==> v == Some(m[key]))
  }

  lemma {:induction false} LastMeans(m: map<string, Yaml>, entries: seq<Entry>, key: string)
    ensures var last := Last(entries, key);
      Holds(Meanings(m, entries), key, if last.Some? then last else if key in m then Some(m[key]) else None)
    decreases |entries|
  {
    if entries == [] {
    } else {
      LastMeans(Meaning(m, entries[0]), entries[1..], key);
    }
  }

  /** A value as one text: a missing or empty one gives way to another, and a list is joined. */
  function TextOf(v: Option<Yaml>, other: string): string {
    match v
    case None => other
    case Some(Str(text)) => if text == "" then other else text
    case Some(List(items)) => Join(items, ",")
  }

  /** Items that stand on one line with commas between them, without brackets or quotes. */
  ghost predicate PlainItems(items: seq<string>) {
    && items != [] && AtomsOk(items)
    && !StartsWith(items[0], '[') && !EndsWith(items[|items| - 1], ']')
  }

  /** The list that a value means: itself, or what stands between the commas of a text. */
  ghost predicate MeansList(v: Option<Yaml>, list: seq<string>) {
    match v
    case None => list == []
    case Some(List(items)) => list == items
    case Some(Str(text)) =>
      if text == "" then list == []
      else forall items :: PlainItems(items) && text == Join(items, ", ") ==> list == items
  }

  lemma {:induction false} TextFound(m: map<string, Yaml>, key: string, v: Option<Yaml>, other: string)
    requires Holds(m, key, v)
    ensures TextOr(m, key, other) == TextOf(v, other)
  {
    hide Join;
  }

  lemma {:induction false} ListFound(m: map<string, Yaml>, key: string, v: Option<Yaml>)
    requires Holds(m, key, v)
    ensures MeansList(v, ListOr(m, key))
  {
    hide PlainItems, ParseCSV, Join;
    if v.Some? && v.value.Str? && v.value.text != "" {
      forall items | PlainItems(items) && v.value.text == Join(items, ", ")
        ensures ListOr(m, key) == items
      {
        CommasRead(items);
      }
    }
  }

  lemma {:induction false} JoinEdges(items: seq<string>)
    requires items != [] && forall i :: 0 <= i < |items| ==> items[i] != ""
    ensures var t, last := Join(items, ", "), items[|items| - 1];
      t != "" && t[0] == items[0][0] && t[|t| - 1] == last[|last| - 1]
    decreases |items|
  {
    if |items| > 1 {
      JoinEdges(items[1..]);
    }
  }

  lemma {:induction false} CommasRead(items: seq<string>)
    requires PlainItems(items)
    ensures ParseCSV(Join(items, ", ")) == items
  {
    hide Trim, Join, Split, CleanAll, IsSpace, AtomOk;
    var t := Join(items, ", ");
    forall i | 0 <= i < |items|
      ensures items[i] != ""
    {
      AtomEdges(items[i]);
    }
    JoinEdges(items);
    AtomEdges(items[0]);
    AtomEdges(items[|items| - 1]);
    TrimTrimmed(t);
    forall x | x in items
      ensures ',' !in x && IsClean(x)
    {
      AtomHasNoComma(x);
      CleanIsAtom(x);
    }
    JoinedCleans(items);
    CleanAllKeeps(items);
  }

  lemma AtomEdges(s: string)
    requires AtomOk(s)
    ensures s != "" && !IsSpace(s[0]) && !IsSpace(s[|s| - 1])
  {
  }

  lemma AtomHasNoComma(s: string)
    requires AtomOk(s)
    ensures ',' !in s
  {
  }

  /** Each field of the agent that is read comes from the last entry of its key, or is the default. */
  lemma {:induction false} FieldsByHand(entries: seq<Entry>, end: string, tail: string, fallbackName: string)
    requires entries != [] && AllEntriesOk(entries) && IsLineEnd(end)
    ensures Metadata(FileOf(entries, end, tail), fallbackName).Some?
    ensures var d := Metadata(FileOf(entries, end, tail), fallbackName).value;
      && d.id == TextOf(Last(entries, "id"), fallbackName)
      && d.name == TextOf(Last(entries, "name"), TitleOf(fallbackName))
      && d.tier == TextOf(Last(entries, "tier"), "worker")
      && MeansList(Last(entries, "sections"), d.sections)
      && MeansList(Last(entries, "capabilities"), d.capabilities)
      && MeansList(Last(entries, "dependencies"), d.dependencies)
      && d.format == TextOf(Last(entries, "format"), "markdown")
  {
    hide Metadata, FileOf, Meanings, Last, TextOr, ListOr, Requirement, Escalation, MeansList, TextOf, TitleOf, AllEntriesOk, Holds;
    FileByHand(entries, end, tail, fallbackName);
    var m := Meanings(map[], entries);
    AllHold(entries);
    TextFound(m, "id", Last(entries, "id"), fallbackName);
    TextFound(m, "name", Last(entries, "name"), TitleOf(fallbackName));
    TextFound(m, "tier", Last(entries, "tier"), "worker");
    ListFound(m, "sections", Last(entries, "sections"));
    ListFound(m, "capabilities", Last(entries, "capabilities"));
    ListFound(m, "dependencies", Last(entries, "dependencies"));
    TextFound(m, "format", Last(entries, "format"), "markdown");
  }

  lemma {:induction false} AllHold(entries: seq<Entry>)
    ensures forall key :: Holds(Meanings(map[], entries), key, Last(entries, key))
  {
    hide Meanings, Last, Holds;
    forall key
      ensures Holds(Meanings(map[], entries), key, Last(entries, key))
    {
      LastMeans(map[], entries, key);
    }
  }

  /** The model's requirement has three names and the escalation target two; of several, the first name
      that is given at all counts, if any of them says something. */
  lemma {:induction false} AliasesByHand(entries: seq<Entry>, end: string, tail: string, fallbackName: string)
    requires entries != [] && AllEntriesOk(entries) && IsLineEnd(end)
    ensures Metadata(FileOf(entries, end, tail), fallbackName).Some?
    ensures var d := Metadata(FileOf(entries, end, tail), fallbackName).value;
      var camel, snake, model := Last(entries, "llmRequirement"), Last(entries, "llm_requirement"), Last(entries, "model");
      d.llmRequirement ==
        if Silent(camel) && Silent(snake) && Silent(model) then "haiku"
        else if camel.Some? then TextOf(camel, "") else if snake.Some? then TextOf(snake, "") else TextOf(model, "")
    ensures var d := Metadata(FileOf(entries, end, tail), fallbackName).value;
      var camel, snake := Last(entries, "escalationTarget"), Last(entries, "escalation_target");
      d.escalationTarget ==
        if Silent(camel) && Silent(snake) then None
        else Some(if camel.Some? then TextOf(camel, "") else TextOf(snake, ""))
  {
    hide Metadata, FileOf, Meanings, Last, TextOr, ListOr, MeansList, TitleOf, AllEntriesOk, Join;
    FileByHand(entries, end, tail, fallbackName);
    AllHold(entries);
    var m := Meanings(map[], entries);
    assert Holds(m, "llmRequirement", Last(entries, "llmRequirement"));
    assert Holds(m, "llm_requirement", Last(entries, "llm_requirement"));
    assert Holds(m, "model", Last(entries, "model"));
    assert Holds(m, "escalationTarget", Last(entries, "escalationTarget"));
    assert Holds(m, "escalation_target", Last(entries, "escalation_target"));
  }

  predicate Silent(v: Option<Yaml>) {
    v.None? || v == Some(Str(""))
  }

  // ---- A quoted agent ----

  /** The spec's list as an entry, in one line or over several, where it is not empty. */
  ghost predicate WritesList(e: seq<Entry>, key: string, items: seq<string>) {
    if items == [] then e == []
    else |e| == 1 && AllEntriesOk(e) && Last(e, key) == Some(List(items)) && KeyOf(e[0]) == key
  }

  ghost predicate WritesText(e: seq<Entry>, key: string, text: string) {
    |e| == 1 && AllEntriesOk(e) && Last(e, key) == Some(Str(text)) && KeyOf(e[0]) == key && text != ""
  }

  function KeyOf(e: Entry): string {
    match e
    case Scalar(key, _) => key
    case Inline(key, _) => key
    case Block(key, _, _) => key
    case Skipped(_) => ""
  }

  lemma {:induction false} LastConcat(a: seq<Entry>, b: seq<Entry>, key: string)
    ensures Last(a + b, key) == if Last(b, key).Some? then Last(b, key) else Last(a, key)
    decreases |a|
  {
    if a == [] {
      assert a + b == b;
    } else {
      assert (a + b)[1..] == a[1..] + b;
      LastConcat(a[1..], b, key);
    }
  }

  lemma {:induction false} LastOfOther(e: seq<Entry>, key: string)
    requires |e| <= 1 && key != "" && (e != [] ==> KeyOf(e[0]) != key)
    ensures Last(e, key) == None
  {
    if e != [] {
      assert e[1..] == [];
    }
  }

  /** The entries for a spec, however each value is quoted and each list laid out. */
  ghost predicate WritesSpec(parts: seq<seq<Entry>>, spec: Spec) {
    && |parts| == 7
    && WritesText(parts[0], "id", spec.id) && WritesText(parts[1], "name", spec.name) && WritesText(parts[2], "tier", spec.tier)
    && WritesList(parts[3], "capabilities", spec.capabilities)
    && WritesList(parts[4], "sections", OrEmpty(spec.sections))
    && WritesList(parts[5], "dependencies", OrEmpty(spec.dependencies))
    && (if spec.escalationTarget.Some? then WritesText(parts[6], "escalationTarget", spec.escalationTarget.value) else parts[6] == [])
  }

  function Flat(parts: seq<seq<Entry>>): seq<Entry> {
    if parts == [] then [] else parts[0] + Flat(parts[1..])
  }

  lemma {:induction false} LastOfFlat(parts: seq<seq<Entry>>, key: string, k: nat)
    requires k < |parts| && forall j :: 0 <= j < |parts| && j != k ==> Last(parts[j], key) == None
    ensures Last(Flat(parts), key) == Last(parts[k], key)
    decreases |parts|
  {
    hide Last;
    LastConcat(parts[0], Flat(parts[1..]), key);
    if k > 0 {
      LastOfFlat(parts[1..], key, k - 1);
    } else {
      NoneOfFlat(parts[1..], key);
    }
  }

  lemma {:induction false} NoneOfFlat(parts: seq<seq<Entry>>, key: string)
    requires forall j :: 0 <= j < |parts| ==> Last(parts[j], key) == None
    ensures Last(Flat(parts), key) == None
    decreases |parts|
  {
    if parts == [] {
    } else {
      LastConcat(parts[0], Flat(parts[1..]), key);
      NoneOfFlat(parts[1..], key);
    }
  }

  const PART_KEYS := ["id", "name", "tier", "capabilities", "sections", "dependencies", "escalationTarget"]

  lemma {:induction false} PartsHaveKeys(parts: seq<seq<Entry>>, spec: Spec)
    requires WritesSpec(parts, spec)
    ensures forall j :: 0 <= j < 7 ==> |parts[j]| <= 1 && AllEntriesOk(parts[j]) && (parts[j] != [] ==> KeyOf(parts[j][0]) == PART_KEYS[j])
  {
    hide AllEntriesOk, Last, KeyOf;
    assert AllEntriesOk([]) by { NoEntriesOk(); }
  }

  lemma NoEntriesOk()
    ensures AllEntriesOk([])
  {
  }

  lemma KeysDiffer()
    ensures |PART_KEYS| == 7
    ensures forall i, j :: 0 <= i < j < 7 ==> PART_KEYS[i] != PART_KEYS[j]
    ensures "format" !in PART_KEYS && "llmRequirement" !in PART_KEYS && "llm_requirement" !in PART_KEYS && "model" !in PART_KEYS
    ensures "escalation_target" !in PART_KEYS && "" !in PART_KEYS
  {
  }

  lemma {:induction false} PartFound(parts: seq<seq<Entry>>, spec: Spec, k: nat)
    requires WritesSpec(parts, spec) && k < 7
    ensures Last(Flat(parts), PART_KEYS[k]) == Last(parts[k], PART_KEYS[k])
  {
    hide WritesSpec, Last, KeyOf, Flat;
    PartsHaveKeys(parts, spec);
    KeysDiffer();
    assert |parts| == 7 by { SevenParts(parts, spec); }
    forall j | 0 <= j < |parts| && j != k
      ensures Last(parts[j], PART_KEYS[k]) == None
    {
      LastOfOther(parts[j], PART_KEYS[k]);
    }
    LastOfFlat(parts, PART_KEYS[k], k);
  }

  lemma SevenParts(parts: seq<seq<Entry>>, spec: Spec)
    requires WritesSpec(parts, spec)
    ensures |parts| == 7 && parts[0] != []
  {
  }

  lemma {:induction false} NoPart(parts: seq<seq<Entry>>, spec: Spec, key: string)
    requires WritesSpec(parts, spec) && key !in PART_KEYS && key != ""
    ensures Last(Flat(parts), key) == None
  {
    hide WritesSpec, Last, KeyOf, Flat;
    PartsHaveKeys(parts, spec);
    KeysDiffer();
    SevenParts(parts, spec);
    forall j | 0 <= j < |parts|
      ensures Last(parts[j], key) == None
    {
      LastOfOther(parts[j], key);
    }
    NoneOfFlat(parts, key);
  }

  lemma {:induction false} FlatOk(parts: seq<seq<Entry>>)
    requires forall j :: 0 <= j < |parts| ==> AllEntriesOk(parts[j])
    ensures AllEntriesOk(Flat(parts)) && (parts != [] && parts[0] != [] ==> Flat(parts) != [])
    decreases |parts|
  {
    hide EntryOk;
    if parts == [] {
    } else {
      FlatOk(parts[1..]);
    }
  }

  /** A file whose values are quoted, or not, and whose lists stand on one line or several, is read as
      the agent that the values describe. */
  lemma {:induction false} QuotedRoundTrip(parts: seq<seq<Entry>>, spec: Spec, model: string, end: string, tail: string, fallbackName: string)
    requires WritesSpec(parts, spec) && IsLineEnd(end)
    ensures Metadata(FileOf(Flat(parts), end, tail), fallbackName) == Some(Registered(spec, model).(llmRequirement := "haiku"))
  {
    hide Metadata, FileOf, Flat, WritesSpec, AllEntriesOk, Last, KeyOf, PlainItems, TitleOf;
    PartsHaveKeys(parts, spec);
    KeysDiffer();
    SevenParts(parts, spec);
    FlatOk(parts);
    FieldsByHand(Flat(parts), end, tail, fallbackName);
    AliasesByHand(Flat(parts), end, tail, fallbackName);
    for k := 0 to 7
      invariant forall j :: 0 <= j < k ==> Last(Flat(parts), PART_KEYS[j]) == Last(parts[j], PART_KEYS[j])
    {
      PartFound(parts, spec, k);
    }
    NoPart(parts, spec, "format");
    NoPart(parts, spec, "llmRequirement");
    NoPart(parts, spec, "llm_requirement");
    NoPart(parts, spec, "model");
    NoPart(parts, spec, "escalation_target");
    PartsSay(parts, spec);
  }

  lemma {:induction false} PartsSay(parts: seq<seq<Entry>>, spec: Spec)
    requires WritesSpec(parts, spec)
    ensures |parts| == 7 && spec.id != "" && spec.name != "" && spec.tier != ""
    ensures Last(parts[0], "id") == Some(Str(spec.id)) && Last(parts[1], "name") == Some(Str(spec.name)) && Last(parts[2], "tier") == Some(Str(spec.tier))
    ensures Last(parts[3], "capabilities") == Given(spec.capabilities)
    ensures Last(parts[4], "sections") == Given(OrEmpty(spec.sections))
    ensures Last(parts[5], "dependencies") == Given(OrEmpty(spec.dependencies))
    ensures Last(parts[6], "escalationTarget")
      == if spec.escalationTarget.Some? then Some(Str(spec.escalationTarget.value)) else None
    ensures spec.escalationTarget.Some? ==> spec.escalationTarget.value != ""
  {
    hide AllEntriesOk, KeyOf;
  }

  function Given(items: seq<string>): Option<Yaml> {
    if items == [] then None else Some(List(items))
  }

  lemma {:induction false} NothingLast(e: Entry, key: string)
    ensures Last([e], key) ==
      match e
      case Scalar(k, value) => if k == key then Some(Str(value.text)) else None
      case Inline(k, quoted) => if k == key then Some(List(Texts(quoted))) else None
      case Block(k, _, items) => if k == key then Some(List(ItemTexts(items))) else None
      case Skipped(_) => None
  {
    assert [e][1..] == [] && Last([], key) == None;
  }

  /** Such entries: any quotes around any texts that do not themselves end in quotes. */
  lemma {:induction false} QuotedEntries(key: string, q: Quoted)
    requires IsKey(key) && QuotedOk(q) && (q.open != "" || q.close != "") && q.text != ""
    ensures WritesText([Scalar(key, q)], key, q.text)
  {
    hide QuotedOk, IsKey;
    NothingLast(Scalar(key, q), key);
  }

  lemma {:induction false} InlineEntries(key: string, quoted: seq<Quoted>)
    requires IsKey(key) && quoted != [] && forall q :: q in quoted ==> InlineItemOk(q)
    ensures WritesList([Inline(key, quoted)], key, Texts(quoted))
  {
    hide InlineItemOk, IsKey;
    NothingLast(Inline(key, quoted), key);
  }

  lemma {:induction false} BlockEntries(key: string, mark: string, items: seq<Item>)
    requires IsKey(key) && mark in ["", " |", " >"] && items != [] && forall i :: i in items ==> ItemOk(i)
    ensures WritesList([Block(key, mark, items)], key, ItemTexts(items))
  {
    hide ItemOk, IsKey;
    NothingLast(Block(key, mark, items), key);
  }

  /** An item in quotes loses them on one line and keeps them among several. */
  lemma {:induction false} BlockKeepsQuotes(text: string)
    requires text != "" && OneLine(text) && ',' !in text && EdgeOk(text[0]) && EdgeOk(text[|text| - 1])
    ensures var quoted := "\"" + text + "\"";
      && SimpleYaml("k: [" + quoted + "]") == map["k" := List([text])]
      && SimpleYaml("k:\n  - " + quoted) == map["k" := List([quoted])]
  {
    hide OneLine, IsSpace, SimpleYaml, Join, AllEntriesOk, EntryLines;
    var quoted := "\"" + text + "\"";
    var q, item := Quoted("\"", text, "\""), Item("  ", " ", quoted);
    OneItemOk(q, item);
    BlockRead([Inline("k", [q])]);
    BlockRead([Block("k", "", [item])]);
    OneItemLines(q, item);
    InlineText(q, quoted);
    BlockText(item, quoted);
  }

  lemma {:induction false} InlineText(q: Quoted, quoted: string)
    requires Raw(q) == quoted
    ensures Join(EntryLines(Inline("k", [q])), "\n") == "k: [" + quoted + "]"
  {
    hide Raw;
    OneItemLines(q, Item("", "", ""));
    OneJoin("k: [" + quoted + "]");
    assert "k" + ": [" + quoted + "]" == "k: [" + quoted + "]";
    assert EntryLines(Inline("k", [q])) == ["k: [" + quoted + "]"];
  }

  lemma {:induction false} BlockText(item: Item, quoted: string)
    requires item == Item("  ", " ", quoted)
    ensures Join(EntryLines(Block("k", "", [item])), "\n") == "k:\n  - " + quoted
  {
    OneItemLines(Quoted("", "", ""), item);
    assert "  " + ("-" + (" " + quoted)) == "  - " + quoted;
    assert "k" + ":" + "" == "k:";
    assert EntryLines(Block("k", "", [item])) == ["k:", "  - " + quoted];
    TwoJoin("k:", "  - " + quoted);
    assert "k:" + "\n" + ("  - " + quoted) == "k:\n  - " + quoted;
  }

  lemma {:induction false} BlockRead(entry: seq<Entry>)
    requires |entry| == 1 && AllEntriesOk(entry)
    ensures SimpleYaml(Join(EntryLines(entry[0]), "\n")) == Meaning(map[], entry[0])
  {
    hide SplitLines, YamlLines, Join, EntryLines, Meaning, EntryOk, AllBlockLines;
    assert entry[0] in entry && entry[1..] == [];
    EntryBlockLines(entry[0]);
    SplitJoinedLines(EntryLines(entry[0]), "\n");
    EntryRead(NO_YAML, entry[0]);
  }

  lemma TwoJoin(a: string, b: string)
    ensures Join([a, b], "\n") == a + "\n" + b
  {
    assert [a, b][1..] == [b];
  }

  lemma {:induction false} OneItemLines(q: Quoted, item: Item)
    ensures Raws([q]) == [Raw(q)] && Join([Raw(q)], ", ") == Raw(q) && Texts([q]) == [q.text]
    ensures ItemLines([item]) == [ItemLine(item)] && ItemTexts([item]) == [item.text]
  {
    hide Raw, ItemLine;
    assert [q][1..] == [] && [item][1..] == [];
  }

  lemma {:induction false} OneItemOk(q: Quoted, item: Item)
    requires q.open == "\"" == q.close && item.indent == "  " && item.gap == " " && item.text == "\"" + q.text + "\""
    requires q.text != "" && OneLine(q.text) && ',' !in q.text && EdgeOk(q.text[0]) && EdgeOk(q.text[|q.text| - 1])
    ensures AllEntriesOk([Inline("k", [q])]) && AllEntriesOk([Block("k", "", [item])])
  {
    hide OneLine;
    MarkOneLine("\"");
    ConcatOneLine("\"", q.text);
    ConcatOneLine("\"" + q.text, "\"");
    TwoSpaces();
    assert IsKey("k");
  }

  lemma TwoSpaces()
    ensures Blank("  ") && Blank(" ")
  {
  }

  // ---- The name made from that of a file ----

  predicate IsWord(w: string) {
    w != "" && forall i :: 0 <= i < |w| ==> 'a' <= w[i] <= 'z' || 'A' <= w[i] <= 'Z' || '0' <= w[i] <= '9' || w[i] == '_'
  }

  /** The word with its first letter as a capital one. */
  function Capitalised(w: string): string
    requires w != ""
  {
    if 'a' <= w[0] <= 'z' then [(w[0] as int - 'a' as int + 'A' as int) as char] + w[1..] else w
  }

  function AllCapitalised(words: seq<string>): seq<string>
    requires forall w :: w in words ==> IsWord(w)
  {
    if words == [] then []
    else
      assert words[0] in words && IsWord(words[0]);
      [Capitalised(words[0])] + AllCapitalised(words[1..])
  }

  lemma {:induction false} TitleOfWord(w: string)
    requires IsWord(w)
    ensures TitleOf(w) == Capitalised(w)
  {
    var title, expected := TitleOf(w), Capitalised(w);
    forall i | 0 <= i < |w|
      ensures title[i] == expected[i]
    {
      if i > 0 {
        assert IsIdentChar(Dashless(w[i - 1]));
      }
    }
  }

  lemma {:induction false} TitleOverDash(a: string, b: string)
    ensures TitleOf(a + "-" + b) == TitleOf(a) + " " + TitleOf(b)
  {
    var s := a + "-" + b;
    var title, expected := TitleOf(s), TitleOf(a) + " " + TitleOf(b);
    forall i | 0 <= i < |s|
      ensures title[i] == expected[i]
    {
      if i < |a| {
        assert s[i] == a[i] && (i > 0 ==> s[i - 1] == a[i - 1]);
      } else if i > |a| {
        var j := i - |a| - 1;
        assert s[i] == b[j] && s[i - 1] == if j > 0 then b[j - 1] else '-';
      }
    }
  }

  /** The title of a name of words with dashes between them: the words, capitalised, with spaces. */
  lemma {:induction false} TitleOfWords(words: seq<string>)
    requires words != [] && forall w :: w in words ==> IsWord(w)
    ensures TitleOf(Join(words, "-")) == Join(AllCapitalised(words), " ")
    decreases |words|
  {
    hide TitleOf, IsWord;
    assert words[0] in words;
    TitleOfWord(words[0]);
    if |words| == 1 {
      assert words[1..] == [];
    } else {
      assert forall w :: w in words[1..] ==> w in words;
      TitleOfWords(words[1..]);
      TitleOverDash(words[0], Join(words[1..], "-"));
      var rest := AllCapitalised(words[1..]);
      assert rest != [] && AllCapitalised(words)[1..] == rest;
    }
  }
}
