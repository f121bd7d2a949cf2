/** Agent files: the text that the forge writes for an agent, what the runtime reads from its
    frontmatter, and exactly which agents are read back as they were registered. */
module AgentFile {
  import opened Options
  import opened Strings

  // ---- Agents ----

  datatype Spec = Spec(
    id: string,
    name: string,
    tier: string,
    capabilities: seq<string>,
    sections: Option<seq<string>>,
    dependencies: Option<seq<string>>,
    escalationTarget: Option<string>,
    ephemeral: bool,
    systemPrompt: string
  )

  datatype Definition = Definition(
    id: string,
    name: string,
    tier: string,
    sections: seq<string>,
    capabilities: seq<string>,
    dependencies: seq<string>,
    llmRequirement: string,
    format: string,
    escalationTarget: Option<string>
  )

  function OrEmpty(items: Option<seq<string>>): seq<string> {
    if items.Some? then items.value else []
  }

  /** The definition that spawning an agent registers, `model` being the model of its tier. */
  function Registered(spec: Spec, model: string): Definition {
    Definition(spec.id, spec.name, spec.tier, OrEmpty(spec.sections), spec.capabilities,
      OrEmpty(spec.dependencies), model, "markdown", spec.escalationTarget)
  }

  // ---- Writing ----

  function ListText(items: seq<string>): string {
    "[" + Join(items, ", ") + "]"
  }

  function ListEntry(key: string, items: Option<seq<string>>): seq<(string, string)> {
    if OrEmpty(items) != [] then [(key, ListText(OrEmpty(items)))] else []
  }

  function TargetEntry(target: Option<string>): seq<(string, string)> {
    if target.Some? && target.value != "" then [("escalationTarget", target.value)] else []
  }

  /** The keys of the frontmatter and what is written after each. */
  function Entries(spec: Spec): seq<(string, string)> {
    [("id", spec.id), ("name", spec.name), ("tier", spec.tier), ("capabilities", ListText(spec.capabilities))]
    + ListEntry("sections", spec.sections)
    + ListEntry("dependencies", spec.dependencies)
    + TargetEntry(spec.escalationTarget)
    + (if spec.ephemeral then [("ephemeral", "true")] else [])
  }

  function LineOf(e: (string, string)): string {
    e.0 + ": " + e.1
  }

  function LinesOf(entries: seq<(string, string)>): (r: seq<string>)
    ensures |r| == |entries| && forall i :: 0 <= i < |r| ==> r[i] == LineOf(entries[i])
  {
    if entries == [] then [] else [LineOf(entries[0])] + LinesOf(entries[1..])
  }

  function FileText(spec: Spec): string {
    Join(["---"] + LinesOf(Entries(spec)) + ["---", "", spec.systemPrompt, ""], "\n")
  }

  method GenerateAgentFile(spec: Spec) returns (content: string)
    ensures content == FileText(spec)
  {
    hide Join, LinesOf, ListText, LineOf;
    var lines := [
      "---",
      LineOf(("id", spec.id)),
      LineOf(("name", spec.name)),
      LineOf(("tier", spec.tier)),
      LineOf(("capabilities", ListText(spec.capabilities)))
    ];
    ghost var required := [("id", spec.id), ("name", spec.name), ("tier", spec.tier), ("capabilities", ListText(spec.capabilities))];
    assert lines == ["---"] + LinesOf(required);
    if spec.sections.Some? && |spec.sections.value| > 0 {
      lines := lines + [LineOf(("sections", ListText(spec.sections.value)))];
    }
    ghost var sections := ListEntry("sections", spec.sections);
    Pushed(lines, required, sections);
    if spec.dependencies.Some? && |spec.dependencies.value| > 0 {
      lines := lines + [LineOf(("dependencies", ListText(spec.dependencies.value)))];
    }
    ghost var dependencies := ListEntry("dependencies", spec.dependencies);
    Pushed(lines, required + sections, dependencies);
    if spec.escalationTarget.Some? && spec.escalationTarget.value != "" {
      lines := lines + [LineOf(("escalationTarget", spec.escalationTarget.value))];
    }
    ghost var target := TargetEntry(spec.escalationTarget);
    Pushed(lines, required + sections + dependencies, target);
    if spec.ephemeral {
      lines := lines + [LineOf(("ephemeral", "true"))];
    }
    Pushed(lines, required + sections + dependencies + target, if spec.ephemeral then [("ephemeral", "true")] else []);
    lines := lines + ["---", "", spec.systemPrompt, ""];
    content := Join(lines, "\n");
  }

  /** Lines written so far, after at most one entry more. */
  lemma {:induction false} Pushed(lines: seq<string>, entries: seq<(string, string)>, more: seq<(string, string)>)
    requires |more| <= 1 && lines == ["---"] + LinesOf(entries) + (if more == [] then [] else [LineOf(more[0])])
    ensures lines == ["---"] + LinesOf(entries + more)
  {
    assert LinesOf(entries + more) == LinesOf(entries) + (if more == [] then [] else [LineOf(more[0])]);
  }

  // ---- Reading ----

  /** A value of the frontmatter. */
  datatype Yaml = Str(text: string) | List(items: seq<string>)

  predicate IsTerminator(c: char) {
    c == '\n' || c == '\r' || c as int == 0x2028 || c as int == 0x2029
  }

  predicate OneLine(s: string) {
    forall i :: 0 <= i < |s| ==> !IsTerminator(s[i])
  }

  /** The lines of a text: a carriage return before a line feed goes with it. */
  function SplitLines(s: string): (r: seq<string>)
    ensures r != []
    decreases |s|
  {
    if s == [] then [""]
    else if s[0] == '\n' then [""] + SplitLines(s[1..])
    else if s[0] == '\r' && |s| > 1 && s[1] == '\n' then [""] + SplitLines(s[2..])
    else
      var rest := SplitLines(s[1..]);
      [[s[0]] + rest[0]] + rest[1..]
  }

  predicate IsQuote(c: char) {
    c == '"' || c == '\''
  }

  /** Without a quote at the start and a quote at the end. */
  function StripQuotes(s: string): (r: string)
    ensures |r| <= |s|
    ensures r == s <==> (s == "" || (!IsQuote(s[0]) && !IsQuote(s[|s| - 1])))
  {
    var t := if s != [] && IsQuote(s[0]) then s[1..] else s;
    if t != [] && IsQuote(t[|t| - 1]) then t[..|t| - 1] else t
  }

  function Clean(s: string): string {
    StripQuotes(Trim(s))
  }

  /** The items between commas, cleaned, without the empty ones. */
  function CleanAll(parts: seq<string>): (r: seq<string>)
    ensures |r| <= |parts|
  {
    if parts == [] then []
    else (if Clean(parts[0]) == "" then [] else [Clean(parts[0])]) + CleanAll(parts[1..])
  }

  predicate StartsWith(s: string, c: char) {
    s != [] && s[0] == c
  }

  predicate EndsWith(s: string, c: char) {
    s != [] && s[|s| - 1] == c
  }

  predicate IsInlineList(value: string) {
    StartsWith(value, '[') && EndsWith(value, ']')
  }

  predicate OpensList(value: string) {
    value == "" || value == "|" || value == ">"
  }

  function ReadValue(value: string): Yaml {
    if IsInlineList(value) then List(CleanAll(Split(value[1..|value| - 1], ',')))
    else if OpensList(value) then List([])
    else Str(StripQuotes(value))
  }

  /** A line that is a word, a colon and a value without line ends: the word and the trimmed value. */
  function KeyValue(line: string): Option<(string, string)> {
    var n := Segment(line);
    if 0 < n < |line| && line[n] == ':' && OneLine(TrimStart(line[n + 1..]))
    then Some((line[..n], Trim(line[n + 1..])))
    else None
  }

  /** An indented line of a dash, white space and an item without line ends: the trimmed item. Where
      only white space follows the dash, its last character is the item. */
  function ListItem(line: string): Option<string> {
    var t := TrimStart(line);
    if |t| == |line| || !StartsWith(t, '-') then None
    else
      var rest := TrimStart(t[1..]);
      if |rest| == |t| - 1 || |t| == 1 then None
      else if rest != [] then (if OneLine(rest) then Some(Trim(rest)) else None)
      else if |t| > 2 && !IsTerminator(t[|t| - 1]) then Some("")
      else None
  }

  datatype YamlState = YamlState(result: map<string, Yaml>, currentKey: string, collectingList: bool)

  function YamlLine(st: YamlState, line: string): YamlState {
    if Trim(line) == "" || StartsWith(Trim(line), '#') then st
    else if ListItem(line).Some? && st.collectingList && st.currentKey != "" then
      if st.currentKey in st.result && st.result[st.currentKey].List?
      then st.(result := st.result[st.currentKey := List(st.result[st.currentKey].items + [ListItem(line).value])])
      else st
    else
      match KeyValue(line)
      case None => st.(collectingList := false)
      case Some((key, value)) =>
        if !IsInlineList(value) && OpensList(value) then YamlState(st.result[key := List([])], key, true)
        else YamlState(st.result[key := ReadValue(value)], st.currentKey, false)
  }

  function YamlLines(st: YamlState, lines: seq<string>): YamlState
    decreases |lines|
  {
    if lines == [] then st else YamlLines(YamlLine(st, lines[0]), lines[1..])
  }

  const NO_YAML := YamlState(map[], "", false)

  function SimpleYaml(block: string): map<string, Yaml> {
    YamlLines(NO_YAML, SplitLines(block)).result
  }

  method ParseSimpleYaml(block: string) returns (result: map<string, Yaml>)
    ensures result == SimpleYaml(block)
  {
    hide Trim, TrimStart, ListItem, KeyValue, ReadValue, IsInlineList, OpensList, SplitLines, StartsWith;
    result := map[];
    var lines := SplitLines(block);
    var currentKey := "";
    var collectingList := false;
    for i := 0 to |lines|
      invariant YamlLines(YamlState(result, currentKey, collectingList), lines[i..]) == YamlLines(NO_YAML, lines)
    {
      var line := lines[i];
      assert lines[i..][0] == line && lines[i..][1..] == lines[i + 1..];
      if Trim(line) == "" || StartsWith(Trim(line), '#') {
        continue;
      }
      var listItem := ListItem(line);
      if listItem.Some? && collectingList && currentKey != "" {
        if currentKey in result && result[currentKey].List? {
          result := result[currentKey := List(result[currentKey].items + [listItem.value])];
        }
        continue;
      }
      collectingList := false;
      var kv := KeyValue(line);
      if kv.Some? {
        var (key, value) := kv.value;
        if IsInlineList(value) {
          result := result[key := ReadValue(value)];
        } else if OpensList(value) {
          currentKey := key;
          collectingList := true;
          result := result[key := List([])];
        } else {
          result := result[key := ReadValue(value)];
        }
      }
    }
    assert lines[|lines|..] == [];
  }

  /** What stands before the first line end that three dashes follow. */
  function BeforeEnd(s: string): Option<string> {
    if s == [] then None
    else if "\n---" <= s || "\r\n---" <= s then Some("")
    else
      match BeforeEnd(s[1..])
      case None => None
      case Some(block) => Some([s[0]] + block)
  }

  /** What stands between a first line of three dashes and the next line that starts with three. */
  function Frontmatter(content: string): Option<string> {
    if "---\n" <= content then BeforeEnd(content[4..])
    else if "---\r\n" <= content then BeforeEnd(content[5..])
    else None
  }

  predicate Truthy(parsed: map<string, Yaml>, key: string): (truthy: bool)
    ensures truthy ==> key in parsed
  {
    key in parsed && parsed[key] != Str("")
  }

  /** A value as a string; a list is joined with commas. */
  function AsString(v: Yaml): string {
    match v
    case Str(s) => s
    case List(items) => Join(items, ",")
  }

  function ParseCSV(value: string): seq<string> {
    var c := Trim(value);
    var c := if StartsWith(c, '[') then c[1..] else c;
    var c := if EndsWith(c, ']') then c[..|c| - 1] else c;
    CleanAll(Split(c, ','))
  }

  function ToStringArray(v: Yaml): seq<string> {
    match v
    case Str(s) => ParseCSV(s)
    case List(items) => items
  }

  /** The first of two keys that is there at all. */
  function FirstOf(parsed: map<string, Yaml>, a: string, b: string): string
    requires a in parsed || b in parsed
  {
    AsString(if a in parsed then parsed[a] else parsed[b])
  }

  function TextOr(parsed: map<string, Yaml>, key: string, other: string): string {
    if Truthy(parsed, key) then AsString(parsed[key]) else other
  }

  function ListOr(parsed: map<string, Yaml>, key: string): seq<string> {
    if Truthy(parsed, key) then ToStringArray(parsed[key]) else []
  }

  function Requirement(parsed: map<string, Yaml>): string {
    if Truthy(parsed, "llmRequirement") || Truthy(parsed, "llm_requirement") || Truthy(parsed, "model") then
      if "llmRequirement" in parsed || "llm_requirement" in parsed
      then FirstOf(parsed, "llmRequirement", "llm_requirement")
      else AsString(parsed["model"])
    else "haiku"
  }

  function Escalation(parsed: map<string, Yaml>): Option<string> {
    if Truthy(parsed, "escalationTarget") || Truthy(parsed, "escalation_target")
    then Some(FirstOf(parsed, "escalationTarget", "escalation_target"))
    else None
  }

  function Interpreted(parsed: map<string, Yaml>, fallbackName: string, title: string): Definition {
    Definition(
      TextOr(parsed, "id", fallbackName),
      TextOr(parsed, "name", title),
      TextOr(parsed, "tier", "worker"),
      ListOr(parsed, "sections"),
      ListOr(parsed, "capabilities"),
      ListOr(parsed, "dependencies"),
      Requirement(parsed),
      TextOr(parsed, "format", "markdown"),
      Escalation(parsed))
  }

  function Dashless(c: char): char {
    if c == '-' then ' ' else c
  }

  function Capital(c: char): char {
    if 'a' <= c <= 'z' then (c as int - 32) as char else c
  }

  function TitleChar(s: string, i: nat): char
    requires i < |s|
  {
    var c := Dashless(s[i]);
    if i > 0 && IsIdentChar(Dashless(s[i - 1])) then c else Capital(c)
  }

  /** The name made from that of a file: dashes become spaces, and words start with capitals. */
  function TitleOf(fallbackName: string): (title: string)
    ensures |title| == |fallbackName|
  {
    seq(|fallbackName|, i requires 0 <= i < |fallbackName| => TitleChar(fallbackName, i))
  }

  /** What the runtime reads from a file with frontmatter, given the name of the file. */
  function Metadata(content: string, fallbackName: string): Option<Definition> {
    match Frontmatter(content)
    case None => None
    case Some(block) => Some(Interpreted(SimpleYaml(block), fallbackName, TitleOf(fallbackName)))
  }

  method ParseAgentMetadata(content: string, fallbackName: string) returns (r: Option<Definition>)
    ensures r == Metadata(content, fallbackName)
  {
    hide SimpleYaml, Frontmatter, Interpreted;
    var block := Frontmatter(content);
    if block.None? {
      return None;
    }
    var parsed := ParseSimpleYaml(block.value);
    r := Some(Interpreted(parsed, fallbackName, TitleOf(fallbackName)));
  }
}
