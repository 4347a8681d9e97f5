/** `collector.toml`: the PHP reader (`api/internal/config.php`) on what the fixture writer
    (`tests/api/fixtures/make_config.php`) prints. */
module Config {
  import opened Digits
  import opened ConfigScalar
  import opened ConfigText

  // ---- the writer ----

  datatype Entry = Entry(key: string, value: Scalar)
  datatype Section = Section(name: string, entries: seq<Entry>)

  const HEADER := "# fixture collector.toml generated by tests"

  function EntryLine(e: Entry): string {
    e.key + " = " + FormatValue(e.value)
  }

  function EntryLines(entries: seq<Entry>): seq<string> {
    if entries == [] then [] else EntryLines(entries[..|entries| - 1]) + [EntryLine(entries[|entries| - 1])]
  }

  function HeaderLine(s: Section): string {
    "[" + s.name + "]"
  }

  function SectionLines(sections: seq<Section>): seq<string> {
    if sections == [] then []
    else
      var last := sections[|sections| - 1];
      SectionLines(sections[..|sections| - 1]) + ["", HeaderLine(last)] + EntryLines(last.entries)
  }

  function Printed(sections: seq<Section>): string {
    Join([HEADER] + SectionLines(sections) + [""])
  }

  /** The writer's nested loops. */
  method MakeConfig(sections: seq<Section>) returns (text: string)
    ensures text == Printed(sections)
  {
    hide SectionLines, EntryLines, HeaderLine, EntryLine, Join;
    var lines := [HEADER];
    NoLines();
    for i := 0 to |sections|
      invariant lines == [HEADER] + SectionLines(sections[..i])
    {
      var section := sections[i];
      lines := lines + [""];
      lines := lines + [HeaderLine(section)];
      ghost var head := lines;
      for j := 0 to |section.entries|
        invariant lines == head + EntryLines(section.entries[..j])
      {
        lines := lines + [EntryLine(section.entries[j])];
        EntryLinesNext(head, section.entries, j);
      }
      assert section.entries[..|section.entries|] == section.entries;
      SectionLinesNext(sections, i);
    }
    assert sections[..|sections|] == sections;
    lines := lines + [""];
    text := Join(lines);
  }

  lemma NoLines()
    ensures EntryLines([]) == [] && SectionLines([]) == []
  {
  }

  lemma EntryLinesNext(head: seq<string>, entries: seq<Entry>, j: nat)
    requires j < |entries|
    ensures head + EntryLines(entries[..j + 1]) == head + EntryLines(entries[..j]) + [EntryLine(entries[j])]
  {
    assert entries[..j + 1][..j] == entries[..j];
  }

  lemma SectionLinesNext(sections: seq<Section>, i: nat)
    requires i < |sections|
    ensures [HEADER] + SectionLines(sections[..i + 1])
         == [HEADER] + SectionLines(sections[..i]) + [""] + [HeaderLine(sections[i])] + EntryLines(sections[i].entries)
  {
    hide EntryLines, HeaderLine;
    assert sections[..i + 1][..i] == sections[..i];
  }

  // ---- the reader ----

  type Sections = map<string, map<string, Scalar>>

  datatype Reader = Reader(sections: Sections, current: Option<string>)

  predicate NameChar(c: char) {
    'A' <= c <= 'Z' || 'a' <= c <= 'z' || '0' <= c <= '9' || c == '_' || c == '-'
  }

  predicate Name(s: string) {
    s != [] && forall i :: 0 <= i < |s| ==> NameChar(s[i])
  }

  /** `^\[([A-Za-z0-9_-]+)\]$` */
  function SectionHeader(s: string): Option<string> {
    if |s| >= 2 && s[0] == '[' && s[|s| - 1] == ']' && Name(s[1..|s| - 1]) then Some(s[1..|s| - 1]) else None
  }

  function NameLength(s: string): (n: nat)
    ensures n <= |s|
  {
    if s != [] && NameChar(s[0]) then 1 + NameLength(s[1..]) else 0
  }

  /** `^([A-Za-z0-9_-]+)\s*=\s*(.*)$` */
  function Assignment(s: string): Option<(string, string)> {
    var n := NameLength(s);
    var rest := SkipSpace(s[n..]);
    if n == 0 || rest == [] || rest[0] != '=' then None else Some((s[..n], SkipSpace(rest[1..])))
  }

  function ParseAssignment(r: Reader, trimmed: string, line: nat): Result<Reader>
    requires r.current.Some? && r.current.value in r.sections
  {
    match Assignment(trimmed)
    case None => Err(NotAnAssignment(line))
    case Some((key, text)) =>
      match ParseScalar(Trim(Strip(text, false, false)), line)
      case Err(e) => Err(e)
      case Ok(v) =>
        var current := r.current.value;
        Ok(Reader(r.sections[current := r.sections[current][key := v]], r.current))
  }

  predicate CurrentOpen(r: Reader) {
    r.current.Some? ==> r.current.value in r.sections
  }

  function ParseLine(r: Reader, raw: string, line: nat): (next: Result<Reader>)
    requires CurrentOpen(r)
    ensures next.Ok? ==> CurrentOpen(next.value)
  {
    var trimmed := Trim(raw);
    if trimmed == [] || trimmed[0] == '#' then Ok(r)
    else if trimmed[0] == '[' then
      match SectionHeader(trimmed)
      case None => Err(MalformedHeader(line))
      case Some(name) =>
        Ok(Reader(if name in r.sections then r.sections else r.sections[name := map[]], Some(name)))
    else if r.current.None? then Err(BeforeAnySection(line))
    else ParseAssignment(r, trimmed, line)
  }

  const START := Reader(map[], None)

  /** The reader's state after all of `lines`; the first bad line ends it. */
  function ParseLines(lines: seq<string>): (r: Result<Reader>)
    ensures r.Ok? ==> CurrentOpen(r.value)
  {
    if lines == [] then Ok(START)
    else
      match ParseLines(lines[..|lines| - 1])
      case Err(e) => Err(e)
      case Ok(r) => ParseLine(r, lines[|lines| - 1], |lines|)
  }

  function Sectioned(r: Result<Reader>): Result<Sections> {
    match r case Err(e) => Err(e) case Ok(reader) => Ok(reader.sections)
  }

  function Reads(raw: string): Result<Sections> {
    Sectioned(ParseLines(SplitLines(raw)))
  }

  /** The reader's loop; returning early stands for the exception. */
  method Parse(raw: string) returns (result: Result<Sections>)
    ensures result == Reads(raw)
  {
    var lines := SplitLines(raw);
    var sections: Sections := map[];
    var current: Option<string> := None;
    for i := 0 to |lines|
      invariant CurrentOpen(Reader(sections, current))
      invariant ParseLines(lines[..i]) == Ok(Reader(sections, current))
    {
      assert lines[..i + 1][..i] == lines[..i];
      var trimmed := Trim(lines[i]);
      assert lines[..i + 1] + lines[i + 1..] == lines;
      ErrorSticks(lines[..i + 1], lines[i + 1..]);
      if trimmed == [] || trimmed[0] == '#' {
        continue;
      }
      if trimmed[0] == '[' {
        var header := SectionHeader(trimmed);
        if header.None? {
          return Err(MalformedHeader(i + 1));
        }
        current := Some(header.value);
        if header.value !in sections {
          sections := sections[header.value := map[]];
        }
        continue;
      }
      if current.None? {
        return Err(BeforeAnySection(i + 1));
      }
      var assignment := Assignment(trimmed);
      if assignment.None? {
        return Err(NotAnAssignment(i + 1));
      }
      var rest := StripTrailingComment(assignment.value.1);
      var value := ParseScalar(Trim(rest), i + 1);
      if value.Err? {
        return Err(value.error);
      }
      sections := sections[current.value := sections[current.value][assignment.value.0 := value.value]];
    }
    assert lines[..|lines|] == lines;
    return Ok(sections);
  }

  lemma ParseNext(a: seq<string>, line: string)
    ensures ParseLines(a + [line])
         == match ParseLines(a) case Err(e) => Err(e) case Ok(r) => ParseLine(r, line, |a| + 1)
  {
    assert (a + [line])[..|a|] == a;
  }

  lemma {:induction false} ErrorSticks(a: seq<string>, b: seq<string>)
    ensures ParseLines(a).Err? ==> ParseLines(a + b) == ParseLines(a)
    decreases |b|
  {
    if b == [] {
      assert a + b == a;
    } else {
      ErrorSticks(a, b[..|b| - 1]);
      ParseNext(a + b[..|b| - 1], b[|b| - 1]);
      assert a + b[..|b| - 1] + [b[|b| - 1]] == a + b;
    }
  }
}
