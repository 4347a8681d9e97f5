/** What the reader makes of what the writer wrote. */
module ConfigRoundTrip {
  import opened Digits
  import opened ConfigScalar
  import opened ConfigText
  import opened Config

  // ---- what should come back ----

  function EntryMap(entries: seq<Entry>): map<string, Scalar> {
    if entries == [] then map[]
    else EntryMap(entries[..|entries| - 1])[entries[|entries| - 1].key := entries[|entries| - 1].value]
  }

  function AsMap(sections: seq<Section>): Sections {
    if sections == [] then map[]
    else AsMap(sections[..|sections| - 1])[sections[|sections| - 1].name := EntryMap(sections[|sections| - 1].entries)]
  }

  /** Well-formed and, as keys of a PHP array are, distinct names. */
  ghost predicate WellFormed(sections: seq<Section>) {
    && (forall i :: 0 <= i < |sections| ==> Name(sections[i].name) && Keys(sections[i].entries))
    && (forall i, j :: 0 <= i < j < |sections| ==> sections[i].name != sections[j].name)
  }

  ghost predicate Keys(entries: seq<Entry>) {
    && (forall i :: 0 <= i < |entries| ==> Name(entries[i].key))
    && (forall i, j :: 0 <= i < j < |entries| ==> entries[i].key != entries[j].key)
  }

  predicate HasCr(v: Scalar) {
    v.Str? && '\r' in v.s
  }

  predicate NoCr(entries: seq<Entry>) {
    forall i :: 0 <= i < |entries| ==> !HasCr(entries[i].value)
  }

  predicate NoCrAtAll(sections: seq<Section>) {
    forall i :: 0 <= i < |sections| ==> NoCr(sections[i].entries)
  }

  lemma {:induction false} EntryMapLookup(entries: seq<Entry>)
    requires Keys(entries)
    ensures forall k :: k in EntryMap(entries) <==> exists i :: 0 <= i < |entries| && entries[i].key == k
    ensures forall i :: 0 <= i < |entries| ==>
      entries[i].key in EntryMap(entries) && EntryMap(entries)[entries[i].key] == entries[i].value
  {
    if entries != [] {
      EntryMapLookup(entries[..|entries| - 1]);
    }
  }

  lemma {:induction false} AsMapLookup(sections: seq<Section>)
    requires WellFormed(sections)
    ensures forall k :: k in AsMap(sections) <==> exists i :: 0 <= i < |sections| && sections[i].name == k
    ensures forall i :: 0 <= i < |sections| ==>
      sections[i].name in AsMap(sections) && AsMap(sections)[sections[i].name] == EntryMap(sections[i].entries)
  {
    hide Keys, Name, EntryMap;
    if sections != [] {
      AsMapLookup(sections[..|sections| - 1]);
    }
  }

  // ---- one value ----

  /** No unescaped quote. */
  predicate NoBareQuote(x: string)
    decreases |x|
  {
    if x == [] then true
    else if x[0] == '\\' then |x| < 2 || NoBareQuote(x[2..])
    else x[0] != '"' && NoBareQuote(x[1..])
  }

  lemma {:induction false} WellEscapedNoBareQuote(x: string)
    requires WellEscaped(x)
    ensures NoBareQuote(x) && !NoBareQuote(x + "\"")
    decreases |x|
  {
    var y := x + "\"";
    if x != [] {
      var k := if x[0] == '\\' then 2 else 1;
      assert y[0] == x[0] && y[k..] == x[k..] + "\"";
      WellEscapedNoBareQuote(x[k..]);
    }
  }

  lemma {:induction false} NoBareQuotePrefix(x: string, y: string)
    requires NoBareQuote(x + y)
    ensures NoBareQuote(x)
    decreases |x|
  {
    if x != [] && (x[0] != '\\' || |x| >= 2) {
      var k := if x[0] == '\\' then 2 else 1;
      assert (x + y)[0] == x[0] && (x + y)[k..] == x[k..] + y;
      NoBareQuotePrefix(x[k..], y);
    }
  }

  /** Text that never leaves the string it is in is kept whole. */
  lemma {:induction false} StripUnclosed(x: string)
    requires NoBareQuote(x)
    ensures Strip(x, true, false) == x
    decreases |x|
  {
    hide Strip;
    StripEnds("");
    if x != [] {
      if x[0] != '\\' {
        StripUnclosed(x[1..]);
        StripChar(x[0], x[1..]);
        assert x == [x[0]] + x[1..];
      } else if |x| >= 2 {
        StripUnclosed(x[2..]);
        StripPair(x[1], x[2..]);
        assert x == ['\\', x[1]] + x[2..];
      } else {
        assert x == "\\";
      }
    }
  }

  /** Inside a string, escaped text is kept and leaves the scanner inside the string. */
  lemma {:induction false} StripInside(x: string, tail: string)
    requires WellEscaped(x)
    ensures Strip(x + tail, true, false) == x + Strip(tail, true, false)
    decreases |x|
  {
    hide Strip;
    if x == [] {
      assert x + tail == tail;
    } else if x[0] != '\\' {
      StripInside(x[1..], tail);
      StripChar(x[0], x[1..] + tail);
      assert x + tail == [x[0]] + (x[1..] + tail);
    } else {
      StripInside(x[2..], tail);
      StripPair(x[1], x[2..] + tail);
      assert x + tail == ['\\', x[1]] + (x[2..] + tail);
    }
  }

  /** The comment scanner passes over a printed string, even one with `#` in it. */
  lemma StripString(s: string, rest: string)
    ensures Strip("\"" + Escape(s) + "\"" + rest, false, false) == "\"" + Escape(s) + "\"" + Strip(rest, false, false)
  {
    hide Strip, Escape, WellEscaped, Unescape;
    var x := Escape(s);
    EscapeReadsBack(s);
    StripQuote(x + ("\"" + rest));
    StripInside(x, "\"" + rest);
    StripQuote(rest);
    assert "\"" + x + "\"" + rest == "\"" + (x + ("\"" + rest));
  }

  lemma StripPrinted(v: Scalar, rest: string)
    ensures Strip(FormatValue(v) + rest, false, false) == FormatValue(v) + Strip(rest, false, false)
  {
    hide Strip, Escape, IntText;
    match v
    case Bool(b) => StripPlain(FormatValue(v), rest);
    case Int(i) =>
      IntTextPlain(i);
      StripPlain(FormatValue(v), rest);
    case Str(s) => StripString(s, rest);
  }

  lemma IntTextPlain(i: int)
    ensures forall k :: 0 <= k < |IntText(i)| ==> IntText(i)[k] == '-' || IsDigit(IntText(i)[k])
  {
    hide NatText, Decimal;
    NatTextReadsBack(Magnitude(i));
  }

  predicate Edge(c: char) {
    !TrimChar(c) && !SpaceChar(c) && c != '='
  }

  lemma PrintedEdges(v: Scalar)
    ensures FormatValue(v) != [] && Edge(FormatValue(v)[0]) && Edge(FormatValue(v)[|FormatValue(v)| - 1])
  {
    hide IntText, Escape;
    if v.Int? {
      IntTextShape(v.i);
    }
  }

  lemma TrimPrinted(v: Scalar, blanks: string)
    requires forall i :: 0 <= i < |blanks| ==> TrimChar(blanks[i])
    ensures Trim(FormatValue(v) + blanks) == FormatValue(v)
  {
    hide FormatValue, TrimRight;
    PrintedEdges(v);
    TrimRightKeeps(FormatValue(v), blanks);
    AllBlank(blanks);
  }

  lemma StripEmpty()
    ensures Strip("", false, false) == ""
  {
  }

  lemma StripComment(blanks: string, comment: string)
    requires forall i :: 0 <= i < |blanks| ==> TrimChar(blanks[i])
    ensures Strip(blanks + ("#" + comment), false, false) == blanks
  {
    StripPlain(blanks, "#" + comment);
  }

  /** A value reads back whatever comment follows it on its line. */
  lemma CommentIgnored(v: Scalar, blanks: string, comment: string, line: nat)
    requires forall i :: 0 <= i < |blanks| ==> TrimChar(blanks[i])
    ensures ParseScalar(Trim(Strip(FormatValue(v), false, false)), line) == Ok(v)
    ensures ParseScalar(Trim(Strip(FormatValue(v) + (blanks + ("#" + comment)), false, false)), line) == Ok(v)
  {
    hide ParseScalar, FormatValue, Trim, Strip;
    StripPrinted(v, "");
    StripEmpty();
    assert FormatValue(v) + "" == FormatValue(v);
    TrimPrinted(v, "");
    StripPrinted(v, blanks + ("#" + comment));
    StripComment(blanks, comment);
    TrimPrinted(v, blanks);
    ScalarReadsBack(v, line);
  }

  // ---- one line ----

  lemma {:induction false} NameLengthOf(name: string, rest: string)
    requires forall i :: 0 <= i < |name| ==> NameChar(name[i])
    requires rest != [] && !NameChar(rest[0])
    ensures NameLength(name + rest) == |name|
  {
    if name == [] {
      assert name + rest == rest;
    } else {
      NameLengthOf(name[1..], rest);
      assert (name + rest)[1..] == name[1..] + rest;
    }
  }

  lemma SkipOne(s: string)
    requires s != [] && !SpaceChar(s[0])
    ensures SkipSpace(" " + s) == s && SkipSpace(s) == s
  {
    assert (" " + s)[1..] == s;
  }

  function Assigned(key: string, text: string): string {
    key + " = " + text
  }

  lemma AssignmentOf(key: string, text: string)
    requires Name(key) && text != [] && !SpaceChar(text[0])
    ensures Assignment(Assigned(key, text)) == Some((key, text))
  {
    hide SkipSpace, NameLength;
    var s, rest := Assigned(key, text), "=" + (" " + text);
    assert s == key + (" " + rest);
    NameLengthOf(key, " " + rest);
    assert s[..|key|] == key && s[|key|..] == " " + rest;
    SkipOne(rest);
    assert rest[1..] == " " + text;
    SkipOne(text);
  }

  lemma AssignedStart(key: string, text: string)
    requires Name(key)
    ensures var s := Assigned(key, text);
            s != [] && !TrimChar(s[0]) && s[0] != '#' && s[0] != '[' && TrimLeft(s) == s
  {
  }

  ghost predicate InSection(r: Reader) {
    r.current.Some? && r.current.value in r.sections
  }

  lemma AssignedTrims(key: string, text: string)
    requires Name(key) && text != [] && !TrimChar(text[|text| - 1])
    ensures Trim(Assigned(key, text)) == Assigned(key, text)
  {
    AssignedStart(key, text);
    var s := Assigned(key, text);
    assert s[|s| - 1] == text[|text| - 1];
  }

  lemma LineIsAssignment(r: Reader, key: string, text: string, line: nat)
    requires InSection(r) && Name(key) && text != [] && !TrimChar(text[|text| - 1])
    ensures ParseLine(r, Assigned(key, text), line) == ParseAssignment(r, Assigned(key, text), line)
  {
    hide Trim, Assigned, ParseAssignment, Name;
    AssignedTrims(key, text);
    AssignedStart(key, text);
  }

  function Set(r: Reader, key: string, v: Scalar): Reader
    requires InSection(r)
  {
    Reader(r.sections[r.current.value := r.sections[r.current.value][key := v]], r.current)
  }

  lemma EntryParses(r: Reader, e: Entry, line: nat)
    requires InSection(r) && Name(e.key)
    ensures ParseLine(r, EntryLine(e), line) == Ok(Set(r, e.key, e.value))
  {
    hide FormatValue, ParseScalar, ParseLine, Trim, Strip, Assignment, Name;
    var text := FormatValue(e.value);
    PrintedEdges(e.value);
    assert EntryLine(e) == Assigned(e.key, text);
    LineIsAssignment(r, e.key, text, line);
    AssignmentOf(e.key, text);
    CommentIgnored(e.value, "", "", line);
  }

  lemma HeaderParses(r: Reader, s: Section, line: nat)
    requires CurrentOpen(r) && Name(s.name)
    ensures ParseLine(r, HeaderLine(s), line)
         == Ok(Reader(if s.name in r.sections then r.sections else r.sections[s.name := map[]], Some(s.name)))
  {
    hide Name;
    var h := HeaderLine(s);
    assert Trim(h) == h && h[1..|h| - 1] == s.name;
  }

  lemma FillersParse(r: Reader, line: nat)
    requires CurrentOpen(r)
    ensures ParseLine(r, "", line) == Ok(r) && ParseLine(r, HEADER, line) == Ok(r)
  {
    assert HEADER[0] == '#' && !TrimChar(HEADER[|HEADER| - 1]);
    assert Trim(HEADER) == HEADER;
  }

  // ---- a value cut by a carriage return ----

  lemma QuotedPrefix(x: string, n: nat)
    requires NoBareQuote(x) && n <= |x|
    ensures NoBareQuote(x[..n])
  {
    assert x == x[..n] + x[n..];
    NoBareQuotePrefix(x[..n], x[n..]);
  }

  lemma UnclosedIsMalformed(r: Reader, x: string, line: nat)
    requires NoBareQuote(x)
    ensures ParseScalar("\"" + x, line) == Err(MalformedString(line))
  {
    hide NoBareQuote, WellEscaped, Unescape, IntShape, ParseInt;
    var s := "\"" + x;
    assert s[0] == '"' && "true"[0] == 't' && "false"[0] == 'f';
    if |s| >= 2 && s[|s| - 1] == '"' && WellEscaped(s[1..|s| - 1]) {
      assert x == s[1..|s| - 1] + "\"";
      WellEscapedNoBareQuote(s[1..|s| - 1]);
    }
  }

  /** A quote opened on a line and not closed there ends the reading, whatever blanks `trim` takes off. */
  lemma UnclosedFails(r: Reader, key: string, x: string, line: nat)
    requires InSection(r) && Name(key) && NoBareQuote(x)
    ensures ParseLine(r, Assigned(key, "\"" + x), line) == Err(MalformedString(line))
  {
    hide ParseScalar, Name, NoBareQuote, Strip, TrimRight, TrimLeft, Assignment;
    var y := TrimRight(x);
    var z := TrimRight(y);
    TrimRightIsPrefix(x);
    TrimRightIsPrefix(y);
    assert y == x[..|y|] && z == y[..|z|];
    QuotedPrefix(x, |y|);
    QuotedPrefix(y, |z|);
    AssignedStart(key, "\"" + x);
    assert Assigned(key, "\"" + x) == Assigned(key, "\"") + x;
    TrimRightKeeps(Assigned(key, "\""), x);
    assert Assigned(key, "\"") + y == Assigned(key, "\"" + y);
    AssignedStart(key, "\"" + y);
    AssignmentOf(key, "\"" + y);
    StripUnclosed(y);
    StripQuote(y);
    QuotedTrim(y);
    UnclosedIsMalformed(r, z, line);
  }

  lemma QuotedTrim(y: string)
    ensures Trim("\"" + y) == "\"" + TrimRight(y)
  {
    hide TrimRight;
    TrimRightKeeps("\"", y);
    assert TrimLeft("\"" + y) == "\"" + y;
  }

  lemma EscapeStep(c: char, rest: string)
    ensures Escape([c] + rest) == EscapeChar(c) + Escape(rest)
  {
    hide EscapeChar;
    assert ([c] + rest)[1..] == rest;
  }

  lemma Concat(x: string, y: string, z: string)
    ensures x + (y + z) == x + y + z
  {
  }

  lemma {:induction false} EscapeAppend(a: string, b: string)
    ensures Escape(a + b) == Escape(a) + Escape(b)
  {
    hide EscapeChar;
    if a == [] {
      assert a + b == b;
    } else {
      EscapeAppend(a[1..], b);
      EscapeStep(a[0], a[1..] + b);
      assert [a[0]] + (a[1..] + b) == a + b;
      Concat(EscapeChar(a[0]), Escape(a[1..]), Escape(b));
    }
  }

  lemma {:induction false} EscapeOneLine(s: string)
    requires '\r' !in s
    ensures OneLine(Escape(s))
  {
    if s != [] {
      EscapeOneLine(s[1..]);
      assert OneLine(EscapeChar(s[0]));
    }
  }

  lemma {:induction false} FirstCr(s: string) returns (before: string, after: string)
    requires '\r' in s
    ensures s == before + "\r" + after && '\r' !in before
  {
    if s[0] == '\r' {
      before, after := "", s[1..];
    } else {
      before, after := FirstCr(s[1..]);
      before := [s[0]] + before;
    }
  }

  lemma EscapeCut(b: string, a: string)
    ensures Escape(b + "\r" + a) == Escape(b) + "\r" + Escape(a)
  {
    hide Escape;
    EscapeAppend(b + "\r", a);
    EscapeAppend(b, "\r");
    CrEscape();
  }

  lemma CrEscape()
    ensures Escape("\r") == "\r"
  {
  }

  lemma Requote(x: string, y: string)
    ensures "\"" + (x + "\r" + y) + "\"" == "\"" + x + "\r" + (y + "\"")
  {
  }

  lemma EscapedBefore(s: string)
    requires '\r' !in s
    ensures OneLine(Escape(s)) && NoBareQuote(Escape(s))
  {
    hide Escape, NoBareQuote, WellEscaped, Unescape, OneLine;
    EscapeOneLine(s);
    EscapeReadsBack(s);
    WellEscapedNoBareQuote(Escape(s));
  }

  lemma CutString(s: string) returns (before: string, after: string)
    requires '\r' in s
    ensures FormatValue(Str(s)) == "\"" + before + "\r" + after
    ensures OneLine(before) && NoBareQuote(before)
  {
    hide Escape, NoBareQuote, OneLine;
    var b, a := FirstCr(s);
    EscapeCut(b, a);
    Requote(Escape(b), Escape(a));
    EscapedBefore(b);
    before, after := Escape(b), Escape(a) + "\"";
  }

  lemma PrintedOneLine(v: Scalar)
    requires !HasCr(v)
    ensures OneLine(FormatValue(v))
  {
    hide IntText, Escape;
    match v
    case Bool(_) =>
    case Int(i) => IntTextPlain(i);
    case Str(s) => EscapeOneLine(s);
  }

  lemma NameOneLine(s: string)
    requires Name(s)
    ensures OneLine(s) && !EndsInCr(s)
  {
  }

  /** One printed entry, split into lines and read: set, or an error if a carriage return cut it. */
  lemma EntryReads(prev: seq<string>, r: Reader, e: Entry)
    requires ParseLines(prev) == Ok(r) && InSection(r) && Name(e.key)
    ensures !HasCr(e.value) ==> ParseLines(prev + SplitLines(EntryLine(e))) == Ok(Set(r, e.key, e.value))
    ensures HasCr(e.value) ==> ParseLines(prev + SplitLines(EntryLine(e))).Err?
  {
    hide ParseLines, ParseLine, Name, FormatValue, SplitLines, HasCr;
    if HasCr(e.value) {
      CutEntryReads(prev, r, e);
    } else {
      NameOneLine(e.key);
      PrintedOneLine(e.value);
      OneLineIsLine(EntryLine(e));
      ParseNext(prev, EntryLine(e));
      EntryParses(r, e, |prev| + 1);
    }
  }

  lemma CutEntryReads(prev: seq<string>, r: Reader, e: Entry)
    requires ParseLines(prev) == Ok(r) && InSection(r) && Name(e.key) && HasCr(e.value)
    ensures ParseLines(prev + SplitLines(EntryLine(e))).Err?
  {
    hide ParseLines, ParseLine, Name, FormatValue, SplitLines, NoBareQuote;
    NameOneLine(e.key);
    var before, after := CutString(e.value.s);
    var piece := Assigned(e.key, "\"" + before);
    assert EntryLine(e) == piece + "\r" + after;
    CutAtCr(piece, after);
    var lines := SplitLines(EntryLine(e));
    ParseNext(prev, piece);
    UnclosedFails(r, e.key, before, |prev| + 1);
    ErrorSticks(prev + [piece], lines[1..]);
    assert prev + lines == prev + [piece] + lines[1..];
  }

  // ---- all of them ----

  /** The reader with `m` as its current section. */
  function Filled(r: Reader, m: map<string, Scalar>): Reader
    requires InSection(r)
  {
    Reader(r.sections[r.current.value := m], r.current)
  }

  lemma FillMore(r: Reader, m: map<string, Scalar>, key: string, v: Scalar)
    requires InSection(r)
    ensures InSection(Filled(r, m)) && Set(Filled(r, m), key, v) == Filled(r, m[key := v])
    ensures r.sections[r.current.value] == m ==> Filled(r, m) == r
  {
    if r.sections[r.current.value] == m {
      assert r.sections[r.current.value := m] == r.sections;
    }
  }

  lemma EntryAppends(prev: seq<string>, init: seq<Entry>, last: Entry)
    ensures prev + SplitAll(EntryLines(init + [last])) ==
      prev + SplitAll(EntryLines(init)) + SplitLines(EntryLine(last))
  {
    hide SplitLines, EntryLine, SplitAll;
    assert (init + [last])[..|init|] == init;
    SplitAllAppend(EntryLines(init), [EntryLine(last)]);
    SplitAllOne(EntryLine(last));
  }

  lemma {:induction false} EntriesRead(prev: seq<string>, r: Reader, entries: seq<Entry>)
    requires ParseLines(prev) == Ok(r) && InSection(r) && r.sections[r.current.value] == map[] && Keys(entries)
    ensures ParseLines(prev + SplitAll(EntryLines(entries))).Ok? <==> NoCr(entries)
    ensures NoCr(entries) ==> ParseLines(prev + SplitAll(EntryLines(entries))) == Ok(Filled(r, EntryMap(entries)))
    decreases |entries|
  {
    hide ParseLines, EntryLines, EntryLine, SplitLines, SplitAll, HasCr, Name, Filled, Set, InSection;
    if entries == [] {
      NoEntryLines(prev);
      FillMore(r, map[], "", Bool(true));
    } else {
      var init, last := entries[..|entries| - 1], entries[|entries| - 1];
      EntriesRead(prev, r, init);
      EntryAppends(prev, init, last);
      assert entries == init + [last];
      var text := prev + SplitAll(EntryLines(init));
      if NoCr(init) {
        FillMore(r, EntryMap(init), last.key, last.value);
        EntryReads(text, Filled(r, EntryMap(init)), last);
      } else {
        ErrorSticks(text, SplitLines(EntryLine(last)));
      }
    }
  }

  lemma NoEntryLines(prev: seq<string>)
    ensures prev + SplitAll(EntryLines([])) == prev
  {
  }

  lemma SectionStart(prev: seq<string>, r: Reader, s: Section)
    requires ParseLines(prev) == Ok(r) && Name(s.name) && s.name !in r.sections
    ensures ParseLines(prev + ["", HeaderLine(s)]) == Ok(Reader(r.sections[s.name := map[]], Some(s.name)))
  {
    hide ParseLines, ParseLine, HeaderLine, Name;
    ParseNext(prev, "");
    FillersParse(r, |prev| + 1);
    ParseNext(prev + [""], HeaderLine(s));
    HeaderParses(r, s, |prev| + 2);
    assert prev + ["", HeaderLine(s)] == prev + [""] + [HeaderLine(s)];
  }

  ghost function LastName(sections: seq<Section>): Option<string> {
    if sections == [] then None else Some(sections[|sections| - 1].name)
  }

  lemma SplitHeader(s: Section)
    requires Name(s.name)
    ensures SplitAll(["", HeaderLine(s)]) == ["", HeaderLine(s)]
  {
    hide SplitLines;
    NameOneLine(s.name);
    OneLineIsLine("");
    OneLineIsLine(HeaderLine(s));
    SplitAllOne(HeaderLine(s));
    assert ["", HeaderLine(s)][1..] == [HeaderLine(s)];
  }

  lemma {:induction false} SectionsRead(sections: seq<Section>)
    requires WellFormed(sections)
    ensures ParseLines([HEADER] + SplitAll(SectionLines(sections))).Ok? <==> NoCrAtAll(sections)
    ensures NoCrAtAll(sections) ==>
              ParseLines([HEADER] + SplitAll(SectionLines(sections))) == Ok(Reader(AsMap(sections), LastName(sections)))
    decreases |sections|
  {
    hide ParseLines, EntryLines, SplitLines, SplitAll, SectionLines, NoCr, Name, Keys, EntryMap, HeaderLine;
    if sections == [] {
      HeaderReads();
    } else {
      var init, last := sections[..|sections| - 1], sections[|sections| - 1];
      SectionsRead(init);
      AsMapLookup(init);
      SectionAppends(init, last);
      assert sections == init + [last];
      var text := [HEADER] + SplitAll(SectionLines(init));
      if NoCrAtAll(init) {
        SectionReads(text, Reader(AsMap(init), LastName(init)), last);
      } else {
        ErrorSticks(text, ["", HeaderLine(last)] + SplitAll(EntryLines(last.entries)));
      }
    }
  }

  lemma SectionReads(prev: seq<string>, r: Reader, s: Section)
    requires ParseLines(prev) == Ok(r) && Name(s.name) && Keys(s.entries) && s.name !in r.sections
    ensures ParseLines(prev + ["", HeaderLine(s)] + SplitAll(EntryLines(s.entries))).Ok? <==> NoCr(s.entries)
    ensures NoCr(s.entries) ==>
              ParseLines(prev + ["", HeaderLine(s)] + SplitAll(EntryLines(s.entries)))
              == Ok(Reader(r.sections[s.name := EntryMap(s.entries)], Some(s.name)))
  {
    hide ParseLines, EntryLines, SplitLines, SplitAll, NoCr, Name, Keys, EntryMap, HeaderLine;
    var open := Reader(r.sections[s.name := map[]], Some(s.name));
    SectionStart(prev, r, s);
    EntriesRead(prev + ["", HeaderLine(s)], open, s.entries);
    assert Filled(open, EntryMap(s.entries)).sections == r.sections[s.name := EntryMap(s.entries)];
  }

  lemma HeaderReads()
    ensures ParseLines([HEADER] + SplitAll(SectionLines([]))) == Ok(START)
  {
    hide ParseLine;
    ParseNext([], HEADER);
    FillersParse(START, 1);
    assert [HEADER] + SplitAll(SectionLines([])) == [] + [HEADER];
  }

  lemma SectionAppends(init: seq<Section>, last: Section)
    requires Name(last.name)
    ensures [HEADER] + SplitAll(SectionLines(init + [last]))
         == [HEADER] + SplitAll(SectionLines(init)) + ["", HeaderLine(last)] + SplitAll(EntryLines(last.entries))
    ensures [HEADER] + SplitAll(SectionLines(init + [last]))
         == [HEADER] + SplitAll(SectionLines(init)) + (["", HeaderLine(last)] + SplitAll(EntryLines(last.entries)))
  {
    hide SplitLines, Name, HeaderLine, EntryLines, SplitAll;
    assert (init + [last])[..|init|] == init;
    SplitAllAppend(SectionLines(init) + ["", HeaderLine(last)], EntryLines(last.entries));
    SplitAllAppend(SectionLines(init), ["", HeaderLine(last)]);
    SplitHeader(last);
  }

  // ---- the text as a whole ----

  lemma LineEnds(v: Scalar, key: string)
    ensures !EndsInCr(EntryLine(Entry(key, v)))
  {
    hide FormatValue;
    PrintedEdges(v);
  }

  lemma {:induction false} EntryLinesEnd(entries: seq<Entry>)
    ensures forall i :: 0 <= i < |EntryLines(entries)| ==> !EndsInCr(EntryLines(entries)[i])
  {
    hide EndsInCr, EntryLine;
    if entries != [] {
      EntryLinesEnd(entries[..|entries| - 1]);
      LineEnds(entries[|entries| - 1].value, entries[|entries| - 1].key);
    }
  }

  lemma {:induction false} SectionLinesEnd(sections: seq<Section>)
    ensures forall i :: 0 <= i < |SectionLines(sections)| ==> !EndsInCr(SectionLines(sections)[i])
  {
    hide EntryLines;
    if sections != [] {
      var last := sections[|sections| - 1];
      SectionLinesEnd(sections[..|sections| - 1]);
      EntryLinesEnd(last.entries);
    }
  }

  lemma PrintedLines(sections: seq<Section>)
    ensures SplitLines(Printed(sections)) == [HEADER] + SplitAll(SectionLines(sections)) + [""]
  {
    hide SplitLines, SectionLines, SplitAll, Join;
    var lines := [HEADER] + SectionLines(sections) + [""];
    SectionLinesEnd(sections);
    SplitJoin(lines);
    SplitAllAppend([HEADER] + SectionLines(sections), [""]);
    SplitAllAppend([HEADER], SectionLines(sections));
    SplitAllOne(HEADER);
    SplitAllOne("");
    OneLineIsLine(HEADER);
    OneLineIsLine("");
  }

  /** Reading what was written gives back every section, key and value exactly when no string value
      contains a carriage return, the one line break the writer does not escape; with one, the
      reader rejects the file. */
  lemma RoundTripIff(sections: seq<Section>)
    requires WellFormed(sections)
    ensures Reads(Printed(sections)) == Ok(AsMap(sections)) <==> NoCrAtAll(sections)
    ensures !NoCrAtAll(sections) ==> Reads(Printed(sections)).Err?
  {
    hide ParseLines, ParseLine, SplitLines, SectionLines, SplitAll, NoCrAtAll, WellFormed, AsMap;
    PrintedLines(sections);
    SectionsRead(sections);
    var text := [HEADER] + SplitAll(SectionLines(sections));
    ParseNext(text, "");
    if NoCrAtAll(sections) {
      FillersParse(Reader(AsMap(sections), LastName(sections)), |text| + 1);
    }
  }

  // ---- the printed characters ----

  /** A backslash, a quote and a line feed are escaped; any other character stands for itself. */
  lemma EscapedCharacters(c: char)
    ensures FormatValue(Str([c])) == "\"" + (if c as int in {92, 34} then [92 as char, c]
                                            else if c as int == 10 then [92 as char, 110 as char] else [c]) + "\""
  {
    EscapeStep(c, "");
    assert [c] + "" == [c] && Escape("") == "";
  }
}
