/** What the reader makes of any file, not only of what the writer prints: the shape of each line, and what the
    lines together say. */
module ConfigLines {
  import opened Digits
  import opened ConfigScalar
  import opened ConfigText
  import opened Config

  // ---- character classes ----

  /** Blanks `trim` removes, blanks `\s` matches, and characters of a name, by code point. */
  lemma CharacterClasses(c: char)
    ensures TrimChar(c) <==> c as int in {0, 9, 10, 11, 13, 32}
    ensures SpaceChar(c) <==> 9 <= c as int <= 13 || c as int == 32
    ensures NameChar(c) <==>
      48 <= c as int <= 57 || 65 <= c as int <= 90 || 97 <= c as int <= 122 || c as int == 95 || c as int == 45
  {
  }

  // ---- trimming ----

  ghost predicate Blank(s: string) {
    forall i :: 0 <= i < |s| ==> TrimChar(s[i])
  }

  /** No blank at either end. */
  predicate Tight(s: string) {
    s == [] || (!TrimChar(s[0]) && !TrimChar(s[|s| - 1]))
  }

  lemma {:induction false} TrimLeftBlank(a: string, s: string)
    requires Blank(a) && (s == [] || !TrimChar(s[0]))
    ensures TrimLeft(a + s) == s
  {
    if a == [] {
      assert a + s == s;
    } else {
      assert (a + s)[1..] == a[1..] + s;
      TrimLeftBlank(a[1..], s);
    }
  }

  lemma {:induction false} TrimLeftCuts(s: string) returns (a: string)
    ensures Blank(a) && s == a + TrimLeft(s) && (TrimLeft(s) == [] || !TrimChar(TrimLeft(s)[0]))
  {
    if s != [] && TrimChar(s[0]) {
      var b := TrimLeftCuts(s[1..]);
      a := [s[0]] + b;
    } else {
      a := [];
    }
  }

  lemma {:induction false} TrimRightCuts(s: string) returns (b: string)
    ensures Blank(b) && s == TrimRight(s) + b
    ensures TrimRight(s) == [] || !TrimChar(TrimRight(s)[|TrimRight(s)| - 1])
  {
    if s != [] && TrimChar(s[|s| - 1]) {
      var c := TrimRightCuts(s[..|s| - 1]);
      b := c + [s[|s| - 1]];
    } else {
      b := [];
    }
  }

  /** `Trim` takes off the blanks at both ends, all of them and nothing else. */
  lemma TrimIff(s: string, t: string)
    ensures Trim(s) == t <==> Tight(t) && exists a, b :: Blank(a) && Blank(b) && s == a + t + b
  {
    var a := TrimLeftCuts(s);
    var b := TrimRightCuts(TrimLeft(s));
    assert s == a + Trim(s) + b;
    assert Tight(Trim(s)) by { TrimIsTight(s); }
    if Tight(t) && exists a, b :: Blank(a) && Blank(b) && s == a + t + b {
      var x, y :| Blank(x) && Blank(y) && s == x + t + y;
      TrimBetween(x, t, y);
    }
  }

  lemma TrimIsTight(s: string)
    ensures Tight(Trim(s))
  {
    var a := TrimLeftCuts(s);
    var b := TrimRightCuts(TrimLeft(s));
    if Trim(s) != [] {
      assert TrimLeft(s)[0] == Trim(s)[0];
    }
  }

  lemma TrimBetween(a: string, t: string, b: string)
    requires Blank(a) && Blank(b) && Tight(t)
    ensures Trim(a + t + b) == t
  {
    if t == [] {
      assert a + t + b == (a + b) + [];
      TrimLeftBlank(a + b, []);
    } else {
      assert a + t + b == a + (t + b);
      TrimLeftBlank(a, t + b);
      TrimRightKeeps(t, b);
      AllBlank(b);
    }
  }

  // ---- assignments ----

  ghost predicate Spaces(s: string) {
    forall i :: 0 <= i < |s| ==> SpaceChar(s[i])
  }

  /** `line` is a name, an equals sign and a text, with space around the sign. */
  ghost predicate IsAssignment(line: string, key: string, text: string) {
    && Name(key) && (text == [] || !SpaceChar(text[0]))
    && exists a, b :: Spaces(a) && Spaces(b) && line == Spaced(key, a, b, text)
  }

  function Spaced(key: string, a: string, b: string, text: string): string {
    key + a + "=" + b + text
  }

  lemma {:induction false} NameLengthIs(key: string, rest: string)
    requires (forall i :: 0 <= i < |key| ==> NameChar(key[i])) && (rest == [] || !NameChar(rest[0]))
    ensures NameLength(key + rest) == |key|
  {
    if key == [] {
      assert key + rest == rest;
    } else {
      assert (key + rest)[1..] == key[1..] + rest;
      NameLengthIs(key[1..], rest);
    }
  }

  lemma {:induction false} NameLengthCuts(s: string)
    ensures forall i :: 0 <= i < NameLength(s) ==> NameChar(s[i])
  {
    if s != [] && NameChar(s[0]) {
      NameLengthCuts(s[1..]);
    }
  }

  lemma {:induction false} SkipSpaceBlank(a: string, s: string)
    requires Spaces(a) && (s == [] || !SpaceChar(s[0]))
    ensures SkipSpace(a + s) == s
  {
    if a == [] {
      assert a + s == s;
    } else {
      assert (a + s)[1..] == a[1..] + s;
      SkipSpaceBlank(a[1..], s);
    }
  }

  lemma {:induction false} SkipSpaceCuts(s: string) returns (a: string)
    ensures Spaces(a) && s == a + SkipSpace(s) && (SkipSpace(s) == [] || !SpaceChar(SkipSpace(s)[0]))
  {
    if s != [] && SpaceChar(s[0]) {
      var b := SkipSpaceCuts(s[1..]);
      a := [s[0]] + b;
    } else {
      a := [];
    }
  }

  lemma AssignmentCuts(line: string, key: string, text: string)
    requires Assignment(line) == Some((key, text))
    ensures IsAssignment(line, key, text)
  {
    hide NameLength, SkipSpace, NameChar, SpaceChar;
    var n := NameLength(line);
    NameLengthCuts(line);
    var a := SkipSpaceCuts(line[n..]);
    var rest := SkipSpace(line[n..]);
    var b := SkipSpaceCuts(rest[1..]);
    assert line == line[..n] + line[n..] && rest == "=" + rest[1..];
    assert line == Spaced(key, a, b, text);
  }

  lemma AssignmentReads(key: string, a: string, b: string, text: string)
    requires Name(key) && Spaces(a) && Spaces(b) && (text == [] || !SpaceChar(text[0]))
    ensures Assignment(Spaced(key, a, b, text)) == Some((key, text))
  {
    hide NameLength, SkipSpace;
    var line, tail := Spaced(key, a, b, text), "=" + (b + text);
    assert line == key + (a + tail);
    assert tail[0] == '=' && !NameChar('=') && !SpaceChar('=');
    assert a != [] ==> SpaceChar((a + tail)[0]);
    NameLengthIs(key, a + tail);
    assert line[|key|..] == a + tail && line[..|key|] == key;
    SkipSpaceBlank(a, tail);
    assert tail[1..] == b + text;
    SkipSpaceBlank(b, text);
  }

  /** The reader takes a line for an assignment of `text` to `key` if and only if it is one. */
  lemma AssignmentIff(line: string, key: string, text: string)
    ensures Assignment(line) == Some((key, text)) <==> IsAssignment(line, key, text)
  {
    hide Assignment, Name, Spaces, Spaced, SpaceChar;
    if Assignment(line) == Some((key, text)) {
      AssignmentCuts(line, key, text);
    }
    if IsAssignment(line, key, text) {
      var a, b :| Spaces(a) && Spaces(b) && line == Spaced(key, a, b, text);
      AssignmentReads(key, a, b, text);
    }
  }

  /** A header is a name between brackets. */
  lemma HeaderIff(line: string, name: string)
    ensures SectionHeader(line) == Some(name) <==> Name(name) && line == "[" + name + "]"
  {
    if SectionHeader(line) == Some(name) {
      assert line == "[" + line[1..|line| - 1] + "]";
    }
    if line == "[" + name + "]" {
      assert line[1..|line| - 1] == name;
    }
  }

  // ---- comments ----

  /** Text between two quotes: escapes whole, no bare quote. */
  predicate Inside(x: string)
    decreases |x|
  {
    if x == [] then true
    else if x[0] == '\\' then |x| >= 2 && Inside(x[2..])
    else x[0] != '"' && Inside(x[1..])
  }

  /** Every quote opened is closed, and no hash stands outside quotes. */
  ghost predicate Balanced(p: string)
    decreases |p|
  {
    if p == [] then true
    else if p[0] == '"' then exists n :: 0 < n < |p| && p[n] == '"' && Inside(p[1..n]) && Balanced(p[n + 1..])
    else p[0] != '#' && Balanced(p[1..])
  }

  lemma {:induction false} StripInside(x: string, rest: string)
    requires Inside(x)
    ensures Strip(x + "\"" + rest, true, false) == x + "\"" + Strip(rest, false, false)
    decreases |x|
  {
    hide Strip;
    if x == [] {
      StripQuote(rest);
      assert x + "\"" + rest == "\"" + rest;
    } else if x[0] == '\\' {
      StripInside(x[2..], rest);
      StripPair(x[1], x[2..] + "\"" + rest);
      assert x == ['\\', x[1]] + x[2..];
      assert x + "\"" + rest == ['\\', x[1]] + (x[2..] + "\"" + rest);
    } else {
      StripInside(x[1..], rest);
      StripChar(x[0], x[1..] + "\"" + rest);
      assert x == [x[0]] + x[1..];
      assert x + "\"" + rest == [x[0]] + (x[1..] + "\"" + rest);
    }
  }

  /** One quoted piece in front of text that is kept up to `rest`. */
  lemma StripQuoted(x: string, tail: string)
    requires Inside(x)
    ensures Strip("\"" + x + "\"" + tail, false, false) == "\"" + x + "\"" + Strip(tail, false, false)
  {
    hide Strip, Inside;
    StripInside(x, tail);
    StripQuote(x + "\"" + tail);
    assert "\"" + x + "\"" + tail == "\"" + (x + "\"" + tail);
  }

  lemma {:induction false} StripBalanced(p: string, rest: string)
    requires Balanced(p)
    ensures Strip(p + rest, false, false) == p + Strip(rest, false, false)
    decreases |p|
  {
    hide Strip, Inside;
    if p == [] {
      assert p + rest == rest;
    } else if p[0] == '"' {
      var x, tail := BalancedParts(p);
      StripBalanced(tail, rest);
      StripQuoted(x, tail + rest);
      Regroup("\"" + x + "\"", tail, rest);
      Regroup("\"" + x + "\"", tail, Strip(rest, false, false));
    } else {
      StripBalanced(p[1..], rest);
      StripOutside(p[0], p[1..] + rest);
      assert p == [p[0]] + p[1..];
      Regroup([p[0]], p[1..], rest);
      Regroup([p[0]], p[1..], Strip(rest, false, false));
    }
  }

  lemma Regroup(a: string, b: string, c: string)
    ensures a + b + c == a + (b + c)
  {
  }

  lemma BalancedParts(p: string) returns (x: string, tail: string)
    requires p != [] && p[0] == '"' && Balanced(p)
    ensures Inside(x) && Balanced(tail) && p == "\"" + x + "\"" + tail && |tail| < |p|
  {
    hide Inside;
    var n :| 0 < n < |p| && p[n] == '"' && Inside(p[1..n]) && Balanced(p[n + 1..]);
    x, tail := p[1..n], p[n + 1..];
    CutAt(p, n);
  }

  lemma CutAt(p: string, n: nat)
    requires 0 < n < |p|
    ensures p == [p[0]] + p[1..n] + [p[n]] + p[n + 1..]
  {
  }

  /** Where a text that is not kept whole leaves the string it starts in. */
  lemma {:induction false} StripLeaves(s: string) returns (x: string, rest: string)
    requires Strip(s, true, false) != s
    ensures Inside(x) && s == x + "\"" + rest && Strip(s, true, false) == x + "\"" + Strip(rest, false, false)
    ensures Strip(rest, false, false) != rest
    decreases |s|
  {
    hide Strip;
    StripEnds("");
    if s[0] == '"' {
      x, rest := [], s[1..];
      assert s == "\"" + rest;
      StripQuote(rest);
    } else if s[0] == '\\' {
      assert |s| == 1 ==> s == "\\";
      var tail := s[2..];
      assert s == ['\\', s[1]] + tail;
      StripPair(s[1], tail);
      x, rest := StripLeaves(tail);
      var y := ['\\', s[1]] + x;
      assert y[2..] == x && s == y + "\"" + rest;
      x := y;
    } else {
      var tail := s[1..];
      assert s == [s[0]] + tail;
      StripChar(s[0], tail);
      x, rest := StripLeaves(tail);
      var y := [s[0]] + x;
      assert y[1..] == x && s == y + "\"" + rest;
      x := y;
    }
  }

  lemma BalancedQuoted(x: string, p: string)
    requires Inside(x) && Balanced(p)
    ensures Balanced("\"" + x + "\"" + p)
  {
    var q, n := "\"" + x + "\"" + p, |x| + 1;
    assert q[n] == '"' && q[1..n] == x && q[n + 1..] == p;
  }

  lemma BalancedPlain(c: char, p: string)
    requires c != '"' && c != '#' && Balanced(p)
    ensures Balanced([c] + p)
  {
    assert ([c] + p)[1..] == p;
  }

  lemma {:induction false} StripCuts(s: string)
    requires Strip(s, false, false) != s
    ensures Balanced(Strip(s, false, false)) && Strip(s, false, false) + "#" <= s
    decreases |s|
  {
    hide Strip, Inside, Balanced;
    StripEnds(if s == [] then "" else s[1..]);
    assert s == [s[0]] + s[1..];
    if s[0] == '"' {
      StripQuote(s[1..]);
      var x, rest := StripLeaves(s[1..]);
      StripCuts(rest);
      BalancedQuoted(x, Strip(rest, false, false));
      Regroup("\"", x + "\"", rest);
      Regroup("\"", x, "\"");
      StripQuoted(x, rest);
      CutLonger("\"" + x + "\"", Strip(rest, false, false), rest);
    } else if s[0] == '#' {
      assert Balanced([]) by { NothingOpen(); }
    } else {
      StripOutside(s[0], s[1..]);
      StripCuts(s[1..]);
      BalancedPlain(s[0], Strip(s[1..], false, false));
      CutLonger([s[0]], Strip(s[1..], false, false), s[1..]);
    }
  }

  lemma NothingOpen()
    ensures Balanced([])
  {
  }

  lemma CutLonger(a: string, p: string, s: string)
    requires p + "#" <= s
    ensures a + p + "#" <= a + s
  {
    Regroup(a, p, "#");
    assert s == p + "#" + s[|p| + 1..];
    assert a + s == a + p + "#" + s[|p| + 1..];
  }

  /** A comment is cut off if and only if a hash follows a part in which every quote is closed and no hash stands
      outside them, and it is cut there; otherwise the value stays whole. */
  lemma CommentIff(value: string, p: string)
    ensures Strip(value, false, false) == p && p != value <==> Balanced(p) && p + "#" <= value
  {
    hide Strip, Balanced;
    if Strip(value, false, false) == p && p != value {
      StripCuts(value);
    }
    if Balanced(p) && p + "#" <= value {
      var rest := value[|p| + 1..];
      assert value == p + "#" + rest;
      Regroup(p, "#", rest);
      StripBalanced(p, "#" + rest);
      StripEnds(rest);
    }
  }

  // ---- one line ----

  ghost predicate IsSkipped(core: string) {
    core == [] || core[0] == '#'
  }

  ghost predicate IsHeading(core: string) {
    core != [] && core[0] == '['
  }

  /** Why a trimmed line is rejected, if it is. */
  ghost predicate Rejected(inSection: bool, core: string, line: nat, e: Error) {
    && !IsSkipped(core)
    && if IsHeading(core) then e == MalformedHeader(line) && forall name :: Name(name) ==> core != "[" + name + "]"
       else if !inSection then e == BeforeAnySection(line)
       else if forall key, text :: !IsAssignment(core, key, text) then e == NotAnAssignment(line)
       else exists key, text :: IsAssignment(core, key, text) && ValueOf(text, line) == Err(e)
  }

  /** The value of an assignment: what is left of its text without comment and blanks, read as a scalar. */
  function ValueOf(text: string, line: nat): Result<Scalar> {
    ParseScalar(Trim(Strip(text, false, false)), line)
  }

  /** A line is rejected if and only if it has one of these faults, and with that one. */
  lemma RejectedIff(r: Reader, raw: string, line: nat, e: Error)
    requires CurrentOpen(r)
    ensures ParseLine(r, raw, line) == Err(e) <==> Rejected(r.current.Some?, Trim(raw), line, e)
  {
    hide Trim, ParseScalar, Strip, SectionHeader, Assignment, IsAssignment, Name;
    var core := Trim(raw);
    if IsHeading(core) {
      HeadingIff(core);
    } else {
      assert forall key, text :: Assignment(core) == Some((key, text)) <==> IsAssignment(core, key, text) by {
        forall key, text
          ensures Assignment(core) == Some((key, text)) <==> IsAssignment(core, key, text)
        {
          AssignmentIff(core, key, text);
        }
      }
    }
  }

  lemma HeadingIff(core: string)
    ensures SectionHeader(core).None? <==> forall name :: Name(name) ==> core != "[" + name + "]"
  {
    hide Name, SectionHeader;
    forall name | Name(name) && core == "[" + name + "]"
      ensures SectionHeader(core).Some?
    {
      HeaderIff(core, name);
    }
    if SectionHeader(core).Some? {
      HeaderIff(core, SectionHeader(core).value);
    }
  }

  // ---- the lines together ----

  /** The section a line opens. */
  function Opens(raw: string): Option<string> {
    if Trim(raw) != [] && Trim(raw)[0] == '[' then SectionHeader(Trim(raw)) else None
  }

  /** The section the next line would be in. */
  function Current(lines: seq<string>): Option<string>
    decreases |lines|
  {
    if lines == [] then None
    else
      var name := Opens(lines[|lines| - 1]);
      if name.Some? then name else Current(lines[..|lines| - 1])
  }

  /** Line `i` assigns `text` to this key of this section. */
  ghost predicate Assigns(lines: seq<string>, i: nat, name: string, key: string, text: string) {
    && i < |lines|
    && var core := Trim(lines[i]);
       !IsSkipped(core) && !IsHeading(core) && Current(lines[..i]) == Some(name) && IsAssignment(core, key, text)
  }

  /** No line assigns it after line `i`. */
  ghost predicate LastAssigns(lines: seq<string>, i: nat, name: string, key: string, text: string) {
    && Assigns(lines, i, name, key, text)
    && forall j, other :: i < j < |lines| ==> !Assigns(lines, j, name, key, other)
  }

  /** The sections hold what the lines say: a section for every header, in it for every key the value of the last
      line that assigns it while a header of that name is the latest, and nothing else. */
  ghost predicate Says(lines: seq<string>, sections: Sections) {
    && (forall name :: name in sections <==> exists i :: 0 <= i < |lines| && Opens(lines[i]) == Some(name))
    && ValuesSaid(lines, sections)
    && (forall name, key :: name in sections && key in sections[name] ==>
          exists i: nat, text :: LastAssigns(lines, i, name, key, text))
  }

  ghost predicate ValuesSaid(lines: seq<string>, sections: Sections) {
    forall i: nat, name, key, text :: LastAssigns(lines, i, name, key, text) ==>
      name in sections && key in sections[name] && ValueOf(text, i + 1) == Ok(sections[name][key])
  }

  lemma AssignsBefore(lines: seq<string>, last: string, i: nat, name: string, key: string, text: string)
    requires i < |lines|
    ensures Assigns(lines + [last], i, name, key, text) == Assigns(lines, i, name, key, text)
  {
    hide Trim, IsAssignment, Current;
    assert (lines + [last])[..i] == lines[..i];
  }

  lemma AssignsLast(lines: seq<string>, last: string, name: string, key: string, text: string)
    ensures Assigns(lines + [last], |lines|, name, key, text) <==>
      !IsSkipped(Trim(last)) && !IsHeading(Trim(last)) && Current(lines) == Some(name)
      && IsAssignment(Trim(last), key, text)
  {
    hide Trim, IsAssignment, Current;
    assert (lines + [last])[..|lines|] == lines;
  }

  lemma LastAssignsBefore(lines: seq<string>, last: string, i: nat, name: string, key: string, text: string)
    requires i < |lines|
    ensures LastAssigns(lines + [last], i, name, key, text) <==>
      LastAssigns(lines, i, name, key, text)
      && forall other :: !Assigns(lines + [last], |lines|, name, key, other)
  {
    hide Assigns;
    AssignsBefore(lines, last, i, name, key, text);
    forall j, other | i < j < |lines|
      ensures Assigns(lines + [last], j, name, key, other) == Assigns(lines, j, name, key, other)
    {
      AssignsBefore(lines, last, j, name, key, other);
    }
  }

  lemma LastAssignsLast(lines: seq<string>, last: string, name: string, key: string, text: string)
    ensures LastAssigns(lines + [last], |lines|, name, key, text)
       <==> Assigns(lines + [last], |lines|, name, key, text)
  {
    hide Assigns;
  }

  /** A line that assigns nothing leaves every last assignment the last. */
  lemma NothingAssigned(lines: seq<string>, last: string)
    requires IsSkipped(Trim(last)) || IsHeading(Trim(last))
    ensures forall i: nat, name, key, text ::
      LastAssigns(lines + [last], i, name, key, text) <==> LastAssigns(lines, i, name, key, text)
  {
    hide Assigns, LastAssigns, Trim;
    forall i: nat, name, key, text
      ensures LastAssigns(lines + [last], i, name, key, text) <==> LastAssigns(lines, i, name, key, text)
    {
      NoAssignment(lines, last, i, name, key, text);
    }
  }

  lemma NoAssignment(lines: seq<string>, last: string, i: nat, name: string, key: string, text: string)
    requires IsSkipped(Trim(last)) || IsHeading(Trim(last))
    ensures LastAssigns(lines + [last], i, name, key, text) <==> LastAssigns(lines, i, name, key, text)
  {
    hide Trim, IsAssignment, Current;
    forall other
      ensures !Assigns(lines + [last], |lines|, name, key, other)
    {
      AssignsLast(lines, last, name, key, other);
    }
    if i < |lines| {
      LastAssignsBefore(lines, last, i, name, key, text);
    }
  }

  lemma OpensAfter(lines: seq<string>, last: string, name: string)
    ensures (exists i :: 0 <= i < |lines + [last]| && Opens((lines + [last])[i]) == Some(name))
       <==> Opens(last) == Some(name) || exists i :: 0 <= i < |lines| && Opens(lines[i]) == Some(name)
  {
    hide Opens;
    var all := lines + [last];
    if i :| 0 <= i < |lines| && Opens(lines[i]) == Some(name) {
      assert all[i] == lines[i];
    }
    assert all[|lines|] == last;
  }

  lemma SkippedSays(lines: seq<string>, last: string, sections: Sections)
    requires Says(lines, sections) && Opens(last).None? && (IsSkipped(Trim(last)) || IsHeading(Trim(last)))
    ensures Says(lines + [last], sections)
  {
    hide LastAssigns, Opens, Trim, ValueOf, Name;
    NothingAssigned(lines, last);
    forall name
      ensures name in sections <==> exists i :: 0 <= i < |lines + [last]| && Opens((lines + [last])[i]) == Some(name)
    {
      OpensAfter(lines, last, name);
    }
  }

  lemma HeaderSays(lines: seq<string>, last: string, sections: Sections, name: string)
    requires Says(lines, sections) && Opens(last) == Some(name)
    ensures Says(lines + [last], if name in sections then sections else sections[name := map[]])
  {
    hide LastAssigns, Opens, Trim, ValueOf, Name;
    assert IsHeading(Trim(last)) by { OpensHeading(last); }
    NothingAssigned(lines, last);
    var after := if name in sections then sections else sections[name := map[]];
    forall other
      ensures other in after <==> exists i :: 0 <= i < |lines + [last]| && Opens((lines + [last])[i]) == Some(other)
    {
      OpensAfter(lines, last, other);
    }
  }

  lemma OpensHeading(last: string)
    ensures Opens(last).Some? ==> IsHeading(Trim(last))
    ensures !IsHeading(Trim(last)) ==> Opens(last).None?
  {
    hide Trim, SectionHeader;
  }

  lemma AssignmentSays(lines: seq<string>, last: string, sections: Sections, name: string, key: string, text: string,
                       v: Scalar)
    requires Says(lines, sections) && Current(lines) == Some(name) && name in sections
    requires !IsSkipped(Trim(last)) && !IsHeading(Trim(last)) && IsAssignment(Trim(last), key, text)
    requires ValueOf(text, |lines| + 1) == Ok(v)
    ensures Says(lines + [last], sections[name := sections[name][key := v]])
  {
    hide LastAssigns, Assigns, Opens, Trim, ValueOf, ValuesSaid, IsAssignment, Current, IsSkipped, IsHeading;
    var all, after := lines + [last], sections[name := sections[name][key := v]];
    OpensHeading(last);
    forall other
      ensures other in after <==> exists i :: 0 <= i < |all| && Opens(all[i]) == Some(other)
    {
      OpensAfter(lines, last, other);
    }
    AssignmentValues(lines, last, sections, name, key, text, v);
    forall n, k | n in after && k in after[n]
      ensures exists i: nat, x :: LastAssigns(all, i, n, k, x)
    {
      var i, x := AssignmentHeld(lines, last, sections, name, key, text, n, k);
    }
  }

  lemma AssignmentValues(lines: seq<string>, last: string, sections: Sections, name: string, key: string, text: string,
                         v: Scalar)
    requires ValuesSaid(lines, sections) && Current(lines) == Some(name) && name in sections
    requires !IsSkipped(Trim(last)) && !IsHeading(Trim(last)) && IsAssignment(Trim(last), key, text)
    requires ValueOf(text, |lines| + 1) == Ok(v)
    ensures ValuesSaid(lines + [last], sections[name := sections[name][key := v]])
  {
    hide LastAssigns, Trim, ValueOf, IsAssignment, Current, IsSkipped, IsHeading;
    forall i: nat, n, k, x | LastAssigns(lines + [last], i, n, k, x)
      ensures var after := sections[name := sections[name][key := v]];
              n in after && k in after[n] && ValueOf(x, i + 1) == Ok(after[n][k])
    {
      AssignedSince(lines, last, name, key, text, i, n, k, x);
    }
  }

  /** Every key of the new sections has a last assignment. */
  lemma AssignmentHeld(lines: seq<string>, last: string, sections: Sections, name: string, key: string, text: string,
                       n: string, k: string) returns (i: nat, x: string)
    requires Says(lines, sections) && Current(lines) == Some(name) && IsAssignment(Trim(last), key, text)
    requires !IsSkipped(Trim(last)) && !IsHeading(Trim(last))
    requires (n == name && k == key) || (n in sections && k in sections[n])
    ensures LastAssigns(lines + [last], i, n, k, x)
  {
    hide LastAssigns, Assigns, Opens, Trim, ValueOf, Name, IsAssignment, Current, IsSkipped, IsHeading;
    if n == name && k == key {
      AssignsLast(lines, last, name, key, text);
      LastAssignsLast(lines, last, name, key, text);
      i, x := |lines|, text;
    } else {
      i, x :| LastAssigns(lines, i, n, k, x);
      StillAssigned(lines, last, name, key, text, i, n, k, x);
    }
  }

  /** After an assignment as last line: the same assignments, except that this one is the last for its key. */
  lemma AssignedSince(lines: seq<string>, last: string, name: string, key: string, text: string, i: nat, n: string,
                      k: string, x: string)
    requires Current(lines) == Some(name) && IsAssignment(Trim(last), key, text)
    requires !IsSkipped(Trim(last)) && !IsHeading(Trim(last))
    requires LastAssigns(lines + [last], i, n, k, x)
    ensures if n == name && k == key then i == |lines| && x == text else i < |lines| && LastAssigns(lines, i, n, k, x)
  {
    hide Assigns, Trim, IsAssignment, Current, IsSkipped, IsHeading;
    AssignsLast(lines, last, name, key, text);
    if i < |lines| {
      LastAssignsBefore(lines, last, i, n, k, x);
    } else {
      AssignsInside(lines + [last], i, n, k, x);
      AssignsLast(lines, last, n, k, x);
      OneAssignment(Trim(last), key, text, k, x);
    }
  }

  lemma AssignsInside(lines: seq<string>, i: nat, name: string, key: string, text: string)
    ensures LastAssigns(lines, i, name, key, text) ==> i < |lines| && Assigns(lines, i, name, key, text)
  {
    hide Trim, IsAssignment, Current;
  }

  lemma OneAssignment(core: string, key: string, text: string, k: string, x: string)
    requires IsAssignment(core, key, text) && IsAssignment(core, k, x)
    ensures k == key && x == text
  {
    hide IsAssignment, Assignment;
    AssignmentIff(core, key, text);
    AssignmentIff(core, k, x);
  }

  lemma StillAssigned(lines: seq<string>, last: string, name: string, key: string, text: string, i: nat, n: string,
                      k: string, x: string)
    requires Current(lines) == Some(name) && IsAssignment(Trim(last), key, text)
    requires LastAssigns(lines, i, n, k, x) && !(n == name && k == key)
    ensures LastAssigns(lines + [last], i, n, k, x)
  {
    hide Assigns, Trim, IsAssignment, Current, IsSkipped, IsHeading;
    AssignsInside(lines, i, n, k, x);
    forall other
      ensures !Assigns(lines + [last], |lines|, n, k, other)
    {
      AssignsLast(lines, last, n, k, other);
      if IsAssignment(Trim(last), k, other) {
        OneAssignment(Trim(last), key, text, k, other);
      }
    }
    LastAssignsBefore(lines, last, i, n, k, x);
  }

  /** Whatever the file: if it is read at all, the result holds exactly what its lines say. */
  lemma {:induction false} LinesSay(lines: seq<string>)
    requires ParseLines(lines).Ok?
    ensures Says(lines, ParseLines(lines).value.sections) && ParseLines(lines).value.current == Current(lines)
    decreases |lines|
  {
    hide Says, ParseLine, Trim;
    if lines == [] {
      assert Says([], map[]) by { NothingSaid(); }
    } else {
      var init, last := lines[..|lines| - 1], lines[|lines| - 1];
      assert lines == init + [last];
      LinesSay(init);
      LineSays(init, ParseLines(init).value, last);
    }
  }

  lemma NothingSaid()
    ensures Says([], map[])
  {
    hide Trim, IsAssignment;
  }

  lemma LineSays(lines: seq<string>, r: Reader, last: string)
    requires CurrentOpen(r) && Says(lines, r.sections) && r.current == Current(lines)
    requires ParseLine(r, last, |lines| + 1).Ok?
    ensures var r' := ParseLine(r, last, |lines| + 1).value;
            Says(lines + [last], r'.sections) && r'.current == Current(lines + [last])
  {
    hide Says, Trim, SectionHeader, Assignment, ParseScalar, Strip, IsAssignment;
    assert (lines + [last])[..|lines|] == lines;
    var core := Trim(last);
    if IsSkipped(core) {
      SkippedSays(lines, last, r.sections);
    } else if IsHeading(core) {
      HeaderSays(lines, last, r.sections, SectionHeader(core).value);
    } else {
      var (key, text) := Assignment(core).value;
      AssignmentIff(core, key, text);
      AssignmentSays(lines, last, r.sections, r.current.value, key, text, ValueOf(text, |lines| + 1).value);
    }
  }

  // ---- the text as a whole ----

  /** A line break, with what follows it: a carriage return takes a line feed after it along. */
  ghost predicate Breaks(brk: string, rest: string) {
    brk == "\r\n" || brk == "\n" || (brk == "\r" && (rest == [] || rest[0] != '\n'))
  }

  /** `raw` is these lines with a line break between any two. */
  ghost predicate IsLines(raw: string, lines: seq<string>)
    decreases |lines|
  {
    && lines != [] && OneLine(lines[0])
    && if |lines| == 1 then raw == lines[0]
       else exists brk, rest :: Breaks(brk, rest) && raw == lines[0] + brk + rest && IsLines(rest, lines[1..])
  }

  lemma {:induction false} LineThenBreak(a: string, brk: string, rest: string)
    requires OneLine(a) && Breaks(brk, rest)
    ensures SplitLines(a + brk + rest) == [a] + SplitLines(rest)
  {
    hide SplitLines;
    if a == [] {
      assert a + brk + rest == brk + rest;
      SplitBreak(rest);
    } else {
      LineThenBreak(a[1..], brk, rest);
      SplitChar(a[0], a[1..] + brk + rest);
      assert a + brk + rest == [a[0]] + (a[1..] + brk + rest);
      assert SplitLines(a[1..] + brk + rest)[1..] == SplitLines(rest);
      assert [a[0]] + a[1..] == a;
    }
  }

  lemma {:induction false} FirstBreak(raw: string) returns (a: string, brk: string, rest: string)
    requires !OneLine(raw)
    ensures OneLine(a) && Breaks(brk, rest) && raw == a + brk + rest
  {
    if raw[0] == '\r' && |raw| >= 2 && raw[1] == '\n' {
      a, brk, rest := [], "\r\n", raw[2..];
    } else if raw[0] == '\n' || raw[0] == '\r' {
      a, brk, rest := [], [raw[0]], raw[1..];
    } else {
      a, brk, rest := FirstBreak(raw[1..]);
      a := [raw[0]] + a;
    }
  }

  /** The reader's lines are what stands between line breaks of any of the three kinds. */
  lemma {:induction false} LinesIff(raw: string, lines: seq<string>)
    ensures SplitLines(raw) == lines <==> IsLines(raw, lines)
    decreases |lines|, |raw|
  {
    hide SplitLines, Breaks;
    if IsLines(raw, lines) {
      if |lines| == 1 {
        OneLineIsLine(raw);
        assert lines == [raw];
      } else {
        var brk, rest :| Breaks(brk, rest) && raw == lines[0] + brk + rest && IsLines(rest, lines[1..]);
        LinesIff(rest, lines[1..]);
        LineThenBreak(lines[0], brk, rest);
        assert lines == [lines[0]] + lines[1..];
        assert SplitLines(raw) == lines;
      }
    }
    if SplitLines(raw) == lines {
      if OneLine(raw) {
        OneLineIsLine(raw);
      } else {
        var a, brk, rest := FirstBreak(raw);
        LineThenBreak(a, brk, rest);
        assert lines[0] == a && lines[1..] == SplitLines(rest);
        LinesIff(rest, lines[1..]);
      }
    }
  }

  ghost predicate Faulty(lines: seq<string>, i: nat, e: Error) {
    i < |lines| && Rejected(Current(lines[..i]).Some?, Trim(lines[i]), i + 1, e)
  }

  /** The first faulty line decides. */
  ghost predicate Fails(lines: seq<string>, n: nat, e: Error) {
    Faulty(lines, n, e) && forall i: nat, other :: i < n ==> !Faulty(lines, i, other)
  }

  lemma {:induction false} FirstRejected(lines: seq<string>) returns (n: nat)
    requires ParseLines(lines).Err?
    ensures Fails(lines, n, ParseLines(lines).error)
    decreases |lines|
  {
    hide ParseLine, Trim, Rejected, Current;
    var init, last := lines[..|lines| - 1], lines[|lines| - 1];
    if ParseLines(init).Err? {
      n := FirstRejected(init);
      forall i: nat, e | i <= n
        ensures Faulty(lines, i, e) == Faulty(init, i, e)
      {
        assert init[..i] == lines[..i] && init[i] == lines[i];
      }
    } else {
      n := |init|;
      LinesSay(init);
      RejectedIff(ParseLines(init).value, last, |lines|, ParseLines(lines).error);
      assert lines[..n] == init;
      forall i: nat, other | i < n
        ensures !Faulty(lines, i, other)
      {
        assert lines[..i] == init[..i];
        NotFaulty(init, i, other);
      }
    }
  }

  lemma NotFaulty(lines: seq<string>, i: nat, e: Error)
    requires ParseLines(lines).Ok? && i < |lines|
    ensures !Faulty(lines, i, e)
  {
    hide ParseLine, ParseLines, Trim, Rejected, Current;
    var prev := lines[..i];
    assert lines == prev + lines[i..] && lines == prev + [lines[i]] + lines[i + 1..];
    ErrorSticks(prev, lines[i..]);
    ErrorSticks(prev + [lines[i]], lines[i + 1..]);
    ParseNext(prev, lines[i]);
    LinesSay(prev);
    RejectedIff(ParseLines(prev).value, lines[i], i + 1, e);
  }

  /** Reading any text: it yields what its lines say, or fails with the fault of the first line that has one. */
  lemma ReadsWhatItSays(raw: string)
    ensures Reads(raw).Ok? ==> Says(SplitLines(raw), Reads(raw).value)
    ensures Reads(raw).Err? ==> exists n: nat :: Fails(SplitLines(raw), n, Reads(raw).error)
    ensures Reads(raw).Ok? ==> forall n: nat, e :: !Fails(SplitLines(raw), n, e)
  {
    hide ParseLines, SplitLines, Says, Rejected, Current, Trim;
    var lines := SplitLines(raw);
    if Reads(raw).Ok? {
      LinesSay(lines);
      forall n: nat, e
        ensures !Faulty(lines, n, e)
      {
        if n < |lines| {
          NotFaulty(lines, n, e);
        }
      }
    } else {
      var n := FirstRejected(lines);
    }
  }
}
