/** Lines, blanks and comments of `collector.toml`, below the level of sections and keys. */
module ConfigText {

  // ---- lines ----

  /** PHP's `preg_split` on `\r\n`, `\n` or `\r`. */
  function SplitLines(s: string): (lines: seq<string>)
    ensures lines != []
    decreases |s|
  {
    if s == [] then [[]]
    else if s[0] == '\r' && |s| >= 2 && s[1] == '\n' then [[]] + SplitLines(s[2..])
    else if s[0] == '\n' || s[0] == '\r' then [[]] + SplitLines(s[1..])
    else
      var rest := SplitLines(s[1..]);
      [[s[0]] + rest[0]] + rest[1..]
  }

  /** `implode("\n", lines)`. */
  function Join(lines: seq<string>): string
    requires lines != []
  {
    if |lines| == 1 then lines[0] else lines[0] + "\n" + Join(lines[1..])
  }

  function SplitAll(lines: seq<string>): seq<string> {
    if lines == [] then [] else SplitLines(lines[0]) + SplitAll(lines[1..])
  }

  predicate OneLine(s: string) {
    forall i :: 0 <= i < |s| ==> s[i] != '\n' && s[i] != '\r'
  }

  predicate EndsInCr(s: string) {
    s != [] && s[|s| - 1] == '\r'
  }

  lemma {:induction false} OneLineIsLine(s: string)
    requires OneLine(s)
    ensures SplitLines(s) == [s]
  {
    if s != [] {
      OneLineIsLine(s[1..]);
      assert [s[0]] + s[1..] == s;
    }
  }

  lemma SplitBreak(s: string)
    ensures SplitLines("\n" + s) == [[]] + SplitLines(s)
    ensures SplitLines("\r\n" + s) == [[]] + SplitLines(s)
    ensures s == [] || s[0] != '\n' ==> SplitLines("\r" + s) == [[]] + SplitLines(s)
  {
    assert ("\n" + s)[1..] == s && ("\r" + s)[1..] == s && ("\r\n" + s)[2..] == s;
  }

  lemma SplitChar(c: char, s: string)
    requires c != '\n' && c != '\r'
    ensures SplitLines([c] + s) == [[c] + SplitLines(s)[0]] + SplitLines(s)[1..]
  {
    assert ([c] + s)[1..] == s;
  }

  /** A line break after `a` ends a line, whatever follows. */
  lemma {:induction false} SplitAtBreak(a: string, b: string)
    requires !EndsInCr(a)
    ensures SplitLines(a + "\n" + b) == SplitLines(a) + SplitLines(b)
    decreases |a|
  {
    hide SplitLines;
    var s := a + "\n" + b;
    if a == [] {
      assert s == "\n" + b;
      SplitBreak(b);
      NothingSplits();
    } else if a[0] == '\r' && |a| >= 2 && a[1] == '\n' {
      var rest := a[2..];
      SplitAtBreak(rest, b);
      assert a == "\r\n" + rest && s == "\r\n" + (rest + "\n" + b);
      SplitBreak(rest);
      SplitBreak(rest + "\n" + b);
      BreakGrows(SplitLines(rest), SplitLines(b));
    } else {
      var rest := a[1..];
      SplitAtBreak(rest, b);
      assert a == [a[0]] + rest && s == [a[0]] + (rest + "\n" + b);
      if a[0] == '\n' || a[0] == '\r' {
        SplitBreak(rest);
        SplitBreak(rest + "\n" + b);
        BreakGrows(SplitLines(rest), SplitLines(b));
      } else {
        SplitChar(a[0], rest);
        SplitChar(a[0], rest + "\n" + b);
        FirstGrows(a[0], SplitLines(rest), SplitLines(b));
      }
    }
  }

  lemma NothingSplits()
    ensures SplitLines("") == [""]
  {
  }

  lemma BreakGrows(x: seq<string>, y: seq<string>)
    ensures [[]] + (x + y) == ([[]] + x) + y
  {
  }

  lemma FirstGrows(c: char, x: seq<string>, y: seq<string>)
    requires x != []
    ensures [[c] + (x + y)[0]] + (x + y)[1..] == ([[c] + x[0]] + x[1..]) + y
  {
  }

  lemma {:induction false} SplitJoin(lines: seq<string>)
    requires lines != [] && forall i :: 0 <= i < |lines| ==> !EndsInCr(lines[i])
    ensures SplitLines(Join(lines)) == SplitAll(lines)
  {
    if |lines| == 1 {
      assert SplitAll(lines[1..]) == [];
    } else {
      SplitJoin(lines[1..]);
      SplitAtBreak(lines[0], Join(lines[1..]));
    }
  }

  lemma SplitAllCons(line: string, rest: seq<string>)
    ensures SplitAll([line] + rest) == SplitLines(line) + SplitAll(rest)
  {
    hide SplitLines;
    assert ([line] + rest)[1..] == rest;
  }

  lemma ConcatLines(x: seq<string>, y: seq<string>, z: seq<string>)
    ensures x + (y + z) == x + y + z
  {
  }

  lemma {:induction false} SplitAllAppend(a: seq<string>, b: seq<string>)
    ensures SplitAll(a + b) == SplitAll(a) + SplitAll(b)
  {
    hide SplitLines;
    if a == [] {
      assert a + b == b;
    } else {
      SplitAllAppend(a[1..], b);
      SplitAllCons(a[0], a[1..] + b);
      assert a + b == [a[0]] + (a[1..] + b);
      ConcatLines(SplitLines(a[0]), SplitAll(a[1..]), SplitAll(b));
    }
  }

  lemma SplitAllOne(line: string)
    ensures SplitAll([line]) == SplitLines(line)
  {
  }

  /** A carriage return cuts the line it is in. */
  lemma {:induction false} CutAtCr(a: string, b: string)
    requires OneLine(a)
    ensures SplitLines(a + "\r" + b)[0] == a
  {
    var s := a + "\r" + b;
    if a != [] {
      assert s[1..] == a[1..] + "\r" + b;
      CutAtCr(a[1..], b);
      assert [a[0]] + a[1..] == a;
    }
  }

  // ---- blanks ----

  /** What PHP's `trim` removes. */
  predicate TrimChar(c: char) {
    c == ' ' || c == '\t' || c == '\n' || c == '\r' || c == '\0' || c == '\U{0B}'
  }

  /** PCRE's `\s`. */
  predicate SpaceChar(c: char) {
    c == ' ' || c == '\t' || c == '\n' || c == '\r' || c == '\U{0B}' || c == '\U{0C}'
  }

  function TrimLeft(s: string): string {
    if s != [] && TrimChar(s[0]) then TrimLeft(s[1..]) else s
  }

  function TrimRight(s: string): string {
    if s != [] && TrimChar(s[|s| - 1]) then TrimRight(s[..|s| - 1]) else s
  }

  function Trim(s: string): string {
    TrimRight(TrimLeft(s))
  }

  function SkipSpace(s: string): string {
    if s != [] && SpaceChar(s[0]) then SkipSpace(s[1..]) else s
  }

  lemma {:induction false} TrimRightIsPrefix(s: string)
    ensures TrimRight(s) <= s
  {
    if s != [] && TrimChar(s[|s| - 1]) {
      TrimRightIsPrefix(s[..|s| - 1]);
    }
  }

  lemma {:induction false} TrimRightKeeps(a: string, s: string)
    requires a != [] && !TrimChar(a[|a| - 1])
    ensures TrimRight(a + s) == a + TrimRight(s)
    decreases |s|
  {
    if s == [] {
      assert a + s == a;
    } else if TrimChar(s[|s| - 1]) {
      TrimRightKeeps(a, s[..|s| - 1]);
      assert (a + s)[..|a + s| - 1] == a + s[..|s| - 1];
    }
  }

  lemma {:induction false} AllBlank(s: string)
    requires forall i :: 0 <= i < |s| ==> TrimChar(s[i])
    ensures TrimRight(s) == []
  {
    if s != [] {
      AllBlank(s[..|s| - 1]);
    }
  }

  // ---- comments ----

  /** The scanner of `stripTrailingComment`, from the state (`inString`, `escape`). */
  function Strip(s: string, inString: bool, escape: bool): string {
    if s == [] then []
    else if inString then
      [s[0]] + (if escape then Strip(s[1..], true, false)
                else if s[0] == '\\' then Strip(s[1..], true, true)
                else Strip(s[1..], s[0] != '"', false))
    else if s[0] == '"' then [s[0]] + Strip(s[1..], true, escape)
    else if s[0] == '#' then []
    else [s[0]] + Strip(s[1..], false, escape)
  }

  method StripTrailingComment(value: string) returns (r: string)
    ensures r == Strip(value, false, false)
  {
    var inString, escape, i := false, false, 0;
    while i < |value|
      invariant 0 <= i <= |value|
      invariant Strip(value, false, false) == value[..i] + Strip(value[i..], inString, escape)
    {
      var ch := value[i];
      StripUnfolds(value, i, inString, escape);
      if inString {
        if escape {
          escape := false;
        } else if ch == '\\' {
          escape := true;
        } else if ch == '"' {
          inString := false;
        }
      } else if ch == '"' {
        inString := true;
      } else if ch == '#' {
        return value[..i];
      }
      i := i + 1;
    }
    return value;
  }

  lemma StripUnfolds(value: string, i: nat, inString: bool, escape: bool)
    requires i < |value|
    ensures value[i..][0] == value[i] && value[i..][1..] == value[i + 1..]
    ensures value[..i] + [value[i]] == value[..i + 1]
    ensures forall rest: string :: value[..i] + ([value[i]] + rest) == value[..i + 1] + rest
  {
  }

  lemma {:induction false} StripPlain(x: string, rest: string)
    requires forall i :: 0 <= i < |x| ==> x[i] != '"' && x[i] != '#'
    ensures Strip(x + rest, false, false) == x + Strip(rest, false, false)
  {
    if x == [] {
      assert x + rest == rest;
    } else {
      StripPlain(x[1..], rest);
      assert (x + rest)[1..] == x[1..] + rest;
    }
  }

  lemma StripChar(c: char, tail: string)
    requires c != '"' && c != '\\'
    ensures Strip([c] + tail, true, false) == [c] + Strip(tail, true, false)
  {
    assert ([c] + tail)[1..] == tail;
  }

  lemma StripPair(c: char, tail: string)
    ensures Strip(['\\', c] + tail, true, false) == ['\\', c] + Strip(tail, true, false)
  {
    var s := ['\\', c] + tail;
    assert s[1..] == [c] + tail && s[1..][1..] == tail;
    assert Strip(s[1..], true, true) == [c] + Strip(tail, true, false);
  }

  lemma StripQuote(tail: string)
    ensures Strip("\"" + tail, false, false) == "\"" + Strip(tail, true, false)
    ensures Strip("\"" + tail, true, false) == "\"" + Strip(tail, false, false)
  {
    assert ("\"" + tail)[1..] == tail;
  }

  lemma StripOutside(c: char, tail: string)
    requires c != '"' && c != '#'
    ensures Strip([c] + tail, false, false) == [c] + Strip(tail, false, false)
  {
    assert ([c] + tail)[1..] == tail;
  }

  lemma StripEnds(tail: string)
    ensures Strip([], false, false) == [] && Strip([], true, false) == []
    ensures Strip("#" + tail, false, false) == []
    ensures Strip("\\", true, false) == "\\"
  {
    assert "\\"[1..] == "";
  }
}
