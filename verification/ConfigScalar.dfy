/** Scalar values of `collector.toml`: as the fixture writer prints them and as the PHP reader parses them. */
module ConfigScalar {
  import opened Digits

  const PHP_INT_MIN: int := -0x8000_0000_0000_0000
  const PHP_INT_MAX: int := 0x7fff_ffff_ffff_ffff

  type PhpInt = i: int | PHP_INT_MIN <= i <= PHP_INT_MAX

  datatype Scalar = Bool(b: bool) | Int(i: PhpInt) | Str(s: string)

  datatype Error =
    | MalformedHeader(line: nat)
    | BeforeAnySection(line: nat)
    | NotAnAssignment(line: nat)
    | EmptyValue(line: nat)
    | MalformedString(line: nat)
    | MalformedInteger(line: nat)
    | NotAScalar(line: nat)
    | UnknownEscape(c: char)

  datatype Result<+T> = Ok(value: T) | Err(error: Error)

  // ---- the printer ----

  function NatText(n: nat): string {
    if n < 10 then [DigitChar(n)] else NatText(n / 10) + [DigitChar(n % 10)]
  }

  function Magnitude(i: int): nat {
    if i < 0 then -i else i
  }

  function IntText(i: int): string {
    (if i < 0 then "-" else "") + NatText(Magnitude(i))
  }

  function EscapeChar(c: char): string {
    if c == '\\' then "\\\\" else if c == '"' then "\\\"" else if c == '\n' then "\\n" else [c]
  }

  function Escape(s: string): string {
    if s == [] then [] else EscapeChar(s[0]) + Escape(s[1..])
  }

  function FormatValue(v: Scalar): string {
    match v
    case Bool(b) => if b then "true" else "false"
    case Int(i) => IntText(i)
    case Str(s) => "\"" + Escape(s) + "\""
  }

  // ---- the parser ----

  /** `(?:\\.|[^"\\])*` from start to end. */
  predicate WellEscaped(x: string)
    decreases |x|
  {
    if x == [] then true
    else if x[0] == '\\' then |x| >= 2 && x[1] != '\n' && WellEscaped(x[2..])
    else x[0] != '"' && WellEscaped(x[1..])
  }

  function EscapeMeaning(c: char): Option<char> {
    if c == '"' || c == '\\' then Some(c)
    else if c == 'n' then Some('\n')
    else if c == 'r' then Some('\r')
    else if c == 't' then Some('\t')
    else None
  }

  function Unescape(x: string): Result<string>
    decreases |x|
  {
    if x == [] then Ok([])
    else if x[0] == '\\' && |x| >= 2 && x[1] != '\n' then
      match EscapeMeaning(x[1])
      case None => Err(UnknownEscape(x[1]))
      case Some(c) => match Unescape(x[2..]) case Err(e) => Err(e) case Ok(s) => Ok([c] + s)
    else
      match Unescape(x[1..]) case Err(e) => Err(e) case Ok(s) => Ok([x[0]] + s)
  }

  function Unsigned(s: string): string {
    if s != [] && s[0] == '-' then s[1..] else s
  }

  /** `-?[0-9_]+` */
  predicate IntShape(s: string) {
    Unsigned(s) != [] && forall i :: 0 <= i < |Unsigned(s)| ==> IsDigit(Unsigned(s)[i]) || Unsigned(s)[i] == '_'
  }

  function Compact(s: string): string {
    if s == [] then [] else (if s[0] == '_' then [] else [s[0]]) + Compact(s[1..])
  }

  /** PHP's cast of a numeric string saturates. */
  function Saturate(i: int): PhpInt {
    if i < PHP_INT_MIN then PHP_INT_MIN else if i > PHP_INT_MAX then PHP_INT_MAX else i
  }

  function Signed(negative: bool, magnitude: int): int {
    if negative then -magnitude else magnitude
  }

  function ParseInt(s: string, line: nat): Result<Scalar> {
    var compact := Compact(s);
    var digits := Unsigned(compact);
    if digits == [] then Err(MalformedInteger(line))
    else
      match Decimal(digits)
      case None => Err(MalformedInteger(line))
      case Some(v) =>
        Ok(Int(Saturate(Signed(compact[0] == '-', v))))
  }

  function ParseScalar(rest: string, line: nat): Result<Scalar> {
    if rest == "" then Err(EmptyValue(line))
    else if rest == "true" then Ok(Bool(true))
    else if rest == "false" then Ok(Bool(false))
    else if rest[0] == '"' then
      if |rest| >= 2 && rest[|rest| - 1] == '"' && WellEscaped(rest[1..|rest| - 1]) then
        match Unescape(rest[1..|rest| - 1]) case Err(e) => Err(e) case Ok(s) => Ok(Str(s))
      else Err(MalformedString(line))
    else if IntShape(rest) then ParseInt(rest, line)
    else Err(NotAScalar(line))
  }

  // ---- reading back what was printed ----

  lemma EscapeCharReadsBack(c: char, x: string)
    ensures WellEscaped(EscapeChar(c) + x) == WellEscaped(x)
    ensures Unescape(x).Ok? ==> Unescape(EscapeChar(c) + x) == Ok([c] + Unescape(x).value)
  {
    var e := EscapeChar(c);
    assert (e + x)[|e|..] == x;
    assert (e + x)[0] == e[0] && (|e| == 2 ==> (e + x)[1] == e[1]);
  }

  lemma {:induction false} EscapeReadsBack(s: string)
    ensures WellEscaped(Escape(s)) && Unescape(Escape(s)) == Ok(s)
  {
    if s != [] {
      EscapeReadsBack(s[1..]);
      EscapeCharReadsBack(s[0], Escape(s[1..]));
      assert [s[0]] + s[1..] == s;
    }
  }

  lemma {:induction false} NatTextReadsBack(n: nat)
    ensures NatText(n) != [] && Decimal(NatText(n)) == Some(n)
    ensures forall i :: 0 <= i < |NatText(n)| ==> IsDigit(NatText(n)[i])
  {
    if n < 10 {
      DecimalAppend([], n);
      assert [] + [DigitChar(n)] == NatText(n);
    } else {
      NatTextReadsBack(n / 10);
      DecimalAppend(NatText(n / 10), n % 10);
    }
  }

  lemma {:induction false} CompactKeeps(s: string)
    requires forall i :: 0 <= i < |s| ==> s[i] != '_'
    ensures Compact(s) == s
  {
    if s != [] {
      CompactKeeps(s[1..]);
    }
  }

  lemma IntTextShape(i: int)
    ensures var s := IntText(i);
            s != [] && (s[0] == '-' <==> i < 0) && (s[0] == '-' || IsDigit(s[0])) && IsDigit(s[|s| - 1])
    ensures Unsigned(IntText(i)) == NatText(Magnitude(i))
    ensures IntShape(IntText(i)) && forall k :: 0 <= k < |IntText(i)| ==> IntText(i)[k] != '_'
  {
    hide NatText, Decimal;
    NatTextReadsBack(Magnitude(i));
  }

  lemma IntTextReadsBack(i: PhpInt, line: nat)
    ensures ParseInt(IntText(i), line) == Ok(Int(i))
  {
    hide NatText, Decimal, IntText, Unsigned;
    IntTextShape(i);
    NatTextReadsBack(Magnitude(i));
    CompactKeeps(IntText(i));
  }

  /** Every scalar, any string included, reads back from its printed form. */
  lemma ScalarReadsBack(v: Scalar, line: nat)
    ensures ParseScalar(FormatValue(v), line) == Ok(v)
  {
    match v
    case Bool(b) =>
    case Int(i) =>
      IntTextShape(i);
      IntTextReadsBack(i, line);
    case Str(s) =>
      EscapeReadsBack(s);
      var text := FormatValue(v);
      assert text[1..|text| - 1] == Escape(s);
      assert text[0] == '"';
  }

  // ---- reading anything else ----

  /** The number a text of digits and underscores stands for: the underscores are skipped. */
  function SpacedNumber(s: string): nat
    requires forall i :: 0 <= i < |s| ==> IsDigit(s[i]) || s[i] == '_'
    decreases |s|
  {
    if s == [] then 0
    else
      var init, last := s[..|s| - 1], s[|s| - 1];
      if last == '_' then SpacedNumber(init) else 10 * SpacedNumber(init) + DigitValue(last)
  }

  lemma {:induction false} CompactAppend(s: string, c: char)
    ensures Compact(s + [c]) == Compact(s) + if c == '_' then [] else [c]
  {
    if s == [] {
      assert s + [c] == [c] && [c][1..] == [];
    } else {
      assert (s + [c])[1..] == s[1..] + [c];
      CompactAppend(s[1..], c);
    }
  }

  lemma {:induction false} CompactNumber(s: string)
    requires forall i :: 0 <= i < |s| ==> IsDigit(s[i]) || s[i] == '_'
    ensures Decimal(Compact(s)) == Some(SpacedNumber(s))
    ensures Compact(s) == [] <==> forall i :: 0 <= i < |s| ==> s[i] == '_'
    ensures Compact(s) != [] ==> IsDigit(Compact(s)[0])
    decreases |s|
  {
    hide Decimal;
    if s == [] {
      assert Decimal([]) == Some(0) by { DecimalOfNothing(); }
    } else {
      var init, last := s[..|s| - 1], s[|s| - 1];
      assert s == init + [last];
      CompactNumber(init);
      CompactAppend(init, last);
      if last != '_' {
        DecimalAppend(Compact(init), DigitValue(last));
        assert DigitChar(DigitValue(last)) == last;
      } else {
        assert Compact(s) == Compact(init);
      }
    }
  }

  lemma DecimalOfNothing()
    ensures Decimal([]) == Some(0)
  {
  }

  lemma CompactMinus(s: string)
    requires s != [] && s[0] == '-'
    ensures Compact(s) == ['-'] + Compact(s[1..])
  {
  }

  /** An integer may have underscores anywhere after its sign; its value is that of its digits, brought into the
      64-bit range, and underscores alone are malformed. */
  lemma IntegersRead(s: string, line: nat)
    requires IntShape(s)
    ensures var digits := Unsigned(s);
            if forall i :: 0 <= i < |digits| ==> digits[i] == '_' then ParseInt(s, line) == Err(MalformedInteger(line))
            else
              var v: int := if s[0] == '-' then 0 - SpacedNumber(digits) else SpacedNumber(digits);
              && ParseInt(s, line).Ok? && ParseInt(s, line).value.Int?
              && ParseInt(s, line).value.i == if v < -9223372036854775808 then -9223372036854775808
                                              else if v > 9223372036854775807 then 9223372036854775807 else v
  {
    hide Compact, Decimal, SpacedNumber;
    CompactNumber(Unsigned(s));
    if s[0] == '-' {
      CompactMinus(s);
      assert Unsigned(Compact(s)) == Compact(Unsigned(s));
    } else {
      assert Unsigned(s) == s;
    }
  }

  /** `x` is a way to write the characters `s` between double quotes. */
  predicate Spells(x: string, s: string)
    decreases |s|
  {
    if s == [] then x == []
    else
      || (x != [] && x[0] == s[0] && x[0] != '"' && x[0] != '\\' && Spells(x[1..], s[1..]))
      || (|x| >= 2 && x[0] == '\\' && Spells(x[2..], s[1..]) &&
          match x[1]
          case '"' => s[0] == '"'
          case '\\' => s[0] == '\\'
          case 'n' => s[0] == '\n'
          case 'r' => s[0] == '\r'
          case 't' => s[0] == '\t'
          case _ => false)
  }

  lemma {:induction false} SpellingReads(x: string, s: string)
    ensures Spells(x, s) <==> WellEscaped(x) && Unescape(x) == Ok(s)
    decreases |x|
  {
    if x != [] && s != [] {
      SpellingReads(x[1..], s[1..]);
      if |x| >= 2 {
        SpellingReads(x[2..], s[1..]);
      }
      assert s == [s[0]] + s[1..];
    }
  }

  /** A quoted value is read as a string if and only if it spells one, with the five escapes and no bare quote. */
  lemma StringsRead(x: string, s: string, line: nat)
    ensures ParseScalar("\"" + x + "\"", line) == Ok(Str(s)) <==> Spells(x, s)
  {
    hide Spells, WellEscaped, Unescape;
    SpellingReads(x, s);
    var text := "\"" + x + "\"";
    assert text[1..|text| - 1] == x && text[0] == '"' && text[|text| - 1] == '"' && |text| >= 2;
  }

  // ---- what is not a value ----

  /** An optional minus sign, then digits and underscores, at least one character. */
  ghost predicate IsInteger(s: string) {
    exists d :: d != [] && (s == d || s == ['-'] + d) && forall i :: 0 <= i < |d| ==> d[i] in "0123456789_"
  }

  lemma IntegerIff(s: string)
    ensures IntShape(s) <==> IsInteger(s)
  {
    if IntShape(s) {
      var d := Unsigned(s);
      assert s == d || s == ['-'] + d;
      assert forall i :: 0 <= i < |d| ==> d[i] in "0123456789_" by { DigitsOf(d); }
    }
    if IsInteger(s) {
      var d :| d != [] && (s == d || s == ['-'] + d) && forall i :: 0 <= i < |d| ==> d[i] in "0123456789_";
      assert d[0] in "0123456789_";
      assert Unsigned(s) == d;
    }
  }

  lemma DigitsOf(d: string)
    requires forall i :: 0 <= i < |d| ==> IsDigit(d[i]) || d[i] == '_'
    ensures forall i :: 0 <= i < |d| ==> d[i] in "0123456789_"
  {
    forall i | 0 <= i < |d|
      ensures d[i] in "0123456789_"
    {
      var text := "0123456789_";
      if d[i] == '_' {
        assert text[10] == d[i];
      } else {
        assert text[DigitValue(d[i])] == d[i];
      }
    }
  }

  /** Unquoted text is a boolean, an integer, or an error: nothing at all, digits missing, or neither. */
  lemma BareValues(rest: string, line: nat)
    requires rest == [] || rest[0] != '"'
    ensures ParseScalar(rest, line) == Err(EmptyValue(line)) <==> rest == []
    ensures ParseScalar(rest, line) == Err(NotAScalar(line)) <==>
      rest != [] && rest != "true" && rest != "false" && !IsInteger(rest)
    ensures forall b :: ParseScalar(rest, line) == Ok(Bool(b)) <==> rest == if b then "true" else "false"
    ensures forall s :: ParseScalar(rest, line) != Ok(Str(s))
    ensures IsInteger(rest) ==> ParseScalar(rest, line) == ParseInt(rest, line)
  {
    hide ParseInt, IsInteger;
    IntegerIff(rest);
    if IntShape(rest) {
      IntegersRead(rest, line);
      assert "true"[0] == 't' && "false"[0] == 'f';
    }
  }

  /** One of the characters an escape may name. */
  predicate Escapable(c: char) {
    c == '"' || c == '\\' || c == 'n' || c == 'r' || c == 't'
  }

  /** `x` starts with a spelled text, then names an unknown escape. */
  ghost predicate StraysAt(x: string, c: char) {
    exists good, s, rest :: Spells(good, s) && !Escapable(c) && x == good + ['\\', c] + rest
  }

  lemma SpellsMore(c: char, x: string, s: string)
    requires Spells(x, s)
    ensures c != '"' && c != '\\' ==> Spells([c] + x, [c] + s)
    ensures Escapable(c) ==> EscapeMeaning(c).Some? && Spells(['\\', c] + x, [EscapeMeaning(c).value] + s)
  {
    assert ([c] + x)[1..] == x && (['\\', c] + x)[2..] == x;
    assert ([c] + s)[1..] == s;
    if Escapable(c) {
      assert ([EscapeMeaning(c).value] + s)[1..] == s;
    }
  }

  lemma {:induction false} StrayFound(x: string) returns (good: string, s: string, rest: string)
    requires WellEscaped(x) && Unescape(x).Err?
    ensures Unescape(x).error.UnknownEscape? && !Escapable(Unescape(x).error.c)
    ensures Spells(good, s) && x == good + ['\\', Unescape(x).error.c] + rest
    decreases |x|
  {
    hide Spells;
    if x[0] != '\\' {
      good, s, rest := StrayFound(x[1..]);
      assert x == [x[0]] + x[1..];
      SpellsMore(x[0], good, s);
      GrowLeft([x[0]], good, ['\\', Unescape(x).error.c], rest);
      good, s := [x[0]] + good, [x[0]] + s;
    } else if Escapable(x[1]) {
      good, s, rest := StrayFound(x[2..]);
      assert x == ['\\', x[1]] + x[2..];
      SpellsMore(x[1], good, s);
      GrowLeft(['\\', x[1]], good, ['\\', Unescape(x).error.c], rest);
      good, s := ['\\', x[1]] + good, [EscapeMeaning(x[1]).value] + s;
    } else {
      good, s, rest := [], [], x[2..];
      assert Spells([], []) by { SpellsNothing(); }
    }
  }

  lemma GrowLeft(a: string, b: string, c: string, d: string)
    ensures a + (b + c + d) == a + b + c + d
  {
  }

  lemma SpellsNothing()
    ensures Spells([], [])
  {
  }

  lemma {:induction false} StrayFails(good: string, s: string, c: char, rest: string)
    requires Spells(good, s) && !Escapable(c) && WellEscaped(good + ['\\', c] + rest)
    ensures Unescape(good + ['\\', c] + rest) == Err(UnknownEscape(c))
    decreases |good|
  {
    var x := good + ['\\', c] + rest;
    if good == [] {
      assert x[0] == '\\' && x[1] == c;
    } else {
      var k := if good[0] == '\\' then 2 else 1;
      assert x[0] == good[0] && (k == 2 ==> x[1] == good[1]) && x[k..] == good[k..] + ['\\', c] + rest;
      StrayFails(good[k..], s[1..], c, rest);
    }
  }

  /** Quoted text is a string, names an unknown escape, or is malformed. */
  lemma QuotedErrors(rest: string, line: nat)
    requires rest != [] && rest[0] == '"'
    ensures var closed := |rest| >= 2 && rest[|rest| - 1] == '"' && WellEscaped(rest[1..|rest| - 1]);
            && (ParseScalar(rest, line) == Err(MalformedString(line)) <==> !closed)
            && forall c :: ParseScalar(rest, line) == Err(UnknownEscape(c)) <==>
                 closed && StraysAt(rest[1..|rest| - 1], c)
  {
    hide Unescape, WellEscaped, Spells, Escapable;
    if |rest| >= 2 && rest[|rest| - 1] == '"' && WellEscaped(rest[1..|rest| - 1]) {
      var x := rest[1..|rest| - 1];
      if Unescape(x).Err? {
        var good, s, tail := StrayFound(x);
        assert StraysAt(x, Unescape(x).error.c);
      }
      forall c | StraysAt(x, c)
        ensures Unescape(x) == Err(UnknownEscape(c))
      {
        var good, s, tail :| Spells(good, s) && !Escapable(c) && x == good + ['\\', c] + tail;
        StrayFails(good, s, c, tail);
      }
    }
  }
}
