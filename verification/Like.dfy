/** The trace list's text filter (`api/traces.php`): the escaped LIKE pattern, under SQLite's LIKE with
    a backslash as ESCAPE character, finds the query as plain text. Strings are sequences of code points. */
module Like {

  // ---- SQLite ----

  /** SQLite folds case for ASCII letters only. */
  function Lower(c: char): char {
    if 'A' <= c <= 'Z' then c + 32 as char else c
  }

  /** `s LIKE p ESCAPE '\'`. */
  predicate Matches(p: string, s: string)
    decreases |p| + |s|
  {
    if p == [] then s == []
    else if p[0] == '\\' then |p| >= 2 && s != [] && Lower(p[1]) == Lower(s[0]) && Matches(p[2..], s[1..])
    else if p[0] == '%' then Matches(p[1..], s) || (s != [] && Matches(p, s[1..]))
    else s != [] && (p[0] == '_' || Lower(p[0]) == Lower(s[0])) && Matches(p[1..], s[1..])
  }

  // ---- the pattern ----

  predicate Special(c: char) {
    c == '\\' || c == '%' || c == '_'
  }

  function EscapeLike(q: string): string {
    if q == [] then [] else (if Special(q[0]) then ['\\', q[0]] else [q[0]]) + EscapeLike(q[1..])
  }

  function LikePattern(q: string): string {
    "%" + EscapeLike(q) + "%"
  }

  // ---- what it should mean ----

  predicate SameUpToCase(a: string, b: string) {
    |a| == |b| && forall i :: 0 <= i < |a| ==> Lower(a[i]) == Lower(b[i])
  }

  /** The URI has the query at offset `k`, up to ASCII case. */
  predicate FoundAt(s: string, q: string, k: nat) {
    k + |q| <= |s| && SameUpToCase(q, s[k..k + |q|])
  }

  ghost predicate Contains(s: string, q: string) {
    exists k: nat :: FoundAt(s, q, k)
  }

  // ---- proof ----

  lemma {:induction false} AnyPrefix(p: string, s: string)
    ensures Matches("%" + p, s) <==> exists k: nat :: k <= |s| && Matches(p, s[k..])
  {
    assert ("%" + p)[1..] == p;
    if s == [] {
      assert s[0..] == s;
    } else {
      AnyPrefix(p, s[1..]);
      assert s[0..] == s;
      forall k: nat | k < |s|
        ensures s[1..][k..] == s[k + 1..]
      {
      }
      if k: nat :| k <= |s| && Matches(p, s[k..]) {
        if k > 0 {
          assert s[1..][k - 1..] == s[k..];
        }
      }
      if k: nat :| k <= |s[1..]| && Matches(p, s[1..][k..]) {
        assert s[k + 1..] == s[1..][k..];
      }
    }
  }

  lemma LiteralStep(c: char, p: string, s: string)
    ensures Matches((if Special(c) then ['\\', c] else [c]) + p, s) <==>
      s != [] && Lower(c) == Lower(s[0]) && Matches(p, s[1..])
  {
    var e := if Special(c) then ['\\', c] else [c];
    assert (e + p)[|e|..] == p && (e + p)[0] == e[0] && (|e| == 2 ==> (e + p)[1] == c);
  }

  lemma {:induction false} LiteralPrefix(q: string, rest: string, s: string)
    ensures Matches(EscapeLike(q) + rest, s) <==> FoundAt(s, q, 0) && Matches(rest, s[|q|..])
  {
    hide Matches, Special, Lower, SameUpToCase;
    if q == [] {
      assert EscapeLike(q) + rest == rest;
      assert s[0..] == s;
      assert FoundAt(s, q, 0) by { FoundEmpty(s); }
    } else {
      var e, tail := if Special(q[0]) then ['\\', q[0]] else [q[0]], EscapeLike(q[1..]);
      LiteralStep(q[0], tail + rest, s);
      assert EscapeLike(q) + rest == e + (tail + rest);
      if s != [] {
        LiteralPrefix(q[1..], rest, s[1..]);
        if |q| <= |s| {
          assert s[1..][|q| - 1..] == s[|q|..];
        }
        FoundAtCons(s, q);
      }
    }
  }

  lemma FoundEmpty(s: string)
    ensures FoundAt(s, "", 0)
  {
  }

  lemma FoundAtCons(s: string, q: string)
    requires s != [] && q != []
    ensures FoundAt(s, q, 0) <==> Lower(q[0]) == Lower(s[0]) && FoundAt(s[1..], q[1..], 0)
  {
    if |q| <= |s| {
      forall i | 0 <= i < |q| - 1
        ensures s[1..][..|q| - 1][i] == s[..|q|][i + 1] && q[1..][i] == q[i + 1]
      {
      }
      if Lower(q[0]) == Lower(s[0]) && FoundAt(s[1..], q[1..], 0) {
        forall i | 0 <= i < |q|
          ensures Lower(q[i]) == Lower(s[..|q|][i])
        {
          if i > 0 {
            assert Lower(q[1..][i - 1]) == Lower(s[1..][..|q| - 1][i - 1]);
          }
        }
      }
      if FoundAt(s, q, 0) {
        forall i | 0 <= i < |q| - 1
          ensures Lower(q[1..][i]) == Lower(s[1..][..|q| - 1][i])
        {
          assert Lower(q[i + 1]) == Lower(s[..|q|][i + 1]);
        }
      }
    }
  }

  lemma FoundAtShift(s: string, q: string, k: nat)
    requires k <= |s|
    ensures FoundAt(s, q, k) <==> FoundAt(s[k..], q, 0)
  {
    if k + |q| <= |s| {
      assert s[k..][0..|q|] == s[k..k + |q|];
    }
  }

  lemma {:induction false} EverythingMatchesAny(s: string)
    ensures Matches("%", s)
  {
    AnyPrefix("", s);
    assert "%" + "" == "%";
    assert s[|s|..] == "";
  }

  /** The built pattern matches exactly the URIs that contain the query as plain text. */
  lemma PatternFindsQuery(q: string, s: string)
    ensures Matches(LikePattern(q), s) <==> Contains(s, q)
  {
    var p := EscapeLike(q) + "%";
    assert LikePattern(q) == "%" + p;
    AnyPrefix(p, s);
    forall k: nat | k <= |s|
      ensures Matches(p, s[k..]) <==> FoundAt(s, q, k)
    {
      LiteralPrefix(q, "%", s[k..]);
      FoundAtShift(s, q, k);
      if FoundAt(s[k..], q, 0) {
        EverythingMatchesAny(s[k..][|q|..]);
      }
    }
  }

  const UPPER := "ABCDEFGHIJKLMNOPQRSTUVWXYZ"
  const LOWER := "abcdefghijklmnopqrstuvwxyz"

  /** The same character, or one of the 26 letters in upper and in lower case. */
  ghost predicate SameLetter(a: char, b: char) {
    a == b || exists i :: 0 <= i < 26 && ((a == UPPER[i] && b == LOWER[i]) || (a == LOWER[i] && b == UPPER[i]))
  }

  lemma LettersAt(i: nat)
    requires i < 26
    ensures UPPER[i] as int == 65 + i && LOWER[i] as int == 97 + i
  {
  }

  lemma LowerMeans(a: char, b: char)
    ensures Lower(a) == Lower(b) <==> SameLetter(a, b)
  {
    forall i | 0 <= i < 26
      ensures UPPER[i] as int == 65 + i && LOWER[i] as int == 97 + i
    {
      LettersAt(i);
    }
    if Lower(a) == Lower(b) && a != b {
      var upper := if 'A' <= a <= 'Z' then a else b;
      assert UPPER[upper as int - 65] == upper;
    }
  }

  /** `q` stands in `s` at offset `k`, letter by letter. */
  ghost predicate ReadsAt(s: string, q: string, k: nat) {
    k + |q| <= |s| && forall i :: 0 <= i < |q| ==> SameLetter(q[i], s[k + i])
  }

  /** The same without SQLite's case folding: the pattern matches if and only if the query stands somewhere in
      the URI, upper and lower case of the 26 letters apart. */
  lemma PatternFindsText(q: string, s: string)
    ensures Matches(LikePattern(q), s) <==> exists k: nat :: ReadsAt(s, q, k)
  {
    hide Lower, SameLetter, Matches;
    PatternFindsQuery(q, s);
    forall k: nat
      ensures FoundAt(s, q, k) <==> ReadsAt(s, q, k)
    {
      FoundMeansReads(s, q, k);
    }
  }

  lemma FoundMeansReads(s: string, q: string, k: nat)
    ensures FoundAt(s, q, k) <==> ReadsAt(s, q, k)
  {
    hide Lower, SameLetter;
    if k + |q| <= |s| {
      forall i | 0 <= i < |q|
        ensures Lower(q[i]) == Lower(s[k..k + |q|][i]) <==> SameLetter(q[i], s[k + i])
      {
        LowerMeans(q[i], s[k + i]);
      }
    }
  }

  // ---- the query as typed would not do ----

  predicate Plain(q: string) {
    forall i :: 0 <= i < |q| ==> !Special(q[i])
  }

  lemma {:induction false} PlainIsItsOwnEscape(q: string)
    requires Plain(q)
    ensures EscapeLike(q) == q
  {
    if q != [] {
      PlainIsItsOwnEscape(q[1..]);
    }
  }

  /** A text the pattern `q%` accepts: nothing for `%`, an `x` for `_`, the bare character for an escape. */
  function Witness(q: string): string
    decreases |q|
  {
    if q == [] then []
    else if q[0] == '%' then Witness(q[1..])
    else if q[0] == '_' then ['x'] + Witness(q[1..])
    else if q[0] == '\\' then if |q| == 1 then "%" else [q[1]] + Witness(q[2..])
    else [q[0]] + Witness(q[1..])
  }

  lemma {:induction false} WitnessMatches(q: string)
    ensures Matches(q + "%", Witness(q))
    decreases |q|
  {
    var p := q + "%";
    if q == [] {
    } else if q[0] == '\\' && |q| == 1 {
      assert p[1] == '%' && p[2..] == "" && Witness(q)[1..] == "";
    } else if q[0] == '\\' {
      WitnessMatches(q[2..]);
      assert p[2..] == q[2..] + "%" && Witness(q)[1..] == Witness(q[2..]);
    } else {
      WitnessMatches(q[1..]);
      assert p[1..] == q[1..] + "%";
      if q[0] != '%' {
        assert Witness(q)[1..] == Witness(q[1..]);
      }
    }
  }

  lemma {:induction false} WitnessDiffers(q: string)
    ensures |Witness(q)| <= |q|
    ensures SameUpToCase(q, Witness(q)) ==> Plain(q)
    decreases |q|
  {
    if q == [] {
    } else if q[0] == '\\' && |q| > 1 {
      WitnessDiffers(q[2..]);
    } else {
      WitnessDiffers(q[1..]);
      if SameUpToCase(q, Witness(q)) {
        var w := Witness(q);
        assert Lower(q[0]) == Lower(w[0]);
        assert w[1..] == Witness(q[1..]);
        forall i | 0 <= i < |q[1..]|
          ensures Lower(q[1..][i]) == Lower(w[1..][i])
        {
          assert Lower(q[i + 1]) == Lower(w[i + 1]);
        }
      }
    }
  }

  /** Without the escaping, the pattern means "contains the query" exactly when the query has none of
      the three special characters. */
  lemma EscapingNeededIff(q: string)
    ensures (forall s :: Matches("%" + q + "%", s) == Contains(s, q)) <==> Plain(q)
  {
    if Plain(q) {
      PlainIsItsOwnEscape(q);
      forall s
        ensures Matches("%" + q + "%", s) == Contains(s, q)
      {
        PatternFindsQuery(q, s);
      }
    } else {
      var w := Witness(q);
      WitnessMatches(q);
      WitnessDiffers(q);
      AnyPrefix(q + "%", w);
      assert w[0..] == w && "%" + (q + "%") == "%" + q + "%";
      assert Matches("%" + q + "%", w);
      forall k: nat
        ensures !FoundAt(w, q, k)
      {
        assert k == 0 && |w| == |q| ==> w[k..k + |q|] == w;
      }
    }
  }
}
