/** Batch file names and the next free number (`http/storage.rs`). */
module BatchFiles {
  import opened Digits

  const PREFIX := "batch-"
  const SUFFIX := ".msgpack"
  const BATCH_MAX: nat := 9999

  /** Rust's `str::parse::<u32>`, which takes a leading plus sign, on at most four characters. */
  function ParseU32(s: string): Option<nat> {
    var digits := if s != [] && s[0] == '+' then s[1..] else s;
    if digits == [] then None else Decimal(digits)
  }

  predicate HasSuffix(s: string, suffix: string) {
    |suffix| <= |s| && s[|s| - |suffix|..] == suffix
  }

  /** `batch-NNNN.msgpack` to its number; anything else is none. */
  function ParseBatchNumber(name: string): Option<nat> {
    if !HasSuffix(name, SUFFIX) then None
    else
      var stem := name[..|name| - |SUFFIX|];
      if !(PREFIX <= stem) then None
      else
        var digits := stem[|PREFIX|..];
        if |digits| != 4 then None else ParseU32(digits)
  }

  /** `{n:04}` for numbers up to the cap. */
  function FourDigits(n: nat): string
    requires n <= BATCH_MAX
  {
    [DigitChar(n / 1000), DigitChar(n / 100 % 10), DigitChar(n / 10 % 10), DigitChar(n % 10)]
  }

  function BatchName(n: nat): string
    requires n <= BATCH_MAX
  {
    PREFIX + FourDigits(n) + SUFFIX
  }

  lemma FourDigitsParse(n: nat)
    requires n <= BATCH_MAX
    ensures ParseU32(FourDigits(n)) == Some(n)
  {
    var s1 := [] + [DigitChar(n / 1000)];
    var s2 := s1 + [DigitChar(n / 100 % 10)];
    var s3 := s2 + [DigitChar(n / 10 % 10)];
    DecimalAppend([], n / 1000);
    DecimalAppend(s1, n / 100 % 10);
    DecimalAppend(s2, n / 10 % 10);
    DecimalAppend(s3, n % 10);
    assert s3 + [DigitChar(n % 10)] == FourDigits(n);
    Horner(n);
  }

  lemma Horner(n: nat)
    ensures 10 * (10 * (10 * (10 * 0 + n / 1000) + n / 100 % 10) + n / 10 % 10) + n % 10 == n
  {
    assert n / 100 == 10 * (n / 1000) + n / 100 % 10;
    assert n / 10 == 10 * (n / 100) + n / 10 % 10;
  }

  /** A name the collector writes reads back as its number. */
  lemma NameRoundTrip(n: nat)
    requires n <= BATCH_MAX
    ensures ParseBatchNumber(BatchName(n)) == Some(n)
  {
    var name, stem := BatchName(n), PREFIX + FourDigits(n);
    assert name == stem + SUFFIX;
    assert name[|name| - |SUFFIX|..] == SUFFIX && name[..|name| - |SUFFIX|] == stem;
    assert stem[|PREFIX|..] == FourDigits(n);
    FourDigitsParse(n);
  }

  /** So does one with a plus sign, which the collector never writes. */
  lemma PlusSignParses()
    ensures ParseBatchNumber("batch-+123.msgpack") == Some(123)
  {
    hide ParseU32;
    var stem := PREFIX + "+123";
    assert "batch-+123.msgpack" == stem + SUFFIX;
    assert (stem + SUFFIX)[|stem|..] == SUFFIX && (stem + SUFFIX)[..|stem|] == stem && stem[|PREFIX|..] == "+123";
    PlusDigits();
  }

  lemma PlusDigits()
    ensures ParseU32("+123") == Some(123)
  {
    hide Decimal;
    var one := [] + [DigitChar(1)];
    var two := one + [DigitChar(2)];
    assert Decimal([]) == Some(0) by { NoDigits(); }
    DecimalAppend([], 1);
    DecimalAppend(one, 2);
    DecimalAppend(two, 3);
    assert two + [DigitChar(3)] == "123" && "+123"[1..] == "123";
  }

  lemma NoDigits()
    ensures Decimal([]) == Some(0)
  {
  }

  /** The numbers a directory's entries stand for; entries that are not valid text or not batch names
      stand for none. */
  ghost function Numbers(entries: seq<Option<string>>): set<nat> {
    set i | 0 <= i < |entries| && entries[i].Some? && ParseBatchNumber(entries[i].value).Some? ::
      ParseBatchNumber(entries[i].value).value
  }

  /** `n` is one past the largest of `numbers`, or 1. */
  ghost predicate NextNumber(numbers: set<nat>, n: nat) {
    n >= 1 && (forall m :: m in numbers ==> m < n) && (n == 1 || n - 1 in numbers)
  }

  /** The scan picks the next number, and no entry has the name a batch of that number gets. */
  method NextBatchNumber(entries: seq<Option<string>>) returns (next: nat)
    ensures NextNumber(Numbers(entries), next)
    ensures next <= BATCH_MAX ==> Some(BatchName(next)) !in entries
  {
    var maxSeen := 0;
    var i := 0;
    while i < |entries|
      invariant 0 <= i <= |entries|
      invariant forall j :: 0 <= j < i && entries[j].Some? && ParseBatchNumber(entries[j].value).Some? ==>
        ParseBatchNumber(entries[j].value).value <= maxSeen
      invariant maxSeen == 0 ||
        exists j :: 0 <= j < i && entries[j].Some? && ParseBatchNumber(entries[j].value) == Some(maxSeen)
    {
      if entries[i].Some? {
        var n := ParseBatchNumber(entries[i].value);
        if n.Some? && n.value > maxSeen {
          maxSeen := n.value;
        }
      }
      i := i + 1;
    }
    next := maxSeen + 1;
    if next <= BATCH_MAX {
      NameRoundTrip(next);
    }
  }

  lemma {:induction false} DecimalBound(s: string)
    requires |s| <= 4
    ensures Decimal(s).Some? ==>
              Decimal(s).value < if |s| == 0 then 1 else if |s| == 1 then 10 else if |s| == 2 then 100
                                 else if |s| == 3 then 1000 else 10000
    decreases |s|
  {
    if s != [] {
      DecimalBound(s[..|s| - 1]);
    }
  }

  lemma DecimalLast(s: string, v: nat)
    requires s != [] && Decimal(s) == Some(v)
    ensures Decimal(s[..|s| - 1]) == Some(v / 10) && s[|s| - 1] == DigitChar(v % 10)
  {
  }

  /** A text of digits is the last of the four digits of its number, leading zeros included. */
  lemma DigitsBack(s: string, v: nat)
    requires |s| == 3 || |s| == 4
    requires Decimal(s) == Some(v)
    ensures v <= 9999 && (|s| == 4 ==> s == FourDigits(v)) && (|s| == 3 ==> v <= 999 && s == FourDigits(v)[1..])
  {
    hide Decimal;
    DecimalBound(s);
    var n := |s|;
    DecimalLast(s, v);
    DecimalLast(s[..n - 1], v / 10);
    DecimalLast(s[..n - 1][..n - 2], v / 10 / 10);
    assert s[..n - 1][..n - 2] == s[..n - 2] && s[..n - 2][..n - 3] == s[..n - 3];
    assert v / 10 / 10 == v / 100 && v / 100 / 10 == v / 1000;
    if n == 4 {
      DecimalLast(s[..1], v / 1000);
    }
  }

  lemma FourDigitsOfSmall(n: nat)
    requires n <= 999
    ensures Decimal(FourDigits(n)[1..]) == Some(n)
  {
    hide Decimal;
    var s1 := [] + [DigitChar(n / 100 % 10)];
    var s2 := s1 + [DigitChar(n / 10 % 10)];
    NoDigits();
    DecimalAppend([], n / 100 % 10);
    DecimalAppend(s1, n / 10 % 10);
    DecimalAppend(s2, n % 10);
    assert s2 + [DigitChar(n % 10)] == FourDigits(n)[1..];
    Horner(n);
  }

  lemma FramedParses(digits: string)
    requires |digits| == 4
    ensures ParseBatchNumber(PREFIX + digits + SUFFIX) == ParseU32(digits)
  {
    hide ParseU32;
    var name, stem := PREFIX + digits + SUFFIX, PREFIX + digits;
    assert name[|name| - |SUFFIX|..] == SUFFIX && name[..|name| - |SUFFIX|] == stem;
    assert stem[|PREFIX|..] == digits;
  }

  lemma ParsedIsFramed(name: string) returns (digits: string)
    requires ParseBatchNumber(name).Some?
    ensures |digits| == 4 && name == PREFIX + digits + SUFFIX && ParseBatchNumber(name) == ParseU32(digits)
  {
    hide ParseU32;
    var stem := name[..|name| - |SUFFIX|];
    digits := stem[|PREFIX|..];
    assert name == stem + SUFFIX && stem == PREFIX + digits;
  }

  lemma PlusOrDigits(digits: string, n: nat)
    requires |digits| == 4
    ensures ParseU32(digits) == Some(n) <==>
      n <= 9999 && (digits == FourDigits(n) || (n <= 999 && digits == "+" + FourDigits(n)[1..]))
  {
    hide Decimal;
    if ParseU32(digits) == Some(n) {
      if digits[0] == '+' {
        DigitsBack(digits[1..], n);
        assert digits == "+" + digits[1..];
      } else {
        DigitsBack(digits, n);
      }
    }
    if n <= 9999 && digits == FourDigits(n) {
      FourDigitsParse(n);
    }
    if n <= 999 && digits == "+" + FourDigits(n)[1..] {
      FourDigitsOfSmall(n);
      assert digits[1..] == FourDigits(n)[1..];
    }
  }

  /** The only names that stand for a number are the one the collector writes for it and, up to 999, the one with
      a plus sign for the leading zero. */
  lemma ParsesIff(name: string, n: nat)
    ensures ParseBatchNumber(name) == Some(n) <==>
      n <= 9999 && (name == "batch-" + FourDigits(n) + ".msgpack"
                    || (n <= 999 && name == "batch-+" + FourDigits(n)[1..] + ".msgpack"))
  {
    hide ParseBatchNumber, ParseU32, FourDigits;
    if n <= 9999 {
      FourLong(n);
    }
    if ParseBatchNumber(name) == Some(n) {
      var digits := ParsedIsFramed(name);
      PlusOrDigits(digits, n);
      if n <= 999 {
        assert PREFIX + ("+" + FourDigits(n)[1..]) == "batch-+" + FourDigits(n)[1..];
      }
    }
    if n <= 9999 && name == "batch-" + FourDigits(n) + ".msgpack" {
      NameRoundTrip(n);
    }
    if n <= 999 && name == "batch-+" + FourDigits(n)[1..] + ".msgpack" {
      var digits := "+" + FourDigits(n)[1..];
      assert PREFIX + digits == "batch-+" + FourDigits(n)[1..];
      FramedParses(digits);
      PlusOrDigits(digits, n);
    }
  }

  lemma FourLong(n: nat)
    requires n <= 9999
    ensures |FourDigits(n)| == 4
  {
  }
}
