/**
  Python's text forms of integers, as far as the analysis core uses them:
  `str(n)`, `format(n, ',')` (comma thousands separators) and the parser
  behind `int(text)`.
*/
module PyNumbers {
  import opened Wrappers

  predicate IsDigit(c: char) {
    '0' <= c <= '9'
  }

  predicate AllDigits(s: string) {
    forall k :: 0 <= k < |s| ==> IsDigit(s[k])
  }

  function DigitChar(d: nat): (c: char)
    requires d < 10
    ensures IsDigit(c)
  {
    (d + '0' as int) as char
  }

  function DigitValue(c: char): (d: nat)
    requires IsDigit(c)
    ensures d < 10 && DigitChar(d) == c
  {
    c as int - '0' as int
  }

  /** The decimal digits of `n`, most significant first, without leading zeros. */
  function Digits(n: nat): string
  {
    if n < 10 then [DigitChar(n)] else Digits(n / 10) + [DigitChar(n % 10)]
  }

  /** `str(i)` for a Python int. */
  function Decimal(i: int): string
  {
    if i < 0 then "-" + Digits(-i) else Digits(i)
  }

  /** The number a run of decimal digits denotes. */
  function DigitsValue(s: string): nat
    requires AllDigits(s)
  {
    if s == [] then 0 else DigitsValue(s[..|s| - 1]) * 10 + DigitValue(s[|s| - 1])
  }

  lemma {:induction false} DigitsShape(n: nat)
    ensures 1 <= |Digits(n)| && AllDigits(Digits(n))
    ensures Digits(n)[0] == '0' <==> n == 0
    ensures n < 1000 ==> |Digits(n)| <= 3
  {
    if n >= 10 {
      DigitsShape(n / 10);
      assert Digits(n)[0] == Digits(n / 10)[0];
      if n < 100 {
        assert |Digits(n / 10)| == 1;
      } else if n < 1000 {
        assert |Digits(n / 10 / 10)| == 1;
      }
    }
  }

  /** Reading the digits back gives the number: `int(str(n)) == n` on digits. */
  lemma {:induction false} DigitsValueOfDigits(n: nat)
    ensures AllDigits(Digits(n)) && DigitsValue(Digits(n)) == n
  {
    DigitsShape(n);
    if n >= 10 {
      DigitsValueOfDigits(n / 10);
      var s := Digits(n);
      assert s[..|s| - 1] == Digits(n / 10);
    }
  }

  // ---------------------------------------------------------------------------
  // format(i, ','): comma thousands separators

  /** Exactly three digits, with leading zeros: the groups after the first. */
  function Pad3(r: nat): (s: string)
    requires r < 1000
    ensures |s| == 3 && AllDigits(s)
  {
    [DigitChar(r / 100), DigitChar(r / 10 % 10), DigitChar(r % 10)]
  }

  function Grouped(n: nat): string
  {
    if n < 1000 then Digits(n) else Grouped(n / 1000) + "," + Pad3(n % 1000)
  }

  /** `format(i, ',')` (the f-string `{i:,}`) for a Python int. */
  function FormatThousands(i: int): string
  {
    if i < 0 then "-" + Grouped(-i) else Grouped(i)
  }

  /** `s` with every occurrence of `c` removed. */
  function Without(s: string, c: char): string
  {
    if s == [] then [] else Without(s[..|s| - 1], c) + (if s[|s| - 1] == c then [] else [s[|s| - 1]])
  }

  lemma {:induction false} WithoutConcat(s: string, t: string, c: char)
    ensures Without(s + t, c) == Without(s, c) + Without(t, c)
  {
    if t != [] {
      WithoutConcat(s, t[..|t| - 1], c);
      assert (s + t)[..|s + t| - 1] == s + t[..|t| - 1];
    } else {
      assert s + t == s;
    }
  }

  lemma {:induction false} WithoutAbsent(s: string, c: char)
    requires c !in s
    ensures Without(s, c) == s
  {
    if s != [] {
      WithoutAbsent(s[..|s| - 1], c);
    }
  }

  /** Past three digits, the last three digits of `n` are those of `n % 1000`. */
  lemma DigitsSplit(n: nat)
    requires n >= 1000
    ensures Digits(n) == Digits(n / 1000) + Pad3(n % 1000)
  {
    var a, b, c := n / 10, n / 100, n / 1000;
    DigitsArithmetic(n);
    assert Digits(n) == Digits(a) + [DigitChar(n % 10)];
    assert Digits(a) == Digits(b) + [DigitChar(a % 10)];
    assert Digits(b) == Digits(c) + [DigitChar(b % 10)];
  }

  lemma DigitsArithmetic(n: nat)
    ensures n / 10 / 10 == n / 100 && n / 100 / 10 == n / 1000
    ensures n / 100 % 10 == n % 1000 / 100
    ensures n / 10 % 10 == n % 1000 / 10 % 10
    ensures n % 10 == n % 1000 % 10
  {
  }

  /** Removing the separators from the grouped form gives the plain digits. */
  lemma {:induction false} GroupedWithoutCommas(n: nat)
    ensures Without(Grouped(n), ',') == Digits(n)
  {
    DigitsShape(n);
    if n < 1000 {
      WithoutAbsent(Digits(n), ',');
    } else {
      var a, p := Grouped(n / 1000), Pad3(n % 1000);
      GroupedWithoutCommas(n / 1000);
      WithoutConcat(a + ",", p, ',');
      WithoutConcat(a, ",", ',');
      assert Without(",", ',') == [];
      assert ',' !in p by {
        assert IsDigit(p[0]) && IsDigit(p[1]) && IsDigit(p[2]);
      }
      WithoutAbsent(p, ',');
      DigitsSplit(n);
      assert Grouped(n) == a + "," + p;
    }
  }

  /** Commas exactly every fourth place counting from the end, digits elsewhere. */
  predicate CommaShaped(g: string) {
    && |g| >= 1
    && (forall k :: 0 <= k < |g| ==> (g[k] == ',' <==> k > 0 && (|g| - k) % 4 == 0))
    && (forall k :: 0 <= k < |g| ==> g[k] == ',' || IsDigit(g[k]))
  }

  /** Appending a comma and a three-digit group keeps the comma pattern. */
  lemma CommaShapedExtend(a: string, t: string)
    requires CommaShaped(a) && |t| == 3 && AllDigits(t)
    ensures CommaShaped(a + "," + t)
  {
    var g := a + "," + t;
    forall k | 0 <= k < |g|
      ensures (g[k] == ',' <==> k > 0 && (|g| - k) % 4 == 0)
      ensures g[k] == ',' || IsDigit(g[k])
    {
      if k < |a| {
        assert g[k] == a[k];
        ModShift(|a| - k);
      } else if k > |a| {
        assert g[k] == t[k - |a| - 1];
      }
    }
  }

  /** The separators stand every four characters from the right and nowhere
      else, so the first group holds one to three digits and every later
      group exactly three; everything that is not a separator is a digit. */
  lemma {:induction false} GroupedCommaPositions(n: nat)
    ensures |Grouped(n)| >= 1
    ensures forall k :: 0 <= k < |Grouped(n)| ==>
      (Grouped(n)[k] == ',' <==> k > 0 && (|Grouped(n)| - k) % 4 == 0)
    ensures forall k :: 0 <= k < |Grouped(n)| ==> Grouped(n)[k] == ',' || IsDigit(Grouped(n)[k])
  {
    if n >= 1000 {
      GroupedCommaPositions(n / 1000);
      assert CommaShaped(Grouped(n / 1000));
      CommaShapedExtend(Grouped(n / 1000), Pad3(n % 1000));
    } else {
      DigitsShape(n);
      assert CommaShaped(Grouped(n));
    }
  }

  lemma ModShift(x: int)
    ensures (x + 4) % 4 == x % 4
  {
  }

  lemma WithoutSign(t: string)
    ensures Without("-" + t, ',') == "-" + Without(t, ',')
  {
    WithoutConcat("-", t, ',');
    assert Without("-", ',') == Without([], ',') + "-";
  }

  /** Removing the separators from `format(i, ',')` gives `str(i)`. */
  lemma ThousandsWithoutCommas(i: int)
    ensures Without(FormatThousands(i), ',') == Decimal(i)
  {
    if i < 0 {
      var m: nat := -i;
      assert FormatThousands(i) == "-" + Grouped(m) && Decimal(i) == "-" + Digits(m);
      WithoutSign(Grouped(m));
      GroupedWithoutCommas(m);
    } else {
      GroupedWithoutCommas(i);
    }
  }

  // ---------------------------------------------------------------------------
  // int(text)

  /** The whitespace `int()` strips around a literal: among ASCII characters
      only tab, newline, vertical tab, form feed, carriage return and space
      (the separators U+001C to U+001F are refused, though `str.isspace()`
      accepts them), and beyond ASCII every Unicode space. */
  predicate IsPySpace(c: char) {
    || '\t' <= c <= '\r'
    || c == ' ' || c == '\U{85}' || c == '\U{A0}' || c == '\U{1680}'
    || '\U{2000}' <= c <= '\U{200A}'
    || c == '\U{2028}' || c == '\U{2029}' || c == '\U{202F}' || c == '\U{205F}' || c == '\U{3000}'
  }

  function StripLeft(s: string): (r: string)
    ensures r == [] || !IsPySpace(r[0])
  {
    if s != [] && IsPySpace(s[0]) then StripLeft(s[1..]) else s
  }

  function StripRight(s: string): (r: string)
    ensures r == [] || !IsPySpace(r[|r| - 1])
  {
    if s != [] && IsPySpace(s[|s| - 1]) then StripRight(s[..|s| - 1]) else s
  }

  function Strip(s: string): string {
    StripRight(StripLeft(s))
  }

  /** Digits with single underscores between them, the body Python's `int` accepts. */
  predicate DigitRun(b: string) {
    && |b| > 0
    && IsDigit(b[0])
    && IsDigit(b[|b| - 1])
    && (forall k :: 0 <= k < |b| ==> IsDigit(b[k]) || b[k] == '_')
    && (forall k :: 0 <= k < |b| - 1 ==> b[k] != '_' || b[k + 1] != '_')
  }

  lemma DigitRunWithoutUnderscores(b: string)
    requires DigitRun(b)
    ensures AllDigits(Without(b, '_'))
  {
    var w := Without(b, '_');
    forall k | 0 <= k < |w|
      ensures IsDigit(w[k])
    {
      var j := WithoutOrigin(b, '_', k);
    }
  }

  /** Every character left by `Without` comes from the input and is not the removed one. */
  lemma {:induction false} WithoutOrigin(s: string, c: char, k: nat) returns (j: nat)
    requires k < |Without(s, c)|
    ensures j < |s| && s[j] == Without(s, c)[k] && s[j] != c
  {
    var p := s[..|s| - 1];
    if k < |Without(p, c)| {
      j := WithoutOrigin(p, c, k);
    } else {
      j := |s| - 1;
    }
  }

  /** `int(text)` in base 10: `None` is the ValueError. Surrounding spaces are
      stripped, then an optional sign, then a digit run; leading zeros are allowed. */
  function ParseIntLiteral(text: string): Option<int>
  {
    ParseSigned(Strip(text))
  }

  /** An optional sign followed by a digit run, nothing around it. */
  function ParseSigned(t: string): Option<int>
  {
    if t == [] then None
    else
      var body := if t[0] == '-' || t[0] == '+' then t[1..] else t;
      match ParseRun(body)
      case None => None
      case Some(m) => Some(if t[0] == '-' then -m else m)
  }

  /** The default of `sys.get_int_max_str_digits()`: `int(text)` refuses a
      literal of more decimal digits than this with a ValueError. Underscores
      and the sign do not count; leading zeros do. */
  const MaxStrDigits: nat := 4300

  /** The number of digits `str(i)` writes, the sign left out. */
  function DigitCount(i: int): nat {
    |Digits(if i < 0 then -i else i)|
  }

  /** `int("\x1c5")` raises: the separator is not stripped. */
  lemma SeparatorNotStripped()
    ensures ParseIntLiteral("\U{1C}5") == None
  {
    var t := "\U{1C}5";
    assert !IsPySpace(t[0]) && !IsPySpace(t[1]);
    StripUnspaced(t);
    assert !IsDigit(t[0]);
    assert t[0] != '-' && t[0] != '+';
    assert !DigitRun(t);
  }

  /** `int(" 5\n")` is 5: ASCII whitespace around the digits is stripped. */
  lemma SpacesStripped()
    ensures ParseIntLiteral(" 5\n") == Some(5)
  {
    assert StripLeft(" 5\n") == StripLeft("5\n") == "5\n";
    assert StripRight("5\n") == StripRight("5") == "5";
    ParseRunDigits(5);
    assert Digits(5) == "5";
  }

  /** A digit run read as a number, unless it has too many digits. */
  function ParseRun(body: string): Option<int>
  {
    if !DigitRun(body) || |Without(body, '_')| > MaxStrDigits then None
    else
      DigitRunWithoutUnderscores(body);
      Some(DigitsValue(Without(body, '_')))
  }

  lemma StripUnspaced(s: string)
    requires s != [] && !IsPySpace(s[0]) && !IsPySpace(s[|s| - 1])
    ensures Strip(s) == s
  {
  }

  lemma ParseRunDigits(n: nat)
    ensures ParseRun(Digits(n)) == if |Digits(n)| <= MaxStrDigits then Some(n) else None
  {
    DigitsShape(n);
    DigitsValueOfDigits(n);
    WithoutAbsent(Digits(n), '_');
    var d := Digits(n);
    assert DigitRun(d) by {
      assert IsDigit(d[0]) && IsDigit(d[|d| - 1]);
    }
  }

  lemma ParseSignedRun(d: string)
    requires d != [] && IsDigit(d[0])
    ensures ParseSigned(d) == ParseRun(d)
    ensures ParseSigned("-" + d) == if ParseRun(d).Some? then Some(-ParseRun(d).value) else None
  {
    assert ("-" + d)[0] == '-' && ("-" + d)[1..] == d;
  }

  /** `int(str(i)) == i` for an int of at most `MaxStrDigits` digits; a longer
      one is refused. */
  lemma ParseDecimal(i: int)
    ensures ParseIntLiteral(Decimal(i)) == if DigitCount(i) <= MaxStrDigits then Some(i) else None
  {
    if i < 0 {
      ParseNegative(-i);
    } else {
      ParseNatural(i);
    }
  }

  lemma ParseNatural(m: nat)
    ensures ParseIntLiteral(Digits(m)) == if |Digits(m)| <= MaxStrDigits then Some(m) else None
  {
    var d := Digits(m);
    DigitsShape(m);
    ParseRunDigits(m);
    ParseSignedRun(d);
    ParseLiteralOf(d);
  }

  lemma ParseNegative(m: nat)
    requires m > 0
    ensures ParseIntLiteral("-" + Digits(m)) == if |Digits(m)| <= MaxStrDigits then Some(-(m as int)) else None
  {
    var d := Digits(m);
    DigitsShape(m);
    ParseRunDigits(m);
    assert IsDigit(d[0]) && IsDigit(d[|d| - 1]);
    if |d| <= MaxStrDigits {
      NegativeLiteral(d, m);
    } else {
      NegativeLiteralRefused(d);
    }
  }

  /** A minus sign and a digit run: the run's value negated. */
  lemma NegativeLiteral(d: string, v: int)
    requires d != [] && IsDigit(d[0]) && IsDigit(d[|d| - 1]) && ParseRun(d) == Some(v)
    ensures ParseIntLiteral("-" + d) == Some(-v)
  {
    var s := "-" + d;
    assert s[0] == '-' && s[1..] == d && s[|s| - 1] == d[|d| - 1];
    ParseLiteralOf(s);
  }

  lemma NegativeLiteralRefused(d: string)
    requires d != [] && IsDigit(d[0]) && IsDigit(d[|d| - 1]) && ParseRun(d) == None
    ensures ParseIntLiteral("-" + d) == None
  {
    var s := "-" + d;
    assert s[0] == '-' && s[1..] == d && s[|s| - 1] == d[|d| - 1];
    ParseLiteralOf(s);
  }

  /** Text with no space at either end is parsed as it stands. */
  lemma ParseLiteralOf(s: string)
    requires s != [] && (s[0] == '-' || IsDigit(s[0])) && IsDigit(s[|s| - 1])
    ensures ParseIntLiteral(s) == ParseSigned(s)
  {
    StripUnspaced(s);
  }

  /** `int(text)` reads what `format(i, ',')` wrote, once the commas are gone. */
  lemma ParseThousands(i: int)
    ensures ParseIntLiteral(Without(FormatThousands(i), ',')) ==
            if DigitCount(i) <= MaxStrDigits then Some(i) else None
  {
    ThousandsWithoutCommas(i);
    ParseDecimal(i);
  }
}
