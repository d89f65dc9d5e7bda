/**
 * The dirty-decimal cleaner (`clean_d`) and `to_boolean`, defined on nil,
 * Integer, BigDecimal and String.
 *
 * `String#clean_d` is a fixed chain of rewrites of a working copy followed by
 * two guards; each rewrite is a function here, `CleanValue` is the whole
 * chain, and the method `CleanString` is the step-by-step version with the
 * dot-collapsing loop.
 */
module CleanD {
  import opened Wrappers
  import opened Text
  import opened Decimal
  import opened Values

  const UNICODE_MINUS: char := '\U{2212}'

  // ---------------------------------------------------------------- steps

  /** A leading U+2212 turns every U+2212 of the string into '-'. */
  function NormalizeMinus(s: string): (r: string)
  {
    if s != [] && s[0] == UNICODE_MINUS then ReplaceAll(s, UNICODE_MINUS, '-') else s
  }

  /** With `comma_as_decimal` and no '.', every ',' becomes '.'. */
  function CommaToDot(s: string, commaAsDecimal: bool): (r: string)
  {
    if !Contains(s, '.') && commaAsDecimal then ReplaceAll(s, ',', '.') else s
  }

  /** `sub(c, '')`: removes the first occurrence of `c`. */
  function RemoveFirst(s: string, c: char): (r: string)
    ensures Count(s, c) > 0 ==> Count(r, c) == Count(s, c) - 1
    ensures Count(s, c) == 0 ==> r == s
  {
    if s == [] then []
    else if s[0] == c then s[1..]
    else [s[0]] + RemoveFirst(s[1..], c)
  }

  /** What removing the first '.' while more than one is left produces: only the last '.' survives. */
  function KeepLastDot(s: string): string
    decreases |s|
  {
    if Count(s, '.') <= 1 then s
    else if s[0] == '.' then KeepLastDot(s[1..])
    else [s[0]] + KeepLastDot(s[1..])
  }

  /** The characters of `s` other than '.', in order. */
  function Undotted(s: string): string {
    if s == [] then []
    else (if s[0] == '.' then [] else [s[0]]) + Undotted(s[1..])
  }

  /** `gsub(/\.$/, '')`: drops a '.' that ends the string or a line. */
  function DropLineEndDots(s: string): string {
    if s == [] then []
    else if s[0] == '.' && (|s| == 1 || s[1] == '\n') then DropLineEndDots(s[1..])
    else [s[0]] + DropLineEndDots(s[1..])
  }

  /** The class `[A-Za-z ]`. */
  predicate IsWordChar(c: char) {
    'A' <= c <= 'Z' || 'a' <= c <= 'z' || c == ' '
  }

  /** Length of the run of word characters that starts `s`. */
  function RunLength(s: string): (n: nat)
    ensures n <= |s|
    ensures forall i :: 0 <= i < n ==> IsWordChar(s[i])
    ensures n < |s| ==> !IsWordChar(s[n])
  {
    if s != [] && IsWordChar(s[0]) then 1 + RunLength(s[1..]) else 0
  }

  /** `gsub(/([A-Za-z ][A-Za-z ]+)/, '')`: every maximal run of two or more word characters goes. */
  function StripWords(s: string): string
    decreases |s|
  {
    if s == [] then []
    else if IsWordChar(s[0]) && RunLength(s) >= 2 then StripWords(s[RunLength(s)..])
    else [s[0]] + StripWords(s[1..])
  }

  predicate IsDigit(c: char) {
    '0' <= c <= '9'
  }

  predicate IsExponentMark(c: char) {
    c == 'e' || c == 'E'
  }

  /** The class `[-0-9.eE]`. */
  predicate IsNumericChar(c: char) {
    c == '-' || IsDigit(c) || c == '.' || IsExponentMark(c)
  }

  /** `gsub(/[^-0-9.eE]/, '')`. */
  function KeepNumeric(s: string): (r: string)
    ensures |r| <= |s|
    ensures forall i :: 0 <= i < |r| ==> IsNumericChar(r[i])
  {
    if s == [] then []
    else (if IsNumericChar(s[0]) then [s[0]] else []) + KeepNumeric(s[1..])
  }

  /** `downcase.count('e')`. */
  function ExponentMarks(s: string): nat {
    Count(Downcase(s), 'e')
  }

  /** The longest prefix of digits. */
  function LeadingDigits(s: string): (d: string)
    ensures |d| <= |s| && d == s[..|d|]
    ensures forall i :: 0 <= i < |d| ==> IsDigit(d[i])
    ensures |d| < |s| ==> !IsDigit(s[|d|])
  {
    if s != [] && IsDigit(s[0]) then [s[0]] + LeadingDigits(s[1..]) else []
  }

  /** `to_i` of a digit string. */
  function DigitsValue(d: string): nat
    requires forall i :: 0 <= i < |d| ==> IsDigit(d[i])
  {
    if d == [] then 0 else DigitOf(d[0]) * Pow10(|d| - 1) + DigitsValue(d[1..])
  }

  function DigitOf(c: char): (n: nat)
    requires IsDigit(c)
    ensures n <= 9
  {
    c as int - '0' as int
  }

  /**
   * `match(/e([0-9]+)/i).to_a.second.to_i`: the digits right after the first
   * exponent mark that has any, or 0 when there is none.
   */
  function ExponentDigits(s: string): nat
    decreases |s|
  {
    if |s| < 2 then 0
    else if IsExponentMark(s[0]) && IsDigit(s[1]) then DigitsValue(LeadingDigits(s[1..]))
    else ExponentDigits(s[1..])
  }

  /**
   * `String#to_d`: reads the longest prefix of the form
   * `-?digits(.digits)?([eE]-?digits)?` with at least one mantissa digit;
   * anything else reads as 0.
   */
  function ToD(s: string): real {
    if s != [] && s[0] == '-' then -UnsignedToD(s[1..]) else UnsignedToD(s)
  }

  function UnsignedToD(b: string): real {
    var whole := LeadingDigits(b);
    AfterWhole(whole, b[|whole|..])
  }

  function AfterWhole(whole: string, rest: string): real
    requires forall i :: 0 <= i < |whole| ==> IsDigit(whole[i])
  {
    if rest != [] && rest[0] == '.' then
      var frac := LeadingDigits(rest[1..]);
      Scaled(whole, frac, rest[1 + |frac|..])
    else Scaled(whole, [], rest)
  }

  /** The number `whole.frac` times ten to the exponent in `tail`; 0 without any mantissa digit. */
  function Scaled(whole: string, frac: string, tail: string): real
    requires forall i :: 0 <= i < |whole| ==> IsDigit(whole[i])
    requires forall i :: 0 <= i < |frac| ==> IsDigit(frac[i])
  {
    if |whole| + |frac| == 0 then 0.0
    else ApplyExponent(DigitsValue(whole + frac) as real / Pow10(|frac|) as real, ExponentOf(tail))
  }

  function ApplyExponent(m: real, e: int): real {
    if e >= 0 then m * Pow10(e) as real else m / Pow10(-e) as real
  }

  /** The exponent written at the start of `t`, 0 when there is none. */
  function ExponentOf(t: string): int {
    if |t| >= 2 && IsExponentMark(t[0]) && IsDigit(t[1]) then DigitsValue(LeadingDigits(t[1..]))
    else if |t| >= 3 && IsExponentMark(t[0]) && t[1] == '-' && IsDigit(t[2]) then -(DigitsValue(LeadingDigits(t[2..])) as int)
    else 0
  }

  // ---------------------------------------------------------------- the chain

  /** The working copy after every rewrite, before the guards. */
  function Scrubbed(s: string, commaAsDecimal: bool): string {
    KeepNumeric(StripWords(DropLineEndDots(KeepLastDot(CommaToDot(NormalizeMinus(s), commaAsDecimal)))))
  }

  /** The two guards: more than one exponent mark, or an exponent above 100. */
  predicate Rejected(cleaned: string) {
    ExponentMarks(cleaned) > 1 || ExponentDigits(cleaned) > 100
  }

  /** `String#clean_d`. */
  function CleanValue(s: string, commaAsDecimal: bool): real {
    if Blank(s) then 0.0
    else
      var cleaned := Scrubbed(s, commaAsDecimal);
      if Rejected(cleaned) then 0.0 else ToD(cleaned)
  }

  /** `clean_d` on nil, Integer, BigDecimal and String, the receivers that define it. */
  function CleanAny(v: Value, commaAsDecimal: bool): (r: real)
    requires v.Nil? || v.Int? || v.Dec? || v.Str?
    ensures v.Nil? ==> r == 0.0
    ensures v.Int? ==> r == v.i as real
    ensures v.Dec? ==> r == v.d
    ensures v.Str? ==> r == CleanValue(v.s, commaAsDecimal)
  {
    match v
    case Nil => 0.0
    case Int(i) => i as real
    case Dec(d) => d
    case Str(s) => CleanValue(s, commaAsDecimal)
  }

  /** The words that read as false, compared after `downcase`. */
  const FALSE_WORDS: seq<string> := ["0", "f", "false", "off"]

  /** `to_boolean` on nil, true/false, Integer, BigDecimal and String. */
  function ToBoolean(v: Value): bool
    requires v.Nil? || v.Bool? || v.Int? || v.Dec? || v.Str?
  {
    match v
    case Nil => false
    case Bool(b) => b
    case Int(i) => i != 0
    case Dec(d) => d != 0.0
    case Str(s) => Downcase(s) !in FALSE_WORDS
  }

  // ---------------------------------------------------------------- the method

  /** `String#clean_d`, rewriting a working copy step by step. */
  method CleanString(s: string, commaAsDecimal: bool) returns (r: real)
    ensures r == CleanValue(s, commaAsDecimal)
    ensures Blank(s) ==> r == 0.0
    ensures !Blank(s) && Rejected(Scrubbed(s, commaAsDecimal)) ==> r == 0.0
  {
    if Blank(s) {
      return 0.0;
    }
    var cleaned := s;
    if s[0] == UNICODE_MINUS {
      cleaned := ReplaceAll(cleaned, UNICODE_MINUS, '-');
    }
    cleaned := CommaToDot(cleaned, commaAsDecimal);
    ghost var beforeLoop := cleaned;
    while Count(cleaned, '.') > 1
      invariant KeepLastDot(cleaned) == KeepLastDot(beforeLoop)
      decreases Count(cleaned, '.')
    {
      KeepLastDotRemoveFirst(cleaned);
      cleaned := RemoveFirst(cleaned, '.');
    }
    cleaned := DropLineEndDots(cleaned);
    cleaned := StripWords(cleaned);
    cleaned := KeepNumeric(cleaned);
    if ExponentMarks(cleaned) > 1 {
      return 0.0;
    }
    if ExponentDigits(cleaned) > 100 {
      return 0.0;
    }
    r := ToD(cleaned);
  }

  // ---------------------------------------------------------------- lemmas

  /** One turn of the loop does not change where it ends up. */
  lemma {:induction false} KeepLastDotRemoveFirst(s: string)
    requires Count(s, '.') > 1
    ensures KeepLastDot(RemoveFirst(s, '.')) == KeepLastDot(s)
  {
    if s[0] != '.' {
      assert Count(s[1..], '.') == Count(s, '.');
      if Count(s, '.') > 2 {
        KeepLastDotRemoveFirst(s[1..]);
      } else {
        KeepLastDotRemoveFirst(s[1..]);
        assert Count(RemoveFirst(s[1..], '.'), '.') == 1;
      }
    }
  }

  /** After the loop at most one '.' is left, and exactly one if there was any; nothing else changes. */
  lemma {:induction false} KeepLastDotShape(s: string)
    ensures Count(KeepLastDot(s), '.') == (if Count(s, '.') == 0 then 0 else 1)
    ensures Undotted(KeepLastDot(s)) == Undotted(s)
    decreases |s|
  {
    if Count(s, '.') > 1 {
      KeepLastDotShape(s[1..]);
      if s[0] != '.' {
        assert [s[0]] + KeepLastDot(s[1..]) == KeepLastDot(s);
        assert ([s[0]] + KeepLastDot(s[1..]))[1..] == KeepLastDot(s[1..]);
      }
    }
  }

  /**
   * The '.' that survives is the last one: every earlier '.' is gone and
   * everything from the last '.' on is kept as it was.
   */
  lemma {:induction false} KeepLastDotKeepsLast(s: string, k: nat)
    requires k < |s| && s[k] == '.'
    requires forall j :: k < j < |s| ==> s[j] != '.'
    ensures KeepLastDot(s) == Undotted(s[..k]) + "." + s[k + 1..]
    decreases |s|
  {
    if Count(s, '.') <= 1 {
      forall j | 0 <= j < k
        ensures s[..k][j] != '.'
      {
        if s[j] == '.' {
          TwoOccurrences(s, j, k, '.');
        }
      }
      UndottedWithoutDots(s[..k]);
      assert s == s[..k] + "." + s[k + 1..];
    } else {
      if k == 0 {
        assert false;
      }
      KeepLastDotKeepsLast(s[1..], k - 1);
      assert s[1..][..k - 1] == s[1..k];
      assert s[1..][k..] == s[k + 1..];
      assert s[..k][1..] == s[1..k];
    }
  }

  /** Two occurrences of `c` make a count of at least two. */
  lemma TwoOccurrences(s: string, j: nat, k: nat, c: char)
    requires j < k < |s| && s[j] == c && s[k] == c
    ensures Count(s, c) >= 2
  {
    assert s == s[..j + 1] + s[j + 1..];
    CountAppend(s[..j + 1], s[j + 1..], c);
    assert s[..j + 1][j] == c;
    assert s[j + 1..][k - j - 1] == c;
  }

  /** Without a '.', dropping the dots changes nothing. */
  lemma {:induction false} UndottedWithoutDots(s: string)
    requires forall j :: 0 <= j < |s| ==> s[j] != '.'
    ensures Undotted(s) == s
  {
    if s != [] {
      UndottedWithoutDots(s[1..]);
    }
  }

  /** A word run that ends before the end of `a` does not reach into what follows. */
  lemma {:induction false} RunLengthBefore(a: string, b: string)
    requires a != [] && !IsWordChar(a[|a| - 1])
    ensures RunLength(a + b) == RunLength(a)
  {
    assert (a + b)[0] == a[0];
    if IsWordChar(a[0]) {
      assert (a + b)[1..] == a[1..] + b;
      RunLengthBefore(a[1..], b);
    }
  }

  /** The run-removal works piece by piece across a non-word character. */
  lemma {:induction false} StripWordsAppend(a: string, b: string)
    requires a == [] || !IsWordChar(a[|a| - 1])
    ensures StripWords(a + b) == StripWords(a) + StripWords(b)
    decreases |a|
  {
    if a == [] {
      assert a + b == b;
    } else {
      var s := a + b;
      assert s[0] == a[0];
      RunLengthBefore(a, b);
      var n := RunLength(a);
      if IsWordChar(a[0]) && n >= 2 {
        assert s[n..] == a[n..] + b;
        StripWordsAppend(a[n..], b);
      } else {
        assert s[1..] == a[1..] + b;
        StripWordsAppend(a[1..], b);
      }
    }
  }

  /** A run of two or more word characters goes entirely. */
  lemma StripWordsRun(w: string)
    requires |w| >= 2 && forall i :: 0 <= i < |w| ==> IsWordChar(w[i])
    ensures StripWords(w) == []
  {
    assert RunLength(w) == |w|;
  }

  /** Without a word character the run-removal changes nothing. */
  lemma {:induction false} StripWordsNone(s: string)
    requires forall i :: 0 <= i < |s| ==> !IsWordChar(s[i])
    ensures StripWords(s) == s
  {
    if s != [] {
      StripWordsNone(s[1..]);
    }
  }

  /** The numeric filter works piece by piece. */
  lemma {:induction false} KeepNumericAppend(a: string, b: string)
    ensures KeepNumeric(a + b) == KeepNumeric(a) + KeepNumeric(b)
  {
    if a == [] {
      assert a + b == b;
    } else {
      assert (a + b)[0] == a[0];
      assert (a + b)[1..] == a[1..] + b;
      KeepNumericAppend(a[1..], b);
    }
  }

  /** On numeric characters only, the filter changes nothing. */
  lemma {:induction false} KeepNumericNone(s: string)
    requires forall i :: 0 <= i < |s| ==> IsNumericChar(s[i])
    ensures KeepNumeric(s) == s
  {
    if s != [] {
      KeepNumericNone(s[1..]);
    }
  }

  /** Without a '.' at the end of the string or of a line, the line-end rewrite changes nothing. */
  lemma {:induction false} DropLineEndDotsNone(s: string)
    requires forall i :: 0 <= i < |s| && s[i] == '.' ==> i + 1 < |s| && s[i + 1] != '\n'
    ensures DropLineEndDots(s) == s
  {
    if s != [] {
      DropLineEndDotsNone(s[1..]);
    }
  }

  /** `to_d` of digits, a '.', digits and an optional exponent. */
  lemma {:induction false} UnsignedToDDecimal(whole: string, frac: string, tail: string)
    requires whole != [] && forall i :: 0 <= i < |whole| ==> IsDigit(whole[i])
    requires forall i :: 0 <= i < |frac| ==> IsDigit(frac[i])
    requires tail == [] || !IsDigit(tail[0])
    ensures UnsignedToD(whole + "." + frac + tail) == Scaled(whole, frac, tail)
  {
    var b := whole + "." + frac + tail;
    assert b == whole + ("." + frac + tail);
    LeadingDigitsOf(whole, "." + frac + tail);
    var rest := "." + frac + tail;
    assert b[|whole|..] == rest;
    assert rest[1..] == frac + tail;
    LeadingDigitsOf(frac, tail);
    assert rest[1 + |frac|..] == tail;
  }

  /** With nothing after the mantissa, the exponent is 0 and the mantissa stands. */
  lemma NoExponent(m: real)
    ensures ExponentOf("") == 0 && ApplyExponent(m, 0) == m
  {
    assert Pow10(0) == 1;
  }

  /** `to_d` of digits followed by an exponent or nothing. */
  lemma UnsignedToDWhole(whole: string, tail: string)
    requires whole != [] && forall i :: 0 <= i < |whole| ==> IsDigit(whole[i])
    requires tail == [] || (!IsDigit(tail[0]) && tail[0] != '.')
    ensures UnsignedToD(whole + tail) == Scaled(whole, [], tail)
  {
    LeadingDigitsOf(whole, tail);
    assert (whole + tail)[|whole|..] == tail;
  }

  /** The leading digits stop where the digits do. */
  lemma {:induction false} LeadingDigitsOf(d: string, rest: string)
    requires forall i :: 0 <= i < |d| ==> IsDigit(d[i])
    requires rest == [] || !IsDigit(rest[0])
    ensures LeadingDigits(d + rest) == d
  {
    if d != [] {
      assert (d + rest)[1..] == d[1..] + rest;
      LeadingDigitsOf(d[1..], rest);
    }
  }

  /** Without an exponent mark both guards stay quiet. */
  lemma NoExponentMark(s: string)
    requires forall i :: 0 <= i < |s| ==> !IsExponentMark(s[i])
    ensures ExponentMarks(s) == 0 && ExponentDigits(s) == 0
  {
    var d := Downcase(s);
    assert forall i :: 0 <= i < |d| ==> d[i] == LowerChar(s[i]);
    ExponentDigitsNone(s);
  }

  lemma {:induction false} ExponentDigitsNone(s: string)
    requires forall i :: 0 <= i < |s| ==> !IsExponentMark(s[i])
    ensures ExponentDigits(s) == 0
    decreases |s|
  {
    if |s| >= 2 {
      ExponentDigitsNone(s[1..]);
    }
  }

  /** The run-removal never leaves two word characters side by side. */
  lemma {:induction false} StripWordsNoAdjacentWordChars(s: string)
    ensures var r := StripWords(s);
            forall i :: 0 <= i < |r| - 1 ==> !(IsWordChar(r[i]) && IsWordChar(r[i + 1]))
    ensures var r := StripWords(s);
            r != [] && IsWordChar(r[0]) ==> s != [] && IsWordChar(s[0]) && (|s| == 1 || !IsWordChar(s[1]))
    decreases |s|
  {
    if s != [] {
      if IsWordChar(s[0]) && RunLength(s) >= 2 {
        StripWordsNoAdjacentWordChars(s[RunLength(s)..]);
      } else {
        StripWordsNoAdjacentWordChars(s[1..]);
        var r := StripWords(s);
        assert r == [s[0]] + StripWords(s[1..]);
        if IsWordChar(s[0]) {
          assert RunLength(s) == 1;
          assert |s| > 1 ==> !IsWordChar(s[1]);
        }
      }
    }
  }

  /** The spellings read as false: "0", and "f", "off" and "false" with each letter in either case. */
  predicate FalseSpelling(s: string) {
    || s == "0"
    || (|s| == 1 && s[0] in "fF")
    || (|s| == 3 && s[0] in "oO" && s[1] in "fF" && s[2] in "fF")
    || (|s| == 5 && s[0] in "fF" && s[1] in "aA" && s[2] in "lL" && s[3] in "sS" && s[4] in "eE")
  }

  /** `to_boolean` on a string is false for exactly the false spellings, and true for every other string. */
  lemma {:induction false} ToBooleanStrings(s: string)
    ensures !ToBoolean(Str(s)) <==> FalseSpelling(s)
  {
    var d := Downcase(s);
    forall i | 0 <= i < |s|
      ensures d[i] == '0' <==> s[i] == '0'
      ensures d[i] == 'f' <==> s[i] in "fF"
      ensures d[i] == 'o' <==> s[i] in "oO"
      ensures d[i] == 'a' <==> s[i] in "aA"
      ensures d[i] == 'l' <==> s[i] in "lL"
      ensures d[i] == 's' <==> s[i] in "sS"
      ensures d[i] == 'e' <==> s[i] in "eE"
    {
      assert d[i] == LowerChar(s[i]);
    }
    if d == "0" || d == "f" || d == "off" || d == "false" {
      assert d[0] == (if d == "0" then '0' else if d == "off" then 'o' else 'f');
    }
    if FalseSpelling(s) {
      if |s| == 1 {
        assert d == [d[0]];
      } else if |s| == 3 {
        assert d == [d[0], d[1], d[2]];
      } else {
        assert d == [d[0], d[1], d[2], d[3], d[4]];
      }
    }
  }

  /** `to_boolean` ignores ASCII case: upcasing the ASCII letters of a string does not change how it reads. */
  lemma {:induction false} ToBooleanIgnoresCase(s: string)
    ensures ToBoolean(Str(Upcase(s))) == ToBoolean(Str(s))
  {
    var u := Upcase(s);
    forall i | 0 <= i < |s|
      ensures LowerChar(u[i]) == LowerChar(s[i])
    {
      assert u[i] == UpperChar(s[i]);
    }
    assert Downcase(u) == Downcase(s);
  }

  /** "OFF" and "False" read as false, "no" and "2" as true. */
  lemma ToBooleanExamples()
    ensures !ToBoolean(Str("OFF")) && !ToBoolean(Str("False"))
    ensures ToBoolean(Str("no")) && ToBoolean(Str("2"))
  {
    assert Downcase("OFF") == "off";
    assert Downcase("False") == "false";
    assert Downcase("no") == "no";
    assert Downcase("2") == "2";
  }

  /** The minus rewrite applies only when U+2212 is the very first character. */
  lemma MinusOnlyWhenLeading(s: string)
    ensures s != [] && s[0] == UNICODE_MINUS ==>
              NormalizeMinus(s)[0] == '-' && !Contains(NormalizeMinus(s), UNICODE_MINUS)
    ensures (s == [] || s[0] != UNICODE_MINUS) ==> NormalizeMinus(s) == s
  {
  }

  /** With `comma_as_decimal` and no '.', every ',' becomes '.'; otherwise nothing changes. */
  lemma CommaRule(s: string, commaAsDecimal: bool)
    ensures commaAsDecimal && !Contains(s, '.') ==>
              !Contains(CommaToDot(s, commaAsDecimal), ',') &&
              Count(CommaToDot(s, commaAsDecimal), '.') == Count(s, ',')
    ensures !(commaAsDecimal && !Contains(s, '.')) ==> CommaToDot(s, commaAsDecimal) == s
  {
    if commaAsDecimal && !Contains(s, '.') {
      ReplaceCount(s, ',', '.');
    }
  }

  lemma {:induction false} ReplaceCount(s: string, a: char, b: char)
    requires a != b && Count(s, b) == 0
    ensures Count(ReplaceAll(s, a, b), b) == Count(s, a)
  {
    if s != [] {
      ReplaceCount(s[1..], a, b);
      assert ReplaceAll(s, a, b)[1..] == ReplaceAll(s[1..], a, b);
    }
  }

  /** No comma survives the character filter. */
  lemma CommasStripped(s: string, commaAsDecimal: bool)
    ensures !Contains(Scrubbed(s, commaAsDecimal), ',')
  {
  }

  /** More than one exponent mark cleans to zero. */
  lemma ManyExponentMarksAreZero(s: string, commaAsDecimal: bool)
    requires !Blank(s) && ExponentMarks(Scrubbed(s, commaAsDecimal)) > 1
    ensures CleanValue(s, commaAsDecimal) == 0.0
  {
  }
}

/** Worked inputs of `clean_d`, taken from the cases its comments name. */
module CleanDExamples {
  import opened Text
  import opened Decimal
  import opened CleanD

  // Each worked input, and each piece it is cut into, reaches its lemmas as a
  // parameter pinned by `requires`; only short literals are evaluated
  // outright, and the steps between them are the general lemmas below.

  predicate DigitString(d: string) {
    forall i :: 0 <= i < |d| ==> IsDigit(d[i])
  }

  // ---------------------------------------------------------------- general steps

  /** The three stages of `clean_d` put together. */
  lemma Reads(s: string, commaAsDecimal: bool, t: string, v: real)
    requires !Blank(s) && Scrubbed(s, commaAsDecimal) == t && !Rejected(t) && ToD(t) == v
    ensures CleanValue(s, commaAsDecimal) == v
  {
  }

  /** A quotient known by its product. */
  lemma Quotient(x: real, n: nat, p: nat, expected: real)
    requires p > 0 && x == n as real / p as real
    requires expected * p as real == n as real
    ensures x == expected
  {
  }

  /** `to_d` of a plain positive decimal "whole.frac": its digits `d` over the scale of the fraction. */
  lemma ReadDecimal(whole: string, frac: string, d: string)
    requires whole != [] && DigitString(whole) && DigitString(frac)
    requires d == whole + frac && DigitString(d)
    ensures var v := DigitsValue(d) as real / Pow10(|frac|) as real;
            ToD(whole + "." + frac) == v && UnsignedToD(whole + "." + frac) == v
  {
    var t := whole + "." + frac;
    assert t == whole + "." + frac + "";
    assert t[0] == whole[0];
    UnsignedToDDecimal(whole, frac, "");
    NoExponent(DigitsValue(d) as real / Pow10(|frac|) as real);
  }

  /** `to_d` of "whole.frac" from the value of its digits and the scale of its fraction. */
  lemma DecimalValue(t: string, whole: string, frac: string, d: string, n: nat, p: nat, v: real)
    requires whole != [] && DigitString(whole) && DigitString(frac)
    requires t == whole + "." + frac && d == whole + frac && DigitString(d)
    requires DigitsValue(d) == n && Pow10(|frac|) == p && v * p as real == n as real
    ensures ToD(t) == v
  {
    ReadDecimal(whole, frac, d);
    Quotient(ToD(t), n, p, v);
  }

  /** A plain numeral "whole.frac" goes through the late rewrites unchanged. */
  lemma Unchanged(whole: string, frac: string)
    requires DigitString(whole)
    requires frac != [] && DigitString(frac)
    ensures var t := whole + "." + frac;
            DropLineEndDots(t) == t && StripWords(t) == t && KeepNumeric(t) == t
  {
    var t := whole + "." + frac;
    forall i | 0 <= i < |t|
      ensures IsNumericChar(t[i]) && !IsWordChar(t[i])
      ensures t[i] == '.' ==> i + 1 < |t| && t[i + 1] != '\n'
    {
      if i < |whole| {
        assert t[i] == whole[i];
      } else if i > |whole| {
        assert t[i] == frac[i - |whole| - 1];
      } else {
        assert t[i + 1] == frac[0];
      }
    }
    DropLineEndDotsNone(t);
    StripWordsNone(t);
    KeepNumericNone(t);
  }

  /** A string with a single '.' keeps it through the dot loop. */
  lemma OneDot(s: string, k: nat)
    requires k < |s| && s[k] == '.'
    requires forall j :: 0 <= j < |s| && j != k ==> s[j] != '.'
    ensures KeepLastDot(s) == s
  {
    SingleDot(s, k);
  }

  lemma {:induction false} SingleDot(s: string, k: nat)
    requires k < |s| && s[k] == '.'
    requires forall j :: 0 <= j < |s| && j != k ==> s[j] != '.'
    ensures Count(s, '.') == 1
    decreases k
  {
    var b := s[1..];
    assert forall j :: 0 <= j < |b| ==> b[j] == s[j + 1];
    if k > 0 {
      SingleDot(b, k - 1);
    }
  }

  /** A trailing run of word characters after a non-word character goes entirely. */
  lemma WordsTail(t: string, w: string)
    requires t != [] && !IsWordChar(t[|t| - 1])
    requires |w| >= 2 && forall i :: 0 <= i < |w| ==> IsWordChar(w[i])
    ensures StripWords(t + w) == StripWords(t)
  {
    StripWordsAppend(t, w);
    StripWordsRun(w);
    assert StripWords(t) + [] == StripWords(t);
  }

  /** A lone word character, followed by a non-word character or nothing, is kept. */
  lemma LoneWordChar(c: char, b: string)
    requires IsWordChar(c) && (b == [] || !IsWordChar(b[0]))
    ensures StripWords([c] + b) == [c] + StripWords(b)
  {
    var s := [c] + b;
    assert s[0] == c && s[1..] == b;
    assert RunLength(s) == 1 by {
      if b != [] {
        assert s[1] == b[0];
      }
    }
  }

  /** Without a '.', the dot loop changes nothing. */
  lemma NoDots(s: string)
    requires forall i :: 0 <= i < |s| ==> s[i] != '.'
    ensures KeepLastDot(s) == s
  {
    assert Count(s, '.') == 0;
  }

  /** The value of a digit string is read in pieces. */
  lemma {:induction false} DigitsValueAppend(a: string, b: string)
    requires DigitString(a) && DigitString(b)
    ensures DigitString(a + b)
    ensures DigitsValue(a + b) == DigitsValue(a) * Pow10(|b|) + DigitsValue(b)
    decreases |a|
  {
    var s := a + b;
    forall i | 0 <= i < |s|
      ensures IsDigit(s[i])
    {
      if i < |a| {
        assert s[i] == a[i];
      } else {
        assert s[i] == b[i - |a|];
      }
    }
    if a == [] {
      assert s == b;
    } else {
      assert s[0] == a[0] && s[1..] == a[1..] + b;
      DigitsValueAppend(a[1..], b);
      var x := DigitOf(a[0]);
      var p := Pow10(|a| - 1);
      var q := Pow10(|b|);
      var r := DigitsValue(a[1..]);
      Pow10Add(|a| - 1, |b|);
      assert |s| - 1 == |a| - 1 + |b|;
      assert DigitsValue(s) == x * (p * q) + (r * q + DigitsValue(b));
      Regroup(x, p, q, r);
      assert DigitsValue(a) == x * p + r;
    }
  }

  lemma Regroup(x: int, p: int, q: int, r: int)
    ensures x * (p * q) + r * q == (x * p + r) * q
  {
  }

  // ---------------------------------------------------------------- -$1,012.13

  /** The currency case of the comments: "-$1,012.13" loses '$' and ',' and reads -1012.13. */
  lemma ExampleMoney(s: string)
    requires s == "-$1,012.13"
    ensures CleanValue(s, false) == -1012.13
  {
    var t := "-1012.13";
    MoneyScrubbed(s, t);
    MoneyAccepted(t);
    MoneyValue(t, "1012", "13", "101213");
    Reads(s, false, t, -1012.13);
  }

  lemma MoneyScrubbed(s: string, t: string)
    requires s == "-$1,012.13" && t == "-1012.13"
    ensures !Blank(s) && Scrubbed(s, false) == t
  {
    assert !IsSpace(s[0]);
    MoneyPrefix(s);
    MoneyLine(s);
    MoneyNumeric(s, "-$1,0", "12.13", t);
  }

  lemma MoneyPrefix(s: string)
    requires s == "-$1,012.13"
    ensures KeepLastDot(CommaToDot(NormalizeMinus(s), false)) == s
  {
    assert s[0] == '-';
    assert NormalizeMinus(s) == s;
    assert s[7] == '.';
    assert CommaToDot(s, false) == s;
    OneDot(s, 7);
  }

  lemma MoneyLine(s: string)
    requires s == "-$1,012.13"
    ensures StripWords(DropLineEndDots(s)) == s
  {
    DropLineEndDotsNone(s);
    StripWordsNone(s);
  }

  lemma MoneyNumeric(s: string, a: string, b: string, t: string)
    requires s == "-$1,012.13" && a == "-$1,0" && b == "12.13" && t == "-1012.13"
    ensures KeepNumeric(s) == t
  {
    assert s == a + b;
    KeepNumericAppend(a, b);
    MoneyNumericHead(a, "-10");
    KeepNumericNone(b);
    assert "-10" + b == t;
  }

  lemma MoneyNumericHead(a: string, r: string)
    requires a == "-$1,0" && r == "-10"
    ensures KeepNumeric(a) == r
  {
    MoneyNumericHeadValue();
  }

  lemma MoneyNumericHeadValue()
    ensures KeepNumeric("-$1,0") == "-10"
  {
  }

  lemma MoneyAccepted(t: string)
    requires t == "-1012.13"
    ensures !Rejected(t)
  {
    NoExponentMark(t);
  }

  lemma MoneyValue(t: string, whole: string, frac: string, d: string)
    requires t == "-1012.13" && whole == "1012" && frac == "13" && d == "101213"
    ensures ToD(t) == -1012.13
  {
    MoneySign(t, "1012.13");
    MoneyMagnitude("1012.13", whole, frac, d);
  }

  lemma MoneySign(t: string, u: string)
    requires t == "-1012.13" && u == "1012.13"
    ensures ToD(t) == -UnsignedToD(u)
  {
    assert t[0] == '-' && t[1..] == u;
  }

  lemma MoneyMagnitude(u: string, whole: string, frac: string, d: string)
    requires u == "1012.13" && whole == "1012" && frac == "13" && d == "101213"
    ensures UnsignedToD(u) == 1012.13
  {
    assert u == whole + "." + frac;
    ReadDecimal(whole, frac, d);
    Digits101213(d);
    assert |frac| == 2;
    assert Pow10(2) == 100;
    Quotient(UnsignedToD(u), 101213, 100, 1012.13);
  }

  lemma Digits101213(d: string)
    requires d == "101213" && DigitString(d)
    ensures DigitsValue(d) == 101213
  {
    Digits101213Value();
  }

  lemma Digits101213Value()
    ensures DigitsValue("101213") == 101213
  {
  }

  // ---------------------------------------------------------------- 7.456.12345687

  /** The comment on the dot loop: "7.456.12345687" keeps only its last '.' and reads 7456.12345687. */
  lemma ExampleExtraDots(s: string)
    requires s == "7.456.12345687"
    ensures CleanValue(s, false) == 7456.12345687
  {
    var t := "7456.12345687";
    ExtraDotsScrubbed(s, t);
    ExtraDotsAccepted(t);
    ExtraDotsValue(t, "7456", "12345687", "745612345687");
    Reads(s, false, t, 7456.12345687);
  }

  lemma ExtraDotsScrubbed(s: string, t: string)
    requires s == "7.456.12345687" && t == "7456.12345687"
    ensures !Blank(s) && Scrubbed(s, false) == t
  {
    assert !IsSpace(s[0]);
    assert s[0] != UNICODE_MINUS;
    ExtraDotsLoop(s, "7.456", "12345687", t);
    ExtraDotsLate(t, "7456", "12345687");
  }

  /** Only the dot at index 5 survives the loop. */
  lemma ExtraDotsLoop(s: string, p: string, q: string, t: string)
    requires s == "7.456.12345687" && p == "7.456" && q == "12345687" && t == "7456.12345687"
    ensures KeepLastDot(s) == t
  {
    assert s[5] == '.' && forall j :: 5 < j < |s| ==> s[j] != '.';
    KeepLastDotKeepsLast(s, 5);
    assert s[..5] == p && s[6..] == q;
    ExtraDotsUndotted(p, "7456");
    assert "7456" + "." + q == t;
  }

  lemma ExtraDotsUndotted(p: string, r: string)
    requires p == "7.456" && r == "7456"
    ensures Undotted(p) == r
  {
    ExtraDotsUndottedValue();
  }

  lemma ExtraDotsUndottedValue()
    ensures Undotted("7.456") == "7456"
  {
  }

  lemma ExtraDotsLate(t: string, whole: string, frac: string)
    requires t == "7456.12345687" && whole == "7456" && frac == "12345687"
    ensures KeepNumeric(StripWords(DropLineEndDots(t))) == t
  {
    assert t == whole + "." + frac;
    Unchanged(whole, frac);
  }

  lemma ExtraDotsAccepted(t: string)
    requires t == "7456.12345687"
    ensures !Rejected(t)
  {
    NoExponentMark(t);
  }

  lemma ExtraDotsValue(t: string, whole: string, frac: string, d: string)
    requires t == "7456.12345687" && whole == "7456" && frac == "12345687" && d == "745612345687"
    ensures ToD(t) == 7456.12345687
  {
    ExtraDotsParts(t, whole, frac, d);
    ExtraDotsDigits(d, whole, "1234", "5687");
    ExtraDotsScale(frac);
    DecimalValue(t, whole, frac, d, 745612345687, 100000000, 7456.12345687);
  }

  lemma ExtraDotsParts(t: string, whole: string, frac: string, d: string)
    requires t == "7456.12345687" && whole == "7456" && frac == "12345687" && d == "745612345687"
    ensures whole != [] && DigitString(whole) && DigitString(frac)
    ensures t == whole + "." + frac && d == whole + frac
  {
  }

  lemma ExtraDotsScale(frac: string)
    requires frac == "12345687"
    ensures Pow10(|frac|) == 100000000
  {
    assert |frac| == 8;
  }

  lemma ExtraDotsDigits(d: string, a: string, b: string, c: string)
    requires d == "745612345687" && a == "7456" && b == "1234" && c == "5687"
    ensures DigitString(d) && DigitsValue(d) == 745612345687
  {
    Digits4Values();
    assert DigitString(a) && DigitString(b) && DigitString(c);
    DigitsValueAppend(b, c);
    DigitsValueAppend(a, b + c);
    assert d == a + (b + c);
    assert Pow10(4) == 10000 && Pow10(8) == 100000000;
  }

  lemma Digits4Values()
    ensures DigitsValue("7456") == 7456 && DigitsValue("1234") == 1234 && DigitsValue("5687") == 5687
  {
  }

  // ---------------------------------------------------------------- -55e5

  /** The exponent case of the comments: "-55e5" keeps its single 'e' and reads -5500000. */
  lemma ExampleExponent(s: string)
    requires s == "-55e5"
    ensures CleanValue(s, false) == -5500000.0
  {
    ExponentScrubbed(s);
    ExponentAccepted(s);
    ExponentValue(s, "55e5");
    Reads(s, false, s, -5500000.0);
  }

  lemma ExponentScrubbed(s: string)
    requires s == "-55e5"
    ensures !Blank(s) && Scrubbed(s, false) == s
  {
    assert !IsSpace(s[0]) && s[0] != UNICODE_MINUS;
    assert forall i :: 0 <= i < |s| ==> s[i] != '.' && IsNumericChar(s[i]);
    NoDots(s);
    DropLineEndDotsNone(s);
    ExponentWords(s, "-55", "5");
    KeepNumericNone(s);
  }

  lemma ExponentWords(s: string, a: string, b: string)
    requires s == "-55e5" && a == "-55" && b == "5"
    ensures StripWords(s) == s
  {
    assert s == a + (['e'] + b);
    StripWordsAppend(a, ['e'] + b);
    StripWordsNone(a);
    LoneWordChar('e', b);
    StripWordsNone(b);
  }

  lemma ExponentAccepted(s: string)
    requires s == "-55e5"
    ensures !Rejected(s)
  {
    ExponentAcceptedValue();
  }

  lemma ExponentAcceptedValue()
    ensures ExponentMarks("-55e5") == 1 && ExponentDigits("-55e5") == 5
  {
  }

  lemma ExponentValue(s: string, u: string)
    requires s == "-55e5" && u == "55e5"
    ensures ToD(s) == -5500000.0
  {
    assert s[0] == '-' && s[1..] == u;
    assert u == "55" + "e5";
    UnsignedToDWhole("55", "e5");
    ExponentValueParts();
  }

  lemma ExponentValueParts()
    ensures Scaled("55", [], "e5") == 5500000.0
  {
    assert "55" + [] == "55" && Pow10(0) == 1;
    assert DigitsValue("55") == 55 && ExponentOf("e5") == 5 && Pow10(5) == 100000;
  }

  // ---------------------------------------------------------------- 1e-5 USD

  /** The unit case of the comments: "1e-5 USD" loses " USD", keeps its 'e' and reads 0.00001. */
  lemma ExampleUnit(s: string)
    requires s == "1e-5 USD"
    ensures CleanValue(s, false) == 0.00001
  {
    var t := "1e-5";
    UnitScrubbed(s, t);
    UnitAccepted(t);
    UnitValue(t);
    Reads(s, false, t, 0.00001);
  }

  lemma UnitScrubbed(s: string, t: string)
    requires s == "1e-5 USD" && t == "1e-5"
    ensures !Blank(s) && Scrubbed(s, false) == t
  {
    assert !IsSpace(s[0]) && s[0] != UNICODE_MINUS;
    assert forall i :: 0 <= i < |s| ==> s[i] != '.';
    NoDots(s);
    DropLineEndDotsNone(s);
    UnitWords(s, t, " USD");
    assert forall i :: 0 <= i < |t| ==> IsNumericChar(t[i]);
    KeepNumericNone(t);
  }

  lemma UnitWords(s: string, t: string, w: string)
    requires s == "1e-5 USD" && t == "1e-5" && w == " USD"
    ensures StripWords(s) == t
  {
    assert s == t + w;
    assert forall i :: 0 <= i < |w| ==> IsWordChar(w[i]);
    WordsTail(t, w);
    assert t == "1" + (['e'] + "-5");
    StripWordsAppend("1", ['e'] + "-5");
    StripWordsNone("1");
    LoneWordChar('e', "-5");
    StripWordsNone("-5");
  }

  lemma UnitAccepted(t: string)
    requires t == "1e-5"
    ensures !Rejected(t)
  {
    UnitAcceptedValue();
  }

  /** "e-5" is no match for `e([0-9]+)`: the second guard reads 0. */
  lemma UnitAcceptedValue()
    ensures ExponentMarks("1e-5") == 1 && ExponentDigits("1e-5") == 0
  {
  }

  lemma UnitValue(t: string)
    requires t == "1e-5"
    ensures ToD(t) == 0.00001
  {
    assert t == "1" + "e-5";
    UnsignedToDWhole("1", "e-5");
    UnitValueParts();
  }

  lemma UnitValueParts()
    ensures Scaled("1", [], "e-5") == 0.00001
  {
    assert "1" + [] == "1" && Pow10(0) == 1;
    assert DigitsValue("1") == 1 && ExponentOf("e-5") == -5 && Pow10(5) == 100000;
  }

  // ---------------------------------------------------------------- 89.612179480 Interzone

  /** The name case of the comments: "89.612179480 Interzone" loses the name, its 'e' included, and reads 89.61217948. */
  lemma ExampleName(s: string)
    requires s == "89.612179480 Interzone"
    ensures CleanValue(s, false) == 89.61217948
  {
    var t := "89.612179480";
    NameScrubbed(s, t);
    NameAccepted(t);
    NameValue(t, "89", "612179480", "89612179480");
    Reads(s, false, t, 89.61217948);
  }

  lemma NameScrubbed(s: string, t: string)
    requires s == "89.612179480 Interzone" && t == "89.612179480"
    ensures !Blank(s) && Scrubbed(s, false) == t
  {
    assert !IsSpace(s[0]) && s[0] != UNICODE_MINUS && s[2] == '.';
    NamePrefix(s);
    NameWords(s, t, " Interzone");
    NameLate(t, "89", "612179480");
    assert StripWords(s) == t;
  }

  lemma NamePrefix(s: string)
    requires s == "89.612179480 Interzone"
    ensures KeepLastDot(s) == s && DropLineEndDots(s) == s
  {
    assert forall j :: 0 <= j < |s| && j != 2 ==> s[j] != '.';
    OneDot(s, 2);
    DropLineEndDotsNone(s);
  }

  lemma NameWords(s: string, t: string, w: string)
    requires s == "89.612179480 Interzone" && t == "89.612179480" && w == " Interzone"
    ensures StripWords(s) == StripWords(t)
  {
    assert s == t + w;
    assert forall i :: 0 <= i < |w| ==> IsWordChar(w[i]);
    WordsTail(t, w);
  }

  lemma NameLate(t: string, whole: string, frac: string)
    requires t == "89.612179480" && whole == "89" && frac == "612179480"
    ensures StripWords(t) == t && KeepNumeric(t) == t
  {
    assert t == whole + "." + frac;
    Unchanged(whole, frac);
  }

  lemma NameAccepted(t: string)
    requires t == "89.612179480"
    ensures !Rejected(t)
  {
    NoExponentMark(t);
  }

  lemma NameValue(t: string, whole: string, frac: string, d: string)
    requires t == "89.612179480" && whole == "89" && frac == "612179480" && d == "89612179480"
    ensures ToD(t) == 89.61217948
  {
    NameParts(t, whole, frac, d);
    NameDigits(d, "8961", "2179", "480");
    NameScale(frac);
    DecimalValue(t, whole, frac, d, 89612179480, 1000000000, 89.61217948);
  }

  lemma NameParts(t: string, whole: string, frac: string, d: string)
    requires t == "89.612179480" && whole == "89" && frac == "612179480" && d == "89612179480"
    ensures whole != [] && DigitString(whole) && DigitString(frac)
    ensures t == whole + "." + frac && d == whole + frac
  {
  }

  lemma NameScale(frac: string)
    requires frac == "612179480"
    ensures Pow10(|frac|) == 1000000000
  {
    assert |frac| == 9;
  }

  lemma NameDigits(d: string, a: string, b: string, c: string)
    requires d == "89612179480" && a == "8961" && b == "2179" && c == "480"
    ensures DigitString(d) && DigitsValue(d) == 89612179480
  {
    NameDigitsValues();
    assert DigitString(a) && DigitString(b) && DigitString(c);
    DigitsValueAppend(b, c);
    DigitsValueAppend(a, b + c);
    assert d == a + (b + c);
    assert Pow10(3) == 1000 && Pow10(7) == 10000000;
  }

  lemma NameDigitsValues()
    ensures DigitsValue("8961") == 8961 && DigitsValue("2179") == 2179 && DigitsValue("480") == 480
  {
  }
}
