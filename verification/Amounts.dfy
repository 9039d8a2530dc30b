/**
 Seven-decimal amounts: an exact parser and printer between decimal strings and integer stroops, and the split
 that has to match the contract's.
 */
module Amounts {
  import opened BondInvariant
  import opened BondSpec
  import opened BondTypes
  import opened Wrappers

  const AMOUNT_DECIMALS: nat := 7

  const ONE_UNIT_IN_STROOPS: int := 10_000_000

  // ----- Digits -----

  predicate IsDigit(c: char) {
    '0' <= c <= '9'
  }

  predicate AllDigits(s: string) {
    forall i :: 0 <= i < |s| ==> IsDigit(s[i])
  }

  function DigitOf(c: char): nat
    requires IsDigit(c)
  {
    c as int - '0' as int
  }

  function CharOf(d: nat): (c: char)
    requires d < 10
    ensures IsDigit(c) && DigitOf(c) == d
  {
    ('0' as int + d) as char
  }

  /** BigInt of a digit string; the empty string is zero. */
  function Value(s: string): nat
    requires AllDigits(s)
  {
    if s == "" then 0 else 10 * Value(s[..|s| - 1]) + DigitOf(s[|s| - 1])
  }

  /** The decimal digits of a number, without leading zeros. */
  function Digits(n: nat): (s: string)
    ensures AllDigits(s) && s != "" && Value(s) == n
    ensures s[0] == '0' ==> n == 0 && s == "0"
  {
    if n < 10 then
      assert [CharOf(n)][..0] == "";
      [CharOf(n)]
    else
      var front := Digits(n / 10);
      var s := front + [CharOf(n % 10)];
      assert s[..|s| - 1] == front;
      s
  }

  function Zeros(n: nat): (z: string)
    ensures |z| == n && AllDigits(z) && forall i :: 0 <= i < n ==> z[i] == '0'
  {
    seq(n, _ => '0')
  }

  function Pow10(n: nat): (p: nat)
    ensures p > 0
  {
    if n == 0 then 1 else 10 * Pow10(n - 1)
  }

  function PadEnd(s: string, n: nat): string {
    if |s| < n then s + Zeros(n - |s|) else s
  }

  function PadStart(s: string, n: nat): string {
    if |s| < n then Zeros(n - |s|) + s else s
  }

  /** Without its trailing zeros. */
  function StripZeros(s: string): (t: string)
    ensures t <= s && (t == "" || t[|t| - 1] != '0')
    ensures forall i :: |t| <= i < |s| ==> s[i] == '0'
  {
    if s != "" && s[|s| - 1] == '0' then StripZeros(s[..|s| - 1]) else s
  }

  /** The white space and line terminators that trim removes. */
  predicate IsSpace(c: char) {
    || '\U{9}' <= c <= '\U{D}' || c == ' ' || c == '\U{A0}' || c == '\U{1680}' || '\U{2000}' <= c <= '\U{200A}'
    || c == '\U{2028}' || c == '\U{2029}' || c == '\U{202F}' || c == '\U{205F}' || c == '\U{3000}' || c == '\U{FEFF}'
  }

  function Trim(s: string): string {
    if s != "" && IsSpace(s[0]) then Trim(s[1..])
    else if s != "" && IsSpace(s[|s| - 1]) then Trim(s[..|s| - 1])
    else s
  }

  // ----- Parsing -----

  datatype AmountError = Empty | NotADecimal | TooManyDecimals

  function Unsigned(s: string): string {
    if s != "" && (s[0] == '-' || s[0] == '+') then s[1..] else s
  }

  /** The first dot, or the end of the string. */
  function DotIndex(s: string): (n: nat)
    ensures n <= |s| && (forall i :: 0 <= i < n ==> s[i] != '.') && (n < |s| ==> s[n] == '.')
  {
    if s == "" || s[0] == '.' then 0 else 1 + DotIndex(s[1..])
  }

  function WholePart(s: string): string {
    s[..DotIndex(s)]
  }

  function FractionPart(s: string): string {
    if DotIndex(s) == |s| then "" else s[DotIndex(s) + 1..]
  }

  /** An optional sign, digits, and optionally a dot with more digits. */
  predicate IsDecimal(s: string) {
    var u := Unsigned(s);
    && WholePart(u) != "" && AllDigits(WholePart(u))
    && AllDigits(FractionPart(u))
    && (DotIndex(u) < |u| ==> FractionPart(u) != "")
  }

  lemma PadEndDigits(s: string, n: nat)
    requires AllDigits(s)
    ensures AllDigits(PadEnd(s, n))
  {}

  /** The stroops of a sign, whole digits and at most seven fraction digits. */
  function Stroops(negative: bool, whole: string, fraction: string): Result<int, AmountError>
    requires AllDigits(whole) && AllDigits(fraction)
  {
    if |fraction| > AMOUNT_DECIMALS then Err(TooManyDecimals)
    else
      PadEndDigits(fraction, AMOUNT_DECIMALS);
      var magnitude := Value(whole) * ONE_UNIT_IN_STROOPS + Value(PadEnd(fraction, AMOUNT_DECIMALS));
      Ok(if negative then -magnitude else magnitude)
  }

  function ToStroops(display: string): Result<int, AmountError> {
    var trimmed := Trim(display);
    if trimmed == "" then Err(Empty)
    else if !IsDecimal(trimmed) then Err(NotADecimal)
    else
      var u := Unsigned(trimmed);
      Stroops(trimmed[0] == '-', WholePart(u), FractionPart(u))
  }

  function Body(whole: string, fraction: string): string {
    if fraction == "" then whole else whole + "." + fraction
  }

  /** A sign if there is one, the whole part, and a fraction if there is one. */
  function Printed(negative: bool, whole: string, fraction: string): string {
    var body := Body(whole, fraction);
    if negative then "-" + body else body
  }

  function FromStroops(v: int): string {
    var magnitude := if v < 0 then -v else v;
    var fraction := PadStart(Digits(magnitude % ONE_UNIT_IN_STROOPS), AMOUNT_DECIMALS);
    Printed(v < 0, Digits(magnitude / ONE_UNIT_IN_STROOPS), StripZeros(fraction))
  }

  // ----- What a decimal string denotes -----

  /** The number a decimal string stands for, independent of how it is parsed. */
  function Denotes(s: string): real
    requires IsDecimal(s)
  {
    var u := Unsigned(s);
    var magnitude := Value(WholePart(u)) as real + Value(FractionPart(u)) as real / Pow10(|FractionPart(u)|) as real;
    if s[0] == '-' then -magnitude else magnitude
  }

  lemma Tenfold(x: nat, y: nat)
    ensures 10 * (x * y) == x * (10 * y)
  {}

  /** The digit that is put behind a string counts one, and the string ten. */
  lemma ValueOfAppend(s: string, c: char)
    requires AllDigits(s) && IsDigit(c)
    ensures AllDigits(s + [c]) && Value(s + [c]) == 10 * Value(s) + DigitOf(c)
  {
    assert (s + [c])[..|s|] == s;
  }

  lemma {:induction false} ValueOfConcat(s: string, t: string)
    requires AllDigits(s) && AllDigits(t)
    ensures AllDigits(s + t) && Value(s + t) == Value(s) * Pow10(|t|) + Value(t)
    decreases |t|
  {
    if t == "" {
      assert s + t == s;
    } else {
      var front, last := t[..|t| - 1], t[|t| - 1];
      ValueOfConcat(s, front);
      assert s + t == (s + front) + [last];
      assert t == front + [last];
      ValueOfAppend(s + front, last);
      assert Value(s) * Pow10(|t|) == 10 * (Value(s) * Pow10(|front|)) by {
        Tenfold(Value(s), Pow10(|front|));
      }
    }
  }

  lemma {:induction false} ValueOfZeros(n: nat)
    ensures Value(Zeros(n)) == 0
  {
    if n > 0 {
      assert Zeros(n)[..n - 1] == Zeros(n - 1);
      ValueOfZeros(n - 1);
    }
  }

  lemma ValueOfPadEnd(s: string, n: nat)
    requires AllDigits(s) && |s| <= n
    ensures AllDigits(PadEnd(s, n)) && Value(PadEnd(s, n)) == Value(s) * Pow10(n - |s|)
  {
    if |s| < n {
      ValueOfConcat(s, Zeros(n - |s|));
      ValueOfZeros(n - |s|);
    }
  }

  lemma ValueOfPadStart(s: string, n: nat)
    requires AllDigits(s)
    ensures AllDigits(PadStart(s, n)) && Value(PadStart(s, n)) == Value(s)
  {
    if |s| < n {
      ValueOfConcat(Zeros(n - |s|), s);
      ValueOfZeros(n - |s|);
    }
  }

  lemma {:induction false} PowSum(a: nat, b: nat)
    ensures Pow10(a + b) == Pow10(a) * Pow10(b)
    decreases a
  {
    if a > 0 {
      PowSum(a - 1, b);
      assert Pow10(a) * Pow10(b) == 10 * (Pow10(a - 1) * Pow10(b));
    }
  }

  lemma SevenDecimals()
    ensures Pow10(AMOUNT_DECIMALS) == ONE_UNIT_IN_STROOPS
  {
    assert Pow10(1) == 10 && Pow10(2) == 100 && Pow10(3) == 1000 && Pow10(4) == 10_000;
    assert Pow10(5) == 100_000 && Pow10(6) == 1_000_000;
  }

  /** Scaling a fraction to stroops in one step or through its padding. */
  lemma FractionScales(fraction: nat, d: nat)
    requires d <= AMOUNT_DECIMALS
    ensures (fraction as real / Pow10(d) as real) * ONE_UNIT_IN_STROOPS as real
         == (fraction * Pow10(AMOUNT_DECIMALS - d)) as real
  {
    SevenDecimals();
    PowSum(d, AMOUNT_DECIMALS - d);
    var p, q := Pow10(d) as real, Pow10(AMOUNT_DECIMALS - d) as real;
    assert (Pow10(d) * Pow10(AMOUNT_DECIMALS - d)) as real == p * q;
    assert (fraction * Pow10(AMOUNT_DECIMALS - d)) as real == fraction as real * q;
    assert (fraction as real / p) * (p * q) == fraction as real * q;
  }

  lemma Distributes(x: real, y: real, z: real)
    ensures (x + y) * z == x * z + y * z
  {}

  lemma SumAsReal(x: nat, y: nat)
    ensures (x + y) as real == x as real + y as real
  {}

  /** A whole part and a fraction of d digits, scaled to stroops. */
  lemma PartsScale(whole: nat, fraction: nat, d: nat)
    requires d <= AMOUNT_DECIMALS
    ensures (whole as real + fraction as real / Pow10(d) as real) * ONE_UNIT_IN_STROOPS as real
         == (whole * ONE_UNIT_IN_STROOPS + fraction * Pow10(AMOUNT_DECIMALS - d)) as real
  {
    FractionScales(fraction, d);
    Distributes(whole as real, fraction as real / Pow10(d) as real, ONE_UNIT_IN_STROOPS as real);
    SumAsReal(whole * ONE_UNIT_IN_STROOPS, fraction * Pow10(AMOUNT_DECIMALS - d));
  }

  lemma Negated(x: real, y: real)
    ensures (-x) * y == -(x * y)
  {}

  /** What Stroops computes is the magnitude its parts stand for, with the sign. */
  lemma StroopsAreExact(negative: bool, whole: string, fraction: string)
    requires AllDigits(whole) && AllDigits(fraction) && |fraction| <= AMOUNT_DECIMALS
    ensures var magnitude := Value(whole) as real + Value(fraction) as real / Pow10(|fraction|) as real;
      && Stroops(negative, whole, fraction).Ok?
      && Stroops(negative, whole, fraction).value as real ==
         (if negative then -magnitude else magnitude) * ONE_UNIT_IN_STROOPS as real
  {
    ValueOfPadEnd(fraction, AMOUNT_DECIMALS);
    PartsScale(Value(whole), Value(fraction), |fraction|);
    Negated(Value(whole) as real + Value(fraction) as real / Pow10(|fraction|) as real, ONE_UNIT_IN_STROOPS as real);
  }

  /**
   The parser is exact: it accepts precisely the decimal literals of at most seven decimals, and what it returns is
   the number they denote, in stroops, with nothing rounded.
   */
  lemma ParsesExactly(display: string)
    ensures var s := Trim(display);
      && (ToStroops(display).Ok? <==> s != "" && IsDecimal(s) && |FractionPart(Unsigned(s))| <= AMOUNT_DECIMALS)
      && (ToStroops(display).Ok? ==> ToStroops(display).value as real == Denotes(s) * ONE_UNIT_IN_STROOPS as real)
  {
    var s := Trim(display);
    if ToStroops(display).Ok? {
      var u := Unsigned(s);
      StroopsAreExact(s[0] == '-', WholePart(u), FractionPart(u));
    }
  }

  // ----- Which texts are accepted -----

  /** The white space and line terminators of the language, by code point. */
  lemma WhiteSpaceIsExact(c: char)
    ensures IsSpace(c) <==>
      || c as int in {9, 10, 11, 12, 13, 32, 160, 0x1680, 0x2028, 0x2029, 0x202F, 0x205F, 0x3000, 0xFEFF}
      || 0x2000 <= c as int <= 0x200A
  {}

  predicate AllSpaces(s: string) {
    forall i :: 0 <= i < |s| ==> IsSpace(s[i])
  }

  /** Nothing to trim at either end. */
  predicate IsTrimmed(s: string) {
    s == "" || (!IsSpace(s[0]) && !IsSpace(s[|s| - 1]))
  }

  /** Only white space around a text is cut off, and all of it. */
  lemma {:induction false} TrimsExactly(before: string, text: string, after: string)
    requires AllSpaces(before) && AllSpaces(after) && IsTrimmed(text)
    ensures Trim(before + text + after) == text
    decreases |before| + |after|
  {
    var s := before + text + after;
    if before != "" {
      assert s[1..] == before[1..] + text + after;
      TrimsExactly(before[1..], text, after);
    } else if after != "" {
      if text == "" {
        assert s[1..] == "" + text + after[1..];
        TrimsExactly("", text, after[1..]);
      } else {
        assert s[..|s| - 1] == "" + text + after[..|after| - 1];
        TrimsExactly("", text, after[..|after| - 1]);
      }
    } else {
      assert s == text;
    }
  }

  /** A literal: a sign or none, digits, and optionally a dot with more digits. */
  predicate IsLiteral(s: string, sign: string, whole: string, fraction: string) {
    && sign in {"", "+", "-"}
    && AllDigits(whole) && whole != "" && AllDigits(fraction)
    && s == sign + Body(whole, fraction)
  }

  lemma SignedParts(sign: string, body: string)
    requires sign in {"", "+", "-"} && body != "" && IsDigit(body[0]) && IsDigit(body[|body| - 1])
    ensures var s := sign + body;
      s != "" && IsTrimmed(s) && Unsigned(s) == body && (s[0] == '-' <==> sign == "-")
  {
    var s := sign + body;
    assert s[|s| - 1] == body[|body| - 1];
    if sign == "" {
      assert s == body;
    } else {
      assert s[0] == sign[0] && s[1..] == body;
    }
  }

  /** A string of digits with at most one dot has no sign and nothing to trim. */
  lemma BodyParts(whole: string, fraction: string)
    requires AllDigits(whole) && whole != "" && AllDigits(fraction)
    ensures var body := Body(whole, fraction);
      && WholePart(body) == whole && FractionPart(body) == fraction
      && (DotIndex(body) < |body| <==> fraction != "")
      && body != "" && IsDigit(body[0]) && IsDigit(body[|body| - 1])
  {
    var body := Body(whole, fraction);
    var n := DotIndex(body);
    if fraction == "" {
      assert n == |body|;
    } else {
      assert body[|whole|] == '.';
      assert forall i :: 0 <= i < |whole| ==> body[i] == whole[i];
      assert n == |whole|;
    }
  }

  lemma LiteralParts(s: string, sign: string, whole: string, fraction: string)
    requires IsLiteral(s, sign, whole, fraction)
    ensures IsDecimal(s) && IsTrimmed(s) && s != ""
    ensures WholePart(Unsigned(s)) == whole && FractionPart(Unsigned(s)) == fraction
    ensures s[0] == '-' <==> sign == "-"
  {
    BodyParts(whole, fraction);
    SignedParts(sign, Body(whole, fraction));
  }

  lemma CutAt(u: string, n: nat)
    requires n < |u| && u[n] == '.'
    ensures u == u[..n] + "." + u[n + 1..]
  {
    assert u[n..] == "." + u[n + 1..];
    assert u == u[..n] + u[n..];
  }

  lemma BodyOfParts(u: string)
    requires DotIndex(u) < |u| ==> FractionPart(u) != ""
    ensures u == Body(WholePart(u), FractionPart(u))
  {
    var n := DotIndex(u);
    if n < |u| {
      CutAt(u, n);
    } else {
      assert u[..|u|] == u;
    }
  }

  lemma SignInFront(s: string) returns (sign: string)
    ensures sign in {"", "+", "-"} && s == sign + Unsigned(s)
  {
    if s != "" && (s[0] == '-' || s[0] == '+') {
      sign := [s[0]];
      assert s == sign + s[1..];
    } else {
      sign := "";
      assert s == sign + s;
    }
  }

  lemma DecimalIsLiteral(s: string)
    requires IsDecimal(s)
    ensures exists sign, whole, fraction :: IsLiteral(s, sign, whole, fraction)
  {
    var u := Unsigned(s);
    var sign := SignInFront(s);
    BodyOfParts(u);
    assert IsLiteral(s, sign, WholePart(u), FractionPart(u));
  }

  lemma LiteralIsParsed(display: string, sign: string, whole: string, fraction: string)
    requires IsLiteral(Trim(display), sign, whole, fraction)
    ensures ToStroops(display) == Stroops(sign == "-", whole, fraction)
  {
    LiteralParts(Trim(display), sign, whole, fraction);
  }

  lemma ReadAsStroops(negative: bool, whole: string, fraction: string)
    requires AllDigits(whole) && AllDigits(fraction) && |fraction| <= AMOUNT_DECIMALS
    requires AllDigits(PadEnd(fraction, AMOUNT_DECIMALS))
    ensures var magnitude := Value(whole) * ONE_UNIT_IN_STROOPS + Value(PadEnd(fraction, AMOUNT_DECIMALS));
      Stroops(negative, whole, fraction) == Ok(if negative then -magnitude else magnitude)
  {}

  lemma StroopsInUnits(negative: bool, whole: string, fraction: string)
    requires AllDigits(whole) && AllDigits(fraction) && |fraction| <= 7
    ensures var magnitude := Value(whole) * 10_000_000 + Value(fraction) * Pow10(7 - |fraction|);
      Stroops(negative, whole, fraction) == Ok(if negative then -magnitude else magnitude)
  {
    ValueOfPadEnd(fraction, 7);
    ReadAsStroops(negative, whole, fraction);
  }

  /** What a literal is worth, white space around it or not: whole units and up to seven decimals of one, exactly. */
  lemma LiteralIsWorth(before: string, sign: string, whole: string, fraction: string, after: string)
    requires AllSpaces(before) && AllSpaces(after)
    requires IsLiteral(sign + Body(whole, fraction), sign, whole, fraction)
    ensures ToStroops(before + (sign + Body(whole, fraction)) + after) ==
      if 7 < |fraction| then Err(TooManyDecimals)
      else
        var magnitude := Value(whole) * 10_000_000 + Value(fraction) * Pow10(7 - |fraction|);
        Ok(if sign == "-" then -magnitude else magnitude)
  {
    var s := sign + Body(whole, fraction);
    assert IsTrimmed(s) by {
      LiteralParts(s, sign, whole, fraction);
    }
    TrimsExactly(before, s, after);
    LiteralIsParsed(before + s + after, sign, whole, fraction);
    if |fraction| <= 7 {
      StroopsInUnits(sign == "-", whole, fraction);
    }
  }

  lemma {:induction false} TrimSplits(s: string) returns (before: string, text: string, after: string)
    ensures s == before + text + after && Trim(s) == text
    ensures AllSpaces(before) && AllSpaces(after) && IsTrimmed(text)
    decreases |s|
  {
    if s != "" && IsSpace(s[0]) {
      before, text, after := TrimSplits(s[1..]);
      before := [s[0]] + before;
    } else if s != "" && IsSpace(s[|s| - 1]) {
      before, text, after := TrimSplits(s[..|s| - 1]);
      after := after + [s[|s| - 1]];
    } else {
      before, text, after := "", s, "";
    }
  }

  /** The three refusals: nothing but white space, no literal, or a literal of more than seven decimals. */
  lemma RefusalsAreExact(display: string)
    ensures ToStroops(display) == Err(Empty) <==> AllSpaces(display)
    ensures ToStroops(display) == Err(NotADecimal) <==>
      !AllSpaces(display) && !exists sign, whole, fraction :: IsLiteral(Trim(display), sign, whole, fraction)
    ensures ToStroops(display) == Err(TooManyDecimals) <==>
      exists sign, whole, fraction :: IsLiteral(Trim(display), sign, whole, fraction) && 7 < |fraction|
  {
    var before, text, after := TrimSplits(display);
    assert text == "" <==> AllSpaces(display) by {
      if text != "" {
        assert display[|before|] == text[0];
      }
    }
    if text != "" && IsDecimal(text) {
      DecimalIsLiteral(text);
    }
    forall sign, whole, fraction | IsLiteral(text, sign, whole, fraction)
      ensures text != "" && IsDecimal(text) && FractionPart(Unsigned(text)) == fraction
    {
      LiteralParts(text, sign, whole, fraction);
    }
  }

  // ----- Round trips -----

  lemma ZerosBehind(t: string, s: string)
    requires t <= s && forall i :: |t| <= i < |s| ==> s[i] == '0'
    ensures t + Zeros(|s| - |t|) == s
  {
    var padded := t + Zeros(|s| - |t|);
    assert |padded| == |s|;
    forall i | 0 <= i < |s| ensures padded[i] == s[i] {
      if i < |t| {
        assert padded[i] == t[i];
      } else {
        assert padded[i] == Zeros(|s| - |t|)[i - |t|];
      }
    }
  }

  /** Cutting a padded digit string at its trailing zeros and padding it again gives it back. */
  lemma StripThenPad(s: string)
    ensures PadEnd(StripZeros(s), |s|) == s
  {
    ZerosBehind(StripZeros(s), s);
  }

  lemma {:induction false} DigitCount(n: nat, k: nat)
    requires n < Pow10(k) && 0 < k
    ensures |Digits(n)| <= k
    decreases k
  {
    if n >= 10 {
      assert k > 1;
      DigitCount(n / 10, k - 1);
    }
  }

  /** The seven fraction digits that are printed before trailing zeros are dropped. */
  lemma FractionDigits(n: nat)
    requires n < ONE_UNIT_IN_STROOPS
    ensures var p := PadStart(Digits(n), AMOUNT_DECIMALS);
      |p| == AMOUNT_DECIMALS && AllDigits(p) && Value(p) == n
  {
    SevenDecimals();
    DigitCount(n, AMOUNT_DECIMALS);
    ValueOfPadStart(Digits(n), AMOUNT_DECIMALS);
  }

  lemma DigitsAreNotSpace(s: string)
    requires s != "" && (IsDigit(s[0]) || s[0] == '-') && IsDigit(s[|s| - 1])
    ensures Trim(s) == s
  {}

  /** What is printed is a decimal literal with these parts. */
  lemma PrintedParts(negative: bool, whole: string, fraction: string)
    requires AllDigits(whole) && whole != "" && AllDigits(fraction)
    ensures var text := Printed(negative, whole, fraction);
      && Trim(text) == text != "" && (text[0] == '-' <==> negative)
      && Unsigned(text) == Body(whole, fraction) && IsDecimal(text)
  {
    BodyParts(whole, fraction);
    var text := Printed(negative, whole, fraction);
    DigitsAreNotSpace(text);
    assert negative ==> text[1..] == Body(whole, fraction);
  }

  /** Parsing what was printed takes it apart again. */
  lemma ParsesPrinted(negative: bool, whole: string, fraction: string)
    requires AllDigits(whole) && whole != "" && AllDigits(fraction)
    ensures ToStroops(Printed(negative, whole, fraction)) == Stroops(negative, whole, fraction)
  {
    BodyParts(whole, fraction);
    PrintedParts(negative, whole, fraction);
  }

  /** The digits FromStroops prints stand for the magnitude. */
  lemma PrintedDigits(magnitude: nat)
    ensures var fraction := StripZeros(PadStart(Digits(magnitude % ONE_UNIT_IN_STROOPS), AMOUNT_DECIMALS));
      && AllDigits(fraction) && |fraction| <= AMOUNT_DECIMALS
      && AllDigits(PadEnd(fraction, AMOUNT_DECIMALS))
      && Value(PadEnd(fraction, AMOUNT_DECIMALS)) == magnitude % ONE_UNIT_IN_STROOPS
  {
    var padded := PadStart(Digits(magnitude % ONE_UNIT_IN_STROOPS), AMOUNT_DECIMALS);
    FractionDigits(magnitude % ONE_UNIT_IN_STROOPS);
    StripThenPad(padded);
  }

  lemma StroopsOfParts(v: int, whole: string, fraction: string)
    requires AllDigits(whole) && AllDigits(fraction) && |fraction| <= AMOUNT_DECIMALS
    requires AllDigits(PadEnd(fraction, AMOUNT_DECIMALS))
    requires var magnitude := if v < 0 then -v else v;
      && Value(whole) == magnitude / ONE_UNIT_IN_STROOPS
      && Value(PadEnd(fraction, AMOUNT_DECIMALS)) == magnitude % ONE_UNIT_IN_STROOPS
    ensures Stroops(v < 0, whole, fraction) == Ok(v)
  {}

  /** Decimal round trip: every integer amount is printed as a string that parses back to it. */
  lemma RoundTrip(v: int)
    ensures ToStroops(FromStroops(v)) == Ok(v)
  {
    var magnitude := if v < 0 then -v else v;
    var fraction := StripZeros(PadStart(Digits(magnitude % ONE_UNIT_IN_STROOPS), AMOUNT_DECIMALS));
    var whole := Digits(magnitude / ONE_UNIT_IN_STROOPS);
    PrintedDigits(magnitude);
    ParsesPrinted(v < 0, whole, fraction);
    StroopsOfParts(v, whole, fraction);
  }

  /** Printing what was parsed is a canonical form: it is its own canonical form. */
  lemma CanonicalFormIsStable(display: string)
    requires ToStroops(display).Ok?
    ensures var canonical := FromStroops(ToStroops(display).value);
      && ToStroops(canonical) == ToStroops(display)
      && FromStroops(ToStroops(canonical).value) == canonical
  {
    RoundTrip(ToStroops(display).value);
  }

  lemma SameForm(v: int, w: int)
    ensures FromStroops(v) == FromStroops(w) <==> v == w
  {
    RoundTrip(v);
    RoundTrip(w);
  }

  lemma SameScaled(x: real, y: real, v: int, w: int)
    requires v as real == x * ONE_UNIT_IN_STROOPS as real && w as real == y * ONE_UNIT_IN_STROOPS as real
    ensures x == y <==> v == w
  {}

  /** Two accepted strings have the same canonical form exactly when they denote the same number. */
  lemma SameFormSameAmount(a: string, b: string)
    requires ToStroops(a).Ok? && ToStroops(b).Ok?
    ensures IsDecimal(Trim(a)) && IsDecimal(Trim(b))
    ensures FromStroops(ToStroops(a).value) == FromStroops(ToStroops(b).value) <==> Denotes(Trim(a)) == Denotes(Trim(b))
  {
    ParsesExactly(a);
    ParsesExactly(b);
    SameScaled(Denotes(Trim(a)), Denotes(Trim(b)), ToStroops(a).value, ToStroops(b).value);
    SameForm(ToStroops(a).value, ToStroops(b).value);
  }

  // ----- The canonical form -----

  /** No plus sign, no minus before zero, no leading zeros, and no trailing zeros behind the dot. */
  predicate Canonical(s: string) {
    var u := Unsigned(s);
    var whole, fraction := WholePart(u), FractionPart(u);
    && IsDecimal(s) && s[0] != '+'
    && (whole[0] == '0' ==> whole == "0")
    && (fraction == "" || fraction[|fraction| - 1] != '0')
    && (s[0] == '-' ==> whole != "0" || fraction != "")
  }

  /** Digit strings of one length are told apart by their values. */
  lemma {:induction false} SameValueSameDigits(a: string, b: string)
    requires AllDigits(a) && AllDigits(b) && |a| == |b| && Value(a) == Value(b)
    ensures a == b
    decreases |a|
  {
    if a != "" {
      assert DigitOf(a[|a| - 1]) < 10 && DigitOf(b[|b| - 1]) < 10;
      SameValueSameDigits(a[..|a| - 1], b[..|b| - 1]);
      assert a == a[..|a| - 1] + [a[|a| - 1]] && b == b[..|b| - 1] + [b[|b| - 1]];
    }
  }

  lemma DigitsOfAppend(n: nat, c: char)
    requires 0 < n && IsDigit(c)
    ensures Digits(10 * n + DigitOf(c)) == Digits(n) + [c]
  {
    var m := 10 * n + DigitOf(c);
    assert m / 10 == n && m % 10 == DigitOf(c);
    assert CharOf(DigitOf(c)) == c;
  }

  lemma OneDigit(c: char)
    requires IsDigit(c)
    ensures Digits(DigitOf(c)) == [c]
  {
    assert CharOf(DigitOf(c)) == c;
  }

  /** A string without leading zeros ends in a digit behind such a string. */
  lemma Shortened(s: string)
    requires AllDigits(s) && |s| > 1 && s[0] != '0'
    ensures var front := s[..|s| - 1];
      && s == front + [s[|s| - 1]] && AllDigits(front) && front[0] == s[0]
      && Value(s) == 10 * Value(front) + DigitOf(s[|s| - 1])
  {}

  lemma {:induction false} ValueIsPositive(s: string)
    requires AllDigits(s) && s != "" && s[0] != '0'
    ensures 0 < Value(s)
    decreases |s|
  {
    if |s| > 1 {
      ValueIsPositive(s[..|s| - 1]);
    }
  }

  lemma {:induction false} DigitsOfValue(s: string)
    requires AllDigits(s) && s != "" && (s[0] == '0' ==> s == "0")
    ensures Digits(Value(s)) == s
    decreases |s|
  {
    if |s| == 1 {
      assert s == [s[0]] && s[..0] == "";
      OneDigit(s[0]);
    } else {
      Shortened(s);
      var front := s[..|s| - 1];
      ValueIsPositive(front);
      DigitsOfAppend(Value(front), s[|s| - 1]);
      DigitsOfValue(front);
    }
  }

  /** Padding a fraction that does not end in a zero and stripping it again gives it back. */
  lemma PadThenStrip(f: string, n: nat)
    requires AllDigits(f) && |f| <= n && (f == "" || f[|f| - 1] != '0')
    ensures StripZeros(PadEnd(f, n)) == f
  {
    var p, t := PadEnd(f, n), StripZeros(PadEnd(f, n));
    assert forall i :: 0 <= i < |p| ==> p[i] == if i < |f| then f[i] else '0';
    assert |t| == |f|;
    assert p[..|t|] == t;
  }

  lemma {:induction false} ValueBelow(s: string)
    requires AllDigits(s)
    ensures Value(s) < Pow10(|s|)
    decreases |s|
  {
    if s != "" {
      ValueBelow(s[..|s| - 1]);
    }
  }

  /** A canonical fraction survives being read as stroops and printed again. */
  lemma FractionReprints(f: string)
    requires AllDigits(f) && |f| <= AMOUNT_DECIMALS && (f == "" || f[|f| - 1] != '0')
    ensures AllDigits(PadEnd(f, AMOUNT_DECIMALS))
    ensures Value(PadEnd(f, AMOUNT_DECIMALS)) < ONE_UNIT_IN_STROOPS
    ensures StripZeros(PadStart(Digits(Value(PadEnd(f, AMOUNT_DECIMALS))), AMOUNT_DECIMALS)) == f
  {
    var p := PadEnd(f, AMOUNT_DECIMALS);
    ValueBelow(p);
    SevenDecimals();
    FractionDigits(Value(p));
    SameValueSameDigits(PadStart(Digits(Value(p)), AMOUNT_DECIMALS), p);
    PadThenStrip(f, AMOUNT_DECIMALS);
  }

  /** A string is its sign, its whole part and its fraction. */
  lemma CanonicalIsPrinted(s: string)
    requires Canonical(s)
    ensures var u := Unsigned(s); s == Printed(s[0] == '-', WholePart(u), FractionPart(u))
  {
    var u := Unsigned(s);
    assert s[0] == '-' ==> s == "-" + u;
    assert DotIndex(u) < |u| ==> u == WholePart(u) + "." + FractionPart(u);
    assert DotIndex(u) == |u| ==> u == WholePart(u);
  }

  lemma MagnitudeParts(w: nat, f: nat)
    requires f < ONE_UNIT_IN_STROOPS
    ensures var magnitude := w * ONE_UNIT_IN_STROOPS + f;
      magnitude / ONE_UNIT_IN_STROOPS == w && magnitude % ONE_UNIT_IN_STROOPS == f
  {}

  lemma Reprint(negative: bool, w: nat, f: nat, v: int, text: string)
    requires f < ONE_UNIT_IN_STROOPS && (negative ==> w != 0 || f != 0)
    requires v == if negative then -(w * ONE_UNIT_IN_STROOPS + f) else w * ONE_UNIT_IN_STROOPS + f
    requires text == Printed(negative, Digits(w), StripZeros(PadStart(Digits(f), AMOUNT_DECIMALS)))
    ensures FromStroops(v) == text
  {
    MagnitudeParts(w, f);
  }

  predicate CanonicalParts(negative: bool, whole: string, fraction: string) {
    && AllDigits(whole) && whole != "" && (whole[0] == '0' ==> whole == "0")
    && AllDigits(fraction) && |fraction| <= AMOUNT_DECIMALS
    && (fraction == "" || fraction[|fraction| - 1] != '0')
    && (negative ==> whole != "0" || fraction != "")
  }

  lemma ProductIsPositive(x: nat, y: nat)
    requires 0 < x && 0 < y
    ensures 0 < x * y
  {}

  /** Only "0" without a fraction is canonical for zero. */
  lemma NotZero(whole: string, fraction: string)
    requires AllDigits(whole) && whole != "" && (whole[0] == '0' ==> whole == "0")
    requires AllDigits(fraction) && |fraction| <= AMOUNT_DECIMALS
    requires fraction == "" || fraction[|fraction| - 1] != '0'
    requires whole != "0" || fraction != ""
    ensures AllDigits(PadEnd(fraction, AMOUNT_DECIMALS))
    ensures Value(whole) != 0 || Value(PadEnd(fraction, AMOUNT_DECIMALS)) != 0
  {
    if whole != "0" {
      ValueIsPositive(whole);
    } else {
      ValueOfPadEnd(fraction, AMOUNT_DECIMALS);
      assert Value(fraction) > 0;
      ProductIsPositive(Value(fraction), Pow10(AMOUNT_DECIMALS - |fraction|));
    }
  }

  /** The two numbers a canonical whole part and fraction stand for print as these parts. */
  lemma PartsReprint(negative: bool, whole: string, fraction: string) returns (w: nat, f: nat)
    requires CanonicalParts(negative, whole, fraction)
    ensures AllDigits(PadEnd(fraction, AMOUNT_DECIMALS))
    ensures w == Value(whole) && f == Value(PadEnd(fraction, AMOUNT_DECIMALS)) < ONE_UNIT_IN_STROOPS
    ensures negative ==> w != 0 || f != 0
    ensures Printed(negative, Digits(w), StripZeros(PadStart(Digits(f), AMOUNT_DECIMALS)))
         == Printed(negative, whole, fraction)
  {
    FractionReprints(fraction);
    DigitsOfValue(whole);
    if negative {
      NotZero(whole, fraction);
    }
    w, f := Value(whole), Value(PadEnd(fraction, AMOUNT_DECIMALS));
  }

  lemma CanonicalReprints(s: string)
    requires Canonical(s) && |FractionPart(Unsigned(s))| <= AMOUNT_DECIMALS
    ensures ToStroops(s).Ok? && FromStroops(ToStroops(s).value) == s
  {
    var u, negative := Unsigned(s), s[0] == '-';
    var whole, fraction := WholePart(u), FractionPart(u);
    assert ToStroops(s) == Stroops(negative, whole, fraction) && s == Printed(negative, whole, fraction) by {
      CanonicalIsPrinted(s);
      ParsesPrinted(negative, whole, fraction);
    }
    var w, f := PartsReprint(negative, whole, fraction);
    ReadAsStroops(negative, whole, fraction);
    Reprint(negative, w, f, ToStroops(s).value, s);
  }

  lemma WhenZero(magnitude: nat)
    ensures magnitude / ONE_UNIT_IN_STROOPS == 0 && magnitude % ONE_UNIT_IN_STROOPS == 0 ==> magnitude == 0
  {}

  /** Everything FromStroops prints is canonical, with at most seven decimals. */
  lemma PrintsCanonically(v: int)
    ensures Canonical(FromStroops(v)) && |FractionPart(Unsigned(FromStroops(v)))| <= AMOUNT_DECIMALS
  {
    var magnitude := if v < 0 then -v else v;
    var fraction := StripZeros(PadStart(Digits(magnitude % ONE_UNIT_IN_STROOPS), AMOUNT_DECIMALS));
    var whole := Digits(magnitude / ONE_UNIT_IN_STROOPS);
    PrintedDigits(magnitude);
    BodyParts(whole, fraction);
    PrintedParts(v < 0, whole, fraction);
    ValueOfPadEnd("", AMOUNT_DECIMALS);
    WhenZero(magnitude);
  }

  /** An accepted string is printed back unchanged exactly when it is canonical. */
  lemma UnchangedExactlyWhenCanonical(display: string)
    requires ToStroops(display).Ok?
    ensures FromStroops(ToStroops(display).value) == display <==> Canonical(display)
  {
    if Canonical(display) {
      CanonicalIsPrinted(display);
      var u := Unsigned(display);
      PrintedParts(display[0] == '-', WholePart(u), FractionPart(u));
      CanonicalReprints(display);
    }
    PrintsCanonically(ToStroops(display).value);
  }

  // ----- Splitting -----

  datatype Split = Split(organizer: int, community: int)

  /** The split of any amount, negative ones included; basis points outside 0..10000 are rejected. */
  function SplitByBps(amount: int, organizerBps: int): Result<Split, string> {
    if organizerBps < 0 || organizerBps > TOTAL_BPS then Err("Basis points must be between 0 and 10000.")
    else
      var organizer := TruncDiv(amount * organizerBps, TOTAL_BPS);
      Ok(Split(organizer, amount - organizer))
  }

  /** Any amount is split toward zero, without a rest; only basis points from 0 to 10000 are accepted. */
  lemma SplitsTowardZero(amount: int, organizerBps: int)
    ensures SplitByBps(amount, organizerBps).Ok? <==> 0 <= organizerBps <= 10_000
    ensures SplitByBps(amount, organizerBps).Ok? ==>
      var split := SplitByBps(amount, organizerBps).value;
      && split.organizer + split.community == amount
      && (0 <= amount ==> split.organizer * 10_000 <= amount * organizerBps < (split.organizer + 1) * 10_000)
      && (amount < 0 ==> (split.organizer - 1) * 10_000 < amount * organizerBps <= split.organizer * 10_000)
  {}

  /** The application's split is what a settlement pays and publishes, whenever the contract settles at all. */
  lemma SplitMatchesSettlement(s: State, signers: set<Address>, key: Key)
    requires SoundRecords(s) && Step(s, Call(signers, SettleNoShow(key))).Done?
    ensures key in s.reservations && key.eventId in s.events
    ensures var split := SplitByBps(s.reservations[key].amount, s.events[key.eventId].organizerBps);
      var s' := Next(s, Call(signers, SettleNoShow(key)));
      && split.Ok?
      && 0 <= split.value.organizer && 0 <= split.value.community
      && split.value.organizer + split.value.community == s.reservations[key].amount
      && s'.log == s.log + [LogEntry.NoShowSettled(key.eventId, s.reservations[key].participant,
                                                   split.value.organizer, split.value.community)]
  {
    assert SoundReservation(s, key, s.reservations[key]) && SoundEvent(s, s.events[key.eventId]);
    ShareBounds(s.reservations[key].amount, s.events[key.eventId].organizerBps);
  }

  function Total(amounts: seq<int>): int {
    if amounts == [] then 0 else amounts[0] + Total(amounts[1..])
  }

  function OrganizerTotal(amounts: seq<int>, bps: int): int {
    if amounts == [] then 0 else OrganizerShare(amounts[0], bps) + OrganizerTotal(amounts[1..], bps)
  }

  lemma {:induction false} PooledBounds(amounts: seq<int>, bps: int)
    requires 0 <= bps <= TOTAL_BPS && forall i :: 0 <= i < |amounts| ==> 0 <= amounts[i]
    ensures 0 <= Total(amounts)
    ensures OrganizerTotal(amounts, bps) * TOTAL_BPS <= Total(amounts) * bps
    ensures amounts != [] ==> Total(amounts) * bps < (OrganizerTotal(amounts, bps) + |amounts|) * TOTAL_BPS
  {
    if amounts != [] {
      PooledBounds(amounts[1..], bps);
      ShareBounds(amounts[0], bps);
      assert Total(amounts) * bps == amounts[0] * bps + Total(amounts[1..]) * bps;
    }
  }

  /**
   Splitting bond by bond instead of pooling them costs the organizer less than one unit a bond, and never pays more.
   */
  lemma {:induction false} SplittingLosesLessThanOneUnitABond(amounts: seq<int>, bps: int)
    requires 0 <= bps <= TOTAL_BPS && forall i :: 0 <= i < |amounts| ==> 0 <= amounts[i]
    ensures 0 <= Total(amounts)
    ensures OrganizerTotal(amounts, bps) <= OrganizerShare(Total(amounts), bps)
    ensures amounts != [] ==> OrganizerShare(Total(amounts), bps) < OrganizerTotal(amounts, bps) + |amounts|
  {
    PooledBounds(amounts, bps);
    ShareBounds(Total(amounts), bps);
  }
}
