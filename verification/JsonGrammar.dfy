/** JSON as RFC 8259 states it and UTF-8 as RFC 3629 states it, of spans of a text, and that the reading of
    `core/src/json.cpp` finds exactly the documents of that grammar, up to the nesting it allows. */
module JsonGrammar {
  import opened Options
  import opened JsonText

  // ----- UTF-8: section 4 of RFC 3629 -----

  ghost predicate Tail(c: char) { 0x80 <= c as int <= 0xBF }

  /** The scalar value a sequence of bytes encodes: only the shortest form, and no surrogate. */
  ghost function Decoded(b: string): Option<nat> {
    if |b| == 1 && b[0] as int <= 0x7F then Some(b[0] as nat)
    else if |b| == 2 && 0xC2 <= b[0] as int <= 0xDF && Tail(b[1]) then
      Some((b[0] as nat - 0xC0) * 0x40 + (b[1] as nat - 0x80))
    else if |b| == 3 && 0xE0 <= b[0] as int <= 0xEF && Tail(b[1]) && Tail(b[2])
            && (b[0] as int == 0xE0 ==> 0xA0 <= b[1] as int) && (b[0] as int == 0xED ==> b[1] as int <= 0x9F) then
      Some((b[0] as nat - 0xE0) * 0x1000 + (b[1] as nat - 0x80) * 0x40 + (b[2] as nat - 0x80))
    else if |b| == 4 && 0xF0 <= b[0] as int <= 0xF4 && Tail(b[1]) && Tail(b[2]) && Tail(b[3])
            && (b[0] as int == 0xF0 ==> 0x90 <= b[1] as int) && (b[0] as int == 0xF4 ==> b[1] as int <= 0x8F) then
      Some((b[0] as nat - 0xF0) * 0x4_0000 + (b[1] as nat - 0x80) * 0x1000 + (b[2] as nat - 0x80) * 0x40 + (b[3] as nat - 0x80))
    else None
  }

  ghost predicate Scalar(code: nat) { code < 0xD800 || 0xE000 <= code < 0x11_0000 }

  /** A scalar value has one encoding, and it is the one written. */
  lemma Utf8IsDecoded(code: nat, b: string)
    requires Scalar(code)
    ensures Decoded(b) == Some(code) <==> b == Utf8(code)
  {
    WrittenDecodes(code);
    if Decoded(b) == Some(code) { DecodedIsWritten(b, code); }
  }

  lemma WrittenDecodes(code: nat)
    requires Scalar(code)
    ensures Decoded(Utf8(code)) == Some(code)
  {
    if 0x800 <= code < 0x1_0000 {
      ThreeWritten(code);
    } else if 0x1_0000 <= code {
      FourWritten(code);
    }
  }

  lemma ThreeWritten(code: nat)
    requires Scalar(code) && 0x800 <= code < 0x1_0000
    ensures Decoded(Utf8(code)) == Some(code)
  {
    assert code == code / 4096 * 4096 + code / 64 % 64 * 64 + code % 64;
  }

  lemma FourWritten(code: nat)
    requires 0x1_0000 <= code < 0x11_0000
    ensures Decoded(Utf8(code)) == Some(code)
  {
    assert code == code / 262144 * 262144 + code / 4096 % 64 * 4096 + code / 64 % 64 * 64 + code % 64;
  }

  lemma Places64(high: nat, low: nat)
    requires low < 0x40
    ensures (high * 0x40 + low) / 0x40 == high && (high * 0x40 + low) % 0x40 == low
  {
  }

  lemma Places4096(high: nat, low: nat)
    requires low < 0x1000
    ensures (high * 0x1000 + low) / 0x1000 == high
  {
  }

  lemma Places262144(high: nat, low: nat)
    requires low < 0x4_0000
    ensures (high * 0x4_0000 + low) / 0x4_0000 == high
  {
  }

  lemma DecodedIsWritten(b: string, code: nat)
    requires Decoded(b) == Some(code)
    ensures code < 0x11_0000 && b == Utf8(code)
  {
    if |b| == 2 {
      Places64(b[0] as nat - 0xC0, b[1] as nat - 0x80);
    } else if |b| == 3 {
      ThreeBytes(b, code);
    } else if |b| == 4 {
      FourBytes(b, code);
    }
  }

  lemma ThreeBytes(b: string, code: nat)
    requires Decoded(b) == Some(code) && |b| == 3
    ensures code < 0x11_0000 && b == Utf8(code)
  {
    var x, y, z := b[0] as nat - 0xE0, b[1] as nat - 0x80, b[2] as nat - 0x80;
    assert code == (x * 0x40 + y) * 0x40 + z;
    Places64(x * 0x40 + y, z);
    Places64(x, y);
    Places4096(x, y * 0x40 + z);
    assert 0x800 <= code < 0x1_0000;
  }

  lemma FourBytes(b: string, code: nat)
    requires Decoded(b) == Some(code) && |b| == 4
    ensures code < 0x11_0000 && b == Utf8(code)
  {
    var w, x, y, z := b[0] as nat - 0xF0, b[1] as nat - 0x80, b[2] as nat - 0x80, b[3] as nat - 0x80;
    assert code == ((w * 0x40 + x) * 0x40 + y) * 0x40 + z;
    Places64((w * 0x40 + x) * 0x40 + y, z);
    Places64(w * 0x40 + x, y);
    Places4096(w * 0x40 + x, y * 0x40 + z);
    Places64(w, x);
    Places262144(w, x * 0x1000 + y * 0x40 + z);
    assert 0x1_0000 <= code < 0x11_0000;
  }

  // ----- White space and numbers: sections 2 and 6 of RFC 8259 -----

  ghost predicate Blanks(t: string, i: nat, j: nat) {
    i <= j <= |t| && forall k :: i <= k < j ==> t[k] as int in {0x20, 0x09, 0x0A, 0x0D}
  }

  ghost predicate Digits(t: string, i: nat, j: nat) { i < j <= |t| && forall k :: i <= k < j ==> 0x30 <= t[k] as int <= 0x39 }

  /** No digit is before another unless the first is not 0. */
  ghost predicate Whole(t: string, i: nat, j: nat) {
    var from := if CharAt(t, i, '-') then i + 1 else i;
    Digits(t, from, j) && (t[from] == '0' ==> j == from + 1)
  }

  ghost predicate Fraction(t: string, i: nat, j: nat) { i == j || (CharAt(t, i, '.') && Digits(t, i + 1, j)) }

  ghost predicate Exponent(t: string, i: nat, j: nat) {
    i == j || ((CharAt(t, i, 'e') || CharAt(t, i, 'E'))
               && (Digits(t, i + 1, j) || ((CharAt(t, i + 1, '+') || CharAt(t, i + 1, '-')) && Digits(t, i + 2, j))))
  }

  /** What the digits of a span are worth. */
  ghost function Worth(t: string, i: nat, j: nat): nat
    requires i <= j <= |t| && forall k :: i <= k < j ==> 0x30 <= t[k] as int <= 0x39
    decreases j - i
  {
    if i == j then 0 else Worth(t, i, j - 1) * 10 + (t[j - 1] as nat - 0x30)
  }

  /** The 64-bit integer a span without a fraction or an exponent stands for, if one does. */
  ghost predicate Means(t: string, i: nat, j: nat, integer: Option<int>)
    requires Whole(t, i, j)
  {
    var n: int := if CharAt(t, i, '-') then 0 - Worth(t, i + 1, j) else Worth(t, i, j);
    integer == if -9223372036854775808 <= n <= 9223372036854775807 then Some(n) else None
  }

  ghost predicate NumberAt(t: string, i: nat, a: nat, b: nat, j: nat, integer: Option<int>) {
    && Whole(t, i, a) && Fraction(t, a, b) && Exponent(t, b, j)
    && if a == j then Means(t, i, a, integer) else integer == None
  }

  ghost predicate IsNumber(t: string, i: nat, j: nat, integer: Option<int>) {
    exists a: nat, b: nat :: NumberAt(t, i, a, b, j, integer)
  }

  // ----- Strings: section 7 -----

  const LOWER := "0123456789abcdef"
  const UPPER := "0123456789ABCDEF"

  ghost predicate IsHex(c: char, digit: nat) { digit < 16 && (c == LOWER[digit] || c == UPPER[digit]) }

  ghost predicate IsHex4(p: char, q: char, r: char, s: char, unit: nat) {
    exists a: nat, b: nat, c: nat, d: nat ::
      IsHex(p, a) && IsHex(q, b) && IsHex(r, c) && IsHex(s, d) && unit == 4096 * a + 256 * b + 16 * c + d
  }

  /** A reverse solidus, a `u` and four hexadecimal digits. */
  ghost predicate Unit(t: string, i: nat, unit: nat) {
    i + 6 <= |t| && t[i] == '\\' && t[i + 1] == 'u' && IsHex4(t[i + 2], t[i + 3], t[i + 4], t[i + 5], unit)
  }

  ghost function Escapes(): map<char, int> {
    map['"' := 0x22, '\\' := 0x5C, '/' := 0x2F, 'b' := 0x08, 'f' := 0x0C, 'n' := 0x0A, 'r' := 0x0D, 't' := 0x09]
  }

  ghost predicate Unescaped(t: string, i: nat, j: nat, bytes: string) {
    j == i + 1 <= |t| && bytes == [t[i]] && 0x20 <= t[i] as int && t[i] as int !in {0x22, 0x5C}
  }

  ghost predicate Escaped(t: string, i: nat, j: nat, bytes: string) {
    j == i + 2 <= |t| && t[i] == '\\' && t[i + 1] in Escapes() && |bytes| == 1 && bytes[0] as int == Escapes()[t[i + 1]]
  }

  ghost predicate OneUnit(t: string, i: nat, j: nat, bytes: string) {
    j == i + 6 && exists unit: nat :: Unit(t, i, unit) && Scalar(unit) && Decoded(bytes) == Some(unit)
  }

  ghost predicate TwoUnits(t: string, i: nat, j: nat, bytes: string) {
    j == i + 12 && Pair(t, i, i + 6, bytes)
  }

  /** Two surrogates stand for one character. */
  ghost predicate Pair(t: string, i: nat, k: nat, bytes: string) {
    exists high: nat, low: nat ::
      Unit(t, i, high) && Unit(t, k, low) && 0xD800 <= high <= 0xDBFF && 0xDC00 <= low <= 0xDFFF
      && Decoded(bytes) == Some(0x1_0000 + (high - 0xD800) * 0x400 + (low - 0xDC00))
  }

  ghost predicate IsChar(t: string, i: nat, j: nat, bytes: string) {
    Unescaped(t, i, j, bytes) || Escaped(t, i, j, bytes) || OneUnit(t, i, j, bytes) || TwoUnits(t, i, j, bytes)
  }

  ghost predicate Chars(t: string, i: nat, j: nat, text: string)
    decreases j - i
  {
    if j <= i then i == j && text == []
    else exists k: nat, bytes, rest :: i < k <= j && text == bytes + rest && IsChar(t, i, k, bytes) && Chars(t, k, j, rest)
  }

  ghost predicate IsString(t: string, i: nat, j: nat, text: string) {
    i + 2 <= j <= |t| && t[i] == '"' && t[j - 1] == '"' && Chars(t, i + 1, j - 1, text)
  }

  // ----- Values: sections 3 to 5 -----

  ghost predicate Spells(t: string, i: nat, j: nat, word: string) { i + |word| == j <= |t| && t[i..j] == word }

  /** The span is one value, with at most so many values inside one another. */
  ghost predicate IsValue(t: string, i: nat, j: nat, v: Value, levels: nat)
    decreases j - i, 0
  {
    && levels > 0
    && match v
       case Null => Spells(t, i, j, "null")
       case Bool(truth) => Spells(t, i, j, if truth then "true" else "false")
       case Number(integer) => IsNumber(t, i, j, integer)
       case String(text) => IsString(t, i, j, text)
       case Array(es) => Between(t, i, j, '[', ']') && if es == [] then Blanks(t, i + 1, j - 1) else Elements(t, i + 1, j - 1, es, levels - 1)
       case Object(ms) => Between(t, i, j, '{', '}') && if ms == [] then Blanks(t, i + 1, j - 1) else Members(t, i + 1, j - 1, ms, levels - 1)
  }

  ghost predicate Between(t: string, i: nat, j: nat, opens: char, closes: char) {
    i + 2 <= j <= |t| && t[i] == opens && t[j - 1] == closes
  }

  /** One value, with blanks around it. */
  ghost predicate Padded(t: string, i: nat, j: nat, v: Value, levels: nat)
    decreases j - i, 1
  {
    exists a: nat, b: nat :: i <= a <= b <= j && Blanks(t, i, a) && IsValue(t, a, b, v, levels) && Blanks(t, b, j)
  }

  /** Values with commas between them. */
  ghost predicate Elements(t: string, i: nat, j: nat, es: seq<Value>, levels: nat)
    decreases j - i, 2
  {
    && es != []
    && if |es| == 1 then Padded(t, i, j, es[0], levels)
       else exists k: nat :: i <= k < j && CharAt(t, k, ',') && Padded(t, i, k, es[0], levels) && Elements(t, k + 1, j, es[1..], levels)
  }

  /** A name, a colon and a value. */
  ghost predicate IsMember(t: string, i: nat, j: nat, m: Member, levels: nat)
    decreases j - i, 2
  {
    exists a: nat, b: nat, k: nat :: i <= a < b <= k < j && Blanks(t, i, a) && IsString(t, a, b, m.key) && Blanks(t, b, k)
                                     && CharAt(t, k, ':') && Padded(t, k + 1, j, m.value, levels)
  }

  ghost predicate Members(t: string, i: nat, j: nat, ms: seq<Member>, levels: nat)
    decreases j - i, 3
  {
    && ms != []
    && if |ms| == 1 then IsMember(t, i, j, ms[0], levels)
       else exists k: nat :: i <= k < j && CharAt(t, k, ',') && IsMember(t, i, k, ms[0], levels) && Members(t, k + 1, j, ms[1..], levels)
  }

  /** A JSON text: one value, with blanks around it, and at most sixteen values inside one another. */
  ghost predicate Document(t: string, v: Value) { Padded(t, 0, |t|, v, 16) }

  // ----- The leaves -----

  lemma {:induction false} SkipsBlanks(t: string, i: nat, j: nat)
    requires i <= j <= |t|
    ensures SkipBlanks(t, i) == j <==> Blanks(t, i, j) && (j < |t| ==> t[j] as int !in {0x20, 0x09, 0x0A, 0x0D})
    decreases j - i
  {
    if i < j && IsBlank(t[i]) {
      SkipsBlanks(t, i + 1, j);
      assert Blanks(t, i, j) <==> Blanks(t, i + 1, j);
    }
  }

  lemma BlanksSkipped(t: string, i: nat)
    requires i <= |t|
    ensures Blanks(t, i, SkipBlanks(t, i))
  {
    SkipsBlanks(t, i, SkipBlanks(t, i));
  }

  ghost predicate DigitHere(t: string, j: nat) { j < |t| && 0x30 <= t[j] as int <= 0x39 }

  lemma {:induction false} DigitsRead(t: string, i: nat, j: nat)
    requires i < j <= |t|
    ensures DigitAt(t, i) && DigitsEnd(t, i) == j <==> Digits(t, i, j) && !DigitHere(t, j)
    decreases j - i
  {
    if DigitAt(t, i) {
      if j == i + 1 {
        assert DigitsEnd(t, i) == DigitsEnd(t, i + 1);
      } else if DigitAt(t, i + 1) {
        DigitsRead(t, i + 1, j);
        assert Digits(t, i, j) <==> Digits(t, i + 1, j);
      } else {
        assert DigitsEnd(t, i) == i + 1;
      }
    }
  }

  /** Nothing here goes on with a number. */
  ghost predicate Stops(t: string, j: nat) { j < |t| ==> !DigitHere(t, j) && t[j] !in {'.', 'e', 'E'} }

  lemma {:induction false} WorthIsDecimal(t: string, i: nat, j: nat)
    requires i <= j <= |t| && forall k :: i <= k < j ==> 0x30 <= t[k] as int <= 0x39
    ensures AllDigits(t[i..j]) && Worth(t, i, j) == DecimalValue(t[i..j])
    decreases j - i
  {
    if i < j {
      var s := t[i..j];
      assert s[..|s| - 1] == t[i..j - 1] && s[|s| - 1] == t[j - 1];
      WorthIsDecimal(t, i, j - 1);
    }
  }

  lemma WholeMeans(t: string, i: nat, j: nat)
    requires Whole(t, i, j)
    ensures Means(t, i, j, Integer64(t[i..j]))
  {
    var s := t[i..j];
    if CharAt(t, i, '-') {
      assert s[0] == '-' && s[1..] == t[i + 1..j];
      WorthIsDecimal(t, i + 1, j);
    } else {
      assert s[0] == t[i];
      WorthIsDecimal(t, i, j);
    }
  }

  lemma WholeRead(t: string, i: nat, j: nat)
    requires i < j <= |t|
    ensures IntegerEnd(t, i) == Some(j) ==> Whole(t, i, j)
    ensures Whole(t, i, j) && !DigitHere(t, j) ==> IntegerEnd(t, i) == Some(j)
  {
    var from := if CharAt(t, i, '-') then i + 1 else i;
    if from < j { DigitsRead(t, from, j); }
  }

  lemma FractionRead(t: string, i: nat, j: nat)
    requires i <= j <= |t|
    ensures FractionEnd(t, i) == Some(j) ==> Fraction(t, i, j)
    ensures Fraction(t, i, j) && !DigitHere(t, j) && (i == j ==> !CharAt(t, j, '.')) ==> FractionEnd(t, i) == Some(j)
  {
    if i + 1 < j { DigitsRead(t, i + 1, j); }
  }

  lemma ExponentRead(t: string, i: nat, j: nat)
    requires i <= j <= |t|
    ensures ExponentEnd(t, i) == Some(j) ==> Exponent(t, i, j)
    ensures Exponent(t, i, j) && Stops(t, j) ==> ExponentEnd(t, i) == Some(j)
  {
    if i + 1 < j { DigitsRead(t, i + 1, j); }
    if i + 2 < j { DigitsRead(t, i + 2, j); }
  }

  lemma NumberIsRead(t: string, i: nat, j: nat, integer: Option<int>)
    requires i < j <= |t|
    ensures ReadNumber(t, i) == Got(Number(integer), j) ==> IsNumber(t, i, j, integer)
    ensures IsNumber(t, i, j, integer) && Stops(t, j) ==> ReadNumber(t, i) == Got(Number(integer), j)
  {
    hide Whole, Fraction, Exponent, IntegerEnd, FractionEnd, ExponentEnd, Integer64, Means;
    if ReadNumber(t, i) == Got(Number(integer), j) { NumberRead(t, i, j, integer); }
    if IsNumber(t, i, j, integer) && Stops(t, j) {
      var a: nat, b: nat :| NumberAt(t, i, a, b, j, integer);
      NumberFound(t, i, a, b, j, integer);
    }
  }

  lemma NumberRead(t: string, i: nat, j: nat, integer: Option<int>)
    requires i < j <= |t| && ReadNumber(t, i) == Got(Number(integer), j)
    ensures IsNumber(t, i, j, integer)
  {
    hide Whole, Fraction, Exponent, IntegerEnd, FractionEnd, ExponentEnd, Integer64, Means;
    var a := IntegerEnd(t, i).value;
    var b := FractionEnd(t, a).value;
    WholeRead(t, i, a);
    FractionRead(t, a, b);
    ExponentRead(t, b, j);
    if a == j { WholeMeans(t, i, a); }
    assert NumberAt(t, i, a, b, j, integer);
  }

  lemma NumberFound(t: string, i: nat, a: nat, b: nat, j: nat, integer: Option<int>)
    requires i < j <= |t| && NumberAt(t, i, a, b, j, integer) && Stops(t, j)
    ensures ReadNumber(t, i) == Got(Number(integer), j)
  {
    hide IntegerEnd, FractionEnd, ExponentEnd, Integer64, Means;
    NumberParts(t, i, a, b, j);
    WholeRead(t, i, a);
    FractionRead(t, a, b);
    ExponentRead(t, b, j);
    WholeMeans(t, i, a);
    if a == j { MeansOne(t, i, a, integer, Integer64(t[i..a])); }
  }

  lemma MeansOne(t: string, i: nat, j: nat, m: Option<int>, n: Option<int>)
    requires Whole(t, i, j) && Means(t, i, j, m) && Means(t, i, j, n)
    ensures m == n
  {
  }

  lemma NumberParts(t: string, i: nat, a: nat, b: nat, j: nat)
    requires Whole(t, i, a) && Fraction(t, a, b) && Exponent(t, b, j) && Stops(t, j) && j <= |t|
    ensures i < a <= b <= j <= |t| && !DigitHere(t, a) && !DigitHere(t, b) && (a == b ==> !CharAt(t, b, '.'))
  {
  }

  // ----- Strings -----

  lemma HexIsRead(c: char, digit: nat)
    ensures HexDigit(c) == Some(digit) <==> IsHex(c, digit)
  {
  }

  ghost predicate Hex4(p: char, q: char, r: char, s: char, unit: nat) {
    && HexDigit(p).Some? && HexDigit(q).Some? && HexDigit(r).Some? && HexDigit(s).Some?
    && unit == 4096 * HexDigit(p).value + 256 * HexDigit(q).value + 16 * HexDigit(r).value + HexDigit(s).value
  }

  lemma Hex4Is(p: char, q: char, r: char, s: char, unit: nat)
    ensures Hex4(p, q, r, s, unit) <==> IsHex4(p, q, r, s, unit)
  {
    hide IsHex, HexDigit;
    forall c, digit: nat ensures HexDigit(c) == Some(digit) <==> IsHex(c, digit) { HexIsRead(c, digit); }
    if Hex4(p, q, r, s, unit) {
      assert IsHex(p, HexDigit(p).value) && IsHex(q, HexDigit(q).value) && IsHex(r, HexDigit(r).value) && IsHex(s, HexDigit(s).value);
    }
  }

  lemma Hex4IsRead(t: string, at: nat, unit: nat)
    requires at + 4 <= |t|
    ensures ReadHex4(t, at) == Got(unit, at + 4) <==> IsHex4(t[at], t[at + 1], t[at + 2], t[at + 3], unit)
  {
    hide HexDigit, HexValue, IsHex4;
    HexValues(t, at);
    Hex4Is(t[at], t[at + 1], t[at + 2], t[at + 3], unit);
  }

  lemma HexValues(t: string, at: nat)
    requires at + 4 <= |t|
    ensures HexValue(t, at, 4) ==
            if HexDigit(t[at]).Some? && HexDigit(t[at + 1]).Some? && HexDigit(t[at + 2]).Some? && HexDigit(t[at + 3]).Some?
            then Some(4096 * HexDigit(t[at]).value + 256 * HexDigit(t[at + 1]).value + 16 * HexDigit(t[at + 2]).value + HexDigit(t[at + 3]).value)
            else None
  {
    hide HexDigit;
    assert HexValue(t, at, 0) == Some(0);
    assert HexValue(t, at, 1) == HexDigit(t[at]);
    assert HexValue(t, at, 2) == if HexDigit(t[at]).None? || HexDigit(t[at + 1]).None? then None
                                 else Some(HexDigit(t[at]).value * 16 + HexDigit(t[at + 1]).value);
    assert HexValue(t, at, 3) == if HexValue(t, at, 2).None? || HexDigit(t[at + 2]).None? then None
                                 else Some(HexValue(t, at, 2).value * 16 + HexDigit(t[at + 2]).value);
  }

  /** A unit past its `u`, or nothing there. */
  lemma UnitIsRead(t: string, i: nat, unit: nat)
    requires i + 2 <= |t| && t[i] == '\\' && t[i + 1] == 'u'
    ensures ReadHex4(t, i + 2) == Got(unit, i + 6) <==> Unit(t, i, unit)
  {
    hide IsHex4, HexValue;
    if i + 6 <= |t| {
      Hex4IsRead(t, i + 2, unit);
    }
  }

  lemma UnitIsOne(t: string, i: nat, a: nat, b: nat)
    requires Unit(t, i, a) && Unit(t, i, b)
    ensures a == b
  {
    hide Unit, ReadHex4;
    UnitStarts(t, i, a);
    UnitIsRead(t, i, a);
    UnitIsRead(t, i, b);
  }

  lemma UnitStarts(t: string, i: nat, unit: nat)
    requires Unit(t, i, unit)
    ensures i + 6 <= |t| && t[i] == '\\' && t[i + 1] == 'u' && unit < 0x1_0000
  {
    hide HexValue;
    Hex4IsRead(t, i + 2, unit);
  }

  /** One escape of a code unit past its `u`. */
  lemma UnicodeIsRead(t: string, i: nat, j: nat, bytes: string)
    requires i + 2 <= |t| && t[i] == '\\' && t[i + 1] == 'u'
    ensures ReadUnicode(t, i + 2) == Got(bytes, j) <==> OneUnit(t, i, j, bytes) || TwoUnits(t, i, j, bytes)
  {
    hide Unit, ReadHex4, Utf8, Decoded;
    if ReadUnicode(t, i + 2) == Got(bytes, j) { UnicodeRead(t, i, j, bytes); }
    if OneUnit(t, i, j, bytes) {
      var unit: nat :| Unit(t, i, unit) && Scalar(unit) && Decoded(bytes) == Some(unit);
      UnitIsRead(t, i, unit);
      UnitStarts(t, i, unit);
      Utf8IsDecoded(unit, bytes);
    }
    if TwoUnits(t, i, j, bytes) {
      var high: nat, low: nat :| Unit(t, i, high) && Unit(t, i + 6, low) && 0xD800 <= high <= 0xDBFF && 0xDC00 <= low <= 0xDFFF
                                 && Decoded(bytes) == Some(0x1_0000 + (high - 0xD800) * 0x400 + (low - 0xDC00));
      PairFound(t, i, high, low, bytes);
    }
  }

  lemma UnicodeRead(t: string, i: nat, j: nat, bytes: string)
    requires i + 2 <= |t| && t[i] == '\\' && t[i + 1] == 'u' && ReadUnicode(t, i + 2) == Got(bytes, j)
    ensures OneUnit(t, i, j, bytes) || TwoUnits(t, i, j, bytes)
  {
    hide Unit, ReadHex4, Utf8, Decoded;
    var unit := ReadHex4(t, i + 2).value;
    UnitIsRead(t, i, unit);
    if unit < 0xD800 || unit > 0xDBFF {
      Utf8IsDecoded(unit, bytes);
    } else {
      var low := ReadHex4(t, i + 8).value;
      UnitIsRead(t, i + 6, low);
      Utf8IsDecoded(0x1_0000 + (unit - 0xD800) * 0x400 + (low - 0xDC00), bytes);
      assert Pair(t, i, i + 6, bytes);
    }
  }

  lemma PairFound(t: string, i: nat, high: nat, low: nat, bytes: string)
    requires i + 2 <= |t| && t[i] == '\\' && t[i + 1] == 'u'
    requires Unit(t, i, high) && Unit(t, i + 6, low) && 0xD800 <= high <= 0xDBFF && 0xDC00 <= low <= 0xDFFF
    requires Decoded(bytes) == Some(0x1_0000 + (high - 0xD800) * 0x400 + (low - 0xDC00))
    ensures ReadUnicode(t, i + 2) == Got(bytes, i + 12)
  {
    hide Unit, ReadHex4, Utf8, Decoded;
    UnitStarts(t, i + 6, low);
    UnitIsRead(t, i, high);
    UnitIsRead(t, i + 6, low);
    Utf8IsDecoded(0x1_0000 + (high - 0xD800) * 0x400 + (low - 0xDC00), bytes);
  }

  lemma PlainIsRead(c: char, b: char)
    ensures PlainEscape(c) == Some(b) <==> c in Escapes() && b as int == Escapes()[c]
  {
    assert b as int == 0x22 <==> b == '"';
    assert b as int == 0x5C <==> b == '\\';
    assert b as int == 0x2F <==> b == '/';
    assert b as int == 0x08 <==> b == '\U{8}';
    assert b as int == 0x0C <==> b == '\U{C}';
    assert b as int == 0x0A <==> b == '\n';
    assert b as int == 0x0D <==> b == '\r';
    assert b as int == 0x09 <==> b == '\t';
  }

  lemma EscapeIsRead(t: string, i: nat, j: nat, bytes: string)
    requires i < |t| && t[i] == '\\'
    ensures ReadEscape(t, i + 1) == Got(bytes, j) <==> Escaped(t, i, j, bytes) || OneUnit(t, i, j, bytes) || TwoUnits(t, i, j, bytes)
  {
    hide Unit, Decoded, ReadUnicode, OneUnit, TwoUnits, Escapes, PlainEscape;
    if i + 1 < |t| && t[i + 1] == 'u' {
      UnicodeIsRead(t, i, j, bytes);
      assert !Escaped(t, i, j, bytes) by { NoPlainU(); }
    } else {
      if OneUnit(t, i, j, bytes) || TwoUnits(t, i, j, bytes) { UnitsStart(t, i, j, bytes); }
      if i + 1 < |t| && |bytes| == 1 {
        PlainIsRead(t[i + 1], bytes[0]);
        assert bytes == [bytes[0]];
      }
    }
  }

  lemma NoPlainU()
    ensures 'u' !in Escapes()
  {
  }

  lemma UnitsStart(t: string, i: nat, j: nat, bytes: string)
    requires OneUnit(t, i, j, bytes) || TwoUnits(t, i, j, bytes)
    ensures i + 1 < |t| && t[i] == '\\' && t[i + 1] == 'u' && j <= |t| && i < j
  {
  }

  lemma CharThen(t: string, i: nat, k: nat, j: nat, bytes: string, rest: string)
    requires i < k <= j && IsChar(t, i, k, bytes) && Chars(t, k, j, rest)
    ensures Chars(t, i, j, bytes + rest)
  {
    hide IsChar;
  }

  lemma {:induction false} CharsRead(t: string, i: nat, j: nat, text: string)
    requires ReadChars(t, i) == Got(text, j)
    ensures i < j <= |t| && t[j - 1] == '"' && Chars(t, i, j - 1, text)
    decreases |t| - i
  {
    hide ReadEscape, Chars;
    if t[i] == '"' {
      NoChars(t, i);
    } else if t[i] != '\\' {
      CharsRead(t, i + 1, j, ReadChars(t, i + 1).value);
      CharThen(t, i, i + 1, j - 1, [t[i]], ReadChars(t, i + 1).value);
    } else {
      var escape := ReadEscape(t, i + 1);
      CharsRead(t, escape.next, j, ReadChars(t, escape.next).value);
      EscapeIsRead(t, i, escape.next, escape.value);
      CharThen(t, i, escape.next, j - 1, escape.value, ReadChars(t, escape.next).value);
    }
  }

  lemma NoChars(t: string, i: nat)
    ensures Chars(t, i, i, [])
  {
  }

  lemma CharFound(t: string, i: nat, k: nat, bytes: string)
    requires IsChar(t, i, k, bytes)
    ensures i < k <= |t| && t[i] != '"'
    ensures ReadChars(t, i) == Prepend(bytes, ReadChars(t, k))
  {
    hide ReadEscape, Escapes, Unit, Decoded;
    if Unescaped(t, i, k, bytes) {
      assert t[i] != '"' && t[i] != '\\' && !(t[i] < ' ');
    } else {
      if OneUnit(t, i, k, bytes) || TwoUnits(t, i, k, bytes) { UnitsStart(t, i, k, bytes); }
      EscapeIsRead(t, i, k, bytes);
    }
  }

  lemma {:induction false} CharsFound(t: string, i: nat, j: nat, text: string)
    requires Chars(t, i, j, text) && j < |t| && t[j] == '"'
    ensures i <= j && ReadChars(t, i) == Got(text, j + 1)
    decreases j - i
  {
    hide IsChar, ReadChars;
    if j <= i {
      NoneRead(t, i);
    } else {
      var k: nat, bytes, rest :| i < k <= j && text == bytes + rest && IsChar(t, i, k, bytes) && Chars(t, k, j, rest);
      CharFound(t, i, k, bytes);
      CharsFound(t, k, j, rest);
    }
  }

  lemma NoneRead(t: string, i: nat)
    requires i < |t| && t[i] == '"'
    ensures ReadChars(t, i) == Got([], i + 1)
  {
  }

  lemma StringRead(t: string, i: nat, j: nat, text: string)
    requires i < |t| && t[i] == '"'
    ensures ReadChars(t, i + 1) == Got(text, j) <==> IsString(t, i, j, text)
  {
    hide ReadChars, Chars;
    if ReadChars(t, i + 1) == Got(text, j) { CharsRead(t, i + 1, j, text); }
    if IsString(t, i, j, text) { CharsFound(t, i + 1, j - 1, text); }
  }

  // ----- Values -----

  lemma LiteralRead(t: string, i: nat, j: nat, word: string, named: Value, v: Value)
    requires i <= |t| && word != []
    ensures ReadLiteral(t, i, word, named) == Got(v, j) <==> v == named && Spells(t, i, j, word)
  {
  }

  lemma PaddedIs(t: string, i: nat, a: nat, b: nat, j: nat, v: Value, levels: nat)
    requires i <= a <= b <= j && Blanks(t, i, a) && IsValue(t, a, b, v, levels) && Blanks(t, b, j)
    ensures Padded(t, i, j, v, levels)
  {
    hide IsValue, Blanks;
  }

  lemma MoreElements(t: string, i: nat, k: nat, j: nat, v: Value, es: seq<Value>, levels: nat)
    requires i <= k < j && CharAt(t, k, ',') && Padded(t, i, k, v, levels) && Elements(t, k + 1, j, es, levels)
    ensures Elements(t, i, j, [v] + es, levels)
  {
    hide Padded;
    var all := [v] + es;
    assert es != [] by { hide *; SomeElements(t, k + 1, j, es, levels); }
    assert all[0] == v && all[1..] == es && |all| > 1;
  }

  lemma SomeElements(t: string, i: nat, j: nat, es: seq<Value>, levels: nat)
    requires Elements(t, i, j, es, levels)
    ensures es != []
  {
  }

  lemma MoreMembers(t: string, i: nat, k: nat, j: nat, m: Member, ms: seq<Member>, levels: nat)
    requires i <= k < j && CharAt(t, k, ',') && IsMember(t, i, k, m, levels) && Members(t, k + 1, j, ms, levels)
    ensures Members(t, i, j, [m] + ms, levels)
  {
    hide IsMember;
    var all := [m] + ms;
    assert ms != [] by { hide *; SomeMembers(t, k + 1, j, ms, levels); }
    assert all[0] == m && all[1..] == ms && |all| > 1;
  }

  lemma SomeMembers(t: string, i: nat, j: nat, ms: seq<Member>, levels: nat)
    requires Members(t, i, j, ms, levels)
    ensures ms != []
  {
  }

  lemma SkipTwice(t: string, i: nat)
    requires i <= |t|
    ensures SkipBlanks(t, SkipBlanks(t, i)) == SkipBlanks(t, i)
  {
  }

  // ----- What is read is in the grammar -----

  lemma {:induction false} ValueRead(t: string, i: nat, j: nat, v: Value, depth: nat)
    requires i <= |t| && ReadValue(t, i, depth) == Got(v, j)
    ensures depth < 16 && i < j <= |t| && IsValue(t, i, j, v, 16 - depth)
    decreases |t| - i, 0
  {
    hide ReadArray, ReadObject, ReadChars, ReadNumber, ReadLiteral, Elements, Members, Blanks, IsString, IsNumber, Spells;
    if t[i] == 'n' {
      LiteralRead(t, i, j, "null", Null, v);
    } else if t[i] == 't' {
      LiteralRead(t, i, j, "true", Bool(true), v);
    } else if t[i] == 'f' {
      LiteralRead(t, i, j, "false", Bool(false), v);
    } else if t[i] == '"' {
      StringRead(t, i, j, v.text);
    } else if t[i] == '[' {
      ArrayRead(t, i + 1, j, v.elements, depth);
    } else if t[i] == '{' {
      ObjectRead(t, i + 1, j, v.members, depth);
    } else {
      NumberOnly(t, i);
      NumberIsRead(t, i, j, v.integer);
    }
  }

  lemma NumberOnly(t: string, i: nat)
    requires i <= |t|
    ensures ReadNumber(t, i).Got? ==> ReadNumber(t, i).value.Number?
  {
    hide IntegerEnd, FractionEnd, ExponentEnd, Integer64;
  }

  lemma {:induction false} ArrayRead(t: string, i: nat, j: nat, es: seq<Value>, depth: nat)
    requires i <= |t| && depth < 16 && ReadArray(t, i, depth) == Got(es, j)
    ensures i < j <= |t| && t[j - 1] == ']'
    ensures if es == [] then Blanks(t, i, j - 1) else Elements(t, i, j - 1, es, 15 - depth)
    decreases |t| - i, 3
  {
    hide Blanks, SkipBlanks, ReadValue, Elements;
    BlanksSkipped(t, i);
    SkipTwice(t, i);
    if !CharAt(t, SkipBlanks(t, i), ']') {
      ElementsRead(t, i, j, es, depth);
      SomeElements(t, i, j - 1, es, 15 - depth);
    }
  }

  lemma {:induction false} ElementsRead(t: string, i: nat, j: nat, es: seq<Value>, depth: nat)
    requires i <= |t| && depth < 16 && ReadElements(t, i, depth) == Got(es, j)
    ensures i < j <= |t| && t[j - 1] == ']' && Elements(t, i, j - 1, es, 15 - depth)
    decreases |t| - i, 2
  {
    hide Blanks, SkipBlanks, ReadValue, Elements, Padded, IsValue;
    var a := SkipBlanks(t, i);
    var v := ReadValue(t, a, depth + 1);
    var k := SkipBlanks(t, v.next);
    BlanksSkipped(t, i);
    BlanksSkipped(t, v.next);
    ValueRead(t, a, v.next, v.value, depth + 1);
    PaddedIs(t, i, a, v.next, k, v.value, 15 - depth);
    if CharAt(t, k, ',') {
      var rest := ReadElements(t, k + 1, depth);
      ElementsRead(t, k + 1, j, rest.value, depth);
      MoreElements(t, i, k, j - 1, v.value, rest.value, 15 - depth);
    } else {
      OneElement(t, i, k, v.value, 15 - depth);
    }
  }

  lemma OneElement(t: string, i: nat, j: nat, v: Value, levels: nat)
    ensures Padded(t, i, j, v, levels) <==> Elements(t, i, j, [v], levels)
  {
    hide Padded;
  }

  lemma OneMember(t: string, i: nat, j: nat, m: Member, levels: nat)
    ensures IsMember(t, i, j, m, levels) <==> Members(t, i, j, [m], levels)
  {
    hide IsMember;
  }

  /** A name, and a colon after it. */
  ghost predicate KeyAt(t: string, i: nat, a: nat, b: nat, k: nat, key: string) {
    i <= a < b <= k && Blanks(t, i, a) && IsString(t, a, b, key) && Blanks(t, b, k) && CharAt(t, k, ':')
  }

  lemma KeyRead(t: string, i: nat, key: string, next: nat) returns (a: nat, b: nat, k: nat)
    requires i <= |t| && ReadKey(t, i) == Got(key, next)
    ensures KeyAt(t, i, a, b, k, key) && k < |t| && next == SkipBlanks(t, k + 1)
  {
    hide Blanks, SkipBlanks, ReadChars, Chars;
    a := SkipBlanks(t, i);
    b := ReadChars(t, a + 1).next;
    k := SkipBlanks(t, b);
    BlanksSkipped(t, i);
    BlanksSkipped(t, b);
    StringRead(t, a, b, key);
  }

  lemma MemberIs(t: string, i: nat, a: nat, b: nat, k: nat, j: nat, m: Member, levels: nat)
    requires KeyAt(t, i, a, b, k, m.key) && k < j && Padded(t, k + 1, j, m.value, levels)
    ensures IsMember(t, i, j, m, levels)
  {
    hide Padded, IsString, Blanks;
  }

  lemma {:induction false} ObjectRead(t: string, i: nat, j: nat, ms: seq<Member>, depth: nat)
    requires i <= |t| && depth < 16 && ReadObject(t, i, depth) == Got(ms, j)
    ensures i < j <= |t| && t[j - 1] == '}'
    ensures if ms == [] then Blanks(t, i, j - 1) else Members(t, i, j - 1, ms, 15 - depth)
    decreases |t| - i, 3
  {
    hide Blanks, SkipBlanks, ReadValue, Members, ReadChars;
    BlanksSkipped(t, i);
    SkipTwice(t, i);
    if !CharAt(t, SkipBlanks(t, i), '}') {
      MembersRead(t, i, j, ms, depth);
      SomeMembers(t, i, j - 1, ms, 15 - depth);
    }
  }

  lemma {:induction false} MembersRead(t: string, i: nat, j: nat, ms: seq<Member>, depth: nat)
    requires i <= |t| && depth < 16 && ReadMembers(t, i, depth) == Got(ms, j)
    ensures i < j <= |t| && t[j - 1] == '}' && Members(t, i, j - 1, ms, 15 - depth)
    decreases |t| - i, 2
  {
    hide Blanks, SkipBlanks, ReadValue, Members, Padded, IsValue, ReadKey, KeyAt, IsMember;
    var key := ReadKey(t, i);
    var a, b, c := KeyRead(t, i, key.value, key.next);
    var v := ReadValue(t, key.next, depth + 1);
    var k := SkipBlanks(t, v.next);
    var m := Member(key.value, v.value);
    KeyGoesOn(t, i, a, b, c, key.value);
    BlanksSkipped(t, c + 1);
    BlanksSkipped(t, v.next);
    ValueRead(t, key.next, v.next, v.value, depth + 1);
    PaddedIs(t, c + 1, key.next, v.next, k, v.value, 15 - depth);
    MemberIs(t, i, a, b, c, k, m, 15 - depth);
    if CharAt(t, k, ',') {
      var rest := ReadMembers(t, k + 1, depth);
      MembersRead(t, k + 1, j, rest.value, depth);
      MoreMembers(t, i, k, j - 1, m, rest.value, 15 - depth);
    } else {
      OneMember(t, i, k, m, 15 - depth);
    }
  }

  lemma KeyGoesOn(t: string, i: nat, a: nat, b: nat, k: nat, key: string)
    requires KeyAt(t, i, a, b, k, key)
    ensures i < k < |t|
  {
    hide IsString, Blanks;
  }

  // ----- What is in the grammar is read -----

  lemma ValueStarts(t: string, i: nat, j: nat, v: Value, levels: nat)
    requires IsValue(t, i, j, v, levels)
    ensures i < j <= |t| && SkipBlanks(t, i) == i && t[i] !in {']', '}', ',', ':'}
    ensures v.Null? ==> t[i] == 'n'
    ensures v.Bool? ==> t[i] == if v.truth then 't' else 'f'
    ensures v.Number? ==> t[i] == '-' || IsDigit(t[i])
    ensures v.String? ==> t[i] == '"'
  {
    hide Elements, Members, Chars, Blanks, Exponent, Fraction, Means;
    match v
    case Null => assert t[i..j][0] == t[i];
    case Bool(truth) => assert t[i..j][0] == t[i];
    case Number(integer) =>
      var a: nat, b: nat :| NumberAt(t, i, a, b, j, integer);
      NumberSpans(t, a, b, j);
    case _ =>
  }

  lemma NumberSpans(t: string, a: nat, b: nat, j: nat)
    requires Fraction(t, a, b) && Exponent(t, b, j)
    ensures a <= b <= j && (a < j ==> j <= |t|)
  {
  }

  lemma {:induction false} ValueFound(t: string, i: nat, j: nat, v: Value, levels: nat)
    requires IsValue(t, i, j, v, levels) && levels <= 16 && Stops(t, j)
    ensures i < j <= |t| && SkipBlanks(t, i) == i && t[i] !in {']', '}', ',', ':'}
    ensures ReadValue(t, i, 16 - levels) == Got(v, j)
    decreases j - i, 0
  {
    hide ReadArray, ReadObject, ReadChars, ReadNumber, ReadLiteral, Elements, Members, Blanks, IsString, IsNumber, Spells, SkipBlanks, Stops;
    ValueStarts(t, i, j, v, levels);
    match v
    case Null => LiteralRead(t, i, j, "null", Null, v);
    case Bool(truth) =>
      LiteralRead(t, i, j, "true", Bool(true), v);
      LiteralRead(t, i, j, "false", Bool(false), v);
    case Number(integer) => NumberIsRead(t, i, j, integer);
    case String(text) => StringRead(t, i, j, text);
    case Array(es) => ArrayFound(t, i + 1, j - 1, es, levels - 1);
    case Object(ms) => ObjectFound(t, i + 1, j - 1, ms, levels - 1);
  }

  /** A character that may be next to a value. */
  lemma Delimits(t: string, a: nat, j: nat)
    requires Blanks(t, a, j) && (j < |t| ==> t[j] in {']', '}', ',', ':', '"'})
    ensures Stops(t, a) && SkipBlanks(t, a) == j
  {
    SkipsBlanks(t, a, j);
  }

  lemma {:induction false} PaddedFound(t: string, i: nat, j: nat, v: Value, levels: nat) returns (b: nat)
    requires Padded(t, i, j, v, levels) && levels <= 16 && j <= |t| && (j < |t| ==> t[j] in {']', '}', ','})
    ensures i < j && SkipBlanks(t, i) < |t| && t[SkipBlanks(t, i)] !in {']', '}'}
    ensures i <= b <= |t| && ReadValue(t, SkipBlanks(t, i), 16 - levels) == Got(v, b) && SkipBlanks(t, b) == j
    decreases j - i, 1
  {
    hide ReadValue, IsValue, SkipBlanks, Blanks;
    var a: nat;
    a, b :| i <= a <= b <= j && Blanks(t, i, a) && IsValue(t, a, b, v, levels) && Blanks(t, b, j);
    Delimits(t, b, j);
    ValueFound(t, a, b, v, levels);
    SkipsTo(t, i, a);
  }

  lemma SkipsTo(t: string, i: nat, a: nat)
    requires Blanks(t, i, a) && SkipBlanks(t, a) == a
    ensures SkipBlanks(t, i) == a
  {
    SkipsBlanks(t, a, a);
    SkipsBlanks(t, i, a);
  }

  lemma {:induction false} ArrayFound(t: string, i: nat, j: nat, es: seq<Value>, levels: nat)
    requires if es == [] then Blanks(t, i, j) else Elements(t, i, j, es, levels)
    requires i <= j < |t| && t[j] == ']' && levels <= 15
    ensures ReadArray(t, i, 15 - levels) == Got(es, j + 1)
    decreases j - i, 3
  {
    hide ReadValue, SkipBlanks, Blanks, Elements;
    if es == [] {
      Delimits(t, i, j);
    } else {
      ElementsFound(t, i, j, es, levels);
      SkipTwice(t, i);
    }
  }

  lemma {:induction false} ElementsFound(t: string, i: nat, j: nat, es: seq<Value>, levels: nat)
    requires i <= j < |t| && Elements(t, i, j, es, levels) && t[j] == ']' && levels <= 15
    ensures !CharAt(t, SkipBlanks(t, i), ']') && ReadElements(t, i, 15 - levels) == Got(es, j + 1)
    decreases j - i, 2
  {
    hide ReadValue, SkipBlanks, Padded;
    if |es| == 1 {
      var b := PaddedFound(t, i, j, es[0], levels);
      assert es == [es[0]];
    } else {
      var k: nat :| i <= k < j && CharAt(t, k, ',') && Padded(t, i, k, es[0], levels) && Elements(t, k + 1, j, es[1..], levels);
      var b := PaddedFound(t, i, k, es[0], levels);
      ElementsFound(t, k + 1, j, es[1..], levels);
      assert es == [es[0]] + es[1..];
    }
  }

  lemma KeyFound(t: string, i: nat, a: nat, b: nat, k: nat, key: string)
    requires KeyAt(t, i, a, b, k, key)
    ensures k < |t| && ReadKey(t, i) == Got(key, SkipBlanks(t, k + 1))
  {
    hide ReadChars, Chars, SkipBlanks, Blanks;
    StringRead(t, a, b, key);
    StringStarts(t, a, b, key);
    SkipsTo(t, i, a);
    Delimits(t, b, k);
  }

  lemma StringStarts(t: string, a: nat, b: nat, text: string)
    requires IsString(t, a, b, text)
    ensures a < b <= |t| && t[a] == '"' && SkipBlanks(t, a) == a
  {
    hide Chars;
  }

  lemma {:induction false} ObjectFound(t: string, i: nat, j: nat, ms: seq<Member>, levels: nat)
    requires if ms == [] then Blanks(t, i, j) else Members(t, i, j, ms, levels)
    requires i <= j < |t| && t[j] == '}' && levels <= 15
    ensures ReadObject(t, i, 15 - levels) == Got(ms, j + 1)
    decreases j - i, 4
  {
    hide ReadValue, SkipBlanks, Blanks, Members, ReadKey;
    if ms == [] {
      Delimits(t, i, j);
    } else {
      MembersFound(t, i, j, ms, levels);
      SkipTwice(t, i);
      MembersMoved(t, i, 15 - levels);
    }
  }

  lemma MembersMoved(t: string, i: nat, depth: nat)
    requires i <= |t|
    ensures ReadMembers(t, SkipBlanks(t, i), depth) == ReadMembers(t, i, depth)
  {
    hide ReadValue, ReadChars;
    SkipTwice(t, i);
    hide SkipBlanks;
  }

  /** A member is read to what follows its value. */
  lemma {:induction false} MemberFound(t: string, i: nat, j: nat, m: Member, levels: nat) returns (start: nat, b: nat)
    requires IsMember(t, i, j, m, levels) && levels <= 15 && j < |t| && t[j] in {'}', ','}
    ensures i < j && SkipBlanks(t, i) < |t| && t[SkipBlanks(t, i)] == '"' && ReadKey(t, i) == Got(m.key, start)
    ensures start <= |t| && b <= |t| && ReadValue(t, start, 16 - levels) == Got(m.value, b) && SkipBlanks(t, b) == j
    decreases j - i, 2
  {
    hide ReadValue, SkipBlanks, Padded, IsString, Blanks, ReadKey;
    var a: nat, e: nat, k: nat :| i <= a < e <= k < j && Blanks(t, i, a) && IsString(t, a, e, m.key) && Blanks(t, e, k)
                                  && CharAt(t, k, ':') && Padded(t, k + 1, j, m.value, levels);
    StringStarts(t, a, e, m.key);
    SkipsTo(t, i, a);
    KeyFound(t, i, a, e, k, m.key);
    b := PaddedFound(t, k + 1, j, m.value, levels);
    start := SkipBlanks(t, k + 1);
  }

  lemma {:induction false} MembersFound(t: string, i: nat, j: nat, ms: seq<Member>, levels: nat)
    requires i <= j < |t| && Members(t, i, j, ms, levels) && t[j] == '}' && levels <= 15
    ensures !CharAt(t, SkipBlanks(t, i), '}') && ReadMembers(t, i, 15 - levels) == Got(ms, j + 1)
    decreases j - i, 3
  {
    hide ReadValue, SkipBlanks, IsMember, ReadKey;
    if |ms| == 1 {
      var start, b := MemberFound(t, i, j, ms[0], levels);
      assert ms == [ms[0]];
    } else {
      var k: nat :| i <= k < j && CharAt(t, k, ',') && IsMember(t, i, k, ms[0], levels) && Members(t, k + 1, j, ms[1..], levels);
      var start, b := MemberFound(t, i, k, ms[0], levels);
      MembersFound(t, k + 1, j, ms[1..], levels);
      assert ms == [ms[0]] + ms[1..];
    }
  }

  // ----- Whole texts -----

  /** The reading finds the value of every text of the grammar, and no other text's. */
  lemma DocumentIsRead(t: string, v: Value)
    ensures ReadDocument(t) == Some(v) <==> Document(t, v)
  {
    hide ReadValue, IsValue, Blanks, SkipBlanks;
    if ReadDocument(t) == Some(v) {
      var a := SkipBlanks(t, 0);
      var b := ReadValue(t, a, 0).next;
      ValueRead(t, a, b, v, 0);
      BlanksSkipped(t, 0);
      BlanksSkipped(t, b);
      PaddedIs(t, 0, a, b, |t|, v, 16);
    }
    if Document(t, v) {
      var b := PaddedFound(t, 0, |t|, v, 16);
    }
  }

  /** A text has one meaning. */
  lemma OneMeaning(t: string, v: Value, w: Value)
    requires Document(t, v) && Document(t, w)
    ensures v == w
  {
    hide ReadDocument, Document;
    DocumentIsRead(t, v);
    DocumentIsRead(t, w);
  }

  /** A text that is one string of one escape. */
  lemma EscapeIsDocument(t: string, unit: nat, bytes: string)
    requires |t| == 8 && t[0] == t[7] == '"' && Unit(t, 1, unit) && Scalar(unit) && Decoded(bytes) == Some(unit)
    ensures Document(t, String(bytes))
  {
    hide Unit, Decoded;
    assert IsChar(t, 1, 7, bytes);
    NoChars(t, 7);
    CharThen(t, 1, 7, 7, bytes, []);
    assert bytes + [] == bytes;
    PaddedIs(t, 0, 0, 8, 8, String(bytes), 16);
  }

  /** A text that is one string of one surrogate pair. */
  lemma PairIsDocument(t: string, high: nat, low: nat, bytes: string)
    requires |t| == 14 && t[0] == t[13] == '"' && Unit(t, 1, high) && Unit(t, 7, low)
    requires 0xD800 <= high <= 0xDBFF && 0xDC00 <= low <= 0xDFFF
    requires Decoded(bytes) == Some(0x1_0000 + (high - 0xD800) * 0x400 + (low - 0xDC00))
    ensures Document(t, String(bytes))
  {
    hide Unit, Decoded;
    assert Pair(t, 1, 7, bytes) && IsChar(t, 1, 13, bytes);
    NoChars(t, 13);
    CharThen(t, 1, 13, 13, bytes, []);
    assert bytes + [] == bytes;
    PaddedIs(t, 0, 0, 14, 14, String(bytes), 16);
  }
}
