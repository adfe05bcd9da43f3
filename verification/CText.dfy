/** Numbers as C text: what printf writes for %d and %o, and what strtol reads back
    (sections 7.19.6.1 and 7.20.1.4 of ISO C99), with a 64-bit long and a 32-bit int. */
module CText {

  const LONG_MAX: int := 0x7fff_ffff_ffff_ffff
  const LONG_MIN: int := -0x8000_0000_0000_0000
  const INT_MAX: int := 0x7fff_ffff
  const INT_RANGE: int := 0x1_0000_0000
  const NOT_A_DIGIT: nat := 99

  function Clamp(v: int): (r: int)
    ensures LONG_MIN <= r <= LONG_MAX && (LONG_MIN <= v <= LONG_MAX ==> r == v)
    ensures v > LONG_MAX ==> r == LONG_MAX
    ensures v < LONG_MIN ==> r == LONG_MIN
  {
    if v > LONG_MAX then LONG_MAX else if v < LONG_MIN then LONG_MIN else v
  }

  /** The values of an int. */
  type CInt = x: int | -INT_MAX - 1 <= x <= INT_MAX

  /** What is left of a long that is stored in an int: its low 32 bits, sign extended. */
  function ToInt(v: int): CInt {
    var low := v % INT_RANGE;
    if low > INT_MAX then low - INT_RANGE else low
  }

  /** The int has the same low 32 bits, and is the long itself if that fits. */
  lemma ToIntKeepsLowBits(v: int)
    ensures ToInt(v) % INT_RANGE == v % INT_RANGE
    ensures -INT_MAX - 1 <= v <= INT_MAX ==> ToInt(v) == v
  {
  }

  predicate IsSpace(c: char) {
    c == ' ' || c == '\t' || c == '\n' || c == '\r' || c == '\U{0B}' || c == '\U{0C}'
  }

  /** The value of a digit or letter, as strtol takes it. */
  function DigitValue(c: char): nat {
    if '0' <= c <= '9' then (c - '0') as nat
    else if 'a' <= c <= 'z' then (c - 'a') as nat + 10
    else if 'A' <= c <= 'Z' then (c - 'A') as nat + 10
    else NOT_A_DIGIT
  }

  predicate IsDigit(c: char, base: nat) {
    DigitValue(c) < base
  }

  predicate AllDigits(s: string, base: nat) {
    forall i :: 0 <= i < |s| ==> IsDigit(s[i], base)
  }

  /** The length of the longest prefix of digits. */
  function DigitRun(s: string, base: nat): (r: nat)
    ensures r <= |s|
  {
    if s == [] || !IsDigit(s[0], base) then 0 else 1 + DigitRun(s[1..], base)
  }

  function SpaceRun(s: string): (r: nat)
    ensures r <= |s|
  {
    if s == [] || !IsSpace(s[0]) then 0 else 1 + SpaceRun(s[1..])
  }

  /** The number a digit string stands for. */
  function ValueOf(s: string, base: nat): nat {
    if s == [] then 0 else ValueOf(s[..|s| - 1], base) * base + DigitValue(s[|s| - 1])
  }

  /** The value read, and how many characters were used: 0 if there was no number. */
  datatype Read = Read(value: int, end: nat)

  predicate HexPrefix(s: string) {
    |s| >= 3 && s[0] == '0' && (s[1] == 'x' || s[1] == 'X') && IsDigit(s[2], 16)
  }

  /** The digits after the sign, in the given base; base 0 looks at the text. */
  function ReadDigits(s: string, base: nat): (r: Read)
    ensures r.end <= |s| && r.value >= 0
  {
    if base == 0 && HexPrefix(s) then
      var run := DigitRun(s[2..], 16);
      Read(ValueOf(s[2..][..run], 16), 2 + run)
    else
      var b := if base != 0 then base else if s != [] && s[0] == '0' then 8 else 10;
      var run := DigitRun(s, b);
      Read(ValueOf(s[..run], b), run)
  }

  function Strtol(s: string, base: nat): (r: Read)
    ensures r.end <= |s|
  {
    var spaces := SpaceRun(s);
    var t := s[spaces..];
    var sign := if t != [] && (t[0] == '-' || t[0] == '+') then 1 else 0;
    var digits := ReadDigits(t[sign..], base);
    if digits.end == 0 then Read(0, 0)
    else
      Read(Clamp(if sign == 1 && t[0] == '-' then -digits.value else digits.value),
           spaces + sign + digits.end)
  }

  // ---------------------------------------------------------------- printing

  function DigitChar(d: nat): char
    requires d < 10
  {
    '0' + d as char
  }

  /** The digits of `n`, most significant first, without leading zeros. */
  function Numeral(n: nat, base: nat): string
    requires 2 <= base <= 10
  {
    if n < base then [DigitChar(n)] else Numeral(n / base, base) + [DigitChar(n % base)]
  }

  lemma DigitCharReads(d: nat)
    requires d < 10
    ensures DigitValue(DigitChar(d)) == d
  {
  }

  lemma ValueAppend(s: string, c: char, base: nat)
    ensures ValueOf(s + [c], base) == ValueOf(s, base) * base + DigitValue(c)
  {
    assert (s + [c])[..|s + [c]| - 1] == s;
  }

  lemma AllDigitsAppend(s: string, d: nat, base: nat)
    requires d < base <= 10 && AllDigits(s, base)
    ensures AllDigits(s + [DigitChar(d)], base)
  {
    DigitCharReads(d);
  }

  lemma DivMod(n: nat, base: nat)
    requires base > 0
    ensures (n / base) * base + n % base == n && n % base < base
    ensures n >= base >= 2 ==> n / base < n
  {
  }

  lemma NumeralStep(q: nat, d: nat, base: nat, front: string)
    requires 2 <= base <= 10 && d < base
    requires AllDigits(front, base) && ValueOf(front, base) == q
    ensures AllDigits(front + [DigitChar(d)], base)
    ensures ValueOf(front + [DigitChar(d)], base) == q * base + d
  {
    DigitCharReads(d);
    AllDigitsAppend(front, d, base);
    ValueAppend(front, DigitChar(d), base);
  }

  lemma {:induction false} NumeralReads(n: nat, base: nat)
    requires 2 <= base <= 10
    ensures Numeral(n, base) != [] && AllDigits(Numeral(n, base), base)
    ensures ValueOf(Numeral(n, base), base) == n
  {
    if n < base {
      NumeralStep(0, n, base, []);
      assert [] + [DigitChar(n)] == [DigitChar(n)];
    } else {
      var q, d := n / base, n % base;
      DivMod(n, base);
      NumeralReads(q, base);
      NumeralStep(q, d, base, Numeral(q, base));
      assert Numeral(n, base) == Numeral(q, base) + [DigitChar(d)];
    }
  }

  // ---------------------------------------------------------------- reading back

  lemma {:induction false} DigitRunAll(s: string, t: string, base: nat)
    requires AllDigits(s, base)
    requires t == [] || !IsDigit(t[0], base)
    ensures DigitRun(s + t, base) == |s|
  {
    if s == [] {
      assert s + t == t;
    } else {
      DigitRunAll(s[1..], t, base);
      assert (s + t)[1..] == s[1..] + t;
    }
  }

  lemma DigitIsNoSpace(c: char, base: nat)
    requires base <= 16 && IsDigit(c, base)
    ensures !IsSpace(c) && c != '-' && c != '+' && c != ','
  {
  }

  /** Reading a non-empty digit string in base ten, up to something that is not a digit. */
  lemma StrtolDigits(s: string, t: string)
    requires s != [] && AllDigits(s, 10) && (t == [] || !IsDigit(t[0], 10))
    ensures Strtol(s + t, 10) == Read(Clamp(ValueOf(s, 10)), |s|)
  {
    DigitIsNoSpace(s[0], 10);
    assert (s + t)[0] == s[0];
    assert SpaceRun(s + t) == 0;
    assert (s + t)[0..] == s + t;
    DigitRunAll(s, t, 10);
    assert (s + t)[..|s|] == s;
  }

  lemma StrtolAllDigits(s: string)
    requires s != [] && AllDigits(s, 10)
    ensures Strtol(s, 10) == Read(Clamp(ValueOf(s, 10)), |s|)
  {
    assert s + [] == s;
    StrtolDigits(s, []);
  }

  lemma ReadOctal(t: string)
    requires t != [] && t[0] == '0' && AllDigits(t, 8)
    ensures ReadDigits(t, 0) == Read(ValueOf(t, 8), |t|)
  {
    if |t| >= 2 { assert IsDigit(t[1], 8); }
    DigitRunAll(t, [], 8);
    assert t + [] == t;
    assert t[..|t|] == t;
  }

  /** A digit 0 followed by octal digits is octal in base 0. */
  lemma StrtolOctal(t: string)
    requires t != [] && t[0] == '0' && AllDigits(t, 8)
    ensures Strtol(t, 0) == Read(Clamp(ValueOf(t, 8)), |t|)
  {
    ReadOctal(t);
    assert SpaceRun(t) == 0;
    assert t[0..] == t;
  }

  lemma {:induction false} LeadingZero(s: string, base: nat)
    ensures ValueOf("0" + s, base) == ValueOf(s, base)
  {
    var t := "0" + s;
    if s == [] {
      assert t == "0" && t[..0] == [];
    } else {
      LeadingZero(s[..|s| - 1], base);
      assert t[..|t| - 1] == "0" + s[..|s| - 1];
    }
  }

  /** The digits, and what a place is worth. */
  lemma Digits(d: nat)
    requires d < 10
    ensures DigitChar(d) == "0123456789"[d] && DigitValue("0123456789"[d]) == d
    ensures DigitValue("abcdef"[d % 6]) == DigitValue("ABCDEF"[d % 6]) == 10 + d % 6
  {
  }

  function Weight(base: nat, places: nat): nat {
    if places == 0 then 1 else Weight(base, places - 1) * base
  }

  lemma PlacesStep(v: nat, w: nat, f: nat, base: nat, d: nat)
    ensures (v * w + f) * base + d == v * (w * base) + (f * base + d)
  {
    assert (v * w + f) * base == (v * w) * base + f * base;
    assert (v * w) * base == v * (w * base);
  }

  lemma {:induction false} Places(s: string, t: string, base: nat, weight: nat)
    requires weight == Weight(base, |t|)
    ensures ValueOf(s + t, base) == ValueOf(s, base) * weight + ValueOf(t, base)
    decreases |t|
  {
    if t == [] {
      assert s + t == s;
    } else {
      var front, c, w := t[..|t| - 1], t[|t| - 1], Weight(base, |t| - 1);
      Places(s, front, base, w);
      assert s + t == (s + front) + [c] && t == front + [c];
      ValueAppend(s + front, c, base);
      ValueAppend(front, c, base);
      PlacesStep(ValueOf(s, base), w, ValueOf(front, base), base, DigitValue(c));
    }
  }

  // ---------------------------------------------------------------- which texts are numbers

  /** White space in the C locale. */
  predicate Blank(c: char) {
    c == ' ' || '\t' <= c <= '\r'
  }

  /** Blanks up to `i`, at most one sign up to `j`, and at least one decimal digit from there
      to the end. */
  predicate NumberShape(t: string, i: nat, j: nat, minus: bool) {
    && i <= j < |t| && (forall k :: 0 <= k < i ==> Blank(t[k]))
    && (j == i || (j == i + 1 && (t[i] == '+' || (minus && t[i] == '-'))))
    && forall k :: j <= k < |t| ==> '0' <= t[k] <= '9'
  }

  /** A decimal number, with a minus sign only if that is allowed. */
  ghost predicate NumberText(t: string, minus: bool) {
    exists i: nat, j: nat :: NumberShape(t, i, j, minus)
  }

  lemma {:induction false} SpaceRunIs(s: string, i: nat)
    requires i <= |s| && forall k :: 0 <= k < i ==> Blank(s[k])
    requires i == |s| || !Blank(s[i])
    ensures SpaceRun(s) == i
  {
    if i > 0 { SpaceRunIs(s[1..], i - 1); }
  }

  lemma {:induction false} SpaceRunStops(s: string)
    ensures var r := SpaceRun(s);
            (forall k :: 0 <= k < r ==> Blank(s[k])) && (r < |s| ==> !Blank(s[r]))
  {
    if s != [] && IsSpace(s[0]) {
      SpaceRunStops(s[1..]);
      assert forall k :: 0 < k <= SpaceRun(s[1..]) ==> s[k] == s[1..][k - 1];
    }
  }

  lemma {:induction false} DigitRunStops(s: string)
    ensures var r := DigitRun(s, 10);
            (forall k :: 0 <= k < r ==> '0' <= s[k] <= '9') && (r < |s| ==> !('0' <= s[r] <= '9'))
  {
    if s != [] && IsDigit(s[0], 10) {
      DigitRunStops(s[1..]);
      assert forall k :: 0 < k <= DigitRun(s[1..], 10) ==> s[k] == s[1..][k - 1];
    }
  }

  /** Where the sign and the digits begin. */
  function SignAt(t: string): nat { SpaceRun(t) }

  function DigitsAt(t: string): (r: nat)
    ensures SignAt(t) <= r <= |t|
  {
    var i := SpaceRun(t);
    if i < |t| && (t[i] == '-' || t[i] == '+') then i + 1 else i
  }

  lemma EndIs(t: string)
    requires Strtol(t, 10).end != 0
    ensures var run := DigitRun(t[DigitsAt(t)..], 10);
            run != 0 && Strtol(t, 10).end == DigitsAt(t) + run
  {
    var i := SpaceRun(t);
    assert t[i..][DigitsAt(t) - i..] == t[DigitsAt(t)..];
  }

  /** What strtol has used, if anything, is a number, and no digit follows it. */
  lemma StrtolShape(t: string)
    requires Strtol(t, 10).end != 0
    ensures var e := Strtol(t, 10).end;
            NumberText(t[..e], true) && (e < |t| ==> !('0' <= t[e] <= '9'))
  {
    var i, j, e := SignAt(t), DigitsAt(t), Strtol(t, 10).end;
    SpaceRunStops(t);
    DigitRunStops(t[j..]);
    EndIs(t);
    forall k | j <= k < e ensures '0' <= t[..e][k] <= '9' {
      assert t[k] == t[j..][k - j];
    }
    assert NumberShape(t[..e], i, j, true);
  }

  predicate IsSign(sign: string) {
    sign == "" || sign == "+" || sign == "-"
  }

  function Signed(negative: bool, v: int): int {
    if negative then -v else v
  }

  /** Blanks, a sign, and digits: what strtol makes of the whole is what it makes of the
      digits. */
  lemma StrtolParts(blanks: string, sign: string, t: string, base: nat)
    requires (forall k :: 0 <= k < |blanks| ==> Blank(blanks[k])) && IsSign(sign)
    requires t != [] && '0' <= t[0] <= '9' && ReadDigits(t, base).end != 0
    ensures var d := ReadDigits(t, base);
            Strtol(blanks + sign + t, base) ==
            Read(Clamp(Signed(sign == "-", d.value)), |blanks| + |sign| + d.end)
  {
    var s := blanks + sign + t;
    assert s[|blanks|] == if sign == "" then t[0] else sign[0];
    SpaceRunIs(s, |blanks|);
    assert s[|blanks|..] == sign + t;
    assert (sign + t)[|sign|..] == t;
  }

  lemma DecimalDigitsRead(t: string, u: string)
    requires t != [] && forall k :: 0 <= k < |t| ==> '0' <= t[k] <= '9'
    requires u == [] || !('0' <= u[0] <= '9')
    ensures ReadDigits(t + u, 10) == Read(ValueOf(t, 10), |t|)
  {
    DigitRunAll(t, u, 10);
    assert (t + u)[..|t|] == t;
  }

  lemma SignPart(s: string, i: nat, j: nat)
    requires NumberShape(s, i, j, true)
    ensures IsSign(s[i..j]) && (s[i..j] == "-" <==> s[i] == '-')
  {
    assert s[i..j] == if i == j then "" else [s[i]];
  }

  lemma Pieces(s: string, u: string, i: nat, j: nat)
    requires i <= j <= |s|
    ensures s + u == s[..i] + s[i..j] + (s[j..] + u)
  {
    assert s == s[..i] + s[i..j] + s[j..];
  }

  /** A number that no digit follows is used to its end, and gives its value. */
  lemma NumberReads(s: string, u: string, i: nat, j: nat)
    requires NumberShape(s, i, j, true) && (u == [] || !('0' <= u[0] <= '9'))
    ensures Strtol(s + u, 10) == Read(Clamp(Signed(s[i] == '-', ValueOf(s[j..], 10))), |s|)
  {
    var blanks, sign, t := s[..i], s[i..j], s[j..];
    DecimalDigitsRead(t, u);
    SignPart(s, i, j);
    StrtolParts(blanks, sign, t + u, 10);
    Pieces(s, u, i, j);
  }

  /** So strtol reads a text to its end if and only if it is a number. */
  lemma NumberTextExactly(t: string)
    ensures Strtol(t, 10).end != 0 && Strtol(t, 10).end == |t| <==> NumberText(t, true)
  {
    assert t[..|t|] == t && t + [] == t;
    if Strtol(t, 10).end != 0 && Strtol(t, 10).end == |t| { StrtolShape(t); }
    if NumberText(t, true) {
      var i: nat, j: nat :| NumberShape(t, i, j, true);
      NumberReads(t, [], i, j);
    }
  }

  lemma NoMinus(t: string)
    requires '-' !in t
    ensures NumberText(t, true) <==> NumberText(t, false)
  {
    if NumberText(t, true) {
      var i: nat, j: nat :| NumberShape(t, i, j, true);
      assert NumberShape(t, i, j, false);
    }
    if NumberText(t, false) {
      var i: nat, j: nat :| NumberShape(t, i, j, false);
      assert NumberShape(t, i, j, true);
    }
  }

  // ---------------------------------------------------------------- base 0

  lemma SignedReads(sign: string, t: string, base: nat)
    requires IsSign(sign) && t != [] && '0' <= t[0] <= '9' && ReadDigits(t, base).end != 0
    ensures var d := ReadDigits(t, base);
            Strtol(sign + t, base) == Read(Clamp(Signed(sign == "-", d.value)), |sign| + d.end)
  {
    StrtolParts("", sign, t, base);
    assert "" + sign + t == sign + t;
  }

  lemma ReadDecimal(t: string)
    requires t != [] && t[0] != '0' && forall k :: 0 <= k < |t| ==> '0' <= t[k] <= '9'
    ensures ReadDigits(t, 0) == Read(ValueOf(t, 10), |t|)
  {
    DigitRunAll(t, [], 10);
    assert t + [] == t && t[..|t|] == t;
  }

  /** In base 0 a text of decimal digits without a leading zero is decimal. */
  lemma DecimalInBaseZero(sign: string, t: string)
    requires IsSign(sign) && t != [] && t[0] != '0' && forall k :: 0 <= k < |t| ==> '0' <= t[k] <= '9'
    ensures Strtol(sign + t, 0) == Read(Clamp(Signed(sign == "-", ValueOf(t, 10))), |sign| + |t|)
  {
    ReadDecimal(t);
    SignedReads(sign, t, 0);
  }

  /** Digits that something else follows are not all of the text. */
  lemma DecimalThenText(t: string, u: string)
    requires t != [] && t[0] != '0' && (forall k :: 0 <= k < |t| ==> '0' <= t[k] <= '9')
    requires u != [] && !('0' <= u[0] <= '9')
    ensures Strtol(t + u, 0).end == |t|
  {
    DigitRunAll(t, u, 10);
    assert (t + u)[0] == t[0];
    SignedReads("", t + u, 0);
    assert "" + (t + u) == t + u;
  }

  /** Nothing is read from a text that begins with something else than a blank, a sign or a
      digit. */
  lemma NothingRead(t: string)
    requires t != [] && !Blank(t[0]) && t[0] != '+' && t[0] != '-' && !('0' <= t[0] <= '9')
    ensures Strtol(t, 0).end == 0
  {
    assert SpaceRun(t) == 0 && t[0..] == t;
  }

  lemma OctalDigits(t: string)
    requires t != [] && t[0] == '0' && forall k :: 0 <= k < |t| ==> '0' <= t[k] <= '7'
    ensures ReadDigits(t, 0) == Read(ValueOf(t, 8), |t|)
  {
    ReadOctal(t);
  }

  /** With a leading zero and octal digits it is octal. */
  lemma OctalInBaseZero(sign: string, t: string)
    requires IsSign(sign) && t != [] && t[0] == '0' && forall k :: 0 <= k < |t| ==> '0' <= t[k] <= '7'
    ensures Strtol(sign + t, 0) == Read(Clamp(Signed(sign == "-", ValueOf(t, 8))), |sign| + |t|)
  {
    OctalDigits(t);
    SignedReads(sign, t, 0);
  }

  predicate HexDigit(c: char) {
    '0' <= c <= '9' || 'a' <= c <= 'f' || 'A' <= c <= 'F'
  }

  lemma ReadHex(t: string)
    requires |t| > 2 && t[0] == '0' && (t[1] == 'x' || t[1] == 'X')
    requires forall k :: 2 <= k < |t| ==> HexDigit(t[k])
    ensures ReadDigits(t, 0) == Read(ValueOf(t[2..], 16), |t|)
  {
    var h := t[2..];
    DigitRunAll(h, [], 16);
    assert h + [] == h && h[..|h|] == h;
  }

  /** With `0x` in front of hexadecimal digits it is hexadecimal. */
  lemma HexInBaseZero(sign: string, t: string)
    requires IsSign(sign) && |t| > 2 && t[0] == '0' && (t[1] == 'x' || t[1] == 'X')
    requires forall k :: 2 <= k < |t| ==> HexDigit(t[k])
    ensures Strtol(sign + t, 0) == Read(Clamp(Signed(sign == "-", ValueOf(t[2..], 16))), |sign| + |t|)
  {
    ReadHex(t);
    SignedReads(sign, t, 0);
  }

  // ---------------------------------------------------------------- comma lists

  const COMMA: char := ','

  /** The items of a comma list, reading the text from left to right: a comma opens a new
      item, any other character belongs to the item opened last. */
  function Split(s: string): (r: seq<string>)
    ensures |r| > 0
  {
    if s == "" then [""]
    else
      var r, c := Split(s[..|s| - 1]), s[|s| - 1];
      if c == COMMA then r + [""] else r[|r| - 1 := r[|r| - 1] + [c]]
  }

  lemma SplitSeparator(a: string)
    ensures Split(a + [COMMA]) == Split(a) + [""]
  {
    assert (a + [COMMA])[..|a|] == a;
  }

  lemma SplitOther(a: string, c: char)
    requires c != COMMA
    ensures var r := Split(a); Split(a + [c]) == r[|r| - 1 := r[|r| - 1] + [c]]
  {
    assert (a + [c])[..|a|] == a;
  }

  /** A comma and a comma-free text add one item at the right end. */
  lemma {:induction false} SplitAppend(a: string, b: string)
    requires ',' !in b
    ensures Split(a + [','] + b) == Split(a) + [b]
    decreases |b|
  {
    if b == "" {
      SplitSeparator(a);
      assert a + [COMMA] + b == a + [COMMA];
    } else {
      var front, c := b[..|b| - 1], b[|b| - 1];
      SplitAppend(a, front);
      SplitOther(a + [COMMA] + front, c);
      assert b == front + [c];
      assert a + [COMMA] + b == (a + [COMMA] + front) + [c];
      assert (Split(a) + [front])[|Split(a)| := b] == Split(a) + [b];
    }
  }

  lemma {:induction false} SplitSingle(s: string)
    requires ',' !in s
    ensures Split(s) == [s]
  {
    if s != "" {
      var front, c := s[..|s| - 1], s[|s| - 1];
      SplitSingle(front);
      SplitOther(front, c);
      assert s == front + [c];
    }
  }
}
