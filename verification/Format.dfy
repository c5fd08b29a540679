/** What rt_vsnprintf is to put out (rt-thread/src/kservice.c), as functions of the format and the arguments. The
    build has RT_PRINTF_PRECISION, and neither RT_PRINTF_LONGLONG nor RT_PRINTF_SPECIAL; long has 32 bits. */
module Format {

  const WORD: int := 0x1_0000_0000
  const SIGN_BIT: int := 0x8000_0000

  type Word = x: int | 0 <= x < WORD witness 0

  const NUL: char := '\0'

  /** The arguments as va_arg finds them, one word after the other, and the string at an address. */
  datatype Args = Args(word: nat -> Word, text: Word -> string)

  /** Character i of a string that ends at the first NUL. */
  function At(s: string, i: nat): char {
    if i < |s| then s[i] else NUL
  }

  predicate IsDigit(c: char) { '0' <= c <= '9' }

  function DigitValue(c: char): nat
    requires IsDigit(c)
  {
    c as int - '0' as int
  }

  /** The int that has the same 32 bits. */
  function AsInt(v: int): (r: int)
    ensures -SIGN_BIT <= r < SIGN_BIT && (r == v <==> -SIGN_BIT <= v < SIGN_BIT)
  {
    (v + SIGN_BIT) % WORD - SIGN_BIT
  }

  /** skip_atoi from position i with v read so far: the number, an int that wraps around, and where it ends. */
  function SkipAtoi(s: string, i: nat, v: int): (r: (int, nat))
    requires i <= |s|
    ensures i <= r.1 <= |s|
    decreases |s| - i
  {
    if IsDigit(At(s, i)) then SkipAtoi(s, i + 1, AsInt(v * 10 + DigitValue(At(s, i)))) else (v, i)
  }

  // ---------- numbers ----------

  /** divide: every base but ten is taken for sixteen. */
  function Quotient(n: nat, base: nat): nat { if base == 10 then n / 10 else n / 16 }

  function Remainder(n: nat, base: nat): (r: nat)
    ensures r < 16 && (base == 10 ==> r < 10)
  {
    if base == 10 then n % 10 else n % 16
  }

  function DigitChar(d: nat, large: bool): char
    requires d < 16
  {
    if d < 10 then '0' + d as char else (if large then 'A' else 'a') + (d - 10) as char
  }

  function Digits(n: nat, base: nat, large: bool): string
    decreases n
  {
    if n == 0 then "" else Digits(Quotient(n, base), base, large) + [DigitChar(Remainder(n, base), large)]
  }

  function Numeral(n: nat, base: nat, large: bool): string {
    if n == 0 then "0" else Digits(n, base, large)
  }

  datatype Flags = Flags(left: bool, plus: bool, space: bool, zero: bool)

  /** num as a signed long is negative. */
  predicate Negative(num: Word) { num >= SIGN_BIT }

  /** -num on 32 bits. */
  function Negated(num: Word): Word { if num == 0 then 0 else WORD - num }

  function Times(c: char, n: int): (r: string)
    ensures |r| == (if n > 0 then n else 0) && forall k :: 0 <= k < |r| ==> r[k] == c
  {
    if n <= 0 then "" else [c] + Times(c, n - 1)
  }

  function SignOf(num: Word, signed: bool, f: Flags): string {
    if !signed then "" else if Negative(num) then "-" else if f.plus then "+" else if f.space then " " else ""
  }

  function Magnitude(num: Word, signed: bool): Word {
    if signed && Negative(num) then Negated(num) else num
  }

  /** The digits, with zeros up to the precision in front; a precision of 0 drops the digits. */
  function Zeroed(digits: string, precision: int): string {
    Times('0', precision - |digits|) + (if precision != 0 then digits else "")
  }

  /** Sign and number padded to the width: on the right, between the two with zeros, or on the left. The number counts
      for n characters. */
  function Layout(sign: string, number: string, n: int, width: int, f: Flags): string {
    var pad := width - n - |sign|;
    if f.left then sign + number + Times(' ', pad)
    else if f.zero then sign + Times('0', pad) + number
    else Times(' ', pad) + sign + number
  }

  /** The text print_number makes. */
  function NumberText(num: Word, base: nat, large: bool, signed: bool, width: int, precision: int, f: Flags): string {
    var digits := Numeral(Magnitude(num, signed), base, large);
    Layout(SignOf(num, signed, f), Zeroed(digits, precision), if |digits| > precision then |digits| else precision, width, f)
  }

  // ---------- conversions ----------

  datatype Conv = Conv(flags: Flags, width: int, precision: int, qualifier: char, at: nat, arg: nat)

  function ParseFlags(s: string, i: nat, f: Flags): (r: (Flags, nat))
    requires i <= |s|
    ensures i <= r.1 <= |s|
    decreases |s| - i
  {
    match At(s, i)
    case '-' => ParseFlags(s, i + 1, f.(left := true))
    case '+' => ParseFlags(s, i + 1, f.(plus := true))
    case ' ' => ParseFlags(s, i + 1, f.(space := true))
    case '#' => ParseFlags(s, i + 1, f)
    case '0' => ParseFlags(s, i + 1, f.(zero := true))
    case _ => (f, i)
  }

  /** An argument as an int. */
  function Signed(w: Word): int { if Negative(w) then w - WORD else w }

  /** The field width: digits, or the next argument, which also moves the text to the left if negative. */
  function ParseWidth(s: string, c: Conv, args: Args): (r: Conv)
    requires c.at <= |s|
    ensures c.at <= r.at <= |s|
  {
    if IsDigit(At(s, c.at)) then
      var (w, i) := SkipAtoi(s, c.at, 0);
      c.(width := w, at := i)
    else if At(s, c.at) == '*' then
      var w := Signed(args.word(c.arg));
      c.(width := if w < 0 then AsInt(-w) else w, flags := c.flags.(left := c.flags.left || w < 0), at := c.at + 1, arg := c.arg + 1)
    else c
  }

  function ParsePrecision(s: string, c: Conv, args: Args): (r: Conv)
    requires c.at <= |s|
    ensures c.at <= r.at <= |s|
  {
    if At(s, c.at) != '.' then c
    else if IsDigit(At(s, c.at + 1)) then
      var (p, i) := SkipAtoi(s, c.at + 1, 0);
      c.(precision := if p < 0 then 0 else p, at := i)
    else if At(s, c.at + 1) == '*' then
      var p := Signed(args.word(c.arg));
      c.(precision := if p < 0 then 0 else p, at := c.at + 2, arg := c.arg + 1)
    else c.(precision := 0, at := c.at + 1)
  }

  function ParseQualifier(s: string, c: Conv): (r: Conv)
    requires c.at <= |s|
    ensures c.at <= r.at <= |s|
  {
    if At(s, c.at) == 'h' || At(s, c.at) == 'l' then c.(qualifier := At(s, c.at), at := c.at + 1) else c
  }

  /** What stands between a percent sign and the conversion character, from position i. */
  function ParseConv(s: string, i: nat, args: Args, a: nat): (c: Conv)
    requires i <= |s|
    ensures i <= c.at <= |s|
  {
    var (f, i1) := ParseFlags(s, i, Flags(false, false, false, false));
    ParseQualifier(s, ParsePrecision(s, ParseWidth(s, Conv(f, -1, -1, NUL, i1, a), args), args))
  }

  /** The text of a conversion, where the format goes on, and the next argument. */
  datatype Piece = Piece(text: string, next: nat, arg: nat)

  function Padded(text: string, pad: int, left: bool): string {
    if left then text + Times(' ', pad) else Times(' ', pad) + text
  }

  function StringText(text: string, c: Conv): string {
    var t := if c.precision > 0 && |text| > c.precision then text[..c.precision] else text;
    Padded(t, c.width - |t|, c.flags.left)
  }

  /** The argument of an integer conversion, cut down to a short by h. */
  function Narrowed(w: Word, qualifier: char, signed: bool): Word {
    if qualifier != 'h' then w
    else
      var h := w % 0x1_0000;
      if signed && h >= 0x8000 then WORD - 0x1_0000 + h else h
  }

  function IntegerText(w: Word, c: Conv, base: nat, large: bool, signed: bool): string {
    NumberText(Narrowed(w, c.qualifier, signed), base, large, signed, c.width, c.precision, c.flags)
  }

  function PointerText(w: Word, c: Conv): string {
    if c.width == -1 then NumberText(w, 16, false, false, 8, c.precision, c.flags.(zero := true))
    else NumberText(w, 16, false, false, c.width, c.precision, c.flags)
  }

  function Convert(s: string, c: Conv, args: Args): (p: Piece)
    requires c.at <= |s|
    ensures c.at <= p.next <= |s|
  {
    var w := args.word(c.arg);
    match At(s, c.at)
    case 'c' => Piece(Padded([(w % 256) as char], c.width - 1, c.flags.left), c.at + 1, c.arg + 1)
    case 's' => Piece(StringText(if w == 0 then "(NULL)" else args.text(w), c), c.at + 1, c.arg + 1)
    case 'p' => Piece(PointerText(w, c), c.at + 1, c.arg + 1)
    case '%' => Piece("%", c.at + 1, c.arg)
    case 'o' => Piece(IntegerText(w, c, 8, false, false), c.at + 1, c.arg + 1)
    case 'X' => Piece(IntegerText(w, c, 16, true, false), c.at + 1, c.arg + 1)
    case 'x' => Piece(IntegerText(w, c, 16, false, false), c.at + 1, c.arg + 1)
    case 'd' => Piece(IntegerText(w, c, 10, false, true), c.at + 1, c.arg + 1)
    case 'i' => Piece(IntegerText(w, c, 10, false, true), c.at + 1, c.arg + 1)
    case 'u' => Piece(IntegerText(w, c, 10, false, false), c.at + 1, c.arg + 1)
    case ch => if ch == NUL then Piece("%", c.at, c.arg) else Piece(['%', ch], c.at + 1, c.arg)
  }

  /** The whole output, however long. */
  function Output(s: string, i: nat, args: Args, a: nat): string
    requires i <= |s|
    decreases |s| - i
  {
    if At(s, i) == NUL then ""
    else if s[i] != '%' then [s[i]] + Output(s, i + 1, args, a)
    else
      var p := Convert(s, ParseConv(s, i + 1, args, a), args);
      p.text + Output(s, p.next, args, p.arg)
  }

  // ---------- what the digits mean ----------

  /** The number a string of digits stands for. */
  function Value(s: string, base: nat): nat {
    if s == "" then 0 else Value(s[..|s| - 1], base) * base + CharValue(s[|s| - 1])
  }

  function CharValue(c: char): nat {
    if '0' <= c <= '9' then c as int - '0' as int
    else if 'a' <= c <= 'f' then c as int - 'a' as int + 10
    else if 'A' <= c <= 'F' then c as int - 'A' as int + 10
    else 0
  }

  lemma DigitCharValue(d: nat, large: bool)
    requires d < 16
    ensures CharValue(DigitChar(d, large)) == d && (d < 10 ==> IsDigit(DigitChar(d, large)) && DigitValue(DigitChar(d, large)) == d)
    ensures DigitChar(d, large) == '0' <==> d == 0
  {
  }

  /** The digits stand for the number, in base ten and sixteen, without leading zeros. */
  lemma {:induction false} DigitsValue(n: nat, base: nat, large: bool)
    requires base == 10 || base == 16
    ensures Value(Digits(n, base, large), base) == n
    ensures n > 0 ==> Digits(n, base, large) != "" && Digits(n, base, large)[0] != '0'
    decreases n
  {
    if n > 0 {
      var q, r := Quotient(n, base), Remainder(n, base);
      DigitsValue(q, base, large);
      DigitCharValue(r, large);
      var d := Digits(q, base, large);
      assert (d + [DigitChar(r, large)])[..|d|] == d;
      assert n == q * base + r;
    }
  }

  /** Numbers below limit * 10^k have at most k digits more than those below limit. */
  lemma {:induction false} DigitsShort(n: nat, base: nat, large: bool, k: nat, limit: nat)
    requires n < limit && k <= 10
    requires limit == [1, 10, 100, 1_000, 10_000, 100_000, 1_000_000, 10_000_000, 100_000_000, 1_000_000_000, 10_000_000_000][k]
    ensures |Digits(n, base, large)| <= k
    decreases k
  {
    if n > 0 { DigitsShort(Quotient(n, base), base, large, k - 1, limit / 10); }
  }

  /** The digits of any number fit into tmp[16]. */
  lemma NumeralFits(n: Word, base: nat, large: bool)
    ensures 1 <= |Numeral(n, base, large)| <= 10
  {
    DigitsShort(n, base, large, 10, 10_000_000_000);
  }

  /** print_number shows every signed number by its sign and its absolute value, the least one included. */
  lemma SignAndMagnitude(w: Word)
    ensures Magnitude(w, true) == if Signed(w) < 0 then -Signed(w) else Signed(w)
    ensures SignOf(w, true, Flags(false, false, false, false)) == if Signed(w) < 0 then "-" else ""
  {
  }

  /** As wide as asked for, or as long as sign and digits need. */
  function FullLength(num: Word, base: nat, large: bool, signed: bool, width: int, precision: int, f: Flags): int {
    var sign, digits := SignOf(num, signed, f), Numeral(Magnitude(num, signed), base, large);
    var need := |sign| + (if |digits| > precision then |digits| else precision);
    if width > need then width else need
  }

  /** The text has that length, less the digits when the precision is zero, which a negative one is taken for. */
  lemma NumberTextLength(num: Word, base: nat, large: bool, signed: bool, width: int, precision: int, f: Flags)
    requires precision >= -1
    ensures |NumberText(num, base, large, signed, width, precision, f)| ==
      FullLength(num, base, large, signed, width, precision, f)
      - (if precision == 0 then |Numeral(Magnitude(num, signed), base, large)| else 0)
  {
  }

  /** The digits are printed iff the precision is not zero, whatever the field width: they end the text, or come before
      the spaces that fill it. */
  lemma DigitsShownIff(num: Word, base: nat, large: bool, signed: bool, width: int, precision: int, f: Flags)
    requires precision >= -1
    ensures var text := NumberText(num, base, large, signed, width, precision, f);
      precision != 0 <==> |text| == FullLength(num, base, large, signed, width, precision, f)
    ensures var text := NumberText(num, base, large, signed, width, precision, f);
      var digits := Numeral(Magnitude(num, signed), base, large);
      var n := |SignOf(num, signed, f)| + (if |digits| > precision then |digits| else precision);
      var end := |text| - (if f.left && width > n then width - n else 0);
      precision != 0 ==> |digits| <= end && text[end - |digits|..end] == digits
  {
    hide NumberText, FullLength;
    NumeralFits(Magnitude(num, signed), base, large);
    NumberTextLength(num, base, large, signed, width, precision, f);
    if precision != 0 { DigitsPlace(num, base, large, signed, width, precision, f); }
  }

  lemma DigitsPlace(num: Word, base: nat, large: bool, signed: bool, width: int, precision: int, f: Flags)
    requires precision >= -1 && precision != 0
    ensures var text := NumberText(num, base, large, signed, width, precision, f);
      var digits := Numeral(Magnitude(num, signed), base, large);
      var n := |SignOf(num, signed, f)| + (if |digits| > precision then |digits| else precision);
      var end := |text| - (if f.left && width > n then width - n else 0);
      |digits| <= end && text[end - |digits|..end] == digits
  {
    hide Numeral, SignOf, Magnitude;
    LayoutPlace(SignOf(num, signed, f), Numeral(Magnitude(num, signed), base, large), width, precision, f);
    hide Layout;
  }

  lemma LayoutPlace(sign: string, digits: string, width: int, precision: int, f: Flags)
    requires precision >= -1 && precision != 0
    ensures var n := if |digits| > precision then |digits| else precision;
      var text := Layout(sign, Zeroed(digits, precision), n, width, f);
      var end := |text| - (if f.left && width > n + |sign| then width - n - |sign| else 0);
      |digits| <= end && text[end - |digits|..end] == digits
  {
    hide Times;
    var n := if |digits| > precision then |digits| else precision;
    var zeros, pad := Times('0', precision - |digits|), width - n - |sign|;
    var text := Layout(sign, Zeroed(digits, precision), n, width, f);
    var before := if f.left then sign + zeros else if f.zero then sign + Times('0', pad) + zeros else Times(' ', pad) + sign + zeros;
    var after := if f.left then Times(' ', pad) else "";
    assert text == before + digits + after;
    Inside(before, digits, after, text);
  }

  lemma Inside(a: string, b: string, c: string, s: string)
    requires s == a + b + c
    ensures s[|s| - |c| - |b|..|s| - |c|] == b
  {
  }

  /** With "%.0d" a number shows its sign and nothing else. */
  lemma DotZero(w: Word, args: Args)
    requires args.word(0) == w
    ensures Output("%.0d", 0, args, 0) == if Signed(w) < 0 then "-" else ""
  {
    hide ParseConv, NumberText, Signed, ParseFlags, ParseWidth, ParsePrecision, ParseQualifier, SkipAtoi;
    var s := "%.0d";
    DotZeroConv(args);
    var c := Conv(Flags(false, false, false, false), -1, 0, NUL, 3, 0);
    assert At(s, 3) == 'd' && At(s, 4) == NUL;
    SignOnly(w, c.flags);
    assert Convert(s, c, args) == Piece(SignOf(w, true, c.flags), 4, 1);
    assert Output(s, 4, args, 1) == "";
    SignAndMagnitude(w);
  }

  lemma DotZeroConv(args: Args)
    ensures ParseConv("%.0d", 1, args, 0) == Conv(Flags(false, false, false, false), -1, 0, NUL, 3, 0)
  {
    var s := "%.0d";
    assert At(s, 1) == '.' && At(s, 2) == '0' && At(s, 3) == 'd';
    assert SkipAtoi(s, 2, 0) == SkipAtoi(s, 3, 0) == (0, 3);
  }

  lemma SignOnly(w: Word, f: Flags)
    requires f == Flags(false, false, false, false)
    ensures NumberText(w, 10, false, true, -1, 0, f) == SignOf(w, true, f)
  {
    NumeralFits(Magnitude(w, true), 10, false);
    hide Numeral;
  }

  // ---------- reading back ----------

  lemma {:induction false} SkipAtoiDigits(s: string, i: nat, n: nat, v: int)
    requires i + |Digits(n, 10, false)| <= |s| && s[i..i + |Digits(n, 10, false)|] == Digits(n, 10, false)
    requires AsInt(v) == v
    ensures SkipAtoi(s, i, v) == SkipAtoi(s, i + |Digits(n, 10, false)|, AsInt(Shifted(v, |Digits(n, 10, false)|) + n))
    decreases n
  {
    hide AsInt, SkipAtoi, DigitChar;
    if n > 0 {
      var q, r := Quotient(n, 10), Remainder(n, 10);
      var d := Digits(q, 10, false);
      assert Digits(n, 10, false) == d + [DigitChar(r, false)] && n == q * 10 + r;
      hide Digits, Quotient, Remainder;
      LastApart(s, i, d, DigitChar(r, false));
      SkipAtoiDigits(s, i, q, v);
      SkipOne(s, i + |d|, AsInt(Shifted(v, |d|) + q), r);
      AsIntStep(Shifted(v, |d|) + q, r);
      assert Shifted(v, |d| + 1) + n == (Shifted(v, |d|) + q) * 10 + r;
    }
  }

  lemma LastApart(s: string, i: nat, d: string, c: char)
    requires i + |d| + 1 <= |s| && s[i..i + |d| + 1] == d + [c]
    ensures s[i..i + |d|] == d && s[i + |d|] == c
  {
    var all := s[i..i + |d| + 1];
    assert s[i..i + |d|] == all[..|d|] && s[i + |d|] == all[|d|];
  }

  lemma SkipOne(s: string, i: nat, v: int, d: nat)
    requires i < |s| && d < 10 && s[i] == DigitChar(d, false)
    ensures SkipAtoi(s, i, v) == SkipAtoi(s, i + 1, AsInt(v * 10 + d))
  {
    hide AsInt;
    DigitCharValue(d, false);
  }

  lemma AsIntStep(v: int, d: int)
    ensures AsInt(AsInt(v) * 10 + d) == AsInt(v * 10 + d)
  {
    var q := (v + SIGN_BIT) / WORD;
    assert AsInt(v) == v - q * WORD;
    AsIntTurns(v * 10 + d, q * 10);
  }

  lemma AsIntTurns(v: int, q: int)
    ensures AsInt(v - q * WORD) == AsInt(v)
  {
    var a := v + SIGN_BIT;
    assert (a - q * WORD) % WORD == a % WORD;
  }

  /** v followed by k more decimal places. */
  function Shifted(v: int, k: nat): int {
    if k == 0 then v else Shifted(v, k - 1) * 10
  }

  lemma ShiftedZero(k: nat)
    ensures Shifted(0, k) == 0
  {
  }

  /** What print_number writes for a number, skip_atoi reads up to the end of the digits; it reads the number back iff
      that is below 2^31, and otherwise the int that has the same 32 bits. */
  lemma NumeralReadBack(s: string, i: nat, n: nat)
    requires i + |Numeral(n, 10, false)| <= |s| && s[i..i + |Numeral(n, 10, false)|] == Numeral(n, 10, false)
    requires !IsDigit(At(s, i + |Numeral(n, 10, false)|))
    ensures SkipAtoi(s, i, 0) == (AsInt(n), i + |Numeral(n, 10, false)|)
    ensures SkipAtoi(s, i, 0).0 == n <==> n < SIGN_BIT
  {
    if n == 0 {
      assert s[i..i + 1][0] == '0' && At(s, i) == '0';
      SkipOne(s, i, 0, 0);
    } else {
      hide Digits;
      SkipAtoiDigits(s, i, n, 0);
      ShiftedZero(|Digits(n, 10, false)|);
    }
  }

  /** The format is literal text, "%" and a conversion letter, and more. */
  lemma {:induction false} Literal(s: string, i: nat, j: nat, args: Args, a: nat)
    requires i <= j <= |s| && forall k :: i <= k < j ==> s[k] != '%' && s[k] != NUL
    ensures Output(s, i, args, a) == s[i..j] + Output(s, j, args, a)
    decreases j - i
  {
    hide Convert, ParseConv;
    if i == j {
      assert s[i..j] == "";
    } else {
      Literal(s, i + 1, j, args, a);
      LiteralStep(s, i, args, a);
      hide Output;
      assert s[i..j] == [s[i]] + s[i + 1..j];
    }
  }

  lemma LiteralStep(s: string, i: nat, args: Args, a: nat)
    requires i < |s| && s[i] != '%' && s[i] != NUL
    ensures Output(s, i, args, a) == [s[i]] + Output(s, i + 1, args, a)
  {
    hide Convert, ParseConv;
  }

  /** rt_vsnprintf with "%d" and a number that is not negative puts out text that skip_atoi reads back to the number;
      with "%u" iff the number is below 2^31. */
  lemma FormatReadBack(w: Word, args: Args)
    requires args.word(0) == w
    ensures SkipAtoi(Output("%u", 0, args, 0), 0, 0) == (AsInt(w), |Output("%u", 0, args, 0)|)
    ensures SkipAtoi(Output("%u", 0, args, 0), 0, 0).0 == w <==> w < SIGN_BIT
    ensures Signed(w) >= 0 ==> SkipAtoi(Output("%d", 0, args, 0), 0, 0) == (Signed(w), |Output("%d", 0, args, 0)|)
  {
    var n := Numeral(w, 10, false);
    OneNumber("%u", w, args);
    OneNumber("%d", w, args);
    assert n[0..|n|] == n;
    NumeralReadBack(n, 0, w);
  }

  lemma OneNumber(s: string, w: Word, args: Args)
    requires args.word(0) == w && (s == "%u" || s == "%d")
    ensures s == "%u" || Signed(w) >= 0 ==> Output(s, 0, args, 0) == Numeral(w, 10, false)
  {
    assert At(s, 1) == s[1] && At(s, 2) == NUL;
    var c := ParseConv(s, 1, args, 0);
    assert c == Conv(Flags(false, false, false, false), -1, -1, NUL, 1, 0);
    var n := Numeral(w, 10, false);
    if s == "%u" || Signed(w) >= 0 {
      assert Convert(s, c, args) == Piece("" + n + "", 2, 1);
      assert Output(s, 2, args, 1) == "";
    }
  }
}
