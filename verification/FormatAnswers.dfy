/** What the text that rt_vsnprintf (rt-thread/src/kservice.c) makes of an argument means to somebody who reads it. */
module FormatAnswers {
  import opened Format

  // ---------- reading a number ----------

  function SkipSpaces(s: string): string {
    if s != "" && s[0] == ' ' then SkipSpaces(s[1..]) else s
  }

  /** Up to the first space. */
  function Word1(s: string): string {
    if s == "" || s[0] == ' ' then "" else [s[0]] + Word1(s[1..])
  }

  /** The number in a text: spaces, a sign, digits, spaces. */
  function Read(s: string, base: nat): int {
    var w := Word1(SkipSpaces(s));
    if w != "" && w[0] == '-' then 0 - Value(w[1..], base)
    else if w != "" && w[0] == '+' then Value(w[1..], base)
    else Value(w, base)
  }

  lemma {:induction false} SpacesSkipped(n: int, s: string)
    ensures SkipSpaces(Times(' ', n) + s) == SkipSpaces(s)
    decreases n
  {
    if n > 0 {
      assert (Times(' ', n) + s)[1..] == Times(' ', n - 1) + s;
      SpacesSkipped(n - 1, s);
    } else {
      assert Times(' ', n) + s == s;
    }
  }

  predicate NoSpace(s: string) { forall k :: 0 <= k < |s| ==> s[k] != ' ' }

  lemma {:induction false} WordEnds(w: string, n: int)
    requires NoSpace(w)
    ensures Word1(w + Times(' ', n)) == w
  {
    if w == "" {
      assert w + Times(' ', n) == Times(' ', n);
    } else {
      assert (w + Times(' ', n))[1..] == w[1..] + Times(' ', n);
      WordEnds(w[1..], n);
      assert w == [w[0]] + w[1..];
    }
  }

  lemma {:induction false} LeadingZeros(n: int, s: string, base: nat)
    ensures Value(Times('0', n) + s, base) == Value(s, base)
    decreases |s|
  {
    var z := Times('0', n);
    if s == "" {
      assert z + s == z;
      OnlyZeros(z, base);
    } else {
      assert (z + s)[..|z + s| - 1] == z + s[..|s| - 1];
      LeadingZeros(n, s[..|s| - 1], base);
    }
  }

  lemma {:induction false} OnlyZeros(z: string, base: nat)
    requires forall k :: 0 <= k < |z| ==> z[k] == '0'
    ensures Value(z, base) == 0
  {
    if z != "" { OnlyZeros(z[..|z| - 1], base); }
  }

  predicate HexDigit(c: char) { '0' <= c <= '9' || 'a' <= c <= 'f' || 'A' <= c <= 'F' }

  lemma {:induction false} DigitsOnly(n: nat, base: nat, large: bool)
    ensures forall k :: 0 <= k < |Digits(n, base, large)| ==> HexDigit(Digits(n, base, large)[k])
    decreases n
  {
    if n > 0 { DigitsOnly(Quotient(n, base), base, large); }
  }

  lemma NumeralMeans(n: nat, base: nat, large: bool)
    requires base == 10 || base == 16
    ensures var d := Numeral(n, base, large); Value(d, base) == n && d != "" && forall k :: 0 <= k < |d| ==> HexDigit(d[k])
  {
    DigitsValue(n, base, large);
    DigitsOnly(n, base, large);
  }

  /** Spaces, a sign, zeros, digits and spaces. */
  function Shape(a: int, sign: string, z: int, digits: string, b: int): string {
    Times(' ', a) + (sign + (Times('0', z) + digits) + Times(' ', b))
  }

  /** They read as the number. */
  lemma ReadShape(a: int, sign: string, z: int, digits: string, b: int, base: nat)
    requires sign in {"", "-", "+", " "} && digits != "" && forall k :: 0 <= k < |digits| ==> HexDigit(digits[k])
    ensures Read(Shape(a, sign, z, digits, b), base) == if sign == "-" then 0 - Value(digits, base) else Value(digits, base)
  {
    hide Value, Times, Word1, SkipSpaces, NoSpace;
    var zd := Times('0', z) + digits;
    ZerosVisible(z, digits);
    SpacesSkipped(a, sign + zd + Times(' ', b));
    StartsVisible(sign, zd, b);
    SignVisible(sign, zd);
    WordEnds(if sign == " " then zd else sign + zd, b);
    LeadingZeros(z, digits, base);
    if sign == "-" || sign == "+" {
      assert (sign + zd)[1..] == zd && (sign + zd)[0] == sign[0];
    } else if sign == "" {
      assert sign + zd == zd;
    }
  }

  lemma ZerosVisible(z: int, digits: string)
    requires digits != "" && forall k :: 0 <= k < |digits| ==> HexDigit(digits[k])
    ensures var zd := Times('0', z) + digits; NoSpace(zd) && zd != "" && HexDigit(zd[0])
  {
  }

  lemma SignVisible(sign: string, zd: string)
    requires sign in {"", "-", "+", " "} && NoSpace(zd)
    ensures sign != " " ==> NoSpace(sign + zd)
  {
  }

  lemma StartsVisible(sign: string, zd: string, b: int)
    requires sign in {"", "-", "+", " "} && zd != "" && HexDigit(zd[0])
    ensures SkipSpaces(sign + zd + Times(' ', b)) == (if sign == " " then zd else sign + zd) + Times(' ', b)
  {
    var s := sign + zd + Times(' ', b);
    if sign == " " {
      assert s[1..] == zd + Times(' ', b);
      assert SkipSpaces(zd + Times(' ', b)) == zd + Times(' ', b);
    }
  }

  /** Every layout has that shape. */
  lemma LayoutShape(sign: string, digits: string, n: int, width: int, precision: int, f: Flags)
    requires precision != 0
    ensures var pad, z := width - n - |sign|, precision - |digits|;
      Layout(sign, Zeroed(digits, precision), n, width, f) ==
        if f.left then Shape(0, sign, z, digits, pad)
        else if f.zero then Shape(0, sign, Sum(pad, z), digits, 0)
        else Shape(pad, sign, z, digits, 0)
  {
    hide Times;
    var pad, z := width - n - |sign|, precision - |digits|;
    NoTimes(' ');
    MoreTimes(pad, z);
    Regroup(sign, Times('0', pad), Times('0', z), digits);
    assert Times(' ', pad) + sign + (Times('0', z) + digits) == Times(' ', pad) + (sign + (Times('0', z) + digits) + "");
    assert sign + (Times('0', z) + digits) + Times(' ', pad) == "" + (sign + (Times('0', z) + digits) + Times(' ', pad));
  }

  function Sum(a: int, b: int): int { (if a > 0 then a else 0) + (if b > 0 then b else 0) }

  lemma Regroup(sign: string, p: string, z: string, digits: string)
    ensures sign + p + (z + digits) == "" + (sign + ((p + z) + digits) + "")
  {
  }

  /** Whatever the flags, the width and the precision, as long as that is not zero, the text of a number reads as the
      number, signed or not, in base ten and sixteen. */
  lemma NumberReadsBack(num: Word, base: nat, large: bool, signed: bool, width: int, precision: int, f: Flags)
    requires (base == 10 || base == 16) && precision != 0
    ensures Read(NumberText(num, base, large, signed, width, precision, f), base) == if signed then Signed(num) else num
  {
    hide Read, Numeral, Value, Shape, Layout, Zeroed, HexDigit;
    var digits, sign := Numeral(Magnitude(num, signed), base, large), SignOf(num, signed, f);
    NumeralMeans(Magnitude(num, signed), base, large);
    var n := if |digits| > precision then |digits| else precision;
    var pad, z := width - n - |sign|, precision - |digits|;
    LayoutShape(sign, digits, n, width, precision, f);
    ReadShape(0, sign, z, digits, pad, base);
    ReadShape(0, sign, Sum(pad, z), digits, 0, base);
    ReadShape(pad, sign, z, digits, 0, base);
  }

  lemma NoTimes(c: char)
    ensures Times(c, 0) == ""
  {
  }

  lemma MoreTimes(a: int, b: int)
    ensures Times('0', a) + Times('0', b) == Times('0', Sum(a, b))
  {
  }

  // ---------- conversions ----------

  /** The number an integer conversion is about: all 32 bits of the argument or, with h, the lower 16, signed or not. */
  function Meant(w: Word, short: bool, signed: bool): int {
    var bits := if short then 0x1_0000 else WORD;
    var v := w % bits;
    if signed && v >= bits / 2 then v - bits else v
  }

  predicate IsSigned(ch: char) { ch == 'd' || ch == 'i' }

  predicate IsHex(ch: char) { ch in {'x', 'X', 'o', 'p'} }

  predicate IsInteger(ch: char) { ch in {'d', 'i', 'u', 'x', 'X', 'o'} }

  /** "%d" and "%i" show their argument signed, "%u" unsigned, in base ten; "%x", "%X" and "%o" unsigned in base sixteen;
      and each takes one argument and one character of the format. */
  lemma IntegerReadsBack(s: string, c: Conv, args: Args)
    requires c.at <= |s| && IsInteger(At(s, c.at)) && c.precision != 0
    ensures var p, ch := Convert(s, c, args), At(s, c.at);
      && Read(p.text, if IsHex(ch) then 16 else 10) == Meant(args.word(c.arg), c.qualifier == 'h', IsSigned(ch))
      && p.next == c.at + 1 && p.arg == c.arg + 1
  {
    hide NumberText, Read;
    var w, ch := args.word(c.arg), At(s, c.at);
    OctalAsHex(Narrowed(w, c.qualifier, false), c);
    NumberReadsBack(Narrowed(w, c.qualifier, IsSigned(ch)), if IsHex(ch) then 16 else 10, ch == 'X', IsSigned(ch), c.width, c.precision, c.flags);
    NarrowedMeans(w, c.qualifier, IsSigned(ch));
  }

  lemma NarrowedMeans(w: Word, qualifier: char, signed: bool)
    ensures var n := Narrowed(w, qualifier, signed); (if signed then Signed(n) else n) == Meant(w, qualifier == 'h', signed)
  {
  }

  /** divide takes base 8 for 16. */
  lemma OctalAsHex(w: Word, c: Conv)
    ensures NumberText(w, 8, false, false, c.width, c.precision, c.flags) == NumberText(w, 16, false, false, c.width, c.precision, c.flags)
  {
    SameDigits(w);
    hide Digits, Layout;
  }

  lemma {:induction false} SameDigits(n: nat)
    ensures Digits(n, 8, false) == Digits(n, 16, false)
    decreases n
  {
    if n > 0 { SameDigits(Quotient(n, 16)); }
  }

  /** "%p" shows an address as eight digits, or in the width asked for. */
  lemma PointerReadsBack(s: string, c: Conv, args: Args)
    requires c.at <= |s| && At(s, c.at) == 'p' && c.precision != 0
    ensures var p := Convert(s, c, args);
      && Read(p.text, 16) == args.word(c.arg) && p.next == c.at + 1 && p.arg == c.arg + 1
      && (c.width == -1 && c.precision == -1 && !c.flags.left ==> |p.text| == 8 && Value(p.text, 16) == args.word(c.arg))
  {
    hide NumberText, Read;
    var w := args.word(c.arg);
    var width, f := if c.width == -1 then 8 else c.width, if c.width == -1 then c.flags.(zero := true) else c.flags;
    NumberReadsBack(w, 16, false, false, width, c.precision, f);
    if c.width == -1 && c.precision == -1 && !c.flags.left { EightDigits(w, f); }
  }

  lemma EightDigits(w: Word, f: Flags)
    requires f.zero && !f.left
    ensures var t := NumberText(w, 16, false, false, 8, -1, f); |t| == 8 && Value(t, 16) == w
  {
    hide Times, Value;
    NumeralMeans(w, 16, false);
    HexShort(w, 8, WORD);
    var digits := Numeral(w, 16, false);
    NoTimes('0');
    LeadingZeros(8 - |digits|, digits, 16);
    assert NumberText(w, 16, false, false, 8, -1, f) == Times('0', 8 - |digits|) + digits by {
      assert Times('0', -1 - |digits|) == "";
      assert "" + Times('0', 8 - |digits|) + ("" + digits) == Times('0', 8 - |digits|) + digits;
    }
  }

  lemma {:induction false} HexShort(n: nat, k: nat, limit: nat)
    requires n < limit && k <= 8 && limit == [1, 0x10, 0x100, 0x1000, 0x1_0000, 0x10_0000, 0x100_0000, 0x1000_0000, 0x1_0000_0000][k]
    ensures |Digits(n, 16, false)| <= k && (k > 0 ==> |Numeral(n, 16, false)| <= k)
    decreases k
  {
    if n > 0 { HexShort(n / 16, k - 1, limit / 16); }
  }

  /** The text t in a field of the given width: spaces on the left, or on the right. */
  ghost predicate Fielded(text: string, t: string, width: int, left: bool) {
    && |text| == (if width > |t| then width else |t|)
    && (if left then text[..|t|] == t else text[|text| - |t|..] == t)
    && forall k :: (if left then |t| else 0) <= k < (if left then |text| else |text| - |t|) ==> text[k] == ' '
  }

  lemma PaddedFields(t: string, width: int, left: bool)
    ensures Fielded(Padded(t, width - |t|, left), t, width, left)
  {
  }

  /** "%s" shows its string, "(NULL)" for a null pointer, cut to the precision unless that is zero; "%c" shows the
      character with the lower eight bits; "%%" a percent sign, without an argument; any other letter stands for itself,
      behind a percent sign. */
  lemma TextConversions(s: string, c: Conv, args: Args)
    requires c.at <= |s|
    ensures var p, ch, w := Convert(s, c, args), At(s, c.at), args.word(c.arg);
      && (ch == 's' ==>
            var t := if w == 0 then "(NULL)" else args.text(w);
            var n := if 0 < c.precision < |t| then c.precision else |t|;
            Fielded(p.text, t[..n], c.width, c.flags.left))
      && (ch == 'c' ==> Fielded(p.text, [(w % 256) as char], c.width, c.flags.left))
      && (ch == 's' || ch == 'c' ==> p.next == c.at + 1 && p.arg == c.arg + 1)
      && (ch == '%' ==> p == Piece("%", c.at + 1, c.arg))
      && (ch !in {'s', 'c', '%', 'p', NUL} && !IsInteger(ch) ==> p == Piece(['%', ch], c.at + 1, c.arg))
      && (ch == NUL ==> p == Piece("%", c.at, c.arg))
  {
    hide Padded, Fielded, IntegerText, PointerText;
    var w := args.word(c.arg);
    var t := if w == 0 then "(NULL)" else args.text(w);
    var n := if 0 < c.precision < |t| then c.precision else |t|;
    assert t[..|t|] == t;
    PaddedFields(t[..n], c.width, c.flags.left);
    PaddedFields([(w % 256) as char], c.width, c.flags.left);
  }

  // ---------- flags ----------

  predicate IsFlag(c: char) { c in {'-', '+', ' ', '#', '0'} }

  /** The flags are those that stand between the percent sign and the first other character, in any order. */
  lemma {:induction false} FlagsSeen(s: string, i: nat, f: Flags)
    requires i <= |s|
    ensures var (f1, j) := ParseFlags(s, i, f);
      && i <= j <= |s| && (forall k :: i <= k < j ==> IsFlag(s[k])) && !IsFlag(At(s, j))
      && (f1.left <==> f.left || '-' in s[i..j]) && (f1.plus <==> f.plus || '+' in s[i..j])
      && (f1.space <==> f.space || ' ' in s[i..j]) && (f1.zero <==> f.zero || '0' in s[i..j])
    decreases |s| - i
  {
    var j := ParseFlags(s, i, f).1;
    if IsFlag(At(s, i)) {
      var c := s[i];
      var f0 := f.(left := f.left || c == '-', plus := f.plus || c == '+', space := f.space || c == ' ', zero := f.zero || c == '0');
      FlagsSeen(s, i + 1, f0);
      assert ParseFlags(s, i, f) == ParseFlags(s, i + 1, f0);
      hide ParseFlags;
      assert s[i..j] == [c] + s[i + 1..j];
    } else {
      assert s[i..j] == "";
    }
  }

  // ---------- numbers in the format ----------

  predicate AllDigits(s: string) { forall k :: 0 <= k < |s| ==> IsDigit(s[k]) }

  /** After the digits p, the digits from position i on: skip_atoi goes on to the first other character, and what it has
      then are the 32 bits of the number that all the digits stand for. */
  lemma {:induction false} DigitsSeen(s: string, i: nat, p: string)
    requires i <= |s|
    ensures var (v, j) := SkipAtoi(s, i, AsInt(Value(p, 10)));
      i <= j <= |s| && AllDigits(s[i..j]) && !IsDigit(At(s, j)) && v == AsInt(Value(p + s[i..j], 10))
    decreases |s| - i
  {
    hide AsInt;
    if IsDigit(At(s, i)) {
      var c := s[i];
      assert (p + [c])[..|p|] == p;
      AsIntStep(Value(p, 10), DigitValue(c));
      DigitsSeen(s, i + 1, p + [c]);
      var j := SkipAtoi(s, i + 1, AsInt(Value(p + [c], 10))).1;
      assert s[i..j] == [c] + s[i + 1..j];
      assert p + s[i..j] == p + [c] + s[i + 1..j];
    } else {
      assert p + s[i..i] == p;
    }
  }

  /** The field width is the number in the format, or the argument for a star, which also moves the text to the left when
      it is negative; none is -1. */
  lemma WidthSeen(s: string, c: Conv, args: Args)
    requires c.at <= |s|
    ensures var r := ParseWidth(s, c, args);
      if IsDigit(At(s, c.at)) then
        && c.at < r.at <= |s| && AllDigits(s[c.at..r.at]) && !IsDigit(At(s, r.at))
        && r == c.(width := AsInt(Value(s[c.at..r.at], 10)), at := r.at)
      else if At(s, c.at) == '*' then
        var w := Meant(args.word(c.arg), false, true);
        r == c.(width := AsInt(if w < 0 then -w else w), flags := c.flags.(left := c.flags.left || w < 0), at := c.at + 1, arg := c.arg + 1)
      else r == c
  {
    hide Value, AsInt;
    FromNothing(s, c.at);
    AsIntKeeps(Signed(args.word(c.arg)));
  }

  lemma AsIntKeeps(v: int)
    requires -SIGN_BIT <= v < SIGN_BIT
    ensures v >= 0 ==> AsInt(v) == v
  {
  }

  /** skip_atoi from its start. */
  lemma FromNothing(s: string, i: nat)
    requires i <= |s|
    ensures var (v, j) := SkipAtoi(s, i, 0);
      && i <= j <= |s| && AllDigits(s[i..j]) && !IsDigit(At(s, j)) && v == AsInt(Value(s[i..j], 10)) && (IsDigit(At(s, i)) ==> i < j)
  {
    hide AsInt, Value;
    assert Value("", 10) == 0 by { EmptyValue(); }
    AsIntKeeps(0);
    DigitsSeen(s, i, "");
    var j := SkipAtoi(s, i, 0).1;
    assert "" + s[i..j] == s[i..j];
  }

  lemma EmptyValue()
    ensures Value("", 10) == 0
  {
  }

  /** So is the precision, behind a dot; a negative one counts as zero, and so does a dot with nothing behind it. */
  lemma PrecisionSeen(s: string, c: Conv, args: Args)
    requires c.at <= |s|
    ensures var r := ParsePrecision(s, c, args);
      if At(s, c.at) != '.' then r == c
      else if At(s, c.at + 1) == '*' then
        var p := Meant(args.word(c.arg), false, true);
        r == c.(precision := if p < 0 then 0 else p, at := c.at + 2, arg := c.arg + 1)
      else
        && c.at + 1 <= r.at <= |s| && AllDigits(s[c.at + 1..r.at]) && !IsDigit(At(s, r.at))
        && var p := AsInt(Value(s[c.at + 1..r.at], 10)); r == c.(precision := if p < 0 then 0 else p, at := r.at)
  {
    hide Value, AsInt;
    if At(s, c.at) == '.' {
      FromNothing(s, c.at + 1);
      if !IsDigit(At(s, c.at + 1)) {
        assert s[c.at + 1..c.at + 1] == "";
        EmptyValue();
        AsIntKeeps(0);
      }
    }
  }
}
