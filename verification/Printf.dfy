/** rt_vsnprintf, print_number and skip_atoi (rt-thread/src/kservice.c), writing a buffer step by step. */
module Printf {
  import opened Format

  /** Memory m after text was written from offset 0 on, cut off at end. */
  ghost function Wrote(m: seq<char>, end: nat, text: string): (r: seq<char>)
    ensures |r| == |m|
  {
    seq(|m|, k requires 0 <= k < |m| => if k < end && k < |text| then text[k] else m[k])
  }

  /** There is memory for all that is written of an output of n characters. */
  predicate Room(buf: array<char>, end: nat, n: nat) {
    end <= buf.Length || n <= buf.Length
  }

  lemma WroteNothing(m: seq<char>, end: nat)
    ensures Wrote(m, end, "") == m
  {
  }

  /** if (str < end) *str = c; ++str; */
  method Put(buf: array<char>, str: nat, end: nat, c: char, ghost m: seq<char>, ghost out: string) returns (next: nat)
    requires str == |out| && buf[..] == Wrote(m, end, out) && Room(buf, end, |out| + 1)
    modifies buf
    ensures next == |out| + 1 && buf[..] == Wrote(m, end, out + [c])
  {
    if str < end { buf[str] := c; }
    next := str + 1;
  }

  /** while (n-- > 0) { if (str < end) *str = c; ++str; } */
  method PutTimes(buf: array<char>, str: nat, end: nat, c: char, n: int, ghost m: seq<char>, ghost out: string)
    returns (next: nat)
    requires str == |out| && buf[..] == Wrote(m, end, out) && Room(buf, end, |out| + |Times(c, n)|)
    modifies buf
    ensures next == |out| + |Times(c, n)| && buf[..] == Wrote(m, end, out + Times(c, n))
  {
    next := str;
    var left := n;
    ghost var done := "";
    assert out + done == out;
    while left > 0
      invariant done + Times(c, left) == Times(c, n)
      invariant next == |out + done| && buf[..] == Wrote(m, end, out + done)
    {
      next := Put(buf, next, end, c, m, out + done);
      assert out + done + [c] == out + (done + [c]);
      done := done + [c];
      left := left - 1;
    }
    assert done + "" == done;
  }

  /** The characters of s from 0 on. */
  method PutText(buf: array<char>, str: nat, end: nat, s: string, n: nat, ghost m: seq<char>, ghost out: string)
    returns (next: nat)
    requires n <= |s|
    requires str == |out| && buf[..] == Wrote(m, end, out) && Room(buf, end, |out| + n)
    modifies buf
    ensures next == |out| + n && buf[..] == Wrote(m, end, out + s[..n])
  {
    next := str;
    var i := 0;
    assert out + s[..0] == out;
    while i < n
      invariant i <= n && next == |out| + i && buf[..] == Wrote(m, end, out + s[..i])
    {
      next := Put(buf, next, end, s[i], m, out + s[..i]);
      assert out + s[..i] + [s[i]] == out + s[..i + 1];
      i := i + 1;
    }
  }

  /** skip_atoi; pos is where the caller's pointer was, end where it is left. */
  method SkipDigits(s: string, pos: nat) returns (i: int, end: nat)
    requires pos <= |s|
    ensures (i, end) == SkipAtoi(s, pos, 0)
  {
    i, end := 0, pos;
    while IsDigit(At(s, end))
      invariant end <= |s| && SkipAtoi(s, end, i) == SkipAtoi(s, pos, 0)
      decreases |s| - end
    {
      i, end := AsInt(i * 10 + DigitValue(At(s, end))), end + 1;
    }
  }

  // ---------- print_number ----------

  /** A string from its end to its beginning. */
  function Backwards(s: string): (r: string)
    ensures |r| == |s|
  {
    if s == "" then "" else [s[|s| - 1]] + Backwards(s[..|s| - 1])
  }

  lemma BackwardsOneMore(s: string, c: char)
    ensures Backwards(s + [c]) == [c] + Backwards(s)
  {
    assert (s + [c])[..|s|] == s;
  }

  /** The loop that fills tmp with the digits, the last one first. */
  method MakeDigits(tmp: array<char>, n: Word, base: nat, large: bool) returns (i: nat)
    requires tmp.Length == 16
    modifies tmp
    ensures i <= 16 && Backwards(tmp[..i]) == Numeral(n, base, large)
  {
    i := 0;
    if n == 0 {
      tmp[0] := '0';
      i := 1;
      assert tmp[..1] == "" + ['0'];
      BackwardsOneMore("", '0');
      return;
    }
    hide Digits, Backwards, Quotient, Remainder, DigitChar;
    NumeralFits(n, base, large);
    var num: nat := n;
    NoDigitsLeft(tmp[..0], base, large);
    while num != 0
      invariant 0 <= i <= 16 && Digits(num, base, large) + Backwards(tmp[..i]) == Digits(n, base, large)
      decreases num
    {
      var c := DigitChar(Remainder(num, base), large);
      OneDigit(tmp[..i], num, base, large);
      ghost var before := tmp[..i];
      tmp[i] := c;
      assert tmp[..i + 1] == before + [c];
      num := Quotient(num, base);
      i := i + 1;
    }
    NoDigitsLeft(tmp[..i], base, large);
  }

  lemma NoDigitsLeft(s: string, base: nat, large: bool)
    ensures Digits(0, base, large) + Backwards(s) == Backwards(s)
    ensures s == "" ==> forall d: string :: d + Backwards(s) == d
  {
  }

  /** Moving the last digit from the number to tmp. */
  lemma OneDigit(s: string, n: nat, base: nat, large: bool)
    requires n > 0
    ensures var c := DigitChar(Remainder(n, base), large);
      && Digits(Quotient(n, base), base, large) + Backwards(s + [c]) == Digits(n, base, large) + Backwards(s)
      && Quotient(n, base) < n && |Digits(n, base, large) + Backwards(s)| > |s|
  {
    var c := DigitChar(Remainder(n, base), large);
    var d := Digits(Quotient(n, base), base, large);
    BackwardsOneMore(s, c);
    assert d + ([c] + Backwards(s)) == (d + [c]) + Backwards(s);
  }

  /** while (i-- > 0) with the digits in tmp. */
  method PutDigits(buf: array<char>, str: nat, end: nat, tmp: array<char>, n: nat, ghost m: seq<char>, ghost out: string)
    returns (next: nat)
    requires n <= tmp.Length && tmp != buf
    requires str == |out| && buf[..] == Wrote(m, end, out) && Room(buf, end, |out| + n)
    modifies buf
    ensures next == |out| + n && buf[..] == Wrote(m, end, out + Backwards(tmp[..n]))
  {
    next := str;
    var i := n;
    ghost var done := "";
    assert out + done == out;
    while i > 0
      invariant 0 <= i <= n && done + Backwards(tmp[..i]) == Backwards(tmp[..n])
      invariant next == |out + done| && buf[..] == Wrote(m, end, out + done)
    {
      i := i - 1;
      assert tmp[..i + 1][..i] == tmp[..i];
      next := Put(buf, next, end, tmp[i], m, out + done);
      assert done + ([tmp[i]] + Backwards(tmp[..i])) == (done + [tmp[i]]) + Backwards(tmp[..i]);
      assert out + done + [tmp[i]] == out + (done + [tmp[i]]);
      done := done + [tmp[i]];
    }
    assert done + "" == done;
  }

  /** What print_number writes in front of the number itself, size being the width less the digits and their zeros. */
  function HeadText(sign: string, size: int, f: Flags): string {
    if f.left then sign
    else if f.zero then sign + Times('0', size - |sign|)
    else Times(' ', size - |sign|) + sign
  }

  /** A loop while (n-- > 0) leaves n below zero. */
  function RunDown(n: int): int { (if n > 0 then 0 else n) - 1 }

  method PutSpaces(buf: array<char>, str: nat, end: nat, sign: char, size: int, f: Flags, ghost m: seq<char>, ghost out: string)
    returns (next: nat, left: int)
    requires !f.zero && !f.left
    requires str == |out| && buf[..] == Wrote(m, end, out)
    requires Room(buf, end, |out| + |Times(' ', size - (if sign != NUL then 1 else 0))|)
    modifies buf
    ensures var pad := Times(' ', size - (if sign != NUL then 1 else 0));
      next == |out| + |pad| && buf[..] == Wrote(m, end, out + pad) && left < 0
  {
    left := size;
    if sign != NUL && left > 0 { left := left - 1; }
    assert Times(' ', left) == Times(' ', size - (if sign != NUL then 1 else 0));
    next := PutTimes(buf, str, end, ' ', left, m, out);
    left := RunDown(left);
  }

  method PutHead(buf: array<char>, str: nat, end: nat, sign: char, size: int, f: Flags, ghost m: seq<char>, ghost out: string)
    returns (next: nat, left: int)
    requires f.left ==> !f.zero
    requires str == |out| && buf[..] == Wrote(m, end, out)
    requires Room(buf, end, |out| + |HeadText(if sign != NUL then [sign] else "", size, f)|)
    modifies buf
    ensures var head := HeadText(if sign != NUL then [sign] else "", size, f);
      && next == |out| + |head| && buf[..] == Wrote(m, end, out + head)
      && Times(' ', left) == if f.left then Times(' ', size - |(if sign != NUL then [sign] else "")|) else ""
  {
    hide Wrote;
    ghost var s := if sign != NUL then [sign] else "";
    next, left := str, size;
    ghost var o := out;
    if !f.zero && !f.left {
      next, left := PutSpaces(buf, str, end, sign, size, f, m, out);
      o := out + Times(' ', size - |s|);
    }
    if sign != NUL {
      next := Put(buf, next, end, sign, m, o);
      left := left - 1;
    } else {
      assert o + s == o;
    }
    if !f.left {
      var c := if f.zero then '0' else ' ';
      next := PutTimes(buf, next, end, c, left, m, o + s);
      assert o + s + Times(c, left) == out + HeadText(s, size, f) by {
        if f.zero { assert out + s + Times('0', left) == out + (s + Times('0', left)); }
        else { assert o + s + "" == out + (Times(' ', size - |s|) + s); }
      }
      left := RunDown(left);
    }
  }

  /** The precision's zeros, the digits, and the spaces of a text moved to the left. */
  method PutTail(buf: array<char>, str: nat, end: nat, tmp: array<char>, i: nat, p: int, precision: int, left: int,
                 ghost m: seq<char>, ghost out: string)
    returns (next: nat)
    requires i <= tmp.Length && tmp != buf
    requires str == |out| && buf[..] == Wrote(m, end, out)
    requires Room(buf, end, |out| + |Times('0', p - i)| + (if precision != 0 then i else 0) + |Times(' ', left)|)
    modifies buf
    ensures var number := Times('0', p - i) + (if precision != 0 then Backwards(tmp[..i]) else "");
      next == |out| + |number + Times(' ', left)| && buf[..] == Wrote(m, end, out + (number + Times(' ', left)))
  {
    hide Wrote, Times, Backwards;
    ghost var zeros, pad := Times('0', p - i), Times(' ', left);
    ghost var digits := if precision != 0 then Backwards(tmp[..i]) else "";
    next := PutTimes(buf, str, end, '0', p - i, m, out);
    if precision != 0 {
      next := PutDigits(buf, next, end, tmp, i, m, out + zeros);
    } else {
      assert out + zeros + digits == out + zeros;
    }
    next := PutTimes(buf, next, end, ' ', left, m, out + zeros + digits);
    Regroup(out, zeros, digits, pad);
  }

  lemma Regroup3(a: string, b: string, c: string)
    ensures a + b + c == a + (b + c)
  {
  }

  lemma Regroup(a: string, b: string, c: string, d: string)
    ensures a + b + c + d == a + (b + c + d)
  {
  }

  /** The two halves together. */
  lemma HeadAndTail(sign: string, number: string, n: int, width: int, f: Flags, left: int)
    requires Times(' ', left) == if f.left then Times(' ', width - n - |sign|) else ""
    ensures HeadText(sign, width - n, f.(zero := f.zero && !f.left)) + (number + Times(' ', left))
      == Layout(sign, number, n, width, f)
  {
    hide Times;
    assert number + "" == number;
    assert HeadText(sign, width - n, f.(zero := f.zero && !f.left)) + (number + Times(' ', left))
        == HeadText(sign, width - n, f.(zero := f.zero && !f.left)) + number + Times(' ', left);
  }

  method PrintNumber(buf: array<char>, str: nat, end: nat, num: Word, base: nat, s: int, precision: int,
                     large: bool, signed: bool, f: Flags, ghost m: seq<char>, ghost out: string)
    returns (next: nat)
    requires str == |out| && buf[..] == Wrote(m, end, out)
    requires Room(buf, end, |out| + |NumberText(num, base, large, signed, s, precision, f)|)
    modifies buf
    ensures var text := NumberText(num, base, large, signed, s, precision, f);
      next == |out| + |text| && buf[..] == Wrote(m, end, out + text)
  {
    hide Wrote, Digits, Backwards, Times;
    var f1 := f;
    if f.left { f1 := f1.(zero := false); }
    var sign, n := NUL, num;
    if signed {
      if Negative(num) {
        sign := '-';
        n := Negated(num);
      } else if f.plus {
        sign := '+';
      } else if f.space {
        sign := ' ';
      }
    }
    var tmp := new char[16];
    var i := MakeDigits(tmp, n, base, large);
    var p := precision;
    if i > p { p := i; }
    next := PutHalves(buf, str, end, sign, tmp, i, p, s, precision, f1, m, out);
    hide Layout, Zeroed;
  }

  method PutHalves(buf: array<char>, str: nat, end: nat, sign: char, tmp: array<char>, i: nat, p: int, s: int,
                   precision: int, f: Flags, ghost m: seq<char>, ghost out: string)
    returns (next: nat)
    requires i <= tmp.Length && tmp != buf && p == (if i > precision then i else precision) && (f.left ==> !f.zero)
    requires str == |out| && buf[..] == Wrote(m, end, out)
    requires Room(buf, end, |out| + |Layout(if sign != NUL then [sign] else "", Zeroed(Backwards(tmp[..i]), precision), p, s, f)|)
    modifies buf
    ensures var text := Layout(if sign != NUL then [sign] else "", Zeroed(Backwards(tmp[..i]), precision), p, s, f);
      next == |out| + |text| && buf[..] == Wrote(m, end, out + text)
  {
    hide Wrote, HeadText, Times, Backwards, Layout;
    ghost var mark := if sign != NUL then [sign] else "";
    ghost var number := Zeroed(Backwards(tmp[..i]), precision);
    ghost var text, head := Layout(mark, number, p, s, f), HeadText(mark, s - p, f);
    HeadAndTail(mark, number, p, s, f, if f.left then s - p - |mark| else 0);
    var left;
    next, left := PutHead(buf, str, end, sign, s - p, f, m, out);
    HeadAndTail(mark, number, p, s, f, left);
    next := PutTail(buf, next, end, tmp, i, p, precision, left, m, out + head);
    Regroup3(out, head, number + Times(' ', left));
  }

  // ---------- rt_vsnprintf ----------

  /** Flags, width, precision and qualifier from position i on. */
  method ReadConv(s: string, i: nat, args: Args, a: nat) returns (c: Conv)
    requires i <= |s|
    ensures c == ParseConv(s, i, args, a)
  {
    var f, at := Flags(false, false, false, false), i;
    while At(s, at) in {'-', '+', ' ', '#', '0'}
      invariant at <= |s| && ParseFlags(s, at, f) == ParseFlags(s, i, Flags(false, false, false, false))
      decreases |s| - at
    {
      if At(s, at) == '-' { f := f.(left := true); }
      else if At(s, at) == '+' { f := f.(plus := true); }
      else if At(s, at) == ' ' { f := f.(space := true); }
      else if At(s, at) == '0' { f := f.(zero := true); }
      at := at + 1;
    }
    c := Conv(f, -1, -1, NUL, at, a);
    c := ReadWidth(s, c, args);
    c := ReadPrecision(s, c, args);
    if At(s, c.at) == 'h' || At(s, c.at) == 'l' {
      c := c.(qualifier := At(s, c.at), at := c.at + 1);
    }
  }

  method ReadWidth(s: string, c0: Conv, args: Args) returns (c: Conv)
    requires c0.at <= |s|
    ensures c == ParseWidth(s, c0, args)
  {
    c := c0;
    if IsDigit(At(s, c.at)) {
      var w, i := SkipDigits(s, c.at);
      c := c.(width := w, at := i);
    } else if At(s, c.at) == '*' {
      var w := Signed(args.word(c.arg));
      if w < 0 {
        w := AsInt(-w);
        c := c.(flags := c.flags.(left := true));
      }
      c := c.(width := w, at := c.at + 1, arg := c.arg + 1);
    }
  }

  method ReadPrecision(s: string, c0: Conv, args: Args) returns (c: Conv)
    requires c0.at <= |s|
    ensures c == ParsePrecision(s, c0, args)
  {
    c := c0;
    if At(s, c.at) == '.' {
      c := c.(at := c.at + 1);
      var p := -1;
      if IsDigit(At(s, c.at)) {
        var i;
        p, i := SkipDigits(s, c.at);
        c := c.(at := i);
      } else if At(s, c.at) == '*' {
        p := Signed(args.word(c.arg));
        c := c.(at := c.at + 1, arg := c.arg + 1);
      }
      if p < 0 { p := 0; }
      c := c.(precision := p);
    }
  }

  method PutChar(buf: array<char>, str: nat, end: nat, ch: char, c: Conv, ghost m: seq<char>, ghost out: string)
    returns (next: nat)
    requires str == |out| && buf[..] == Wrote(m, end, out)
    requires Room(buf, end, |out| + |Padded([ch], c.width - 1, c.flags.left)|)
    modifies buf
    ensures var text := Padded([ch], c.width - 1, c.flags.left);
      next == |out| + |text| && buf[..] == Wrote(m, end, out + text)
  {
    hide Wrote;
    next := str;
    var width := c.width - 1;
    ghost var o := out;
    if !c.flags.left {
      next := PutTimes(buf, next, end, ' ', width, m, o);
      o := o + Times(' ', width);
      width := RunDown(width);
    }
    next := Put(buf, next, end, ch, m, o);
    next := PutTimes(buf, next, end, ' ', width, m, o + [ch]);
    assert o + [ch] + Times(' ', width) == out + Padded([ch], c.width - 1, c.flags.left) by {
      if c.flags.left { assert out + [ch] + Times(' ', width) == out + ([ch] + Times(' ', width)); }
      else { assert o + [ch] + "" == out + (Times(' ', c.width - 1) + [ch]); }
    }
  }

  method PutString(buf: array<char>, str: nat, end: nat, s: string, c: Conv, ghost m: seq<char>, ghost out: string)
    returns (next: nat)
    requires str == |out| && buf[..] == Wrote(m, end, out)
    requires Room(buf, end, |out| + |StringText(s, c)|)
    modifies buf
    ensures next == |out| + |StringText(s, c)| && buf[..] == Wrote(m, end, out + StringText(s, c))
  {
    hide Wrote;
    var len := |s|;
    if c.precision > 0 && len > c.precision { len := c.precision; }
    assert len == |s| ==> s[..len] == s;
    next := str;
    var pad := c.width - len;
    ghost var o := out;
    if !c.flags.left {
      next := PutTimes(buf, next, end, ' ', pad, m, o);
      o := o + Times(' ', pad);
      pad := RunDown(pad);
    }
    next := PutText(buf, next, end, s, len, m, o);
    next := PutTimes(buf, next, end, ' ', pad, m, o + s[..len]);
    assert o + s[..len] + Times(' ', pad) == out + StringText(s, c) by {
      if c.flags.left { assert out + s[..len] + Times(' ', pad) == out + (s[..len] + Times(' ', pad)); }
      else { assert o + s[..len] + "" == out + (Times(' ', c.width - len) + s[..len]); }
    }
  }

  method PutInteger(buf: array<char>, str: nat, end: nat, w: Word, c: Conv, base: nat, large: bool, signed: bool,
                    ghost m: seq<char>, ghost out: string)
    returns (next: nat)
    requires str == |out| && buf[..] == Wrote(m, end, out)
    requires Room(buf, end, |out| + |IntegerText(w, c, base, large, signed)|)
    modifies buf
    ensures var text := IntegerText(w, c, base, large, signed);
      next == |out| + |text| && buf[..] == Wrote(m, end, out + text)
  {
    hide Wrote, NumberText;
    var num := w;
    if c.qualifier == 'h' {
      num := w % 0x1_0000;
      if signed && num >= 0x8000 { num := WORD - 0x1_0000 + num; }
    }
    next := PrintNumber(buf, str, end, num, base, c.width, c.precision, large, signed, c.flags, m, out);
  }

  /** The switch on the conversion character. */
  method PutConversion(buf: array<char>, str: nat, end: nat, s: string, c: Conv, args: Args, ghost m: seq<char>, ghost out: string)
    returns (next: nat, i: nat, a: nat)
    requires c.at <= |s|
    requires str == |out| && buf[..] == Wrote(m, end, out)
    requires Room(buf, end, |out| + |Convert(s, c, args).text|)
    modifies buf
    ensures var p := Convert(s, c, args);
      i == p.next && a == p.arg && next == |out| + |p.text| && buf[..] == Wrote(m, end, out + p.text)
  {
    hide Wrote, NumberText, IntegerText, StringText, Padded;
    var ch := At(s, c.at);
    var w := args.word(c.arg);
    i, a := c.at + 1, c.arg + 1;
    if ch == 'c' {
      next := PutChar(buf, str, end, (w % 256) as char, c, m, out);
    } else if ch == 's' {
      next := PutString(buf, str, end, if w == 0 then "(NULL)" else args.text(w), c, m, out);
    } else if ch == 'p' {
      var width, f := c.width, c.flags;
      if width == -1 {
        width := 8;
        f := f.(zero := true);
      }
      next := PrintNumber(buf, str, end, w, 16, width, c.precision, false, false, f, m, out);
    } else if ch in {'o', 'X', 'x', 'd', 'i', 'u'} {
      var base := if ch == 'o' then 8 else if ch == 'X' || ch == 'x' then 16 else 10;
      next := PutInteger(buf, str, end, w, c, base, ch == 'X', ch == 'd' || ch == 'i', m, out);
    } else {
      a := c.arg;
      next, i := PutOther(buf, str, end, ch, c.at, m, out);
    }
  }

  /** A percent sign, or a percent sign and a character that means nothing. */
  method PutOther(buf: array<char>, str: nat, end: nat, ch: char, at: nat, ghost m: seq<char>, ghost out: string)
    returns (next: nat, i: nat)
    requires str == |out| && buf[..] == Wrote(m, end, out)
    requires Room(buf, end, |out| + (if ch == '%' || ch == NUL then 1 else 2))
    modifies buf
    ensures var text := if ch == '%' || ch == NUL then "%" else ['%', ch];
      next == |out| + |text| && buf[..] == Wrote(m, end, out + text) && i == if ch == NUL then at else at + 1
  {
    hide Wrote;
    next := Put(buf, str, end, '%', m, out);
    i := at + 1;
    if ch == NUL {
      i := at;
    } else if ch != '%' {
      assert out + ['%'] + [ch] == out + ['%', ch];
      next := Put(buf, next, end, ch, m, out + ['%']);
    }
  }

  /** end - buf, when the end of the buffer does not go round the end of the address space. */
  function EndOffset(addr: Word, size: Word): nat {
    if addr + size < WORD then size else WORD - 1 - addr
  }

  /** As much of the text as there is room for, and a NUL after it; what follows is as it was. */
  ghost predicate Terminated(m: seq<char>, m1: seq<char>, end: nat, text: string) {
    |m1| == |m| &&
    if end == 0 then m1 == m
    else
      var n := if |text| < end - 1 then |text| else end - 1;
      n < |m1| && m1[..n] == text[..n] && m1[n] == NUL && m1[n + 1..] == m[n + 1..]
  }

  /** rt_vsnprintf into buf at address addr. What it returns does not depend on size: the length of the whole output. */
  method VsnPrintf(buf: array<char>, addr: Word, size: Word, s: string, args: Args) returns (r: int)
    requires addr + |Output(s, 0, args, 0)| < WORD
    requires Room(buf, EndOffset(addr, size), |Output(s, 0, args, 0)| + 1)
    modifies buf
    ensures r == |Output(s, 0, args, 0)|
    ensures Terminated(old(buf[..]), buf[..], EndOffset(addr, size), Output(s, 0, args, 0))
  {
    var last, room := (addr + size) % WORD, size;
    if last < addr {
      last := WORD - 1;
      room := last - addr;
    }
    var end: nat := last - addr;
    assert end == room == EndOffset(addr, size);
    hide Wrote, Output, Terminated;
    ghost var m := buf[..];
    WroteNothing(m, end);
    var str := PutAll(buf, end, s, args, m);
    PutNul(buf, str, end, room, m, Output(s, 0, args, 0));
    r := str;
  }

  method PutNul(buf: array<char>, str: nat, end: nat, size: nat, ghost m: seq<char>, ghost out: string)
    requires str == |out| && buf[..] == Wrote(m, end, out) && size == end && Room(buf, end, |out| + 1)
    modifies buf
    ensures Terminated(m, buf[..], end, out)
  {
    if size > 0 {
      if str < end { buf[str] := NUL; } else { buf[end - 1] := NUL; }
    }
  }

  method PutAll(buf: array<char>, end: nat, s: string, args: Args, ghost m: seq<char>) returns (str: nat)
    requires buf[..] == Wrote(m, end, "")
    requires Room(buf, end, |Output(s, 0, args, 0)| + 1)
    modifies buf
    ensures str == |Output(s, 0, args, 0)| && buf[..] == Wrote(m, end, Output(s, 0, args, 0))
  {
    hide Wrote, Convert, ParseConv;
    str := 0;
    var i, a := 0, 0;
    ghost var out := "";
    while At(s, i) != NUL
      invariant 0 <= i <= |s| && 0 <= a && out + Output(s, i, args, a) == Output(s, 0, args, 0)
      invariant str == |out| && buf[..] == Wrote(m, end, out)
      decreases |s| - i
    {
      ghost var rest := Output(s, i, args, a);
      if s[i] != '%' {
        str := Put(buf, str, end, s[i], m, out);
        assert out + rest == out + [s[i]] + Output(s, i + 1, args, a);
        out := out + [s[i]];
        i := i + 1;
      } else {
        var c := ReadConv(s, i + 1, args, a);
        ghost var p := Convert(s, c, args);
        assert out + rest == out + p.text + Output(s, p.next, args, p.arg);
        str, i, a := PutConversion(buf, str, end, s, c, args, m, out);
        out := out + p.text;
      }
    }
    assert out + "" == out;
  }
}
