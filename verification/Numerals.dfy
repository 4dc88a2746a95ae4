/** Which numbers the text of a number stands for (os/misc.c:176-236), from the numerals themselves:
    dstrtol reads every numeral in every base, with its sign and prefix, behind white space. */
module Numerals {
  import opened Numbers
  import opened Words

  /** The digits of `n` in base `b`. */
  function NumeralIn(n: nat, b: nat, digits: string): (s: string)
    requires 2 <= b <= 16 && |digits| == 16
    ensures |s| > 0
  {
    if n < b then [digits[n]] else NumeralIn(n / b, b, digits) + [digits[n % b]]
  }

  predicate IsDigitSet(digits: string) { digits == "0123456789abcdef" || digits == "0123456789ABCDEF" }

  /** The digits below `b`, in both cases. */
  predicate IsDigitOf(c: char, b: nat)
    requires b <= 16
  {
    c in "0123456789abcdef"[..b] || c in "0123456789ABCDEF"[..b]
  }

  lemma LowerValue(d: nat)
    requires d < 16
    ensures DigitValue("0123456789abcdef"[d]) == d
    ensures "0123456789abcdef"[d] == if d < 10 then '0' + d as char else 'a' + (d - 10) as char
  {
  }

  lemma UpperValue(d: nat)
    requires d < 16
    ensures DigitValue("0123456789ABCDEF"[d]) == d
    ensures "0123456789ABCDEF"[d] == if d < 10 then '0' + d as char else 'A' + (d - 10) as char
  {
  }

  /** Every digit has its value, and nothing else is a digit. */
  lemma DigitValues(c: char, b: nat)
    requires b <= 16
    ensures DigitValue(c) < b <==> IsDigitOf(c, b)
    ensures forall d :: 0 <= d < 16 ==>
              (c == "0123456789abcdef"[d] || c == "0123456789ABCDEF"[d]) ==> DigitValue(c) == d
  {
    hide DigitValue;
    var lower, upper := "0123456789abcdef", "0123456789ABCDEF";
    forall d | 0 <= d < 16 ensures DigitValue(lower[d]) == DigitValue(upper[d]) == d {
      LowerValue(d);
      UpperValue(d);
    }
    SmallIsDigit(c);
    if DigitValue(c) < b {
      var d := DigitValue(c);
      assert lower[d] == lower[..b][d] && upper[d] == upper[..b][d];
    } else {
      forall d | 0 <= d < b ensures c != lower[..b][d] && c != upper[..b][d] { }
    }
  }

  lemma SmallIsDigit(c: char)
    ensures DigitValue(c) < 16 ==>
      c == "0123456789abcdef"[DigitValue(c)] || c == "0123456789ABCDEF"[DigitValue(c)]
  {
    var d := DigitValue(c);
    if d < 16 {
      LowerValue(d);
      UpperValue(d);
    }
  }

  // ----- digits -----

  lemma WrapIs(x: int)
    ensures Wrap(x) == x - (x + 0x8000_0000) / TWO_32 * TWO_32 && -0x8000_0000 <= Wrap(x) <= 0x7fff_ffff
  {
  }

  lemma Scale(h: int, k: int, b: int)
    ensures (h + k * TWO_32) * b == h * b + (k * b) * TWO_32
  {
  }

  /** A digit more, on a value that differs from `h` by a multiple of 2^32. */
  lemma StepModulo(h: int, k: int, b: nat, d: nat) returns (k': int)
    ensures Wrap(Wrap((h + k * TWO_32) * b) + d) == h * b + d + k' * TWO_32
  {
    hide Wrap;
    var v := h + k * TWO_32;
    Scale(h, k, b);
    WrapIs(v * b);
    WrapIs(Wrap(v * b) + d);
    k' := k * b - (v * b + 0x8000_0000) / TWO_32 - (Wrap(v * b) + d + 0x8000_0000) / TWO_32;
  }

  /** The numeral stands at place `i`. */
  predicate At(c: seq<char>, i: nat, s: string) { i + |s| <= |c| && c[i..i + |s|] == s }

  lemma LastOfNumeral(n: nat, b: nat, digits: string)
    requires 2 <= b <= 16 && |digits| == 16
    ensures var s := NumeralIn(n, b, digits);
      && s[|s| - 1] == digits[n % b]
      && s[..|s| - 1] == if n < b then "" else NumeralIn(n / b, b, digits)
  {
    Division(n, b);
  }

  lemma Division(n: nat, b: nat)
    requires b >= 2
    ensures n / b * b + n % b == n && 0 <= n % b < b && (n < b ==> n / b == 0 && n % b == n)
    ensures n >= b ==> 0 <= n / b < n
  {
    if n >= b { Smaller(n, b); }
  }

  lemma Smaller(n: nat, b: nat)
    requires 2 <= b <= n
    ensures 0 <= n / b < n
  {
    if n / b >= n { Twice(n, b, n / b); }
  }

  lemma Twice(n: nat, b: nat, q: int)
    requires 2 <= b && q >= n > 0
    ensures q * b >= 2 * n
  {
  }

  lemma LastDigit(c: seq<char>, i: nat, n: nat, b: nat, digits: string)
    requires 2 <= b <= 16 && IsDigitSet(digits) && At(c, i, NumeralIn(n, b, digits))
    ensures var last := i + |NumeralIn(n, b, digits)| - 1;
      && DigitValue(c[last]) == n % b
      && (n < b ==> last == i)
      && (n >= b ==> At(c, i, NumeralIn(n / b, b, digits)) && i + |NumeralIn(n / b, b, digits)| == last)
  {
    hide DigitValue, NumeralIn;
    var s := NumeralIn(n, b, digits);
    LastOfNumeral(n, b, digits);
    Division(n, b);
    assert c[i + |s| - 1] == c[i..i + |s|][|s| - 1];
    assert c[i..i + |s| - 1] == c[i..i + |s|][..|s| - 1];
    DigitValues(digits[n % b], 16);
  }

  /** A numeral is read, digit by digit, modulo 2^32. */
  lemma {:induction false} ReadsNumeral(c: seq<char>, i: nat, n: nat, b: nat, digits: string) returns (k: int)
    requires 2 <= b <= 16 && IsDigitSet(digits) && At(c, i, NumeralIn(n, b, digits))
    requires i + |NumeralIn(n, b, digits)| < |c| && c[|c| - 1] == '\0'
    ensures Digits(c, i, b, 0) == Digits(c, i + |NumeralIn(n, b, digits)|, b, n + k * TWO_32)
    decreases n
  {
    hide Digits, DigitValue, NumeralIn, Wrap, At;
    var last := i + |NumeralIn(n, b, digits)| - 1;
    LastDigit(c, i, n, b, digits);
    Division(n, b);
    var k0 := 0;
    if n >= b { k0 := ReadsNumeral(c, i, n / b, b, digits); }
    NextOfDigits(c, last, b, n / b + k0 * TWO_32);
    k := StepModulo(n / b, k0, b, n % b);
  }

  // ----- numbers -----

  lemma {:induction false} SkipsBlanks(c: seq<char>, i: nat, j: nat)
    requires i <= j < |c| && c[|c| - 1] == '\0' && !IsSpace(c[j])
    requires forall k :: i <= k < j ==> c[k] == ' ' || c[k] == '\t' || c[k] == '\n'
    ensures SkipSpaces(c, i) == j
    decreases j - i
  {
    if i < j { SkipsBlanks(c, i + 1, j); }
  }

  /** The prefix that makes dstrtol read in base `b`, for its third argument. */
  predicate Announces(prefix: string, base: int, b: nat, n: nat) {
    || (prefix == "" && base == b)
    || (base == 0 && b == 16 && (prefix == "0x" || prefix == "0X"))
    || (base == 0 && b == 8 && prefix == "0")
    || (base == 0 && b == 10 && prefix == "" && n > 0)
  }

  lemma {:induction false} FirstDigit(n: nat, b: nat, digits: string)
    requires 2 <= b <= 16 && IsDigitSet(digits)
    ensures IsDigitOf(NumeralIn(n, b, digits)[0], b) && (n > 0 ==> NumeralIn(n, b, digits)[0] != '0')
    decreases n
  {
    hide IsDigitOf;
    if n < b {
      IsOneDigit(n, b, digits);
    } else {
      Division(n, b);
      MoreThanOne(n, b);
      FirstDigit(n / b, b, digits);
    }
  }

  lemma MoreThanOne(n: nat, b: nat)
    requires 2 <= b <= n
    ensures n / b > 0
  {
  }

  lemma IsOneDigit(d: nat, b: nat, digits: string)
    requires d < b <= 16 && IsDigitSet(digits)
    ensures IsDigitOf(digits[d], b) && (d > 0 ==> digits[d] != '0')
  {
    assert digits[d] == digits[..b][d];
  }

  lemma DigitIsPlain(c: char, b: nat)
    requires b <= 16 && IsDigitOf(c, b)
    ensures !IsSpace(c) && c != '\0' && c != '-' && c != 'x' && c != 'X'
  {
    hide DigitValue;
    DigitValues(c, b);
    if IsSpace(c) || c == '\0' || c == '-' || c == 'x' || c == 'X' { NoDigit(c); }
  }

  lemma NoDigit(c: char)
    requires IsSpace(c) || c == '\0' || c == '-' || c == 'x' || c == 'X'
    ensures DigitValue(c) >= 16
  {
  }

  /** The part of a number behind its sign. */
  lemma ReadsUnsigned(c: seq<char>, j: nat, prefix: string, n: nat, b: nat, digits: string, base: int) returns (k: int)
    requires 2 <= b <= 16 && IsDigitSet(digits) && Announces(prefix, base, b, n)
    requires At(c, j, prefix) && At(c, j + |prefix|, NumeralIn(n, b, digits)) && c[|c| - 1] == '\0'
    requires var end := j + |prefix| + |NumeralIn(n, b, digits)|; end < |c| && !IsDigitOf(c[end], b)
    ensures c[j] != '-' && !IsSpace(c[j]) && c[j] != '\0'
    ensures BaseOf(c, j, base) == (b, j + |prefix|)
    ensures Digits(c, j + |prefix|, b, 0) == (n + k * TWO_32, j + |prefix| + |NumeralIn(n, b, digits)|)
  {
    hide Digits, DigitValue, NumeralIn, IsDigitOf, IsSpace;
    var s := NumeralIn(n, b, digits);
    var m := j + |prefix|;
    FirstDigit(n, b, digits);
    assert c[m] == c[m..m + |s|][0] == s[0];
    DigitIsPlain(c[m], b);
    k := ReadsNumeral(c, m, n, b, digits);
    DigitValues(c[m + |s|], b);
    NextOfDigits(c, m + |s|, b, n + k * TWO_32);
    if prefix != "" {
      assert c[j] == c[j..j + |prefix|][0] == '0';
      ZeroIsPlain();
      if |prefix| == 2 { assert c[j + 1] == c[j..j + 2][1] == prefix[1]; }
    }
  }

  lemma ZeroIsPlain()
    ensures !IsSpace('0')
  {
  }

  function Signed(n: nat, minus: bool): int { (if minus then -1 else 1) * n }

  /** dstrtol reads every number, in every base, behind any white space, with its sign and with the
      prefix of its base, as its value in 32 bits, and stops right behind its last digit. */
  lemma ReadsNumber(blanks: string, minus: bool, prefix: string, n: nat, b: nat, digits: string, rest: string, base: int)
    requires forall i :: 0 <= i < |blanks| ==> blanks[i] == ' ' || blanks[i] == '\t' || blanks[i] == '\n'
    requires 2 <= b <= 16 && IsDigitSet(digits) && Announces(prefix, base, b, n)
    requires |rest| > 0 && rest[|rest| - 1] == '\0' && !IsDigitOf(rest[0], b)
    ensures var text := blanks + ((if minus then "-" else "") + (prefix + (NumeralIn(n, b, digits) + rest)));
      var (v, end) := Parse(text, 0, base);
      && end == |text| - |rest|
      && -0x8000_0000 <= v <= 0x7fff_ffff && (v - Signed(n, minus)) % 0x1_0000_0000 == 0
      && (-0x8000_0000 <= Signed(n, minus) <= 0x7fff_ffff ==> v == Signed(n, minus))
  {
    hide Digits, DigitValue, NumeralIn, IsDigitOf, IsSpace, BaseOf, Wrap, Announces;
    var sign, number := if minus then "-" else "", NumeralIn(n, b, digits);
    var text := blanks + (sign + (prefix + (number + rest)));
    var p := |blanks|;
    var j := p + |sign|;
    Parts(blanks, sign, prefix, number, rest);
    var k := ReadsUnsigned(text, j, prefix, n, b, digits, base);
    if minus { MinusIsPlain(); }
    SkipsBlanks(text, 0, p);
    var v := n + k * TWO_32;
    WrapIs(if minus then -v else v);
    IsMultiple(if minus then -k else k, ((if minus then -v else v) + 0x8000_0000) / TWO_32);
  }

  lemma MinusIsPlain()
    ensures !IsSpace('-')
  {
  }

  lemma IsMultiple(k: int, q: int)
    ensures (k * TWO_32 - q * TWO_32) % TWO_32 == 0
  {
    var d := k - q;
    assert k * TWO_32 - q * TWO_32 == d * TWO_32;
  }

  lemma Parts(blanks: string, sign: string, prefix: string, number: string, rest: string)
    requires |rest| > 0 && rest[|rest| - 1] == '\0'
    ensures var text := blanks + (sign + (prefix + (number + rest)));
      var p := |blanks|;
      var j := p + |sign|;
      && text[|text| - 1] == '\0' && At(text, j, prefix) && At(text, j + |prefix|, number)
      && (forall i :: 0 <= i < p ==> text[i] == blanks[i])
      && (sign != "" ==> text[p] == sign[0])
      && |text| == j + |prefix| + |number| + |rest| && text[j + |prefix| + |number|] == rest[0]
  {
  }

  /** Without a number, or with an impossible base, the value is 0, and the place is that behind the
      white space. */
  lemma ReadsNothing(blanks: string, rest: string, base: int)
    requires forall i :: 0 <= i < |blanks| ==> blanks[i] == ' ' || blanks[i] == '\t' || blanks[i] == '\n'
    requires |rest| > 0 && rest[|rest| - 1] == '\0' && rest[0] != ' ' && rest[0] != '\t' && rest[0] != '\n'
    requires rest[0] == '\0' || base < 0 || base > 16
    ensures Parse(blanks + rest, 0, base) == (0, |blanks|)
  {
    SkipsBlanks(blanks + rest, 0, |blanks|);
  }
}
