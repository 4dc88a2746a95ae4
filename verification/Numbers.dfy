/** Printing and parsing numbers (os/misc.c:154-236). */
module Numbers {
  import Synch
  import opened Words

  // ----- decimal digits -----

  function Pow10(j: nat): (k: nat)
    ensures k >= 1
  {
    if j == 0 then 1 else 10 * Pow10(j - 1)
  }

  /** A digit, or one of the characters that follow '9'. */
  function DigitChar(d: int): char
    requires 0 <= d < 20
  {
    '0' + d as char
  }

  /** The decimal numeral of `n`. */
  function Numeral(n: nat): (s: string)
    ensures |s| > 0
  {
    if n < 10 then [DigitChar(n)] else Numeral(n / 10) + [DigitChar(n % 10)]
  }

  /** `n` with exactly `j` digits. */
  function Padded(n: nat, j: nat): (s: string)
    requires n < Pow10(j)
    ensures |s| == j
    decreases j
  {
    if j == 0 then ""
    else
      assert 0 <= n / Pow10(j - 1) < 10 && n % Pow10(j - 1) < Pow10(j - 1) by { LeadingDigit(n, Pow10(j - 1)); }
      [DigitChar(n / Pow10(j - 1))] + Padded(n % Pow10(j - 1), j - 1)
  }

  lemma LeadingDigit(n: nat, k: nat)
    requires k >= 1 && n < 10 * k
    ensures 0 <= n / k < 10 && n % k < k
  {
    TenTimes(n / k, k);
    assert n == n / k * k + n % k;
  }

  lemma TenTimes(q: int, k: nat)
    ensures q >= 10 ==> q * k >= 10 * k
  {
  }

  /** The last digit of a padded numeral. */
  lemma {:induction false} PaddedLast(n: nat, j: nat)
    requires j > 0 && n < Pow10(j)
    ensures n / 10 < Pow10(j - 1)
    ensures Padded(n, j) == Padded(n / 10, j - 1) + [DigitChar(n % 10)]
    decreases j
  {
    if j > 1 {
      var k := Pow10(j - 1);
      LeadingDigit(n, k);
      PaddedLast(n % k, j - 1);
      SplitDigits(n, Pow10(j - 2));
    }
  }

  lemma SplitDigits(n: nat, k: nat)
    requires k >= 1
    ensures n / 10 / k == n / (10 * k) && n / 10 % k == n % (10 * k) / 10 && n % (10 * k) % 10 == n % 10
  {
    var q, r := n / (10 * k), n % (10 * k);
    assert n == 10 * (q * k) + r;
    assert n / 10 == q * k + r / 10;
    QuotientAndRemainder(q, r / 10, k);
  }

  lemma QuotientAndRemainder(q: nat, r: nat, k: nat)
    requires r < k
    ensures (q * k + r) / k == q && (q * k + r) % k == r
  {
    var a, b := (q * k + r) / k, (q * k + r) % k;
    Scaled(k, a, b, q * k + r);
    if a > q { Grows(k, q + 1, a); }
    if a < q { Grows(k, a + 1, q); }
  }

  lemma Scaled(k: nat, a: int, b: int, x: int)
    requires k >= 1 && a == x / k && b == x % k
    ensures x == a * k + b && 0 <= b < k
  {
  }

  lemma Grows(k: nat, x: int, y: int)
    requires x <= y
    ensures x * k <= y * k
    ensures (x - 1) * k == x * k - k
  {
  }

  lemma PowerIsOne(j: nat)
    ensures Pow10(j) < 10 <==> j == 0
  {
  }

  /** A padded numeral whose first digit counts is the numeral. */
  lemma {:induction false} PaddedIsNumeral(n: nat, j: nat)
    requires j > 0 && n < Pow10(j) && (n >= Pow10(j - 1) || j == 1)
    ensures Numeral(n) == Padded(n, j)
    decreases j
  {
    PaddedLast(n, j);
    if n < 10 {
      PowerIsOne(j - 1);
    } else {
      assert j > 1;
      assert n / 10 >= Pow10(j - 2);
      PaddedIsNumeral(n / 10, j - 1);
    }
  }

  // ----- ditoa -----

  const LIMIT: int := 1_000_000_000
  const INT_MAX: int := 0x7fff_ffff

  /** Sums and products of C integers, which have 32 bits. */
  function Wrap(x: int): int {
    (x + 0x8000_0000) % TWO_32 - 0x8000_0000
  }

  lemma NoWrap(x: int)
    requires -0x8000_0000 <= x <= INT_MAX
    ensures Wrap(x) == x
  {
  }

  /** The variable `k` after `i` rounds of the first loop of ditoa. */
  function Power32(i: nat): int {
    if i == 0 then 1 else Wrap(Power32(i - 1) * 10)
  }

  /** From the 32nd round on `k` is 0. */
  const ROUNDS: nat := 32

  /** The first value of `k` above `n`, from round `i` on; None if the loop goes on for ever. */
  function FirstAbove(n: int, i: nat): (k: Synch.Option<int>)
    ensures k.Some? ==> k.value > n
    decreases ROUNDS + 1 - i
  {
    if i > ROUNDS then Synch.None
    else if Power32(i) > n then Synch.Some(Power32(i))
    else FirstAbove(n, i + 1)
  }

  /** The second loop of ditoa divides `k` by ten until it is 1, and not by accident 0. */
  predicate LeadsToOne(k: nat) {
    k == 1 || (k >= 10 && LeadsToOne(k / 10))
  }

  lemma Quotient(n: nat, k: nat)
    requires n < k && k >= 10
    ensures 0 <= n / (k / 10) < 20 && n % (k / 10) < k / 10
  {
    var q, h := n / (k / 10), k / 10;
    assert n == q * h + n % h;
    TwentyTimes(q, h);
  }

  lemma TwentyTimes(q: int, k: nat)
    ensures q >= 20 ==> q * k >= 20 * k
  {
  }

  /** What the second loop of ditoa writes. */
  function Put(n: nat, k: nat): (s: string)
    requires n < k && k > 1 && LeadsToOne(k)
    ensures |s| > 0 && '0' <= s[0]
    decreases k
  {
    Quotient(n, k);
    var h := k / 10;
    [DigitChar(n / h)] + if h > 1 then Put(n % h, h) else ""
  }

  /** What ditoa writes before the NUL; None if it never returns. */
  function Printed(n: int): (s: Synch.Option<string>)
    ensures s.Some? ==> |s.value| > 0
  {
    if n < 0 then Synch.Some("-")
    else if n == 0 then Synch.Some("0")
    else
      match FirstAbove(n, 0)
      case None => Synch.None
      case Some(k) => FirstAboveLeads(n); Synch.Some(Put(n, k))
  }

  // ----- the first loop: powers of ten in 32 bits -----

  lemma PowersBelow(j: nat)
    requires j <= 9
    ensures Pow10(j) <= LIMIT && (j < 9 <==> Pow10(j) < LIMIT)
  {
    assert Pow10(9) == LIMIT by {
      assert Pow10(3) == 1000;
      assert Pow10(6) == 1000 * 1000 by { assert Pow10(5) == 100 * Pow10(3); }
      assert Pow10(8) == 100 * Pow10(6);
    }
  }

  lemma {:induction false} PowersFit(j: nat)
    requires j <= 9
    ensures Power32(j) == Pow10(j) <= LIMIT && LeadsToOne(Pow10(j)) && (j > 0 ==> Pow10(j) >= 10)
  {
    PowersBelow(j);
    if j > 0 {
      PowersFit(j - 1);
      NoWrap(Pow10(j));
    }
  }

  const FIRST_WRAPPED: int := 1_410_065_408
  const GREATEST: int := 1_874_919_424

  lemma NextPower(i: nat, k: int)
    requires Power32(i) == k
    ensures Power32(i + 1) == Wrap(k * 10)
  {
  }

  /** The tenth power wraps around, and no later one is greater than the sixteenth. */
  lemma WrappedPowers()
    ensures Power32(10) == FIRST_WRAPPED && Power32(16) == GREATEST && Power32(32) == 0
    ensures forall i :: 10 < i < 16 ==> Power32(i) < FIRST_WRAPPED
    ensures forall i :: 16 < i <= 32 ==> Power32(i) < GREATEST
  {
    hide Power32;
    PowersFit(9);
    PowersBelow(9);
    NextPower(9, 1000000000);
    NextPower(10, 1410065408);
    NextPower(11, 1215752192);
    NextPower(12, -727379968);
    NextPower(13, 1316134912);
    NextPower(14, 276447232);
    NextPower(15, -1530494976);
    LatePowers();
  }

  lemma LatePowers()
    requires Power32(16) == GREATEST
    ensures Power32(32) == 0 && forall i :: 16 < i <= 32 ==> Power32(i) < GREATEST
  {
    hide Power32;
    NextPower(16, 1874919424);
    NextPower(17, 1569325056);
    NextPower(18, -1486618624);
    NextPower(19, -1981284352);
    NextPower(20, 1661992960);
    NextPower(21, -559939584);
    NextPower(22, -1304428544);
    NextPower(23, -159383552);
    NextPower(24, -1593835520);
    NextPower(25, 1241513984);
    NextPower(26, -469762048);
    NextPower(27, -402653184);
    NextPower(28, 268435456);
    NextPower(29, -1610612736);
    NextPower(30, 1073741824);
    NextPower(31, -2147483648);
  }

  lemma {:induction false} ZeroForEver(i: nat)
    requires i >= 32
    ensures Power32(i) == 0
  {
    if i == 32 { WrappedPowers(); } else { ZeroForEver(i - 1); }
  }

  lemma {:induction false} SkipRounds(n: int, i: nat, j: nat)
    requires i <= j <= ROUNDS + 1 && forall r :: i <= r < j ==> Power32(r) <= n
    ensures FirstAbove(n, i) == FirstAbove(n, j)
    decreases j - i
  {
    if i < j {
      assert Power32(i) <= n;
      SkipRounds(n, i + 1, j);
    }
  }

  /** Below 10^9 the first loop finds the least power of ten above `n`. */
  lemma {:induction false} FoundBelow(n: int, i: nat) returns (j: nat)
    requires 0 < n < LIMIT && i < 9 && Pow10(i) <= n
    ensures 0 < j <= 9 && Pow10(j - 1) <= n < Pow10(j) && FirstAbove(n, i) == Synch.Some(Pow10(j))
    decreases 9 - i
  {
    hide Power32;
    PowersFit(i);
    PowersFit(i + 1);
    PowersBelow(i + 1);
    if Pow10(i + 1) > n { j := i + 1; } else { j := FoundBelow(n, i + 1); }
  }

  /** From 10^9 on it finds one of two numbers that are no powers of ten, or nothing. */
  lemma FoundAbove(n: int)
    requires n >= LIMIT
    ensures FirstAbove(n, 0) ==
      if n < FIRST_WRAPPED then Synch.Some(FIRST_WRAPPED) else if n < GREATEST then Synch.Some(GREATEST) else Synch.None
  {
    hide Power32;
    WrappedPowers();
    forall r | 0 <= r < 10 ensures Power32(r) <= n { PowersFit(r); }
    SkipRounds(n, 0, 10);
    if n >= FIRST_WRAPPED {
      SkipRounds(n, 10, 16);
      if n >= GREATEST { SkipRounds(n, 16, 33); }
    }
  }

  lemma FirstAboveLeads(n: int)
    requires n > 0 && FirstAbove(n, 0).Some?
    ensures FirstAbove(n, 0).value > 1 && LeadsToOne(FirstAbove(n, 0).value)
  {
    hide FirstAbove, Power32;
    if n < LIMIT {
      var j := FoundBelow(n, 0);
      PowersFit(j);
    } else {
      FoundAbove(n);
      WrappedLead();
    }
  }

  lemma WrappedLead()
    ensures LeadsToOne(FIRST_WRAPPED) && LeadsToOne(GREATEST)
  {
    assert LeadsToOne(14100) && LeadsToOne(18749);
    assert LeadsToOne(14100654) && LeadsToOne(18749194);
  }

  /** ditoa returns for every number below 1874919424, and for no other. */
  lemma ReturnsExactly(n: int)
    ensures Printed(n).Some? <==> n < GREATEST
    ensures n > 0 ==> (Printed(n).Some? <==> exists i :: Power32(i) > n)
  {
    hide FirstAbove, Power32;
    if n >= LIMIT {
      FoundAbove(n);
      if n < GREATEST {
        WrappedPowers();
        assert Power32(10) > n || Power32(16) > n;
      } else {
        forall i: nat ensures Power32(i) <= n { NeverAbove(n, i); }
      }
    } else if n > 0 {
      var j := FoundBelow(n, 0);
      PowersFit(j);
      assert Power32(j) > n;
    }
  }

  lemma NeverAbove(n: int, i: nat)
    requires n >= GREATEST
    ensures Power32(i) <= n
  {
    if i > 32 { ZeroForEver(i); } else if i < 10 { PowersFit(i); } else { WrappedPowers(); }
  }

  /** The first loop of ditoa, where it ends. */
  method PowerAbove(n: int) returns (k: int)
    requires n > 0 && FirstAbove(n, 0).Some?
    ensures Synch.Some(k) == FirstAbove(n, 0)
  {
    k := 1;
    ghost var i := 0;
    while k <= n
      invariant k == Power32(i) && i <= ROUNDS && FirstAbove(n, i) == FirstAbove(n, 0)
      decreases ROUNDS - i
    {
      k := Wrap(k * 10);
      i := i + 1;
    }
  }

  // ----- the second loop -----

  lemma NextDigit(n: nat, k: nat)
    requires n < k && k > 1 && LeadsToOne(k)
    ensures k >= 10 && 0 <= n / (k / 10) < 20 && n % (k / 10) < k / 10 && LeadsToOne(k / 10)
    ensures Put(n, k) == [DigitChar(n / (k / 10))] + if k / 10 > 1 then Put(n % (k / 10), k / 10) else ""
  {
    Quotient(n, k);
  }

  /** What is still to be written. */
  function Rest(n: nat, k: nat): string
    requires n < k && LeadsToOne(k)
  {
    if k > 1 then Put(n, k) else ""
  }

  /** One more digit of a text that begins with `done`. */
  lemma NextRest(n: nat, k: nat, done: string)
    requires n < k && k > 1 && LeadsToOne(k)
    ensures k >= 10 && 0 <= n / (k / 10) < 20 && 0 <= n % (k / 10) < k / 10 && LeadsToOne(k / 10) && |Rest(n, k)| > 0
    ensures done + Rest(n, k) == done + [DigitChar(n / (k / 10))] + Rest(n % (k / 10), k / 10)
  {
    NextDigit(n, k);
    var d, rest := [DigitChar(n / (k / 10))], Rest(n % (k / 10), k / 10);
    assert done + (d + rest) == done + d + rest;
  }

  /** The second loop of ditoa. */
  method PutDigits(n: int, power: int, buf: array<char>) returns (pos: nat)
    requires 0 <= n < power && LeadsToOne(power) && |Rest(n, power)| <= buf.Length
    modifies buf
    ensures pos == |Rest(n, power)| && buf[..pos] == Rest(n, power)
    ensures forall i :: pos <= i < buf.Length ==> buf[i] == old(buf[i])
  {
    hide Rest, LeadsToOne, DigitChar;
    var k, rest := power, n;
    pos := 0;
    while k > 1
      invariant 0 <= rest < k && LeadsToOne(k) && pos <= buf.Length
      invariant buf[..pos] + Rest(rest, k) == Rest(n, power)
      invariant forall i :: pos <= i < buf.Length ==> buf[i] == old(buf[i])
      decreases k
    {
      ghost var done := buf[..pos];
      NextRest(rest, k, done);
      assert pos + |Rest(rest, k)| <= buf.Length;
      k := k / 10;
      buf[pos] := DigitChar(rest / k);
      pos := pos + 1;
      assert buf[..pos] == done + [DigitChar(rest / k)];
      rest := rest % k;
    }
    NothingLeft(rest, k);
    assert buf[..pos] + "" == buf[..pos];
  }

  lemma NothingLeft(n: nat, k: nat)
    requires n < k <= 1 && LeadsToOne(k)
    ensures Rest(n, k) == ""
  {
  }

  /** ditoa, where it returns. */
  method Ditoa(n: int, buf: array<char>)
    requires Printed(n).Some? && |Printed(n).value| < buf.Length
    modifies buf
    ensures var s := Printed(n).value;
      && buf[..|s| + 1] == s + ['\0']
      && forall i :: |s| < i < buf.Length ==> buf[i] == old(buf[i])
  {
    var pos := 0;
    if n < 0 {
      buf[pos] := '-';
      pos := pos + 1;
    } else if n == 0 {
      buf[pos] := '0';
      pos := pos + 1;
    } else {
      var k := PowerAbove(n);
      FirstAboveLeads(n);
      pos := PutDigits(n, k, buf);
    }
    buf[pos] := '\0';
  }

  // ----- what is printed -----

  lemma {:induction false} PutIsPadded(n: nat, j: nat)
    requires j > 0 && n < Pow10(j)
    ensures Pow10(j) > 1 && LeadsToOne(Pow10(j)) && Put(n, Pow10(j)) == Padded(n, j)
    decreases j
  {
    var k := Pow10(j - 1);
    assert Pow10(j) / 10 == k;
    LeadingDigit(n, k);
    PowerIsOne(j - 1);
    if j > 1 {
      PutIsPadded(n % k, j - 1);
    }
  }

  /** Below 10^9 ditoa writes the decimal numeral. */
  lemma PrintsNumeral(n: nat)
    requires n < LIMIT
    ensures Printed(n) == Synch.Some(Numeral(n)) && |Numeral(n)| <= 9
  {
    hide FirstAbove;
    NineDigits(n);
    if n > 0 {
      var j := FoundBelow(n, 0);
      PutIsPadded(n, j);
      PaddedIsNumeral(n, j);
    }
  }

  /** How many characters are written for the starting value `k`. */
  function Places(k: nat): nat
    requires LeadsToOne(k)
  {
    if k == 1 then 0 else 1 + Places(k / 10)
  }

  lemma {:induction false} WritesPlaces(n: nat, k: nat)
    requires n < k && k > 1 && LeadsToOne(k)
    ensures |Put(n, k)| == Places(k)
    decreases k
  {
    Quotient(n, k);
    var h := k / 10;
    if h > 1 { WritesPlaces(n % h, h); }
  }

  /** From 10^9 on, where it returns at all, ditoa writes nine characters too. */
  lemma PrintsNineCharacters(n: int)
    requires LIMIT <= n < GREATEST
    ensures Printed(n).Some? && |Printed(n).value| == 9
  {
    hide FirstAbove;
    FoundAbove(n);
    WrappedLead();
    assert Places(FIRST_WRAPPED) == 9 && Places(GREATEST) == 9 by { NinePlaces(); }
    WritesPlaces(n, if n < FIRST_WRAPPED then FIRST_WRAPPED else GREATEST);
  }

  lemma NinePlaces()
    ensures LeadsToOne(FIRST_WRAPPED) && Places(FIRST_WRAPPED) == 9
    ensures LeadsToOne(GREATEST) && Places(GREATEST) == 9
  {
    WrappedLead();
    assert Places(14100) == 4 && Places(18749) == 4;
    assert Places(14100654) == 7 && Places(18749194) == 7;
  }

  /** Numerals are at most 9 digits long exactly below 10^9. */
  lemma NineDigits(n: nat)
    ensures |Numeral(n)| <= 9 <==> n < LIMIT
  {
    LengthOfNumeral(n, 9);
    PowersBelow(9);
  }

  lemma {:induction false} LengthOfNumeral(n: nat, j: nat)
    requires j > 0
    ensures |Numeral(n)| <= j <==> n < Pow10(j)
    decreases j
  {
    if n >= 10 {
      if j > 1 { LengthOfNumeral(n / 10, j - 1); } else { assert |Numeral(n / 10)| > 0; }
    }
  }

  // ----- dstrtol -----

  predicate IsSpace(c: char) { c == ' ' || c == '\t' || c == '\n' }

  /** The value of a digit; 1000 for anything else. */
  function DigitValue(c: char): nat {
    if '0' <= c <= '9' then c as nat - '0' as nat
    else if 'a' <= c <= 'z' then c as nat + 10 - 'a' as nat
    else if 'A' <= c <= 'Z' then c as nat + 10 - 'A' as nat
    else 1000
  }

  /** The first place from `i` on that is no white space; the text ends with a NUL. */
  function SkipSpaces(c: seq<char>, i: nat): (j: nat)
    requires i < |c| && c[|c| - 1] == '\0'
    ensures i <= j < |c| && !IsSpace(c[j])
    decreases |c| - i
  {
    if IsSpace(c[i]) then SkipSpaces(c, i + 1) else i
  }

  /** The value of the digits from `i` on, after a value `v`, and the place where they end. */
  function Digits(c: seq<char>, i: nat, base: nat, v: int): (r: (int, nat))
    requires i < |c| && c[|c| - 1] == '\0' && 0 < base <= 16
    ensures i <= r.1 < |c| && DigitValue(c[r.1]) >= base
    decreases |c| - i
  {
    if DigitValue(c[i]) < base then Digits(c, i + 1, base, Wrap(Wrap(v * base) + DigitValue(c[i]))) else (v, i)
  }

  /** The base that a prefix of the digits announces, and where the digits begin. */
  function BaseOf(c: seq<char>, i: nat, base: int): (r: (int, nat))
    requires i < |c| && c[|c| - 1] == '\0'
    ensures i <= r.1 < |c|
  {
    if base != 0 then (base, i)
    else if c[i] != '0' then (10, i)
    else if c[i + 1] == 'x' || c[i + 1] == 'X' then (16, i + 2)
    else (8, i + 1)
  }

  /** dstrtol on the text from `start` on: the value, and the place after the number. */
  function Parse(c: seq<char>, start: nat, base: int): (r: (int, nat))
    requires start < |c| && c[|c| - 1] == '\0'
    ensures start <= r.1 < |c|
  {
    var i := SkipSpaces(c, start);
    if c[i] == '\0' then (0, i)
    else
      var negative := c[i] == '-';
      var (b, j) := BaseOf(c, if negative then i + 1 else i, base);
      if b <= 0 || b > 16 then (0, i)
      else
        var (v, end) := Digits(c, j, b, 0);
        (Wrap(if negative then -v else v), end)
  }

  lemma NextOfDigits(c: seq<char>, i: nat, base: nat, v: int)
    requires i < |c| && c[|c| - 1] == '\0' && 0 < base <= 16
    ensures var d := DigitValue(c[i]);
      if d < base then i + 1 < |c| && Digits(c, i, base, v) == Digits(c, i + 1, base, Wrap(Wrap(v * base) + d))
      else Digits(c, i, base, v) == (v, i)
  {
    EndIsNoDigit();
  }

  /** dstrtol */
  method Dstrtol(c: seq<char>, start: nat, base0: int) returns (v: int, newpos: nat)
    requires start < |c| && c[|c| - 1] == '\0'
    ensures (v, newpos) == Parse(c, start, base0)
  {
    hide DigitValue, Wrap, IsSpace, Digits;
    EndIsNoDigit();
    v := 0;
    var i, base := start, base0;
    while IsSpace(c[i])
      invariant i < |c| && SkipSpaces(c, i) == SkipSpaces(c, start)
      decreases |c| - i
    {
      i := i + 1;
    }
    newpos := i;
    if c[i] == '\0' {
      return;
    }
    var sign := 1;
    if c[i] == '-' {
      sign := -1;
      i := i + 1;
    }
    if base == 0 {
      if c[i] == '0' {
        i := i + 1;
        if c[i] == 'x' || c[i] == 'X' {
          base := 16;
          i := i + 1;
        } else {
          base := 8;
        }
      } else {
        base := 10;
      }
    }
    if base <= 0 || base > 16 {
      return;
    }
    ghost var first := i;
    while true
      invariant first <= i < |c| && Digits(c, i, base, v) == Digits(c, first, base, 0)
      decreases |c| - i
    {
      var curdigit := DigitValue(c[i]);
      NextOfDigits(c, i, base, v);
      if curdigit < base {
        v := Wrap(Wrap(v * base) + curdigit);
        i := i + 1;
      } else {
        break;
      }
    }
    newpos := i;
    v := Wrap(v * sign);
  }

  lemma EndIsNoDigit()
    ensures DigitValue('\0') == 1000 && !IsSpace('\0')
  {
  }

  // ----- the round trip -----

  lemma LastDigit(n: nat)
    ensures var s := Numeral(n);
      && s[|s| - 1] == DigitChar(n % 10)
      && DigitValue(s[|s| - 1]) == n % 10
      && s[..|s| - 1] == if n < 10 then "" else Numeral(n / 10)
  {
  }

  lemma DigitsStep(c: seq<char>, i: nat, v: nat)
    requires i < |c| && c[|c| - 1] == '\0' && DigitValue(c[i]) < 10 && 10 * v + DigitValue(c[i]) <= INT_MAX
    ensures i + 1 < |c| && Digits(c, i, 10, v) == Digits(c, i + 1, 10, 10 * v + DigitValue(c[i]))
  {
    NoWrap(v * 10);
    NoWrap(10 * v + DigitValue(c[i]));
    EndIsNoDigit();
  }

  /** The digits of a numeral, read from the left. */
  lemma {:induction false} ParsesDigits(c: seq<char>, i: nat, n: nat)
    requires i + |Numeral(n)| < |c| && c[|c| - 1] == '\0' && n <= INT_MAX
    requires c[i..i + |Numeral(n)|] == Numeral(n)
    ensures Digits(c, i, 10, 0) == Digits(c, i + |Numeral(n)|, 10, n)
    decreases n
  {
    hide Digits, DigitValue, DigitChar, Numeral;
    var s := Numeral(n);
    var last := i + |s| - 1;
    LastDigit(n);
    assert c[last] == c[i..i + |s|][|s| - 1];
    assert c[i..last] == c[i..i + |s|][..|s| - 1];
    if n < 10 {
      DigitsStep(c, last, 0);
    } else {
      ParsesDigits(c, i, n / 10);
      DigitsStep(c, last, n / 10);
    }
  }

  lemma NumeralStarts(n: nat)
    ensures '0' <= Numeral(n)[0] <= '9'
  {
  }

  /** Reading a printed number gives the number back, and stops right behind it. */
  lemma RoundTrip(n: nat, rest: seq<char>)
    requires n < LIMIT && |rest| > 0 && rest[|rest| - 1] == '\0' && DigitValue(rest[0]) >= 10
    ensures Printed(n).Some? && |Printed(n).value| <= 9
    ensures Parse(Printed(n).value + rest, 0, 10) == (n, |Printed(n).value|)
  {
    hide FirstAbove, Put;
    PrintsNumeral(n);
    var s := Numeral(n);
    var c := s + rest;
    NumeralStarts(n);
    assert SkipSpaces(c, 0) == 0;
    assert c[0..0 + |s|] == s && c[|s|] == rest[0];
    ParsesDigits(c, 0, n);
    NoWrap(n);
  }

  /** A negative number is printed without digits, and is read back as 0. */
  lemma NegativesAreLost(n: int)
    requires n < 0
    ensures Printed(n) == Synch.Some("-") && Parse("-" + ['\0'], 0, 10) == (0, 1)
  {
    NoWrap(0);
    assert Digits(['-', '\0'], 1, 10, 0) == (0, 1);
  }

  /** Digits of a text that leaves room for few of them have a small value. */
  lemma {:induction false} FewDigits(c: seq<char>, i: nat, v: nat)
    requires i < |c| <= i + 10 && c[|c| - 1] == '\0' && (v + 1) * Pow10(|c| - 1 - i) <= LIMIT
    ensures v <= Digits(c, i, 10, v).0 < LIMIT
    decreases |c| - i
  {
    hide DigitValue;
    EndIsNoDigit();
    var m, d := |c| - 1 - i, DigitValue(c[i]);
    if d < 10 {
      Grow(v, d, Pow10(m - 1));
      NoWrap(v * 10);
      NoWrap(v * 10 + d);
      FewDigits(c, i + 1, v * 10 + d);
    } else {
      Grow(v, 0, Pow10(m));
    }
  }

  lemma Grow(v: nat, d: nat, k: nat)
    requires k >= 1 && d < 10
    ensures (v * 10 + d + 1) * k <= (v + 1) * (10 * k) && v + 1 <= (v + 1) * k && v * 10 + d + 1 <= (v * 10 + d + 1) * k
  {
    assert (v + 1) * (10 * k) - (v * 10 + d + 1) * k == (9 - d) * k;
  }

  /** No text of nine characters is read as 10^9 or more. */
  lemma ShortTextsAreSmall(c: seq<char>)
    requires 0 < |c| <= 10 && c[|c| - 1] == '\0'
    ensures Parse(c, 0, 10).0 < LIMIT
  {
    hide Digits, DigitValue, Wrap;
    var i := SkipSpaces(c, 0);
    if c[i] != '\0' {
      var j := if c[i] == '-' then i + 1 else i;
      PowersBelow(|c| - 1 - j);
      FewDigits(c, j, 0);
      var v := Digits(c, j, 10, 0).0;
      NoWrap(v);
      NoWrap(-v);
    }
  }

  // ----- what is left of a number from 10^9 on -----

  /** The divisors of the first two characters of what is printed for `n`. */
  function FirstDivisor(n: int): nat { if n < FIRST_WRAPPED then 141_006_540 else 187_491_942 }

  function SecondDivisor(n: int): nat { if n < FIRST_WRAPPED then 14_100_654 else 18_749_194 }

  lemma FirstTwo(n: int)
    requires LIMIT <= n < GREATEST
    ensures var h, j := FirstDivisor(n), SecondDivisor(n);
      && 7 <= n / h <= 10 && 0 <= n % h < h && 0 <= n % h / j <= 10
      && Printed(n).Some? && |Printed(n).value| == 9
      && Printed(n).value[0] == DigitChar(n / h) && Printed(n).value[1] == DigitChar(n % h / j)
  {
    hide FirstAbove, Put, LeadsToOne, DigitChar;
    FoundAbove(n);
    FirstAboveLeads(n);
    PrintsNineCharacters(n);
    var k := if n < FIRST_WRAPPED then FIRST_WRAPPED else GREATEST;
    NextDigit(n, k);
    NextDigit(n % FirstDivisor(n), FirstDivisor(n));
  }

  /** The printed text begins with a character that is no digit, or has one in second place; then
      no more than one digit is read. */
  predicate IsCut(n: int)
    requires LIMIT <= n < GREATEST
  {
    if n < FIRST_WRAPPED then n >= 1_410_065_400
    else n >= 1_874_919_420 || n % 187_491_942 >= 187_491_940
  }

  lemma ReadsFew(n: int)
    requires LIMIT <= n < GREATEST
    ensures Printed(n).Some?
    ensures var v := Parse(Printed(n).value + ['\0'], 0, 10).0; if IsCut(n) then 0 <= v < 10 else v >= 70
  {
    hide Printed, Digits, DigitValue, DigitChar;
    FirstTwo(n);
    var h, j := FirstDivisor(n), SecondDivisor(n);
    var d, e := n / h, n % h / j;
    var c := Printed(n).value + ['\0'];
    CharValue(d);
    CharValue(e);
    assert SkipSpaces(c, 0) == 0;
    NextOfDigits(c, 0, 10, 0);
    if d < 10 {
      DigitsStep(c, 0, 0);
      NextOfDigits(c, 1, 10, d);
      if e < 10 {
        DigitsStep(c, 1, d);
        SevenMore();
        FewDigits(c, 2, 10 * d + e);
      }
    }
    NoWrap(Digits(c, 0, 10, 0).0);
  }

  lemma SevenMore()
    ensures 100 * Pow10(7) == LIMIT
  {
    PowersBelow(9);
    assert Pow10(9) == 10 * Pow10(8);
  }

  lemma CharValue(d: int)
    requires 0 <= d <= 10
    ensures !IsSpace(DigitChar(d)) && DigitChar(d) != '\0' && DigitChar(d) != '-'
    ensures DigitValue(DigitChar(d)) == if d < 10 then d else 1000
  {
  }

  /** ditoa returns, and dstrtol gives its number back, exactly for 0 <= n < 10^9. */
  lemma PrintableExactly(n: int)
    requires n <= INT_MAX
    ensures Printed(n).Some? && Parse(Printed(n).value + ['\0'], 0, 10).0 == n <==> 0 <= n < LIMIT
  {
    hide Parse, Printed;
    ReturnsExactly(n);
    if n < 0 {
      NegativesAreLost(n);
    } else if n < LIMIT {
      RoundTrip(n, ['\0']);
    } else if n < GREATEST {
      PrintsNineCharacters(n);
      ShortTextsAreSmall(Printed(n).value + ['\0']);
    }
  }

  /** The first number that goes wrong. */
  lemma Billion()
    ensures Printed(LIMIT) == Synch.Some("709186972") && Parse("709186972" + ['\0'], 0, 10) == (709186972, 9)
  {
    hide FirstAbove, Parse, Put, Numeral;
    FoundAbove(LIMIT);
    WrappedLead();
    WritesBillion();
    SpellsBillion();
    RoundTrip(709186972, ['\0']);
    PrintsNumeral(709186972);
  }

  lemma WritesBillion()
    ensures LeadsToOne(FIRST_WRAPPED) && Put(LIMIT, FIRST_WRAPPED) == "709186972"
  {
    hide Put, LeadsToOne;
    WrappedLead();
    NextDigit(1000000000, 1410065408);
    NextDigit(12954220, 141006540);
    NextDigit(12954220, 14100654);
    NextDigit(263635, 1410065);
    NextDigit(122629, 141006);
    NextDigit(9829, 14100);
    NextDigit(1369, 1410);
    NextDigit(100, 141);
    NextDigit(2, 14);
  }

  lemma NumeralStep(n: nat)
    ensures Numeral(n) == (if n < 10 then "" else Numeral(n / 10)) + [DigitChar(n % 10)]
  {
  }

  lemma SpellsBillion()
    ensures Numeral(709186972) == "709186972"
  {
    hide Numeral;
    NumeralStep(7);
    NumeralStep(70);
    NumeralStep(709);
    NumeralStep(7091);
    NumeralStep(70918);
    NumeralStep(709186);
    NumeralStep(7091869);
    NumeralStep(70918697);
    NumeralStep(709186972);
  }
}
