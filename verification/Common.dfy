/** Shared vocabulary: optional values, the text order that the database sorts by,
    and the decimal rendering used inside composite text keys. */
module Common {

  type Id = string

  /** An instant, in microseconds since the epoch. */
  type Time = int

  const SECOND: int := 1_000_000

  datatype Option<+T> = None | Some(value: T)

  /** `int(clock.timestamp())`: whole seconds, truncated towards zero. */
  function EpochSeconds(t: Time): (s: int)
    ensures t >= 0 ==> s * SECOND <= t < s * SECOND + SECOND
    ensures t < 0 ==> s * SECOND - SECOND < t <= s * SECOND
  {
    if t >= 0 then t / SECOND else -((-t) / SECOND)
  }

  function Max(a: int, b: int): int {
    if a >= b then a else b
  }

  function Min(a: int, b: int): int {
    if a <= b then a else b
  }

  // ---- text order ----

  /** Code-point order on text. */
  predicate TextLess(a: string, b: string) {
    if b == "" then false
    else if a == "" then true
    else a[0] < b[0] || (a[0] == b[0] && TextLess(a[1..], b[1..]))
  }

  lemma {:induction false} TextTrichotomy(a: string, b: string)
    ensures TextLess(a, b) || a == b || TextLess(b, a)
    ensures !(TextLess(a, b) && TextLess(b, a))
    ensures !TextLess(a, a)
  {
    if a != "" && b != "" {
      TextTrichotomy(a[1..], b[1..]);
      if a[0] == b[0] && a[1..] == b[1..] {
        assert a == [a[0]] + a[1..] == b;
      }
    }
    if a != "" {
      TextTrichotomy(a[1..], a[1..]);
    }
  }

  lemma {:induction false} TextTransitive(a: string, b: string, c: string)
    requires TextLess(a, b) && TextLess(b, c)
    ensures TextLess(a, c)
  {
    if a != "" && a[0] == b[0] && b[0] == c[0] {
      TextTransitive(a[1..], b[1..], c[1..]);
    }
  }

  /** The texts agree before k and differ there. */
  ghost predicate FirstDifference(a: string, b: string, k: int) {
    0 <= k < |a| && k < |b| && a[..k] == b[..k] && a[k] != b[k]
  }

  lemma DifferenceShifts(a: string, b: string, k: nat)
    requires a != "" && b != "" && a[0] == b[0]
    ensures FirstDifference(a, b, k + 1) <==> FirstDifference(a[1..], b[1..], k)
  {
    if k < |a[1..]| && k < |b[1..]| {
      assert a[..k + 1] == [a[0]] + a[1..][..k] && b[..k + 1] == [b[0]] + b[1..][..k];
      assert a[1..][..k] == a[..k + 1][1..] && b[1..][..k] == b[..k + 1][1..];
    }
  }

  lemma PrefixShifts(a: string, b: string)
    requires a != "" && b != "" && a[0] == b[0]
    ensures a < b <==> a[1..] < b[1..]
  {
    assert a == [a[0]] + a[1..] && b == [b[0]] + b[1..];
  }

  /** The text order: a proper prefix comes first, and otherwise the first difference decides. */
  lemma {:induction false} TextLessIff(a: string, b: string)
    ensures TextLess(a, b) <==> a < b || exists k :: FirstDifference(a, b, k) && a[k] < b[k]
  {
    if a != "" && b != "" {
      if a[0] != b[0] {
        assert FirstDifference(a, b, 0);
      } else {
        var s, t := a[1..], b[1..];
        TextLessIff(s, t);
        PrefixShifts(a, b);
        if k :| FirstDifference(s, t, k) && s[k] < t[k] {
          DifferenceShifts(a, b, k);
        }
        if k :| FirstDifference(a, b, k) && a[k] < b[k] {
          DifferenceShifts(a, b, k - 1);
        }
      }
    }
  }

  // ---- decimal rendering ----

  function Digit(d: nat): (c: char)
    requires d < 10
    ensures '0' <= c <= '9'
  {
    ['0', '1', '2', '3', '4', '5', '6', '7', '8', '9'][d]
  }

  function DecimalNat(n: nat): (s: string) {
    if n < 10 then [Digit(n)] else DecimalNat(n / 10) + [Digit(n % 10)]
  }

  function Decimal(n: int): (s: string) {
    if n < 0 then "-" + DecimalNat(-n) else DecimalNat(n)
  }

  lemma {:induction false} DecimalNatDigits(n: nat)
    ensures DecimalNat(n) != ""
    ensures forall c <- DecimalNat(n) :: '0' <= c <= '9'
  {
    if n >= 10 {
      DecimalNatDigits(n / 10);
    }
  }

  lemma DigitInjective(d: nat, e: nat)
    requires d < 10 && e < 10 && Digit(d) == Digit(e)
    ensures d == e
  {
  }

  /** The last digit is the remainder; the digits before it, if any, are the quotient. */
  lemma DecimalNatLast(n: nat)
    ensures var s := DecimalNat(n);
            && s != "" && s[|s| - 1] == Digit(n % 10) && (|s| == 1 <==> n < 10)
            && (n >= 10 ==> s[..|s| - 1] == DecimalNat(n / 10))
  {
    DecimalNatDigits(n / 10);
  }

  lemma {:induction false} DecimalNatInjective(m: nat, n: nat)
    requires DecimalNat(m) == DecimalNat(n)
    ensures m == n
  {
    DecimalNatLast(m);
    DecimalNatLast(n);
    DigitInjective(m % 10, n % 10);
    if m >= 10 && n >= 10 {
      DecimalNatInjective(m / 10, n / 10);
    }
  }

  lemma DecimalSign(n: int)
    ensures Decimal(n) != "" && (Decimal(n)[0] == '-' <==> n < 0)
  {
    if n >= 0 {
      DecimalNatDigits(n);
      assert DecimalNat(n)[0] in DecimalNat(n);
    }
  }

  lemma DecimalInjective(m: int, n: int)
    requires Decimal(m) == Decimal(n)
    ensures m == n
  {
    DecimalSign(m);
    DecimalSign(n);
    if m < 0 {
      assert Decimal(m)[1..] == DecimalNat(-m) && Decimal(n)[1..] == DecimalNat(-n);
      DecimalNatInjective(-m, -n);
    } else {
      DecimalNatInjective(m, n);
    }
  }

  lemma DecimalHasNoColon(n: int)
    ensures ':' !in Decimal(n)
  {
    DecimalNatDigits(if n < 0 then -n else n);
  }

  /** Text of the form `stem:number` determines both parts, whatever colons the stem holds. */
  lemma KeyedTextInjective(a: string, m: int, b: string, n: int)
    requires a + ":" + Decimal(m) == b + ":" + Decimal(n)
    ensures a == b && m == n
  {
    DecimalHasNoColon(m);
    DecimalHasNoColon(n);
    var s := a + ":" + Decimal(m);
    assert s[|a| + 1..] == Decimal(m) && s[|b| + 1..] == Decimal(n);
    assert s[|a|] == ':' && s[|b|] == ':';
    assert forall k :: |a| < k < |s| ==> s[k] == Decimal(m)[k - |a| - 1];
    assert forall k :: |b| < k < |s| ==> s[k] == Decimal(n)[k - |b| - 1];
    assert |a| == |b|;
    assert s[..|a|] == a && s[..|b|] == b;
    DecimalInjective(m, n);
  }
}
