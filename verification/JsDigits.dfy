/** Numbers written down digit by digit in a base, and read back by `parseJSNumber` of
    client/captcha_pow.go: the printer divides and takes remainders, the reader
    multiplies and adds up. */
module JsDigits {
  import opened JsLexer
  import opened JsNumber
  import opened JsSpelling
  import opened JsRoundTrip
  import opened Wrappers

  const LOWER_CASE := "0123456789abcdef"

  const UPPER_CASE := "0123456789ABCDEF"

  lemma Divided(n: nat, base: nat)
    requires 2 <= base <= n
    ensures n / base < n && n % base < base && n / base * base + n % base == n
  {
    var q := n / base;
    assert n == q * base + n % base && q * base >= q * 2;
  }

  /** A number in some base, its digits taken from an alphabet. */
  function Printed(n: nat, base: nat, alphabet: string): (s: string)
    requires 2 <= base <= |alphabet|
    ensures s != ""
  {
    if n < base then [alphabet[n]]
    else
      Divided(n, base);
      Printed(n / base, base, alphabet) + [alphabet[n % base]]
  }

  /** The reader knows each digit of the alphabet. */
  predicate Known(alphabet: string) { |alphabet| == 16 && forall d: nat :: d < 16 ==> DigitAt(alphabet, d) }

  predicate DigitAt(alphabet: string, d: nat)
    requires |alphabet| == 16
  {
    d < 16 && IsHexDigit(alphabet[d]) && HexVal(alphabet[d]) == d
  }

  lemma AlphabetsKnown()
    ensures Known(LOWER_CASE) && Known(UPPER_CASE)
  {
  }

  lemma DigitRead(alphabet: string, d: nat, base: nat)
    requires Known(alphabet) && d < base <= 16
    ensures DigitVal(alphabet[d]) == d
  {
    assert DigitAt(alphabet, d);
  }

  lemma Appended(s: string, c: char, base: nat)
    ensures DigitsValue(s + [c], base) == DigitsValue(s, base) * base + DigitVal(c)
    ensures AllDigits(s, base) && DigitVal(c) < base ==> AllDigits(s + [c], base)
  {
    assert (s + [c])[..|s|] == s;
  }

  lemma OneDigitMore(s: string, q: nat, d: nat, base: nat, alphabet: string, n: nat)
    requires Known(alphabet) && d < base <= 16 && AllDigits(s, base) && DigitsValue(s, base) == q && n == q * base + d
    ensures AllDigits(s + [alphabet[d]], base) && DigitsValue(s + [alphabet[d]], base) == n
  {
    DigitRead(alphabet, d, base);
    Appended(s, alphabet[d], base);
  }

  /** What is printed is read as the number it was printed from. */
  lemma {:induction false} PrintedRead(n: nat, base: nat, alphabet: string)
    requires 2 <= base <= 16 && Known(alphabet)
    ensures AllDigits(Printed(n, base, alphabet), base) && DigitsValue(Printed(n, base, alphabet), base) == n
    decreases n
  {
    if n < base {
      DigitRead(alphabet, n, base);
      Appended("", alphabet[n], base);
      assert "" + [alphabet[n]] == [alphabet[n]];
    } else {
      Divided(n, base);
      var q, d := n / base, n % base;
      PrintedRead(q, base, alphabet);
      OneDigitMore(Printed(q, base, alphabet), q, d, base, alphabet, n);
    }
  }

  function LeadingZeros(k: nat): (z: string)
    ensures |z| == k && forall i :: 0 <= i < k ==> z[i] == '0'
  {
    seq(k, _ => '0')
  }

  lemma {:induction false} ZerosRead(k: nat, base: nat)
    requires base >= 2
    ensures AllDigits(LeadingZeros(k), base) && DigitsValue(LeadingZeros(k), base) == 0
  {
    if k > 0 {
      ZerosRead(k - 1, base);
      assert LeadingZeros(k) == LeadingZeros(k - 1) + ['0'];
      Appended(LeadingZeros(k - 1), '0', base);
    }
  }

  /** Leading zeros do not change the value. */
  lemma {:induction false} BehindZeros(k: nat, s: string, base: nat)
    requires base >= 2 && AllDigits(s, base)
    ensures AllDigits(LeadingZeros(k) + s, base) && DigitsValue(LeadingZeros(k) + s, base) == DigitsValue(s, base)
    decreases |s|
  {
    if s == "" {
      ZerosRead(k, base);
      assert LeadingZeros(k) + s == LeadingZeros(k);
    } else {
      var n := |s| - 1;
      BehindZeros(k, s[..n], base);
      assert LeadingZeros(k) + s == (LeadingZeros(k) + s[..n]) + [s[n]] && s == s[..n] + [s[n]];
      Appended(LeadingZeros(k) + s[..n], s[n], base);
    }
  }

  /** `t` is `s` with separators put in anywhere. */
  predicate Separated(t: string, s: string)
    decreases |t|
  {
    if t == "" then s == ""
    else if t[0] == '_' then Separated(t[1..], s)
    else s != "" && s[0] == t[0] && Separated(t[1..], s[1..])
  }

  lemma {:induction false} SeparatorsDropped(t: string, s: string, base: nat)
    requires Separated(t, s) && AllDigits(s, base) && base <= 16
    ensures Without(t, '_') == s && forall k :: 0 <= k < |t| ==> t[k] == '_' || IsDigitOf(base, t[k])
    decreases |t|
  {
    if t != "" {
      if t[0] == '_' {
        SeparatorsDropped(t[1..], s, base);
      } else {
        assert DigitVal(s[0]) < base && s == [s[0]] + s[1..];
        SeparatorsDropped(t[1..], s[1..], base);
      }
      assert forall k :: 1 <= k < |t| ==> t[k] == t[1..][k - 1];
    }
  }

  function NumberIn63(n: nat): Option<int> { if n <= 0x7FFF_FFFF_FFFF_FFFF then Some(n) else None }

  function NumberBelow(n: int): Option<int> { if n <= 0x8000_0000_0000_0000 then Some(-n) else None }

  lemma SignedDigits(t: string, base: nat, n: int)
    requires t != "" && base <= 16 && AllDigits(t, base) && DigitsValue(t, base) == n
    ensures ParseInt(t, base) == NumberIn63(n)
    ensures ParseInt("+" + t, base) == NumberIn63(n) && ParseInt("-" + t, base) == NumberBelow(n)
  {
    assert DigitVal(t[0]) < base;
    assert ("+" + t)[1..] == t && ("-" + t)[1..] == t;
  }

  /** A sign is allowed before the digits; below zero one more number is in range. */
  lemma SignedRead(n: nat, zeros: nat, base: nat, alphabet: string, t: string)
    requires 2 <= base <= 16 && (alphabet == LOWER_CASE || alphabet == UPPER_CASE)
    requires t == LeadingZeros(zeros) + Printed(n, base, alphabet)
    ensures ParseInt("+" + t, base) == NumberIn63(n) && ParseInt("-" + t, base) == NumberBelow(n)
  {
    AlphabetsKnown();
    PrintedRead(n, base, alphabet);
    BehindZeros(zeros, Printed(n, base, alphabet), base);
    SignedDigits(t, base, n);
  }

  lemma DigitsMean(a: Atom, digits: string, n: nat, fl: FloatReader)
    requires ValidAtom(a) && IsNumber(a) && Without(a.digits, '_') == digits != ""
    requires DigitsValue(digits, Base(a)) == n
    ensures ParseJSNumber(AtomText(a), fl) == NumberIn63(n)
  {
    NumberMeans(a, fl);
  }

  lemma PrintedDigits(n: nat, zeros: nat, base: nat, alphabet: string, t: string)
    requires 2 <= base <= 16 && Known(alphabet) && Separated(t, LeadingZeros(zeros) + Printed(n, base, alphabet))
    ensures Without(t, '_') != "" && DigitsValue(Without(t, '_'), base) == n
    ensures forall k :: 0 <= k < |t| ==> t[k] == '_' || IsDigitOf(base, t[k])
  {
    var s := Printed(n, base, alphabet);
    PrintedRead(n, base, alphabet);
    BehindZeros(zeros, s, base);
    SeparatorsDropped(t, LeadingZeros(zeros) + s, base);
  }

  lemma RunOfDigits(t: string, radix: char, base: nat)
    requires base == (if radix in "xX" then 16 else if radix in "oO" then 8 else 2) && radix in "xXoObB"
    requires forall k :: 0 <= k < |t| ==> t[k] == '_' || IsDigitOf(base, t[k])
    ensures AllOf(t, RunOf(radix))
  {
  }

  /** A number printed with a prefix, with leading zeros and separators anywhere, is read
      as itself, or as nothing if it does not fit into 63 bits. */
  lemma PrefixedNumberRead(n: nat, zeros: nat, radix: char, base: nat, alphabet: string, t: string, suffix: string,
                           fl: FloatReader)
    requires radix in "xXoObB" && base == (if radix in "xX" then 16 else if radix in "oO" then 8 else 2)
    requires alphabet == LOWER_CASE || alphabet == UPPER_CASE
    requires Separated(t, LeadingZeros(zeros) + Printed(n, base, alphabet))
    requires (suffix == "" || suffix == "n" || suffix == "N")
    ensures ParseJSNumber(['0', radix] + t + suffix, fl) ==
      if n <= 0x7FFF_FFFF_FFFF_FFFF then Some(n) else None
  {
    AlphabetsKnown();
    PrintedDigits(n, zeros, base, alphabet, t);
    RunOfDigits(t, radix, base);
    DigitsMean(Prefixed(radix, t, suffix), Without(t, '_'), n, fl);
  }

  /** So is one printed in decimal, separators not coming first. */
  lemma DecimalNumberRead(n: nat, zeros: nat, t: string, suffix: string, fl: FloatReader)
    requires Separated(t, LeadingZeros(zeros) + Printed(n, 10, LOWER_CASE)) && t[0] != '_'
    requires suffix == "" || suffix == "n" || suffix == "N"
    ensures ParseJSNumber(t + suffix, fl) == if n <= 0x7FFF_FFFF_FFFF_FFFF then Some(n) else None
  {
    AlphabetsKnown();
    PrintedDigits(n, zeros, 10, LOWER_CASE, t);
    DigitsMean(Decimal(t, suffix), Without(t, '_'), n, fl);
  }
}
