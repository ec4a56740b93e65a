/** `parseJSNumber` of client/captcha_pow.go: the value of a JavaScript numeric
    literal. Reading a decimal float is a library call, passed in as `fl`: the
    truncation of the float the text denotes, if it denotes one. */
module JsNumber {
  import opened JsLexer
  import opened Wrappers

  type FloatReader = string -> Option<int>

  const INT64_MAX := 0x7FFF_FFFF_FFFF_FFFF

  function Without(s: string, c: char): string {
    if s == "" then "" else (if s[0] == c then "" else [s[0]]) + Without(s[1..], c)
  }

  predicate HasPrefix(s: string, p: string) { |p| <= |s| && s[..|p|] == p }

  predicate ContainsAny(s: string, chars: set<char>) { exists k :: 0 <= k < |s| && s[k] in chars }

  /** The value of a digit in some base, or 16 when it is no digit. */
  function DigitVal(c: char): nat { if IsHexDigit(c) then HexVal(c) else 16 }

  predicate AllDigits(s: string, base: nat) { forall k :: 0 <= k < |s| ==> DigitVal(s[k]) < base }

  function DigitsValue(s: string, base: nat): nat {
    if s == "" then 0 else DigitsValue(s[..|s| - 1], base) * base + DigitVal(s[|s| - 1])
  }

  /** strconv.ParseInt for 64 bits: an optional sign, then digits in range. */
  function ParseInt(s: string, base: nat): Option<int> {
    var signed := s != "" && (s[0] == '+' || s[0] == '-');
    var digits := if signed then s[1..] else s;
    if digits == "" || !AllDigits(digits, base) then None
    else
      var n: int := DigitsValue(digits, base);
      if signed && s[0] == '-' then (if n > INT64_MAX + 1 then None else Some(-n))
      else if n > INT64_MAX then None else Some(n)
  }

  function WithoutBigIntSuffix(s: string): string {
    if s != "" && (s[|s| - 1] == 'n' || s[|s| - 1] == 'N') then s[..|s| - 1] else s
  }

  /** The unsigned literal by its prefix. */
  function ParseMagnitude(s: string, fl: FloatReader): Option<int> {
    if HasPrefix(s, "0x") || HasPrefix(s, "0X") then ParseInt(s[2..], 16)
    else if HasPrefix(s, "0o") || HasPrefix(s, "0O") then ParseInt(s[2..], 8)
    else if HasPrefix(s, "0b") || HasPrefix(s, "0B") then ParseInt(s[2..], 2)
    else if ContainsAny(s, {'.', 'e', 'E'}) then fl(s)
    else ParseInt(s, 10)
  }

  /** Negation on 64 bits, where the least number is its own negative. */
  function Negate64(v: int): int { if v == -INT64_MAX - 1 then v else -v }

  function ParseJSNumber(text: string, fl: FloatReader): Option<int> {
    var s := WithoutBigIntSuffix(Without(text, '_'));
    if HasPrefix(s, "-") then
      match ParseMagnitude(s[1..], fl)
      case None => None
      case Some(v) => Some(Negate64(v))
    else ParseMagnitude(s, fl)
  }
}
