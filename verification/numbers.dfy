/** Integer printing and parsing as the JavaScript code does it: `String(n)`, `parseInt`,
    `padStart(2, '0')`, `Math.round(n / d)`, the truncating `%`, and the `h:mm:ss` / `m:ss`
    clock text that three of the source's formatters share. */
module Numbers {
  import opened Strings
  import opened Optional

  predicate AllDigits(s: string) {
    forall i :: 0 <= i < |s| ==> IsDigit(s[i])
  }

  function DigitValue(c: char): (d: nat)
    requires IsDigit(c)
    ensures d < 10
  {
    c as int - '0' as int
  }

  function DigitChar(d: nat): (c: char)
    requires d < 10
    ensures IsDigit(c) && DigitValue(c) == d
  {
    ('0' as int + d) as char
  }

  /** `String(n)` for a non-negative integer: decimal digits, no leading zero. */
  function NatToString(n: nat): (r: string)
    ensures |r| >= 1 && AllDigits(r)
    ensures r[0] == '0' ==> r == "0"
    ensures n >= 10 ==> |r| >= 2
  {
    if n < 10 then [DigitChar(n)] else NatToString(n / 10) + [DigitChar(n % 10)]
  }

  /** The value of a string of decimal digits. */
  function DigitsValue(s: string): nat
    requires AllDigits(s)
  {
    if |s| == 0 then 0 else DigitsValue(s[..|s| - 1]) * 10 + DigitValue(s[|s| - 1])
  }

  /** Reading back what `NatToString` printed gives the number again. */
  lemma {:induction false} DigitsValueOfNatToString(n: nat)
    ensures DigitsValue(NatToString(n)) == n
  {
    if n >= 10 {
      DigitsValueOfNatToString(n / 10);
      var r := NatToString(n);
      assert r[..|r| - 1] == NatToString(n / 10);
    }
  }

  lemma NatToStringInjective(a: nat, b: nat)
    requires NatToString(a) == NatToString(b)
    ensures a == b
  {
    DigitsValueOfNatToString(a);
    DigitsValueOfNatToString(b);
  }

  lemma {:induction false} NatToStringShort(n: nat)
    requires n < 10
    ensures NatToString(n) == [DigitChar(n)]
  {
  }

  /** `String(i)` for any integer. */
  function IntToString(i: int): (r: string)
    ensures |r| >= 1
  {
    if i < 0 then "-" + NatToString(-i) else NatToString(i)
  }

  /** `padStart(2, '0')`. */
  function Pad2(s: string): (r: string)
    ensures |r| == if |s| >= 2 then |s| else 2
    ensures EndsWith(r, s)
    ensures forall i :: 0 <= i < |r| - |s| ==> r[i] == '0'
  {
    if |s| >= 2 then s else seq(2 - |s|, _ => '0') + s
  }

  /** The longest prefix of `s` made of decimal digits. */
  function DigitPrefix(s: string): (r: string)
    ensures StartsWith(s, r) && AllDigits(r)
    ensures |r| < |s| ==> !IsDigit(s[|r|])
  {
    if |s| > 0 && IsDigit(s[0]) then [s[0]] + DigitPrefix(s[1..]) else []
  }

  predicate IsHexDigit(c: char) {
    IsDigit(c) || ('a' <= c <= 'f') || ('A' <= c <= 'F')
  }

  function HexDigitValue(c: char): (d: nat)
    requires IsHexDigit(c)
    ensures d < 16
  {
    if IsDigit(c) then DigitValue(c)
    else if 'a' <= c <= 'f' then c as int - 'a' as int + 10
    else c as int - 'A' as int + 10
  }

  /** The longest prefix of `s` made of hexadecimal digits. */
  function HexPrefix(s: string): (r: string)
    ensures StartsWith(s, r)
    ensures forall i :: 0 <= i < |r| ==> IsHexDigit(r[i])
  {
    if |s| > 0 && IsHexDigit(s[0]) then [s[0]] + HexPrefix(s[1..]) else []
  }

  function HexValue(s: string): nat
    requires forall i :: 0 <= i < |s| ==> IsHexDigit(s[i])
  {
    if |s| == 0 then 0 else HexValue(s[..|s| - 1]) * 16 + HexDigitValue(s[|s| - 1])
  }

  /** Splits an optional leading sign off `parseInt`'s input (after leading white space). */
  function SignAndRest(s: string): (int, string) {
    var t := TrimStart(s);
    if |t| > 0 && t[0] == '-' then (-1, t[1..])
    else if |t| > 0 && t[0] == '+' then (1, t[1..])
    else (1, t)
  }

  /** `parseInt(s, 10)`: `None` stands for `NaN`. */
  function ParseIntDecimal(s: string): (r: Option<int>)
    ensures r.None? <==> DigitPrefix(SignAndRest(s).1) == ""
  {
    var (sign, rest) := SignAndRest(s);
    var digits := DigitPrefix(rest);
    if digits == "" then None else Some(sign * DigitsValue(digits))
  }

  /** `parseInt(s)` without a radix: a `0x` or `0X` prefix switches to base 16. */
  function ParseIntAuto(s: string): Option<int> {
    var (sign, rest) := SignAndRest(s);
    if StartsWith(rest, "0x") || StartsWith(rest, "0X") then
      var digits := HexPrefix(rest[2..]);
      if digits == "" then None else Some(sign * HexValue(digits))
    else
      var digits := DigitPrefix(rest);
      if digits == "" then None else Some(sign * DigitsValue(digits))
  }

  /** A plain decimal numeral reads back as its value under `parseInt`. */
  lemma {:induction false} ParseIntDecimalOfNat(n: nat)
    ensures ParseIntDecimal(NatToString(n)) == Some(n)
  {
    var s := NatToString(n);
    assert TrimStart(s) == s by {
      assert !IsSpace(s[0]);
    }
    assert SignAndRest(s) == (1, s);
    DigitPrefixOfDigits(s);
    DigitsValueOfNatToString(n);
  }

  lemma {:induction false} DigitPrefixOfDigits(s: string)
    requires AllDigits(s)
    ensures DigitPrefix(s) == s
  {
    if |s| > 0 {
      DigitPrefixOfDigits(s[1..]);
    }
  }

  /** `Number(t)` for trimmed, non-empty text: a decimal numeral with an optional sign and
      fraction, truncated to its integer part; `None` stands for `NaN`. */
  function NumeralValue(t: string): (r: Option<int>)
    requires t != ""
  {
    var sign := if t[0] == '-' then -1 else 1;
    var body := if t[0] == '-' || t[0] == '+' then t[1..] else t;
    var whole := DigitPrefix(body);
    var after := body[|whole|..];
    var dot := |after| > 0 && after[0] == '.';
    var fraction := if dot then DigitPrefix(after[1..]) else "";
    var used := |whole| + (if dot then 1 + |fraction| else 0);
    if (whole != "" || fraction != "") && used == |body| then Some(sign * DigitsValue(whole))
    else None
  }

  /** `Number(s)`: empty or blank text is 0, otherwise the numeral after trimming. */
  function NumberOf(s: string): (r: Option<int>)
    ensures Trim(s) == "" ==> r == Some(0)
  {
    var t := Trim(s);
    if t == "" then Some(0) else NumeralValue(t)
  }

  /** A printed number reads back as itself. */
  lemma NumberOfNat(n: nat)
    ensures NumberOf(NatToString(n)) == Some(n)
  {
    var s := NatToString(n);
    assert IsDigit(s[0]) && IsDigit(s[|s| - 1]);
    TrimOfUnspaced(s);
    DigitPrefixOfDigits(s);
    assert s[|s|..] == "";
    DigitsValueOfNatToString(n);
  }

  /** `Math.round(n / d)` for integers: halves round towards +infinity. */
  function RoundDiv(n: int, d: int): (r: int)
    requires d > 0
    ensures r * d <= n + d / 2 < (r + 1) * d
  {
    (n + d / 2) / d
  }

  /** JavaScript's `%` on integers with a positive divisor: the remainder takes the sign
      of the dividend (Dafny's `%` never goes negative). */
  function JsRem(a: int, b: int): (r: int)
    requires b > 0
    ensures a >= 0 ==> r == a % b
    ensures -b < r < b
  {
    if a >= 0 then a % b else -((-a) % b)
  }

  /** The clock text of a whole number of seconds: `h:mm:ss` when there is at least one
      hour, otherwise `m:ss`, with the JavaScript `Math.floor` and `%` used by the source. */
  function ClockText(sec: int): (r: string)
    ensures |r| >= 4 && ':' in r
  {
    var h := sec / 3600;
    var m := JsRem(sec, 3600) / 60;
    var s := JsRem(sec, 60);
    if h > 0 then IntToString(h) + ":" + Pad2(IntToString(m)) + ":" + Pad2(IntToString(s))
    else IntToString(m) + ":" + Pad2(IntToString(s))
  }
}
