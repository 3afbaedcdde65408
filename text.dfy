/** Rendering of numbers as text, standing in for Go's `fmt` verbs `%d`,
    `%x` and `%0Nx`, and for `strings.Join`. */
module Text {

  predicate IsDecDigit(c: char)
  {
    '0' <= c <= '9'
  }

  predicate IsHexDigit(c: char)
  {
    '0' <= c <= '9' || 'a' <= c <= 'f'
  }

  function DigitValue(c: char): (d: nat)
    requires IsHexDigit(c)
    ensures d < 16
    ensures IsDecDigit(c) ==> d < 10
  {
    if '0' <= c <= '9' then c as int - '0' as int else c as int - 'a' as int + 10
  }

  function HexDigit(d: nat): (c: char)
    requires d < 16
    ensures IsHexDigit(c) && DigitValue(c) == d
    ensures d < 10 ==> IsDecDigit(c)
  {
    "0123456789abcdef"[d]
  }

  /** The digits of `n` in the given base, most significant first, with no
      leading zeros ("0" for zero). */
  function Digits(n: nat, base: nat): (r: string)
    requires base == 10 || base == 16
    ensures |r| >= 1
    ensures forall i :: 0 <= i < |r| ==> IsHexDigit(r[i]) && DigitValue(r[i]) < base
    ensures n >= base ==> |r| >= 2
    decreases n
  {
    if n < base then [HexDigit(n)] else Digits(n / base, base) + [HexDigit(n % base)]
  }

  /** The value of a string of digits in the given base. */
  function Parse(s: string, base: nat): nat
    requires base == 10 || base == 16
    requires forall i :: 0 <= i < |s| ==> IsHexDigit(s[i])
  {
    if s == [] then 0 else Parse(s[..|s| - 1], base) * base + DigitValue(s[|s| - 1])
  }

  /** `%d` of an unsigned number. */
  function Dec(n: nat): (r: string)
    ensures |r| >= 1 && forall i :: 0 <= i < |r| ==> IsDecDigit(r[i]) && IsHexDigit(r[i])
  {
    Digits(n, 10)
  }

  /** `%d` of a signed number. */
  function DecInt(i: int): string
  {
    if i < 0 then "-" + Dec(-i) else Dec(i)
  }

  /** `%x` of an unsigned number. */
  function Hex(n: nat): (r: string)
    ensures |r| >= 1 && forall i :: 0 <= i < |r| ==> IsHexDigit(r[i])
  {
    Digits(n, 16)
  }

  /** `%0<width>x`: at least `width` hex digits, padded with leading zeros. */
  function HexPad(n: nat, width: nat): (r: string)
    ensures |r| >= width
    ensures forall i :: 0 <= i < |r| ==> IsHexDigit(r[i])
  {
    var h := Hex(n);
    if |h| >= width then h else seq(width - |h|, _ => '0') + h
  }

  /** Reading the digits back gives the number: the rendering loses nothing. */
  lemma {:induction false} ParseDigits(n: nat, base: nat)
    requires base == 10 || base == 16
    ensures Parse(Digits(n, base), base) == n
    decreases n
  {
    var r := Digits(n, base);
    if n >= base {
      ParseDigits(n / base, base);
      assert r[..|r| - 1] == Digits(n / base, base);
    }
  }

  /** Leading zeros do not change the value of a digit string. */
  lemma {:induction false} ParseLeadingZeros(k: nat, s: string, base: nat)
    requires base == 10 || base == 16
    requires forall i :: 0 <= i < |s| ==> IsHexDigit(s[i])
    ensures Parse(seq(k, _ => '0') + s, base) == Parse(s, base)
    decreases |s|
  {
    var z := seq(k, _ => '0');
    if s == [] {
      assert z + s == z;
      ZerosParseToZero(k, base);
    } else {
      var t := z + s;
      assert t[..|t| - 1] == z + s[..|s| - 1];
      ParseLeadingZeros(k, s[..|s| - 1], base);
    }
  }

  lemma {:induction false} ZerosParseToZero(k: nat, base: nat)
    requires base == 10 || base == 16
    ensures Parse(seq(k, _ => '0'), base) == 0
  {
    if k > 0 {
      var z := seq(k, _ => '0');
      assert z[..k - 1] == seq(k - 1, _ => '0');
      ZerosParseToZero(k - 1, base);
    }
  }

  /** `%d` and `%x` are one-to-one, and `%0Nx` reads back as the number. */
  lemma RenderRoundTrip(n: nat, width: nat)
    ensures Parse(Dec(n), 10) == n
    ensures Parse(Hex(n), 16) == n
    ensures Parse(HexPad(n, width), 16) == n
  {
    ParseDigits(n, 10);
    ParseDigits(n, 16);
    var h := Hex(n);
    if |h| < width {
      ParseLeadingZeros(width - |h|, h, 16);
    }
  }

  lemma DecInjective(a: nat, b: nat)
    ensures Dec(a) == Dec(b) ==> a == b
  {
    RenderRoundTrip(a, 0);
    RenderRoundTrip(b, 0);
  }

  /** `strings.Join`: the parts with `sep` between consecutive ones. */
  function Join(parts: seq<string>, sep: string): string
  {
    if parts == [] then ""
    else if |parts| == 1 then parts[0]
    else Join(parts[..|parts| - 1], sep) + sep + parts[|parts| - 1]
  }

  /** How often `c` occurs in `s`. */
  function Count(s: string, c: char): nat
  {
    if s == [] then 0 else Count(s[..|s| - 1], c) + (if s[|s| - 1] == c then 1 else 0)
  }

  lemma {:induction false} CountAppend(a: string, b: string, c: char)
    ensures Count(a + b, c) == Count(a, c) + Count(b, c)
    decreases |b|
  {
    if b == [] {
      assert a + b == a;
    } else {
      assert (a + b)[..|a + b| - 1] == a + b[..|b| - 1];
      CountAppend(a, b[..|b| - 1], c);
    }
  }

  lemma {:induction false} CountAbsent(s: string, c: char)
    requires forall i :: 0 <= i < |s| ==> s[i] != c
    ensures Count(s, c) == 0
    decreases |s|
  {
    if s != [] {
      CountAbsent(s[..|s| - 1], c);
    }
  }

  /** Joining parts that do not contain the one-character separator `c`
      puts exactly one `c` between consecutive parts: n parts give n - 1. */
  lemma {:induction false} JoinCount(parts: seq<string>, c: char)
    requires parts != []
    requires forall k, i :: 0 <= k < |parts| && 0 <= i < |parts[k]| ==> parts[k][i] != c
    ensures Count(Join(parts, [c]), c) == |parts| - 1
    decreases |parts|
  {
    CountAbsent(parts[|parts| - 1], c);
    if |parts| > 1 {
      var init := parts[..|parts| - 1];
      JoinCount(init, c);
      CountAppend(Join(init, [c]), [c], c);
      CountAppend(Join(init, [c]) + [c], parts[|parts| - 1], c);
      assert Count([c], c) == 1 by {
        assert [c][..0] == [];
      }
    }
  }
}
