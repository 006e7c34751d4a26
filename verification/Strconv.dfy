/** Text encodings of integers and the string splitting the history code relies on:
    Go's strconv.FormatInt / ParseInt, fmt's zero padding and strings.Split. */
module Strconv {

  datatype Option<+T> = None | Some(value: T)

  const MIN_INT64: int := -0x8000_0000_0000_0000
  const MAX_INT64: int := 0x7fff_ffff_ffff_ffff

  predicate IsInt64(n: int) {
    MIN_INT64 <= n <= MAX_INT64
  }

  /** The two bases in use. The operations below keep arithmetic linear. */
  datatype Radix = Dec | Hex {
    function Base(): (b: nat) {
      if Dec? then 10 else 16
    }
    function Times(n: nat): (r: nat)
      ensures r >= n
    {
      if Dec? then 10 * n else 16 * n
    }
    function Quot(n: nat): (q: nat)
      ensures Times(q) <= n < Times(q) + Base()
      ensures n >= Base() ==> 0 < q < n
    {
      if Dec? then n / 10 else n / 16
    }
    function Rem(n: nat): (d: nat)
      ensures d < Base() && n == Times(Quot(n)) + d
    {
      if Dec? then n % 10 else n % 16
    }
    function Power(k: nat): (p: nat)
      ensures p >= 1
    {
      if k == 0 then 1 else Times(Power(k - 1))
    }
  }

  const DIGITS := "0123456789abcdef"

  predicate IsHexDigit(c: char) {
    '0' <= c <= '9' || 'a' <= c <= 'f'
  }

  predicate IsHex(s: string) {
    forall i :: 0 <= i < |s| ==> IsHexDigit(s[i])
  }

  function DigitChar(d: nat): (c: char)
    requires d < 16
    ensures IsHexDigit(c) && DigitValue(c) == d
  {
    DIGITS[d]
  }

  /** The value of a digit in Go's ParseInt, which reads either letter case; 99 for anything else. */
  function DigitValue(c: char): (d: nat)
    ensures IsHexDigit(c) ==> d < 16 && DIGITS[d] == c
  {
    if '0' <= c <= '9' then c as int - '0' as int
    else if 'a' <= c <= 'z' then c as int - 'a' as int + 10
    else if 'A' <= c <= 'Z' then c as int - 'A' as int + 10
    else 99
  }

  function FormatNat(n: nat, base: Radix): (s: string)
    ensures |s| > 0 && IsHex(s)
  {
    if n < base.Base() then [DigitChar(n)]
    else FormatNat(base.Quot(n), base) + [DigitChar(base.Rem(n))]
  }

  function FormatInt(n: int, base: Radix): (s: string)
    ensures |s| > 0
    ensures forall c :: c in s ==> c == '-' || IsHexDigit(c)
  {
    if n < 0 then "-" + FormatNat(-n, base) else FormatNat(n, base)
  }

  /** The value of a run of digits, most significant first. */
  function ParseDigits(s: string, base: Radix): Option<nat> {
    if s == "" then Some(0)
    else
      var d := DigitValue(s[|s| - 1]);
      match ParseDigits(s[..|s| - 1], base)
      case None => None
      case Some(v) => if d < base.Base() then Some(base.Times(v) + d) else None
  }

  /** strconv.ParseInt(s, base, 64): an optional sign, at least one digit, 64-bit range. */
  function ParseInt(s: string, base: Radix): (r: Option<int>)
    ensures r.Some? ==> IsInt64(r.value)
  {
    var negative := s != "" && s[0] == '-';
    var digits := if s != "" && (s[0] == '-' || s[0] == '+') then s[1..] else s;
    if digits == "" then None
    else
      match ParseDigits(digits, base)
      case None => None
      case Some(v) =>
        var magnitude: int := v;
        var n := if negative then -magnitude else magnitude;
        if IsInt64(n) then Some(n) else None
  }

  /** utils.Str2int64: decimal text, 0 for anything that is not an int64. */
  function Str2Int64(s: string): int {
    match ParseInt(s, Dec)
    case None => 0
    case Some(n) => n
  }

  lemma ParseSnoc(s: string, d: nat, base: Radix)
    requires d < base.Base() && ParseDigits(s, base).Some?
    ensures ParseDigits(s + [DigitChar(d)], base) == Some(base.Times(ParseDigits(s, base).value) + d)
  {
    hide DigitChar, DigitValue, Radix.Times;
    var t := s + [DigitChar(d)];
    assert t[..|t| - 1] == s && t[|t| - 1] == DigitChar(d);
  }

  lemma ParseNoDigits(base: Radix)
    ensures ParseDigits("", base) == Some(0)
  {
  }

  lemma {:induction false} ParseFormatNat(n: nat, base: Radix)
    ensures ParseDigits(FormatNat(n, base), base) == Some(n)
  {
    hide ParseDigits, DigitValue, DigitChar;
    ParseNoDigits(base);
    if n < base.Base() {
      ParseSnoc("", n, base);
      assert "" + [DigitChar(n)] == FormatNat(n, base);
    } else {
      var q := base.Quot(n);
      ParseFormatNat(q, base);
      ParseSnoc(FormatNat(q, base), base.Rem(n), base);
    }
  }

  /** Reading back a formatted number gives that number exactly when it is an int64. */
  lemma ParseFormatInt(n: int, base: Radix)
    ensures ParseInt(FormatInt(n, base), base) == if IsInt64(n) then Some(n) else None
  {
    hide FormatNat, ParseDigits, DigitValue;
    var s := FormatInt(n, base);
    if n < 0 {
      ParseFormatNat(-n, base);
      assert s[1..] == FormatNat(-n, base);
    } else {
      ParseFormatNat(n, base);
    }
  }

  /** ParseInt reads either letter case and a plus sign, and nothing without digits. */
  lemma ParseForms(s: string, base: Radix)
    requires s != "" && ParseDigits(s, base).Some? && IsInt64(ParseDigits(s, base).value)
    ensures ParseInt("+" + s, base) == Some(ParseDigits(s, base).value)
    ensures ParseInt("-" + s, base) == Some(-(ParseDigits(s, base).value as int))
    ensures ParseInt("", base) == ParseInt("+", base) == ParseInt("-", base) == None
    ensures forall c :: 'A' <= c <= 'F' ==> DigitValue(c) == DigitValue(c - 'A' + 'a')
  {
    hide ParseDigits;
    assert ("+" + s)[1..] == s && ("-" + s)[1..] == s;
  }

  /** A number takes at most k digits exactly when it is below base to the k. */
  lemma {:induction false} FormatNatLength(n: nat, base: Radix, k: nat)
    requires k >= 1
    ensures |FormatNat(n, base)| <= k <==> n < base.Power(k)
  {
    if n >= base.Base() && k > 1 {
      FormatNatLength(base.Quot(n), base, k - 1);
      assert base.Quot(n) < base.Power(k - 1) <==> n < base.Times(base.Power(k - 1));
    } else if n >= base.Base() {
      assert base.Power(1) == base.Times(base.Power(0)) == base.Base();
    } else {
      assert base.Times(1) <= base.Times(base.Power(k - 1));
    }
  }

  lemma ConcatAssoc<T>(x: seq<T>, y: seq<T>, z: seq<T>)
    ensures x + (y + z) == x + y + z
  {
  }

  lemma TailOfConcat<T>(x: seq<T>, y: seq<T>)
    requires x != []
    ensures (x + y)[1..] == x[1..] + y && (x + y)[0] == x[0]
  {
  }

  function Repeat(c: char, n: nat): (s: string)
    ensures |s| == n && forall i :: 0 <= i < n ==> s[i] == c
  {
    seq(n, _ => c)
  }

  /** fmt's %0<width>d and %0<width>x: zeros between the sign and the digits. */
  function PadInt(n: int, base: Radix, width: nat): (s: string)
    ensures |s| >= width && |s| > 0
    ensures forall c :: c in s ==> c == '-' || IsHexDigit(c)
  {
    var sign := if n < 0 then "-" else "";
    var digits := FormatNat(if n < 0 then -n else n, base);
    var zeros := if |sign| + |digits| < width then width - |sign| - |digits| else 0;
    sign + Repeat('0', zeros) + digits
  }

  lemma {:induction false} ParseLeadingZeros(zeros: nat, s: string, base: Radix)
    ensures ParseDigits(Repeat('0', zeros) + s, base) == ParseDigits(s, base)
    decreases |s|, zeros
  {
    assert DigitValue('0') == 0 < base.Base() && base.Times(0) == 0;
    hide Repeat, DigitValue, Radix.Times, Radix.Base;
    var t := Repeat('0', zeros) + s;
    if s != "" {
      ParseLeadingZeros(zeros, s[..|s| - 1], base);
      assert t[..|t| - 1] == Repeat('0', zeros) + s[..|s| - 1];
    } else if zeros > 0 {
      ParseLeadingZeros(zeros - 1, s, base);
      assert t[..|t| - 1] == Repeat('0', zeros - 1) + s;
    }
  }

  /** Padding hides no information: padded text still reads back as the number. */
  lemma ParsePadded(n: int, base: Radix, width: nat)
    requires IsInt64(n)
    ensures ParseInt(PadInt(n, base, width), base) == Some(n)
  {
    hide FormatNat, ParseDigits, Radix.Base, Repeat, DigitValue;
    var magnitude: nat := if n < 0 then -n else n;
    var sign := if n < 0 then "-" else "";
    var digits := FormatNat(magnitude, base);
    var zeros := if |sign| + |digits| < width then width - |sign| - |digits| else 0;
    var padded := Repeat('0', zeros) + digits;
    ParseFormatNat(magnitude, base);
    ParseLeadingZeros(zeros, digits, base);
    ZerosAreDigits(zeros);
    assert IsHexDigit(padded[0]);
    assert PadInt(n, base, width) == sign + padded;
    assert n < 0 ==> (sign + padded)[1..] == padded;
    assert n >= 0 ==> sign + padded == padded;
  }

  lemma ZerosAreDigits(n: nat)
    ensures |Repeat('0', n)| == n && IsHex(Repeat('0', n))
  {
  }

  /** A padded field has exactly its width iff the number fits it, the sign counting as a digit. */
  lemma PadIntWidth(n: int, base: Radix, width: nat)
    requires width >= 2
    ensures |PadInt(n, base, width)| == width
       <==> -(base.Power(width - 1) as int) < n < base.Power(width)
  {
    hide FormatNat, Radix.Power;
    if n < 0 {
      FormatNatLength(-n, base, width - 1);
    } else {
      FormatNatLength(n, base, width);
    }
  }

  /** strings.Split for a one-character separator. */
  function Split(s: string, sep: char): (parts: seq<string>)
    ensures |parts| >= 1
  {
    if s == "" then [""]
    else
      var rest := Split(s[1..], sep);
      if s[0] == sep then [""] + rest else [[s[0]] + rest[0]] + rest[1..]
  }

  lemma {:induction false} SplitWhole(s: string, sep: char)
    requires sep !in s
    ensures Split(s, sep) == [s]
  {
    if s != "" {
      SplitWhole(s[1..], sep);
      assert [s[0]] + s[1..] == s;
    }
  }

  lemma {:induction false} SplitFirst(a: string, b: string, sep: char)
    requires sep !in a
    ensures Split(a + [sep] + b, sep) == [a] + Split(b, sep)
  {
    var s := a + [sep] + b;
    if a == "" {
      assert s[1..] == b;
    } else {
      SplitFirst(a[1..], b, sep);
      assert s[1..] == a[1..] + [sep] + b;
      assert [a[0]] + a[1..] == a;
    }
  }

  lemma {:induction false} SplitLast(a: string, b: string, sep: char)
    requires sep !in b
    ensures Split(a + [sep] + b, sep) == Split(a, sep) + [b]
  {
    var s := a + [sep] + b;
    if a == "" {
      SplitWhole(b, sep);
      assert s[1..] == b;
    } else {
      SplitLast(a[1..], b, sep);
      assert s[1..] == a[1..] + [sep] + b;
      var rest := Split(a[1..], sep);
      assert (rest + [b])[1..] == rest[1..] + [b];
    }
  }

  function CountChar(s: string, c: char): nat {
    if s == "" then 0 else (if s[0] == c then 1 else 0) + CountChar(s[1..], c)
  }

  lemma {:induction false} CountCharConcat(a: string, b: string, c: char)
    ensures CountChar(a + b, c) == CountChar(a, c) + CountChar(b, c)
  {
    if a == "" {
      assert a + b == b;
    } else {
      CountCharConcat(a[1..], b, c);
      assert (a + b)[1..] == a[1..] + b;
    }
  }

  lemma {:induction false} CountCharZero(s: string, c: char)
    ensures CountChar(s, c) == 0 <==> c !in s
  {
    if s != "" {
      CountCharZero(s[1..], c);
      assert s == [s[0]] + s[1..];
    }
  }

  lemma {:induction false} SplitCount(s: string, sep: char)
    ensures |Split(s, sep)| == CountChar(s, sep) + 1
  {
    if s != "" {
      SplitCount(s[1..], sep);
    }
  }
}
