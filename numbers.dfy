/** Integer and decimal text: the `%d`/`strconv.Itoa` rendering of integers
    and its parser (`strconv.Atoi`, Python `int`), round-half-to-even, the
    fixed-point rendering `strconv.FormatFloat(x, 'f', k, 64)` / `%.kf`, and
    what it takes of a float parser to read such text back. */
module Numbers {
  import opened Wrappers
  import opened Text

  function Abs(i: int): nat {
    if i < 0 then -i else i
  }

  function Pow10(k: nat): (r: nat)
    ensures r >= 1
  {
    if k == 0 then 1 else 10 * Pow10(k - 1)
  }

  predicate IsDigit(c: char) {
    '0' <= c <= '9'
  }

  predicate AllDigits(s: string) {
    forall i :: 0 <= i < |s| ==> IsDigit(s[i])
  }

  function DigitChar(d: nat): (c: char)
    requires d < 10
    ensures IsDigit(c)
  {
    (48 + d) as char
  }

  function DigitValue(c: char): (d: nat)
    requires IsDigit(c)
    ensures d < 10
  {
    c as int - 48
  }

  /** The number a string of decimal digits denotes (leading zeros allowed). */
  function DigitsValue(s: string): nat
    requires AllDigits(s)
  {
    if s == [] then 0 else 10 * DigitsValue(s[..|s| - 1]) + DigitValue(s[|s| - 1])
  }

  /** The decimal digits of `n`, without leading zeros. */
  function NatText(n: nat): (s: string)
    ensures s != [] && AllDigits(s)
  {
    if n < 10 then [DigitChar(n)] else NatText(n / 10) + [DigitChar(n % 10)]
  }

  lemma {:induction false} NatTextValue(n: nat)
    ensures DigitsValue(NatText(n)) == n
  {
    if n >= 10 {
      var s := NatText(n);
      assert s[..|s| - 1] == NatText(n / 10);
      NatTextValue(n / 10);
    }
  }

  /** A number below 10^k takes at most k digits. */
  lemma {:induction false} NatTextLength(n: nat, k: nat)
    requires k >= 1 && n < Pow10(k)
    ensures |NatText(n)| <= k
  {
    if n >= 10 {
      assert k >= 2;
      assert n / 10 < Pow10(k - 1);
      NatTextLength(n / 10, k - 1);
    }
  }

  /** Leading zeros up to `k` digits, as `%0kd` does. */
  function ZeroPad(s: string, k: nat): (r: string)
    ensures |s| <= k ==> r == Repeat('0', k - |s|) + s
    ensures |s| > k ==> r == s
  {
    if |s| >= k then s else Repeat('0', k - |s|) + s
  }

  lemma {:induction false} ZerosValue(z: nat)
    ensures AllDigits(Repeat('0', z)) && DigitsValue(Repeat('0', z)) == 0
  {
    if z > 0 {
      var r := Repeat('0', z);
      assert r[..|r| - 1] == Repeat('0', z - 1);
      ZerosValue(z - 1);
    }
  }

  lemma {:induction false} LeadingZeros(z: nat, s: string)
    requires AllDigits(s)
    ensures AllDigits(Repeat('0', z) + s) && DigitsValue(Repeat('0', z) + s) == DigitsValue(s)
    decreases |s|
  {
    ZerosValue(z);
    var t := Repeat('0', z) + s;
    if s == [] {
      assert t == Repeat('0', z);
    } else {
      assert t[..|t| - 1] == Repeat('0', z) + s[..|s| - 1];
      LeadingZeros(z, s[..|s| - 1]);
    }
  }

  /** The text of the decimal number (-1)^neg * m / 10^k: a `-` when `neg`,
      the integer part, and when k > 0 a point and exactly k fraction
      digits. Every integer and fixed-point rendering of the model is one. */
  function DecimalText(neg: bool, m: nat, k: nat): string {
    (if neg then "-" else "") + UnsignedText(m, k)
  }

  /** The digits of m / 10^k, with exactly k of them after the point: m's
      digits zero-padded to at least k + 1, with a point before the last k. */
  function UnsignedText(m: nat, k: nat): string {
    if k == 0 then NatText(m)
    else
      var t := ZeroPad(NatText(m), k + 1);
      t[..|t| - k] + "." + t[|t| - k..]
  }

  function DecimalValue(neg: bool, m: nat, k: nat): real {
    (if neg then -(m as real) else m as real) / (Pow10(k) as real)
  }

  /** `strconv.Itoa`, Go's `%d`, Python's `%d`. */
  function IntText(i: int): string {
    (if i < 0 then "-" else "") + NatText(Abs(i))
  }

  /** An integer rendering is the decimal rendering without fraction digits. */
  lemma IntTextDecimal(i: int)
    ensures IntText(i) == DecimalText(i < 0, Abs(i), 0)
  {
  }

  /** The text `strconv.Atoi` and Python's `int` accept (Python's
      underscores and surrounding blanks aside): an optional sign and one or
      more ASCII digits. */
  predicate IsIntText(s: string) {
    (s != [] && AllDigits(s)) || (|s| >= 2 && (s[0] == '-' || s[0] == '+') && AllDigits(s[1..]))
  }

  /** Python's `int` on a token: exactly the integer texts are read, with
      their value. */
  function ParseInt(s: string): (r: Option<int>)
    ensures r.Some? <==> IsIntText(s)
    ensures r.Some? && AllDigits(s) ==> r.value == DigitsValue(s)
    ensures |s| >= 2 && s[0] == '-' && AllDigits(s[1..]) ==> r == Some(-(DigitsValue(s[1..]) as int))
    ensures |s| >= 2 && s[0] == '+' && AllDigits(s[1..]) ==> r == Some(DigitsValue(s[1..]) as int)
  {
    if |s| >= 2 && (s[0] == '-' || s[0] == '+') && AllDigits(s[1..]) then
      var v: int := DigitsValue(s[1..]);
      Some(if s[0] == '-' then -v else v)
    else if s != [] && AllDigits(s) then Some(DigitsValue(s))
    else None
  }

  /** Go's `strconv.Atoi` on a 64-bit platform: `ParseInt` limited to the
      range of `int`. */
  function Atoi(s: string): (r: Option<int>)
    ensures r.Some? <==> ParseInt(s).Some? && -0x8000_0000_0000_0000 <= ParseInt(s).value < 0x8000_0000_0000_0000
    ensures r.Some? ==> r == ParseInt(s)
  {
    match ParseInt(s)
    case Some(v) => if -0x8000_0000_0000_0000 <= v < 0x8000_0000_0000_0000 then Some(v) else None
    case None => None
  }

  /** Reading back a rendered integer gives the integer. */
  lemma ParseIntText(i: int)
    ensures ParseInt(IntText(i)) == Some(i)
  {
    NatTextValue(Abs(i));
    var s := IntText(i);
    if i < 0 {
      assert s[1..] == NatText(-i);
    } else {
      assert s == NatText(i);
    }
  }

  /** One character as `strconv.Quote` writes it: quotes, backslashes and
      the tab, newline and carriage-return characters are escaped. */
  function EscapeChar(c: char): string {
    if c == '"' then "\\\"" else if c == '\\' then "\\\\"
    else if c == '\n' then "\\n" else if c == '\t' then "\\t"
    else if c == '\r' then "\\r" else [c]
  }

  /** `strconv.Quote`: the text between double quotes, each character
      escaped by `EscapeChar`. */
  function Quote(s: string): string {
    "\"" + QuoteBody(s) + "\""
  }

  function QuoteBody(s: string): string
    decreases |s|
  {
    if s == [] then "" else EscapeChar(s[0]) + QuoteBody(s[1..])
  }

  const AtoiParsing := "strconv.Atoi: parsing "
  const FloatParsing := "strconv.ParseFloat: parsing "
  const OutOfRange := ": value out of range"
  const InvalidSyntax := ": invalid syntax"

  /** The message of `strconv.Atoi`'s error. */
  function AtoiError(s: string): string {
    AtoiParsing + Quote(s) + if ParseInt(s).Some? then OutOfRange else InvalidSyntax
  }

  /** The message of `strconv.ParseFloat`'s error on `s`. */
  function ParseFloatError(s: string): string {
    FloatParsing + Quote(s) + InvalidSyntax
  }

  /** Every text read by `parse`, in order, or `None` when one is not. */
  function ParseAll<T>(parse: string -> Option<T>, s: seq<string>): (r: Option<seq<T>>)
    ensures r.Some? <==> forall i :: 0 <= i < |s| ==> parse(s[i]).Some?
    ensures r.Some? ==> |r.value| == |s| && forall i :: 0 <= i < |s| ==> parse(s[i]) == Some(r.value[i])
    decreases |s|
  {
    if s == [] then Some([])
    else
      var front := ParseAll(parse, s[..|s| - 1]);
      var last := parse(s[|s| - 1]);
      assert forall i :: 0 <= i < |s| - 1 ==> s[..|s| - 1][i] == s[i];
      if front.None? || last.None? then None
      else Some(front.value + [last.value])
  }

  /** The text at which `ParseAll` gives up: the first one `parse` rejects,
      whose error a Go loop over `s` returns. */
  function FirstUnparsed<T>(parse: string -> Option<T>, s: seq<string>): (r: nat)
    requires ParseAll(parse, s).None?
    ensures r < |s| && parse(s[r]).None?
    ensures forall i :: 0 <= i < r ==> parse(s[i]).Some?
  {
    if parse(s[0]).None? then 0
    else
      assert forall i :: 0 <= i < |s| - 1 ==> s[1..][i] == s[i + 1];
      1 + FirstUnparsed(parse, s[1..])
  }

  /** Python's `str.isdigit` restricted to ASCII. */
  predicate IsDigitText(s: string) {
    s != [] && AllDigits(s)
  }

  /** Round half to even, as Python's `round` and Go's `FormatFloat` do. */
  function RoundHalfEven(x: real): (n: int)
    ensures (n as real) - 0.5 <= x <= (n as real) + 0.5
    ensures x - x.Floor as real == 0.5 ==> n % 2 == 0
  {
    var f := x.Floor;
    var d := x - f as real;
    if d < 0.5 then f
    else if d > 0.5 then f + 1
    else if f % 2 == 0 then f
    else f + 1
  }

  /** An integer rounds to itself. */
  lemma RoundInteger(n: int)
    ensures RoundHalfEven(n as real) == n
  {
  }

  /** Python's `pow(10, e)`: an integer for `e >= 0`, a fraction otherwise. */
  function PowTen(e: int): (r: real)
    ensures r > 0.0
    ensures e >= 0 ==> r == Pow10(e) as real
  {
    if e >= 0 then Pow10(e) as real else 1.0 / (Pow10(-e) as real)
  }

  /** `strconv.FormatFloat(x, 'f', k, 64)` and Python's `%.kf`: `x`
      rounded to k decimals, with a `-` whenever `x` is negative (so a small
      negative number renders as `-0.000`). */
  function FixedText(x: real, k: nat): string {
    DecimalText(x < 0.0, Abs(RoundHalfEven(x * PowTen(k))), k)
  }

  /** The value a fixed-point rendering denotes. */
  lemma FixedTextValue(x: real, k: nat, n: int)
    requires n == RoundHalfEven(x * PowTen(k))
    ensures DecimalValue(x < 0.0, Abs(n), k) == (n as real) / PowTen(k)
  {
    SignOfScaled(x, PowTen(k));
    RoundSign(x * PowTen(k), n);
    SignedValue(x < 0.0, n, k);
  }

  /** Rounding keeps the sign (a negative number may round to zero). */
  lemma RoundSign(y: real, n: int)
    requires n == RoundHalfEven(y)
    ensures y < 0.0 ==> n <= 0
    ensures y >= 0.0 ==> n >= 0
  {
  }

  lemma SignedValue(neg: bool, n: int, k: nat)
    requires neg ==> n <= 0
    requires !neg ==> n >= 0
    ensures DecimalValue(neg, Abs(n), k) == (n as real) / PowTen(k)
  {
    assert PowTen(k) == Pow10(k) as real;
  }

  lemma SignOfScaled(x: real, p: real)
    requires p > 0.0
    ensures x < 0.0 ==> x * p < 0.0
    ensures x >= 0.0 ==> x * p >= 0.0
  {
  }

  /** What the model requires of the host language's float parser
      (`strconv.ParseFloat`, Python's `float`): that it reads every plain
      decimal text back as the number it denotes. */
  ghost predicate ReadsDecimals(parse: string -> Option<real>) {
    forall neg: bool, m: nat, k: nat :: parse(DecimalText(neg, m, k)) == Some(DecimalValue(neg, m, k))
  }

  /** A parser for plain decimal notation: an optional sign, then digits
      and optionally a point followed by more digits. */
  function ParseDecimal(s: string): (r: Option<real>) {
    var neg := s != [] && s[0] == '-';
    var body := if s != [] && (s[0] == '-' || s[0] == '+') then s[1..] else s;
    match ParseUnsigned(body)
    case Some(v) => Some(if neg then -v else v)
    case None => None
  }

  /** The unsigned part of `ParseDecimal`. */
  function ParseUnsigned(body: string): (r: Option<real>) {
    var parts := Split(body, ".");
    if |parts| == 1 && IsDigitText(parts[0]) then
      Some(DigitsValue(parts[0]) as real)
    else if |parts| == 2 && IsDigitText(parts[0]) && AllDigits(parts[1]) then
      Some(PointValue(parts[0], parts[1]))
    else None
  }

  /** The value of the digits `ip`, a point, and the digits `f`. */
  function PointValue(ip: string, f: string): real
    requires AllDigits(ip) && AllDigits(f)
  {
    DigitsValue(ip) as real + DigitsValue(f) as real / Pow10(|f|) as real
  }

  lemma DigitsHaveNoPoint(s: string)
    requires AllDigits(s)
    ensures '.' !in s
  {
  }

  /** The digits of a concatenation denote the first part shifted left by
      the length of the second, plus the second. */
  lemma {:induction false} DigitsAppend(a: string, b: string)
    requires AllDigits(a) && AllDigits(b)
    ensures AllDigits(a + b)
    ensures DigitsValue(a + b) == DigitsValue(a) * Pow10(|b|) + DigitsValue(b)
    decreases |b|
  {
    if b != [] {
      var b' := b[..|b| - 1];
      assert (a + b)[..|a + b| - 1] == a + b';
      DigitsAppend(a, b');
      var x, y, z, d := DigitsValue(a), Pow10(|b'|), DigitsValue(b'), DigitValue(b[|b| - 1]);
      assert (a + b)[|a + b| - 1] == b[|b| - 1];
      assert DigitsValue(a + b) == 10 * DigitsValue(a + b') + d;
      assert DigitsValue(b) == 10 * z + d;
      Shift(x, y, z, d);
    } else {
      assert a + b == a;
    }
  }

  lemma Shift(x: int, y: int, z: int, d: int)
    ensures 10 * (x * y + z) + d == x * (10 * y) + (10 * z + d)
  {
  }

  /** (A * P + B) / P is A + B / P. */
  lemma ScaledSum(m: nat, a: nat, b: nat, p: nat)
    requires p >= 1 && m == a * p + b
    ensures m as real / p as real == a as real + b as real / p as real
  {
    assert m as real == a as real * p as real + b as real;
  }

  lemma OnePart(ip: string)
    requires AllDigits(ip)
    ensures Split(ip, ".") == [ip]
  {
    DigitsHaveNoPoint(ip);
    FindAbsent(ip, ".");
  }

  lemma TwoParts(ip: string, f: string)
    requires AllDigits(ip) && AllDigits(f)
    ensures Split(ip + "." + f, ".") == [ip, f]
  {
    DigitsHaveNoPoint(ip);
    DigitsHaveNoPoint(f);
    var ws := [ip, f];
    assert ws[1..] == [f];
    assert Join(ws, ".") == ip + "." + f;
    SplitOfJoin(ws, ".");
  }

  /** Reading a rendered decimal with the concrete parser gives its value. */
  lemma ParseDecimalText(neg: bool, m: nat, k: nat)
    ensures ParseDecimal(DecimalText(neg, m, k)) == Some(DecimalValue(neg, m, k))
  {
    var s := DecimalText(neg, m, k);
    var body := UnsignedText(m, k);
    UnsignedStartsWithDigit(m, k);
    assert (if s != [] && (s[0] == '-' || s[0] == '+') then s[1..] else s) == body;
    assert (s != [] && s[0] == '-') == neg;
    if k == 0 {
      ParseWhole(m);
    } else {
      ParseFraction(m, k);
    }
    SignDiv(neg, m as real, Pow10(k) as real);
  }

  lemma UnsignedStartsWithDigit(m: nat, k: nat)
    ensures UnsignedText(m, k) != [] && IsDigit(UnsignedText(m, k)[0])
  {
    if k > 0 {
      var t := PaddedDigits(m, k);
      assert UnsignedText(m, k)[0] == t[0];
    }
  }

  /** m's digits zero-padded to at least k + 1 still denote m. */
  lemma PaddedDigits(m: nat, k: nat) returns (t: string)
    ensures t == ZeroPad(NatText(m), k + 1)
    ensures |t| >= k + 1 && AllDigits(t) && DigitsValue(t) == m
  {
    var n := NatText(m);
    t := ZeroPad(n, k + 1);
    if |n| <= k + 1 {
      LeadingZeros(k + 1 - |n|, n);
    }
    NatTextValue(m);
  }

  lemma ParseWhole(m: nat)
    ensures ParseUnsigned(UnsignedText(m, 0)) == Some(m as real / Pow10(0) as real)
  {
    OnePart(NatText(m));
    NatTextValue(m);
  }

  lemma ParseFraction(m: nat, k: nat)
    requires k > 0
    ensures ParseUnsigned(UnsignedText(m, k)) == Some(m as real / Pow10(k) as real)
  {
    var ip, f := FractionParts(m, k);
    ParseTwoParts(ip, f);
    PointOf(m, ip, f);
  }

  /** The two digit strings around the point of a rendering, and what they
      denote together. */
  lemma FractionParts(m: nat, k: nat) returns (ip: string, f: string)
    requires k > 0
    ensures UnsignedText(m, k) == ip + "." + f
    ensures IsDigitText(ip) && AllDigits(f) && |f| == k
    ensures m == DigitsValue(ip) * Pow10(|f|) + DigitsValue(f)
  {
    var t := PaddedDigits(m, k);
    ip, f := t[..|t| - k], t[|t| - k..];
    assert t == ip + f;
    DigitsAppend(ip, f);
  }

  lemma PointOf(m: nat, ip: string, f: string)
    requires AllDigits(ip) && AllDigits(f)
    requires m == DigitsValue(ip) * Pow10(|f|) + DigitsValue(f)
    ensures PointValue(ip, f) == m as real / Pow10(|f|) as real
  {
    ScaledSum(m, DigitsValue(ip), DigitsValue(f), Pow10(|f|));
  }

  lemma ParseTwoParts(ip: string, f: string)
    requires IsDigitText(ip) && AllDigits(f)
    ensures ParseUnsigned(ip + "." + f) == Some(PointValue(ip, f))
  {
    TwoParts(ip, f);
    ParseOfParts(Split(ip + "." + f, "."), ip, f, ip + "." + f);
  }

  lemma ParseOfParts(parts: seq<string>, ip: string, f: string, s: string)
    requires IsDigitText(ip) && AllDigits(f)
    requires parts == Split(s, ".") && parts == [ip, f]
    ensures ParseUnsigned(s) == Some(PointValue(ip, f))
  {
  }

  lemma SignDiv(neg: bool, x: real, y: real)
    requires y > 0.0
    ensures (if neg then -x else x) / y == (if neg then -(x / y) else x / y)
  {
  }

  /** The concrete parser satisfies what the model requires of a float
      parser, so that requirement can be met. */
  lemma ParseDecimalReadsDecimals()
    ensures ReadsDecimals(ParseDecimal)
  {
    forall neg: bool, m: nat, k: nat
      ensures ParseDecimal(DecimalText(neg, m, k)) == Some(DecimalValue(neg, m, k))
    {
      ParseDecimalText(neg, m, k);
    }
  }

  /** A character of a plain decimal rendering. */
  predicate NumberChar(c: char) {
    IsDigit(c) || c == '-' || c == '.'
  }

  /** A non-empty word made of decimal-rendering characters. */
  predicate NumberWord(s: string) {
    s != [] && forall i :: 0 <= i < |s| ==> NumberChar(s[i])
  }

  /** Every decimal rendering is a number word. */
  lemma DecimalTextWord(neg: bool, m: nat, k: nat)
    ensures NumberWord(DecimalText(neg, m, k))
  {
    if k > 0 {
      var ip, f := FractionParts(m, k);
    }
    var u := UnsignedText(m, k);
    var s := DecimalText(neg, m, k);
    assert forall i :: 0 <= i < |u| ==> NumberChar(u[i]);
    assert s == (if neg then "-" else "") + u;
  }

  /** An integer rendering is a number word. */
  lemma IntTextWord(i: int)
    ensures NumberWord(IntText(i))
  {
    IntTextDecimal(i);
    DecimalTextWord(i < 0, Abs(i), 0);
  }

  /** A float parser that reads decimals reads an integer rendering as the
      integer. */
  lemma ParseIntDecimal(parse: string -> Option<real>, i: int)
    requires ReadsDecimals(parse)
    ensures parse(IntText(i)) == Some(i as real)
  {
    IntTextDecimal(i);
    assert parse(DecimalText(i < 0, Abs(i), 0)) == Some(DecimalValue(i < 0, Abs(i), 0));
  }

  /** A float parser that reads decimals reads a fixed-point rendering as
      the rounded value. */
  lemma ParseFixed(parse: string -> Option<real>, x: real, k: nat, n: int)
    requires ReadsDecimals(parse) && n == RoundHalfEven(x * PowTen(k))
    ensures parse(FixedText(x, k)) == Some(n as real / PowTen(k))
  {
    var t := DecimalText(x < 0.0, Abs(n), k);
    assert FixedText(x, k) == t;
    FixedTextValue(x, k, n);
    assert parse(t) == Some(DecimalValue(x < 0.0, Abs(n), k));
  }

  /** What a fixed-point rendering with `k` decimals stands for: `x`
      rounded half to even at the `k`-th decimal. */
  function FixedValue(x: real, k: nat): real {
    RoundHalfEven(x * PowTen(k)) as real / PowTen(k)
  }

  /** A fixed-point rendering is within half a unit of its last decimal of
      the value rendered. */
  lemma FixedValueClose(x: real, k: nat)
    ensures FixedValue(x, k) - 1.0 / (2.0 * PowTen(k)) <= x <= FixedValue(x, k) + 1.0 / (2.0 * PowTen(k))
  {
    var n := RoundHalfEven(x * PowTen(k));
    assert (n as real) - 0.5 <= x * PowTen(k) <= (n as real) + 0.5;
    HalfUnit(x, n as real, PowTen(k));
  }

  /** A float parser that reads decimals reads a fixed-point rendering as
      its `FixedValue`. */
  lemma ParseFixedValue(parse: string -> Option<real>, x: real, k: nat)
    requires ReadsDecimals(parse)
    ensures parse(FixedText(x, k)) == Some(FixedValue(x, k))
  {
    ParseFixed(parse, x, k, RoundHalfEven(x * PowTen(k)));
  }

  /** A fixed-point rendering is a number word. */
  lemma FixedTextWord(x: real, k: nat)
    ensures NumberWord(FixedText(x, k))
  {
    DecimalTextWord(x < 0.0, Abs(RoundHalfEven(x * PowTen(k))), k);
  }

  /** A number word holds no blank, newline, `*` or `=`, so it is one
      field of a line and cannot be mistaken for a delimiter. */
  lemma NumberWordPlain(s: string)
    requires NumberWord(s)
    ensures NoSep(s, PySpace) && NoSep(s, GoSpace)
    ensures '*' !in s && '\n' !in s && '=' !in s
  {
    forall i | 0 <= i < |s|
      ensures !PySpace(s[i]) && !GoSpace(s[i])
    {
      assert NumberChar(s[i]);
    }
  }

  /** A value whose multiple by `s` rounds to `n` lies within `1 / 2s` of
      `n / s`. */
  lemma HalfUnit(x: real, n: real, s: real)
    requires s > 0.0 && n - 0.5 <= x * s <= n + 0.5
    ensures n / s - 1.0 / (2.0 * s) <= x <= n / s + 1.0 / (2.0 * s)
  {
    DivMono(n - 0.5, x * s, s);
    DivMono(x * s, n + 0.5, s);
    assert (x * s) / s == x;
    assert (n - 0.5) / s == n / s - 1.0 / (2.0 * s);
    assert (n + 0.5) / s == n / s + 1.0 / (2.0 * s);
  }

  lemma DivMono(a: real, b: real, s: real)
    requires s > 0.0 && a <= b
    ensures a / s <= b / s
  {
    assert b / s - a / s == (b - a) / s;
  }
}
