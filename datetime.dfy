/**
 * `StrToTimeWithMicro` of the Go ingestion service: parse an ISO-8601 text with one of
 * two layouts, then build the decimal text `"%d%06d"` of the Unix seconds and the
 * microseconds within the second, and read that text back as one integer.
 *
 * `time.Parse` is not reimplemented: it is a parameter. The formatting (`%d`, `%06d`)
 * and the read-back (`Sscanf` with `%d`) are modelled digit by digit, so the arithmetic
 * meaning of the concatenation is proved rather than assumed.
 */
module DateTime {
  import opened Wrappers

  /** The layout tried first (milliseconds and a literal `Z`) and the one tried next. */
  const MillisLayout := "2006-01-02T15:04:05.000Z"
  const SecondsLayout := "2006-01-02T15:04:05"

  const MicrosPerSecond := 1_000_000

  /** `Time.Nanosecond()` always lies in [0, 999999999]. */
  type Nanos = n: int | 0 <= n < 1_000_000_000

  /** A parsed `time.Time`, as the two numbers the code reads from it: `Unix()` and `Nanosecond()`. */
  datatype Instant = Instant(unix: int, nanosecond: Nanos)

  /** `time.Parse(layout, value)`: `None` is a parse error. */
  type Parser = (string, string) -> Option<Instant>

  datatype ParseError = NoLayoutMatches

  /** Go's `(int64, error)` result pair. */
  datatype Parsed = Parsed(micros: int, err: Option<ParseError>)

  // ---------------------------------------------------------------------------
  // Decimal digits

  predicate IsDigit(c: char)
  {
    '0' <= c <= '9'
  }

  predicate AllDigits(s: string)
  {
    forall i :: 0 <= i < |s| ==> IsDigit(s[i])
  }

  function Pow10(k: nat): (p: nat)
    ensures p >= 1
  {
    if k == 0 then 1 else 10 * Pow10(k - 1)
  }

  /** The number a string of decimal digits denotes (leading zeros allowed). */
  function DigitsValue(s: string): nat
    requires AllDigits(s)
  {
    if s == [] then 0 else DigitsValue(s[..|s| - 1]) * 10 + (s[|s| - 1] as int - '0' as int)
  }

  function Digit(d: nat): (c: char)
    requires d < 10
    ensures IsDigit(c) && c as int - '0' as int == d
  {
    ('0' as int + d) as char
  }

  /** `%d` of a non-negative number: its decimal digits, without leading zeros. */
  function FormatNat(n: nat): (s: string)
    ensures 1 <= |s| && AllDigits(s) && DigitsValue(s) == n
    ensures |s| > 1 ==> s[0] != '0'
  {
    if n < 10 then [Digit(n)]
    else
      var s := FormatNat(n / 10) + [Digit(n % 10)];
      assert s[..|s| - 1] == FormatNat(n / 10);
      s
  }

  function Zeros(k: nat): (s: string)
    ensures |s| == k && AllDigits(s) && DigitsValue(s) == 0
  {
    if k == 0 then []
    else
      var s := Zeros(k - 1) + ['0'];
      assert s[..|s| - 1] == Zeros(k - 1);
      s
  }

  /** `%0<w>d` of a non-negative number: its digits, padded on the left with zeros to width `w`. */
  function ZeroPad(n: nat, w: nat): (s: string)
    ensures |s| >= w && AllDigits(s) && DigitsValue(s) == n
  {
    var d := FormatNat(n);
    if |d| < w then
      DigitsConcat(Zeros(w - |d|), d);
      Zeros(w - |d|) + d
    else d
  }

  /** `%d` of any integer: a minus sign, then the digits of the magnitude. */
  function FormatInt(i: int): (s: string)
    // a literal `Sscanf` reads back as `i` itself
    ensures IsIntLiteral(s) && ScanInt(s) == i
    ensures s[0] == '-' <==> i < 0
  {
    if i < 0 then
      var s := "-" + FormatNat(-i);
      assert s[1..] == FormatNat(-i);
      s
    else FormatNat(i)
  }

  /** The texts `Sscanf` with `%d` reads completely: an optional minus sign and at least one digit. */
  predicate IsIntLiteral(s: string)
  {
    || (|s| >= 1 && AllDigits(s))
    || (|s| >= 2 && s[0] == '-' && AllDigits(s[1..]))
  }

  /** `fmt.Sscanf(s, "%d", &result)` on a well-formed literal. */
  function ScanInt(s: string): (r: int)
    requires IsIntLiteral(s)
    ensures s[0] != '-' ==> 0 <= r
    ensures s[0] == '-' ==> r <= 0
    // a literal of k characters denotes a number of at most k digits
    ensures -(Pow10(|s|) as int) < r < Pow10(|s|)
  {
    if s[0] == '-' then
      DigitsBound(s[1..]);
      -(DigitsValue(s[1..]) as int)
    else
      DigitsBound(s);
      DigitsValue(s)
  }

  /** k digits denote less than 10^k. */
  lemma {:induction false} DigitsBound(s: string)
    requires AllDigits(s)
    ensures DigitsValue(s) < Pow10(|s|)
  {
    if s != [] {
      DigitsBound(s[..|s| - 1]);
    }
  }

  /** Appending `b` shifts the value of `a` left by `|b|` decimal places. */
  lemma {:induction false} DigitsConcat(a: string, b: string)
    requires AllDigits(a) && AllDigits(b)
    ensures AllDigits(a + b)
    ensures DigitsValue(a + b) == DigitsValue(a) * Pow10(|b|) + DigitsValue(b)
  {
    if b == [] {
      assert a + b == a;
    } else {
      var b' := b[..|b| - 1];
      var c := b[|b| - 1];
      DigitsConcat(a, b');
      assert (a + b)[..|a + b| - 1] == a + b';
      ShiftLeft(DigitsValue(a), Pow10(|b'|), DigitsValue(b'), c as int - '0' as int);
    }
  }

  /** One more digit on the right: the arithmetic step of DigitsConcat. */
  lemma ShiftLeft(x: int, p: int, y: int, d: int)
    ensures (x * p + y) * 10 + d == x * (10 * p) + (y * 10 + d)
  {
  }

  /** A number below 10^k has at most k digits. */
  lemma {:induction false} FormatNatLength(n: nat, k: nat)
    requires 1 <= k && n < Pow10(k)
    ensures |FormatNat(n)| <= k
  {
    if n >= 10 {
      assert k != 1;
      var p := Pow10(k - 1);
      assert n < 10 * p;
      assert n / 10 < p;
      FormatNatLength(n / 10, k - 1);
    }
  }

  /** `%06d` of a microsecond count is exactly six digits denoting that count. */
  lemma SixDigitField(m: nat)
    requires m < MicrosPerSecond
    ensures |ZeroPad(m, 6)| == 6 && AllDigits(ZeroPad(m, 6)) && DigitsValue(ZeroPad(m, 6)) == m
  {
    var d := FormatNat(m);
    assert Pow10(6) == MicrosPerSecond;
    FormatNatLength(m, 6);
    if |d| < 6 {
      DigitsConcat(Zeros(6 - |d|), d);
    }
  }

  // ---------------------------------------------------------------------------
  // The operation

  /** The text built by `fmt.Sprintf("%d%06d", secs, micros)`. */
  function Concatenated(t: Instant): (s: string)
    // `%d` of the seconds, followed by six digits that denote the microseconds
    ensures |s| >= 7 && s[..|s| - 6] == FormatInt(t.unix)
    ensures AllDigits(s[|s| - 6..]) && DigitsValue(s[|s| - 6..]) == t.nanosecond / 1000
  {
    SixDigitField(t.nanosecond / 1000);
    var s := FormatInt(t.unix) + ZeroPad(t.nanosecond / 1000, 6);
    assert s[..|s| - 6] == FormatInt(t.unix) && s[|s| - 6..] == ZeroPad(t.nanosecond / 1000, 6);
    s
  }

  /**
   * The integer `Sscanf` reads back from the concatenation. After the epoch it is the
   * microsecond count; before it the minus sign applies to the microseconds too.
   */
  function ConcatMicros(t: Instant): (r: int)
    ensures t.unix >= 0 ==> r == t.unix * MicrosPerSecond + t.nanosecond / 1000
    ensures t.unix < 0 ==> r == -((-t.unix) * MicrosPerSecond + t.nanosecond / 1000)
  {
    ConcatMeaning(t);
    ScanInt(Concatenated(t))
  }

  /** The read-back sees the digits of |secs| followed by exactly six microsecond digits. */
  lemma ConcatMeaning(t: Instant)
    ensures IsIntLiteral(Concatenated(t))
    ensures var magnitude := (if t.unix < 0 then -t.unix else t.unix) * MicrosPerSecond + t.nanosecond / 1000;
      ScanInt(Concatenated(t)) == if t.unix < 0 then -magnitude else magnitude
  {
    var m := t.nanosecond / 1000;
    var field := ZeroPad(m, 6);
    SixDigitField(m);
    var digits := FormatNat(if t.unix < 0 then -t.unix else t.unix);
    DigitsConcat(digits, field);
    assert Pow10(6) == MicrosPerSecond;
    assert digits[0] != '-';
    if t.unix < 0 {
      assert Concatenated(t) == "-" + (digits + field);
      assert Concatenated(t)[1..] == digits + field;
    } else {
      assert Concatenated(t) == digits + field;
    }
  }

  function StrToTimeWithMicro(dateTime: string, parse: Parser): (r: Parsed)
    // both layouts fail: zero and an error
    ensures parse(MillisLayout, dateTime).None? && parse(SecondsLayout, dateTime).None? ==>
      r == Parsed(0, Some(NoLayoutMatches))
    // the millisecond layout wins whenever it parses
    ensures parse(MillisLayout, dateTime).Some? ==>
      r == Parsed(ConcatMicros(parse(MillisLayout, dateTime).value), None)
    // the second layout is consulted only when the first fails
    ensures parse(MillisLayout, dateTime).None? && parse(SecondsLayout, dateTime).Some? ==>
      r == Parsed(ConcatMicros(parse(SecondsLayout, dateTime).value), None)
  {
    match parse(MillisLayout, dateTime)
    case Some(t) => Parsed(ConcatMicros(t), None)
    case None =>
      match parse(SecondsLayout, dateTime)
      case Some(t) => Parsed(ConcatMicros(t), None)
      case None => Parsed(0, Some(NoLayoutMatches))
  }

  // ---------------------------------------------------------------------------
  // What the concatenation means, and where it goes wrong

  const MinInt64 := -0x8000_0000_0000_0000
  const MaxInt64 := 0x7fff_ffff_ffff_ffff

  /** `Unix()` of 0000-01-01T00:00:00Z and of 9999-12-31T23:59:59Z, the range a four-digit year allows. */
  const FirstSecondOfYear0 := -62_167_219_200
  const LastSecondOfYear9999 := 253_402_300_799

  /** Whatever year the layouts accept, the text read back fits an int64: `Sscanf` never overflows. */
  lemma ConcatFitsInt64(t: Instant)
    requires FirstSecondOfYear0 <= t.unix <= LastSecondOfYear9999
    ensures MinInt64 <= ConcatMicros(t) <= MaxInt64
  {
    var m := t.nanosecond / 1000;
    if t.unix >= 0 {
      assert t.unix * MicrosPerSecond <= LastSecondOfYear9999 * MicrosPerSecond;
    } else {
      assert (-t.unix) * MicrosPerSecond <= 62_167_219_200 * MicrosPerSecond;
    }
  }

  /** Go's `Time.UnixMicro()`: the signed microseconds since the epoch, truncated toward the past. */
  function UnixMicro(t: Instant): (r: int)
    // the inverse: Euclidean division by 10^6 gives back the seconds and the microseconds
    ensures r / MicrosPerSecond == t.unix
    ensures r % MicrosPerSecond == t.nanosecond / 1000
  {
    t.unix * MicrosPerSecond + t.nanosecond / 1000
  }

  /** Instants in time order. */
  predicate NotAfter(a: Instant, b: Instant)
  {
    a.unix < b.unix || (a.unix == b.unix && a.nanosecond <= b.nanosecond)
  }

  /** The corrected encoding keeps time order, so range queries over it select the right instants. */
  lemma UnixMicroMonotone(a: Instant, b: Instant)
    requires NotAfter(a, b)
    ensures UnixMicro(a) <= UnixMicro(b)
  {
    if a.unix < b.unix {
      assert a.unix * MicrosPerSecond + MicrosPerSecond <= b.unix * MicrosPerSecond;
    }
  }

  /** From the epoch on, the concatenation and `UnixMicro` agree. */
  lemma ConcatAgreesAfterEpoch(t: Instant)
    requires t.unix >= 0
    ensures ConcatMicros(t) == UnixMicro(t)
  {
  }

  /**
   * Before the epoch they part: 1969-12-31T23:59:59.2Z and .5Z are Unix second -1 with
   * 200000 and 500000 microseconds; the concatenation gives -1200000 and -1500000, so the
   * later instant gets the smaller number, and neither is the true -800000 / -500000.
   */
  lemma PreEpochOrderInverted()
    ensures var early, late := Instant(-1, 200_000_000), Instant(-1, 500_000_000);
      && NotAfter(early, late)
      && ConcatMicros(early) == -1_200_000 && ConcatMicros(late) == -1_500_000
      && ConcatMicros(late) < ConcatMicros(early)
      && UnixMicro(early) == -800_000 && UnixMicro(late) == -500_000
  {
  }
}
