/** `ChartEntry.StringLength`: a track length in seconds rendered as
    minutes and two-digit seconds, with Go's integer `/` and `%` (which
    truncate toward zero) and its `%d` / `%02d` verbs written out. */
module Format {
  import opened Records

  /** Go's `/` on int: the quotient truncated toward zero. */
  function GoDiv(a: int, b: int): int
    requires b > 0
  {
    if a >= 0 then a / b else -((-a) / b)
  }

  /** Go's `%` on int: the remainder takes the sign of the dividend. */
  function GoMod(a: int, b: int): int
    requires b > 0
  {
    a - b * GoDiv(a, b)
  }

  predicate IsDigit(c: char) {
    '0' <= c <= '9'
  }

  function DigitChar(d: int): (c: char)
    requires 0 <= d < 10
    ensures IsDigit(c)
  {
    (d + '0' as int) as char
  }

  /** The decimal digits of `n`, most significant first, without leading zeros. */
  function Decimal(n: nat): (r: string)
    ensures |r| >= 1 && forall i :: 0 <= i < |r| ==> IsDigit(r[i])
    ensures n > 0 ==> r[0] != '0'
  {
    if n < 10 then [DigitChar(n)] else Decimal(n / 10) + [DigitChar(n % 10)]
  }

  /** The value of a string of decimal digits (leading zeros allowed). */
  function DigitsValue(s: string): int
  {
    if s == [] then 0 else DigitsValue(s[..|s| - 1]) * 10 + (s[|s| - 1] as int - '0' as int)
  }

  /** `%d` */
  function FormatInt(n: int): string
  {
    if n < 0 then "-" + Decimal(-n) else Decimal(n)
  }

  /** `%02d`: zero-padded to width two; a sign counts toward the width, so a
      negative value is never padded. */
  function FormatInt02(n: int): string
  {
    if 0 <= n < 10 then "0" + Decimal(n) else FormatInt(n)
  }

  function ParseInt(s: string): int
  {
    if |s| > 0 && s[0] == '-' then -DigitsValue(s[1..]) else DigitsValue(s)
  }

  /** `ChartEntry.StringLength`: `"%dm:%02ds"` of `Length/60` and `Length%60`. */
  function StringLength(ce: ChartEntry): string
  {
    FormatInt(GoDiv(ce.length, 60)) + "m:" + FormatInt02(GoMod(ce.length, 60)) + "s"
  }

  /** The index of the first `c` in `s`, or `|s|` when there is none. */
  function IndexOf(s: string, c: char): (k: nat)
    ensures k <= |s|
    ensures k < |s| ==> s[k] == c
    ensures forall i :: 0 <= i < k ==> s[i] != c
  {
    if s == [] then 0 else if s[0] == c then 0 else 1 + IndexOf(s[1..], c)
  }

  /** Reads a rendered length back: minutes before the first 'm', seconds
      between the "m:" and the final 's'. */
  function ParseStringLength(s: string): int
  {
    var k := IndexOf(s, 'm');
    var minutes := ParseInt(s[..k]);
    var seconds := if k + 2 <= |s| - 1 then ParseInt(s[k + 2..|s| - 1]) else 0;
    minutes * 60 + seconds
  }

  lemma {:induction false} DecimalRoundTrip(n: nat)
    ensures DigitsValue(Decimal(n)) == n
  {
    if n >= 10 {
      var s := Decimal(n);
      assert s[..|s| - 1] == Decimal(n / 10);
      DecimalRoundTrip(n / 10);
    }
  }

  lemma FormatIntRoundTrip(n: int)
    ensures ParseInt(FormatInt(n)) == n
    ensures ParseInt(FormatInt02(n)) == n
    ensures forall i :: 0 <= i < |FormatInt02(n)| ==> FormatInt02(n)[i] == '-' || IsDigit(FormatInt02(n)[i])
    ensures forall i :: 0 <= i < |FormatInt(n)| ==> FormatInt(n)[i] == '-' || IsDigit(FormatInt(n)[i])
  {
    if n < 0 {
      DecimalRoundTrip(-n);
      assert FormatInt(n)[1..] == Decimal(-n);
    } else {
      DecimalRoundTrip(n);
      if n < 10 {
        var s := FormatInt02(n);
        assert s[..|s| - 1] == "0" && "0"[..0] == [];
        assert DigitsValue("0") == 0;
      }
    }
  }

  lemma GoDivMod60(a: int)
    ensures a == 60 * GoDiv(a, 60) + GoMod(a, 60)
    ensures a >= 0 ==> GoDiv(a, 60) == a / 60 && GoMod(a, 60) == a % 60
    ensures a < 0 ==> -60 < GoMod(a, 60) <= 0
  {
  }

  /** Reading the rendered length back gives the length: the rendering loses
      nothing, for negative lengths too. */
  lemma StringLengthRoundTrip(ce: ChartEntry)
    ensures ParseStringLength(StringLength(ce)) == ce.length
  {
    var m, sec := GoDiv(ce.length, 60), GoMod(ce.length, 60);
    var mins, secs := FormatInt(m), FormatInt02(sec);
    var s := StringLength(ce);
    FormatIntRoundTrip(m);
    FormatIntRoundTrip(sec);
    assert s == mins + "m:" + secs + "s";
    assert s[|mins|] == 'm';
    assert forall i :: 0 <= i < |mins| ==> s[i] == mins[i] && s[i] != 'm';
    var k := IndexOf(s, 'm');
    assert k == |mins|;
    assert s[..k] == mins;
    assert s[k + 2..|s| - 1] == secs;
    GoDivMod60(ce.length);
  }

  /** For a non-negative length the minutes are `Length / 60` in plain
      decimal and the seconds `Length % 60`, always exactly two digits. */
  lemma StringLengthShape(ce: ChartEntry)
    requires ce.length >= 0
    ensures var sec := ce.length % 60;
      StringLength(ce) == Decimal(ce.length / 60) + "m:" + [DigitChar(sec / 10), DigitChar(sec % 10)] + "s"
  {
    GoDivMod60(ce.length);
    var sec := ce.length % 60;
    if sec >= 10 {
      assert Decimal(sec) == Decimal(sec / 10) + [DigitChar(sec % 10)];
    }
  }
}
