/** `TimeUtilsService.formatDuration` and `parseDuration` over the natural numbers. */
module Durations {
  import opened Common
  import opened JsStrings

  predicate IsDigit(c: char) {
    '0' <= c <= '9'
  }

  function DigitValue(c: char): (v: nat)
    requires IsDigit(c)
    ensures v < 10
  {
    (c as int) - ('0' as int)
  }

  function DigitChar(v: nat): (c: char)
    requires v < 10
    ensures IsDigit(c) && DigitValue(c) == v
  {
    (v + '0' as int) as char
  }

  /** `n.toString()` */
  function ToDecimal(n: nat): (s: string)
    ensures |s| >= 1
    ensures forall i :: 0 <= i < |s| ==> IsDigit(s[i])
    ensures n < 100 ==> |s| <= 2
  {
    if n < 10 then [DigitChar(n)] else ToDecimal(n / 10) + [DigitChar(n % 10)]
  }

  /** `Number(s)` on digit strings; `None` stands for NaN. The empty string reads as zero. */
  function FromDecimal(s: string): Option<nat> {
    if s == "" then Some(0)
    else
      var last := s[|s| - 1];
      match FromDecimal(s[..|s| - 1])
      case Some(v) => if IsDigit(last) then Some(v * 10 + DigitValue(last)) else None
      case None => None
  }

  function FormatDuration(seconds: nat): string {
    PadStart(ToDecimal(seconds / 60), 2, '0') + ":" + PadStart(ToDecimal(seconds % 60), 2, '0')
  }

  /** Only the first two pieces are read; a missing piece makes the sum NaN. */
  function ParseDuration(text: string): Option<nat> {
    var parts := Split(text, ":");
    if |parts| < 2 then None
    else
      match (FromDecimal(parts[0]), FromDecimal(parts[1]))
      case (Some(minutes), Some(seconds)) => Some(minutes * 60 + seconds)
      case _ => None
  }

  lemma {:induction false} DecimalRoundTrip(n: nat)
    ensures FromDecimal(ToDecimal(n)) == Some(n)
  {
    if n < 10 {
      assert ToDecimal(n)[..0] == "";
    } else {
      DecimalRoundTrip(n / 10);
      assert ToDecimal(n)[..|ToDecimal(n)| - 1] == ToDecimal(n / 10);
    }
  }

  /** The digit of `n` that stands for its `i`-th power of ten. */
  function Digit(n: nat, i: nat): nat {
    if i == 0 then n % 10 else Digit(n / 10, i - 1)
  }

  /** The printed number is in base ten, without leading zeros. */
  lemma {:induction false} PrintsDigits(n: nat)
    ensures
      var s := ToDecimal(n);
      && (forall i :: 0 <= i < |s| ==> s[|s| - 1 - i] as int - '0' as int == Digit(n, i))
      && (|s| > 1 ==> s[0] != '0')
  {
    if n >= 10 {
      PrintsDigits(n / 10);
      assert n / 10 < 10 ==> ToDecimal(n / 10) == [DigitChar(n / 10)];
    }
  }

  lemma {:induction false} LeadingZero(s: string)
    ensures FromDecimal("0" + s) == FromDecimal(s)
  {
    if s == "" {
      assert ("0" + s)[..0] == "";
    } else {
      LeadingZero(s[..|s| - 1]);
      assert ("0" + s)[..|s|] == "0" + s[..|s| - 1];
    }
  }

  lemma {:induction false} PaddingKeepsValue(s: string, width: nat)
    requires forall i :: 0 <= i < |s| ==> IsDigit(s[i])
    ensures FromDecimal(PadStart(s, width, '0')) == FromDecimal(s)
    ensures CharFree(PadStart(s, width, '0'), ':')
    decreases width - |s|
  {
    if |s| < width {
      LeadingZero(s);
      PaddingKeepsValue("0" + s, width);
    }
  }

  lemma ParsePieces(minutes: string, seconds: string)
    requires CharFree(minutes, ':') && CharFree(seconds, ':')
    requires FromDecimal(minutes).Some? && FromDecimal(seconds).Some?
    ensures ParseDuration(minutes + ":" + seconds)
         == Some(FromDecimal(minutes).value * 60 + FromDecimal(seconds).value)
  {
    hide IndexOf, FromDecimal;
    SplitCons(minutes, ':', seconds);
    SplitNone(seconds, ':');
  }

  lemma TwoDigits(n: nat)
    requires n < 100
    ensures PadStart(ToDecimal(n), 2, '0') == [DigitChar(n / 10), DigitChar(n % 10)]
  {
    if n < 10 {
      assert PadStart(['0'] + ToDecimal(n), 2, '0') == ['0'] + ToDecimal(n);
    } else {
      assert ToDecimal(n / 10) == [DigitChar(n / 10)];
    }
  }

  /** The text is the whole minutes in at least two digits, a colon, and the seconds that remain in two. */
  lemma FormattedText(seconds: nat)
    ensures
      var text := FormatDuration(seconds);
      var n := |text|;
      && n >= 5 && text[n - 3] == ':'
      && text[n - 2] as int - '0' as int == seconds % 60 / 10 && text[n - 1] as int - '0' as int == seconds % 60 % 10
      && FromDecimal(text[..n - 3]) == Some(seconds / 60)
  {
    hide FromDecimal, ToDecimal, PadStart;
    var m, s := PadStart(ToDecimal(seconds / 60), 2, '0'), PadStart(ToDecimal(seconds % 60), 2, '0');
    TwoDigits(seconds % 60);
    DecimalRoundTrip(seconds / 60);
    PaddingKeepsValue(ToDecimal(seconds / 60), 2);
    assert (m + ":" + s)[..|m|] == m;
  }

  /** Parsing undoes formatting. */
  lemma DurationRoundTrip(seconds: nat)
    ensures ParseDuration(FormatDuration(seconds)) == Some(seconds)
  {
    hide FromDecimal, ToDecimal, PadStart, ParseDuration;
    var m, s := seconds / 60, seconds % 60;
    DecimalRoundTrip(m);
    DecimalRoundTrip(s);
    PaddingKeepsValue(ToDecimal(m), 2);
    PaddingKeepsValue(ToDecimal(s), 2);
    ParsePieces(PadStart(ToDecimal(m), 2, '0'), PadStart(ToDecimal(s), 2, '0'));
  }
}
