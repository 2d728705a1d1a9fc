/**
 * The calendar time the clock reads from `time.localtime()`, and the decimal
 * formatting (`'{:0>Nd}'.format(n)`) the renderers apply to its fields.
 */
module ClockTime {

  /** The fields of the `time.localtime()` tuple the core reads (TM_YEAR .. TM_SEC). */
  datatype CalendarTime = CalendarTime(year: nat, month: nat, day: nat, hour: nat, minute: nat, second: nat)

  function DigitChar(d: nat): char
    requires d < 10
  {
    ('0' as int + d) as char
  }

  /** `str(n)`: the decimal digits of n, most significant first, without leading zeros. */
  function DecimalString(n: nat): string
    decreases n
  {
    if n < 10 then [DigitChar(n)] else DecimalString(n / 10) + [DigitChar(n % 10)]
  }

  /** `'{:0>wd}'.format(n)`: the decimal string of n, filled on the left with '0' up to width w. */
  function ZeroPad(n: nat, width: nat): string
  {
    var d := DecimalString(n);
    if |d| >= width then d else seq(width - |d|, _ => '0') + d
  }

  /** The w least significant decimal digits of n, most significant first. */
  function LowDigits(n: nat, w: nat): (s: string)
    ensures |s| == w
  {
    if w == 0 then [] else LowDigits(n / 10, w - 1) + [DigitChar(n % 10)]
  }

  /** Any suffix of `str(n)` is the same number of low digits of n. */
  lemma {:induction false} DecimalStringSuffix(n: nat, w: nat)
    requires w <= |DecimalString(n)|
    ensures DecimalString(n)[|DecimalString(n)| - w..] == LowDigits(n, w)
    decreases n
  {
    var d := DecimalString(n);
    if w == 0 {
    } else if n < 10 {
      assert LowDigits(n / 10, 0) == [];
    } else {
      var hi := DecimalString(n / 10);
      DecimalStringSuffix(n / 10, w - 1);
      assert d == hi + [DigitChar(n % 10)];
      assert d[|d| - w..] == hi[|hi| - (w - 1)..] + [DigitChar(n % 10)];
    }
  }

  lemma {:induction false} LowDigitsOfZero(w: nat)
    ensures LowDigits(0, w) == seq(w, _ => '0')
  {
    if w > 0 {
      LowDigitsOfZero(w - 1);
    }
  }

  /** When `str(n)` has at most w digits, the w low digits of n are `str(n)` padded with zeros. */
  lemma {:induction false} LowDigitsPadDecimal(n: nat, w: nat)
    requires |DecimalString(n)| <= w
    ensures LowDigits(n, w) == seq(w - |DecimalString(n)|, _ => '0') + DecimalString(n)
    decreases n
  {
    if n < 10 {
      LowDigitsOfZero(w - 1);
    } else {
      LowDigitsPadDecimal(n / 10, w - 1);
    }
  }

  /**
   * `'{:0>wd}'.format(n)` is at least w characters long and ends with the w
   * low digits of n; when n has no more than w digits it is exactly those.
   */
  lemma ZeroPadEndsWithLowDigits(n: nat, w: nat)
    ensures |ZeroPad(n, w)| >= w
    ensures ZeroPad(n, w)[|ZeroPad(n, w)| - w..] == LowDigits(n, w)
    ensures |DecimalString(n)| <= w ==> ZeroPad(n, w) == LowDigits(n, w)
  {
    var d := DecimalString(n);
    if |d| >= w {
      DecimalStringSuffix(n, w);
    }
    if |d| <= w {
      LowDigitsPadDecimal(n, w);
    }
  }

  /** A field below 100 formats with `'{:0>2d}'` as its tens and units digits. */
  lemma TwoDigits(n: nat)
    requires n < 100
    ensures ZeroPad(n, 2) == [DigitChar(n / 10), DigitChar(n % 10)]
  {
    if n >= 10 {
      assert DecimalString(n / 10) == [DigitChar(n / 10)];
    }
    ZeroPadEndsWithLowDigits(n, 2);
    assert LowDigits(n / 10 / 10, 0) == [];
  }
}
