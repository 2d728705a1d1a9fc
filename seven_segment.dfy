/**
 * SevenSegmentDisplay (digital_clock.py): the clock faces drawn on a Seg7x4
 * display. Every renderer edits the display buffer in place and then shows it.
 * The functions After* give the buffer each renderer leaves; the lemmas at the
 * end say what the four cells and the colon then hold.
 */
module SevenSegment {
  import opened Wrappers
  import opened HT16K33
  import opened ClockTime

  /** Glyph of the dash used by the progress bar. */
  const DASH: bv8 := 0x40

  /** Bit k of n, which is what `n & (1 << k)` tests for n >= 0. */
  predicate BitSet(n: nat, k: nat)
  {
    if k == 0 then n % 2 == 1 else BitSet(n / 2, k - 1)
  }

  /** The colon blinks with the seconds: on when they are even. */
  function ColonChar(second: nat): char
  {
    if second % 2 == 0 then ':' else ';'
  }

  /** `'{:0>2d}{:0>2d}'.format(hour, minute)` */
  function TimeText(now: CalendarTime): string
  {
    ZeroPad(now.hour, 2) + ZeroPad(now.minute, 2)
  }

  /** `'{:0>2d}.{:0>2d}'.format(month, day)` */
  function DateText(now: CalendarTime): string
  {
    ZeroPad(now.month, 2) + "." + ZeroPad(now.day, 2)
  }

  /** `'{:0>4d}'.format(year)` */
  function YearText(now: CalendarTime): string
  {
    ZeroPad(now.year, 4)
  }

  /** `'----    '[4 - (count % 5):][:4]`: count % 5 dashes, then blanks. */
  function ProgressText(count: nat): (s: string)
    ensures |s| == 4
    ensures forall i :: 0 <= i < 4 ==> s[i] == if i < count % 5 then '-' else ' '
  {
    var bar := "----    "[4 - count % 5..];
    bar[..4]
  }

  /** The cell-i breathing dot of the time face: bit 5 - i of `second + 4`. */
  predicate BreathingDot(second: nat, i: nat)
    requires i < 4
  {
    BitSet(second + 4, 5 - i)
  }

  /** The buffer after the dot loop of `time` has looked at cells 0 .. i-1. */
  function AfterDots(b: Buffer, second: nat, i: nat): Buffer
    requires i <= 4
  {
    if i == 0 then b
    else
      var b1 := AfterDots(b, second, i - 1);
      if BreathingDot(second, i - 1) then AfterPut(b1, '.', i - 1) else b1
  }

  /** The buffer after `time(now, sync_error)`. */
  function AfterTime(b: Buffer, now: CalendarTime, syncError: bool): Buffer
  {
    var b1 := AfterText(AfterPut(b, ColonChar(now.second), 0), TimeText(now));
    var b2 := if syncError then AfterPut(b1, '.', 3) else b1;
    AfterDots(b2, now.second, 4)
  }

  /** The buffer after `SevenSegmentDisplay.text(s)`: colon off, then the string pushed. */
  function AfterShowText(b: Buffer, s: string): Buffer
  {
    AfterText(AfterPut(b, ';', 0), s)
  }

  /** The buffer after the blanking loop of `clear` has blanked cells 0 .. i-1. */
  function AfterBlanks(b: Buffer, i: nat): Buffer
    requires i <= 3
  {
    if i == 0 then b else AfterPut(AfterBlanks(b, i - 1), ' ', i - 1)
  }

  /** The buffer after `clear()`. */
  function AfterClear(b: Buffer): Buffer
  {
    AfterBlanks(AfterPut(b, ';', 0), 3)
  }

  class SevenSegmentDisplay {
    const seg7x4: Seg7x4

    ghost predicate Valid()
      reads this, seg7x4
    {
      seg7x4.Valid()
    }

    /** The device shows exactly the buffer: no change since the last `show()`. */
    ghost predicate Shown()
      reads this, seg7x4, seg7x4.buffer
    {
      seg7x4.shown == seg7x4.buffer[..]
    }

    /** A blank display at brightness 1. The I2C bus set-up is not modelled. */
    constructor ()
      ensures Valid() && fresh(seg7x4) && fresh(seg7x4.buffer)
      ensures seg7x4.buffer[..] == seq(16, _ => 0)
      ensures seg7x4.shown == seg7x4.buffer[..]
      ensures seg7x4.brightness == 1 && seg7x4.blinkRate == 0
    {
      seg7x4 := new Seg7x4();
      new;
      var _ := seg7x4.Brightness(Some(1));
      Clear();
      ghost var zero: Buffer := seq(16, _ => 0);
      assert AfterPut(zero, ';', 0) == zero;
      assert AfterBlanks(zero, 1) == zero;
      assert AfterBlanks(zero, 2) == zero;
      assert AfterBlanks(zero, 3) == zero;
    }

    /** `text(s)`: colon off, then `s` pushed through the cells. */
    method Text(s: string)
      requires Valid()
      modifies seg7x4`shown, seg7x4.buffer
      ensures Valid()
      ensures seg7x4.buffer[..] == AfterShowText(old(seg7x4.buffer[..]), s)
      ensures seg7x4.shown == seg7x4.buffer[..]
    {
      seg7x4.Put(';', 0);
      seg7x4.Text(s);
      seg7x4.Show();
    }

    /** `time(now, sync_error)`: blinking colon, HHMM, the error dot and the breathing dots. */
    method Time(now: CalendarTime, syncError: bool)
      requires Valid()
      modifies seg7x4`shown, seg7x4.buffer
      ensures Valid()
      ensures seg7x4.buffer[..] == AfterTime(old(seg7x4.buffer[..]), now, syncError)
      ensures seg7x4.shown == seg7x4.buffer[..]
    {
      seg7x4.Put(ColonChar(now.second), 0);
      seg7x4.Text(TimeText(now));
      if syncError {
        seg7x4.Put('.', 3);
      }
      BreathingDots(now.second);
      seg7x4.Show();
    }

    /** The dot loop of `time(now, sync_error)`, on the buffer the digits left. */
    method BreathingDots(second: nat)
      requires Valid()
      modifies seg7x4.buffer
      ensures Valid()
      ensures seg7x4.buffer[..] == AfterDots(old(seg7x4.buffer[..]), second, 4)
    {
      ghost var b := seg7x4.buffer[..];
      var n := second + 4;
      for i := 0 to 4
        invariant Valid()
        invariant seg7x4.buffer[..] == AfterDots(b, second, i)
      {
        // `n & (0b0100 << (3 - i))` tests bit 5 - i of n
        if BitSet(n, 5 - i) {
          seg7x4.Put('.', i);
        }
      }
    }

    /** `date(now)`: MM.DD, the dot attached to the second month digit. */
    method Date(now: CalendarTime)
      requires Valid()
      modifies seg7x4`shown, seg7x4.buffer
      ensures Valid()
      ensures seg7x4.buffer[..] == AfterShowText(old(seg7x4.buffer[..]), DateText(now))
      ensures seg7x4.shown == seg7x4.buffer[..]
    {
      Text(DateText(now));
    }

    /** `year(now)`: the year, zero-padded to four digits. */
    method Year(now: CalendarTime)
      requires Valid()
      modifies seg7x4`shown, seg7x4.buffer
      ensures Valid()
      ensures seg7x4.buffer[..] == AfterShowText(old(seg7x4.buffer[..]), YearText(now))
      ensures seg7x4.shown == seg7x4.buffer[..]
    {
      Text(YearText(now));
    }

    /** `progress_bar(count)`: count % 5 dashes. */
    method ProgressBar(count: nat)
      requires Valid()
      modifies seg7x4`shown, seg7x4.buffer
      ensures Valid()
      ensures seg7x4.buffer[..] == AfterShowText(old(seg7x4.buffer[..]), ProgressText(count))
      ensures seg7x4.shown == seg7x4.buffer[..]
    {
      var bar := "----    "[4 - count % 5..];
      Text(bar[..4]);
    }

    /** `clear()`: colon off and cells 0..2 blanked; cell 3 is left as it is. */
    method Clear()
      requires Valid()
      modifies seg7x4`shown, seg7x4.buffer
      ensures Valid()
      ensures seg7x4.buffer[..] == AfterClear(old(seg7x4.buffer[..]))
      ensures seg7x4.shown == seg7x4.buffer[..]
    {
      seg7x4.Put(';', 0);
      ghost var b1 := seg7x4.buffer[..];
      for i := 0 to 3
        invariant seg7x4.buffer[..] == AfterBlanks(b1, i)
      {
        seg7x4.Put(' ', i);
      }
      seg7x4.Show();
    }
  }
}
