/**
 * What each SevenSegmentDisplay renderer leaves in the four cells and the
 * colon, whatever the buffer held before.
 */
module ClockFaces {
  import opened HT16K33
  import opened Seg7x4Properties
  import opened ClockTime
  import opened SevenSegment

  /** The segment pattern of decimal digit d. */
  function DigitGlyph(d: nat): bv8
    requires d < 10
  {
    DigitInNumbers(d);
    Numbers(DigitChar(d)).value
  }

  lemma DigitInNumbers(d: nat)
    requires d < 10
    ensures Numbers(DigitChar(d)).Some?
  {
    var c := DigitChar(d);
    if d < 5 {
      assert c == '0' || c == '1' || c == '2' || c == '3' || c == '4';
    } else {
      assert c == '5' || c == '6' || c == '7' || c == '8' || c == '9';
    }
  }

  lemma DigitIsPlainGlyph(d: nat)
    requires d < 10
    ensures IsPlain(DigitChar(d))
    ensures GlyphOrBlank(DigitChar(d)) == DigitGlyph(d)
    ensures DigitGlyph(d) & DOT == 0
  {
    GlyphsHaveNoDot(DigitChar(d));
  }

  /** The glyphs of the zero-padded hour and minute. */
  function TimeGlyphs(now: CalendarTime): seq<bv8>
    requires now.hour < 100 && now.minute < 100
  {
    [DigitGlyph(now.hour / 10), DigitGlyph(now.hour % 10), DigitGlyph(now.minute / 10), DigitGlyph(now.minute % 10)]
  }

  /** Pushing HHMM fills the four cells with the hour and minute digits. */
  lemma TimeDigitsFillCells(b: Buffer, now: CalendarTime)
    requires now.hour < 100 && now.minute < 100
    ensures AfterText(b, TimeText(now)) == WithCells(b, TimeGlyphs(now))
  {
    var t := TimeText(now);
    TwoDigits(now.hour);
    TwoDigits(now.minute);
    var ds := [now.hour / 10, now.hour % 10, now.minute / 10, now.minute % 10];
    assert t == [DigitChar(ds[0]), DigitChar(ds[1]), DigitChar(ds[2]), DigitChar(ds[3])];
    var g := TimeGlyphs(now);
    forall k | 0 <= k < 4
      ensures IsPlain(t[k]) && GlyphOrBlank(t[k]) == g[k]
    {
      DigitIsPlainGlyph(ds[k]);
    }
    TextOfPlainGlyphs(b, t, g);
    assert LastFour(Cells(b) + g) == g;
  }

  /** Whether cell i of the time face has its dot lit: its breathing bit, or the sync-error dot on cell 3. */
  predicate TimeDot(now: CalendarTime, syncError: bool, i: nat)
    requires i < 4
  {
    BreathingDot(now.second, i) || (i == 3 && syncError)
  }

  /** The cells after the dot loop of `time` has looked at cells 0 .. i-1. */
  function DotCells(cs: seq<bv8>, second: nat, i: nat): (ds: seq<bv8>)
    requires |cs| == 4
    ensures |ds| == 4
  {
    [DotIf(cs[0], 0 < i && BreathingDot(second, 0)), DotIf(cs[1], 1 < i && BreathingDot(second, 1)),
     DotIf(cs[2], 2 < i && BreathingDot(second, 2)), DotIf(cs[3], 3 < i && BreathingDot(second, 3))]
  }

  /** x with its dot lit when on. */
  function DotIf(x: bv8, on: bool): bv8
  {
    if on then x | DOT else x
  }

  /** The dot loop of `time` sets the dot of exactly the cells whose breathing bit is set, below i. */
  lemma {:induction false} DotsSetBreathingBits(b: Buffer, second: nat, i: nat)
    requires i <= 4
    ensures AfterDots(b, second, i) == WithCells(b, DotCells(Cells(b), second, i))
  {
    if i == 0 {
      WithOwnCells(b);
      assert DotCells(Cells(b), second, 0) == Cells(b);
    } else {
      DotsSetBreathingBits(b, second, i - 1);
      var d := DotCells(Cells(b), second, i - 1);
      var on := BreathingDot(second, i - 1);
      DotStep(b, d, on, i - 1);
      DotCellsStep(Cells(b), second, i);
    }
  }

  /** One turn of the dot loop, seen cell-wise. */
  lemma DotStep(b: Buffer, cs: seq<bv8>, on: bool, j: nat)
    requires |cs| == 4 && j < 4
    ensures var r := WithCells(b, cs);
      (if on then AfterPut(r, '.', j) else r) == WithCells(b, cs[j := DotIf(cs[j], on)])
  {
    var r := WithCells(b, cs);
    CellsOfWithCells(b, cs, cs);
    if on {
      PutDotCell(r, j);
      CellsOfWithCells(b, cs, cs[j := cs[j] | DOT]);
    } else {
      assert cs[j := cs[j]] == cs;
    }
  }

  lemma DotCellsStep(cs: seq<bv8>, second: nat, i: nat)
    requires |cs| == 4 && 0 < i <= 4
    ensures var d := DotCells(cs, second, i - 1);
      d[i - 1 := DotIf(d[i - 1], BreathingDot(second, i - 1))] == DotCells(cs, second, i)
  {
  }

  /** The colon byte of the time face. */
  function ColonByte(second: nat): bv8
  {
    if second % 2 == 0 then COLON_ON else COLON_OFF
  }

  /** The four cells of the time face: hour and minute digits with their dots. */
  function TimeCells(now: CalendarTime, syncError: bool): (cs: seq<bv8>)
    requires now.hour < 100 && now.minute < 100
    ensures |cs| == 4
  {
    WithTimeDots(TimeGlyphs(now), now, syncError)
  }

  /** Glyphs g with the dots of the time face added. */
  function WithTimeDots(g: seq<bv8>, now: CalendarTime, syncError: bool): (cs: seq<bv8>)
    requires |g| == 4
    ensures |cs| == 4
  {
    [DotIf(g[0], TimeDot(now, syncError, 0)), DotIf(g[1], TimeDot(now, syncError, 1)),
     DotIf(g[2], TimeDot(now, syncError, 2)), DotIf(g[3], TimeDot(now, syncError, 3))]
  }

  /**
   * The time face: the colon is on exactly on even seconds, the cells show the
   * zero-padded hour and minute, and cell i carries a dot exactly when bit
   * 5 - i of `second + 4` is set, or it is cell 3 and the last sync failed.
   * Nothing else in the buffer changes.
   */
  lemma TimeFace(b: Buffer, now: CalendarTime, syncError: bool)
    requires now.hour < 100 && now.minute < 100
    ensures AfterTime(b, now, syncError) == WithCells(b[COLON := ColonByte(now.second)], TimeCells(now, syncError))
  {
    var b1 := AfterPut(b, ColonChar(now.second), 0);
    PutColonSetsIndicator(b, 0);
    assert b1 == b[COLON := ColonByte(now.second)];
    TimeFaceCells(b1, now, syncError);
  }

  /** The digits, error dot and breathing dots of the time face, drawn over any buffer. */
  lemma TimeFaceCells(b1: Buffer, now: CalendarTime, syncError: bool)
    requires now.hour < 100 && now.minute < 100
    ensures var b2 := AfterText(b1, TimeText(now));
      AfterDots(if syncError then AfterPut(b2, '.', 3) else b2, now.second, 4) == WithCells(b1, TimeCells(now, syncError))
  {
    var g := TimeGlyphs(now);
    TimeDigitsFillCells(b1, now);
    var b2 := AfterText(b1, TimeText(now));
    assert b2 == WithCells(b1, g);
    var e := if syncError then g[3 := g[3] | DOT] else g;
    var b3 := WithCells(b1, e);
    ErrorDot(b1, g, syncError);
    assert (if syncError then AfterPut(b2, '.', 3) else b2) == b3;
    DotsSetBreathingBits(b3, now.second, 4);
    var d := DotCells(e, now.second, 4);
    CellsOfWithCells(b1, e, d);
    assert AfterDots(b3, now.second, 4) == WithCells(b1, d);
    TimeCellsCombineDots(g, now, syncError);
    assert d == TimeCells(now, syncError);
  }

  /** The error dot of the time face lands on cell 3 of whatever the digits left. */
  lemma ErrorDot(b1: Buffer, g: seq<bv8>, syncError: bool)
    requires |g| == 4
    ensures var b2 := WithCells(b1, g);
      (if syncError then AfterPut(b2, '.', 3) else b2) == WithCells(b1, if syncError then g[3 := g[3] | DOT] else g)
  {
    var b2 := WithCells(b1, g);
    CellsOfWithCells(b1, g, g);
    if syncError {
      PutDotCell(b2, 3);
      CellsOfWithCells(b1, g, g[3 := g[3] | DOT]);
    }
  }

  lemma TimeCellsCombineDots(g: seq<bv8>, now: CalendarTime, syncError: bool)
    requires |g| == 4
    ensures var e := if syncError then g[3 := g[3] | DOT] else g;
      DotCells(e, now.second, 4) == WithTimeDots(g, now, syncError)
  {
    OrDotTwice(g[3], BreathingDot(now.second, 3), syncError);
  }

  /** Lighting the dot of x first when second holds, then when first holds. */
  lemma OrDotTwice(x: bv8, first: bool, second: bool)
    ensures DotIf(DotIf(x, second), first) == DotIf(x, first || second)
  {
  }

  /** The four cells of the date face: MM.DD, the dot on the second month digit. */
  function DateCells(now: CalendarTime): (cs: seq<bv8>)
    requires now.month < 100 && now.day < 100
    ensures |cs| == 4
  {
    [DigitGlyph(now.month / 10), DigitGlyph(now.month % 10) | DOT,
     DigitGlyph(now.day / 10), DigitGlyph(now.day % 10)]
  }

  /** The glyphs of a two-digit number. */
  function TwoGlyphs(n: nat): (gs: seq<bv8>)
    requires n < 100
    ensures |gs| == 2
  {
    [DigitGlyph(n / 10), DigitGlyph(n % 10)]
  }

  /** The date face: colon off, the cells show MM.DD; nothing else in the buffer changes. */
  lemma DateFace(b: Buffer, now: CalendarTime)
    requires now.month < 100 && now.day < 100
    ensures AfterShowText(b, DateText(now)) == WithCells(b[COLON := COLON_OFF], DateCells(now))
  {
    var b0 := AfterPut(b, ';', 0);
    PutColonSetsIndicator(b, 0);
    DateFaceCells(b0, now);
  }

  lemma DateFaceCells(b0: Buffer, now: CalendarTime)
    requires now.month < 100 && now.day < 100
    ensures AfterText(b0, DateText(now)) == WithCells(b0, DateCells(now))
  {
    var mm, dd := ZeroPad(now.month, 2), ZeroPad(now.day, 2);
    assert DateText(now) == mm + "." + dd;
    // "MM" scrolls the month in; "." attaches to its last digit; "DD" scrolls the day in.
    TextConcat(b0, mm + ".", dd);
    TextConcat(b0, mm, ".");
    var gm, gd := TwoGlyphs(now.month), TwoGlyphs(now.day);
    TwoDigitsFill(b0, now.month, Cells(b0));
    WithOwnCells(b0);
    var c1 := [Cells(b0)[2], Cells(b0)[3], gm[0], gm[1]];
    DigitIsPlainGlyph(now.month % 10);
    AttachDot(b0, c1);
    var c2 := c1[3 := c1[3] | DOT];
    TwoDigitsFill(b0, now.day, c2);
    assert [c2[2], c2[3], gd[0], gd[1]] == DateCells(now);
  }

  /** Pushing the two zero-padded digits of n over cells cs scrolls them in from the right. */
  lemma TwoDigitsFill(b0: Buffer, n: nat, cs: seq<bv8>)
    requires n < 100 && |cs| == 4
    ensures var g := TwoGlyphs(n);
      AfterText(WithCells(b0, cs), ZeroPad(n, 2)) == WithCells(b0, [cs[2], cs[3], g[0], g[1]])
  {
    var t, g := ZeroPad(n, 2), TwoGlyphs(n);
    TwoDigits(n);
    var ds := [n / 10, n % 10];
    assert t == [DigitChar(ds[0]), DigitChar(ds[1])];
    forall k | 0 <= k < 2
      ensures IsPlain(t[k]) && GlyphOrBlank(t[k]) == g[k]
    {
      DigitIsPlainGlyph(ds[k]);
    }
    var b1 := WithCells(b0, cs);
    TextOfPlainGlyphs(b1, t, g);
    CellsOfWithCells(b0, cs, LastFour(cs + g));
    assert LastFour(cs + g) == [cs[2], cs[3], g[0], g[1]];
  }

  /** A '.' pushed after a cell without a dot lights that cell's dot. */
  lemma AttachDot(b0: Buffer, cs: seq<bv8>)
    requires |cs| == 4 && cs[3] & DOT == 0
    ensures AfterText(WithCells(b0, cs), ".") == WithCells(b0, cs[3 := cs[3] | DOT])
  {
    var b1 := WithCells(b0, cs);
    TextSnoc(b1, "", '.');
    assert "" + ['.'] == ".";
    CellsOfWithCells(b0, cs, cs);
    PushDotAttachesOrScrolls(b1);
    PutDotCellOf(b0, cs);
  }

  lemma PutDotCellOf(b0: Buffer, cs: seq<bv8>)
    requires |cs| == 4
    ensures var b1 := WithCells(b0, cs);
      b1[P[3] := b1[P[3]] | DOT] == WithCells(b0, cs[3 := cs[3] | DOT])
  {
  }

  /** The year face: the last four digits of the year, no dots, colon off. */
  lemma YearFace(b: Buffer, now: CalendarTime)
    ensures var r := AfterShowText(b, YearText(now));
      r[COLON] == COLON_OFF &&
      Cells(r) == Glyphs(LowDigits(now.year, 4)) &&
      (forall i :: 0 <= i < 4 ==> Cells(r)[i] & DOT == 0) &&
      SameUnusedBytes(b, r)
  {
    var b0 := AfterPut(b, ';', 0);
    PutColonSetsIndicator(b, 0);
    var y := YearText(now);
    ZeroPadEndsWithLowDigits(now.year, 4);
    forall k | 0 <= k < |y|
      ensures IsPlain(y[k])
    {
      ZeroPadIsDigits(now.year, 4, k);
    }
    TextShowsLastFour(b0, y);
  }

  /** `'{:0>wd}'.format(n)` consists of decimal digits only. */
  lemma ZeroPadIsDigits(n: nat, w: nat, k: nat)
    requires k < |ZeroPad(n, w)|
    ensures '0' <= ZeroPad(n, w)[k] <= '9'
  {
    var d := DecimalString(n);
    if |d| < w && k < w - |d| {
    } else {
      DecimalStringIsDigits(n, k - (|ZeroPad(n, w)| - |d|));
    }
  }

  lemma {:induction false} DecimalStringIsDigits(n: nat, k: nat)
    requires k < |DecimalString(n)|
    ensures '0' <= DecimalString(n)[k] <= '9'
    decreases n
  {
    if n >= 10 && k < |DecimalString(n / 10)| {
      DecimalStringIsDigits(n / 10, k);
    }
  }

  /** The cells of the progress bar: count % 5 dashes from the left, then blanks. */
  function ProgressCells(count: nat): (cs: seq<bv8>)
    ensures |cs| == 4
  {
    seq(4, i => if i < count % 5 then DASH else 0x00)
  }

  /** The progress bar: colon off, the cells show the bar; nothing else in the buffer changes. */
  lemma ProgressFace(b: Buffer, count: nat)
    ensures AfterShowText(b, ProgressText(count)) == WithCells(b[COLON := COLON_OFF], ProgressCells(count))
  {
    var b0 := AfterPut(b, ';', 0);
    PutColonSetsIndicator(b, 0);
    ProgressFaceCells(b0, count);
  }

  lemma ProgressFaceCells(b0: Buffer, count: nat)
    ensures AfterText(b0, ProgressText(count)) == WithCells(b0, ProgressCells(count))
  {
    var t, g := ProgressText(count), ProgressCells(count);
    DashAndBlankGlyphs();
    forall k | 0 <= k < 4
      ensures IsPlain(t[k]) && GlyphOrBlank(t[k]) == g[k]
    {
    }
    TextOfPlainGlyphs(b0, t, g);
    assert LastFour(Cells(b0) + g) == g;
  }

  lemma DashAndBlankGlyphs()
    ensures IsPlain('-') && GlyphOrBlank('-') == DASH
    ensures IsPlain(' ') && GlyphOrBlank(' ') == 0x00
  {
    assert Lower('-') == '-' && Lower(' ') == ' ';
  }

  /** The cells `clear` leaves: cells 0 .. i-1 blanked, the others as they were. */
  function BlankedCells(cs: seq<bv8>, i: nat): (ds: seq<bv8>)
    requires |cs| == 4
    ensures |ds| == 4
  {
    seq(4, j requires 0 <= j < 4 => if j < i then 0x00 else cs[j])
  }

  /** The blanking loop of `clear` blanks exactly the cells below i. */
  lemma {:induction false} BlanksClearCells(b: Buffer, i: nat)
    requires i <= 3
    ensures AfterBlanks(b, i) == WithCells(b, BlankedCells(Cells(b), i))
  {
    if i == 0 {
      WithOwnCells(b);
      assert BlankedCells(Cells(b), 0) == Cells(b);
    } else {
      BlanksClearCells(b, i - 1);
      var d := BlankedCells(Cells(b), i - 1);
      var r1 := WithCells(b, d);
      CellsOfWithCells(b, d, d);
      DashAndBlankGlyphs();
      PutGlyphCell(r1, ' ', i - 1);
      CellsOfWithCells(b, d, d[i - 1 := 0x00]);
      assert d[i - 1 := 0x00] == BlankedCells(Cells(b), i);
    }
  }

  /** `clear` blanks cells 0..2 and turns the colon off; cell 3 keeps whatever it held. */
  lemma ClearFace(b: Buffer)
    ensures AfterClear(b) == WithCells(b[COLON := COLON_OFF], [0x00, 0x00, 0x00, Cells(b)[3]])
  {
    var b0 := AfterPut(b, ';', 0);
    PutColonSetsIndicator(b, 0);
    BlanksClearCells(b0, 3);
    assert Cells(b0) == Cells(b);
    assert BlankedCells(Cells(b0), 3) == [0x00, 0x00, 0x00, Cells(b)[3]];
  }

  /** `text(s)` of four plain characters: colon off, the cells show exactly their glyphs. */
  lemma FourLetterFace(b: Buffer, s: string)
    requires |s| == 4 && forall k :: 0 <= k < 4 ==> IsPlain(s[k])
    ensures AfterShowText(b, s) ==
      WithCells(b[COLON := COLON_OFF], [GlyphOrBlank(s[0]), GlyphOrBlank(s[1]), GlyphOrBlank(s[2]), GlyphOrBlank(s[3])])
  {
    var b0 := AfterPut(b, ';', 0);
    PutColonSetsIndicator(b, 0);
    TextOfPlain(b0, s);
    assert LastFour(Cells(b0) + Glyphs(s)) == Glyphs(s);
  }

  /** The message of a sync that set the clock. */
  lemma SyncedFace(b: Buffer)
    ensures AfterShowText(b, "sync") == WithCells(b[COLON := COLON_OFF], [0x6D, 0x6E, 0x54, 0x39])
  {
    FourLetterFace(b, "sync");
  }

  /** The message of a sync that timed out. */
  lemma TimedOutFace(b: Buffer)
    ensures AfterShowText(b, "err ") == WithCells(b[COLON := COLON_OFF], [0x79, 0x50, 0x50, 0x00])
  {
    FourLetterFace(b, "err ");
  }
}
