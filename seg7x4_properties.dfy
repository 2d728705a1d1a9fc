/**
 * What the Seg7x4 buffer operations promise, stated over the functions
 * AfterPut, AfterScroll, AfterPush and AfterText that the class methods
 * are proved against.
 */
module Seg7x4Properties {
  import opened HT16K33

  /** No glyph in the table has its decimal-point bit set. */
  lemma GlyphsHaveNoDot(c: char)
    ensures Numbers(c).Some? ==> Numbers(c).value & DOT == 0
    ensures GlyphOrBlank(c) & DOT == 0
  {
    GlyphsBelowDot(c);
    GlyphsBelowDot(Lower(c));
    if Numbers(c).Some? {
      BelowDotHasNoDot(Numbers(c).value);
    }
    if Numbers(Lower(c)).Some? {
      BelowDotHasNoDot(Numbers(Lower(c)).value);
    }
  }

  lemma GlyphsBelowDot(c: char)
    ensures Numbers(c).Some? ==> Numbers(c).value < DOT
  {
  }

  lemma BelowDotHasNoDot(x: bv8)
    requires x < DOT
    ensures x & DOT == 0
  {
  }

  /** `put` with an index outside 0..3 does nothing. */
  lemma PutOutsideCellsIsNoOp(b: Buffer, c: char, index: int)
    requires !(0 <= index <= 3)
    ensures AfterPut(b, c, index) == b
  {
  }

  /** `put` ignores the case of its character. */
  lemma PutIgnoresCase(b: Buffer, c: char, index: int)
    ensures AfterPut(b, c, index) == AfterPut(b, Lower(c), index)
  {
    assert Lower(Lower(c)) == Lower(c);
  }

  /** `put` of a known character overwrites the whole cell, clearing its decimal point, and nothing else. */
  lemma PutGlyphOverwritesCell(b: Buffer, c: char, index: int)
    requires 0 <= index <= 3 && Numbers(Lower(c)).Some?
    ensures AfterPut(b, c, index) == b[P[index] := Numbers(Lower(c)).value]
    ensures Cells(AfterPut(b, c, index))[index] & DOT == 0
  {
    GlyphsHaveNoDot(Lower(c));
  }

  /** `put` of a character that is neither in the table nor `.`, `:` or `;` does nothing. */
  lemma PutUnknownIsNoOp(b: Buffer, c: char, index: int)
    requires Numbers(Lower(c)).None? && IsPlain(Lower(c))
    ensures AfterPut(b, c, index) == b
  {
  }

  /** `put('.', i)` sets the decimal point of cell i and keeps its segments. */
  lemma PutDotKeepsSegments(b: Buffer, index: int)
    requires 0 <= index <= 3
    ensures var r := AfterPut(b, '.', index);
      r == b[P[index] := r[P[index]]] &&
      r[P[index]] & DOT == DOT &&
      r[P[index]] & 0x7F == b[P[index]] & 0x7F
  {
  }

  /** Setting a decimal point twice is the same as setting it once. */
  lemma PutDotIdempotent(b: Buffer, index: int)
    ensures AfterPut(AfterPut(b, '.', index), '.', index) == AfterPut(b, '.', index)
  {
  }

  /** `put(':')` turns the colon on and `put(';')` turns it off, for any cell index, touching nothing else. */
  lemma PutColonSetsIndicator(b: Buffer, index: int)
    requires 0 <= index <= 3
    ensures AfterPut(b, ':', index) == b[COLON := COLON_ON]
    ensures AfterPut(b, ';', index) == b[COLON := COLON_OFF]
  {
  }

  /** `scroll` moves cells 1..3 one place left, dots included, and blanks cell 3. */
  lemma ScrollShiftsCells(b: Buffer)
    ensures AfterScroll(b) == WithCells(b, Cells(b)[1..] + [0x00])
  {
  }

  /** `push('.')` attaches the dot to cell 3 unless cell 3 already has one; then it scrolls a lone dot in. */
  lemma PushDotAttachesOrScrolls(b: Buffer)
    ensures b[P[3]] & DOT == 0 ==> AfterPush(b, '.') == b[P[3] := b[P[3]] | DOT]
    ensures b[P[3]] & DOT != 0 ==> AfterPush(b, '.') == WithCells(b, Cells(b)[1..] + [DOT])
  {
  }

  /** `push` of a plain character scrolls, then shows that character (blank if unknown) in cell 3. */
  lemma PushPlainScrolls(b: Buffer, c: char)
    requires IsPlain(c)
    ensures AfterPush(b, c) == WithCells(b, Cells(b)[1..] + [GlyphOrBlank(c)])
  {
    var s := AfterScroll(b);
    ScrollShiftsCells(b);
    if Numbers(Lower(c)).Some? {
      PutGlyphOverwritesCell(s, c, 3);
    } else {
      assert IsPlain(Lower(c));
      PutUnknownIsNoOp(s, c, 3);
    }
  }

  /** `push` of `:` or `;` only drives the colon. */
  lemma PushColonDrivesIndicator(b: Buffer, c: char)
    requires c == ':' || c == ';'
    ensures AfterPush(b, c) == b[COLON := if c == ':' then COLON_ON else COLON_OFF]
  {
  }

  /** No Seg7x4 operation touches a byte outside the cells and the colon. */
  lemma PutKeepsUnusedBytes(b: Buffer, c: char, index: int)
    ensures SameUnusedBytes(b, AfterPut(b, c, index))
  {
  }

  lemma ScrollKeepsUnusedBytes(b: Buffer)
    ensures SameUnusedBytes(b, AfterScroll(b))
  {
  }

  lemma PushKeepsUnusedBytes(b: Buffer, c: char)
    ensures SameUnusedBytes(b, AfterPush(b, c))
  {
  }

  lemma {:induction false} TextKeepsUnusedBytes(b: Buffer, s: string)
    ensures SameUnusedBytes(b, AfterText(b, s))
    decreases |s|
  {
    if s != [] {
      var init := s[..|s| - 1];
      TextKeepsUnusedBytes(b, init);
      PushKeepsUnusedBytes(AfterText(b, init), s[|s| - 1]);
    }
  }

  /** Pushing a string piecewise is pushing it whole. */
  lemma {:induction false} TextConcat(b: Buffer, s: string, t: string)
    ensures AfterText(b, s + t) == AfterText(AfterText(b, s), t)
    decreases |t|
  {
    if t == [] {
      assert s + t == s;
    } else {
      var init := t[..|t| - 1];
      TextConcat(b, s, init);
      assert (s + t)[..|s + t| - 1] == s + init;
      assert (s + t)[|s + t| - 1] == t[|t| - 1];
    }
  }

  lemma CellsOfWithCells(b: Buffer, cs: seq<bv8>, ds: seq<bv8>)
    requires |cs| == 4 && |ds| == 4
    ensures Cells(WithCells(b, cs)) == cs
    ensures WithCells(WithCells(b, cs), ds) == WithCells(b, ds)
  {
  }

  lemma WithCellsKeepsOthers(b: Buffer, cs: seq<bv8>)
    requires |cs| == 4
    ensures WithCells(b, cs)[COLON] == b[COLON]
    ensures SameUnusedBytes(b, WithCells(b, cs))
  {
  }

  lemma WithOwnCells(b: Buffer)
    ensures WithCells(b, Cells(b)) == b
  {
  }

  /** `put('.', i)` seen cell-wise: only cell i changes, gaining its dot. */
  lemma PutDotCell(b: Buffer, index: int)
    requires 0 <= index <= 3
    ensures AfterPut(b, '.', index) == WithCells(b, Cells(b)[index := Cells(b)[index] | DOT])
  {
  }

  /** `put(c, i)` of a character with a glyph, seen cell-wise: only cell i changes, to that glyph. */
  lemma PutGlyphCell(b: Buffer, c: char, index: int)
    requires 0 <= index <= 3 && Numbers(Lower(c)).Some?
    ensures AfterPut(b, c, index) == WithCells(b, Cells(b)[index := Numbers(Lower(c)).value])
  {
    PutGlyphOverwritesCell(b, c, index);
  }

  lemma LastFourSnoc(xs: seq<bv8>, x: bv8)
    requires |xs| >= 4
    ensures LastFour(xs + [x]) == LastFour(xs)[1..] + [x]
  {
  }

  lemma TextSnoc(b: Buffer, init: string, c: char)
    ensures AfterText(b, init + [c]) == AfterPush(AfterText(b, init), c)
  {
    assert (init + [c])[..|init|] == init;
  }

  lemma GlyphsSnoc(init: string, c: char)
    ensures Glyphs(init + [c]) == Glyphs(init) + [GlyphOrBlank(c)]
  {
  }

  /**
   * A string of plain characters scrolls through the four cells: afterwards
   * the cells hold the last four of the old cells followed by the string's glyphs.
   */
  lemma {:induction false} TextOfPlain(b: Buffer, s: string)
    requires forall k :: 0 <= k < |s| ==> IsPlain(s[k])
    ensures AfterText(b, s) == WithCells(b, LastFour(Cells(b) + Glyphs(s)))
    decreases |s|
  {
    if s == [] {
      assert Cells(b) + Glyphs(s) == Cells(b);
    } else {
      TextOfPlain(b, s[..|s| - 1]);
      TextOfPlainSnoc(b, s);
    }
  }

  /** The step of TextOfPlain: one more plain character at the end of the string. */
  lemma TextOfPlainSnoc(b: Buffer, s: string)
    requires |s| > 0 && IsPlain(s[|s| - 1])
    requires AfterText(b, s[..|s| - 1]) == WithCells(b, LastFour(Cells(b) + Glyphs(s[..|s| - 1])))
    ensures AfterText(b, s) == WithCells(b, LastFour(Cells(b) + Glyphs(s)))
  {
    var init, c := s[..|s| - 1], s[|s| - 1];
    var xs := Cells(b) + Glyphs(init);
    PushPlainStep(b, init, c, LastFour(xs));
    InitPlusLast(s);
    LastFourGlyphsSnoc(Cells(b), s);
  }

  /** The cells after one more glyph: the previous last four shifted left, then the new glyph. */
  lemma LastFourGlyphsSnoc(cs: seq<bv8>, s: string)
    requires |cs| == 4 && |s| > 0
    ensures LastFour(cs + Glyphs(s)) == LastFour(cs + Glyphs(s[..|s| - 1]))[1..] + [GlyphOrBlank(s[|s| - 1])]
  {
    var init, c := s[..|s| - 1], s[|s| - 1];
    var xs := cs + Glyphs(init);
    InitPlusLast(s);
    GlyphsSnoc(init, c);
    LastFourSnoc(xs, GlyphOrBlank(c));
    assert cs + Glyphs(s) == xs + [GlyphOrBlank(c)];
  }

  lemma InitPlusLast(s: string)
    requires |s| > 0
    ensures s == s[..|s| - 1] + [s[|s| - 1]]
  {
  }

  /** Pushing one more plain character after a text that left cells cs. */
  lemma PushPlainStep(b: Buffer, init: string, c: char, cs: seq<bv8>)
    requires |cs| == 4 && IsPlain(c)
    requires AfterText(b, init) == WithCells(b, cs)
    ensures AfterText(b, init + [c]) == WithCells(b, cs[1..] + [GlyphOrBlank(c)])
  {
    PushPlainScrolls(WithCells(b, cs), c);
    CellsOfWithCells(b, cs, cs[1..] + [GlyphOrBlank(c)]);
    TextSnoc(b, init, c);
  }

  /** TextOfPlain, with the glyphs of the string given by the caller. */
  lemma TextOfPlainGlyphs(b: Buffer, s: string, gs: seq<bv8>)
    requires |gs| == |s|
    requires forall k :: 0 <= k < |s| ==> IsPlain(s[k]) && GlyphOrBlank(s[k]) == gs[k]
    ensures AfterText(b, s) == WithCells(b, LastFour(Cells(b) + gs))
  {
    TextOfPlain(b, s);
    assert Glyphs(s) == gs;
  }

  /**
   * `text(s)` with at least four characters, none of them `.`, `:` or `;`,
   * shows exactly the glyphs of its last four characters, without dots,
   * and leaves the colon and the unused bytes as they were.
   */
  lemma TextShowsLastFour(b: Buffer, s: string)
    requires |s| >= 4
    requires forall k :: 0 <= k < |s| ==> IsPlain(s[k])
    ensures Cells(AfterText(b, s)) == Glyphs(s[|s| - 4..])
    ensures forall i :: 0 <= i < 4 ==> Cells(AfterText(b, s))[i] & DOT == 0
    ensures AfterText(b, s)[COLON] == b[COLON]
    ensures SameUnusedBytes(b, AfterText(b, s))
  {
    var r := AfterText(b, s);
    var g := Glyphs(s[|s| - 4..]);
    TextOfPlain(b, s);
    LastFourGlyphs(Cells(b), s);
    assert r == WithCells(b, g);
    CellsOfWithCells(b, g, g);
    WithCellsKeepsOthers(b, g);
    GlyphsHaveNoDots(s[|s| - 4..]);
  }

  lemma LastFourGlyphs(cs: seq<bv8>, s: string)
    requires |s| >= 4
    ensures LastFour(cs + Glyphs(s)) == Glyphs(s[|s| - 4..])
  {
  }

  /** No cell filled from a string carries a dot. */
  lemma GlyphsHaveNoDots(s: string)
    ensures forall i :: 0 <= i < |s| ==> Glyphs(s)[i] & DOT == 0
  {
    forall i | 0 <= i < |s|
      ensures Glyphs(s)[i] & DOT == 0
    {
      GlyphsHaveNoDot(s[i]);
    }
  }
}
