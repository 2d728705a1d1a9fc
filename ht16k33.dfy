/**
 * The HT16K33 LED driver and its 4-digit seven-segment subclass Seg7x4
 * (HT16K33.py). The driver keeps a 16-byte display RAM image in `buffer`;
 * Seg7x4 uses four character cells at byte offsets 0, 2, 6 and 8 and the
 * colon indicator at offset 4. Bit 7 of a character cell is its decimal point.
 *
 * The bus traffic (`_write_cmd`, `show`) is not modelled: commands are
 * appended to a ghost log and `Show` takes a ghost snapshot of the buffer.
 */
module HT16K33 {
  import opened Wrappers

  const BLINK_CMD: bv8 := 0x80
  const BLINK_DISPLAYON: bv8 := 0x01
  const CMD_BRIGHTNESS: bv8 := 0xE0
  const OSCILATOR_ON: bv8 := 0x21

  /** Byte offsets of the four character cells. */
  const P: seq<nat> := [0, 2, 6, 8]
  /** Byte offset of the colon indicator. */
  const COLON: nat := 4
  /** The decimal-point bit of a character cell. */
  const DOT: bv8 := 0x80
  const COLON_ON: bv8 := 0x02
  const COLON_OFF: bv8 := 0x00

  /**
   * `NUMBERS`: the segment pattern of each character the display can show,
   * None for any other character (`c in NUMBERS` is `Numbers(c).Some?`).
   */
  function Numbers(c: char): (r: Option<bv8>)
    ensures r.Some? <==> c == ' ' || c == '-' || '0' <= c <= '9' || 'a' <= c <= 'z'
  {
    match c
    case ' ' => Some(0x00)
    case '-' => Some(0x40)
    case '0' => Some(0x3F)
    case '1' => Some(0x06)
    case '2' => Some(0x5B)
    case '3' => Some(0x4F)
    case '4' => Some(0x66)
    case '5' => Some(0x6D)
    case '6' => Some(0x7D)
    case '7' => Some(0x07)
    case '8' => Some(0x7F)
    case '9' => Some(0x6F)
    case 'a' => Some(0x77)
    case 'b' => Some(0x7C)
    case 'c' => Some(0x39)
    case 'd' => Some(0x5E)
    case 'e' => Some(0x79)
    case 'f' => Some(0x71)
    case 'g' => Some(0x3D)
    case 'h' => Some(0x74)
    case 'i' => Some(0x30)
    case 'j' => Some(0x1E)
    case 'k' => Some(0x75)
    case 'l' => Some(0x38)
    case 'm' => Some(0x15)
    case 'n' => Some(0x54)
    case 'o' => Some(0x5C)
    case 'p' => Some(0x73)
    case 'q' => Some(0x67)
    case 'r' => Some(0x50)
    case 's' => Some(0x6D)
    case 't' => Some(0x78)
    case 'u' => Some(0x1C)
    case 'v' => Some(0x3E)
    case 'w' => Some(0x2A)
    case 'x' => Some(0x76)
    case 'y' => Some(0x6E)
    case 'z' => Some(0x5B)
    case _ => None
  }

  /** The display RAM image: always 16 bytes. */
  type Buffer = b: seq<bv8> | |b| == 16 witness seq(16, _ => 0)

  /** `str.lower()` on one character, for the ASCII letters. */
  function Lower(c: char): (r: char)
    ensures !('A' <= r <= 'Z')
    ensures 'A' <= c <= 'Z' ==> 'a' <= r <= 'z'
    ensures !('A' <= c <= 'Z') ==> r == c
  {
    if 'A' <= c <= 'Z' then (c as int + 32) as char else c
  }

  /** The four character cells of a buffer, left to right. */
  function Cells(b: Buffer): seq<bv8>
  {
    [b[P[0]], b[P[1]], b[P[2]], b[P[3]]]
  }

  /** `b` with its four character cells replaced by `cs`. */
  function WithCells(b: Buffer, cs: seq<bv8>): Buffer
    requires |cs| == 4
  {
    b[P[0] := cs[0]][P[1] := cs[1]][P[2] := cs[2]][P[3] := cs[3]]
  }

  /** The bytes a Seg7x4 operation may write: the cells and the colon. */
  predicate IsDisplayByte(k: int)
  {
    k == 0 || k == 2 || k == 4 || k == 6 || k == 8
  }

  /** `b'` agrees with `b` on every byte the display does not use. */
  predicate SameUnusedBytes(b: Buffer, b': Buffer)
  {
    forall k :: 0 <= k < 16 && !IsDisplayByte(k) ==> b'[k] == b[k]
  }

  /** A character that `push` places in a cell of its own (not a dot, colon or semicolon). */
  predicate IsPlain(c: char)
  {
    c != '.' && c != ':' && c != ';'
  }

  /** What a cell holds after a plain character has been pushed into it. */
  function GlyphOrBlank(c: char): bv8
  {
    match Numbers(Lower(c))
    case Some(g) => g
    case None => 0x00
  }

  /** The cells a string of plain characters fills, one per character. */
  function Glyphs(s: string): seq<bv8>
  {
    seq(|s|, i requires 0 <= i < |s| => GlyphOrBlank(s[i]))
  }

  function LastFour(xs: seq<bv8>): seq<bv8>
    requires |xs| >= 4
  {
    xs[|xs| - 4..]
  }

  // ---------------------------------------------------------------------
  // The buffer after each Seg7x4 operation, as a function of the buffer before.

  /** The buffer after `put(c, index)`. */
  function AfterPut(b: Buffer, c: char, index: int): Buffer
  {
    if !(0 <= index <= 3) then b
    else
      var ch := Lower(c);
      if Numbers(ch).Some? then b[P[index] := Numbers(ch).value]
      else if ch == '.' then b[P[index] := b[P[index]] | DOT]
      else if ch == ':' then b[COLON := COLON_ON]
      else if ch == ';' then b[COLON := COLON_OFF]
      else b
  }

  /** The buffer after `scroll()`: three copies left, then a blank into cell 3. */
  function AfterScroll(b: Buffer): Buffer
  {
    AfterPut(b[P[0] := b[P[1]]][P[1] := b[P[2]]][P[2] := b[P[3]]], ' ', 3)
  }

  /** The buffer after `push(c)`. */
  function AfterPush(b: Buffer, c: char): Buffer
  {
    if c == ':' || c == ';' then AfterPut(b, c, 0)
    else
      var b1 := if c != '.' || b[P[3]] & DOT != 0 then AfterScroll(b) else b;
      AfterPut(b1, c, 3)
  }

  /** The buffer after `text(s)`: every character of `s` pushed in order. */
  function AfterText(b: Buffer, s: string): Buffer
    decreases |s|
  {
    if s == [] then b else AfterPush(AfterText(b, s[..|s| - 1]), s[|s| - 1])
  }

  // ---------------------------------------------------------------------
  // Driver commands

  /** The command byte `blink_rate(rate)` sends: the rate masked to two bits. */
  function BlinkCommand(rate: int): (cmd: bv8)
    ensures cmd & 0xF9 == BLINK_CMD | BLINK_DISPLAYON
    ensures ((cmd >> 1) & 0x03) as int == rate % 4
  {
    BLINK_CMD | BLINK_DISPLAYON | (((rate % 4) as bv8) << 1)
  }

  /** The command byte `brightness(level)` sends: the level masked to four bits. */
  function BrightnessCommand(level: int): (cmd: bv8)
    ensures cmd & 0xF0 == CMD_BRIGHTNESS
    ensures (cmd & 0x0F) as int == level % 16
  {
    CMD_BRIGHTNESS | ((level % 16) as bv8)
  }

  /**
   * The driver state of one Seg7x4 display. `buffer` is allocated once and
   * edited in place; `blinkRate` and `brightness` are the last values set.
   */
  class Seg7x4 {
    const buffer: array<bv8>
    var blinkRate: int
    var brightness: int
    /** Commands written to the device, oldest first. */
    ghost var commands: seq<bv8>
    /** The buffer as it was last written to the device. */
    ghost var shown: seq<bv8>

    ghost predicate Valid()
      reads this
    {
      buffer.Length == 16 && 0 <= blinkRate < 4 && 0 <= brightness < 16
    }

    /** The driver bring-up: oscillator on, blink off, full brightness, blank RAM. */
    constructor ()
      ensures Valid() && fresh(buffer)
      ensures buffer[..] == seq(16, _ => 0)
      ensures blinkRate == 0 && brightness == 15
      ensures commands == [OSCILATOR_ON, BlinkCommand(0), BrightnessCommand(15)]
    {
      buffer := new bv8[16](_ => 0);
      blinkRate, brightness := 0, 15;
      commands := [OSCILATOR_ON, BlinkCommand(0), BrightnessCommand(15)];
      shown := [];
    }

    /** `blink_rate(rate)`: with no argument, report the rate; otherwise mask it to 0..3 and send it. */
    method BlinkRate(rate: Option<int>) returns (current: Option<int>)
      requires Valid()
      modifies this`blinkRate, this`commands
      ensures Valid()
      ensures rate.None? ==> current == Some(old(blinkRate)) && blinkRate == old(blinkRate) && commands == old(commands)
      ensures rate.Some? ==> current.None? && blinkRate == rate.value % 4
      ensures rate.Some? ==> commands == old(commands) + [BlinkCommand(rate.value)]
      ensures brightness == old(brightness)
    {
      if rate.None? {
        return Some(blinkRate);
      }
      blinkRate := rate.value % 4;
      commands := commands + [BlinkCommand(rate.value)];
      current := None;
    }

    /** `brightness(level)`: with `None`, report the level; otherwise mask it to 0..15 and send it. */
    method Brightness(level: Option<int>) returns (current: Option<int>)
      requires Valid()
      modifies this`brightness, this`commands
      ensures Valid()
      ensures level.None? ==> current == Some(old(brightness)) && brightness == old(brightness) && commands == old(commands)
      ensures level.Some? ==> current.None? && brightness == level.value % 16
      ensures level.Some? ==> commands == old(commands) + [BrightnessCommand(level.value)]
      ensures blinkRate == old(blinkRate)
    {
      if level.None? {
        return Some(brightness);
      }
      brightness := level.value % 16;
      commands := commands + [BrightnessCommand(level.value)];
      current := None;
    }

    /** `show()`: the buffer is written to the device. */
    method Show()
      requires Valid()
      modifies this`shown
      ensures shown == buffer[..]
    {
      shown := buffer[..];
    }

    /** `put(char, index)`: write a glyph, a decimal point or the colon. */
    method Put(c: char, index: int)
      requires Valid()
      modifies buffer
      ensures buffer[..] == AfterPut(old(buffer[..]), c, index)
    {
      if !(0 <= index <= 3) {
        return;
      }
      var ch := Lower(c);
      var glyph := Numbers(ch);
      if glyph.Some? {
        buffer[P[index]] := glyph.value;
      } else if ch == '.' {
        buffer[P[index]] := buffer[P[index]] | DOT;
      } else if ch == ':' {
        buffer[COLON] := COLON_ON;
      } else if ch == ';' {
        buffer[COLON] := COLON_OFF;
      }
    }

    /** `scroll()`: move cells 1..3 into cells 0..2 and blank cell 3. */
    method Scroll()
      requires Valid()
      modifies buffer
      ensures buffer[..] == AfterScroll(old(buffer[..]))
    {
      for i := 0 to 3
        invariant forall k :: 0 <= k < i ==> buffer[P[k]] == old(buffer[P[k + 1]])
        invariant forall k :: 0 <= k < 16 && k !in P[..i] ==> buffer[k] == old(buffer[k])
      {
        buffer[P[i]] := buffer[P[i + 1]];
      }
      Put(' ', 3);
    }

    /** `push(char)`: colon characters go to the colon; a dot attaches to cell 3 if it has none; anything else scrolls in. */
    method Push(c: char)
      requires Valid()
      modifies buffer
      ensures buffer[..] == AfterPush(old(buffer[..]), c)
    {
      if c == ':' || c == ';' {
        Put(c, 0);
      } else {
        if c != '.' || buffer[P[3]] & DOT != 0 {
          Scroll();
        }
        Put(c, 3);
      }
    }

    /** `text(s)`: push every character of `s`. */
    method Text(s: string)
      requires Valid()
      modifies buffer
      ensures buffer[..] == AfterText(old(buffer[..]), s)
    {
      for i := 0 to |s|
        invariant buffer[..] == AfterText(old(buffer[..]), s[..i])
      {
        assert s[..i + 1][..i] == s[..i];
        Push(s[i]);
      }
      assert s[..|s|] == s;
    }
  }
}
