/**
 * The byte stream that the driver in i2c_lcd.c sends to a PCF8574-style
 * I2C expander wired to an HD44780 controller in 4-bit mode.
 *
 * Expander port layout: D7..D4 carry a nibble, bit 3 drives the backlight,
 * bit 2 is Enable (EN), bit 1 is RW (always 0, the driver only writes) and
 * bit 0 is Register Select (RS: 0 = instruction, 1 = display data).
 */
module Expander {

  /** A `uint8_t` of the source. */
  type byte = bv8

  const RS: byte := 0x01
  const RW: byte := 0x02
  const EN: byte := 0x04
  const BACKLIGHT: byte := 0x08

  /** HD44780 instructions the driver issues. */
  const ClearDisplay: byte := 0x01
  const EntryModeIncrement: byte := 0x06
  const DisplayOnCursorOff: byte := 0x0C
  const FunctionSet4Bit2Line: byte := 0x28

  /** The only two values the backlight latch ever holds. */
  predicate IsBacklightState(bl: byte) {
    bl == BACKLIGHT || bl == 0x00
  }

  /** RS follows `isData`, RW is 0 and the backlight bit is `bl`. */
  predicate Carries(b: byte, isData: byte, bl: byte) {
    b & RS == (if isData != 0 then RS else 0x00) && b & RW == 0x00 && b & BACKLIGHT == bl
  }

  /** Every byte of `w` carries RS = `isData`, RW = 0 and backlight `bl`. */
  predicate AllCarry(w: seq<byte>, isData: byte, bl: byte) {
    forall i :: 0 <= i < |w| ==> Carries(w[i], isData, bl)
  }

  /**
   * The expander byte for one nibble with Enable low.  The shift is done on
   * a `uint8_t`, so only the low four bits of `nibble` reach D7..D4.
   */
  function PackNibble(nibble: byte, isData: byte, bl: byte): (b: byte)
    requires IsBacklightState(bl)
    ensures b >> 4 == nibble & 0x0F
    ensures b & EN == 0x00
    ensures Carries(b, isData, bl)
  {
    (nibble << 4) | (if isData != 0 then RS else 0x00) | bl
  }

  /**
   * The three bus writes of one nibble: Enable low, high, low again, all
   * three otherwise the same byte.
   */
  function NibbleWrites(nibble: byte, isData: byte, bl: byte): (w: seq<byte>)
    requires IsBacklightState(bl)
    ensures |w| == 3
  {
    var b := PackNibble(nibble, isData, bl);
    [b, b | EN, b]
  }

  /**
   * Enable pulses low, high, low while everything else stays put; every
   * write carries the nibble (mod 16), RS = `isData`, RW = 0 and the backlight.
   */
  lemma NibbleWritesLayout(nibble: byte, isData: byte, bl: byte)
    requires IsBacklightState(bl)
    ensures var w := NibbleWrites(nibble, isData, bl);
      && w[0] & EN == 0x00 && w[1] & EN == EN && w[2] & EN == 0x00
      && w[1] & !EN == w[0] && w[2] == w[0]
      && (forall i :: 0 <= i < 3 ==> w[i] >> 4 == nibble & 0x0F)
      && AllCarry(w, isData, bl)
  {
    var w := NibbleWrites(nibble, isData, bl);
    assert w[1] >> 4 == w[0] >> 4 && Carries(w[1], isData, bl);
  }

  /** The six bus writes of one byte: high nibble first, then low nibble. */
  function ByteWrites(b: byte, isData: byte, bl: byte): (w: seq<byte>)
    requires IsBacklightState(bl)
    ensures |w| == 6
  {
    NibbleWrites(b >> 4, isData, bl) + NibbleWrites(b & 0x0F, isData, bl)
  }

  /**
   * The data lines of the two Enable-high writes reassemble the byte, and
   * every write carries RS = `isData`, RW = 0 and the backlight.
   */
  lemma ByteWritesLayout(b: byte, isData: byte, bl: byte)
    requires IsBacklightState(bl)
    ensures var w := ByteWrites(b, isData, bl);
      && w[1] & EN == EN && w[4] & EN == EN
      && ((w[1] >> 4) << 4) | (w[4] >> 4) == b
      && AllCarry(w, isData, bl)
  {
    var hi, lo := NibbleWrites(b >> 4, isData, bl), NibbleWrites(b & 0x0F, isData, bl);
    NibbleWritesLayout(b >> 4, isData, bl);
    NibbleWritesLayout(b & 0x0F, isData, bl);
    assert ByteWrites(b, isData, bl) == hi + lo;
  }

  /** The bus writes of a sequence of single nibbles, in order. */
  function NibbleStream(ns: seq<byte>, isData: byte, bl: byte): (w: seq<byte>)
    requires IsBacklightState(bl)
    ensures |w| == 3 * |ns|
  {
    if ns == [] then []
    else NibbleWrites(ns[0], isData, bl) + NibbleStream(ns[1..], isData, bl)
  }

  /** The bus writes of a sequence of bytes, in order. */
  function ByteStream(cs: seq<byte>, isData: byte, bl: byte): (w: seq<byte>)
    requires IsBacklightState(bl)
    ensures |w| == 6 * |cs|
  {
    if cs == [] then []
    else ByteWrites(cs[0], isData, bl) + ByteStream(cs[1..], isData, bl)
  }

  /** Every write of a nibble stream carries RS = `isData`, RW = 0 and the backlight. */
  lemma {:induction false} NibbleStreamCarries(ns: seq<byte>, isData: byte, bl: byte)
    requires IsBacklightState(bl)
    ensures AllCarry(NibbleStream(ns, isData, bl), isData, bl)
  {
    if ns != [] {
      NibbleWritesLayout(ns[0], isData, bl);
      NibbleStreamCarries(ns[1..], isData, bl);
    }
  }

  /** Every write of a byte stream carries RS = `isData`, RW = 0 and the backlight. */
  lemma {:induction false} ByteStreamCarries(cs: seq<byte>, isData: byte, bl: byte)
    requires IsBacklightState(bl)
    ensures AllCarry(ByteStream(cs, isData, bl), isData, bl)
  {
    if cs != [] {
      ByteWritesLayout(cs[0], isData, bl);
      ByteStreamCarries(cs[1..], isData, bl);
    }
  }

  /** Sending one more byte extends the stream by that byte's six writes. */
  lemma {:induction false} ByteStreamAppend(cs: seq<byte>, c: byte, isData: byte, bl: byte)
    requires IsBacklightState(bl)
    ensures ByteStream(cs + [c], isData, bl) == ByteStream(cs, isData, bl) + ByteWrites(c, isData, bl)
  {
    if cs == [] {
      assert cs + [c] == [c];
      assert [c][1..] == [];
    } else {
      assert (cs + [c])[0] == cs[0];
      assert (cs + [c])[1..] == cs[1..] + [c];
      ByteStreamAppend(cs[1..], c, isData, bl);
    }
  }

  /** The k-th group of six writes of a byte stream is the k-th byte's. */
  lemma {:induction false} ByteStreamAt(cs: seq<byte>, k: nat, isData: byte, bl: byte)
    requires IsBacklightState(bl)
    requires k < |cs|
    ensures ByteStream(cs, isData, bl)[6 * k .. 6 * k + 6] == ByteWrites(cs[k], isData, bl)
  {
    var head, tail := ByteWrites(cs[0], isData, bl), ByteStream(cs[1..], isData, bl);
    assert ByteStream(cs, isData, bl) == head + tail;
    if k > 0 {
      ByteStreamAt(cs[1..], k - 1, isData, bl);
      assert (head + tail)[6 * k .. 6 * k + 6] == tail[6 * (k - 1) .. 6 * (k - 1) + 6];
    }
  }

  /**
   * The characters of a C string: everything before the first NUL (all of
   * `s` when there is none).
   */
  function UntilNul(s: seq<byte>): (r: seq<byte>)
    ensures |r| <= |s| && r == s[..|r|]
    ensures 0x00 !in r
    ensures 0x00 in s ==> |r| < |s| && s[|r|] == 0x00
  {
    if s == [] || s[0] == 0x00 then []
    else [s[0]] + UntilNul(s[1..])
  }

  /** The characters before a NUL at index `i` are exactly `s[..i]`. */
  lemma UntilNulAt(s: seq<byte>, i: nat)
    requires i < |s| && s[i] == 0x00
    requires forall j :: 0 <= j < i ==> s[j] != 0x00
    ensures UntilNul(s) == s[..i]
  {
  }

  /**
   * What printing a C string sends: the k-th group of six writes is the
   * data write of the k-th character, which is not NUL; there are six
   * writes per character before the first NUL and none after it.
   */
  lemma PrintStreamAt(s: seq<byte>, k: nat, bl: byte)
    requires IsBacklightState(bl)
    requires 0x00 in s
    requires k < |UntilNul(s)|
    ensures s[k] != 0x00
    ensures |ByteStream(UntilNul(s), 0x01, bl)| == 6 * |UntilNul(s)| && s[|UntilNul(s)|] == 0x00
    ensures ByteStream(UntilNul(s), 0x01, bl)[6 * k .. 6 * k + 6] == ByteWrites(s[k], 0x01, bl)
  {
    var r := UntilNul(s);
    assert r[k] == s[k];
    ByteStreamAt(r, k, 0x01, bl);
  }

  /**
   * The cursor command: Set DDRAM address with base 0x80 for row 0 and 0xC0
   * for any other row.  The sum is computed in `int` and stored into a
   * `uint8_t`, so it wraps modulo 256; the column is not bounds-checked.
   * For a column inside a row (below 0x40) the result is the Set DDRAM
   * address instruction (bit 7) for DDRAM address row offset + column.
   */
  function CursorAddress(col: byte, row: byte): (a: byte)
    ensures a as int == ((if row == 0 then 0x80 else 0xC0) + col as int) % 256
    ensures col < 0x40 ==> a & 0x80 == 0x80 && a & 0x7F == (if row == 0 then 0x00 else 0x40) | col
  {
    if row == 0 then 0x80 + col else 0xC0 + col
  }

  /**
   * Without a bounds check a column past the second row wraps: column 0x41
   * of row 1 yields 0x01, which the controller takes as Clear Display.
   */
  lemma CursorWrapsToClear()
    ensures CursorAddress(0x41, 0x01) == ClearDisplay
  {
  }

  /** The HD44780 "initializing by instruction" nibbles for 4-bit mode. */
  const InitNibbles: seq<byte> := [0x03, 0x03, 0x03, 0x02]

  /** The instructions that follow them: function set, display on, entry mode, clear. */
  const InitCommands: seq<byte> := [FunctionSet4Bit2Line, DisplayOnCursorOff, EntryModeIncrement, ClearDisplay]

  /** The bus writes of the bring-up sequence: four nibbles and four instructions, all with RS = 0. */
  function InitWrites(bl: byte): (w: seq<byte>)
    requires IsBacklightState(bl)
    ensures |w| == 36
  {
    NibbleStream(InitNibbles, 0x00, bl) + ByteStream(InitCommands, 0x00, bl)
  }

  /** Every bring-up write is an instruction-register write carrying the backlight. */
  lemma InitWritesCarry(bl: byte)
    requires IsBacklightState(bl)
    ensures AllCarry(InitWrites(bl), 0x00, bl)
  {
    NibbleStreamCarries(InitNibbles, 0x00, bl);
    ByteStreamCarries(InitCommands, 0x00, bl);
  }

  /** The bring-up writes, one operation after the other. */
  lemma InitWritesUnfold(bl: byte)
    requires IsBacklightState(bl)
    ensures InitWrites(bl) ==
      NibbleWrites(0x03, 0x00, bl) + NibbleWrites(0x03, 0x00, bl) + NibbleWrites(0x03, 0x00, bl)
      + NibbleWrites(0x02, 0x00, bl)
      + ByteWrites(FunctionSet4Bit2Line, 0x00, bl) + ByteWrites(DisplayOnCursorOff, 0x00, bl)
      + ByteWrites(EntryModeIncrement, 0x00, bl) + ByteWrites(ClearDisplay, 0x00, bl)
  {
    InitNibblesUnfold(bl);
    InitCommandsUnfold(bl);
  }

  /** The bring-up nibbles, one after the other. */
  lemma InitNibblesUnfold(bl: byte)
    requires IsBacklightState(bl)
    ensures NibbleStream(InitNibbles, 0x00, bl) ==
      NibbleWrites(0x03, 0x00, bl) + NibbleWrites(0x03, 0x00, bl) + NibbleWrites(0x03, 0x00, bl)
      + NibbleWrites(0x02, 0x00, bl)
  {
    var n3, n2 := NibbleWrites(0x03, 0x00, bl), NibbleWrites(0x02, 0x00, bl);
    assert NibbleStream([0x02], 0x00, bl) == n2;
    assert NibbleStream([0x03, 0x02], 0x00, bl) == n3 + n2;
    assert NibbleStream([0x03, 0x03, 0x02], 0x00, bl) == n3 + (n3 + n2);
    assert NibbleStream(InitNibbles, 0x00, bl) == n3 + (n3 + (n3 + n2));
  }

  /** The bring-up instructions, one after the other. */
  lemma InitCommandsUnfold(bl: byte)
    requires IsBacklightState(bl)
    ensures ByteStream(InitCommands, 0x00, bl) ==
      ByteWrites(FunctionSet4Bit2Line, 0x00, bl) + ByteWrites(DisplayOnCursorOff, 0x00, bl)
      + ByteWrites(EntryModeIncrement, 0x00, bl) + ByteWrites(ClearDisplay, 0x00, bl)
  {
    var c0, c1 := ByteWrites(FunctionSet4Bit2Line, 0x00, bl), ByteWrites(DisplayOnCursorOff, 0x00, bl);
    var c2, c3 := ByteWrites(EntryModeIncrement, 0x00, bl), ByteWrites(ClearDisplay, 0x00, bl);
    assert ByteStream([ClearDisplay], 0x00, bl) == c3;
    assert ByteStream([EntryModeIncrement, ClearDisplay], 0x00, bl) == c2 + c3;
    assert ByteStream([DisplayOnCursorOff, EntryModeIncrement, ClearDisplay], 0x00, bl) == c1 + (c2 + c3);
    assert ByteStream(InitCommands, 0x00, bl) == c0 + (c1 + (c2 + c3));
  }
}
