/**
 * The driver of i2c_lcd.c as one object: the backlight latch
 * (`lcd_backlight_state`) and the bytes written to the expander over I2C so
 * far.  Each operation appends exactly the bytes its C counterpart writes;
 * the timing delays and the register-level I2C handshake are not modelled.
 */
module I2cLcd {
  import opened Expander
  import Hd44780

  class Driver {
    /** `lcd_backlight_state`: 0x08 when the backlight is on, 0x00 when off. */
    var backlight: byte
    /** Every byte written to the expander so far, oldest first. */
    var log: seq<byte>

    /**
     * The backlight latch holds one of its two values and the port rests
     * with Enable low between operations.
     */
    ghost predicate Valid()
      reads this
    {
      IsBacklightState(backlight) && (log == [] || log[|log| - 1] & EN == 0x00)
    }

    /** Program start: the backlight latch starts on and nothing has been written. */
    constructor ()
      ensures Valid()
      ensures backlight == BACKLIGHT && log == []
    {
      backlight := BACKLIGHT;
      log := [];
    }

    /**
     * `i2c_write`: sends the first `length` bytes of `data` to the expander.
     * Every call targets the display's fixed I2C address, so only the bytes
     * are recorded.
     */
    method I2cWrite(data: seq<byte>, length: byte)
      requires length as int <= |data|
      modifies this`log
      ensures log == old(log) + data[..length]
    {
      var i := 0;
      while i < length as int
        invariant 0 <= i <= length as int
        invariant log == old(log) + data[..i]
      {
        log := log + [data[i]];
        i := i + 1;
      }
    }

    /** `lcd_send_nibble`: one nibble with an Enable pulse, three bus writes. */
    method SendNibble(nibble: byte, isData: byte)
      requires Valid()
      modifies this`log
      ensures Valid()
      ensures log == old(log) + NibbleWrites(nibble, isData, backlight)
    {
      NibbleWritesLayout(nibble, isData, backlight);
      var byteToSend: byte := (nibble << 4) | (if isData != 0x00 then 0x01 else 0x00) | backlight;
      I2cWrite([byteToSend], 1);
      byteToSend := byteToSend | 0x04;
      I2cWrite([byteToSend], 1);
      byteToSend := byteToSend & !0x04;
      I2cWrite([byteToSend], 1);
    }

    /** `lcd_send_byte`: the high nibble, then the low nibble. */
    method SendByte(b: byte, isData: byte)
      requires Valid()
      modifies this`log
      ensures Valid()
      ensures log == old(log) + ByteWrites(b, isData, backlight)
    {
      SendNibble(b >> 4, isData);
      SendNibble(b & 0x0F, isData);
    }

    /** `lcd_send_command`: a byte with RS = 0. */
    method SendCommand(command: byte)
      requires Valid()
      modifies this`log
      ensures Valid()
      ensures log == old(log) + ByteWrites(command, 0x00, backlight)
    {
      SendByte(command, 0x00);
    }

    /** `lcd_send_data`: a byte with RS = 1. */
    method SendData(data: byte)
      requires Valid()
      modifies this`log
      ensures Valid()
      ensures log == old(log) + ByteWrites(data, 0x01, backlight)
    {
      SendByte(data, 0x01);
    }

    /**
     * `lcd_init`, without the bus set-up: three nibbles 0x3, one nibble 0x2,
     * then function set, display on, entry mode and clear, all with RS = 0.
     */
    method Init()
      requires Valid()
      modifies this`log
      ensures Valid()
      ensures log == old(log) + InitWrites(backlight)
    {
      ghost var start, bl := log, backlight;
      SendNibble(0x03, 0x00);
      ghost var sent := NibbleWrites(0x03, 0x00, bl);
      SendNibble(0x03, 0x00);
      Regroup(start, sent, NibbleWrites(0x03, 0x00, bl));
      sent := sent + NibbleWrites(0x03, 0x00, bl);
      SendNibble(0x03, 0x00);
      Regroup(start, sent, NibbleWrites(0x03, 0x00, bl));
      sent := sent + NibbleWrites(0x03, 0x00, bl);
      SendNibble(0x02, 0x00);
      Regroup(start, sent, NibbleWrites(0x02, 0x00, bl));
      sent := sent + NibbleWrites(0x02, 0x00, bl);
      SendCommand(FunctionSet4Bit2Line);
      Regroup(start, sent, ByteWrites(FunctionSet4Bit2Line, 0x00, bl));
      sent := sent + ByteWrites(FunctionSet4Bit2Line, 0x00, bl);
      SendCommand(DisplayOnCursorOff);
      Regroup(start, sent, ByteWrites(DisplayOnCursorOff, 0x00, bl));
      sent := sent + ByteWrites(DisplayOnCursorOff, 0x00, bl);
      SendCommand(EntryModeIncrement);
      Regroup(start, sent, ByteWrites(EntryModeIncrement, 0x00, bl));
      sent := sent + ByteWrites(EntryModeIncrement, 0x00, bl);
      SendCommand(ClearDisplay);
      Regroup(start, sent, ByteWrites(ClearDisplay, 0x00, bl));
      sent := sent + ByteWrites(ClearDisplay, 0x00, bl);
      InitWritesUnfold(bl);
    }

    /**
     * `lcd_print`: one data byte per character before the terminating NUL,
     * in order; nothing at or after the NUL is sent.
     */
    method Print(str: seq<byte>)
      requires Valid()
      requires 0x00 in str
      modifies this`log
      ensures Valid()
      ensures log == old(log) + ByteStream(UntilNul(str), 0x01, backlight)
    {
      ghost var nul :| 0 <= nul < |str| && str[nul] == 0x00;
      var i := 0;
      while str[i] != 0x00
        invariant 0 <= i <= nul
        invariant forall j :: 0 <= j < i ==> str[j] != 0x00
        invariant Valid()
        invariant log == old(log) + ByteStream(str[..i], 0x01, backlight)
        decreases nul - i
      {
        SendData(str[i]);
        Regroup(old(log), ByteStream(str[..i], 0x01, backlight), ByteWrites(str[i], 0x01, backlight));
        ByteStreamAppend(str[..i], str[i], 0x01, backlight);
        assert str[..i + 1] == str[..i] + [str[i]];
        i := i + 1;
      }
      UntilNulAt(str, i);
    }

    /** `lcd_set_cursor`: the Set DDRAM address command for (`col`, `row`). */
    method SetCursor(col: byte, row: byte)
      requires Valid()
      modifies this`log
      ensures Valid()
      ensures log == old(log) + ByteWrites(CursorAddress(col, row), 0x00, backlight)
    {
      var address := CursorAddress(col, row);
      SendCommand(address);
    }

    /** `lcd_clear`: the Clear Display command. */
    method Clear()
      requires Valid()
      modifies this`log
      ensures Valid()
      ensures log == old(log) + ByteWrites(ClearDisplay, 0x00, backlight)
    {
      SendCommand(ClearDisplay);
    }

    /**
     * `lcd_backlight`: latches the new backlight state and writes it alone
     * (Enable, RS and data lines low) so the backlight line follows at once.
     */
    method Backlight(on: byte)
      requires Valid()
      modifies this
      ensures Valid()
      ensures backlight == (if on != 0x00 then BACKLIGHT else 0x00)
      ensures log == old(log) + [backlight]
    {
      backlight := if on != 0x00 then BACKLIGHT else 0x00;
      var dummy := backlight;
      I2cWrite([dummy], 1);
    }
  }

  /** Appending in two steps is appending the two parts at once. */
  lemma Regroup(s: seq<byte>, a: seq<byte>, b: seq<byte>)
    ensures s + a + b == s + (a + b)
  {
  }
}
