# HD44780 over a PCF8574 I2C expander: the driver's byte stream

`i2c_lcd.c` drives an HD44780 character display in 4-bit mode through a
PCF8574-style I2C port expander. Every observable effect of the driver is the
ordered stream of bytes it writes to the expander. Each byte is one port value:

| bit | 7..4 | 3 | 2 | 1 | 0 |
|---|---|---|---|---|---|
| line | D7..D4 | backlight | Enable | RW | RS |

The model has three modules.

- `Expander` (expander.dfy) holds the pure encoding. `PackNibble` builds one
  port value. `NibbleWrites` gives the three writes of an Enable pulse and
  `ByteWrites` the six writes of a byte, high nibble first. `NibbleStream` and
  `ByteStream` give the writes of a sequence of nibbles or bytes.
  `CursorAddress` computes the Set DDRAM address command. `UntilNul` gives the
  characters of a C string. `InitWrites` gives the bring-up sequence.
- `I2cLcd` (i2c_lcd.dfy) is the driver itself, as a class `Driver` with two
  fields. `backlight` is `lcd_backlight_state`. `log` holds every byte written
  to the bus so far. `i2c_write` becomes `I2cWrite`, whose loop appends the
  buffer to `log`. Every LCD operation is a method. Its `ensures` states
  exactly which bytes it appends, as a function of the backlight state. Each
  method also keeps the invariant `Valid()`: the backlight is 0x08 or 0x00,
  and the last byte written has Enable low.
- `Hd44780` (hd44780.dfy) is an independent reading of the byte stream from
  the display's side. The controller latches RS and D7..D4 on every falling
  edge of Enable, and in 4-bit mode two latches form one byte. The lemmas
  there show that the encoder delivers exactly the nibbles, instructions and
  characters it was asked to send. They also show that the backlight write
  latches nothing.

Bytes are `bv8`, like the source's `uint8_t`. Two places in the source store
an `int` result into a `uint8_t` and so wrap modulo 256. In `nibble << 4`
only the low four bits of the nibble survive; `PackNibble` states this.
In `0x80 + col` and `0xC0 + col` the sum wraps; `CursorAddress` states the
`int` sum modulo 256. The source uses base 0xC0 for every non-zero row, not
only for row 1, and the model follows the source.

## Model

| member | source | states |
|---|---|---|
| `I2cLcd.Driver.constructor` | i2c_lcd.c:12 | the backlight latch starts at 0x08 (on), nothing has been written, and the driver invariant holds |
| `I2cLcd.Driver.I2cWrite` | i2c_lcd.c:27-42 | the first `length` bytes of the buffer are appended to the bus log, in order, and nothing else changes |
| `Expander.PackNibble` | i2c_lcd.c:45 | the port value has D7..D4 = nibble mod 16 (the `uint8_t` truncation of `nibble << 4`), Enable clear, RS = 1 iff `is_data` is non-zero, RW = 0, backlight bit = the latch |
| `Expander.NibbleWritesLayout` | i2c_lcd.c:44-53 | a nibble is three writes: Enable clear, set, clear; the second is the first with Enable set, the third equals the first; all three carry the nibble, RS, RW = 0 and the backlight |
| `I2cLcd.Driver.SendNibble` | i2c_lcd.c:44-54 | the step-by-step `|=` / `&=` updates of `byte_to_send` append exactly the three nibble writes, and leave the port with Enable low |
| `Expander.ByteWritesLayout` | i2c_lcd.c:56-59 | a byte is six writes; the data lines of the 2nd and 5th (Enable-high) writes reassemble the byte; all six carry RS, RW = 0 and the backlight |
| `I2cLcd.Driver.SendByte` | i2c_lcd.c:56-59 | appends the writes of `byte >> 4`, then those of `byte & 0x0F` |
| `I2cLcd.Driver.SendCommand` | i2c_lcd.c:81-83 | appends the six writes of the byte with RS = 0 |
| `I2cLcd.Driver.SendData` | i2c_lcd.c:85-87 | appends the six writes of the byte with RS = 1 |
| `Expander.ByteStream` | i2c_lcd.c:89-93 | a byte sequence is sent as six writes per byte |
| `Expander.ByteStreamCarries` | i2c_lcd.c:45 | every write of a byte sequence carries RS = `is_data`, RW = 0 and the backlight state in bit 3 |
| `Expander.NibbleStreamCarries` | i2c_lcd.c:66-72 | every write of the bring-up nibbles carries RS = 0, RW = 0 and the backlight state |
| `Expander.ByteStreamAppend` | i2c_lcd.c:90-92 | sending one more character extends the stream by exactly that character's six writes |
| `Expander.ByteStreamAt` | i2c_lcd.c:90-92 | the k-th group of six writes of a byte sequence is the k-th byte's, so order is kept |
| `Expander.UntilNul` | i2c_lcd.c:89-93 | the characters of a C string are a prefix of the memory with no NUL in it, and the byte right after them is the NUL |
| `Expander.PrintStreamAt` | i2c_lcd.c:89-93 | printing sends six writes per character before the first NUL; the k-th group is the data write of the k-th character, which is not NUL; nothing at or after the NUL is sent |
| `I2cLcd.Driver.Print` | i2c_lcd.c:89-93 | the pointer walk appends the data writes of exactly the characters before the first NUL, in order |
| `Expander.CursorAddress` | i2c_lcd.c:95-96 | the command is (0x80 + col) mod 256 for row 0 and (0xC0 + col) mod 256 for any other row; for col < 0x40 it is Set DDRAM address with address row offset (0x00 or 0x40) + col |
| `Expander.CursorWrapsToClear` | i2c_lcd.c:96 | with no bounds check, column 0x41 of row 1 wraps to 0x01, the Clear Display command |
| `I2cLcd.Driver.SetCursor` | i2c_lcd.c:95-98 | appends the six command writes of the cursor address |
| `I2cLcd.Driver.Clear` | i2c_lcd.c:100-103 | appends exactly the six writes of command 0x01 |
| `I2cLcd.Driver.Backlight` | i2c_lcd.c:105-110 | the latch becomes 0x08 if `on` is non-zero and 0x00 otherwise, and exactly one byte equal to the new latch is appended |
| `Hd44780.BacklightWriteQuiet` | i2c_lcd.c:107-109 | the backlight byte has Enable, RS and the data lines low; after an idle port it latches nothing and leaves the port idle |
| `Expander.InitWrites` | i2c_lcd.c:61-79 | the bring-up sequence is 36 writes |
| `Expander.InitWritesCarry` | i2c_lcd.c:66-77 | every bring-up write has RS = 0, RW = 0 and carries the backlight state |
| `Expander.InitWritesUnfold` | i2c_lcd.c:66-77 | the bring-up writes are nibbles 0x3, 0x3, 0x3, 0x2, then commands 0x28, 0x0C, 0x06, 0x01, in that order |
| `I2cLcd.Driver.Init` | i2c_lcd.c:61-79 | appends exactly the bring-up writes, whatever the backlight state |
| `Hd44780.IdlePort` | i2c_lcd.c:44-53 | the display sees an idle port (Enable low) exactly when nothing was written or the last write had Enable clear, which is the driver invariant |
| `Hd44780.LatchesAppend` | i2c_lcd.c:44-53 | after a write with Enable low, what follows is latched independently of what came before |
| `Hd44780.NibbleLatched` | i2c_lcd.c:44-53 | the three writes of a nibble make the display latch exactly that nibble (mod 16) with RS = `is_data`, and leave Enable low |
| `Hd44780.NibbleStreamLatched` | i2c_lcd.c:66-72 | a nibble sequence is latched nibble by nibble, in order |
| `Hd44780.ByteLatched` | i2c_lcd.c:56-59 | the six writes of a byte are latched as its high nibble, then its low nibble |
| `Hd44780.ByteStreamLatched` | i2c_lcd.c:89-93 | a byte sequence is latched as two nibbles per byte, in order |
| `Hd44780.AssembleBytes` | i2c_lcd.c:56-59 | pairing the latched nibbles of a byte sequence, high nibble first, gives back exactly those bytes |
| `Hd44780.ByteStreamRoundTrip` | i2c_lcd.c:81-93 | what the display assembles from the writes of a byte sequence is exactly those bytes, each with the RS the driver chose |
| `Hd44780.InitLatched` | i2c_lcd.c:61-79 | the bring-up writes are latched as nibbles 3, 3, 3, 2 with RS = 0, then as instructions 0x28, 0x0C, 0x06, 0x01, for either backlight state |

## Left out

- `i2c_init` (i2c_lcd.c:14-25) only writes MSP430 peripheral registers. `Init` does not model its call.
- The inside of `i2c_write` (i2c_lcd.c:27-42) is left out: START and STOP generation and the busy-waits on the status flags. A missing device makes the real driver hang; the model cannot express that.
- I2cLcd.Driver.I2cWrite: the target address is not recorded, only the bytes. Every write goes to `LCD_I2C_ADDR`, which is defined in `i2c_lcd.h`. `i2c_lcd.h` is not part of this model.
- The `__delay_cycles` calls are left out. They set timing only and change no byte of the stream.
- I2cLcd.Driver.Print: the string is a sequence of bytes, so C `char` signedness does not arise. The sequence must contain a NUL, as a C string must.
- Hd44780: the decoder records what the controller latches. It does not interpret instructions, so the 8-bit-mode meaning of the first four bring-up nibbles is left out.
