/**
 * What an HD44780 in 4-bit mode reads off the expander's port: it latches
 * RS and D7..D4 on every falling edge of Enable, and two consecutive
 * latches form one byte, high nibble first.  This is an independent
 * reading of the byte stream, used to show that the driver's encoding
 * delivers the nibbles, instructions and characters it was asked to send.
 */
module Hd44780 {
  import opened Expander

  /** One nibble as latched: the RS line and the four data lines. */
  datatype Latch = Latch(isData: bool, nibble: byte)

  /** One byte as assembled from two latches in 4-bit mode. */
  datatype Transfer = Transfer(isData: bool, value: byte)

  /** The controller's view of one expander port value: RS, Enable and D7..D4. */
  datatype Pins = Pins(rs: bool, en: bool, data: byte)

  function Decode(b: byte): (p: Pins)
    ensures p.data < 0x10
  {
    Pins(b & RS != 0x00, b & EN != 0x00, b >> 4)
  }

  /** The pins seen for each value written to the port, in order. */
  function Port(s: seq<byte>): (ps: seq<Pins>)
    ensures |ps| == |s|
  {
    if s == [] then [] else [Decode(s[0])] + Port(s[1..])
  }

  /** The port rests with Enable low (or nothing was written yet). */
  predicate Idle(ps: seq<Pins>) {
    |ps| == 0 || !ps[|ps| - 1].en
  }

  /** The latch taken between two consecutive port values: one on a falling edge of Enable. */
  function Edge(prev: Pins, cur: Pins): seq<Latch> {
    if prev.en && !cur.en then [Latch(prev.rs, prev.data)] else []
  }

  /** The nibbles latched while the port goes through `ps`, in order. */
  function Latches(ps: seq<Pins>): seq<Latch> {
    if |ps| < 2 then [] else Edge(ps[0], ps[1]) + Latches(ps[1..])
  }

  /** Pairs latches into bytes, high nibble first. */
  function Assemble(ls: seq<Latch>): (ts: seq<Transfer>)
    ensures |ts| == |ls| / 2
  {
    if |ls| < 2 then []
    else [Transfer(ls[0].isData, (ls[0].nibble << 4) | ls[1].nibble)] + Assemble(ls[2..])
  }

  /** The latches a sequence of single nibbles should produce. */
  function NibbleLatches(ns: seq<byte>, isData: bool): (ls: seq<Latch>)
    ensures |ls| == |ns|
  {
    if ns == [] then [] else [Latch(isData, ns[0] & 0x0F)] + NibbleLatches(ns[1..], isData)
  }

  /** The latches a sequence of bytes should produce: two per byte, high nibble first. */
  function ByteLatches(cs: seq<byte>, isData: bool): (ls: seq<Latch>)
    ensures |ls| == 2 * |cs|
  {
    if cs == [] then []
    else [Latch(isData, cs[0] >> 4), Latch(isData, cs[0] & 0x0F)] + ByteLatches(cs[1..], isData)
  }

  /** One transfer per byte, all with the same RS. */
  function Transfers(cs: seq<byte>, isData: bool): (ts: seq<Transfer>)
    ensures |ts| == |cs|
    ensures forall i :: 0 <= i < |cs| ==> ts[i] == Transfer(isData, cs[i])
  {
    seq(|cs|, i requires 0 <= i < |cs| => Transfer(isData, cs[i]))
  }

  /**
   * A port that rests with Enable low separates what comes before from what
   * comes after: no falling edge straddles the boundary.
   */
  lemma {:induction false} LatchesAppend(ps: seq<Pins>, qs: seq<Pins>)
    requires Idle(ps)
    ensures Latches(ps + qs) == Latches(ps) + Latches(qs)
  {
    if |ps| == 1 && qs != [] {
      assert (ps + qs)[1..] == qs;
    } else if |ps| >= 2 {
      assert (ps + qs)[1..] == ps[1..] + qs;
      LatchesAppend(ps[1..], qs);
    } else {
      assert ps + qs == if ps == [] then qs else ps;
    }
  }

  /** Two stretches that each end with Enable low end with Enable low together. */
  lemma IdleAppend(ps: seq<Pins>, qs: seq<Pins>)
    requires Idle(ps) && Idle(qs)
    ensures Idle(ps + qs)
  {
    if qs != [] {
      assert (ps + qs)[|ps + qs| - 1] == qs[|qs| - 1];
    }
  }

  /** The port view of two write sequences is the concatenation of their views. */
  lemma {:induction false} PortAppend(s: seq<byte>, t: seq<byte>)
    ensures Port(s + t) == Port(s) + Port(t)
  {
    if s == [] {
      assert s + t == t;
    } else {
      assert (s + t)[1..] == s[1..] + t;
      PortAppend(s[1..], t);
    }
  }

  /** The port is idle exactly when nothing was written or the last write has Enable low. */
  lemma {:induction false} IdlePort(s: seq<byte>)
    ensures Idle(Port(s)) <==> (s == [] || s[|s| - 1] & EN == 0x00)
  {
    if |s| >= 2 {
      IdlePort(s[1..]);
      assert Port(s)[1..] == Port(s[1..]);
    }
  }

  /**
   * The backlight write alone (Enable, RS and data lines low) leaves an idle
   * port idle and latches nothing, so the display content is untouched.
   */
  lemma BacklightWriteQuiet(s: seq<byte>, bl: byte)
    requires IsBacklightState(bl)
    requires Idle(Port(s))
    ensures Decode(bl) == Pins(false, false, 0x00)
    ensures Idle(Port(s + [bl]))
    ensures Latches(Port(s + [bl])) == Latches(Port(s))
  {
    assert Port([bl]) == [Decode(bl)];
    PortAppend(s, [bl]);
    IdleAppend(Port(s), Port([bl]));
    LatchesAppend(Port(s), Port([bl]));
  }

  /**
   * The three writes of one nibble latch exactly that nibble (its low four
   * bits) with RS = `isData`, and leave the port idle.
   */
  lemma NibbleLatched(nibble: byte, isData: byte, bl: byte)
    requires IsBacklightState(bl)
    ensures Idle(Port(NibbleWrites(nibble, isData, bl)))
    ensures Latches(Port(NibbleWrites(nibble, isData, bl))) == [Latch(isData != 0x00, nibble & 0x0F)]
  {
    var w := NibbleWrites(nibble, isData, bl);
    NibbleWritesLayout(nibble, isData, bl);
    var p0, p1, p2 := Decode(w[0]), Decode(w[1]), Decode(w[2]);
    assert w[1..][1..] == [w[2]] && [w[2]][1..] == [];
    assert Port([w[2]]) == [p2];
    assert Port(w[1..]) == [p1, p2];
    assert Port(w) == [p0, p1, p2];
    assert [p0, p1, p2][1..] == [p1, p2];
    assert [p1, p2][1..] == [p2];
    assert Edge(p0, p1) == [];
    assert Edge(p1, p2) == [Latch(isData != 0x00, nibble & 0x0F)];
    assert Latches([p1, p2]) == Edge(p1, p2);
  }

  /** A single nibble sequence latches its nibbles in order. */
  lemma {:induction false} NibbleStreamLatched(ns: seq<byte>, isData: byte, bl: byte)
    requires IsBacklightState(bl)
    ensures Idle(Port(NibbleStream(ns, isData, bl)))
    ensures Latches(Port(NibbleStream(ns, isData, bl))) == NibbleLatches(ns, isData != 0x00)
    decreases |ns|
  {
    if ns != [] {
      var w, rest := NibbleWrites(ns[0], isData, bl), NibbleStream(ns[1..], isData, bl);
      assert NibbleStream(ns, isData, bl) == w + rest;
      NibbleLatched(ns[0], isData, bl);
      NibbleStreamLatched(ns[1..], isData, bl);
      PortAppend(w, rest);
      IdleAppend(Port(w), Port(rest));
      LatchesAppend(Port(w), Port(rest));
      assert NibbleLatches(ns, isData != 0x00) == [Latch(isData != 0x00, ns[0] & 0x0F)] + NibbleLatches(ns[1..], isData != 0x00);
    }
  }

  /** The six writes of one byte latch its high nibble, then its low nibble. */
  lemma ByteLatched(b: byte, isData: byte, bl: byte)
    requires IsBacklightState(bl)
    ensures Idle(Port(ByteWrites(b, isData, bl)))
    ensures Latches(Port(ByteWrites(b, isData, bl))) == [Latch(isData != 0x00, b >> 4), Latch(isData != 0x00, b & 0x0F)]
  {
    var hi, lo := NibbleWrites(b >> 4, isData, bl), NibbleWrites(b & 0x0F, isData, bl);
    NibbleLatched(b >> 4, isData, bl);
    NibbleLatched(b & 0x0F, isData, bl);
    PortAppend(hi, lo);
    IdleAppend(Port(hi), Port(lo));
    LatchesAppend(Port(hi), Port(lo));
    assert (b >> 4) & 0x0F == b >> 4;
  }

  /** A byte stream latches two nibbles per byte, in order. */
  lemma {:induction false} ByteStreamLatched(cs: seq<byte>, isData: byte, bl: byte)
    requires IsBacklightState(bl)
    ensures Idle(Port(ByteStream(cs, isData, bl)))
    ensures Latches(Port(ByteStream(cs, isData, bl))) == ByteLatches(cs, isData != 0x00)
    decreases |cs|
  {
    if cs != [] {
      var w, rest := ByteWrites(cs[0], isData, bl), ByteStream(cs[1..], isData, bl);
      assert ByteStream(cs, isData, bl) == w + rest;
      ByteLatched(cs[0], isData, bl);
      ByteStreamLatched(cs[1..], isData, bl);
      PortAppend(w, rest);
      IdleAppend(Port(w), Port(rest));
      LatchesAppend(Port(w), Port(rest));
    }
  }

  /** Pairing the latches of a byte sequence gives back exactly those bytes. */
  lemma {:induction false} AssembleBytes(cs: seq<byte>, isData: bool)
    ensures Assemble(ByteLatches(cs, isData)) == Transfers(cs, isData)
  {
    if cs != [] {
      var ls := ByteLatches(cs, isData);
      AssembleBytes(cs[1..], isData);
      assert ls[2..] == ByteLatches(cs[1..], isData);
      assert ((cs[0] >> 4) << 4) | (cs[0] & 0x0F) == cs[0];
      assert Transfers(cs, isData) == [Transfer(isData, cs[0])] + Transfers(cs[1..], isData);
    }
  }

  /**
   * From an idle port, the writes of a byte stream are read back by the
   * controller as exactly those bytes, each with RS = `isData`.
   */
  lemma {:induction false} ByteStreamRoundTrip(cs: seq<byte>, isData: byte, bl: byte)
    requires IsBacklightState(bl)
    ensures Assemble(Latches(Port(ByteStream(cs, isData, bl)))) == Transfers(cs, isData != 0x00)
  {
    ByteStreamLatched(cs, isData, bl);
    AssembleBytes(cs, isData != 0x00);
  }

  /**
   * The bring-up writes latch the nibbles 3, 3, 3, 2 with RS = 0, then the
   * instructions 0x28, 0x0C, 0x06, 0x01 as pairs of nibbles, whatever the
   * backlight state.
   */
  lemma {:induction false} InitLatched(bl: byte)
    requires IsBacklightState(bl)
    ensures Idle(Port(InitWrites(bl)))
    ensures Latches(Port(InitWrites(bl))) ==
      [Latch(false, 0x03), Latch(false, 0x03), Latch(false, 0x03), Latch(false, 0x02)]
      + ByteLatches(InitCommands, false)
    ensures Assemble(ByteLatches(InitCommands, false)) ==
      [Transfer(false, 0x28), Transfer(false, 0x0C), Transfer(false, 0x06), Transfer(false, 0x01)]
  {
    var n, c := NibbleStream(InitNibbles, 0x00, bl), ByteStream(InitCommands, 0x00, bl);
    NibbleStreamLatched(InitNibbles, 0x00, bl);
    ByteStreamLatched(InitCommands, 0x00, bl);
    PortAppend(n, c);
    IdleAppend(Port(n), Port(c));
    LatchesAppend(Port(n), Port(c));
    assert NibbleLatches(InitNibbles, false) ==
      [Latch(false, 0x03), Latch(false, 0x03), Latch(false, 0x03), Latch(false, 0x02)];
    AssembleBytes(InitCommands, false);
  }
}
