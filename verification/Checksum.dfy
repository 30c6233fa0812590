/** Bytes as machine words. */
module Bits {
  lemma {:induction false} RoundTrip(x: int)
    requires 0 <= x < 256
    ensures (x as bv8) as int == x
  {
  }
}

/** Which packets reach a student's session (merger/server.c): the heartbeat and test filters of
    msg_loop and the XOR checksum of check_packet. */
module Checksum {
  import opened Hex
  import Bits

  function XorAll(pack: seq<byte>): bv8 {
    if pack == [] then 0 else XorAll(pack[..|pack| - 1]) ^ (pack[|pack| - 1] as bv8)
  }

  /** check_packet */
  method CheckPacket(pack: seq<byte>) returns (ok: bool)
    ensures ok <==> XorAll(pack) == 0
  {
    var checksum: bv8 := 0;
    for i := 0 to |pack|
      invariant checksum == XorAll(pack[..i])
    {
      assert pack[..i + 1][..i] == pack[..i];
      checksum := checksum ^ (pack[i] as bv8);
    }
    assert pack[..|pack|] == pack;
    ok := checksum == 0;
  }

  lemma {:induction false} XorAppend(a: seq<byte>, b: seq<byte>)
    ensures XorAll(a + b) == XorAll(a) ^ XorAll(b)
  {
    if b == [] {
      assert a + b == a;
    } else {
      assert (a + b)[..|a + b| - 1] == a + b[..|b| - 1];
      XorAppend(a, b[..|b| - 1]);
    }
  }

  lemma {:induction false} XorOne(x: byte)
    ensures XorAll([x]) == x as bv8
  {
    assert [x][..0] == [];
  }

  lemma {:induction false} SameBits(x: byte, y: byte)
    ensures x as bv8 == y as bv8 <==> x == y
  {
    Bits.RoundTrip(x);
    Bits.RoundTrip(y);
    var u, v := x as bv8, y as bv8;
    assert u == v ==> u as int == v as int;
  }

  /** A packet with exactly one wrong byte is always rejected if the right one was accepted. */
  lemma {:induction false} OneWrongByte(pack: seq<byte>, i: nat, x: byte)
    requires i < |pack| && XorAll(pack) == 0
    ensures XorAll(pack[i := x]) == 0 <==> x == pack[i]
  {
    var bad := pack[i := x];
    var l, r := pack[..i], pack[i + 1..];
    assert pack == l + ([pack[i]] + r) && bad == l + ([x] + r);
    XorAppend(l, [pack[i]] + r);
    XorAppend([pack[i]], r);
    XorAppend(l, [x] + r);
    XorAppend([x], r);
    XorOne(x);
    XorOne(pack[i]);
    SameBits(x, pack[i]);
    assert XorAll(l) ^ ((pack[i] as bv8) ^ XorAll(r)) == 0;
  }

  /** The checksum covers the channel byte the receiver puts in front: a card payload whose own
      bytes cancel passes exactly when it was received on channel 0. */
  lemma {:induction false} ChannelByteCounts(channel: byte, payload: seq<byte>)
    requires XorAll(payload) == 0
    ensures XorAll([channel] + payload) == 0 <==> channel == 0
  {
    XorAppend([channel], payload);
    XorOne(channel);
    SameBits(channel, 0);
  }

  // ----- the filters in front of handle_student -----

  /** student.first_byte_zero_enable and student.checksum_enable */
  datatype Filter = Filter(firstByteZero: bool, checksum: bool)

  /** Whether a complete packet becomes a reading. */
  predicate IsReading(f: Filter, pack: seq<byte>)
    requires |pack| > 0
  {
    && (if f.firstByteZero then exists i :: 0 <= i < |pack| && pack[i] != 0 else pack[0] != 0)
    && (f.checksum ==> XorAll(pack) == 0)
  }

  /** The test msg_loop makes before handle_packet. */
  method PassesFilter(f: Filter, pack: seq<byte>) returns (pass: bool)
    requires |pack| > 0
    ensures pass <==> if f.firstByteZero then exists i :: 0 <= i < |pack| && pack[i] != 0 else pack[0] != 0
  {
    if f.firstByteZero {
      for j := 0 to |pack|
        invariant forall i :: 0 <= i < j ==> pack[i] == 0
      {
        if pack[j] != 0 {
          return true;
        }
      }
      return false;
    }
    return pack[0] != 0;
  }

  /** Heartbeats never become readings, whatever the configuration. With both checks of the shipped
      configuration a card whose payload cancels is never read: channel 0 fails the first-byte
      test, every other channel fails the checksum. */
  lemma {:induction false} FilterMeaning(f: Filter, channel: byte, payload: seq<byte>)
    ensures (forall i :: 0 <= i < |payload| ==> payload[i] == 0) && channel == 0 ==> !IsReading(f, [channel] + payload)
    ensures XorAll(payload) == 0 ==>
      (IsReading(f, [channel] + payload) <==>
        if f.firstByteZero then (if f.checksum then channel == 0 && exists i :: 0 <= i < |payload| && payload[i] != 0
                                 else channel != 0 || exists i :: 0 <= i < |payload| && payload[i] != 0)
        else channel != 0 && !f.checksum)
  {
    var pack := [channel] + payload;
    assert forall i :: 0 <= i < |payload| ==> pack[i + 1] == payload[i];
    assert pack[0] == channel;
    if XorAll(payload) == 0 {
      ChannelByteCounts(channel, payload);
    }
  }

  /** For each setting, exactly which packets become readings. */
  lemma {:induction false} FilterExact(f: Filter, pack: seq<byte>)
    requires |pack| > 0
    ensures f == Filter(false, true) ==> (IsReading(f, pack) <==> pack[0] != 0 && XorAll(pack) == 0)
    ensures f == Filter(false, false) ==> (IsReading(f, pack) <==> pack[0] != 0)
    ensures f == Filter(true, true) ==>
      (IsReading(f, pack) <==> XorAll(pack) == 0 && !forall i :: 0 <= i < |pack| ==> pack[i] == 0)
    ensures f == Filter(true, false) ==> (IsReading(f, pack) <==> !forall i :: 0 <= i < |pack| ==> pack[i] == 0)
  {
  }

  /** A valid card heard on a channel other than 0 is read whatever the settings; with the checksum
      on, no other packet is; with it off, the checksum does not matter. */
  lemma {:induction false} ValidIsRead(f: Filter, channel: byte, payload: seq<byte>)
    requires channel != 0
    ensures XorAll(payload) == channel as bv8 ==> IsReading(f, [channel] + payload)
    ensures f.checksum && XorAll(payload) != channel as bv8 ==> !IsReading(f, [channel] + payload)
    ensures !f.checksum ==> IsReading(f, [channel] + payload)
  {
    var pack := [channel] + payload;
    assert pack[0] == channel;
    XorAppend([channel], payload);
    XorOne(channel);
    CancelsIff(channel as bv8, XorAll(payload));
  }

  lemma {:induction false} CancelsIff(x: bv8, y: bv8)
    ensures x ^ y == 0 <==> y == x
  {
  }

  // ----- the checksum is a parity -----

  /** How many bytes have one of the bits of the mask, for masks of one bit. */
  function WithBit(pack: seq<byte>, mask: bv8): nat {
    if pack == [] then 0
    else WithBit(pack[..|pack| - 1], mask) + if (pack[|pack| - 1] as bv8) & mask != 0 then 1 else 0
  }

  predicate OneBit(mask: bv8) { mask in [1, 2, 4, 8, 16, 32, 64, 128] }

  lemma {:induction false} XorBit(x: bv8, y: bv8, mask: bv8)
    requires OneBit(mask)
    ensures (x ^ y) & mask != 0 <==> (x & mask != 0) != (y & mask != 0)
  {
  }

  lemma {:induction false} BitIsParity(pack: seq<byte>, mask: bv8)
    requires OneBit(mask)
    ensures XorAll(pack) & mask != 0 <==> WithBit(pack, mask) % 2 == 1
  {
    if pack != [] {
      BitIsParity(pack[..|pack| - 1], mask);
      XorBit(XorAll(pack[..|pack| - 1]), pack[|pack| - 1] as bv8, mask);
    }
  }

  lemma {:induction false} ZeroByBits(x: bv8)
    ensures x == 0 <==> forall mask :: OneBit(mask) ==> x & mask == 0
  {
    if x != 0 {
      assert x & 1 != 0 || x & 2 != 0 || x & 4 != 0 || x & 8 != 0
          || x & 16 != 0 || x & 32 != 0 || x & 64 != 0 || x & 128 != 0;
      assert OneBit(1) && OneBit(2) && OneBit(4) && OneBit(8) && OneBit(16) && OneBit(32) && OneBit(64) && OneBit(128);
    }
  }

  /** A packet passes the checksum exactly when each bit is set in an even number of its bytes. */
  lemma {:induction false} PassesIffEven(pack: seq<byte>)
    ensures XorAll(pack) == 0 <==> forall mask :: OneBit(mask) ==> WithBit(pack, mask) % 2 == 0
  {
    ZeroByBits(XorAll(pack));
    forall mask | OneBit(mask) ensures XorAll(pack) & mask == 0 <==> WithBit(pack, mask) % 2 == 0 {
      BitIsParity(pack, mask);
    }
  }
}
