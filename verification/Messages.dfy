/** The control messages and their packed little-endian headers
    (Messages/rreq.h, Messages/rreq.c, Messages/rrep.h, Messages/rrep.c, Messages/rerr.h, Messages/rerr.c). */
module Messages {
  import opened Aodv

  type u2 = x: int | 0 <= x < 4
  type u5 = x: int | 0 <= x < 32
  type u11 = x: int | 0 <= x < 2048

  const RREQ_TYPE: u8 := 1
  const RREP_TYPE: u8 := 2
  const RERR_TYPE: u8 := 3

  const RREQ_GRAT: u5 := 4
  const RREQ_UNKNOWN: u5 := 1

  datatype Rreq = Rreq(flags: u5, ttl: u11, hopCount: u8, rreqId: u32,
                       destIp: u32, destSeq: u32, srcIp: u32, srcSeq: u32) {
    /** The RREQ_UNKNOWN bit. */
    predicate Unknown() {
      flags % 2 == 1
    }

    /** The RREQ_DEST_ONLY bit. */
    predicate DestOnly() {
      flags / 2 % 2 == 1
    }
  }

  datatype Rrep = Rrep(flags: u2, hopCount: u8, destIp: u32, destSeq: u32, srcIp: u32, lifetime: u32)

  datatype Pair = Pair(destIp: u32, destSeq: u32)

  datatype Message =
    | RreqMessage(rreq: Rreq)
    | RrepMessage(rrep: Rrep)
    | RerrMessage(pairs: seq<Pair>)

  /** The 8-bit hop counter of a header, incremented. */
  function NextHopCount(h: u8): u8 {
    if h == 255 then 0 else h + 1
  }

  // ---- Packing ----

  function Word0(low: int, middle: int, typ: u8): u32
    requires 0 <= low < 0x100 && 0 <= middle < 0x1_0000
  {
    low + middle * 0x100 + typ * 0x100_0000
  }

  function PackRreq(m: Rreq): (words: seq<u32>)
    ensures |words| == 6
  {
    [Word0(m.hopCount, m.ttl + m.flags * 0x800, RREQ_TYPE),
     m.rreqId, m.destIp, m.destSeq, m.srcIp, m.srcSeq]
  }

  /** generate_rrep_message leaves the prefix size unset, so any value may stand there. */
  function PackRrep(m: Rrep, prefixSize: u5): (words: seq<u32>)
    ensures |words| == 5
  {
    [Word0(m.hopCount, prefixSize + m.flags * 0x4000, RREP_TYPE),
     m.destIp, m.destSeq, m.srcIp, m.lifetime]
  }

  function PackPairs(pairs: seq<Pair>): (words: seq<u32>)
    ensures |words| == 2 * |pairs|
  {
    if pairs == [] then [] else [pairs[0].destIp, pairs[0].destSeq] + PackPairs(pairs[1..])
  }

  function PackRerr(pairs: seq<Pair>): seq<u32>
    requires |pairs| < 256
  {
    [Word0(|pairs|, 0, RERR_TYPE)] + PackPairs(pairs)
  }

  // ---- Unpacking ----

  /** Byte i of a little-endian word. */
  function Byte(w: u32, i: nat): u8
    requires i < 4
  {
    if i == 0 then w % 0x100
    else if i == 1 then w / 0x100 % 0x100
    else if i == 2 then w / 0x1_0000 % 0x100
    else w / 0x100_0000
  }

  function UnpackRreq(words: seq<u32>): Rreq
    requires |words| >= 6
  {
    var middle := words[0] / 0x100 % 0x1_0000;
    Rreq(middle / 0x800, middle % 0x800, words[0] % 0x100, words[1], words[2], words[3], words[4], words[5])
  }

  function UnpackRrep(words: seq<u32>): Rrep
    requires |words| >= 5
  {
    Rrep(words[0] / 0x40_0000 % 4, words[0] % 0x100, words[1], words[2], words[3], words[4])
  }

  function UnpackPairs(words: seq<u32>, count: nat): (pairs: seq<Pair>)
    requires 2 * count <= |words|
    ensures |pairs| == count
  {
    if count == 0 then [] else [Pair(words[0], words[1])] + UnpackPairs(words[2..], count - 1)
  }

  datatype Option<T> = None | Some(value: T)

  /** What incoming_control_message hands on: the type is byte 3 of the payload; what follows the
      message is ignored. A payload too short for its type, which the original would read past, is dropped. */
  function Dispatch(words: seq<u32>): Option<Message>
    requires |words| > 0
  {
    var typ := Byte(words[0], 3);
    if typ == RREQ_TYPE && |words| >= 6 then Some(RreqMessage(UnpackRreq(words)))
    else if typ == RREP_TYPE && |words| >= 5 then Some(RrepMessage(UnpackRrep(words)))
    else if typ == RERR_TYPE && 2 * Byte(words[0], 0) < |words| then
      Some(RerrMessage(UnpackPairs(words[1..], Byte(words[0], 0))))
    else None
  }

  // ---- Round trips ----

  lemma Word0RoundTrip(low: int, middle: int, typ: u8)
    requires 0 <= low < 0x100 && 0 <= middle < 0x1_0000
    ensures var w := Word0(low, middle, typ);
            w % 0x100 == low && w / 0x100 % 0x1_0000 == middle && Byte(w, 3) == typ
  {
    var w := Word0(low, middle, typ);
    assert w / 0x100 == middle + typ * 0x1_0000;
  }

  lemma RreqRoundTrip(m: Rreq, rest: seq<u32>)
    ensures Dispatch(PackRreq(m) + rest) == Some(RreqMessage(m))
  {
    Word0RoundTrip(m.hopCount, m.ttl + m.flags * 0x800, RREQ_TYPE);
  }

  /** An intermediate node sends its replies one word too long, which changes nothing. */
  lemma RrepRoundTrip(m: Rrep, prefixSize: u5, rest: seq<u32>)
    ensures Dispatch(PackRrep(m, prefixSize) + rest) == Some(RrepMessage(m))
  {
    var middle := prefixSize + m.flags * 0x4000;
    Word0RoundTrip(m.hopCount, middle, RREP_TYPE);
    var w := Word0(m.hopCount, middle, RREP_TYPE);
    assert w / 0x40_0000 == m.flags + RREP_TYPE * 4;
  }

  lemma {:induction false} PairsRoundTrip(pairs: seq<Pair>, rest: seq<u32>)
    ensures UnpackPairs(PackPairs(pairs) + rest, |pairs|) == pairs
  {
    if pairs == [] {
    } else {
      var words, first := PackPairs(pairs) + rest, [pairs[0].destIp, pairs[0].destSeq];
      assert words == first + (PackPairs(pairs[1..]) + rest);
      assert words[2..] == PackPairs(pairs[1..]) + rest;
      PairsRoundTrip(pairs[1..], rest);
      assert [Pair(words[0], words[1])] + pairs[1..] == pairs;
    }
  }

  lemma RerrRoundTrip(pairs: seq<Pair>, rest: seq<u32>)
    requires |pairs| < 256
    ensures Dispatch(PackRerr(pairs) + rest) == Some(RerrMessage(pairs))
  {
    Word0RoundTrip(|pairs|, 0, RERR_TYPE);
    PairsRoundTrip(pairs, rest);
    assert (PackRerr(pairs) + rest)[1..] == PackPairs(pairs) + rest;
  }

  // ---- Layout ----

  /** The fields of a packed request stand where the struct has them; bit fields are laid out from the low end of the
      first word: 8 bits of hop count, 11 of TTL, 5 of flags, 8 of type. */
  lemma RreqLayout(m: Rreq)
    ensures var w := PackRreq(m);
            && w[0] % 0x100 == m.hopCount && w[0] / 0x100 % 0x800 == m.ttl
            && w[0] / 0x8_0000 % 32 == m.flags && w[0] / 0x100_0000 == 1
            && w[1..] == [m.rreqId, m.destIp, m.destSeq, m.srcIp, m.srcSeq]
  {
    var middle := m.ttl + m.flags * 0x800;
    var w := Word0(m.hopCount, middle, RREQ_TYPE);
    Word0RoundTrip(m.hopCount, middle, RREQ_TYPE);
    assert w / 0x8_0000 == m.flags + RREQ_TYPE * 32;
    assert w / 0x100 == m.ttl + (m.flags + RREQ_TYPE * 32) * 0x800;
  }

  /** The same for a reply: 8 bits of hop count, 5 of prefix size, 9 unused, 2 of flags, 8 of type. */
  lemma RrepLayout(m: Rrep, prefixSize: u5)
    ensures var w := PackRrep(m, prefixSize);
            && w[0] % 0x100 == m.hopCount && w[0] / 0x100 % 32 == prefixSize && w[0] / 0x2000 % 0x200 == 0
            && w[0] / 0x40_0000 % 4 == m.flags && w[0] / 0x100_0000 == 2
            && w[1..] == [m.destIp, m.destSeq, m.srcIp, m.lifetime]
  {
    var middle := prefixSize + m.flags * 0x4000;
    var w := Word0(m.hopCount, middle, RREP_TYPE);
    Word0RoundTrip(m.hopCount, middle, RREP_TYPE);
    assert w / 0x40_0000 == m.flags + RREP_TYPE * 4;
    assert w / 0x2000 == (m.flags + RREP_TYPE * 4) * 0x200;
    assert w / 0x100 == prefixSize + (m.flags + RREP_TYPE * 4) * 0x4000;
  }

  /** And for an error: the number of pairs, the type, and the pairs one after the other. */
  lemma RerrLayout(pairs: seq<Pair>)
    requires |pairs| < 256
    ensures var w := PackRerr(pairs);
            && w[0] % 0x100 == |pairs| && w[0] / 0x100_0000 == 3
            && forall i :: 0 <= i < |pairs| ==> w[1 + 2 * i] == pairs[i].destIp && w[2 + 2 * i] == pairs[i].destSeq
  {
    Word0RoundTrip(|pairs|, 0, RERR_TYPE);
    forall i | 0 <= i < |pairs|
      ensures PackPairs(pairs)[2 * i] == pairs[i].destIp && PackPairs(pairs)[2 * i + 1] == pairs[i].destSeq
    {
      PairLayout(pairs, i);
    }
  }

  lemma {:induction false} PairLayout(pairs: seq<Pair>, i: nat)
    requires i < |pairs|
    ensures PackPairs(pairs)[2 * i] == pairs[i].destIp && PackPairs(pairs)[2 * i + 1] == pairs[i].destSeq
  {
    if i > 0 {
      PairLayout(pairs[1..], i - 1);
    }
  }

  // ---- Headers in place ----

  /** `hop_count++` on the 8-bit field at the low end of the first word. */
  method IncrementHop(packet: array<u32>)
    requires packet.Length > 0
    modifies packet
    ensures packet[1..] == old(packet[1..])
    ensures Byte(packet[0], 0) == NextHopCount(Byte(old(packet[0]), 0))
    ensures packet[0] / 0x100 == old(packet[0]) / 0x100
  {
    packet[0] := packet[0] - packet[0] % 0x100 + (packet[0] % 0x100 + 1) % 0x100;
  }

  method IncrementHopRreq(packet: array<u32>)
    requires packet.Length >= 6
    modifies packet
    ensures UnpackRreq(packet[..]) ==
            var m := UnpackRreq(old(packet[..])); m.(hopCount := NextHopCount(m.hopCount))
  {
    var was := packet[0];
    IncrementHop(packet);
    SameMiddle(was, packet[0]);
    assert forall i :: 1 <= i < 6 ==> packet[..][i] == packet[1..][i - 1];
  }

  method IncrementHopRrep(packet: array<u32>)
    requires packet.Length >= 5
    modifies packet
    ensures UnpackRrep(packet[..]) ==
            var m := UnpackRrep(old(packet[..])); m.(hopCount := NextHopCount(m.hopCount))
  {
    var was := packet[0];
    IncrementHop(packet);
    SameMiddle(was, packet[0]);
    assert forall i :: 1 <= i < 5 ==> packet[..][i] == packet[1..][i - 1];
  }

  /** `ttl--` on the 11-bit field above the hop count. */
  method DecrementTtl(packet: array<u32>)
    requires packet.Length >= 6 && UnpackRreq(packet[..]).ttl > 0
    modifies packet
    ensures UnpackRreq(packet[..]) == var m := UnpackRreq(old(packet[..])); m.(ttl := m.ttl - 1)
  {
    var w := packet[0];
    packet[0] := w - 0x100;
    TtlDecremented(w);
    assert forall i :: 1 <= i < 6 ==> packet[..][i] == old(packet[..])[i];
  }

  lemma TtlDecremented(w: u32)
    requires w / 0x100 % 0x1_0000 % 0x800 > 0
    ensures w >= 0x100 && (w - 0x100) % 0x100 == w % 0x100
    ensures (w - 0x100) / 0x100 % 0x1_0000 % 0x800 == w / 0x100 % 0x1_0000 % 0x800 - 1
    ensures (w - 0x100) / 0x100 % 0x1_0000 / 0x800 == w / 0x100 % 0x1_0000 / 0x800
  {
    var high := w / 0x100;
    assert (w - 0x100) / 0x100 == high - 1;
    var middle := high % 0x1_0000;
    assert (high - 1) % 0x1_0000 == middle - 1;
  }

  /** The destination number of the request in the packet. */
  method SetDestSeq(packet: array<u32>, destSeq: u32)
    requires packet.Length >= 6
    modifies packet
    ensures UnpackRreq(packet[..]) == UnpackRreq(old(packet[..])).(destSeq := destSeq)
  {
    packet[3] := destSeq;
  }

  lemma SameMiddle(w: u32, x: u32)
    requires w / 0x100 == x / 0x100
    ensures w / 0x40_0000 == x / 0x40_0000
  {
    assert w / 0x40_0000 == w / 0x100 / 0x4000;
    assert x / 0x40_0000 == x / 0x100 / 0x4000;
  }

  /** generate_rerr_message_buff: the header and a copy of the first pairs of the buffer. */
  method GenerateRerrMessageBuff(numberDests: u8, buffer: array<u32>) returns (packet: array?<u32>)
    requires 2 * numberDests <= buffer.Length
    ensures numberDests == 0 <==> packet == null
    ensures packet != null ==> fresh(packet) && packet[..] == PackRerr(UnpackPairs(buffer[..], numberDests))
  {
    if numberDests <= 0 {
      return null;
    }
    packet := new u32[1 + 2 * numberDests];
    packet[0] := Word0(numberDests, 0, RERR_TYPE);
    for i := 0 to 2 * numberDests
      invariant packet[0] == Word0(numberDests, 0, RERR_TYPE)
      invariant packet[1..i + 1] == buffer[..i]
    {
      packet[i + 1] := buffer[i];
    }
    UnpackThenPack(buffer[..], numberDests);
    assert packet[..] == [packet[0]] + packet[1..];
  }

  lemma {:induction false} UnpackThenPack(words: seq<u32>, count: nat)
    requires 2 * count <= |words|
    ensures PackPairs(UnpackPairs(words, count)) == words[..2 * count]
  {
    if count == 0 {
    } else {
      UnpackThenPack(words[2..], count - 1);
      assert UnpackPairs(words, count)[1..] == UnpackPairs(words[2..], count - 1);
    }
  }
}
