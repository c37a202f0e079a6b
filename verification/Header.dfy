/** The PFCP message header (section 7.2.2 of 3GPP TS 29.244). */
module Header {
  import opened Bytes

  const PFCP_VERSION: u8 := 1

  datatype PfcpHeader = PfcpHeader(
    version: u8, sFlag: bool, mpFlag: bool, foFlag: bool, msgType: u8, length: u16, seid: Option<u64>,
    seqNum: u32, priority: u8)

  function NodeHeader(msgType: u8, seqNum: u32): PfcpHeader {
    PfcpHeader(PFCP_VERSION, false, false, false, msgType, 0, None, seqNum, 0)
  }

  function SessionHeader(msgType: u8, seid: u64, seqNum: u32): PfcpHeader {
    PfcpHeader(PFCP_VERSION, true, false, false, msgType, 0, Some(seid), seqNum, 0)
  }

  function HeaderLen(h: PfcpHeader): nat {
    if h.sFlag then 16 else 8
  }

  function Flags(h: PfcpHeader): u8 {
    (h.version % 8) * 0x20 + (if h.foFlag then 4 else 0) + (if h.mpFlag then 2 else 0) + (if h.sFlag then 1 else 0)
  }

  /** The header's octets; only 24 bits of the sequence number are carried. */
  function HeaderOctets(h: PfcpHeader): (b: Octets)
    ensures |b| == HeaderLen(h)
  {
    [Flags(h), h.msgType] + BeU16(h.length)
    + (if h.sFlag then BeU64(if h.seid.Some? then h.seid.value else 0) else [])
    + [(h.seqNum / 0x1_0000) % 0x100, (h.seqNum / 0x100) % 0x100, h.seqNum % 0x100,
       if h.mpFlag then (h.priority % 0x10) * 0x10 else 0]
  }

  method Encode(h: PfcpHeader) returns (buf: Octets)
    ensures buf == HeaderOctets(h)
  {
    buf := [];
    var flags: u8 := (h.version % 8) * 0x20;
    if h.foFlag {
      flags := flags + 4;
    }
    if h.mpFlag {
      flags := flags + 2;
    }
    if h.sFlag {
      flags := flags + 1;
    }
    buf := buf + [flags];
    buf := buf + [h.msgType];
    assert flags == Flags(h) && buf == [flags, h.msgType];
    hide Flags, BeU16, BeU64;
    buf := buf + BeU16(h.length);
    if h.sFlag {
      buf := buf + BeU64(if h.seid.Some? then h.seid.value else 0);
    }
    ghost var front := buf;
    var a, b, c := (h.seqNum / 0x1_0000) % 0x100, (h.seqNum / 0x100) % 0x100, h.seqNum % 0x100;
    var d := if h.mpFlag then (h.priority % 0x10) * 0x10 else 0;
    buf := buf + [a];
    buf := buf + [b];
    buf := buf + [c];
    buf := buf + [d];
    assert buf == front + [a, b, c, d];
  }

  /** The header a buffer starts with, and the body after it. The length field is read but not checked. */
  function DecodeHeader(buf: Octets): Result<(PfcpHeader, Octets)> {
    if |buf| < 8 || buf[0] / 0x20 != PFCP_VERSION then Err
    else
      var s, mp, fo := Bit(buf[0], 1), Bit(buf[0], 2), Bit(buf[0], 4);
      if s && |buf| < 16 then Err
      else
        var at := if s then 12 else 4;
        Ok((PfcpHeader(PFCP_VERSION, s, mp, fo, buf[1], ReadU16(buf, 2), if s then Some(ReadU64(buf, 4)) else None,
                       ReadU24(buf, at), if mp then buf[at + 3] / 0x10 else 0),
            buf[at + 4..]))
  }

  method Decode(buf: Octets) returns (r: Result<(PfcpHeader, Octets)>)
    ensures r == DecodeHeader(buf)
  {
    if |buf| < 8 {
      return Err;
    }
    var pos := 0;
    var flags := buf[pos];
    var version := flags / 0x20;
    if version != PFCP_VERSION {
      return Err;
    }
    var s, mp, fo := Bit(flags, 1), Bit(flags, 2), Bit(flags, 4);
    pos := pos + 1;
    var msgType := buf[pos];
    pos := pos + 1;
    var length := ReadU16(buf, pos);
    pos := pos + 2;
    var seid := None;
    if s {
      if |buf| < 16 {
        return Err;
      }
      seid := Some(ReadU64(buf, pos));
      pos := pos + 8;
    }
    var seqNum := ReadU24(buf, pos);
    pos := pos + 3;
    var priority := if mp then buf[pos] / 0x10 else 0;
    pos := pos + 1;
    return Ok((PfcpHeader(version, s, mp, fo, msgType, length, seid, seqNum, priority), buf[pos..]));
  }

  /** What survives the wire: 24 bits of the sequence number, and a priority only with its flag. */
  function Carried(h: PfcpHeader): PfcpHeader {
    h.(seqNum := h.seqNum % 0x100_0000, priority := if h.mpFlag then h.priority % 0x10 else 0)
  }

  /** A version-1 header with a SEID exactly when flagged decodes to what the wire carries of it, in front of any body. */
  lemma DecodeUndoesEncode(h: PfcpHeader, body: Octets)
    requires h.version == PFCP_VERSION && h.seid.Some? == h.sFlag
    ensures DecodeHeader(HeaderOctets(h) + body) == Ok((Carried(h), body))
  {
    hide Flags, BeU64, ReadU64;
    var buf := HeaderOctets(h) + body;
    FlagsReadBack(h);
    assert ReadU16(buf, 2) == h.length by {
      assert buf[2] == BeU16(h.length)[0] && buf[3] == BeU16(h.length)[1];
    }
    if h.sFlag {
      var pre, post := [Flags(h), h.msgType] + BeU16(h.length), HeaderOctets(h)[12..] + body;
      assert buf == pre + BeU64(h.seid.value) + post;
      ReadBackU64(pre, h.seid.value, post);
      assert buf[16..] == body;
    } else {
      assert buf[8..] == body;
    }
    SequenceReadBack(h.seqNum);
  }

  lemma FlagsReadBack(h: PfcpHeader)
    requires h.version == PFCP_VERSION
    ensures Flags(h) / 0x20 == PFCP_VERSION
    ensures Bit(Flags(h), 1) == h.sFlag && Bit(Flags(h), 2) == h.mpFlag && Bit(Flags(h), 4) == h.foFlag
  {
  }

  lemma SequenceReadBack(s: u32)
    ensures ((s / 0x1_0000) % 0x100) * 0x1_0000 + (((s / 0x100) % 0x100) * 0x100 + s % 0x100) == s % 0x100_0000
  {
  }

  /** Any 2^24 consecutive report sequence numbers are told apart on the wire, even where the u32 counter wraps. */
  lemma ConsecutiveSequenceNumbersDiffer(first: u32, i: nat, j: nat, msgType: u8, seid: u64, a: Octets, b: Octets)
    requires i < j < i + 0x100_0000
    ensures var si, sj := (first + i) % 0x1_0000_0000, (first + j) % 0x1_0000_0000;
            var hi, hj := SessionHeader(msgType, seid, si), SessionHeader(msgType, seid, sj);
            DecodeHeader(HeaderOctets(hi) + a).value.0.seqNum != DecodeHeader(HeaderOctets(hj) + b).value.0.seqNum
  {
    hide HeaderOctets, DecodeHeader;
    var si, sj := (first + i) % 0x1_0000_0000, (first + j) % 0x1_0000_0000;
    DecodeUndoesEncode(SessionHeader(msgType, seid, si), a);
    DecodeUndoesEncode(SessionHeader(msgType, seid, sj), b);
    LowBits(first + i);
    LowBits(first + j);
    LowBitsDiffer(first + i, first + j);
  }

  lemma LowBitsDiffer(x: nat, y: nat)
    requires x < y < x + 0x100_0000
    ensures x % 0x100_0000 != y % 0x100_0000
  {
  }

  lemma LowBits(x: nat)
    ensures (x % 0x1_0000_0000) % 0x100_0000 == x % 0x100_0000
  {
  }
}
