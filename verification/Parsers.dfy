/** The leaf parsers on arbitrary octets: what they accept, and that their values are the octets' and nothing else's. */
module Parsers {
  import opened Bytes
  import opened Rules
  import opened Header
  import opened GroupedIes
  import opened Builder

  /** A field read is the value whose octets are there, the most significant first. */
  lemma ReadsU16(b: Octets, at: nat, x: u16)
    requires at + 2 <= |b|
    ensures ReadU16(b, at) == x <==> b[at..at + 2] == BeU16(x)
  {
    WriteBackU16(b, at);
    if b[at..at + 2] == BeU16(x) {
      ReadBackU16(b[..at], x, b[at + 2..]);
      assert b == b[..at] + BeU16(x) + b[at + 2..];
    }
  }

  lemma WriteBackU32(b: Octets, at: nat)
    requires at + 4 <= |b|
    ensures BeU32(ReadU32(b, at)) == b[at..at + 4]
  {
    WriteBackU16(b, at);
    WriteBackU16(b, at + 2);
    var hi, lo := ReadU16(b, at), ReadU16(b, at + 2);
    assert ReadU32(b, at) / 0x1_0000 == hi && ReadU32(b, at) % 0x1_0000 == lo;
    hide BeU16;
    assert b[at..at + 4] == b[at..at + 2] + b[at + 2..at + 4];
  }

  lemma WriteBackU64(b: Octets, at: nat)
    requires at + 8 <= |b|
    ensures BeU64(ReadU64(b, at)) == b[at..at + 8]
  {
    WriteBackU32(b, at);
    WriteBackU32(b, at + 4);
    var hi, lo := ReadU32(b, at), ReadU32(b, at + 4);
    assert ReadU64(b, at) / 0x1_0000_0000 == hi && ReadU64(b, at) % 0x1_0000_0000 == lo;
    hide BeU32;
    assert b[at..at + 8] == b[at..at + 4] + b[at + 4..at + 8];
  }

  lemma ReadsU32(b: Octets, at: nat, x: u32)
    requires at + 4 <= |b|
    ensures ReadU32(b, at) == x <==> b[at..at + 4] == BeU32(x)
  {
    hide ReadU32, BeU32;
    WriteBackU32(b, at);
    if b[at..at + 4] == BeU32(x) {
      ReadBackU32(b[..at], x, b[at + 4..]);
      assert b == b[..at] + BeU32(x) + b[at + 4..];
    }
  }

  lemma ReadsU64(b: Octets, at: nat, x: u64)
    requires at + 8 <= |b|
    ensures ReadU64(b, at) == x <==> b[at..at + 8] == BeU64(x)
  {
    hide ReadU64, BeU64;
    WriteBackU64(b, at);
    if b[at..at + 8] == BeU64(x) {
      ReadBackU64(b[..at], x, b[at + 8..]);
      assert b == b[..at] + BeU64(x) + b[at + 8..];
    }
  }

  lemma FirstOctet(x: u64)
    ensures BeU64(x)[0] == x / 0x100_0000_0000_0000 && BeU64(x)[7] == x % 0x100
  {
    var hi, lo := x / 0x1_0000_0000, x % 0x1_0000_0000;
    assert hi / 0x1_0000 / 0x100 == x / 0x100_0000_0000_0000;
    assert lo % 0x1_0000 % 0x100 == x % 0x100;
  }

  // Node ID, time stamp, F-SEID.

  lemma NodeIdIff(v: Octets, a: u32)
    ensures ParseNodeId(v) == Ok(a) <==> |v| >= 5 && v[0] % 0x10 == 0 && v[1..5] == BeU32(a)
  {
    hide ReadU32, BeU32;
    if |v| >= 5 {
      ReadsU32(v, 1, a);
    }
  }

  lemma TimestampIff(v: Octets, ts: u32)
    ensures ParseRecoveryTimestamp(v) == Ok(ts) <==> |v| >= 4 && v[..4] == BeU32(ts)
  {
    hide ReadU32, BeU32;
    if |v| >= 4 {
      ReadsU32(v, 0, ts);
      assert v[0..4] == v[..4];
    }
  }

  lemma FseidIff(v: Octets, seid: u64, a: u32)
    ensures ParseFseid(v) == Ok((seid, a)) <==> |v| >= 13 && seid == ReadU64(v, 1) && v[9..13] == BeU32(a)
  {
    hide ReadU32, BeU32, ReadU64;
    if |v| >= 13 {
      ReadsU32(v, 9, a);
    }
  }

  // F-TEID: the third bit asks the UPF to choose, whatever follows.

  lemma FteidIff(v: Octets, teid: u32, a: u32)
    ensures ParseFteid(v) == Ok((teid, a)) <==>
              && |v| >= 5
              && if v[0] / 4 % 2 == 1 then teid == 0 && a == 0 else |v| >= 9 && v[1..5] == BeU32(teid) && v[5..9] == BeU32(a)
  {
    hide ReadU32, BeU32;
    if |v| >= 9 {
      ReadsU32(v, 1, teid);
      ReadsU32(v, 5, a);
    }
  }

  // UE IP address, outer header creation, filter, threshold.

  lemma UeIpIff(v: Octets, a: u32)
    ensures ParseUeIpAddress(v) == Ok(a) <==> |v| >= 5 && v[0] / 2 % 2 == 1 && v[1..5] == BeU32(a)
  {
    hide ReadU32, BeU32;
    if |v| >= 5 {
      ReadsU32(v, 1, a);
    }
  }

  lemma OhcIff(v: Octets, h: HeaderCreation)
    ensures ParseOuterHeaderCreation(v) == Ok(h)
            <==> |v| >= 10 && v[2..6] == BeU32(h.teid) && v[6..10] == BeU32(h.peerAddr) && h.port == 2152
  {
    hide ReadU32, BeU32;
    if |v| >= 10 {
      ReadsU32(v, 2, h.teid);
      ReadsU32(v, 6, h.peerAddr);
    }
  }

  lemma SdfIff(v: Octets, f: SdfFilter)
    ensures ParseSdfFilter(v) == Ok(f) <==>
              && |v| >= 13 && v[0] == f.proto && v[1..5] == BeU32(f.srcIp) && v[5..9] == BeU32(f.dstIp)
              && v[9..13] == [f.srcPort.hi, f.srcPort.lo, f.dstPort.hi, f.dstPort.lo]
  {
    hide ReadU32, BeU32;
    if |v| >= 13 {
      ReadsU32(v, 1, f.srcIp);
      ReadsU32(v, 5, f.dstIp);
      assert v[9..13] == [v[9], v[10], v[11], v[12]];
    }
  }

  lemma ThresholdIff(v: Octets, x: u64)
    ensures ParseVolumeThreshold(v) == Ok(None) <==> |v| == 0 || v[0] % 2 == 0
    ensures ParseVolumeThreshold(v) == Ok(Some(x)) <==> |v| >= 9 && v[0] % 2 == 1 && x == ReadU64(v, 1)
  {
    hide ReadU64;
  }

  // The message header.

  /** A header is read exactly from version 1 octets that are as many as the SEID flag asks for; its fields are the octets
      at their places, and what follows is the body. */
  lemma HeaderIff(b: Octets, h: PfcpHeader, body: Octets)
    ensures DecodeHeader(b) == Ok((h, body)) <==>
              && |b| >= 8 && b[0] / 0x20 == 1 && (b[0] % 2 == 1 ==> |b| >= 16)
              && h.version == 1 && h.sFlag == (b[0] % 2 == 1) && h.mpFlag == (b[0] / 2 % 2 == 1) && h.foFlag == (b[0] / 4 % 2 == 1)
              && h.msgType == b[1] && b[2..4] == BeU16(h.length)
              && h.seid == (if h.sFlag then Some(ReadU64(b, 4)) else None)
              && (var at := if h.sFlag then 12 else 4;
                  && h.seqNum == b[at] as int * 0x1_0000 + b[at + 1] as int * 0x100 + b[at + 2]
                  && h.priority == (if h.mpFlag then b[at + 3] / 0x10 else 0)
                  && body == b[at + 4..])
  {
    hide ReadU64, BeU16;
    if |b| >= 8 {
      ReadsU16(b, 2, h.length);
    }
  }
}
