/** Frames put together octet by octet, and what the packet programs make of them. */
module Frames {
  import opened Bytes
  import opened Keys
  import opened Rules
  import opened Classifier
  import opened World
  import opened Compiled
  import opened Packet
  import opened DataPlane
  import opened Decisions

  // Making frames.

  /** An Ethernet header with two addresses and the IPv4 type. */
  function Ethernet(dst: Octets, src: Octets): Octets {
    dst + src + [0x08, 0x00]
  }

  /** An IPv4 header without options: nine octets, the protocol, a checksum, and the addresses. */
  function Ipv4(first: Octets, protocol: u8, check: Octets, src: u32, dst: u32): Octets {
    first + [protocol] + check + BeU32(src) + BeU32(dst)
  }

  predicate Ipv4Parts(first: Octets, check: Octets) {
    |first| == 9 && |check| == 2
  }

  /** The ports at the head of TCP and UDP. */
  function Ports(src: Word16, dst: Word16): Octets {
    [src.hi, src.lo, dst.hi, dst.lo]
  }

  /** A packet of a flow. */
  function PacketOf(first: Octets, check: Octets, f: Flow, rest: Octets): Octets {
    Ipv4(first, f.proto, check, f.srcIp, f.dstIp) + Ports(f.srcPort, f.dstPort) + rest
  }

  /** What follows the fixed GTP-U header: nothing without flags E, S and PN; four octets for S or PN; eight with E. */
  predicate OptionalPart(flags: u8, opt: Octets) {
    |opt| == if flags % 8 == 0 then 0 else if flags % 8 < 4 then 4 else 8
  }

  /** An IPv4 frame with UDP to port 2152 that carries a G-PDU. */
  function GpduFrame(dst: Octets, src: Octets, ip: Octets, udpSrc: Octets, udpRest: Octets, flags: u8, gtpRest: Octets,
                     opt: Octets, p: Octets): Octets {
    Ethernet(dst, src) + ip + (udpSrc + [0x08, 0x68] + udpRest) + ([flags, 0xFF] + gtpRest) + opt + p
  }

  predicate GpduParts(dst: Octets, src: Octets, ip: Octets, udpSrc: Octets, udpRest: Octets, flags: u8, gtpRest: Octets, opt: Octets) {
    && |dst| == 6 && |src| == 6 && |ip| == 20 && ip[9] == 17 && |udpSrc| == 2 && |udpRest| == 4 && |gtpRest| == 6
    && OptionalPart(flags, opt)
  }

  // Uplink.

  lemma OuterPlaces(dst: Octets, src: Octets, ip: Octets, udpSrc: Octets, udpRest: Octets, flags: u8, gtpRest: Octets,
                    opt: Octets, p: Octets)
    requires GpduParts(dst, src, ip, udpSrc, udpRest, flags, gtpRest, opt)
    ensures var b := GpduFrame(dst, src, ip, udpSrc, udpRest, flags, gtpRest, opt, p);
            && |b| == 50 + |opt| + |p| && b[..6] == dst && b[6..12] == src && b[12] == 0x08 && b[13] == 0 && b[23] == 17
            && b[36] == 0x08 && b[37] == 0x68 && b[42] == flags && b[43] == 0xFF && b[50 + |opt|..] == p
  {
    var b := GpduFrame(dst, src, ip, udpSrc, udpRest, flags, gtpRest, opt, p);
    assert b[14..34] == ip;
    assert b[23] == b[14..34][9];
  }

  lemma OptionLength(flags: u8, opt: Octets)
    requires OptionalPart(flags, opt)
    ensures |opt| == if Bit(flags, 0x04) then EXT else if Bit(flags, 0x02) || Bit(flags, 0x01) then OPT else 0
  {
  }

  /** Every such frame is recognised, everything in front of the inner packet is counted as outer, and after the strip the
      inner packet follows an Ethernet header from the frame's source to the bridge. */
  lemma GpduStripped(dst: Octets, src: Octets, ip: Octets, udpSrc: Octets, udpRest: Octets, flags: u8, gtpRest: Octets,
                     opt: Octets, p: Octets, bridgeMac: Octets)
    requires GpduParts(dst, src, ip, udpSrc, udpRest, flags, gtpRest, opt)
    ensures var b := GpduFrame(dst, src, ip, udpSrc, udpRest, flags, gtpRest, opt, p);
            && OuterTotal(b) == Some(|b| - |p|) && ETH <= |b| - |p|
            && Decapsulated(b, |b| - |p|, bridgeMac) == Ethernet(bridgeMac, src) + p
  {
    hide GpduFrame;
    OuterPlaces(dst, src, ip, udpSrc, udpRest, flags, gtpRest, opt, p);
    OptionLength(flags, opt);
  }

  /** Nothing else is recognised. */
  lemma RecognisedIff(b: Octets)
    ensures OuterTotal(b).Some? <==>
              && |b| >= 50 && b[12] == 0x08 && b[13] == 0 && b[23] == 17
              && b[36] == 0x08 && b[37] == 0x68 && b[43] == 0xFF
  {
    assert |b| >= 14 ==> (ReadU16(b, 12) == 0x0800 <==> b[12] == 0x08 && b[13] == 0);
    assert |b| >= 38 ==> (ReadU16(b, 36) == GTP_UDP_PORT <==> b[36] == 0x08 && b[37] == 0x68);
  }

  // Queries.

  lemma PacketPlaces(first: Octets, check: Octets, f: Flow, rest: Octets)
    requires Ipv4Parts(first, check)
    ensures var p := PacketOf(first, check, f, rest);
            && |p| == 24 + |rest| && p[9] == f.proto && ReadU32(p, 12) == f.srcIp && ReadU32(p, 16) == f.dstIp
            && Word16(p[20], p[21]) == f.srcPort && Word16(p[22], p[23]) == f.dstPort
  {
    hide BeU32, ReadU32;
    var p := PacketOf(first, check, f, rest);
    var before, after := first + [f.proto] + check, Ports(f.srcPort, f.dstPort) + rest;
    ReadBackU32(before, f.srcIp, BeU32(f.dstIp) + after);
    assert p == before + BeU32(f.srcIp) + (BeU32(f.dstIp) + after);
    ReadBackU32(before + BeU32(f.srcIp), f.dstIp, after);
    assert p == (before + BeU32(f.srcIp)) + BeU32(f.dstIp) + after;
  }

  /** Both programs read the flow of a packet of TCP or UDP. */
  lemma PacketQueried(outer: Octets, eth: Octets, first: Octets, check: Octets, f: Flow, rest: Octets)
    requires Ipv4Parts(first, check) && |eth| == ETH
    ensures DownlinkQuery(eth + PacketOf(first, check, f, rest)) == Loaded(f)
    ensures f.proto == 6 || f.proto == 17 ==> InnerQuery(outer + PacketOf(first, check, f, rest), |outer|) == Some(Loaded(f))
  {
    hide ReadU32, PacketOf;
    var p := PacketOf(first, check, f, rest);
    PacketPlaces(first, check, f, rest);
    assert p[0..] == p;
    SameQuery(outer + p, |outer|, p, 0);
    assert (eth + p)[ETH..] == p[0..];
    SameWord(eth + p, ETH + 12, p, 12);
    SameWord(eth + p, ETH + 16, p, 16);
  }

  /** For other protocols the uplink program takes the ports as zero, and needs no octets after the IPv4 header. */
  lemma PortlessQueried(outer: Octets, first: Octets, check: Octets, f: Flow, rest: Octets)
    requires Ipv4Parts(first, check) && f.proto != 6 && f.proto != 17
    ensures InnerQuery(outer + Ipv4(first, f.proto, check, f.srcIp, f.dstIp) + rest, |outer|)
            == Some(Loaded(f.(srcPort := ZERO, dstPort := ZERO)))
  {
    hide BeU32, ReadU32;
    var b := outer + Ipv4(first, f.proto, check, f.srcIp, f.dstIp) + rest;
    var before := outer + first + [f.proto] + check;
    ReadBackU32(before, f.srcIp, BeU32(f.dstIp) + rest);
    assert b == before + BeU32(f.srcIp) + (BeU32(f.dstIp) + rest);
    ReadBackU32(before + BeU32(f.srcIp), f.dstIp, rest);
    assert b == (before + BeU32(f.srcIp)) + BeU32(f.dstIp) + rest;
  }

  /** Too short an inner packet makes no query, and the frame is passed on whatever the maps hold. */
  lemma ShortPacketsPassed(m: Maps, dst: Octets, src: Octets, ip: Octets, udpSrc: Octets, udpRest: Octets, flags: u8,
                           gtpRest: Octets, opt: Octets, p: Octets)
    requires GpduParts(dst, src, ip, udpSrc, udpRest, flags, gtpRest, opt)
    ensures var b := GpduFrame(dst, src, ip, udpSrc, udpRest, flags, gtpRest, opt, p);
            && (InnerQuery(b, 50 + |opt|).None? <==> |p| < 20 || (|p| < 24 && (p[9] == 6 || p[9] == 17)))
            && (InnerQuery(b, 50 + |opt|).None? ==> UplinkVerdict(m, b) == PassOn)
  {
    hide GpduFrame, SelectFar;
    OuterPlaces(dst, src, ip, udpSrc, udpRest, flags, gtpRest, opt, p);
    GpduStripped(dst, src, ip, udpSrc, udpRest, flags, gtpRest, opt, p, dst);
    var b := GpduFrame(dst, src, ip, udpSrc, udpRest, flags, gtpRest, opt, p);
    assert |p| > 9 ==> b[50 + |opt|..][9] == p[9];
  }

  // The decisions on such frames.

  /** After any orderly run, a G-PDU with a packet of a TCP or UDP flow is passed on exactly when its source is no live
      session's address; else it is dropped, or stripped to that packet and counted, as the session's rules say of the
      flow. */
  lemma UplinkFrames(n3: u32, ts: u32, ncpus: nat, es: seq<Event>, dst: Octets, src: Octets, ip: Octets, udpSrc: Octets,
                     udpRest: Octets, flags: u8, gtpRest: Octets, opt: Octets, first: Octets, check: Octets, f: Flow, rest: Octets)
    requires Along(Orderly, Start(n3, ts, ncpus), es)
    requires GpduParts(dst, src, ip, udpSrc, udpRest, flags, gtpRest, opt) && Ipv4Parts(first, check)
    requires f.proto == 6 || f.proto == 17
    ensures var p := PacketOf(first, check, f, rest);
            var b := GpduFrame(dst, src, ip, udpSrc, udpRest, flags, gtpRest, opt, p);
            var w := Run(Start(n3, ts, ncpus), es);
            var s, v := w.st.srv.sessions, UplinkVerdict(w.st.maps, b);
            && |b| >= |p|
            && (v == PassOn <==> forall t :: t in s ==> s[t].ueIp != f.srcIp)
            && forall t :: t in s && s[t].ueIp == f.srcIp ==> t in w.books && UplinkAsRuled(w.books[t], t, f, |b| - |p|, v)
  {
    hide PacketOf, GpduFrame, UplinkVerdict, UplinkAsRuled, InnerQuery, OuterTotal, Run, Along;
    var p := PacketOf(first, check, f, rest);
    var b := GpduFrame(dst, src, ip, udpSrc, udpRest, flags, gtpRest, opt, p);
    OuterPlaces(dst, src, ip, udpSrc, udpRest, flags, gtpRest, opt, p);
    var outer := b[..|b| - |p|];
    GpduStripped(dst, src, ip, udpSrc, udpRest, flags, gtpRest, opt, p, dst);
    assert b == outer + p;
    PacketQueried(outer, Ethernet(dst, src), first, check, f, rest);
    LoadedFlow(f);
    UplinkFollowsRules(n3, ts, ncpus, es, b, |b| - |p|);
  }

  lemma LoadedFlow(f: Flow)
    ensures FlowOf(Loaded(f)) == f
  {
  }

  /** After any orderly run, a downlink frame with a packet of a flow is left alone exactly when its destination is no live
      session's address, and of the others those are dropped that the session's rules drop for the flow. */
  lemma DownlinkFrames(n3: u32, ts: u32, ncpus: nat, es: seq<Event>, dst: Octets, src: Octets, first: Octets, check: Octets,
                       f: Flow, rest: Octets, choice: Tunnelling)
    requires Along(Orderly, Start(n3, ts, ncpus), es)
    requires |dst| == 6 && |src| == 6 && Ipv4Parts(first, check)
    ensures var b := Ethernet(dst, src) + PacketOf(first, check, f, rest);
            var w := Run(Start(n3, ts, ncpus), es);
            var s := w.st.srv.sessions;
            DownlinkDecision(w.st.maps, b, choice) ==>
              && (choice == Leave <==> forall t :: t in s ==> s[t].ueIp != f.dstIp)
              && forall t :: t in s && s[t].ueIp == f.dstIp ==>
                   t in w.books && (choice == Discard <==> DownlinkDrops(w.books[t], f))
  {
    hide PacketOf, DownlinkDecision, DownlinkDrops, Run, Along, ReadU32, DownlinkQuery;
    var eth, p := Ethernet(dst, src), PacketOf(first, check, f, rest);
    var b := eth + p;
    PacketPlaces(first, check, f, rest);
    PacketQueried([], eth, first, check, f, rest);
    LoadedFlow(f);
    assert b[ETH..] == p[0..];
    SameWord(b, ETH + 16, p, 16);
    assert b[12] == 0x08 && b[13] == 0x00 && ReadU16(b, 12) == 0x0800;
    if DownlinkDecision(Run(Start(n3, ts, ncpus), es).st.maps, b, choice) {
      DownlinkDropsAsRuled(n3, ts, ncpus, es, b, choice);
    }
  }

  // The frames the downlink program makes.

  /** A made frame is a G-PDU from port 2152 to the gNB with the whole packet in it, behind a PDU session container
      (downlink, QFI 1), in an IPv4 packet without options or fragments and with TTL 64; it goes from the address the frame
      came to. */
  lemma MadeFrame(dst: Octets, src: Octets, p: Octets, gnbMac: Octets, upfIp: Net32, gnbIp: Net32, teid: Net32)
    requires |dst| == 6 && |src| == 6 && |p| >= 4 && |gnbMac| == 6
    ensures var b, inner := Ethernet(dst, src) + p, ReadU16(p, 2);
            var ip := OuterIp(inner, upfIp, gnbIp);
            var udpRest, gtpRest := BeU16((inner + 24) % 0x1_0000) + [0, 0], BeU16((inner + 8) % 0x1_0000) + BeU32(teid.host);
            var container := [0, 0, 0, 0x85, 1, 0, 1, 0];
            && Encapsulated(b, gnbMac, upfIp, gnbIp, teid)
               == GpduFrame(gnbMac, dst, ip, [0x08, 0x68], udpRest, 0x34, gtpRest, container, p)
            && GpduParts(gnbMac, dst, ip, [0x08, 0x68], udpRest, 0x34, gtpRest, container)
            && ip[0] == 0x45 && ip[1] == 0 && ip[2..4] == BeU16((inner + 44) % 0x1_0000) && ip[4..8] == [0, 0, 0, 0] && ip[8] == 64
            && ip[12..16] == BeU32(upfIp.host) && ip[16..20] == BeU32(gnbIp.host)
  {
    hide BeU32, StoredU16;
    var b := Ethernet(dst, src) + p;
    assert ReadU16(b, ETH + 2) == ReadU16(p, 2) && b[..6] == dst && b[ETH..] == p;
    assert BeU16(GTP_UDP_PORT) == [0x08, 0x68];
    hide BeU16, ReadU16;
    OuterOctets(ReadU16(p, 2), upfIp, gnbIp);
  }

  lemma OuterOctets(inner: u16, upfIp: Net32, gnbIp: Net32)
    ensures var ip := OuterIp(inner, upfIp, gnbIp);
            && ip[0] == 0x45 && ip[1] == 0 && ip[2..4] == BeU16((inner + 44) % 0x1_0000) && ip[4..8] == [0, 0, 0, 0] && ip[8] == 64
            && ip[9] == 17 && ip[12..16] == BeU32(upfIp.host) && ip[16..20] == BeU32(gnbIp.host)
  {
    hide BeU16, BeU32, OuterWords;
  }
}
