/** The two XDP programs on a frame buffer: GTP-U decapsulation (N3) and encapsulation (N6). */
module Packet {
  import opened Bytes
  import opened Rules
  import opened Classifier
  import opened Checksum
  import opened Counters

  const ETH: nat := 14
  const IP: nat := 20
  const UDP: nat := 8
  const GTPU: nat := 8
  const OPT: nat := 4
  const EXT: nat := 8
  const ADDED: nat := IP + UDP + GTPU + EXT
  const GTP_UDP_PORT: u16 := 2152
  const GPDU: u8 := 0xFF

  datatype Action = Pass | Drop | Redirect

  /** A frame in its buffer: `adjust_head` moves the start within the headroom, at least an Ethernet header staying. */
  class Frame {
    const buf: array<u8>
    var start: nat

    ghost predicate Valid()
      reads this
    {
      start <= buf.Length
    }

    function Bytes(): Octets
      requires Valid()
      reads this, buf
    {
      buf[start..]
    }

    constructor (buf: array<u8>, start: nat)
      requires start <= buf.Length
      ensures Valid() && this.buf == buf && this.start == start
    {
      this.buf, this.start := buf, start;
    }

    method AdjustHead(delta: int) returns (ok: bool)
      requires Valid()
      modifies this`start
      ensures Valid()
      ensures ok <==> 0 <= old(start) + delta && old(start) + delta + ETH <= buf.Length
      ensures start == if ok then old(start) + delta else old(start)
    {
      ok := 0 <= start + delta && start + delta + ETH <= buf.Length;
      if ok {
        start := start + delta;
      }
    }

    /** `ptr_at` and the load behind it: the octets, if they all lie inside the frame. */
    method Load(at: nat, len: nat) returns (v: Option<Octets>)
      requires Valid()
      ensures v == if at + len <= |Bytes()| then Some(Bytes()[at..at + len]) else None
    {
      if start + at + len > buf.Length {
        return None;
      }
      v := Some(buf[start + at..start + at + len]);
      assert v.value == buf[start..][at..at + len];
    }

    /** Overwrites octets inside the frame. */
    method Write(at: nat, octets: Octets)
      requires Valid() && start + at + |octets| <= buf.Length
      modifies buf
      ensures Bytes() == Overwritten(old(Bytes()), at, octets)
      ensures buf[..start] == old(buf[..start])
    {
      var first := start + at;
      for i := 0 to |octets|
        invariant forall k :: 0 <= k < buf.Length ==>
                    buf[k] == if first <= k < first + i then octets[k - first] else old(buf[k])
      {
        buf[first + i] := octets[i];
      }
      ghost var expected := Overwritten(old(Bytes()), at, octets);
      forall k | 0 <= k < |Bytes()| ensures Bytes()[k] == expected[k] {
        assert Bytes()[k] == buf[start + k];
      }
    }
  }

  function Overwritten(b: Octets, at: nat, octets: Octets): (r: Octets)
    requires at + |octets| <= |b|
    ensures |r| == |b|
  {
    b[..at] + octets + b[at + |octets|..]
  }

  // Raw loads and stores of a little-endian host on octets in network order.

  function RawU32(b: Octets, at: nat): Net32
    requires at + 4 <= |b|
  {
    ToBe32(ReadU32(b, at))
  }

  function RawU16(b: Octets, at: nat): Word16
    requires at + 2 <= |b|
  {
    Word16(b[at + 1], b[at])
  }

  function StoredU32(raw: Net32): Octets {
    BeU32(raw.host)
  }

  function StoredU16(raw: u16): Octets {
    BeU16(Swap16(raw))
  }

  // Per-address packet statistics, one entry of counters for every CPU.

  datatype SessionStats = SessionStats(rxBytes: u64, rxPackets: u64, txBytes: u64, txPackets: u64)

  class PacketStats {
    var entries: map<Net32, seq<SessionStats>>

    method Count(ncpus: nat, cpu: nat, key: Net32, len: u64, received: bool)
      requires cpu < ncpus
      modifies this
      ensures entries == StatsOn(old(entries), ncpus, cpu, key, len, received)
    {
      if key in entries {
        var perCpu := entries[key];
        if cpu < |perCpu| {
          entries := entries[key := perCpu[cpu := OnePacket(perCpu[cpu], len, received)]];
        }
      } else {
        var first := if received then SessionStats(len, 1, 0, 0) else SessionStats(0, 0, len, 1);
        entries := entries[key := NoPackets(ncpus)[cpu := first]];
      }
    }
  }

  function OnePacket(s: SessionStats, len: u64, received: bool): SessionStats {
    if received then s.(rxPackets := (s.rxPackets + 1) % TWO_64, rxBytes := (s.rxBytes + len) % TWO_64)
    else s.(txPackets := (s.txPackets + 1) % TWO_64, txBytes := (s.txBytes + len) % TWO_64)
  }

  function NoPackets(ncpus: nat): seq<SessionStats> {
    seq(ncpus, _ => SessionStats(0, 0, 0, 0))
  }

  /** One packet more for the address, on one CPU. */
  function StatsOn(m: map<Net32, seq<SessionStats>>, ncpus: nat, cpu: nat, key: Net32, len: u64, received: bool)
    : map<Net32, seq<SessionStats>>
    requires cpu < ncpus
  {
    var before := if key in m then m[key] else NoPackets(ncpus);
    if cpu < |before| then m[key := before[cpu := OnePacket(before[cpu], len, received)]] else m
  }

  /** One packet adds one packet and its length on its side, on its CPU, for its address, and changes nothing else. */
  lemma StatsAddOne(m: map<Net32, seq<SessionStats>>, ncpus: nat, cpu: nat, key: Net32, len: u64, received: bool)
    requires cpu < ncpus && (key in m ==> cpu < |m[key]|)
    ensures var m' := StatsOn(m, ncpus, cpu, key, len, received);
            && m'.Keys == m.Keys + {key} && (forall k :: k in m && k != key ==> m'[k] == m[k])
            && (key in m ==> |m'[key]| == |m[key]| && forall c :: 0 <= c < |m[key]| && c != cpu ==> m'[key][c] == m[key][c])
            && (key !in m ==> |m'[key]| == ncpus && forall c :: 0 <= c < ncpus && c != cpu ==> m'[key][c] == SessionStats(0, 0, 0, 0))
            && var old', new' := (if key in m then m[key][cpu] else SessionStats(0, 0, 0, 0)), m'[key][cpu];
            && (received ==> new'.rxPackets == (old'.rxPackets + 1) % TWO_64 && new'.rxBytes == (old'.rxBytes + len) % TWO_64
                             && new'.txPackets == old'.txPackets && new'.txBytes == old'.txBytes)
            && (!received ==> new'.txPackets == (old'.txPackets + 1) % TWO_64 && new'.txBytes == (old'.txBytes + len) % TWO_64
                              && new'.rxPackets == old'.rxPackets && new'.rxBytes == old'.rxBytes)
  {
  }

  // Uplink.

  /** The octets an uplink frame has in front of its inner packet, if it is a G-PDU on the GTP-U port. */
  function OuterTotal(b: Octets): Option<nat> {
    if |b| < 14 || ReadU16(b, 12) != 0x0800 then None
    else if |b| < ETH + 10 || b[ETH + 9] != 17 then None
    else if |b| < ETH + IP + 4 || ReadU16(b, ETH + IP + 2) != GTP_UDP_PORT then None
    else if |b| < ETH + IP + UDP + GTPU || b[ETH + IP + UDP + 1] != GPDU then None
    else
      var flags := b[ETH + IP + UDP];
      var opt := if Bit(flags, 0x04) then EXT else if Bit(flags, 0x02) || Bit(flags, 0x01) then OPT else 0;
      Some(ETH + IP + UDP + GTPU + opt)
  }

  /** The query the program builds from the inner packet at `o`. */
  function InnerQuery(b: Octets, o: nat): Option<Query> {
    if |b| < o + 20 then None
    else if b[o + 9] == 6 || b[o + 9] == 17 then
      if |b| < o + 24 then None
      else Some(Query(b[o + 9], RawU32(b, o + 12), RawU32(b, o + 16), RawU16(b, o + 20), RawU16(b, o + 22)))
    else Some(Query(b[o + 9], RawU32(b, o + 12), RawU32(b, o + 16), ZERO, ZERO))
  }

  /** The checks of the outer headers, load by load. */
  method ReadOuter(f: Frame) returns (o: Option<nat>)
    requires f.Valid()
    ensures o == OuterTotal(f.Bytes())
  {
    var ethType := f.Load(12, 2);
    if ethType.None? || ReadU16(ethType.value, 0) != 0x0800 {
      return None;
    }
    var protocol := f.Load(ETH + 9, 1);
    if protocol.None? || protocol.value[0] != 17 {
      return None;
    }
    var port := f.Load(ETH + IP + 2, 2);
    if port.None? || ReadU16(port.value, 0) != GTP_UDP_PORT {
      return None;
    }
    var gtpu := f.Load(ETH + IP + UDP, GTPU);
    if gtpu.None? || gtpu.value[1] != GPDU {
      return None;
    }
    var flags := gtpu.value[0];
    var opt := if Bit(flags, 0x04) then EXT else if Bit(flags, 0x02) || Bit(flags, 0x01) then OPT else 0;
    return Some(ETH + IP + UDP + GTPU + opt);
  }

  /** The loads from the inner packet. */
  method ReadInner(f: Frame, o: nat) returns (q: Option<Query>)
    requires f.Valid()
    ensures q == InnerQuery(f.Bytes(), o)
  {
    ghost var b := f.Bytes();
    var ue := f.Load(o + 12, 4);
    if ue.None? {
      return None;
    }
    var protocol := f.Load(o + 9, 1);
    if protocol.None? {
      return None;
    }
    var dst := f.Load(o + 16, 4);
    if dst.None? {
      return None;
    }
    LoadedWord(b, o + 12);
    LoadedWord(b, o + 16);
    hide ReadU32;
    if protocol.value[0] == 6 || protocol.value[0] == 17 {
      var src := f.Load(o + 20, 2);
      if src.None? {
        return None;
      }
      var dstPort := f.Load(o + 22, 2);
      if dstPort.None? {
        return None;
      }
      return Some(Query(protocol.value[0], RawU32(ue.value, 0), RawU32(dst.value, 0),
                        RawU16(src.value, 0), RawU16(dstPort.value, 0)));
    }
    return Some(Query(protocol.value[0], RawU32(ue.value, 0), RawU32(dst.value, 0), ZERO, ZERO));
  }

  lemma LoadedWord(b: Octets, at: nat)
    requires at + 4 <= |b|
    ensures ReadU32(b[at..at + 4], 0) == ReadU32(b, at)
  {
  }

  /** An uplink frame after decapsulation: a new Ethernet header in front of the inner packet. */
  function Decapsulated(b: Octets, o: nat, bridgeMac: Octets): Octets
    requires ETH <= o <= |b|
  {
    bridgeMac + b[6..12] + [0x08, 0x00] + b[o..]
  }

  predicate Dropped(far: Option<(FarValue, u32)>) {
    far.Some? && Bit(far.value.0.applyAction, ACTION_DROP)
  }

  datatype Verdict = PassOn | DropIt | Strip(outer: nat, counted: Option<(u64, u32)>)

  /** What the uplink program decides, from the frame and the maps. */
  function UplinkVerdict(m: Maps, b: Octets): Verdict {
    var o := OuterTotal(b);
    if o.None? then PassOn
    else
      var q := InnerQuery(b, o.value);
      if q.None? || q.value.srcIp !in m.sess then PassOn
      else
        var info := m.sess[q.value.srcIp];
        var far := if info.pdrCount > 0 then SelectFar(m, info, IFACE_ACCESS, q.value) else None;
        if Dropped(far) then DropIt
        else Strip(o.value, if far.Some? then Some((info.seid, far.value.1)) else None)
  }

  method N3Uplink(f: Frame, maps: SharedMaps, stats: PacketStats, ncpus: nat, cpu: nat, bridgeMac: Octets) returns (a: Action)
    requires f.Valid() && cpu < ncpus && |bridgeMac| == 6
    modifies f, f.buf, maps, stats
    ensures f.Valid()
    ensures maps.View() == match UplinkVerdict(old(maps.View()), old(f.Bytes()))
                           case Strip(_, Some(c)) =>
                             old(maps.View()).(urr := CountOn(old(maps.urr), ncpus, cpu, c.0, c.1, |old(f.Bytes())| % TWO_64, false))
                           case _ => old(maps.View())
    ensures stats.entries == match UplinkVerdict(old(maps.View()), old(f.Bytes()))
                             case Strip(o, _) =>
                               StatsOn(old(stats.entries), ncpus, cpu, InnerQuery(old(f.Bytes()), o).value.srcIp,
                                       |old(f.Bytes())| % TWO_64, true)
                             case _ => old(stats.entries)
    ensures match UplinkVerdict(old(maps.View()), old(f.Bytes()))
            case PassOn => a == Pass && f.Bytes() == old(f.Bytes())
            case DropIt => a == Drop && f.Bytes() == old(f.Bytes())
            case Strip(o, _) => a == Redirect && ETH <= o <= |old(f.Bytes())| && f.Bytes() == Decapsulated(old(f.Bytes()), o, bridgeMac)
  {
    hide SelectFar, CountOn, ReadU16, ReadU32, Decapsulated;
    var bytes := f.Bytes();
    var o := ReadOuter(f);
    if o.None? {
      return Pass;
    }
    var q := ReadInner(f, o.value);
    if q.None? {
      return Pass;
    }
    if q.value.srcIp !in maps.sess {
      return Pass;
    }
    var session := maps.sess[q.value.srcIp];
    var far: Option<(FarValue, u32)> := None;
    if session.pdrCount > 0 {
      far := SelectFarLoop(maps, session, IFACE_ACCESS, q.value);
    }
    if Dropped(far) {
      return Drop;
    }
    stats.Count(ncpus, cpu, q.value.srcIp, |bytes| % TWO_64, true);
    if far.Some? {
      UrrCount(maps, ncpus, cpu, session.seid, far.value.1, |bytes| % TWO_64, false);
    }
    StripOuter(f, o.value, bytes[6..12], bridgeMac);
    return Redirect;
  }

  /** The head moves past the outer headers and back by one Ethernet header, which is then written. */
  method StripOuter(f: Frame, o: nat, ethSrc: Octets, bridgeMac: Octets)
    requires f.Valid() && |bridgeMac| == 6 && ETH <= o && o + ETH <= |f.Bytes()| && ethSrc == f.Bytes()[6..12]
    modifies f, f.buf
    ensures f.Valid() && f.Bytes() == Decapsulated(old(f.Bytes()), o, bridgeMac)
  {
    ghost var b := f.Bytes();
    var ok := f.AdjustHead(o);
    assert ok;
    ok := f.AdjustHead(0 - ETH);
    assert ok;
    ghost var f0 := f.Bytes();
    assert f0[ETH..] == b[o..];
    f.Write(0, bridgeMac);
    assert f.Bytes() == bridgeMac + f0[6..];
    f.Write(6, ethSrc);
    assert f.Bytes() == bridgeMac + ethSrc + f0[12..];
    f.Write(12, [0x08, 0x00]);
    assert f.Bytes() == bridgeMac + ethSrc + [0x08, 0x00] + f0[14..];
  }

  // Downlink.

  function OuterWords(inner: u16, upfIp: Net32, gnbIp: Net32): HeaderWords {
    var s, d := upfIp.host, gnbIp.host;
    [0x4500, (ADDED + inner) % 0x1_0000, 0, 0, 0x4011, 0, s / 0x1_0000, s % 0x1_0000, d / 0x1_0000, d % 0x1_0000]
  }

  /** The outer IPv4 header; the check word is stored without `to_be`. */
  function IpWith(inner: u16, upfIp: Net32, gnbIp: Net32, check: u16): (r: Octets)
    ensures |r| == IP
  {
    [0x45, 0] + BeU16((ADDED + inner) % 0x1_0000) + [0, 0, 0, 0, 64, 17]
    + StoredU16(check) + StoredU32(upfIp) + StoredU32(gnbIp)
  }

  function OuterIp(inner: u16, upfIp: Net32, gnbIp: Net32): (r: Octets)
    ensures |r| == IP
  {
    IpWith(inner, upfIp, gnbIp, ChecksumOf(OuterWords(inner, upfIp, gnbIp)))
  }

  function OuterUdp(inner: u16): (r: Octets)
    ensures |r| == UDP
  {
    BeU16(GTP_UDP_PORT) + BeU16(GTP_UDP_PORT) + BeU16((UDP + GTPU + EXT + inner) % 0x1_0000) + [0, 0]
  }

  function GtpuHeader(inner: u16, teid: Net32): (r: Octets)
    ensures |r| == GTPU
  {
    [0x34, GPDU] + BeU16((inner + EXT) % 0x1_0000) + StoredU32(teid)
  }

  /** PDU session container, downlink, QFI 1. */
  const CONTAINER: Octets := [0x00, 0x00, 0x00, 0x85, 0x01, 0x00, 0x01, 0x00]

  function EthHeader(b: Octets, gnbMac: Octets): Octets
    requires |b| >= 6
  {
    gnbMac + b[..6] + [0x08, 0x00]
  }

  /** A downlink frame after encapsulation, addresses and TEID as the maps hold them. */
  function Encapsulated(b: Octets, gnbMac: Octets, upfIp: Net32, gnbIp: Net32, teid: Net32): Octets
    requires |b| >= 18
  {
    var inner := ReadU16(b, ETH + 2);
    EthHeader(b, gnbMac) + OuterIp(inner, upfIp, gnbIp) + OuterUdp(inner) + GtpuHeader(inner, teid) + CONTAINER + b[ETH..]
  }

  datatype Tunnelling = Leave | Discard | Tunnel(upfIp: Net32, gnbIp: Net32, teid: Net32)

  function DownlinkQuery(b: Octets): Query
    requires |b| >= ETH + IP + 4
  {
    Query(b[ETH + 9], RawU32(b, ETH + 12), RawU32(b, ETH + 16), RawU16(b, ETH + IP), RawU16(b, ETH + IP + 2))
  }

  /** The tunnel is the first CORE rule's if that forwards, else the session's own; a dropping first rule drops. */
  ghost predicate TunnelOf(m: Maps, info: SessionInfo, t: Tunnelling) {
    if info.pdrCount == 0 || (forall i: nat :: !CoreRule(m, info, i)) then t == Tunnel(info.upfIp, info.gnbIp, info.teid)
    else
      exists i: nat :: FirstCore(m, info, i) && t == (
        var far := CoreFar(m, info, i);
        if Bit(far.applyAction, ACTION_DROP) then Discard
        else if Bit(far.applyAction, ACTION_FORW) then Tunnel(info.upfIp, far.gnbIp, far.teid)
        else Tunnel(info.upfIp, info.gnbIp, info.teid))
  }

  /** What the downlink program decides: the best rule may drop, then the first CORE rule gives the tunnel. */
  ghost predicate DownlinkDecision(m: Maps, b: Octets, t: Tunnelling) {
    if |b| < ETH + IP + 4 || ReadU16(b, 12) != 0x0800 || RawU32(b, ETH + 16) !in m.sess then t == Leave
    else
      var info := m.sess[RawU32(b, ETH + 16)];
      if info.pdrCount > 0 && Dropped(SelectFar(m, info, IFACE_CORE, DownlinkQuery(b))) then t == Discard
      else TunnelOf(m, info, t)
  }

  method ChooseTunnel(maps: SharedMaps, info: SessionInfo) returns (t: Tunnelling)
    ensures TunnelOf(maps.View(), info, t) && t != Leave
  {
    if info.pdrCount == 0 {
      return Tunnel(info.upfIp, info.gnbIp, info.teid);
    }
    var far := DownlinkGetFar(maps, info);
    if far.Some? && Bit(far.value.applyAction, ACTION_DROP) {
      return Discard;
    }
    if far.Some? && Bit(far.value.applyAction, ACTION_FORW) {
      return Tunnel(info.upfIp, far.value.gnbIp, far.value.teid);
    }
    return Tunnel(info.upfIp, info.gnbIp, info.teid);
  }

  /** The packet enters the statistics unless it is left alone or the best rule drops it. */
  predicate DownlinkCounted(m: Maps, b: Octets) {
    && |b| >= ETH + IP + 4 && ReadU16(b, 12) == 0x0800 && RawU32(b, ETH + 16) in m.sess
    && var info := m.sess[RawU32(b, ETH + 16)];
    !(info.pdrCount > 0 && Dropped(SelectFar(m, info, IFACE_CORE, DownlinkQuery(b))))
  }

  /** The loads of the downlink program; what is not IPv4 or too short has no query. */
  method ReadPlain(f: Frame) returns (q: Option<Query>)
    requires f.Valid()
    ensures var b := f.Bytes();
            q == if |b| < ETH + IP + 4 || ReadU16(b, 12) != 0x0800 then None else Some(DownlinkQuery(b))
  {
    ghost var b := f.Bytes();
    var ethType := f.Load(12, 2);
    if ethType.None? || ReadU16(ethType.value, 0) != 0x0800 {
      return None;
    }
    var protocol := f.Load(ETH + 9, 1);
    if protocol.None? {
      return None;
    }
    var src := f.Load(ETH + 12, 4);
    if src.None? {
      return None;
    }
    var dst := f.Load(ETH + 16, 4);
    if dst.None? {
      return None;
    }
    LoadedWord(b, ETH + 12);
    LoadedWord(b, ETH + 16);
    hide ReadU32;
    var srcPort := f.Load(ETH + IP, 2);
    if srcPort.None? {
      return None;
    }
    var dstPort := f.Load(ETH + IP + 2, 2);
    if dstPort.None? {
      return None;
    }
    return Some(Query(protocol.value[0], RawU32(src.value, 0), RawU32(dst.value, 0),
                      RawU16(srcPort.value, 0), RawU16(dstPort.value, 0)));
  }

  method N6Downlink(f: Frame, maps: SharedMaps, stats: PacketStats, ncpus: nat, cpu: nat, gnbMac: Octets)
    returns (a: Action, ghost t: Tunnelling)
    requires f.Valid() && cpu < ncpus && |gnbMac| == 6
    modifies f, f.buf, stats
    ensures stats.entries == if DownlinkCounted(maps.View(), old(f.Bytes()))
                             then StatsOn(old(stats.entries), ncpus, cpu, RawU32(old(f.Bytes()), ETH + 16),
                                          |old(f.Bytes())| % TWO_64, false)
                             else old(stats.entries)
    ensures f.Valid() && DownlinkDecision(maps.View(), old(f.Bytes()), t)
    ensures match t
            case Leave => a == Pass && f.Bytes() == old(f.Bytes())
            case Discard => a == Drop && f.Bytes() == old(f.Bytes())
            case Tunnel(upfIp, gnbIp, teid) =>
              if old(f.start) < ADDED then a == Pass && f.Bytes() == old(f.Bytes())
              else a == Redirect && |old(f.Bytes())| >= 18
                   && f.Bytes() == Encapsulated(old(f.Bytes()), gnbMac, upfIp, gnbIp, teid)
  {
    hide SelectFar, ReadU16, ReadU32, OuterIp, OuterUdp, GtpuHeader, TunnelOf;
    var bytes := f.Bytes();
    t := Leave;
    var q := ReadPlain(f);
    if q.None? || q.value.dstIp !in maps.sess {
      return Pass, t;
    }
    var session := maps.sess[q.value.dstIp];
    if session.pdrCount > 0 {
      var far := SelectFarLoop(maps, session, IFACE_CORE, q.value);
      if Dropped(far) {
        return Drop, Discard;
      }
    }
    stats.Count(ncpus, cpu, q.value.dstIp, |bytes| % TWO_64, false);
    var choice := ChooseTunnel(maps, session);
    t := choice;
    if choice.Discard? {
      return Drop, t;
    }
    var inner := ReadU16(bytes, ETH + 2);
    var ok := f.AdjustHead(0 - ADDED);
    if !ok {
      return Pass, t;
    }
    WriteHeaders(f, bytes, gnbMac, inner, choice.upfIp, choice.gnbIp, choice.teid);
    return Redirect, t;
  }

  /** The five header writes into the space in front of the inner packet. */
  method WriteHeaders(f: Frame, b: Octets, gnbMac: Octets, inner: u16, upfIp: Net32, gnbIp: Net32, teid: Net32)
    requires f.Valid() && |gnbMac| == 6 && |b| >= 18 && inner == ReadU16(b, ETH + 2)
    requires |f.Bytes()| == |b| + ADDED && f.Bytes()[ETH + ADDED..] == b[ETH..]
    modifies f.buf
    ensures f.Bytes() == Encapsulated(b, gnbMac, upfIp, gnbIp, teid)
  {
    hide IpWith, OuterUdp, GtpuHeader, ReadU16, ChecksumOf, OuterWords;
    ghost var f0 := f.Bytes();
    var check := IpChecksum(OuterWords(inner, upfIp, gnbIp));
    var eth, ip := EthHeader(b, gnbMac), IpWith(inner, upfIp, gnbIp, check);
    var udp, gtpu := OuterUdp(inner), GtpuHeader(inner, teid);
    f.Write(0, eth);
    assert f.Bytes() == eth + f0[14..];
    f.Write(ETH, ip);
    assert f.Bytes() == eth + ip + f0[34..];
    f.Write(ETH + IP, udp);
    assert f.Bytes() == eth + ip + udp + f0[42..];
    f.Write(ETH + IP + UDP, gtpu);
    assert f.Bytes() == eth + ip + udp + gtpu + f0[50..];
    f.Write(ETH + IP + UDP + GTPU, CONTAINER);
    assert f.Bytes() == eth + ip + udp + gtpu + CONTAINER + f0[58..];
  }

  // Encapsulation and decapsulation.

  /** Where the headers of a made frame are. */
  lemma Places(b: Octets, gnbMac: Octets, upfIp: Net32, gnbIp: Net32, teid: Net32)
    requires |b| >= 18 && |gnbMac| == 6
    ensures var e, inner := Encapsulated(b, gnbMac, upfIp, gnbIp, teid), ReadU16(b, ETH + 2);
            && |e| == |b| + ADDED
            && e[..14] == EthHeader(b, gnbMac) && e[14..34] == OuterIp(inner, upfIp, gnbIp)
            && e[34..42] == OuterUdp(inner) && e[42..50] == GtpuHeader(inner, teid) && e[58..] == b[ETH..]
  {
    hide OuterIp, OuterUdp, GtpuHeader, ReadU16;
  }

  lemma FieldOf(e: Octets, from: nat, h: Octets, off: nat, x: u16)
    requires from + |h| <= |e| && e[from..from + |h|] == h && off + 2 <= |h| && h[off..off + 2] == BeU16(x)
    ensures ReadU16(e, from + off) == x
  {
    assert e[from + off] == h[off] == BeU16(x)[0] && e[from + off + 1] == h[off + 1] == BeU16(x)[1];
  }

  lemma SameQuery(e: Octets, o: nat, b: Octets, at: nat)
    requires o <= |e| && at <= |b| && e[o..] == b[at..]
    ensures InnerQuery(e, o) == InnerQuery(b, at)
  {
    hide ReadU32;
    assert |e[o..]| == |b[at..]|;
    forall k | 0 <= k < |e[o..]| ensures e[o..][k] == b[at + k] && e[o..][k] == e[o + k] {
      assert e[o..][k] == b[at..][k];
    }
    if |e| >= o + 20 {
      SameWord(e, o + 12, b, at + 12);
      SameWord(e, o + 16, b, at + 16);
      assert e[o..][9] == e[o + 9];
      if |e| >= o + 24 {
        assert e[o..][20] == e[o + 20] && e[o..][21] == e[o + 21] && e[o..][22] == e[o + 22] && e[o..][23] == e[o + 23];
      }
    }
  }

  lemma SameWord(e: Octets, o: nat, b: Octets, at: nat)
    requires o + 4 <= |e| && at + 4 <= |b| && e[o..] == b[at..]
    ensures ReadU32(e, o) == ReadU32(b, at)
  {
    assert e[o..][0] == b[at..][0] && e[o..][1] == b[at..][1] && e[o..][2] == b[at..][2] && e[o..][3] == b[at..][3];
  }

  /** The uplink path recognises every frame the downlink path makes, classifies it by the inner packet that was put
      in, and strips exactly what was inserted, so every octet from offset 14 on survives the two. */
  lemma DecapsulationUndoes(b: Octets, gnbMac: Octets, upfIp: Net32, gnbIp: Net32, teid: Net32, bridgeMac: Octets)
    requires |b| >= 18 && |gnbMac| == 6 && |bridgeMac| == 6
    ensures var e := Encapsulated(b, gnbMac, upfIp, gnbIp, teid);
            && |e| == |b| + ADDED
            && OuterTotal(e) == Some(ETH + ADDED) && InnerQuery(e, ETH + ADDED) == InnerQuery(b, ETH)
            && Decapsulated(e, ETH + ADDED, bridgeMac)[ETH..] == b[ETH..]
  {
    hide Encapsulated, ReadU16, BeU16, BeU32, Swap16, ChecksumOf, InnerQuery;
    Places(b, gnbMac, upfIp, gnbIp, teid);
    var e, inner := Encapsulated(b, gnbMac, upfIp, gnbIp, teid), ReadU16(b, ETH + 2);
    SameQuery(e, ETH + ADDED, b, ETH);
    var ip, gtpu := OuterIp(inner, upfIp, gnbIp), GtpuHeader(inner, teid);
    assert ip[9] == 17 by { ProtocolIsUdp(inner, upfIp, gnbIp); }
    assert e[ETH + 9] == ip[9];
    assert e[ETH + IP + UDP] == gtpu[0] && e[ETH + IP + UDP + 1] == gtpu[1];
    TypeField(b, gnbMac);
    FieldOf(e, 0, EthHeader(b, gnbMac), 12, 0x0800);
    DestinationField(inner);
    FieldOf(e, ETH + IP, OuterUdp(inner), 2, GTP_UDP_PORT);
  }

  lemma ProtocolIsUdp(inner: u16, upfIp: Net32, gnbIp: Net32)
    ensures OuterIp(inner, upfIp, gnbIp)[9] == 17
  {
    hide BeU32, Swap16, ChecksumOf;
  }

  lemma TypeField(b: Octets, gnbMac: Octets)
    requires |b| >= 18 && |gnbMac| == 6
    ensures |EthHeader(b, gnbMac)| == ETH && EthHeader(b, gnbMac)[12..14] == BeU16(0x0800)
  {
  }

  lemma DestinationField(inner: u16)
    ensures OuterUdp(inner)[2..4] == BeU16(GTP_UDP_PORT)
  {
    hide BeU16;
  }

  /** The length fields of the made frame nest exactly when the inner total length is at most 65491. */
  lemma LengthsNestIff(b: Octets, gnbMac: Octets, upfIp: Net32, gnbIp: Net32, teid: Net32)
    requires |b| >= 18 && |gnbMac| == 6
    ensures var e, inner := Encapsulated(b, gnbMac, upfIp, gnbIp, teid), ReadU16(b, ETH + 2);
            && |e| >= ETH + ADDED
            && var ipLen, udpLen, gtpLen := ReadU16(e, ETH + 2), ReadU16(e, ETH + IP + 4), ReadU16(e, ETH + IP + UDP + 2);
            (ipLen == IP + udpLen && udpLen == UDP + GTPU + gtpLen && gtpLen == EXT + inner) <==> inner <= 65491
  {
    hide Encapsulated, ReadU16, BeU16, OuterIp, OuterUdp, GtpuHeader;
    Places(b, gnbMac, upfIp, gnbIp, teid);
    var e, inner := Encapsulated(b, gnbMac, upfIp, gnbIp, teid), ReadU16(b, ETH + 2);
    LengthFields(inner, upfIp, gnbIp, teid);
    FieldOf(e, ETH, OuterIp(inner, upfIp, gnbIp), 2, (ADDED + inner) % 0x1_0000);
    FieldOf(e, ETH + IP, OuterUdp(inner), 4, (UDP + GTPU + EXT + inner) % 0x1_0000);
    FieldOf(e, ETH + IP + UDP, GtpuHeader(inner, teid), 2, (inner + EXT) % 0x1_0000);
  }

  lemma LengthFields(inner: u16, upfIp: Net32, gnbIp: Net32, teid: Net32)
    ensures OuterIp(inner, upfIp, gnbIp)[2..4] == BeU16((ADDED + inner) % 0x1_0000)
    ensures OuterUdp(inner)[4..6] == BeU16((UDP + GTPU + EXT + inner) % 0x1_0000)
    ensures GtpuHeader(inner, teid)[2..4] == BeU16((inner + EXT) % 0x1_0000)
  {
    hide BeU16, BeU32, Swap16, ChecksumOf;
  }

  /** The outer header's ten words as a receiver reads them. */
  function WordsAt(e: Octets, at: nat): HeaderWords
    requires at + 20 <= |e|
  {
    seq(10, i requires 0 <= i < 10 => ReadU16(e, at + 2 * i))
  }

  /** The outer header of a made frame verifies exactly when the two octets of its checksum are equal. */
  lemma OuterHeaderVerifiesIff(b: Octets, gnbMac: Octets, upfIp: Net32, gnbIp: Net32, teid: Net32)
    requires |b| >= 18 && |gnbMac| == 6
    ensures var e, ws := Encapsulated(b, gnbMac, upfIp, gnbIp, teid), OuterWords(ReadU16(b, ETH + 2), upfIp, gnbIp);
            |e| >= ETH + IP
            && (OnesSum(WordsAt(e, ETH)) == 0xFFFF <==> ChecksumOf(ws) / 0x100 == ChecksumOf(ws) % 0x100)
  {
    hide OnesSum, ChecksumOf, OuterIp;
    var inner := ReadU16(b, ETH + 2);
    var e, ws := Encapsulated(b, gnbMac, upfIp, gnbIp, teid), OuterWords(inner, upfIp, gnbIp);
    var ip := OuterIp(inner, upfIp, gnbIp);
    assert e[14..34] == ip by { Places(b, gnbMac, upfIp, gnbIp, teid); }
    forall i | 0 <= i < 10 ensures WordsAt(e, ETH)[i] == ReadU16(ip, 2 * i) {
      assert e[14 + 2 * i] == ip[2 * i] && e[15 + 2 * i] == ip[2 * i + 1];
    }
    OuterIpWords(inner, upfIp, gnbIp);
    assert WordsAt(e, ETH) == ws[CHECK := Swap16(ChecksumOf(ws))];
    ExchangedVerifiesIff(ws);
  }

  lemma OuterIpWords(inner: u16, upfIp: Net32, gnbIp: Net32)
    ensures var ip, ws := OuterIp(inner, upfIp, gnbIp), OuterWords(inner, upfIp, gnbIp);
            forall i :: 0 <= i < 10 ==> ReadU16(ip, 2 * i) == ws[CHECK := Swap16(ChecksumOf(ws))][i]
  {
    hide ChecksumOf, Swap16;
    var ip, ws := OuterIp(inner, upfIp, gnbIp), OuterWords(inner, upfIp, gnbIp);
    var c, s, d := Swap16(ChecksumOf(ws)), upfIp.host, gnbIp.host;
    assert ip[..10] == [0x45, 0] + BeU16((ADDED + inner) % 0x1_0000) + [0, 0, 0, 0, 64, 17];
    assert ip[10..12] == BeU16(c);
    assert ip[12..14] == BeU16(s / 0x1_0000) && ip[14..16] == BeU16(s % 0x1_0000);
    assert ip[16..18] == BeU16(d / 0x1_0000) && ip[18..20] == BeU16(d % 0x1_0000);
    forall x: u16 ensures BeU16(x)[0] as int * 0x100 + BeU16(x)[1] == x {
    }
  }
}
