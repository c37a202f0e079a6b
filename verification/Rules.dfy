/** Rules as PFCP carries them, their compiled map values, and the four maps shared with the packet path. */
module Rules {
  import opened Bytes

  const MAX_PDR_PER_SESSION := 8
  const IFACE_ACCESS: u8 := 0
  const IFACE_CORE: u8 := 1
  const ACTION_DROP := 0x01
  const ACTION_FORW := 0x02

  // Parsed rules. Addresses are numbers, most significant octet first.

  datatype SdfFilter = SdfFilter(proto: u8, srcIp: u32, dstIp: u32, srcPort: Word16, dstPort: Word16)
  datatype HeaderCreation = HeaderCreation(teid: u32, peerAddr: u32, port: u16)
  datatype ParsedPdr = ParsedPdr(
    pdrId: u16, precedence: u32, sourceInterface: u8, localFteid: Option<(u32, u32)>, ueIp: Option<u32>,
    farId: Option<u32>, urrId: Option<u32>, headerRemoval: bool, sdf: Option<SdfFilter>)
  datatype ParsedFar = ParsedFar(farId: u32, applyAction: u8, destInterface: Option<u8>, ohc: Option<HeaderCreation>)
  datatype ParsedUrr = ParsedUrr(urrId: u32, measures: u8, triggers: u8, threshold: Option<u64>, period: Option<u32>)

  // Map values.

  type PdrIds = s: seq<u32> | |s| == MAX_PDR_PER_SESSION witness [0, 0, 0, 0, 0, 0, 0, 0]
  datatype SessionInfo = SessionInfo(seid: u64, teid: Net32, gnbIp: Net32, upfIp: Net32, pdrIds: PdrIds, pdrCount: u8)
  datatype PdrValue = PdrValue(
    precedence: u32, sourceInterface: u8, ueIp: Net32, farId: u32, urrId: u32, headerRemoval: u8,
    sdfProto: u8, sdfSrcIp: Net32, sdfDstIp: Net32, sdfSrcPort: Word16, sdfDstPort: Word16)
  datatype FarValue = FarValue(applyAction: u8, dstInterface: u8, gnbIp: Net32, teid: Net32, upfN3Ip: Net32)
  datatype UrrStats = UrrStats(ulBytes: u64, ulPackets: u64, dlBytes: u64, dlPackets: u64)

  const ZERO_STATS := UrrStats(0, 0, 0, 0)

  datatype Maps = Maps(
    sess: map<Net32, SessionInfo>, pdr: map<u64, PdrValue>, far: map<u64, FarValue>, urr: map<u64, seq<UrrStats>>)

  const EMPTY_MAPS := Maps(map[], map[], map[], map[])

  /** The maps as both sides hold them: the server writes, the packet path reads and counts. */
  class SharedMaps {
    var sess: map<Net32, SessionInfo>
    var pdr: map<u64, PdrValue>
    var far: map<u64, FarValue>
    var urr: map<u64, seq<UrrStats>>

    function View(): Maps
      reads this
    {
      Maps(sess, pdr, far, urr)
    }

    constructor ()
      ensures View() == EMPTY_MAPS
    {
      sess, pdr, far, urr := map[], map[], map[], map[];
    }
  }

  function OrZero(o: Option<u32>): u32 {
    if o.Some? then o.value else 0
  }

  function PdrVal(p: ParsedPdr, ueIp: u32): PdrValue {
    var f := if p.sdf.Some? then p.sdf.value else SdfFilter(0, 0, 0, ZERO, ZERO);
    PdrValue(p.precedence, p.sourceInterface, ToBe32(ueIp), OrZero(p.farId), OrZero(p.urrId),
             if p.headerRemoval then 1 else 0,
             f.proto, ToBe32(f.srcIp), ToBe32(f.dstIp), f.srcPort, f.dstPort)
  }

  function FarVal(f: ParsedFar, n3: u32): FarValue {
    FarValue(f.applyAction,
             if f.destInterface.Some? then f.destInterface.value else 0,
             if f.ohc.Some? then ToBe32(f.ohc.value.peerAddr) else ToBe32(0),
             if f.ohc.Some? then ToBe32(f.ohc.value.teid) else ToBe32(0),
             ToBe32(n3))
  }

  // Rule lists. An insert overwrites, so of several rules with one id the last is the one in force;
  // FAR ids share a key, and so count as one id, when they agree below 2^16.

  function LastPdr(pdrs: seq<ParsedPdr>, id: u32): (r: Option<ParsedPdr>)
    ensures r.Some? ==> r.value in pdrs
    ensures r.None? <==> forall i :: 0 <= i < |pdrs| ==> pdrs[i].pdrId != id % 0x1_0000
  {
    if |pdrs| == 0 then None
    else
      var last := pdrs[|pdrs| - 1];
      if last.pdrId == id % 0x1_0000 then Some(last) else LastPdr(pdrs[..|pdrs| - 1], id)
  }

  function LastFar(fars: seq<ParsedFar>, id: u32): (r: Option<ParsedFar>)
    ensures r.Some? ==> r.value in fars && r.value.farId % 0x1_0000 == id % 0x1_0000
    ensures r.None? <==> forall i :: 0 <= i < |fars| ==> fars[i].farId % 0x1_0000 != id % 0x1_0000
  {
    if |fars| == 0 then None
    else
      var last := fars[|fars| - 1];
      if last.farId % 0x1_0000 == id % 0x1_0000 then Some(last) else LastFar(fars[..|fars| - 1], id)
  }

  predicate DistinctPdrs(pdrs: seq<ParsedPdr>) {
    forall i, j :: 0 <= i < j < |pdrs| ==> pdrs[i].pdrId != pdrs[j].pdrId
  }

  /** With distinct ids the rule in force under an id is the rule itself. */
  lemma {:induction false} LastPdrIsItself(pdrs: seq<ParsedPdr>, i: nat)
    requires DistinctPdrs(pdrs) && i < |pdrs|
    ensures LastPdr(pdrs, pdrs[i].pdrId) == Some(pdrs[i])
  {
    if i < |pdrs| - 1 {
      LastPdrIsItself(pdrs[..|pdrs| - 1], i);
    }
  }

  /** Distinct as FAR keys have it, below 2^16. */
  predicate DistinctFars(fars: seq<ParsedFar>) {
    forall i, j :: 0 <= i < j < |fars| ==> fars[i].farId % 0x1_0000 != fars[j].farId % 0x1_0000
  }

  lemma {:induction false} LastFarIsItself(fars: seq<ParsedFar>, i: nat)
    requires DistinctFars(fars) && i < |fars|
    ensures LastFar(fars, fars[i].farId) == Some(fars[i])
  {
    if i < |fars| - 1 {
      LastFarIsItself(fars[..|fars| - 1], i);
    }
  }
}
