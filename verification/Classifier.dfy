/** The per-packet rule search of the XDP program. */
module Classifier {
  import opened Bytes
  import opened Keys
  import opened Rules

  /** Header fields as the program loads them: raw from the packet, so in network order. */
  datatype Query = Query(proto: u8, srcIp: Net32, dstIp: Net32, srcPort: Word16, dstPort: Word16)

  /** The same fields as numbers. */
  datatype Flow = Flow(proto: u8, srcIp: u32, dstIp: u32, srcPort: Word16, dstPort: Word16)

  function Loaded(f: Flow): Query {
    Query(f.proto, ToBe32(f.srcIp), ToBe32(f.dstIp), Exchanged(f.srcPort), Exchanged(f.dstPort))
  }

  predicate SdfMatches(pdr: PdrValue, q: Query) {
    && !(pdr.sdfProto != 0 && pdr.sdfProto != q.proto)
    && !(pdr.sdfSrcIp != ToBe32(0) && pdr.sdfSrcIp != q.srcIp)
    && !(pdr.sdfDstIp != ToBe32(0) && pdr.sdfDstIp != q.dstIp)
    && !(pdr.sdfSrcPort != ZERO && pdr.sdfSrcPort != q.srcPort)
    && !(pdr.sdfDstPort != ZERO && pdr.sdfDstPort != q.dstPort)
  }

  function Limit(info: SessionInfo): (n: nat)
    ensures n <= MAX_PDR_PER_SESSION && n <= info.pdrCount
  {
    if info.pdrCount < MAX_PDR_PER_SESSION then info.pdrCount else MAX_PDR_PER_SESSION
  }

  function PdrKeyAt(info: SessionInfo, i: nat): u64
    requires i < Limit(info)
  {
    Compose(info.seid, info.pdrIds[i])
  }

  /** PDR `i` of the session is installed, matches the packet, has its FAR installed, and is not of the lowest rank. */
  predicate Candidate(m: Maps, info: SessionInfo, iface: u8, q: Query, i: nat) {
    && i < Limit(info)
    && PdrKeyAt(info, i) in m.pdr
    && var pdr := m.pdr[PdrKeyAt(info, i)];
    && pdr.sourceInterface == iface
    && SdfMatches(pdr, q)
    && pdr.precedence < 0xFFFF_FFFF
    && Compose(info.seid, pdr.farId) in m.far
  }

  function PdrAt(m: Maps, info: SessionInfo, iface: u8, q: Query, i: nat): PdrValue
    requires Candidate(m, info, iface, q, i)
  {
    m.pdr[PdrKeyAt(info, i)]
  }

  function FoundAt(m: Maps, info: SessionInfo, iface: u8, q: Query, i: nat): (FarValue, u32)
    requires Candidate(m, info, iface, q, i)
  {
    var pdr := PdrAt(m, info, iface, q, i);
    (m.far[Compose(info.seid, pdr.farId)], pdr.urrId)
  }

  /** `i` is the first among the candidates below `n` of least precedence value. */
  ghost predicate IsBest(m: Maps, info: SessionInfo, iface: u8, q: Query, n: nat, i: nat) {
    && i < n
    && Candidate(m, info, iface, q, i)
    && forall j: nat :: j < n && Candidate(m, info, iface, q, j) ==>
         && PdrAt(m, info, iface, q, i).precedence <= PdrAt(m, info, iface, q, j).precedence
         && (j < i ==> PdrAt(m, info, iface, q, i).precedence < PdrAt(m, info, iface, q, j).precedence)
  }

  ghost predicate NoneBelow(m: Maps, info: SessionInfo, iface: u8, q: Query, n: nat) {
    forall j: nat :: j < n ==> !Candidate(m, info, iface, q, j)
  }

  lemma BestIsUnique(m: Maps, info: SessionInfo, iface: u8, q: Query, n: nat, i: nat, j: nat)
    requires IsBest(m, info, iface, q, n, i) && IsBest(m, info, iface, q, n, j)
    ensures i == j
  {
    assert Candidate(m, info, iface, q, i) && Candidate(m, info, iface, q, j);
  }

  /** What the search finds, as a function of the map contents. */
  function Best(m: Maps, info: SessionInfo, iface: u8, q: Query, n: nat): (r: Option<nat>)
    requires n <= Limit(info)
    ensures r.None? ==> NoneBelow(m, info, iface, q, n)
    ensures r.Some? ==> IsBest(m, info, iface, q, n, r.value)
  {
    if n == 0 then None
    else
      var b := Best(m, info, iface, q, n - 1);
      if !Candidate(m, info, iface, q, n - 1) then b
      else if b.None? then Some(n - 1)
      else if PdrAt(m, info, iface, q, n - 1).precedence < PdrAt(m, info, iface, q, b.value).precedence then Some(n - 1)
      else b
  }

  function SelectFar(m: Maps, info: SessionInfo, iface: u8, q: Query): Option<(FarValue, u32)> {
    var b := Best(m, info, iface, q, Limit(info));
    if b.None? then None else Some(FoundAt(m, info, iface, q, b.value))
  }

  /** The search loop of `select_far`, for any map contents. */
  method SelectFarLoop(maps: SharedMaps, session: SessionInfo, iface: u8, q: Query)
    returns (bestFar: Option<(FarValue, u32)>)
    ensures bestFar == SelectFar(maps.View(), session, iface, q)
    ensures bestFar.None? <==> NoneBelow(maps.View(), session, iface, q, Limit(session))
    ensures bestFar.Some? ==> exists i: nat :: IsBest(maps.View(), session, iface, q, Limit(session), i)
                                            && bestFar.value == FoundAt(maps.View(), session, iface, q, i)
  {
    ghost var m := maps.View();
    bestFar := None;
    var bestPrecedence: u32 := 0xFFFF_FFFF;
    var i := 0;
    while i < MAX_PDR_PER_SESSION
      invariant 0 <= i <= MAX_PDR_PER_SESSION
      invariant i <= Limit(session)
      invariant var b := Best(m, session, iface, q, i);
                if b.None? then bestFar == None && bestPrecedence == 0xFFFF_FFFF
                else bestFar == Some(FoundAt(m, session, iface, q, b.value))
                     && bestPrecedence == PdrAt(m, session, iface, q, b.value).precedence
    {
      if i >= session.pdrCount {
        break;
      }
      var key := Compose(session.seid, session.pdrIds[i]);
      i := i + 1;
      if key !in maps.pdr {
        continue;
      }
      var pdr := maps.pdr[key];
      if pdr.sourceInterface != iface {
        continue;
      }
      if !SdfMatches(pdr, q) {
        continue;
      }
      if pdr.precedence >= bestPrecedence {
        continue;
      }
      var farKey := Compose(session.seid, pdr.farId);
      if farKey !in maps.far {
        continue;
      }
      bestPrecedence := pdr.precedence;
      bestFar := Some((maps.far[farKey], pdr.urrId));
    }
    assert i == Limit(session);
    var b := Best(m, session, iface, q, i);
    if b.Some? {
      assert Candidate(m, session, iface, q, b.value);
    }
  }

  // The downlink path takes its tunnel from the first CORE rule whose FAR is installed.

  predicate CoreRule(m: Maps, info: SessionInfo, i: nat) {
    && i < Limit(info)
    && PdrKeyAt(info, i) in m.pdr
    && m.pdr[PdrKeyAt(info, i)].sourceInterface == IFACE_CORE
    && Compose(info.seid, m.pdr[PdrKeyAt(info, i)].farId) in m.far
  }

  ghost predicate FirstCore(m: Maps, info: SessionInfo, i: nat) {
    CoreRule(m, info, i) && forall j: nat :: j < i ==> !CoreRule(m, info, j)
  }

  function CoreFar(m: Maps, info: SessionInfo, i: nat): FarValue
    requires CoreRule(m, info, i)
  {
    m.far[Compose(info.seid, m.pdr[PdrKeyAt(info, i)].farId)]
  }

  method DownlinkGetFar(maps: SharedMaps, session: SessionInfo) returns (far: Option<FarValue>)
    ensures far.None? <==> forall i: nat :: !CoreRule(maps.View(), session, i)
    ensures far.Some? ==> exists i: nat :: FirstCore(maps.View(), session, i)
                                        && far.value == CoreFar(maps.View(), session, i)
  {
    var i := 0;
    while i < MAX_PDR_PER_SESSION
      invariant 0 <= i <= MAX_PDR_PER_SESSION && i <= Limit(session)
      invariant forall j: nat :: j < i ==> !CoreRule(maps.View(), session, j)
    {
      if i >= session.pdrCount {
        break;
      }
      var key := Compose(session.seid, session.pdrIds[i]);
      i := i + 1;
      if key !in maps.pdr {
        continue;
      }
      var pdr := maps.pdr[key];
      if pdr.sourceInterface != IFACE_CORE {
        continue;
      }
      var farKey := Compose(session.seid, pdr.farId);
      if farKey !in maps.far {
        continue;
      }
      assert FirstCore(maps.View(), session, i - 1);
      return Some(maps.far[farKey]);
    }
    return None;
  }

  /** The rule that gives the tunnel is the best rule for a packet exactly when it matches, is not of the lowest rank,
      and no matching core rule with a FAR has a lower precedence value. */
  lemma FirstCoreIsBestIff(m: Maps, info: SessionInfo, q: Query, i: nat)
    requires FirstCore(m, info, i)
    ensures IsBest(m, info, IFACE_CORE, q, Limit(info), i)
            <==> && SdfMatches(m.pdr[PdrKeyAt(info, i)], q)
                 && m.pdr[PdrKeyAt(info, i)].precedence < 0xFFFF_FFFF
                 && forall j: nat :: CoreRule(m, info, j) && SdfMatches(m.pdr[PdrKeyAt(info, j)], q)
                      ==> m.pdr[PdrKeyAt(info, i)].precedence <= m.pdr[PdrKeyAt(info, j)].precedence
  {
    hide Compose, SdfMatches;
    forall j: nat ensures Candidate(m, info, IFACE_CORE, q, j)
      <==> CoreRule(m, info, j) && SdfMatches(m.pdr[PdrKeyAt(info, j)], q) && m.pdr[PdrKeyAt(info, j)].precedence < 0xFFFF_FFFF {
    }
    if IsBest(m, info, IFACE_CORE, q, Limit(info), i) {
      forall j: nat | CoreRule(m, info, j) && SdfMatches(m.pdr[PdrKeyAt(info, j)], q)
        ensures m.pdr[PdrKeyAt(info, i)].precedence <= m.pdr[PdrKeyAt(info, j)].precedence
      {
        assert m.pdr[PdrKeyAt(info, j)].precedence < 0xFFFF_FFFF ==> Candidate(m, info, IFACE_CORE, q, j);
      }
    }
  }

  // The filter a rule carries, against the flow it is meant for.

  predicate Admits(f: SdfFilter, flow: Flow) {
    && (f.proto == 0 || f.proto == flow.proto)
    && (f.srcIp == 0 || f.srcIp == flow.srcIp)
    && (f.dstIp == 0 || f.dstIp == flow.dstIp)
    && (f.srcPort == ZERO || f.srcPort == flow.srcPort)
    && (f.dstPort == ZERO || f.dstPort == flow.dstPort)
  }

  function PortsExchanged(f: SdfFilter): SdfFilter {
    f.(srcPort := Exchanged(f.srcPort), dstPort := Exchanged(f.dstPort))
  }

  /** What an installed filter admits: addresses as meant, ports with their octets exchanged. */
  lemma StoredFilterAdmits(p: ParsedPdr, ueIp: u32, flow: Flow)
    ensures SdfMatches(PdrVal(p, ueIp), Loaded(flow))
            <==> (p.sdf.None? || Admits(PortsExchanged(p.sdf.value), flow))
  {
  }

  /** An installed filter means what it says on every flow exactly when both its ports read the same either way. */
  lemma FilterFaithfulIff(p: ParsedPdr, ueIp: u32)
    requires p.sdf.Some?
    ensures (forall flow :: SdfMatches(PdrVal(p, ueIp), Loaded(flow)) <==> Admits(p.sdf.value, flow))
            <==> p.sdf.value.srcPort.hi == p.sdf.value.srcPort.lo && p.sdf.value.dstPort.hi == p.sdf.value.dstPort.lo
  {
    var f := p.sdf.value;
    forall flow ensures SdfMatches(PdrVal(p, ueIp), Loaded(flow)) <==> Admits(PortsExchanged(f), flow) {
      StoredFilterAdmits(p, ueIp, flow);
    }
    if forall flow :: SdfMatches(PdrVal(p, ueIp), Loaded(flow)) <==> Admits(f, flow) {
      var flow := Flow(f.proto, f.srcIp, f.dstIp, f.srcPort, f.dstPort);
      assert Admits(f, flow);
      assert SdfMatches(PdrVal(p, ueIp), Loaded(flow));
      assert Admits(PortsExchanged(f), flow);
    }
  }
}
