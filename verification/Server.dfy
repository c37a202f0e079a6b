/** The PFCP server's state, and what each message handler does to it and to the shared maps. */
module Server {
  import opened Bytes
  import opened Keys
  import opened Rules
  import Classifier

  datatype SockAddr = V4(ip: u32, port: u16) | V6(high: u64, low: u64, port: u16)

  /** A session control peer is known by the IPv4 node id it announces. */
  type NodeId = u32

  datatype SessionData = SessionData(ueIp: u32, teid: u32, gnbIp: u32, cpSeid: u64)
  datatype Association = Association(peer: SockAddr, recoveryTs: u32, sessions: map<u64, SessionData>)
  datatype UrrConfig = UrrConfig(
    urrId: u32, seid: u64, cpSeid: u64, measures: u8, triggers: u8, threshold: Option<u64>, period: Option<u32>,
    lastReport: nat, thresholdReported: bool, urSeqn: u32)

  datatype Srv = Srv(
    n3: u32, recoveryTs: u32, ncpus: nat,
    assocs: map<NodeId, Association>, nextSeid: u64, nextTeid: u32, sessions: map<u64, SessionData>,
    urrConfigs: map<(u64, u32), UrrConfig>, peer: Option<SockAddr>, nextReportSeq: u32)

  datatype State = State(srv: Srv, maps: Maps)

  const PFCP_PORT: u16 := 8805

  function Initial(n3: u32, recoveryTs: u32, ncpus: nat): State {
    State(Srv(n3, recoveryTs, ncpus, map[], 1, 1000, map[], map[], None, 1000), EMPTY_MAPS)
  }

  /** A decoded request. `Silent` is answered with nothing, `Refused` could not be decoded or is not handled. */
  datatype Request =
    | Heartbeat(recovery: Option<u32>)
    | Setup(nodeId: NodeId, recoveryTs: u32)
    | Establish(cpSeid: u64, pdrs: seq<ParsedPdr>, fars: seq<ParsedFar>, urrs: seq<ParsedUrr>)
    | Modify(modSeid: Option<u64>, updFars: seq<ParsedFar>, updUrrs: seq<ParsedUrr>)
    | Delete(delSeid: Option<u64>)
    | Silent
    | Refused

  datatype Reply =
    | HeartbeatReply(seqNum: u32, recoveryTs: u32)
    | SetupReply(seqNum: u32, addr: u32, recoveryTs: u32)
    | EstablishReply(seqNum: u32, cpSeid: u64, seid: u64, addr: u32, created: seq<(u16, u32, u32)>)
    | ModifyReply(seqNum: u32, seid: u64)
    | DeleteReply(seqNum: u32, seid: u64)
    | NoReply

  /** What `associations.values_mut().find` may answer: any association with that source address. */
  ghost predicate Lookup(assocs: map<NodeId, Association>, src: SockAddr, found: Option<NodeId>) {
    match found
    case None => forall n :: n in assocs ==> assocs[n].peer != src
    case Some(n) => n in assocs && assocs[n].peer == src
  }

  // Heartbeat: a changed recovery time stamp empties the association's list, and nothing else.

  function HeartbeatStep(s: Srv, src: SockAddr, recovery: Option<u32>, found: Option<NodeId>): Srv {
    if src.V4? && found.Some? && found.value in s.assocs && recovery.Some?
       && s.assocs[found.value].recoveryTs != recovery.value
    then
      var a := s.assocs[found.value].(sessions := map[], recoveryTs := recovery.value);
      s.(assocs := s.assocs[found.value := a])
    else s
  }

  // Association setup: the same time stamp is a duplicate; any other one, older ones too, replaces.

  function SetupStep(s: Srv, src: SockAddr, nodeId: NodeId, recoveryTs: u32): Srv {
    if nodeId in s.assocs && s.assocs[nodeId].recoveryTs == recoveryTs then s
    else s.(assocs := s.assocs[nodeId := Association(src, recoveryTs, map[])], peer := Some(V4(nodeId, PFCP_PORT)))
  }

  // Establishment.

  function FirstUeIp(pdrs: seq<ParsedPdr>): Option<u32> {
    if |pdrs| == 0 then None else if pdrs[0].ueIp.Some? then pdrs[0].ueIp else FirstUeIp(pdrs[1..])
  }

  function FirstOhc(fars: seq<ParsedFar>): Option<HeaderCreation> {
    if |fars| == 0 then None else if fars[0].ohc.Some? then fars[0].ohc else FirstOhc(fars[1..])
  }

  function InstallPdrs(m: map<u64, PdrValue>, seid: u64, ueIp: u32, pdrs: seq<ParsedPdr>): map<u64, PdrValue> {
    if |pdrs| == 0 then m
    else
      var p := pdrs[|pdrs| - 1];
      InstallPdrs(m, seid, ueIp, pdrs[..|pdrs| - 1])[Compose(seid, p.pdrId) := PdrVal(p, ueIp)]
  }

  function InstallFars(m: map<u64, FarValue>, seid: u64, n3: u32, fars: seq<ParsedFar>): map<u64, FarValue> {
    if |fars| == 0 then m
    else
      var f := fars[|fars| - 1];
      InstallFars(m, seid, n3, fars[..|fars| - 1])[Compose(seid, f.farId) := FarVal(f, n3)]
  }

  function ZeroCounters(ncpus: nat): seq<UrrStats> {
    seq(ncpus, _ => ZERO_STATS)
  }

  function InstallUrrs(m: map<u64, seq<UrrStats>>, seid: u64, ncpus: nat, urrs: seq<ParsedUrr>): map<u64, seq<UrrStats>> {
    if |urrs| == 0 then m
    else
      InstallUrrs(m, seid, ncpus, urrs[..|urrs| - 1])[Compose(seid, urrs[|urrs| - 1].urrId) := ZeroCounters(ncpus)]
  }

  function NewConfig(seid: u64, cpSeid: u64, now: nat, u: ParsedUrr): UrrConfig {
    UrrConfig(u.urrId, seid, cpSeid, u.measures, u.triggers, u.threshold, u.period, now, false, 0)
  }

  function Configure(c: map<(u64, u32), UrrConfig>, seid: u64, cpSeid: u64, now: nat, urrs: seq<ParsedUrr>)
    : map<(u64, u32), UrrConfig>
  {
    if |urrs| == 0 then c
    else
      var u := urrs[|urrs| - 1];
      Configure(c, seid, cpSeid, now, urrs[..|urrs| - 1])[(seid, u.urrId) := NewConfig(seid, cpSeid, now, u)]
  }

  function Installed(n: nat): nat {
    if n < MAX_PDR_PER_SESSION then n else MAX_PDR_PER_SESSION
  }

  function PdrIdArray(pdrs: seq<ParsedPdr>): PdrIds {
    seq(MAX_PDR_PER_SESSION, i requires 0 <= i => if i < |pdrs| then pdrs[i].pdrId else 0)
  }

  function NewInfo(seid: u64, teid: u32, gnbIp: u32, n3: u32, pdrs: seq<ParsedPdr>): SessionInfo {
    SessionInfo(seid, ToBe32(teid), ToBe32(gnbIp), ToBe32(n3), PdrIdArray(pdrs), Installed(|pdrs|))
  }

  function Created(pdrs: seq<ParsedPdr>, teid: u32, n3: u32): seq<(u16, u32, u32)> {
    if |pdrs| == 0 then []
    else Created(pdrs[..|pdrs| - 1], teid, n3)
         + if pdrs[|pdrs| - 1].sourceInterface == IFACE_ACCESS then [(pdrs[|pdrs| - 1].pdrId, teid, n3)] else []
  }

  function Listed(assocs: map<NodeId, Association>, n: NodeId, cpSeid: u64, data: SessionData): map<NodeId, Association> {
    if n in assocs then assocs[n := assocs[n].(sessions := assocs[n].sessions[cpSeid := data])] else assocs
  }

  /** Refused sources change nothing; a request without UE address or tunnel still uses up its ids. */
  predicate EstablishAuthorised(src: SockAddr, found: Option<NodeId>) {
    src.V4? && found.Some?
  }

  function Allocated(s: Srv): Srv {
    s.(nextSeid := (s.nextSeid + 1) % TWO_64, nextTeid := (s.nextTeid + 1) % 0x1_0000_0000)
  }

  predicate EstablishAccepted(src: SockAddr, r: Request, found: Option<NodeId>)
    requires r.Establish?
  {
    EstablishAuthorised(src, found) && FirstUeIp(r.pdrs).Some? && FirstOhc(r.fars).Some?
  }

  function EstablishStep(st: State, src: SockAddr, r: Request, found: Option<NodeId>, now: nat): State
    requires r.Establish?
  {
    if !EstablishAuthorised(src, found) then st
    else if !EstablishAccepted(src, r, found) then st.(srv := Allocated(st.srv))
    else
      var s, m := st.srv, st.maps;
      var seid, teid := s.nextSeid, s.nextTeid;
      var ueIp, gnbIp := FirstUeIp(r.pdrs).value, FirstOhc(r.fars).value.peerAddr;
      var data := SessionData(ueIp, teid, gnbIp, r.cpSeid);
      State(
        Allocated(s).(sessions := s.sessions[seid := data],
                      urrConfigs := Configure(s.urrConfigs, seid, r.cpSeid, now, r.urrs),
                      assocs := Listed(s.assocs, found.value, r.cpSeid, data)),
        Maps(m.sess[ToBe32(ueIp) := NewInfo(seid, teid, gnbIp, s.n3, r.pdrs)],
             InstallPdrs(m.pdr, seid, ueIp, r.pdrs),
             InstallFars(m.far, seid, s.n3, r.fars),
             InstallUrrs(m.urr, seid, s.ncpus, r.urrs)))
  }

  // Modification. Only the tunnel of an Update FAR is taken over; it also becomes the session's own
  // tunnel when the destination is the access side.

  function PatchFars(m: map<u64, FarValue>, seid: u64, upds: seq<ParsedFar>): map<u64, FarValue> {
    if |upds| == 0 then m
    else
      var u := upds[|upds| - 1];
      var m' := PatchFars(m, seid, upds[..|upds| - 1]);
      var k := Compose(seid, u.farId);
      if u.ohc.Some? && k in m'
      then m'[k := m'[k].(gnbIp := ToBe32(u.ohc.value.peerAddr), teid := ToBe32(u.ohc.value.teid))]
      else m'
  }

  predicate AccessTunnel(u: ParsedFar) {
    u.ohc.Some? && u.destInterface == Some(IFACE_ACCESS)
  }

  function LastTunnel(upds: seq<ParsedFar>): Option<HeaderCreation> {
    if |upds| == 0 then None
    else if AccessTunnel(upds[|upds| - 1]) then upds[|upds| - 1].ohc
    else LastTunnel(upds[..|upds| - 1])
  }

  function WithTunnel(d: SessionData, t: Option<HeaderCreation>): SessionData {
    if t.Some? then d.(gnbIp := t.value.peerAddr, teid := t.value.teid) else d
  }

  function InfoWithTunnel(i: SessionInfo, t: Option<HeaderCreation>): SessionInfo {
    if t.Some? then i.(gnbIp := ToBe32(t.value.peerAddr), teid := ToBe32(t.value.teid)) else i
  }

  function Reconfigured(c: UrrConfig, u: ParsedUrr): UrrConfig {
    c.(measures := u.measures, triggers := u.triggers, threshold := u.threshold, period := u.period,
       thresholdReported := false)
  }

  function Reconfigure(c: map<(u64, u32), UrrConfig>, seid: u64, upds: seq<ParsedUrr>): map<(u64, u32), UrrConfig> {
    if |upds| == 0 then c
    else
      var u := upds[|upds| - 1];
      var c' := Reconfigure(c, seid, upds[..|upds| - 1]);
      if (seid, u.urrId) in c' then c'[(seid, u.urrId) := Reconfigured(c'[(seid, u.urrId)], u)] else c'
  }

  /** The ownership check of modification and deletion: the association found lists the session's cp_seid. */
  predicate Authorised(s: Srv, src: SockAddr, seid: u64, found: Option<NodeId>) {
    && seid in s.sessions && src.V4? && found.Some? && found.value in s.assocs
    && s.sessions[seid].cpSeid in s.assocs[found.value].sessions
  }

  predicate ModifyAccepted(s: Srv, src: SockAddr, r: Request, found: Option<NodeId>)
    requires r.Modify?
  {
    r.modSeid.Some? && Authorised(s, src, r.modSeid.value, found)
  }

  function ModifyStep(st: State, src: SockAddr, r: Request, found: Option<NodeId>): State
    requires r.Modify?
  {
    if !ModifyAccepted(st.srv, src, r, found) then st
    else
      var s, m := st.srv, st.maps;
      var seid := r.modSeid.value;
      var t, k := LastTunnel(r.updFars), ToBe32(s.sessions[seid].ueIp);
      State(
        s.(sessions := s.sessions[seid := WithTunnel(s.sessions[seid], t)],
           urrConfigs := Reconfigure(s.urrConfigs, seid, r.updUrrs)),
        m.(sess := if k in m.sess then m.sess[k := InfoWithTunnel(m.sess[k], t)] else m.sess,
           far := PatchFars(m.far, seid, r.updFars)))
  }

  // Deletion. The rules to remove are found through the SESSION map entry and the PDR values.

  function SeidOrZero(o: Option<u64>): u64 {
    if o.Some? then o.value else 0
  }

  function PdrCount(m: Maps, k: Net32): nat {
    if k in m.sess then Classifier.Limit(m.sess[k]) else 0
  }

  function PdrKeys(m: Maps, k: Net32, seid: u64): set<u64> {
    set i | 0 <= i < PdrCount(m, k) :: Compose(seid, m.sess[k].pdrIds[i])
  }

  function FarIds(m: Maps, k: Net32, seid: u64): set<u32> {
    set key | key in PdrKeys(m, k, seid) && key in m.pdr :: m.pdr[key].farId
  }

  function UrrIds(m: Maps, k: Net32, seid: u64): set<u32> {
    set key | key in PdrKeys(m, k, seid) && key in m.pdr && m.pdr[key].urrId != 0 :: m.pdr[key].urrId
  }

  function KeysOf(seid: u64, ids: set<u32>): set<u64> {
    set id | id in ids :: Compose(seid, id)
  }

  function Unlisted(assocs: map<NodeId, Association>, n: NodeId, cpSeid: u64): map<NodeId, Association> {
    if n in assocs then assocs[n := assocs[n].(sessions := assocs[n].sessions - {cpSeid})] else assocs
  }

  function DeleteMaps(m: Maps, k: Net32, seid: u64): Maps {
    Maps(m.sess - {k}, m.pdr - PdrKeys(m, k, seid),
         m.far - KeysOf(seid, FarIds(m, k, seid)), m.urr - KeysOf(seid, UrrIds(m, k, seid)))
  }

  /** The half of a deletion done under the server lock. */
  function DeleteTables(s: Srv, seid: u64, n: NodeId): Srv
    requires seid in s.sessions
  {
    s.(sessions := s.sessions - {seid}, assocs := Unlisted(s.assocs, n, s.sessions[seid].cpSeid))
  }

  predicate DeleteAccepted(s: Srv, src: SockAddr, r: Request, found: Option<NodeId>)
    requires r.Delete?
  {
    Authorised(s, src, SeidOrZero(r.delSeid), found)
  }

  function DeleteStep(st: State, src: SockAddr, r: Request, found: Option<NodeId>): State
    requires r.Delete?
  {
    if !DeleteAccepted(st.srv, src, r, found) then st
    else
      var s := st.srv;
      var seid := SeidOrZero(r.delSeid);
      State(DeleteTables(s, seid, found.value), DeleteMaps(st.maps, ToBe32(s.sessions[seid].ueIp), seid))
  }

  /** One handled request. */
  function RequestStep(st: State, src: SockAddr, r: Request, found: Option<NodeId>, now: nat): State {
    match r
    case Heartbeat(recovery) => st.(srv := HeartbeatStep(st.srv, src, recovery, found))
    case Setup(n, ts) => st.(srv := SetupStep(st.srv, src, n, ts))
    case Establish(_, _, _, _) => EstablishStep(st, src, r, found, now)
    case Modify(_, _, _) => ModifyStep(st, src, r, found)
    case Delete(_) => DeleteStep(st, src, r, found)
    case Silent => st
    case Refused => st
  }

  /** The answer to it, or an error (which sends nothing). */
  function RequestReply(s: Srv, seqNum: u32, src: SockAddr, r: Request, found: Option<NodeId>): Result<Reply> {
    match r
    case Heartbeat(_) => Ok(HeartbeatReply(seqNum, s.recoveryTs))
    case Setup(_, _) => Ok(SetupReply(seqNum, s.n3, s.recoveryTs))
    case Establish(cp, pdrs, _, _) =>
      if EstablishAccepted(src, r, found)
      then Ok(EstablishReply(seqNum, cp, s.nextSeid, s.n3, Created(pdrs, s.nextTeid, s.n3))) else Err
    case Modify(_, _, _) =>
      if ModifyAccepted(s, src, r, found) then Ok(ModifyReply(seqNum, s.sessions[r.modSeid.value].cpSeid)) else Err
    case Delete(_) => if DeleteAccepted(s, src, r, found) then Ok(DeleteReply(seqNum, SeidOrZero(r.delSeid))) else Err
    case Silent => Ok(NoReply)
    case Refused => Err
  }
}
