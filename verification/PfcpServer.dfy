/** The server object: handlers that update its fields and the shared maps in place. */
module PfcpServers {
  import opened Bytes
  import opened Keys
  import opened Rules
  import opened Server

  class PfcpServer {
    const n3: u32
    const recoveryTs: u32
    const ncpus: nat
    const maps: SharedMaps

    var assocs: map<NodeId, Association>
    var nextSeid: u64
    var nextTeid: u32
    var sessions: map<u64, SessionData>
    var urrConfigs: map<(u64, u32), UrrConfig>
    var peer: Option<SockAddr>
    var nextReportSeq: u32

    function Tables(): Srv
      reads this
    {
      Srv(n3, recoveryTs, ncpus, assocs, nextSeid, nextTeid, sessions, urrConfigs, peer, nextReportSeq)
    }

    function View(): State
      reads this, maps
    {
      State(Tables(), maps.View())
    }

    constructor (n3: u32, recoveryTs: u32, ncpus: nat)
      ensures View() == Initial(n3, recoveryTs, ncpus)
      ensures fresh(maps)
    {
      this.n3, this.recoveryTs, this.ncpus := n3, recoveryTs, ncpus;
      maps := new SharedMaps();
      assocs, sessions, urrConfigs, peer := map[], map[], map[], None;
      nextSeid, nextTeid, nextReportSeq := 1, 1000, 1000;
    }

    method AllocSeid() returns (seid: u64)
      modifies this`nextSeid
      ensures seid == old(nextSeid) && nextSeid == (seid + 1) % TWO_64
    {
      seid := nextSeid;
      nextSeid := (nextSeid + 1) % TWO_64;
    }

    method AllocTeid() returns (teid: u32)
      modifies this`nextTeid
      ensures teid == old(nextTeid) && nextTeid == (teid + 1) % 0x1_0000_0000
    {
      teid := nextTeid;
      nextTeid := (nextTeid + 1) % 0x1_0000_0000;
    }

    method AllocReportSeq() returns (s: u32)
      modifies this`nextReportSeq
      ensures s == old(nextReportSeq) && nextReportSeq == (s + 1) % 0x1_0000_0000
    {
      s := nextReportSeq;
      nextReportSeq := (nextReportSeq + 1) % 0x1_0000_0000;
    }

    /** The map is visited in no particular order, so any matching association may be the one found. */
    method FindBySource(src: SockAddr) returns (found: Option<NodeId>)
      ensures Lookup(assocs, src, found)
    {
      var rest := assocs.Keys;
      while rest != {}
        invariant rest <= assocs.Keys
        invariant forall n :: n in assocs && n !in rest ==> assocs[n].peer != src
        decreases rest
      {
        var n :| n in rest;
        if assocs[n].peer == src {
          return Some(n);
        }
        rest := rest - {n};
      }
      return None;
    }

    method HandleHeartbeat(seqNum: u32, src: SockAddr, recovery: Option<u32>)
      returns (r: Result<Reply>, ghost found: Option<NodeId>)
      modifies this
      ensures Lookup(old(assocs), src, found)
      ensures View() == RequestStep(old(View()), src, Heartbeat(recovery), found, 0)
      ensures r == RequestReply(old(Tables()), seqNum, src, Heartbeat(recovery), found)
    {
      var a := FindBySource(src);
      found := a;
      if src.V4? && a.Some? && recovery.Some? {
        var n := a.value;
        if assocs[n].recoveryTs != recovery.value {
          assocs := assocs[n := assocs[n].(sessions := map[], recoveryTs := recovery.value)];
        }
      }
      r := Ok(HeartbeatReply(seqNum, recoveryTs));
    }

    method HandleSetup(seqNum: u32, src: SockAddr, nodeId: NodeId, ts: u32) returns (r: Result<Reply>)
      modifies this
      ensures View() == RequestStep(old(View()), src, Setup(nodeId, ts), None, 0)
      ensures r == RequestReply(old(Tables()), seqNum, src, Setup(nodeId, ts), None)
    {
      r := Ok(SetupReply(seqNum, n3, recoveryTs));
      if nodeId in assocs && ts == assocs[nodeId].recoveryTs {
        return;
      }
      assocs := assocs[nodeId := Association(src, ts, map[])];
      peer := Some(V4(nodeId, PFCP_PORT));
    }

    method HandleEstablishment(seqNum: u32, src: SockAddr, req: Request, now: nat)
      returns (r: Result<Reply>, ghost found: Option<NodeId>)
      requires req.Establish?
      modifies this, maps
      ensures Lookup(old(assocs), src, found)
      ensures View() == RequestStep(old(View()), src, req, found, now)
      ensures r == RequestReply(old(Tables()), seqNum, src, req, found)
    {
      var a := FindBySource(src);
      found := a;
      if !src.V4? || a.None? {
        return Err, found;
      }
      var seid := AllocSeid();
      var teid := AllocTeid();
      var ueIp := FirstUeIp(req.pdrs);
      if ueIp.None? {
        return Err, found;
      }
      var ohc := FirstOhc(req.fars);
      if ohc.None? {
        return Err, found;
      }
      maps.sess := maps.sess[ToBe32(ueIp.value) := NewInfo(seid, teid, ohc.value.peerAddr, n3, req.pdrs)];
      WritePdrs(seid, ueIp.value, req.pdrs);
      WriteFars(seid, req.fars);
      WriteUrrs(seid, req.cpSeid, now, req.urrs);
      var data := SessionData(ueIp.value, teid, ohc.value.peerAddr, req.cpSeid);
      sessions := sessions[seid := data];
      assocs := Listed(assocs, a.value, req.cpSeid, data);
      r := Ok(EstablishReply(seqNum, req.cpSeid, seid, n3, Created(req.pdrs, teid, n3)));
    }

    method WritePdrs(seid: u64, ueIp: u32, pdrs: seq<ParsedPdr>)
      modifies maps`pdr
      ensures maps.pdr == InstallPdrs(old(maps.pdr), seid, ueIp, pdrs)
    {
      for i := 0 to |pdrs|
        invariant maps.pdr == InstallPdrs(old(maps.pdr), seid, ueIp, pdrs[..i])
      {
        assert pdrs[..i + 1][..i] == pdrs[..i];
        maps.pdr := maps.pdr[Compose(seid, pdrs[i].pdrId) := PdrVal(pdrs[i], ueIp)];
      }
      assert pdrs[..|pdrs|] == pdrs;
    }

    method WriteFars(seid: u64, fars: seq<ParsedFar>)
      modifies maps`far
      ensures maps.far == InstallFars(old(maps.far), seid, n3, fars)
    {
      for i := 0 to |fars|
        invariant maps.far == InstallFars(old(maps.far), seid, n3, fars[..i])
      {
        assert fars[..i + 1][..i] == fars[..i];
        maps.far := maps.far[Compose(seid, fars[i].farId) := FarVal(fars[i], n3)];
      }
      assert fars[..|fars|] == fars;
    }

    method WriteUrrs(seid: u64, cpSeid: u64, now: nat, urrs: seq<ParsedUrr>)
      modifies this`urrConfigs, maps`urr
      ensures maps.urr == InstallUrrs(old(maps.urr), seid, ncpus, urrs)
      ensures urrConfigs == Configure(old(urrConfigs), seid, cpSeid, now, urrs)
    {
      for i := 0 to |urrs|
        invariant maps.urr == InstallUrrs(old(maps.urr), seid, ncpus, urrs[..i])
        invariant urrConfigs == Configure(old(urrConfigs), seid, cpSeid, now, urrs[..i])
      {
        assert urrs[..i + 1][..i] == urrs[..i];
        maps.urr := maps.urr[Compose(seid, urrs[i].urrId) := ZeroCounters(ncpus)];
        urrConfigs := urrConfigs[(seid, urrs[i].urrId) := NewConfig(seid, cpSeid, now, urrs[i])];
      }
      assert urrs[..|urrs|] == urrs;
    }

    method HandleModification(seqNum: u32, src: SockAddr, req: Request)
      returns (r: Result<Reply>, ghost found: Option<NodeId>)
      requires req.Modify?
      modifies this, maps
      ensures Lookup(old(assocs), src, found)
      ensures View() == RequestStep(old(View()), src, req, found, 0)
      ensures r == RequestReply(old(Tables()), seqNum, src, req, found)
    {
      var a := FindBySource(src);
      found := a;
      if req.modSeid.None? || req.modSeid.value !in sessions {
        return Err, found;
      }
      var seid := req.modSeid.value;
      var data := sessions[seid];
      if !src.V4? || a.None? || data.cpSeid !in assocs[a.value].sessions {
        return Err, found;
      }
      UpdateFars(seid, ToBe32(data.ueIp), req.updFars);
      UpdateUrrs(seid, req.updUrrs);
      r := Ok(ModifyReply(seqNum, data.cpSeid));
    }

    method UpdateFars(seid: u64, key: Net32, upds: seq<ParsedFar>)
      requires seid in sessions
      modifies this`sessions, maps`far, maps`sess
      ensures maps.far == PatchFars(old(maps.far), seid, upds)
      ensures maps.sess == if key in old(maps.sess)
                           then old(maps.sess)[key := InfoWithTunnel(old(maps.sess[key]), LastTunnel(upds))]
                           else old(maps.sess)
      ensures sessions == old(sessions)[seid := WithTunnel(old(sessions[seid]), LastTunnel(upds))]
    {
      var i := 0;
      while i < |upds|
        invariant i <= |upds|
        invariant maps.far == PatchFars(old(maps.far), seid, upds[..i])
        invariant maps.sess == if key in old(maps.sess)
                               then old(maps.sess)[key := InfoWithTunnel(old(maps.sess[key]), LastTunnel(upds[..i]))]
                               else old(maps.sess)
        invariant sessions == old(sessions)[seid := WithTunnel(old(sessions[seid]), LastTunnel(upds[..i]))]
      {
        assert upds[..i + 1][..i] == upds[..i];
        var u := upds[i];
        i := i + 1;
        if u.ohc.None? {
          continue;
        }
        var ohc := u.ohc.value;
        var farKey := Compose(seid, u.farId);
        if farKey in maps.far {
          maps.far := maps.far[farKey := maps.far[farKey].(gnbIp := ToBe32(ohc.peerAddr), teid := ToBe32(ohc.teid))];
        }
        if u.destInterface == Some(IFACE_ACCESS) {
          if key in maps.sess {
            maps.sess := maps.sess[key := maps.sess[key].(gnbIp := ToBe32(ohc.peerAddr), teid := ToBe32(ohc.teid))];
          }
          sessions := sessions[seid := sessions[seid].(gnbIp := ohc.peerAddr, teid := ohc.teid)];
        }
      }
      assert upds[..|upds|] == upds;
    }

    method UpdateUrrs(seid: u64, upds: seq<ParsedUrr>)
      modifies this`urrConfigs
      ensures urrConfigs == Reconfigure(old(urrConfigs), seid, upds)
    {
      for i := 0 to |upds|
        invariant urrConfigs == Reconfigure(old(urrConfigs), seid, upds[..i])
      {
        assert upds[..i + 1][..i] == upds[..i];
        var key := (seid, upds[i].urrId);
        if key in urrConfigs {
          urrConfigs := urrConfigs[key := Reconfigured(urrConfigs[key], upds[i])];
        }
      }
      assert upds[..|upds|] == upds;
    }

    method HandleDeletion(seqNum: u32, src: SockAddr, req: Request)
      returns (r: Result<Reply>, ghost found: Option<NodeId>)
      requires req.Delete?
      modifies this, maps
      ensures Lookup(old(assocs), src, found)
      ensures View() == RequestStep(old(View()), src, req, found, 0)
      ensures r == RequestReply(old(Tables()), seqNum, src, req, found)
    {
      var seid := SeidOrZero(req.delSeid);
      var data;
      data, found := ForgetSession(src, seid);
      if data.None? {
        return Err, found;
      }
      RemoveRules(seid, ToBe32(data.value.ueIp));
      r := Ok(DeleteReply(seqNum, seid));
    }

    /** The part under the server lock, which is given up before the map work. */
    method ForgetSession(src: SockAddr, seid: u64) returns (data: Option<SessionData>, ghost found: Option<NodeId>)
      modifies this
      ensures Lookup(old(assocs), src, found)
      ensures data == if Authorised(old(Tables()), src, seid, found) then Some(old(sessions)[seid]) else None
      ensures Tables() == if data.Some? then DeleteTables(old(Tables()), seid, found.value) else old(Tables())
    {
      var a := FindBySource(src);
      found := a;
      if seid !in sessions || !src.V4? || a.None? {
        return None, found;
      }
      data := Some(sessions[seid]);
      if data.value.cpSeid !in assocs[a.value].sessions {
        return None, found;
      }
      sessions := sessions - {seid};
      assocs := Unlisted(assocs, a.value, data.value.cpSeid);
    }

    method RemoveRules(seid: u64, key: Net32)
      modifies maps
      ensures maps.View() == DeleteMaps(old(maps.View()), key, seid)
    {
      var pdrIds: PdrIds, count := seq(MAX_PDR_PER_SESSION, _ => 0), 0;
      if key in maps.sess {
        pdrIds, count := maps.sess[key].pdrIds, maps.sess[key].pdrCount;
      }
      if count > MAX_PDR_PER_SESSION {
        count := MAX_PDR_PER_SESSION;
      }
      ghost var m := maps.View();
      assert count == PdrCount(m, key);
      var farIds, urrIds := CollectIds(seid, pdrIds, count, key);
      var removed: set<u64> := {};
      for i := 0 to count
        invariant removed == set j | 0 <= j < i :: Compose(seid, pdrIds[j])
        invariant maps.View() == m.(pdr := m.pdr - removed)
      {
        maps.pdr := maps.pdr - {Compose(seid, pdrIds[i])};
        removed := removed + {Compose(seid, pdrIds[i])};
      }
      assert removed == PdrKeys(m, key, seid);
      RemoveFars(seid, farIds);
      RemoveUrrs(seid, urrIds);
      maps.sess := maps.sess - {key};
    }

    method RemoveFars(seid: u64, ids: set<u32>)
      modifies maps`far
      ensures maps.far == old(maps.far) - KeysOf(seid, ids)
    {
      var rest := ids;
      while rest != {}
        invariant rest <= ids
        invariant maps.far == old(maps.far) - KeysOf(seid, ids - rest)
        decreases rest
      {
        var id :| id in rest;
        assert KeysOf(seid, ids - (rest - {id})) == KeysOf(seid, ids - rest) + {Compose(seid, id)};
        maps.far := maps.far - {Compose(seid, id)};
        rest := rest - {id};
      }
      assert ids - {} == ids;
    }

    method RemoveUrrs(seid: u64, ids: set<u32>)
      modifies maps`urr
      ensures maps.urr == old(maps.urr) - KeysOf(seid, ids)
    {
      var rest := ids;
      while rest != {}
        invariant rest <= ids
        invariant maps.urr == old(maps.urr) - KeysOf(seid, ids - rest)
        decreases rest
      {
        var id :| id in rest;
        assert KeysOf(seid, ids - (rest - {id})) == KeysOf(seid, ids - rest) + {Compose(seid, id)};
        maps.urr := maps.urr - {Compose(seid, id)};
        rest := rest - {id};
      }
      assert ids - {} == ids;
    }

    method CollectIds(seid: u64, pdrIds: PdrIds, count: nat, ghost key: Net32) returns (farIds: set<u32>, urrIds: set<u32>)
      requires count == PdrCount(maps.View(), key)
      requires count > 0 ==> pdrIds == maps.sess[key].pdrIds
      ensures farIds == FarIds(maps.View(), key, seid)
      ensures urrIds == UrrIds(maps.View(), key, seid)
    {
      farIds, urrIds := {}, {};
      ghost var seen: set<u64> := {};
      for i := 0 to count
        invariant seen == set j | 0 <= j < i :: Compose(seid, pdrIds[j])
        invariant farIds == set k | k in seen && k in maps.pdr :: maps.pdr[k].farId
        invariant urrIds == set k | k in seen && k in maps.pdr && maps.pdr[k].urrId != 0 :: maps.pdr[k].urrId
      {
        var k := Compose(seid, pdrIds[i]);
        seen := seen + {k};
        if k in maps.pdr {
          farIds := farIds + {maps.pdr[k].farId};
          if maps.pdr[k].urrId != 0 {
            urrIds := urrIds + {maps.pdr[k].urrId};
          }
        }
      }
      assert seen == PdrKeys(maps.View(), key, seid);
    }
  }
}
