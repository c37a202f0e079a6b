/** A received datagram: decoded, handled and answered. */
module Dispatch {
  import opened Bytes
  import opened Header
  import opened Messages
  import opened Server
  import opened PfcpServers

  ghost function AnyLookup(assocs: map<NodeId, Association>, src: SockAddr): (found: Option<NodeId>)
    ensures Lookup(assocs, src, found)
  {
    if n :| n in assocs && assocs[n].peer == src then Some(n) else None
  }

  /** Any datagram from any source is one request step, answered with the octets of its reply. */
  method HandleMessage(srv: PfcpServer, data: Octets, src: SockAddr, now: nat)
    returns (r: Result<Octets>, ghost found: Option<NodeId>)
    modifies srv, srv.maps
    ensures Lookup(old(srv.assocs), src, found)
    ensures srv.View() == RequestStep(old(srv.View()), src, RequestIn(data), found, now)
    ensures DecodeHeader(data).Err? ==> r == Err
    ensures DecodeHeader(data).Ok? ==>
              var reply := RequestReply(old(srv.Tables()), DecodeHeader(data).value.0.seqNum, src, RequestIn(data), found);
              r == if reply.Ok? then Ok(ReplyOctets(reply.value)) else Err
  {
    hide DecodeHeader, DecodeRequest, ReplyOctets, EstablishStep, ModifyStep, DeleteStep, HeartbeatStep, SetupStep;
    found := AnyLookup(srv.assocs, src);
    var decoded := Decode(data);
    if decoded.Err? {
      return Err, found;
    }
    var (h, body) := decoded.value;
    var req := DecodeRequest(h, body);
    var reply: Result<Reply>;
    match req {
      case Heartbeat(recovery) =>
        reply, found := srv.HandleHeartbeat(h.seqNum, src, recovery);
      case Setup(nodeId, ts) =>
        reply := srv.HandleSetup(h.seqNum, src, nodeId, ts);
      case Establish(_, _, _, _) =>
        reply, found := srv.HandleEstablishment(h.seqNum, src, req, now);
      case Modify(_, _, _) =>
        reply, found := srv.HandleModification(h.seqNum, src, req);
      case Delete(_) =>
        reply, found := srv.HandleDeletion(h.seqNum, src, req);
      case Silent =>
        reply := Ok(NoReply);
      case Refused =>
        reply := Err;
    }
    if reply.Err? {
      return Err, found;
    }
    var m := BuildReply(reply.value);
    return Ok(m), found;
  }
}
