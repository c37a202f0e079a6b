/** What a peer reads in the answers it gets. */
module Answers {
  import opened Bytes
  import opened Rules
  import opened Tlv
  import opened Header
  import opened GroupedIes
  import opened Builder
  import opened RoundTrip
  import opened Messages
  import opened Server
  import Validator

  function Timestamp(ies: seq<RawIe>): Result<u32> {
    match FindIe(ies, RECOVERY_TIME_STAMP) { case None => Err case Some(v) => ParseRecoveryTimestamp(v) }
  }

  function Node(ies: seq<RawIe>): Result<u32> {
    match FindIe(ies, NODE_ID) { case None => Err case Some(v) => ParseNodeId(v) }
  }

  function Fseid(ies: seq<RawIe>): Result<(u64, u32)> {
    match FindIe(ies, FSEID) { case None => Err case Some(v) => ParseFseid(v) }
  }

  /** The cause element says that the request was accepted. */
  predicate Accepted(ies: seq<RawIe>) {
    FindIe(ies, CAUSE) == Some([1])
  }

  /** PDR id and tunnel of a Created PDR. */
  function CreatedPdr(v: Octets): Result<(u16, u32, u32)> {
    var id, f := FindIe(Parse(v), PDR_ID), FindIe(Parse(v), FTEID);
    if id.None? || |id.value| < 2 || f.None? || ParseFteid(f.value).Err? then Err
    else Ok((ReadU16(id.value, 0), ParseFteid(f.value).value.0, ParseFteid(f.value).value.1))
  }

  /** The header of an answer: its type, 24 bits of the request's sequence number, and the SEID the peer is addressed by. */
  predicate Headed(h: PfcpHeader, msgType: u8, seqNum: u32, seid: Option<u64>) {
    h.msgType == msgType && h.seqNum == seqNum % 0x100_0000 && h.seid == seid
  }

  /** The answer a peer finds in the octets. */
  ghost predicate Reads(octets: Octets, msgType: u8, seqNum: u32, seid: Option<u64>, ies: seq<RawIe>) {
    var d := DecodeHeader(octets);
    d.Ok? && Headed(d.value.0, msgType, seqNum, seid) && Parse(d.value.1) == ies
  }

  /** A heartbeat is answered with the UPF's own recovery time stamp. */
  lemma HeartbeatAnswer(seqNum: u32, ts: u32)
    ensures exists ies :: Reads(ReplyOctets(HeartbeatReply(seqNum, ts)), 2, seqNum, None, ies) && Timestamp(ies) == Ok(ts)
  {
    hide Pack, Parse, Wire, HeaderOctets, DecodeHeader, FindIe, BeU32, ParseRecoveryTimestamp;
    var r := HeartbeatReply(seqNum, ts);
    ReplyShort(r);
    WireReadBack(ReplyHeader(r), ReplyFields(r));
    var ies := Raws(ReplyFields(r));
    Validator.FindAt(ies, RECOVERY_TIME_STAMP, 0);
    LeafValues(0, ts, 0, 0);
    assert Reads(ReplyOctets(r), 2, seqNum, None, ies);
  }

  /** An association setup is answered with the UPF's address, its recovery time stamp and its features. */
  lemma SetupAnswer(seqNum: u32, addr: u32, ts: u32)
    ensures exists ies :: Reads(ReplyOctets(SetupReply(seqNum, addr, ts)), 6, seqNum, None, ies)
              && Node(ies) == Ok(addr) && Accepted(ies) && Timestamp(ies) == Ok(ts)
              && FindIe(ies, UP_FUNCTION_FEATURES) == Some([4, 0])
  {
    hide Pack, Parse, Wire, HeaderOctets, DecodeHeader, FindIe, BeU32, NodeIdOctets, ParseRecoveryTimestamp, ParseNodeId;
    var r := SetupReply(seqNum, addr, ts);
    ReplyShort(r);
    WireReadBack(ReplyHeader(r), ReplyFields(r));
    var ies := Raws(ReplyFields(r));
    Validator.FindAt(ies, NODE_ID, 0);
    Validator.FindAt(ies, CAUSE, 1);
    Validator.FindAt(ies, RECOVERY_TIME_STAMP, 2);
    Validator.FindAt(ies, UP_FUNCTION_FEATURES, 3);
    LeafValues(0, ts, 0, addr);
    assert Reads(ReplyOctets(r), 6, seqNum, None, ies);
  }

  /** The elements after the first three of an establishment response are its created PDRs, in order. */
  ghost predicate CreatedAre(ies: seq<RawIe>, created: seq<(u16, u32, u32)>) {
    && |ies| == 3 + |created|
    && forall i :: 0 <= i < |created| ==> ies[3 + i].ieType == CREATED_PDR && CreatedPdr(ies[3 + i].value) == Ok(created[i])
  }

  lemma CreatedReadBack(c: (u16, u32, u32))
    ensures CreatedPdr(Pack(CreatedFields(c))) == Ok(c)
  {
    hide Pack, Parse, FindIe, FteidOctets, ParseFteid, BeU16, ReadU16;
    CreatedShort(c);
    ParsePack(CreatedFields(c));
    Validator.FindAt(Raws(CreatedFields(c)), PDR_ID, 0);
    Validator.FindAt(Raws(CreatedFields(c)), FTEID, 1);
    LeafValues(c.0, 0, 0, 0);
    FteidValue(c.1, c.2);
  }

  lemma EstablishAnswer(r: Reply)
    requires r.EstablishReply?
    ensures exists ies :: Reads(ReplyOctets(r), 51, r.seqNum, Some(r.cpSeid), ies)
              && Node(ies) == Ok(r.addr) && Accepted(ies) && Fseid(ies) == Ok((r.seid, r.addr)) && CreatedAre(ies, r.created)
  {
    hide Pack, Parse, Wire, HeaderOctets, DecodeHeader, FindIe, BeU32, NodeIdOctets, FseidOctets, ParseFseid, ParseNodeId,
         CreatedPdr, CreatedFields;
    ReplyShort(r);
    WireReadBack(ReplyHeader(r), ReplyFields(r));
    var ies := Raws(ReplyFields(r));
    Validator.FindAt(ies, NODE_ID, 0);
    Validator.FindAt(ies, CAUSE, 1);
    Validator.FindAt(ies, FSEID, 2);
    LeafValues(0, 0, 0, r.addr);
    FseidValue(r.seid, r.addr);
    forall i | 0 <= i < |r.created| ensures ies[3 + i].ieType == CREATED_PDR && CreatedPdr(ies[3 + i].value) == Ok(r.created[i]) {
      assert ReplyFields(r)[3 + i] == CreatedList(r.created)[i];
      CreatedReadBack(r.created[i]);
    }
    assert Reads(ReplyOctets(r), 51, r.seqNum, Some(r.cpSeid), ies) && CreatedAre(ies, r.created);
  }

  lemma AcceptedAnswer(r: Reply)
    requires r.ModifyReply? || r.DeleteReply?
    ensures exists ies :: Reads(ReplyOctets(r), if r.ModifyReply? then 53 else 55, r.seqNum, Some(r.seid), ies) && Accepted(ies)
  {
    hide Pack, Parse, Wire, HeaderOctets, DecodeHeader, FindIe;
    ReplyShort(r);
    WireReadBack(ReplyHeader(r), ReplyFields(r));
    var ies := Raws(ReplyFields(r));
    Validator.FindAt(ies, CAUSE, 0);
    assert Reads(ReplyOctets(r), if r.ModifyReply? then 53 else 55, r.seqNum, Some(r.seid), ies) && Accepted(ies);
  }

  // The created PDRs of an establishment: one for each PDR on the access side, in order, with the allocated tunnel.

  lemma {:induction false} CreatedConcat(a: seq<ParsedPdr>, b: seq<ParsedPdr>, teid: u32, n3: u32)
    ensures Created(a + b, teid, n3) == Created(a, teid, n3) + Created(b, teid, n3)
  {
    if |b| == 0 {
      assert a + b == a;
    } else {
      assert (a + b)[..|a + b| - 1] == a + b[..|b| - 1];
      CreatedConcat(a, b[..|b| - 1], teid, n3);
    }
  }

  lemma CreatedSingle(p: ParsedPdr, teid: u32, n3: u32)
    ensures Created([p], teid, n3) == if p.sourceInterface == 0 then [(p.pdrId, teid, n3)] else []
  {
    assert [p][..0] == [];
  }

  /** What the sender of an answered request reads in the answer, against the server's state: the UPF's time stamp and
      address; the SEID it handed out, with the created PDRs, under the peer's own SEID; the cp_seid of the session
      modified; the SEID of the session deleted. */
  ghost predicate ToldAbout(s: Srv, seqNum: u32, r: Request, octets: Octets) {
    match r
    case Heartbeat(_) => exists ies :: Reads(octets, 2, seqNum, None, ies) && Timestamp(ies) == Ok(s.recoveryTs)
    case Setup(_, _) =>
      exists ies :: Reads(octets, 6, seqNum, None, ies) && Node(ies) == Ok(s.n3) && Accepted(ies) && Timestamp(ies) == Ok(s.recoveryTs)
    case Establish(cp, pdrs, _, _) =>
      exists ies :: Reads(octets, 51, seqNum, Some(cp), ies) && Node(ies) == Ok(s.n3) && Accepted(ies)
        && Fseid(ies) == Ok((s.nextSeid, s.n3)) && CreatedAre(ies, Created(pdrs, s.nextTeid, s.n3))
    case Modify(seid, _, _) =>
      seid.Some? && seid.value in s.sessions
      && exists ies :: Reads(octets, 53, seqNum, Some(s.sessions[seid.value].cpSeid), ies) && Accepted(ies)
    case Delete(seid) =>
      SeidOrZero(seid) in s.sessions && exists ies :: Reads(octets, 55, seqNum, Some(SeidOrZero(seid)), ies) && Accepted(ies)
    case Silent => octets == []
    case Refused => false
  }

  lemma AnswersTell(s: Srv, seqNum: u32, src: SockAddr, r: Request, found: Option<NodeId>)
    ensures var a := RequestReply(s, seqNum, src, r, found);
            a.Ok? ==> ToldAbout(s, seqNum, r, ReplyOctets(a.value))
  {
    hide Reads, ReplyOctets, Timestamp, Node, Fseid, Accepted, CreatedAre, Created, FirstUeIp, FirstOhc;
    var a := RequestReply(s, seqNum, src, r, found);
    if a.Ok? {
      match a.value
      case HeartbeatReply(_, ts) => HeartbeatAnswer(seqNum, ts);
      case SetupReply(_, addr, ts) => SetupAnswer(seqNum, addr, ts);
      case EstablishReply(_, _, _, _, _) => EstablishAnswer(a.value);
      case ModifyReply(_, _) => AcceptedAnswer(a.value);
      case DeleteReply(_, _) => AcceptedAnswer(a.value);
      case NoReply => SilenceIsEmpty();
    }
  }

  lemma SilenceIsEmpty()
    ensures ReplyOctets(NoReply) == []
  {
  }
}
