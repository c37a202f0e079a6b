/** Requests and replies as whole messages. */
module Messages {
  import opened Bytes
  import opened Rules
  import opened Tlv
  import opened Header
  import opened GroupedIes
  import opened Builder
  import opened RoundTrip
  import opened Server

  const HEARTBEAT_REQ: u8 := 1
  const HEARTBEAT_RSP: u8 := 2
  const ASSOCIATION_SETUP_REQ: u8 := 5
  const ASSOCIATION_SETUP_RSP: u8 := 6
  const SESSION_ESTABLISHMENT_REQ: u8 := 50
  const SESSION_ESTABLISHMENT_RSP: u8 := 51
  const SESSION_MODIFICATION_REQ: u8 := 52
  const SESSION_MODIFICATION_RSP: u8 := 53
  const SESSION_DELETION_REQ: u8 := 54
  const SESSION_DELETION_RSP: u8 := 55
  const SESSION_REPORT_REQ: u8 := 56
  const SESSION_REPORT_RSP: u8 := 57
  const REQUEST_ACCEPTED: u8 := 1

  // Decoding: find the first element of a type, or parse all of a type in order.

  function FindIe(ies: seq<RawIe>, t: u16): Option<Octets> {
    if |ies| == 0 then None else if ies[0].ieType == t then Some(ies[0].value) else FindIe(ies[1..], t)
  }

  function Collect<A>(parse: Octets -> Result<A>, t: u16, ies: seq<RawIe>): Result<seq<A>> {
    if |ies| == 0 then Ok([])
    else
      match Collect(parse, t, ies[..|ies| - 1])
      case Err => Err
      case Ok(before) =>
        if ies[|ies| - 1].ieType != t then Ok(before)
        else match parse(ies[|ies| - 1].value)
          case Err => Err
          case Ok(a) => Ok(before + [a])
  }

  function DecodeHeartbeat(body: Octets): Request {
    match FindIe(Parse(body), RECOVERY_TIME_STAMP)
    case None => Heartbeat(None)
    case Some(v) => match ParseRecoveryTimestamp(v) { case Err => Heartbeat(None) case Ok(ts) => Heartbeat(Some(ts)) }
  }

  function DecodeSetup(body: Octets): Request {
    var n, ts := FindIe(Parse(body), NODE_ID), FindIe(Parse(body), RECOVERY_TIME_STAMP);
    if n.None? || ParseNodeId(n.value).Err? || ts.None? || ParseRecoveryTimestamp(ts.value).Err? then Refused
    else Setup(ParseNodeId(n.value).value, ParseRecoveryTimestamp(ts.value).value)
  }

  function DecodeEstablish(body: Octets): Request {
    var ies := Parse(body);
    var fseid := FindIe(ies, FSEID);
    var pdrs, fars := Collect(PdrFrom, CREATE_PDR, ies), Collect(CreateFarFrom, CREATE_FAR, ies);
    var urrs := Collect(UrrFrom, CREATE_URR, ies);
    if fseid.None? || ParseFseid(fseid.value).Err? || pdrs.Err? || fars.Err? || urrs.Err? then Refused
    else Establish(ParseFseid(fseid.value).value.0, pdrs.value, fars.value, urrs.value)
  }

  function DecodeModify(seid: Option<u64>, body: Octets): Request {
    var ies := Parse(body);
    var fars, urrs := Collect(UpdateFarFrom, UPDATE_FAR, ies), Collect(UrrFrom, UPDATE_URR, ies);
    if fars.Err? || urrs.Err? then Refused else Modify(seid, fars.value, urrs.value)
  }

  /** The request a decoded header and body stand for. */
  function DecodeRequest(h: PfcpHeader, body: Octets): Request {
    if h.msgType == HEARTBEAT_REQ then DecodeHeartbeat(body)
    else if h.msgType == ASSOCIATION_SETUP_REQ then DecodeSetup(body)
    else if h.msgType == SESSION_ESTABLISHMENT_REQ then DecodeEstablish(body)
    else if h.msgType == SESSION_MODIFICATION_REQ then DecodeModify(h.seid, body)
    else if h.msgType == SESSION_DELETION_REQ then Delete(h.seid)
    else if h.msgType == SESSION_REPORT_RSP || h.msgType % 2 == 0 then Silent
    else Refused
  }

  /** The request a datagram stands for; one without a readable header is refused. */
  function RequestIn(data: Octets): Request {
    var d := DecodeHeader(data);
    if d.Err? then Refused else DecodeRequest(d.value.0, d.value.1)
  }

  // Round trips of whole requests.

  datatype CreateRule = PdrRule(pdr: PdrParams) | FarRule(far: FarParams) | UrrRule(urr: UrrParams)
  datatype UpdateRule = FarUpdate(far: FarParams) | UrrUpdate(urr: UrrParams)

  function CreateField(r: CreateRule): Field {
    match r
    case PdrRule(p) => Field(CREATE_PDR, Pack(PdrFields(p)))
    case FarRule(f) => FarField(false, f)
    case UrrRule(u) => UrrField(false, u)
  }

  function CreateFields(rs: seq<CreateRule>): (fs: seq<Field>)
    ensures |fs| == |rs|
  {
    seq(|rs|, i requires 0 <= i < |rs| => CreateField(rs[i]))
  }

  function UpdateField(r: UpdateRule): Field {
    match r
    case FarUpdate(f) => FarField(true, f)
    case UrrUpdate(u) => UrrField(true, u)
  }

  function UpdateFields(rs: seq<UpdateRule>): (fs: seq<Field>)
    ensures |fs| == |rs|
  {
    seq(|rs|, i requires 0 <= i < |rs| => UpdateField(rs[i]))
  }

  function EstablishMessage(seqNum: u32, smfAddr: u32, cpSeid: u64, rs: seq<CreateRule>): Octets {
    Wire(SessionHeader(SESSION_ESTABLISHMENT_REQ, 0, seqNum),
         [Field(NODE_ID, NodeIdOctets(smfAddr)), Field(FSEID, FseidOctets(cpSeid, smfAddr))] + CreateFields(rs))
  }

  function ModifyMessage(seqNum: u32, seid: u64, rs: seq<UpdateRule>): Octets {
    Wire(SessionHeader(SESSION_MODIFICATION_REQ, seid, seqNum), UpdateFields(rs))
  }

  function SetupMessage(seqNum: u32, addr: u32, ts: u32): Octets {
    Wire(NodeHeader(ASSOCIATION_SETUP_REQ, seqNum),
         [Field(NODE_ID, NodeIdOctets(addr)), Field(RECOVERY_TIME_STAMP, BeU32(ts))])
  }

  function DeleteMessage(seqNum: u32, seid: u64): Octets {
    Wire(SessionHeader(SESSION_DELETION_REQ, seid, seqNum), [])
  }

  /** A request with any list of rules in any interleaving, built step by step. */
  method BuildEstablish(seqNum: u32, smfAddr: u32, cpSeid: u64, rs: seq<CreateRule>) returns (m: Octets)
    ensures m == EstablishMessage(seqNum, smfAddr, cpSeid, rs)
  {
    hide Pack, NodeIdOctets, FseidOctets, HeaderOctets, Wire, PdrFields, FarFields, UrrFields, FarField, UrrField;
    var b := new MsgBuilder(SessionHeader(SESSION_ESTABLISHMENT_REQ, 0, seqNum));
    b.AddIe(NODE_ID, NodeIdOctets(smfAddr));
    b.AddIe(FSEID, FseidOctets(cpSeid, smfAddr));
    ghost var first := [Field(NODE_ID, NodeIdOctets(smfAddr)), Field(FSEID, FseidOctets(cpSeid, smfAddr))];
    for i := 0 to |rs|
      invariant b.Valid() && b.header == SessionHeader(SESSION_ESTABLISHMENT_REQ, 0, seqNum)
      invariant b.fields == first + CreateFields(rs[..i])
    {
      assert CreateFields(rs[..i + 1]) == CreateFields(rs[..i]) + [CreateField(rs[i])];
      match rs[i] {
        case PdrRule(p) => b.AddCreatePdr(p);
        case FarRule(f) => b.AddFar(false, f);
        case UrrRule(u) => b.AddUrr(false, u);
      }
    }
    assert rs[..|rs|] == rs;
    m := b.Finish();
  }

  method BuildModify(seqNum: u32, seid: u64, rs: seq<UpdateRule>) returns (m: Octets)
    ensures m == ModifyMessage(seqNum, seid, rs)
  {
    hide Pack, HeaderOctets, Wire, FarFields, UrrFields, FarField, UrrField;
    var b := new MsgBuilder(SessionHeader(SESSION_MODIFICATION_REQ, seid, seqNum));
    for i := 0 to |rs|
      invariant b.Valid() && b.header == SessionHeader(SESSION_MODIFICATION_REQ, seid, seqNum)
      invariant b.fields == UpdateFields(rs[..i])
    {
      assert UpdateFields(rs[..i + 1]) == UpdateFields(rs[..i]) + [UpdateField(rs[i])];
      match rs[i] {
        case FarUpdate(f) => b.AddFar(true, f);
        case UrrUpdate(u) => b.AddUrr(true, u);
      }
    }
    assert rs[..|rs|] == rs;
    m := b.Finish();
  }

  // The rules of each kind, in order.

  function PdrsOf(rs: seq<CreateRule>): seq<ParsedPdr> {
    if |rs| == 0 then []
    else PdrsOf(rs[..|rs| - 1]) + if rs[|rs| - 1].PdrRule? then [PdrOf(rs[|rs| - 1].pdr)] else []
  }

  function FarsOf(rs: seq<CreateRule>): seq<ParsedFar> {
    if |rs| == 0 then []
    else FarsOf(rs[..|rs| - 1]) + if rs[|rs| - 1].FarRule? then [FarOf(rs[|rs| - 1].far)] else []
  }

  function UrrsOf(rs: seq<CreateRule>): seq<ParsedUrr> {
    if |rs| == 0 then []
    else UrrsOf(rs[..|rs| - 1]) + if rs[|rs| - 1].UrrRule? then [UrrOf(rs[|rs| - 1].urr)] else []
  }

  function UpdatedFars(rs: seq<UpdateRule>): seq<ParsedFar> {
    if |rs| == 0 then []
    else UpdatedFars(rs[..|rs| - 1]) + if rs[|rs| - 1].FarUpdate? then [FarOf(rs[|rs| - 1].far)] else []
  }

  function UpdatedUrrs(rs: seq<UpdateRule>): seq<ParsedUrr> {
    if |rs| == 0 then []
    else UpdatedUrrs(rs[..|rs| - 1]) + if rs[|rs| - 1].UrrUpdate? then [UrrOf(rs[|rs| - 1].urr)] else []
  }

  lemma CreateShort(rs: seq<CreateRule>)
    ensures Short(CreateFields(rs))
  {
    hide Pack, PdrFields, FarFields, UrrFields;
    forall i | 0 <= i < |rs| ensures |CreateFields(rs)[i].value| < 0x1_0000 {
      match rs[i]
      case PdrRule(p) => PdrShort(p);
      case FarRule(f) => FarShort(FORWARDING_PARAMETERS, f);
      case UrrRule(u) => UrrShort(u);
    }
  }

  lemma UpdateShort(rs: seq<UpdateRule>)
    ensures Short(UpdateFields(rs))
  {
    hide Pack, FarFields, UrrFields;
    forall i | 0 <= i < |rs| ensures |UpdateFields(rs)[i].value| < 0x1_0000 {
      match rs[i]
      case FarUpdate(f) => FarShort(UPDATE_FORWARDING_PARAMETERS, f);
      case UrrUpdate(u) => UrrShort(u);
    }
  }

  lemma {:induction false} CollectCreates(rs: seq<CreateRule>, first: seq<RawIe>)
    requires forall ie :: ie in first ==> ie.ieType !in {CREATE_PDR, CREATE_FAR, CREATE_URR}
    ensures Short(CreateFields(rs))
    ensures Collect(PdrFrom, CREATE_PDR, first + Raws(CreateFields(rs))) == Ok(PdrsOf(rs))
    ensures Collect(CreateFarFrom, CREATE_FAR, first + Raws(CreateFields(rs))) == Ok(FarsOf(rs))
    ensures Collect(UrrFrom, CREATE_URR, first + Raws(CreateFields(rs))) == Ok(UrrsOf(rs))
    decreases rs
  {
    hide Pack, PdrFields, FarFields, UrrFields, PdrFrom, CreateFarFrom, UrrFrom, Parse, Collect, PdrOf, FarOf, UrrOf;
    CreateShort(rs);
    if |rs| == 0 {
      assert first + Raws(CreateFields(rs)) == first;
      CollectNone(PdrFrom, CREATE_PDR, first);
      CollectNone(CreateFarFrom, CREATE_FAR, first);
      CollectNone(UrrFrom, CREATE_URR, first);
    } else {
      var init, r := rs[..|rs| - 1], rs[|rs| - 1];
      CollectCreates(init, first);
      var before := first + Raws(CreateFields(init));
      assert CreateFields(rs)[|rs| - 1] == CreateField(r);
      var last := Raw(CreateField(r).t, CreateField(r).value);
      assert first + Raws(CreateFields(rs)) == before + [last];
      CollectSnoc(PdrFrom, CREATE_PDR, before, last);
      CollectSnoc(CreateFarFrom, CREATE_FAR, before, last);
      CollectSnoc(UrrFrom, CREATE_URR, before, last);
      assert PdrsOf(init) + [] == PdrsOf(init) && FarsOf(init) + [] == FarsOf(init) && UrrsOf(init) + [] == UrrsOf(init);
      match r
      case PdrRule(p) => CreatePdrRoundTrip(p);
      case FarRule(f) => FarRoundTrip(false, f);
      case UrrRule(u) => UrrRoundTrip(u);
    }
  }

  lemma CollectSnoc<A>(parse: Octets -> Result<A>, t: u16, ies: seq<RawIe>, ie: RawIe)
    requires Collect(parse, t, ies).Ok?
    ensures Collect(parse, t, ies + [ie])
            == if ie.ieType != t then Collect(parse, t, ies)
               else match parse(ie.value) { case Err => Err case Ok(a) => Ok(Collect(parse, t, ies).value + [a]) }
  {
    assert (ies + [ie])[..|ies|] == ies;
  }

  lemma {:induction false} CollectNone<A>(parse: Octets -> Result<A>, t: u16, ies: seq<RawIe>)
    requires forall ie :: ie in ies ==> ie.ieType != t
    ensures Collect(parse, t, ies) == Ok([])
  {
    if |ies| > 0 {
      assert ies[|ies| - 1] in ies;
      CollectNone(parse, t, ies[..|ies| - 1]);
    }
  }

  lemma {:induction false} CollectUpdates(rs: seq<UpdateRule>)
    ensures Short(UpdateFields(rs))
    ensures Collect(UpdateFarFrom, UPDATE_FAR, Raws(UpdateFields(rs))) == Ok(UpdatedFars(rs))
    ensures Collect(UrrFrom, UPDATE_URR, Raws(UpdateFields(rs))) == Ok(UpdatedUrrs(rs))
    decreases rs
  {
    hide Pack, FarFields, UrrFields, UpdateFarFrom, UrrFrom, Parse, FarOf, UrrOf;
    UpdateShort(rs);
    if |rs| > 0 {
      hide Collect;
      var init, r := rs[..|rs| - 1], rs[|rs| - 1];
      CollectUpdates(init);
      var before := Raws(UpdateFields(init));
      assert UpdateFields(rs)[|rs| - 1] == UpdateField(r);
      var last := Raw(UpdateField(r).t, UpdateField(r).value);
      assert Raws(UpdateFields(rs)) == before + [last];
      CollectSnoc(UpdateFarFrom, UPDATE_FAR, before, last);
      CollectSnoc(UrrFrom, UPDATE_URR, before, last);
      assert UpdatedFars(init) + [] == UpdatedFars(init) && UpdatedUrrs(init) + [] == UpdatedUrrs(init);
      match r
      case FarUpdate(f) => FarRoundTrip(true, f);
      case UrrUpdate(u) => UrrRoundTrip(u);
    }
  }

  /** Any establishment request, through header, elements, groups and groups in groups, decodes to its rules in order. */
  lemma EstablishRoundTrip(seqNum: u32, smfAddr: u32, cpSeid: u64, rs: seq<CreateRule>)
    ensures var d := DecodeHeader(EstablishMessage(seqNum, smfAddr, cpSeid, rs));
            && d.Ok? && d.value.0.seqNum == seqNum % 0x100_0000
            && DecodeRequest(d.value.0, d.value.1) == Establish(cpSeid, PdrsOf(rs), FarsOf(rs), UrrsOf(rs))
  {
    hide Pack, Parse, Wire, PdrFrom, CreateFarFrom, UrrFrom, NodeIdOctets, FseidOctets, ParseFseid, HeaderOctets;
    var f1, f2 := Field(NODE_ID, NodeIdOctets(smfAddr)), Field(FSEID, FseidOctets(cpSeid, smfAddr));
    var fs := [f1, f2] + CreateFields(rs);
    CreateShort(rs);
    WireReadBack(SessionHeader(SESSION_ESTABLISHMENT_REQ, 0, seqNum), fs);
    var first := [Raw(f1.t, f1.value), Raw(f2.t, f2.value)];
    assert Raws(fs) == first + Raws(CreateFields(rs));
    assert FindIe(Raws(fs), FSEID) == Some(f2.value) by {
      assert Raws(fs)[1..][0] == first[1];
    }
    FseidValue(cpSeid, smfAddr);
    CollectCreates(rs, first);
  }

  lemma ModifyRoundTrip(seqNum: u32, seid: u64, rs: seq<UpdateRule>)
    ensures var d := DecodeHeader(ModifyMessage(seqNum, seid, rs));
            && d.Ok? && d.value.0.seqNum == seqNum % 0x100_0000
            && DecodeRequest(d.value.0, d.value.1) == Modify(Some(seid), UpdatedFars(rs), UpdatedUrrs(rs))
  {
    hide Pack, Parse, Wire, UpdateFarFrom, UrrFrom, HeaderOctets;
    CollectUpdates(rs);
    WireReadBack(SessionHeader(SESSION_MODIFICATION_REQ, seid, seqNum), UpdateFields(rs));
  }

  lemma SetupAndDeleteRoundTrip(seqNum: u32, addr: u32, ts: u32, seid: u64)
    ensures RequestIn(SetupMessage(seqNum, addr, ts)) == Setup(addr, ts)
    ensures RequestIn(DeleteMessage(seqNum, seid)) == Delete(Some(seid))
  {
    hide Pack, Parse, Wire, HeaderOctets, DecodeHeader, ParseNodeId, ParseRecoveryTimestamp, BeU32;
    var fs := [Field(NODE_ID, NodeIdOctets(addr)), Field(RECOVERY_TIME_STAMP, BeU32(ts))];
    WireReadBack(NodeHeader(ASSOCIATION_SETUP_REQ, seqNum), fs);
    LeafValues(0, ts, 0, addr);
    assert Raws(fs) == [Raw(NODE_ID, NodeIdOctets(addr)), Raw(RECOVERY_TIME_STAMP, BeU32(ts))];
    assert FindIe(Raws(fs), NODE_ID) == Some(NodeIdOctets(addr));
    assert FindIe(Raws(fs)[1..], RECOVERY_TIME_STAMP) == Some(BeU32(ts));
    assert FindIe(Raws(fs), RECOVERY_TIME_STAMP) == Some(BeU32(ts));
    hide FindIe;
    WireReadBack(SessionHeader(SESSION_DELETION_REQ, seid, seqNum), []);
  }

  /** All fields of a PDR arrive as they were sent exactly when its interface fits four bits; those of a FAR when its
      interface does and its tunnel names the GTP-U port; those of a URR always. */
  lemma FaithfulIff(p: PdrParams, f: FarParams, u: UrrParams)
    ensures PdrFrom(Pack(PdrFields(p)))
            == Ok(ParsedPdr(p.pdrId, p.precedence, p.sourceInterface, if p.fteidChoose then Some((0, 0)) else None, p.ueIp,
                            Some(p.farId), p.urrId, p.headerRemoval, p.sdf))
            <==> p.sourceInterface < 0x10
    ensures CreateFarFrom(FarField(false, f).value) == Ok(ParsedFar(f.farId, f.applyAction, Some(f.destInterface), f.ohc))
            <==> f.destInterface < 0x10 && (f.ohc.Some? ==> f.ohc.value.port == GTPU_PORT)
    ensures UpdateFarFrom(FarField(true, f).value) == CreateFarFrom(FarField(false, f).value)
    ensures UrrFrom(Pack(UrrFields(u))) == Ok(ParsedUrr(u.urrId, u.measures, u.triggers, u.threshold, u.period))
  {
    hide Pack, PdrFields, UrrFields, FarField, PdrFrom, CreateFarFrom, UpdateFarFrom, UrrFrom;
    CreatePdrRoundTrip(p);
    FarRoundTrip(false, f);
    FarRoundTrip(true, f);
    UrrRoundTrip(u);
  }

  // Replies.

  function ReplyHeader(r: Reply): PfcpHeader
    requires !r.NoReply?
  {
    match r
    case HeartbeatReply(s, _) => NodeHeader(HEARTBEAT_RSP, s)
    case SetupReply(s, _, _) => NodeHeader(ASSOCIATION_SETUP_RSP, s)
    case EstablishReply(s, cp, _, _, _) => SessionHeader(SESSION_ESTABLISHMENT_RSP, cp, s)
    case ModifyReply(s, seid) => SessionHeader(SESSION_MODIFICATION_RSP, seid, s)
    case DeleteReply(s, seid) => SessionHeader(SESSION_DELETION_RSP, seid, s)
  }

  function CreatedList(created: seq<(u16, u32, u32)>): (fs: seq<Field>)
    ensures |fs| == |created|
  {
    seq(|created|, i requires 0 <= i < |created| => Field(CREATED_PDR, Pack(CreatedFields(created[i]))))
  }

  const CAUSE_ACCEPTED := Field(CAUSE, [REQUEST_ACCEPTED])

  function ReplyFields(r: Reply): seq<Field>
    requires !r.NoReply?
  {
    match r
    case HeartbeatReply(_, ts) => [Field(RECOVERY_TIME_STAMP, BeU32(ts))]
    case SetupReply(_, addr, ts) =>
      [Field(NODE_ID, NodeIdOctets(addr)), CAUSE_ACCEPTED, Field(RECOVERY_TIME_STAMP, BeU32(ts)),
       Field(UP_FUNCTION_FEATURES, [0x04, 0x00])]
    case EstablishReply(_, _, seid, addr, created) =>
      [Field(NODE_ID, NodeIdOctets(addr)), CAUSE_ACCEPTED, Field(FSEID, FseidOctets(seid, addr))] + CreatedList(created)
    case ModifyReply(_, _) => [CAUSE_ACCEPTED]
    case DeleteReply(_, _) => [CAUSE_ACCEPTED]
  }

  /** The octets sent for a reply; a silent answer is empty. */
  function ReplyOctets(r: Reply): Octets {
    if r.NoReply? then [] else Wire(ReplyHeader(r), ReplyFields(r))
  }

  method AddCreatedPdrs(b: MsgBuilder, created: seq<(u16, u32, u32)>)
    requires b.Valid()
    modifies b
    ensures b.Valid() && b.header == old(b.header) && b.fields == old(b.fields) + CreatedList(created)
  {
    hide Pack, HeaderOctets, CreatedFields;
    for i := 0 to |created|
      invariant b.Valid() && b.header == old(b.header)
      invariant b.fields == old(b.fields) + CreatedList(created[..i])
    {
      assert CreatedList(created[..i + 1])
          == CreatedList(created[..i]) + [Field(CREATED_PDR, Pack(CreatedFields(created[i])))];
      b.AddCreatedPdr(created[i]);
    }
    assert created[..|created|] == created;
  }

  method BuildReply(r: Reply) returns (m: Octets)
    ensures m == ReplyOctets(r)
  {
    hide Pack, NodeIdOctets, FseidOctets, BeU32, HeaderOctets, Wire, CreatedList, ReplyHeader;
    if r.NoReply? {
      return [];
    }
    var b := new MsgBuilder(ReplyHeader(r));
    match r {
      case HeartbeatReply(_, ts) =>
        b.AddIe(RECOVERY_TIME_STAMP, BeU32(ts));
      case SetupReply(_, addr, ts) =>
        b.AddIe(NODE_ID, NodeIdOctets(addr));
        b.AddIe(CAUSE, [REQUEST_ACCEPTED]);
        b.AddIe(RECOVERY_TIME_STAMP, BeU32(ts));
        b.AddIe(UP_FUNCTION_FEATURES, [0x04, 0x00]);
      case EstablishReply(_, _, seid, addr, created) =>
        b.AddIe(NODE_ID, NodeIdOctets(addr));
        b.AddIe(CAUSE, [REQUEST_ACCEPTED]);
        b.AddIe(FSEID, FseidOctets(seid, addr));
        AddCreatedPdrs(b, created);
      case ModifyReply(_, _) =>
        b.AddIe(CAUSE, [REQUEST_ACCEPTED]);
      case DeleteReply(_, _) =>
        b.AddIe(CAUSE, [REQUEST_ACCEPTED]);
    }
    assert b.fields == ReplyFields(r);
    m := b.Finish();
  }

  lemma ReplyShort(r: Reply)
    requires !r.NoReply?
    ensures Short(ReplyFields(r))
  {
    hide Pack, FteidOctets, BeU16, BeU32, BeU64;
    if r.EstablishReply? {
      forall i | 0 <= i < |r.created| ensures |CreatedList(r.created)[i].value| < 0x1_0000 {
        CreatedShort(r.created[i]);
      }
    }
  }

  lemma CreatedShort(c: (u16, u32, u32))
    ensures Short(CreatedFields(c)) && |Pack(CreatedFields(c))| < 0x1_0000
  {
    hide Pack, BeU16, BeU32;
    PackSize(CreatedFields(c), 9);
  }
}
