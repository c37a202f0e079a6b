/** The simulator's reading of the UPF's responses. */
module Validator {
  import opened Bytes
  import opened Rules
  import opened Tlv
  import opened Header
  import opened GroupedIes
  import opened Builder
  import opened RoundTrip
  import opened Messages
  import opened Server

  /** The mandatory elements the message dictionary lists; other message types have none. */
  function Mandatory(msgType: u8): set<u16> {
    if msgType == ASSOCIATION_SETUP_REQ then {NODE_ID, RECOVERY_TIME_STAMP}
    else if msgType == ASSOCIATION_SETUP_RSP then {NODE_ID, CAUSE, RECOVERY_TIME_STAMP}
    else if msgType == SESSION_ESTABLISHMENT_REQ then {NODE_ID, FSEID, CREATE_PDR, CREATE_FAR}
    else if msgType == SESSION_ESTABLISHMENT_RSP then {NODE_ID, CAUSE}
    else if msgType == SESSION_MODIFICATION_RSP || msgType == SESSION_DELETION_RSP then {CAUSE}
    else if msgType == SESSION_REPORT_REQ then {REPORT_TYPE}
    else {}
  }

  function TypesIn(ies: seq<RawIe>): set<u16> {
    set i | 0 <= i < |ies| :: ies[i].ieType
  }

  predicate Validate(msgType: u8, ies: seq<RawIe>) {
    Mandatory(msgType) <= TypesIn(ies)
  }

  predicate ValidateResponse(reqType: u8, reqSeq: u32, rsp: Octets) {
    var d := DecodeHeader(rsp);
    && d.Ok?
    && var (h, body) := d.value;
    && h.msgType == (reqType + 1) % 0x100 && h.seqNum == reqSeq && Validate(h.msgType, Parse(body))
    && var cause := FindIe(Parse(body), CAUSE);
    && (cause.None? || (|cause.value| > 0 && cause.value[0] == REQUEST_ACCEPTED))
  }

  function ExtractSessionInfo(rsp: Octets): Result<(u64, u32, u32)> {
    var d := DecodeHeader(rsp);
    if d.Err? then Err
    else
      var ies := Parse(d.value.1);
      var fseid, created := FindIe(ies, FSEID), FindIe(ies, CREATED_PDR);
      if fseid.None? || ParseFseid(fseid.value).Err? || ParseFseid(fseid.value).value.0 == 0 || created.None? then Err
      else
        var fteid := FindIe(Parse(created.value), FTEID);
        if fteid.None? || ParseFteid(fteid.value).Err? || ParseFteid(fteid.value).value.0 == 0 then Err
        else Ok((ParseFseid(fseid.value).value.0, ParseFteid(fteid.value).value.0, ParseFteid(fteid.value).value.1))
  }

  function RequestType(r: Reply): u8
    requires !r.NoReply?
  {
    ReplyHeader(r).msgType - 1
  }

  lemma FindAt(ies: seq<RawIe>, t: u16, i: nat)
    requires i < |ies| && ies[i].ieType == t && forall j :: 0 <= j < i ==> ies[j].ieType != t
    ensures FindIe(ies, t) == Some(ies[i].value)
  {
    if i > 0 {
      FindAt(ies[1..], t, i - 1);
    }
  }

  lemma FindNone(ies: seq<RawIe>, t: u16)
    requires forall j :: 0 <= j < |ies| ==> ies[j].ieType != t
    ensures FindIe(ies, t) == None
  {
  }

  lemma CauseOf(r: Reply)
    requires !r.NoReply?
    ensures Short(ReplyFields(r))
    ensures FindIe(Raws(ReplyFields(r)), CAUSE) == if r.HeartbeatReply? then None else Some([REQUEST_ACCEPTED])
  {
    hide Pack, Parse, NodeIdOctets, FseidOctets, BeU32, Short, FindIe;
    ReplyShort(r);
    var ies := Raws(ReplyFields(r));
    if r.HeartbeatReply? {
      FindNone(ies, CAUSE);
    } else if r.SetupReply? || r.EstablishReply? {
      FindAt(ies, CAUSE, 1);
    } else {
      FindAt(ies, CAUSE, 0);
    }
  }

  lemma MandatoryPresent(r: Reply)
    requires !r.NoReply?
    ensures Short(ReplyFields(r)) && Validate(ReplyHeader(r).msgType, Raws(ReplyFields(r)))
  {
    hide Pack, Parse, NodeIdOctets, FseidOctets, BeU32, Short;
    ReplyShort(r);
    var ies := Raws(ReplyFields(r));
    if !r.HeartbeatReply? {
      assert ies[0].ieType in TypesIn(ies);
      if r.SetupReply? || r.EstablishReply? {
        assert ies[1].ieType in TypesIn(ies);
        if r.SetupReply? {
          assert ies[2].ieType in TypesIn(ies);
        }
      }
    }
  }

  /** Every reply is accepted as the answer to its request, for every sequence number the wire can carry. */
  lemma RepliesAccepted(r: Reply)
    requires !r.NoReply?
    ensures ValidateResponse(RequestType(r), r.seqNum, ReplyOctets(r)) <==> r.seqNum < 0x100_0000
  {
    hide Pack, Parse, Wire, ReplyFields, HeaderOctets, DecodeHeader, FindIe, Validate;
    ReplyShort(r);
    WireReadBack(ReplyHeader(r), ReplyFields(r));
    CauseOf(r);
    MandatoryPresent(r);
  }

  // Any message that was built, not only the UPF's own.

  predicate HasType(fs: seq<Field>, t: u16) {
    exists i :: 0 <= i < |fs| && fs[i].t == t
  }

  /** The elements a message of the type must have, by their numbers. */
  predicate Complete(msgType: u8, fs: seq<Field>) {
    && (msgType == 5 ==> HasType(fs, 60) && HasType(fs, 96))
    && (msgType == 6 ==> HasType(fs, 60) && HasType(fs, 19) && HasType(fs, 96))
    && (msgType == 50 ==> HasType(fs, 60) && HasType(fs, 57) && HasType(fs, 1) && HasType(fs, 3))
    && (msgType == 51 ==> HasType(fs, 60) && HasType(fs, 19))
    && (msgType == 53 ==> HasType(fs, 19)) && (msgType == 55 ==> HasType(fs, 19))
    && (msgType == 56 ==> HasType(fs, 39))
  }

  /** The first cause, if there is one, says accepted. */
  predicate CauseAccepts(fs: seq<Field>) {
    forall i :: 0 <= i < |fs| && fs[i].t == 19 && (forall j :: 0 <= j < i ==> fs[j].t != 19) ==> |fs[i].value| > 0 && fs[i].value[0] == 1
  }

  /** A built message passes as the response to a request exactly when its type is the request's plus one, its sequence
      number arrives as the request's, it is complete, and its cause accepts. */
  lemma BuiltValidIff(h: PfcpHeader, fs: seq<Field>, reqType: u8, reqSeq: u32)
    requires h.version == PFCP_VERSION && h.seid.Some? == h.sFlag && Short(fs)
    ensures ValidateResponse(reqType, reqSeq, Wire(h, fs)) <==>
              && h.msgType == (reqType + 1) % 0x100 && h.seqNum % 0x100_0000 == reqSeq
              && Complete(h.msgType, fs) && CauseAccepts(fs)
  {
    hide Pack, Parse, Wire, DecodeHeader, FindIe, Complete, CauseAccepts, Validate;
    WireReadBack(h, fs);
    TypesComplete(h.msgType, fs);
    FirstCause(fs);
  }

  lemma TypesComplete(msgType: u8, fs: seq<Field>)
    requires Short(fs)
    ensures Validate(msgType, Raws(fs)) <==> Complete(msgType, fs)
  {
    forall t: u16 ensures t in TypesIn(Raws(fs)) <==> HasType(fs, t) {
      if HasType(fs, t) {
        var i :| 0 <= i < |fs| && fs[i].t == t;
        assert Raws(fs)[i].ieType == t;
      }
      if t in TypesIn(Raws(fs)) {
        var i :| 0 <= i < |Raws(fs)| && Raws(fs)[i].ieType == t;
        assert fs[i].t == t;
      }
    }
  }

  lemma FirstCause(fs: seq<Field>)
    requires Short(fs)
    ensures var c := FindIe(Raws(fs), CAUSE);
            (c.None? || (|c.value| > 0 && c.value[0] == REQUEST_ACCEPTED)) <==> CauseAccepts(fs)
  {
    var ies := Raws(fs);
    assert forall i :: 0 <= i < |fs| ==> ies[i].ieType == fs[i].t && ies[i].value == fs[i].value;
    if forall i :: 0 <= i < |fs| ==> fs[i].t != 19 {
      FindNone(ies, CAUSE);
    } else {
      var n := FirstOf(fs, 19);
      hide FindIe;
      FindAt(ies, CAUSE, n);
    }
  }

  lemma FirstOf(fs: seq<Field>, t: u16) returns (n: nat)
    requires HasType(fs, t)
    ensures n < |fs| && fs[n].t == t && forall j :: 0 <= j < n ==> fs[j].t != t
  {
    n := 0;
    while fs[n].t != t
      invariant n < |fs| && forall j :: 0 <= j < n ==> fs[j].t != t
      decreases |fs| - n
    {
      n := n + 1;
    }
  }

  /** What the simulator takes out of an establishment response: the SEID put in and the first created PDR's tunnel,
      or an error when there is none or an id is 0. */
  lemma SessionInfoExtracted(r: Reply)
    requires r.EstablishReply?
    ensures ExtractSessionInfo(ReplyOctets(r))
            == if r.seid == 0 || |r.created| == 0 || r.created[0].1 == 0 then Err
               else Ok((r.seid, r.created[0].1, r.created[0].2))
  {
    hide Pack, Parse, Wire, HeaderOctets, DecodeHeader, FindIe, NodeIdOctets, FseidOctets, FteidOctets, ParseFseid,
         ParseFteid, Short, CreatedFields;
    ReplyShort(r);
    WireReadBack(ReplyHeader(r), ReplyFields(r));
    var ies := Raws(ReplyFields(r));
    FindAt(ies, FSEID, 2);
    FseidValue(r.seid, r.addr);
    if |r.created| == 0 {
      FindNone(ies, CREATED_PDR);
    } else {
      FindAt(ies, CREATED_PDR, 3);
      assert ies[3].value == Pack(CreatedFields(r.created[0])) by {
        assert ReplyFields(r)[3] == CreatedList(r.created)[0];
      }
      CreatedTunnel(r.created[0]);
    }
  }

  lemma CreatedTunnel(c: (u16, u32, u32))
    ensures FindIe(Parse(Pack(CreatedFields(c))), FTEID) == Some(FteidOctets(c.1, c.2))
    ensures ParseFteid(FteidOctets(c.1, c.2)) == Ok((c.1, c.2))
  {
    hide Pack, Parse, FindIe, FteidOctets, ParseFteid, BeU16;
    CreatedShort(c);
    ParsePack(CreatedFields(c));
    FindAt(Raws(CreatedFields(c)), FTEID, 1);
    FteidValue(c.1, c.2);
  }

  // The UPF's own answer to an establishment.

  lemma {:induction false} CreatedFirst(pdrs: seq<ParsedPdr>, teid: u32, n3: u32)
    ensures |Created(pdrs, teid, n3)| > 0 <==> exists i :: 0 <= i < |pdrs| && pdrs[i].sourceInterface == IFACE_ACCESS
    ensures |Created(pdrs, teid, n3)| > 0 ==> Created(pdrs, teid, n3)[0].1 == teid && Created(pdrs, teid, n3)[0].2 == n3
  {
    if |pdrs| > 0 {
      var init := pdrs[..|pdrs| - 1];
      CreatedFirst(init, teid, n3);
      if exists i :: 0 <= i < |pdrs| && pdrs[i].sourceInterface == IFACE_ACCESS {
        var i :| 0 <= i < |pdrs| && pdrs[i].sourceInterface == IFACE_ACCESS;
        assert i < |init| ==> init[i].sourceInterface == IFACE_ACCESS;
      }
      if |Created(init, teid, n3)| > 0 {
        var i :| 0 <= i < |init| && init[i].sourceInterface == IFACE_ACCESS;
        assert pdrs[i].sourceInterface == IFACE_ACCESS;
      }
    }
  }

  /** The answer to an accepted establishment passes the simulator's check, and yields the allocated SEID and
      tunnel exactly when the request has a rule for the access side. */
  lemma EstablishmentUnderstood(s: Srv, seqNum: u32, src: SockAddr, r: Request, found: Option<NodeId>)
    requires r.Establish? && EstablishAccepted(src, r, found)
    requires seqNum < 0x100_0000 && s.nextSeid != 0 && s.nextTeid != 0
    ensures var answer := RequestReply(s, seqNum, src, r, found);
            && answer.Ok? && !answer.value.NoReply?
            && var rsp := ReplyOctets(answer.value);
            && ValidateResponse(SESSION_ESTABLISHMENT_REQ, seqNum, rsp)
            && ExtractSessionInfo(rsp)
               == if exists i :: 0 <= i < |r.pdrs| && r.pdrs[i].sourceInterface == IFACE_ACCESS
                  then Ok((s.nextSeid, s.nextTeid, s.n3)) else Err
  {
    hide ReplyOctets, ValidateResponse, ExtractSessionInfo, Created, FirstUeIp, FirstOhc;
    var reply := EstablishReply(seqNum, r.cpSeid, s.nextSeid, s.n3, Created(r.pdrs, s.nextTeid, s.n3));
    assert RequestReply(s, seqNum, src, r, found) == Ok(reply);
    RepliesAccepted(reply);
    SessionInfoExtracted(reply);
    CreatedFirst(r.pdrs, s.nextTeid, s.n3);
  }
}
