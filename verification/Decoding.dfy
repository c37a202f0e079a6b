/** Which request a message is, for arbitrary headers and bodies. */
module Decoding {
  import opened Bytes
  import opened Rules
  import opened Tlv
  import opened Header
  import opened GroupedIes
  import opened Messages
  import opened Answers
  import opened Server

  ghost predicate SomeFails<A>(parse: Octets -> Result<A>, t: u16, ies: seq<RawIe>) {
    exists ie :: ie in ies && ie.ieType == t && parse(ie.value).Err?
  }

  /** A list of rules fails exactly when one of its elements does. */
  lemma {:induction false} CollectFailsIff<A>(parse: Octets -> Result<A>, t: u16, ies: seq<RawIe>)
    ensures Collect(parse, t, ies).Err? <==> SomeFails(parse, t, ies)
  {
    if |ies| > 0 {
      var init, last := ies[..|ies| - 1], ies[|ies| - 1];
      CollectFailsIff(parse, t, init);
      assert forall ie :: ie in ies <==> ie in init || ie == last;
    }
  }

  ghost predicate BadEstablish(ies: seq<RawIe>) {
    || Fseid(ies).Err? || SomeFails(PdrFrom, 1, ies) || SomeFails(CreateFarFrom, 3, ies) || SomeFails(UrrFrom, 6, ies)
  }

  ghost predicate BadModify(ies: seq<RawIe>) {
    SomeFails(UpdateFarFrom, 10, ies) || SomeFails(UrrFrom, 13, ies)
  }

  /** A message is a heartbeat, with the time stamp of its first such element if that is readable; a setup exactly when node
      and time stamp are readable; an establishment or a modification exactly when its SEID and all its rules are; a deletion
      under its type alone. Responses are silently accepted, and everything else is refused. */
  lemma RequestsIff(h: PfcpHeader, body: Octets)
    ensures var ies, r := Parse(body), DecodeRequest(h, body);
      && (r.Heartbeat? <==> h.msgType == 1)
      && (r.Heartbeat? ==> r.recovery == if Timestamp(ies).Ok? then Some(Timestamp(ies).value) else None)
      && (r.Setup? <==> h.msgType == 5 && Node(ies).Ok? && Timestamp(ies).Ok?)
      && (r.Setup? ==> Node(ies) == Ok(r.nodeId) && Timestamp(ies) == Ok(r.recoveryTs))
      && (r.Establish? <==> h.msgType == 50 && !BadEstablish(ies))
      && (r.Establish? ==>
            && Fseid(ies).Ok? && r.cpSeid == Fseid(ies).value.0 && Collect(PdrFrom, 1, ies) == Ok(r.pdrs)
            && Collect(CreateFarFrom, 3, ies) == Ok(r.fars) && Collect(UrrFrom, 6, ies) == Ok(r.urrs))
      && (r.Modify? <==> h.msgType == 52 && !BadModify(ies))
      && (r.Modify? ==>
            && r.modSeid == h.seid && Collect(UpdateFarFrom, 10, ies) == Ok(r.updFars) && Collect(UrrFrom, 13, ies) == Ok(r.updUrrs))
      && (r.Delete? <==> h.msgType == 54) && (r.Delete? ==> r.delSeid == h.seid)
      && (r.Silent? <==> h.msgType == 57 || (h.msgType % 2 == 0 && h.msgType !in {50, 52, 54}))
  {
    hide Parse, Collect, FindIe, ParseFseid, ParseNodeId, ParseRecoveryTimestamp;
    var ies := Parse(body);
    CollectFailsIff(PdrFrom, 1, ies);
    CollectFailsIff(CreateFarFrom, 3, ies);
    CollectFailsIff(UrrFrom, 6, ies);
    CollectFailsIff(UpdateFarFrom, 10, ies);
    CollectFailsIff(UrrFrom, 13, ies);
    hide SomeFails;
  }
}
