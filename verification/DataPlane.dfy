/** The packet programs against the rule books of a run. */
module DataPlane {
  import opened Bytes
  import opened Keys
  import opened Rules
  import opened Classifier
  import opened Server
  import opened Views
  import opened World
  import opened Compiled
  import opened Packet
  import Counters

  /** The uplink program's effect on the maps is the run's uplink step on the query it reads from the frame. */
  lemma UplinkProgramIsStep(s: Srv, m: Maps, cpu: nat, b: Octets)
    requires cpu < s.ncpus
    ensures var o := OuterTotal(b);
            o.Some? && InnerQuery(b, o.value).Some? ==>
              UplinkStep(s, m, cpu, InnerQuery(b, o.value).value, |b| % TWO_64)
              == match UplinkVerdict(m, b)
                 case Strip(_, Some(c)) => m.(urr := Counters.CountOn(m.urr, s.ncpus, cpu, c.0, c.1, |b| % TWO_64, false))
                 case _ => m
  {
    hide SelectFar, Counters.CountOn, OuterTotal, InnerQuery;
  }

  // The downlink tunnel, in terms of rules.

  /** Rule `i` of the book is for the core side and its FAR exists. */
  predicate CoreApplies(b: RuleBook, i: nat) {
    && i < Installed(|b.pdrs|)
    && RuleAt(b, i).sourceInterface == IFACE_CORE
    && LastFar(b.fars, OrZero(RuleAt(b, i).farId)).Some?
  }

  function FarInForce(b: RuleBook, i: nat): ParsedFar
    requires i < |b.pdrs| && LastFar(b.fars, OrZero(RuleAt(b, i).farId)).Some?
  {
    LastFar(b.fars, OrZero(RuleAt(b, i).farId)).value
  }

  lemma CoreIsRule(w: World, t: u64, i: nat)
    requires t in w.books && AgreesFor(w, t) && t in w.st.srv.sessions
    ensures CoreRule(w.st.maps, ExpectedInfo(w, t), i) <==> CoreApplies(w.books[t], i)
    ensures CoreApplies(w.books[t], i) ==>
              CoreFar(w.st.maps, ExpectedInfo(w, t), i) == FarVal(FarInForce(w.books[t], i), w.st.srv.n3)
  {
    hide Compose, FarVal;
    var info, b, m := ExpectedInfo(w, t), w.books[t], w.st.maps;
    if i < Installed(|b.pdrs|) {
      assert info.pdrIds[i] == b.pdrs[i].pdrId;
      assert PdrEntry(m.pdr, t, b.ueIp, b.pdrs, b.pdrs[i].pdrId);
      assert FarEntry(m.far, t, w.st.srv.n3, b.fars, OrZero(RuleAt(b, i).farId));
    }
  }

  /** Addresses and TEID of a tunnel, as numbers. */
  datatype Endpoint = Endpoint(upf: u32, gnb: u32, teid: u32)

  predicate FirstCoreRule(b: RuleBook, i: nat) {
    CoreApplies(b, i) && forall j: nat :: j < i ==> !CoreApplies(b, j)
  }

  /** The tunnel the rules ask for: the first core rule's, where that forwards; else the session's own. */
  ghost predicate RuleTunnel(b: RuleBook, d: SessionData, n3: u32, p: Endpoint) {
    if forall i: nat :: !CoreApplies(b, i) then p == Endpoint(n3, d.gnbIp, d.teid)
    else exists i: nat :: FirstCoreRule(b, i) && ForwardsTo(b, i, d, n3, p)
  }

  predicate ForwardsTo(b: RuleBook, i: nat, d: SessionData, n3: u32, p: Endpoint)
    requires CoreApplies(b, i)
  {
    var f := FarInForce(b, i);
    && f.applyAction % 2 == 0
    && p == if f.applyAction / 2 % 2 == 1
            then Endpoint(n3, if f.ohc.Some? then f.ohc.value.peerAddr else 0, if f.ohc.Some? then f.ohc.value.teid else 0)
            else Endpoint(n3, d.gnbIp, d.teid)
  }

  function Numbers(t: Tunnelling): Endpoint
    requires t.Tunnel?
  {
    Endpoint(t.upfIp.host, t.gnbIp.host, t.teid.host)
  }

  lemma TunnelIsRuleTunnel(w: World, t: u64, choice: Tunnelling)
    requires Agreed(w) && t in w.st.srv.sessions && choice.Tunnel? && TunnelOf(w.st.maps, ExpectedInfo(w, t), choice)
    ensures RuleTunnel(w.books[t], w.st.srv.sessions[t], w.st.srv.n3, Numbers(choice))
  {
    var m, b, info := w.st.maps, w.books[t], ExpectedInfo(w, t);
    assert Endpoint(info.upfIp.host, info.gnbIp.host, info.teid.host)
        == Endpoint(w.st.srv.n3, w.st.srv.sessions[t].gnbIp, w.st.srv.sessions[t].teid);
    assert info.pdrCount == 0 ==> forall i: nat :: !CoreApplies(b, i);
    hide Compose, CoreRule, CoreApplies, CoreFar, ExpectedInfo;
    assert AgreesFor(w, t);
    forall i: nat ensures CoreRule(m, info, i) <==> CoreApplies(b, i) {
      CoreIsRule(w, t, i);
    }
    if forall i: nat :: !CoreApplies(b, i) {
    } else {
      var i: nat :| FirstCore(m, info, i) && choice == (
        var far := CoreFar(m, info, i);
        if Bit(far.applyAction, ACTION_DROP) then Discard
        else if Bit(far.applyAction, ACTION_FORW) then Tunnel(info.upfIp, far.gnbIp, far.teid)
        else Tunnel(info.upfIp, info.gnbIp, info.teid));
      CoreIsRule(w, t, i);
      assert FirstCoreRule(b, i) && ForwardsTo(b, i, w.st.srv.sessions[t], w.st.srv.n3, Numbers(choice));
    }
  }

  /** The outer addresses and the TEID of a frame are those of the endpoint, most significant octet first. */
  predicate OnWire(e: Octets, p: Endpoint) {
    && |e| >= ETH + ADDED && e[ETH + 12..ETH + 16] == BeU32(p.upf) && e[ETH + 16..ETH + 20] == BeU32(p.gnb)
    && e[ETH + IP + UDP + 4..ETH + IP + UDP + 8] == BeU32(p.teid)
  }

  /** What a receiver reads in the outer headers of a made frame. */
  lemma EndpointOnWire(b: Octets, gnbMac: Octets, t: Tunnelling)
    requires |b| >= 18 && |gnbMac| == 6 && t.Tunnel?
    ensures var e := Encapsulated(b, gnbMac, t.upfIp, t.gnbIp, t.teid);
            && OnWire(e, Numbers(t))
            && Endpoint(ReadU32(e, ETH + 12), ReadU32(e, ETH + 16), ReadU32(e, ETH + IP + UDP + 4)) == Numbers(t)
  {
    hide Encapsulated, ReadU32, BeU32, OuterIp, GtpuHeader, OuterUdp, ReadU16;
    Places(b, gnbMac, t.upfIp, t.gnbIp, t.teid);
    var e, inner := Encapsulated(b, gnbMac, t.upfIp, t.gnbIp, t.teid), ReadU16(b, ETH + 2);
    AddressFields(inner, t.upfIp, t.gnbIp, t.teid);
    SubSlice(e, 14, 34, 12, 16);
    SubSlice(e, 14, 34, 16, 20);
    SubSlice(e, 42, 50, 4, 8);
    WordAt(e, ETH + 12, t.upfIp.host);
    WordAt(e, ETH + 16, t.gnbIp.host);
    WordAt(e, ETH + IP + UDP + 4, t.teid.host);
  }

  lemma SubSlice(e: Octets, a: nat, b: nat, c: nat, d: nat)
    requires a <= b <= |e| && c <= d <= b - a
    ensures e[a..b][c..d] == e[a + c..a + d]
  {
    forall k | 0 <= k < d - c ensures e[a..b][c..d][k] == e[a + c..a + d][k] {
      assert e[a..b][c + k] == e[a + c + k];
    }
  }

  lemma AddressFields(inner: u16, upfIp: Net32, gnbIp: Net32, teid: Net32)
    ensures OuterIp(inner, upfIp, gnbIp)[12..16] == BeU32(upfIp.host)
    ensures OuterIp(inner, upfIp, gnbIp)[16..20] == BeU32(gnbIp.host)
    ensures GtpuHeader(inner, teid)[4..8] == BeU32(teid.host)
  {
    hide BeU16, BeU32, Swap16;
    assert GtpuHeader(inner, teid) == [0x34, GPDU] + BeU16((inner + EXT) % 0x1_0000) + BeU32(teid.host);
  }

  lemma WordAt(e: Octets, at: nat, x: u32)
    requires at + 4 <= |e| && e[at..at + 4] == BeU32(x)
    ensures ReadU32(e, at) == x
  {
    hide BeU32, ReadU32;
    ReadBackU32(e[..at], x, e[at + 4..]);
    assert e == e[..at] + BeU32(x) + e[at + 4..];
  }

  /** After any orderly run, a packet to a live session's address that the downlink program tunnels leaves in a
      frame whose outer addresses and TEID are those the session's own rules, as last updated, ask for. */
  lemma DownlinkFollowsRules(n3: u32, ts: u32, ncpus: nat, es: seq<Event>, t: u64, b: Octets, gnbMac: Octets, choice: Tunnelling)
    requires Along(Orderly, Start(n3, ts, ncpus), es)
    requires t in Run(Start(n3, ts, ncpus), es).st.srv.sessions
    requires |b| >= ETH + IP + 4 && |gnbMac| == 6 && choice.Tunnel?
    ensures var w := Run(Start(n3, ts, ncpus), es);
            && t in w.books
            && OnWire(Encapsulated(b, gnbMac, choice.upfIp, choice.gnbIp, choice.teid), Numbers(choice))
            && (b[ETH + 16..ETH + 20] == BeU32(w.st.srv.sessions[t].ueIp) && DownlinkDecision(w.st.maps, b, choice) ==>
                  RuleTunnel(w.books[t], w.st.srv.sessions[t], w.st.srv.n3, Numbers(choice)))
  {
    hide TunnelOf, SelectFar, ReadU16, ReadU32, BeU32, Encapsulated, RuleTunnel, OnWire;
    RunsAgree(n3, ts, ncpus, es);
    var w := Run(Start(n3, ts, ncpus), es);
    assert MirrorOf(w, t);
    EndpointOnWire(b, gnbMac, choice);
    if b[ETH + 16..ETH + 20] == BeU32(w.st.srv.sessions[t].ueIp) && DownlinkDecision(w.st.maps, b, choice) {
      WordAt(b, ETH + 16, w.st.srv.sessions[t].ueIp);
      TunnelIsRuleTunnel(w, t, choice);
    }
  }
}
