/** The simulator's basic session lifecycle, message by message: the hypotheses of the run theorems hold along it. */
module Lifecycle {
  import opened Bytes
  import opened Rules
  import opened Builder
  import opened RoundTrip
  import opened Messages
  import opened Validator
  import opened Server
  import opened World
  import opened Compiled
  import opened Cleanup
  import Ownership

  /** What the simulator takes from its configuration and counters. */
  datatype Scenario = Scenario(
    node: NodeId, stamp: u32, ueIp: u32, gnb: u32, teid: u32, newTeid: u32, cpSeid: u64, filter: Option<SdfFilter>,
    seqNum: u32, src: SockAddr)

  function DownlinkFar(c: Scenario, teid: u32): FarParams {
    FarParams(2, ACTION_FORW, IFACE_ACCESS, Some(HeaderCreation(teid, c.gnb, 2152)))
  }

  /** The four rules of its session: one PDR and one FAR each way. */
  function BasicRules(c: Scenario): seq<CreateRule> {
    [PdrRule(PdrParams(1, 100, IFACE_ACCESS, true, Some(c.ueIp), 1, None, true, c.filter)),
     PdrRule(PdrParams(2, 100, IFACE_CORE, false, Some(c.ueIp), 2, None, false, c.filter)),
     FarRule(FarParams(1, ACTION_FORW, IFACE_CORE, None)), FarRule(DownlinkFar(c, c.teid))]
  }

  function Book(c: Scenario): RuleBook {
    RuleBook(c.node, c.ueIp, [PdrOf(BasicRules(c)[0].pdr), PdrOf(BasicRules(c)[1].pdr)],
             [FarOf(BasicRules(c)[2].far), FarOf(BasicRules(c)[3].far)], [],
             History(0, [FarOf(BasicRules(c)[2].far), FarOf(BasicRules(c)[3].far)], []))
  }

  function Receive(c: Scenario, data: Octets, found: Option<NodeId>): Event {
    Handle(c.src, RequestIn(data), found, 0)
  }

  function Setting(c: Scenario): Event {
    Receive(c, SetupMessage(c.seqNum, c.node, c.stamp), None)
  }

  function Establishing(c: Scenario): Event {
    Receive(c, EstablishMessage((c.seqNum + 1) % 0x1_0000_0000, c.node, c.cpSeid, BasicRules(c)), Some(c.node))
  }

  function Modifying(c: Scenario, seid: u64): Event {
    Receive(c, ModifyMessage((c.seqNum + 2) % 0x1_0000_0000, seid, [FarUpdate(DownlinkFar(c, c.newTeid))]), Some(c.node))
  }

  function Deleting(c: Scenario, seid: u64): Event {
    Receive(c, DeleteMessage((c.seqNum + 3) % 0x1_0000_0000, seid), Some(c.node))
  }

  /** The two methods of the builder make these messages; what they stand for. */
  lemma BasicRequests(c: Scenario, seqNum: u32, seid: u64)
    ensures RequestIn(EstablishMessage(seqNum, c.node, c.cpSeid, BasicRules(c)))
            == Establish(c.cpSeid, Book(c).pdrs, Book(c).fars, [])
    ensures RequestIn(ModifyMessage(seqNum, seid, [FarUpdate(DownlinkFar(c, c.newTeid))]))
            == Modify(Some(seid), [FarOf(DownlinkFar(c, c.newTeid))], [])
  {
    hide DecodeRequest, EstablishMessage, ModifyMessage, PdrOf, FarOf;
    var rs, us := BasicRules(c), [FarUpdate(DownlinkFar(c, c.newTeid))];
    EstablishRoundTrip(seqNum, c.node, c.cpSeid, rs);
    ModifyRoundTrip(seqNum, seid, us);
    FourRules(rs);
    assert us[..0] == [];
    assert UpdatedFars(us) == [FarOf(DownlinkFar(c, c.newTeid))] && UpdatedUrrs(us) == [];
  }

  lemma FourRules(rs: seq<CreateRule>)
    requires |rs| == 4 && rs[0].PdrRule? && rs[1].PdrRule? && rs[2].FarRule? && rs[3].FarRule?
    ensures PdrsOf(rs) == [PdrOf(rs[0].pdr), PdrOf(rs[1].pdr)]
    ensures FarsOf(rs) == [FarOf(rs[2].far), FarOf(rs[3].far)] && UrrsOf(rs) == []
  {
    forall k | 0 <= k < 4
      ensures PdrsOf(rs[..k + 1]) == PdrsOf(rs[..k]) + if rs[k].PdrRule? then [PdrOf(rs[k].pdr)] else []
      ensures FarsOf(rs[..k + 1]) == FarsOf(rs[..k]) + if rs[k].FarRule? then [FarOf(rs[k].far)] else []
      ensures UrrsOf(rs[..k + 1]) == UrrsOf(rs[..k]) + if rs[k].UrrRule? then [UrrOf(rs[k].urr)] else []
    {
      assert rs[..k + 1][..k] == rs[..k];
    }
    assert PdrsOf(rs[..0]) == [] && FarsOf(rs[..0]) == [] && UrrsOf(rs[..0]) == [];
    hide PdrsOf, FarsOf, UrrsOf, PdrOf, FarOf, UrrOf;
    assert rs[..4] == rs;
    assert PdrsOf(rs[..2]) == [PdrOf(rs[0].pdr), PdrOf(rs[1].pdr)] && FarsOf(rs[..2]) == [] && UrrsOf(rs[..2]) == [];
  }

  // The rules are tidy.

  lemma EveryRuleListed(c: Scenario)
    ensures Tidy(Book(c))
  {
    hide Tidy;
    var b := Book(c);
    BookIds(c);
    hide Book;
    RuleAtIsItself(b, 0);
    RuleAtIsItself(b, 1);
    assert PdrListed(b, 1) by { assert SameId(b.pdrs[0].pdrId, 1); }
    assert PdrListed(b, 2) by { assert SameId(b.pdrs[1].pdrId, 2); }
    assert FarReferenced(b, 1) by { assert SameId(OrZero(RuleAt(b, 0).farId), 1); }
    assert FarReferenced(b, 2) by { assert SameId(OrZero(RuleAt(b, 1).farId), 2); }
    TwoOfEach(b);
  }

  lemma BookIds(c: Scenario)
    ensures var p, f := Book(c).pdrs, Book(c).fars;
            && |p| == 2 && p[0].pdrId == 1 && p[1].pdrId == 2 && p[0].farId == Some(1) && p[1].farId == Some(2)
            && p[0].ueIp == Some(c.ueIp) && p[0].sourceInterface == IFACE_ACCESS
            && |f| == 2 && f[0].farId == 1 && f[1].farId == 2 && f[0].ohc == None && f[1].ohc.Some?
            && Book(c).urrs == [] && Book(c).node == c.node && Book(c).ueIp == c.ueIp && Book(c).history == History(0, f, [])
  {
  }

  lemma TwoOfEach(b: RuleBook)
    requires |b.pdrs| == 2 && b.pdrs[0].pdrId == 1 && b.pdrs[1].pdrId == 2 && PdrListed(b, 1) && PdrListed(b, 2)
    requires |b.fars| == 2 && b.fars[0].farId == 1 && b.fars[1].farId == 2 && FarReferenced(b, 1) && FarReferenced(b, 2)
    requires b.urrs == []
    ensures Tidy(b)
  {
    hide PdrListed, FarReferenced, UrrReferenced;
  }

  // The steps.

  /** Every hypothesis of the run theorems that is about handled requests. */
  ghost predicate Fine(w: World, e: Event) {
    Neat(w, e) && Ownership.Separate(w, e)
  }

  /** The one session, established by the node and reachable from its address. */
  ghost predicate Established(w: World, c: Scenario) {
    var s := w.st.srv;
    && s.sessions.Keys == {1} && s.sessions[1].cpSeid == c.cpSeid && s.sessions[1].ueIp == c.ueIp
    && s.assocs.Keys == {c.node} && s.assocs[c.node].peer == c.src && c.cpSeid in s.assocs[c.node].sessions
    && 1 in w.books && w.books[1].node == c.node && s.nextSeid == 2
  }

  ghost predicate Associated(w: World, c: Scenario) {
    var s := w.st.srv;
    && s.sessions == map[] && s.assocs == map[c.node := Association(c.src, c.stamp, map[])]
    && s.nextSeid == 1 && s.nextTeid == 1000
  }

  lemma FirstStep(w: World, c: Scenario, n3: u32, ts: u32, ncpus: nat)
    requires w == Start(n3, ts, ncpus)
    ensures Fine(w, Setting(c)) && Associated(Step(w, Setting(c)), c) && Step(w, Setting(c)).st.srv.n3 == n3
  {
    hide SetupMessage, RequestIn;
    SetupAndDeleteRoundTrip(c.seqNum, c.node, c.stamp, 0);
  }

  /** What the establishment request asks for. */
  ghost predicate Asks(e: Event, c: Scenario) {
    && e.Handle? && e.src == c.src && e.found == Some(c.node) && e.req.Establish? && e.req.cpSeid == c.cpSeid
    && FirstUeIp(e.req.pdrs) == Some(c.ueIp) && FirstOhc(e.req.fars).Some?
    && Tidy(NewBook(c.node, c.ueIp, e.req, e.now))
    && |e.req.pdrs| > 0 && e.req.pdrs[0].sourceInterface == IFACE_ACCESS
  }

  lemma EstablishingAsks(c: Scenario)
    ensures Asks(Establishing(c), c)
  {
    hide EstablishMessage, RequestIn, Tidy, Book;
    BasicRequests(c, (c.seqNum + 1) % 0x1_0000_0000, 0);
    EveryRuleListed(c);
    BookIds(c);
    assert FirstUeIp(Book(c).pdrs) == Some(c.ueIp);
    assert FirstOhc(Book(c).fars[1..]) == Book(c).fars[1].ohc == FirstOhc(Book(c).fars);
  }

  lemma SecondStep(w: World, e: Event, c: Scenario)
    requires Associated(w, c) && c.src.V4? && Asks(e, c)
    ensures Fine(w, e) && Established(Step(w, e), c) && EstablishAccepted(c.src, e.req, e.found)
  {
    hide InstallPdrs, InstallFars, InstallUrrs, Configure, NewInfo, Tidy, FirstUeIp, FirstOhc, Created;
  }

  lemma ThirdStep(w: World, e: Event, c: Scenario)
    requires Established(w, c) && c.src.V4? && e.Handle? && e.src == c.src && e.found == Some(c.node)
    requires e.req.Modify? && e.req.modSeid == Some(1)
    ensures Fine(w, e) && Established(Step(w, e), c)
    ensures Step(w, e).st.srv.sessions[1] == WithTunnel(w.st.srv.sessions[1], LastTunnel(e.req.updFars))
  {
    hide PatchFars, Reconfigure, Tidy, LastTunnel;
  }

  /** The modification is accepted and gives the session the new tunnel. */
  lemma ModificationMoves(w: World, c: Scenario)
    requires Established(w, c) && c.src.V4?
    ensures Fine(w, Modifying(c, 1)) && Established(Step(w, Modifying(c, 1)), c)
    ensures Step(w, Modifying(c, 1)).st.srv.sessions[1] == w.st.srv.sessions[1].(teid := c.newTeid, gnbIp := c.gnb)
  {
    hide ModifyMessage, RequestIn, Step, Fine, Established;
    BasicRequests(c, (c.seqNum + 2) % 0x1_0000_0000, 1);
    ThirdStep(w, Modifying(c, 1), c);
  }

  lemma LastStep(w: World, c: Scenario)
    requires Established(w, c) && c.src.V4?
    ensures Fine(w, Deleting(c, 1)) && Step(w, Deleting(c, 1)).st.srv.sessions == map[]
  {
    hide DeleteMessage, RequestIn, DeleteMaps, Tidy;
    SetupAndDeleteRoundTrip((c.seqNum + 3) % 0x1_0000_0000, 0, 0, 1);
  }

  /** The answer to the establishment tells the SEID that the modification and the deletion then name. */
  lemma AnswerTellsSeid(n3: u32, ts: u32, ncpus: nat, c: Scenario)
    requires c.src.V4?
    ensures var e, s := Establishing(c), Step(Start(n3, ts, ncpus), Setting(c)).st.srv;
            && e.Handle?
            && var answer := RequestReply(s, (c.seqNum + 1) % 0x100_0000, c.src, e.req, e.found);
            && answer.Ok? && !answer.value.NoReply? && ExtractSessionInfo(ReplyOctets(answer.value)) == Ok((1, 1000, n3))
  {
    hide ReplyOctets, ExtractSessionInfo, ValidateResponse, RequestReply, EstablishAccepted, Establishing, Setting, Step, Tidy;
    var w := Start(n3, ts, ncpus);
    FirstStep(w, c, n3, ts, ncpus);
    EstablishingAsks(c);
    var e := Establishing(c);
    SecondStep(Step(w, Setting(c)), e, c);
    EstablishmentUnderstood(Step(w, Setting(c)).st.srv, (c.seqNum + 1) % 0x100_0000, c.src, e.req, e.found);
  }

  lemma {:induction false} AlongWeaker(w: World, es: seq<Event>)
    requires Along(Fine, w, es)
    ensures Along(Neat, w, es) && Along(Ownership.Separate, w, es)
    decreases |es|
  {
    hide Step, Neat;
    if |es| > 0 {
      AlongWeaker(Step(w, es[0]), es[1..]);
    }
  }

  /** The simulator's five messages but for the heartbeats, its last two under the SEID it was told. */
  function Conversation(c: Scenario, seid: u64): seq<Event> {
    [Setting(c)] + ([Establishing(c)] + ([Modifying(c, seid)] + ([Deleting(c, seid)] + [])))
  }

  /** Setup, establishment, modification, deletion, whatever the addresses, ids and filter: all hypotheses hold, and
      the maps end as empty as they began. */
  lemma LifecycleLeavesNothing(n3: u32, ts: u32, ncpus: nat, c: Scenario)
    requires c.src.V4?
    ensures var start := Start(n3, ts, ncpus);
            && Along(Neat, start, Conversation(c, 1)) && Along(Ownership.Separate, start, Conversation(c, 1))
            && Run(start, Conversation(c, 1)).st.maps == EMPTY_MAPS
  {
    hide Step, Fine, Setting, Establishing, Modifying, Deleting, Established, NoOrphans, Associated, Asks;
    var w0 := Start(n3, ts, ncpus);
    FirstStep(w0, c, n3, ts, ncpus);
    var w1 := Step(w0, Setting(c));
    EstablishingAsks(c);
    SecondStep(w1, Establishing(c), c);
    var w2 := Step(w1, Establishing(c));
    ModificationMoves(w2, c);
    var w3 := Step(w2, Modifying(c, 1));
    LastStep(w3, c);
    RunCons(Fine, w3, Deleting(c, 1), []);
    RunCons(Fine, w2, Modifying(c, 1), [Deleting(c, 1)] + []);
    RunCons(Fine, w1, Establishing(c), [Modifying(c, 1)] + ([Deleting(c, 1)] + []));
    RunCons(Fine, w0, Setting(c), [Establishing(c)] + ([Modifying(c, 1)] + ([Deleting(c, 1)] + [])));
    AlongWeaker(w0, Conversation(c, 1));
    NothingLeftBehind(n3, ts, ncpus, Conversation(c, 1));
  }
}
