/** Where the code does less than its documentation or its log messages say: exact conditions and concrete inputs. */
module Deviations {
  import opened Bytes
  import opened Keys
  import opened Rules
  import opened Classifier
  import opened Server
  import opened Counters
  import opened World
  import opened Reporter
  import opened Checksum
  import opened Packet
  import Ownership
  import Views
  import Charging
  import Interleaving
  import Messages
  import Validator

  // "Rejecting" an older recovery time stamp.

  /** A setup from a known node leaves the association alone exactly for its own time stamp; an older one replaces it. */
  lemma SetupKeepsIff(s: Srv, src: SockAddr, n: NodeId, ts: u32)
    requires n in s.assocs
    ensures SetupStep(s, src, n, ts) == s <==> ts == s.assocs[n].recoveryTs
    ensures ts != s.assocs[n].recoveryTs ==> SetupStep(s, src, n, ts).assocs[n] == Association(src, ts, map[])
  {
    if ts != s.assocs[n].recoveryTs {
      assert SetupStep(s, src, n, ts).assocs[n] != s.assocs[n];
    }
  }

  // Sessions of two nodes, told apart by cp_seid and UE address only.

  const SMF_A := V4(10, 8805)
  const SMF_B := V4(20, 8805)

  function OneRule(cp: u64, ueIp: u32): Request {
    Establish(cp, [ParsedPdr(1, 100, 0, None, Some(ueIp), Some(1), None, true, None)],
              [ParsedFar(1, 2, Some(0), Some(HeaderCreation(7, 30, 2152)))], [])
  }

  /** Node 10 establishes SEID 1 under cp_seid 1 and UE address 100, node 20 establishes SEID 2; then node 20 deletes. */
  function TwoNodes(cp: u64, ueIp: u32, deleted: u64): seq<Event> {
    [Handle(SMF_A, Setup(10, 1), None, 0), Handle(SMF_A, OneRule(1, 100), Some(10), 0),
     Handle(SMF_B, Setup(20, 1), None, 0), Handle(SMF_B, OneRule(cp, ueIp), Some(20), 0),
     Handle(SMF_B, Delete(Some(deleted)), Some(20), 0)]
  }

  /** The session of node 10, reachable from its address. */
  ghost predicate OneSession(w: World) {
    var s := w.st.srv;
    && s.nextSeid == 2 && s.sessions.Keys == {1} && s.sessions[1].cpSeid == 1 && s.sessions[1].ueIp == 100
    && s.assocs.Keys == {10} && s.assocs[10].peer == SMF_A && 1 in w.books && w.books[1].node == 10
    && w.st.maps.sess.Keys == {ToBe32(100)}
  }

  /** And one of node 20. */
  ghost predicate TwoSessions(w: World, cp: u64, ueIp: u32) {
    var s := w.st.srv;
    && s.sessions.Keys == {1, 2} && s.sessions[1].cpSeid == 1 && s.sessions[1].ueIp == 100
    && s.sessions[2].cpSeid == cp && s.sessions[2].ueIp == ueIp
    && 1 in w.books && w.books[1].node == 10
    && 20 in s.assocs && s.assocs[20].peer == SMF_B && cp in s.assocs[20].sessions
    && w.st.maps.sess.Keys == {ToBe32(100), ToBe32(ueIp)}
  }

  lemma FirstNode(w: World, cp: u64, ueIp: u32, deleted: u64)
    requires w == Start(1, 1, 1)
    ensures var es := TwoNodes(cp, ueIp, deleted);
            && Possible(w, es[0]) && Possible(Step(w, es[0]), es[1]) && OneSession(Step(Step(w, es[0]), es[1]))
  {
    hide InstallPdrs, InstallFars, InstallUrrs, Configure, NewInfo, DeleteMaps, LastTunnel, PatchFars;
  }

  lemma SecondNode(w: World, cp: u64, ueIp: u32, deleted: u64)
    requires OneSession(w)
    ensures var es := TwoNodes(cp, ueIp, deleted);
            && Possible(w, es[2]) && Possible(Step(w, es[2]), es[3])
            && TwoSessions(Step(Step(w, es[2]), es[3]), cp, ueIp)
  {
    hide InstallPdrs, InstallFars, InstallUrrs, Configure, NewInfo, DeleteMaps, LastTunnel, PatchFars;
  }

  lemma SecondNodeDeletes(w: World, cp: u64, ueIp: u32, deleted: u64)
    requires TwoSessions(w, cp, ueIp) && deleted in {1, 2} && w.st.srv.sessions[deleted].cpSeid == cp
    ensures var e := TwoNodes(cp, ueIp, deleted)[4];
            && Possible(w, e) && var w' := Step(w, e);
            && w'.st.srv.sessions == w.st.srv.sessions - {deleted} && 1 in w'.books && w'.books[1].node == 10
            && w'.st.maps.sess.Keys == w.st.maps.sess.Keys - {ToBe32(w.st.srv.sessions[deleted].ueIp)}
  {
    hide PdrKeys, FarIds, UrrIds, KeysOf;
  }

  lemma TwoNodesRun(cp: u64, ueIp: u32, deleted: u64)
    requires deleted == 2 || (deleted == 1 && cp == 1)
    ensures Along(Possible, Start(1, 1, 1), TwoNodes(cp, ueIp, deleted))
    ensures var w := Run(Start(1, 1, 1), TwoNodes(cp, ueIp, deleted));
            && w.st.srv.sessions.Keys == {1, 2} - {deleted} && 1 in w.books && w.books[1].node == 10
            && (deleted == 2 ==> w.st.srv.sessions[1].ueIp == 100 && w.st.maps.sess.Keys == {ToBe32(100)} - {ToBe32(ueIp)})
  {
    hide Step, Possible, OneRule;
    var es, w0 := TwoNodes(cp, ueIp, deleted), Start(1, 1, 1);
    FirstNode(w0, cp, ueIp, deleted);
    var w1 := Step(w0, es[0]);
    var w2 := Step(w1, es[1]);
    SecondNode(w2, cp, ueIp, deleted);
    var w3 := Step(w2, es[2]);
    var w4 := Step(w3, es[3]);
    SecondNodeDeletes(w4, cp, ueIp, deleted);
    hide OneSession, TwoSessions;
    assert es == [es[0]] + ([es[1]] + ([es[2]] + ([es[3]] + ([es[4]] + []))));
    RunCons(Possible, w4, es[4], []);
    RunCons(Possible, w3, es[3], [es[4]] + []);
    RunCons(Possible, w2, es[2], [es[3]] + ([es[4]] + []));
    RunCons(Possible, w1, es[1], [es[2]] + ([es[3]] + ([es[4]] + [])));
    RunCons(Possible, w0, es[0], [es[1]] + ([es[2]] + ([es[3]] + ([es[4]] + []))));
  }

  /** Under one cp_seid, node 20 deletes the session node 10 established: cp_seids alone decide ownership. */
  lemma OtherNodeDeletes()
    ensures Along(Possible, Start(1, 1, 1), TwoNodes(1, 101, 1))
    ensures var w := Run(Start(1, 1, 1), TwoNodes(1, 101, 1));
            1 !in w.st.srv.sessions && 2 in w.st.srv.sessions && 1 in w.books && w.books[1].node == 10
  {
    hide TwoNodes, Run;
    TwoNodesRun(1, 101, 1);
  }

  /** Under two cp_seids but one UE address, node 20 deletes its own session, and node 10's stays without the SESSION
      entry its packets are found by. */
  lemma SharedAddressLosesEntry()
    ensures Along(Possible, Start(1, 1, 1), TwoNodes(2, 100, 2))
    ensures var w := Run(Start(1, 1, 1), TwoNodes(2, 100, 2));
            1 in w.st.srv.sessions && w.st.srv.sessions[1].ueIp == 100 && w.st.maps.sess == map[]
  {
    hide TwoNodes, Run;
    TwoNodesRun(2, 100, 2);
  }

  // One establishment and what can follow it.

  const URR: ParsedUrr := ParsedUrr(5, 2, TRIGGER_VOLTH, Some(500), None)
  const FIRST_PDR: ParsedPdr := ParsedPdr(1, 200, IFACE_CORE, None, Some(100), Some(1), Some(5), false, None)
  const SECOND_PDR: ParsedPdr := ParsedPdr(2, 100, IFACE_CORE, None, None, Some(2), None, false, None)

  function ForwardTo(id: u32, teid: u32): ParsedFar {
    ParsedFar(id, ACTION_FORW, Some(IFACE_ACCESS), Some(HeaderCreation(teid, 30, 2152)))
  }

  /** Two core rules, the second with the lower precedence value, and a FAR that no PDR names. */
  function Mixed(): Request {
    Establish(1, [FIRST_PDR, SECOND_PDR], [ForwardTo(1, 11), ForwardTo(2, 22), ForwardTo(9, 99)], [URR])
  }

  function Opening(): seq<Event> {
    [Handle(SMF_A, Setup(10, 5), None, 0), Handle(SMF_A, Mixed(), Some(10), 0)]
  }

  function Opened(): World {
    Run(Start(1, 1, 1), Opening())
  }

  ghost predicate RulesInMaps(pdr: map<u64, PdrValue>, far: map<u64, FarValue>) {
    && Compose(1, 1) in pdr && pdr[Compose(1, 1)] == PdrVal(FIRST_PDR, 100)
    && Compose(1, 2) in pdr && pdr[Compose(1, 2)] == PdrVal(SECOND_PDR, 100)
    && Compose(1, 1) in far && far[Compose(1, 1)] == FarVal(ForwardTo(1, 11), 1)
    && Compose(1, 2) in far && far[Compose(1, 2)] == FarVal(ForwardTo(2, 22), 1)
    && Compose(1, 9) in far
  }

  /** Tables and maps after the opening. */
  ghost predicate MixedState(w: World) {
    var s, m, d := w.st.srv, w.st.maps, SessionData(100, 1000, 30, 1);
    && s.nextSeid == 2 && s.sessions == map[1 := d]
    && s.assocs == map[10 := Association(SMF_A, 5, map[1 := d])]
    && (1, 5) in s.urrConfigs && RulesInMaps(m.pdr, m.far)
    && m.sess == map[ToBe32(100) := SessionInfo(1, ToBe32(1000), ToBe32(30), ToBe32(1), PdrIdArray([FIRST_PDR, SECOND_PDR]), 2)]
    && 1 in w.books
  }

  lemma Installs()
    ensures RulesInMaps(InstallPdrs(map[], 1, 100, [FIRST_PDR, SECOND_PDR]),
                        InstallFars(map[], 1, 1, [ForwardTo(1, 11), ForwardTo(2, 22), ForwardTo(9, 99)]))
    ensures (1, 5) in Configure(map[], 1, 1, 0, [URR])
  {
    hide Compose, PdrVal, FarVal, NewConfig;
    var ps, fs := [FIRST_PDR, SECOND_PDR], [ForwardTo(1, 11), ForwardTo(2, 22), ForwardTo(9, 99)];
    assert ps[..1] == [FIRST_PDR] && fs[..2] == [fs[0], fs[1]] && fs[..2][..1] == [fs[0]];
    KeysMeet(1, 1, 1, 2);
    KeysMeet(1, 1, 1, 9);
    KeysMeet(1, 2, 1, 9);
  }

  lemma OpeningSteps(w: World)
    requires w == Start(1, 1, 1)
    ensures var es := Opening(); Orderly(w, es[0]) && Orderly(Step(w, es[0]), es[1]) && MixedState(Step(Step(w, es[0]), es[1]))
  {
    hide Compose, InstallPdrs, InstallFars, InstallUrrs, Configure, PdrVal, FarVal, PdrIdArray;
    Installs();
  }

  lemma OpeningRun()
    ensures Along(Orderly, Start(1, 1, 1), Opening()) && MixedState(Opened())
  {
    hide Step, MixedState, Orderly, Mixed;
    var es, w := Opening(), Start(1, 1, 1);
    OpeningSteps(w);
    assert es == [es[0]] + ([es[1]] + []);
    RunCons(Orderly, Step(w, es[0]), es[1], []);
    RunCons(Orderly, w, es[0], [es[1]] + []);
  }

  /** An older time stamp, logged as rejected, replaces the association, and its session is stranded. */
  lemma OlderStampReplaces()
    ensures var e, w := Handle(SMF_A, Setup(10, 3), Some(10), 0), Opened();
            && Possible(w, e) && Step(w, e).st.srv.assocs[10] == Association(SMF_A, 3, map[])
            && Ownership.Stranded(Step(w, e), 1)
  {
    hide Opened, PdrVal, FarVal, Compose, PdrIdArray;
    OpeningRun();
  }

  /** A heartbeat after a restart leaves the session live and listed by nobody. */
  lemma HeartbeatStrands()
    ensures var e, w := Handle(SMF_A, Heartbeat(Some(7)), Some(10), 0), Opened();
            Possible(w, e) && Ownership.Stranded(Step(w, e), 1)
  {
    hide Opened, PdrVal, FarVal, Compose, PdrIdArray;
    OpeningRun();
  }

  /** No installed PDR names FAR 9. */
  lemma FarNotReached(m: Maps)
    requires RulesInMaps(m.pdr, m.far) && ToBe32(100) in m.sess
    requires var info := m.sess[ToBe32(100)]; info.pdrIds == PdrIdArray([FIRST_PDR, SECOND_PDR]) && info.pdrCount == 2
    ensures Compose(1, 9) !in KeysOf(1, FarIds(m, ToBe32(100), 1))
  {
    hide Compose;
    forall id | id in FarIds(m, ToBe32(100), 1) ensures Compose(1, id) != Compose(1, 9) {
      var i :| 0 <= i < 2 && m.pdr[Compose(1, m.sess[ToBe32(100)].pdrIds[i])].farId == id;
      KeysMeet(1, id, 1, 9);
    }
  }

  /** The untidy establishment was accepted; deleting its session leaves the FAR no PDR names and the URR configuration. */
  lemma DeletionLeavesFar()
    ensures var e, w := Handle(SMF_A, Delete(Some(1)), Some(10), 0), Opened();
            && Possible(w, e) && Step(w, e).st.srv.sessions == map[]
            && Compose(1, 9) in Step(w, e).st.maps.far && (1, 5) in Step(w, e).st.srv.urrConfigs
  {
    hide Opened, PdrIdArray, PdrKeys, FarIds, UrrIds, KeysOf, Compose, PdrVal, FarVal;
    OpeningRun();
    FarNotReached(Opened().st.maps);
  }

  /** The deletion of SEID 1 has removed it from the tables and not yet from the maps. */
  function Unlocked(): State
    requires 1 in Opened().st.srv.sessions
  {
    State(DeleteTables(Opened().st.srv, 1, 10), Opened().st.maps)
  }

  /** An establishment for the UE address just freed comes between: the deletion's map work then takes away the SESSION
      entry of the new session and leaves PDR 2 of the old one. */
  lemma LateDeletionLosesNewSession()
    ensures DeleteAccepted(Opened().st.srv, SMF_A, Delete(Some(1)), Some(10)) && Unlocked().srv.sessions == map[]
    ensures var r, st := OneRule(2, 100), Unlocked();
            && Lookup(st.srv.assocs, SMF_A, Some(10)) && EstablishAccepted(SMF_A, r, Some(10))
            && var between := Interleaving.EstablishOps(st.srv, r);
            && EstablishStep(st, SMF_A, r, Some(10), 0).maps == Interleaving.ApplyAll(st.maps, between)
            && EstablishStep(st, SMF_A, r, Some(10), 0).srv.sessions.Keys == {2}
            && var late := DeleteMaps(Interleaving.ApplyAll(st.maps, between), ToBe32(100), 1);
            late.sess == map[] && Compose(1, 2) in late.pdr
  {
    hide Opened, PdrVal, FarVal, Compose, PdrIdArray, NewInfo, InstallPdrs, InstallFars, InstallUrrs, Configure,
         PdrKeys, FarIds, UrrIds, KeysOf, Interleaving.ApplyAll, Interleaving.EstablishOps;
    OpeningRun();
    var r, st := OneRule(2, 100), Unlocked();
    Interleaving.EstablishIsItsOps(st, SMF_A, r, Some(10), 0);
    Interleaving.SplitDeletion(st, SMF_A, r, Some(10), 0, 1, 2);
  }

  /** The establishment has no rule for the access side, and its answer no tunnel for the simulator to find. */
  lemma NoTunnelInAnswer(s: Srv)
    requires s.nextSeid != 0 && s.nextTeid != 0
    ensures EstablishAccepted(SMF_A, Mixed(), Some(10))
    ensures var answer := RequestReply(s, 1, SMF_A, Mixed(), Some(10));
            answer.Ok? && !answer.value.NoReply? && Validator.ExtractSessionInfo(Messages.ReplyOctets(answer.value)) == Err
  {
    assert EstablishAccepted(SMF_A, Mixed(), Some(10));
    hide Messages.ReplyOctets, Validator.ExtractSessionInfo, Validator.ValidateResponse, RequestReply, EstablishAccepted;
    Validator.EstablishmentUnderstood(s, 1, SMF_A, Mixed(), Some(10));
  }

  // The downlink tunnel is not the best rule's.

  /** The search over two core rules without filters: the second has the lower precedence value. */
  lemma SecondIsBest(m: Maps, info: SessionInfo, q: Query)
    requires info.seid == 1 && info.pdrIds == PdrIdArray([FIRST_PDR, SECOND_PDR]) && info.pdrCount == 2
    requires Compose(1, 1) in m.pdr && m.pdr[Compose(1, 1)] == PdrVal(FIRST_PDR, 100) && Compose(1, 1) in m.far
    requires Compose(1, 2) in m.pdr && m.pdr[Compose(1, 2)] == PdrVal(SECOND_PDR, 100) && Compose(1, 2) in m.far
    ensures SelectFar(m, info, IFACE_CORE, q) == Some((m.far[Compose(1, 2)], 0))
    ensures FirstCore(m, info, 0) && CoreFar(m, info, 0) == m.far[Compose(1, 1)]
  {
    hide Compose;
    assert info.pdrIds[0] == 1 && info.pdrIds[1] == 2;
    assert Candidate(m, info, IFACE_CORE, q, 0) && Candidate(m, info, IFACE_CORE, q, 1);
    assert Best(m, info, IFACE_CORE, q, 0) == None;
    assert Best(m, info, IFACE_CORE, q, 1) == Some(0);
    assert Best(m, info, IFACE_CORE, q, 2) == Some(1);
  }

  /** For every packet the search picks the second rule's FAR, and the tunnel comes from the first's. */
  lemma TunnelOfFirstNotBest(q: Query)
    ensures var m := Opened().st.maps;
            && ToBe32(100) in m.sess && var info := m.sess[ToBe32(100)];
            && SelectFar(m, info, IFACE_CORE, q) == Some((FarVal(ForwardTo(2, 22), 1), 0))
            && FirstCore(m, info, 0) && CoreFar(m, info, 0) == FarVal(ForwardTo(1, 11), 1)
  {
    hide Opened, PdrVal, FarVal, PdrIdArray, SelectFar, Compose, FirstCore;
    OpeningRun();
    SecondIsBest(Opened().st.maps, Opened().st.maps.sess[ToBe32(100)], q);
  }

  // Update FARs do not change what is done with a packet.

  function DropBoth(): Event {
    Handle(SMF_A, Modify(Some(1), [ForwardTo(1, 11).(applyAction := ACTION_DROP), ForwardTo(2, 22).(applyAction := ACTION_DROP)], []),
           Some(10), 0)
  }

  /** Update FARs asking to drop everything are accepted, and every packet is still forwarded and tunnelled. */
  lemma DropNotTakenOver(q: Query, t: Tunnelling)
    ensures Possible(Opened(), DropBoth()) && Ownership.Changing(Opened(), DropBoth())
    ensures var m := Step(Opened(), DropBoth()).st.maps;
            && ToBe32(100) in m.sess && var info := m.sess[ToBe32(100)];
            && SelectFar(m, info, IFACE_CORE, q).Some? && !Dropped(SelectFar(m, info, IFACE_CORE, q))
            && (TunnelOf(m, info, t) ==> t.Tunnel?)
  {
    AfterDropBoth();
    hide Opened, Step, PdrIdArray, PdrVal, SelectFar, Compose, FarVal;
    var m := Step(Opened(), DropBoth()).st.maps;
    SecondIsBest(m, m.sess[ToBe32(100)], q);
  }

  lemma AfterDropBoth()
    ensures Possible(Opened(), DropBoth()) && Ownership.Changing(Opened(), DropBoth())
    ensures var m, k := Step(Opened(), DropBoth()).st.maps, ToBe32(100);
            && k in m.sess && m.sess[k].seid == 1
            && m.sess[k].pdrIds == PdrIdArray([FIRST_PDR, SECOND_PDR]) && m.sess[k].pdrCount == 2
            && Compose(1, 1) in m.pdr && m.pdr[Compose(1, 1)] == PdrVal(FIRST_PDR, 100)
            && Compose(1, 2) in m.pdr && m.pdr[Compose(1, 2)] == PdrVal(SECOND_PDR, 100)
            && Compose(1, 1) in m.far && m.far[Compose(1, 1)].applyAction == ACTION_FORW
            && Compose(1, 2) in m.far && m.far[Compose(1, 2)].applyAction == ACTION_FORW
  {
    hide Opened, PdrVal, PdrIdArray, PatchFars, Compose;
    OpeningRun();
    Views.PatchFarsKeys(Opened().st.maps.far, 1, DropBoth().req.updFars);
  }

  // Volume reports only when the volume trigger is configured.

  /** A tick that sees this total at this time sends a volume report for the URR the key belongs to. */
  predicate SendsVolume(s: Srv, key: u64, sum: UrrStats, now: nat) {
    var rs := TickOne(s, key, sum, now).1;
    |rs| > 0 && rs[0].volth
  }

  predicate VolumeArmed(c: UrrConfig) {
    c.triggers != 0 && c.triggers != 0x80 && c.threshold.Some? && !c.thresholdReported
  }

  /** Some tick sends a volume report for a configured URR exactly when a threshold is set, not yet reported, and the
      trigger octet is neither 0 nor 0x80; so volume reports come only as configured exactly when that implies the
      volume bit. */
  lemma VolumeOnlyAsConfiguredIff(s: Srv, key: u64)
    requires (SeidOf(key), IdOf(key)) in s.urrConfigs
    ensures var c := s.urrConfigs[(SeidOf(key), IdOf(key))];
            && ((exists sum, now :: SendsVolume(s, key, sum, now)) <==> VolumeArmed(c))
            && ((forall sum, now :: SendsVolume(s, key, sum, now) ==> Bit(c.triggers, TRIGGER_VOLTH))
                <==> (VolumeArmed(c) ==> Bit(c.triggers, TRIGGER_VOLTH)))
  {
    hide SeidOf, IdOf, PeriodDue;
    var c := s.urrConfigs[(SeidOf(key), IdOf(key))];
    forall sum, now ensures SendsVolume(s, key, sum, now) ==> VolumeArmed(c) {
    }
    if VolumeArmed(c) {
      var sum := UrrStats(c.threshold.value, 0, 0, 0);
      assert Total(sum) == c.threshold.value;
      assert SendsVolume(s, key, sum, 0);
    }
  }

  // A run in which it does: a URR for periodic reports only, with a threshold, 500 octets forwarded for it, and a tick.

  const METER: ParsedUrr := ParsedUrr(5, 2, TRIGGER_PERIO, Some(500), Some(3600))
  const METERED_PDR: ParsedPdr := ParsedPdr(1, 100, IFACE_ACCESS, None, Some(100), Some(1), Some(5), true, None)
  const HALF_KB: UrrStats := UrrStats(0, 0, 500, 1)

  function Metered(q: Query): seq<Event> {
    [Handle(SMF_A, Setup(10, 5), None, 0),
     Handle(SMF_A, Establish(1, [METERED_PDR], [ForwardTo(1, 11)], [METER]), Some(10), 0),
     Uplink(0, q, 500), ReporterTick([(Compose(1, 5), HALF_KB)], 1)]
  }

  ghost predicate MeteredState(w: World, stats: UrrStats) {
    var s, m := w.st.srv, w.st.maps;
    && s.ncpus == 1 && s.peer.Some? && s.nextSeid == 2 && w.log == []
    && (1, 5) in s.urrConfigs && s.urrConfigs[(1, 5)] == NewConfig(1, 1, 0, METER)
    && ToBe32(100) in m.sess && m.sess[ToBe32(100)].seid == 1 && m.sess[ToBe32(100)].pdrCount == 1
    && m.sess[ToBe32(100)].pdrIds[0] == 1
    && Compose(1, 1) in m.pdr && m.pdr[Compose(1, 1)] == PdrVal(METERED_PDR, 100)
    && Compose(1, 1) in m.far && m.far[Compose(1, 1)] == FarVal(ForwardTo(1, 11), 1)
    && Compose(1, 5) in m.urr && m.urr[Compose(1, 5)] == [stats]
  }

  lemma MeteredInstalls()
    ensures var p, f, u := InstallPdrs(map[], 1, 100, [METERED_PDR]), InstallFars(map[], 1, 1, [ForwardTo(1, 11)]),
                           InstallUrrs(map[], 1, 1, [METER]);
            && Compose(1, 1) in p && p[Compose(1, 1)] == PdrVal(METERED_PDR, 100)
            && Compose(1, 1) in f && f[Compose(1, 1)] == FarVal(ForwardTo(1, 11), 1)
            && Compose(1, 5) in u && u[Compose(1, 5)] == [ZERO_STATS]
    ensures (1, 5) in Configure(map[], 1, 1, 0, [METER])
    ensures Configure(map[], 1, 1, 0, [METER])[(1, 5)] == NewConfig(1, 1, 0, METER)
  {
    hide Compose, PdrVal, FarVal, NewConfig;
    assert ZeroCounters(1) == [ZERO_STATS];
  }

  lemma MeteredOpening(w: World, q: Query)
    requires w == Start(1, 1, 1)
    ensures var es := Metered(q);
            Orderly(w, es[0]) && Orderly(Step(w, es[0]), es[1]) && MeteredState(Step(Step(w, es[0]), es[1]), ZERO_STATS)
  {
    hide Compose, InstallPdrs, InstallFars, InstallUrrs, Configure, PdrVal, FarVal, NewConfig;
    MeteredInstalls();
  }

  lemma MeteredPacket(w: World, q: Query)
    requires MeteredState(w, ZERO_STATS) && q.srcIp == ToBe32(100)
    ensures Orderly(w, Metered(q)[2]) && MeteredState(Step(w, Metered(q)[2]), HALF_KB)
  {
    hide Compose, NewConfig;
    var m, info := w.st.maps, w.st.maps.sess[ToBe32(100)];
    assert Candidate(m, info, IFACE_ACCESS, q, 0);
    assert Best(m, info, IFACE_ACCESS, q, 0) == None;
    assert Best(m, info, IFACE_ACCESS, q, 1) == Some(0);
  }

  lemma MeteredTick(w: World, q: Query)
    requires MeteredState(w, HALF_KB)
    ensures Orderly(w, Metered(q)[3]) && Charging.CollectedFrom([(Compose(1, 5), HALF_KB)], w.st.maps.urr)
    ensures var log := Step(w, Metered(q)[3]).log;
            && |log| == 1 && log[0].Sent? && log[0].report.seid == 1 && log[0].report.urrId == 5
            && log[0].report.volth && !log[0].report.perio
  {
    ComposeParts(1, 5);
    hide Compose, SeidOf, IdOf, PdrVal, FarVal;
    var key, totals := Compose(1, 5), [(Compose(1, 5), HALF_KB)];
    assert [HALF_KB][..0] == [] && SumOf([HALF_KB]) == HALF_KB;
    assert totals[..0] == [] && TickAll(w.st.srv, totals[..0], 1) == (w.st.srv, []);
    assert [] + TickOne(w.st.srv, key, HALF_KB, 1).1 == TickOne(w.st.srv, key, HALF_KB, 1).1;
  }

  /** The URR is configured for periodic reports only, the packet is counted, the tick collects its counters, and the one
      report sent is a volume report. */
  lemma PeriodicOnlyReportsVolume(q: Query)
    requires q.srcIp == ToBe32(100)
    ensures !Bit(METER.triggers, TRIGGER_VOLTH)
    ensures var es, start := Metered(q), Start(1, 1, 1);
            && Along(Orderly, start, es) && Charging.Snapshots(start, es)
            && var log := Run(start, es).log;
            && |log| == 1 && log[0].Sent? && log[0].report.seid == 1 && log[0].report.urrId == 5
            && log[0].report.volth && !log[0].report.perio
  {
    hide Step, Orderly, MeteredState, Compose, Charging.CollectedFrom;
    var es, w0 := Metered(q), Start(1, 1, 1);
    var w1 := Step(w0, es[0]);
    var w2 := Step(w1, es[1]);
    var w3 := Step(w2, es[2]);
    MeteredOpening(w0, q);
    MeteredPacket(w2, q);
    MeteredTick(w3, q);
    assert es == [es[0]] + ([es[1]] + ([es[2]] + ([es[3]] + [])));
    RunCons(Orderly, w3, es[3], []);
    RunCons(Orderly, w2, es[2], [es[3]] + []);
    RunCons(Orderly, w1, es[1], [es[2]] + ([es[3]] + []));
    RunCons(Orderly, w0, es[0], [es[1]] + ([es[2]] + ([es[3]] + [])));
    assert es[..3] == [es[0]] + ([es[1]] + ([es[2]] + []));
    RunCons(Orderly, w2, es[2], []);
    RunCons(Orderly, w1, es[1], [es[2]] + []);
    RunCons(Orderly, w0, es[0], [es[1]] + ([es[2]] + []));
    assert Run(w0, es[..3]) == w3;
    assert Charging.CollectedBy(w0, es, 3);
  }

  // Filters on ports.

  /** A rule for destination port 80 does not match a flow to port 80, and matches one to port 20480. */
  lemma PortEightyMissed(ueIp: u32)
    ensures var p := ParsedPdr(1, 100, 0, None, None, None, None, false, Some(SdfFilter(0, 0, 0, ZERO, Word16(0, 80))));
            && !SdfMatches(PdrVal(p, ueIp), Loaded(Flow(6, 1, 2, ZERO, Word16(0, 80))))
            && SdfMatches(PdrVal(p, ueIp), Loaded(Flow(6, 1, 2, ZERO, Word16(80, 0))))
  {
    var p := ParsedPdr(1, 100, 0, None, None, None, None, false, Some(SdfFilter(0, 0, 0, ZERO, Word16(0, 80))));
    StoredFilterAdmits(p, ueIp, Flow(6, 1, 2, ZERO, Word16(0, 80)));
    StoredFilterAdmits(p, ueIp, Flow(6, 1, 2, ZERO, Word16(80, 0)));
  }

  // The outer checksum.

  /** An IPv4 frame with a packet of 84 octets to the address of the session opened above. */
  function PlainFrame(): (b: Octets)
    ensures |b| == 98 && b[12] == 0x08 && b[13] == 0 && b[16] == 0 && b[17] == 84
    ensures b[30] == 0 && b[31] == 0 && b[32] == 0 && b[33] == 100
  {
    seq(98, i => if i == 12 then 0x08 else if i == 17 then 84 else if i == 33 then 100 else 0)
  }

  /** The downlink program encapsulates the frame after the opening run, in one tunnel only. */
  lemma FrameIsTunnelled(t: Tunnelling)
    ensures DownlinkDecision(Opened().st.maps, PlainFrame(), t) <==> t == Tunnel(ToBe32(1), ToBe32(30), ToBe32(11))
  {
    hide Opened, PlainFrame, PdrVal, PdrIdArray, SelectFar, Compose, DownlinkQuery;
    OpeningRun();
    var b, m := PlainFrame(), Opened().st.maps;
    var info := m.sess[ToBe32(100)];
    assert ReadU16(b, 12) == 0x0800 && RawU32(b, ETH + 16) == ToBe32(100);
    TunnelOfFirstNotBest(DownlinkQuery(b));
    FirstTunnels(m, info, t);
  }

  lemma FirstTunnels(m: Maps, info: SessionInfo, t: Tunnelling)
    requires FirstCore(m, info, 0) && CoreFar(m, info, 0) == FarVal(ForwardTo(1, 11), 1) && info.upfIp == ToBe32(1)
    ensures TunnelOf(m, info, t) <==> t == Tunnel(ToBe32(1), ToBe32(30), ToBe32(11))
  {
    hide Compose, CoreFar;
    assert forall i: nat :: FirstCore(m, info, i) ==> i == 0;
  }

  /** And the outer header it makes for that tunnel does not verify. */
  lemma ChecksumFails(gnbMac: Octets)
    requires |gnbMac| == 6
    ensures var t := Tunnel(ToBe32(1), ToBe32(30), ToBe32(11));
            && DownlinkDecision(Opened().st.maps, PlainFrame(), t)
            && var e := Encapsulated(PlainFrame(), gnbMac, t.upfIp, t.gnbIp, t.teid);
            |e| >= ETH + IP && OnesSum(WordsAt(e, ETH)) != 0xFFFF
  {
    hide Encapsulated, WordsAt, OnesSum, ChecksumOf, PlainFrame, Opened, DownlinkDecision;
    FrameIsTunnelled(Tunnel(ToBe32(1), ToBe32(30), ToBe32(11)));
    OuterHeaderVerifiesIff(PlainFrame(), gnbMac, ToBe32(1), ToBe32(30), ToBe32(11));
    assert ReadU16(PlainFrame(), ETH + 2) == 84;
    ChecksumOfEightyFour();
  }

  lemma ChecksumOfEightyFour()
    ensures ChecksumOf(OuterWords(84, ToBe32(1), ToBe32(30))) == 0x7A4F
  {
    hide ChecksumOf, PlainSum;
    WordsOfEightyFour();
    ShortSum([0x4500, 0x80, 0, 0, 0x4011, 0, 0, 1, 0, 30]);
  }

  lemma WordsOfEightyFour()
    ensures OuterWords(84, ToBe32(1), ToBe32(30)) == [0x4500, 0x80, 0, 0, 0x4011, 0, 0, 1, 0, 30]
    ensures PlainSum([0x4500, 0x80, 0, 0, 0x4011, 0, 0, 1, 0, 30]) == 0x85B0
  {
    hide PlainSum;
    TenWords([0x4500, 0x80, 0, 0, 0x4011, 0, 0, 1, 0, 30]);
  }

  /** A sum within 16 bits is left alone by both folds. */
  lemma ShortSum(ws: HeaderWords)
    requires PlainSum(ws) <= 0xFFFF
    ensures ChecksumOf(ws) == 0xFFFF - PlainSum(ws)
  {
    hide PlainSum;
  }

  // URR configurations "cleaned up on Session Deletion".

  lemma {:induction false} ConfigureGrows(c: map<(u64, u32), UrrConfig>, seid: u64, cp: u64, now: nat, urrs: seq<ParsedUrr>)
    ensures c.Keys <= Configure(c, seid, cp, now, urrs).Keys
  {
    if |urrs| > 0 {
      ConfigureGrows(c, seid, cp, now, urrs[..|urrs| - 1]);
    }
  }

  lemma {:induction false} ReconfigureKeeps(c: map<(u64, u32), UrrConfig>, seid: u64, upds: seq<ParsedUrr>)
    ensures Reconfigure(c, seid, upds).Keys == c.Keys
  {
    if |upds| > 0 {
      ReconfigureKeeps(c, seid, upds[..|upds| - 1]);
    }
  }

  lemma ConfigurationsStay(w: World, e: Event)
    ensures w.st.srv.urrConfigs.Keys <= Step(w, e).st.srv.urrConfigs.Keys
  {
    hide Configure, Reconfigure, InstallPdrs, InstallFars, InstallUrrs, NewInfo, DeleteMaps, PatchFars,
         FirstUeIp, FirstOhc, LastTunnel, UplinkStep;
    if e.ReporterTick? {
      Ownership.TickAllKeeps(w.st.srv, e.totals, e.now);
    } else if Accepting(e) {
      ConfigureGrows(w.st.srv.urrConfigs, w.st.srv.nextSeid, e.req.cpSeid, e.now, e.req.urrs);
    } else if Ownership.Changing(w, e) && e.req.Modify? {
      ReconfigureKeeps(w.st.srv.urrConfigs, e.req.modSeid.value, e.req.updUrrs);
    }
  }

  /** No run ever removes a URR configuration, whatever sessions it deletes. */
  lemma {:induction false} ConfigurationsOutliveSessions(w: World, es: seq<Event>)
    ensures w.st.srv.urrConfigs.Keys <= Run(w, es).st.srv.urrConfigs.Keys
    decreases |es|
  {
    hide Step;
    if |es| > 0 {
      ConfigurationsStay(w, es[0]);
      ConfigurationsOutliveSessions(Step(w, es[0]), es[1..]);
    }
  }
}
