/** The maps as a compilation of the live sessions' rule books, through whole runs. */
module Compiled {
  import opened Bytes
  import opened Keys
  import opened Rules
  import opened Classifier
  import opened Server
  import opened Views
  import opened Counters
  import opened World
  import Ownership
  import Reporter

  /** Keys and entries only mention SEIDs already handed out. */
  ghost predicate Bounded(w: World) {
    var s, m := w.st.srv, w.st.maps;
    && Ownership.Numbers(w)
    && KeysBelow(m.pdr, s.nextSeid) && KeysBelow(m.far, s.nextSeid) && KeysBelow(m.urr, s.nextSeid)
  }

  /** What the SESSION map must hold for a live session: its SEID, its current tunnel and its first rule ids. */
  function ExpectedInfo(w: World, t: u64): SessionInfo
    requires t in w.st.srv.sessions && t in w.books
  {
    var d, b := w.st.srv.sessions[t], w.books[t];
    SessionInfo(t, ToBe32(d.teid), ToBe32(d.gnbIp), ToBe32(w.st.srv.n3), PdrIdArray(b.pdrs), Installed(|b.pdrs|))
  }

  ghost predicate MirrorOf(w: World, t: u64)
    requires t in w.st.srv.sessions && t in w.books
  {
    var k := ToBe32(w.st.srv.sessions[t].ueIp);
    && k in w.st.maps.sess && w.st.maps.sess[k] == ExpectedInfo(w, t)
    && w.books[t].ueIp == w.st.srv.sessions[t].ueIp
  }

  /** SESSION map and session table are the same table: one entry per live session and no other entry. */
  ghost predicate Mirrored(w: World) {
    && Bounded(w)
    && (forall t :: t in w.st.srv.sessions ==> MirrorOf(w, t))
    && forall k :: k in w.st.maps.sess ==>
         w.st.maps.sess[k].seid in w.st.srv.sessions && ToBe32(w.st.srv.sessions[w.st.maps.sess[k].seid].ueIp) == k
  }

  /** Rule `i` of the book as installed. */
  function RuleAt(b: RuleBook, i: nat): ParsedPdr
    requires i < |b.pdrs|
  {
    LastPdr(b.pdrs, b.pdrs[i].pdrId).value
  }

  predicate CountsUnder(b: RuleBook, i: nat, id: u32)
    requires i < |b.pdrs|
  {
    OrZero(RuleAt(b, i).urrId) != 0 && OrZero(RuleAt(b, i).urrId) % 0x1_0000 == id % 0x1_0000
  }

  ghost predicate UrrReferenced(b: RuleBook, id: u32) {
    exists i: nat :: i < Installed(|b.pdrs|) && CountsUnder(b, i, id)
  }

  ghost predicate UrrEntry(m: map<u64, seq<UrrStats>>, t: u64, b: RuleBook, id: u32) {
    && (HasUrr(b.urrs, id) ==> Compose(t, id) in m)
    && (Compose(t, id) in m ==> HasUrr(b.urrs, id) || UrrReferenced(b, id))
  }

  ghost predicate UrrView(m: map<u64, seq<UrrStats>>, t: u64, b: RuleBook) {
    forall id: u32 :: UrrEntry(m, t, b, id)
  }

  ghost predicate AgreesFor(w: World, t: u64)
    requires t in w.books
  {
    var m, b := w.st.maps, w.books[t];
    PdrView(m.pdr, t, b.ueIp, b.pdrs) && FarView(m.far, t, w.st.srv.n3, b.fars) && UrrView(m.urr, t, b)
  }

  /** The maps agree with every live session's rule book. */
  ghost predicate Agreed(w: World) {
    Mirrored(w) && forall t :: t in w.st.srv.sessions ==> AgreesFor(w, t)
  }

  // Preservation, one kind of step at a time.

  lemma NoneAbove<V>(m: map<u64, V>, bound: nat, t: u64, id: u32)
    requires KeysBelow(m, bound) && bound <= t < TWO_48
    ensures Compose(t, id) !in m
  {
    ComposeParts(t, id);
  }

  lemma EstablishBounded(w: World, e: Event)
    requires Bounded(w) && Orderly(w, e) && Accepting(e)
    ensures Bounded(Step(w, e))
  {
    hide Compose, FirstUeIp, FirstOhc, NewInfo, PdrVal, FarVal, Configure, SeidOf;
    Ownership.NumbersStep(w, e);
    var s, m := w.st.srv, w.st.maps;
    InstallPdrsKeys(m.pdr, s.nextSeid, FirstUeIp(e.req.pdrs).value, e.req.pdrs);
    InstallFarsKeys(m.far, s.nextSeid, s.n3, e.req.fars);
    InstallUrrsKeys(m.urr, s.nextSeid, s.ncpus, e.req.urrs);
  }

  lemma EstablishMirrored(w: World, e: Event)
    requires Mirrored(w) && Orderly(w, e) && Accepting(e)
    ensures Mirrored(Step(w, e))
  {
    hide Compose, FirstUeIp, FirstOhc, InstallPdrs, InstallFars, InstallUrrs, Configure, SeidOf, PdrIdArray;
    EstablishBounded(w, e);
    var w' := Step(w, e);
    var seid, ueIp := w.st.srv.nextSeid, FirstUeIp(e.req.pdrs).value;
    assert seid !in w.st.srv.sessions;
    forall t | t in w'.st.srv.sessions ensures MirrorOf(w', t) {
      if t != seid {
        assert MirrorOf(w, t);
      }
    }
  }

  lemma EstablishViews(w: World, e: Event)
    requires Agreed(w) && Orderly(w, e) && Accepting(e)
    ensures AgreesFor(Step(w, e), w.st.srv.nextSeid)
  {
    hide Compose, FirstUeIp, FirstOhc, PdrVal, FarVal, Configure, NewInfo;
    var s, m, m', b := w.st.srv, w.st.maps, Step(w, e).st.maps, Step(w, e).books[w.st.srv.nextSeid];
    var seid := s.nextSeid;
    forall id: u32 ensures PdrEntry(m'.pdr, seid, b.ueIp, b.pdrs, id) {
      InstallPdrsAt(m.pdr, seid, b.ueIp, b.pdrs, seid, id);
      NoneAbove(m.pdr, s.nextSeid, seid, id);
    }
    forall id: u32 ensures FarEntry(m'.far, seid, s.n3, b.fars, id) {
      InstallFarsAt(m.far, seid, s.n3, b.fars, seid, id);
      NoneAbove(m.far, s.nextSeid, seid, id);
    }
    forall id: u32 ensures UrrEntry(m'.urr, seid, b, id) {
      InstallUrrsAt(m.urr, seid, s.ncpus, b.urrs, seid, id);
      NoneAbove(m.urr, s.nextSeid, seid, id);
    }
  }

  lemma ViewsKept(w: World, w': World, t: u64)
    requires t in w.books && t in w'.books && w'.books[t] == w.books[t] && AgreesFor(w, t)
    requires w'.st.srv.n3 == w.st.srv.n3
    requires SameFor(w.st.maps.pdr, w'.st.maps.pdr, t)
    requires SameFor(w.st.maps.far, w'.st.maps.far, t)
    requires SameFor(w.st.maps.urr, w'.st.maps.urr, t)
    ensures AgreesFor(w', t)
  {
    hide Compose, PdrVal, FarVal;
    var m, m', b := w.st.maps, w'.st.maps, w.books[t];
    PdrViewKept(m.pdr, m'.pdr, t, b.ueIp, b.pdrs);
    FarViewKept(m.far, m'.far, t, w.st.srv.n3, b.fars);
    forall id: u32 ensures UrrEntry(m'.urr, t, b, id) {
      assert UrrEntry(m.urr, t, b, id) && SameAt(m.urr, m'.urr, Compose(t, id));
    }
  }

  lemma EstablishOthers(w: World, e: Event, t: u64)
    requires Agreed(w) && Orderly(w, e) && Accepting(e) && t in w.st.srv.sessions
    ensures AgreesFor(Step(w, e), t)
  {
    hide Compose, FirstUeIp, FirstOhc, PdrVal, FarVal, Configure, NewInfo;
    EstablishRulesUntouched(w, e, t);
    ViewsKept(w, Step(w, e), t);
  }

  /** An accepted establishment leaves the rules, counters, configurations and data of every live session alone. */
  lemma EstablishRulesUntouched(w: World, e: Event, t: u64)
    requires Ownership.Numbers(w) && Numbered(w, e) && Accepting(e) && t in w.st.srv.sessions
    ensures Ownership.RulesUntouched(w, Step(w, e), t)
  {
    hide Compose, FirstUeIp, FirstOhc, PdrVal, FarVal, Configure, NewInfo;
    var s, s', m, m' := w.st.srv, Step(w, e).st.srv, w.st.maps, Step(w, e).st.maps;
    forall id: u32 ensures SameAt(m.pdr, m'.pdr, Compose(t, id)) && SameAt(m.far, m'.far, Compose(t, id))
                           && SameAt(m.urr, m'.urr, Compose(t, id)) {
      InstallPdrsAt(m.pdr, s.nextSeid, FirstUeIp(e.req.pdrs).value, e.req.pdrs, t, id);
      InstallFarsAt(m.far, s.nextSeid, s.n3, e.req.fars, t, id);
      InstallUrrsAt(m.urr, s.nextSeid, s.ncpus, e.req.urrs, t, id);
    }
    forall id: u32 ensures ((t, id) in s.urrConfigs <==> (t, id) in s'.urrConfigs)
                           && ((t, id) in s.urrConfigs ==> s.urrConfigs[(t, id)] == s'.urrConfigs[(t, id)]) {
      ConfigureOthers(s.urrConfigs, s.nextSeid, e.req.cpSeid, e.now, e.req.urrs, t, id);
    }
  }

  lemma {:induction false} ConfigureOthers(c: map<(u64, u32), UrrConfig>, seid: u64, cp: u64, now: nat, urrs: seq<ParsedUrr>,
                                           t: u64, id: u32)
    requires t != seid
    ensures ((t, id) in c <==> (t, id) in Configure(c, seid, cp, now, urrs))
    ensures (t, id) in c ==> c[(t, id)] == Configure(c, seid, cp, now, urrs)[(t, id)]
  {
    if |urrs| > 0 {
      ConfigureOthers(c, seid, cp, now, urrs[..|urrs| - 1], t, id);
    }
  }

  /** After any orderly run, an accepted establishment leaves everything held about a live session as it was exactly
      when that session has another UE address; with the same address it takes over the SESSION entry at once. */
  lemma EstablishUntouchedIff(n3: u32, ts: u32, ncpus: nat, es: seq<Event>, e: Event, t: u64)
    requires Along(Orderly, Start(n3, ts, ncpus), es)
    requires var w := Run(Start(n3, ts, ncpus), es); Numbered(w, e) && Accepting(e) && t in w.st.srv.sessions
    ensures var w := Run(Start(n3, ts, ncpus), es);
            && Ownership.RulesUntouched(w, Step(w, e), t)
            && (Ownership.Untouched(w, Step(w, e), t) <==> w.st.srv.sessions[t].ueIp != FirstUeIp(e.req.pdrs).value)
  {
    hide Ownership.RulesUntouched, InstallPdrs, InstallFars, InstallUrrs, Configure, FirstUeIp, FirstOhc, PdrIdArray;
    RunsAgree(n3, ts, ncpus, es);
    var w := Run(Start(n3, ts, ncpus), es);
    EstablishRulesUntouched(w, e, t);
    assert MirrorOf(w, t) && t != w.st.srv.nextSeid;
    assert w.st.maps.sess[ToBe32(w.st.srv.sessions[t].ueIp)].seid == t;
  }

  /** So it leaves all live sessions untouched exactly when the UE address it brings is free. */
  lemma EstablishmentsLeaveOthersIff(n3: u32, ts: u32, ncpus: nat, es: seq<Event>, e: Event)
    requires Along(Orderly, Start(n3, ts, ncpus), es)
    requires Numbered(Run(Start(n3, ts, ncpus), es), e) && Accepting(e)
    ensures var w := Run(Start(n3, ts, ncpus), es);
            (forall t :: t in w.st.srv.sessions ==> Ownership.Untouched(w, Step(w, e), t)) <==> AddressFree(w, e)
  {
    hide Ownership.Untouched, Step, FirstUeIp, FirstOhc;
    var w := Run(Start(n3, ts, ncpus), es);
    forall t | t in w.st.srv.sessions
      ensures Ownership.Untouched(w, Step(w, e), t) <==> w.st.srv.sessions[t].ueIp != FirstUeIp(e.req.pdrs).value
    {
      EstablishUntouchedIff(n3, ts, ncpus, es, e, t);
    }
  }

  lemma ModifyMirrored(w: World, e: Event)
    requires Mirrored(w) && Ownership.Changing(w, e) && e.req.Modify?
    ensures Mirrored(Step(w, e))
  {
    hide Compose, PatchFars, Reconfigure, LastTunnel, PatchedRules, PatchedUrrs, SeidOf, PdrIdArray;
    var w', seid := Step(w, e), e.req.modSeid.value;
    PatchFarsKeys(w.st.maps.far, seid, e.req.updFars);
    forall t | t in w'.st.srv.sessions ensures MirrorOf(w', t) {
      assert MirrorOf(w, t) && MirrorOf(w, seid);
    }
  }

  lemma ModifyAgreed(w: World, e: Event)
    requires Agreed(w) && Ownership.Changing(w, e) && e.req.Modify?
    ensures Agreed(Step(w, e))
  {
    hide Compose, PatchFars, Reconfigure, LastTunnel, PatchedRules, PatchedUrrs, HasUrr, PdrVal, FarVal;
    ModifyMirrored(w, e);
    var w', seid := Step(w, e), e.req.modSeid.value;
    PatchFarsView(w.st.maps.far, seid, w.st.srv.n3, w.books[seid].fars, e.req.updFars);
    assert AgreesFor(w, seid);
    forall id: u32 ensures UrrEntry(w'.st.maps.urr, seid, w'.books[seid], id) {
      assert UrrEntry(w.st.maps.urr, seid, w.books[seid], id);
      SameReferences(w.books[seid], w'.books[seid], id);
      PatchedUrrsKeepIds(w.books[seid].urrs, e.req.updUrrs);
    }
    forall t | t in w'.st.srv.sessions && t != seid ensures AgreesFor(w', t) {
      Ownership.OthersRulesUntouched(w, e, t);
      ViewsKept(w, w', t);
    }
  }

  lemma SameReferences(b: RuleBook, b': RuleBook, id: u32)
    requires b'.pdrs == b.pdrs
    ensures UrrReferenced(b', id) <==> UrrReferenced(b, id)
  {
    forall i: nat | i < |b.pdrs| ensures CountsUnder(b', i, id) <==> CountsUnder(b, i, id) {
    }
  }

  lemma DeleteMirrored(w: World, e: Event)
    requires Mirrored(w) && Ownership.Changing(w, e) && e.req.Delete?
    ensures Mirrored(Step(w, e))
  {
    hide Compose, SeidOf, PdrIdArray, PdrKeys, KeysOf, FarIds, UrrIds;
    var w', seid := Step(w, e), Ownership.Target(e);
    assert MirrorOf(w, seid);
    forall t | t in w'.st.srv.sessions ensures MirrorOf(w', t) {
      assert MirrorOf(w, t);
    }
  }

  lemma DeleteAgreed(w: World, e: Event)
    requires Agreed(w) && Ownership.Changing(w, e) && e.req.Delete?
    ensures Agreed(Step(w, e))
  {
    DeleteMirrored(w, e);
    forall t | t in Step(w, e).st.srv.sessions ensures AgreesFor(Step(w, e), t) {
      Ownership.OthersRulesUntouched(w, e, t);
      ViewsKept(w, Step(w, e), t);
    }
  }

  // The packet path against the rule book.

  /** Rule `i` of the book, as in force, applies to the flow: the interface and the filter match (ports as stored),
      its FAR exists, and its precedence value is not the largest. */
  predicate Applies(b: RuleBook, iface: u8, flow: Flow, i: nat) {
    && i < Installed(|b.pdrs|)
    && var p := RuleAt(b, i);
    && p.sourceInterface == iface
    && (p.sdf.None? || Admits(PortsExchanged(p.sdf.value), flow))
    && p.precedence < 0xFFFF_FFFF
    && LastFar(b.fars, OrZero(p.farId)).Some?
  }

  /** The FAR in force for rule `i`, as a map value, and the rule's URR id. */
  function AnswerOf(b: RuleBook, i: nat, n3: u32): (FarValue, u32)
    requires i < |b.pdrs| && LastFar(b.fars, OrZero(RuleAt(b, i).farId)).Some?
  {
    (FarVal(LastFar(b.fars, OrZero(RuleAt(b, i).farId)).value, n3), OrZero(RuleAt(b, i).urrId))
  }

  lemma CandidateIsRule(w: World, t: u64, iface: u8, flow: Flow, i: nat)
    requires t in w.books && AgreesFor(w, t) && t in w.st.srv.sessions
    ensures Candidate(w.st.maps, ExpectedInfo(w, t), iface, Loaded(flow), i) <==> Applies(w.books[t], iface, flow, i)
    ensures Applies(w.books[t], iface, flow, i) ==>
              && PdrAt(w.st.maps, ExpectedInfo(w, t), iface, Loaded(flow), i) == PdrVal(RuleAt(w.books[t], i), w.books[t].ueIp)
              && FoundAt(w.st.maps, ExpectedInfo(w, t), iface, Loaded(flow), i) == AnswerOf(w.books[t], i, w.st.srv.n3)
  {
    hide Compose, Loaded, SdfMatches, Admits, FarVal;
    var info, b, m := ExpectedInfo(w, t), w.books[t], w.st.maps;
    if i < Installed(|b.pdrs|) {
      assert info.pdrIds[i] == b.pdrs[i].pdrId;
      var p := RuleAt(b, i);
      assert PdrEntry(m.pdr, t, b.ueIp, b.pdrs, b.pdrs[i].pdrId);
      assert FarEntry(m.far, t, w.st.srv.n3, b.fars, OrZero(p.farId));
      StoredFilterAdmits(p, b.ueIp, flow);
    }
  }

  /** `i` is the first of the rules applying to the flow with the least precedence value. */
  ghost predicate FirstBest(b: RuleBook, iface: u8, flow: Flow, i: nat) {
    && Applies(b, iface, flow, i)
    && forall j: nat :: Applies(b, iface, flow, j) ==>
         && RuleAt(b, i).precedence <= RuleAt(b, j).precedence
         && (j < i ==> RuleAt(b, i).precedence < RuleAt(b, j).precedence)
  }

  /** `select_far` on the maps is the best-precedence search over the session's own rules. */
  lemma SelectFarIsRuleSearch(w: World, t: u64, iface: u8, flow: Flow)
    requires Agreed(w) && t in w.st.srv.sessions
    ensures var m, b := w.st.maps, w.books[t];
            var k := ToBe32(w.st.srv.sessions[t].ueIp);
            && k in m.sess
            && var r := SelectFar(m, m.sess[k], iface, Loaded(flow));
            && (r.None? <==> forall i: nat :: !Applies(b, iface, flow, i))
            && (r.Some? ==> exists i: nat :: FirstBest(b, iface, flow, i) && r.value == AnswerOf(b, i, w.st.srv.n3))
  {
    assert Limit(ExpectedInfo(w, t)) == Installed(|w.books[t].pdrs|);
    assert forall i: nat :: Applies(w.books[t], iface, flow, i) ==> i < Installed(|w.books[t].pdrs|) && i < |w.books[t].pdrs|;
    hide Compose, Loaded, FarVal, Candidate, Applies, PdrAt, FoundAt, ExpectedInfo;
    assert MirrorOf(w, t);
    var m, b, info, q := w.st.maps, w.books[t], ExpectedInfo(w, t), Loaded(flow);
    forall i: nat ensures Candidate(m, info, iface, q, i) <==> Applies(b, iface, flow, i) {
      CandidateIsRule(w, t, iface, flow, i);
    }
    assert forall i: nat :: Applies(b, iface, flow, i) ==> i < Limit(info);
    var best := Best(m, info, iface, q, Limit(info));
    if best.Some? {
      var i := best.value;
      CandidateIsRule(w, t, iface, flow, i);
      forall j: nat | Applies(b, iface, flow, j)
        ensures RuleAt(b, i).precedence <= RuleAt(b, j).precedence
        ensures j < i ==> RuleAt(b, i).precedence < RuleAt(b, j).precedence
      {
        CandidateIsRule(w, t, iface, flow, j);
        assert Candidate(m, info, iface, q, j) && j < Limit(info);
      }
      assert FirstBest(b, iface, flow, i);
    }
  }

  // Packets.

  lemma CountedIsReferenced(w: World, q: Query)
    requires Agreed(w) && q.srcIp in w.st.maps.sess
    requires SelectFar(w.st.maps, w.st.maps.sess[q.srcIp], IFACE_ACCESS, q).Some?
    ensures var t := w.st.maps.sess[q.srcIp].seid;
            var id := SelectFar(w.st.maps, w.st.maps.sess[q.srcIp], IFACE_ACCESS, q).value.1;
            t in w.st.srv.sessions && (id != 0 ==> UrrReferenced(w.books[t], id))
  {
    hide Compose, FarVal, SdfMatches;
    var m, info := w.st.maps, w.st.maps.sess[q.srcIp];
    var t := info.seid;
    assert MirrorOf(w, t) && AgreesFor(w, t);
    var b := w.books[t];
    var i := Best(m, info, IFACE_ACCESS, q, Limit(info)).value;
    assert Candidate(m, info, IFACE_ACCESS, q, i);
    assert info.pdrIds[i] == b.pdrs[i].pdrId;
    assert PdrEntry(m.pdr, t, b.ueIp, b.pdrs, b.pdrs[i].pdrId);
    assert RuleAt(b, i) == LastPdr(b.pdrs, b.pdrs[i].pdrId).value;
    var id := FoundAt(m, info, IFACE_ACCESS, q, i).1;
    assert id != 0 ==> CountsUnder(b, i, id);
  }

  lemma UplinkAgreed(w: World, e: Event)
    requires Agreed(w) && e.Uplink?
    ensures Agreed(Step(w, e))
  {
    hide Compose, SelectFar, PdrIdArray, Bump, PdrView, FarView, UrrView, SeidOf;
    var w' := Step(w, e);
    var m, m', s, q := w.st.maps, w'.st.maps, w.st.srv, e.q;
    if m' != m {
      var info := m.sess[q.srcIp];
      var far := SelectFar(m, info, IFACE_ACCESS, q).value;
      CountedIsReferenced(w, q);
      var t, k := info.seid, Compose(info.seid, far.1);
      ComposeParts(t, far.1);
      assert m'.urr.Keys == m.urr.Keys + {k};
      UplinkMirrored(w, m'.urr);
      forall t' | t' in s.sessions ensures AgreesFor(w', t') {
        assert AgreesFor(w, t');
        UrrViewGrows(m.urr, m'.urr, t', w.books[t'], t, far.1);
      }
    }
  }

  lemma UplinkMirrored(w: World, urr: map<u64, seq<UrrStats>>)
    requires Mirrored(w) && KeysBelow(urr, w.st.srv.nextSeid)
    ensures Mirrored(w.(st := w.st.(maps := w.st.maps.(urr := urr))))
  {
    hide Compose, PdrIdArray, SeidOf;
    var w' := w.(st := w.st.(maps := w.st.maps.(urr := urr)));
    assert forall t :: t in w.st.srv.sessions ==> MirrorOf(w, t) ==> MirrorOf(w', t);
  }

  lemma UrrViewGrows(m: map<u64, seq<UrrStats>>, m': map<u64, seq<UrrStats>>, t': u64, b: RuleBook, t: u64, added: u32)
    requires UrrView(m, t', b) && m'.Keys == m.Keys + {Compose(t, added)}
    requires t < TWO_48 && t' < TWO_48 && (t' == t ==> UrrReferenced(b, added))
    ensures UrrView(m', t', b)
  {
    hide Compose, UrrReferenced;
    forall id: u32 ensures UrrEntry(m', t', b, id) {
      assert UrrEntry(m, t', b, id);
      KeysMeet(t', id, t, added);
      if t' == t && added % 0x1_0000 == id % 0x1_0000 {
        SameMaskedId(b, added, id);
      }
    }
  }

  lemma SameMaskedId(b: RuleBook, id: u32, id': u32)
    requires UrrReferenced(b, id) && id % 0x1_0000 == id' % 0x1_0000
    ensures UrrReferenced(b, id')
  {
    var i: nat :| i < Installed(|b.pdrs|) && CountsUnder(b, i, id);
    assert CountsUnder(b, i, id');
  }

  // All steps together.

  /** Steps that neither establish, modify, delete nor count leave maps, sessions and books alone. */
  lemma QuietStep(w: World, e: Event)
    requires SeidFits(w, e) && !Accepting(e) && !Ownership.Changing(w, e) && !e.Uplink?
    ensures Step(w, e).st.maps == w.st.maps && Step(w, e).books == w.books
    ensures Step(w, e).st.srv.sessions == w.st.srv.sessions && Step(w, e).st.srv.n3 == w.st.srv.n3
    ensures Step(w, e).st.srv.nextSeid >= w.st.srv.nextSeid
  {
    hide Reporter.TickAll, FirstUeIp, FirstOhc, Compose;
    if e.ReporterTick? {
      Ownership.TickAllKeeps(w.st.srv, e.totals, e.now);
    }
  }

  lemma OtherAgreed(w: World, e: Event)
    requires Agreed(w) && Orderly(w, e) && !Accepting(e) && !Ownership.Changing(w, e) && !e.Uplink?
    ensures Agreed(Step(w, e))
  {
    hide Compose, PdrIdArray, SeidOf, PdrView, FarView, UrrView, Step;
    Ownership.NumbersStep(w, e);
    var w' := Step(w, e);
    QuietStep(w, e);
    forall t | t in w'.st.srv.sessions ensures MirrorOf(w', t) && AgreesFor(w', t) {
      assert MirrorOf(w, t) && AgreesFor(w, t);
    }
  }

  lemma AgreedStep(w: World, e: Event)
    requires Agreed(w) && Orderly(w, e)
    ensures Agreed(Step(w, e))
  {
    if Accepting(e) {
      EstablishMirrored(w, e);
      EstablishViews(w, e);
      forall t | t in w.st.srv.sessions ensures AgreesFor(Step(w, e), t) {
        EstablishOthers(w, e, t);
      }
      assert forall t :: t in Step(w, e).st.srv.sessions ==> t in w.st.srv.sessions || t == w.st.srv.nextSeid;
    } else if Ownership.Changing(w, e) {
      if e.req.Modify? {
        ModifyAgreed(w, e);
      } else {
        DeleteAgreed(w, e);
      }
    } else if e.Uplink? {
      UplinkAgreed(w, e);
    } else {
      OtherAgreed(w, e);
    }
  }

  lemma RunsAgree(n3: u32, ts: u32, ncpus: nat, es: seq<Event>)
    requires Along(Orderly, Start(n3, ts, ncpus), es)
    ensures Agreed(Run(Start(n3, ts, ncpus), es))
  {
    forall w, e | Agreed(w) && Orderly(w, e) ensures Agreed(Step(w, e)) {
      AgreedStep(w, e);
    }
    RunKeeps(Agreed, Orderly, Start(n3, ts, ncpus), es);
  }

  // Apply actions.

  /** An Update FAR's apply action is in force after an accepted modification exactly when it was before. */
  lemma UpdateInForceIff(w: World, e: Event, u: ParsedFar)
    requires Ownership.Changing(w, e) && e.req.Modify? && u in e.req.updFars
    requires Compose(e.req.modSeid.value, u.farId) in w.st.maps.far
    ensures var k, far, far' := Compose(e.req.modSeid.value, u.farId), w.st.maps.far, Step(w, e).st.maps.far;
            k in far' && (far'[k].applyAction == u.applyAction <==> far[k].applyAction == u.applyAction)
  {
    hide Compose, PatchFars, PatchedRules, Reconfigure;
    PatchFarsKeys(w.st.maps.far, e.req.modSeid.value, e.req.updFars);
  }

  /** The SEID in the key was handed out, and its FAR entry, as long as there is one, acts as `v`. */
  ghost predicate ActsAs(w: World, k: u64, v: FarValue) {
    && Agreed(w) && SeidOf(k) < w.st.srv.nextSeid
    && (k in w.st.maps.far ==> SameAction(v, w.st.maps.far[k]))
  }

  lemma ActsAsStep(w: World, e: Event, k: u64, v: FarValue)
    requires ActsAs(w, k, v) && Orderly(w, e)
    ensures ActsAs(Step(w, e), k, v)
  {
    hide Compose, Agreed, SeidOf, IdOf, PatchFars, Reconfigure, InstallPdrs, InstallFars, InstallUrrs, Configure, NewInfo,
         PdrKeys, KeysOf, FarIds, UrrIds, SelectFar, LastTunnel, PatchedRules, FirstUeIp, FirstOhc;
    AgreedStep(w, e);
    assert w.st.srv.nextSeid <= TWO_48 && Step(w, e).st.srv.nextSeid >= w.st.srv.nextSeid by { SeidsStay(w, e); }
    if Accepting(e) {
      ComposeUndoesSplit(k);
      ComposeParts(SeidOf(k), IdOf(k));
      InstallFarsAt(w.st.maps.far, w.st.srv.nextSeid, w.st.srv.n3, e.req.fars, SeidOf(k), IdOf(k));
    } else if Ownership.Changing(w, e) && e.req.Modify? {
      PatchFarsKeys(w.st.maps.far, e.req.modSeid.value, e.req.updFars);
    } else if e.ReporterTick? {
      Ownership.TickAllKeeps(w.st.srv, e.totals, e.now);
    }
  }

  lemma SeidsStay(w: World, e: Event)
    requires Agreed(w) && Orderly(w, e)
    ensures w.st.srv.nextSeid <= TWO_48 && Step(w, e).st.srv.nextSeid >= w.st.srv.nextSeid
  {
    hide Step, MirrorOf, AgreesFor;
    Ownership.SessionsStep(w, e);
  }

  /** No orderly run, whatever Update FARs it has, changes the apply action or destination of an installed FAR. */
  lemma ActionsAreFinal(w: World, es: seq<Event>, k: u64)
    requires Agreed(w) && Along(Orderly, w, es)
    requires k in w.st.maps.far && k in Run(w, es).st.maps.far
    ensures SameAction(w.st.maps.far[k], Run(w, es).st.maps.far[k])
  {
    var v := w.st.maps.far[k];
    var inv := u => ActsAs(u, k, v);
    forall u, e | inv(u) && Orderly(u, e) ensures inv(Step(u, e)) {
      ActsAsStep(u, e, k, v);
    }
    RunKeeps(inv, Orderly, w, es);
  }

  /** After any orderly run each live session's SESSION entry holds its SEID and its current tunnel in network
      order, and the map has no entry besides those. */
  lemma SessionMapMirrorsSessions(n3: u32, ts: u32, ncpus: nat, es: seq<Event>)
    requires Along(Orderly, Start(n3, ts, ncpus), es)
    ensures var w := Run(Start(n3, ts, ncpus), es);
            var s, sess := w.st.srv, w.st.maps.sess;
            && (forall t :: t in s.sessions ==>
                  var d, k := s.sessions[t], ToBe32(s.sessions[t].ueIp);
                  k in sess && sess[k].seid == t && sess[k].gnbIp == ToBe32(d.gnbIp) && sess[k].teid == ToBe32(d.teid))
            && (forall k :: k in sess ==> sess[k].seid in s.sessions && s.sessions[sess[k].seid].ueIp == k.host)
  {
    hide Compose, PdrIdArray;
    RunsAgree(n3, ts, ncpus, es);
    var w := Run(Start(n3, ts, ncpus), es);
    var s, sess := w.st.srv, w.st.maps.sess;
    forall t | t in s.sessions
      ensures var d, k := s.sessions[t], ToBe32(s.sessions[t].ueIp);
              k in sess && sess[k].seid == t && sess[k].gnbIp == ToBe32(d.gnbIp) && sess[k].teid == ToBe32(d.teid)
    {
      assert MirrorOf(w, t);
    }
    forall k | k in sess ensures s.sessions[sess[k].seid].ueIp == k.host {
    }
  }

  /** After any orderly run `select_far` answers for every live session and every flow what a best-precedence
      search over the session's own Create PDRs and patched Create FARs answers. */
  lemma ClassifierFollowsRules(n3: u32, ts: u32, ncpus: nat, es: seq<Event>, t: u64, iface: u8, flow: Flow)
    requires Along(Orderly, Start(n3, ts, ncpus), es)
    requires t in Run(Start(n3, ts, ncpus), es).st.srv.sessions
    ensures var w := Run(Start(n3, ts, ncpus), es);
            var m, k := w.st.maps, ToBe32(w.st.srv.sessions[t].ueIp);
            && t in w.books && k in m.sess
            && var b, r := w.books[t], SelectFar(m, m.sess[k], iface, Loaded(flow));
            && (r.None? <==> forall i: nat :: !Applies(b, iface, flow, i))
            && (r.Some? ==> exists i: nat :: FirstBest(b, iface, flow, i) && r.value == AnswerOf(b, i, w.st.srv.n3))
  {
    RunsAgree(n3, ts, ncpus, es);
    SelectFarIsRuleSearch(Run(Start(n3, ts, ncpus), es), t, iface, flow);
  }

  // With distinct ids nothing is overwritten, and the rules in force are the listed ones.

  /** With distinct PDR ids in the establishment, rule `i` in force is the `i`-th Create PDR itself. */
  lemma RuleAtIsItself(b: RuleBook, i: nat)
    requires DistinctPdrs(b.pdrs) && i < |b.pdrs|
    ensures RuleAt(b, i) == b.pdrs[i]
  {
    LastPdrIsItself(b.pdrs, i);
  }

  /** Create PDR `i` names Create FAR `j`. */
  predicate Names(b: RuleBook, i: nat, j: nat) {
    i < |b.pdrs| && j < |b.fars| && b.fars[j].farId % 0x1_0000 == OrZero(b.pdrs[i].farId) % 0x1_0000
  }

  /** Create PDR `i`, among the first eight, is for the interface, admits the flow, is not of the lowest rank, and
      names Create FAR `j`. */
  predicate Fits(b: RuleBook, iface: u8, flow: Flow, i: nat, j: nat) {
    && i < Installed(|b.pdrs|) && Names(b, i, j)
    && b.pdrs[i].sourceInterface == iface && b.pdrs[i].precedence < 0xFFFF_FFFF
    && (b.pdrs[i].sdf.None? || Admits(PortsExchanged(b.pdrs[i].sdf.value), flow))
  }

  lemma NamedFar(b: RuleBook, i: nat)
    requires DistinctPdrs(b.pdrs) && DistinctFars(b.fars) && i < |b.pdrs|
    ensures RuleAt(b, i) == b.pdrs[i]
    ensures LastFar(b.fars, OrZero(b.pdrs[i].farId)).Some? <==> exists j: nat :: Names(b, i, j)
    ensures forall j: nat :: Names(b, i, j) ==> LastFar(b.fars, OrZero(b.pdrs[i].farId)) == Some(b.fars[j])
  {
    RuleAtIsItself(b, i);
    forall j: nat | Names(b, i, j) ensures LastFar(b.fars, OrZero(b.pdrs[i].farId)) == Some(b.fars[j]) {
      LastFarIsItself(b.fars, j);
      SameLastFar(b.fars, b.fars[j].farId, OrZero(b.pdrs[i].farId));
    }
    var r := LastFar(b.fars, OrZero(b.pdrs[i].farId));
    if r.Some? {
      var j: nat :| j < |b.fars| && b.fars[j] == r.value;
      assert Names(b, i, j);
    }
  }

  lemma {:induction false} SameLastFar(fars: seq<ParsedFar>, id: u32, id': u32)
    requires id % 0x1_0000 == id' % 0x1_0000
    ensures LastFar(fars, id) == LastFar(fars, id')
  {
    if |fars| > 0 {
      SameLastFar(fars[..|fars| - 1], id, id');
    }
  }

  lemma FitsIff(b: RuleBook, iface: u8, flow: Flow, i: nat)
    requires DistinctPdrs(b.pdrs) && DistinctFars(b.fars) && i < |b.pdrs|
    ensures RuleAt(b, i) == b.pdrs[i]
    ensures Applies(b, iface, flow, i) <==> exists j: nat :: Fits(b, iface, flow, i, j)
    ensures forall j: nat :: Fits(b, iface, flow, i, j) ==>
              j < |b.fars| && LastFar(b.fars, OrZero(b.pdrs[i].farId)) == Some(b.fars[j])
  {
    hide RuleAt;
    NamedFar(b, i);
    if j: nat :| Names(b, i, j) {
      assert Applies(b, iface, flow, i) ==> Fits(b, iface, flow, i, j);
    }
  }

  /** Create PDR `i` fits through Create FAR `j`, and no fitting PDR has a lower precedence value, nor an earlier one
      the same. */
  ghost predicate BestFit(b: RuleBook, iface: u8, flow: Flow, i: nat, j: nat) {
    && Fits(b, iface, flow, i, j)
    && forall i': nat, j': nat :: Fits(b, iface, flow, i', j') ==>
         && b.pdrs[i].precedence <= b.pdrs[i'].precedence
         && (i' < i ==> b.pdrs[i].precedence < b.pdrs[i'].precedence)
  }

  lemma FirstBestFits(b: RuleBook, iface: u8, flow: Flow, i: nat, n3: u32)
    requires DistinctPdrs(b.pdrs) && DistinctFars(b.fars) && FirstBest(b, iface, flow, i)
    ensures exists j: nat :: BestFit(b, iface, flow, i, j)
                          && AnswerOf(b, i, n3) == (FarVal(b.fars[j], n3), OrZero(b.pdrs[i].urrId))
  {
    hide RuleAt, FarVal;
    FitsIff(b, iface, flow, i);
    var j: nat :| Fits(b, iface, flow, i, j);
    forall i': nat, j': nat | Fits(b, iface, flow, i', j')
      ensures b.pdrs[i].precedence <= b.pdrs[i'].precedence && (i' < i ==> b.pdrs[i].precedence < b.pdrs[i'].precedence)
    {
      FitsIff(b, iface, flow, i');
      assert Applies(b, iface, flow, i');
    }
    assert BestFit(b, iface, flow, i, j);
  }

  /** After any orderly run, for a live session whose PDR ids are distinct and whose FAR ids are distinct below 2^16:
      `select_far` returns the FAR that the first of the best fitting Create PDRs names, with that PDR's URR id. */
  lemma DistinctRulesFollowed(n3: u32, ts: u32, ncpus: nat, es: seq<Event>, t: u64, iface: u8, flow: Flow)
    requires Along(Orderly, Start(n3, ts, ncpus), es)
    requires t in Run(Start(n3, ts, ncpus), es).st.srv.sessions && t in Run(Start(n3, ts, ncpus), es).books
    requires var b := Run(Start(n3, ts, ncpus), es).books[t]; DistinctPdrs(b.pdrs) && DistinctFars(b.fars)
    ensures var w := Run(Start(n3, ts, ncpus), es);
            var m, k, b := w.st.maps, ToBe32(w.st.srv.sessions[t].ueIp), w.books[t];
            && k in m.sess
            && var r := SelectFar(m, m.sess[k], iface, Loaded(flow));
            && (r.None? <==> forall i: nat, j: nat :: !Fits(b, iface, flow, i, j))
            && (r.Some? ==> exists i: nat, j: nat :: BestFit(b, iface, flow, i, j)
                              && r.value == (FarVal(b.fars[j], w.st.srv.n3), OrZero(b.pdrs[i].urrId)))
  {
    hide SelectFar, Run, Along, RuleAt, AnswerOf, FarVal;
    ClassifierFollowsRules(n3, ts, ncpus, es, t, iface, flow);
    var w := Run(Start(n3, ts, ncpus), es);
    var b := w.books[t];
    var r := SelectFar(w.st.maps, w.st.maps.sess[ToBe32(w.st.srv.sessions[t].ueIp)], iface, Loaded(flow));
    if r.Some? {
      var i: nat :| FirstBest(b, iface, flow, i) && r.value == AnswerOf(b, i, w.st.srv.n3);
      FirstBestFits(b, iface, flow, i, w.st.srv.n3);
    } else {
      forall i: nat, j: nat | Fits(b, iface, flow, i, j) ensures false {
        FitsIff(b, iface, flow, i);
      }
    }
  }
}
