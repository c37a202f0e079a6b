/** What the two packet programs decide, in terms of the rules of the sessions. */
module Decisions {
  import opened Bytes
  import opened Keys
  import opened Rules
  import opened Classifier
  import opened Counters
  import opened World
  import opened Compiled
  import opened Packet
  import opened DataPlane
  import Usage

  /** The flow a query was loaded from. */
  function FlowOf(q: Query): (f: Flow)
    ensures Loaded(f) == q
  {
    Flow(q.proto, q.srcIp.host, q.dstIp.host, Exchanged(q.srcPort), Exchanged(q.dstPort))
  }

  predicate Drops(b: RuleBook, i: nat)
    requires i < |b.pdrs| && LastFar(b.fars, OrZero(RuleAt(b, i).farId)).Some?
  {
    FarInForce(b, i).applyAction % 2 == 1
  }

  lemma FirstBestIsUnique(b: RuleBook, iface: u8, flow: Flow, i: nat, j: nat)
    requires FirstBest(b, iface, flow, i) && FirstBest(b, iface, flow, j)
    ensures i == j
  {
  }

  /** The search, for the rule that is best. */
  lemma SearchFindsFirstBest(w: World, t: u64, iface: u8, flow: Flow, i: nat)
    requires Agreed(w) && t in w.st.srv.sessions && FirstBest(w.books[t], iface, flow, i)
    ensures var k := ToBe32(w.st.srv.sessions[t].ueIp);
            k in w.st.maps.sess
            && SelectFar(w.st.maps, w.st.maps.sess[k], iface, Loaded(flow)) == Some(AnswerOf(w.books[t], i, w.st.srv.n3))
  {
    hide SelectFar, MirrorOf, AgreesFor;
    SelectFarIsRuleSearch(w, t, iface, flow);
    var b := w.books[t];
    assert Applies(b, iface, flow, i);
    var k := ToBe32(w.st.srv.sessions[t].ueIp);
    var r := SelectFar(w.st.maps, w.st.maps.sess[k], iface, Loaded(flow));
    var j: nat :| FirstBest(b, iface, flow, j) && r.value == AnswerOf(b, j, w.st.srv.n3);
    FirstBestIsUnique(b, iface, flow, i, j);
  }

  // Uplink.

  /** The best rule decides between dropping, and stripping the outer headers and counting for the rule's URR; without
      a rule that applies the packet is stripped and not counted. */
  ghost predicate UplinkAsRuled(b: RuleBook, t: u64, flow: Flow, o: nat, v: Verdict) {
    && ((forall i: nat :: !Applies(b, IFACE_ACCESS, flow, i)) ==> v == Strip(o, None))
    && forall i: nat :: FirstBest(b, IFACE_ACCESS, flow, i) ==>
         v == if Drops(b, i) then DropIt else Strip(o, Some((t, OrZero(RuleAt(b, i).urrId))))
  }

  lemma UplinkOfSession(w: World, t: u64, b: Octets, o: nat)
    requires Agreed(w) && t in w.st.srv.sessions && OuterTotal(b) == Some(o) && InnerQuery(b, o).Some?
    requires InnerQuery(b, o).value.srcIp == ToBe32(w.st.srv.sessions[t].ueIp)
    ensures UplinkAsRuled(w.books[t], t, FlowOf(InnerQuery(b, o).value), o, UplinkVerdict(w.st.maps, b))
  {
    hide SelectFar, AgreesFor, OuterTotal, InnerQuery;
    var q := InnerQuery(b, o).value;
    var flow, book := FlowOf(q), w.books[t];
    assert MirrorOf(w, t);
    NoRulesNoneApply(w, t, flow, IFACE_ACCESS);
    SelectFarIsRuleSearch(w, t, IFACE_ACCESS, flow);
    forall i: nat | FirstBest(book, IFACE_ACCESS, flow, i)
      ensures UplinkVerdict(w.st.maps, b) == if Drops(book, i) then DropIt else Strip(o, Some((t, OrZero(RuleAt(book, i).urrId))))
    {
      SearchFindsFirstBest(w, t, IFACE_ACCESS, flow, i);
    }
  }

  lemma NoRulesNoneApply(w: World, t: u64, flow: Flow, iface: u8)
    requires Agreed(w) && t in w.st.srv.sessions
    ensures ExpectedInfo(w, t).pdrCount == 0 ==> forall i: nat :: !Applies(w.books[t], iface, flow, i)
  {
    hide AgreesFor, MirrorOf;
  }

  /** After any orderly run the uplink program passes on exactly the packets from addresses of no live session, and
      treats those of a live session as its own rules say. */
  lemma UplinkFollowsRules(n3: u32, ts: u32, ncpus: nat, es: seq<Event>, b: Octets, o: nat)
    requires Along(Orderly, Start(n3, ts, ncpus), es)
    requires OuterTotal(b) == Some(o) && InnerQuery(b, o).Some?
    ensures var w, flow := Run(Start(n3, ts, ncpus), es), FlowOf(InnerQuery(b, o).value);
            var s, v := w.st.srv.sessions, UplinkVerdict(w.st.maps, b);
            && (v == PassOn <==> forall t :: t in s ==> s[t].ueIp != flow.srcIp)
            && forall t :: t in s && s[t].ueIp == flow.srcIp ==> t in w.books && UplinkAsRuled(w.books[t], t, flow, o, v)
  {
    hide OuterTotal, InnerQuery, SelectFar, UplinkAsRuled;
    RunsAgree(n3, ts, ncpus, es);
    var w, q := Run(Start(n3, ts, ncpus), es), InnerQuery(b, o).value;
    AddressesAreSessions(w, q.srcIp);
    forall t | t in w.st.srv.sessions && w.st.srv.sessions[t].ueIp == q.srcIp.host
      ensures UplinkAsRuled(w.books[t], t, FlowOf(q), o, UplinkVerdict(w.st.maps, b))
    {
      UplinkOfSession(w, t, b, o);
    }
  }

  lemma AddressesAreSessions(w: World, k: Net32)
    requires Agreed(w)
    ensures k in w.st.maps.sess <==> exists t :: t in w.st.srv.sessions && w.st.srv.sessions[t].ueIp == k.host
    ensures forall t :: t in w.st.srv.sessions ==> t in w.books
  {
    hide AgreesFor, ExpectedInfo;
    if t :| t in w.st.srv.sessions && w.st.srv.sessions[t].ueIp == k.host {
      assert MirrorOf(w, t);
    }
  }

  /** What a packet of a live session adds to the counters: its length, for the URR its best rule names, unless that
      rule drops it or names none. */
  lemma CountsFollowRules(w: World, t: u64, cpu: nat, flow: Flow, len: u64)
    requires Agreed(w) && t in w.st.srv.sessions && flow.srcIp == w.st.srv.sessions[t].ueIp && cpu < w.st.srv.ncpus
    ensures var b, ops := w.books[t], Usage.Counts(w.st.srv, w.st.maps, cpu, Loaded(flow), len);
            && ((forall i: nat :: !Applies(b, IFACE_ACCESS, flow, i)) ==> ops == [])
            && forall i: nat :: FirstBest(b, IFACE_ACCESS, flow, i) ==>
                 ops == if Drops(b, i) || OrZero(RuleAt(b, i).urrId) == 0 then []
                        else [Count(t, OrZero(RuleAt(b, i).urrId), cpu, len, false)]
  {
    hide SelectFar, AgreesFor;
    var book := w.books[t];
    assert MirrorOf(w, t);
    NoRulesNoneApply(w, t, flow, IFACE_ACCESS);
    SelectFarIsRuleSearch(w, t, IFACE_ACCESS, flow);
    forall i: nat | FirstBest(book, IFACE_ACCESS, flow, i)
      ensures Usage.Counts(w.st.srv, w.st.maps, cpu, Loaded(flow), len)
              == if Drops(book, i) || OrZero(RuleAt(book, i).urrId) == 0 then []
                 else [Count(t, OrZero(RuleAt(book, i).urrId), cpu, len, false)]
    {
      SearchFindsFirstBest(w, t, IFACE_ACCESS, flow, i);
    }
  }

  // Downlink.

  /** The best rule drops, or the first core rule does. */
  ghost predicate DownlinkDrops(b: RuleBook, flow: Flow) {
    || BestDrops(b, flow)
    || exists i: nat :: FirstCoreRule(b, i) && Drops(b, i)
  }

  ghost predicate BestDrops(b: RuleBook, flow: Flow) {
    exists i: nat :: FirstBest(b, IFACE_CORE, flow, i) && Drops(b, i)
  }

  lemma BestDropsIff(w: World, t: u64, q: Query)
    requires Agreed(w) && t in w.st.srv.sessions
    ensures var m, info := w.st.maps, ExpectedInfo(w, t);
            info.pdrCount > 0 && Dropped(SelectFar(m, info, IFACE_CORE, q)) <==> BestDrops(w.books[t], FlowOf(q))
  {
    hide SelectFar, AgreesFor;
    var m, book, flow, info := w.st.maps, w.books[t], FlowOf(q), ExpectedInfo(w, t);
    assert MirrorOf(w, t);
    NoRulesNoneApply(w, t, flow, IFACE_CORE);
    SelectFarIsRuleSearch(w, t, IFACE_CORE, flow);
    forall i: nat | FirstBest(book, IFACE_CORE, flow, i)
      ensures Dropped(SelectFar(m, info, IFACE_CORE, q)) <==> Drops(book, i)
    {
      SearchFindsFirstBest(w, t, IFACE_CORE, flow, i);
    }
  }

  /** After any orderly run a downlink frame enters the statistics of its destination exactly when that is a live session's
      address and the session's best rule does not drop it, whatever the first core rule does with it then. */
  lemma DownlinkCountedAsRuled(n3: u32, ts: u32, ncpus: nat, es: seq<Event>, b: Octets)
    requires Along(Orderly, Start(n3, ts, ncpus), es)
    ensures var w := Run(Start(n3, ts, ncpus), es);
            DownlinkCounted(w.st.maps, b) <==>
              && |b| >= ETH + IP + 4 && ReadU16(b, 12) == 0x0800
              && exists t :: t in w.st.srv.sessions && t in w.books && w.st.srv.sessions[t].ueIp == ReadU32(b, ETH + 16)
                             && !BestDrops(w.books[t], FlowOf(DownlinkQuery(b)))
  {
    hide SelectFar, ReadU16, ReadU32, BestDrops, DownlinkQuery, Dropped, Run, Along, ExpectedInfo;
    RunsAgree(n3, ts, ncpus, es);
    var w := Run(Start(n3, ts, ncpus), es);
    if |b| >= ETH + IP + 4 && ReadU16(b, 12) == 0x0800 {
      AddressesAreSessions(w, RawU32(b, ETH + 16));
      forall t | t in w.st.srv.sessions && w.st.srv.sessions[t].ueIp == ReadU32(b, ETH + 16)
        ensures DownlinkCounted(w.st.maps, b) <==> !BestDrops(w.books[t], FlowOf(DownlinkQuery(b)))
      {
        assert MirrorOf(w, t);
        BestDropsIff(w, t, DownlinkQuery(b));
      }
    }
  }

  lemma DownlinkOfSession(w: World, t: u64, b: Octets, choice: Tunnelling)
    requires Agreed(w) && t in w.st.srv.sessions
    requires |b| >= ETH + IP + 4 && ReadU16(b, 12) == 0x0800 && ReadU32(b, ETH + 16) == w.st.srv.sessions[t].ueIp
    requires DownlinkDecision(w.st.maps, b, choice)
    ensures choice == Discard <==> DownlinkDrops(w.books[t], FlowOf(DownlinkQuery(b)))
    ensures choice != Leave
  {
    hide SelectFar, AgreesFor, TunnelOf, FirstCoreRule, ReadU16, ReadU32;
    var m, book, q := w.st.maps, w.books[t], DownlinkQuery(b);
    var flow, info := FlowOf(q), ExpectedInfo(w, t);
    assert MirrorOf(w, t);
    BestDropsIff(w, t, q);
    if TunnelOf(m, info, choice) {
      TunnelDrops(w, t, choice);
    }
  }

  lemma TunnelDrops(w: World, t: u64, choice: Tunnelling)
    requires Agreed(w) && t in w.st.srv.sessions && TunnelOf(w.st.maps, ExpectedInfo(w, t), choice)
    ensures choice == Discard <==> exists i: nat :: FirstCoreRule(w.books[t], i) && Drops(w.books[t], i)
    ensures choice != Leave
  {
    hide Compose, CoreRule, CoreFar;
    var m, b, info := w.st.maps, w.books[t], ExpectedInfo(w, t);
    assert AgreesFor(w, t);
    forall i: nat ensures CoreRule(m, info, i) <==> CoreApplies(b, i) {
      CoreIsRule(w, t, i);
    }
    assert info.pdrCount == 0 ==> forall i: nat :: !CoreApplies(b, i);
    hide ExpectedInfo;
    if i: nat :| FirstCore(m, info, i) {
      CoreIsRule(w, t, i);
      assert FirstCoreRule(b, i);
      assert forall j: nat :: FirstCoreRule(b, j) ==> i == j;
    }
  }

  /** After any orderly run the downlink program leaves alone exactly the frames that are not IPv4 or for no live
      session, and of the others drops exactly those its session's rules drop. */
  lemma DownlinkDropsAsRuled(n3: u32, ts: u32, ncpus: nat, es: seq<Event>, b: Octets, choice: Tunnelling)
    requires Along(Orderly, Start(n3, ts, ncpus), es)
    requires DownlinkDecision(Run(Start(n3, ts, ncpus), es).st.maps, b, choice)
    ensures var w := Run(Start(n3, ts, ncpus), es);
            var s := w.st.srv.sessions;
            if |b| < ETH + IP + 4 || ReadU16(b, 12) != 0x0800 then choice == Leave
            else
              && (choice == Leave <==> forall t :: t in s ==> s[t].ueIp != ReadU32(b, ETH + 16))
              && forall t :: t in s && s[t].ueIp == ReadU32(b, ETH + 16) ==>
                   t in w.books && (choice == Discard <==> DownlinkDrops(w.books[t], FlowOf(DownlinkQuery(b))))
  {
    hide SelectFar, TunnelOf, ReadU16, ReadU32, DownlinkDrops, DownlinkQuery, Dropped;
    RunsAgree(n3, ts, ncpus, es);
    var w := Run(Start(n3, ts, ncpus), es);
    if |b| >= ETH + IP + 4 && ReadU16(b, 12) == 0x0800 {
      AddressesAreSessions(w, RawU32(b, ETH + 16));
      forall t | t in w.st.srv.sessions && w.st.srv.sessions[t].ueIp == ReadU32(b, ETH + 16)
        ensures choice == Discard <==> DownlinkDrops(w.books[t], FlowOf(DownlinkQuery(b)))
        ensures choice != Leave
      {
        DownlinkOfSession(w, t, b, choice);
      }
    }
  }

  // The rule that gives the downlink tunnel against the best rule.

  predicate Admitted(f: Option<SdfFilter>, flow: Flow) {
    f.None? || Admits(PortsExchanged(f.value), flow)
  }

  /** The first core rule is the best one for a flow exactly when its filter admits the flow, it is not of the lowest
      rank, and no core rule admitting the flow has a lower precedence value. */
  lemma FirstCoreRuleIsBestIff(b: RuleBook, flow: Flow, i: nat)
    requires FirstCoreRule(b, i)
    ensures FirstBest(b, IFACE_CORE, flow, i)
            <==> && Admitted(RuleAt(b, i).sdf, flow) && RuleAt(b, i).precedence < 0xFFFF_FFFF
                 && forall j: nat :: CoreApplies(b, j) && Admitted(RuleAt(b, j).sdf, flow)
                      ==> RuleAt(b, i).precedence <= RuleAt(b, j).precedence
  {
    hide Admitted;
    forall j: nat ensures Applies(b, IFACE_CORE, flow, j)
      <==> CoreApplies(b, j) && Admitted(RuleAt(b, j).sdf, flow) && RuleAt(b, j).precedence < 0xFFFF_FFFF {
      AppliesIff(b, flow, j);
    }
    if FirstBest(b, IFACE_CORE, flow, i) {
      forall j: nat | CoreApplies(b, j) && Admitted(RuleAt(b, j).sdf, flow)
        ensures RuleAt(b, i).precedence <= RuleAt(b, j).precedence
      {
        assert RuleAt(b, j).precedence < 0xFFFF_FFFF ==> Applies(b, IFACE_CORE, flow, j);
      }
    }
  }

  lemma AppliesIff(b: RuleBook, flow: Flow, j: nat)
    ensures Applies(b, IFACE_CORE, flow, j)
            <==> CoreApplies(b, j) && Admitted(RuleAt(b, j).sdf, flow) && RuleAt(b, j).precedence < 0xFFFF_FFFF
  {
  }

  const ANY: SdfFilter := SdfFilter(0, 0, 0, ZERO, ZERO)

  function FieldsOf(f: Option<SdfFilter>): SdfFilter {
    if f.Some? then f.value else ANY
  }

  /** Field by field, `f` is unset or the same as `g`. */
  predicate Covers(f: Option<SdfFilter>, g: Option<SdfFilter>) {
    var a, c := FieldsOf(f), FieldsOf(g);
    && (a.proto == 0 || a.proto == c.proto)
    && (a.srcIp == 0 || a.srcIp == c.srcIp)
    && (a.dstIp == 0 || a.dstIp == c.dstIp)
    && (a.srcPort == ZERO || a.srcPort == c.srcPort)
    && (a.dstPort == ZERO || a.dstPort == c.dstPort)
  }

  function Other(x: nat): (y: nat)
    ensures y != x && 0 < y <= 2
  {
    if x == 1 then 2 else 1
  }

  function OtherWord(w: Word16): (v: Word16)
    ensures v != w
  {
    Word16(0, Other(w.lo))
  }

  /** A flow the filter `g` admits, and `f` only if it covers `g`. */
  function Witness(f: Option<SdfFilter>, g: Option<SdfFilter>): (flow: Flow)
    ensures Admitted(g, flow)
    ensures Admitted(f, flow) ==> Covers(f, g)
  {
    var a, c := FieldsOf(f), FieldsOf(g);
    Flow(if c.proto != 0 then c.proto else Other(a.proto),
         if c.srcIp != 0 then c.srcIp else Other(a.srcIp),
         if c.dstIp != 0 then c.dstIp else Other(a.dstIp),
         Exchanged(if c.srcPort != ZERO then c.srcPort else OtherWord(a.srcPort)),
         Exchanged(if c.dstPort != ZERO then c.dstPort else OtherWord(a.dstPort)))
  }

  /** The tunnel comes from the best rule, for every flow that has one, exactly when the first core rule has the least
      precedence value of all core rules that are ever searched and its filter covers theirs. */
  lemma TunnelOfBestForAllFlowsIff(b: RuleBook, i: nat)
    requires FirstCoreRule(b, i)
    ensures (forall flow, j: nat :: Applies(b, IFACE_CORE, flow, j) ==> FirstBest(b, IFACE_CORE, flow, i))
            <==> forall j: nat :: CoreApplies(b, j) && RuleAt(b, j).precedence < 0xFFFF_FFFF ==>
                   RuleAt(b, i).precedence <= RuleAt(b, j).precedence && Covers(RuleAt(b, i).sdf, RuleAt(b, j).sdf)
  {
    assert CoreApplies(b, i);
    hide FirstCoreRule, FirstBest, Covers, Admitted;
    if forall flow, j: nat :: Applies(b, IFACE_CORE, flow, j) ==> FirstBest(b, IFACE_CORE, flow, i) {
      forall j: nat | CoreApplies(b, j) && RuleAt(b, j).precedence < 0xFFFF_FFFF
        ensures RuleAt(b, i).precedence <= RuleAt(b, j).precedence && Covers(RuleAt(b, i).sdf, RuleAt(b, j).sdf)
      {
        var flow := Witness(RuleAt(b, i).sdf, RuleAt(b, j).sdf);
        AppliesIff(b, flow, j);
        FirstCoreRuleIsBestIff(b, flow, i);
      }
    }
    if forall j: nat :: CoreApplies(b, j) && RuleAt(b, j).precedence < 0xFFFF_FFFF ==>
         RuleAt(b, i).precedence <= RuleAt(b, j).precedence && Covers(RuleAt(b, i).sdf, RuleAt(b, j).sdf) {
      forall flow, j: nat | Applies(b, IFACE_CORE, flow, j) ensures FirstBest(b, IFACE_CORE, flow, i) {
        AppliesIff(b, flow, j);
        CoverAdmits(RuleAt(b, i).sdf, RuleAt(b, j).sdf, flow);
        FirstCoreRuleIsBestIff(b, flow, i);
        forall l: nat | CoreApplies(b, l) && Admitted(RuleAt(b, l).sdf, flow)
          ensures RuleAt(b, i).precedence <= RuleAt(b, l).precedence
        {
        }
      }
    }
  }

  lemma CoverAdmits(f: Option<SdfFilter>, g: Option<SdfFilter>, flow: Flow)
    requires Covers(f, g) && Admitted(g, flow)
    ensures Admitted(f, flow)
  {
  }
}
