/** Which node's association lists a session, and which node the session belongs to. */
module Ownership {
  import opened Bytes
  import opened Keys
  import opened Rules
  import opened Server
  import opened Views
  import opened World
  import Reporter

  function Listing(s: Srv, cp: u64): set<NodeId> {
    set n | n in s.assocs && cp in s.assocs[n].sessions
  }

  function Carrying(s: Srv, cp: u64): set<u64> {
    set t | t in s.sessions && s.sessions[t].cpSeid == cp
  }

  /** The session an accepted modification or deletion is about. */
  function Target(e: Event): u64
    requires e.Handle? && ((e.req.Modify? && e.req.modSeid.Some?) || e.req.Delete?)
  {
    if e.req.Modify? then e.req.modSeid.value else SeidOrZero(e.req.delSeid)
  }

  ghost predicate Changing(w: World, e: Event) {
    && e.Handle?
    && (e.req.Modify? ==> ModifyAccepted(w.st.srv, e.src, e.req, e.found))
    && (e.req.Delete? ==> DeleteAccepted(w.st.srv, e.src, e.req, e.found))
    && (e.req.Modify? || e.req.Delete?)
  }

  ghost predicate Numbers(w: World) {
    && w.st.srv.nextSeid <= TWO_48
    && forall t :: t in w.st.srv.sessions ==> t < w.st.srv.nextSeid && t in w.books
  }

  /** For every cp_seid there are at most as many associations listing it as live sessions carrying it. */
  ghost predicate Balanced(w: World) {
    Numbers(w) && forall cp: u64 :: |Listing(w.st.srv, cp)| <= |Carrying(w.st.srv, cp)|
  }

  lemma {:induction false} SubsetSize<T>(a: set<T>, b: set<T>)
    requires a <= b
    ensures |a| <= |b|
  {
    if a != {} {
      var x :| x in a;
      SubsetSize(a - {x}, b - {x});
    }
  }

  /** Ticks and packets leave sessions and associations alone. */
  lemma {:induction false} TickAllKeeps(s: Srv, totals: seq<(u64, UrrStats)>, now: nat)
    ensures Reporter.TickAll(s, totals, now).0
            == s.(urrConfigs := Reporter.TickAll(s, totals, now).0.urrConfigs,
                  nextReportSeq := Reporter.TickAll(s, totals, now).0.nextReportSeq)
    ensures Reporter.TickAll(s, totals, now).0.urrConfigs.Keys == s.urrConfigs.Keys
  {
    if |totals| > 0 {
      TickAllKeeps(s, totals[..|totals| - 1], now);
    }
  }

  /** Where sessions, books and the next SEID can come from. */
  lemma SessionsStep(w: World, e: Event)
    ensures var s, s', books' := w.st.srv, Step(w, e).st.srv, Step(w, e).books;
            && (s'.nextSeid == s.nextSeid
                || (s'.nextSeid == (s.nextSeid + 1) % TWO_64 && e.Handle? && e.req.Establish?
                    && EstablishAuthorised(e.src, e.found)))
            && (Accepting(e) ==> s'.nextSeid == (s.nextSeid + 1) % TWO_64)
            && s'.sessions.Keys <= s.sessions.Keys + (if Accepting(e) then {s.nextSeid} else {})
            && w.books.Keys <= books'.Keys && (Accepting(e) ==> s.nextSeid in books')
  {
    hide InstallPdrs, InstallFars, InstallUrrs, Configure, PatchFars, Reconfigure, DeleteMaps, NewInfo,
         UplinkStep, PatchedRules, LastTunnel, FirstUeIp, FirstOhc, Created, Listed, Unlisted;
    if e.ReporterTick? {
      TickAllKeeps(w.st.srv, e.totals, e.now);
    }
  }

  lemma NumbersStep(w: World, e: Event)
    requires Numbers(w) && SeidFits(w, e)
    ensures Numbers(Step(w, e))
  {
    hide Step, FirstUeIp, FirstOhc;
    SessionsStep(w, e);
  }

  lemma BalancedStep(w: World, e: Event)
    requires Balanced(w) && Numbered(w, e)
    ensures Balanced(Step(w, e))
  {
    NumbersStep(w, e);
    if e.ReporterTick? {
      TickAllKeeps(w.st.srv, e.totals, e.now);
    }
    forall cp: u64 ensures |Listing(Step(w, e).st.srv, cp)| <= |Carrying(Step(w, e).st.srv, cp)| {
      BalancedFor(w, e, cp);
    }
  }

  lemma BalancedFor(w: World, e: Event, cp: u64)
    requires Balanced(w) && Numbered(w, e)
    requires e.ReporterTick? ==> Step(w, e).st.srv.sessions == w.st.srv.sessions && Step(w, e).st.srv.assocs == w.st.srv.assocs
    ensures |Listing(Step(w, e).st.srv, cp)| <= |Carrying(Step(w, e).st.srv, cp)|
  {
    assert |Listing(w.st.srv, cp)| <= |Carrying(w.st.srv, cp)|;
    if Accepting(e) {
      EstablishListing(w, e, cp);
    } else if Changing(w, e) && e.req.Delete? {
      DeleteListing(w, e, cp);
    } else {
      OtherListing(w, e, cp);
      SubsetSize(Listing(Step(w, e).st.srv, cp), Listing(w.st.srv, cp));
    }
  }

  lemma EstablishTables(w: World, e: Event)
    requires Accepting(e)
    ensures var s, s', d := w.st.srv, Step(w, e).st.srv, Step(w, e).st.srv.sessions;
            && s.nextSeid in d && d[s.nextSeid].cpSeid == e.req.cpSeid
            && s'.sessions == s.sessions[s.nextSeid := d[s.nextSeid]]
            && s'.assocs == Listed(s.assocs, e.found.value, e.req.cpSeid, d[s.nextSeid])
  {
    hide InstallPdrs, InstallFars, InstallUrrs, Configure, NewInfo, FirstUeIp, FirstOhc, Created, Listed;
  }

  lemma ListingGrows(s: Srv, s': Srv, n: NodeId, added: u64, d: SessionData, cp: u64)
    requires s'.assocs == Listed(s.assocs, n, added, d)
    ensures Listing(s', cp) <= Listing(s, cp) + {n}
    ensures cp != added ==> Listing(s', cp) == Listing(s, cp)
  {
  }

  lemma CarryingGrows(s: Srv, s': Srv, t: u64, d: SessionData, cp: u64)
    requires t !in s.sessions && s'.sessions == s.sessions[t := d]
    ensures |Carrying(s', cp)| == |Carrying(s, cp)| + if d.cpSeid == cp then 1 else 0
  {
    assert Carrying(s', cp) == Carrying(s, cp) + if d.cpSeid == cp then {t} else {};
  }

  lemma EstablishListing(w: World, e: Event, cp: u64)
    requires Numbers(w) && Numbered(w, e) && Accepting(e)
    requires |Listing(w.st.srv, cp)| <= |Carrying(w.st.srv, cp)|
    ensures |Listing(Step(w, e).st.srv, cp)| <= |Carrying(Step(w, e).st.srv, cp)|
  {
    hide Step, FirstUeIp, FirstOhc, Listing, Carrying;
    EstablishTables(w, e);
    var s, s' := w.st.srv, Step(w, e).st.srv;
    var d := s'.sessions[s.nextSeid];
    CarryingGrows(s, s', s.nextSeid, d, cp);
    ListingGrows(s, s', e.found.value, e.req.cpSeid, d, cp);
    SubsetSize(Listing(s', cp), Listing(s, cp) + {e.found.value});
  }

  lemma DeleteTables(w: World, e: Event)
    requires Changing(w, e) && e.req.Delete?
    ensures var s, s', t := w.st.srv, Step(w, e).st.srv, Target(e);
            && t in s.sessions && e.found.value in Listing(s, s.sessions[t].cpSeid)
            && s'.sessions == s.sessions - {t}
            && s'.assocs == Unlisted(s.assocs, e.found.value, s.sessions[t].cpSeid)
  {
    hide DeleteMaps, Unlisted;
  }

  lemma ListingShrinks(s: Srv, s': Srv, n: NodeId, removed: u64, cp: u64)
    requires n in Listing(s, removed) && s'.assocs == Unlisted(s.assocs, n, removed)
    ensures |Listing(s', cp)| == |Listing(s, cp)| - if cp == removed then 1 else 0
  {
    assert Listing(s', cp) == Listing(s, cp) - if cp == removed then {n} else {};
  }

  lemma CarryingShrinks(s: Srv, s': Srv, t: u64, cp: u64)
    requires t in s.sessions && s'.sessions == s.sessions - {t}
    ensures |Carrying(s', cp)| == |Carrying(s, cp)| - if s.sessions[t].cpSeid == cp then 1 else 0
  {
    assert Carrying(s', cp) == Carrying(s, cp) - if s.sessions[t].cpSeid == cp then {t} else {};
    assert s.sessions[t].cpSeid == cp ==> t in Carrying(s, cp);
  }

  lemma DeleteListing(w: World, e: Event, cp: u64)
    requires Numbers(w) && Changing(w, e) && e.req.Delete?
    requires |Listing(w.st.srv, cp)| <= |Carrying(w.st.srv, cp)|
    ensures |Listing(Step(w, e).st.srv, cp)| <= |Carrying(Step(w, e).st.srv, cp)|
  {
    hide Step, Listing, Carrying;
    DeleteTables(w, e);
    var s, s', t := w.st.srv, Step(w, e).st.srv, Target(e);
    ListingShrinks(s, s', e.found.value, s.sessions[t].cpSeid, cp);
    CarryingShrinks(s, s', t, cp);
  }

  lemma OtherListing(w: World, e: Event, cp: u64)
    requires Numbers(w) && Numbered(w, e) && !Accepting(e) && !(Changing(w, e) && e.req.Delete?)
    requires e.ReporterTick? ==> Step(w, e).st.srv.sessions == w.st.srv.sessions && Step(w, e).st.srv.assocs == w.st.srv.assocs
    ensures Listing(Step(w, e).st.srv, cp) <= Listing(w.st.srv, cp)
    ensures Carrying(Step(w, e).st.srv, cp) == Carrying(w.st.srv, cp)
  {
    hide Reporter.Tick, InstallPdrs, InstallFars, InstallUrrs, Configure, PatchFars, Reconfigure, DeleteMaps, NewInfo,
         UplinkStep, PatchedRules, LastTunnel, FirstUeIp, FirstOhc, Created;
  }

  /** After any run, restarts and repeated cp_seids included, every listed cp_seid is backed by a live session. */
  lemma ListedIsLive(n3: u32, ts: u32, ncpus: nat, es: seq<Event>)
    requires Along(Numbered, Start(n3, ts, ncpus), es)
    ensures var s := Run(Start(n3, ts, ncpus), es).st.srv;
            && (forall cp: u64 :: |Listing(s, cp)| <= |Carrying(s, cp)|)
            && (forall n, cp :: n in s.assocs && cp in s.assocs[n].sessions
                  ==> exists t :: t in s.sessions && s.sessions[t].cpSeid == cp)
  {
    forall w, e | Balanced(w) && Numbered(w, e) ensures Balanced(Step(w, e)) {
      BalancedStep(w, e);
    }
    var start := Start(n3, ts, ncpus);
    assert forall cp: u64 :: Listing(start.st.srv, cp) == {};
    RunKeeps(Balanced, Numbered, start, es);
    ListedBacked(Run(start, es));
  }

  lemma ListedBacked(w: World)
    requires Balanced(w)
    ensures forall n, cp :: n in w.st.srv.assocs && cp in w.st.srv.assocs[n].sessions
              ==> exists t :: t in w.st.srv.sessions && w.st.srv.sessions[t].cpSeid == cp
  {
    var s := w.st.srv;
    forall n, cp: u64 | n in s.assocs && cp in s.assocs[n].sessions
      ensures exists t :: t in s.sessions && s.sessions[t].cpSeid == cp
    {
      assert n in Listing(s, cp) && |Listing(s, cp)| <= |Carrying(s, cp)|;
      assert Carrying(s, cp) != {};
      var t :| t in Carrying(s, cp);
      assert t in s.sessions && s.sessions[t].cpSeid == cp;
    }
  }

  // Ownership.

  /** An association that lists a live session's cp_seid is the one of the node that established it. */
  ghost predicate Owned(w: World) {
    forall n, t :: n in w.st.srv.assocs && t in w.st.srv.sessions
                   && w.st.srv.sessions[t].cpSeid in w.st.srv.assocs[n].sessions
                   ==> t in w.books && w.books[t].node == n
  }

  /** No live session of another node carries the cp_seid an establishment brings. */
  ghost predicate CpSeidFree(w: World, e: Event) {
    Accepting(e) ==> forall t :: t in w.st.srv.sessions && w.st.srv.sessions[t].cpSeid == e.req.cpSeid
                       ==> t in w.books && w.books[t].node == e.found.value
  }

  ghost predicate Exclusive(w: World) {
    Balanced(w) && Owned(w)
  }

  /** A step keeps ownership exclusive exactly when it does not bring in another node's cp_seid. */
  lemma OwnedStepIff(w: World, e: Event)
    requires Exclusive(w) && Numbered(w, e)
    ensures Owned(Step(w, e)) <==> CpSeidFree(w, e)
  {
    if e.ReporterTick? {
      TickAllKeeps(w.st.srv, e.totals, e.now);
    } else if Accepting(e) {
      EstablishOwnedIff(w, e);
    } else if e.Handle? {
      OwnedOtherwise(w, e);
    }
  }

  lemma OwnedOtherwise(w: World, e: Event)
    requires Exclusive(w) && Numbered(w, e) && e.Handle? && !Accepting(e)
    ensures Owned(Step(w, e))
  {
    hide InstallPdrs, InstallFars, InstallUrrs, PatchFars, Reconfigure, DeleteMaps;
    var s, s' := w.st.srv, Step(w, e).st.srv;
    assert forall t :: t in s'.sessions ==> t in s.sessions && s'.sessions[t].cpSeid == s.sessions[t].cpSeid;
    assert forall n, cp :: n in s'.assocs && cp in s'.assocs[n].sessions ==> n in s.assocs && cp in s.assocs[n].sessions;
    assert forall t :: t in w.books ==> t in Step(w, e).books && Step(w, e).books[t].node == w.books[t].node;
  }

  lemma EstablishOwnedIff(w: World, e: Event)
    requires Exclusive(w) && Numbered(w, e) && Accepting(e)
    ensures Owned(Step(w, e)) <==> CpSeidFree(w, e)
  {
    hide InstallPdrs, InstallFars, InstallUrrs, Configure;
    ListedBacked(w);
    var w' := Step(w, e);
    var s, s' := w.st.srv, w'.st.srv;
    var n, cp, seid := e.found.value, e.req.cpSeid, s.nextSeid;
    assert cp in s'.assocs[n].sessions;
    assert seid !in s.sessions;
    if CpSeidFree(w, e) {
      forall m, t | m in s'.assocs && t in s'.sessions && s'.sessions[t].cpSeid in s'.assocs[m].sessions
        ensures t in w'.books && w'.books[t].node == m
      {
        if t == seid && m != n {
          assert false;
        }
      }
    }
    if Owned(w') {
      forall t | t in s.sessions && s.sessions[t].cpSeid == cp ensures t in w.books && w.books[t].node == n {
        assert t in s'.sessions && s'.sessions[t].cpSeid in s'.assocs[n].sessions;
      }
    }
  }

  // UE addresses, which key the SESSION map.

  ghost predicate AddressesDistinct(w: World) {
    forall t, u :: t in w.st.srv.sessions && u in w.st.srv.sessions ==>
                     (w.st.srv.sessions[t].ueIp == w.st.srv.sessions[u].ueIp ==> t == u)
  }

  /** A step keeps the addresses of live sessions distinct exactly when it does not bring in one that is in use. */
  lemma AddressesStepIff(w: World, e: Event)
    requires Numbers(w) && Numbered(w, e) && AddressesDistinct(w)
    ensures AddressesDistinct(Step(w, e)) <==> AddressFree(w, e)
  {
    hide InstallPdrs, InstallFars, InstallUrrs, Configure, PatchFars, Reconfigure, DeleteMaps, NewInfo, UplinkStep,
         PatchedRules, LastTunnel, FirstUeIp, FirstOhc, Created;
    var s, s' := w.st.srv, Step(w, e).st.srv;
    if e.ReporterTick? {
      TickAllKeeps(s, e.totals, e.now);
    }
    if Accepting(e) {
      assert s.nextSeid in s'.sessions && s.nextSeid !in s.sessions;
      assert forall t :: t in s.sessions ==> t in s'.sessions && s'.sessions[t] == s.sessions[t];
    } else {
      assert forall t :: t in s'.sessions ==> t in s.sessions && s'.sessions[t].ueIp == s.sessions[t].ueIp;
    }
  }

  ghost predicate Separate(w: World, e: Event) {
    Numbered(w, e) && CpSeidFree(w, e) && AddressFree(w, e)
  }

  /** The rules, counters, configurations and session data held for `t` are the same in both worlds. */
  ghost predicate RulesUntouched(w: World, w': World, t: u64) {
    var s, s' := w.st.srv, w'.st.srv;
    && t in s.sessions && t in s'.sessions && s'.sessions[t] == s.sessions[t]
    && SameFor(w.st.maps.pdr, w'.st.maps.pdr, t)
    && SameFor(w.st.maps.far, w'.st.maps.far, t)
    && SameFor(w.st.maps.urr, w'.st.maps.urr, t)
    && forall id: u32 :: ((t, id) in s.urrConfigs <==> (t, id) in s'.urrConfigs)
         && ((t, id) in s.urrConfigs ==> s.urrConfigs[(t, id)] == s'.urrConfigs[(t, id)])
  }

  /** And so is the SESSION entry its packets are found by: everything server and packet path hold about `t`. */
  ghost predicate Untouched(w: World, w': World, t: u64) {
    && RulesUntouched(w, w', t)
    && SameAt(w.st.maps.sess, w'.st.maps.sess, ToBe32(w.st.srv.sessions[t].ueIp))
  }

  lemma {:induction false} ReconfigureOthers(c: map<(u64, u32), UrrConfig>, seid: u64, upds: seq<ParsedUrr>, t: u64, id: u32)
    requires t != seid
    ensures ((t, id) in c <==> (t, id) in Reconfigure(c, seid, upds))
    ensures (t, id) in c ==> c[(t, id)] == Reconfigure(c, seid, upds)[(t, id)]
  {
    if |upds| > 0 {
      ReconfigureOthers(c, seid, upds[..|upds| - 1], t, id);
    }
  }

  lemma OthersRulesUntouched(w: World, e: Event, t: u64)
    requires Numbers(w) && Changing(w, e) && t in w.st.srv.sessions && t != Target(e)
    ensures RulesUntouched(w, Step(w, e), t)
  {
    hide Compose;
    var m, m', seid := w.st.maps, Step(w, e).st.maps, Target(e);
    assert seid < TWO_48 && t < TWO_48;
    forall id: u32 ensures SameAt(m.pdr, m'.pdr, Compose(t, id)) && SameAt(m.far, m'.far, Compose(t, id))
                           && SameAt(m.urr, m'.urr, Compose(t, id)) {
      if e.req.Modify? {
        PatchFarsOthers(m.far, seid, e.req.updFars, t, id);
      } else {
        forall id' ensures Compose(seid, id') != Compose(t, id) {
          KeysMeet(seid, id', t, id);
        }
      }
    }
    forall id: u32 ensures ((t, id) in w.st.srv.urrConfigs <==> (t, id) in Step(w, e).st.srv.urrConfigs)
      && ((t, id) in w.st.srv.urrConfigs ==> w.st.srv.urrConfigs[(t, id)] == Step(w, e).st.srv.urrConfigs[(t, id)]) {
      if e.req.Modify? {
        ReconfigureOthers(w.st.srv.urrConfigs, seid, e.req.updUrrs, t, id);
      }
    }
  }

  /** What an accepted change does to another session: nothing but, exactly when the two share their UE address, drop
      its SESSION entry (a deletion) or move it to the new tunnel (a modification). */
  lemma OthersUntouchedIff(w: World, e: Event, t: u64)
    requires Numbers(w) && Changing(w, e) && t in w.st.srv.sessions && t != Target(e)
    ensures var sess, s := w.st.maps.sess, w.st.srv.sessions;
            && var k := ToBe32(s[t].ueIp);
            && RulesUntouched(w, Step(w, e), t)
            && (Untouched(w, Step(w, e), t) <==>
                  s[t].ueIp != s[Target(e)].ueIp || k !in sess
                  || (e.req.Modify? && InfoWithTunnel(sess[k], LastTunnel(e.req.updFars)) == sess[k]))
  {
    hide RulesUntouched, PatchFars, Reconfigure, LastTunnel;
    OthersRulesUntouched(w, e, t);
  }

  ghost predicate Apart(w: World) {
    Exclusive(w) && AddressesDistinct(w)
  }

  lemma ApartRun(n3: u32, ts: u32, ncpus: nat, es: seq<Event>)
    requires Along(Separate, Start(n3, ts, ncpus), es)
    ensures Apart(Run(Start(n3, ts, ncpus), es))
  {
    forall w, e | Apart(w) && Separate(w, e) ensures Apart(Step(w, e)) {
      BalancedStep(w, e);
      OwnedStepIff(w, e);
      AddressesStepIff(w, e);
    }
    var start := Start(n3, ts, ncpus);
    assert forall cp: u64 :: Listing(start.st.srv, cp) == {};
    RunKeeps(Apart, Separate, start, es);
  }

  /** After any run in which no establishment brings another node's live cp_seid or a live UE address: an accepted
      modification or deletion is about a session of the node found for its source, and leaves everything held about
      every other session as it was. */
  lemma OnlyTheOwnerChanges(n3: u32, ts: u32, ncpus: nat, es: seq<Event>, e: Event)
    requires Along(Separate, Start(n3, ts, ncpus), es)
    requires Changing(Run(Start(n3, ts, ncpus), es), e)
    ensures var w := Run(Start(n3, ts, ncpus), es);
            && Target(e) in w.books && w.books[Target(e)].node == e.found.value
            && forall t :: t in w.st.srv.sessions && t != Target(e) ==> Untouched(w, Step(w, e), t)
  {
    hide Untouched;
    ApartRun(n3, ts, ncpus, es);
    var w := Run(Start(n3, ts, ncpus), es);
    forall t | t in w.st.srv.sessions && t != Target(e) ensures Untouched(w, Step(w, e), t) {
      OthersUntouchedIff(w, e, t);
    }
  }

  // Refusals and repetitions.

  /** A deletion changes something exactly when it is not answered with an error; a modification or establishment
      answered with one changes at most the counters an authorised establishment advances. */
  lemma ErrorsChangeNothing(w: World, e: Event, seqNum: u32)
    requires e.Handle? && (e.req.Establish? || e.req.Modify? || e.req.Delete?)
    ensures var refused := RequestReply(w.st.srv, seqNum, e.src, e.req, e.found).Err?;
            && (e.req.Delete? ==> (refused <==> Step(w, e) == w))
            && (e.req.Modify? && refused ==> Step(w, e) == w)
            && (e.req.Establish? && refused ==>
                  Step(w, e) == if EstablishAuthorised(e.src, e.found) then w.(st := w.st.(srv := Allocated(w.st.srv))) else w)
  {
    hide InstallPdrs, InstallFars, InstallUrrs, Configure, PatchFars, Reconfigure, DeleteMaps, NewInfo, PatchedRules;
    if e.req.Delete? && DeleteAccepted(w.st.srv, e.src, e.req, e.found) {
      assert Target(e) in w.st.srv.sessions && Target(e) !in Step(w, e).st.srv.sessions;
    }
  }

  /** Sources that are not IPv4 can only set up associations; and a deletion without a SEID is one of SEID 0. */
  lemma OtherSourcesChangeNothing(w: World, e: Event, seqNum: u32)
    requires e.Handle?
    ensures e.src.V6? && !e.req.Setup? ==> Step(w, e) == w
    ensures e.src.V6? && (e.req.Establish? || e.req.Modify? || e.req.Delete?) ==>
              RequestReply(w.st.srv, seqNum, e.src, e.req, e.found).Err?
    ensures e.req == Delete(None) ==>
              && Step(w, e) == Step(w, e.(req := Delete(Some(0))))
              && RequestReply(w.st.srv, seqNum, e.src, e.req, e.found)
                 == RequestReply(w.st.srv, seqNum, e.src, Delete(Some(0)), e.found)
  {
    hide InstallPdrs, InstallFars, InstallUrrs, Configure, PatchFars, Reconfigure, DeleteMaps, NewInfo, PatchedRules;
  }

  /** The event shows that node `n` restarted: a heartbeat or a setup with another recovery time stamp. */
  ghost predicate Restarts(w: World, e: Event, n: NodeId) {
    && e.Handle? && n in w.st.srv.assocs
    && var a := w.st.srv.assocs[n];
    || (e.req.Setup? && e.req.nodeId == n && e.req.recoveryTs != a.recoveryTs)
    || (e.req.Heartbeat? && e.src.V4? && e.found == Some(n) && e.req.recovery.Some? && e.req.recovery.value != a.recoveryTs)
  }

  /** Node `n` is associated under a time stamp. */
  ghost predicate StampInForce(w: World, n: NodeId, stamp: u32) {
    n in w.st.srv.assocs && w.st.srv.assocs[n].recoveryTs == stamp
  }

  /** A step ends a time stamp exactly when it shows a restart of the node. */
  lemma StampStepIff(w: World, e: Event, n: NodeId, stamp: u32)
    requires StampInForce(w, n, stamp)
    ensures StampInForce(Step(w, e), n, stamp) <==> !Restarts(w, e, n)
  {
    hide InstallPdrs, InstallFars, InstallUrrs, Configure, PatchFars, Reconfigure, DeleteMaps, NewInfo, UplinkStep,
         PatchedRules, LastTunnel, FirstUeIp, FirstOhc, Created;
    if e.ReporterTick? {
      TickAllKeeps(w.st.srv, e.totals, e.now);
    } else if e.Handle? && (e.req.Setup? || e.req.Heartbeat?) {
      assert Step(w, e).st == RequestStep(w.st, e.src, e.req, e.found, e.now);
    } else {
      StampKept(w, e, n);
    }
  }

  lemma StampKept(w: World, e: Event, n: NodeId)
    requires n in w.st.srv.assocs && (e.Handle? ==> !e.req.Setup? && !e.req.Heartbeat?) && !e.ReporterTick?
    ensures n in Step(w, e).st.srv.assocs && Step(w, e).st.srv.assocs[n].recoveryTs == w.st.srv.assocs[n].recoveryTs
  {
    hide InstallPdrs, InstallFars, InstallUrrs, Configure, PatchFars, Reconfigure, DeleteMaps, NewInfo, UplinkStep,
         PatchedRules, LastTunnel, FirstUeIp, FirstOhc, Created;
  }

  /** The time stamp a node announces is in force afterwards, whether it is new or not: in a heartbeat for the association
      found for its IPv4 source, in a setup for the node it names, which then has the source's address. */
  lemma AnnouncedIsInForce(w: World, e: Event)
    requires Possible(w, e) && e.Handle?
    ensures e.req.Heartbeat? && e.req.recovery.Some? && e.src.V4? && e.found.Some? ==>
              StampInForce(Step(w, e), e.found.value, e.req.recovery.value)
    ensures e.req.Setup? ==> StampInForce(Step(w, e), e.req.nodeId, e.req.recoveryTs)
    ensures e.req.Setup? && (e.req.nodeId in w.st.srv.assocs ==> Restarts(w, e, e.req.nodeId)) ==>
              && Step(w, e).st.srv.assocs[e.req.nodeId].peer == e.src
              && Step(w, e).st.srv.peer == Some(V4(e.req.nodeId, 8805))
  {
    assert Step(w, e).st == RequestStep(w.st, e.src, e.req, e.found, e.now);
  }

  /** A setup received again, at once or after any run that shows no restart of its node, changes nothing. */
  lemma RepeatedSetupChangesNothing(w: World, e: Event, es: seq<Event>)
    requires e.Handle? && e.req.Setup?
    requires Along((v, x) => !Restarts(v, x, e.req.nodeId), Step(w, e), es)
    ensures Step(Run(Step(w, e), es), e) == Run(Step(w, e), es)
  {
    var inv := v => StampInForce(v, e.req.nodeId, e.req.recoveryTs);
    var hyp := (v, x) => !Restarts(v, x, e.req.nodeId);
    forall v, x | inv(v) && hyp(v, x) ensures inv(Step(v, x)) {
      StampStepIff(v, x, e.req.nodeId, e.req.recoveryTs);
    }
    RunKeeps(inv, hyp, Step(w, e), es);
  }

  // Restarts empty lists, not tables.

  /** Session `t` is live, but no association lists its cp_seid. */
  ghost predicate Stranded(w: World, t: u64) {
    Numbers(w) && t in w.st.srv.sessions && Listing(w.st.srv, w.st.srv.sessions[t].cpSeid) == {}
  }

  /** A restart of a node, seen in a heartbeat or in a setup, strands every session of that node. */
  lemma RestartStrands(w: World, e: Event, t: u64)
    requires Exclusive(w) && t in w.st.srv.sessions && Restarts(w, e, w.books[t].node)
    ensures Stranded(Step(w, e), t) && Untouched(w, Step(w, e), t)
  {
    var s, s' := w.st.srv, Step(w, e).st.srv;
    assert s'.sessions == s.sessions;
    assert Listing(s', s.sessions[t].cpSeid) == {};
  }

  /** No establishment brings the cp_seid back. */
  ghost predicate NotReused(w: World, e: Event, cp: u64) {
    Numbered(w, e) && (Accepting(e) ==> e.req.cpSeid != cp)
  }

  ghost predicate StrandedWith(w: World, t: u64, d: SessionData) {
    Stranded(w, t) && w.st.srv.sessions[t] == d
  }

  /** Whoever may change a session lists its cp_seid. */
  lemma ChangerLists(w: World, e: Event)
    requires Changing(w, e)
    ensures e.found.value in Listing(w.st.srv, w.st.srv.sessions[Target(e)].cpSeid)
  {
  }

  lemma StrandedStep(w: World, e: Event, t: u64, d: SessionData)
    requires StrandedWith(w, t, d) && NotReused(w, e, d.cpSeid)
    ensures StrandedWith(Step(w, e), t, d)
    ensures Changing(w, e) ==> Target(e) != t
  {
    hide InstallPdrs, InstallFars, InstallUrrs, Configure, PatchFars, Reconfigure, DeleteMaps, NewInfo,
         UplinkStep, PatchedRules, LastTunnel, FirstUeIp, FirstOhc, Created;
    NumbersStep(w, e);
    var s, s' := w.st.srv, Step(w, e).st.srv;
    if e.ReporterTick? {
      TickAllKeeps(s, e.totals, e.now);
    }
    if Changing(w, e) && Target(e) == t {
      ChangerLists(w, e);
    }
    assert Listing(s', d.cpSeid) == {};
  }

  /** A stranded session stays, with its tunnel, through any run that does not bring its cp_seid back: nobody can
      modify or delete it. */
  lemma StrandedForever(w: World, es: seq<Event>, t: u64, d: SessionData)
    requires StrandedWith(w, t, d)
    requires Along((v, e) => NotReused(v, e, d.cpSeid), w, es)
    ensures StrandedWith(Run(w, es), t, d)
  {
    var inv := v => StrandedWith(v, t, d);
    var hyp := (v, e) => NotReused(v, e, d.cpSeid);
    forall v, e | inv(v) && hyp(v, e) ensures inv(Step(v, e)) {
      StrandedStep(v, e, t, d);
    }
    RunKeeps(inv, hyp, w, es);
  }
}
