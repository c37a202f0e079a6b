/** What a run counts, read off the sessions' rule books alone. */
module Metering {
  import opened Bytes
  import opened Keys
  import opened Rules
  import opened Classifier
  import opened Server
  import opened Counters
  import opened World
  import opened Compiled
  import opened Decisions
  import opened Reporter
  import Charging
  import Cleanup
  import Ownership
  import Usage

  /** What a packet of session `t` adds: its length, for the URR of its best rule, unless that drops or names none. */
  ghost function RuleCounts(b: RuleBook, t: u64, cpu: nat, flow: Flow, len: u64): seq<UrrOp> {
    if i: nat :| FirstBest(b, IFACE_ACCESS, flow, i) then
      if Drops(b, i) || OrZero(RuleAt(b, i).urrId) == 0 then []
      else [Count(t, OrZero(RuleAt(b, i).urrId), cpu, len, false)]
    else []
  }

  /** The session the address belongs to, if any. */
  ghost function Owner(sessions: map<u64, SessionData>, ueIp: u32): (r: Option<u64>)
    ensures r.Some? ==> r.value in sessions && sessions[r.value].ueIp == ueIp
    ensures r.None? ==> forall t :: t in sessions ==> sessions[t].ueIp != ueIp
  {
    if t :| t in sessions && sessions[t].ueIp == ueIp then Some(t) else None
  }

  /** The URR ids that the rules found by a packet search name. */
  function RuleUrrs(b: RuleBook): set<u32> {
    set i | 0 <= i < Installed(|b.pdrs|) && OrZero(RuleAt(b, i).urrId) != 0 :: OrZero(RuleAt(b, i).urrId)
  }

  /** The counter operations of a step, from the tables and rule books and without the maps. */
  ghost function RuleOps(s: Srv, books: map<u64, RuleBook>, e: Event): seq<UrrOp> {
    match e
    case Handle(src, req, found, _) =>
      if Accepting(e) then Usage.Zeroes(s.nextSeid, req.urrs)
      else if req.Delete? && DeleteAccepted(s, src, req, found) && SeidOrZero(req.delSeid) in books then
        Usage.Removes(SeidOrZero(req.delSeid), RuleUrrs(books[SeidOrZero(req.delSeid)]))
      else []
    case Uplink(cpu, q, len) =>
      var t := Owner(s.sessions, q.srcIp.host);
      if cpu >= s.ncpus || t.None? || t.value !in books then []
      else RuleCounts(books[t.value], t.value, cpu, FlowOf(q), len)
    case ReporterTick(_, _) => []
  }

  ghost function RuleOpsAlong(w: World, es: seq<Event>): seq<UrrOp>
    decreases |es|
  {
    if |es| == 0 then [] else RuleOps(w.st.srv, w.books, es[0]) + RuleOpsAlong(Step(w, es[0]), es[1..])
  }

  lemma UplinkIsRuled(w: World, e: Event)
    requires Agreed(w) && e.Uplink?
    ensures Usage.OpsAt(w, e) == RuleOps(w.st.srv, w.books, e)
  {
    hide SelectFar, AgreesFor, MirrorOf, RuleAt, Applies;
    AddressesAreSessions(w, e.q.srcIp);
    var t := Owner(w.st.srv.sessions, e.q.srcIp.host);
    if e.cpu < w.st.srv.ncpus && t.Some? {
      var b, flow := w.books[t.value], FlowOf(e.q);
      CountsFollowRules(w, t.value, e.cpu, flow, e.len);
      BestOrNone(w, t.value, flow);
    }
  }

  /** Where some rule applies, there is a best one. */
  lemma BestOrNone(w: World, t: u64, flow: Flow)
    requires Agreed(w) && t in w.st.srv.sessions
    ensures (exists i: nat :: FirstBest(w.books[t], IFACE_ACCESS, flow, i))
            || forall i: nat :: !Applies(w.books[t], IFACE_ACCESS, flow, i)
  {
    hide SelectFar, AgreesFor, MirrorOf, RuleAt, Applies, FirstBest;
    SelectFarIsRuleSearch(w, t, IFACE_ACCESS, flow);
  }

  lemma DeletionIsRuled(w: World, t: u64)
    requires Agreed(w) && t in w.st.srv.sessions
    ensures t in w.books && UrrIds(w.st.maps, ToBe32(w.st.srv.sessions[t].ueIp), t) == RuleUrrs(w.books[t])
  {
    hide Compose;
    var m, k, b := w.st.maps, ToBe32(w.st.srv.sessions[t].ueIp), w.books[t];
    Cleanup.ReadableIn(w, t);
    forall u | u in RuleUrrs(b) ensures u in UrrIds(m, k, t) {
      var i: nat :| i < Installed(|b.pdrs|) && OrZero(RuleAt(b, i).urrId) == u && u != 0;
      var key := Compose(t, m.sess[k].pdrIds[i]);
      assert key in PdrKeys(m, k, t) && m.pdr[key].urrId == u;
    }
    forall u | u in UrrIds(m, k, t) ensures u in RuleUrrs(b) {
      var i: nat :| i < PdrCount(m, k) && m.pdr[Compose(t, m.sess[k].pdrIds[i])].urrId == u && u != 0;
      assert OrZero(RuleAt(b, i).urrId) == u;
    }
  }

  /** On maps in agreement a step counts what the rule books say. */
  lemma StepIsRuled(w: World, e: Event)
    requires Agreed(w)
    ensures Usage.OpsAt(w, e) == RuleOps(w.st.srv, w.books, e)
  {
    hide UrrIds, RuleUrrs, Usage.Removes, Usage.Zeroes, FirstUeIp, FirstOhc;
    if e.Uplink? {
      UplinkIsRuled(w, e);
    } else if Ownership.Changing(w, e) && e.req.Delete? {
      DeletionIsRuled(w, Ownership.Target(e));
    }
  }

  lemma {:induction false} RunIsRuled(w: World, es: seq<Event>)
    requires Agreed(w) && Along(Orderly, w, es)
    ensures Usage.OpsAlong(w, es) == RuleOpsAlong(w, es)
    decreases |es|
  {
    hide Step, Agreed, Orderly, Usage.OpsAt, RuleOps;
    if |es| > 0 {
      StepIsRuled(w, es[0]);
      AgreedStep(w, es[0]);
      RunIsRuled(Step(w, es[0]), es[1..]);
    }
  }

  lemma StartAgrees(n3: u32, ts: u32, ncpus: nat)
    ensures Agreed(Start(n3, ts, ncpus))
  {
  }

  /** After any orderly run whose URR ids are 1 to 65535, the total the reporter would form for an entry is the number of
      bytes of the session's packets whose best rule, in the session's own rule book, forwards them and names that URR,
      since the entry was made; in u64 arithmetic. */
  lemma TotalsFollowRules(n3: u32, ts: u32, ncpus: nat, es: seq<Event>, key: u64)
    requires Along(Orderly, Start(n3, ts, ncpus), es)
    requires Usage.AllProper(RuleOpsAlong(Start(n3, ts, ncpus), es), ncpus)
    ensures var urr, c := Run(Start(n3, ts, ncpus), es).st.maps.urr,
                          Counted(RuleOpsAlong(Start(n3, ts, ncpus), es), SeidOf(key), IdOf(key));
            && (key in urr <==> c.Some?)
            && (key in urr ==> Total(SumOf(urr[key])) == c.value % TWO_64)
  {
    hide RuleOpsAlong, Usage.OpsAlong, Usage.AllProper, Counted, SumOf, Run, Along, SeidOf, IdOf;
    StartAgrees(n3, ts, ncpus);
    RunIsRuled(Start(n3, ts, ncpus), es);
    Usage.ReportedIsForwarded(n3, ts, ncpus, es, key);
  }

  // Volume reports, in the same terms.

  ghost predicate EarnedByRules(w: World, es: seq<Event>, j: nat, r: Report)
    requires j <= |es|
  {
    var c := Counted(RuleOpsAlong(w, es[..j]), r.seid, r.urrId);
    && c.Some? && r.total == c.value % TWO_64
    && (r.volth ==> r.threshold.Some? && c.value >= r.threshold.value)
  }

  lemma EarnedIsRuled(w: World, es: seq<Event>, j: nat, r: Report)
    requires Agreed(w) && Along(Orderly, w, es) && j <= |es| && Charging.Earned(w, es, j, r)
    ensures EarnedByRules(w, es, j, r)
  {
    hide RuleOpsAlong, Usage.OpsAlong, Counted, Run, Along, Agreed;
    assert es[..j] + es[j..] == es;
    AlongConcat(Orderly, w, es[..j], es[j..]);
    RunIsRuled(w, es[..j]);
  }

  /** In an orderly run whose ticks work on totals collected in it, a volume report is sent only after the best rules of
      its session forwarded at least the threshold for its URR. */
  lemma VolumeEarnedByRules(n3: u32, ts: u32, ncpus: nat, es: seq<Event>, k: nat)
    requires Along(Orderly, Start(n3, ts, ncpus), es) && Charging.Snapshots(Start(n3, ts, ncpus), es)
    requires Usage.AllProper(RuleOpsAlong(Start(n3, ts, ncpus), es), ncpus)
    requires var log := Run(Start(n3, ts, ncpus), es).log; k < |log| && log[k].Sent?
    ensures var start := Start(n3, ts, ncpus);
            var r := Run(start, es).log[k].report;
            exists i: nat, j: nat :: j <= i < |es| && Charging.SentAt(start, es, i, r) && EarnedByRules(start, es, j, r)
  {
    StartAgrees(n3, ts, ncpus);
    hide RuleOpsAlong, Usage.OpsAlong, Usage.AllProper, Run, Along, Charging.Snapshots, Step, Agreed, Charging.Earned,
         EarnedByRules, Charging.SentAt;
    var start := Start(n3, ts, ncpus);
    var r := Run(start, es).log[k].report;
    RunIsRuled(start, es);
    Charging.VolumeIsEarned(n3, ts, ncpus, es, k);
    var i: nat, j: nat :| j <= i < |es| && Charging.SentAt(start, es, i, r) && Charging.Earned(start, es, j, r);
    EarnedIsRuled(start, es, j, r);
  }
}
