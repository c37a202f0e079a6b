/** Ids and sequence numbers handed out over whole runs. */
module Numbering {
  import opened Bytes
  import opened Rules
  import opened Server
  import opened World
  import opened Reporter
  import opened Header
  import Ownership

  // Local SEIDs and TEIDs are handed out together.

  ghost predicate InStep(w: World) {
    1 <= w.st.srv.nextSeid <= TWO_48 && w.st.srv.nextTeid == (w.st.srv.nextSeid + 999) % 0x1_0000_0000
  }

  lemma BothOrNone(w: World, e: Event)
    ensures var s, s' := w.st.srv, Step(w, e).st.srv;
            (s'.nextSeid == s.nextSeid && s'.nextTeid == s.nextTeid)
            || (s'.nextSeid == (s.nextSeid + 1) % TWO_64 && s'.nextTeid == (s.nextTeid + 1) % 0x1_0000_0000
                && e.Handle? && e.req.Establish? && EstablishAuthorised(e.src, e.found))
  {
    hide InstallPdrs, InstallFars, InstallUrrs, Configure, PatchFars, Reconfigure, DeleteMaps, NewInfo,
         LastTunnel, FirstUeIp, FirstOhc, Created, UplinkStep;
    if e.ReporterTick? {
      Ownership.TickAllKeeps(w.st.srv, e.totals, e.now);
    }
  }

  lemma NextResidue(x: nat)
    ensures (x % 0x1_0000_0000 + 1) % 0x1_0000_0000 == (x + 1) % 0x1_0000_0000
  {
  }

  lemma InStepStep(w: World, e: Event)
    requires InStep(w) && SeidFits(w, e)
    ensures InStep(Step(w, e)) && w.st.srv.nextSeid <= Step(w, e).st.srv.nextSeid
  {
    hide Step;
    BothOrNone(w, e);
    NextResidue(w.st.srv.nextSeid + 999);
  }

  /** An answer to the request that accepts it. */
  ghost predicate Answers(w: World, e: Event, r: Reply) {
    e.Handle? && e.req.Establish? && r.EstablishReply? && RequestReply(w.st.srv, r.seqNum, e.src, e.req, e.found) == Ok(r)
  }

  /** The answers to two establishments of a run carry different SEIDs, and different TEIDs when fewer than 2^32
      allocations lie between them. */
  lemma AllocationsDiffer(n3: u32, ts: u32, ncpus: nat, es: seq<Event>, e: Event, more: seq<Event>, e': Event, r: Reply, r': Reply)
    requires Along(SeidFits, Start(n3, ts, ncpus), es + [e] + more)
    requires var w := Run(Start(n3, ts, ncpus), es); Answers(w, e, r) && Answers(Run(Step(w, e), more), e', r')
    ensures r.seid < r'.seid
    ensures r'.seid < r.seid + 0x1_0000_0000 ==>
              forall c, c' :: c in r.created && c' in r'.created ==> c.1 != c'.1
  {
    hide Step, SeidFits, Created;
    var start := Start(n3, ts, ncpus);
    assert InStep(start);
    forall w, e | InStep(w) && SeidFits(w, e) ensures InStep(Step(w, e)) {
      InStepStep(w, e);
    }
    var w := Run(start, es);
    assert es + [e] + more == es + ([e] + more);
    AlongConcat(SeidFits, start, es, [e] + more);
    RunCons(SeidFits, w, e, more);
    RunKeeps(InStep, SeidFits, start, es);
    var w1 := Step(w, e);
    assert InStep(w1);
    RunKeeps(InStep, SeidFits, w1, more);
    SeidsGrow(w1, more);
    var s, s' := w.st.srv, Run(w1, more).st.srv;
    AnswerAdvances(w, e, r);
    forall c | c in r.created ensures c.1 == s.nextTeid {
      CreatedTeids(e.req.pdrs, s.nextTeid, s.n3, c);
    }
    forall c' | c' in r'.created ensures c'.1 == s'.nextTeid {
      CreatedTeids(e'.req.pdrs, s'.nextTeid, s'.n3, c');
    }
    hide Run;
    if s'.nextSeid < s.nextSeid + 0x1_0000_0000 {
      ResiduesDiffer(s.nextSeid + 999, s'.nextSeid + 999);
    }
  }

  lemma AnswerAdvances(w: World, e: Event, r: Reply)
    requires InStep(w) && SeidFits(w, e) && Answers(w, e, r)
    ensures r.seid == w.st.srv.nextSeid && Step(w, e).st.srv.nextSeid == w.st.srv.nextSeid + 1
    ensures r.created == Created(e.req.pdrs, w.st.srv.nextTeid, w.st.srv.n3)
  {
    hide InstallPdrs, InstallFars, InstallUrrs, Configure, NewInfo, FirstUeIp, FirstOhc, Created;
  }

  lemma {:induction false} CreatedTeids(pdrs: seq<ParsedPdr>, teid: u32, n3: u32, c: (u16, u32, u32))
    requires c in Created(pdrs, teid, n3)
    ensures c.1 == teid
  {
    if c in Created(pdrs[..|pdrs| - 1], teid, n3) {
      CreatedTeids(pdrs[..|pdrs| - 1], teid, n3, c);
    }
  }

  lemma ResiduesDiffer(x: nat, y: nat)
    requires x < y < x + 0x1_0000_0000
    ensures x % 0x1_0000_0000 != y % 0x1_0000_0000
  {
  }

  lemma {:induction false} SeidsGrow(w: World, es: seq<Event>)
    requires InStep(w) && Along(SeidFits, w, es)
    ensures w.st.srv.nextSeid <= Run(w, es).st.srv.nextSeid
    decreases |es|
  {
    hide Step, SeidFits, InStep;
    if |es| > 0 {
      InStepStep(w, es[0]);
      SeidsGrow(Step(w, es[0]), es[1..]);
    }
  }

  // Session Report Requests share one counter, starting at 1000.

  function AllSent(log: seq<Entry>): nat {
    if |log| == 0 then 0 else AllSent(log[..|log| - 1]) + if log[|log| - 1].Sent? then 1 else 0
  }

  ghost predicate SeqNumAt(log: seq<Entry>, j: nat) {
    j < |log| && log[j].Sent? ==> log[j].report.seqNum == (1000 + AllSent(log[..j])) % 0x1_0000_0000
  }

  ghost predicate Counted(s: Srv, log: seq<Entry>) {
    s.nextReportSeq == (1000 + AllSent(log)) % 0x1_0000_0000 && forall j: nat :: j < |log| ==> SeqNumAt(log, j)
  }

  lemma SentAppend(log: seq<Entry>, x: Entry)
    ensures AllSent(log + [x]) == AllSent(log) + if x.Sent? then 1 else 0
  {
    assert (log + [x])[..|log|] == log;
  }

  lemma CountedAppend(s: Srv, log: seq<Entry>, x: Entry, s': Srv)
    requires Counted(s, log)
    requires if x.Sent? then x.report.seqNum == s.nextReportSeq && s'.nextReportSeq == (s.nextReportSeq + 1) % 0x1_0000_0000
             else s'.nextReportSeq == s.nextReportSeq
    ensures Counted(s', log + [x])
  {
    SentAppend(log, x);
    var log' := log + [x];
    forall j: nat | j < |log'| ensures SeqNumAt(log', j) {
      if j < |log| {
        assert SeqNumAt(log, j) && log'[..j] == log[..j];
      } else {
        assert log'[..j] == log;
      }
    }
  }

  lemma {:induction false} TickAllCounted(s: Srv, log: seq<Entry>, totals: seq<(u64, UrrStats)>, now: nat)
    requires Counted(s, log)
    ensures var (s', rs) := TickAll(s, totals, now); Counted(s', log + Sends(rs))
  {
    hide Counted, VolumeDue, PeriodDue;
    if |totals| == 0 {
      assert log + Sends([]) == log;
    } else {
      var n := |totals| - 1;
      TickAllCounted(s, log, totals[..n], now);
      var (s1, r1) := TickAll(s, totals[..n], now);
      var (s2, r2) := TickOne(s1, totals[n].0, totals[n].1, now);
      if r2 == [] {
        assert r1 + r2 == r1;
      } else {
        CountedAppend(s1, log + Sends(r1), Sent(r2[0]), s2);
        assert log + Sends(r1 + r2) == log + Sends(r1) + [Sent(r2[0])];
      }
    }
  }

  lemma {:induction false} UpdatesCounted(s: Srv, log: seq<Entry>, seid: u64, upds: seq<ParsedUrr>)
    requires Counted(s, log)
    ensures Counted(s, log + Updates(seid, upds))
  {
    hide Counted;
    if |upds| == 0 {
      assert log + Updates(seid, upds) == log;
    } else {
      var init, u := upds[..|upds| - 1], upds[|upds| - 1];
      UpdatesCounted(s, log, seid, init);
      CountedAppend(s, log + Updates(seid, init), Updated(seid, u.urrId), s);
      assert log + Updates(seid, upds) == log + Updates(seid, init) + [Updated(seid, u.urrId)];
    }
  }

  ghost predicate CountedWorld(w: World) {
    Counted(w.st.srv, w.log)
  }

  ghost predicate Anything(w: World, e: Event) {
    true
  }

  lemma CountedStep(w: World, e: Event)
    requires CountedWorld(w)
    ensures CountedWorld(Step(w, e))
  {
    hide InstallPdrs, InstallFars, InstallUrrs, Configure, PatchFars, Reconfigure, DeleteMaps, NewInfo,
         LastTunnel, FirstUeIp, FirstOhc, UplinkStep, AllSent, SeqNumAt;
    if e.ReporterTick? {
      TickAllCounted(w.st.srv, w.log, e.totals, e.now);
      assert w.log + Sends([]) == w.log;
    } else if Ownership.Changing(w, e) && e.req.Modify? {
      UpdatesCounted(w.st.srv, w.log, e.req.modSeid.value, e.req.updUrrs);
    }
  }

  lemma {:induction false} AlwaysAlong(w: World, es: seq<Event>)
    ensures Along(Anything, w, es)
    decreases |es|
  {
    if |es| > 0 {
      AlwaysAlong(Step(w, es[0]), es[1..]);
    }
  }

  lemma {:induction false} SentGrows(log: seq<Entry>, i: nat, j: nat)
    requires i < j <= |log| && log[i].Sent?
    ensures AllSent(log[..i]) < AllSent(log[..j])
  {
    assert log[..j][..j - 1] == log[..j - 1];
    if j > i + 1 {
      SentGrows(log, i, j - 1);
    }
  }

  /** The header a Session Report Request is sent with, as its receiver decodes it. */
  function WireSeqNum(r: Report): u32 {
    DecodeUndoesEncode(SessionHeader(56, r.cpSeid, r.seqNum), []);
    DecodeHeader(HeaderOctets(SessionHeader(56, r.cpSeid, r.seqNum)) + []).value.0.seqNum
  }

  /** In any run, two of any 2^24 consecutive Session Report Requests have different sequence numbers on the wire. */
  lemma ReportsDifferOnWire(n3: u32, ts: u32, ncpus: nat, es: seq<Event>, i: nat, j: nat)
    requires var log := Run(Start(n3, ts, ncpus), es).log;
             i < j < |log| && log[i].Sent? && log[j].Sent? && AllSent(log[..j]) < AllSent(log[..i]) + 0x100_0000
    ensures var log := Run(Start(n3, ts, ncpus), es).log;
            WireSeqNum(log[i].report) != WireSeqNum(log[j].report)
  {
    hide HeaderOctets, DecodeHeader, Step;
    forall w, e | CountedWorld(w) && Anything(w, e) ensures CountedWorld(Step(w, e)) {
      CountedStep(w, e);
    }
    AlwaysAlong(Start(n3, ts, ncpus), es);
    RunKeeps(CountedWorld, Anything, Start(n3, ts, ncpus), es);
    var log := Run(Start(n3, ts, ncpus), es).log;
    assert SeqNumAt(log, i) && SeqNumAt(log, j);
    SentGrows(log, i, j);
    var a, b := 1000 + AllSent(log[..i]), 1000 + AllSent(log[..j]);
    DecodeUndoesEncode(SessionHeader(56, log[i].report.cpSeid, log[i].report.seqNum), []);
    DecodeUndoesEncode(SessionHeader(56, log[j].report.cpSeid, log[j].report.seqNum), []);
    LowBits(a);
    LowBits(b);
    LowBitsDiffer(a, b);
  }
}
