/** The history of usage reports over whole runs of ticks, updates and everything else. */
module Reports {
  import opened Bytes
  import opened Keys
  import opened Rules
  import opened Server
  import opened World
  import opened Reporter
  import Ownership

  type Pair = (u64, u32)

  predicate ReportOf(x: Entry, p: Pair) {
    x.Sent? && x.report.seid == p.0 && x.report.urrId == p.1
  }

  predicate UpdateOf(x: Entry, p: Pair) {
    x == Updated(p.0, p.1)
  }

  /** How many reports of a pair the log holds. */
  function SentCount(log: seq<Entry>, p: Pair): nat {
    if |log| == 0 then 0
    else SentCount(log[..|log| - 1], p) + if ReportOf(log[|log| - 1], p) then 1 else 0
  }

  ghost predicate UpdatedAfter(log: seq<Entry>, i: nat, p: Pair) {
    exists k: nat :: i < k < |log| && UpdateOf(log[k], p)
  }

  ghost predicate UpdatedBetween(log: seq<Entry>, i: nat, j: nat, p: Pair) {
    exists k: nat :: i < k < j && k < |log| && UpdateOf(log[k], p)
  }

  // The promises, entry by entry.

  /** The report at `j` carries as UR-SEQN the number of earlier reports of its URR (in u32 arithmetic). */
  ghost predicate Sequenced(log: seq<Entry>, j: nat) {
    j < |log| && log[j].Sent? ==>
      log[j].report.urSeqn == SentCount(log[..j], (log[j].report.seid, log[j].report.urrId)) % 0x1_0000_0000
  }

  /** A volume report at `j` reached its threshold, and an Update URR lies between it and any earlier one. */
  ghost predicate ThresholdOnce(log: seq<Entry>, j: nat) {
    j < |log| && log[j].Sent? && log[j].report.volth ==>
      && var r := log[j].report;
      && r.threshold.Some? && r.total >= r.threshold.value
      && forall i: nat :: i < j && ReportOf(log[i], (r.seid, r.urrId)) && log[i].report.volth
           ==> UpdatedBetween(log, i, j, (r.seid, r.urrId))
  }

  /** A periodic report at `j` is at least the period then in force after any earlier one. */
  ghost predicate PeriodKept(log: seq<Entry>, j: nat) {
    j < |log| && log[j].Sent? && log[j].report.perio ==>
      && var r := log[j].report;
      && r.period.Some?
      && forall i: nat :: i < j && ReportOf(log[i], (r.seid, r.urrId)) && log[i].report.perio
           ==> r.at >= log[i].report.at + r.period.value * SECOND
  }

  ghost predicate Kept(log: seq<Entry>) {
    forall j: nat :: j < |log| ==> Sequenced(log, j) && ThresholdOnce(log, j) && PeriodKept(log, j)
  }

  /** What a configuration remembers of its URR's history. */
  ghost predicate Remembers(c: UrrConfig, log: seq<Entry>, p: Pair) {
    && c.urSeqn == SentCount(log, p) % 0x1_0000_0000
    && (forall i: nat :: i < |log| && ReportOf(log[i], p) && log[i].report.perio ==> c.lastReport >= log[i].report.at)
    && (!c.thresholdReported ==>
          forall i: nat :: i < |log| && ReportOf(log[i], p) && log[i].report.volth ==> UpdatedAfter(log, i, p))
  }

  ghost predicate Below(log: seq<Entry>, bound: nat) {
    forall i: nat :: i < |log| && log[i].Sent? ==> log[i].report.seid < bound
  }

  ghost predicate Recorded(s: Srv, log: seq<Entry>) {
    && Kept(log) && Below(log, s.nextSeid)
    && forall p :: p in s.urrConfigs ==> p.0 < s.nextSeid && Remembers(s.urrConfigs[p], log, p)
  }

  // One appended entry.

  lemma CountAppend(log: seq<Entry>, x: Entry, p: Pair)
    ensures SentCount(log + [x], p) == SentCount(log, p) + if ReportOf(x, p) then 1 else 0
  {
    assert (log + [x])[..|log|] == log;
  }

  /** Entries already in the log keep their promises when it grows. */
  lemma KeptAppend(log: seq<Entry>, x: Entry)
    requires Kept(log)
    ensures forall j: nat :: j < |log| ==>
              Sequenced(log + [x], j) && ThresholdOnce(log + [x], j) && PeriodKept(log + [x], j)
  {
    forall j: nat | j < |log|
      ensures Sequenced(log + [x], j) && ThresholdOnce(log + [x], j) && PeriodKept(log + [x], j)
    {
      assert Sequenced(log, j) && ThresholdOnce(log, j) && PeriodKept(log, j);
      assert (log + [x])[..j] == log[..j];
      if log[j].Sent? && log[j].report.volth {
        var p := (log[j].report.seid, log[j].report.urrId);
        forall i: nat | i < j && ReportOf((log + [x])[i], p) && (log + [x])[i].report.volth
          ensures UpdatedBetween(log + [x], i, j, p)
        {
          assert ReportOf(log[i], p) && UpdatedBetween(log, i, j, p);
          var k: nat :| i < k < j && k < |log| && UpdateOf(log[k], p);
          assert UpdateOf((log + [x])[k], p);
        }
      }
    }
  }

  lemma RemembersAppendOther(c: UrrConfig, log: seq<Entry>, x: Entry, p: Pair)
    requires Remembers(c, log, p) && !ReportOf(x, p)
    ensures Remembers(c, log + [x], p)
  {
    CountAppend(log, x, p);
    UpdatedStays(log, x, p);
  }

  lemma UpdatedStays(log: seq<Entry>, x: Entry, p: Pair)
    ensures forall i: nat :: UpdatedAfter(log, i, p) ==> UpdatedAfter(log + [x], i, p)
  {
    forall i: nat | UpdatedAfter(log, i, p) ensures UpdatedAfter(log + [x], i, p) {
      var k: nat :| i < k < |log| && UpdateOf(log[k], p);
      assert UpdateOf((log + [x])[k], p);
    }
  }

  /** No report in the log is later than the tick's clock. */
  ghost predicate NotBefore(log: seq<Entry>, now: nat) {
    forall i: nat :: i < |log| && log[i].Sent? ==> log[i].report.at <= now
  }

  lemma TickOneRecorded(s: Srv, log: seq<Entry>, key: u64, sum: UrrStats, now: nat)
    requires Recorded(s, log) && NotBefore(log, now)
    ensures var (s', rs) := TickOne(s, key, sum, now);
            Recorded(s', log + Sends(rs)) && NotBefore(log + Sends(rs), now)
  {
    hide Kept, Remembers, VolumeDue, PeriodDue;
    var (s', rs) := TickOne(s, key, sum, now);
    if rs == [] {
      assert log + Sends(rs) == log;
    } else {
      var p, r := (SeidOf(key), IdOf(key)), rs[0];
      var x := Sent(r);
      assert Sends(rs) == [x];
      ReportKept(s, log, key, sum, now);
      forall q | q in s'.urrConfigs ensures q.0 < s'.nextSeid && Remembers(s'.urrConfigs[q], log + [x], q) {
        assert Remembers(s.urrConfigs[q], log, q);
        if q == p {
          ReportRemembered(s, log, key, sum, now);
        } else {
          RemembersAppendOther(s.urrConfigs[q], log, x, q);
        }
      }
    }
  }

  lemma ReportKept(s: Srv, log: seq<Entry>, key: u64, sum: UrrStats, now: nat)
    requires Recorded(s, log) && NotBefore(log, now) && TickOne(s, key, sum, now).1 != []
    ensures Kept(log + [Sent(TickOne(s, key, sum, now).1[0])])
  {
    hide Below, Elapsed;
    var r := TickOne(s, key, sum, now).1[0];
    var p, x := (r.seid, r.urrId), Sent(r);
    var c, log' := s.urrConfigs[p], log + [x];
    var n := |log|;
    KeptAppend(log, x);
    assert Remembers(c, log, p);
    assert log'[..n] == log && log'[n] == x;
    assert Sequenced(log', n);
    if r.volth {
      forall i: nat | i < n && ReportOf(log'[i], p) && log'[i].report.volth ensures UpdatedBetween(log', i, n, p) {
        assert ReportOf(log[i], p) && UpdatedAfter(log, i, p);
        var k: nat :| i < k < |log| && UpdateOf(log[k], p);
        assert UpdateOf(log'[k], p);
      }
    }
    assert ThresholdOnce(log', n);
    assert PeriodKept(log', n) by {
      if r.perio {
        DueAfterPeriod(c, now);
        forall i: nat | i < n && ReportOf(log'[i], p) && log'[i].report.perio
          ensures r.at >= log'[i].report.at + r.period.value * SECOND
        {
          assert ReportOf(log[i], p) && log[i].report.perio;
        }
      }
    }
  }

  lemma DueAfterPeriod(c: UrrConfig, now: nat)
    requires PeriodDue(c, now)
    ensures c.period.Some? && (now >= c.lastReport + c.period.value * SECOND || c.period.value == 0)
  {
  }

  lemma ReportRemembered(s: Srv, log: seq<Entry>, key: u64, sum: UrrStats, now: nat)
    requires Recorded(s, log) && NotBefore(log, now) && TickOne(s, key, sum, now).1 != []
    ensures var (s', rs) := TickOne(s, key, sum, now);
            var p := (SeidOf(key), IdOf(key));
            p in s'.urrConfigs && Remembers(s'.urrConfigs[p], log + [Sent(rs[0])], p)
  {
    hide Below, Kept, Elapsed;
    var (s', rs) := TickOne(s, key, sum, now);
    var p, x := (SeidOf(key), IdOf(key)), Sent(rs[0]);
    var c, c', log' := s.urrConfigs[p], s'.urrConfigs[p], log + [x];
    assert Remembers(c, log, p);
    CountAppend(log, x, p);
    UpdatedStays(log, x, p);
    if !c'.thresholdReported {
      forall i: nat | i < |log'| && ReportOf(log'[i], p) && log'[i].report.volth ensures UpdatedAfter(log', i, p) {
        assert i < |log| && ReportOf(log[i], p);
      }
    }
  }

  lemma {:induction false} TickAllRecorded(s: Srv, log: seq<Entry>, totals: seq<(u64, UrrStats)>, now: nat)
    requires Recorded(s, log) && NotBefore(log, now)
    ensures var (s', rs) := TickAll(s, totals, now);
            Recorded(s', log + Sends(rs)) && NotBefore(log + Sends(rs), now)
  {
    hide Recorded, NotBefore, TickOne;
    if |totals| == 0 {
      assert log + Sends([]) == log;
    } else {
      var n := |totals| - 1;
      TickAllRecorded(s, log, totals[..n], now);
      var (s1, r1) := TickAll(s, totals[..n], now);
      TickOneRecorded(s1, log + Sends(r1), totals[n].0, totals[n].1, now);
      var (s2, r2) := TickOne(s1, totals[n].0, totals[n].1, now);
      assert log + Sends(r1 + r2) == log + Sends(r1) + Sends(r2);
    }
  }

  // Update URRs.

  lemma {:induction false} UpdatesRecorded(s: Srv, log: seq<Entry>, seid: u64, upds: seq<ParsedUrr>)
    requires Recorded(s, log)
    ensures Recorded(s.(urrConfigs := Reconfigure(s.urrConfigs, seid, upds)), log + Updates(seid, upds))
  {
    if |upds| == 0 {
      assert log + Updates(seid, upds) == log && s == s.(urrConfigs := Reconfigure(s.urrConfigs, seid, upds));
    } else {
      var init, u := upds[..|upds| - 1], upds[|upds| - 1];
      UpdatesRecorded(s, log, seid, init);
      var s1, log1 := s.(urrConfigs := Reconfigure(s.urrConfigs, seid, init)), log + Updates(seid, init);
      UpdateRecorded(s1, log1, seid, u);
      assert log + Updates(seid, upds) == log1 + [Updated(seid, u.urrId)];
    }
  }

  lemma UpdateRecorded(s: Srv, log: seq<Entry>, seid: u64, u: ParsedUrr)
    requires Recorded(s, log)
    ensures var c, p := s.urrConfigs, (seid, u.urrId);
            Recorded(s.(urrConfigs := if p in c then c[p := Reconfigured(c[p], u)] else c), log + [Updated(seid, u.urrId)])
  {
    var x, p := Updated(seid, u.urrId), (seid, u.urrId);
    var log' := log + [x];
    KeptAppend(log, x);
    assert log'[|log|] == x;
    forall q | q in s.urrConfigs ensures Remembers(s.urrConfigs[q], log', q) {
      RemembersAppendOther(s.urrConfigs[q], log, x, q);
    }
    if p in s.urrConfigs {
      forall i: nat | i < |log'| && ReportOf(log'[i], p) && log'[i].report.volth ensures UpdatedAfter(log', i, p) {
        assert UpdateOf(log'[|log|], p);
      }
      assert Remembers(Reconfigured(s.urrConfigs[p], u), log', p);
    }
  }

  // New configurations start an empty history.

  lemma {:induction false} NoneSent(log: seq<Entry>, p: Pair)
    requires Below(log, p.0)
    ensures SentCount(log, p) == 0
  {
    if |log| > 0 {
      assert log[|log| - 1].Sent? ==> log[|log| - 1].report.seid < p.0;
      assert Below(log[..|log| - 1], p.0);
      NoneSent(log[..|log| - 1], p);
    }
  }

  lemma {:induction false} ConfigureRecorded(s: Srv, log: seq<Entry>, cp: u64, now: nat, urrs: seq<ParsedUrr>)
    requires Recorded(s, log) && s.nextSeid < TWO_48
    ensures Recorded(s.(nextSeid := s.nextSeid + 1, urrConfigs := Configure(s.urrConfigs, s.nextSeid, cp, now, urrs)), log)
  {
    if |urrs| > 0 {
      var u := urrs[|urrs| - 1];
      ConfigureRecorded(s, log, cp, now, urrs[..|urrs| - 1]);
      NoneSent(log, (s.nextSeid, u.urrId));
      assert Remembers(NewConfig(s.nextSeid, cp, now, u), log, (s.nextSeid, u.urrId));
    }
  }

  // Runs.

  /** The monotonic clock of a tick is not behind a report already sent. */
  ghost predicate Timely(w: World, e: Event) {
    SeidFits(w, e) && (e.ReporterTick? ==> NotBefore(w.log, e.now))
  }

  ghost predicate History(w: World) {
    Ownership.Numbers(w) && Recorded(w.st.srv, w.log)
  }

  lemma HistoryStep(w: World, e: Event)
    requires History(w) && Timely(w, e)
    ensures History(Step(w, e))
  {
    hide Kept, Remembers, Compose, FirstUeIp, FirstOhc, Configure, Reconfigure, LastTunnel, NewInfo, SentCount;
    Ownership.NumbersStep(w, e);
    var s, log := w.st.srv, w.log;
    if e.ReporterTick? {
      TickAllRecorded(s, log, e.totals, e.now);
      assert log + Sends([]) == log;
    } else if Accepting(e) {
      ConfigureRecorded(s, log, e.req.cpSeid, e.now, e.req.urrs);
    } else if Ownership.Changing(w, e) && e.req.Modify? {
      UpdatesRecorded(s, log, e.req.modSeid.value, e.req.updUrrs);
    }
  }

  /** Over any run: the reports of one URR are numbered 0, 1, 2, ...; a volume report met its threshold and is the
      only one until the next Update URR; periodic reports keep at least the period in force at the later one. */
  lemma ReportsKeepTheirPromises(n3: u32, ts: u32, ncpus: nat, es: seq<Event>)
    requires Along(Timely, Start(n3, ts, ncpus), es)
    ensures var log := Run(Start(n3, ts, ncpus), es).log;
            forall j: nat :: j < |log| ==> Sequenced(log, j) && ThresholdOnce(log, j) && PeriodKept(log, j)
  {
    forall w, e | History(w) && Timely(w, e) ensures History(Step(w, e)) {
      HistoryStep(w, e);
    }
    RunKeeps(History, Timely, Start(n3, ts, ncpus), es);
  }
}
