/** A volume report against the packets forwarded: the reporter's tick, the counters and the runs put together. */
module Charging {
  import opened Bytes
  import opened Keys
  import opened Rules
  import opened Server
  import opened Counters
  import opened Reporter
  import opened World
  import Usage

  /** Totals formed from the URR map as it was then: of some of its entries, in any order. */
  ghost predicate CollectedFrom(totals: seq<(u64, UrrStats)>, urr: map<u64, seq<UrrStats>>) {
    forall i :: 0 <= i < |totals| ==> totals[i].0 in urr && totals[i].1 == SumOf(urr[totals[i].0])
  }

  /** Every tick works on totals collected at some earlier moment of the run. */
  ghost predicate Snapshots(w: World, es: seq<Event>) {
    forall i: nat :: i < |es| && es[i].ReporterTick? ==> CollectedBy(w, es, i)
  }

  ghost predicate CollectedBy(w: World, es: seq<Event>, i: nat)
    requires i < |es| && es[i].ReporterTick?
  {
    exists j: nat :: j <= i && CollectedFrom(es[i].totals, Run(w, es[..j]).st.maps.urr)
  }

  // What a tick reports.

  /** The report is about one of the collected totals, and says volume only if that reached the threshold. */
  ghost predicate FromTotals(r: Report, totals: seq<(u64, UrrStats)>) {
    exists i :: 0 <= i < |totals| && AboutTotal(r, totals[i])
  }

  predicate AboutTotal(r: Report, total: (u64, UrrStats)) {
    && r.seid == SeidOf(total.0) && r.urrId == IdOf(total.0) && r.total == Total(total.1)
    && (r.volth ==> r.threshold.Some? && r.total >= r.threshold.value)
  }

  lemma {:induction false} TickReports(s: Srv, totals: seq<(u64, UrrStats)>, now: nat, r: Report)
    requires r in TickAll(s, totals, now).1
    ensures FromTotals(r, totals)
  {
    hide Total, SeidOf, IdOf, PeriodDue;
    var n := |totals| - 1;
    var (s1, r1) := TickAll(s, totals[..n], now);
    if r in r1 {
      TickReports(s, totals[..n], now, r);
      var i :| 0 <= i < |totals[..n]| && AboutTotal(r, totals[..n][i]);
      assert AboutTotal(r, totals[i]);
    } else {
      assert AboutTotal(r, totals[n]);
    }
  }

  /** Step `i` of the run is a tick that sends the report. */
  ghost predicate SentAt(w: World, es: seq<Event>, i: nat, r: Report) {
    && i < |es| && es[i].ReporterTick?
    && r in Tick(Run(w, es[..i]).st.srv, es[i].totals, es[i].now).1
  }

  /** Every logged report was sent by some tick of the run. */
  lemma {:induction false} ReportsAreSent(w: World, es: seq<Event>, k: nat)
    requires w.log == [] && k < |Run(w, es).log| && Run(w, es).log[k].Sent?
    ensures exists i: nat :: SentAt(w, es, i, Run(w, es).log[k].report)
    decreases |es|
  {
    hide Tick, RequestStep, BooksAfter, UplinkStep;
    if |es| > 0 {
      RunLast(w, es);
      var init, e := es[..|es| - 1], es[|es| - 1];
      var before, r := Run(w, init), Run(w, es).log[k].report;
      if k < |before.log| {
        ReportsAreSent(w, init, k);
        var i: nat :| SentAt(w, init, i, r);
        assert init[..i] == es[..i];
        assert SentAt(w, es, i, r);
      } else {
        assert SentAt(w, es, |es| - 1, r);
      }
    }
  }

  lemma {:induction false} OpsConcat(w: World, a: seq<Event>, b: seq<Event>)
    ensures Usage.OpsAlong(w, a + b) == Usage.OpsAlong(w, a) + Usage.OpsAlong(Run(w, a), b)
    decreases |a|
  {
    hide Step, Usage.OpsAt;
    if |a| == 0 {
      assert a + b == b;
    } else {
      assert (a + b)[1..] == a[1..] + b;
      OpsConcat(Step(w, a[0]), a[1..], b);
    }
  }

  lemma ProperPrefix(w: World, es: seq<Event>, j: nat, ncpus: nat)
    requires j <= |es| && Usage.AllProper(Usage.OpsAlong(w, es), ncpus)
    ensures Usage.AllProper(Usage.OpsAlong(w, es[..j]), ncpus)
  {
    hide Usage.OpsAlong, Proper;
    OpsConcat(w, es[..j], es[j..]);
    assert es[..j] + es[j..] == es;
    assert forall op :: op in Usage.OpsAlong(w, es[..j]) ==> op in Usage.OpsAlong(w, es);
  }

  /** The bytes forwarded for the report's session and URR up to moment `j`, since the entry was last made. */
  ghost function Forwarded(w: World, es: seq<Event>, j: nat, r: Report): Option<nat>
    requires j <= |es|
  {
    Counted(Usage.OpsAlong(w, es[..j]), r.seid, r.urrId)
  }

  ghost predicate Earned(w: World, es: seq<Event>, j: nat, r: Report)
    requires j <= |es|
  {
    && Forwarded(w, es, j, r).Some? && r.total == Forwarded(w, es, j, r).value % TWO_64
    && (r.volth ==> r.threshold.Some? && Forwarded(w, es, j, r).value >= r.threshold.value)
  }

  lemma TotalIsForwarded(n3: u32, ts: u32, ncpus: nat, es: seq<Event>, j: nat, r: Report, total: (u64, UrrStats))
    requires Usage.AllProper(Usage.OpsAlong(Start(n3, ts, ncpus), es), ncpus) && j <= |es|
    requires var urr := Run(Start(n3, ts, ncpus), es[..j]).st.maps.urr; total.0 in urr && total.1 == SumOf(urr[total.0])
    requires AboutTotal(r, total)
    ensures Earned(Start(n3, ts, ncpus), es, j, r)
  {
    hide Usage.OpsAlong, Proper, SumOf, Total, Counted, SeidOf, IdOf, Run, Usage.AllProper;
    ProperPrefix(Start(n3, ts, ncpus), es, j, ncpus);
    Usage.ReportedIsForwarded(n3, ts, ncpus, es[..j], total.0);
  }

  /** In any run whose ticks work on totals collected in it: every report carries the bytes forwarded for its session
      and URR by some moment before it, and a volume report is sent only after at least the threshold was forwarded. */
  lemma VolumeIsEarned(n3: u32, ts: u32, ncpus: nat, es: seq<Event>, k: nat)
    requires Usage.AllProper(Usage.OpsAlong(Start(n3, ts, ncpus), es), ncpus) && Snapshots(Start(n3, ts, ncpus), es)
    requires var log := Run(Start(n3, ts, ncpus), es).log; k < |log| && log[k].Sent?
    ensures var start := Start(n3, ts, ncpus);
            var r := Run(start, es).log[k].report;
            exists i: nat, j: nat :: j <= i < |es| && SentAt(start, es, i, r) && Earned(start, es, j, r)
  {
    hide Usage.OpsAlong, Proper, SumOf, AboutTotal, Run, TickAll, Usage.AllProper, Earned;
    var start := Start(n3, ts, ncpus);
    var r := Run(start, es).log[k].report;
    ReportsAreSent(start, es, k);
    var i: nat :| SentAt(start, es, i, r);
    TickReports(Run(start, es[..i]).st.srv, es[i].totals, es[i].now, r);
    assert CollectedBy(start, es, i);
    var j: nat :| j <= i && CollectedFrom(es[i].totals, Run(start, es[..j]).st.maps.urr);
    var l :| 0 <= l < |es[i].totals| && AboutTotal(r, es[i].totals[l]);
    TotalIsForwarded(n3, ts, ncpus, es, j, r, es[i].totals[l]);
  }
}
