/** The usage reporter: one tick sums the counters and sends a report for every trigger that is due. */
module Reporter {
  import opened Bytes
  import opened Keys
  import opened Rules
  import opened Server
  import opened Counters
  import opened PfcpServers

  /** Clock readings count nanoseconds; periods are configured in seconds. */
  const SECOND: nat := 1_000_000_000
  const TRIGGER_PERIO: u8 := 0x01
  const TRIGGER_VOLTH: u8 := 0x02

  /** A Session Report Request; `seid`, `at` and `period` record for which session, when, and under which period. */
  datatype Report = Report(
    seqNum: u32, cpSeid: u64, seid: u64, urrId: u32, urSeqn: u32, volth: bool, perio: bool,
    total: u64, ul: u64, dl: u64, at: nat, threshold: Option<u64>, period: Option<u32>)

  /** The volume branch is entered when the u8 product of triggers and VOLTH is nonzero. */
  predicate VolumeDue(c: UrrConfig, total: u64) {
    (c.triggers * TRIGGER_VOLTH) % 0x100 != 0 && c.threshold.Some? && total >= c.threshold.value && !c.thresholdReported
  }

  function Elapsed(since: nat, now: nat): nat {
    if now >= since then now - since else 0
  }

  predicate PeriodDue(c: UrrConfig, now: nat) {
    Bit(c.triggers, TRIGGER_PERIO) && c.period.Some? && Elapsed(c.lastReport, now) >= c.period.value * SECOND
  }

  function TickOne(s: Srv, key: u64, sum: UrrStats, now: nat): (Srv, seq<Report>) {
    var id := (SeidOf(key), IdOf(key));
    if id !in s.urrConfigs then (s, [])
    else
      var c, total := s.urrConfigs[id], Total(sum);
      var volth, perio := VolumeDue(c, total), PeriodDue(c, now);
      if !volth && !perio then (s, [])
      else
        var c' := c.(thresholdReported := c.thresholdReported || volth,
                     lastReport := if perio then now else c.lastReport,
                     urSeqn := (c.urSeqn + 1) % 0x1_0000_0000);
        (s.(urrConfigs := s.urrConfigs[id := c'], nextReportSeq := (s.nextReportSeq + 1) % 0x1_0000_0000),
         [Report(s.nextReportSeq, c.cpSeid, id.0, id.1, c.urSeqn, volth, perio,
                 total, sum.ulBytes, sum.dlBytes, now, c.threshold, c.period)])
  }

  function TickAll(s: Srv, totals: seq<(u64, UrrStats)>, now: nat): (Srv, seq<Report>) {
    if |totals| == 0 then (s, [])
    else
      var n := |totals| - 1;
      var (s1, r1) := TickAll(s, totals[..n], now);
      var (s2, r2) := TickOne(s1, totals[n].0, totals[n].1, now);
      (s2, r1 + r2)
  }

  /** Without a known peer a tick does nothing. */
  function Tick(s: Srv, totals: seq<(u64, UrrStats)>, now: nat): (Srv, seq<Report>) {
    if s.peer.None? then (s, []) else TickAll(s, totals, now)
  }

  /** Each entry of the URR map once, in the order the map is walked. */
  method CollectTotals(maps: SharedMaps) returns (totals: seq<(u64, UrrStats)>)
    ensures forall i, j :: 0 <= i < j < |totals| ==> totals[i].0 != totals[j].0
    ensures forall k :: k in maps.urr <==> exists i :: 0 <= i < |totals| && totals[i].0 == k
    ensures forall i :: 0 <= i < |totals| ==> totals[i].0 in maps.urr && totals[i].1 == SumOf(maps.urr[totals[i].0])
  {
    totals := [];
    var rest := maps.urr.Keys;
    while rest != {}
      invariant rest <= maps.urr.Keys
      invariant forall i :: 0 <= i < |totals| ==> totals[i].0 in maps.urr && totals[i].0 !in rest
      invariant forall i :: 0 <= i < |totals| ==> totals[i].0 in maps.urr && totals[i].1 == SumOf(maps.urr[totals[i].0])
      invariant forall i, j :: 0 <= i < j < |totals| ==> totals[i].0 != totals[j].0
      invariant forall k :: k in maps.urr && k !in rest ==> exists i :: 0 <= i < |totals| && totals[i].0 == k
      decreases rest
    {
      var k :| k in rest;
      var sum := SumPerCpu(maps.urr[k]);
      ghost var before := totals;
      totals := totals + [(k, sum)];
      rest := rest - {k};
      assert totals[|before|].0 == k;
      forall k' | k' in maps.urr && k' !in rest ensures exists i :: 0 <= i < |totals| && totals[i].0 == k' {
        if k' != k {
          var i :| 0 <= i < |before| && before[i].0 == k';
          assert totals[i].0 == k';
        }
      }
    }
  }

  lemma TickNext(s: Srv, totals: seq<(u64, UrrStats)>, i: nat, now: nat)
    requires i < |totals|
    ensures TickAll(s, totals[..i + 1], now)
            == var (s1, r1) := TickAll(s, totals[..i], now);
               var (s2, r2) := TickOne(s1, totals[i].0, totals[i].1, now); (s2, r1 + r2)
  {
    hide TickOne;
    assert totals[..i + 1][..i] == totals[..i];
  }

  method ReportDue(srv: PfcpServer, totals: seq<(u64, UrrStats)>, now: nat) returns (reports: seq<Report>)
    modifies srv
    ensures (srv.Tables(), reports) == Tick(old(srv.Tables()), totals, now)
  {
    reports := [];
    if srv.peer.None? {
      return;
    }
    var i := 0;
    while i < |totals|
      invariant i <= |totals|
      invariant (srv.Tables(), reports) == TickAll(old(srv.Tables()), totals[..i], now)
    {
      var (key, sum) := totals[i];
      TickNext(old(srv.Tables()), totals, i, now);
      hide TickAll;
      ghost var before := srv.Tables();
      assert reports + [] == reports;
      i := i + 1;
      var id := (SeidOf(key), IdOf(key));
      if id !in srv.urrConfigs {
        continue;
      }
      var cfg := srv.urrConfigs[id];
      var total := (sum.ulBytes + sum.dlBytes) % TWO_64;
      var volth, perio := false, false;
      if (cfg.triggers * TRIGGER_VOLTH) % 0x100 != 0 {
        if cfg.threshold.Some? && total >= cfg.threshold.value && !cfg.thresholdReported {
          volth := true;
          cfg := cfg.(thresholdReported := true);
        }
      }
      if Bit(cfg.triggers, TRIGGER_PERIO) {
        if cfg.period.Some? && Elapsed(cfg.lastReport, now) >= cfg.period.value * SECOND {
          perio := true;
          cfg := cfg.(lastReport := now);
        }
      }
      if !volth && !perio {
        continue;
      }
      assert volth == VolumeDue(before.urrConfigs[id], total) && perio == PeriodDue(before.urrConfigs[id], now);
      hide VolumeDue, PeriodDue;
      var urSeqn := cfg.urSeqn;
      cfg := cfg.(urSeqn := (cfg.urSeqn + 1) % 0x1_0000_0000);
      srv.urrConfigs := srv.urrConfigs[id := cfg];
      var seqNum := srv.AllocReportSeq();
      reports := reports + [Report(seqNum, cfg.cpSeid, id.0, id.1, urSeqn, volth, perio,
                                   total, sum.ulBytes, sum.dlBytes, now, cfg.threshold, cfg.period)];
    }
    assert totals[..|totals|] == totals;
  }
}
