/** What one tick of the reporter sends, and when. */
module Ticks {
  import opened Bytes
  import opened Keys
  import opened Rules
  import opened Server
  import opened Counters
  import opened Reporter

  type Total64 = (u64, UrrStats)

  function PairOf(total: Total64): (u64, u32) {
    (SeidOf(total.0), IdOf(total.0))
  }

  function BytesOf(total: Total64): u64 {
    (total.1.ulBytes + total.1.dlBytes) % TWO_64
  }

  /** A periodic report is called for: the lowest trigger bit, a period, and that many seconds since the last report. */
  predicate PeriodicWanted(c: UrrConfig, now: nat) {
    && c.triggers % 2 == 1 && c.period.Some?
    && (c.period.value == 0 || now >= c.lastReport + c.period.value * 1_000_000_000)
  }

  /** A volume report is called for: any trigger but the highest, and a threshold reached and not yet reported. */
  predicate VolumeWanted(c: UrrConfig, bytes: u64) {
    && c.triggers != 0 && c.triggers != 0x80
    && c.threshold.Some? && bytes >= c.threshold.value && !c.thresholdReported
  }

  predicate About(r: Report, p: (u64, u32)) {
    r.seid == p.0 && r.urrId == p.1
  }

  /** The report for one total says why it was sent, under the configuration before, and what was measured. */
  predicate Tells(r: Report, c: UrrConfig, total: Total64, now: nat) {
    && About(r, PairOf(total))
    && r.perio == PeriodicWanted(c, now) && r.volth == VolumeWanted(c, BytesOf(total))
    && r.cpSeid == c.cpSeid && r.urSeqn == c.urSeqn && r.at == now
    && r.total == BytesOf(total) && r.ul == total.1.ulBytes && r.dl == total.1.dlBytes
    && r.threshold == c.threshold && r.period == c.period
  }

  predicate Wanted(c: UrrConfig, total: Total64, now: nat) {
    PeriodicWanted(c, now) || VolumeWanted(c, BytesOf(total))
  }

  /** What the tick leaves of the configuration. */
  function Afterwards(c: UrrConfig, total: Total64, now: nat): UrrConfig {
    c.(lastReport := if PeriodicWanted(c, now) then now else c.lastReport,
       thresholdReported := c.thresholdReported || VolumeWanted(c, BytesOf(total)),
       urSeqn := if Wanted(c, total, now) then (c.urSeqn + 1) % 0x1_0000_0000 else c.urSeqn)
  }

  predicate DistinctKeys(totals: seq<Total64>) {
    forall i, j :: 0 <= i < j < |totals| ==> totals[i].0 != totals[j].0
  }

  ghost predicate Answered(s: Srv, s': Srv, rs: seq<Report>, total: Total64, now: nat) {
    var p := PairOf(total);
    && (p !in s.urrConfigs ==> forall r :: r in rs ==> !About(r, p))
    && (p in s.urrConfigs ==>
          && (forall r :: r in rs && About(r, p) ==> Tells(r, s.urrConfigs[p], total, now))
          && ((exists r :: r in rs && About(r, p)) <==> Wanted(s.urrConfigs[p], total, now))
          && p in s'.urrConfigs && s'.urrConfigs[p] == Afterwards(s.urrConfigs[p], total, now))
  }

  ghost predicate AboutSome(r: Report, totals: seq<Total64>) {
    exists i :: 0 <= i < |totals| && About(r, PairOf(totals[i]))
  }

  lemma PairsDiffer(a: u64, b: u64)
    requires a != b
    ensures (SeidOf(a), IdOf(a)) != (SeidOf(b), IdOf(b))
  {
    ComposeUndoesSplit(a);
    ComposeUndoesSplit(b);
  }

  lemma DueIsWanted(c: UrrConfig, total: Total64, now: nat)
    ensures VolumeDue(c, Total(total.1)) <==> VolumeWanted(c, BytesOf(total))
    ensures PeriodDue(c, now) <==> PeriodicWanted(c, now)
  {
  }

  lemma TickOneAnswers(s: Srv, total: Total64, now: nat)
    ensures var (s', rs) := TickOne(s, total.0, total.1, now);
            && Answered(s, s', rs, total, now) && |rs| <= 1
            && (forall r :: r in rs ==> About(r, PairOf(total)))
            && (forall p :: p in s.urrConfigs && p != PairOf(total) ==> p in s'.urrConfigs && s'.urrConfigs[p] == s.urrConfigs[p])
            && s'.urrConfigs.Keys == s.urrConfigs.Keys
  {
    hide SeidOf, IdOf, VolumeDue, PeriodDue, VolumeWanted, PeriodicWanted;
    var p := PairOf(total);
    if p in s.urrConfigs {
      DueIsWanted(s.urrConfigs[p], total, now);
      var (s', rs) := TickOne(s, total.0, total.1, now);
      if Wanted(s.urrConfigs[p], total, now) {
        assert rs[0] in rs;
      }
    }
  }

  /** A tick over totals with distinct keys, as collected from a map: about each configured pair it sends a report exactly
      when a periodic or a volume report is called for, marked as what is called for, and no other; each pair gets at
      most one; and the configurations are updated accordingly, the others not at all. */
  lemma {:induction false} TickAllAnswers(s: Srv, totals: seq<Total64>, now: nat)
    requires DistinctKeys(totals)
    ensures var (s', rs) := TickAll(s, totals, now);
            && (forall i :: 0 <= i < |totals| ==> Answered(s, s', rs, totals[i], now))
            && (forall r :: r in rs ==> AboutSome(r, totals))
            && (forall i, j :: 0 <= i < j < |rs| ==> !About(rs[i], (rs[j].seid, rs[j].urrId)))
            && s'.urrConfigs.Keys == s.urrConfigs.Keys
            && (forall p :: p in s.urrConfigs && (forall i :: 0 <= i < |totals| ==> PairOf(totals[i]) != p)
                  ==> s'.urrConfigs[p] == s.urrConfigs[p])
  {
    hide Answered, TickOne, SeidOf, IdOf;
    if |totals| > 0 {
      var n := |totals| - 1;
      var init, last := totals[..n], totals[n];
      TickAllAnswers(s, init, now);
      var (s1, r1) := TickAll(s, init, now);
      TickOneAnswers(s1, last, now);
      var (s2, r2) := TickOne(s1, last.0, last.1, now);
      var rs := r1 + r2;
      forall i | 0 <= i < n ensures PairOf(totals[i]) != PairOf(last) {
        PairsDiffer(totals[i].0, last.0);
      }
      forall r | r in r1 ensures !About(r, PairOf(last)) && AboutSome(r, totals) {
        var i :| 0 <= i < |init| && About(r, PairOf(init[i]));
        assert About(r, PairOf(totals[i]));
      }
      forall r | r in r2 ensures AboutSome(r, totals) {
        assert About(r, PairOf(totals[n]));
      }
      forall i, j | 0 <= i < j < |rs| ensures !About(rs[i], (rs[j].seid, rs[j].urrId)) {
        if j == |r1| {
          assert rs[i] in r1 && rs[j] in r2 && (rs[j].seid, rs[j].urrId) == PairOf(last);
        }
      }
      forall i | 0 <= i < n ensures Answered(s, s2, rs, totals[i], now) {
        assert totals[i] == init[i];
        StillAnswered(s, s1, s2, r1, r2, totals[i], last, now);
      }
      NowAnswered(s, s1, s2, r1, r2, last, now);
    }
  }

  lemma StillAnswered(s: Srv, s1: Srv, s2: Srv, r1: seq<Report>, r2: seq<Report>, total: Total64, last: Total64, now: nat)
    requires Answered(s, s1, r1, total, now) && PairOf(total) != PairOf(last)
    requires forall r :: r in r2 ==> About(r, PairOf(last))
    requires forall p :: p in s1.urrConfigs && p != PairOf(last) ==> p in s2.urrConfigs && s2.urrConfigs[p] == s1.urrConfigs[p]
    ensures Answered(s, s2, r1 + r2, total, now)
  {
    hide Tells, Wanted, Afterwards, PairOf;
    var p := PairOf(total);
    assert forall r :: r in r1 + r2 && About(r, p) ==> r in r1;
    assert forall r :: r in r1 ==> r in r1 + r2;
  }

  lemma NowAnswered(s: Srv, s1: Srv, s2: Srv, r1: seq<Report>, r2: seq<Report>, last: Total64, now: nat)
    requires Answered(s1, s2, r2, last, now) && s1.urrConfigs.Keys == s.urrConfigs.Keys
    requires PairOf(last) in s.urrConfigs ==> s1.urrConfigs[PairOf(last)] == s.urrConfigs[PairOf(last)]
    requires forall r :: r in r1 ==> !About(r, PairOf(last))
    ensures Answered(s, s2, r1 + r2, last, now)
  {
    hide Tells, Wanted, Afterwards, PairOf;
    var p := PairOf(last);
    assert forall r :: r in r1 + r2 && About(r, p) ==> r in r2;
    assert forall r :: r in r2 ==> r in r1 + r2;
  }

  /** The same of a tick as a whole, which needs a known peer. */
  lemma TickAnswers(s: Srv, totals: seq<Total64>, now: nat)
    requires DistinctKeys(totals)
    ensures s.peer.None? ==> Tick(s, totals, now) == (s, [])
    ensures s.peer.Some? ==> var (s', rs) := Tick(s, totals, now);
              && (forall i :: 0 <= i < |totals| ==> Answered(s, s', rs, totals[i], now))
              && (forall r :: r in rs ==> AboutSome(r, totals))
  {
    hide TickAll, Answered, AboutSome;
    TickAllAnswers(s, totals, now);
  }
}
