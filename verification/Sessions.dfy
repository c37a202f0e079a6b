/** What the tables hold about a session, from its history: its tunnel, and the configurations of its URRs. */
module Sessions {
  import opened Bytes
  import opened Keys
  import opened Rules
  import opened Server
  import opened Counters
  import opened Views
  import opened World
  import opened Reporter
  import opened Reports
  import Numbering
  import Ownership

  // The first PDR with a UE address and the first FAR with a tunnel.

  predicate FirstAddressAt(pdrs: seq<ParsedPdr>, i: nat) {
    i < |pdrs| && pdrs[i].ueIp.Some? && forall j :: 0 <= j < i ==> pdrs[j].ueIp.None?
  }

  predicate FirstTunnelAt(fars: seq<ParsedFar>, i: nat) {
    i < |fars| && fars[i].ohc.Some? && forall j :: 0 <= j < i ==> fars[j].ohc.None?
  }

  lemma {:induction false} FirstUeIpIff(pdrs: seq<ParsedPdr>, a: u32)
    ensures FirstUeIp(pdrs) == Some(a) <==> exists i: nat :: FirstAddressAt(pdrs, i) && pdrs[i].ueIp == Some(a)
    ensures FirstUeIp(pdrs).None? <==> forall p :: p in pdrs ==> p.ueIp.None?
  {
    if |pdrs| > 0 {
      FirstUeIpIff(pdrs[1..], a);
      if pdrs[0].ueIp.Some? {
        assert FirstAddressAt(pdrs, 0);
      } else {
        forall i: nat ensures FirstAddressAt(pdrs[1..], i) <==> FirstAddressAt(pdrs, i + 1) {
        }
        if i: nat :| FirstAddressAt(pdrs, i) && pdrs[i].ueIp == Some(a) {
          assert FirstAddressAt(pdrs[1..], i - 1);
        }
        if i: nat :| FirstAddressAt(pdrs[1..], i) && pdrs[1..][i].ueIp == Some(a) {
          assert FirstAddressAt(pdrs, i + 1);
        }
      }
    }
  }

  lemma {:induction false} FirstOhcIff(fars: seq<ParsedFar>, h: HeaderCreation)
    ensures FirstOhc(fars) == Some(h) <==> exists i: nat :: FirstTunnelAt(fars, i) && fars[i].ohc == Some(h)
    ensures FirstOhc(fars).None? <==> forall f :: f in fars ==> f.ohc.None?
  {
    if |fars| > 0 {
      FirstOhcIff(fars[1..], h);
      if fars[0].ohc.Some? {
        assert FirstTunnelAt(fars, 0);
      } else {
        if i: nat :| FirstTunnelAt(fars, i) && fars[i].ohc == Some(h) {
          assert FirstTunnelAt(fars[1..], i - 1);
        }
        if i: nat :| FirstTunnelAt(fars[1..], i) && fars[1..][i].ohc == Some(h) {
          assert FirstTunnelAt(fars, i + 1);
        }
      }
    }
  }

  // The session's tunnel.

  /** An Update FAR that moves the session: a tunnel towards the access side. */
  predicate Moves(u: ParsedFar) {
    u.destInterface == Some(0) && u.ohc.Some?
  }

  predicate LastMoveAt(asked: seq<ParsedFar>, i: nat) {
    i < |asked| && Moves(asked[i]) && forall j :: i < j < |asked| ==> !Moves(asked[j])
  }

  /** `h` is the tunnel of the last moving update, and None if there is none. */
  ghost predicate LastMove(asked: seq<ParsedFar>, h: Option<HeaderCreation>) {
    if h.Some? then exists i: nat :: LastMoveAt(asked, i) && asked[i].ohc == h
    else forall u :: u in asked ==> !Moves(u)
  }

  lemma {:induction false} LastTunnelIsLastMove(upds: seq<ParsedFar>)
    ensures LastMove(upds, LastTunnel(upds))
  {
    if |upds| > 0 {
      var init, n := upds[..|upds| - 1], |upds| - 1;
      LastTunnelIsLastMove(init);
      if Moves(upds[n]) {
        assert LastMoveAt(upds, n);
      } else if LastTunnel(init).Some? {
        var i: nat :| LastMoveAt(init, i) && init[i].ohc == LastTunnel(init);
        assert LastMoveAt(upds, i);
      }
    }
  }

  lemma LastMoveConcat(a: seq<ParsedFar>, b: seq<ParsedFar>, h: Option<HeaderCreation>, g: Option<HeaderCreation>)
    requires LastMove(a, h) && LastMove(b, g)
    ensures LastMove(a + b, if g.Some? then g else h)
  {
    if g.Some? {
      var i: nat :| LastMoveAt(b, i) && b[i].ohc == g;
      assert (a + b)[|a| + i] == b[i];
      assert LastMoveAt(a + b, |a| + i);
    } else if h.Some? {
      var i: nat :| LastMoveAt(a, i) && a[i].ohc == h;
      assert LastMoveAt(a + b, i);
    }
  }

  /** The first UE address of the PDRs, and the tunnel of the last moving update; before any, the peer of the first FAR
      with a tunnel and the TEID allocated with the SEID. */
  ghost predicate DataFollows(d: SessionData, b: RuleBook, t: u64) {
    && (exists i: nat :: FirstAddressAt(b.pdrs, i) && b.pdrs[i].ueIp == Some(d.ueIp))
    && exists h: Option<HeaderCreation> :: LastMove(b.history.asked, h) && TunnelFrom(d, b, t, h)
  }

  ghost predicate TunnelFrom(d: SessionData, b: RuleBook, t: u64, h: Option<HeaderCreation>) {
    if h.Some? then d.gnbIp == h.value.peerAddr && d.teid == h.value.teid
    else
      && d.teid == (t + 999) % 0x1_0000_0000
      && exists i: nat :: FirstTunnelAt(b.history.created, i) && d.gnbIp == b.history.created[i].ohc.value.peerAddr
  }

  ghost predicate Followed(w: World) {
    && Ownership.Numbers(w) && Numbering.InStep(w)
    && forall t :: t in w.st.srv.sessions ==> DataFollows(w.st.srv.sessions[t], w.books[t], t)
  }

  lemma OpenedFollows(w: World, e: Event)
    requires Followed(w) && Numbered(w, e) && Accepting(e)
    ensures var w', t := Step(w, e), w.st.srv.nextSeid;
            t in w'.st.srv.sessions && t in w'.books && DataFollows(w'.st.srv.sessions[t], w'.books[t], t)
  {
    hide InstallPdrs, InstallFars, InstallUrrs, Configure, NewInfo, FirstUeIp, FirstOhc, Created, Listed;
    var w', t, h := Step(w, e), w.st.srv.nextSeid, FirstOhc(e.req.fars).value;
    FirstUeIpIff(e.req.pdrs, FirstUeIp(e.req.pdrs).value);
    FirstOhcIff(e.req.fars, h);
    assert LastMove(w'.books[t].history.asked, None);
    assert TunnelFrom(w'.st.srv.sessions[t], w'.books[t], t, None);
  }

  lemma MovedFollows(d: SessionData, b: RuleBook, t: u64, fars: seq<ParsedFar>, urrs: seq<ParsedUrr>)
    requires DataFollows(d, b, t)
    ensures DataFollows(WithTunnel(d, LastTunnel(fars)), UpdatedBook(b, fars, urrs), t)
  {
    hide LastMove, LastTunnel, PatchedRules, PatchedUrrs;
    var h :| LastMove(b.history.asked, h) && TunnelFrom(d, b, t, h);
    LastTunnelIsLastMove(fars);
    LastMoveConcat(b.history.asked, fars, h, LastTunnel(fars));
    var g := if LastTunnel(fars).Some? then LastTunnel(fars) else h;
    assert TunnelFrom(WithTunnel(d, LastTunnel(fars)), UpdatedBook(b, fars, urrs), t, g);
  }

  lemma FollowedStep(w: World, e: Event)
    requires Followed(w) && Numbered(w, e)
    ensures Followed(Step(w, e))
  {
    hide InstallPdrs, InstallFars, InstallUrrs, Configure, PatchFars, Reconfigure, DeleteMaps, NewInfo, UplinkStep,
         LastTunnel, FirstUeIp, FirstOhc, Created, Listed, Unlisted, DataFollows, UpdatedBook, NewBook, WithTunnel;
    Ownership.NumbersStep(w, e);
    Numbering.InStepStep(w, e);
    if e.ReporterTick? {
      Ownership.TickAllKeeps(w.st.srv, e.totals, e.now);
    } else if Accepting(e) {
      OpenedFollows(w, e);
    } else if Ownership.Changing(w, e) && e.req.Modify? {
      var t := e.req.modSeid.value;
      MovedFollows(w.st.srv.sessions[t], w.books[t], t, e.req.updFars, e.req.updUrrs);
    }
  }

  /** After any run each live session has the UE address of its first PDR with one, and the gNB and TEID of the last
      accepted Update FAR with a tunnel towards the access side; before any such update, the gNB of its first FAR with a
      tunnel and the TEID allocated to it. */
  lemma SessionsFollowHistory(n3: u32, ts: u32, ncpus: nat, es: seq<Event>)
    requires Along(Numbered, Start(n3, ts, ncpus), es)
    ensures var w := Run(Start(n3, ts, ncpus), es);
            forall t :: t in w.st.srv.sessions ==> t in w.books && DataFollows(w.st.srv.sessions[t], w.books[t], t)
  {
    forall w, e | Followed(w) && Numbered(w, e) ensures Followed(Step(w, e)) {
      FollowedStep(w, e);
    }
    RunKeeps(Followed, Numbered, Start(n3, ts, ncpus), es);
  }

  // URR configurations.

  /** The last rule of the list with the id. */
  function LastUrr(urrs: seq<ParsedUrr>, id: u32): (r: Option<ParsedUrr>)
    ensures r.Some? ==> r.value in urrs && r.value.urrId == id
    ensures r.None? <==> forall u :: u in urrs ==> u.urrId != id
  {
    if |urrs| == 0 then None
    else if urrs[|urrs| - 1].urrId == id then Some(urrs[|urrs| - 1]) else LastUrr(urrs[..|urrs| - 1], id)
  }

  lemma {:induction false} LastUrrPatched(urrs: seq<ParsedUrr>, u: ParsedUrr, id: u32)
    ensures LastUrr(PatchUrrs(urrs, u), id)
            == if LastUrr(urrs, id).Some? && id == u.urrId then Some(u) else LastUrr(urrs, id)
  {
    if |urrs| > 0 {
      var init := urrs[..|urrs| - 1];
      assert PatchUrrs(urrs, u)[..|urrs| - 1] == PatchUrrs(init, u);
      LastUrrPatched(init, u, id);
    }
  }

  predicate PeriodicOf(x: Entry, p: Pair) {
    ReportOf(x, p) && x.report.perio
  }

  predicate LastPeriodicAt(log: seq<Entry>, p: Pair, i: nat) {
    i < |log| && PeriodicOf(log[i], p) && forall j :: i < j < |log| ==> !PeriodicOf(log[j], p)
  }

  /** The time of the last periodic report, or of the establishment before any. */
  ghost predicate LastReportAt(log: seq<Entry>, p: Pair, since: nat, at: nat) {
    if forall x :: x in log ==> !PeriodicOf(x, p) then at == since
    else exists i: nat :: LastPeriodicAt(log, p, i) && log[i].report.at == at
  }

  /** A volume report was sent and no Update URR came after it. */
  ghost predicate VolumeReported(log: seq<Entry>, p: Pair) {
    exists i: nat :: VolumeStandsAt(log, p, i)
  }

  ghost predicate VolumeStandsAt(log: seq<Entry>, p: Pair, i: nat) {
    i < |log| && ReportOf(log[i], p) && log[i].report.volth && !UpdatedAfter(log, i, p)
  }

  /** The configuration that a rule and the history of its reports and updates call for. */
  ghost predicate ConfigFollows(c: UrrConfig, u: ParsedUrr, log: seq<Entry>, p: Pair, since: nat) {
    && c.seid == p.0 && c.urrId == p.1
    && c.measures == u.measures && c.triggers == u.triggers && c.threshold == u.threshold && c.period == u.period
    && c.urSeqn == SentCount(log, p) % 0x1_0000_0000
    && LastReportAt(log, p, since, c.lastReport)
    && (c.thresholdReported <==> VolumeReported(log, p))
  }

  /** Under every pair of a session and a URR id: a configuration exactly when a rule of the session has the id, and then
      the one called for. */
  ghost predicate ConfiguredFor(c: map<(u64, u32), UrrConfig>, log: seq<Entry>, b: RuleBook, t: u64, id: u32) {
    var u := LastUrr(b.urrs, id);
    && ((t, id) in c <==> u.Some?)
    && ((t, id) in c ==> ConfigFollows(c[(t, id)], u.value, log, (t, id), b.history.since))
  }

  ghost predicate Configurations(c: map<(u64, u32), UrrConfig>, log: seq<Entry>, books: map<u64, RuleBook>) {
    && (forall p :: p in c ==> p.0 in books)
    && forall t, id: u32 :: t in books ==> ConfiguredFor(c, log, books[t], t, id)
  }

  // One appended entry.

  lemma AppendOther(c: UrrConfig, u: ParsedUrr, log: seq<Entry>, x: Entry, p: Pair, since: nat)
    requires ConfigFollows(c, u, log, p, since) && !ReportOf(x, p) && !UpdateOf(x, p)
    ensures ConfigFollows(c, u, log + [x], p, since)
  {
    CountAppend(log, x, p);
    PeriodicAppend(log, x, p, since, c.lastReport);
    VolumeAppend(log, x, p);
  }

  lemma PeriodicAppend(log: seq<Entry>, x: Entry, p: Pair, since: nat, at: nat)
    requires LastReportAt(log, p, since, at)
    ensures LastReportAt(log + [x], p, since, if PeriodicOf(x, p) then x.report.at else at)
  {
    var log' := log + [x];
    assert log'[|log|] == x;
    if PeriodicOf(x, p) {
      assert x in log' && LastPeriodicAt(log', p, |log|);
    } else if !(forall y :: y in log ==> !PeriodicOf(y, p)) {
      var i: nat :| LastPeriodicAt(log, p, i) && log[i].report.at == at;
      assert LastPeriodicAt(log', p, i) && log'[i] in log';
    }
  }

  lemma VolumeAppend(log: seq<Entry>, x: Entry, p: Pair)
    ensures VolumeReported(log + [x], p)
            <==> !UpdateOf(x, p) && (VolumeReported(log, p) || (ReportOf(x, p) && x.report.volth))
  {
    var log' := log + [x];
    assert log'[|log|] == x;
    forall i: nat | i < |log| ensures UpdatedAfter(log', i, p) <==> UpdatedAfter(log, i, p) || UpdateOf(x, p) {
      if UpdatedAfter(log, i, p) {
        var k: nat :| i < k < |log| && UpdateOf(log[k], p);
        assert UpdateOf(log'[k], p);
      }
      if UpdateOf(x, p) {
        assert UpdateOf(log'[|log|], p);
      }
    }
    if i: nat :| VolumeStandsAt(log', p, i) {
      assert i < |log| ==> VolumeStandsAt(log, p, i);
    }
    if !UpdateOf(x, p) {
      if i: nat :| VolumeStandsAt(log, p, i) {
        assert VolumeStandsAt(log', p, i);
      }
      if ReportOf(x, p) && x.report.volth {
        assert VolumeStandsAt(log', p, |log|);
      }
    }
  }

  lemma AppendUpdate(c: UrrConfig, u: ParsedUrr, log: seq<Entry>, v: ParsedUrr, p: Pair, since: nat)
    requires ConfigFollows(c, u, log, p, since) && v.urrId == p.1
    ensures ConfigFollows(Reconfigured(c, v), v, log + [Updated(p.0, p.1)], p, since)
  {
    var x := Updated(p.0, p.1);
    CountAppend(log, x, p);
    PeriodicAppend(log, x, p, since, c.lastReport);
    VolumeAppend(log, x, p);
  }

  // Steps.

  lemma TickOneConfigures(s: Srv, log: seq<Entry>, books: map<u64, RuleBook>, key: u64, sum: UrrStats, now: nat)
    requires Configurations(s.urrConfigs, log, books)
    ensures var (s', rs) := TickOne(s, key, sum, now); Configurations(s'.urrConfigs, log + Sends(rs), books)
  {
    hide ConfigFollows, VolumeDue, PeriodDue, SeidOf, IdOf, Total;
    var (s', rs) := TickOne(s, key, sum, now);
    if rs == [] {
      assert log + Sends(rs) == log;
    } else {
      var p, x := (SeidOf(key), IdOf(key)), Sent(rs[0]);
      assert Sends(rs) == [x];
      forall t, id: u32 | t in books ensures ConfiguredFor(s'.urrConfigs, log + [x], books[t], t, id) {
        assert ConfiguredFor(s.urrConfigs, log, books[t], t, id);
        if (t, id) in s.urrConfigs {
          var c, u := s.urrConfigs[(t, id)], LastUrr(books[t].urrs, id).value;
          if (t, id) == p {
            AppendReport(s, log, key, sum, now, u, books[t].history.since);
          } else {
            AppendOther(c, u, log, x, (t, id), books[t].history.since);
          }
        }
      }
    }
  }

  lemma AppendReport(s: Srv, log: seq<Entry>, key: u64, sum: UrrStats, now: nat, u: ParsedUrr, since: nat)
    requires var p := (SeidOf(key), IdOf(key)); p in s.urrConfigs && ConfigFollows(s.urrConfigs[p], u, log, p, since)
    requires TickOne(s, key, sum, now).1 != []
    ensures var (s', rs) := TickOne(s, key, sum, now);
            var p := (SeidOf(key), IdOf(key));
            p in s'.urrConfigs && ConfigFollows(s'.urrConfigs[p], u, log + [Sent(rs[0])], p, since)
  {
    hide VolumeDue, PeriodDue, SeidOf, IdOf, Total;
    var p, x := (SeidOf(key), IdOf(key)), Sent(TickOne(s, key, sum, now).1[0]);
    CountAppend(log, x, p);
    PeriodicAppend(log, x, p, since, s.urrConfigs[p].lastReport);
    VolumeAppend(log, x, p);
    hide LastReportAt, VolumeReported, SentCount;
  }

  lemma {:induction false} TickAllConfigures(s: Srv, log: seq<Entry>, books: map<u64, RuleBook>, totals: seq<(u64, UrrStats)>, now: nat)
    requires Configurations(s.urrConfigs, log, books)
    ensures var (s', rs) := TickAll(s, totals, now); Configurations(s'.urrConfigs, log + Sends(rs), books)
  {
    hide Configurations, TickOne;
    if |totals| == 0 {
      assert log + Sends([]) == log;
    } else {
      var n := |totals| - 1;
      TickAllConfigures(s, log, books, totals[..n], now);
      var (s1, r1) := TickAll(s, totals[..n], now);
      TickOneConfigures(s1, log + Sends(r1), books, totals[n].0, totals[n].1, now);
      var (s2, r2) := TickOne(s1, totals[n].0, totals[n].1, now);
      assert log + Sends(r1 + r2) == log + Sends(r1) + Sends(r2);
    }
  }

  lemma UpdateConfigures(c: map<(u64, u32), UrrConfig>, log: seq<Entry>, books: map<u64, RuleBook>, t: u64, v: ParsedUrr)
    requires Configurations(c, log, books) && t in books
    ensures Configurations(if (t, v.urrId) in c then c[(t, v.urrId) := Reconfigured(c[(t, v.urrId)], v)] else c,
                           log + [Updated(t, v.urrId)], books[t := books[t].(urrs := PatchUrrs(books[t].urrs, v))])
  {
    hide ConfigFollows, Reconfigured, PatchUrrs, LastUrr;
    var p, x := (t, v.urrId), Updated(t, v.urrId);
    var c' := if p in c then c[p := Reconfigured(c[p], v)] else c;
    var books' := books[t := books[t].(urrs := PatchUrrs(books[t].urrs, v))];
    forall t', id: u32 | t' in books' ensures ConfiguredFor(c', log + [x], books'[t'], t', id) {
      assert ConfiguredFor(c, log, books[t'], t', id);
      LastUrrPatched(books[t].urrs, v, id);
      if (t', id) in c {
        var u := LastUrr(books[t'].urrs, id).value;
        if (t', id) == p {
          AppendUpdate(c[p], u, log, v, p, books[t'].history.since);
        } else {
          AppendOther(c[(t', id)], u, log, x, (t', id), books[t'].history.since);
        }
      }
    }
  }

  lemma {:induction false} UpdatesConfigure(c: map<(u64, u32), UrrConfig>, log: seq<Entry>, books: map<u64, RuleBook>, t: u64,
                                            upds: seq<ParsedUrr>)
    requires Configurations(c, log, books) && t in books
    ensures Configurations(Reconfigure(c, t, upds), log + Updates(t, upds),
                           books[t := books[t].(urrs := PatchedUrrs(books[t].urrs, upds))])
  {
    hide Configurations, Reconfigured, PatchUrrs;
    if |upds| == 0 {
      assert log + Updates(t, upds) == log && books[t := books[t].(urrs := books[t].urrs)] == books;
    } else {
      var init, v := upds[..|upds| - 1], upds[|upds| - 1];
      UpdatesConfigure(c, log, books, t, init);
      var books1 := books[t := books[t].(urrs := PatchedUrrs(books[t].urrs, init))];
      UpdateConfigures(Reconfigure(c, t, init), log + Updates(t, init), books1, t, v);
      assert log + Updates(t, upds) == log + Updates(t, init) + [Updated(t, v.urrId)];
      assert books1[t := books1[t].(urrs := PatchUrrs(books1[t].urrs, v))]
          == books[t := books[t].(urrs := PatchedUrrs(books[t].urrs, upds))];
    }
  }

  /** Only what is in the book under `urrs` and `history.since` matters. */
  lemma SameBooks(c: map<(u64, u32), UrrConfig>, log: seq<Entry>, books: map<u64, RuleBook>, books': map<u64, RuleBook>)
    requires Configurations(c, log, books) && books'.Keys == books.Keys
    requires forall t :: t in books ==> books'[t].urrs == books[t].urrs && books'[t].history.since == books[t].history.since
    ensures Configurations(c, log, books')
  {
    hide ConfigFollows, LastUrr;
    forall t, id: u32 | t in books' ensures ConfiguredFor(c, log, books'[t], t, id) {
      assert ConfiguredFor(c, log, books[t], t, id);
    }
  }

  // A new session.

  ghost predicate NoneAbout(log: seq<Entry>, t: u64) {
    forall x :: x in log && x.Sent? ==> x.report.seid != t
  }

  lemma FreshFollows(log: seq<Entry>, t: u64, cp: u64, now: nat, u: ParsedUrr)
    requires NoneAbout(log, t)
    ensures ConfigFollows(NewConfig(t, cp, now, u), u, log, (t, u.urrId), now)
  {
    NoneCounted(log, (t, u.urrId));
  }

  lemma {:induction false} NoneCounted(log: seq<Entry>, p: Pair)
    requires NoneAbout(log, p.0)
    ensures SentCount(log, p) == 0
  {
    if |log| > 0 {
      assert log[|log| - 1] in log;
      NoneCounted(log[..|log| - 1], p);
    }
  }

  /** The loop over the Create URRs: each pair of the new SEID gets the configuration of the last one with its id. */
  lemma {:induction false} ConfigureFor(c: map<(u64, u32), UrrConfig>, t: u64, cp: u64, now: nat, urrs: seq<ParsedUrr>, id: u32)
    requires (t, id) !in c
    ensures var c', u := Configure(c, t, cp, now, urrs), LastUrr(urrs, id);
            ((t, id) in c' <==> u.Some?) && ((t, id) in c' ==> c'[(t, id)] == NewConfig(t, cp, now, u.value))
  {
    hide NewConfig;
    if |urrs| > 0 {
      ConfigureFor(c, t, cp, now, urrs[..|urrs| - 1], id);
    }
  }

  lemma {:induction false} ConfigureOnly(c: map<(u64, u32), UrrConfig>, t: u64, cp: u64, now: nat, urrs: seq<ParsedUrr>)
    ensures forall p :: p in Configure(c, t, cp, now, urrs) ==> p in c || p.0 == t
    ensures forall p: Pair :: p.0 != t ==> SameAt(c, Configure(c, t, cp, now, urrs), p)
  {
    if |urrs| > 0 {
      ConfigureOnly(c, t, cp, now, urrs[..|urrs| - 1]);
    }
  }

  lemma OpeningConfigures(c: map<(u64, u32), UrrConfig>, log: seq<Entry>, books: map<u64, RuleBook>, t: u64, cp: u64, b: RuleBook)
    requires Configurations(c, log, books) && t !in books && NoneAbout(log, t)
    ensures Configurations(Configure(c, t, cp, b.history.since, b.urrs), log, books[t := b])
  {
    hide ConfigFollows, LastUrr, NewConfig;
    var c' := Configure(c, t, cp, b.history.since, b.urrs);
    ConfigureOnly(c, t, cp, b.history.since, b.urrs);
    hide Configure;
    var books' := books[t := b];
    forall t', id: u32 | t' in books' ensures ConfiguredFor(c', log, books'[t'], t', id) {
      if t' == t {
        ConfigureFor(c, t, cp, b.history.since, b.urrs, id);
        if (t, id) in c' {
          FreshFollows(log, t, cp, b.history.since, LastUrr(b.urrs, id).value);
          assert LastUrr(b.urrs, id).value.urrId == id;
        }
      } else {
        assert ConfiguredFor(c, log, books[t'], t', id) && SameAt(c, c', (t', id));
      }
    }
  }

  // Runs.

  ghost predicate Reported(w: World) {
    var s := w.st.srv;
    && Ownership.Numbers(w) && (forall t :: t in w.books ==> t < s.nextSeid)
    && (forall x :: x in w.log && x.Sent? ==> x.report.seid in w.books)
    && Configurations(s.urrConfigs, w.log, w.books)
    && forall p :: p in s.urrConfigs && p.0 in s.sessions ==> s.urrConfigs[p].cpSeid == s.sessions[p.0].cpSeid
  }

  lemma OpenedReported(w: World, e: Event)
    requires Reported(w) && Numbered(w, e) && Accepting(e)
    ensures Reported(Step(w, e))
  {
    assert forall p :: p in w.st.srv.urrConfigs ==> p.0 in w.books;
    hide InstallPdrs, InstallFars, InstallUrrs, Configure, NewInfo, FirstUeIp, FirstOhc, Created, Listed, Configurations;
    Ownership.NumbersStep(w, e);
    var s, t := w.st.srv, w.st.srv.nextSeid;
    var b := NewBook(e.found.value, FirstUeIp(e.req.pdrs).value, e.req, e.now);
    OpeningConfigures(s.urrConfigs, w.log, w.books, t, e.req.cpSeid, b);
    ConfigureOnly(s.urrConfigs, t, e.req.cpSeid, e.now, e.req.urrs);
    OwnCpSeid(s.urrConfigs, t, e.req.cpSeid, e.now, e.req.urrs);
  }

  lemma {:induction false} OwnCpSeid(c: map<(u64, u32), UrrConfig>, t: u64, cp: u64, now: nat, urrs: seq<ParsedUrr>)
    requires forall p :: p in c ==> p.0 != t
    ensures forall p :: p in Configure(c, t, cp, now, urrs) && p.0 == t ==> Configure(c, t, cp, now, urrs)[p].cpSeid == cp
  {
    if |urrs| > 0 {
      OwnCpSeid(c, t, cp, now, urrs[..|urrs| - 1]);
    }
  }

  lemma {:induction false} CpSeidsStay(c: map<(u64, u32), UrrConfig>, t: u64, upds: seq<ParsedUrr>)
    ensures Reconfigure(c, t, upds).Keys == c.Keys
    ensures forall p :: p in c ==> Reconfigure(c, t, upds)[p].cpSeid == c[p].cpSeid
  {
    if |upds| > 0 {
      CpSeidsStay(c, t, upds[..|upds| - 1]);
    }
  }

  lemma UpdatedReported(w: World, e: Event)
    requires Reported(w) && Ownership.Changing(w, e) && e.req.Modify?
    ensures Reported(Step(w, e))
  {
    hide PatchFars, Reconfigure, PatchedRules, PatchedUrrs, LastTunnel, Configurations;
    var s, t := w.st.srv, e.req.modSeid.value;
    CpSeidsStay(s.urrConfigs, t, e.req.updUrrs);
    UpdatesConfigure(s.urrConfigs, w.log, w.books, t, e.req.updUrrs);
    var c', log' := Reconfigure(s.urrConfigs, t, e.req.updUrrs), w.log + Updates(t, e.req.updUrrs);
    SameBooks(c', log', w.books[t := w.books[t].(urrs := PatchedUrrs(w.books[t].urrs, e.req.updUrrs))], Step(w, e).books);
  }

  lemma {:induction false} TickAllAbout(s: Srv, totals: seq<(u64, UrrStats)>, now: nat)
    ensures forall r :: r in TickAll(s, totals, now).1 ==> (r.seid, r.urrId) in s.urrConfigs
    ensures var c' := TickAll(s, totals, now).0.urrConfigs;
            c'.Keys == s.urrConfigs.Keys && forall p :: p in c' ==> c'[p].cpSeid == s.urrConfigs[p].cpSeid
  {
    hide VolumeDue, PeriodDue, SeidOf, IdOf, Total;
    if |totals| > 0 {
      TickAllAbout(s, totals[..|totals| - 1], now);
    }
  }

  lemma TickReported(w: World, e: Event)
    requires Reported(w) && e.ReporterTick?
    ensures Reported(Step(w, e))
  {
    assert forall p :: p in w.st.srv.urrConfigs ==> p.0 in w.books;
    hide Configurations, TickAll;
    Ownership.TickAllKeeps(w.st.srv, e.totals, e.now);
    TickAllConfigures(w.st.srv, w.log, w.books, e.totals, e.now);
    TickAllAbout(w.st.srv, e.totals, e.now);
    assert w.log + Sends([]) == w.log;
    var rs := TickAll(w.st.srv, e.totals, e.now).1;
    forall x | x in Sends(rs) ensures x.Sent? && x.report.seid in w.books {
      var i :| 0 <= i < |rs| && Sends(rs)[i] == x;
      assert (rs[i].seid, rs[i].urrId) in w.st.srv.urrConfigs;
    }
  }

  lemma ReportedStep(w: World, e: Event)
    requires Reported(w) && Numbered(w, e)
    ensures Reported(Step(w, e))
  {
    hide Configurations, FirstUeIp, FirstOhc;
    Ownership.NumbersStep(w, e);
    if e.ReporterTick? {
      TickReported(w, e);
    } else if Accepting(e) {
      OpenedReported(w, e);
    } else if Ownership.Changing(w, e) && e.req.Modify? {
      UpdatedReported(w, e);
    }
  }

  /** After any run there is a configuration under a session's SEID and an id exactly when a Create URR of the session has
      the id. Its method, triggers, threshold and period are those of the last Create or Update URR with the id, its
      cp_seid that of the live session, its UR-SEQN the number of its reports, its last report that of the last periodic
      one or the establishment, and its threshold counts as reported exactly when a volume report came after the last
      Update URR. */
  lemma ConfigurationsFollowHistory(n3: u32, ts: u32, ncpus: nat, es: seq<Event>)
    requires Along(Numbered, Start(n3, ts, ncpus), es)
    ensures var w := Run(Start(n3, ts, ncpus), es);
            var c := w.st.srv.urrConfigs;
            && Configurations(c, w.log, w.books)
            && forall p :: p in c && p.0 in w.st.srv.sessions ==> c[p].cpSeid == w.st.srv.sessions[p.0].cpSeid
  {
    hide Configurations;
    assert Reported(Start(n3, ts, ncpus)) by { NothingConfigured(); }
    forall w, e | Reported(w) && Numbered(w, e) ensures Reported(Step(w, e)) {
      ReportedStep(w, e);
    }
    RunKeeps(Reported, Numbered, Start(n3, ts, ncpus), es);
  }

  lemma NothingConfigured()
    ensures Configurations(map[], [], map[])
  {
  }
}
