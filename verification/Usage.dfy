/** What a run counts: the URR map of a run is a schedule of counter operations. */
module Usage {
  import opened Bytes
  import opened Keys
  import opened Rules
  import opened Classifier
  import opened Server
  import opened Counters
  import opened World
  import Ownership

  function Zeroes(seid: u64, urrs: seq<ParsedUrr>): (ops: seq<UrrOp>)
    ensures |ops| == |urrs|
  {
    seq(|urrs|, i requires 0 <= i < |urrs| => Zero(seid, urrs[i].urrId))
  }

  /** The removals of a set of ids, one after the other. */
  ghost function Removes(seid: u64, ids: set<u32>): seq<UrrOp> {
    if ids == {} then []
    else
      var id :| id in ids;
      Removes(seid, ids - {id}) + [Remove(seid, id)]
  }

  /** What a packet adds: its length, for the URR of the rule that wins, unless that rule drops or counts nothing. */
  function Counts(s: Srv, m: Maps, cpu: nat, q: Query, len: u64): seq<UrrOp> {
    if cpu >= s.ncpus || q.srcIp !in m.sess then []
    else
      var info := m.sess[q.srcIp];
      var far := SelectFar(m, info, IFACE_ACCESS, q);
      if info.pdrCount == 0 || far.None? || Bit(far.value.0.applyAction, ACTION_DROP) || far.value.1 == 0 then []
      else [Count(info.seid, far.value.1, cpu, len, false)]
  }

  ghost function OpsAt(w: World, e: Event): seq<UrrOp> {
    var s, m := w.st.srv, w.st.maps;
    match e
    case Handle(_, _, _, _) =>
      if Accepting(e) then Zeroes(s.nextSeid, e.req.urrs)
      else if Ownership.Changing(w, e) && e.req.Delete? then
        var t := Ownership.Target(e);
        Removes(t, UrrIds(m, ToBe32(s.sessions[t].ueIp), t))
      else []
    case Uplink(cpu, q, len) => Counts(s, m, cpu, q, len)
    case ReporterTick(_, _) => []
  }

  ghost function OpsAlong(w: World, es: seq<Event>): seq<UrrOp>
    decreases |es|
  {
    if |es| == 0 then [] else OpsAt(w, es[0]) + OpsAlong(Step(w, es[0]), es[1..])
  }

  ghost predicate AllProper(ops: seq<UrrOp>, ncpus: nat) {
    forall op :: op in ops ==> Proper(op, ncpus)
  }

  function Play(m: map<u64, seq<UrrStats>>, ncpus: nat, ops: seq<UrrOp>): map<u64, seq<UrrStats>>
    requires AllProper(ops, ncpus)
  {
    if |ops| == 0 then m else Apply(Play(m, ncpus, ops[..|ops| - 1]), ncpus, ops[|ops| - 1])
  }

  lemma {:induction false} PlayConcat(m: map<u64, seq<UrrStats>>, ncpus: nat, a: seq<UrrOp>, b: seq<UrrOp>)
    requires AllProper(a, ncpus) && AllProper(b, ncpus)
    ensures AllProper(a + b, ncpus) && Play(m, ncpus, a + b) == Play(Play(m, ncpus, a), ncpus, b)
  {
    hide Apply, Proper;
    if |b| == 0 {
      assert a + b == a;
    } else {
      PlayConcat(m, ncpus, a, b[..|b| - 1]);
      assert (a + b)[..|a + b| - 1] == a + b[..|b| - 1];
    }
  }

  lemma {:induction false} PlayFromNothing(ncpus: nat, ops: seq<UrrOp>)
    requires AllProper(ops, ncpus)
    ensures Play(map[], ncpus, ops) == ApplyAll(ncpus, ops)
  {
    hide Apply;
    if |ops| > 0 {
      PlayFromNothing(ncpus, ops[..|ops| - 1]);
    }
  }

  lemma {:induction false} PlayZeroes(m: map<u64, seq<UrrStats>>, ncpus: nat, seid: u64, urrs: seq<ParsedUrr>)
    requires AllProper(Zeroes(seid, urrs), ncpus)
    ensures Play(m, ncpus, Zeroes(seid, urrs)) == InstallUrrs(m, seid, ncpus, urrs)
  {
    hide Compose, Proper;
    if |urrs| > 0 {
      assert Zeroes(seid, urrs)[..|urrs| - 1] == Zeroes(seid, urrs[..|urrs| - 1]);
      PlayZeroes(m, ncpus, seid, urrs[..|urrs| - 1]);
    }
  }

  lemma KeysOfLast(seid: u64, ids: set<u32>, id: u32)
    requires id in ids
    ensures KeysOf(seid, ids) == KeysOf(seid, ids - {id}) + {Compose(seid, id)}
  {
    hide Compose;
  }

  lemma ApplyRemove(m: map<u64, seq<UrrStats>>, ncpus: nat, seid: u64, id: u32)
    requires Proper(Remove(seid, id), ncpus)
    ensures Apply(m, ncpus, Remove(seid, id)) == m - {Compose(seid, id)}
  {
    hide Compose;
  }

  lemma PlaySnoc(m: map<u64, seq<UrrStats>>, ncpus: nat, ops: seq<UrrOp>, op: UrrOp)
    requires AllProper(ops, ncpus) && Proper(op, ncpus)
    ensures AllProper(ops + [op], ncpus) && Play(m, ncpus, ops + [op]) == Apply(Play(m, ncpus, ops), ncpus, op)
  {
    hide Apply, Proper;
    assert (ops + [op])[..|ops|] == ops;
  }

  lemma ProperParts(ops: seq<UrrOp>, op: UrrOp, ncpus: nat)
    requires AllProper(ops + [op], ncpus)
    ensures AllProper(ops, ncpus) && Proper(op, ncpus)
  {
    hide Proper;
    assert forall o :: o in ops ==> o in ops + [op];
    assert op in ops + [op];
  }

  lemma {:induction false} PlayRemoves(m: map<u64, seq<UrrStats>>, ncpus: nat, seid: u64, ids: set<u32>)
    requires AllProper(Removes(seid, ids), ncpus)
    ensures Play(m, ncpus, Removes(seid, ids)) == m - KeysOf(seid, ids)
  {
    if ids != {} {
      hide Compose, Proper, Apply, KeysOf, Play, AllProper;
      var id :| id in ids && Removes(seid, ids) == Removes(seid, ids - {id}) + [Remove(seid, id)];
      var init := Removes(seid, ids - {id});
      ProperParts(init, Remove(seid, id), ncpus);
      PlayRemoves(m, ncpus, seid, ids - {id});
      PlaySnoc(m, ncpus, init, Remove(seid, id));
      KeysOfLast(seid, ids, id);
      ApplyRemove(Play(m, ncpus, init), ncpus, seid, id);
    }
  }

  /** A step plays its counter operations on the URR map. */
  lemma StepPlays(w: World, e: Event)
    requires AllProper(OpsAt(w, e), w.st.srv.ncpus)
    ensures Step(w, e).st.maps.urr == Play(w.st.maps.urr, w.st.srv.ncpus, OpsAt(w, e))
    ensures Step(w, e).st.srv.ncpus == w.st.srv.ncpus
  {
    hide Compose, SelectFar, InstallUrrs, UrrIds, Removes, Zeroes, FirstUeIp, FirstOhc, Proper, CountOn;
    var s, m := w.st.srv, w.st.maps;
    if e.ReporterTick? {
      Ownership.TickAllKeeps(s, e.totals, e.now);
    } else if Accepting(e) {
      PlayZeroes(m.urr, s.ncpus, s.nextSeid, e.req.urrs);
    } else if Ownership.Changing(w, e) && e.req.Delete? {
      var t := Ownership.Target(e);
      PlayRemoves(m.urr, s.ncpus, t, UrrIds(m, ToBe32(s.sessions[t].ueIp), t));
    } else if e.Uplink? {
      UplinkPlays(s, m, e.cpu, e.q, e.len);
    }
  }

  lemma UplinkPlays(s: Srv, m: Maps, cpu: nat, q: Query, len: u64)
    requires AllProper(Counts(s, m, cpu, q, len), s.ncpus)
    ensures UplinkStep(s, m, cpu, q, len).urr == Play(m.urr, s.ncpus, Counts(s, m, cpu, q, len))
  {
    hide Compose, SelectFar;
    var ops := Counts(s, m, cpu, q, len);
    if |ops| == 1 {
      assert ops[..0] == [];
    }
  }

  lemma {:induction false} RunPlays(w: World, es: seq<Event>)
    requires AllProper(OpsAlong(w, es), w.st.srv.ncpus)
    ensures Run(w, es).st.maps.urr == Play(w.st.maps.urr, w.st.srv.ncpus, OpsAlong(w, es))
    decreases |es|
  {
    hide Step, OpsAt, Proper;
    if |es| > 0 {
      var a, b := OpsAt(w, es[0]), OpsAlong(Step(w, es[0]), es[1..]);
      assert forall op :: op in a ==> op in a + b;
      assert forall op :: op in b ==> op in a + b;
      StepPlays(w, es[0]);
      RunPlays(Step(w, es[0]), es[1..]);
      PlayConcat(w.st.maps.urr, w.st.srv.ncpus, a, b);
    }
  }

  /** In any run whose URR ids are 1 to 65535, the total the reporter would form for an entry is the number of bytes
      the forwarded packets of that session and URR had since the entry was made, in u64 arithmetic. */
  lemma ReportedIsForwarded(n3: u32, ts: u32, ncpus: nat, es: seq<Event>, key: u64)
    requires AllProper(OpsAlong(Start(n3, ts, ncpus), es), ncpus)
    ensures var urr, c := Run(Start(n3, ts, ncpus), es).st.maps.urr,
                          Counted(OpsAlong(Start(n3, ts, ncpus), es), SeidOf(key), IdOf(key));
            && (key in urr <==> c.Some?)
            && (key in urr ==> Total(SumOf(urr[key])) == c.value % TWO_64)
  {
    hide OpsAlong, Counted, SumOf, Proper;
    var ops := OpsAlong(Start(n3, ts, ncpus), es);
    RunPlays(Start(n3, ts, ncpus), es);
    PlayFromNothing(ncpus, ops);
    ReporterTotal(ncpus, ops, key);
  }
}
