/** The usage counters field by field: octets and packets, each way. */
module Tallies {
  import opened Bytes
  import opened Keys
  import opened Rules
  import opened Classifier
  import opened Server
  import opened Counters
  import opened World
  import Ownership
  import Usage

  /** The four counters of an entry. */
  datatype Kind = UlBytes | UlPackets | DlBytes | DlPackets

  function Of(s: UrrStats, k: Kind): u64 {
    match k
    case UlBytes => s.ulBytes
    case UlPackets => s.ulPackets
    case DlBytes => s.dlBytes
    case DlPackets => s.dlPackets
  }

  /** What one counted packet adds to each. */
  function Adds(len: u64, uplink: bool, k: Kind): u64 {
    match k
    case UlBytes => if uplink then len else 0
    case UlPackets => if uplink then 1 else 0
    case DlBytes => if uplink then 0 else len
    case DlPackets => if uplink then 0 else 1
  }

  /** The tally for a pair since its entry was last made. */
  function Tally(ops: seq<UrrOp>, seid: u64, id: u32, k: Kind): Option<nat> {
    if |ops| == 0 then None
    else
      var op, before := ops[|ops| - 1], Tally(ops[..|ops| - 1], seid, id, k);
      if op.seid != seid || op.id != id then before
      else match op
        case Zero(_, _) => Some(0)
        case Remove(_, _) => None
        case Count(_, _, _, len, up) => Some((if before.Some? then before.value else 0) + Adds(len, up, k))
  }

  ghost function Sum(perCpu: seq<UrrStats>, k: Kind): nat {
    if |perCpu| == 0 then 0 else Sum(perCpu[..|perCpu| - 1], k) + Of(perCpu[|perCpu| - 1], k)
  }

  lemma {:induction false} SumOfIsSum(perCpu: seq<UrrStats>, k: Kind)
    ensures Of(SumOf(perCpu), k) == Sum(perCpu, k) % TWO_64
  {
    if |perCpu| > 0 {
      var init, v := perCpu[..|perCpu| - 1], perCpu[|perCpu| - 1];
      SumOfIsSum(init, k);
      assert Of(SumOf(perCpu), k) == (Of(SumOf(init), k) + Of(v, k)) % TWO_64;
      ModSum(Sum(init, k), Of(v, k));
    }
  }

  lemma {:induction false} SumOfZeros(n: nat, k: Kind)
    ensures Sum(ZeroCounters(n), k) == 0
  {
    if n > 0 {
      SumOfZeros(n - 1, k);
      assert ZeroCounters(n)[..n - 1] == ZeroCounters(n - 1);
    }
  }

  lemma {:induction false} SumOfUpdate(perCpu: seq<UrrStats>, cpu: nat, v: UrrStats, k: Kind)
    requires cpu < |perCpu|
    ensures Sum(perCpu[cpu := v], k) == Sum(perCpu, k) - Of(perCpu[cpu], k) + Of(v, k)
  {
    var n := |perCpu| - 1;
    if cpu < n {
      SumOfUpdate(perCpu[..n], cpu, v, k);
      assert perCpu[cpu := v][..n] == perCpu[..n][cpu := v];
    } else {
      assert perCpu[cpu := v][..n] == perCpu[..n];
    }
  }

  lemma SumOfBump(perCpu: seq<UrrStats>, cpu: nat, len: u64, uplink: bool, k: Kind)
    requires cpu < |perCpu|
    ensures Sum(perCpu[cpu := Bump(perCpu[cpu], len, uplink)], k) % TWO_64 == (Sum(perCpu, k) + Adds(len, uplink, k)) % TWO_64
  {
    var s := perCpu[cpu];
    SumOfUpdate(perCpu, cpu, Bump(s, len, uplink), k);
    assert Of(Bump(s, len, uplink), k) == (Of(s, k) + Adds(len, uplink, k)) % TWO_64;
    ModSum(Of(s, k) + Adds(len, uplink, k), Sum(perCpu, k) - Of(s, k));
  }

  ghost predicate Holds(m: map<u64, seq<UrrStats>>, ncpus: nat, ops: seq<UrrOp>, seid: u64, id: u32, k: Kind) {
    var key, c := Compose(seid, id), Tally(ops, seid, id, k);
    if c.None? then key !in m
    else key in m && |m[key]| == ncpus && Sum(m[key], k) % TWO_64 == c.value % TWO_64
  }

  lemma CountHolds(m: map<u64, seq<UrrStats>>, ncpus: nat, init: seq<UrrOp>, op: UrrOp, k: Kind)
    requires op.Count? && Proper(op, ncpus)
    requires Holds(m, ncpus, init, op.seid, op.id, k)
    ensures Holds(Apply(m, ncpus, op), ncpus, init + [op], op.seid, op.id, k)
  {
    hide Compose, Bump, Adds;
    var key := Compose(op.seid, op.id);
    var before := if key in m then m[key] else ZeroCounters(ncpus);
    assert (init + [op])[..|init|] == init;
    SumOfZeros(ncpus, k);
    SumOfBump(before, op.cpu, op.len, op.uplink, k);
    ModSum(Sum(before, k), Adds(op.len, op.uplink, k));
    if key in m {
      ModSum(Tally(init, op.seid, op.id, k).value, Adds(op.len, op.uplink, k));
    }
  }

  lemma {:induction false} AllHold(ncpus: nat, ops: seq<UrrOp>, seid: u64, id: u32, k: Kind)
    requires forall op :: op in ops ==> Proper(op, ncpus)
    requires seid < TWO_48 && id < 0x1_0000
    ensures Holds(ApplyAll(ncpus, ops), ncpus, ops, seid, id, k)
  {
    hide Compose, Bump, Adds;
    if |ops| > 0 {
      var init, op := ops[..|ops| - 1], ops[|ops| - 1];
      assert op in ops && ops == init + [op];
      AllHold(ncpus, init, seid, id, k);
      KeysMeet(op.seid, op.id, seid, id);
      SumOfZeros(ncpus, k);
      if op.Count? && op.seid == seid && op.id == id {
        CountHolds(ApplyAll(ncpus, init), ncpus, init, op, k);
      }
    }
  }

  // Runs. Only uplink packets are counted, and they are counted as downlink.

  predicate Downlinks(ops: seq<UrrOp>) {
    forall op :: op in ops && op.Count? ==> !op.uplink
  }

  lemma {:induction false} RemovesCountNothing(seid: u64, ids: set<u32>)
    ensures Downlinks(Usage.Removes(seid, ids))
  {
    if ids != {} {
      var id :| id in ids && Usage.Removes(seid, ids) == Usage.Removes(seid, ids - {id}) + [Remove(seid, id)];
      RemovesCountNothing(seid, ids - {id});
    }
  }

  lemma {:induction false} RunsCountDownlink(w: World, es: seq<Event>)
    ensures Downlinks(Usage.OpsAlong(w, es))
    decreases |es|
  {
    hide Step;
    if |es| > 0 {
      StepCountsDownlink(w, es[0]);
      hide Usage.OpsAt;
      RunsCountDownlink(Step(w, es[0]), es[1..]);
    }
  }

  lemma StepCountsDownlink(w: World, e: Event)
    ensures Downlinks(Usage.OpsAt(w, e))
  {
    hide SelectFar, UrrIds;
    if Ownership.Changing(w, e) && e.req.Delete? {
      var t := Ownership.Target(e);
      RemovesCountNothing(t, UrrIds(w.st.maps, ToBe32(w.st.srv.sessions[t].ueIp), t));
    }
  }

  lemma {:induction false} NoneUplink(ops: seq<UrrOp>, seid: u64, id: u32)
    requires Downlinks(ops)
    ensures Tally(ops, seid, id, UlBytes).Some? <==> Tally(ops, seid, id, DlBytes).Some?
    ensures Tally(ops, seid, id, UlBytes).Some? ==> Tally(ops, seid, id, UlBytes) == Some(0)
    ensures Tally(ops, seid, id, UlPackets).Some? <==> Tally(ops, seid, id, DlBytes).Some?
    ensures Tally(ops, seid, id, UlPackets).Some? ==> Tally(ops, seid, id, UlPackets) == Some(0)
  {
    if |ops| > 0 {
      assert ops[|ops| - 1] in ops;
      NoneUplink(ops[..|ops| - 1], seid, id);
    }
  }

  /** In any run whose URR ids are 1 to 65535, what the reporter sums for an entry is the number of octets and of packets
      counted for its session and URR as downlink, and zero for uplink, although every counted packet went uplink. */
  lemma AllUsageIsDownlink(n3: u32, ts: u32, ncpus: nat, es: seq<Event>, key: u64)
    requires Usage.AllProper(Usage.OpsAlong(Start(n3, ts, ncpus), es), ncpus)
    ensures var urr, ops := Run(Start(n3, ts, ncpus), es).st.maps.urr, Usage.OpsAlong(Start(n3, ts, ncpus), es);
            var bytes, packets := Tally(ops, SeidOf(key), IdOf(key), DlBytes), Tally(ops, SeidOf(key), IdOf(key), DlPackets);
            && (key in urr <==> bytes.Some?) && (key in urr <==> packets.Some?)
            && (key in urr ==> SumOf(urr[key]) == UrrStats(0, 0, bytes.value % TWO_64, packets.value % TWO_64))
  {
    hide Usage.OpsAlong, Tally, SumOf, Proper, Sum, Compose, SeidOf, IdOf, Apply;
    var ops := Usage.OpsAlong(Start(n3, ts, ncpus), es);
    Usage.RunPlays(Start(n3, ts, ncpus), es);
    Usage.PlayFromNothing(ncpus, ops);
    RunsCountDownlink(Start(n3, ts, ncpus), es);
    NoneUplink(ops, SeidOf(key), IdOf(key));
    ComposeUndoesSplit(key);
    SplitFits(key);
    forall k: Kind ensures Holds(ApplyAll(ncpus, ops), ncpus, ops, SeidOf(key), IdOf(key), k) {
      AllHold(ncpus, ops, SeidOf(key), IdOf(key), k);
    }
    assert forall k: Kind :: Holds(ApplyAll(ncpus, ops), ncpus, ops, SeidOf(key), IdOf(key), k);
    var m := ApplyAll(ncpus, ops);
    assert Holds(m, ncpus, ops, SeidOf(key), IdOf(key), UlBytes) && Holds(m, ncpus, ops, SeidOf(key), IdOf(key), UlPackets);
    assert Holds(m, ncpus, ops, SeidOf(key), IdOf(key), DlBytes) && Holds(m, ncpus, ops, SeidOf(key), IdOf(key), DlPackets);
    if key in m {
      SumOfIsSum(m[key], UlBytes);
      SumOfIsSum(m[key], UlPackets);
      SumOfIsSum(m[key], DlBytes);
      SumOfIsSum(m[key], DlPackets);
    }
  }

  lemma SplitFits(key: u64)
    ensures SeidOf(key) < TWO_48 && IdOf(key) < 0x1_0000
  {
  }
}
