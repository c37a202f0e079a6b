/** Per-CPU usage counters: the packet path adds on one CPU, the reporter sums over all of them. */
module Counters {
  import opened Bytes
  import opened Keys
  import opened Rules
  import opened Server

  function Bump(s: UrrStats, len: u64, uplink: bool): UrrStats {
    if uplink then s.(ulPackets := (s.ulPackets + 1) % TWO_64, ulBytes := (s.ulBytes + len) % TWO_64)
    else s.(dlPackets := (s.dlPackets + 1) % TWO_64, dlBytes := (s.dlBytes + len) % TWO_64)
  }

  /** `urr_count` on one CPU: id 0 counts nothing, a missing entry is created with this packet in it. */
  function CountOn(m: map<u64, seq<UrrStats>>, ncpus: nat, cpu: nat, seid: u64, urrId: u32, len: u64, uplink: bool)
    : map<u64, seq<UrrStats>>
    requires cpu < ncpus
  {
    var k := Compose(seid, urrId);
    if urrId == 0 then m
    else if k in m then if cpu < |m[k]| then m[k := m[k][cpu := Bump(m[k][cpu], len, uplink)]] else m
    else m[k := ZeroCounters(ncpus)[cpu := Bump(ZERO_STATS, len, uplink)]]
  }

  method UrrCount(maps: SharedMaps, ncpus: nat, cpu: nat, seid: u64, urrId: u32, len: u64, uplink: bool)
    requires cpu < ncpus
    modifies maps`urr
    ensures maps.urr == CountOn(old(maps.urr), ncpus, cpu, seid, urrId, len, uplink)
  {
    if urrId == 0 {
      return;
    }
    var key := Compose(seid, urrId);
    if key in maps.urr {
      var stats := maps.urr[key];
      if cpu < |stats| {
        if uplink {
          stats := stats[cpu := stats[cpu].(ulPackets := (stats[cpu].ulPackets + 1) % TWO_64,
                                            ulBytes := (stats[cpu].ulBytes + len) % TWO_64)];
        } else {
          stats := stats[cpu := stats[cpu].(dlPackets := (stats[cpu].dlPackets + 1) % TWO_64,
                                            dlBytes := (stats[cpu].dlBytes + len) % TWO_64)];
        }
        maps.urr := maps.urr[key := stats];
      }
    } else {
      var init := if uplink then UrrStats(len, 1, 0, 0) else UrrStats(0, 0, len, 1);
      maps.urr := maps.urr[key := ZeroCounters(ncpus)[cpu := init]];
    }
  }

  /** The sum the reporter forms, each field in u64 arithmetic. */
  function SumOf(perCpu: seq<UrrStats>): UrrStats {
    if |perCpu| == 0 then ZERO_STATS
    else
      var s, v := SumOf(perCpu[..|perCpu| - 1]), perCpu[|perCpu| - 1];
      UrrStats((s.ulBytes + v.ulBytes) % TWO_64, (s.ulPackets + v.ulPackets) % TWO_64,
               (s.dlBytes + v.dlBytes) % TWO_64, (s.dlPackets + v.dlPackets) % TWO_64)
  }

  function Total(s: UrrStats): u64 {
    (s.ulBytes + s.dlBytes) % TWO_64
  }

  method SumPerCpu(perCpu: seq<UrrStats>) returns (sum: UrrStats)
    ensures sum == SumOf(perCpu)
  {
    sum := ZERO_STATS;
    for i := 0 to |perCpu|
      invariant sum == SumOf(perCpu[..i])
    {
      var v := perCpu[i];
      assert perCpu[..i + 1][..i] == perCpu[..i];
      sum := UrrStats((sum.ulBytes + v.ulBytes) % TWO_64, (sum.ulPackets + v.ulPackets) % TWO_64,
                      (sum.dlBytes + v.dlBytes) % TWO_64, (sum.dlPackets + v.dlPackets) % TWO_64);
    }
    assert perCpu[..|perCpu|] == perCpu;
  }

  // One schedule of everything that touches the URR map, against a single ideal counter per pair.

  datatype UrrOp =
    | Zero(seid: u64, id: u32)
    | Count(seid: u64, id: u32, cpu: nat, len: u64, uplink: bool)
    | Remove(seid: u64, id: u32)

  ghost predicate Proper(op: UrrOp, ncpus: nat) {
    op.seid < TWO_48 && 0 < op.id < 0x1_0000 && (op.Count? ==> op.cpu < ncpus)
  }

  function Apply(m: map<u64, seq<UrrStats>>, ncpus: nat, op: UrrOp): map<u64, seq<UrrStats>>
    requires Proper(op, ncpus)
  {
    match op
    case Zero(s, i) => m[Compose(s, i) := ZeroCounters(ncpus)]
    case Count(s, i, cpu, len, up) => CountOn(m, ncpus, cpu, s, i, len, up)
    case Remove(s, i) => m - {Compose(s, i)}
  }

  function ApplyAll(ncpus: nat, ops: seq<UrrOp>): map<u64, seq<UrrStats>>
    requires forall op :: op in ops ==> Proper(op, ncpus)
  {
    if |ops| == 0 then map[] else Apply(ApplyAll(ncpus, ops[..|ops| - 1]), ncpus, ops[|ops| - 1])
  }

  /** The bytes counted for a pair since it was last zeroed or removed; None if there is no entry for it. */
  function Counted(ops: seq<UrrOp>, seid: u64, id: u32): Option<nat> {
    if |ops| == 0 then None
    else
      var op, before := ops[|ops| - 1], Counted(ops[..|ops| - 1], seid, id);
      if op.seid != seid || op.id != id then before
      else match op
        case Zero(_, _) => Some(0)
        case Remove(_, _) => None
        case Count(_, _, _, len, _) => Some((if before.Some? then before.value else 0) + len)
  }

  /** The bytes of all CPUs together, as plain numbers. */
  ghost function Volume(perCpu: seq<UrrStats>): nat {
    if |perCpu| == 0 then 0
    else Volume(perCpu[..|perCpu| - 1]) + perCpu[|perCpu| - 1].ulBytes + perCpu[|perCpu| - 1].dlBytes
  }

  /** Reducing a summand first does not change a sum in u64 arithmetic. */
  lemma ModSum(a: int, b: int)
    ensures (a % TWO_64 + b) % TWO_64 == (a + b) % TWO_64
  {
    assert a + b == (a % TWO_64 + b) + (a / TWO_64) * TWO_64;
    SameResidue(a % TWO_64 + b, a / TWO_64);
  }

  lemma SameResidue(a: int, q: int)
    ensures (a + q * TWO_64) % TWO_64 == a % TWO_64
  {
  }

  lemma FieldwiseTotal(a: u64, b: u64, c: u64, d: u64)
    ensures ((a + c) % TWO_64 + (b + d) % TWO_64) % TWO_64 == ((a + b) % TWO_64 + (c + d)) % TWO_64
  {
    ModSum(a + c, (b + d) % TWO_64);
    ModSum(b + d, a + c);
    ModSum(a + b, c + d);
  }

  lemma LastSum(perCpu: seq<UrrStats>)
    requires |perCpu| > 0
    ensures var init, v := perCpu[..|perCpu| - 1], perCpu[|perCpu| - 1];
            && Volume(perCpu) == Volume(init) + (v.ulBytes + v.dlBytes)
            && Total(SumOf(perCpu)) == ((SumOf(init).ulBytes + v.ulBytes) % TWO_64 + (SumOf(init).dlBytes + v.dlBytes) % TWO_64) % TWO_64
            && Total(SumOf(init)) == (SumOf(init).ulBytes + SumOf(init).dlBytes) % TWO_64
  {
  }

  lemma {:induction false} TotalIsVolume(perCpu: seq<UrrStats>)
    ensures Total(SumOf(perCpu)) == Volume(perCpu) % TWO_64
  {
    if |perCpu| > 0 {
      hide *;
      var s, v := SumOf(perCpu[..|perCpu| - 1]), perCpu[|perCpu| - 1];
      LastSum(perCpu);
      TotalIsVolume(perCpu[..|perCpu| - 1]);
      var vol := Volume(perCpu[..|perCpu| - 1]);
      FieldwiseTotal(s.ulBytes, s.dlBytes, v.ulBytes, v.dlBytes);
      ModSum(vol, v.ulBytes + v.dlBytes);
    }
  }

  lemma {:induction false} VolumeOfZeros(n: nat)
    ensures Volume(ZeroCounters(n)) == 0
  {
    if n > 0 {
      VolumeOfZeros(n - 1);
      assert ZeroCounters(n)[..n - 1] == ZeroCounters(n - 1);
    }
  }

  lemma {:induction false} VolumeOfUpdate(perCpu: seq<UrrStats>, cpu: nat, v: UrrStats)
    requires cpu < |perCpu|
    ensures Volume(perCpu[cpu := v])
            == Volume(perCpu) - perCpu[cpu].ulBytes - perCpu[cpu].dlBytes + v.ulBytes + v.dlBytes
  {
    var n := |perCpu| - 1;
    if cpu < n {
      VolumeOfUpdate(perCpu[..n], cpu, v);
      assert perCpu[cpu := v][..n] == perCpu[..n][cpu := v];
    } else {
      assert perCpu[cpu := v][..n] == perCpu[..n];
    }
  }

  lemma VolumeOfBump(perCpu: seq<UrrStats>, cpu: nat, len: u64, uplink: bool)
    requires cpu < |perCpu|
    ensures Volume(perCpu[cpu := Bump(perCpu[cpu], len, uplink)]) % TWO_64 == (Volume(perCpu) + len) % TWO_64
  {
    var s := perCpu[cpu];
    VolumeOfUpdate(perCpu, cpu, Bump(s, len, uplink));
    var field := if uplink then s.ulBytes else s.dlBytes;
    ModSum(field + len, Volume(perCpu) - field);
  }

  ghost predicate Refines(m: map<u64, seq<UrrStats>>, ncpus: nat, ops: seq<UrrOp>, seid: u64, id: u32) {
    var k, c := Compose(seid, id), Counted(ops, seid, id);
    if c.None? then k !in m
    else k in m && |m[k]| == ncpus && Volume(m[k]) % TWO_64 == c.value % TWO_64
  }

  lemma CountRefines(m: map<u64, seq<UrrStats>>, ncpus: nat, init: seq<UrrOp>, op: UrrOp)
    requires op.Count? && Proper(op, ncpus)
    requires Refines(m, ncpus, init, op.seid, op.id)
    ensures Refines(Apply(m, ncpus, op), ncpus, init + [op], op.seid, op.id)
  {
    hide Compose, Bump;
    var k := Compose(op.seid, op.id);
    var before := if k in m then m[k] else ZeroCounters(ncpus);
    assert (init + [op])[..|init|] == init;
    VolumeOfZeros(ncpus);
    VolumeOfBump(before, op.cpu, op.len, op.uplink);
    ModSum(Volume(before), op.len);
    if k in m {
      ModSum(Counted(init, op.seid, op.id).value, op.len);
    }
  }

  lemma {:induction false} ApplyAllRefines(ncpus: nat, ops: seq<UrrOp>, seid: u64, id: u32)
    requires forall op :: op in ops ==> Proper(op, ncpus)
    requires seid < TWO_48 && id < 0x1_0000
    ensures Refines(ApplyAll(ncpus, ops), ncpus, ops, seid, id)
  {
    hide Compose, Bump;
    if |ops| > 0 {
      var init, op := ops[..|ops| - 1], ops[|ops| - 1];
      assert op in ops && ops == init + [op];
      ApplyAllRefines(ncpus, init, seid, id);
      KeysMeet(op.seid, op.id, seid, id);
      VolumeOfZeros(ncpus);
      if op.Count? && op.seid == seid && op.id == id {
        CountRefines(ApplyAll(ncpus, init), ncpus, init, op);
      }
    }
  }

  /** Whatever the schedule of packets over CPUs, the total the reporter forms for the pair it splits out of
      a key is the number of bytes counted for that pair since its entry was made, in u64 arithmetic. */
  lemma ReporterTotal(ncpus: nat, ops: seq<UrrOp>, key: u64)
    requires forall op :: op in ops ==> Proper(op, ncpus)
    ensures key in ApplyAll(ncpus, ops) <==> Counted(ops, SeidOf(key), IdOf(key)).Some?
    ensures key in ApplyAll(ncpus, ops) ==>
              Total(SumOf(ApplyAll(ncpus, ops)[key])) == Counted(ops, SeidOf(key), IdOf(key)).value % TWO_64
  {
    ComposeUndoesSplit(key);
    ApplyAllRefines(ncpus, ops, SeidOf(key), IdOf(key));
    if key in ApplyAll(ncpus, ops) {
      TotalIsVolume(ApplyAll(ncpus, ops)[key]);
    }
  }
}
