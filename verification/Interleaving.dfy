/** Handlers write the maps one entry at a time, and a packet's search reads them one entry at a time:
    every schedule of the two. */
module Interleaving {
  import opened Bytes
  import opened Keys
  import opened Rules
  import opened Classifier
  import opened Server
  import opened Views

  /** One map operation; a patch is the read and write-back done under one lock. */
  datatype MapOp =
    | PutSession(k: Net32, info: SessionInfo)
    | PatchSession(k: Net32, ohc: HeaderCreation)
    | DropSession(k: Net32)
    | PutPdr(seid: u64, id: u32, pdr: PdrValue)
    | DropPdr(seid: u64, id: u32)
    | PutFar(seid: u64, id: u32, far: FarValue)
    | PatchFar(seid: u64, id: u32, ohc: HeaderCreation)
    | DropFar(seid: u64, id: u32)
    | ZeroUrr(seid: u64, id: u32, ncpus: nat)
    | DropUrr(seid: u64, id: u32)

  function Patched(v: FarValue, ohc: HeaderCreation): FarValue {
    v.(gnbIp := ToBe32(ohc.peerAddr), teid := ToBe32(ohc.teid))
  }

  function Apply(m: Maps, op: MapOp): Maps {
    match op
    case PutSession(k, info) => m.(sess := m.sess[k := info])
    case PatchSession(k, ohc) =>
      if k in m.sess then m.(sess := m.sess[k := InfoWithTunnel(m.sess[k], Some(ohc))]) else m
    case DropSession(k) => m.(sess := m.sess - {k})
    case PutPdr(s, i, v) => m.(pdr := m.pdr[Compose(s, i) := v])
    case DropPdr(s, i) => m.(pdr := m.pdr - {Compose(s, i)})
    case PutFar(s, i, v) => m.(far := m.far[Compose(s, i) := v])
    case PatchFar(s, i, ohc) =>
      var k := Compose(s, i);
      if k in m.far then m.(far := m.far[k := Patched(m.far[k], ohc)]) else m
    case DropFar(s, i) => m.(far := m.far - {Compose(s, i)})
    case ZeroUrr(s, i, n) => m.(urr := m.urr[Compose(s, i) := ZeroCounters(n)])
    case DropUrr(s, i) => m.(urr := m.urr - {Compose(s, i)})
  }

  function ApplyAll(m: Maps, ops: seq<MapOp>): Maps {
    if |ops| == 0 then m else Apply(ApplyAll(m, ops[..|ops| - 1]), ops[|ops| - 1])
  }

  lemma {:induction false} ApplyConcat(m: Maps, a: seq<MapOp>, b: seq<MapOp>)
    ensures ApplyAll(m, a + b) == ApplyAll(ApplyAll(m, a), b)
  {
    if |b| == 0 {
      assert a + b == a;
    } else {
      ApplyConcat(m, a, b[..|b| - 1]);
      assert (a + b)[..|a + b| - 1] == a + b[..|b| - 1];
    }
  }

  // The operations each handler performs, in its order.

  function PdrOps(seid: u64, ueIp: u32, pdrs: seq<ParsedPdr>): seq<MapOp> {
    seq(|pdrs|, i requires 0 <= i < |pdrs| => PutPdr(seid, pdrs[i].pdrId, PdrVal(pdrs[i], ueIp)))
  }

  function FarOps(seid: u64, n3: u32, fars: seq<ParsedFar>): seq<MapOp> {
    seq(|fars|, i requires 0 <= i < |fars| => PutFar(seid, fars[i].farId, FarVal(fars[i], n3)))
  }

  function UrrOps(seid: u64, ncpus: nat, urrs: seq<ParsedUrr>): seq<MapOp> {
    seq(|urrs|, i requires 0 <= i < |urrs| => ZeroUrr(seid, urrs[i].urrId, ncpus))
  }

  function EstablishOps(s: Srv, r: Request): seq<MapOp>
    requires r.Establish? && FirstUeIp(r.pdrs).Some? && FirstOhc(r.fars).Some?
  {
    var ueIp, gnbIp := FirstUeIp(r.pdrs).value, FirstOhc(r.fars).value.peerAddr;
    [PutSession(ToBe32(ueIp), NewInfo(s.nextSeid, s.nextTeid, gnbIp, s.n3, r.pdrs))]
    + PdrOps(s.nextSeid, ueIp, r.pdrs) + FarOps(s.nextSeid, s.n3, r.fars) + UrrOps(s.nextSeid, s.ncpus, r.urrs)
  }

  function ModifyOps(seid: u64, k: Net32, upds: seq<ParsedFar>): seq<MapOp> {
    if |upds| == 0 then []
    else
      var u := upds[|upds| - 1];
      ModifyOps(seid, k, upds[..|upds| - 1]) + OpsOf(seid, k, u)
  }

  function DropFars(seid: u64, ids: seq<u32>): seq<MapOp> {
    seq(|ids|, i requires 0 <= i < |ids| => DropFar(seid, ids[i]))
  }

  function DropUrrs(seid: u64, ids: seq<u32>): seq<MapOp> {
    seq(|ids|, i requires 0 <= i < |ids| => DropUrr(seid, ids[i]))
  }

  function DropPdrs(seid: u64, ids: seq<u32>): seq<MapOp> {
    seq(|ids|, i requires 0 <= i < |ids| => DropPdr(seid, ids[i]))
  }

  /** FAR and URR ids come out of a hash set, so in any order. */
  function DeleteOps(m: Maps, k: Net32, seid: u64, farIds: seq<u32>, urrIds: seq<u32>): seq<MapOp> {
    DropPdrs(seid, if k in m.sess then m.sess[k].pdrIds[..PdrCount(m, k)] else [])
    + DropFars(seid, farIds) + DropUrrs(seid, urrIds) + [DropSession(k)]
  }

  function IdSet(ids: seq<u32>): set<u32> {
    set i | 0 <= i < |ids| :: ids[i]
  }

  lemma {:induction false} PdrOpsInstall(m: Maps, seid: u64, ueIp: u32, pdrs: seq<ParsedPdr>)
    ensures ApplyAll(m, PdrOps(seid, ueIp, pdrs)) == m.(pdr := InstallPdrs(m.pdr, seid, ueIp, pdrs))
  {
    hide Compose, PdrVal;
    if |pdrs| > 0 {
      PdrOpsInstall(m, seid, ueIp, pdrs[..|pdrs| - 1]);
      assert PdrOps(seid, ueIp, pdrs)[..|pdrs| - 1] == PdrOps(seid, ueIp, pdrs[..|pdrs| - 1]);
    }
  }

  lemma {:induction false} FarOpsInstall(m: Maps, seid: u64, n3: u32, fars: seq<ParsedFar>)
    ensures ApplyAll(m, FarOps(seid, n3, fars)) == m.(far := InstallFars(m.far, seid, n3, fars))
  {
    hide Compose, FarVal;
    if |fars| > 0 {
      FarOpsInstall(m, seid, n3, fars[..|fars| - 1]);
      assert FarOps(seid, n3, fars)[..|fars| - 1] == FarOps(seid, n3, fars[..|fars| - 1]);
    }
  }

  lemma {:induction false} UrrOpsInstall(m: Maps, seid: u64, ncpus: nat, urrs: seq<ParsedUrr>)
    ensures ApplyAll(m, UrrOps(seid, ncpus, urrs)) == m.(urr := InstallUrrs(m.urr, seid, ncpus, urrs))
  {
    hide Compose;
    if |urrs| > 0 {
      UrrOpsInstall(m, seid, ncpus, urrs[..|urrs| - 1]);
      assert UrrOps(seid, ncpus, urrs)[..|urrs| - 1] == UrrOps(seid, ncpus, urrs[..|urrs| - 1]);
    }
  }

  /** The handlers' whole effect on the maps is their operations one after the other. */
  lemma EstablishIsItsOps(st: State, src: SockAddr, r: Request, found: Option<NodeId>, now: nat)
    requires r.Establish? && EstablishAccepted(src, r, found)
    ensures EstablishStep(st, src, r, found, now).maps == ApplyAll(st.maps, EstablishOps(st.srv, r))
  {
    hide InstallPdrs, InstallFars, InstallUrrs, PdrOps, FarOps, UrrOps, NewInfo, Configure;
    var s, m, ueIp := st.srv, st.maps, FirstUeIp(r.pdrs).value;
    var o1 := [PutSession(ToBe32(ueIp), NewInfo(s.nextSeid, s.nextTeid, FirstOhc(r.fars).value.peerAddr, s.n3, r.pdrs))];
    var o2, o3, o4 := PdrOps(s.nextSeid, ueIp, r.pdrs), FarOps(s.nextSeid, s.n3, r.fars), UrrOps(s.nextSeid, s.ncpus, r.urrs);
    ApplyConcat(m, o1, o2);
    ApplyConcat(m, o1 + o2, o3);
    ApplyConcat(m, o1 + o2 + o3, o4);
    var m1 := ApplyAll(m, o1);
    assert m1 == Apply(m, o1[0]) by { assert o1[..0] == []; }
    PdrOpsInstall(m1, s.nextSeid, ueIp, r.pdrs);
    var m2 := ApplyAll(m1, o2);
    FarOpsInstall(m2, s.nextSeid, s.n3, r.fars);
    UrrOpsInstall(ApplyAll(m2, o3), s.nextSeid, s.ncpus, r.urrs);
  }

  function OpsOf(seid: u64, k: Net32, u: ParsedFar): seq<MapOp> {
    (if u.ohc.Some? then [PatchFar(seid, u.farId, u.ohc.value)] else [])
    + (if AccessTunnel(u) then [PatchSession(k, u.ohc.value)] else [])
  }

  lemma ApplySingle(m: Maps, op: MapOp)
    ensures ApplyAll(m, [op]) == Apply(m, op)
  {
    hide Compose;
    assert [op][..0] == [];
  }

  lemma OneUpdate(m: Maps, seid: u64, k: Net32, u: ParsedFar)
    ensures ApplyAll(m, OpsOf(seid, k, u))
            == m.(far := PatchFars(m.far, seid, [u]),
                  sess := if k in m.sess then m.sess[k := InfoWithTunnel(m.sess[k], LastTunnel([u]))] else m.sess)
  {
    assert ApplyAll(m, []) == m;
    hide Compose, ApplyAll;
    assert [u][..0] == [];
    if u.ohc.None? {
      assert OpsOf(seid, k, u) == [];
    } else {
      var patch, session := PatchFar(seid, u.farId, u.ohc.value), PatchSession(k, u.ohc.value);
      ApplySingle(m, patch);
      if AccessTunnel(u) {
        ApplyConcat(m, [patch], [session]);
        ApplySingle(Apply(m, patch), session);
        assert OpsOf(seid, k, u) == [patch] + [session];
      } else {
        assert OpsOf(seid, k, u) == [patch];
      }
    }
  }

  lemma {:induction false} ModifyIsItsOps(m: Maps, seid: u64, k: Net32, upds: seq<ParsedFar>)
    ensures ApplyAll(m, ModifyOps(seid, k, upds))
            == m.(far := PatchFars(m.far, seid, upds),
                  sess := if k in m.sess then m.sess[k := InfoWithTunnel(m.sess[k], LastTunnel(upds))] else m.sess)
  {
    hide Compose, OpsOf;
    if |upds| > 0 {
      hide ApplyAll;
      var u, init := upds[|upds| - 1], upds[..|upds| - 1];
      ModifyIsItsOps(m, seid, k, init);
      var m1 := ApplyAll(m, ModifyOps(seid, k, init));
      ApplyConcat(m, ModifyOps(seid, k, init), OpsOf(seid, k, u));
      OneUpdate(m1, seid, k, u);
      assert [u][..0] == [];
    }
  }

  lemma {:induction false} DropPdrsRemoves(m: Maps, seid: u64, ids: seq<u32>)
    ensures ApplyAll(m, DropPdrs(seid, ids)) == m.(pdr := m.pdr - KeysOf(seid, IdSet(ids)))
  {
    hide Compose;
    if |ids| > 0 {
      var init := ids[..|ids| - 1];
      DropPdrsRemoves(m, seid, init);
      assert DropPdrs(seid, ids)[..|ids| - 1] == DropPdrs(seid, init);
      IdSetLast(ids);
      assert KeysOf(seid, IdSet(ids)) == KeysOf(seid, IdSet(init)) + {Compose(seid, ids[|ids| - 1])};
    }
  }

  lemma IdSetLast(ids: seq<u32>)
    requires |ids| > 0
    ensures IdSet(ids) == IdSet(ids[..|ids| - 1]) + {ids[|ids| - 1]}
  {
    var init := ids[..|ids| - 1];
    forall x | x in IdSet(ids) ensures x in IdSet(init) || x == ids[|ids| - 1] {
      var i :| 0 <= i < |ids| && ids[i] == x;
      assert i < |init| ==> init[i] == x;
    }
    forall x | x in IdSet(init) ensures x in IdSet(ids) {
      var i :| 0 <= i < |init| && init[i] == x;
      assert ids[i] == x;
    }
  }

  lemma {:induction false} DropFarsRemoves(m: Maps, seid: u64, ids: seq<u32>)
    ensures ApplyAll(m, DropFars(seid, ids)) == m.(far := m.far - KeysOf(seid, IdSet(ids)))
  {
    hide Compose;
    if |ids| > 0 {
      var init := ids[..|ids| - 1];
      DropFarsRemoves(m, seid, init);
      assert DropFars(seid, ids)[..|ids| - 1] == DropFars(seid, init);
      IdSetLast(ids);
      assert KeysOf(seid, IdSet(ids)) == KeysOf(seid, IdSet(init)) + {Compose(seid, ids[|ids| - 1])};
    }
  }

  lemma {:induction false} DropUrrsRemoves(m: Maps, seid: u64, ids: seq<u32>)
    ensures ApplyAll(m, DropUrrs(seid, ids)) == m.(urr := m.urr - KeysOf(seid, IdSet(ids)))
  {
    hide Compose;
    if |ids| > 0 {
      var init := ids[..|ids| - 1];
      DropUrrsRemoves(m, seid, init);
      assert DropUrrs(seid, ids)[..|ids| - 1] == DropUrrs(seid, init);
      IdSetLast(ids);
      assert KeysOf(seid, IdSet(ids)) == KeysOf(seid, IdSet(init)) + {Compose(seid, ids[|ids| - 1])};
    }
  }

  lemma DeleteIsItsOps(m: Maps, k: Net32, seid: u64, farIds: seq<u32>, urrIds: seq<u32>)
    requires IdSet(farIds) == FarIds(m, k, seid) && IdSet(urrIds) == UrrIds(m, k, seid)
    ensures DeleteMaps(m, k, seid) == ApplyAll(m, DeleteOps(m, k, seid, farIds, urrIds))
  {
    hide Compose, FarIds, UrrIds, DropPdrs, DropFars, DropUrrs;
    var ids := if k in m.sess then m.sess[k].pdrIds[..PdrCount(m, k)] else [];
    var o1, o2, o3, o4 := DropPdrs(seid, ids), DropFars(seid, farIds), DropUrrs(seid, urrIds), [DropSession(k)];
    ApplyConcat(m, o1, o2);
    ApplyConcat(m, o1 + o2, o3);
    ApplyConcat(m, o1 + o2 + o3, o4);
    DropPdrsRemoves(m, seid, ids);
    DropFarsRemoves(ApplyAll(m, o1), seid, farIds);
    DropUrrsRemoves(ApplyAll(m, o1 + o2), seid, urrIds);
    assert o4[..0] == [];
    PdrKeysAreIds(m, k, seid);
  }

  lemma PdrKeysAreIds(m: Maps, k: Net32, seid: u64)
    ensures PdrKeys(m, k, seid) == KeysOf(seid, IdSet(if k in m.sess then m.sess[k].pdrIds[..PdrCount(m, k)] else []))
  {
    hide Compose;
    var ids := if k in m.sess then m.sess[k].pdrIds[..PdrCount(m, k)] else [];
    forall key | key in PdrKeys(m, k, seid) ensures key in KeysOf(seid, IdSet(ids)) {
      var i :| 0 <= i < PdrCount(m, k) && Compose(seid, m.sess[k].pdrIds[i]) == key;
      assert ids[i] in IdSet(ids);
    }
  }

  // Every schedule. `ops` is any interleaving of operations of any handlers; a packet reads at any times in it.

  /** The operation is on behalf of a session whose SEID fits the keys. */
  predicate Fits(op: MapOp) {
    op.PutSession? || op.PatchSession? || op.DropSession? || op.seid < TWO_48
  }

  lemma HandlerOpsFit(s: Srv, r: Request, seid: u64, k: Net32, m: Maps, farIds: seq<u32>, urrIds: seq<u32>)
    requires s.nextSeid < TWO_48 && seid < TWO_48
    ensures r.Establish? && FirstUeIp(r.pdrs).Some? && FirstOhc(r.fars).Some? ==>
              forall op :: op in EstablishOps(s, r) ==> Fits(op)
    ensures r.Modify? ==> forall op :: op in ModifyOps(seid, k, r.updFars) ==> Fits(op)
    ensures forall op :: op in DeleteOps(m, k, seid, farIds, urrIds) ==> Fits(op)
  {
    if r.Modify? {
      ModifyOpsFit(seid, k, r.updFars);
    }
  }

  lemma {:induction false} ModifyOpsFit(seid: u64, k: Net32, upds: seq<ParsedFar>)
    requires seid < TWO_48
    ensures forall op :: op in ModifyOps(seid, k, upds) ==> Fits(op)
  {
    if |upds| > 0 {
      ModifyOpsFit(seid, k, upds[..|upds| - 1]);
    }
  }

  function MapsAt(ops: seq<MapOp>, time: nat): Maps
    requires time <= |ops|
  {
    ApplyAll(EMPTY_MAPS, ops[..time])
  }

  /** When the search reads PDR and FAR of each round. */
  datatype Times = Times(pdr: seq<nat>, far: seq<nat>)

  predicate During(times: Times, ops: seq<MapOp>) {
    && |times.pdr| == MAX_PDR_PER_SESSION && |times.far| == MAX_PDR_PER_SESSION
    && (forall i :: 0 <= i < MAX_PDR_PER_SESSION ==> times.pdr[i] <= |ops| && times.far[i] <= |ops|)
  }

  datatype Scan = Scan(best: Option<(FarValue, u32)>, precedence: u32)

  /** The loop of `select_far` after `n` rounds, each map read happening at its own time. */
  function ScanAt(ops: seq<MapOp>, info: SessionInfo, iface: u8, q: Query, times: Times, n: nat): Scan
    requires During(times, ops) && n <= Limit(info)
  {
    if n == 0 then Scan(None, 0xFFFF_FFFF)
    else
      var before, i := ScanAt(ops, info, iface, q, times, n - 1), n - 1;
      var pdrs, k := MapsAt(ops, times.pdr[i]).pdr, PdrKeyAt(info, i);
      if k !in pdrs || pdrs[k].sourceInterface != iface || !SdfMatches(pdrs[k], q) || pdrs[k].precedence >= before.precedence
      then before
      else
        var fars, f := MapsAt(ops, times.far[i]).far, Compose(info.seid, pdrs[k].farId);
        if f !in fars then before else Scan(Some((fars[f], pdrs[k].urrId)), pdrs[k].precedence)
  }

  // A handler's operations are split by those of others, so a deletion's last one may come late.

  /** Operation `j` is the last of the first `n` that puts an entry under `k`. */
  predicate LastPut(ops: seq<MapOp>, k: Net32, j: nat, n: nat) {
    && j < n <= |ops| && ops[j].PutSession? && ops[j].k == k
    && forall i :: j < i < n ==> !(ops[i].PutSession? && ops[i].k == k)
  }

  /** A session still has the SESSION entry its establishment put exactly when no deletion drops that UE address after
      it, whichever session the deletion was for; patches leave its SEID. */
  lemma {:induction false} SessionEntryStaysIff(ops: seq<MapOp>, k: Net32, j: nat, n: nat)
    requires LastPut(ops, k, j, n)
    ensures k in MapsAt(ops, n).sess <==> forall i :: j < i < n ==> ops[i] != DropSession(k)
    ensures k in MapsAt(ops, n).sess ==> MapsAt(ops, n).sess[k].seid == ops[j].info.seid
  {
    hide Compose;
    assert ops[..n][..n - 1] == ops[..n - 1];
    assert MapsAt(ops, n) == Apply(MapsAt(ops, n - 1), ops[n - 1]);
    hide MapsAt, ApplyAll;
    if j < n - 1 {
      SessionEntryStaysIff(ops, k, j, n - 1);
    }
  }

  // The map work of a deletion, done after operations of other handlers.

  predicate Foreign(op: MapOp, seid: u64) {
    Fits(op) && (op.PutSession? || op.PatchSession? || op.DropSession? || op.seid != seid)
  }

  /** The operation puts or drops the SESSION entry of the address. */
  predicate Rekeys(op: MapOp, k: Net32) {
    (op.PutSession? || op.DropSession?) && op.k == k
  }

  // Operations for other SEIDs are foreign. Of these an establishment rekeys exactly its own UE address, a deletion
  // exactly that of its session, and a modification none.

  lemma EstablishOpsRekey(s: Srv, r: Request, seid: u64, k: Net32)
    requires r.Establish? && FirstUeIp(r.pdrs).Some? && FirstOhc(r.fars).Some?
    requires s.nextSeid < TWO_48 && s.nextSeid != seid
    ensures forall op :: op in EstablishOps(s, r) ==> Foreign(op, seid)
    ensures (exists op :: op in EstablishOps(s, r) && Rekeys(op, k)) <==> k == ToBe32(FirstUeIp(r.pdrs).value)
  {
    hide FirstUeIp, FirstOhc, NewInfo, PdrVal, FarVal;
    var ops := EstablishOps(s, r);
    assert ops[0] in ops && ops[0].PutSession? && ops[0].k == ToBe32(FirstUeIp(r.pdrs).value);
  }

  lemma DeleteOpsRekey(m: Maps, k': Net32, u: u64, farIds: seq<u32>, urrIds: seq<u32>, seid: u64, k: Net32)
    requires u < TWO_48 && u != seid
    ensures forall op :: op in DeleteOps(m, k', u, farIds, urrIds) ==> Foreign(op, seid)
    ensures (exists op :: op in DeleteOps(m, k', u, farIds, urrIds) && Rekeys(op, k)) <==> k == k'
  {
    var ops := DeleteOps(m, k', u, farIds, urrIds);
    assert ops[|ops| - 1] in ops && ops[|ops| - 1] == DropSession(k');
  }

  lemma {:induction false} ModifyOpsForeign(u: u64, k': Net32, upds: seq<ParsedFar>, seid: u64, k: Net32)
    requires u < TWO_48 && u != seid
    ensures forall op :: op in ModifyOps(u, k', upds) ==> Foreign(op, seid) && !Rekeys(op, k)
  {
    if |upds| > 0 {
      ModifyOpsForeign(u, k', upds[..|upds| - 1], seid, k);
    }
  }

  lemma ForeignKeeps(m: Maps, op: MapOp, seid: u64, id: u32)
    requires Foreign(op, seid) && seid < TWO_48
    ensures var m', key := Apply(m, op), Compose(seid, id);
            SameAt(m.pdr, m'.pdr, key) && SameAt(m.far, m'.far, key) && SameAt(m.urr, m'.urr, key)
  {
    hide Compose, InfoWithTunnel;
    if !op.PutSession? && !op.PatchSession? && !op.DropSession? {
      KeysMeet(op.seid, op.id, seid, id);
    }
  }

  lemma ForeignIds(m: Maps, op: MapOp, k: Net32, seid: u64)
    requires Foreign(op, seid) && !Rekeys(op, k) && seid < TWO_48
    ensures var m' := Apply(m, op);
            && PdrKeys(m', k, seid) == PdrKeys(m, k, seid)
            && FarIds(m', k, seid) == FarIds(m, k, seid) && UrrIds(m', k, seid) == UrrIds(m, k, seid)
  {
    hide Compose, Foreign;
    forall id: u32 ensures SameAt(m.pdr, Apply(m, op).pdr, Compose(seid, id)) {
      ForeignKeeps(m, op, seid, id);
    }
    SameIds(m, Apply(m, op), k, seid);
  }

  lemma ForeignKey(m: Maps, op: MapOp, k: Net32, seid: u64)
    requires Foreign(op, seid) && !op.PutSession? && !op.PatchSession? && !op.DropSession? && seid < TWO_48
    ensures var key := Compose(op.seid, op.id);
            && key !in PdrKeys(m, k, seid)
            && key !in KeysOf(seid, FarIds(m, k, seid)) && key !in KeysOf(seid, UrrIds(m, k, seid))
  {
    hide Compose, FarIds, UrrIds;
    forall id: u32 ensures Compose(op.seid, op.id) != Compose(seid, id) {
      KeysMeet(op.seid, op.id, seid, id);
    }
  }

  /** A foreign operation that does not rekey the address can as well come after the map work. */
  lemma MapWorkCommutes(m: Maps, op: MapOp, k: Net32, seid: u64)
    requires Foreign(op, seid) && !Rekeys(op, k) && seid < TWO_48
    ensures DeleteMaps(Apply(m, op), k, seid) == Apply(DeleteMaps(m, k, seid), op)
  {
    hide Compose, PdrKeys, FarIds, UrrIds, KeysOf, Patched, ZeroCounters, Rekeys;
    ForeignIds(m, op, k, seid);
    if op.PutSession? || op.PatchSession? || op.DropSession? {
      SessionWorkCommutes(m.sess, op, k);
    } else {
      ForeignKey(m, op, k, seid);
    }
  }

  lemma SessionWorkCommutes(sess: map<Net32, SessionInfo>, op: MapOp, k: Net32)
    requires (op.PutSession? || op.PatchSession? || op.DropSession?) && !Rekeys(op, k)
    ensures Apply(EMPTY_MAPS.(sess := sess), op).sess - {k} == Apply(EMPTY_MAPS.(sess := sess - {k}), op).sess
  {
    hide InfoWithTunnel;
  }

  lemma SameIds(m: Maps, m': Maps, k: Net32, seid: u64)
    requires k in m.sess <==> k in m'.sess
    requires k in m.sess ==> m'.sess[k].pdrIds == m.sess[k].pdrIds && m'.sess[k].pdrCount == m.sess[k].pdrCount
    requires forall id: u32 :: SameAt(m.pdr, m'.pdr, Compose(seid, id))
    ensures PdrKeys(m', k, seid) == PdrKeys(m, k, seid)
    ensures FarIds(m', k, seid) == FarIds(m, k, seid) && UrrIds(m', k, seid) == UrrIds(m, k, seid)
  {
    hide Compose;
    assert PdrCount(m', k) == PdrCount(m, k);
    assert PdrKeys(m', k, seid) == PdrKeys(m, k, seid);
    forall key | key in PdrKeys(m, k, seid) ensures SameAt(m.pdr, m'.pdr, key) {
      var i :| 0 <= i < PdrCount(m, k) && Compose(seid, m.sess[k].pdrIds[i]) == key;
      assert SameAt(m.pdr, m'.pdr, Compose(seid, m.sess[k].pdrIds[i]));
    }
  }

  lemma {:induction false} LateMapWork(m: Maps, k: Net32, seid: u64, between: seq<MapOp>)
    requires seid < TWO_48 && forall op :: op in between ==> Foreign(op, seid) && !Rekeys(op, k)
    ensures DeleteMaps(ApplyAll(m, between), k, seid) == ApplyAll(DeleteMaps(m, k, seid), between)
  {
    hide Apply, DeleteMaps, Foreign, Rekeys;
    if |between| > 0 {
      LateMapWork(m, k, seid, between[..|between| - 1]);
      MapWorkCommutes(ApplyAll(m, between[..|between| - 1]), between[|between| - 1], k, seid);
    }
  }

  lemma {:induction false} ForeignKeepAll(m: Maps, ops: seq<MapOp>, seid: u64, id: u32)
    requires seid < TWO_48 && forall op :: op in ops ==> Foreign(op, seid)
    ensures SameAt(m.pdr, ApplyAll(m, ops).pdr, Compose(seid, id))
  {
    hide Apply, Foreign, Compose;
    if |ops| > 0 {
      ForeignKeepAll(m, ops[..|ops| - 1], seid, id);
      ForeignKeeps(ApplyAll(m, ops[..|ops| - 1]), ops[|ops| - 1], seid, id);
    }
  }

  lemma SameEntry(m: Maps, m': Maps, op: MapOp, k: Net32)
    requires Rekeys(op, k) || (k in m.sess <==> k in m'.sess)
    ensures k in Apply(m, op).sess <==> k in Apply(m', op).sess
  {
    hide Compose;
  }

  /** After an operation that rekeys the address its entry no longer depends on what was there before. */
  lemma {:induction false} RekeyForgets(m: Maps, m': Maps, ops: seq<MapOp>, k: Net32)
    requires exists op :: op in ops && Rekeys(op, k)
    ensures k in ApplyAll(m, ops).sess <==> k in ApplyAll(m', ops).sess
  {
    hide Apply, Rekeys;
    var init, last := ops[..|ops| - 1], ops[|ops| - 1];
    if !Rekeys(last, k) {
      var op :| op in ops && Rekeys(op, k);
      assert op in init;
      RekeyForgets(m, m', init, k);
    }
    SameEntry(ApplyAll(m, init), ApplyAll(m', init), last, k);
  }

  /** A deletion whose map work is done after operations of other handlers ends in the maps of one whose map work is done
      at once exactly when none of these operations puts or drops the SESSION entry of its UE address. */
  lemma DelayedDeletionIff(m: Maps, k: Net32, seid: u64, between: seq<MapOp>)
    requires seid < TWO_48 && forall op :: op in between ==> Foreign(op, seid)
    requires k in m.sess && PdrCount(m, k) > 0 && Compose(seid, m.sess[k].pdrIds[0]) in m.pdr
    ensures DeleteMaps(ApplyAll(m, between), k, seid) == ApplyAll(DeleteMaps(m, k, seid), between)
            <==> forall op :: op in between ==> !Rekeys(op, k)
  {
    hide Compose, Foreign, Rekeys, ApplyAll;
    var id := m.sess[k].pdrIds[0];
    var early, late := DeleteMaps(m, k, seid), ApplyAll(m, between);
    if forall op :: op in between ==> !Rekeys(op, k) {
      LateMapWork(m, k, seid, between);
    } else {
      RekeyForgets(m, early, between, k);
      assert Compose(seid, id) in PdrKeys(m, k, seid) && Compose(seid, id) !in early.pdr;
      ForeignKeepAll(m, between, seid, id);
      ForeignKeepAll(early, between, seid, id);
      if k in late.sess {
        assert k !in DeleteMaps(late, k, seid).sess && k in ApplyAll(early, between).sess;
      } else {
        assert PdrKeys(late, k, seid) == {};
        assert Compose(seid, id) in DeleteMaps(late, k, seid).pdr && Compose(seid, id) !in ApplyAll(early, between).pdr;
      }
    }
  }

  /** What it ends in after a whole establishment for the same UE address: the new session keeps its rules but has lost its
      SESSION entry, and of the old session's PDRs those stay whose ids the new one's first eight do not repeat. */
  lemma SplitDeletion(st: State, src: SockAddr, r: Request, found: Option<NodeId>, now: nat, seid: u64, id: u32)
    requires r.Establish? && EstablishAccepted(src, r, found)
    requires seid < TWO_48 && st.srv.nextSeid < TWO_48 && st.srv.nextSeid != seid
    ensures var k, m := ToBe32(FirstUeIp(r.pdrs).value), EstablishStep(st, src, r, found, now).maps;
            var late := DeleteMaps(m, k, seid);
            && k !in late.sess
            && SameAt(m.pdr, late.pdr, Compose(st.srv.nextSeid, id)) && SameAt(m.far, late.far, Compose(st.srv.nextSeid, id))
            && (Compose(seid, id) in late.pdr <==>
                  && Compose(seid, id) in st.maps.pdr
                  && forall i :: 0 <= i < Installed(|r.pdrs|) ==> r.pdrs[i].pdrId != id % 0x1_0000)
  {
    hide Compose, FirstUeIp, FirstOhc, PdrVal, FarVal, Configure;
    var k, m := ToBe32(FirstUeIp(r.pdrs).value), EstablishStep(st, src, r, found, now).maps;
    InstallPdrsAt(st.maps.pdr, st.srv.nextSeid, k.host, r.pdrs, seid, id);
    assert PdrCount(m, k) == Installed(|r.pdrs|);
    forall i: nat | i < Installed(|r.pdrs|)
      ensures m.sess[k].pdrIds[i] == r.pdrs[i].pdrId
      ensures Compose(seid, r.pdrs[i].pdrId) == Compose(seid, id) <==> r.pdrs[i].pdrId == id % 0x1_0000
    {
      KeysMeet(seid, r.pdrs[i].pdrId, seid, id);
    }
    forall id' ensures Compose(seid, id') != Compose(st.srv.nextSeid, id) {
      KeysMeet(seid, id', st.srv.nextSeid, id);
    }
  }

  /** Operation `j` stored `v` as a FAR of `seid`. */
  ghost predicate StoredBy(ops: seq<MapOp>, j: nat, seid: u64, v: FarValue) {
    && j < |ops| && (ops[j].PutFar? || ops[j].PatchFar?) && ops[j].seid == seid
    && var k, m := Compose(seid, ops[j].id), MapsAt(ops, j + 1);
    && k in m.far && m.far[k] == v
  }

  lemma {:induction false} FarHasWriter(ops: seq<MapOp>, time: nat, seid: u64, id: u32)
    requires (forall op :: op in ops ==> Fits(op)) && time <= |ops| && seid < TWO_48
    requires Compose(seid, id) in MapsAt(ops, time).far
    ensures exists j: nat :: j < time && StoredBy(ops, j, seid, MapsAt(ops, time).far[Compose(seid, id)])
  {
    hide Compose, InfoWithTunnel;
    assert time > 0;
    var op, k := ops[time - 1], Compose(seid, id);
    assert op in ops;
    assert ops[..time][..time - 1] == ops[..time - 1];
    assert MapsAt(ops, time) == Apply(MapsAt(ops, time - 1), op);
    if (op.PutFar? || op.PatchFar?) && Compose(op.seid, op.id) == k {
      KeysMeet(op.seid, op.id, seid, id);
      assert StoredBy(ops, time - 1, seid, MapsAt(ops, time).far[k]);
    } else {
      FarHasWriter(ops, time - 1, seid, id);
    }
  }

  /** Whatever interleaves, the search only ever returns a FAR stored for the SEID of the session looked up. */
  lemma {:induction false} OnlyOwnFars(ops: seq<MapOp>, info: SessionInfo, iface: u8, q: Query, times: Times, n: nat)
    requires (forall op :: op in ops ==> Fits(op)) && info.seid < TWO_48
    requires During(times, ops) && n <= Limit(info)
    ensures var r := ScanAt(ops, info, iface, q, times, n).best;
            r.Some? ==> exists j: nat :: StoredBy(ops, j, info.seid, r.value.0)
  {
    hide Compose, StoredBy, MapsAt, SdfMatches;
    if n > 0 {
      OnlyOwnFars(ops, info, iface, q, times, n - 1);
      var i := n - 1;
      var pdrs, k := MapsAt(ops, times.pdr[i]).pdr, PdrKeyAt(info, i);
      if k in pdrs && Compose(info.seid, pdrs[k].farId) in MapsAt(ops, times.far[i]).far {
        FarHasWriter(ops, times.far[i], info.seid, pdrs[k].farId);
      }
    }
  }

  /** With all reads at one time the scan is `select_far` on the maps of that time. */
  lemma {:induction false} AtomicScanIsSelect(ops: seq<MapOp>, info: SessionInfo, iface: u8, q: Query, times: Times, time: nat, n: nat)
    requires During(times, ops) && n <= Limit(info) && time <= |ops|
    requires forall i :: 0 <= i < MAX_PDR_PER_SESSION ==> times.pdr[i] == time && times.far[i] == time
    ensures var m, s := MapsAt(ops, time), ScanAt(ops, info, iface, q, times, n);
            var b := Best(m, info, iface, q, n);
            if b.None? then s == Scan(None, 0xFFFF_FFFF)
            else s == Scan(Some(FoundAt(m, info, iface, q, b.value)), PdrAt(m, info, iface, q, b.value).precedence)
  {
    hide Compose, MapsAt, SdfMatches;
    if n > 0 {
      AtomicScanIsSelect(ops, info, iface, q, times, time, n - 1);
    }
  }
}
