/** How the compiled maps relate to a session's rule lists, entry by entry. */
module Views {
  import opened Bytes
  import opened Keys
  import opened Rules
  import opened Server

  /** The PDR entries of `seid` are exactly the rules in force in `pdrs`. */
  ghost predicate PdrView(m: map<u64, PdrValue>, seid: u64, ueIp: u32, pdrs: seq<ParsedPdr>) {
    forall id: u32 :: PdrEntry(m, seid, ueIp, pdrs, id)
  }

  ghost predicate PdrEntry(m: map<u64, PdrValue>, seid: u64, ueIp: u32, pdrs: seq<ParsedPdr>, id: u32) {
    var k, p := Compose(seid, id), LastPdr(pdrs, id);
    if p.None? then k !in m else k in m && m[k] == PdrVal(p.value, ueIp)
  }

  ghost predicate FarView(m: map<u64, FarValue>, seid: u64, n3: u32, fars: seq<ParsedFar>) {
    forall id: u32 :: FarEntry(m, seid, n3, fars, id)
  }

  ghost predicate FarEntry(m: map<u64, FarValue>, seid: u64, n3: u32, fars: seq<ParsedFar>, id: u32) {
    var k, f := Compose(seid, id), LastFar(fars, id);
    if f.None? then k !in m else k in m && m[k] == FarVal(f.value, n3)
  }

  predicate HasUrr(urrs: seq<ParsedUrr>, id: u32) {
    exists i :: 0 <= i < |urrs| && urrs[i].urrId % 0x1_0000 == id % 0x1_0000
  }

  /** Two maps agree on every key of a SEID. */
  ghost predicate SameFor<V>(m: map<u64, V>, m': map<u64, V>, seid: u64) {
    forall id: u32 :: SameAt(m, m', Compose(seid, id))
  }

  ghost predicate SameAt<K, V>(m: map<K, V>, m': map<K, V>, k: K) {
    (k in m <==> k in m') && (k in m ==> m[k] == m'[k])
  }

  /** Every key belongs to a SEID handed out so far. */
  ghost predicate KeysBelow<V>(m: map<u64, V>, bound: nat) {
    forall k :: k in m ==> SeidOf(k) < bound
  }

  /** The parts of compiled rules that no packet program reads: the UE address, header removal, the destination interface,
      which is the access side if none is given, and the address of the UPF on N3. */
  lemma UnreadParts(p: ParsedPdr, ueIp: u32, f: ParsedFar, n3: u32)
    ensures PdrVal(p, ueIp).ueIp.host == ueIp && (PdrVal(p, ueIp).headerRemoval == 1 <==> p.headerRemoval)
    ensures PdrVal(p, ueIp).headerRemoval in {0, 1}
    ensures FarVal(f, n3).upfN3Ip.host == n3
    ensures f.destInterface == Some(FarVal(f, n3).dstInterface) || (f.destInterface.None? && FarVal(f, n3).dstInterface == 0)
  {
  }

  /** A PDR without a FAR or URR id names FAR 0, and no URR. */
  lemma AbsentIds(p: ParsedPdr, ueIp: u32)
    ensures p.farId.Some? ==> PdrVal(p, ueIp).farId == p.farId.value
    ensures p.farId.None? ==> PdrVal(p, ueIp).farId == 0
    ensures p.urrId.Some? ==> PdrVal(p, ueIp).urrId == p.urrId.value
    ensures p.urrId.None? ==> PdrVal(p, ueIp).urrId == 0
  {
  }

  // Writing a rule list.

  lemma {:induction false} InstallPdrsAt(m: map<u64, PdrValue>, seid: u64, ueIp: u32, pdrs: seq<ParsedPdr>, t: u64, id: u32)
    requires seid < TWO_48 && t < TWO_48
    ensures var m', k := InstallPdrs(m, seid, ueIp, pdrs), Compose(t, id);
            if t == seid && LastPdr(pdrs, id).Some?
            then k in m' && m'[k] == PdrVal(LastPdr(pdrs, id).value, ueIp)
            else SameAt(m, m', k)
  {
    hide Compose, PdrVal;
    if |pdrs| > 0 {
      InstallPdrsAt(m, seid, ueIp, pdrs[..|pdrs| - 1], t, id);
      KeysMeet(seid, pdrs[|pdrs| - 1].pdrId, t, id);
    }
  }

  lemma {:induction false} InstallFarsAt(m: map<u64, FarValue>, seid: u64, n3: u32, fars: seq<ParsedFar>, t: u64, id: u32)
    requires seid < TWO_48 && t < TWO_48
    ensures var m', k := InstallFars(m, seid, n3, fars), Compose(t, id);
            if t == seid && LastFar(fars, id).Some?
            then k in m' && m'[k] == FarVal(LastFar(fars, id).value, n3)
            else SameAt(m, m', k)
  {
    hide Compose, FarVal;
    if |fars| > 0 {
      InstallFarsAt(m, seid, n3, fars[..|fars| - 1], t, id);
      KeysMeet(seid, fars[|fars| - 1].farId, t, id);
    }
  }

  lemma {:induction false} InstallUrrsAt(m: map<u64, seq<UrrStats>>, seid: u64, ncpus: nat, urrs: seq<ParsedUrr>, t: u64, id: u32)
    requires seid < TWO_48 && t < TWO_48
    ensures var m', k := InstallUrrs(m, seid, ncpus, urrs), Compose(t, id);
            if t == seid && HasUrr(urrs, id) then k in m' && m'[k] == ZeroCounters(ncpus) else SameAt(m, m', k)
  {
    hide Compose;
    if |urrs| > 0 {
      var init, last := urrs[..|urrs| - 1], urrs[|urrs| - 1];
      InstallUrrsAt(m, seid, ncpus, init, t, id);
      KeysMeet(seid, last.urrId, t, id);
      if HasUrr(init, id) {
        var i :| 0 <= i < |init| && init[i].urrId % 0x1_0000 == id % 0x1_0000;
        assert urrs[i] == init[i];
      }
      assert urrs[|urrs| - 1] == last;
      assert HasUrr(urrs, id) ==> HasUrr(init, id) || last.urrId % 0x1_0000 == id % 0x1_0000 by {
        if HasUrr(urrs, id) {
          var i :| 0 <= i < |urrs| && urrs[i].urrId % 0x1_0000 == id % 0x1_0000;
          assert i < |init| ==> init[i] == urrs[i];
        }
      }
    }
  }

  // Patching FARs: the same update on the rules and on the map.

  function PatchRule(f: ParsedFar, u: ParsedFar): ParsedFar {
    if u.ohc.Some? && f.farId % 0x1_0000 == u.farId % 0x1_0000 then f.(ohc := u.ohc) else f
  }

  function PatchRules(fars: seq<ParsedFar>, u: ParsedFar): (r: seq<ParsedFar>)
    ensures |r| == |fars|
  {
    seq(|fars|, i requires 0 <= i < |fars| => PatchRule(fars[i], u))
  }

  /** A rule list after a list of accepted Update FARs. */
  function PatchedRules(fars: seq<ParsedFar>, upds: seq<ParsedFar>): (r: seq<ParsedFar>)
    ensures |r| == |fars|
  {
    if |upds| == 0 then fars else PatchRules(PatchedRules(fars, upds[..|upds| - 1]), upds[|upds| - 1])
  }

  /** Updates change the tunnel of a rule and nothing else. */
  lemma {:induction false} PatchedKeepRules(fars: seq<ParsedFar>, upds: seq<ParsedFar>, i: nat)
    requires i < |fars|
    ensures PatchedRules(fars, upds)[i] == fars[i].(ohc := PatchedRules(fars, upds)[i].ohc)
  {
    if |upds| > 0 {
      PatchedKeepRules(fars, upds[..|upds| - 1], i);
    }
  }

  // An Update URR replaces the rule with its id.

  function PatchUrrs(urrs: seq<ParsedUrr>, u: ParsedUrr): (r: seq<ParsedUrr>)
    ensures |r| == |urrs|
  {
    seq(|urrs|, i requires 0 <= i < |urrs| => if urrs[i].urrId == u.urrId then u else urrs[i])
  }

  function PatchedUrrs(urrs: seq<ParsedUrr>, upds: seq<ParsedUrr>): (r: seq<ParsedUrr>)
    ensures |r| == |urrs|
  {
    if |upds| == 0 then urrs else PatchUrrs(PatchedUrrs(urrs, upds[..|upds| - 1]), upds[|upds| - 1])
  }

  lemma {:induction false} PatchedUrrsKeepIds(urrs: seq<ParsedUrr>, upds: seq<ParsedUrr>)
    ensures forall i :: 0 <= i < |urrs| ==> PatchedUrrs(urrs, upds)[i].urrId == urrs[i].urrId
    ensures forall id :: HasUrr(PatchedUrrs(urrs, upds), id) <==> HasUrr(urrs, id)
  {
    if |upds| > 0 {
      PatchedUrrsKeepIds(urrs, upds[..|upds| - 1]);
    }
  }

  lemma {:induction false} LastFarPatched(fars: seq<ParsedFar>, u: ParsedFar, id: u32)
    ensures LastFar(PatchRules(fars, u), id)
            == if LastFar(fars, id).Some? then Some(PatchRule(LastFar(fars, id).value, u)) else None
  {
    if |fars| > 0 {
      LastFarPatched(fars[..|fars| - 1], u, id);
      assert PatchRules(fars, u)[..|fars| - 1] == PatchRules(fars[..|fars| - 1], u);
    }
  }

  /** An accepted list of updates does to the map what it does to the rule list; other sessions keep theirs. */
  lemma {:induction false} PatchFarsView(m: map<u64, FarValue>, seid: u64, n3: u32, fars: seq<ParsedFar>, upds: seq<ParsedFar>)
    requires seid < TWO_48 && FarView(m, seid, n3, fars)
    ensures FarView(PatchFars(m, seid, upds), seid, n3, PatchedRules(fars, upds))
  {
    hide Compose;
    if |upds| > 0 {
      var u, init := upds[|upds| - 1], upds[..|upds| - 1];
      PatchFarsView(m, seid, n3, fars, init);
      var m', fars' := PatchFars(m, seid, init), PatchedRules(fars, init);
      forall id: u32 ensures FarEntry(PatchFars(m, seid, upds), seid, n3, PatchedRules(fars, upds), id) {
        assert FarEntry(m', seid, n3, fars', id);
        LastFarPatched(fars', u, id);
        KeysMeet(seid, u.farId, seid, id);
      }
    }
  }

  lemma {:induction false} PatchFarsOthers(m: map<u64, FarValue>, seid: u64, upds: seq<ParsedFar>, t: u64, id: u32)
    requires seid < TWO_48 && t < TWO_48 && seid != t
    ensures SameAt(m, PatchFars(m, seid, upds), Compose(t, id))
  {
    hide Compose;
    if |upds| > 0 {
      PatchFarsOthers(m, seid, upds[..|upds| - 1], t, id);
      KeysMeet(seid, upds[|upds| - 1].farId, t, id);
    }
  }

  /** Updates patch entries in place, and never their apply action or destination interface. */
  lemma {:induction false} PatchFarsKeys(m: map<u64, FarValue>, seid: u64, upds: seq<ParsedFar>)
    ensures PatchFars(m, seid, upds).Keys == m.Keys
    ensures forall k :: k in m ==> SameAction(m[k], PatchFars(m, seid, upds)[k])
  {
    hide Compose;
    if |upds| > 0 {
      PatchFarsKeys(m, seid, upds[..|upds| - 1]);
    }
  }

  predicate SameAction(v: FarValue, v': FarValue) {
    v'.applyAction == v.applyAction && v'.dstInterface == v.dstInterface
  }

  // The key sets a list of writes adds.

  lemma {:induction false} InstallPdrsKeys(m: map<u64, PdrValue>, seid: u64, ueIp: u32, pdrs: seq<ParsedPdr>)
    requires seid < TWO_48
    ensures m.Keys <= InstallPdrs(m, seid, ueIp, pdrs).Keys
    ensures forall k :: k in InstallPdrs(m, seid, ueIp, pdrs) ==> k in m || SeidOf(k) == seid
  {
    hide Compose, PdrVal;
    if |pdrs| > 0 {
      InstallPdrsKeys(m, seid, ueIp, pdrs[..|pdrs| - 1]);
      ComposeParts(seid, pdrs[|pdrs| - 1].pdrId);
    }
  }

  lemma {:induction false} InstallFarsKeys(m: map<u64, FarValue>, seid: u64, n3: u32, fars: seq<ParsedFar>)
    requires seid < TWO_48
    ensures m.Keys <= InstallFars(m, seid, n3, fars).Keys
    ensures forall k :: k in InstallFars(m, seid, n3, fars) ==> k in m || SeidOf(k) == seid
  {
    hide Compose, FarVal;
    if |fars| > 0 {
      InstallFarsKeys(m, seid, n3, fars[..|fars| - 1]);
      ComposeParts(seid, fars[|fars| - 1].farId);
    }
  }

  lemma {:induction false} InstallUrrsKeys(m: map<u64, seq<UrrStats>>, seid: u64, ncpus: nat, urrs: seq<ParsedUrr>)
    requires seid < TWO_48
    ensures m.Keys <= InstallUrrs(m, seid, ncpus, urrs).Keys
    ensures forall k :: k in InstallUrrs(m, seid, ncpus, urrs) ==> k in m || SeidOf(k) == seid
  {
    hide Compose;
    if |urrs| > 0 {
      InstallUrrsKeys(m, seid, ncpus, urrs[..|urrs| - 1]);
      ComposeParts(seid, urrs[|urrs| - 1].urrId);
    }
  }

  // Carrying a view across steps of other sessions.

  lemma PdrViewKept(m: map<u64, PdrValue>, m': map<u64, PdrValue>, seid: u64, ueIp: u32, pdrs: seq<ParsedPdr>)
    requires PdrView(m, seid, ueIp, pdrs) && SameFor(m, m', seid)
    ensures PdrView(m', seid, ueIp, pdrs)
  {
    forall id: u32 ensures PdrEntry(m', seid, ueIp, pdrs, id) {
      assert PdrEntry(m, seid, ueIp, pdrs, id) && SameAt(m, m', Compose(seid, id));
    }
  }

  lemma FarViewKept(m: map<u64, FarValue>, m': map<u64, FarValue>, seid: u64, n3: u32, fars: seq<ParsedFar>)
    requires FarView(m, seid, n3, fars) && SameFor(m, m', seid)
    ensures FarView(m', seid, n3, fars)
  {
    forall id: u32 ensures FarEntry(m', seid, n3, fars, id) {
      assert FarEntry(m, seid, n3, fars, id) && SameAt(m, m', Compose(seid, id));
    }
  }
}
