/** What a deletion removes, and what it leaves behind. */
module Cleanup {
  import opened Bytes
  import opened Keys
  import opened Rules
  import opened Classifier
  import opened Server
  import opened Views
  import opened World
  import opened Compiled
  import Ownership

  predicate SameId(a: u32, b: u32) {
    a % 0x1_0000 == b % 0x1_0000
  }

  /** Some of the first eight rules carries the PDR id. */
  ghost predicate PdrListed(b: RuleBook, id: u32) {
    exists i: nat :: i < Installed(|b.pdrs|) && SameId(b.pdrs[i].pdrId, id)
  }

  /** Some of the first eight rules, as in force, names the FAR. */
  ghost predicate FarReferenced(b: RuleBook, id: u32) {
    exists i: nat :: i < Installed(|b.pdrs|) && SameId(OrZero(RuleAt(b, i).farId), id)
  }

  /** Every rule of the establishment can be reached from its first eight PDRs. */
  ghost predicate Tidy(b: RuleBook) {
    && (forall i :: 0 <= i < |b.pdrs| ==> PdrListed(b, b.pdrs[i].pdrId))
    && (forall i :: 0 <= i < |b.fars| ==> FarReferenced(b, b.fars[i].farId))
    && (forall i :: 0 <= i < |b.urrs| ==> UrrReferenced(b, b.urrs[i].urrId))
  }

  /** No PDR, FAR or URR entry has the SEID. */
  ghost predicate Gone(m: Maps, t: u64) {
    forall id: u32 :: Compose(t, id) !in m.pdr && Compose(t, id) !in m.far && Compose(t, id) !in m.urr
  }

  lemma SameIdListed(b: RuleBook, id: u32, id': u32)
    requires SameId(id, id')
    ensures PdrListed(b, id) <==> PdrListed(b, id')
    ensures FarReferenced(b, id) <==> FarReferenced(b, id')
    ensures UrrReferenced(b, id) <==> UrrReferenced(b, id')
  {
    if UrrReferenced(b, id) {
      SameMaskedId(b, id, id');
    }
    if UrrReferenced(b, id') {
      SameMaskedId(b, id', id);
    }
  }

  // The keys a deletion computes from the maps are those of the rule book.

  lemma DeletedKeys(w: World, t: u64, id: u32)
    requires Agreed(w) && t in w.st.srv.sessions
    ensures var m, k, b := w.st.maps, ToBe32(w.st.srv.sessions[t].ueIp), w.books[t];
            && (Compose(t, id) in PdrKeys(m, k, t) <==> PdrListed(b, id))
            && (Compose(t, id) in KeysOf(t, FarIds(m, k, t)) <==> FarReferenced(b, id))
            && (Compose(t, id) in KeysOf(t, UrrIds(m, k, t)) <==> UrrReferenced(b, id))
  {
    hide Compose, Readable;
    ReadableIn(w, t);
    ListedKeys(w, t, id);
    FarKeys(w, t, id);
    UrrKeys(w, t, id);
  }

  /** The installed entries of a session, as deletion reads them. */
  ghost predicate Readable(w: World, t: u64) {
    && t in w.st.srv.sessions && t in w.books && t < TWO_48
    && var m, k, b := w.st.maps, ToBe32(w.st.srv.sessions[t].ueIp), w.books[t];
    && k in m.sess && PdrCount(m, k) == Installed(|b.pdrs|)
    && forall i: nat :: i < Installed(|b.pdrs|) ==>
         && m.sess[k].pdrIds[i] == b.pdrs[i].pdrId
         && Compose(t, b.pdrs[i].pdrId) in m.pdr
         && m.pdr[Compose(t, b.pdrs[i].pdrId)] == PdrVal(RuleAt(b, i), b.ueIp)
  }

  lemma ReadableIn(w: World, t: u64)
    requires Agreed(w) && t in w.st.srv.sessions
    ensures Readable(w, t)
  {
    hide Compose;
    var m, k, b := w.st.maps, ToBe32(w.st.srv.sessions[t].ueIp), w.books[t];
    assert MirrorOf(w, t) && AgreesFor(w, t);
    var n := Installed(|b.pdrs|);
    forall i: nat | i < n
      ensures m.sess[k].pdrIds[i] == b.pdrs[i].pdrId
      ensures Compose(t, b.pdrs[i].pdrId) in m.pdr
      ensures m.pdr[Compose(t, b.pdrs[i].pdrId)] == PdrVal(RuleAt(b, i), b.ueIp)
    {
      assert PdrEntry(m.pdr, t, b.ueIp, b.pdrs, b.pdrs[i].pdrId);
    }
  }

  lemma ListedKeys(w: World, t: u64, id: u32)
    requires Readable(w, t)
    ensures Compose(t, id) in PdrKeys(w.st.maps, ToBe32(w.st.srv.sessions[t].ueIp), t) <==> PdrListed(w.books[t], id)
  {
    hide Compose, PdrVal;
    var m, k, b := w.st.maps, ToBe32(w.st.srv.sessions[t].ueIp), w.books[t];
    forall i: nat | i < Installed(|b.pdrs|)
      ensures Compose(t, m.sess[k].pdrIds[i]) == Compose(t, id) <==> SameId(b.pdrs[i].pdrId, id)
    {
      KeysMeet(t, b.pdrs[i].pdrId, t, id);
    }
  }

  lemma FarKeys(w: World, t: u64, id: u32)
    requires Readable(w, t)
    ensures var m, k := w.st.maps, ToBe32(w.st.srv.sessions[t].ueIp);
            Compose(t, id) in KeysOf(t, FarIds(m, k, t)) <==> FarReferenced(w.books[t], id)
  {
    hide Compose;
    var m, k, b := w.st.maps, ToBe32(w.st.srv.sessions[t].ueIp), w.books[t];
    if FarReferenced(b, id) {
      var i: nat :| i < Installed(|b.pdrs|) && SameId(OrZero(RuleAt(b, i).farId), id);
      var key := Compose(t, m.sess[k].pdrIds[i]);
      assert key in PdrKeys(m, k, t) && m.pdr[key].farId in FarIds(m, k, t);
      KeysMeet(t, m.pdr[key].farId, t, id);
    }
    if Compose(t, id) in KeysOf(t, FarIds(m, k, t)) {
      var f :| f in FarIds(m, k, t) && Compose(t, f) == Compose(t, id);
      var i: nat :| i < PdrCount(m, k) && m.pdr[Compose(t, m.sess[k].pdrIds[i])].farId == f;
      KeysMeet(t, f, t, id);
      assert SameId(OrZero(RuleAt(b, i).farId), id);
    }
  }

  lemma UrrKeys(w: World, t: u64, id: u32)
    requires Readable(w, t)
    ensures var m, k := w.st.maps, ToBe32(w.st.srv.sessions[t].ueIp);
            Compose(t, id) in KeysOf(t, UrrIds(m, k, t)) <==> UrrReferenced(w.books[t], id)
  {
    hide Compose;
    var m, k, b := w.st.maps, ToBe32(w.st.srv.sessions[t].ueIp), w.books[t];
    if UrrReferenced(b, id) {
      var i: nat :| i < Installed(|b.pdrs|) && CountsUnder(b, i, id);
      var key := Compose(t, m.sess[k].pdrIds[i]);
      assert key in PdrKeys(m, k, t) && m.pdr[key].urrId in UrrIds(m, k, t);
      KeysMeet(t, m.pdr[key].urrId, t, id);
    }
    if Compose(t, id) in KeysOf(t, UrrIds(m, k, t)) {
      var u :| u in UrrIds(m, k, t) && Compose(t, u) == Compose(t, id);
      var i: nat :| i < PdrCount(m, k) && m.pdr[Compose(t, m.sess[k].pdrIds[i])].urrId == u && u != 0;
      KeysMeet(t, u, t, id);
      assert CountsUnder(b, i, id);
    }
  }

  // What is left.

  /** Deleting a session removes every PDR, FAR and URR entry with its SEID exactly when its rules were tidy;
      its SESSION entry always goes. */
  lemma DeleteLeavesNothingIff(w: World, e: Event)
    requires Agreed(w) && Ownership.Changing(w, e) && e.req.Delete?
    ensures var t := Ownership.Target(e);
            && ToBe32(w.st.srv.sessions[t].ueIp) !in Step(w, e).st.maps.sess
            && (Gone(Step(w, e).st.maps, t) <==> Tidy(w.books[t]))
  {
    hide Compose, PdrKeys, KeysOf, FarIds, UrrIds;
    var t := Ownership.Target(e);
    var m, m', b := w.st.maps, Step(w, e).st.maps, w.books[t];
    assert MirrorOf(w, t) && AgreesFor(w, t);
    forall id: u32
      ensures Compose(t, id) in m'.pdr <==> LastPdr(b.pdrs, id).Some? && !PdrListed(b, id)
      ensures Compose(t, id) in m'.far <==> LastFar(b.fars, id).Some? && !FarReferenced(b, id)
      ensures Compose(t, id) in m'.urr <==> HasUrr(b.urrs, id) && !UrrReferenced(b, id)
    {
      DeletedKeys(w, t, id);
      assert PdrEntry(m.pdr, t, b.ueIp, b.pdrs, id) && FarEntry(m.far, t, w.st.srv.n3, b.fars, id)
             && UrrEntry(m.urr, t, b, id);
    }
    if Tidy(b) {
      forall id: u32 ensures Compose(t, id) !in m'.pdr && Compose(t, id) !in m'.far && Compose(t, id) !in m'.urr {
        TidyCovers(b, id);
      }
    }
    if Gone(m', t) {
      GoneIsTidy(m', t, b);
    }
  }

  lemma TidyCovers(b: RuleBook, id: u32)
    requires Tidy(b)
    ensures LastPdr(b.pdrs, id).Some? ==> PdrListed(b, id)
    ensures LastFar(b.fars, id).Some? ==> FarReferenced(b, id)
    ensures HasUrr(b.urrs, id) ==> UrrReferenced(b, id)
  {
    hide PdrListed, FarReferenced, UrrReferenced;
    if LastPdr(b.pdrs, id).Some? {
      var i :| 0 <= i < |b.pdrs| && b.pdrs[i].pdrId == id % 0x1_0000;
      SameIdListed(b, b.pdrs[i].pdrId, id);
    }
    if LastFar(b.fars, id).Some? {
      var i :| 0 <= i < |b.fars| && b.fars[i].farId % 0x1_0000 == id % 0x1_0000;
      SameIdListed(b, b.fars[i].farId, id);
    }
    if HasUrr(b.urrs, id) {
      var i :| 0 <= i < |b.urrs| && b.urrs[i].urrId % 0x1_0000 == id % 0x1_0000;
      SameIdListed(b, b.urrs[i].urrId, id);
    }
  }

  lemma GoneIsTidy(m': Maps, t: u64, b: RuleBook)
    requires Gone(m', t)
    requires forall id: u32 :: Compose(t, id) in m'.pdr <==> LastPdr(b.pdrs, id).Some? && !PdrListed(b, id)
    requires forall id: u32 :: Compose(t, id) in m'.far <==> LastFar(b.fars, id).Some? && !FarReferenced(b, id)
    requires forall id: u32 :: Compose(t, id) in m'.urr <==> HasUrr(b.urrs, id) && !UrrReferenced(b, id)
    ensures Tidy(b)
  {
    hide Compose;
    forall i | 0 <= i < |b.pdrs| ensures PdrListed(b, b.pdrs[i].pdrId) {
      assert Compose(t, b.pdrs[i].pdrId) !in m'.pdr;
    }
    forall i | 0 <= i < |b.fars| ensures FarReferenced(b, b.fars[i].farId) {
      assert Compose(t, b.fars[i].farId) !in m'.far;
    }
    forall i | 0 <= i < |b.urrs| ensures UrrReferenced(b, b.urrs[i].urrId) {
      assert Compose(t, b.urrs[i].urrId) !in m'.urr;
    }
  }

  // Whole runs of tidy establishments.

  ghost predicate TidyRequest(w: World, e: Event) {
    Accepting(e) ==> Tidy(NewBook(e.found.value, FirstUeIp(e.req.pdrs).value, e.req, e.now))
  }

  ghost predicate Neat(w: World, e: Event) {
    Orderly(w, e) && TidyRequest(w, e)
  }

  /** Every entry of the rule maps belongs to a live session. */
  ghost predicate NoOrphans(w: World) {
    var s, m := w.st.srv.sessions, w.st.maps;
    && Agreed(w)
    && (forall t :: t in s ==> Tidy(w.books[t]))
    && (forall k :: k in m.pdr ==> SeidOf(k) in s)
    && (forall k :: k in m.far ==> SeidOf(k) in s)
    && (forall k :: k in m.urr ==> SeidOf(k) in s)
  }

  lemma PatchedTidy(b: RuleBook, upds: seq<ParsedFar>, urrs: seq<ParsedUrr>)
    requires Tidy(b)
    ensures Tidy(UpdatedBook(b, upds, urrs))
  {
    hide PatchedUrrs;
    var b' := UpdatedBook(b, upds, urrs);
    PatchedUrrsKeepIds(b.urrs, urrs);
    forall i | 0 <= i < |b.pdrs| ensures PdrListed(b', b.pdrs[i].pdrId) {
      var j: nat :| j < Installed(|b.pdrs|) && SameId(b.pdrs[j].pdrId, b.pdrs[i].pdrId);
      assert SameId(b'.pdrs[j].pdrId, b.pdrs[i].pdrId);
    }
    forall i | 0 <= i < |b'.fars| ensures FarReferenced(b', b'.fars[i].farId) {
      PatchedKeepRules(b.fars, upds, i);
      var j: nat :| j < Installed(|b.pdrs|) && SameId(OrZero(RuleAt(b, j).farId), b.fars[i].farId);
      assert SameId(OrZero(RuleAt(b', j).farId), b'.fars[i].farId);
    }
    forall i | 0 <= i < |b.urrs| ensures UrrReferenced(b', b.urrs[i].urrId) {
      SameReferences(b, b', b.urrs[i].urrId);
    }
  }

  lemma AgreedIsBounded(w: World)
    requires Agreed(w)
    ensures Bounded(w)
  {
  }

  lemma NoOrphansEstablish(w: World, e: Event)
    requires NoOrphans(w) && Neat(w, e) && Accepting(e)
    ensures NoOrphans(Step(w, e))
  {
    hide Compose, FirstUeIp, FirstOhc, NewInfo, PdrVal, FarVal, Configure, SeidOf, Tidy, Agreed;
    AgreedStep(w, e);
    AgreedIsBounded(w);
    var s, m := w.st.srv, w.st.maps;
    InstallPdrsKeys(m.pdr, s.nextSeid, FirstUeIp(e.req.pdrs).value, e.req.pdrs);
    InstallFarsKeys(m.far, s.nextSeid, s.n3, e.req.fars);
    InstallUrrsKeys(m.urr, s.nextSeid, s.ncpus, e.req.urrs);
  }

  lemma NoOrphansDelete(w: World, e: Event)
    requires NoOrphans(w) && Neat(w, e) && Ownership.Changing(w, e) && e.req.Delete?
    ensures NoOrphans(Step(w, e))
  {
    hide Compose, PdrKeys, KeysOf, FarIds, UrrIds, Tidy, Agreed, SeidOf, IdOf;
    AgreedStep(w, e);
    DeleteLeavesNothingIff(w, e);
    var t, m' := Ownership.Target(e), Step(w, e).st.maps;
    forall k ensures k in m'.pdr || k in m'.far || k in m'.urr ==> SeidOf(k) != t {
      ComposeUndoesSplit(k);
    }
  }

  lemma NoOrphansModify(w: World, e: Event)
    requires NoOrphans(w) && Neat(w, e) && Ownership.Changing(w, e) && e.req.Modify?
    ensures NoOrphans(Step(w, e))
  {
    hide Compose, Reconfigure, LastTunnel, SeidOf, Tidy, Agreed;
    AgreedStep(w, e);
    AgreedIsBounded(w);
    PatchFarsKeys(w.st.maps.far, e.req.modSeid.value, e.req.updFars);
    PatchedTidy(w.books[e.req.modSeid.value], e.req.updFars, e.req.updUrrs);
  }

  lemma NoOrphansStep(w: World, e: Event)
    requires NoOrphans(w) && Neat(w, e)
    ensures NoOrphans(Step(w, e))
  {
    hide Compose, Reconfigure, LastTunnel, SeidOf, Tidy, Agreed, SelectFar, FirstUeIp, FirstOhc;
    if Accepting(e) {
      NoOrphansEstablish(w, e);
    } else if Ownership.Changing(w, e) {
      if e.req.Delete? {
        NoOrphansDelete(w, e);
      } else {
        NoOrphansModify(w, e);
      }
    } else {
      AgreedStep(w, e);
      if e.ReporterTick? {
        Ownership.TickAllKeeps(w.st.srv, e.totals, e.now);
      } else if e.Uplink? {
        UplinkKeys(w, e);
      }
    }
  }

  lemma UplinkKeys(w: World, e: Event)
    requires Agreed(w) && e.Uplink?
    ensures forall k :: k in Step(w, e).st.maps.urr ==> k in w.st.maps.urr || SeidOf(k) in w.st.srv.sessions
  {
    hide Compose, SelectFar;
    var m, q := w.st.maps, e.q;
    if q.srcIp in m.sess {
      var info := m.sess[q.srcIp];
      var far := SelectFar(m, info, IFACE_ACCESS, q);
      if far.Some? {
        ComposeParts(info.seid, far.value.1);
      }
    }
  }

  /** After any run of tidy establishments with any deletions, updates and packets in between, every map entry
      belongs to a live session; with no session left all four maps are empty. */
  lemma NothingLeftBehind(n3: u32, ts: u32, ncpus: nat, es: seq<Event>)
    requires Along(Neat, Start(n3, ts, ncpus), es)
    ensures var w := Run(Start(n3, ts, ncpus), es);
            && NoOrphans(w)
            && (w.st.srv.sessions == map[] ==> w.st.maps == EMPTY_MAPS)
  {
    forall w, e | NoOrphans(w) && Neat(w, e) ensures NoOrphans(Step(w, e)) {
      NoOrphansStep(w, e);
    }
    RunKeeps(NoOrphans, Neat, Start(n3, ts, ncpus), es);
    var w := Run(Start(n3, ts, ncpus), es);
    if w.st.srv.sessions == map[] {
      assert w.st.maps.sess == map[] && w.st.maps.pdr == map[] && w.st.maps.far == map[] && w.st.maps.urr == map[];
    }
  }
}
