/** Runs: any interleaving of handled requests, uplink packets and reporter ticks. */
module World {
  import opened Bytes
  import opened Rules
  import opened Classifier
  import opened Server
  import opened Views
  import opened Counters
  import opened Reporter

  /** What a session was established with: by which node, and its rules as later updates patched them. */
  datatype RuleBook = RuleBook(
    node: NodeId, ueIp: u32, pdrs: seq<ParsedPdr>, fars: seq<ParsedFar>, urrs: seq<ParsedUrr>, history: History)

  /** When it was established, with which FARs, and all Update FARs accepted for it since. */
  datatype History = History(since: nat, created: seq<ParsedFar>, asked: seq<ParsedFar>)

  datatype Entry = Sent(report: Report) | Updated(seid: u64, urrId: u32)

  /** The state together with its history: rule books by SEID, and the log of reports and Update URRs. */
  datatype World = World(st: State, books: map<u64, RuleBook>, log: seq<Entry>)

  datatype Event =
    | Handle(src: SockAddr, req: Request, found: Option<NodeId>, now: nat)
    | Uplink(cpu: nat, q: Query, len: u64)
    | ReporterTick(totals: seq<(u64, UrrStats)>, now: nat)

  function Start(n3: u32, recoveryTs: u32, ncpus: nat): World {
    World(Initial(n3, recoveryTs, ncpus), map[], [])
  }

  /** A packet from the access side, counted for the rule that wins unless its FAR drops it. */
  function UplinkStep(s: Srv, m: Maps, cpu: nat, q: Query, len: u64): Maps {
    if cpu >= s.ncpus || q.srcIp !in m.sess then m
    else
      var info := m.sess[q.srcIp];
      var far := SelectFar(m, info, IFACE_ACCESS, q);
      if info.pdrCount == 0 || far.None? || Bit(far.value.0.applyAction, ACTION_DROP) then m
      else m.(urr := CountOn(m.urr, s.ncpus, cpu, info.seid, far.value.1, len, false))
  }

  function Updates(seid: u64, upds: seq<ParsedUrr>): seq<Entry> {
    seq(|upds|, i requires 0 <= i < |upds| => Updated(seid, upds[i].urrId))
  }

  function Sends(rs: seq<Report>): seq<Entry> {
    seq(|rs|, i requires 0 <= i < |rs| => Sent(rs[i]))
  }

  function NewBook(node: NodeId, ueIp: u32, r: Request, now: nat): RuleBook
    requires r.Establish?
  {
    RuleBook(node, ueIp, r.pdrs, r.fars, r.urrs, History(now, r.fars, []))
  }

  function UpdatedBook(b: RuleBook, fars: seq<ParsedFar>, urrs: seq<ParsedUrr>): RuleBook {
    b.(fars := PatchedRules(b.fars, fars), urrs := PatchedUrrs(b.urrs, urrs),
       history := b.history.(asked := b.history.asked + fars))
  }

  function BooksAfter(w: World, e: Event): map<u64, RuleBook>
    requires e.Handle?
  {
    var s := w.st.srv;
    match e.req
    case Establish(_, pdrs, fars, urrs) =>
      if EstablishAccepted(e.src, e.req, e.found)
      then w.books[s.nextSeid := NewBook(e.found.value, FirstUeIp(pdrs).value, e.req, e.now)] else w.books
    case Modify(seid, fars, urrs) =>
      if ModifyAccepted(s, e.src, e.req, e.found) && seid.value in w.books
      then w.books[seid.value := UpdatedBook(w.books[seid.value], fars, urrs)] else w.books
    case _ => w.books
  }

  function LogAfter(w: World, e: Event): seq<Entry>
    requires e.Handle?
  {
    if e.req.Modify? && ModifyAccepted(w.st.srv, e.src, e.req, e.found)
    then w.log + Updates(e.req.modSeid.value, e.req.updUrrs) else w.log
  }

  function Step(w: World, e: Event): World {
    match e
    case Handle(src, req, found, now) =>
      World(RequestStep(w.st, src, req, found, now), BooksAfter(w, e), LogAfter(w, e))
    case Uplink(cpu, q, len) => w.(st := w.st.(maps := UplinkStep(w.st.srv, w.st.maps, cpu, q, len)))
    case ReporterTick(totals, now) =>
      var (s, rs) := Tick(w.st.srv, totals, now);
      w.(st := w.st.(srv := s), log := w.log + Sends(rs))
  }

  function Run(w: World, es: seq<Event>): World
    decreases |es|
  {
    if |es| == 0 then w else Run(Step(w, es[0]), es[1..])
  }

  /** A hypothesis about single steps holds at every step of a run. */
  ghost predicate Along(hyp: (World, Event) -> bool, w: World, es: seq<Event>)
    decreases |es|
  {
    |es| == 0 || (hyp(w, es[0]) && Along(hyp, Step(w, es[0]), es[1..]))
  }

  lemma RunCons(hyp: (World, Event) -> bool, w: World, e: Event, es: seq<Event>)
    ensures Run(w, [e] + es) == Run(Step(w, e), es)
    ensures Along(hyp, w, [e] + es) <==> hyp(w, e) && Along(hyp, Step(w, e), es)
  {
    hide Step;
    assert ([e] + es)[1..] == es;
  }

  lemma {:induction false} RunConcat(w: World, a: seq<Event>, b: seq<Event>)
    ensures Run(w, a + b) == Run(Run(w, a), b)
    decreases |a|
  {
    hide Step;
    if |a| == 0 {
      assert a + b == b;
    } else {
      assert (a + b)[1..] == a[1..] + b;
      RunConcat(Step(w, a[0]), a[1..], b);
    }
  }

  lemma {:induction false} AlongConcat(hyp: (World, Event) -> bool, w: World, a: seq<Event>, b: seq<Event>)
    ensures Along(hyp, w, a + b) <==> Along(hyp, w, a) && Along(hyp, Run(w, a), b)
    decreases |a|
  {
    hide Step;
    if |a| == 0 {
      assert a + b == b;
    } else {
      assert (a + b)[1..] == a[1..] + b;
      AlongConcat(hyp, Step(w, a[0]), a[1..], b);
    }
  }

  lemma RunLast(w: World, es: seq<Event>)
    requires |es| > 0
    ensures Run(w, es) == Step(Run(w, es[..|es| - 1]), es[|es| - 1])
  {
    hide Step;
    var init, e := es[..|es| - 1], es[|es| - 1];
    RunConcat(w, init, [e]);
    assert es == init + [e] && [e][1..] == [];
  }

  lemma {:induction false} RunKeeps(inv: World -> bool, hyp: (World, Event) -> bool, w: World, es: seq<Event>)
    requires inv(w) && Along(hyp, w, es)
    requires forall v, e :: inv(v) && hyp(v, e) ==> inv(Step(v, e))
    ensures inv(Run(w, es))
    decreases |es|
  {
    if |es| > 0 {
      assert inv(Step(w, es[0]));
      RunKeeps(inv, hyp, Step(w, es[0]), es[1..]);
    }
  }

  // The hypotheses. `Possible` only says that the association lookup answers truthfully.

  ghost predicate Possible(w: World, e: Event) {
    e.Handle? ==> Lookup(w.st.srv.assocs, e.src, e.found)
  }

  /** The SEID about to be handed out fits the 48 bits the keys keep. */
  ghost predicate SeidFits(w: World, e: Event) {
    e.Handle? && e.req.Establish? && EstablishAuthorised(e.src, e.found) ==> w.st.srv.nextSeid < TWO_48
  }

  ghost predicate Accepting(e: Event) {
    e.Handle? && e.req.Establish? && EstablishAccepted(e.src, e.req, e.found)
  }

  /** The UE address is not in use by a live session. */
  ghost predicate AddressFree(w: World, e: Event) {
    Accepting(e) ==> forall s :: s in w.st.srv.sessions ==> w.st.srv.sessions[s].ueIp != FirstUeIp(e.req.pdrs).value
  }

  ghost predicate Numbered(w: World, e: Event) {
    Possible(w, e) && SeidFits(w, e)
  }

  ghost predicate Orderly(w: World, e: Event) {
    Numbered(w, e) && AddressFree(w, e)
  }
}
