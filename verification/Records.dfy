/** The records the grouped-element parsers fill from arbitrary octets, field by field: the last element that carries the
    field counts, and one bad element fails the record. */
module Records {
  import opened Bytes
  import opened Rules
  import opened Tlv
  import opened GroupedIes

  /** What the last element that carries a field says. */
  function LastOf<F>(ies: seq<RawIe>, carried: RawIe -> Option<F>): Option<F> {
    if |ies| == 0 then None
    else if carried(ies[|ies| - 1]).Some? then carried(ies[|ies| - 1])
    else LastOf(ies[..|ies| - 1], carried)
  }

  /** It is the value of the last one indeed. */
  lemma {:induction false} LastOfIff<F>(ies: seq<RawIe>, carried: RawIe -> Option<F>, x: F)
    ensures LastOf(ies, carried) == Some(x) <==>
              exists i: nat :: i < |ies| && carried(ies[i]) == Some(x) && forall j :: i < j < |ies| ==> carried(ies[j]).None?
  {
    if |ies| > 0 {
      var init, n := ies[..|ies| - 1], |ies| - 1;
      LastOfIff(init, carried, x);
      if carried(ies[n]).None? {
        if i: nat :| i < |init| && carried(init[i]) == Some(x) && forall j :: i < j < |init| ==> carried(init[j]).None? {
          assert carried(ies[i]) == Some(x);
          assert forall j :: i < j < |ies| ==> carried(ies[j]).None?;
        }
        if i: nat :| i < |ies| && carried(ies[i]) == Some(x) && forall j :: i < j < |ies| ==> carried(ies[j]).None? {
          assert carried(init[i]) == Some(x);
          assert forall j :: i < j < |init| ==> carried(init[j]).None?;
        }
      }
    }
  }

  function OrElse<F>(o: Option<F>, f: F): F {
    if o.Some? then o.value else f
  }

  /** A field that a step sets to what the element carries, and else leaves, ends as the last one carried. */
  lemma {:induction false} FieldIsLast<A, F>(step: Filling<A>, field: A -> F, carried: RawIe -> Option<F>, ies: seq<RawIe>, a: A)
    requires forall b, ie :: step(b, ie).Ok? ==> field(step(b, ie).value) == OrElse(carried(ie), field(b))
    requires Fill(step, ies, a).Ok?
    ensures field(Fill(step, ies, a).value) == OrElse(LastOf(ies, carried), field(a))
  {
    if |ies| > 0 {
      FieldIsLast(step, field, carried, ies[..|ies| - 1], a);
    }
  }

  ghost predicate SomeBad(ies: seq<RawIe>, bad: RawIe -> bool) {
    exists ie :: ie in ies && bad(ie)
  }

  lemma {:induction false} FailsIff<A>(step: Filling<A>, bad: RawIe -> bool, ies: seq<RawIe>, a: A)
    requires forall b, ie :: step(b, ie).Err? <==> bad(ie)
    ensures Fill(step, ies, a).Err? <==> SomeBad(ies, bad)
  {
    if |ies| > 0 {
      var init, last := ies[..|ies| - 1], ies[|ies| - 1];
      FailsIff(step, bad, init, a);
      assert forall ie :: ie in ies <==> ie in init || ie == last;
    }
  }

  // What single elements carry: fixed-size values are taken where they fit and else ignored.

  function Octet(t: u16, ie: RawIe): Option<u8> {
    if ie.ieType == t && |ie.value| >= 1 then Some(ie.value[0]) else None
  }

  /** The low four bits, of an interface. */
  function Nibble(t: u16, ie: RawIe): Option<u8> {
    if ie.ieType == t && |ie.value| >= 1 then Some(ie.value[0] % 0x10) else None
  }

  function Half(t: u16, ie: RawIe): Option<u16> {
    if ie.ieType == t && |ie.value| >= 2 then Some(ReadU16(ie.value, 0)) else None
  }

  function Word32(t: u16, ie: RawIe): Option<u32> {
    if ie.ieType == t && |ie.value| >= 4 then Some(ReadU32(ie.value, 0)) else None
  }

  function Parsed<F>(t: u16, parse: Octets -> Result<F>, ie: RawIe): Option<F> {
    if ie.ieType == t && parse(ie.value).Ok? then Some(parse(ie.value).value) else None
  }

  function Wrap<F>(o: Option<F>): Option<Option<F>> {
    if o.Some? then Some(o) else None
  }

  // URR.

  predicate BadUrrIe(ie: RawIe) {
    ie.ieType == 31 && ParseVolumeThreshold(ie.value).Err?
  }

  function UrrIdIn(ie: RawIe): Option<u32> { Word32(81, ie) }
  function MethodIn(ie: RawIe): Option<u8> { Octet(62, ie) }
  function TriggersIn(ie: RawIe): Option<u8> { Octet(37, ie) }
  function ThresholdIn(ie: RawIe): Option<Option<u64>> { Parsed(31, ParseVolumeThreshold, ie) }
  function PeriodIn(ie: RawIe): Option<Option<u32>> { Wrap(Word32(64, ie)) }

  /** Create and Update URR. */
  lemma UrrRecord(v: Octets)
    ensures UrrFrom(v).Err? <==> SomeBad(Parse(v), BadUrrIe)
    ensures UrrFrom(v).Ok? ==> var u, ies := UrrFrom(v).value, Parse(v);
              && u.urrId == OrElse(LastOf(ies, UrrIdIn), 0)
              && u.measures == OrElse(LastOf(ies, MethodIn), 0)
              && u.triggers == OrElse(LastOf(ies, TriggersIn), 0)
              && u.threshold == OrElse(LastOf(ies, ThresholdIn), None)
              && u.period == OrElse(LastOf(ies, PeriodIn), None)
  {
    hide Parse, ReadU32, ParseVolumeThreshold, LastOf, Fill, SomeBad;
    var ies := Parse(v);
    FailsIff(UrrStep, BadUrrIe, ies, NEW_URR);
    if UrrFrom(v).Ok? {
      UrrSteps();
      hide UrrStep;
      FieldIsLast(UrrStep, (u: ParsedUrr) => u.urrId, UrrIdIn, ies, NEW_URR);
      FieldIsLast(UrrStep, (u: ParsedUrr) => u.measures, MethodIn, ies, NEW_URR);
      FieldIsLast(UrrStep, (u: ParsedUrr) => u.triggers, TriggersIn, ies, NEW_URR);
      FieldIsLast(UrrStep, (u: ParsedUrr) => u.threshold, ThresholdIn, ies, NEW_URR);
      FieldIsLast(UrrStep, (u: ParsedUrr) => u.period, PeriodIn, ies, NEW_URR);
    }
  }

  lemma UrrSteps()
    ensures forall u, ie :: UrrStep(u, ie).Ok? ==> var r := UrrStep(u, ie).value;
              && r.urrId == OrElse(UrrIdIn(ie), u.urrId) && r.measures == OrElse(MethodIn(ie), u.measures)
              && r.triggers == OrElse(TriggersIn(ie), u.triggers) && r.threshold == OrElse(ThresholdIn(ie), u.threshold)
              && r.period == OrElse(PeriodIn(ie), u.period)
  {
    hide ReadU32, ParseVolumeThreshold;
  }

  // FAR. The forwarding group has type 4 in a Create FAR and 11 in an Update FAR.

  function FarIdIn(ie: RawIe): Option<u32> { Word32(108, ie) }
  function ActionIn(ie: RawIe): Option<u8> { Octet(44, ie) }
  function DestinationIn(ie: RawIe): Option<Option<u8>> { Wrap(Nibble(42, ie)) }
  function TunnelIn(ie: RawIe): Option<Option<HeaderCreation>> { Wrap(Parsed(84, ParseOuterHeaderCreation, ie)) }

  function CreateDestination(ie: RawIe): Option<Option<u8>> {
    if ie.ieType == 4 then LastOf(Parse(ie.value), DestinationIn) else None
  }

  function UpdateDestination(ie: RawIe): Option<Option<u8>> {
    if ie.ieType == 11 then LastOf(Parse(ie.value), DestinationIn) else None
  }

  function CreateTunnel(ie: RawIe): Option<Option<HeaderCreation>> {
    if ie.ieType == 4 then LastOf(Parse(ie.value), TunnelIn) else None
  }

  function UpdateTunnel(ie: RawIe): Option<Option<HeaderCreation>> {
    if ie.ieType == 11 then LastOf(Parse(ie.value), TunnelIn) else None
  }

  predicate BadForwardingIe(ie: RawIe) {
    ie.ieType == 84 && ParseOuterHeaderCreation(ie.value).Err?
  }

  ghost predicate BadCreateFarIe(ie: RawIe) {
    (ie.ieType == 44 && |ie.value| == 0) || (ie.ieType == 4 && SomeBad(Parse(ie.value), BadForwardingIe))
  }

  ghost predicate BadUpdateFarIe(ie: RawIe) {
    (ie.ieType == 44 && |ie.value| == 0) || (ie.ieType == 11 && SomeBad(Parse(ie.value), BadForwardingIe))
  }

  lemma ForwardingRecord(v: Octets, f: ParsedFar)
    ensures FillForwarding(v, f).Err? <==> SomeBad(Parse(v), BadForwardingIe)
    ensures FillForwarding(v, f).Ok? ==>
              FillForwarding(v, f).value
              == f.(destInterface := OrElse(LastOf(Parse(v), DestinationIn), f.destInterface),
                    ohc := OrElse(LastOf(Parse(v), TunnelIn), f.ohc))
  {
    hide Parse, ParseOuterHeaderCreation, LastOf, Fill, SomeBad;
    var ies := Parse(v);
    FailsIff(ForwardingStep, BadForwardingIe, ies, f);
    if FillForwarding(v, f).Ok? {
      ForwardingSteps();
      hide ForwardingStep;
      FieldIsLast(ForwardingStep, (g: ParsedFar) => g.destInterface, DestinationIn, ies, f);
      FieldIsLast(ForwardingStep, (g: ParsedFar) => g.ohc, TunnelIn, ies, f);
      RestStays(ForwardingStep, (g: ParsedFar) => (g.farId, g.applyAction), ies, f);
    }
  }

  /** What no step touches is as it was. */
  lemma {:induction false} RestStays<A, F>(step: Filling<A>, rest: A -> F, ies: seq<RawIe>, a: A)
    requires forall b, ie :: step(b, ie).Ok? ==> rest(step(b, ie).value) == rest(b)
    requires Fill(step, ies, a).Ok?
    ensures rest(Fill(step, ies, a).value) == rest(a)
  {
    if |ies| > 0 {
      RestStays(step, rest, ies[..|ies| - 1], a);
    }
  }

  lemma ForwardingSteps()
    ensures forall f, ie :: ForwardingStep(f, ie).Ok? ==>
              ForwardingStep(f, ie).value
              == f.(destInterface := OrElse(DestinationIn(ie), f.destInterface), ohc := OrElse(TunnelIn(ie), f.ohc))
  {
    hide ParseOuterHeaderCreation;
  }

  lemma FarRecord(v: Octets)
    ensures CreateFarFrom(v).Err? <==> SomeBad(Parse(v), BadCreateFarIe)
    ensures CreateFarFrom(v).Ok? ==> var f, ies := CreateFarFrom(v).value, Parse(v);
              && f.farId == OrElse(LastOf(ies, FarIdIn), 0) && f.applyAction == OrElse(LastOf(ies, ActionIn), 0)
              && f.destInterface == OrElse(LastOf(ies, CreateDestination), None)
              && f.ohc == OrElse(LastOf(ies, CreateTunnel), None)
    ensures UpdateFarFrom(v).Err? <==> SomeBad(Parse(v), BadUpdateFarIe)
    ensures UpdateFarFrom(v).Ok? ==> var f, ies := UpdateFarFrom(v).value, Parse(v);
              && f.farId == OrElse(LastOf(ies, FarIdIn), 0) && f.applyAction == OrElse(LastOf(ies, ActionIn), 0)
              && f.destInterface == OrElse(LastOf(ies, UpdateDestination), None)
              && f.ohc == OrElse(LastOf(ies, UpdateTunnel), None)
  {
    hide Parse, LastOf, Fill, SomeBad, CreateFarStep, UpdateFarStep;
    var ies := Parse(v);
    FarSteps();
    FailsIff(CreateFarStep, BadCreateFarIe, ies, NEW_FAR);
    FailsIff(UpdateFarStep, BadUpdateFarIe, ies, NEW_FAR);
    if CreateFarFrom(v).Ok? {
      FieldIsLast(CreateFarStep, (f: ParsedFar) => f.farId, FarIdIn, ies, NEW_FAR);
      FieldIsLast(CreateFarStep, (f: ParsedFar) => f.applyAction, ActionIn, ies, NEW_FAR);
      FieldIsLast(CreateFarStep, (f: ParsedFar) => f.destInterface, CreateDestination, ies, NEW_FAR);
      FieldIsLast(CreateFarStep, (f: ParsedFar) => f.ohc, CreateTunnel, ies, NEW_FAR);
    }
    if UpdateFarFrom(v).Ok? {
      FieldIsLast(UpdateFarStep, (f: ParsedFar) => f.farId, FarIdIn, ies, NEW_FAR);
      FieldIsLast(UpdateFarStep, (f: ParsedFar) => f.applyAction, ActionIn, ies, NEW_FAR);
      FieldIsLast(UpdateFarStep, (f: ParsedFar) => f.destInterface, UpdateDestination, ies, NEW_FAR);
      FieldIsLast(UpdateFarStep, (f: ParsedFar) => f.ohc, UpdateTunnel, ies, NEW_FAR);
    }
  }

  lemma FarSteps()
    ensures forall f, ie :: CreateFarStep(f, ie).Err? <==> BadCreateFarIe(ie)
    ensures forall f, ie :: UpdateFarStep(f, ie).Err? <==> BadUpdateFarIe(ie)
    ensures forall f, ie :: CreateFarStep(f, ie).Ok? ==>
              CreateFarStep(f, ie).value
              == ParsedFar(OrElse(FarIdIn(ie), f.farId), OrElse(ActionIn(ie), f.applyAction),
                           OrElse(CreateDestination(ie), f.destInterface), OrElse(CreateTunnel(ie), f.ohc))
    ensures forall f, ie :: UpdateFarStep(f, ie).Ok? ==>
              UpdateFarStep(f, ie).value
              == ParsedFar(OrElse(FarIdIn(ie), f.farId), OrElse(ActionIn(ie), f.applyAction),
                           OrElse(UpdateDestination(ie), f.destInterface), OrElse(UpdateTunnel(ie), f.ohc))
  {
    hide Parse, LastOf, FillForwarding, SomeBad, ReadU32;
    forall f, v: Octets
      ensures FillForwarding(v, f).Err? <==> SomeBad(Parse(v), BadForwardingIe)
      ensures FillForwarding(v, f).Ok? ==>
                FillForwarding(v, f).value
                == f.(destInterface := OrElse(LastOf(Parse(v), DestinationIn), f.destInterface),
                      ohc := OrElse(LastOf(Parse(v), TunnelIn), f.ohc))
    {
      ForwardingRecord(v, f);
    }
  }

  // PDR. The PDI group has type 2; a filter may stand inside it or beside it.

  function InterfaceIn(ie: RawIe): Option<u8> { Nibble(20, ie) }
  function FteidIn(ie: RawIe): Option<Option<(u32, u32)>> { Wrap(Parsed(21, ParseFteid, ie)) }
  function AddressIn(ie: RawIe): Option<Option<u32>> { Wrap(Parsed(93, ParseUeIpAddress, ie)) }
  function FilterIn(ie: RawIe): Option<Option<SdfFilter>> { Wrap(Parsed(23, ParseSdfFilter, ie)) }

  predicate BadPdiIe(ie: RawIe) {
    || (ie.ieType == 21 && ParseFteid(ie.value).Err?)
    || (ie.ieType == 93 && ParseUeIpAddress(ie.value).Err?)
    || (ie.ieType == 23 && ParseSdfFilter(ie.value).Err?)
  }

  ghost predicate BadPdrIe(ie: RawIe) {
    (ie.ieType == 2 && SomeBad(Parse(ie.value), BadPdiIe)) || (ie.ieType == 23 && ParseSdfFilter(ie.value).Err?)
  }

  function PdrIdIn(ie: RawIe): Option<u16> { Half(56, ie) }
  function PrecedenceIn(ie: RawIe): Option<u32> { Word32(29, ie) }
  function PdrFarIn(ie: RawIe): Option<Option<u32>> { Wrap(Word32(108, ie)) }
  function PdrUrrIn(ie: RawIe): Option<Option<u32>> { Wrap(Word32(81, ie)) }
  function RemovalIn(ie: RawIe): Option<bool> { if ie.ieType == 95 then Some(true) else None }

  function PdiInterface(ie: RawIe): Option<u8> {
    if ie.ieType == 2 then LastOf(Parse(ie.value), InterfaceIn) else None
  }

  function PdiFteid(ie: RawIe): Option<Option<(u32, u32)>> {
    if ie.ieType == 2 then LastOf(Parse(ie.value), FteidIn) else None
  }

  function PdiAddress(ie: RawIe): Option<Option<u32>> {
    if ie.ieType == 2 then LastOf(Parse(ie.value), AddressIn) else None
  }

  function AnyFilter(ie: RawIe): Option<Option<SdfFilter>> {
    if ie.ieType == 2 then LastOf(Parse(ie.value), FilterIn) else FilterIn(ie)
  }

  lemma PdiRecord(v: Octets, p: ParsedPdr)
    ensures FillPdi(v, p).Err? <==> SomeBad(Parse(v), BadPdiIe)
    ensures FillPdi(v, p).Ok? ==>
              FillPdi(v, p).value
              == p.(sourceInterface := OrElse(LastOf(Parse(v), InterfaceIn), p.sourceInterface),
                    localFteid := OrElse(LastOf(Parse(v), FteidIn), p.localFteid),
                    ueIp := OrElse(LastOf(Parse(v), AddressIn), p.ueIp), sdf := OrElse(LastOf(Parse(v), FilterIn), p.sdf))
  {
    hide Parse, LastOf, Fill, SomeBad, PdiStep;
    var ies := Parse(v);
    PdiSteps();
    FailsIff(PdiStep, BadPdiIe, ies, p);
    if FillPdi(v, p).Ok? {
      FieldIsLast(PdiStep, (r: ParsedPdr) => r.sourceInterface, InterfaceIn, ies, p);
      FieldIsLast(PdiStep, (r: ParsedPdr) => r.localFteid, FteidIn, ies, p);
      FieldIsLast(PdiStep, (r: ParsedPdr) => r.ueIp, AddressIn, ies, p);
      FieldIsLast(PdiStep, (r: ParsedPdr) => r.sdf, FilterIn, ies, p);
      RestStays(PdiStep, (r: ParsedPdr) => (r.pdrId, r.precedence, r.farId, r.urrId, r.headerRemoval), ies, p);
    }
  }

  lemma PdiSteps()
    ensures forall p, ie :: PdiStep(p, ie).Err? <==> BadPdiIe(ie)
    ensures forall p, ie :: PdiStep(p, ie).Ok? ==>
              PdiStep(p, ie).value
              == p.(sourceInterface := OrElse(InterfaceIn(ie), p.sourceInterface), localFteid := OrElse(FteidIn(ie), p.localFteid),
                    ueIp := OrElse(AddressIn(ie), p.ueIp), sdf := OrElse(FilterIn(ie), p.sdf))
  {
    hide ParseFteid, ParseUeIpAddress, ParseSdfFilter;
  }

  lemma PdrRecord(v: Octets)
    ensures PdrFrom(v).Err? <==> SomeBad(Parse(v), BadPdrIe)
    ensures PdrFrom(v).Ok? ==> var p, ies := PdrFrom(v).value, Parse(v);
              && p.pdrId == OrElse(LastOf(ies, PdrIdIn), 0) && p.precedence == OrElse(LastOf(ies, PrecedenceIn), 0)
              && p.sourceInterface == OrElse(LastOf(ies, PdiInterface), 0)
              && p.localFteid == OrElse(LastOf(ies, PdiFteid), None) && p.ueIp == OrElse(LastOf(ies, PdiAddress), None)
              && p.farId == OrElse(LastOf(ies, PdrFarIn), None) && p.urrId == OrElse(LastOf(ies, PdrUrrIn), None)
              && p.headerRemoval == OrElse(LastOf(ies, RemovalIn), false) && p.sdf == OrElse(LastOf(ies, AnyFilter), None)
  {
    hide Parse, LastOf, Fill, SomeBad, PdrStep;
    var ies := Parse(v);
    PdrSteps();
    FailsIff(PdrStep, BadPdrIe, ies, NEW_PDR);
    if PdrFrom(v).Ok? {
      FieldIsLast(PdrStep, (p: ParsedPdr) => p.pdrId, PdrIdIn, ies, NEW_PDR);
      FieldIsLast(PdrStep, (p: ParsedPdr) => p.precedence, PrecedenceIn, ies, NEW_PDR);
      FieldIsLast(PdrStep, (p: ParsedPdr) => p.sourceInterface, PdiInterface, ies, NEW_PDR);
      FieldIsLast(PdrStep, (p: ParsedPdr) => p.localFteid, PdiFteid, ies, NEW_PDR);
      FieldIsLast(PdrStep, (p: ParsedPdr) => p.ueIp, PdiAddress, ies, NEW_PDR);
      FieldIsLast(PdrStep, (p: ParsedPdr) => p.farId, PdrFarIn, ies, NEW_PDR);
      FieldIsLast(PdrStep, (p: ParsedPdr) => p.urrId, PdrUrrIn, ies, NEW_PDR);
      FieldIsLast(PdrStep, (p: ParsedPdr) => p.headerRemoval, RemovalIn, ies, NEW_PDR);
      FieldIsLast(PdrStep, (p: ParsedPdr) => p.sdf, AnyFilter, ies, NEW_PDR);
    }
  }

  lemma PdrSteps()
    ensures forall p, ie :: PdrStep(p, ie).Err? <==> BadPdrIe(ie)
    ensures forall p, ie :: PdrStep(p, ie).Ok? ==> var r := PdrStep(p, ie).value;
              && r.pdrId == OrElse(PdrIdIn(ie), p.pdrId) && r.precedence == OrElse(PrecedenceIn(ie), p.precedence)
              && r.sourceInterface == OrElse(PdiInterface(ie), p.sourceInterface)
              && r.localFteid == OrElse(PdiFteid(ie), p.localFteid) && r.ueIp == OrElse(PdiAddress(ie), p.ueIp)
              && r.farId == OrElse(PdrFarIn(ie), p.farId) && r.urrId == OrElse(PdrUrrIn(ie), p.urrId)
              && r.headerRemoval == OrElse(RemovalIn(ie), p.headerRemoval) && r.sdf == OrElse(AnyFilter(ie), p.sdf)
  {
    hide Parse, LastOf, FillPdi, SomeBad, ReadU16, ReadU32, ParseSdfFilter;
    forall p, v: Octets
      ensures FillPdi(v, p).Err? <==> SomeBad(Parse(v), BadPdiIe)
      ensures FillPdi(v, p).Ok? ==>
                FillPdi(v, p).value
                == p.(sourceInterface := OrElse(LastOf(Parse(v), InterfaceIn), p.sourceInterface),
                      localFteid := OrElse(LastOf(Parse(v), FteidIn), p.localFteid),
                      ueIp := OrElse(LastOf(Parse(v), AddressIn), p.ueIp), sdf := OrElse(LastOf(Parse(v), FilterIn), p.sdf))
    {
      PdiRecord(v, p);
    }
  }
}
