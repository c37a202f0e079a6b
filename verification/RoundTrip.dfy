/** The grouped-element parsers undo the builders, group by group. */
module RoundTrip {
  import opened Bytes
  import opened Rules
  import opened Tlv
  import opened GroupedIes
  import opened Builder

  /** A record filled from built elements. */
  function FillFields<A>(step: Filling<A>, fs: seq<Field>, a: A): Result<A>
    requires Short(fs)
  {
    Fill(step, Raws(fs), a)
  }

  lemma FillFirst<A>(step: Filling<A>, f: Field, a: A)
    requires |f.value| < 0x1_0000
    ensures Short([f]) && FillFields(step, [f], a) == step(a, Raw(f.t, f.value))
  {
    assert Raws([f]) == [Raw(f.t, f.value)] && [Raw(f.t, f.value)][..0] == [];
    assert Fill(step, [], a) == Ok(a);
  }

  /** The record after a list of elements that all succeed and one more. */
  lemma FillSnoc<A>(step: Filling<A>, fs: seq<Field>, f: Field, a: A, b: A)
    requires Short(fs) && |f.value| < 0x1_0000 && FillFields(step, fs, a) == Ok(b)
    ensures Short(fs + [f]) && FillFields(step, fs + [f], a) == step(b, Raw(f.t, f.value))
  {
    assert Raws(fs + [f])[..|fs|] == Raws(fs);
  }

  lemma FillWhen<A>(step: Filling<A>, fs: seq<Field>, c: bool, f: Field, a: A, b: A, b': A)
    requires Short(fs) && |f.value| < 0x1_0000 && FillFields(step, fs, a) == Ok(b)
    requires if c then step(b, Raw(f.t, f.value)) == Ok(b') else b' == b
    ensures Short(fs + When(c, f)) && FillFields(step, fs + When(c, f), a) == Ok(b')
  {
    if c {
      FillSnoc(step, fs, f, a, b);
    } else {
      assert fs + [] == fs;
    }
  }

  // Leaf values read back.

  lemma LeafValues(x: u16, y: u32, z: u64, ip: u32)
    ensures ReadU16(BeU16(x), 0) == x && ReadU32(BeU32(y), 0) == y && ReadU64(BeU64(z), 0) == z
    ensures ParseUeIpAddress(UeIpOctets(ip)) == Ok(ip)
    ensures ParseVolumeThreshold(ThresholdOctets(z)) == Ok(Some(z))
    ensures ParseNodeId(NodeIdOctets(ip)) == Ok(ip)
    ensures ParseRecoveryTimestamp(BeU32(y)) == Ok(y)
  {
    hide BeU32, BeU64, ReadU32, ReadU64;
    ReadBackU32([], y, []);
    assert [] + BeU32(y) + [] == BeU32(y);
    ReadBackU64([], z, []);
    assert [] + BeU64(z) + [] == BeU64(z);
    ReadBackU32([0x02], ip, []);
    assert [0x02] + BeU32(ip) + [] == UeIpOctets(ip);
    ReadBackU64([TOVOL], z, []);
    assert [TOVOL] + BeU64(z) + [] == ThresholdOctets(z);
    ReadBackU32([0x00], ip, []);
    assert [0x00] + BeU32(ip) + [] == NodeIdOctets(ip);
  }

  lemma FseidValue(seid: u64, addr: u32)
    ensures ParseFseid(FseidOctets(seid, addr)) == Ok((seid, addr))
  {
    hide BeU32, BeU64, ReadU32, ReadU64;
    var v := FseidOctets(seid, addr);
    ReadBackU64([0x02], seid, BeU32(addr));
    ReadBackU32([0x02] + BeU64(seid), addr, []);
    assert v == [0x02] + BeU64(seid) + BeU32(addr) + [];
  }

  lemma FteidValue(teid: u32, addr: u32)
    ensures ParseFteid(FteidOctets(teid, addr)) == Ok((teid, addr))
  {
    hide BeU32, ReadU32;
    var v := FteidOctets(teid, addr);
    ReadBackU32([0x02], teid, BeU32(addr));
    ReadBackU32([0x02] + BeU32(teid), addr, []);
    assert v == [0x02] + BeU32(teid) + BeU32(addr) + [];
  }

  lemma OhcValue(o: HeaderCreation)
    ensures ParseOuterHeaderCreation(OhcOctets(o)) == Ok(o.(port := GTPU_PORT))
  {
    hide BeU32, ReadU32;
    var v := OhcOctets(o);
    ReadBackU32([0x01, 0x00], o.teid, BeU32(o.peerAddr));
    ReadBackU32([0x01, 0x00] + BeU32(o.teid), o.peerAddr, []);
    assert v == [0x01, 0x00] + BeU32(o.teid) + BeU32(o.peerAddr) + [];
  }

  lemma SdfValue(f: SdfFilter)
    ensures ParseSdfFilter(SdfOctets(f)) == Ok(f)
  {
    hide BeU32, ReadU32;
    var v, ports := SdfOctets(f), [f.srcPort.hi, f.srcPort.lo, f.dstPort.hi, f.dstPort.lo];
    var p1 := [f.proto];
    var p2 := p1 + BeU32(f.srcIp);
    ReadBackU32(p1, f.srcIp, BeU32(f.dstIp) + ports);
    assert v == p1 + BeU32(f.srcIp) + (BeU32(f.dstIp) + ports);
    ReadBackU32(p2, f.dstIp, ports);
    assert v == p2 + BeU32(f.dstIp) + ports;
    assert v[9..] == ports;
  }

  // What the receiver makes of the sender's parameters.

  function PdrOf(p: PdrParams): ParsedPdr {
    ParsedPdr(p.pdrId, p.precedence, p.sourceInterface % 0x10, if p.fteidChoose then Some((0, 0)) else None, p.ueIp,
              Some(p.farId), p.urrId, p.headerRemoval, p.sdf)
  }

  function FarOf(f: FarParams): ParsedFar {
    ParsedFar(f.farId, f.applyAction, Some(f.destInterface % 0x10),
              if f.ohc.Some? then Some(f.ohc.value.(port := GTPU_PORT)) else None)
  }

  function UrrOf(u: UrrParams): ParsedUrr {
    ParsedUrr(u.urrId, u.measures, u.triggers, u.threshold, u.period)
  }

  // The sizes of the groups, all far below 64 KiB.

  lemma {:induction false} PackSize(fs: seq<Field>, bound: nat)
    requires forall i :: 0 <= i < |fs| ==> |fs[i].value| <= bound
    ensures |Pack(fs)| <= |fs| * (bound + 4)
  {
    if |fs| > 0 {
      var n := |fs| - 1;
      PackSize(fs[..n], bound);
      assert |Ie(fs[n].t, fs[n].value)| <= bound + 4;
      assert (n + 1) * (bound + 4) == n * (bound + 4) + (bound + 4);
    }
  }

  lemma PdiShort(p: PdrParams)
    ensures Short(PdiFields(p)) && |Pack(PdiFields(p))| <= 100
  {
    hide Pack, BeU16, BeU32;
    PackSize(PdiFields(p), 17);
  }

  lemma PdrShort(p: PdrParams)
    ensures Short(PdrFields(p)) && |Pack(PdrFields(p))| <= 700
  {
    hide Pack, BeU16, BeU32, PdiFields;
    PdiShort(p);
    PackSize(PdrFields(p), 100);
  }

  lemma FarShort(group: u16, f: FarParams)
    ensures Short(ForwardingFields(f)) && Short(FarFields(group, f)) && |Pack(FarFields(group, f))| <= 300
  {
    hide Pack, BeU32;
    PackSize(ForwardingFields(f), 17);
    PackSize(FarFields(group, f), 42);
  }

  lemma UrrShort(u: UrrParams)
    ensures Short(UrrFields(u)) && |Pack(UrrFields(u))| <= 100
  {
    hide Pack, BeU32, BeU64;
    PackSize(UrrFields(u), 9);
  }

  // The groups.

  lemma PdiRoundTrip(p: PdrParams, acc: ParsedPdr)
    requires acc.localFteid.None? && acc.ueIp.None? && acc.sdf.None?
    ensures FillPdi(Pack(PdiFields(p)), acc)
            == Ok(acc.(sourceInterface := p.sourceInterface % 0x10, ueIp := p.ueIp, sdf := p.sdf,
                       localFteid := if p.fteidChoose then Some((0, 0)) else None))
  {
    hide Pack, Fill, BeU32, BeU16, ReadU32, UeIpOctets, SdfOctets, ParseUeIpAddress, ParseSdfFilter, Short;
    PdiShort(p);
    ParsePack(PdiFields(p));
    var f1, f2 := Field(SOURCE_INTERFACE, [p.sourceInterface]), Field(FTEID, CHOOSE_FTEID);
    var f3 := Field(UE_IP_ADDRESS, if p.ueIp.Some? then UeIpOctets(p.ueIp.value) else []);
    var f4 := Field(SDF_FILTER, if p.sdf.Some? then SdfOctets(p.sdf.value) else []);
    FillFirst(PdiStep, f1, acc);
    var a1 := acc.(sourceInterface := p.sourceInterface % 0x10);
    var a2 := if p.fteidChoose then a1.(localFteid := Some((0, 0))) else a1;
    assert ParseFteid(CHOOSE_FTEID) == Ok((0, 0));
    FillWhen(PdiStep, [f1], p.fteidChoose, f2, acc, a1, a2);
    var a3 := a2.(ueIp := p.ueIp);
    if p.ueIp.Some? {
      LeafValues(0, 0, 0, p.ueIp.value);
    }
    FillWhen(PdiStep, [f1] + When(p.fteidChoose, f2), p.ueIp.Some?, f3, acc, a2, a3);
    if p.sdf.Some? {
      SdfValue(p.sdf.value);
    }
    FillWhen(PdiStep, [f1] + When(p.fteidChoose, f2) + When(p.ueIp.Some?, f3), p.sdf.Some?, f4, acc, a3, a3.(sdf := p.sdf));
  }

  lemma CreatePdrRoundTrip(p: PdrParams)
    ensures PdrFrom(Pack(PdrFields(p))) == Ok(PdrOf(p))
  {
    hide Pack, Fill, BeU32, BeU16, ReadU32, ReadU16, PdiFields, Short;
    PdrShort(p);
    PdiShort(p);
    ParsePack(PdrFields(p));
    var f1, f2 := Field(PDR_ID, BeU16(p.pdrId)), Field(PRECEDENCE, BeU32(p.precedence));
    var f3, f4 := Field(PDI, Pack(PdiFields(p))), Field(FAR_ID, BeU32(p.farId));
    var f5 := Field(URR_ID, if p.urrId.Some? then BeU32(p.urrId.value) else []);
    var f6 := Field(OUTER_HEADER_REMOVAL, [0]);
    LeafValues(p.pdrId, p.precedence, 0, 0);
    LeafValues(0, p.farId, 0, 0);
    FillFirst(PdrStep, f1, NEW_PDR);
    var a1 := NEW_PDR.(pdrId := p.pdrId);
    FillSnoc(PdrStep, [f1], f2, NEW_PDR, a1);
    var a2 := a1.(precedence := p.precedence);
    assert [f1] + [f2] == [f1, f2];
    FillSnoc(PdrStep, [f1, f2], f3, NEW_PDR, a2);
    PdiRoundTrip(p, a2);
    var a3 := FillPdi(Pack(PdiFields(p)), a2).value;
    assert [f1, f2] + [f3] == [f1, f2, f3];
    FillSnoc(PdrStep, [f1, f2, f3], f4, NEW_PDR, a3);
    var a4 := a3.(farId := Some(p.farId));
    assert [f1, f2, f3] + [f4] == [f1, f2, f3, f4];
    if p.urrId.Some? {
      LeafValues(0, p.urrId.value, 0, 0);
    }
    var a5 := a4.(urrId := p.urrId);
    FillWhen(PdrStep, [f1, f2, f3, f4], p.urrId.Some?, f5, NEW_PDR, a4, a5);
    FillWhen(PdrStep, [f1, f2, f3, f4] + When(p.urrId.Some?, f5), p.headerRemoval, f6, NEW_PDR, a5,
             a5.(headerRemoval := p.headerRemoval));
  }

  lemma ForwardingRoundTrip(f: FarParams, acc: ParsedFar)
    requires acc.ohc.None?
    ensures FillForwarding(Pack(ForwardingFields(f)), acc) == Ok(acc.(destInterface := FarOf(f).destInterface, ohc := FarOf(f).ohc))
  {
    hide Pack, Fill, BeU32, ReadU32, OhcOctets, ParseOuterHeaderCreation, Short;
    FarShort(0, f);
    ParsePack(ForwardingFields(f));
    var f1 := Field(DESTINATION_INTERFACE, [f.destInterface]);
    var f2 := Field(OUTER_HEADER_CREATION, if f.ohc.Some? then OhcOctets(f.ohc.value) else []);
    FillFirst(ForwardingStep, f1, acc);
    var a1 := acc.(destInterface := Some(f.destInterface % 0x10));
    if f.ohc.Some? {
      OhcValue(f.ohc.value);
    }
    FillWhen(ForwardingStep, [f1], f.ohc.Some?, f2, acc, a1, a1.(ohc := FarOf(f).ohc));
  }

  lemma FarRoundTrip(update: bool, f: FarParams)
    ensures (if update then UpdateFarFrom(FarField(true, f).value) else CreateFarFrom(FarField(false, f).value)) == Ok(FarOf(f))
  {
    hide Pack, Fill, BeU32, ReadU32, ForwardingFields, Short;
    var group := if update then UPDATE_FORWARDING_PARAMETERS else FORWARDING_PARAMETERS;
    var step: Filling<ParsedFar> := if update then UpdateFarStep else CreateFarStep;
    FarShort(group, f);
    ParsePack(FarFields(group, f));
    var f1, f2 := Field(FAR_ID, BeU32(f.farId)), Field(APPLY_ACTION, [f.applyAction]);
    var f3 := Field(group, Pack(ForwardingFields(f)));
    LeafValues(0, f.farId, 0, 0);
    FillFirst(step, f1, NEW_FAR);
    var a1 := NEW_FAR.(farId := f.farId);
    FillSnoc(step, [f1], f2, NEW_FAR, a1);
    var a2 := a1.(applyAction := f.applyAction);
    assert [f1] + [f2] == [f1, f2];
    ForwardingSmall(group, f);
    FillSnoc(step, [f1, f2], f3, NEW_FAR, a2);
    assert [f1, f2] + [f3] == FarFields(group, f);
    ForwardingRoundTrip(f, a2);
  }

  lemma ForwardingSmall(group: u16, f: FarParams)
    ensures |Pack(ForwardingFields(f))| < 0x1_0000
  {
    FarShort(group, f);
    assert FarFields(group, f)[2].value == Pack(ForwardingFields(f));
  }

  /** Create URR and Update URR share one parser. */
  lemma UrrRoundTrip(u: UrrParams)
    ensures UrrFrom(Pack(UrrFields(u))) == Ok(UrrOf(u))
  {
    hide Pack, Fill, BeU32, ReadU32, BeU64, ReadU64, ThresholdOctets, ParseVolumeThreshold, Short;
    UrrShort(u);
    ParsePack(UrrFields(u));
    var f1, f2 := Field(URR_ID, BeU32(u.urrId)), Field(MEASUREMENT_METHOD, [u.measures]);
    var f3 := Field(REPORTING_TRIGGERS, [u.triggers, 0]);
    var f4 := Field(VOLUME_THRESHOLD, if u.threshold.Some? then ThresholdOctets(u.threshold.value) else []);
    var f5 := Field(MEASUREMENT_PERIOD, if u.period.Some? then BeU32(u.period.value) else []);
    LeafValues(0, u.urrId, 0, 0);
    FillFirst(UrrStep, f1, NEW_URR);
    var a1 := NEW_URR.(urrId := u.urrId);
    FillSnoc(UrrStep, [f1], f2, NEW_URR, a1);
    var a2 := a1.(measures := u.measures);
    assert [f1] + [f2] == [f1, f2];
    FillSnoc(UrrStep, [f1, f2], f3, NEW_URR, a2);
    var a3 := a2.(triggers := u.triggers);
    assert [f1, f2] + [f3] == [f1, f2, f3];
    var a4 := a3.(threshold := u.threshold);
    if u.threshold.Some? {
      LeafValues(0, 0, u.threshold.value, 0);
    }
    FillWhen(UrrStep, [f1, f2, f3], u.threshold.Some?, f4, NEW_URR, a3, a4);
    if u.period.Some? {
      LeafValues(0, u.period.value, 0, 0);
    }
    FillWhen(UrrStep, [f1, f2, f3] + When(u.threshold.Some?, f4), u.period.Some?, f5, NEW_URR, a4, a4.(period := u.period));
  }
}
