/** The message builder: a buffer extended element by element, its length field patched at the end. */
module Builder {
  import opened Bytes
  import opened Rules
  import opened Tlv
  import opened Header

  /** An element to be written, and a list of them as octets and as parsed back. */
  datatype Field = Field(t: u16, value: Octets)

  function Pack(fs: seq<Field>): Octets {
    if |fs| == 0 then []
    else Pack(fs[..|fs| - 1]) + Ie(fs[|fs| - 1].t, fs[|fs| - 1].value)
  }

  predicate Short(fs: seq<Field>) {
    forall i :: 0 <= i < |fs| ==> |fs[i].value| < 0x1_0000
  }

  function Raws(fs: seq<Field>): (r: seq<RawIe>)
    requires Short(fs)
    ensures |r| == |fs|
  {
    seq(|fs|, i requires 0 <= i < |fs| => Raw(fs[i].t, fs[i].value))
  }

  lemma PackSnoc(fs: seq<Field>, f: Field)
    ensures Pack(fs + [f]) == Pack(fs) + Ie(f.t, f.value)
  {
    assert (fs + [f])[..|fs|] == fs;
  }

  lemma {:induction false} PackEncodes(fs: seq<Field>)
    requires Short(fs)
    ensures Encodes(Pack(fs), Raws(fs))
  {
    if |fs| == 0 {
      EncodesNone();
    } else {
      var n := |fs| - 1;
      PackEncodes(fs[..n]);
      EncodesOne(fs[n].t, fs[n].value);
      EncodesConcat(Pack(fs[..n]), Raws(fs[..n]), Ie(fs[n].t, fs[n].value), [Raw(fs[n].t, fs[n].value)]);
      assert Raws(fs) == Raws(fs[..n]) + [Raw(fs[n].t, fs[n].value)];
    }
  }

  /** Elements of under 64 KiB parse back to themselves. */
  lemma ParsePack(fs: seq<Field>)
    requires Short(fs)
    ensures Parse(Pack(fs)) == Raws(fs)
  {
    PackEncodes(fs);
    EncodesParse(Pack(fs), Raws(fs));
  }

  // What the control plane sends.

  datatype PdrParams = PdrParams(
    pdrId: u16, precedence: u32, sourceInterface: u8, fteidChoose: bool, ueIp: Option<u32>, farId: u32,
    urrId: Option<u32>, headerRemoval: bool, sdf: Option<SdfFilter>)
  datatype FarParams = FarParams(farId: u32, applyAction: u8, destInterface: u8, ohc: Option<HeaderCreation>)
  datatype UrrParams = UrrParams(urrId: u32, measures: u8, triggers: u8, threshold: Option<u64>, period: Option<u32>)

  const TOVOL: u8 := 0x01
  const CHOOSE_FTEID: Octets := [0x04, 0, 0, 0, 0]

  function UeIpOctets(ip: u32): (r: Octets)
    ensures |r| == 5
  {
    [0x02] + BeU32(ip)
  }

  function SdfOctets(f: SdfFilter): (r: Octets)
    ensures |r| == 13
  {
    [f.proto] + BeU32(f.srcIp) + BeU32(f.dstIp) + [f.srcPort.hi, f.srcPort.lo, f.dstPort.hi, f.dstPort.lo]
  }

  function OhcOctets(o: HeaderCreation): (r: Octets)
    ensures |r| == 10
  {
    [0x01, 0x00] + BeU32(o.teid) + BeU32(o.peerAddr)
  }

  function ThresholdOctets(v: u64): (r: Octets)
    ensures |r| == 9
  {
    [TOVOL] + BeU64(v)
  }

  function FseidOctets(seid: u64, addr: u32): (r: Octets)
    ensures |r| == 13
  {
    [0x02] + BeU64(seid) + BeU32(addr)
  }

  function NodeIdOctets(addr: u32): (r: Octets)
    ensures |r| == 5
  {
    [0x00] + BeU32(addr)
  }

  function FteidOctets(teid: u32, addr: u32): Octets {
    [0x02] + BeU32(teid) + BeU32(addr)
  }

  function When(c: bool, f: Field): seq<Field> {
    if c then [f] else []
  }

  function PdiFields(p: PdrParams): seq<Field> {
    [Field(SOURCE_INTERFACE, [p.sourceInterface])]
    + When(p.fteidChoose, Field(FTEID, CHOOSE_FTEID))
    + When(p.ueIp.Some?, Field(UE_IP_ADDRESS, if p.ueIp.Some? then UeIpOctets(p.ueIp.value) else []))
    + When(p.sdf.Some?, Field(SDF_FILTER, if p.sdf.Some? then SdfOctets(p.sdf.value) else []))
  }

  function PdrFields(p: PdrParams): seq<Field> {
    [Field(PDR_ID, BeU16(p.pdrId)), Field(PRECEDENCE, BeU32(p.precedence)), Field(PDI, Pack(PdiFields(p))),
     Field(FAR_ID, BeU32(p.farId))]
    + When(p.urrId.Some?, Field(URR_ID, if p.urrId.Some? then BeU32(p.urrId.value) else []))
    + When(p.headerRemoval, Field(OUTER_HEADER_REMOVAL, [0]))
  }

  function ForwardingFields(f: FarParams): seq<Field> {
    [Field(DESTINATION_INTERFACE, [f.destInterface])]
    + When(f.ohc.Some?, Field(OUTER_HEADER_CREATION, if f.ohc.Some? then OhcOctets(f.ohc.value) else []))
  }

  function FarFields(group: u16, f: FarParams): seq<Field> {
    [Field(FAR_ID, BeU32(f.farId)), Field(APPLY_ACTION, [f.applyAction]), Field(group, Pack(ForwardingFields(f)))]
  }

  function UrrFields(u: UrrParams): seq<Field> {
    [Field(URR_ID, BeU32(u.urrId)), Field(MEASUREMENT_METHOD, [u.measures]), Field(REPORTING_TRIGGERS, [u.triggers, 0])]
    + When(u.threshold.Some?, Field(VOLUME_THRESHOLD, if u.threshold.Some? then ThresholdOctets(u.threshold.value) else []))
    + When(u.period.Some?, Field(MEASUREMENT_PERIOD, if u.period.Some? then BeU32(u.period.value) else []))
  }

  function CreatedFields(c: (u16, u32, u32)): seq<Field> {
    [Field(PDR_ID, BeU16(c.0)), Field(FTEID, FteidOctets(c.1, c.2))]
  }

  /** A finished message: the header with its length field filled in, then the elements. */
  function Wire(h: PfcpHeader, fs: seq<Field>): Octets {
    HeaderOctets(h.(length := (HeaderLen(h) + |Pack(fs)| - 4) % 0x1_0000)) + Pack(fs)
  }

  function AppendIe(buf: Octets, t: u16, value: Octets): Octets {
    buf + BeU16(t) + BeU16(|value| % 0x1_0000) + value
  }

  lemma AppendIeIsIe(buf: Octets, t: u16, value: Octets)
    ensures AppendIe(buf, t, value) == buf + Ie(t, value)
  {
  }

  lemma AppendField(buf: Octets, fs: seq<Field>, t: u16, value: Octets)
    requires buf == Pack(fs)
    ensures AppendIe(buf, t, value) == Pack(fs + [Field(t, value)])
  {
    PackSnoc(fs, Field(t, value));
    AppendIeIsIe(buf, t, value);
  }

  class MsgBuilder {
    var buf: Octets
    ghost var header: PfcpHeader
    ghost var fields: seq<Field>

    ghost predicate Valid()
      reads this
    {
      buf == HeaderOctets(header) + Pack(fields)
    }

    constructor (h: PfcpHeader)
      ensures Valid() && header == h && fields == []
    {
      var b := Encode(h);
      buf := b;
      header, fields := h, [];
    }

    /** Fills in the length field; the buffer is then the message. */
    method Finish() returns (message: Octets)
      requires Valid()
      ensures message == Wire(header, fields)
    {
      var length: u16 := (|buf| - 4) % 0x1_0000;
      message := buf[..2] + BeU16(length) + buf[4..];
    }

    method AddIe(t: u16, value: Octets)
      requires Valid()
      modifies this
      ensures Valid() && header == old(header) && fields == old(fields) + [Field(t, value)]
    {
      hide HeaderOctets, Pack, BeU16;
      buf := buf + BeU16(t);
      buf := buf + BeU16(|value| % 0x1_0000);
      buf := buf + value;
      assert buf == old(buf) + Ie(t, value);
      PackSnoc(fields, Field(t, value));
      fields := fields + [Field(t, value)];
    }

    method AddCreatePdr(p: PdrParams)
      requires Valid()
      modifies this
      ensures Valid() && header == old(header)
      ensures fields == old(fields) + [Field(CREATE_PDR, Pack(PdrFields(p)))]
    {
      assert Pack([]) == [];
      hide Pack, AppendIe, UeIpOctets, SdfOctets, HeaderOctets, OhcOctets;
      var pdi := BuildPdi(p);
      var inner := [];
      ghost var fs: seq<Field> := [];
      AppendField(inner, fs, PDR_ID, BeU16(p.pdrId));
      inner, fs := AppendIe(inner, PDR_ID, BeU16(p.pdrId)), fs + [Field(PDR_ID, BeU16(p.pdrId))];
      AppendField(inner, fs, PRECEDENCE, BeU32(p.precedence));
      inner, fs := AppendIe(inner, PRECEDENCE, BeU32(p.precedence)), fs + [Field(PRECEDENCE, BeU32(p.precedence))];
      AppendField(inner, fs, PDI, pdi);
      inner, fs := AppendIe(inner, PDI, pdi), fs + [Field(PDI, pdi)];
      AppendField(inner, fs, FAR_ID, BeU32(p.farId));
      inner, fs := AppendIe(inner, FAR_ID, BeU32(p.farId)), fs + [Field(FAR_ID, BeU32(p.farId))];
      if p.urrId.Some? {
        AppendField(inner, fs, URR_ID, BeU32(p.urrId.value));
        inner, fs := AppendIe(inner, URR_ID, BeU32(p.urrId.value)), fs + [Field(URR_ID, BeU32(p.urrId.value))];
      }
      if p.headerRemoval {
        AppendField(inner, fs, OUTER_HEADER_REMOVAL, [0]);
        inner, fs := AppendIe(inner, OUTER_HEADER_REMOVAL, [0]), fs + [Field(OUTER_HEADER_REMOVAL, [0])];
      }
      assert fs == PdrFields(p);
      AddIe(CREATE_PDR, inner);
    }

    static method BuildPdi(p: PdrParams) returns (pdi: Octets)
      ensures pdi == Pack(PdiFields(p))
    {
      assert Pack([]) == [];
      hide Pack, AppendIe, UeIpOctets, SdfOctets;
      pdi := [];
      ghost var fs: seq<Field> := [];
      AppendField(pdi, fs, SOURCE_INTERFACE, [p.sourceInterface]);
      pdi, fs := AppendIe(pdi, SOURCE_INTERFACE, [p.sourceInterface]), fs + [Field(SOURCE_INTERFACE, [p.sourceInterface])];
      ghost var f1, f2 := Field(SOURCE_INTERFACE, [p.sourceInterface]), Field(FTEID, CHOOSE_FTEID);
      if p.fteidChoose {
        AppendField(pdi, fs, FTEID, CHOOSE_FTEID);
        pdi, fs := AppendIe(pdi, FTEID, CHOOSE_FTEID), fs + [Field(FTEID, CHOOSE_FTEID)];
      }
      assert fs == [f1] + When(p.fteidChoose, f2);
      if p.ueIp.Some? {
        AppendField(pdi, fs, UE_IP_ADDRESS, UeIpOctets(p.ueIp.value));
        pdi, fs := AppendIe(pdi, UE_IP_ADDRESS, UeIpOctets(p.ueIp.value)), fs + [Field(UE_IP_ADDRESS, UeIpOctets(p.ueIp.value))];
      }
      if p.sdf.Some? {
        AppendField(pdi, fs, SDF_FILTER, SdfOctets(p.sdf.value));
        pdi, fs := AppendIe(pdi, SDF_FILTER, SdfOctets(p.sdf.value)), fs + [Field(SDF_FILTER, SdfOctets(p.sdf.value))];
      }
      assert fs == PdiFields(p);
    }

    /** `add_create_far` and `add_update_far`. */
    method AddFar(update: bool, f: FarParams)
      requires Valid()
      modifies this
      ensures Valid() && header == old(header)
      ensures fields == old(fields) + [FarField(update, f)]
    {
      assert Pack([]) == [];
      hide Pack, AppendIe, UeIpOctets, SdfOctets, HeaderOctets, OhcOctets;
      var fwd := [];
      ghost var fs: seq<Field> := [];
      AppendField(fwd, fs, DESTINATION_INTERFACE, [f.destInterface]);
      fwd, fs := AppendIe(fwd, DESTINATION_INTERFACE, [f.destInterface]), fs + [Field(DESTINATION_INTERFACE, [f.destInterface])];
      if f.ohc.Some? {
        AppendField(fwd, fs, OUTER_HEADER_CREATION, OhcOctets(f.ohc.value));
        fwd, fs := AppendIe(fwd, OUTER_HEADER_CREATION, OhcOctets(f.ohc.value)),
                   fs + [Field(OUTER_HEADER_CREATION, OhcOctets(f.ohc.value))];
      }
      assert fs == ForwardingFields(f);
      var group := if update then UPDATE_FORWARDING_PARAMETERS else FORWARDING_PARAMETERS;
      var inner := [];
      fs := [];
      AppendField(inner, fs, FAR_ID, BeU32(f.farId));
      inner, fs := AppendIe(inner, FAR_ID, BeU32(f.farId)), fs + [Field(FAR_ID, BeU32(f.farId))];
      AppendField(inner, fs, APPLY_ACTION, [f.applyAction]);
      inner, fs := AppendIe(inner, APPLY_ACTION, [f.applyAction]), fs + [Field(APPLY_ACTION, [f.applyAction])];
      AppendField(inner, fs, group, fwd);
      inner, fs := AppendIe(inner, group, fwd), fs + [Field(group, fwd)];
      assert fs == FarFields(group, f);
      AddIe(if update then UPDATE_FAR else CREATE_FAR, inner);
    }

    /** `add_create_urr` and `add_update_urr`. */
    method AddUrr(update: bool, u: UrrParams)
      requires Valid()
      modifies this
      ensures Valid() && header == old(header)
      ensures fields == old(fields) + [UrrField(update, u)]
    {
      assert Pack([]) == [];
      hide Pack, AppendIe, ThresholdOctets, HeaderOctets, BeU32;
      var inner := [];
      ghost var fs: seq<Field> := [];
      AppendField(inner, fs, URR_ID, BeU32(u.urrId));
      inner, fs := AppendIe(inner, URR_ID, BeU32(u.urrId)), fs + [Field(URR_ID, BeU32(u.urrId))];
      AppendField(inner, fs, MEASUREMENT_METHOD, [u.measures]);
      inner, fs := AppendIe(inner, MEASUREMENT_METHOD, [u.measures]), fs + [Field(MEASUREMENT_METHOD, [u.measures])];
      AppendField(inner, fs, REPORTING_TRIGGERS, [u.triggers, 0]);
      inner, fs := AppendIe(inner, REPORTING_TRIGGERS, [u.triggers, 0]), fs + [Field(REPORTING_TRIGGERS, [u.triggers, 0])];
      if u.threshold.Some? {
        AppendField(inner, fs, VOLUME_THRESHOLD, ThresholdOctets(u.threshold.value));
        inner, fs := AppendIe(inner, VOLUME_THRESHOLD, ThresholdOctets(u.threshold.value)),
                     fs + [Field(VOLUME_THRESHOLD, ThresholdOctets(u.threshold.value))];
      }
      if u.period.Some? {
        AppendField(inner, fs, MEASUREMENT_PERIOD, BeU32(u.period.value));
        inner, fs := AppendIe(inner, MEASUREMENT_PERIOD, BeU32(u.period.value)),
                     fs + [Field(MEASUREMENT_PERIOD, BeU32(u.period.value))];
      }
      assert fs == UrrFields(u);
      AddIe(if update then UPDATE_URR else CREATE_URR, inner);
    }

    method AddCreatedPdr(c: (u16, u32, u32))
      requires Valid()
      modifies this
      ensures Valid() && header == old(header)
      ensures fields == old(fields) + [Field(CREATED_PDR, Pack(CreatedFields(c)))]
    {
      var inner := [];
      ghost var fs: seq<Field> := [];
      AppendField(inner, fs, PDR_ID, BeU16(c.0));
      inner, fs := AppendIe(inner, PDR_ID, BeU16(c.0)), fs + [Field(PDR_ID, BeU16(c.0))];
      AppendField(inner, fs, FTEID, FteidOctets(c.1, c.2));
      inner, fs := AppendIe(inner, FTEID, FteidOctets(c.1, c.2)), fs + [Field(FTEID, FteidOctets(c.1, c.2))];
      assert fs == CreatedFields(c);
      AddIe(CREATED_PDR, inner);
    }
  }

  function FarField(update: bool, f: FarParams): Field {
    if update then Field(UPDATE_FAR, Pack(FarFields(UPDATE_FORWARDING_PARAMETERS, f)))
    else Field(CREATE_FAR, Pack(FarFields(FORWARDING_PARAMETERS, f)))
  }

  function UrrField(update: bool, u: UrrParams): Field {
    Field(if update then UPDATE_URR else CREATE_URR, Pack(UrrFields(u)))
  }

  /** What comes back of a built message: its header and its elements. */
  lemma WireReadBack(h: PfcpHeader, fs: seq<Field>)
    requires h.version == PFCP_VERSION && h.seid.Some? == h.sFlag && Short(fs)
    ensures DecodeHeader(Wire(h, fs)).Ok?
    ensures var (h', body) := DecodeHeader(Wire(h, fs)).value;
            && h' == Carried(h.(length := (HeaderLen(h) + |Pack(fs)| - 4) % 0x1_0000))
            && body == Pack(fs) && Parse(body) == Raws(fs)
  {
    hide HeaderOctets, Pack, DecodeHeader;
    DecodeUndoesEncode(h.(length := (HeaderLen(h) + |Pack(fs)| - 4) % 0x1_0000), Pack(fs));
    ParsePack(fs);
  }
}
