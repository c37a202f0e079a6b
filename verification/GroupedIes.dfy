/** Leaf parsers, and the grouped-element parsers that fill a record field by field. */
module GroupedIes {
  import opened Bytes
  import opened Rules
  import opened Tlv

  // Leaf parsers.

  function ParseNodeId(v: Octets): Result<u32> {
    if |v| < 5 || v[0] % 0x10 != 0 then Err else Ok(ReadU32(v, 1))
  }

  function ParseRecoveryTimestamp(v: Octets): Result<u32> {
    if |v| < 4 then Err else Ok(ReadU32(v, 0))
  }

  function ParseFseid(v: Octets): Result<(u64, u32)> {
    if |v| < 13 then Err else Ok((ReadU64(v, 1), ReadU32(v, 9)))
  }

  function ParseFteid(v: Octets): Result<(u32, u32)> {
    if |v| < 5 then Err
    else if Bit(v[0], 0x04) then Ok((0, 0))
    else if |v| >= 9 then Ok((ReadU32(v, 1), ReadU32(v, 5)))
    else Err
  }

  function ParseUeIpAddress(v: Octets): Result<u32> {
    if |v| < 5 || !Bit(v[0], 0x02) then Err else Ok(ReadU32(v, 1))
  }

  const GTPU_PORT: u16 := 2152

  function ParseOuterHeaderCreation(v: Octets): Result<HeaderCreation> {
    if |v| < 10 then Err else Ok(HeaderCreation(ReadU32(v, 2), ReadU32(v, 6), GTPU_PORT))
  }

  function ParseSdfFilter(v: Octets): Result<SdfFilter> {
    if |v| < 13 then Err
    else Ok(SdfFilter(v[0], ReadU32(v, 1), ReadU32(v, 5), Word16(v[9], v[10]), Word16(v[11], v[12])))
  }

  function ParseVolumeThreshold(v: Octets): Result<Option<u64>> {
    if |v| == 0 || !Bit(v[0], 0x01) then Ok(None)
    else if |v| < 9 then Err
    else Ok(Some(ReadU64(v, 1)))
  }

  // One element's effect on the record being filled.

  type Filling<!A> = (A, RawIe) -> Result<A>

  function Fill<A>(step: Filling<A>, ies: seq<RawIe>, a: A): Result<A> {
    if |ies| == 0 then Ok(a)
    else match Fill(step, ies[..|ies| - 1], a)
      case Err => Err
      case Ok(b) => step(b, ies[|ies| - 1])
  }

  const NEW_PDR := ParsedPdr(0, 0, 0, None, None, None, None, false, None)
  const NEW_FAR := ParsedFar(0, 0, None, None)
  const NEW_URR := ParsedUrr(0, 0, 0, None, None)

  function PdiStep(p: ParsedPdr, ie: RawIe): Result<ParsedPdr> {
    var v := ie.value;
    if ie.ieType == SOURCE_INTERFACE then
      Ok(if |v| > 0 then p.(sourceInterface := v[0] % 0x10) else p)
    else if ie.ieType == FTEID then
      match ParseFteid(v) { case Err => Err case Ok(f) => Ok(p.(localFteid := Some(f))) }
    else if ie.ieType == UE_IP_ADDRESS then
      match ParseUeIpAddress(v) { case Err => Err case Ok(a) => Ok(p.(ueIp := Some(a))) }
    else if ie.ieType == SDF_FILTER then
      match ParseSdfFilter(v) { case Err => Err case Ok(f) => Ok(p.(sdf := Some(f))) }
    else Ok(p)
  }

  function FillPdi(v: Octets, p: ParsedPdr): Result<ParsedPdr> {
    Fill(PdiStep, Parse(v), p)
  }

  function PdrStep(p: ParsedPdr, ie: RawIe): Result<ParsedPdr> {
    var v := ie.value;
    if ie.ieType == PDR_ID then Ok(if |v| >= 2 then p.(pdrId := ReadU16(v, 0)) else p)
    else if ie.ieType == PRECEDENCE then Ok(if |v| >= 4 then p.(precedence := ReadU32(v, 0)) else p)
    else if ie.ieType == PDI then FillPdi(v, p)
    else if ie.ieType == FAR_ID then Ok(if |v| >= 4 then p.(farId := Some(ReadU32(v, 0))) else p)
    else if ie.ieType == URR_ID then Ok(if |v| >= 4 then p.(urrId := Some(ReadU32(v, 0))) else p)
    else if ie.ieType == OUTER_HEADER_REMOVAL then Ok(p.(headerRemoval := true))
    else if ie.ieType == SDF_FILTER then
      match ParseSdfFilter(v) { case Err => Err case Ok(f) => Ok(p.(sdf := Some(f))) }
    else Ok(p)
  }

  function PdrFrom(v: Octets): Result<ParsedPdr> {
    Fill(PdrStep, Parse(v), NEW_PDR)
  }

  function ForwardingStep(f: ParsedFar, ie: RawIe): Result<ParsedFar> {
    var v := ie.value;
    if ie.ieType == DESTINATION_INTERFACE then Ok(if |v| > 0 then f.(destInterface := Some(v[0] % 0x10)) else f)
    else if ie.ieType == OUTER_HEADER_CREATION then
      match ParseOuterHeaderCreation(v) { case Err => Err case Ok(o) => Ok(f.(ohc := Some(o))) }
    else Ok(f)
  }

  function FillForwarding(v: Octets, f: ParsedFar): Result<ParsedFar> {
    Fill(ForwardingStep, Parse(v), f)
  }

  /** Create FAR and Update FAR differ in the type of the forwarding group. */
  function FarStep(group: u16, f: ParsedFar, ie: RawIe): Result<ParsedFar> {
    var v := ie.value;
    if ie.ieType == FAR_ID then Ok(if |v| >= 4 then f.(farId := ReadU32(v, 0)) else f)
    else if ie.ieType == APPLY_ACTION then if |v| == 0 then Err else Ok(f.(applyAction := v[0]))
    else if ie.ieType == group then FillForwarding(v, f)
    else Ok(f)
  }

  function CreateFarStep(f: ParsedFar, ie: RawIe): Result<ParsedFar> {
    FarStep(FORWARDING_PARAMETERS, f, ie)
  }

  function UpdateFarStep(f: ParsedFar, ie: RawIe): Result<ParsedFar> {
    FarStep(UPDATE_FORWARDING_PARAMETERS, f, ie)
  }

  function CreateFarFrom(v: Octets): Result<ParsedFar> {
    Fill(CreateFarStep, Parse(v), NEW_FAR)
  }

  function UpdateFarFrom(v: Octets): Result<ParsedFar> {
    Fill(UpdateFarStep, Parse(v), NEW_FAR)
  }

  function UrrStep(u: ParsedUrr, ie: RawIe): Result<ParsedUrr> {
    var v := ie.value;
    if ie.ieType == URR_ID then Ok(if |v| >= 4 then u.(urrId := ReadU32(v, 0)) else u)
    else if ie.ieType == MEASUREMENT_METHOD then Ok(if |v| > 0 then u.(measures := v[0]) else u)
    else if ie.ieType == REPORTING_TRIGGERS then Ok(if |v| > 0 then u.(triggers := v[0]) else u)
    else if ie.ieType == VOLUME_THRESHOLD then
      match ParseVolumeThreshold(v) { case Err => Err case Ok(t) => Ok(u.(threshold := t)) }
    else if ie.ieType == MEASUREMENT_PERIOD then Ok(if |v| >= 4 then u.(period := Some(ReadU32(v, 0))) else u)
    else Ok(u)
  }

  function UrrFrom(v: Octets): Result<ParsedUrr> {
    Fill(UrrStep, Parse(v), NEW_URR)
  }

  // The loops.

  method ParsePdi(v: Octets, p: ParsedPdr) returns (r: Result<ParsedPdr>)
    ensures r == FillPdi(v, p)
  {
    var ies := IterIes(v);
    var pdr := p;
    for i := 0 to |ies|
      invariant Fill(PdiStep, ies[..i], p) == Ok(pdr)
    {
      var v := ies[i].value;
      FillNext(PdiStep, ies, i, p);
      match ies[i].ieType {
        case 20 => // SOURCE_INTERFACE
          if |v| > 0 {
            pdr := pdr.(sourceInterface := v[0] % 0x10);
          }
        case 21 => // FTEID
          var f := ParseFteid(v);
          if f.Err? {
            FillFails(PdiStep, ies, i + 1, p);
            return Err;
          }
          pdr := pdr.(localFteid := Some(f.value));
        case 93 => // UE_IP_ADDRESS
          var a := ParseUeIpAddress(v);
          if a.Err? {
            FillFails(PdiStep, ies, i + 1, p);
            return Err;
          }
          pdr := pdr.(ueIp := Some(a.value));
        case 23 => // SDF_FILTER
          var f := ParseSdfFilter(v);
          if f.Err? {
            FillFails(PdiStep, ies, i + 1, p);
            return Err;
          }
          pdr := pdr.(sdf := Some(f.value));
        case _ =>
      }
    }
    assert ies[..|ies|] == ies;
    return Ok(pdr);
  }

  method ParseCreatePdr(value: Octets) returns (r: Result<ParsedPdr>)
    ensures r == PdrFrom(value)
  {
    var ies := IterIes(value);
    var pdr := NEW_PDR;
    for i := 0 to |ies|
      invariant Fill(PdrStep, ies[..i], NEW_PDR) == Ok(pdr)
    {
      var v := ies[i].value;
      FillNext(PdrStep, ies, i, NEW_PDR);
      match ies[i].ieType {
        case 56 => // PDR_ID
          if |v| >= 2 {
            pdr := pdr.(pdrId := ReadU16(v, 0));
          }
        case 29 => // PRECEDENCE
          if |v| >= 4 {
            pdr := pdr.(precedence := ReadU32(v, 0));
          }
        case 2 => // PDI
          var filled := ParsePdi(v, pdr);
          if filled.Err? {
            FillFails(PdrStep, ies, i + 1, NEW_PDR);
            return Err;
          }
          pdr := filled.value;
        case 108 => // FAR_ID
          if |v| >= 4 {
            pdr := pdr.(farId := Some(ReadU32(v, 0)));
          }
        case 81 => // URR_ID
          if |v| >= 4 {
            pdr := pdr.(urrId := Some(ReadU32(v, 0)));
          }
        case 95 => // OUTER_HEADER_REMOVAL
          pdr := pdr.(headerRemoval := true);
        case 23 => // SDF_FILTER
          var f := ParseSdfFilter(v);
          if f.Err? {
            FillFails(PdrStep, ies, i + 1, NEW_PDR);
            return Err;
          }
          pdr := pdr.(sdf := Some(f.value));
        case _ =>
      }
    }
    assert ies[..|ies|] == ies;
    return Ok(pdr);
  }

  method ParseForwardingParams(v: Octets, f: ParsedFar) returns (r: Result<ParsedFar>)
    ensures r == FillForwarding(v, f)
  {
    var ies := IterIes(v);
    var far := f;
    for i := 0 to |ies|
      invariant Fill(ForwardingStep, ies[..i], f) == Ok(far)
    {
      var v := ies[i].value;
      FillNext(ForwardingStep, ies, i, f);
      match ies[i].ieType {
        case 42 => // DESTINATION_INTERFACE
          if |v| > 0 {
            far := far.(destInterface := Some(v[0] % 0x10));
          }
        case 84 => // OUTER_HEADER_CREATION
          var o := ParseOuterHeaderCreation(v);
          if o.Err? {
            FillFails(ForwardingStep, ies, i + 1, f);
            return Err;
          }
          far := far.(ohc := Some(o.value));
        case _ =>
      }
    }
    assert ies[..|ies|] == ies;
    return Ok(far);
  }

  /** `parse_create_far` and `parse_update_far`: one loop, told apart by the group's type. */
  method ParseFar(update: bool, value: Octets) returns (r: Result<ParsedFar>)
    ensures r == if update then UpdateFarFrom(value) else CreateFarFrom(value)
  {
    var ies := IterIes(value);
    var group := if update then UPDATE_FORWARDING_PARAMETERS else FORWARDING_PARAMETERS;
    var step: Filling<ParsedFar> := if update then UpdateFarStep else CreateFarStep;
    var far := NEW_FAR;
    for i := 0 to |ies|
      invariant Fill(step, ies[..i], NEW_FAR) == Ok(far)
    {
      var v := ies[i].value;
      FillNext(step, ies, i, NEW_FAR);
      assert step(far, ies[i]) == FarStep(group, far, ies[i]);
      if ies[i].ieType == FAR_ID {
        if |v| >= 4 {
          far := far.(farId := ReadU32(v, 0));
        }
      } else if ies[i].ieType == APPLY_ACTION {
        if |v| == 0 {
          FillFails(step, ies, i + 1, NEW_FAR);
          return Err;
        }
        far := far.(applyAction := v[0]);
      } else if ies[i].ieType == group {
        var filled := ParseForwardingParams(v, far);
        if filled.Err? {
          FillFails(step, ies, i + 1, NEW_FAR);
          return Err;
        }
        far := filled.value;
      }
    }
    assert ies[..|ies|] == ies;
    return Ok(far);
  }

  /** Also the parser of Update URR. */
  method ParseCreateUrr(value: Octets) returns (r: Result<ParsedUrr>)
    ensures r == UrrFrom(value)
  {
    var ies := IterIes(value);
    var urr := NEW_URR;
    for i := 0 to |ies|
      invariant Fill(UrrStep, ies[..i], NEW_URR) == Ok(urr)
    {
      var v := ies[i].value;
      FillNext(UrrStep, ies, i, NEW_URR);
      match ies[i].ieType {
        case 81 => // URR_ID
          if |v| >= 4 {
            urr := urr.(urrId := ReadU32(v, 0));
          }
        case 62 => // MEASUREMENT_METHOD
          if |v| > 0 {
            urr := urr.(measures := v[0]);
          }
        case 37 => // REPORTING_TRIGGERS
          if |v| > 0 {
            urr := urr.(triggers := v[0]);
          }
        case 31 => // VOLUME_THRESHOLD
          var t := ParseVolumeThreshold(v);
          if t.Err? {
            FillFails(UrrStep, ies, i + 1, NEW_URR);
            return Err;
          }
          urr := urr.(threshold := t.value);
        case 64 => // MEASUREMENT_PERIOD
          if |v| >= 4 {
            urr := urr.(period := Some(ReadU32(v, 0)));
          }
        case _ =>
      }
    }
    assert ies[..|ies|] == ies;
    return Ok(urr);
  }

  lemma FillNext<A>(step: Filling<A>, ies: seq<RawIe>, i: nat, a: A)
    requires i < |ies| && Fill(step, ies[..i], a).Ok?
    ensures Fill(step, ies[..i + 1], a) == step(Fill(step, ies[..i], a).value, ies[i])
  {
    assert ies[..i + 1][..i] == ies[..i];
  }

  /** An element that fails to parse fails the whole record. */
  lemma {:induction false} FillFails<A>(step: Filling<A>, ies: seq<RawIe>, i: nat, a: A)
    requires i <= |ies| && Fill(step, ies[..i], a).Err?
    ensures Fill(step, ies, a).Err?
    decreases |ies|
  {
    if i < |ies| {
      var init := ies[..|ies| - 1];
      assert init[..i] == ies[..i];
      FillFails(step, init, i, a);
    } else {
      assert ies[..i] == ies;
    }
  }
}
