/** Type-length-value information elements: the recursive parser and the builder's inverse of it. */
module Tlv {
  import opened Bytes

  const CREATE_PDR: u16 := 1
  const PDI: u16 := 2
  const CREATE_FAR: u16 := 3
  const FORWARDING_PARAMETERS: u16 := 4
  const CREATE_URR: u16 := 6
  const CREATE_QER: u16 := 7
  const CREATED_PDR: u16 := 8
  const UPDATE_PDR: u16 := 9
  const UPDATE_FAR: u16 := 10
  const UPDATE_FORWARDING_PARAMETERS: u16 := 11
  const UPDATE_URR: u16 := 13
  const REMOVE_PDR: u16 := 15
  const REMOVE_FAR: u16 := 16
  const CAUSE: u16 := 19
  const SOURCE_INTERFACE: u16 := 20
  const FTEID: u16 := 21
  const SDF_FILTER: u16 := 23
  const PRECEDENCE: u16 := 29
  const VOLUME_THRESHOLD: u16 := 31
  const REPORTING_TRIGGERS: u16 := 37
  const REPORT_TYPE: u16 := 39
  const DESTINATION_INTERFACE: u16 := 42
  const UP_FUNCTION_FEATURES: u16 := 43
  const APPLY_ACTION: u16 := 44
  const PDR_ID: u16 := 56
  const FSEID: u16 := 57
  const NODE_ID: u16 := 60
  const MEASUREMENT_METHOD: u16 := 62
  const MEASUREMENT_PERIOD: u16 := 64
  const URR_ID: u16 := 81
  const OUTER_HEADER_CREATION: u16 := 84
  const CREATE_BAR: u16 := 85
  const UE_IP_ADDRESS: u16 := 93
  const OUTER_HEADER_REMOVAL: u16 := 95
  const RECOVERY_TIME_STAMP: u16 := 96
  const FAR_ID: u16 := 108

  predicate IsGrouped(t: u16) {
    t in {CREATE_PDR, CREATE_FAR, CREATED_PDR, UPDATE_PDR, UPDATE_FAR, REMOVE_PDR, REMOVE_FAR,
          CREATE_URR, CREATE_QER, CREATE_BAR, PDI}
  }

  datatype RawIe = RawIe(ieType: u16, length: u16, value: Octets, subIes: seq<RawIe>)

  /** What the parser makes of a buffer. */
  function Parse(buf: Octets): seq<RawIe>
    decreases |buf|
  {
    if |buf| < 4 || |buf| < 4 + ReadU16(buf, 2) then []
    else
      var t, length := ReadU16(buf, 0), ReadU16(buf, 2);
      var value := buf[4..4 + length];
      [RawIe(t, length, value, if IsGrouped(t) then Parse(value) else [])] + Parse(buf[4 + length..])
  }

  /** The parser's loop over a shrinking buffer, calling itself on the value of a grouped element. */
  method IterIes(buf: Octets) returns (ies: seq<RawIe>)
    ensures ies == Parse(buf)
    decreases |buf|
  {
    ies := [];
    var rest := buf;
    while |rest| >= 4
      invariant |rest| <= |buf|
      invariant Parse(buf) == ies + Parse(rest)
      decreases |rest|
    {
      var t: u16, length: nat := ReadU16(rest, 0), ReadU16(rest, 2);
      if |rest| < 4 + length {
        break;
      }
      var value := rest[4..4 + length];
      var subIes := [];
      if IsGrouped(t) {
        subIes := IterIes(value);
      }
      ies := ies + [RawIe(t, length, value, subIes)];
      rest := rest[4 + length..];
    }
  }

  // Serialising.

  /** One element as `add_ie` and `append_ie` write it; the length field is the low 16 bits of the length. */
  function Ie(t: u16, value: Octets): Octets {
    BeU16(t) + BeU16(|value| % 0x1_0000) + value
  }

  function Serialise(ies: seq<RawIe>): Octets {
    if |ies| == 0 then [] else Ie(ies[0].ieType, ies[0].value) + Serialise(ies[1..])
  }

  /** Every element's length is that of its value and its sub-elements are the parse of its value, all the way down. */
  ghost predicate WellFormed(ie: RawIe)
    decreases ie
  {
    && ie.length == |ie.value|
    && ie.subIes == (if IsGrouped(ie.ieType) then Parse(ie.value) else [])
    && forall s :: s in ie.subIes ==> WellFormed(s)
  }

  /** Nothing more can be parsed: under four octets are left, or the next element declares more than is left. */
  predicate Unparsable(rest: Octets) {
    |rest| < 4 || |rest| < 4 + ReadU16(rest, 2)
  }

  lemma IeReadBack(buf: Octets)
    requires !Unparsable(buf)
    ensures Ie(ReadU16(buf, 0), buf[4..4 + ReadU16(buf, 2)]) == buf[..4 + ReadU16(buf, 2)]
  {
    hide BeU16;
    WriteBackU16(buf, 0);
    WriteBackU16(buf, 2);
    var n := ReadU16(buf, 2);
    assert |buf[4..4 + n]| % 0x1_0000 == n;
    assert buf[..4 + n] == buf[0..2] + buf[2..4] + buf[4..4 + n];
  }

  lemma PrefixAfter(buf: Octets, n: nat, s: Octets)
    requires n <= |buf| && s <= buf[n..]
    ensures buf[..n] + s <= buf && buf[|buf[..n] + s|..] == buf[n..][|s|..]
  {
    assert buf == buf[..n] + buf[n..];
  }

  /** Parsing arbitrary octets: the result serialises to a prefix of the input, what is left cannot be parsed,
      and every element, at every depth, is the parse of its own value. */
  lemma {:induction false} ParseCoversPrefix(buf: Octets)
    ensures Serialise(Parse(buf)) <= buf
    ensures Unparsable(buf[|Serialise(Parse(buf))|..])
    ensures forall ie :: ie in Parse(buf) ==> WellFormed(ie)
    decreases |buf|
  {
    if !Unparsable(buf) {
      var n := 4 + ReadU16(buf, 2);
      IeReadBack(buf);
      ParseCoversPrefix(buf[n..]);
      ParseCoversPrefix(buf[4..n]);
      var ies, rest := Parse(buf), Parse(buf[n..]);
      assert ies[1..] == rest;
      assert Serialise(ies) == buf[..n] + Serialise(rest);
      PrefixAfter(buf, n, Serialise(rest));
      assert WellFormed(ies[0]);
      assert forall ie :: ie in ies ==> ie == ies[0] || ie in rest;
    }
  }

  // Parsing what was built.

  function Raw(t: u16, value: Octets): RawIe
    requires |value| < 0x1_0000
  {
    RawIe(t, |value|, value, if IsGrouped(t) then Parse(value) else [])
  }

  lemma ParseIe(t: u16, value: Octets, rest: Octets)
    requires |value| < 0x1_0000
    ensures Parse(Ie(t, value) + rest) == [Raw(t, value)] + Parse(rest)
  {
    var buf := Ie(t, value) + rest;
    ReadBackU16([], t, BeU16(|value|) + value + rest);
    assert buf == [] + BeU16(t) + (BeU16(|value|) + value + rest);
    ReadBackU16(BeU16(t), |value|, value + rest);
    assert buf == BeU16(t) + BeU16(|value|) + (value + rest);
    assert buf[4..4 + |value|] == value && buf[4 + |value|..] == rest;
  }

  /** Octets that are exactly a list of elements: `body` parses to `ies` whatever follows it. */
  ghost predicate Encodes(body: Octets, ies: seq<RawIe>) {
    forall rest: Octets :: Parse(body + rest) == ies + Parse(rest)
  }

  lemma EncodesNone()
    ensures Encodes([], [])
  {
    forall rest: Octets ensures Parse([] + rest) == [] + Parse(rest) {
      assert [] + rest == rest;
    }
  }

  lemma EncodesOne(t: u16, value: Octets)
    requires |value| < 0x1_0000
    ensures Encodes(Ie(t, value), [Raw(t, value)])
  {
    forall rest: Octets ensures Parse(Ie(t, value) + rest) == [Raw(t, value)] + Parse(rest) {
      ParseIe(t, value, rest);
    }
  }

  lemma EncodesConcat(a: Octets, xs: seq<RawIe>, b: Octets, ys: seq<RawIe>)
    requires Encodes(a, xs) && Encodes(b, ys)
    ensures Encodes(a + b, xs + ys)
  {
    hide Parse;
    forall rest: Octets ensures Parse(a + b + rest) == xs + ys + Parse(rest) {
      assert a + b + rest == a + (b + rest);
      assert Parse(a + (b + rest)) == xs + Parse(b + rest);
      assert xs + (ys + Parse(rest)) == xs + ys + Parse(rest);
    }
  }

  lemma EncodesParse(body: Octets, ies: seq<RawIe>)
    requires Encodes(body, ies)
    ensures Parse(body) == ies
  {
    assert Parse([]) == [];
    assert body + [] == body;
    assert Parse(body + []) == ies + Parse([]);
  }
}
