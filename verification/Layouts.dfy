/** The octets of built elements and messages, type numbers and lengths written out (3GPP TS 29.244, section 8.1). */
module Layouts {
  import opened Bytes
  import opened Rules
  import opened Tlv
  import opened Header
  import opened Builder
  import opened Messages
  import opened Server

  function IeOf(f: Field): Octets {
    Ie(f.t, f.value)
  }

  // Packed lists, element by element.

  lemma Pack2(a: Field, b: Field)
    ensures Pack([a, b]) == IeOf(a) + IeOf(b)
  {
    PackSnoc([], a);
    PackSnoc([a], b);
    assert [] + [a] == [a] && [a] + [b] == [a, b];
  }

  lemma Pack3(a: Field, b: Field, c: Field)
    ensures Pack([a, b, c]) == IeOf(a) + IeOf(b) + IeOf(c)
  {
    hide Pack, Ie;
    Pack2(a, b);
    PackSnoc([a, b], c);
    assert [a, b] + [c] == [a, b, c];
  }

  lemma Pack4(a: Field, b: Field, c: Field, d: Field)
    ensures Pack([a, b, c, d]) == IeOf(a) + IeOf(b) + IeOf(c) + IeOf(d)
  {
    hide Pack, Ie;
    Pack3(a, b, c);
    PackSnoc([a, b, c], d);
    assert [a, b, c] + [d] == [a, b, c, d];
  }

  lemma Pack5(a: Field, b: Field, c: Field, d: Field, e: Field)
    ensures Pack([a, b, c, d, e]) == IeOf(a) + IeOf(b) + IeOf(c) + IeOf(d) + IeOf(e)
  {
    hide Pack, Ie;
    Pack4(a, b, c, d);
    PackSnoc([a, b, c, d], e);
    assert [a, b, c, d] + [e] == [a, b, c, d, e];
  }

  lemma Pack6(a: Field, b: Field, c: Field, d: Field, e: Field, f: Field)
    ensures Pack([a, b, c, d, e, f]) == IeOf(a) + IeOf(b) + IeOf(c) + IeOf(d) + IeOf(e) + IeOf(f)
  {
    hide Pack, Ie;
    Pack5(a, b, c, d, e);
    PackSnoc([a, b, c, d, e], f);
    assert [a, b, c, d, e] + [f] == [a, b, c, d, e, f];
  }

  /** One element: its type and its length in two octets each, then its value. */
  lemma IeLayout(t: u8, value: Octets)
    requires |value| < 0x100
    ensures Ie(t, value) == [0, t, 0, |value|] + value
  {
  }

  lemma PdiLayout(p: PdrParams)
    requires p.fteidChoose && p.ueIp.Some? && p.sdf.Some?
    ensures var f := p.sdf.value;
            Pack(PdiFields(p)) ==
              [0, 20, 0, 1, p.sourceInterface] + [0, 21, 0, 5, 4, 0, 0, 0, 0] + ([0, 93, 0, 5, 2] + BeU32(p.ueIp.value))
              + ([0, 23, 0, 13, f.proto] + BeU32(f.srcIp) + BeU32(f.dstIp)
                 + [f.srcPort.hi, f.srcPort.lo, f.dstPort.hi, f.dstPort.lo])
  {
    hide Pack, Ie, BeU32;
    var f := p.sdf.value;
    var a, b, c := Field(20, [p.sourceInterface]), Field(21, [4, 0, 0, 0, 0]), Field(93, [2] + BeU32(p.ueIp.value));
    var d := Field(23, [f.proto] + BeU32(f.srcIp) + BeU32(f.dstIp) + [f.srcPort.hi, f.srcPort.lo, f.dstPort.hi, f.dstPort.lo]);
    assert PdiFields(p) == [a, b, c, d];
    hide PdiFields;
    Pack4(a, b, c, d);
    IeLayout(20, a.value);
    IeLayout(21, b.value);
    IeLayout(93, c.value);
    IeLayout(23, d.value);
  }

  lemma PdrLayout(p: PdrParams)
    requires p.fteidChoose && p.ueIp.Some? && p.sdf.Some? && p.urrId.Some? && p.headerRemoval
    ensures Pack(PdrFields(p)) ==
              ([0, 56, 0, 2] + BeU16(p.pdrId)) + ([0, 29, 0, 4] + BeU32(p.precedence)) + ([0, 2, 0, 40] + Pack(PdiFields(p)))
              + ([0, 108, 0, 4] + BeU32(p.farId)) + ([0, 81, 0, 4] + BeU32(p.urrId.value)) + [0, 95, 0, 1, 0]
  {
    hide Pack, Ie, BeU16, BeU32, PdiFields;
    PdiLayout(p);
    var a, b, c := Field(56, BeU16(p.pdrId)), Field(29, BeU32(p.precedence)), Field(2, Pack(PdiFields(p)));
    var d, e, f := Field(108, BeU32(p.farId)), Field(81, BeU32(p.urrId.value)), Field(95, [0]);
    assert PdrFields(p) == [a, b, c, d, e, f];
    hide PdrFields;
    Pack6(a, b, c, d, e, f);
    IeLayout(56, a.value);
    IeLayout(29, b.value);
    IeLayout(2, c.value);
    IeLayout(108, d.value);
    IeLayout(81, e.value);
    IeLayout(95, f.value);
  }

  /** The forwarding group has type 4 when created and 11 when updated. */
  lemma FarLayout(update: bool, f: FarParams)
    requires f.ohc.Some?
    ensures var h := f.ohc.value;
            FarField(update, f) == Field(
              if update then 10 else 3,
              ([0, 108, 0, 4] + BeU32(f.farId)) + [0, 44, 0, 1, f.applyAction]
              + ([0, if update then 11 else 4, 0, 19]
                 + ([0, 42, 0, 1, f.destInterface] + ([0, 84, 0, 10] + ([1, 0] + BeU32(h.teid) + BeU32(h.peerAddr))))))
  {
    hide Pack, Ie, BeU32;
    var h := f.ohc.value;
    var a, b := Field(42, [f.destInterface]), Field(84, [1, 0] + BeU32(h.teid) + BeU32(h.peerAddr));
    assert ForwardingFields(f) == [a, b];
    hide ForwardingFields;
    Pack2(a, b);
    IeLayout(42, a.value);
    IeLayout(84, b.value);
    var group: u8 := if update then 11 else 4;
    var c, d, e := Field(108, BeU32(f.farId)), Field(44, [f.applyAction]), Field(group, Pack(ForwardingFields(f)));
    assert FarFields(group, f) == [c, d, e];
    hide FarFields;
    Pack3(c, d, e);
    IeLayout(108, c.value);
    IeLayout(44, d.value);
    IeLayout(group, e.value);
  }

  lemma UrrLayout(update: bool, u: UrrParams)
    requires u.threshold.Some? && u.period.Some?
    ensures UrrField(update, u) == Field(
              if update then 13 else 6,
              ([0, 81, 0, 4] + BeU32(u.urrId)) + [0, 62, 0, 1, u.measures] + [0, 37, 0, 2, u.triggers, 0]
              + ([0, 31, 0, 9] + ([1] + BeU64(u.threshold.value))) + ([0, 64, 0, 4] + BeU32(u.period.value)))
  {
    hide Pack, Ie, BeU32, BeU64;
    var a, b, c := Field(81, BeU32(u.urrId)), Field(62, [u.measures]), Field(37, [u.triggers, 0]);
    var d, e := Field(31, [1] + BeU64(u.threshold.value)), Field(64, BeU32(u.period.value));
    assert UrrFields(u) == [a, b, c, d, e];
    hide UrrFields;
    Pack5(a, b, c, d, e);
    IeLayout(81, a.value);
    IeLayout(62, b.value);
    IeLayout(37, c.value);
    IeLayout(31, d.value);
    IeLayout(64, e.value);
  }

  lemma CreatedLayout(c: (u16, u32, u32))
    ensures CreatedList([c]) == [Field(8, ([0, 56, 0, 2] + BeU16(c.0)) + ([0, 21, 0, 9] + ([2] + BeU32(c.1) + BeU32(c.2))))]
  {
    hide Pack, Ie, BeU16, BeU32;
    var a, b := Field(56, BeU16(c.0)), Field(21, [2] + BeU32(c.1) + BeU32(c.2));
    assert CreatedFields(c) == [a, b];
    hide CreatedFields;
    Pack2(a, b);
    IeLayout(56, a.value);
    IeLayout(21, b.value);
    assert CreatedList([c])[0] == Field(8, Pack(CreatedFields(c)));
  }

  // Whole messages.

  /** The three octets of a sequence number. */
  function SeqOctets(s: u32): Octets {
    [(s / 0x1_0000) % 0x100, (s / 0x100) % 0x100, s % 0x100]
  }

  /** Version 1 and, with a SEID, the lowest bit in the first octet; then type, length and so on. */
  lemma WireLayout(msgType: u8, seid: u64, seqNum: u32, fs: seq<Field>)
    requires |Pack(fs)| < 0xFF00
    ensures Wire(NodeHeader(msgType, seqNum), fs)
            == [0x20, msgType] + BeU16(|Pack(fs)| + 4) + SeqOctets(seqNum) + [0] + Pack(fs)
    ensures Wire(SessionHeader(msgType, seid, seqNum), fs)
            == [0x21, msgType] + BeU16(|Pack(fs)| + 12) + BeU64(seid) + SeqOctets(seqNum) + [0] + Pack(fs)
  {
    hide Pack, BeU16, BeU64;
  }

  /** Multipart and follow-on flags. */
  lemma FlagBits(h: PfcpHeader)
    requires h.version == 1
    ensures HeaderOctets(h)[0] == 0x20 + (if h.sFlag then 1 else 0) + (if h.mpFlag then 2 else 0) + (if h.foFlag then 4 else 0)
    ensures h.mpFlag ==> HeaderOctets(h)[HeaderLen(h) - 1] == (h.priority % 0x10) * 0x10
  {
    hide BeU16, BeU64;
  }

  lemma SetupLayout(seqNum: u32, addr: u32, ts: u32)
    ensures SetupMessage(seqNum, addr, ts)
            == [0x20, 5] + BeU16(21) + SeqOctets(seqNum) + [0] + (([0, 60, 0, 5, 0] + BeU32(addr)) + ([0, 96, 0, 4] + BeU32(ts)))
  {
    hide Pack, Ie, BeU16, BeU32, Wire;
    var fs := [Field(NODE_ID, NodeIdOctets(addr)), Field(RECOVERY_TIME_STAMP, BeU32(ts))];
    Pack2(fs[0], fs[1]);
    IeLayout(60, fs[0].value);
    IeLayout(96, fs[1].value);
    WireLayout(5, 0, seqNum, fs);
  }

  lemma {:induction false} PackConcat(a: seq<Field>, b: seq<Field>)
    ensures Pack(a + b) == Pack(a) + Pack(b)
  {
    hide Ie;
    if |b| == 0 {
      assert a + b == a;
    } else {
      assert (a + b)[..|a + b| - 1] == a + b[..|b| - 1];
      PackConcat(a, b[..|b| - 1]);
    }
  }

  /** The front of an establishment request. */
  lemma EstablishLayout(addr: u32, seid: u64, rs: seq<CreateRule>)
    ensures var fs := [Field(NODE_ID, NodeIdOctets(addr)), Field(FSEID, FseidOctets(seid, addr))] + CreateFields(rs);
            Pack(fs) == ([0, 60, 0, 5, 0] + BeU32(addr)) + ([0, 57, 0, 13, 2] + BeU64(seid) + BeU32(addr)) + Pack(CreateFields(rs))
  {
    hide Pack, Ie, BeU32, BeU64, CreateFields;
    var fs := [Field(NODE_ID, NodeIdOctets(addr)), Field(FSEID, FseidOctets(seid, addr))];
    Pack2(fs[0], fs[1]);
    IeLayout(60, fs[0].value);
    IeLayout(57, fs[1].value);
    PackConcat(fs, CreateFields(rs));
  }

  /** The front of the answer to it. */
  lemma AnswerLayout(seqNum: u32, cp: u64, addr: u32, seid: u64, created: seq<(u16, u32, u32)>)
    ensures Pack(ReplyFields(EstablishReply(seqNum, cp, seid, addr, created))) ==
              ([0, 60, 0, 5, 0] + BeU32(addr)) + [0, 19, 0, 1, 1] + ([0, 57, 0, 13, 2] + BeU64(seid) + BeU32(addr))
              + Pack(CreatedList(created))
  {
    hide Pack, Ie, BeU32, BeU64, CreatedList;
    var fs := [Field(NODE_ID, NodeIdOctets(addr)), Field(CAUSE, [1]), Field(FSEID, FseidOctets(seid, addr))];
    Pack3(fs[0], fs[1], fs[2]);
    IeLayout(60, fs[0].value);
    IeLayout(19, fs[1].value);
    IeLayout(57, fs[2].value);
    PackConcat(fs, CreatedList(created));
  }

  /** Which elements are groups, whose values are parsed in turn. */
  lemma Groups(t: u16)
    ensures IsGrouped(t) <==> t in {1, 2, 3, 6, 7, 8, 9, 10, 15, 16, 85}
  {
  }
}
