/** The IPv4 header checksum (RFC 1071 section 1, RFC 791 section 3.1). */
module Checksum {
  import opened Bytes

  type HeaderWords = ws: seq<u16> | |ws| == 10 witness [0, 0, 0, 0, 0, 0, 0, 0, 0, 0]

  /** The word that carries the checksum. */
  const CHECK: nat := 5

  /** Ones' complement addition of 16-bit words: the carry out is added back in. */
  function OnesAdd(a: u16, b: u16): u16 {
    if a + b > 0xFFFF then a + b - 0xFFFF else a + b
  }

  function OnesSum(ws: seq<u16>): u16 {
    if |ws| == 0 then 0 else OnesAdd(OnesSum(ws[..|ws| - 1]), ws[|ws| - 1])
  }

  function PlainSum(ws: seq<u16>): nat {
    if |ws| == 0 then 0 else PlainSum(ws[..|ws| - 1]) + ws[|ws| - 1]
  }

  function FoldOnce(sum: nat): nat {
    sum % 0x1_0000 + sum / 0x1_0000
  }

  function ChecksumOf(ws: HeaderWords): u16
  {
    TwoFoldsSuffice(ws);
    0xFFFF - FoldOnce(FoldOnce(PlainSum(ws)))
  }

  lemma {:induction false} PlainSumBound(ws: seq<u16>)
    ensures PlainSum(ws) <= |ws| * 0xFFFF
  {
    if |ws| > 0 {
      PlainSumBound(ws[..|ws| - 1]);
    }
  }

  /** Two folds bring the sum of any ten words into 16 bits. */
  lemma TwoFoldsSuffice(ws: HeaderWords)
    ensures FoldOnce(FoldOnce(PlainSum(ws))) <= 0xFFFF
  {
    PlainSumBound(ws);
  }

  method IpChecksum(hdr: HeaderWords) returns (check: u16)
    ensures check == ChecksumOf(hdr)
  {
    var sum: u32 := 0;
    sum := sum + hdr[0];
    sum := sum + hdr[1];
    sum := sum + hdr[2];
    sum := sum + hdr[3];
    sum := sum + hdr[4];
    sum := sum + hdr[5];
    sum := sum + hdr[6];
    sum := sum + hdr[7];
    sum := sum + hdr[8];
    sum := sum + hdr[9];
    TenWords(hdr);
    TwoFoldsSuffice(hdr);
    sum := sum % 0x1_0000 + sum / 0x1_0000;
    sum := sum % 0x1_0000 + sum / 0x1_0000;
    check := 0xFFFF - sum;
  }

  lemma TenWords(h: HeaderWords)
    ensures PlainSum(h) == h[0] as int + h[1] + h[2] + h[3] + h[4] + h[5] + h[6] + h[7] + h[8] + h[9]
  {
    forall k: nat | k < 10 ensures PlainSum(h[..k + 1]) == PlainSum(h[..k]) + h[k] {
      assert h[..k + 1][..k] == h[..k];
    }
    assert PlainSum(h[..0]) == 0;
    hide PlainSum;
    assert h[..10] == h;
    assert PlainSum(h[..3]) == h[0] as int + h[1] + h[2];
    assert PlainSum(h[..6]) == h[0] as int + h[1] + h[2] + h[3] + h[4] + h[5];
  }

  /** Ones' complement sum and plain sum agree modulo 0xFFFF, and are zero together. */
  lemma {:induction false} OnesSumIsResidue(ws: seq<u16>)
    ensures OnesSum(ws) % 0xFFFF == PlainSum(ws) % 0xFFFF
    ensures OnesSum(ws) == 0 <==> PlainSum(ws) == 0
  {
    if |ws| > 0 {
      var w := ws[|ws| - 1];
      OnesSumIsResidue(ws[..|ws| - 1]);
      ResidueAdd(OnesSum(ws[..|ws| - 1]), PlainSum(ws[..|ws| - 1]), w);
    }
  }

  lemma ResidueAdd(a: nat, b: nat, w: nat)
    requires a % 0xFFFF == b % 0xFFFF
    ensures (a + w) % 0xFFFF == (b + w) % 0xFFFF
  {
    var q := b / 0xFFFF - a / 0xFFFF;
    assert b + w == (a + w) + q * 0xFFFF;
    ResidueShift(a + w, q);
  }

  lemma ResidueShift(a: int, q: int)
    ensures (a + q * 0xFFFF) % 0xFFFF == a % 0xFFFF
  {
  }

  lemma FoldKeepsResidue(s: nat)
    ensures FoldOnce(s) % 0xFFFF == s % 0xFFFF
  {
    assert s == FoldOnce(s) + (s / 0x1_0000) * 0xFFFF;
    ResidueShift(FoldOnce(s), s / 0x1_0000);
  }

  lemma {:induction false} SumOfUpdate(ws: seq<u16>, i: nat, w: u16)
    requires i < |ws|
    ensures PlainSum(ws[i := w]) == PlainSum(ws) - ws[i] + w
  {
    var n := |ws| - 1;
    if i < n {
      SumOfUpdate(ws[..n], i, w);
      assert ws[i := w][..n] == ws[..n][i := w];
    } else {
      assert ws[i := w][..n] == ws[..n];
    }
  }

  /** A header whose check word was 0 when summed sums to 0xFFFF with `w` there exactly when `w` is the
      checksum, up to the two ones' complement zeros. */
  lemma VerifiesIff(ws: HeaderWords, w: u16)
    requires ws[CHECK] == 0
    ensures OnesSum(ws[CHECK := w]) == 0xFFFF
            <==> (w % 0xFFFF == ChecksumOf(ws) % 0xFFFF && PlainSum(ws) + w > 0)
  {
    hide OnesSum, PlainSum;
    var s := PlainSum(ws);
    var f := FoldOnce(FoldOnce(s));
    TwoFoldsSuffice(ws);
    FoldKeepsResidue(s);
    FoldKeepsResidue(FoldOnce(s));
    SumOfUpdate(ws, CHECK, w);
    OnesSumIsResidue(ws[CHECK := w]);
    assert (s + w) % 0xFFFF == (f + w) % 0xFFFF by { ResidueAdd(s, f, w); }
    ComplementResidue(f, w);
  }

  lemma ComplementResidue(f: nat, w: u16)
    requires f <= 0xFFFF
    ensures (f + w) % 0xFFFF == 0 <==> w % 0xFFFF == (0xFFFF - f) % 0xFFFF
  {
  }

  /** Storing the result as the big-endian check word makes every header verify. */
  lemma ChecksumVerifies(ws: HeaderWords)
    requires ws[CHECK] == 0
    ensures OnesSum(ws[CHECK := ChecksumOf(ws)]) == 0xFFFF
  {
    VerifiesIff(ws, ChecksumOf(ws));
  }

  /** Storing it in host order, octets exchanged, makes the header verify exactly when its two octets are equal. */
  lemma ExchangedVerifiesIff(ws: HeaderWords)
    requires ws[CHECK] == 0
    ensures OnesSum(ws[CHECK := Swap16(ChecksumOf(ws))]) == 0xFFFF
            <==> ChecksumOf(ws) / 0x100 == ChecksumOf(ws) % 0x100
  {
    var c := ChecksumOf(ws);
    VerifiesIff(ws, Swap16(c));
    ChecksumVerifies(ws);
    VerifiesIff(ws, c);
  }
}
