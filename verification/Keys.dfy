/** The composed u64 map keys: `(seid << 16) | (id & 0xFFFF)`. */
module Keys {
  import opened Bytes

  /** `<< 16` on a u64 drops the top 16 bits; the low 16 bits are then free for the masked id. */
  function Compose(seid: u64, id: u32): u64 {
    (seid * 0x1_0000) % TWO_64 + id % 0x1_0000
  }

  function SeidOf(key: u64): u64 {
    key / 0x1_0000
  }

  function IdOf(key: u64): u32 {
    key % 0x1_0000
  }

  lemma ComposeParts(seid: u64, id: u32)
    ensures Compose(seid, id) == (seid % TWO_48) * 0x1_0000 + id % 0x1_0000
    ensures SeidOf(Compose(seid, id)) == seid % TWO_48
    ensures IdOf(Compose(seid, id)) == id % 0x1_0000
  {
    var q, r := seid / TWO_48, seid % TWO_48;
    assert seid * 0x1_0000 == q * TWO_64 + r * 0x1_0000;
    assert 0 <= r * 0x1_0000 < TWO_64;
    assert (seid * 0x1_0000) % TWO_64 == r * 0x1_0000;
  }

  /** Two composed keys meet exactly when the SEIDs agree below 2^48 and the ids below 2^16. */
  lemma KeysMeet(s: u64, i: u32, t: u64, j: u32)
    ensures Compose(s, i) == Compose(t, j) <==> s % TWO_48 == t % TWO_48 && i % 0x1_0000 == j % 0x1_0000
  {
    ComposeParts(s, i);
    ComposeParts(t, j);
  }

  /** The reporter's split undoes the composition exactly for SEIDs below 2^48 and ids below 2^16. */
  lemma SplitUndoesCompose(seid: u64, id: u32)
    ensures (SeidOf(Compose(seid, id)) == seid && IdOf(Compose(seid, id)) == id)
            <==> seid < TWO_48 && id < 0x1_0000
  {
    ComposeParts(seid, id);
  }

  /** Every key is the composition of its parts, so a map indexed by keys is indexed by such pairs. */
  lemma ComposeUndoesSplit(key: u64)
    ensures Compose(SeidOf(key), IdOf(key)) == key
  {
    ComposeParts(SeidOf(key), IdOf(key));
  }
}
