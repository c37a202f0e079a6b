/** Octets, fixed-width integers, and the two byte orders the UPF moves between. */
module Bytes {

  type u8 = x: int | 0 <= x < 0x100
  type u16 = x: int | 0 <= x < 0x1_0000
  type u32 = x: int | 0 <= x < 0x1_0000_0000
  type u64 = x: int | 0 <= x < 0x1_0000_0000_0000_0000
  type Octets = seq<u8>

  datatype Option<+T> = None | Some(value: T)
  datatype Result<+T> = Ok(value: T) | Err

  const TWO_48: int := 0x1_0000_0000_0000
  const TWO_64: int := 0x1_0000_0000_0000_0000

  // Big-endian octets, as `to_be_bytes` and `from_be_bytes`.

  function BeU16(x: u16): (r: Octets)
    ensures |r| == 2
  {
    [x / 0x100, x % 0x100]
  }

  function BeU32(x: u32): (r: Octets)
    ensures |r| == 4
  {
    BeU16(x / 0x1_0000) + BeU16(x % 0x1_0000)
  }

  function BeU64(x: u64): (r: Octets)
    ensures |r| == 8
  {
    BeU32(x / 0x1_0000_0000) + BeU32(x % 0x1_0000_0000)
  }

  function ReadU16(b: Octets, at: nat): u16
    requires at + 2 <= |b|
  {
    b[at] as int * 0x100 + b[at + 1]
  }

  function ReadU24(b: Octets, at: nat): u32
    requires at + 3 <= |b|
  {
    b[at] as int * 0x1_0000 + ReadU16(b, at + 1)
  }

  function ReadU32(b: Octets, at: nat): u32
    requires at + 4 <= |b|
  {
    ReadU16(b, at) * 0x1_0000 + ReadU16(b, at + 2)
  }

  function ReadU64(b: Octets, at: nat): u64
    requires at + 8 <= |b|
  {
    ReadU32(b, at) * 0x1_0000_0000 + ReadU32(b, at + 4)
  }

  lemma ReadBackU16(pre: Octets, x: u16, post: Octets)
    ensures ReadU16(pre + BeU16(x) + post, |pre|) == x
  {
  }

  lemma ReadBackU32(pre: Octets, x: u32, post: Octets)
    ensures ReadU32(pre + BeU32(x) + post, |pre|) == x
  {
    var b := pre + BeU32(x) + post;
    assert b == pre + BeU16(x / 0x1_0000) + (BeU16(x % 0x1_0000) + post);
    assert b == (pre + BeU16(x / 0x1_0000)) + BeU16(x % 0x1_0000) + post;
    ReadBackU16(pre, x / 0x1_0000, BeU16(x % 0x1_0000) + post);
    ReadBackU16(pre + BeU16(x / 0x1_0000), x % 0x1_0000, post);
  }

  lemma ReadBackU64(pre: Octets, x: u64, post: Octets)
    ensures ReadU64(pre + BeU64(x) + post, |pre|) == x
  {
    var hi, lo := x / 0x1_0000_0000, x % 0x1_0000_0000;
    var b := pre + BeU64(x) + post;
    assert b == pre + BeU32(hi) + (BeU32(lo) + post);
    assert b == (pre + BeU32(hi)) + BeU32(lo) + post;
    ReadBackU32(pre, hi, BeU32(lo) + post);
    ReadBackU32(pre + BeU32(hi), lo, post);
  }

  /** Reading a field and writing it back reproduces its octets. */
  lemma WriteBackU16(b: Octets, at: nat)
    requires at + 2 <= |b|
    ensures BeU16(ReadU16(b, at)) == b[at..at + 2]
  {
  }

  // `to_be` on a little-endian host exchanges the octets; `from_be` is the same exchange.

  function Swap16(x: u16): u16 {
    (x % 0x100) * 0x100 + x / 0x100
  }

  function Swap32(x: u32): u32 {
    Swap16(x % 0x1_0000) * 0x1_0000 + Swap16(x / 0x1_0000)
  }

  lemma Swap16Undoes(x: u16)
    ensures Swap16(Swap16(x)) == x
  {
  }

  /** Network order loses nothing: the exchange is its own inverse, so distinct values stay distinct. */
  lemma Swap32Undoes(x: u32)
    ensures Swap32(Swap32(x)) == x
  {
    var s := Swap32(x);
    assert s / 0x1_0000 == Swap16(x % 0x1_0000) && s % 0x1_0000 == Swap16(x / 0x1_0000);
    Swap16Undoes(x % 0x1_0000);
    Swap16Undoes(x / 0x1_0000);
  }

  /** A 16-bit word by its octets, the more significant one first. */
  datatype Word16 = Word16(hi: u8, lo: u8)

  const ZERO: Word16 := Word16(0, 0)

  function Number(w: Word16): u16 {
    w.hi as int * 0x100 + w.lo
  }

  function Exchanged(w: Word16): Word16 {
    Word16(w.lo, w.hi)
  }

  /** On numbers the exchange is `to_be`, and words are equal as their numbers are. */
  lemma WordsAreNumbers(v: Word16, w: Word16)
    ensures Number(Exchanged(w)) == Swap16(Number(w))
    ensures Number(v) == Number(w) <==> v == w
  {
    NumberParts(v);
    NumberParts(w);
    hide Number;
    assert Exchanged(w).hi == w.lo && Exchanged(w).lo == w.hi;
    NumberParts(Exchanged(w));
  }

  lemma NumberParts(w: Word16)
    ensures Number(w) == w.hi as int * 0x100 + w.lo
    ensures Number(w) / 0x100 == w.hi && Number(w) % 0x100 == w.lo
  {
  }

  /** A 32-bit field in network order, known by the number it stands for. */
  datatype Net32 = ToBe32(host: u32)

  /** The word a little-endian host works with for such a field. */
  function Word(n: Net32): u32 {
    Swap32(n.host)
  }

  /** A word as it lies in a little-endian host's memory. */
  function LeU32(x: u32): Octets {
    [x % 0x1_0000 % 0x100, x % 0x1_0000 / 0x100, x / 0x1_0000 % 0x100, x / 0x1_0000 / 0x100]
  }

  /** Comparing such words, testing them for zero and storing them is doing so with the numbers they stand for. */
  lemma WordsStandForNumbers(a: Net32, b: Net32)
    ensures Word(a) == Word(b) <==> a.host == b.host
    ensures Word(a) == 0 <==> a.host == 0
    ensures LeU32(Word(a)) == BeU32(a.host)
  {
    hide Swap32, LeU32, BeU32;
    Swap32Undoes(a.host);
    Swap32Undoes(b.host);
    ZeroIsZero();
    SwappedInMemory(a.host);
  }

  lemma ZeroIsZero()
    ensures Swap32(0) == 0
  {
  }

  lemma SwappedInMemory(x: u32)
    ensures LeU32(Swap32(x)) == BeU32(x)
  {
    var s, hi, lo := Swap32(x), Swap16(x % 0x1_0000), Swap16(x / 0x1_0000);
    assert s / 0x1_0000 == hi && s % 0x1_0000 == lo;
    hide Swap32;
    assert hi % 0x100 == x % 0x1_0000 / 0x100 && hi / 0x100 == x % 0x1_0000 % 0x100;
    assert lo % 0x100 == x / 0x1_0000 / 0x100 && lo / 0x100 == x / 0x1_0000 % 0x100;
  }

  /** Whether bit `mask` (a power of two) is set. */
  predicate Bit(x: nat, mask: nat)
    requires mask > 0
  {
    (x / mask) % 2 == 1
  }
}
