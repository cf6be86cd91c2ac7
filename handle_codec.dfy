/** The public 64-bit handle: 0xCAE0 in the top 16 bits, the connection
    slot in the next 16, the module-local handle in the low 32
    (_cHandle, _rHandle, _handle). Shifts, masks and the OR of disjoint
    fields are written as division, remainder and addition on unsigned
    integers of the right width. */
module HandleCodec {

  newtype u64 = x: int | 0 <= x < 0x1_0000_0000_0000_0000
  newtype u32 = x: int | 0 <= x < 0x1_0000_0000

  const HANDLE_PREFIX: int := 0xCAE0
  const P16: int := 0x1_0000
  const P32: int := 0x1_0000_0000
  const P48: int := 0x1_0000_0000_0000

  /** The slot value _cHandle returns for a foreign handle. It is the
      largest uint_fast16_t, which is 64 bits wide with glibc on x86-64;
      every platform's value lies far above any slot index. */
  const UINT_FAST16_MAX: int := 0xFFFF_FFFF_FFFF_FFFF

  predicate HasPrefix(h: u64) {
    h as int / P48 == HANDLE_PREFIX
  }

  /** _cHandle: the connection slot of a handle carrying the prefix,
      UINT_FAST16_MAX for any other value. */
  function CHandle(h: u64): (c: nat)
    ensures HasPrefix(h) ==> c < P16
    ensures !HasPrefix(h) ==> c == UINT_FAST16_MAX
  {
    if HasPrefix(h) then (h as int / P32) % P16 else UINT_FAST16_MAX
  }

  /** _rHandle: the low 32 bits, the handle the owning module knows. */
  function RHandle(h: u64): u32 {
    (h as int % P32) as u32
  }

  /** _handle: the public handle for slot `c` and module-local handle `r`. */
  function MakeHandle(c: nat, r: u32): (h: u64)
    requires c < P16
    ensures HasPrefix(h)
  {
    (HANDLE_PREFIX * P48 + c * P32 + r as int) as u64
  }

  /** Decoding an encoded handle gives back both of its fields. */
  lemma DecodeEncode(c: nat, r: u32)
    requires c < P16
    ensures CHandle(MakeHandle(c, r)) == c
    ensures RHandle(MakeHandle(c, r)) == r
  {
  }

  /** Encoding the fields of a value carrying the prefix gives back the
      value: the codec is a bijection between prefixed values and pairs. */
  lemma EncodeDecode(h: u64)
    requires HasPrefix(h)
    ensures MakeHandle(CHandle(h), RHandle(h)) == h
  {
    var x := h as int;
    var q := x / 0x1_0000_0000;
    assert x == q * 0x1_0000_0000 + x % 0x1_0000_0000;
    assert 0xCAE0 * 0x1_0000_0000_0000 <= x < 0xCAE1 * 0x1_0000_0000_0000;
    assert 0xCAE0 * 0x1_0000 <= q < 0xCAE1 * 0x1_0000;
    assert q == 0xCAE0 * 0x1_0000 + q % 0x1_0000;
  }

  /** Two handles minted from different pairs differ. */
  lemma MakeHandleInjective(c1: nat, r1: u32, c2: nat, r2: u32)
    requires c1 < P16 && c2 < P16
    requires MakeHandle(c1, r1) == MakeHandle(c2, r2)
    ensures c1 == c2 && r1 == r2
  {
    DecodeEncode(c1, r1);
    DecodeEncode(c2, r2);
  }

  /** The two 32-bit words that hold a handle in memory, low word first
      (little-endian), and the handle read back from them. */
  function LowWord(h: u64): u32 {
    (h as int % P32) as u32
  }

  function HighWord(h: u64): u32 {
    (h as int / P32) as u32
  }

  function Join(lo: u32, hi: u32): (h: u64)
    ensures LowWord(h) == lo && HighWord(h) == hi
  {
    (hi as int * P32 + lo as int) as u64
  }

  lemma JoinWords(h: u64)
    ensures Join(LowWord(h), HighWord(h)) == h
  {
  }
}
