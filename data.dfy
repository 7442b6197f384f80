/** Machine integers and the `Address` type of libdmg/src/data.rs. */
module Data {

  /** A Rust `u8`. */
  type Byte = x: int | 0 <= x < 0x100

  /** A Rust `u16`. */
  type Word = x: int | 0 <= x < 0x1_0000

  /** A 16-bit bus address. */
  type Address = Word

  /** `SplitByte::split_byte`: the high and the low byte of an address.
      `(addr & 0xFF00) >> 8` is written `(addr - addr % 0x100) / 0x100`
      and `addr & 0xFF` is written `addr % 0x100`. */
  function SplitByte(addr: Address): (r: (Byte, Byte))
    ensures r.0 * 0x100 + r.1 == addr
    ensures r.0 == addr / 0x100 && r.1 == addr % 0x100
  {
    ((addr - addr % 0x100) / 0x100, addr % 0x100)
  }

  /** The inverse of `SplitByte`: a big-endian pair of bytes read as a word. */
  function JoinBytes(hi: Byte, lo: Byte): (w: Word)
  {
    hi * 0x100 + lo
  }

  lemma SplitJoin(addr: Address)
    ensures JoinBytes(SplitByte(addr).0, SplitByte(addr).1) == addr
  {
  }

  lemma JoinSplit(hi: Byte, lo: Byte)
    ensures SplitByte(JoinBytes(hi, lo)) == (hi, lo)
  {
  }
}
