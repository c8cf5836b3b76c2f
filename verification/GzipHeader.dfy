/** The gzip member header (section 2.3 of RFC 1952), read the way compress/gzip reads it. */
module GzipHeader {
  import opened Basics

  datatype Header = Header(extra: Option<Bytes>, used: nat)

  const MAX_STRING := 512

  function Le16(n: nat): (r: Bytes)
    requires n < 0x1_0000
    ensures |r| == 2
  {
    [n % 256, n / 256]
  }

  function FromLe16(s: Bytes): nat
    requires |s| == 2
  {
    (s[0] as int) + 256 * (s[1] as int)
  }

  function Le32(n: nat): (r: Bytes)
    requires n < 0x1_0000_0000
    ensures |r| == 4
  {
    Le16(n % 0x1_0000) + Le16(n / 0x1_0000)
  }

  /** One byte's worth of the CRC-32 register (section 8 of RFC 1952): what is shifted out comes back as the
      table entry of the low byte, which is put together from the entries of its bits. */
  function CrcByte(c: bv32): bv32 {
    (c >> 8)
    ^ (if c & 1 == 0 then 0 else 0x7707_3096) ^ (if c & 2 == 0 then 0 else 0xEE0E_612C)
    ^ (if c & 4 == 0 then 0 else 0x076D_C419) ^ (if c & 8 == 0 then 0 else 0x0EDB_8832)
    ^ (if c & 16 == 0 then 0 else 0x1DB7_1064) ^ (if c & 32 == 0 then 0 else 0x3B6E_20C8)
    ^ (if c & 64 == 0 then 0 else 0x76DC_4190) ^ (if c & 128 == 0 then 0 else 0xEDB8_8320)
  }

  /** One bit's worth: a shift, and the polynomial when a one falls out. */
  function CrcBit(c: bv32): bv32 {
    if c & 1 == 1 then (c >> 1) ^ 0xEDB8_8320 else c >> 1
  }

  /** The entries are what eight shifts make of each bit: one shift leads from each bit to the next lower
      one, and from each entry to the next. */
  lemma TableEntries()
    ensures CrcByte(0) == 0 && CrcBit(1) == 0xEDB8_8320 == CrcByte(0x80)
    ensures CrcBit(CrcByte(0x80)) == CrcByte(0x40) && CrcBit(CrcByte(0x40)) == CrcByte(0x20)
    ensures CrcBit(CrcByte(0x20)) == CrcByte(0x10) && CrcBit(CrcByte(0x10)) == CrcByte(8)
    ensures CrcBit(CrcByte(8)) == CrcByte(4) && CrcBit(CrcByte(4)) == CrcByte(2)
    ensures CrcBit(CrcByte(2)) == CrcByte(1)
  {
  }

  /** The checksum register. */
  datatype Register = Register(bits: bv32)

  const CRC_START := Register(0xFFFF_FFFF)

  function Bits(x: Byte): bv32 {
    x as bv32
  }

  function CrcFeed(c: Register, x: Byte): Register {
    Register(CrcByte(c.bits ^ Bits(x)))
  }

  function CrcUpdate(c: Register, data: Bytes): Register
    decreases |data|
  {
    if data == [] then c else CrcUpdate(CrcFeed(c, data[0]), data[1..])
  }

  lemma {:induction false} CrcSnoc(c: Register, data: Bytes, x: Byte)
    ensures CrcUpdate(c, data + [x]) == CrcFeed(CrcUpdate(c, data), x)
    decreases |data|
  {
    hide CrcFeed;
    if data == [] {
      assert ([] + [x])[1..] == [];
    } else {
      assert (data + [x])[1..] == data[1..] + [x];
      CrcSnoc(CrcFeed(c, data[0]), data[1..], x);
    }
  }

  function Crc32(data: Bytes): nat {
    (CrcUpdate(CRC_START, data).bits ^ 0xFFFF_FFFF) as nat
  }

  function LowHalf(c: bv32): bv32 {
    (c ^ 0xFFFF_FFFF) & 0xFFFF
  }

  /** The checksum a header has of itself: the low half. */
  function HeaderCrc(s: Bytes): bv32 {
    LowHalf(CrcUpdate(CRC_START, s).bits)
  }

  function Joined(lo: bv32, hi: bv32): bv32 {
    lo | (hi << 8)
  }

  /** Two bytes as a number, the low one first. */
  function Pair(lo: Byte, hi: Byte): bv32 {
    Joined(Bits(lo), Bits(hi))
  }

  /** The two bytes at `at` are the checksum of all before them. */
  predicate HeaderChecksum(s: Bytes, at: nat)
    requires at + 2 <= |s|
  {
    Pair(s[at], s[at + 1]) == HeaderCrc(s[..at])
  }

  predicate Flag(flags: Byte, bit: nat)
    requires bit > 0
  {
    (flags / bit) % 2 == 1
  }

  /** End of a zero-terminated string of fewer than MAX_STRING bytes. */
  function SkipString(s: Bytes, at: nat, seen: nat): Option<nat>
    requires at <= |s|
    decreases |s| - at
  {
    if at == |s| || seen >= MAX_STRING then None
    else if s[at] == 0 then Some(at + 1)
    else SkipString(s, at + 1, seen + 1)
  }

  lemma {:induction false} SkipStringBound(s: Bytes, at: nat, seen: nat)
    requires at <= |s|
    ensures SkipString(s, at, seen).Some? ==> at < SkipString(s, at, seen).value <= |s|
    decreases |s| - at
  {
    if at == |s| || seen >= MAX_STRING || s[at] == 0 {
    } else {
      SkipStringBound(s, at + 1, seen + 1);
    }
  }

  function ReadExtra(s: Bytes): Option<Header>
    requires |s| >= 10
  {
    if !Flag(s[3], 4) then Some(Header(None, 10))
    else if |s| < 12 then None
    else
      var n := FromLe16(s[10..12]);
      if |s| < 12 + n then None else Some(Header(Some(s[12..12 + n]), 12 + n))
  }

  function ReadOptionalString(s: Bytes, present: bool, at: nat): Option<nat>
    requires at <= |s|
  {
    if present then SkipString(s, at, 0) else Some(at)
  }

  function ReadHeader(s: Bytes): Option<Header> {
    if |s| < 10 || s[..3] != [0x1f, 0x8b, 8] then None
    else match ReadExtra(s)
      case None => None
      case Some(h) =>
        match ReadOptionalString(s, Flag(s[3], 8), h.used)
        case None => None
        case Some(a) =>
          SkipStringBound(s, h.used, 0);
          match ReadOptionalString(s, Flag(s[3], 16), a)
          case None => None
          case Some(b) =>
            SkipStringBound(s, a, 0);
            if !Flag(s[3], 2) then Some(h.(used := b))
            else if |s| < b + 2 || !HeaderChecksum(s, b) then None
            else Some(h.(used := b + 2))
  }

  /** The ten fixed bytes written for a header without a name, comment or time. */
  function FixedHeader(flags: Byte): Bytes {
    [0x1f, 0x8b, 8, flags, 0, 0, 0, 0, 0, 0xff]
  }

  lemma ReadPlainHeader(t: Bytes)
    ensures ReadHeader(FixedHeader(0) + t) == Some(Header(None, 10))
  {
    var s := FixedHeader(0) + t;
    assert s[..3] == [0x1f, 0x8b, 8];
  }

  lemma ReadExtraHeader(extra: Bytes, t: Bytes)
    requires |extra| < 0x1_0000
    ensures ReadHeader(FixedHeader(4) + Le16(|extra|) + extra + t) == Some(Header(Some(extra), 12 + |extra|))
  {
    var s := FixedHeader(4) + Le16(|extra|) + extra + t;
    assert s[..3] == [0x1f, 0x8b, 8];
    assert s[10..12] == Le16(|extra|);
    assert s[12..12 + |extra|] == extra;
  }
}
