/** A legacy footer is four bytes shorter than the newer one, so it is read through a window that starts
    with four bytes of something else. If those look like a gzip header, the window is a gzip header whose
    fields are bytes of the footer, and exactly a header checksum keeps it from being accepted. */
module LegacyWindow {
  import opened Basics
  import opened GzipHeader
  import opened Footer

  /** The magic, any flags, and then a legacy footer. */
  predicate IsWindow(p: Bytes) {
    && |p| == FOOTER_SIZE && p[0] == 0x1f && p[1] == 0x8b && p[2] == 8
    && p[4] == 0x1f && p[5] == 0x8b && p[6] == 8 && p[7] == 4 && p[8] == 0 && p[9] == 0 && p[10] == 0
    && p[11] == 0 && p[12] == 0 && p[13] == 0xff && p[14] == 22 && p[15] == 0
    && 48 <= p[16] < 56 && IsDigit(p[17])
  }

  /** The register after the first `n` bytes. */
  function After(p: Bytes, n: nat): Register
    requires n <= |p|
  {
    CrcUpdate(CRC_START, p[..n])
  }

  /** Register `d` follows register `c` when a byte with bits `x` goes by. */
  predicate Next(c: bv32, x: bv32, d: bv32) {
    d == CrcByte(c ^ x)
  }

  lemma OneMore(p: Bytes, n: nat, x: bv32)
    requires n < |p| && Bits(p[n]) == x
    ensures Next(After(p, n).bits, x, After(p, n + 1).bits)
  {
    hide CrcByte, CrcUpdate, Bits;
    assert p[..n + 1] == p[..n] + [p[n]];
    CrcSnoc(CRC_START, p[..n], p[n]);
  }

  lemma Constants()
    ensures Bits(0x1f) == 0x1f && Bits(0x8b) == 0x8b && Bits(8) == 8 && Bits(4) == 4 && Bits(0) == 0
    ensures Bits(0xff) == 0xff && Bits(22) == 22
  {
  }

  const AFTER_MAGIC: bv32 := 0xC168_0B12

  lemma Magic(c1: bv32, c2: bv32, c3: bv32)
    requires Next(0xFFFF_FFFF, 0x1f, c1) && Next(c1, 0x8b, c2) && Next(c2, 8, c3)
    ensures c3 == AFTER_MAGIC
  {
  }

  // --- the register over the window, as a function of the flag byte
  //
  // With a header checksum (2), and whichever of Extra field (4), name (8) and comment (16) are announced, the
  // low half of the checksum is never what the footer has in its place, whatever the other flags.

  lemma NoMatchPlain(x: bv32, c3: bv32, c4: bv32, c5: bv32, c6: bv32, c7: bv32, c8: bv32, c9: bv32, c10: bv32)
    requires x & 0xFFFF_FF00 == 0 && c3 == AFTER_MAGIC
    requires c4 == CrcByte(c3 ^ x) && c5 == CrcByte(c4 ^ 0x1f) && c6 == CrcByte(c5 ^ 0x8b) && c7 == CrcByte(c6 ^ 8)
    requires c8 == CrcByte(c7 ^ 4) && c9 == CrcByte(c8 ^ 0) && c10 == CrcByte(c9 ^ 0)
    ensures x & 0x1e == 0x02 ==> LowHalf(c10) != 0
  {
  }

  lemma NoMatchShort(x: bv32, c3: bv32, c4: bv32, c5: bv32, c6: bv32, c7: bv32, c8: bv32, c9: bv32, c10: bv32,
                     c11: bv32)
    requires x & 0xFFFF_FF00 == 0 && c3 == AFTER_MAGIC
    requires c4 == CrcByte(c3 ^ x) && c5 == CrcByte(c4 ^ 0x1f) && c6 == CrcByte(c5 ^ 0x8b) && c7 == CrcByte(c6 ^ 8)
    requires c8 == CrcByte(c7 ^ 4) && c9 == CrcByte(c8 ^ 0) && c10 == CrcByte(c9 ^ 0) && c11 == CrcByte(c10 ^ 0)
    ensures x & 0x1e == 0x0a ==> LowHalf(c11) != 0
    ensures x & 0x1e == 0x12 ==> LowHalf(c11) != 0
  {
  }

  lemma NoMatchMiddle(x: bv32, c3: bv32, c4: bv32, c5: bv32, c6: bv32, c7: bv32, c8: bv32, c9: bv32, c10: bv32,
                      c11: bv32,
                      c12: bv32)
    requires x & 0xFFFF_FF00 == 0 && c3 == AFTER_MAGIC
    requires c4 == CrcByte(c3 ^ x) && c5 == CrcByte(c4 ^ 0x1f) && c6 == CrcByte(c5 ^ 0x8b) && c7 == CrcByte(c6 ^ 8)
    requires c8 == CrcByte(c7 ^ 4) && c9 == CrcByte(c8 ^ 0) && c10 == CrcByte(c9 ^ 0) && c11 == CrcByte(c10 ^ 0)
    requires c12 == CrcByte(c11 ^ 0)
    ensures x & 0x1e == 0x06 ==> LowHalf(c12) != 0xFF00
    ensures x & 0x1e == 0x1a ==> LowHalf(c12) != 0xFF00
  {
  }

  lemma NoMatchLong(x: bv32, c3: bv32, c4: bv32, c5: bv32, c6: bv32, c7: bv32, c8: bv32, c9: bv32, c10: bv32, c11: bv32,
                    c12: bv32, c13: bv32)
    requires x & 0xFFFF_FF00 == 0 && c3 == AFTER_MAGIC
    requires c4 == CrcByte(c3 ^ x) && c5 == CrcByte(c4 ^ 0x1f) && c6 == CrcByte(c5 ^ 0x8b) && c7 == CrcByte(c6 ^ 8)
    requires c8 == CrcByte(c7 ^ 4) && c9 == CrcByte(c8 ^ 0) && c10 == CrcByte(c9 ^ 0) && c11 == CrcByte(c10 ^ 0)
    requires c12 == CrcByte(c11 ^ 0) && c13 == CrcByte(c12 ^ 0)
    ensures x & 0x1e == 0x0e ==> LowHalf(c13) != 0x16FF
    ensures x & 0x1e == 0x16 ==> LowHalf(c13) != 0x16FF
  {
  }

  lemma NoMatchWhole(x: bv32, lo: bv32, hi: bv32, c3: bv32, c4: bv32, c5: bv32, c6: bv32, c7: bv32, c8: bv32, c9: bv32,
                     c10: bv32, c11: bv32, c12: bv32, c13: bv32, c14: bv32, c15: bv32, c16: bv32)
    requires x & 0xFFFF_FF00 == 0 && c3 == AFTER_MAGIC
    requires c4 == CrcByte(c3 ^ x) && c5 == CrcByte(c4 ^ 0x1f) && c6 == CrcByte(c5 ^ 0x8b) && c7 == CrcByte(c6 ^ 8)
    requires c8 == CrcByte(c7 ^ 4) && c9 == CrcByte(c8 ^ 0) && c10 == CrcByte(c9 ^ 0) && c11 == CrcByte(c10 ^ 0)
    requires c12 == CrcByte(c11 ^ 0) && c13 == CrcByte(c12 ^ 0) && c14 == CrcByte(c13 ^ 0xFF)
      && c15 == CrcByte(c14 ^ 22)
    requires c16 == CrcByte(c15 ^ 0)
    requires Digits(lo, hi)
    ensures x & 0x1e == 0x1e ==> LowHalf(c16) != Joined(lo, hi)
  {
  }

  // --- the same with the steps and flags named, which keeps bits out of what follows

  predicate HasFlags(x: bv32, flags: bv32) {
    x & 0xFFFF_FF00 == 0 && x & 0x1e == flags
  }

  predicate Digits(lo: bv32, hi: bv32) {
    48 <= lo < 56 && (48 <= hi < 58 || 97 <= hi < 103)
  }

  lemma Plain(x: bv32, c3: bv32, c4: bv32, c5: bv32, c6: bv32, c7: bv32, c8: bv32, c9: bv32, c10: bv32)
    requires c3 == AFTER_MAGIC
    requires Next(c3, x, c4) && Next(c4, 0x1f, c5) && Next(c5, 0x8b, c6) && Next(c6, 8, c7)
    requires Next(c7, 4, c8) && Next(c8, 0, c9) && Next(c9, 0, c10)
    ensures HasFlags(x, 0x02) ==> LowHalf(c10) != 0
  {
    hide CrcByte, LowHalf;
    if x & 0xFFFF_FF00 == 0 {
      NoMatchPlain(x, c3, c4, c5, c6, c7, c8, c9, c10);
    }
  }

  lemma Short(x: bv32, c3: bv32, c4: bv32, c5: bv32, c6: bv32, c7: bv32, c8: bv32, c9: bv32, c10: bv32, c11: bv32)
    requires c3 == AFTER_MAGIC
    requires Next(c3, x, c4) && Next(c4, 0x1f, c5) && Next(c5, 0x8b, c6) && Next(c6, 8, c7)
    requires Next(c7, 4, c8) && Next(c8, 0, c9) && Next(c9, 0, c10) && Next(c10, 0, c11)
    ensures HasFlags(x, 0x0a) ==> LowHalf(c11) != 0
    ensures HasFlags(x, 0x12) ==> LowHalf(c11) != 0
  {
    hide CrcByte, LowHalf;
    if x & 0xFFFF_FF00 == 0 {
      NoMatchShort(x, c3, c4, c5, c6, c7, c8, c9, c10, c11);
    }
  }

  lemma Middle(x: bv32, c3: bv32, c4: bv32, c5: bv32, c6: bv32, c7: bv32, c8: bv32, c9: bv32, c10: bv32, c11: bv32,
               c12: bv32)
    requires c3 == AFTER_MAGIC
    requires Next(c3, x, c4) && Next(c4, 0x1f, c5) && Next(c5, 0x8b, c6) && Next(c6, 8, c7)
    requires Next(c7, 4, c8) && Next(c8, 0, c9) && Next(c9, 0, c10) && Next(c10, 0, c11)
    requires Next(c11, 0, c12)
    ensures HasFlags(x, 0x06) ==> LowHalf(c12) != 0xFF00
    ensures HasFlags(x, 0x1a) ==> LowHalf(c12) != 0xFF00
  {
    hide CrcByte, LowHalf;
    if x & 0xFFFF_FF00 == 0 {
      NoMatchMiddle(x, c3, c4, c5, c6, c7, c8, c9, c10, c11, c12);
    }
  }

  lemma Long(x: bv32, c3: bv32, c4: bv32, c5: bv32, c6: bv32, c7: bv32, c8: bv32, c9: bv32, c10: bv32, c11: bv32,
             c12: bv32, c13: bv32)
    requires c3 == AFTER_MAGIC
    requires Next(c3, x, c4) && Next(c4, 0x1f, c5) && Next(c5, 0x8b, c6) && Next(c6, 8, c7)
    requires Next(c7, 4, c8) && Next(c8, 0, c9) && Next(c9, 0, c10) && Next(c10, 0, c11)
    requires Next(c11, 0, c12) && Next(c12, 0, c13)
    ensures HasFlags(x, 0x0e) ==> LowHalf(c13) != 0x16FF
    ensures HasFlags(x, 0x16) ==> LowHalf(c13) != 0x16FF
  {
    hide CrcByte, LowHalf;
    if x & 0xFFFF_FF00 == 0 {
      NoMatchLong(x, c3, c4, c5, c6, c7, c8, c9, c10, c11, c12, c13);
    }
  }

  lemma Whole(x: bv32, lo: bv32, hi: bv32, c3: bv32, c4: bv32, c5: bv32, c6: bv32, c7: bv32, c8: bv32, c9: bv32,
              c10: bv32, c11: bv32, c12: bv32, c13: bv32, c14: bv32, c15: bv32, c16: bv32)
    requires c3 == AFTER_MAGIC
    requires Next(c3, x, c4) && Next(c4, 0x1f, c5) && Next(c5, 0x8b, c6) && Next(c6, 8, c7)
    requires Next(c7, 4, c8) && Next(c8, 0, c9) && Next(c9, 0, c10) && Next(c10, 0, c11)
    requires Next(c11, 0, c12) && Next(c12, 0, c13) && Next(c13, 0xFF, c14) && Next(c14, 22, c15)
    requires Next(c15, 0, c16)
    requires Digits(lo, hi)
    ensures HasFlags(x, 0x1e) ==> LowHalf(c16) != Joined(lo, hi)
  {
    hide CrcByte, LowHalf;
    if x & 0xFFFF_FF00 == 0 {
      NoMatchWhole(x, lo, hi, c3, c4, c5, c6, c7, c8, c9, c10, c11, c12, c13, c14, c15, c16);
    }
  }

  /** The flag byte as bits, when it announces a header checksum. */
  lemma FlagBits(flags: Byte)
    requires Flag(flags, 2)
    ensures HasFlags(Bits(flags), FlagPattern(Flag(flags, 4), Flag(flags, 8), Flag(flags, 16)))
  {
    var x := Bits(flags);
    assert x & 2 == 2 && (x & 4 == 4 <==> Flag(flags, 4));
    assert (x & 8 == 8 <==> Flag(flags, 8)) && (x & 16 == 16 <==> Flag(flags, 16));
    assert x & 0xFFFF_FF00 == 0;
    hide Bits, Flag;
  }

  function FlagPattern(extra: bool, name: bool, comment: bool): bv32 {
    if extra then
      if name then (if comment then 0x1e else 0x0e) else if comment then 0x16 else 6
    else
      if name then (if comment then 0x1a else 0x0a) else if comment then 0x12 else 2
  }

  lemma DigitBits(lo: Byte, hi: Byte)
    requires 48 <= lo < 56 && IsDigit(hi)
    ensures Digits(Bits(lo), Bits(hi))
  {
  }

  // --- the chain over an actual window

  lemma ChainStart(p: Bytes)
    requires IsWindow(p)
    ensures After(p, 3).bits == AFTER_MAGIC
    ensures Next(After(p, 3).bits, Bits(p[3]), After(p, 4).bits) && Next(After(p, 4).bits, 0x1f, After(p, 5).bits)
    ensures Next(After(p, 5).bits, 0x8b, After(p, 6).bits) && Next(After(p, 6).bits, 8, After(p, 7).bits)
    ensures Next(After(p, 7).bits, 4, After(p, 8).bits)
  {
    Constants();
    AfterMagic(p);
    hide After, Bits, Next;
    OneMore(p, 3, Bits(p[3]));
    OneMore(p, 4, 0x1f);
    OneMore(p, 5, 0x8b);
    OneMore(p, 6, 8);
    OneMore(p, 7, 4);
  }

  lemma AfterMagic(p: Bytes)
    requires IsWindow(p)
    ensures After(p, 3).bits == AFTER_MAGIC
  {
    Constants();
    assert p[..0] == [] && After(p, 0).bits == 0xFFFF_FFFF;
    hide After, Bits, Next;
    OneMore(p, 0, 0x1f);
    OneMore(p, 1, 0x8b);
    OneMore(p, 2, 8);
    Magic(After(p, 1).bits, After(p, 2).bits, After(p, 3).bits);
  }

  lemma ChainMiddle(p: Bytes)
    requires IsWindow(p)
    ensures Next(After(p, 8).bits, 0, After(p, 9).bits) && Next(After(p, 9).bits, 0, After(p, 10).bits)
    ensures Next(After(p, 10).bits, 0, After(p, 11).bits) && Next(After(p, 11).bits, 0, After(p, 12).bits)
    ensures Next(After(p, 12).bits, 0, After(p, 13).bits)
  {
    Constants();
    hide After, Bits, Next;
    OneMore(p, 8, 0);
    OneMore(p, 9, 0);
    OneMore(p, 10, 0);
    OneMore(p, 11, 0);
    OneMore(p, 12, 0);
  }

  lemma ChainEnd(p: Bytes)
    requires IsWindow(p)
    ensures Next(After(p, 13).bits, 0xFF, After(p, 14).bits) && Next(After(p, 14).bits, 22, After(p, 15).bits)
    ensures Next(After(p, 15).bits, 0, After(p, 16).bits)
  {
    Constants();
    hide After, Bits, Next;
    OneMore(p, 13, 0xFF);
    OneMore(p, 14, 22);
    OneMore(p, 15, 0);
  }

  /** What the checksum of the header is not. */
  lemma NotTheChecksum(p: Bytes)
    requires IsWindow(p)
    ensures HasFlags(Bits(p[3]), 2) ==> HeaderCrc(p[..10]) != 0
    ensures HasFlags(Bits(p[3]), 0x0a) || HasFlags(Bits(p[3]), 0x12) ==> HeaderCrc(p[..11]) != 0
    ensures HasFlags(Bits(p[3]), 6) || HasFlags(Bits(p[3]), 0x1a) ==> HeaderCrc(p[..12]) != 0xFF00
    ensures HasFlags(Bits(p[3]), 0x0e) || HasFlags(Bits(p[3]), 0x16) ==> HeaderCrc(p[..13]) != 0x16FF
    ensures HasFlags(Bits(p[3]), 0x1e) ==> HeaderCrc(p[..16]) != Pair(p[16], p[17])
  {
    ChainStart(p);
    ChainMiddle(p);
    ChainEnd(p);
    DigitBits(p[16], p[17]);
    hide CrcUpdate, Bits, Next, HasFlags, LowHalf, Digits, Joined;
    Plain(Bits(p[3]), After(p, 3).bits, After(p, 4).bits, After(p, 5).bits, After(p, 6).bits, After(p, 7).bits,
          After(p, 8).bits, After(p, 9).bits, After(p, 10).bits);
    Short(Bits(p[3]), After(p, 3).bits, After(p, 4).bits, After(p, 5).bits, After(p, 6).bits, After(p, 7).bits,
          After(p, 8).bits, After(p, 9).bits, After(p, 10).bits, After(p, 11).bits);
    Middle(Bits(p[3]), After(p, 3).bits, After(p, 4).bits, After(p, 5).bits, After(p, 6).bits, After(p, 7).bits,
           After(p, 8).bits, After(p, 9).bits, After(p, 10).bits, After(p, 11).bits, After(p, 12).bits);
    Long(Bits(p[3]), After(p, 3).bits, After(p, 4).bits, After(p, 5).bits, After(p, 6).bits, After(p, 7).bits,
         After(p, 8).bits, After(p, 9).bits, After(p, 10).bits, After(p, 11).bits, After(p, 12).bits,
         After(p, 13).bits);
    Whole(Bits(p[3]), Bits(p[16]), Bits(p[17]), After(p, 3).bits, After(p, 4).bits, After(p, 5).bits,
          After(p, 6).bits, After(p, 7).bits, After(p, 8).bits, After(p, 9).bits, After(p, 10).bits,
          After(p, 11).bits, After(p, 12).bits, After(p, 13).bits, After(p, 14).bits, After(p, 15).bits,
          After(p, 16).bits);
  }

  /** Where the header ends: the length of the Extra field, an empty name and a comment are read from the
      footer's zeros, or the comment from the three bytes after them. */
  function HeaderEnd(flags: Byte): nat {
    if Flag(flags, 4) then
      if Flag(flags, 8) then (if Flag(flags, 16) then 16 else 13) else if Flag(flags, 16) then 13 else 12
    else
      if Flag(flags, 8) then (if Flag(flags, 16) then 12 else 11) else if Flag(flags, 16) then 11 else 10
  }

  lemma Strings(p: Bytes)
    requires IsWindow(p)
    ensures SkipString(p, 10, 0) == Some(11) && SkipString(p, 11, 0) == Some(12) && SkipString(p, 12, 0) == Some(13)
    ensures SkipString(p, 13, 0) == Some(16)
  {
    assert SkipString(p, 15, 2) == Some(16);
    assert SkipString(p, 14, 1) == Some(16);
  }

  /** Everything but the header checksum is in order. */
  lemma WindowHeader(p: Bytes)
    requires IsWindow(p)
    ensures var b := HeaderEnd(p[3]);
            var extra := if Flag(p[3], 4) then Some([]) else None;
            ReadHeader(p) == if !Flag(p[3], 2) then Some(Header(extra, b))
                             else if HeaderChecksum(p, b) then Some(Header(extra, b + 2)) else None
  {
    Strings(p);
    assert FromLe16(p[10..12]) == 0 && p[12..12] == [];
    assert p[..3] == [0x1f, 0x8b, 8];
    hide HeaderChecksum, Flag, SkipString;
  }

  /** Its checksum is wrong, whatever the flags. */
  lemma WindowChecksum(p: Bytes)
    requires IsWindow(p) && Flag(p[3], 2)
    ensures !HeaderChecksum(p, HeaderEnd(p[3]))
  {
    FlagBits(p[3]);
    NotTheChecksum(p);
    Stored();
    hide Bits, Flag, HeaderCrc, Pair, HasFlags;
  }

  lemma Stored()
    ensures Pair(0, 0) == 0 && Pair(0, 0xff) == 0xFF00 && Pair(0xff, 22) == 0x16FF
  {
    Constants();
    hide Bits;
  }

  lemma LegacyFooterIsWindow(pad: Bytes, tocOff: nat)
    requires |pad| == 4 && tocOff < INT64_LIMIT && pad[..3] == [0x1f, 0x8b, 8]
    ensures IsWindow(pad + LegacyFooterBytes(tocOff))
  {
    var p := pad + LegacyFooterBytes(tocOff);
    hide Pow16;
    var digits := Hex(tocOff, 16);
    hide Hex;
    assert pad[0] == pad[..3][0] && pad[1] == pad[..3][1] && pad[2] == pad[..3][2];
    assert p[16] == digits[0] && p[17] == digits[1];
    HexDigits(tocOff, 16, 1);
    Pow16Fifteen();
    HexFirst(tocOff, 16);
  }

  /** A legacy footer seen through a 51-byte window gives its own offset exactly when the window does not
      look like a gzip header or announces a header checksum; in all other cases the newer parser indexes
      an Extra field that is not there. */
  lemma LegacyFooterRoundTrip(pad: Bytes, tocOff: nat)
    requires |pad| == 4 && tocOff < INT64_LIMIT
    ensures var p := pad + LegacyFooterBytes(tocOff);
            ParseFooter(p) == if pad[..3] != [0x1f, 0x8b, 8] || Flag(pad[3], 2)
                              then FooterInfo(Offset(tocOff), LEGACY_FOOTER_SIZE) else FooterInfo(Panics, 0)
  {
    var p := pad + LegacyFooterBytes(tocOff);
    assert p[4..] == LegacyFooterBytes(tocOff) && p[..3] == pad[..3] && p[3] == pad[3];
    LegacyParses(tocOff);
    if pad[..3] == [0x1f, 0x8b, 8] {
      LegacyFooterIsWindow(pad, tocOff);
      WindowHeader(p);
      if Flag(pad[3], 2) {
        WindowChecksum(p);
      }
    }
    hide Flag, HeaderChecksum, IsWindow, ParseLegacyFooter, LegacyFooterBytes;
  }
}
