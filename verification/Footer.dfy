/** The stargz footer: an empty gzip member whose Extra field (section 2.3.1.1 of RFC 1952)
    carries the offset of the table of contents. */
module Footer {
  import opened Basics
  import opened GzipHeader

  const FOOTER_SIZE := 51
  const LEGACY_FOOTER_SIZE := 47
  const INT64_LIMIT := 0x8000_0000_0000_0000

  const MAGIC: Bytes := [83, 84, 65, 82, 71, 90]  // STARGZ
  const EMPTY_BODY: Bytes := [1, 0, 0, 0xff, 0xff, 0, 0, 0, 0, 0, 0, 0, 0]

  /** Outcome of a parser that can also index past the end of a slice. */
  datatype Parsed = Offset(value: int) | Failed | Panics

  function HexDigit(d: nat): Byte
    requires d < 16
  {
    if d < 10 then 48 + d else 87 + d
  }

  function HexValue(c: Byte): Option<nat> {
    if 48 <= c <= 57 then Some(c - 48)
    else if 97 <= c <= 102 then Some(c - 87)
    else if 65 <= c <= 70 then Some(c - 55)
    else None
  }

  /** `n` in base 16, padded with zeros to `width` digits. */
  function Hex(n: nat, width: nat): (r: Bytes)
    ensures |r| == width
  {
    if width == 0 then [] else Hex(n / 16, width - 1) + [HexDigit(n % 16)]
  }

  function Pow16(k: nat): nat {
    if k == 0 then 1 else 16 * Pow16(k - 1)
  }

  function Unhex(s: Bytes): Option<nat> {
    if s == [] then Some(0)
    else match (Unhex(s[..|s| - 1]), HexValue(s[|s| - 1]))
      case (Some(hi), Some(lo)) => Some(16 * hi + lo)
      case _ => None
  }

  lemma {:induction false} UnhexHex(n: nat, width: nat)
    requires n < Pow16(width)
    ensures Unhex(Hex(n, width)) == Some(n)
    decreases width
  {
    if width == 0 {
    } else {
      var s := Hex(n, width);
      assert s[..|s| - 1] == Hex(n / 16, width - 1);
      UnhexHex(n / 16, width - 1);
    }
  }

  /** strconv.ParseInt(s, 16, 64). */
  function ParseInt64(s: Bytes): Option<int> {
    if s == [] then None
    else
      var negative := s[0] == 45;
      var digits := if s[0] == 45 || s[0] == 43 then s[1..] else s;
      if digits == [] then None
      else match Unhex(digits)
        case None => None
        case Some(v) =>
          if negative then (if v <= INT64_LIMIT then Some(-(v as int)) else None)
          else if v < INT64_LIMIT then Some(v) else None
  }

  lemma ParseInt64Hex(n: nat)
    requires n < INT64_LIMIT
    ensures ParseInt64(Hex(n, 16)) == Some(n as int)
  {
    Pow16Sixteen();
    UnhexHex(n, 16);
    HexHead(n, 16);
  }

  lemma {:induction false} HexHead(n: nat, width: nat)
    requires width > 0
    ensures HexValue(Hex(n, width)[0]).Some?
    decreases width
  {
    if width > 1 {
      HexHead(n / 16, width - 1);
      assert Hex(n, width)[0] == Hex(n / 16, width - 1)[0];
    }
  }

  function Subfield(tocOff: nat): Bytes {
    Hex(tocOff, 16) + MAGIC
  }

  function FooterBytes(tocOff: nat): (r: Bytes)
    ensures |r| == FOOTER_SIZE
  {
    FixedHeader(4) + Le16(26) + ([83, 71] + Le16(22) + Subfield(tocOff)) + EMPTY_BODY
  }

  function LegacyFooterBytes(tocOff: nat): (r: Bytes)
    ensures |r| == LEGACY_FOOTER_SIZE
  {
    FixedHeader(4) + Le16(22) + Subfield(tocOff) + EMPTY_BODY
  }

  function FromParseInt(r: Option<int>): Parsed {
    match r case Some(v) => Offset(v) case None => Failed
  }

  function ParseEStargzFooter(p: Bytes): Parsed {
    if |p| != FOOTER_SIZE then Failed
    else match ReadHeader(p)
      case None => Failed
      case Some(h) =>
        var extra := if h.extra.Some? then h.extra.value else [];
        if |extra| < 4 then Panics
        else if extra[..2] != [83, 71] then Failed
        else if FromLe16(extra[2..4]) != 22 then Failed
        else if |extra| < 20 then Panics
        else if extra[20..] != MAGIC then Failed
        else FromParseInt(ParseInt64(extra[4..20]))
  }

  function ParseLegacyFooter(p: Bytes): Parsed {
    if |p| != LEGACY_FOOTER_SIZE then Failed
    else match ReadHeader(p)
      case None => Failed
      case Some(h) =>
        var extra := if h.extra.Some? then h.extra.value else [];
        if |extra| != 22 || extra[16..] != MAGIC then Failed
        else FromParseInt(ParseInt64(extra[..16]))
  }

  datatype FooterInfo = FooterInfo(tocOffset: Parsed, footerSize: nat)

  /** The new form first, then the legacy form on the last 47 bytes. */
  function ParseFooter(p: Bytes): FooterInfo {
    match ParseEStargzFooter(p)
    case Panics => FooterInfo(Panics, 0)
    case Offset(v) => FooterInfo(Offset(v), FOOTER_SIZE)
    case Failed =>
      var pad := if |p| < LEGACY_FOOTER_SIZE then 0 else |p| - LEGACY_FOOTER_SIZE;
      match ParseLegacyFooter(p[pad..])
      case Offset(v) => FooterInfo(Offset(v), LEGACY_FOOTER_SIZE)
      case other => FooterInfo(other, 0)
  }

  lemma FooterRoundTrip(tocOff: nat)
    requires tocOff < INT64_LIMIT
    ensures ParseFooter(FooterBytes(tocOff)) == FooterInfo(Offset(tocOff), FOOTER_SIZE)
  {
    var extra: Bytes := [83, 71] + Le16(22) + Subfield(tocOff);
    ReadExtraHeader(extra, EMPTY_BODY);
    assert extra[..2] == [83, 71];
    assert extra[2..4] == Le16(22);
    assert extra[20..] == MAGIC;
    assert extra[4..20] == Hex(tocOff, 16);
    ParseInt64Hex(tocOff);
  }

  lemma LegacyParses(tocOff: nat)
    requires tocOff < INT64_LIMIT
    ensures ParseLegacyFooter(LegacyFooterBytes(tocOff)) == Offset(tocOff)
  {
    var extra := Subfield(tocOff);
    ReadExtraHeader(extra, EMPTY_BODY);
    assert extra[16..] == MAGIC && extra[..16] == Hex(tocOff, 16);
    ParseInt64Hex(tocOff);
  }

  predicate IsDigit(c: Byte) {
    48 <= c < 58 || 97 <= c < 103
  }

  lemma {:induction false} HexDigits(n: nat, width: nat, i: nat)
    requires i < width
    ensures IsDigit(Hex(n, width)[i])
    decreases width
  {
    if i < width - 1 {
      HexDigits(n / 16, width - 1, i);
    }
  }

  /** A number in the lower half of its range begins with a digit below eight. */
  lemma {:induction false} HexFirst(n: nat, width: nat)
    requires width > 0 && n < 8 * Pow16(width - 1)
    ensures 48 <= Hex(n, width)[0] < 56
    decreases width
  {
    if width > 1 {
      HexFirst(n / 16, width - 1);
    }
  }

  lemma Pow16Fifteen()
    ensures 8 * Pow16(15) == INT64_LIMIT
  {
    assert Pow16(4) == 0x1_0000;
    assert Pow16(8) == 0x1_0000 * Pow16(4);
    assert Pow16(12) == 0x1_0000 * Pow16(8);
    assert Pow16(15) == 0x1000 * Pow16(12);
  }

  /** The digits, as they are written. */
  lemma HexAlphabet(d: nat)
    requires d < 16
    ensures HexDigit(d) == "0123456789abcdef"[d] as int && HexValue(HexDigit(d)) == Some(d)
  {
  }

  /** The footer byte by byte: a gzip header that announces 26 bytes of Extra, which are one subfield "SG" of 22
      bytes, the offset as sixteen lower-case digits and "STARGZ"; then an empty last stored block, the checksum
      and the length of nothing. */
  lemma FooterLayout(tocOff: nat)
    requires tocOff < INT64_LIMIT
    ensures var p := FooterBytes(tocOff);
            && |p| == 51 && p[..4] == [0x1f, 0x8b, 8, 4] && p[4..8] == [0, 0, 0, 0] && p[10..12] == [26, 0]
            && p[12..14] == [83, 71] && p[14..16] == [22, 0] && p[32..38] == [83, 84, 65, 82, 71, 90]
            && (forall i :: 16 <= i < 32 ==> IsDigit(p[i])) && Unhex(p[16..32]) == Some(tocOff)
            && p[38..43] == [1, 0, 0, 0xff, 0xff] && p[43..] == [0, 0, 0, 0, 0, 0, 0, 0]
  {
    var p := FooterBytes(tocOff);
    assert p[16..32] == Hex(tocOff, 16);
    forall i | 16 <= i < 32 ensures IsDigit(p[i]) {
      assert p[i] == Hex(tocOff, 16)[i - 16];
      HexDigits(tocOff, 16, i - 16);
    }
    hide IsDigit;
    Pow16Sixteen();
    UnhexHex(tocOff, 16);
  }

  lemma Pow16Sixteen()
    ensures Pow16(16) == 2 * INT64_LIMIT
  {
    assert Pow16(4) == 0x1_0000;
    assert Pow16(8) == 0x1_0000 * Pow16(4);
    assert Pow16(12) == 0x1_0000 * Pow16(8);
    assert Pow16(16) == 0x1_0000 * Pow16(12);
  }
}
