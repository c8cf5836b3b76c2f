/** A concrete codec, so that the law demanded of gzip is known to be satisfiable: members whose
    DEFLATE data is a run of stored blocks (section 3.2.4 of RFC 1951). */
module StoredCodec {
  import opened Basics
  import opened Gzip
  import opened GzipHeader
  import Footer

  const MAX_BLOCK := 0xffff

  function StoredBlocks(p: Bytes): Bytes {
    if |p| <= MAX_BLOCK then [1] + Le16(|p|) + Le16(MAX_BLOCK - |p|) + p
    else [0] + Le16(MAX_BLOCK) + Le16(0) + p[..MAX_BLOCK] + StoredBlocks(p[MAX_BLOCK..])
  }

  datatype Block = Block(final: bool, data: Bytes, rest: Bytes)

  function ReadBlock(s: Bytes): (r: Option<Block>)
    ensures r.Some? ==> |r.value.rest| < |s|
  {
    if |s| < 5 || s[0] > 1 then None
    else
      var n := FromLe16(s[1..3]);
      if FromLe16(s[3..5]) != MAX_BLOCK - n || |s| < 5 + n then None
      else Some(Block(s[0] == 1, s[5..5 + n], s[5 + n..]))
  }

  function ReadBlocks(s: Bytes): Option<Member>
    decreases |s|
  {
    match ReadBlock(s)
    case None => None
    case Some(b) =>
      if b.final then Some(Member(b.data, |s| - |b.rest|))
      else match ReadBlocks(b.rest)
        case None => None
        case Some(m) => Some(Member(b.data + m.payload, |s| - |b.rest| + m.used))
  }

  lemma ReadOneBlock(final: bool, p: Bytes, t: Bytes)
    requires |p| <= MAX_BLOCK
    ensures ReadBlock([if final then 1 else 0] + Le16(|p|) + Le16(MAX_BLOCK - |p|) + p + t) == Some(Block(final, p, t))
  {
    var s: Bytes := [if final then 1 else 0] + Le16(|p|) + Le16(MAX_BLOCK - |p|) + p + t;
    assert s[1..3] == Le16(|p|);
    assert s[3..5] == Le16(MAX_BLOCK - |p|);
    assert s[5..5 + |p|] == p;
    assert s[5 + |p|..] == t;
  }

  lemma {:induction false} ReadStoredBlocks(p: Bytes, t: Bytes)
    ensures ReadBlocks(StoredBlocks(p) + t) == Some(Member(p, |StoredBlocks(p)|))
    decreases |p|
  {
    if |p| <= MAX_BLOCK {
      ReadOneBlock(true, p, t);
    } else {
      var head, rest := p[..MAX_BLOCK], p[MAX_BLOCK..];
      var tail := StoredBlocks(rest) + t;
      var s := StoredBlocks(p) + t;
      ReadOneBlock(false, head, tail);
      assert s == [0] + Le16(MAX_BLOCK) + Le16(0) + head + tail;
      assert ReadBlock(s) == Some(Block(false, head, tail));
      ReadStoredBlocks(rest, t);
      assert p == head + rest;
    }
  }

  function Trailer(p: Bytes): (r: Bytes)
    ensures |r| == 8
  {
    Le32(Crc32(p)) + Le32(|p| % 0x1_0000_0000)
  }

  function StoredDeflate(p: Bytes): Bytes {
    FixedHeader(0) + StoredBlocks(p) + Trailer(p)
  }

  /** Blocks, then any eight-byte trailer in the place of checksum and length. */
  function InflateBody(trailer: Bytes -> Bytes, s: Bytes): Option<Member> {
    match ReadBlocks(s)
    case None => None
    case Some(m) =>
      if |s| < m.used + 8 || s[m.used..m.used + 8] != trailer(m.payload) then None
      else Some(Member(m.payload, m.used + 8))
  }

  function StoredInflate(s: Bytes): Option<Member> {
    match ReadHeader(s)
    case None => None
    case Some(h) =>
      if |s| < h.used then None
      else match InflateBody(Trailer, s[h.used..])
        case None => None
        case Some(m) => Some(m.(used := h.used + m.used))
  }

  const STORED := Codec(p => StoredDeflate(p), s => StoredInflate(s))

  lemma InflateStoredBody(trailer: Bytes -> Bytes, p: Bytes, t: Bytes)
    requires |trailer(p)| == 8
    ensures InflateBody(trailer, StoredBlocks(p) + (trailer(p) + t)) == Some(Member(p, |StoredBlocks(p)| + 8))
  {
    var s := StoredBlocks(p) + (trailer(p) + t);
    ReadStoredBlocks(p, trailer(p) + t);
    assert s[|StoredBlocks(p)|..|StoredBlocks(p)| + 8] == trailer(p);
  }

  lemma StoredRoundTrip(p: Bytes, t: Bytes)
    ensures StoredInflate(StoredDeflate(p) + t) == Some(Member(p, |StoredDeflate(p)|))
  {
    var s := StoredDeflate(p) + t;
    var rest := StoredBlocks(p) + (Trailer(p) + t);
    assert s == FixedHeader(0) + rest;
    ReadPlainHeader(rest);
    assert s[10..] == rest;
    InflateStoredBody(Trailer, p, t);
  }

  lemma EmptyMember()
    ensures StoredBlocks([]) + Trailer([]) == Footer.EMPTY_BODY
  {
    assert CrcUpdate(CRC_START, []) == CRC_START;
    assert Crc32([]) == 0;
  }

  lemma StoredFooter(tocOff: nat, t: Bytes)
    ensures StoredInflate(Footer.FooterBytes(tocOff) + t) == Some(Member([], Footer.FOOTER_SIZE))
  {
    var extra: Bytes := [83, 71] + Le16(22) + Footer.Subfield(tocOff);
    var s := Footer.FooterBytes(tocOff) + t;
    var head := FixedHeader(4) + Le16(|extra|) + extra;
    EmptyMember();
    var rest := StoredBlocks([]) + (Trailer([]) + t);
    assert s == head + rest;
    ReadExtraHeader(extra, rest);
    assert s[38..] == rest;
    InflateStoredBody(Trailer, [], t);
  }

  /** The hypotheses made of gzip hold of this codec. */
  lemma StoredIsLawful()
    ensures Lawful(STORED)
    ensures forall tocOff: nat :: IsMember(STORED, Footer.FooterBytes(tocOff), [])
  {
    forall p: Bytes, t: Bytes ensures STORED.inflate(STORED.deflate(p) + t) == Some(Member(p, |STORED.deflate(p)|)) {
      StoredRoundTrip(p, t);
    }
    forall tocOff: nat, t: Bytes
      ensures STORED.inflate(Footer.FooterBytes(tocOff) + t) == Some(Member([], |Footer.FooterBytes(tocOff)|))
    {
      StoredFooter(tocOff, t);
    }
  }
}
