/** The stargz writer: splits regular files into chunks, one gzip member each, and records them. */
module Writer {
  import opened Basics
  import opened Gzip
  import opened Toc
  import opened Layer
  import Footer

  const DEFAULT_CHUNK_SIZE := 0x40_0000
  const BLOCK_SIZE := 512

  /** Zeros up to the next tar block boundary. */
  function Padding(size: nat): Bytes {
    seq((BLOCK_SIZE - size % BLOCK_SIZE) % BLOCK_SIZE, _ => 0)
  }

  /** A header, the data, and the padding are what a tar has for an entry. */
  lemma PaddedEntry(it: TarItem, part: Bytes)
    requires it.Item? && it.h.encoded.Some? && |it.data| <= it.h.size && (HasPayload(it.h) ==> |it.data| == it.h.size)
    requires part == it.h.encoded.value + (if HasPayload(it.h) then it.data else [])
                   + Padding(if it.h.flag == TypeReg then it.h.size else 0)
    ensures EntryBytes(it, part)
  {
    var body := it.h.encoded.value + if HasPayload(it.h) then it.data else [];
    var size := if it.h.flag == TypeReg then it.h.size else 0;
    PaddedSize(size);
    assert body <= part && |body| == |it.h.encoded.value| + size;
    assert part[|body|..] == Padding(size);
    forall i | |body| <= i < |part| ensures part[i] == 0 {
      assert part[i] == Padding(size)[i - |body|];
    }
    hide Padding;
  }

  lemma PaddedSize(size: nat)
    ensures |Padding(size)| < 512 && (size + |Padding(size)|) % 512 == 0
  {
  }

  lemma IsTarSnoc(log: seq<TarItem>, parts: seq<Bytes>, it: TarItem, part: Bytes)
    requires IsTar(log, parts) && EntryBytes(it, part)
    ensures IsTar(log + [it], parts + [part])
  {
    hide EntryBytes;
  }

  /** The entries AppendTar keeps: all but a table of contents left by an earlier conversion. */
  function Keep(items: seq<TarItem>): seq<TarItem> {
    if items == [] then []
    else if items[0].Item? && items[0].h.name == TOC_TAR_NAME then Keep(items[1..])
    else [items[0]] + Keep(items[1..])
  }

  lemma {:induction false} KeepSnoc(items: seq<TarItem>, it: TarItem)
    ensures Keep(items + [it]) == Keep(items) + Keep([it])
    decreases |items|
  {
    if items == [] {
      assert items + [it] == [it];
    } else {
      assert (items + [it])[1..] == items[1..] + [it];
      KeepSnoc(items[1..], it);
    }
  }

  /** Whether AppendTar can process the item to its end. */
  predicate Accepts(it: TarItem) {
    && it.Item?
    && (it.h.name == TOC_TAR_NAME ||
        (it.h.encoded.Some? && KindOf(it.h.flag).Some? && (HasPayload(it.h) ==> |it.data| == it.h.size)))
  }

  lemma {:induction false} KeepAppend(a: seq<TarItem>, b: seq<TarItem>)
    ensures Keep(a + b) == Keep(a) + Keep(b)
    decreases |b|
  {
    if b == [] {
      assert a + b == a;
    } else {
      var n := |b| - 1;
      assert a + b == (a + b[..n]) + [b[n]] && b == b[..n] + [b[n]];
      KeepAppend(a, b[..n]);
      KeepSnoc(a + b[..n], b[n]);
      KeepSnoc(b[..n], b[n]);
    }
  }

  /** What is kept of a tar: everything in order, but for the tables that earlier conversions left. */
  lemma KeepIs(a: seq<TarItem>, it: TarItem, b: seq<TarItem>)
    ensures Keep(a + [it] + b) ==
      if it.Item? && it.h.name == "stargz.index.json" then Keep(a) + Keep(b) else Keep(a) + [it] + Keep(b)
  {
    KeepAppend(a + [it], b);
    KeepAppend(a, [it]);
    assert [it][1..] == [];
  }

  /** What can be processed: any kind of entry but an unknown one, if its header can be encoded and a regular
      file has all of its data; and a table left by an earlier conversion, whatever it is. */
  lemma AcceptsAny(it: TarItem)
    requires FromTarReader(it)
    ensures Accepts(it) <==>
      it.Item? && (it.h.name == "stargz.index.json"
                   || (it.h.encoded.Some? && it.h.flag != TypeOther
                       && (it.h.flag == TypeReg ==> |it.data| == it.h.size)))
  {
  }

  /** archive/tar hands over at most the announced number of data bytes. */
  predicate FromTarReader(it: TarItem) {
    it.Item? ==> |it.data| <= it.h.size
  }

  class Writer {
    const f: Format
    const chunkSize: nat

    var out: Bytes            // bytes behind the counting writer; its count is their number
    var gz: Option<Bytes>     // uncompressed bytes of the open member, if one is open
    var toc: seq<TocEntry>
    var diff: Bytes           // bytes fed to the hash behind DiffID
    var closed: bool

    ghost var members: seq<Bytes>           // payloads of the closed members
    ghost var log: seq<TarItem>             // tar entries processed to their end
    ghost var groups: seq<seq<TocEntry>>    // the TOC entries of each of them
    ghost var parts: seq<Bytes>             // the tar bytes of each of them

    /** What is hashed is what the layer decompresses to, including the member still open. */
    ghost predicate Fed()
      reads this
    {
      && chunkSize > 0
      && out == Flatten(Deflated(f.z, members))
      && diff == Flatten(members) + (if gz.Some? then gz.value else [])
    }

    /** Entries have been recorded as they should be, and what is hashed is the tar of them. */
    ghost predicate Valid()
      reads this
    {
      && Fed() && !closed
      && toc == Flatten(groups)
      && TableOk(f, chunkSize, out, log, groups)
      && Ordered(toc, |out|)
      && (gz.None? ==> out == [] && toc == [])
      && IsTar(log, parts) && diff == Flatten(parts)
    }

    constructor (f: Format, chunkSize: int)
      ensures Valid() && log == [] && this.f == f
      ensures this.chunkSize == if chunkSize <= 0 then 4 * 1024 * 1024 else chunkSize
    {
      this.f := f;
      this.chunkSize := if chunkSize <= 0 then DEFAULT_CHUNK_SIZE else chunkSize;
      out, gz, toc, diff, closed := [], None, [], [], false;
      members, log, groups, parts := [], [], [], [];
    }

    method CloseGz() returns (ok: bool)
      requires Fed() && Lawful(f.z)
      modifies `out, `gz, `members
      ensures Fed() && ok == !closed
      ensures !ok ==> out == old(out) && gz == old(gz) && members == old(members)
      ensures ok ==> gz == None
      ensures ok ==> out == old(out) + if old(gz).Some? then f.z.deflate(old(gz).value) else []
    {
      if closed {
        return false;
      }
      if gz.Some? {
        FlattenSnoc(members, gz.value);
        FlattenSnoc(Deflated(f.z, members), f.z.deflate(gz.value));
        assert Deflated(f.z, members + [gz.value]) == Deflated(f.z, members) + [f.z.deflate(gz.value)];
        out := out + f.z.deflate(gz.value);
        members := members + [gz.value];
        gz := None;
      }
      return true;
    }

    method CondOpenGz()
      requires Fed()
      modifies `gz
      ensures Fed() && gz == Some(if old(gz).Some? then old(gz).value else [])
    {
      if gz.None? {
        gz := Some([]);
      }
    }

    /** Every uncompressed byte goes to the hash and to the open member. */
    method WriteGz(p: Bytes)
      requires Fed() && gz.Some?
      modifies `gz, `diff
      ensures Fed() && gz == Some(old(gz).value + p) && diff == old(diff) + p
    {
      diff := diff + p;
      gz := Some(gz.value + p);
    }

    /** `g` is what the chunk loop has added to the TOC; its last entry belongs to the open member. */
    ghost predicate Streaming(h: TarHeader, data: Bytes, before: seq<TocEntry>, g: seq<TocEntry>, written: nat)
      reads this
    {
      && Fed() && !closed && gz.Some?
      && toc == before + g && Ordered(toc, |out|)
      && (g == [] ==> written == 0)
      && (g != [] ==>
            && written <= |data|
            && g[|g| - 1].offset == |out| && |out| > 0
            && PartialGroup(f, chunkSize, out + f.z.deflate(gz.value), h, data, Settle(g, |f.z.deflate(gz.value)|),
                   written))
    }

    /** The last entry's compressed size becomes known when its member is closed. */
    static function Settle(g: seq<TocEntry>, compressed: nat): seq<TocEntry>
      requires g != []
    {
      g[|g| - 1 := g[|g| - 1].(compressedSize := compressed)]
    }

    /** Closing the member of the last chunk and noting how long it became. */
    method FinishChunk(h: TarHeader, ghost data: Bytes, ghost before: seq<TocEntry>, ghost g: seq<TocEntry>,
                       ghost written: nat, hasPrev: bool)
      returns (ghost g': seq<TocEntry>)
      requires Lawful(f.z) && Streaming(h, data, before, g, written) && |data| == h.size && hasPrev == (g != [])
      modifies `out, `gz, `members, `toc
      ensures Fed() && gz == None && |out| > 0
      ensures old(out) <= out
      ensures toc == before + g' && Ordered(toc, |out|)
      ensures |g'| == |g|
      ensures PartialGroup(f, chunkSize, out, h, data, g', written)
      ensures g' != [] ==> EndOf(Restored(g'[|g'| - 1], |data|)) == |out|
      ensures g' != [] ==> g'[0].digest == g[0].digest
    {
      hide PartialGroup, Ordered, Deflated, Flatten;
      ghost var start := |out|;
      var _ := CloseGz();
      g' := g;
      OrderedGrows(toc, start, |out|);
      if hasPrev {
        var last := toc[|toc| - 1];
        OrderedSettle(toc, start, |out|);
        g' := Settle(g, |out| - last.offset);
        toc := toc[|toc| - 1 := last.(compressedSize := |out| - last.offset)];
        assert toc == before + g';
      } else {
        EmptyPartialGroup(f, chunkSize, out, h, data);
      }
    }

    /** io.CopyN: `size` bytes of the data, or what is left of it. */
    method CopyN(data: Bytes, written: nat, size: nat) returns (piece: Bytes)
      requires Fed() && gz.Some? && written <= |data|
      modifies `gz, `diff
      ensures Fed() && piece == data[written..Min(written + size, |data|)]
      ensures gz == Some(old(gz).value + piece) && diff == old(diff) + piece
    {
      hide Flatten, Deflated;
      piece := data[written..Min(written + size, |data|)];
      WriteGz(piece);
    }

    /** One turn of the chunk loop: close the member before, open one for this chunk, copy, record.
        `whole` is the file as announced; when the tar ends inside it the copy comes up short, and
        what was copied is in the stream but its entry is not recorded. */
    method AppendChunk(h: TarHeader, data: Bytes, ghost whole: Bytes, ghost before: seq<TocEntry>,
                       ghost g: seq<TocEntry>,
                       written: nat, hasPrev: bool, entry: TocEntry)
      returns (ok: bool, next: nat, ghost g2: seq<TocEntry>)
      requires Lawful(f.z) && Streaming(h, whole, before, g, written) && hasPrev == (g != [])
      requires KindOf(h.flag) == Some(Reg) && data <= whole && |whole| == h.size && written < h.size
        && written <= |data|
      requires entry == if hasPrev then ChunkEntry(h.name) else EntryOf(h)
      modifies `out, `gz, `members, `toc, `diff
      ensures Fed() && old(out) <= out
      ensures next == Min(written + chunkSize, h.size)
      ensures ok == (next <= |data|)
      ensures ok ==> diff == old(diff) + data[written..next]
      ensures ok ==> Streaming(h, whole, before, g2, next) && g2 != []
    {
      hide PartialGroup, TableOk, Ordered, Flatten, Deflated, RestoredAll, RecordOk;
      ghost var g' := FinishChunk(h, whole, before, g, written, hasPrev);
      var ent := entry;
      var remain := h.size - written;
      var size := chunkSize;
      if remain < size {
        size := remain;
      } else {
        ent := ent.(chunkSize := size);
      }
      ent := ent.(offset := |out|, chunkOffset := written);
      next := written + size;
      CondOpenGz();
      var piece := CopyN(data, written, size);
      g2 := g';
      if |piece| < size {
        return false, next, g2;
      }
      ent := ent.(chunkDigest := f.sha(piece));
      toc := toc + [ent];
      g2 := g' + [ent];
      assert piece == whole[written..next] && gz.value == piece;
      ChunkIsRecorded(f, chunkSize, h, whole, written, entry, ent, g == []);
      StreamOneChunk(f, chunkSize, out, h, whole, before, g', written, ent, piece);
      assert toc == before + g2;
      ok := true;
    }

    static lemma ChunkIsRecorded(f: Format, cs: nat, h: TarHeader, whole: Bytes, written: nat, entry: TocEntry,
                                 ent: TocEntry, first: bool)
      requires cs > 0 && KindOf(h.flag) == Some(Reg) && |whole| == h.size && written < h.size
      requires entry == if first then EntryOf(h) else ChunkEntry(h.name)
      requires ent == (if h.size - written < cs then entry else entry.(chunkSize := cs))
                        .(offset := ent.offset, chunkOffset := written,
                          chunkDigest := f.sha(whole[written..Min(written + cs, |whole|)]))
      requires ent.offset > 0
      ensures RecordOk(f, cs, h, whole, ent, first) && ent.compressedSize == 0
    {
    }

    static lemma StreamOneChunk(f: Format, cs: nat, blob: Bytes, h: TarHeader, whole: Bytes, before: seq<TocEntry>,
                                g: seq<TocEntry>, written: nat, ent: TocEntry, piece: Bytes)
      requires cs > 0 && 0 < |blob| && written < |whole|
      requires PartialGroup(f, cs, blob, h, whole, g, written)
      requires g != [] ==> EndOf(Restored(g[|g| - 1], |whole|)) == |blob|
      requires ent.offset == |blob| && ent.chunkOffset == written && ent.compressedSize == 0
      requires RecordOk(f, cs, h, whole, ent, g == [])
      requires piece == whole[written..Min(written + cs, |whole|)]
      requires Ordered(before + g, |blob|)
      ensures PartialGroup(f, cs, blob + f.z.deflate(piece), h, whole, Settle(g + [ent], |f.z.deflate(piece)|),
            Min(written + cs, |whole|))
      ensures Ordered(before + (g + [ent]), |blob|)
    {
      hide PartialGroup, Ordered;
      var m := f.z.deflate(piece);
      OrderedSnoc(before + g, ent, |blob|);
      PartialGroupSnoc(f, cs, blob, h, whole, g, written, ent.(compressedSize := |m|));
      assert Settle(g + [ent], |m|) == g + [ent.(compressedSize := |m|)];
      assert before + (g + [ent]) == (before + g) + [ent];
    }

    /** The chunk loop over one regular file. */
    method AppendChunks(h: TarHeader, data: Bytes) returns (ok: bool, ghost g: seq<TocEntry>)
      requires Fed() && !closed && gz.Some? && Lawful(f.z) && Ordered(toc, |out|)
      requires KindOf(h.flag) == Some(Reg) && 0 < h.size && |data| <= h.size
      modifies `out, `gz, `members, `toc, `diff
      ensures Fed() && old(out) <= out
      ensures ok == (|data| == h.size)
      ensures ok ==> gz == Some([]) && toc == old(toc) + g && Ordered(toc, |out|)
      ensures ok ==> PartialGroup(f, chunkSize, out, h, data, g, |data|) && g != []
      ensures ok ==> diff == old(diff) + data
    {
      hide PartialGroup, Ordered, Deflated, Flatten;
      var written := 0;
      var ent := EntryOf(h);
      var hasPrev := false;
      g := [];
      ghost var before := toc;
      ghost var whole: Bytes := data + seq(h.size - |data|, _ => 0);
      ok := true;
      while written < h.size
        invariant 0 <= written <= h.size && written <= |data|
        invariant hasPrev == (g != []) && (written == 0 <==> g == [])
        invariant Streaming(h, whole, before, g, written)
        invariant old(out) <= out && ok && diff == old(diff) + data[..written]
        invariant ent == if hasPrev then ChunkEntry(h.name) else EntryOf(h)
      {
        ghost var done := written;
        ok, written, g := AppendChunk(h, data, whole, before, g, written, hasPrev, ent);
        if !ok {
          return;
        }
        assert data[..done] + data[done..written] == data[..written];
        hasPrev := true;
        ent := ChunkEntry(h.name);
      }
      assert whole == data;
      g := FinishChunk(h, data, before, g, written, hasPrev);
      CondOpenGz();
    }

    /** The last steps for an entry: fill in the file digest and pad to the block boundary. */
    method RecordItem(it: TarItem, first: nat, ghost before: Bytes, ghost g: seq<TocEntry>)
      requires Fed() && !closed && gz.Some? && Ordered(toc, |out|)
      requires before <= out && TableOk(f, chunkSize, before, log, groups)
      requires first == |Flatten(groups)| && toc == Flatten(groups) + g
      requires Recorded(f, chunkSize, out, it, g) && |it.data| <= it.h.size
      requires IsTar(log, parts) && it.h.encoded.Some?
      requires diff == Flatten(parts) + (it.h.encoded.value + if HasPayload(it.h) then it.data else [])
      modifies this
      ensures Valid() && log == old(log) + [it] && out == old(out)
    {
      hide TableOk, PartialGroup, Ordered, Deflated, Flatten, IsTar, EntryBytes;
      var digest := if it.h.flag == TypeReg then f.sha(it.data) else "";
      ghost var g' := g[0 := g[0].(digest := digest)];
      ghost var table := Flatten(groups);
      OrderedRedigest(toc, first, digest, |out|);
      toc := toc[first := toc[first].(digest := digest)];
      WriteGz(Padding(if it.h.flag == TypeReg then it.h.size else 0));
      ExtendTable(f, chunkSize, before, out, it, g, log, groups);
      FlattenSnoc(groups, g');
      assert toc == table + g';
      ghost var body := it.h.encoded.value + if HasPayload(it.h) then it.data else [];
      ghost var part := body + Padding(if it.h.flag == TypeReg then it.h.size else 0);
      FlattenSnoc(parts, part);
      PaddedEntry(it, part);
      IsTarSnoc(log, parts, it, part);
      log, groups, parts := log + [it], groups + [g'], parts + [part];
    }

    /** The entries of one tar entry, complete but for the file digest. */
    static ghost predicate Recorded(f: Format, cs: nat, blob: Bytes, it: TarItem, g: seq<TocEntry>) {
      && it.Item? && KindOf(it.h.flag).Some? && it.h.name != TOC_TAR_NAME && g != []
      && (if HasPayload(it.h) then |it.data| == it.h.size && PartialGroup(f, cs, blob, it.h, it.data, g, |it.data|)
          else g == [EntryOf(it.h)])
    }

    static lemma ExtendTable(f: Format, cs: nat, before: Bytes, blob: Bytes, it: TarItem, g: seq<TocEntry>,
                             logged: seq<TarItem>, table: seq<seq<TocEntry>>)
      requires before <= blob && TableOk(f, cs, before, logged, table)
      requires Recorded(f, cs, blob, it, g) && |it.data| <= it.h.size
      ensures TableOk(f, cs, blob, logged + [it],
            table + [g[0 := g[0].(digest := if it.h.flag == TypeReg then f.sha(it.data) else "")]])
    {
      hide PartialGroup;
      assert blob == before + blob[|before|..];
      TableExtends(f, cs, before, blob[|before|..], logged, table);
      var g' := g[0 := g[0].(digest := if it.h.flag == TypeReg then f.sha(it.data) else "")];
      if HasPayload(it.h) {
        PartialGroupRedigest(f, cs, blob, it.h, it.data, g, |it.data|, g'[0].digest);
      }
      assert GroupOk(f, cs, blob, it, g');
    }

    /** One tar entry: header, data, table entries, padding. A table of contents left by an earlier
        conversion is skipped. */
    method AppendItem(it: TarItem) returns (ok: bool)
      requires Valid() && Lawful(f.z) && FromTarReader(it)
      modifies this
      ensures ok == Accepts(it)
      ensures Fed() && !closed
      ensures ok ==> Valid() && log == old(log) + Keep([it])
    {
      hide TableOk, Ordered, Flatten, Deflated, PartialGroup;
      if it.Unreadable? {
        return false;
      }
      var h := it.h;
      if h.name == TOC_TAR_NAME {
        return true;
      }
      CondOpenGz();
      if h.encoded.None? {
        return false;
      }
      WriteGz(h.encoded.value);
      if KindOf(h.flag).None? {
        return false;
      }
      var first := |toc|;
      ghost var g := [EntryOf(h)];
      ghost var before := out;
      if HasPayload(h) {
        ok, g := AppendChunks(h, it.data);
        if !ok {
          return;
        }
      } else {
        OrderedSnoc(toc, EntryOf(h), |out|);
        toc := toc + [EntryOf(h)];
      }
      RecordItem(it, first, before, g);
      return true;
    }

    /** Appends a whole tar. It stops at the first item it cannot process; the stream invariant
        survives even then, and otherwise every kept entry has been recorded. */
    method AppendTar(items: seq<TarItem>) returns (ok: bool)
      requires Valid() && Lawful(f.z)
      requires forall i :: 0 <= i < |items| ==> FromTarReader(items[i])
      modifies this
      ensures Fed() && !closed
      ensures ok == forall i :: 0 <= i < |items| ==> Accepts(items[i])
      ensures ok ==> Valid() && log == old(log) + Keep(items)
    {
      hide TableOk, Ordered, Flatten, Deflated;
      var i := 0;
      ok := true;
      while i < |items|
        invariant 0 <= i <= |items| && Valid() && ok
        invariant forall j :: 0 <= j < i ==> Accepts(items[j])
        invariant log == old(log) + Keep(items[..i])
      {
        assert items[..i + 1] == items[..i] + [items[i]];
        KeepSnoc(items[..i], items[i]);
        ok := AppendItem(items[i]);
        if !ok {
          return;
        }
        i := i + 1;
      }
      assert items[..i] == items;
    }

    /** The table of contents is one member of its own. */
    method WriteTable()
      requires Fed() && gz.None? && !closed && Lawful(f.z)
      modifies `out, `gz, `members, `diff
      ensures Fed() && gz.None?
      ensures out == old(out) + f.z.deflate(f.TocTar(toc)) && diff == old(diff) + f.TocTar(toc)
    {
      hide Flatten, Deflated, Lawful;
      gz := Some([]);
      WriteGz(f.TocTar(toc));
      assert [] + f.TocTar(toc) == f.TocTar(toc);
      var _ := CloseGz();
    }

    /** Writes the table of contents and the footer. The bytes hashed for DiffID are exactly what the
        whole layer decompresses to, even after an append that failed; if none failed, they are the tar of
        the entries and the table, and the result is a layer in the sense of `Written`. */
    method Close() returns (tocDigest: string)
      requires !closed ==> Fed() && LawfulFormat(f)
      modifies this
      ensures closed && log == old(log) && groups == old(groups) && parts == old(parts) && toc == old(toc)
      ensures old(closed) ==> tocDigest == "" && out == old(out) && diff == old(diff)
      ensures !old(closed) ==> Gunzip(f.z, out) == Some(diff) && tocDigest == f.sha(f.tocJson(toc))
      ensures !old(closed) ==> diff == old(diff) + f.TocTar(toc)
      ensures old(Valid()) ==> IsTar(log, parts) && Gunzip(f.z, out) == Some(Flatten(parts) + f.TocTar(Flatten(groups)))
      ensures old(Valid()) ==>
        Written(f, chunkSize, log, groups, out, |old(out)| + if old(gz).Some? then |f.z.deflate(old(gz).value)| else 0)
    {
      hide TableOk, Ordered, Flatten, Deflated, Gunzip, Footer.FooterBytes, IsTar;
      if closed {
        return "";
      }
      var _ := CloseGz();
      var tocOff := |out|;
      ghost var body := out;
      WriteTable();
      DecodesToHashed(f, members, out, diff, tocOff);
      if old(Valid()) {
        ClosedLayer(f, chunkSize, log, groups, old(out), body);
      }
      assert body + (f.z.deflate(f.TocTar(toc)) + Footer.FooterBytes(tocOff)) == out + Footer.FooterBytes(tocOff);
      out := out + Footer.FooterBytes(tocOff);
      closed := true;
      tocDigest := f.sha(f.tocJson(toc));
    }
  }

  lemma ClosedLayer(f: Format, cs: nat, log: seq<TarItem>, groups: seq<seq<TocEntry>>, before: Bytes, body: Bytes)
    requires cs > 0 && before <= body && TableOk(f, cs, before, log, groups) && Ordered(Flatten(groups), |before|)
    ensures var tail := f.z.deflate(f.TocTar(Flatten(groups))) + Footer.FooterBytes(|body|);
            Written(f, cs, log, groups, body + tail, |body|)
  {
    hide TableOk, Flatten, Footer.FooterBytes;
    var tail := f.z.deflate(f.TocTar(Flatten(groups))) + Footer.FooterBytes(|body|);
    assert (body + tail)[|body|..] == tail;
    assert body + tail == before + (body[|before|..] + tail);
    TableExtends(f, cs, before, body[|before|..] + tail, log, groups);
  }

  lemma DecodesToHashed(f: Format, members: seq<Bytes>, out: Bytes, diff: Bytes, tocOff: nat)
    requires LawfulFormat(f) && out == Flatten(Deflated(f.z, members)) && diff == Flatten(members)
    ensures Gunzip(f.z, out + Footer.FooterBytes(tocOff)) == Some(diff)
  {
    var ms := Deflated(f.z, members) + [Footer.FooterBytes(tocOff)];
    var ps := members + [[]];
    FlattenSnoc(Deflated(f.z, members), Footer.FooterBytes(tocOff));
    FlattenSnoc(members, []);
    forall i | 0 <= i < |ms| ensures IsMember(f.z, ms[i], ps[i]) {
      if i < |members| {
        DeflateIsMember(f.z, members[i]);
      }
    }
    GunzipMembers(f.z, ms, ps);
    assert Flatten(members) + [] == Flatten(members);
  }
}
