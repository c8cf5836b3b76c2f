/** What a written layer is: for each tar entry a group of TOC entries, and for each regular file a
    group whose members hold exactly its bytes. */
module Layer {
  import opened Basics
  import opened Toc
  import Footer

  datatype Typeflag = TypeLink | TypeSymlink | TypeDir | TypeReg | TypeChar | TypeBlock | TypeFifo | TypeOther

  /** `encoded` is what archive/tar writes for the header, or None when it rejects it. */
  datatype TarHeader = TarHeader(name: string, flag: Typeflag, linkName: string, size: nat, encoded: Option<Bytes>)

  /** One step of reading a tar: a header and the data bytes available behind it, or a read error. */
  datatype TarItem = Item(h: TarHeader, data: Bytes) | Unreadable

  const TOC_TAR_NAME := "stargz.index.json"

  function KindOf(flag: Typeflag): Option<Kind> {
    match flag
    case TypeLink => Some(Hardlink)
    case TypeSymlink => Some(Symlink)
    case TypeDir => Some(Dir)
    case TypeReg => Some(Reg)
    case TypeChar => Some(CharDevice)
    case TypeBlock => Some(BlockDevice)
    case TypeFifo => Some(Fifo)
    case TypeOther => None
  }

  predicate HasPayload(h: TarHeader) {
    h.flag == TypeReg && h.size > 0
  }

  /** What stands in a tar for an entry: its header, the data of a payload file, and as few zeros as bring the
      data to a multiple of 512 bytes. */
  predicate EntryBytes(it: TarItem, b: Bytes) {
    && it.Item? && it.h.encoded.Some?
    && var header, data := it.h.encoded.value, if HasPayload(it.h) then it.data else [];
       && header + data <= b && |b| < |header + data| + 512 && (|b| - |header|) % 512 == 0
       && forall i :: |header + data| <= i < |b| ==> b[i] == 0
  }

  /** The concatenation of `parts` is a tar of the entries. */
  predicate IsTar(log: seq<TarItem>, parts: seq<Bytes>) {
    |parts| == |log| && forall k :: 0 <= k < |log| ==> EntryBytes(log[k], parts[k])
  }

  /** The entry made from a header before any data is written. */
  function EntryOf(h: TarHeader): TocEntry
    requires KindOf(h.flag).Some?
  {
    TocEntry(h.name, KindOf(h.flag).value, if h.flag == TypeReg then h.size else 0,
             if h.flag == TypeLink || h.flag == TypeSymlink then h.linkName else "",
             0, 0, 0, 0, "", "")
  }

  function ChunkEntry(name: string): TocEntry {
    TocEntry(name, Chunk, 0, "", 0, 0, 0, 0, "", "")
  }

  /** A chunk size of zero stands for "to the end of the file". */
  function Restored(e: TocEntry, size: nat): FileChunk {
    FileChunk(e.offset, e.chunkOffset, if e.chunkSize == 0 then size - e.chunkOffset else e.chunkSize, e.compressedSize)
  }

  function RestoredAll(g: seq<TocEntry>, size: nat): (r: seq<FileChunk>)
    ensures |r| == |g| && forall i :: 0 <= i < |g| ==> r[i] == Restored(g[i], size)
  {
    seq(|g|, i requires 0 <= i < |g| => Restored(g[i], size))
  }

  /** What the writer records in one data entry, apart from the file digest it fills in last. */
  ghost predicate RecordOk(f: Format, cs: nat, h: TarHeader, data: Bytes, e: TocEntry, first: bool) {
    && e.offset > 0 && e.chunkOffset < |data|
    && e.chunkSize == (if |data| - e.chunkOffset < cs then 0 else cs)
    && e.chunkDigest == f.sha(data[e.chunkOffset..Min(e.chunkOffset + cs, |data|)])
    && e.name == h.name && e.linkName == ""
    && (if first then e.kind == Reg && e.size == |data| else e.kind == Chunk && e.size == 0 && e.digest == "")
  }

  ghost predicate RecordsOk(f: Format, cs: nat, h: TarHeader, data: Bytes, g: seq<TocEntry>) {
    forall i :: 0 <= i < |g| ==> RecordOk(f, cs, h, data, g[i], i == 0)
  }

  /** The entries of `g` record the first `to` bytes of `data`. */
  ghost predicate PartialGroup(f: Format, cs: nat, blob: Bytes, h: TarHeader, data: Bytes, g: seq<TocEntry>, to: nat) {
    && RecordsOk(f, cs, h, data, g)
    && Tiles(f.z, blob, data, RestoredAll(g, |data|), to)
  }

  ghost predicate GroupOk(f: Format, cs: nat, blob: Bytes, it: TarItem, g: seq<TocEntry>) {
    && it.Item? && KindOf(it.h.flag).Some? && it.h.name != TOC_TAR_NAME && g != []
    && g[0].digest == (if it.h.flag == TypeReg then f.sha(it.data) else "")
    && (if HasPayload(it.h) then
          && |it.data| == it.h.size
          && PartialGroup(f, cs, blob, it.h, it.data, g, |it.data|)
        else
          && (it.h.flag == TypeReg ==> it.data == [])
          && g == [EntryOf(it.h).(digest := g[0].digest)])
  }

  /** Entries that point into the layer point at disjoint ranges, in order, all before `end`. */
  predicate Ordered(toc: seq<TocEntry>, end: nat) {
    && (forall i :: 0 <= i < |toc| ==> toc[i].offset + toc[i].compressedSize <= end)
    && (forall i, j :: 0 <= i < j < |toc| && toc[i].offset != 0 && toc[j].offset != 0 ==>
          toc[i].offset + toc[i].compressedSize <= toc[j].offset)
  }

  ghost predicate TableOk(f: Format, cs: nat, blob: Bytes, log: seq<TarItem>, groups: seq<seq<TocEntry>>) {
    && |log| == |groups|
    && (forall k :: 0 <= k < |log| ==> GroupOk(f, cs, blob, log[k], groups[k]))
  }

  /** `blob` is a closed layer holding the tar entries `log`. */
  ghost predicate Written(f: Format, cs: nat, log: seq<TarItem>, groups: seq<seq<TocEntry>>, blob: Bytes, tocOff: nat) {
    && cs > 0
    && TableOk(f, cs, blob, log, groups)
    && Ordered(Flatten(groups), tocOff)
    && tocOff <= |blob|
    && blob[tocOff..] == f.z.deflate(f.TocTar(Flatten(groups))) + Footer.FooterBytes(tocOff)
  }

  lemma PartialGroupExtends(f: Format, cs: nat, blob: Bytes, more: Bytes, h: TarHeader, data: Bytes, g: seq<TocEntry>,
                            to: nat)
    requires PartialGroup(f, cs, blob, h, data, g, to)
    ensures PartialGroup(f, cs, blob + more, h, data, g, to)
  {
    var r := RestoredAll(g, |data|);
    forall i | 0 <= i < |r| ensures Holds(f.z, blob + more, data, r[i]) {
      HoldsExtends(f.z, blob, more, data, r[i]);
    }
  }

  lemma TableExtends(f: Format, cs: nat, blob: Bytes, more: Bytes, log: seq<TarItem>, groups: seq<seq<TocEntry>>)
    requires TableOk(f, cs, blob, log, groups)
    ensures TableOk(f, cs, blob + more, log, groups)
  {
    forall k | 0 <= k < |log| ensures GroupOk(f, cs, blob + more, log[k], groups[k]) {
      assert GroupOk(f, cs, blob, log[k], groups[k]);
      if HasPayload(log[k].h) {
        PartialGroupExtends(f, cs, blob, more, log[k].h, log[k].data, groups[k], |log[k].data|);
      }
    }
  }

  /** One more member appended to the layer records one more chunk of the file. */
  lemma PartialGroupSnoc(f: Format, cs: nat, blob: Bytes, h: TarHeader, data: Bytes, g: seq<TocEntry>, to: nat,
                         e: TocEntry)
    requires cs > 0 && 0 < |blob| && to < |data|
    requires PartialGroup(f, cs, blob, h, data, g, to)
    requires g != [] ==> EndOf(Restored(g[|g| - 1], |data|)) == |blob|
    requires RecordOk(f, cs, h, data, e, g == []) && e.offset == |blob| && e.chunkOffset == to
    requires e.compressedSize == |f.z.deflate(data[to..Min(to + cs, |data|)])|
    ensures PartialGroup(f, cs, blob + f.z.deflate(data[to..Min(to + cs, |data|)]), h, data, g + [e],
          Min(to + cs, |data|))
  {
    var m := f.z.deflate(data[to..Min(to + cs, |data|)]);
    PartialGroupExtends(f, cs, blob, m, h, data, g, to);
    assert RestoredAll(g + [e], |data|) == RestoredAll(g, |data|) + [Restored(e, |data|)];
    assert (blob + m)[e.offset..e.offset + e.compressedSize] == m;
    TilesSnoc(f.z, blob + m, data, RestoredAll(g, |data|), to, Restored(e, |data|));
  }

  lemma OrderedSnoc(toc: seq<TocEntry>, e: TocEntry, end: nat)
    requires Ordered(toc, end) && e.compressedSize == 0 && (e.offset == 0 || e.offset == end)
    ensures Ordered(toc + [e], end)
  {
  }

  lemma OrderedGrows(toc: seq<TocEntry>, end: nat, end': nat)
    requires Ordered(toc, end) && end <= end'
    ensures Ordered(toc, end')
  {
  }

  lemma OrderedSettle(toc: seq<TocEntry>, end: nat, end': nat)
    requires Ordered(toc, end) && end <= end' && toc != [] && toc[|toc| - 1].offset == end
    ensures Ordered(toc[|toc| - 1 := toc[|toc| - 1].(compressedSize := end' - end)], end')
  {
  }

  lemma OrderedRedigest(toc: seq<TocEntry>, i: nat, digest: string, end: nat)
    requires Ordered(toc, end) && i < |toc|
    ensures Ordered(toc[i := toc[i].(digest := digest)], end)
  {
  }

  lemma EmptyPartialGroup(f: Format, cs: nat, blob: Bytes, h: TarHeader, data: Bytes)
    ensures PartialGroup(f, cs, blob, h, data, [], 0)
  {
  }

  /** The file digest does not affect what is recorded about the chunks. */
  lemma PartialGroupRedigest(f: Format, cs: nat, blob: Bytes, h: TarHeader, data: Bytes, g: seq<TocEntry>, to: nat,
                             digest: string)
    requires PartialGroup(f, cs, blob, h, data, g, to) && g != []
    ensures PartialGroup(f, cs, blob, h, data, g[0 := g[0].(digest := digest)], to)
  {
    hide Tiles;
    var g' := g[0 := g[0].(digest := digest)];
    assert RestoredAll(g', |data|) == RestoredAll(g, |data|);
    forall i | 0 <= i < |g'| ensures RecordOk(f, cs, h, data, g'[i], i == 0) {
      assert RecordOk(f, cs, h, data, g[i], i == 0);
    }
  }
}
