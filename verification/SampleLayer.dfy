/** Layers that are known to exist: for every list of small files with different names, a layer that the
    writer could have written. */
module SampleLayer {
  import opened Basics
  import opened Gzip
  import opened Toc
  import opened Layer
  import opened Paths
  import opened TocScan
  import opened EndToEnd
  import Extractor
  import Footer

  const CHUNK := 4

  datatype SmallFile = SmallFile(name: string, data: Bytes)

  /** Files of one chunk each, with cleaned names that differ. */
  ghost predicate Small(files: seq<SmallFile>) {
    && (forall k :: 0 <= k < |files| ==> 0 < |files[k].data| < CHUNK && files[k].name != TOC_TAR_NAME)
    && (forall j, k :: 0 <= j < k < |files| ==> Clean(files[j].name) != Clean(files[k].name))
  }

  function Tarred(file: SmallFile): TarItem {
    Item(TarHeader(file.name, TypeReg, "", |file.data|, Some([])), file.data)
  }

  function EntryFor(f: Format, file: SmallFile, offset: nat): TocEntry {
    TocEntry(file.name, Reg, |file.data|, "", offset, 0, 0, |f.z.deflate(file.data)|, f.sha(file.data),
          f.sha(file.data))
  }

  function Log(files: seq<SmallFile>): seq<TarItem> {
    seq(|files|, k requires 0 <= k < |files| => Tarred(files[k]))
  }

  /** The members of the files, which follow one empty member. */
  function Members(f: Format, files: seq<SmallFile>): (r: seq<Bytes>)
    ensures |r| == |files|
  {
    seq(|files|, k requires 0 <= k < |files| => f.z.deflate(files[k].data))
  }

  function MemberStart(f: Format, files: seq<SmallFile>, k: nat): nat
    requires k <= |files|
  {
    |f.z.deflate([])| + StartOf(Members(f, files), k)
  }

  function Groups(f: Format, files: seq<SmallFile>): seq<seq<TocEntry>> {
    seq(|files|, k requires 0 <= k < |files| => [EntryFor(f, files[k], MemberStart(f, files, k))])
  }

  function LayerWith(f: Format, files: seq<SmallFile>): Converted {
    var body := f.z.deflate([]) + Flatten(Members(f, files));
    Converted(Log(files), Groups(f, files),
              body + (f.z.deflate(f.TocTar(Flatten(Groups(f, files)))) + Footer.FooterBytes(|body|)), |body|)
  }

  lemma OneFile(f: Format, blob: Bytes, file: SmallFile, offset: nat)
    requires 0 < |file.data| < CHUNK && file.name != TOC_TAR_NAME
    requires offset > 0 && offset + |f.z.deflate(file.data)| <= |blob|
    requires blob[offset..offset + |f.z.deflate(file.data)|] == f.z.deflate(file.data)
    ensures GroupOk(f, CHUNK, blob, Tarred(file), [EntryFor(f, file, offset)])
  {
    var data := file.data;
    var e := EntryFor(f, file, offset);
    assert data[0..Min(0 + CHUNK, |data|)] == data && data[0..0 + |data|] == data;
    assert RestoredAll([e], |data|) == [FileChunk(offset, 0, |data|, |f.z.deflate(data)|)];
    assert Holds(f.z, blob, data, FileChunk(offset, 0, |data|, |f.z.deflate(data)|));
  }

  lemma {:induction false} FlattenSingles<T>(g: seq<seq<T>>)
    requires forall k :: 0 <= k < |g| ==> |g[k]| == 1
    ensures |Flatten(g)| == |g| && forall k :: 0 <= k < |g| ==> Flatten(g)[k] == g[k][0]
    decreases |g|
  {
    if g != [] {
      FlattenSingles(g[1..]);
    }
  }

  /** Where the member of file `k` is. */
  lemma MemberAt(f: Format, files: seq<SmallFile>, k: nat, tail: Bytes)
    requires k < |files|
    ensures var blob := f.z.deflate([]) + Flatten(Members(f, files)) + tail;
            var at := MemberStart(f, files, k);
            && MemberStart(f, files, k + 1) == at + |f.z.deflate(files[k].data)| <= |blob|
            && blob[at..at + |f.z.deflate(files[k].data)|] == f.z.deflate(files[k].data)
  {
    var ms := Members(f, files);
    FlattenAt(ms, k);
    var head, body := f.z.deflate([]), Flatten(ms);
    assert (head + body + tail)[|head| + StartOf(ms, k)..|head| + StartOf(ms, k + 1)]
       == body[StartOf(ms, k)..StartOf(ms, k + 1)];
  }

  lemma TableInOrder(f: Format, files: seq<SmallFile>)
    ensures Ordered(Flatten(Groups(f, files)), LayerWith(f, files).tocOff)
  {
    var toc := Flatten(Groups(f, files));
    FlattenSingles(Groups(f, files));
    forall i | 0 <= i < |toc|
      ensures toc[i].offset + toc[i].compressedSize == MemberStart(f, files, i + 1) <= LayerWith(f, files).tocOff
    {
      FlattenAt(Members(f, files), i);
    }
    forall i, j | 0 <= i < j < |toc| ensures toc[i].offset + toc[i].compressedSize <= toc[j].offset {
      StartOfMonotone(Members(f, files), i + 1, j);
    }
  }

  /** It is a converted layer. */
  lemma SampleIsConverted(f: Format, files: seq<SmallFile>)
    requires LawfulFormat(f) && Small(files)
    ensures IsConverted(f, CHUNK, LayerWith(f, files))
  {
    var l := LayerWith(f, files);
    var body := f.z.deflate([]) + Flatten(Members(f, files));
    var tail := f.z.deflate(f.TocTar(Flatten(Groups(f, files)))) + Footer.FooterBytes(|body|);
    assert l.blob == body + tail && l.blob[|body|..] == tail && 0 < |f.z.deflate([])|;
    TableInOrder(f, files);
    hide Clean, GroupOk, Footer.FooterBytes, Flatten, Lawful, LawfulFormat, Ordered;
    forall k | 0 <= k < |files| ensures GroupOk(f, CHUNK, l.blob, l.log[k], l.groups[k]) {
      MemberAt(f, files, k, tail);
      OneFile(f, l.blob, files[k], MemberStart(f, files, k));
    }
  }

  /** The row saved for file `k` has its digest and size. */
  lemma SampleRow(f: Format, files: seq<SmallFile>, k: nat)
    requires LawfulFormat(f) && Small(files) && k < |files|
    ensures Clean(files[k].name) in ScanOf(LayerWith(f, files)).m
    ensures forall fsId: int, stack: nat, rank: real ::
      RowOf(LayerWith(f, files), Clean(files[k].name), fsId, stack, rank).digest == f.sha(files[k].data)
      && RowOf(LayerWith(f, files), Clean(files[k].name), fsId, stack, rank).size == |files[k].data|
  {
    SampleIsConverted(f, files);
    var l := LayerWith(f, files);
    hide Clean, Written, ScanFrom, Flatten, Extractor.SavedRow, Extractor.EntryMap, Extractor.ChunkMap, Tiles,
         DistinctNames;
    Extractor.WrittenRow(f, CHUNK, l.log, l.groups, l.blob, l.tocOff, k);
  }
}
