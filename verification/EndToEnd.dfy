/** From the tar that was converted to the file the client writes. */
module EndToEnd {
  import opened Basics
  import opened Gzip
  import opened Toc
  import opened Layer
  import opened Paths
  import opened TocScan
  import opened FileView
  import opened Delta
  import opened Builder
  import opened Extraction
  import opened Stream
  import Extractor

  /** A layer that the converter wrote: its tar entries, its table, its bytes. */
  datatype Converted = Converted(log: seq<TarItem>, groups: seq<seq<TocEntry>>, blob: Bytes, tocOff: nat)

  ghost predicate IsConverted(f: Format, chunkSize: nat, l: Converted) {
    Written(f, chunkSize, l.log, l.groups, l.blob, l.tocOff) && DistinctNames(l.log)
  }

  function ScanOf(l: Converted): (s: Scan)
    ensures WellFormed(s)
  {
    ScanFrom(START, Flatten(l.groups))
  }

  /** What the database returns for a saved entry. */
  function Returned(row: Extractor.Row, name: Path, fsId: int, stack: nat, rank: real): RankedFile {
    RankedFile(name, row.entry.digest, row.entry.size, fsId, stack, rank, row.chunks, AsChunk(row.entry), 0, 0, 0)
  }

  /** The row the database returns for one saved entry of a layer. */
  function RowOf(l: Converted, name: Path, fsId: int, stack: nat, rank: real): RankedFile
    requires name in ScanOf(l).m
  {
    Returned(Extractor.SavedRow(ScanOf(l), name), name, fsId, stack, rank)
  }

  /** Tar entry `k` of the layer is the regular file called `name`. */
  predicate IsFile(l: Converted, name: Path, k: nat) {
    k < |l.log| && l.log[k].Item? && HasPayload(l.log[k].h) && Clean(l.log[k].h.name) == name
  }

  predicate HasFile(l: Converted, name: Path) {
    exists k: nat :: k < |l.log| && IsFile(l, name, k)
  }

  /** The bytes the tar holds for a name that denotes a non-empty regular file. */
  ghost function TarData(l: Converted, name: Path): Bytes
    requires HasFile(l, name)
  {
    var k: nat :| k < |l.log| && IsFile(l, name, k);
    l.log[k].data
  }

  ghost predicate RowHolds(f: Format, l: Converted, row: RankedFile, data: Bytes) {
    && Tiles(f.z, l.blob, data, FileChunks(row), |data|) && row.digest == f.sha(data)
  }

  /** A row with content is a regular file of its layer; its chunks tile the file and its digest is the file's. */
  lemma RowOfFile(f: Format, chunkSize: nat, l: Converted, row: RankedFile)
    requires IsConverted(f, chunkSize, l) && row.name in ScanOf(l).m && row.size != 0
    requires row == RowOf(l, row.name, row.fsId, row.stack, row.rank)
    ensures HasFile(l, row.name) && RowHolds(f, l, row, TarData(l, row.name))
    ensures exists k: nat :: k < |l.log| && IsFile(l, row.name, k) && l.log[k].data == TarData(l, row.name)
  {
    hide ScanFrom, Tiles, Clean, Flatten, Written, Located, GroupOk, Extractor.SavedRow;
    var j := NamedEntry(f, chunkSize, l, row.name);
    RowSize(f, chunkSize, l, row.name, j);
    assert IsFile(l, row.name, j);
    var k: nat :| k < |l.log| && IsFile(l, row.name, k) && TarData(l, row.name) == l.log[k].data;
    RowAtEntry(f, chunkSize, l, row, k);
  }

  lemma RowAtEntry(f: Format, chunkSize: nat, l: Converted, row: RankedFile, k: nat)
    requires IsConverted(f, chunkSize, l) && row.name in ScanOf(l).m && k < |l.log| && IsFile(l, row.name, k)
    requires row == RowOf(l, row.name, row.fsId, row.stack, row.rank)
    ensures RowHolds(f, l, row, l.log[k].data)
  {
    hide ScanFrom, Tiles, Clean, Flatten, Written, Extractor.SavedRow, Extractor.ChunkMap, Extractor.EntryMap,
         DistinctNames;
    Extractor.WrittenRow(f, chunkSize, l.log, l.groups, l.blob, l.tocOff, k);
  }

  lemma NamedEntry(f: Format, chunkSize: nat, l: Converted, name: Path) returns (k: nat)
    requires IsConverted(f, chunkSize, l) && name in ScanOf(l).m
    ensures chunkSize > 0 && k < |l.log| == |l.groups| && l.log[k].Item? && Clean(l.log[k].h.name) == name
    ensures l.groups[k] != [] && GroupOk(f, chunkSize, l.blob, l.log[k], l.groups[k])
      && Located(ScanOf(l), l.log, l.groups, k)
  {
    hide ScanFrom, Ordered, Flatten, StartOf, Clean, Located;
    WrittenScan(f, chunkSize, l.log, l.groups, l.blob, l.tocOff);
    var j :| 0 <= j < |l.log| && l.log[j].Item? && Clean(l.log[j].h.name) == name;
    k := j;
    assert GroupOk(f, chunkSize, l.blob, l.log[k], l.groups[k]);
  }

  /** Only payload entries have a size. */
  lemma RowSize(f: Format, chunkSize: nat, l: Converted, name: Path, k: nat)
    requires chunkSize > 0 && k < |l.log| == |l.groups| && l.log[k].Item? && Clean(l.log[k].h.name) == name
      && l.groups[k] != []
    requires GroupOk(f, chunkSize, l.blob, l.log[k], l.groups[k]) && Located(ScanOf(l), l.log, l.groups, k)
    ensures name in ScanOf(l).m && (Extractor.SavedRow(ScanOf(l), name).entry.size != 0 ==> HasPayload(l.log[k].h))
  {
    hide ScanFrom, Clean, StartOf;
    MultiChunk(f, chunkSize, l.blob, l.log[k], l.groups[k]);
    Extractor.RowIsView(ScanOf(l), l.log, l.groups, k);
  }

  /** One pull: the two images, the converted layers of the requested one, the rows the database holds,
      the computed delta, and the layers as loaded by the proxy. */
  datatype Pull = Pull(
    f: Format,
    chunkSize: nat,
    src: seq<LayerRow>,
    dst: seq<LayerRow>,
    layers: seq<Converted>,
    rows: seq<RankedFile>,
    available: set<int>,
    best: map<string, int>,
    maxRank: real,
    files: seq<RankedFile>,
    contents: seq<Content>,
    bodyLength: nat,
    loaded: seq<ImageLayer>)

  predicate InSource(p: Pull, hash: string) {
    exists i :: 0 <= i < |p.src| && p.src[i].hash == hash
  }

  /** Serials correspond one to one with layer hashes. */
  predicate OneToOne(rows: seq<LayerRow>) {
    forall i, j :: 0 <= i < |rows| && 0 <= j < |rows| ==>
      (rows[i].serial == rows[j].serial <==> rows[i].hash == rows[j].hash)
  }

  /** What the database and the registry provide: rows of converted layers in stack order, serials that
      correspond to hashes, blobs that are the converted layers. */
  ghost predicate Provided(p: Pull) {
    && |p.layers| == |p.dst| == |p.loaded|
    && (forall i :: 0 <= i < |p.layers| ==> IsConverted(p.f, p.chunkSize, p.layers[i]))
    && (forall i :: 0 <= i < |p.rows| ==>
          var r := p.rows[i];
          && r.stack < |p.dst| && r.fsId == p.dst[r.stack].serial
          && ((r.digest == "" && Unreferenced(r) == r)
              || (r.name in ScanOf(p.layers[r.stack]).m
                  && r == RowOf(p.layers[r.stack], r.name, r.fsId, r.stack, r.rank))))
    && (forall i, j :: 0 <= i < j < |p.rows| ==> p.rows[i].stack <= p.rows[j].stack)
    && OneToOne(p.src + p.dst)
    && (forall s :: s in p.available <==> exists i :: 0 <= i < |p.src| && p.src[i].serial == s)
    && (forall i :: 0 <= i < |p.dst| && !InSource(p, p.dst[i].hash) ==>
          p.loaded[i].row == p.dst[i] && p.dst[i].size == |p.layers[i].blob|
            && p.loaded[i].blob == Some(p.layers[i].blob))
  }

  /** Digests are well formed, and equal only for equal files among those in play. */
  ghost predicate DigestsOk(p: Pull) {
    && (forall i :: 0 <= i < |p.dst| ==> Canonical(p.dst[i].hash))
    && (forall i :: 0 <= i < |p.src| ==> Canonical(p.src[i].hash))
    && (forall i :: 0 <= i < |p.rows| && p.rows[i].digest != "" ==> Canonical(p.rows[i].digest))
    && (forall a: TarItem, b: TarItem :: InPlay(p, a) && InPlay(p, b) && p.f.sha(a.data) == p.f.sha(b.data) ==>
          a.data == b.data)
  }

  ghost predicate InPlay(p: Pull, it: TarItem) {
    it.Item? && HasPayload(it.h) && exists i :: 0 <= i < |p.layers| && it in p.layers[i].log
  }

  ghost predicate Computed(p: Pull) {
    DeltaOk(p.rows, p.available, p.best, p.maxRank, p.files, p.contents, p.bodyLength)
  }

  /** The row has a file with content, whether or not the client lacks it. */
  predicate HasContent(r: RankedFile) {
    r.digest != "" && r.size != 0
  }

  /** The tar bytes of requested row `i`. */
  ghost function RowData(p: Pull, i: nat): Bytes
    requires Provided(p) && i < |p.rows| && HasContent(p.rows[i])
  {
    ContentRow(p, i);
    TarData(p.layers[p.rows[i].stack], p.rows[i].name)
  }

  lemma ContentRow(p: Pull, i: nat)
    requires Provided(p) && i < |p.rows| && HasContent(p.rows[i])
    ensures HasFile(p.layers[p.rows[i].stack], p.rows[i].name)
    ensures RowHolds(p.f, p.layers[p.rows[i].stack], p.rows[i], TarData(p.layers[p.rows[i].stack], p.rows[i].name))
    ensures exists it: TarItem :: InPlay(p, it) && it.data == TarData(p.layers[p.rows[i].stack], p.rows[i].name)
  {
    hide RowOf, IsConverted, RowHolds, FileChunks, InSource, TarData;
    var r := p.rows[i];
    var l := p.layers[r.stack];
    RowOfFile(p.f, p.chunkSize, l, r);
    var k: nat :| k < |l.log| && IsFile(l, r.name, k) && l.log[k].data == TarData(l, r.name);
    assert InPlay(p, l.log[k]);
  }

  /** The layer of an eligible row is one the client lacks, so the proxy has loaded it. */
  lemma LayerLoaded(p: Pull, i: nat)
    requires Provided(p) && i < |p.rows| && Eligible(p.rows[i], p.available)
    ensures p.loaded[p.rows[i].stack].blob == Some(p.layers[p.rows[i].stack].blob)
    ensures p.loaded[p.rows[i].stack].row.size == |p.layers[p.rows[i].stack].blob|
  {
    hide RowOf, IsConverted;
    var stack := p.rows[i].stack;
    forall j | 0 <= j < |p.src| ensures p.src[j].hash != p.dst[stack].hash {
      assert p.src[j].serial in p.available;
      assert (p.src + p.dst)[j] == p.src[j] && (p.src + p.dst)[|p.src| + stack] == p.dst[stack];
    }
    assert !InSource(p, p.dst[stack].hash);
  }

  /** The first file of a content decides its layer, chunks and digest; all its files hold the same bytes. */
  lemma ContentOf(p: Pull, k: nat)
    requires Provided(p) && DigestsOk(p) && Computed(p) && k < |p.contents|
    ensures p.contents[k].files != [] && InRange(p.contents[k].files, |p.rows|)
    ensures Eligible(p.rows[p.contents[k].files[0]], p.available)
    ensures p.contents[k].stack == p.rows[p.contents[k].files[0]].stack
    ensures p.contents[k].digest == p.rows[p.contents[k].files[0]].digest
    ensures forall i :: i in p.contents[k].files ==>
              i < |p.rows| && Eligible(p.rows[i], p.available) && RowData(p, i) == RowData(p, p.contents[k].files[0])
  {
    ContentMembers(p, k);
    hide Provided, Computed, DigestsOk, Eligible, TarData, RowData;
    var c := p.contents[k];
    var first := c.files[0];
    assert first in c.files;
    forall i | i in c.files
      ensures i < |p.rows| && Eligible(p.rows[i], p.available) && RowData(p, i) == RowData(p, first)
    {
      SameDigestSameData(p, i, first);
    }
  }

  lemma ContentMembers(p: Pull, k: nat)
    requires Provided(p) && Computed(p) && k < |p.contents|
    ensures p.contents[k].files != [] && InRange(p.contents[k].files, |p.rows|)
    ensures p.contents[k].stack == p.rows[p.contents[k].files[0]].stack
    ensures p.contents[k].digest == p.rows[p.contents[k].files[0]].digest
    ensures forall i :: i in p.contents[k].files ==>
              i < |p.rows| && Eligible(p.rows[i], p.available)
                && p.rows[i].digest == p.rows[p.contents[k].files[0]].digest
  {
    hide RowOf, IsConverted, InSource, FileOk, Eligible;
    var c := p.contents[k];
    assert Collected(p.rows, p.available, p.best, p.maxRank, c) && LaidOut(p.rows, p.contents, k);
    StackOfFirst(p.rows, p.available, p.best, p.maxRank, c);
    GroupMembers(p.rows, p.available, c.digest, |p.rows|);
  }

  lemma SameDigestSameData(p: Pull, i: nat, j: nat)
    requires Provided(p) && DigestsOk(p) && i < |p.rows| && j < |p.rows|
    requires HasContent(p.rows[i]) && HasContent(p.rows[j]) && p.rows[i].digest == p.rows[j].digest
    ensures RowData(p, i) == RowData(p, j)
  {
    hide Tiles, InPlay, HasFile, Provided;
    ContentRow(p, i);
    ContentRow(p, j);
    hide TarData;
  }

  /** The data of each content. */
  ghost function Datas(p: Pull): (r: seq<Bytes>)
    requires Provided(p) && DigestsOk(p) && Computed(p)
    ensures |r| == |p.contents|
  {
    seq(|p.contents|, k requires 0 <= k < |p.contents| => ContentData(p, k))
  }

  ghost function ContentData(p: Pull, k: nat): Bytes
    requires Provided(p) && DigestsOk(p) && Computed(p) && k < |p.contents|
  {
    ContentOf(p, k);
    RowData(p, p.contents[k].files[0])
  }

  /** Every content can be copied out of a loaded layer, and its bytes are the members of its file. */
  lemma ContentIsSound(p: Pull, k: nat)
    requires Provided(p) && DigestsOk(p) && Computed(p) && k < |p.contents|
    ensures SoundContent(p.f.z, p.loaded, p.contents[k], ContentData(p, k))
    ensures Copyable(p.loaded, p.contents[k])
  {
    var c := p.contents[k];
    assert LaidOut(p.rows, p.contents, k);
    ContentOf(p, k);
    var first := c.files[0];
    ContentRow(p, first);
    LayerLoaded(p, first);
    assert |p.loaded| == |p.dst| && c.stack < |p.dst|;
    hide Provided, Computed, DigestsOk, Eligible, LaidOut, TarData, HasFile, InPlay;
    var blob := p.layers[c.stack].blob;
    assert Tiles(p.f.z, blob, ContentData(p, k), c.chunks, |ContentData(p, k)|);
    ChunksInBlob(p.f.z, blob, ContentData(p, k), c.chunks);
  }

  lemma ChunksInBlob(z: Codec, blob: Bytes, data: Bytes, cs: seq<FileChunk>)
    requires Tiles(z, blob, data, cs, |data|)
    ensures forall i :: 0 <= i < |cs| ==> cs[i].offset + cs[i].compressedSize <= |blob|
  {
    assert forall i :: 0 <= i < |cs| ==> Holds(z, blob, data, cs[i]);
  }

  function Hashes(dst: seq<LayerRow>): (r: seq<string>)
    ensures |r| == |dst| && forall i :: 0 <= i < |dst| ==> r[i] == dst[i].hash
  {
    seq(|dst|, i requires 0 <= i < |dst| => dst[i].hash)
  }

  lemma Addressed(p: Pull)
    requires Provided(p) && DigestsOk(p) && Computed(p)
    ensures WellAddressed(Hashes(p.dst), Wires(p.contents)) && DistinctFiles(Wires(p.contents))
  {
    hide Provided, Computed;
    forall k | 0 <= k < |p.contents|
      ensures p.contents[k].stack < |p.dst| && Canonical(p.contents[k].digest)
    {
      ContentOf(p, k);
      StackInRange(p, p.contents[k].files[0]);
      assert p.rows[p.contents[k].files[0]].digest != "";
    }
    forall j, k | 0 <= j < k < |p.contents| ensures p.contents[j].digest != p.contents[k].digest {
      PullDigests(p, j, k);
    }
  }

  lemma StackInRange(p: Pull, i: nat)
    requires Provided(p) && i < |p.rows|
    ensures p.rows[i].stack < |p.dst|
  {
    hide RowOf, IsConverted, InSource;
  }

  lemma PullDigests(p: Pull, j: nat, k: nat)
    requires Computed(p) && j < k < |p.contents|
    ensures p.contents[j].digest != p.contents[k].digest
  {
    DistinctDigests(p.rows, p.available, p.best, p.maxRank, p.files, p.contents, p.bodyLength, j, k);
  }

  /** End to end. The proxy can write the body, and it is as long as announced. Whatever layers the
      client already has, extraction succeeds and consumes exactly the body; and for every requested
      file that the delta sends into a layer the client lacks, the file on disk is byte for byte the
      one in the tar that was converted. */
  lemma PullIsFaithful(p: Pull, skip: seq<bool>, t: Bytes, disk: map<DiskPath, Bytes>)
    requires LawfulFormat(p.f) && Provided(p) && DigestsOk(p) && Computed(p) && |skip| == |p.dst|
    ensures forall k :: 0 <= k < |p.contents| ==> Copyable(p.loaded, p.contents[k])
    ensures |Body(p.loaded, p.contents)| == p.bodyLength
    ensures WellAddressed(Hashes(p.dst), Wires(p.contents))
    ensures var sent := Body(p.loaded, p.contents) + t;
            var r := ExtractFrom(p.f.z, Hashes(p.dst), skip, Wires(p.contents), 0, sent, disk);
            r.Some? && r.value.rest == t && Delivered(p, skip, r.value.disk)
  {
    assert p.bodyLength == OffsetOf(p.contents, |p.contents|);
    hide Provided, DigestsOk, Computed, WellAddressed, Copyable, SoundContent, ExtractFrom, Body, OnDisk,
         DistinctFiles, Eligible, OffsetOf, Delivered, Wires;
    Addressed(p);
    var datas := Datas(p);
    forall k | 0 <= k < |p.contents|
      ensures SoundContent(p.f.z, p.loaded, p.contents[k], datas[k]) && Copyable(p.loaded, p.contents[k])
    {
      ContentIsSound(p, k);
    }
    assert Sound(p.f.z, p.loaded, p.contents, datas);
    hide Sound, DiskAfter, Datas;
    ExtractsBody(p.f.z, p.loaded, Hashes(p.dst), skip, p.contents, datas, t, disk);
    DeliveredAfter(p, skip, disk);
  }

  /** Row `i`, a member of content `k`, is on disk as in its tar. */
  ghost predicate FileDelivered(p: Pull, k: nat, i: nat, disk: map<DiskPath, Bytes>)
    requires Provided(p) && k < |p.contents|
  {
    i < |p.rows| && Eligible(p.rows[i], p.available)
      && OnDisk(Hashes(p.dst), WireOf(p.contents[k]), disk, RowData(p, i))
  }

  /** Every requested file sent into a layer that is not skipped is on disk as in its tar. */
  ghost predicate Delivered(p: Pull, skip: seq<bool>, disk: map<DiskPath, Bytes>)
    requires Provided(p)
  {
    forall k: nat, i: nat ::
      k < |p.contents| && i in p.contents[k].files && p.contents[k].stack < |skip| && !skip[p.contents[k].stack] ==>
        FileDelivered(p, k, i, disk)
  }

  /** So every requested file that no available layer has is there, in the layer its content was sent into. */
  lemma RowDelivered(p: Pull, skip: seq<bool>, disk: map<DiskPath, Bytes>, i: nat) returns (stack: nat)
    requires Provided(p) && DigestsOk(p) && Computed(p) && |skip| == |p.dst| && Delivered(p, skip, disk)
    requires i < |p.rows| && HasContent(p.rows[i]) && p.rows[i].fsId !in p.available && p.rows[i].digest !in p.best
    ensures stack < |p.dst| && stack <= p.rows[i].stack && |p.dst[stack].hash| >= 12 && |p.rows[i].digest| >= 12
    ensures !skip[stack] ==>
      var path := FileAt(p.dst[stack].hash, p.rows[i].digest);
      path in disk && disk[path] == RowData(p, i)
  {
    var k: nat := RowContent(p, i);
    stack := p.contents[k].stack;
    hide Computed, Provided, DigestsOk, RowData, FileAt, Eligible;
    StackInRange(p, i);
    Addressed(p);
    assert Wires(p.contents)[k] == WireOf(p.contents[k]);
    if !skip[stack] {
      assert FileDelivered(p, k, i, disk);
    }
  }

  lemma RowContent(p: Pull, i: nat) returns (k: nat)
    requires Provided(p) && DigestsOk(p) && Computed(p)
    requires i < |p.rows| && Eligible(p.rows[i], p.available) && p.rows[i].digest !in p.best
    ensures k < |p.contents| && i in p.contents[k].files && p.contents[k].digest == p.rows[i].digest
    ensures p.contents[k].stack <= p.rows[i].stack
  {
    hide Provided, DigestsOk, FileOk, Eligible;
    k :| 0 <= k < |p.contents| && p.rows[p.contents[k].files[0]].digest == p.rows[i].digest;
    var c := p.contents[k];
    assert Collected(p.rows, p.available, p.best, p.maxRank, c) && LaidOut(p.rows, p.contents, k);
    GroupMembers(p.rows, p.available, p.rows[i].digest, |p.rows|);
    hide Computed;
    var j :| 0 <= j < |c.files| && c.files[j] == i;
  }

  lemma DeliveredAfter(p: Pull, skip: seq<bool>, disk: map<DiskPath, Bytes>)
    requires Provided(p) && DigestsOk(p) && Computed(p) && |skip| == |p.dst|
    requires WellAddressed(Hashes(p.dst), Wires(p.contents)) && DistinctFiles(Wires(p.contents))
    ensures Delivered(p, skip, DiskAfter(Hashes(p.dst), skip, Wires(p.contents), Datas(p), |p.contents|, disk))
  {
    hide Provided, DigestsOk, Computed, DistinctFiles, DiskAfter, OnDisk, Eligible, RowData;
    var d := DiskAfter(Hashes(p.dst), skip, Wires(p.contents), Datas(p), |p.contents|, disk);
    forall k: nat, i: nat
      | k < |p.contents| && i in p.contents[k].files && p.contents[k].stack < |skip| && !skip[p.contents[k].stack]
      ensures FileDelivered(p, k, i, d)
    {
      ContentOf(p, k);
      WrittenOnce(Hashes(p.dst), skip, Wires(p.contents), Datas(p), |p.contents|, k, disk);
    }
  }
}
