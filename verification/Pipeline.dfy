/** One pull from end to end, with every part the one that the other modules model: the tars are converted
    and saved, the delta is computed, the layers are loaded, the response is written, read and extracted. */
module Pipeline {
  import opened Basics
  import opened Gzip
  import opened Toc
  import opened Layer
  import opened Paths
  import opened TocScan
  import opened DirTree
  import opened Linking
  import opened Writer
  import opened Reader
  import opened Delta
  import opened Builder
  import opened Extraction
  import opened Stream
  import opened EndToEnd
  import opened PullMachine
  import opened ClientView
  import opened Response
  import Extractor
  import FileView
  import Footer

  function ChunkSizeFor(chunkSize: int): nat {
    if chunkSize <= 0 then DEFAULT_CHUNK_SIZE else chunkSize
  }

  /** The layer decompresses to the tar of its entries, followed by the table. */
  ghost predicate HoldsTar(f: Format, l: Converted) {
    exists parts :: IsTar(l.log, parts) && Gunzip(f.z, l.blob) == Some(Flatten(parts) + f.TocTar(Flatten(l.groups)))
  }

  /** Converts one tar. */
  method Convert(f: Format, chunkSize: int, tar: seq<TarItem>) returns (ok: bool, blob: Bytes, ghost l: Converted)
    requires LawfulFormat(f) && forall i :: 0 <= i < |tar| ==> FromTarReader(tar[i])
    ensures ok == forall i :: 0 <= i < |tar| ==> Accepts(tar[i])
    ensures ok ==> l.blob == blob && l.log == Keep(tar)
    ensures ok ==> Written(f, ChunkSizeFor(chunkSize), l.log, l.groups, l.blob, l.tocOff) && HoldsTar(f, l)
  {
    assert Lawful(f.z);
    hide Written, HoldsTar, Keep, LawfulFormat, Lawful, Accepts, FromTarReader, Writer.Valid, Writer.Fed;
    var w := new Writer(f, chunkSize);
    blob, l := [], Converted([], [], [], 0);
    ok := w.AppendTar(tar);
    if ok {
      blob, l := Finish(w);
      assert l.log == [] + Keep(tar);
    }
  }

  lemma StillFed(w: Writer)
    requires w.Valid()
    ensures w.Fed() && !w.closed
  {
  }

  method Finish(w: Writer) returns (blob: Bytes, ghost l: Converted)
    requires w.Valid() && LawfulFormat(w.f)
    modifies w
    ensures l.blob == blob && l.log == old(w.log) && Written(w.f, w.chunkSize, l.log, l.groups, l.blob, l.tocOff)
    ensures HoldsTar(w.f, l)
  {
    hide Written, IsTar, LawfulFormat, Gunzip, Flatten, Writer.Valid, Writer.Fed;
    StillFed(w);
    ghost var tocOff := |w.out| + if w.gz.Some? then |w.f.z.deflate(w.gz.value)| else 0;
    var _ := w.Close();
    blob := w.out;
    l := Converted(w.log, w.groups, w.out, tocOff);
  }

  /** The entry of an implied directory, which has neither content nor digest. */
  const IMPLIED := TocEntry("", Dir, 0, "", 0, 0, 0, 0, "", "")

  /** What the database holds of a layer: the rows of its table, and those of the directories it implies. */
  ghost predicate HoldsRows(l: Converted, saved: map<Path, Extractor.Row>) {
    && (forall p :: p in ScanOf(l).m ==> p in saved && saved[p] == Extractor.SavedRow(ScanOf(l), p))
    && (forall p :: p in saved && p !in ScanOf(l).m ==> saved[p].entry.digest == "")
  }

  ghost predicate HasDangling(l: Converted) {
    exists j :: 0 <= j < |ScanOf(l).ents| && Dangling(ScanOf(l).m, ScanOf(l).ents, j)
  }

  /** Opens the converted layer and saves what its table says. */
  method Save(f: Format, blob: Bytes, ghost chunkSize: nat, ghost l: Converted)
    returns (r: Option<map<Path, Extractor.Row>>)
    requires LawfulFormat(f) && IsConverted(f, chunkSize, l) && l.blob == blob && |blob| < Footer.INT64_LIMIT
    ensures r.Some? <==> !HasDangling(l)
    ensures r.Some? ==> HoldsRows(l, r.value)
  {
    hide ScanFrom, Written, Ordered, LawfulFormat, Clean, DistinctNames, Flatten, TreeInv, FileView.NextBoundary,
         OpenToc, Dangling;
    hide HoldsRows, Extractor.ChunkViews, Shape;
    OffsetInBlob(f, chunkSize, l);
    OpenWritten(f, chunkSize, l.log, l.groups, blob, l.tocOff);
    var toc := OpenToc(f, blob);
    var reader := new Reader(f, blob, toc.value);
    var ok := reader.InitFields();
    assert ScanOf(l) == ScanFrom(START, toc.value);
    if !ok {
      return None;
    }
    ChunksNamed(f, chunkSize, l);
    var m := reader.dirs.m;
    var entries := map p | p in m :: if m[p] < |reader.ents| then reader.ents[m[p]].e else IMPLIED;
    var chunks := map p | p in reader.chunks :: EntriesAt(reader.ents, reader.chunks[p]);
    var saved := Extractor.SaveLayer(entries, chunks);
    RowsHeld(l, m, entries, chunks, saved.value);
    r := Some(saved.value);
  }

  lemma ChunksNamed(f: Format, chunkSize: nat, l: Converted)
    requires IsConverted(f, chunkSize, l)
    ensures ScanOf(l).chunks.Keys <= ScanOf(l).m.Keys
  {
    hide ScanFrom, Written, DistinctNames, Located, FileView.SameOffsets;
    FileView.WrittenScan(f, chunkSize, l.log, l.groups, l.blob, l.tocOff);
  }

  lemma RowsHeld(l: Converted, m: map<Path, nat>, entries: map<Path, TocEntry>, chunks: map<Path, seq<TocEntry>>,
                 saved: map<Path, Extractor.Row>)
    requires Extends(ScanOf(l).m, m) && forall p :: p in m && p !in ScanOf(l).m ==> m[p] >= |ScanOf(l).ents|
    requires entries == map p | p in m :: if m[p] < |ScanOf(l).ents| then ScanOf(l).ents[m[p]].e else IMPLIED
    requires chunks == map p | p in ScanOf(l).chunks :: EntriesAt(ScanOf(l).ents, ScanOf(l).chunks[p])
    requires saved.Keys == entries.Keys && forall p :: p in entries ==> saved[p] == Extractor.RowAt(entries, chunks, p)
    ensures HoldsRows(l, saved)
  {
    hide ScanFrom, Extractor.ChunkViews;
    var s := ScanOf(l);
    forall p | p in s.m ensures p in saved && saved[p] == Extractor.SavedRow(s, p) {
      if p in s.chunks {
        assert EntriesAt(s.ents, s.chunks[p]) == Extractor.EntriesOf(s, s.chunks[p]);
      }
    }
  }

  lemma OffsetInBlob(f: Format, chunkSize: nat, l: Converted)
    requires IsConverted(f, chunkSize, l)
    ensures l.tocOff <= |l.blob|
  {
  }

  function EntriesAt(ents: seq<Ent>, ids: seq<nat>): seq<TocEntry>
    requires forall i :: 0 <= i < |ids| ==> ids[i] < |ents|
  {
    seq(|ids|, i requires 0 <= i < |ids| => ents[ids[i]].e)
  }

  // --- all layers of the image

  /** The image as pushed: the blob and the saved rows of each layer. */
  ghost predicate Pushed(f: Format, chunkSize: nat, tars: seq<seq<TarItem>>, layers: seq<Converted>, blobs: seq<Bytes>,
                         saved: seq<map<Path, Extractor.Row>>)
  {
    && |tars| == |layers| == |blobs| == |saved|
    && forall i :: 0 <= i < |layers| ==>
         && IsConverted(f, chunkSize, layers[i]) && layers[i].blob == blobs[i] && layers[i].log == Keep(tars[i])
         && HoldsTar(f, layers[i]) && HoldsRows(layers[i], saved[i])
  }

  /** Tars as the tar reader gives them, with names that differ. */
  ghost predicate GoodTars(tars: seq<seq<TarItem>>) {
    forall i :: 0 <= i < |tars| ==>
      DistinctNames(Keep(tars[i])) && forall j :: 0 <= j < |tars[i]| ==> FromTarReader(tars[i][j])
  }

  /** Some item of the tar cannot be processed, or the layer it becomes has a dangling hard link or is too
      long. */
  ghost predicate Unfit(f: Format, chunkSize: nat, tar: seq<TarItem>) {
    || (exists j :: 0 <= j < |tar| && !Accepts(tar[j]))
    || (exists l: Converted :: IsConverted(f, chunkSize, l) && l.log == Keep(tar)
                               && (HasDangling(l) || |l.blob| >= Footer.INT64_LIMIT))
  }

  /** Converts and saves every layer. Sizes are 64 bits wide, so no blob is longer than that. */
  method Push(f: Format, chunkSize: int, tars: seq<seq<TarItem>>)
    returns (ok: bool, blobs: seq<Bytes>, saved: seq<map<Path, Extractor.Row>>, ghost layers: seq<Converted>)
    requires LawfulFormat(f) && GoodTars(tars)
    ensures ok ==> Pushed(f, ChunkSizeFor(chunkSize), tars, layers, blobs, saved)
    ensures !ok ==> exists i :: 0 <= i < |tars| && Unfit(f, ChunkSizeFor(chunkSize), tars[i])
  {
    hide LawfulFormat, Written, DistinctNames, HoldsTar, HoldsRows, HasDangling, Keep, Accepts, FromTarReader;
    ok, blobs, saved, layers := true, [], [], [];
    var i := 0;
    while i < |tars|
      invariant 0 <= i <= |tars| && ok
      invariant Pushed(f, ChunkSizeFor(chunkSize), tars[..i], layers, blobs, saved)
    {
      ghost var l;
      var blob;
      ok, blob, l := Convert(f, chunkSize, tars[i]);
      if !ok || |blob| >= Footer.INT64_LIMIT {
        assert Unfit(f, ChunkSizeFor(chunkSize), tars[i]);
        ok := false;
        return;
      }
      var rows := Save(f, blob, ChunkSizeFor(chunkSize), l);
      if rows.None? {
        assert Unfit(f, ChunkSizeFor(chunkSize), tars[i]);
        ok := false;
        return;
      }
      blobs, saved, layers := blobs + [blob], saved + [rows.value], layers + [l];
      i := i + 1;
    }
    assert tars[..i] == tars;
  }

  /** A row that the database is asked for. */
  datatype Request = Request(stack: nat, name: Path, rank: real)

  predicate InStackOrder(requests: seq<Request>, n: nat) {
    && (forall i :: 0 <= i < |requests| ==> requests[i].stack < n)
    && (forall i, j :: 0 <= i < j < |requests| ==> requests[i].stack <= requests[j].stack)
  }

  /** The rows of the database, in the order of the requests; names it does not have yield none. */
  method Lookup(saved: seq<map<Path, Extractor.Row>>, dst: seq<LayerRow>, requests: seq<Request>)
    returns (rows: seq<RankedFile>)
    requires InStackOrder(requests, |saved|) && |dst| == |saved|
    ensures forall i :: 0 <= i < |rows| ==> FromDatabase(saved, dst, rows[i])
    ensures forall i, j :: 0 <= i < j < |rows| ==> rows[i].stack <= rows[j].stack
    ensures forall q :: q in requests && q.name in saved[q.stack] ==> Answered(q, rows)
  {
    rows := [];
    var i := 0;
    while i < |requests|
      invariant 0 <= i <= |requests|
      invariant forall k :: 0 <= k < |rows| ==> FromDatabase(saved, dst, rows[k])
      invariant forall j, k :: 0 <= j < k < |rows| ==> rows[j].stack <= rows[k].stack
      invariant forall k :: 0 <= k < |rows| && i < |requests| ==> rows[k].stack <= requests[i].stack
      invariant forall q :: q in requests[..i] && q.name in saved[q.stack] ==> Answered(q, rows)
    {
      var q := requests[i];
      ghost var before := rows;
      assert requests[..i + 1] == requests[..i] + [q];
      if q.name in saved[q.stack] {
        var row := Returned(saved[q.stack][q.name], q.name, dst[q.stack].serial, q.stack, q.rank);
        assert FromDatabase(saved, dst, row);
        rows := rows + [row];
        assert rows[|rows| - 1] == row;
      }
      forall a | a in requests && Answered(a, before) ensures Answered(a, rows) {
        var k :| 0 <= k < |before| && before[k].name == a.name && before[k].stack == a.stack
          && before[k].rank == a.rank;
        assert rows[k] == before[k];
      }
      i := i + 1;
    }
    assert requests[..i] == requests;
  }

  /** The request has its row. */
  predicate Answered(q: Request, rows: seq<RankedFile>) {
    exists k :: 0 <= k < |rows| && rows[k].name == q.name && rows[k].stack == q.stack && rows[k].rank == q.rank
  }

  predicate FromDatabase(saved: seq<map<Path, Extractor.Row>>, dst: seq<LayerRow>, r: RankedFile)
    requires |dst| == |saved|
  {
    && r.stack < |saved| && r.name in saved[r.stack]
    && r == Returned(saved[r.stack][r.name], r.name, dst[r.stack].serial, r.stack, r.rank)
  }

  /** The layers as the registry and the database know them: blobs under their hashes, serials by hash. */
  function LayerRowsOf(f: Format, serial: string -> int, blobs: seq<Bytes>): (r: seq<LayerRow>)
    ensures |r| == |blobs| && forall i :: 0 <= i < |r| ==>
      r[i] == LayerRow(serial(f.sha(blobs[i])), f.sha(blobs[i]), |blobs[i]|)
  {
    seq(|blobs|, i requires 0 <= i < |blobs| => LayerRow(serial(f.sha(blobs[i])), f.sha(blobs[i]), |blobs[i]|))
  }

  /** Pushing puts each blob under its hash. */
  method Register(f: Format, blobs: seq<Bytes>) returns (registry: map<string, Bytes>)
    ensures Registered(f, blobs, registry)
  {
    registry := map[];
    var i := 0;
    while i < |blobs|
      invariant 0 <= i <= |blobs|
      invariant forall k :: 0 <= k < i ==> f.sha(blobs[k]) in registry
      invariant forall h :: h in registry ==> exists k :: 0 <= k < i && h == f.sha(blobs[k]) && registry[h] == blobs[k]
    {
      registry := registry[f.sha(blobs[i]) := blobs[i]];
      i := i + 1;
    }
  }

  // --- the server

  /** What is trusted: serials correspond to hashes, digests are well formed, and neither files nor layers
      of this pull collide. */
  ghost predicate Trusted(p: Pull) {
    && OneToOne(p.src + p.dst) && DigestsOk(p)
    && forall i, j ::
         0 <= i < |p.layers| && 0 <= j < |p.layers| && p.f.sha(p.layers[i].blob) == p.f.sha(p.layers[j].blob) ==>
           p.layers[i].blob == p.layers[j].blob
  }

  /** The rows are those of the pushed layers. */
  ghost predicate Stored(p: Pull, tars: seq<seq<TarItem>>, blobs: seq<Bytes>, saved: seq<map<Path, Extractor.Row>>) {
    && Pushed(p.f, p.chunkSize, tars, p.layers, blobs, saved) && |p.dst| == |blobs|
    && (forall i :: 0 <= i < |p.dst| ==> p.dst[i].hash == p.f.sha(blobs[i]) && p.dst[i].size == |blobs[i]|)
    && (forall i :: 0 <= i < |p.rows| ==> FromDatabase(saved, p.dst, p.rows[i]))
    && (forall i, j :: 0 <= i < j < |p.rows| ==> p.rows[i].stack <= p.rows[j].stack)
  }

  lemma RowsProvided(p: Pull, tars: seq<seq<TarItem>>, blobs: seq<Bytes>, saved: seq<map<Path, Extractor.Row>>, i: nat)
    requires Stored(p, tars, blobs, saved) && i < |p.rows|
    ensures var r := p.rows[i];
            && r.stack < |p.dst| && r.fsId == p.dst[r.stack].serial
            && ((r.digest == "" && Unreferenced(r) == r)
                || (r.name in ScanOf(p.layers[r.stack]).m
                    && r == RowOf(p.layers[r.stack], r.name, r.fsId, r.stack, r.rank)))
  {
    hide ScanFrom, IsConverted, Keep, Extractor.SavedRow;
    assert FromDatabase(saved, p.dst, p.rows[i]);
    assert HoldsRows(p.layers[p.rows[i].stack], saved[p.rows[i].stack]);
  }

  /** What the hypotheses on a pull ask of the database and the registry is what pushing, the builder and
      loading leave. */
  lemma PushedIsProvided(p: Pull, tars: seq<seq<TarItem>>, blobs: seq<Bytes>, saved: seq<map<Path, Extractor.Row>>)
    requires Stored(p, tars, blobs, saved) && OneToOne(p.src + p.dst) && |p.loaded| == |p.dst|
    requires forall s :: s in p.available <==> exists i :: 0 <= i < |p.src| && p.src[i].serial == s
    requires forall i :: 0 <= i < |p.dst| && !InSource(p, p.dst[i].hash) ==>
      p.loaded[i].row == p.dst[i] && p.loaded[i].blob == Some(blobs[i])
    ensures Provided(p)
  {
    hide ScanFrom, IsConverted, Keep, RowOf, OneToOne, Unreferenced, FromDatabase, HoldsRows;
    forall i: nat | i < |p.rows|
      ensures var r := p.rows[i];
              && r.stack < |p.dst| && r.fsId == p.dst[r.stack].serial
              && ((r.digest == "" && Unreferenced(r) == r)
                  || (r.name in ScanOf(p.layers[r.stack]).m
                      && r == RowOf(p.layers[r.stack], r.name, r.fsId, r.stack, r.rank)))
    {
      RowsProvided(p, tars, blobs, saved, i);
    }
    hide InSource;
  }

  ghost predicate KnownFiles(src: seq<LayerRow>, existing: seq<ExistingFile>) {
    forall e :: 0 <= e < |existing| ==> exists i :: 0 <= i < |src| && src[i].serial == existing[e].fsId
  }

  /** Registry entries are what the hashes stand for, when no two layers collide. */
  lemma LoadsAll(f: Format, dst: seq<LayerRow>, blobs: seq<Bytes>, registry: map<string, Bytes>)
    requires |dst| == |blobs| && forall i :: 0 <= i < |dst| ==>
      dst[i].hash == f.sha(blobs[i]) && dst[i].size == |blobs[i]|
    requires forall i :: 0 <= i < |blobs| ==> f.sha(blobs[i]) in registry
    requires forall h :: h in registry ==>
      exists i :: 0 <= i < |blobs| && h == f.sha(blobs[i]) && registry[h] == blobs[i]
    requires forall i, j :: 0 <= i < |blobs| && 0 <= j < |blobs| && f.sha(blobs[i]) == f.sha(blobs[j]) ==>
      blobs[i] == blobs[j]
    ensures forall i :: 0 <= i < |dst| ==> Fetchable(registry, dst[i]) && registry[dst[i].hash] == blobs[i]
  {
  }

  /** The delta and the layers: NewBuilder, Load and computeDelta. */
  method Build(f: Format, src: seq<LayerRow>, dst: seq<LayerRow>, registry: map<string, Bytes>,
               existing: seq<ExistingFile>,
               rows: seq<RankedFile>, disableSorting: bool, maxRank: real)
    returns (b: Builder, ok: bool, ghost available: set<int>, ghost best: map<string, int>)
    requires KnownFiles(src, existing)
    ensures fresh(b) && |b.destination| == |dst|
    ensures (forall i :: 0 <= i < |dst| ==> Fetchable(registry, dst[i])) ==> ok
    ensures ok ==> forall i :: 0 <= i < |dst| && (forall j :: 0 <= j < |src| ==> src[j].hash != dst[i].hash) ==>
      b.destination[i].row == dst[i] && Loaded(registry, b.destination[i])
    ensures forall s :: s in available <==> exists i :: 0 <= i < |src| && src[i].serial == s
    ensures IsBest(existing, best) && DeltaOk(rows, available, best, maxRank, b.files, b.contents, b.bodyLength)
    ensures !disableSorting ==> RankOrdered(b.contents)
  {
    hide DeltaOk, IsBest, RankOrdered, Fetchable, Loaded;
    b := new Builder(Some(src), dst, disableSorting, maxRank);
    var missing := b.unavailable;
    assert forall j :: 0 <= j < |missing| ==> missing[j] in missing;
    ok := b.Load(registry);
    FromSourceOnly(b, src);
    available, best := b.ComputeDelta(existing, rows);
    FromSourceOnly(b, src);
  }

  lemma FromSourceOnly(b: Builder, src: seq<LayerRow>)
    requires |b.source| == |src| && forall i :: 0 <= i < |src| ==> b.source[i] == ImageLayer(src[i], true, None)
    requires forall i :: 0 <= i < |b.destination| ==> !b.destination[i].available
    ensures forall s :: b.IsAvailable(s) <==> exists i :: 0 <= i < |src| && src[i].serial == s
  {
    forall s ensures b.IsAvailable(s) <==> exists i :: 0 <= i < |src| && src[i].serial == s {
      if i :| 0 <= i < |src| && src[i].serial == s {
        assert b.source[i].available && b.source[i].row.serial == s;
      }
    }
  }


  lemma StacksInImage(rows: seq<RankedFile>, available: set<int>, best: map<string, int>, maxRank: real,
                      files: seq<RankedFile>, cs: seq<Content>, bodyLength: nat, n: nat)
    requires DeltaOk(rows, available, best, maxRank, files, cs, bodyLength)
    requires forall i :: 0 <= i < |rows| ==> rows[i].stack < n
    ensures forall k :: 0 <= k < |cs| ==> cs[k].stack < n
  {
    hide FileOk, LaidOut, Eligible;
    forall k | 0 <= k < |cs| ensures cs[k].stack < n {
      assert Collected(rows, available, best, maxRank, cs[k]);
    }
  }

  /** The response: the three parts, their sizes, and the body. */
  method Respond(z: Codec, json: Json, manifest: Bytes, config: Bytes, bundle: Bundle, b: Builder)
    returns (ok: bool, h: Headers, front: Bytes, body: Bytes)
    requires forall k :: 0 <= k < |b.contents| ==> b.contents[k].stack < |b.destination|
    ensures ok <==> forall k :: 0 <= k < |b.contents| ==> Copyable(b.destination, b.contents[k])
    ensures ok ==> Announced(z, h, front, Parts(manifest, config, json.encode(bundle)), b.bodyLength)
    ensures ok ==> body == Body(b.destination, b.contents)
  {
    hide Announced, Body, Copyable;
    h, front := WriteHeader(z, Parts(manifest, config, json.encode(bundle)), b.bodyLength);
    var written := b.WriteBody();
    ok := written.Ok?;
    body := if ok then written.value else [];
  }

  // --- the client

  /** The response holds this bundle behind the manifest and the config. */
  predicate Parsed(z: Codec, json: Json, h: Headers, sent: Bytes, bundle: Bundle) {
    var m, c := h.manifestSize, h.manifestSize + h.configSize;
    var at := c + h.starlightHeaderSize;
    && at <= |sent| && Decompress(z, sent[..m]).Some? && Decompress(z, sent[m..c]).Some?
       && Decompress(z, sent[c..at]).Some?
    && json.decode(Decompress(z, sent[c..at]).value) == Some(bundle)
  }

  function BodyOf(h: Headers, sent: Bytes): Bytes {
    var at := h.manifestSize + h.configSize + h.starlightHeaderSize;
    if at <= |sent| then sent[at..] else []
  }

  /** m.layers: first the layers of the requested image, then those of the source. */
  method Layers(destination: seq<LayerRow>, source: seq<LayerRow>) returns (layers: map<int, string>)
    ensures layers == ClientLayers(destination + source)
  {
    var rows := destination + source;
    layers := map[];
    var i := 0;
    while i < |rows|
      invariant 0 <= i <= |rows| && layers == ClientLayers(rows[..i])
    {
      layers := layers[rows[i].serial := rows[i].hash];
      i := i + 1;
      assert rows[..i][..i - 1] == rows[..i - 1];
    }
    assert rows[..i] == rows;
  }

  /** Reads the response and extracts it. A digest that is not well formed makes the program panic. */
  method Receive(z: Codec, json: Json, h: Headers, sent: Bytes, skip: seq<bool>, disk: map<DiskPath, Bytes>)
    returns (image: Option<(Bytes, Bytes)>, view: Option<Config>, ok: bool, after: map<DiskPath, Bytes>, rest: Bytes)
    ensures forall bundle: Bundle :: Parsed(z, json, h, sent, bundle) ==>
      && image.Some? && Decompress(z, sent[..h.manifestSize]) == Some(image.value.0)
      && Decompress(z, sent[h.manifestSize..h.manifestSize + h.configSize]) == Some(image.value.1)
    ensures forall bundle: Bundle :: Parsed(z, json, h, sent, bundle) ==>
      view == Some(DecodedConfig(z, bundle, skip, BodyOf(h, sent), disk))
    ensures forall bundle: Bundle ::
      (Parsed(z, json, h, sent, bundle) && WellAddressed(Hashes(bundle.destination), bundle.contents)
       && |skip| == |bundle.destination|
       ==> var r := ExtractFrom(z, Hashes(bundle.destination), skip, bundle.contents, 0, BodyOf(h, sent), disk);
           ok == r.Some? && (ok ==> r.value == Extracted(after, rest)))
  {
    hide Decompress, ExtractFrom, WellAddressed, ClientLayers;
    image, view, ok, after, rest := None, None, false, disk, [];
    var parts, body := ReadParts(z, h, sent);
    if parts.None? {
      return;
    }
    image := Some((parts.value.manifest, parts.value.config));
    var decoded := json.decode(parts.value.header);
    if decoded.None? {
      return;
    }
    var layers := Layers(decoded.value.destination, decoded.value.source);
    var hashes := Hashes(decoded.value.destination);
    view := Some(Config(z, hashes, layers, decoded.value.contents, decoded.value.files, skip, body, disk));
    if !WellAddressed(hashes, decoded.value.contents) || |skip| != |hashes| {
      return;
    }
    var manager := new Manager(z, hashes, decoded.value.contents, skip, disk, body);
    ok := manager.Extract();
    after, rest := manager.disk, manager.stream;
  }

  // --- altogether

  /** What the pull is about: the image of these tars, pushed as these blobs, the layers the client names,
      the files asked for. */
  ghost predicate Concerns(p: Pull, f: Format, chunkSize: int, tars: seq<seq<TarItem>>, serial: string -> int,
                           blobs: seq<Bytes>, src: seq<LayerRow>, requests: seq<Request>)
  {
    && p.f == f && p.chunkSize == ChunkSizeFor(chunkSize) && p.src == src && p.dst == LayerRowsOf(f, serial, blobs)
    && |p.layers| == |blobs| == |tars|
    && (forall i :: 0 <= i < |tars| ==>
          && IsConverted(f, p.chunkSize, p.layers[i]) && HoldsTar(f, p.layers[i])
          && p.layers[i].log == Keep(tars[i]) && p.layers[i].blob == blobs[i])
    && (forall q :: q in requests && q.stack < |p.layers| && q.name in ScanOf(p.layers[q.stack]).m ==>
          Answered(q, p.rows))
  }

  lemma StoredConcerns(p: Pull, chunkSize: int, tars: seq<seq<TarItem>>, serial: string -> int, blobs: seq<Bytes>,
                       saved: seq<map<Path, Extractor.Row>>, requests: seq<Request>)
    requires Stored(p, tars, blobs, saved) && p.chunkSize == ChunkSizeFor(chunkSize)
    requires InStackOrder(requests, |saved|) && p.dst == LayerRowsOf(p.f, serial, blobs)
    requires forall q :: q in requests && q.name in saved[q.stack] ==> Answered(q, p.rows)
    ensures Concerns(p, p.f, chunkSize, tars, serial, blobs, p.src, requests)
  {
    hide ScanFrom, IsConverted, Keep, Answered, FromDatabase;
    forall q | q in requests && q.stack < |p.layers| && q.name in ScanOf(p.layers[q.stack]).m
      ensures Answered(q, p.rows)
    {
      assert HoldsRows(p.layers[q.stack], saved[q.stack]);
    }
  }

  lemma PushedTogether(f: Format, chunkSize: nat, tars: seq<seq<TarItem>>, layers: seq<Converted>, blobs: seq<Bytes>,
                       saved: seq<map<Path, Extractor.Row>>)
    requires Pushed(f, chunkSize, tars, layers, blobs, saved)
    ensures |tars| == |layers| == |blobs| == |saved| && forall i :: 0 <= i < |layers| ==> layers[i].blob == blobs[i]
  {
  }

  /** The layers the client lacks are as the builder left them. */
  ghost predicate HasLoaded(p: Pull, registry: map<string, Bytes>) {
    && |p.loaded| == |p.dst|
    && forall i :: 0 <= i < |p.dst| && (forall j :: 0 <= j < |p.src| ==> p.src[j].hash != p.dst[i].hash) ==>
         p.loaded[i].row == p.dst[i] && Loaded(registry, p.loaded[i])
  }

  ghost predicate Registered(f: Format, blobs: seq<Bytes>, registry: map<string, Bytes>) {
    && (forall i :: 0 <= i < |blobs| ==> f.sha(blobs[i]) in registry)
    && (forall h :: h in registry ==> exists i :: 0 <= i < |blobs| && h == f.sha(blobs[i]) && registry[h] == blobs[i])
  }

  /** Under trust every layer can be fetched, and what is fetched is the layer that was pushed. */
  lemma CanLoad(p: Pull, tars: seq<seq<TarItem>>, blobs: seq<Bytes>, saved: seq<map<Path, Extractor.Row>>,
                registry: map<string, Bytes>)
    requires Stored(p, tars, blobs, saved) && Trusted(p) && Registered(p.f, blobs, registry)
    ensures |blobs| == |p.dst|
    ensures forall i :: 0 <= i < |p.dst| ==> Fetchable(registry, p.dst[i]) && registry[p.dst[i].hash] == blobs[i]
  {
    hide Pushed, DigestsOk, OneToOne, FromDatabase;
    PushedTogether(p.f, p.chunkSize, tars, p.layers, blobs, saved);
    LoadsAll(p.f, p.dst, blobs, registry);
  }

  lemma IsProvided(p: Pull, tars: seq<seq<TarItem>>, blobs: seq<Bytes>, saved: seq<map<Path, Extractor.Row>>,
                   registry: map<string, Bytes>)
    requires Stored(p, tars, blobs, saved) && Trusted(p) && Registered(p.f, blobs, registry) && HasLoaded(p, registry)
    requires forall s :: s in p.available <==> exists i :: 0 <= i < |p.src| && p.src[i].serial == s
    ensures Provided(p) && DigestsOk(p)
  {
    hide DigestsOk, OneToOne, Provided, Stored, Registered;
    CanLoad(p, tars, blobs, saved, registry);
    forall i | 0 <= i < |p.dst| && !InSource(p, p.dst[i].hash)
      ensures p.loaded[i].row == p.dst[i] && p.loaded[i].blob == Some(blobs[i])
    {
      assert forall j :: 0 <= j < |p.src| ==> p.src[j].hash != p.dst[i].hash;
    }
    PushedIsProvided(p, tars, blobs, saved);
  }

  /** A provided pull can be answered, and the answer is parsed and extracted to the end. */
  lemma GoesThrough(p: Pull, json: Json, manifest: Bytes, config: Bytes, h: Headers, front: Bytes, skip: seq<bool>,
                    disk: map<DiskPath, Bytes>)
    returns (b: Bundle)
    requires LawfulFormat(p.f) && LawfulJson(json) && Provided(p) && DigestsOk(p) && Computed(p) && |skip| == |p.dst|
    requires Announced(p.f.z, h, front, Parts(manifest, config, json.encode(BundleOf(p))), p.bodyLength)
    ensures var sent := front + Body(p.loaded, p.contents);
            && Parsed(p.f.z, json, h, sent, b) && Received(p, b, BodyOf(h, sent), skip, disk)
            && Decompress(p.f.z, sent[..h.manifestSize]) == Some(manifest)
            && Decompress(p.f.z, sent[h.manifestSize..h.manifestSize + h.configSize]) == Some(config)
  {
    hide LawfulFormat, LawfulJson, Provided, DigestsOk, Computed, Announced, Body, BundleOf, Received, Decompress;
    WholeResponse(p, json, manifest, config, h, front, skip, disk);
    var sent := front + Body(p.loaded, p.contents);
    var c := h.manifestSize + h.configSize;
    b := json.decode(Decompress(p.f.z, sent[c..c + h.starlightHeaderSize]).value).value;
  }

  /** A file of the image. */
  ghost predicate InTars(tars: seq<seq<TarItem>>, it: TarItem) {
    it.Item? && exists i :: 0 <= i < |tars| && it in Keep(tars[i])
  }

  /** What is trusted of the input and of the blobs that were pushed: serials correspond to hashes, digests
      are well formed, and neither files nor layers collide. */
  ghost predicate Trustworthy(f: Format, tars: seq<seq<TarItem>>, serial: string -> int, src: seq<LayerRow>,
                              blobs: seq<Bytes>)
  {
    && OneToOne(src + LayerRowsOf(f, serial, blobs)) && (forall i :: 0 <= i < |src| ==> Canonical(src[i].hash))
    && (forall i :: 0 <= i < |blobs| ==> Canonical(f.sha(blobs[i])))
    && (forall i, j :: 0 <= i < |blobs| && 0 <= j < |blobs| && f.sha(blobs[i]) == f.sha(blobs[j]) ==>
          blobs[i] == blobs[j])
    && (forall a: TarItem :: InTars(tars, a) ==> Canonical(f.sha(a.data)))
    && (forall a: TarItem, b: TarItem :: InTars(tars, a) && InTars(tars, b) && f.sha(a.data) == f.sha(b.data) ==>
          a.data == b.data)
  }

  /** A digest that the database returns is that of a file of the image. */
  lemma DigestOfRow(p: Pull, tars: seq<seq<TarItem>>, blobs: seq<Bytes>, saved: seq<map<Path, Extractor.Row>>, i: nat)
    returns (a: TarItem)
    requires Stored(p, tars, blobs, saved) && i < |p.rows| && p.rows[i].digest != ""
    ensures InTars(tars, a) && p.rows[i].digest == p.f.sha(a.data)
  {
    hide ScanFrom, Written, Keep, Clean, Tiles, Located, FromDatabase, DistinctNames;
    RowsProvided(p, tars, blobs, saved, i);
    var r := p.rows[i];
    var l := p.layers[r.stack];
    var k := NamedEntry(p.f, p.chunkSize, l, r.name);
    EntryDigest(p.f, p.chunkSize, l, r.name, k);
    a := l.log[k];
    assert a in Keep(tars[r.stack]);
  }

  lemma EntryDigest(f: Format, chunkSize: nat, l: Converted, name: Path, k: nat)
    requires chunkSize > 0 && k < |l.log| == |l.groups| && l.log[k].Item? && Clean(l.log[k].h.name) == name
      && l.groups[k] != []
    requires GroupOk(f, chunkSize, l.blob, l.log[k], l.groups[k]) && Located(ScanOf(l), l.log, l.groups, k)
    ensures name in ScanOf(l).m
    ensures Extractor.SavedRow(ScanOf(l), name).entry.digest
         == if l.log[k].h.flag == TypeReg then f.sha(l.log[k].data) else ""
  {
    hide ScanFrom, Clean, StartOf;
    Extractor.RowIsView(ScanOf(l), l.log, l.groups, k);
  }

  lemma TrustIsEnough(p: Pull, tars: seq<seq<TarItem>>, blobs: seq<Bytes>, saved: seq<map<Path, Extractor.Row>>,
                      serial: string -> int)
    requires Stored(p, tars, blobs, saved) && p.dst == LayerRowsOf(p.f, serial, blobs)
    requires Trustworthy(p.f, tars, serial, p.src, blobs)
    ensures Trusted(p)
  {
    PushedTogether(p.f, p.chunkSize, tars, p.layers, blobs, saved);
    forall i: nat | i < |p.rows| && p.rows[i].digest != "" ensures Canonical(p.rows[i].digest) {
      var _ := DigestOfRow(p, tars, blobs, saved, i);
    }
    forall a: TarItem | InPlay(p, a) ensures InTars(tars, a) {
      InPlayInTars(p, tars, blobs, saved, a);
    }
    hide Stored, InPlay, InTars, Canonical, OneToOne;
  }

  lemma InPlayInTars(p: Pull, tars: seq<seq<TarItem>>, blobs: seq<Bytes>, saved: seq<map<Path, Extractor.Row>>,
                     a: TarItem)
    requires Stored(p, tars, blobs, saved) && InPlay(p, a)
    ensures InTars(tars, a)
  {
    hide Keep, IsConverted, HoldsRows, FromDatabase;
    var i :| 0 <= i < |p.layers| && a in p.layers[i].log;
    assert a in Keep(tars[i]);
  }

  /** What the server made of its input. */
  ghost predicate Served(p: Pull, tars: seq<seq<TarItem>>, blobs: seq<Bytes>, saved: seq<map<Path, Extractor.Row>>,
                         requests: seq<Request>)
  {
    && Stored(p, tars, blobs, saved) && Computed(p) && InStackOrder(requests, |saved|)
    && (forall s :: s in p.available <==> exists i :: 0 <= i < |p.src| && p.src[i].serial == s)
    && (forall q :: q in requests && q.name in saved[q.stack] ==> Answered(q, p.rows))
  }

  /** The server's part: the rows are looked up, the builder runs, and the response is written. Under trust
      nothing fails. */
  method Serve(f: Format, ghost chunkSize: nat, ghost tars: seq<seq<TarItem>>, ghost layers: seq<Converted>,
               blobs: seq<Bytes>, saved: seq<map<Path, Extractor.Row>>, serial: string -> int, src: seq<LayerRow>,
               existing: seq<ExistingFile>, requests: seq<Request>, disableSorting: bool, maxRank: real, json: Json,
               manifest: Bytes, config: Bytes)
    returns (ok: bool, h: Headers, front: Bytes, body: Bytes, ghost p: Pull)
    requires Pushed(f, chunkSize, tars, layers, blobs, saved) && LawfulFormat(f)
    requires InStackOrder(requests, |tars|) && KnownFiles(src, existing)
    ensures Served(p, tars, blobs, saved, requests) && IsBest(existing, p.best)
    ensures p.f == f && p.chunkSize == chunkSize && p.src == src && |p.dst| == |tars|
    ensures p.dst == LayerRowsOf(f, serial, blobs)
    ensures p.maxRank == maxRank && (!disableSorting ==> RankOrdered(p.contents))
    ensures Trustworthy(f, tars, serial, src, blobs) ==> ok && Provided(p) && DigestsOk(p)
    ensures ok ==> Announced(f.z, h, front, Parts(manifest, config, json.encode(BundleOf(p))), p.bodyLength)
    ensures ok ==> body == Body(p.loaded, p.contents)
  {
    hide LawfulFormat, Pushed, DeltaOk, IsBest, Announced, Trusted, Copyable, Body, Provided, Registered, InStackOrder,
         KnownFiles;
    hide Fetchable, Loaded, Trustworthy, RankOrdered;
    PushedTogether(f, chunkSize, tars, layers, blobs, saved);
    h, front, body := Headers(0, 0, 0, 0), [], [];
    var dst := LayerRowsOf(f, serial, blobs);
    var registry := Register(f, blobs);
    var rows := Lookup(saved, dst, requests);
    var b, loaded, available, best := Build(f, src, dst, registry, existing, rows, disableSorting, maxRank);
    var files, contents := b.files, b.contents;
    p := Pull(f, chunkSize, src, dst, layers, rows, available, best, maxRank,
              files, contents, b.bodyLength, b.destination);
    StacksInImage(rows, available, best, maxRank, files, contents, b.bodyLength, |dst|);
    if Trustworthy(f, tars, serial, src, blobs) {
      TrustIsEnough(p, tars, blobs, saved, serial);
      CanLoad(p, tars, blobs, saved, registry);
      IsProvided(p, tars, blobs, saved, registry);
      CanCopy(p);
    }
    ok := loaded;
    if ok {
      var bundle := Bundle(dst, src, Wires(contents), seq(|files|, i requires 0 <= i < |files| => OnWire(files[i])));
      assert bundle == BundleOf(p);
      ok, h, front, body := Respond(f.z, json, manifest, config, bundle, b);
    }
  }

  lemma CanCopy(p: Pull)
    requires Provided(p) && DigestsOk(p) && Computed(p)
    ensures forall k :: 0 <= k < |p.contents| ==> Copyable(p.loaded, p.contents[k])
  {
    hide Provided, DigestsOk, Computed, Copyable, SoundContent;
    forall k: nat | k < |p.contents| ensures Copyable(p.loaded, p.contents[k]) {
      ContentIsSound(p, k);
    }
  }

  /** One pull of a pushed image. When serials and digests can be trusted, it goes through, uses up the
      response, and every file sent into a layer that is not skipped is on disk as in its tar; and what the
      client starts from, made of the decoded bundle alone, is the configuration of the pull. It also has the
      image's manifest and config. */
  method PullImage(f: Format, chunkSize: int, tars: seq<seq<TarItem>>, serial: string -> int, src: seq<LayerRow>,
                   existing: seq<ExistingFile>, requests: seq<Request>, disableSorting: bool, maxRank: real,
                   json: Json, manifest: Bytes, config: Bytes, skip: seq<bool>, disk: map<DiskPath, Bytes>)
    returns (pushed: bool, blobs: seq<Bytes>, image: Option<(Bytes, Bytes)>, view: Option<Config>, ok: bool,
             after: map<DiskPath, Bytes>, rest: Bytes, ghost p: Pull)
    requires LawfulFormat(f) && LawfulJson(json) && GoodTars(tars) && |skip| == |tars|
    requires InStackOrder(requests, |tars|) && KnownFiles(src, existing)
    ensures !pushed ==> !ok && exists i :: 0 <= i < |tars| && Unfit(f, ChunkSizeFor(chunkSize), tars[i])
    ensures pushed ==>
      && Concerns(p, f, chunkSize, tars, serial, blobs, src, requests) && Computed(p) && IsBest(existing, p.best)
      && p.maxRank == maxRank && (!disableSorting ==> RankOrdered(p.contents))
    ensures pushed && Trustworthy(f, tars, serial, src, blobs) ==>
      && Provided(p) && image == Some((manifest, config)) && view == Some(ClientConfig(p, skip, [], disk))
      && ok && rest == [] && Delivered(p, skip, after)
  {
    hide LawfulFormat, LawfulJson, GoodTars, Unfit, Pushed, Stored, Concerns, Computed, IsBest, Announced, Trustworthy,
         Body, Provided, DigestsOk;
    hide Delivered, WellAddressed, Parsed, ExtractFrom, InStackOrder, Answered, KnownFiles, BodyOf, DecodedConfig,
         ClientConfig, InPlace, Decompress, RankOrdered;
    image, view, ok, after, rest := None, None, false, disk, [];
    p := Pull(f, 0, src, [], [], [], {}, map[], maxRank, [], [], 0, []);
    var saved;
    ghost var layers;
    pushed, blobs, saved, layers := Push(f, chunkSize, tars);
    if !pushed {
      return;
    }
    var h, front, body;
    ok, h, front, body, p := Serve(f, ChunkSizeFor(chunkSize), tars, layers, blobs, saved, serial, src, existing,
                                   requests, disableSorting, maxRank, json, manifest, config);
    StoredConcerns(p, chunkSize, tars, serial, blobs, saved, requests);
    if !ok {
      return;
    }
    if Trustworthy(f, tars, serial, src, blobs) {
      var _ := GoesThrough(p, json, manifest, config, h, front, skip, disk);
    }
    image, view, ok, after, rest := Receive(f.z, json, h, front + body, skip, disk);
  }
}
