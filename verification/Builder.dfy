/** The delta builder on the proxy: which layers are available, what has to be sent, and the body. */
module Builder {
  import opened Basics
  import opened Toc
  import opened Delta
  import opened Sorting

  /** A row of GetLayers. */
  datatype LayerRow = LayerRow(serial: int, hash: string, size: nat)

  /** A layer of an image. Each image has its own objects, even for a layer both images contain. */
  datatype ImageLayer = ImageLayer(row: LayerRow, available: bool, blob: Option<Bytes>)

  function Fresh(rows: seq<LayerRow>): (r: seq<ImageLayer>)
    ensures |r| == |rows| && forall i :: 0 <= i < |rows| ==> r[i] == ImageLayer(rows[i], false, None)
  {
    seq(|rows|, i requires 0 <= i < |rows| => ImageLayer(rows[i], false, None))
  }

  datatype Origin = FromDestination | FromSource

  class Builder {
    var hasSource: bool
    var source: seq<ImageLayer>
    var destination: seq<ImageLayer>
    var unavailable: seq<nat>            // positions in `destination`
    const disableSorting: bool
    const maxRank: real                  // math.MaxFloat64

    var files: seq<RankedFile>           // b.RequestedFiles
    var contents: seq<Content>
    var bodyLength: nat

    /** NewBuilder, after the database lookups; `src` is None when no source image is named. */
    constructor (src: Option<seq<LayerRow>>, dst: seq<LayerRow>, disableSorting: bool, maxRank: real)
      ensures hasSource == src.Some? && this.maxRank == maxRank && this.disableSorting == disableSorting
      ensures |destination| == |dst|
        && (forall i :: 0 <= i < |dst| ==> destination[i] == ImageLayer(dst[i], false, None))
      ensures |source| == (if src.Some? then |src.value| else 0)
      ensures forall i :: 0 <= i < |source| ==> source[i] == ImageLayer(src.value[i], true, None)
      ensures forall i :: i in unavailable <==>
        0 <= i < |dst| && (src.Some? ==> forall j :: 0 <= j < |src.value| ==> src.value[j].hash != dst[i].hash)
      ensures files == [] && contents == [] && bodyLength == 0
    {
      this.disableSorting, this.maxRank := disableSorting, maxRank;
      hasSource := src.Some?;
      var s := if src.Some? then Fresh(src.value) else [];
      var d := Fresh(dst);
      var hashes: set<string> := if src.Some? then set i | 0 <= i < |src.value| :: src.value[i].hash else {};
      var missing: seq<nat> := [];
      var i := 0;
      while i < |dst|
        invariant 0 <= i <= |dst|
        invariant forall k :: k in missing <==> 0 <= k < i && dst[k].hash !in hashes
      {
        if dst[i].hash !in hashes {
          missing := missing + [i];
        }
        i := i + 1;
      }
      source := seq(|s|, k requires 0 <= k < |s| => s[k].(available := true));
      destination := d;
      unavailable := missing;
      files, contents, bodyLength := [], [], 0;
    }

    /** The serials the client already has, and which image they come from. */
    method AvailableIds() returns (ids: map<int, Origin>)
      ensures forall s :: s in ids <==>
        (exists i :: 0 <= i < |source| && source[i].available && source[i].row.serial == s)
        || (exists i :: 0 <= i < |destination| && destination[i].available && destination[i].row.serial == s)
      ensures (forall i :: 0 <= i < |destination| ==> !destination[i].available) ==>
        forall s :: s in ids ==> ids[s] == FromSource
    {
      ids := map[];
      var i := 0;
      while i < |source|
        invariant 0 <= i <= |source|
        invariant forall s :: s in ids <==> exists k :: 0 <= k < i && source[k].available && source[k].row.serial == s
        invariant forall s :: s in ids ==> ids[s] == FromSource
      {
        if source[i].available {
          ids := ids[source[i].row.serial := FromSource];
        }
        i := i + 1;
      }
      i := 0;
      while i < |destination|
        invariant 0 <= i <= |destination|
        invariant forall s :: s in ids <==>
          (exists k :: 0 <= k < |source| && source[k].available && source[k].row.serial == s)
          || (exists k :: 0 <= k < i && destination[k].available && destination[k].row.serial == s)
        invariant (forall k :: 0 <= k < i ==> !destination[k].available) ==>
          forall s :: s in ids ==> ids[s] == FromSource
      {
        if destination[i].available {
          ids := ids[destination[i].row.serial := FromDestination];
        }
        i := i + 1;
      }
    }

    /** Step 3 for a digest the client has: every file of the group refers to the chosen layer. */
    method SetReferences(g: seq<nat>, serial: int)
      requires InRange(g, |files|)
      modifies `files
      ensures |files| == |old(files)|
      ensures forall i :: 0 <= i < |files| ==>
        files[i] == if i in g then old(files)[i].(referenceFsId := serial) else old(files)[i]
    {
      var j := 0;
      while j < |g|
        invariant 0 <= j <= |g| && |files| == |old(files)|
        invariant forall i :: 0 <= i < |files| ==>
          files[i] == if i in g[..j] then old(files)[i].(referenceFsId := serial) else old(files)[i]
      {
        files := files[g[j] := files[g[j]].(referenceFsId := serial)];
        assert g[..j + 1] == g[..j] + [g[j]];
        j := j + 1;
      }
      assert g[..j] == g;
    }

    /** Step 3 for a digest that has to be sent: highest rank wins, lowest stack wins. */
    method NewContent(g: seq<nat>) returns (c: Content)
      requires g != [] && InRange(g, |files|)
      ensures c == Content(g, c.rank, c.stack, 0, 0, [], "") && LeastOf(files, g, c.stack, c.rank, maxRank)
    {
      var rank, stack := maxRank, files[g[0]].stack;
      var j := 0;
      while j < |g|
        invariant 0 <= j <= |g|
        invariant forall i :: 0 <= i < j ==> stack <= files[g[i]].stack && rank <= files[g[i]].rank
        invariant exists i :: 0 <= i < |g| && stack == files[g[i]].stack
        invariant rank == maxRank || exists i :: 0 <= i < |g| && rank == files[g[i]].rank
        invariant rank <= maxRank
      {
        if files[g[j]].rank < rank {
          rank := files[g[j]].rank;
        }
        if files[g[j]].stack < stack {
          stack := files[g[j]].stack;
        }
        j := j + 1;
      }
      c := Content(g, rank, stack, 0, 0, [], "");
    }

    /** Step 3 over the digests in any order: set references, or start a content. */
    method CollectContents(requested: map<string, seq<nat>>, best: map<string, int>, ghost available: set<int>)
      requires Grouped(files, available, requested, |files|)
      modifies `files, `contents
      ensures Referenced(old(files), available, best, {}, files)
      ensures CollectedAll(old(files), available, best, maxRank, contents) && Blank(contents)
    {
      hide Group, LeastOf, Eligible, Referenced, Collecting, Grouped;
      ghost var rows := files;
      contents := [];
      var todo := requested.Keys;
      StartCollecting(rows, available, best, maxRank, requested);
      while todo != {}
        invariant todo <= requested.Keys && |files| == |rows| && Blank(contents)
        invariant Referenced(rows, available, best, todo, files)
        invariant Collecting(rows, available, best, maxRank, requested.Keys - todo, contents)
        decreases |todo|
      {
        var d :| d in todo;
        ghost var before := files;
        GroupedMember(rows, available, requested, d);
        if d in best {
          SetReferences(requested[d], best[d]);
          ReferencedStep(rows, available, best, todo, before, files, requested[d], d);
          CollectingSkip(rows, available, best, maxRank, requested.Keys - todo, contents, d);
        } else {
          ReferencedSkip(rows, available, best, todo, files, d);
          var c := NewContent(requested[d]);
          LeastSame(rows, available, best, todo, files, requested[d], c, maxRank);
          CollectingStep(rows, available, best, maxRank, requested.Keys - todo, contents, c, d);
          contents := contents + [c];
        }
        assert requested.Keys - todo + {d} == requested.Keys - (todo - {d});
        todo := todo - {d};
      }
      assert requested.Keys - {} == requested.Keys;
      AllCollected(rows, available, best, maxRank, requested, contents);
    }

    /** sort.Sort(ByRank): some order with non-decreasing ranks; ties fall in any order. */
    method SortByRank(ghost available: set<int>, ghost best: map<string, int>, ghost rows: seq<RankedFile>)
      requires CollectedAll(rows, available, best, maxRank, contents) && Blank(contents)
      modifies `contents
      ensures CollectedAll(rows, available, best, maxRank, contents) && RankOrdered(contents) && Blank(contents)
    {
      hide CollectedAll;
      var sorted, order := SortBy(contents, (a: Content, b: Content) => a.rank <= b.rank);
      AnyOrder(rows, available, best, maxRank, contents, order, sorted);
      contents := sorted;
    }

    /** The last loop of computeDelta for one content: tell its files, place it, copy its chunks. */
    method PlaceContent(idx: nat)
      requires idx < |contents| && contents[idx].files != [] && InRange(contents[idx].files, |files|)
      requires contents[idx].size == 0 && contents[idx].chunks == []
      modifies `files, `contents, `bodyLength
      ensures var c := old(contents)[idx]; var f := old(files)[c.files[0]];
              && contents == old(contents)[idx := c.(offset := old(bodyLength), digest := f.digest,
                                                     chunks := FileChunks(f), size := Compressed(FileChunks(f)))]
              && bodyLength == old(bodyLength) + Compressed(FileChunks(f))
              && |files| == |old(files)|
              && (forall i :: 0 <= i < |files| ==> files[i] == Placed(old(files)[i], i in c.files, c.stack, idx))
    {
      var c := contents[idx];
      TellFiles(c.files, c.stack, idx);
      var first := files[c.files[0]];
      var chunks, size := CopyChunks(first);
      c := c.(offset := bodyLength, digest := first.digest, size := size, chunks := chunks);
      contents := contents[idx := c];
      bodyLength := bodyLength + c.size;
    }

    method TellFiles(g: seq<nat>, stack: nat, idx: nat)
      requires InRange(g, |files|)
      modifies `files
      ensures |files| == |old(files)|
      ensures forall i :: 0 <= i < |files| ==> files[i] == Placed(old(files)[i], i in g, stack, idx)
    {
      var j := 0;
      while j < |g|
        invariant 0 <= j <= |g| && |files| == |old(files)|
        invariant forall i :: 0 <= i < |files| ==> files[i] == Placed(old(files)[i], i in g[..j], stack, idx)
      {
        files := files[g[j] := files[g[j]].(referenceStack := stack, payloadOrder := idx)];
        assert g[..j + 1] == g[..j] + [g[j]];
        j := j + 1;
      }
      assert g[..j] == g;
    }

    method CopyChunks(f: RankedFile) returns (chunks: seq<FileChunk>, size: nat)
      ensures chunks == FileChunks(f) && size == Compressed(chunks)
    {
      if |f.chunks| > 0 {
        chunks, size := [], 0;
        var i := 0;
        while i < |f.chunks|
          invariant 0 <= i <= |f.chunks| && chunks == f.chunks[..i] && size == Compressed(chunks)
        {
          CompressedSnoc(chunks, f.chunks[i]);
          size := size + f.chunks[i].compressedSize;
          chunks := chunks + [f.chunks[i]];
          i := i + 1;
        }
      } else {
        chunks, size := [f.own], f.own.compressedSize;
        assert chunks[1..] == [];
      }
    }

    /** The last loop of computeDelta, over the contents in their final order. */
    method LayOut(ghost rows: seq<RankedFile>, ghost available: set<int>, ghost best: map<string, int>)
      requires CollectedAll(rows, available, best, maxRank, contents) && Referenced(rows, available, best, {}, files)
      requires Blank(contents)
      modifies `files, `contents, `bodyLength
      ensures DeltaOk(rows, available, best, maxRank, files, contents, bodyLength)
      ensures |contents| == |old(contents)| && forall k :: 0 <= k < |contents| ==>
        contents[k].rank == old(contents)[k].rank
    {
      hide CollectedAll, Referenced, Eligible, FileChunks;
      ghost var cs0 := contents;
      bodyLength := 0;
      var idx := 0;
      StartLayout(rows, available, best, maxRank, contents, files);
      while idx < |contents|
        invariant 0 <= idx <= |contents| == |cs0|
        invariant SameContents(cs0, contents, idx)
        invariant bodyLength == OffsetOf(contents, idx)
        invariant forall k :: 0 <= k < idx ==> LaidOut(rows, contents, k)
        invariant PlacedUpTo(rows, available, best, cs0, idx, files)
      {
        hide LaidOut, PlacedUpTo, OffsetOf, SameContents;
        ghost var cs, fs := contents, files;
        NextContent(rows, available, best, maxRank, cs0, contents, idx, files);
        PlaceContent(idx);
        LayoutStep(rows, cs0, cs, contents, idx);
        PlacedStep(rows, available, best, maxRank, cs0, idx, fs, files);
        idx := idx + 1;
      }
      LayoutDone(rows, available, best, maxRank, cs0, contents, files, bodyLength);
    }

    predicate IsAvailable(serial: int)
      reads this
    {
      || (exists i :: 0 <= i < |source| && source[i].available && source[i].row.serial == serial)
      || (exists i :: 0 <= i < |destination| && destination[i].available && destination[i].row.serial == serial)
    }

    /** computeDelta over the rows the database returns: `existing` in any order, `requested` as they
        come. No destination layer is marked available, as NewBuilder leaves them. */
    method ComputeDelta(existing: seq<ExistingFile>, requested: seq<RankedFile>)
      returns (ghost available: set<int>, ghost best: map<string, int>)
      requires forall i :: 0 <= i < |destination| ==> !destination[i].available
      requires forall i :: 0 <= i < |existing| ==> IsAvailable(existing[i].fsId)
      modifies `files, `contents, `bodyLength
      ensures forall s :: s in available <==> IsAvailable(s)
      ensures IsBest(existing, best)
      ensures DeltaOk(requested, available, best, maxRank, files, contents, bodyLength)
      ensures !disableSorting ==> RankOrdered(contents)
    {
      hide CollectedAll, Referenced, DeltaOk, IsBest, Grouped;
      var ids := AvailableIds();
      available := ids.Keys;
      var best' := FindBest(existing, ids);
      best := best';
      files := requested;
      var groups := GroupRequested(files, ids.Keys);
      CollectContents(groups, best', ids.Keys);
      if !disableSorting {
        SortByRank(ids.Keys, best', requested);
      }
      LayOut(requested, ids.Keys, best');
    }

    /** Load: every layer the client lacks is fetched from the registry, and must have the size recorded. */
    method Load(registry: map<string, Bytes>) returns (ok: bool)
      requires forall j :: 0 <= j < |unavailable| ==> unavailable[j] < |destination|
      modifies `destination
      ensures |destination| == |old(destination)|
      ensures forall i :: 0 <= i < |destination| ==>
        destination[i].row == old(destination)[i].row && destination[i].available == old(destination)[i].available
      ensures forall i: nat :: i < |destination| && i !in unavailable ==> destination[i] == old(destination)[i]
      ensures ok <==> forall j :: 0 <= j < |unavailable| ==> Fetchable(registry, destination[unavailable[j]].row)
      ensures ok ==> forall j :: 0 <= j < |unavailable| ==> Loaded(registry, destination[unavailable[j]])
    {
      var j := 0;
      while j < |unavailable|
        invariant 0 <= j <= |unavailable| && |destination| == |old(destination)|
        invariant forall i :: 0 <= i < |destination| ==>
          destination[i].row == old(destination)[i].row && destination[i].available == old(destination)[i].available
        invariant forall i: nat :: i < |destination| && i !in unavailable ==> destination[i] == old(destination)[i]
        invariant forall k :: 0 <= k < j ==> Loaded(registry, destination[unavailable[k]])
      {
        var i := unavailable[j];
        var row := destination[i].row;
        if row.hash !in registry || |registry[row.hash]| != row.size {
          return false;
        }
        destination := destination[i := destination[i].(blob := Some(registry[row.hash]))];
        j := j + 1;
      }
      ok := true;
    }

    /** WriteBody: for each content, its chunks copied out of its layer. */
    method WriteBody() returns (r: Result<Bytes>)
      requires forall k :: 0 <= k < |contents| ==> contents[k].stack < |destination|
      ensures r.Ok? <==> forall k :: 0 <= k < |contents| ==> Copyable(destination, contents[k])
      ensures r.Ok? ==> r.value == Body(destination, contents)
    {
      hide Body, ContentBytes;
      var out: Bytes := [];
      var k := 0;
      EmptyBody(destination, contents);
      while k < |contents|
        invariant 0 <= k <= |contents| && out == Body(destination, contents[..k])
        invariant forall i :: 0 <= i < k ==> Copyable(destination, contents[i])
      {
        var copied := WriteContent(destination, contents[k]);
        if copied.Err? {
          return Err;
        }
        assert contents[..k + 1] == contents[..k] + [contents[k]];
        BodySnoc(destination, contents[..k], contents[k]);
        out := out + copied.value;
        k := k + 1;
      }
      assert contents[..k] == contents;
      r := Ok(out);
    }
  }

  method WriteContent(dst: seq<ImageLayer>, c: Content) returns (r: Result<Bytes>)
    requires c.stack < |dst|
    ensures r.Ok? <==> Copyable(dst, c)
    ensures r.Ok? ==> r.value == ContentBytes(dst, c)
  {
    var layer := dst[c.stack];
    if layer.blob.None? {
      return Err;
    }
    hide Copied;
    var copied: Bytes := [];
    CopiedEnds(layer.blob.value, c.chunks);
    var i := 0;
    while i < |c.chunks|
      invariant 0 <= i <= |c.chunks| && copied == Copied(layer.blob.value, c.chunks, i)
      invariant forall j :: 0 <= j < i ==> InBlob(layer, c.chunks[j])
    {
      var chunk := c.chunks[i];
      if !InBlob(layer, chunk) {
        return Err;
      }
      CopiedMore(layer.blob.value, c.chunks, i);
      copied := copied + layer.blob.value[chunk.offset..chunk.offset + chunk.compressedSize];
      i := i + 1;
    }
    r := Ok(copied);
  }

  /** The bytes of the first `n` chunks. */
  function Copied(blob: Bytes, cs: seq<FileChunk>, n: nat): Bytes
    requires n <= |cs|
  {
    Flatten(ChunkBytes(blob, cs[..n]))
  }

  lemma CopiedEnds(blob: Bytes, cs: seq<FileChunk>)
    ensures Copied(blob, cs, 0) == [] && Copied(blob, cs, |cs|) == Flatten(ChunkBytes(blob, cs))
  {
    assert cs[..|cs|] == cs;
  }

  lemma CopiedMore(blob: Bytes, cs: seq<FileChunk>, n: nat)
    requires n < |cs|
    ensures Copied(blob, cs, n + 1) == Copied(blob, cs, n) + Cut(blob, cs[n])
  {
    assert cs[..n + 1] == cs[..n] + [cs[n]];
    ChunkBytesSnoc(blob, cs[..n], cs[n]);
  }

  lemma EmptyBody(dst: seq<ImageLayer>, cs: seq<Content>)
    ensures Body(dst, cs[..0]) == []
  {
  }

  /** Contents before layout: no chunks yet. */
  predicate Blank(cs: seq<Content>) {
    forall k :: 0 <= k < |cs| ==> cs[k].size == 0 && cs[k].chunks == []
  }

  /** The registry has the layer, in the size the database recorded. */
  predicate Fetchable(registry: map<string, Bytes>, row: LayerRow) {
    row.hash in registry && |registry[row.hash]| == row.size
  }

  /** The layer's blob is what the registry holds under its hash, of the size recorded. */
  predicate Loaded(registry: map<string, Bytes>, layer: ImageLayer) {
    layer.row.hash in registry && |registry[layer.row.hash]| == layer.row.size
      && layer.blob == Some(registry[layer.row.hash])
  }

  /** The chunk lies within the layer, read as a section of its recorded size. */
  predicate InBlob(layer: ImageLayer, c: FileChunk) {
    layer.blob.Some? && c.offset + c.compressedSize <= Min(layer.row.size, |layer.blob.value|)
  }

  predicate Copyable(dst: seq<ImageLayer>, c: Content) {
    c.stack < |dst| && dst[c.stack].blob.Some? && forall i :: 0 <= i < |c.chunks| ==> InBlob(dst[c.stack], c.chunks[i])
  }

  function Cut(blob: Bytes, c: FileChunk): Bytes {
    if c.offset + c.compressedSize <= |blob| then blob[c.offset..c.offset + c.compressedSize] else []
  }

  function ChunkBytes(blob: Bytes, cs: seq<FileChunk>): (r: seq<Bytes>)
    ensures |r| == |cs| && forall i :: 0 <= i < |cs| ==> r[i] == Cut(blob, cs[i])
  {
    seq(|cs|, i requires 0 <= i < |cs| => Cut(blob, cs[i]))
  }

  /** The bytes of one content in the body. */
  function ContentBytes(dst: seq<ImageLayer>, c: Content): Bytes {
    if c.stack < |dst| && dst[c.stack].blob.Some? then Flatten(ChunkBytes(dst[c.stack].blob.value, c.chunks)) else []
  }

  function BodyParts(dst: seq<ImageLayer>, cs: seq<Content>): (r: seq<Bytes>)
    ensures |r| == |cs| && forall k :: 0 <= k < |cs| ==> r[k] == ContentBytes(dst, cs[k])
  {
    seq(|cs|, k requires 0 <= k < |cs| => ContentBytes(dst, cs[k]))
  }

  /** The whole body. */
  function Body(dst: seq<ImageLayer>, cs: seq<Content>): Bytes {
    Flatten(BodyParts(dst, cs))
  }

  lemma ChunkBytesSnoc(blob: Bytes, cs: seq<FileChunk>, c: FileChunk)
    ensures Flatten(ChunkBytes(blob, cs + [c])) == Flatten(ChunkBytes(blob, cs)) + Cut(blob, c)
  {
    assert ChunkBytes(blob, cs + [c]) == ChunkBytes(blob, cs) + [Cut(blob, c)];
    FlattenSnoc(ChunkBytes(blob, cs), Cut(blob, c));
  }

  lemma BodySnoc(dst: seq<ImageLayer>, cs: seq<Content>, c: Content)
    ensures Body(dst, cs + [c]) == Body(dst, cs) + ContentBytes(dst, c)
  {
    assert BodyParts(dst, cs + [c]) == BodyParts(dst, cs) + [ContentBytes(dst, c)];
    FlattenSnoc(BodyParts(dst, cs), ContentBytes(dst, c));
  }

  /** A member of the content placed at `idx` learns its stack and order. */
  function Placed(f: RankedFile, member: bool, stack: nat, idx: nat): RankedFile {
    if member then f.(referenceStack := stack, payloadOrder := idx) else f
  }

  /** Step 1 of computeDelta over rows in any order. The code keeps the entry it has when the new serial
      is smaller; the other test in its condition never holds when no destination layer is available. */
  method FindBest(existing: seq<ExistingFile>, ids: map<int, Origin>) returns (best: map<string, int>)
    requires forall i :: 0 <= i < |existing| ==> existing[i].fsId in ids
    ensures (forall s :: s in ids ==> ids[s] == FromSource) ==> IsBest(existing, best)
  {
    best := map[];
    var i := 0;
    while i < |existing|
      invariant 0 <= i <= |existing|
      invariant (forall s :: s in ids ==> ids[s] == FromSource) ==> IsBest(existing[..i], best)
    {
      var f := existing[i];
      assert existing[..i + 1] == existing[..i] + [f];
      if !(f.digest in best && (f.fsId < best[f.digest] || ids[f.fsId] == FromDestination)) {
        BestUpdate(existing[..i], best, f);
        best := best[f.digest := f.fsId];
      } else if forall s :: s in ids ==> ids[s] == FromSource {
        BestKeep(existing[..i], best, f);
      }
      i := i + 1;
    }
    assert existing[..i] == existing;
  }

  lemma BestUpdate(existing: seq<ExistingFile>, best: map<string, int>, f: ExistingFile)
    ensures IsBest(existing, best) && (f.digest in best ==> best[f.digest] <= f.fsId)
            ==> IsBest(existing + [f], best[f.digest := f.fsId])
  {
    if IsBest(existing, best) && (f.digest in best ==> best[f.digest] <= f.fsId) {
      var more, best' := existing + [f], best[f.digest := f.fsId];
      forall d | d in best' ensures exists i :: 0 <= i < |more| && more[i] == ExistingFile(d, best'[d]) {
        if d == f.digest {
          assert more[|existing|] == ExistingFile(d, best'[d]);
        } else {
          var i :| 0 <= i < |existing| && existing[i] == ExistingFile(d, best[d]);
          assert more[i] == ExistingFile(d, best'[d]);
        }
      }
    }
  }

  lemma BestKeep(existing: seq<ExistingFile>, best: map<string, int>, f: ExistingFile)
    requires IsBest(existing, best) && f.digest in best && f.fsId < best[f.digest]
    ensures IsBest(existing + [f], best)
  {
    var more := existing + [f];
    forall d | d in best ensures exists i :: 0 <= i < |more| && more[i] == ExistingFile(d, best[d]) {
      var i :| 0 <= i < |existing| && existing[i] == ExistingFile(d, best[d]);
      assert more[i] == ExistingFile(d, best[d]);
    }
  }

  /** Step 2 of computeDelta: the eligible files by digest, each group in row order. */
  ghost predicate Grouped(files: seq<RankedFile>, available: set<int>, requested: map<string, seq<nat>>, n: nat)
    requires n <= |files|
  {
    && (forall d :: d in requested ==> requested[d] == Group(files, available, d, n) != [])
    && (forall d :: d !in requested ==> Group(files, available, d, n) == [])
  }

  method GroupRequested(files: seq<RankedFile>, available: set<int>) returns (requested: map<string, seq<nat>>)
    ensures Grouped(files, available, requested, |files|)
  {
    requested := map[];
    var i := 0;
    while i < |files|
      invariant 0 <= i <= |files| && Grouped(files, available, requested, i)
    {
      var f := files[i];
      if f.digest == "" || f.size == 0 || f.fsId in available {
      } else if f.digest in requested {
        requested := requested[f.digest := requested[f.digest] + [i]];
      } else {
        requested := requested[f.digest := [i]];
      }
      i := i + 1;
    }
  }

  function AfterReferences(row: RankedFile, available: set<int>, best: map<string, int>,
                           todo: set<string>): RankedFile
  {
    if Eligible(row, available) && row.digest in best && row.digest !in todo
    then row.(referenceFsId := best[row.digest]) else row
  }

  /** References have been set for the digests that are not in `todo`. */
  ghost predicate Referenced(rows: seq<RankedFile>, available: set<int>, best: map<string, int>, todo: set<string>,
                             files: seq<RankedFile>)
  {
    && |files| == |rows|
    && (forall i :: 0 <= i < |rows| ==> files[i] == AfterReferences(rows[i], available, best, todo))
  }

  /** Contents exist for exactly the missing digests in `seen`. */
  ghost predicate Collecting(rows: seq<RankedFile>, available: set<int>, best: map<string, int>, maxRank: real,
                             seen: set<string>, cs: seq<Content>)
  {
    && (forall k :: 0 <= k < |cs| ==>
          Collected(rows, available, best, maxRank, cs[k]) && rows[cs[k].files[0]].digest in seen)
    && (forall j, k :: 0 <= j < k < |cs| ==> rows[cs[j].files[0]].digest != rows[cs[k].files[0]].digest)
    && (forall d :: d in seen && d !in best ==> exists k :: 0 <= k < |cs| && rows[cs[k].files[0]].digest == d)
  }

  lemma StartCollecting(rows: seq<RankedFile>, available: set<int>, best: map<string, int>, maxRank: real,
                        requested: map<string, seq<nat>>)
    requires Grouped(rows, available, requested, |rows|)
    ensures Referenced(rows, available, best, requested.Keys, rows)
    ensures requested.Keys - requested.Keys == {} && Collecting(rows, available, best, maxRank, {}, [])
  {
    forall i | 0 <= i < |rows| && Eligible(rows[i], available) ensures rows[i].digest in requested {
      GroupMembers(rows, available, rows[i].digest, |rows|);
      assert i in Group(rows, available, rows[i].digest, |rows|);
    }
  }

  lemma GroupedMember(rows: seq<RankedFile>, available: set<int>, requested: map<string, seq<nat>>, d: string)
    requires Grouped(rows, available, requested, |rows|) && d in requested
    ensures requested[d] == Group(rows, available, d, |rows|) && requested[d] != [] && InRange(requested[d], |rows|)
    ensures rows[requested[d][0]].digest == d
    ensures forall i: nat :: i in requested[d] <==> i < |rows| && Eligible(rows[i], available) && rows[i].digest == d
  {
    GroupMembers(rows, available, d, |rows|);
    var g := requested[d];
    hide Group, Eligible;
    assert g == Group(rows, available, d, |rows|) && g[0] in g;
    forall i | 0 <= i < |g| ensures g[i] < |rows| {
      assert g[i] in g;
    }
  }

  lemma ReferencedStep(rows: seq<RankedFile>, available: set<int>, best: map<string, int>, todo: set<string>,
                       before: seq<RankedFile>, files: seq<RankedFile>, g: seq<nat>, d: string)
    requires Referenced(rows, available, best, todo, before) && d in todo && d in best
    requires forall i: nat :: i in g <==> i < |rows| && Eligible(rows[i], available) && rows[i].digest == d
    requires |files| == |before| && forall i :: 0 <= i < |files| ==>
      files[i] == if i in g then before[i].(referenceFsId := best[d]) else before[i]
    ensures Referenced(rows, available, best, todo - {d}, files)
  {
    hide Eligible;
  }

  lemma ReferencedSkip(rows: seq<RankedFile>, available: set<int>, best: map<string, int>, todo: set<string>,
                       files: seq<RankedFile>, d: string)
    requires Referenced(rows, available, best, todo, files) && d !in best
    ensures Referenced(rows, available, best, todo - {d}, files)
  {
    hide Eligible;
  }

  lemma LeastSame(rows: seq<RankedFile>, available: set<int>, best: map<string, int>, todo: set<string>,
                  files: seq<RankedFile>,
                  g: seq<nat>, c: Content, maxRank: real)
    requires Referenced(rows, available, best, todo, files) && InRange(g, |rows|)
      && LeastOf(files, g, c.stack, c.rank, maxRank)
    ensures LeastOf(rows, g, c.stack, c.rank, maxRank)
  {
    hide Eligible;
    assert forall i :: 0 <= i < |g| ==> files[g[i]].stack == rows[g[i]].stack && files[g[i]].rank == rows[g[i]].rank;
  }

  lemma CollectingSkip(rows: seq<RankedFile>, available: set<int>, best: map<string, int>, maxRank: real,
                       seen: set<string>, cs: seq<Content>, d: string)
    requires Collecting(rows, available, best, maxRank, seen, cs) && d in best
    ensures Collecting(rows, available, best, maxRank, seen + {d}, cs)
  {
    hide Collected;
  }

  lemma CollectingStep(rows: seq<RankedFile>, available: set<int>, best: map<string, int>, maxRank: real,
                       seen: set<string>, cs: seq<Content>, c: Content, d: string)
    requires Collecting(rows, available, best, maxRank, seen, cs) && d !in seen && d !in best
    requires c.files != [] && InRange(c.files, |rows|) && rows[c.files[0]].digest == d
    requires c.files == Group(rows, available, d, |rows|) && LeastOf(rows, c.files, c.stack, c.rank, maxRank)
    ensures Collecting(rows, available, best, maxRank, seen + {d}, cs + [c])
  {
    hide Group, LeastOf;
    var more := cs + [c];
    forall e | e in seen + {d} && e !in best ensures exists k :: 0 <= k < |more| && rows[more[k].files[0]].digest == e {
      if e == d {
        assert rows[more[|cs|].files[0]].digest == e;
      } else {
        var k :| 0 <= k < |cs| && rows[cs[k].files[0]].digest == e;
        assert more[k] == cs[k];
      }
    }
  }

  lemma AllCollected(rows: seq<RankedFile>, available: set<int>, best: map<string, int>, maxRank: real,
                     requested: map<string, seq<nat>>, cs: seq<Content>)
    requires Grouped(rows, available, requested, |rows|)
      && Collecting(rows, available, best, maxRank, requested.Keys, cs)
    ensures CollectedAll(rows, available, best, maxRank, cs)
  {
    hide Collected;
    forall i | 0 <= i < |rows| && Eligible(rows[i], available) && rows[i].digest !in best
      ensures rows[i].digest in requested
    {
      GroupMembers(rows, available, rows[i].digest, |rows|);
      assert i in Group(rows, available, rows[i].digest, |rows|);
    }
  }

  /** Everything said of the collected contents survives a change of order. */
  lemma AnyOrder(rows: seq<RankedFile>, available: set<int>, best: map<string, int>, maxRank: real,
                 cs: seq<Content>, order: seq<nat>, sorted: seq<Content>)
    requires CollectedAll(rows, available, best, maxRank, cs) && Rearranged(cs, sorted, order)
    ensures CollectedAll(rows, available, best, maxRank, sorted)
  {
    hide Eligible, LeastOf, Group;
    forall j, k | 0 <= j < k < |sorted| ensures rows[sorted[j].files[0]].digest != rows[sorted[k].files[0]].digest {
      assert order[j] < order[k] || order[k] < order[j];
    }
    forall i | 0 <= i < |rows| && Eligible(rows[i], available) && rows[i].digest !in best
      ensures exists k :: 0 <= k < |sorted| && rows[sorted[k].files[0]].digest == rows[i].digest
    {
      var k: nat :| k < |cs| && rows[cs[k].files[0]].digest == rows[i].digest;
      EveryPosition(order, |cs|, k);
      var j :| 0 <= j < |order| && order[j] == k;
      assert sorted[j] == cs[k];
    }
  }

  /** Layout changes neither members, stacks nor ranks, and has not touched contents from `idx` on. */
  predicate SameContents(cs0: seq<Content>, cs: seq<Content>, idx: nat) {
    && |cs| == |cs0|
    && (forall k :: 0 <= k < |cs| ==>
          cs[k].files == cs0[k].files && cs[k].stack == cs0[k].stack && cs[k].rank == cs0[k].rank)
    && (forall k :: idx <= k < |cs| ==> cs[k] == cs0[k])
  }

  /** Files of the first `idx` contents have been told their place; the others are as references left them. */
  ghost predicate PlacedUpTo(rows: seq<RankedFile>, available: set<int>, best: map<string, int>, cs: seq<Content>,
                             idx: nat, files: seq<RankedFile>)
  {
    && |files| == |rows| && idx <= |cs|
    && (forall i, k :: 0 <= i < |rows| && 0 <= k < idx && i in cs[k].files ==>
          files[i] == rows[i].(referenceStack := cs[k].stack, payloadOrder := k))
    && (forall i :: 0 <= i < |rows| && (forall k :: 0 <= k < idx ==> i !in cs[k].files) ==>
          files[i] == AfterReferences(rows[i], available, best, {}))
  }

  lemma StartLayout(rows: seq<RankedFile>, available: set<int>, best: map<string, int>, maxRank: real,
                    cs: seq<Content>, files: seq<RankedFile>)
    requires Referenced(rows, available, best, {}, files)
    ensures SameContents(cs, cs, 0) && PlacedUpTo(rows, available, best, cs, 0, files)
  {
  }

  /** Members of a content are exactly the eligible rows of its digest. */
  lemma MembersOf(rows: seq<RankedFile>, available: set<int>, best: map<string, int>, maxRank: real, c: Content)
    requires Collected(rows, available, best, maxRank, c)
    ensures rows[c.files[0]].digest !in best
    ensures forall i: nat :: i in c.files <==>
      i < |rows| && Eligible(rows[i], available) && rows[i].digest == rows[c.files[0]].digest
  {
    hide LeastOf, Eligible;
    GroupMembers(rows, available, rows[c.files[0]].digest, |rows|);
  }

  lemma NextContent(rows: seq<RankedFile>, available: set<int>, best: map<string, int>, maxRank: real,
                    cs0: seq<Content>, cs: seq<Content>, idx: nat, files: seq<RankedFile>)
    requires CollectedAll(rows, available, best, maxRank, cs0) && SameContents(cs0, cs, idx) && idx < |cs|
    requires PlacedUpTo(rows, available, best, cs0, idx, files)
    ensures cs[idx] == cs0[idx] && cs[idx].files != [] && InRange(cs[idx].files, |files|)
    ensures FileChunks(files[cs[idx].files[0]]) == FileChunks(rows[cs[idx].files[0]])
    ensures files[cs[idx].files[0]].digest == rows[cs[idx].files[0]].digest
  {
    assert Collected(rows, available, best, maxRank, cs0[idx]);
    SameData(rows, available, best, cs0, idx, files, cs[idx].files[0]);
  }

  /** Nothing done so far has changed what a file is. */
  lemma SameData(rows: seq<RankedFile>, available: set<int>, best: map<string, int>, cs: seq<Content>, idx: nat,
                 files: seq<RankedFile>, i: nat)
    requires PlacedUpTo(rows, available, best, cs, idx, files) && i < |rows|
    ensures Unreferenced(files[i]) == Unreferenced(rows[i])
  {
    hide Eligible;
    if k :| 0 <= k < idx && i in cs[k].files {
    }
  }

  lemma {:induction false} OffsetStable(cs: seq<Content>, cs': seq<Content>, k: nat)
    requires k <= |cs| == |cs'| && forall j :: 0 <= j < k ==> cs'[j].size == cs[j].size
    ensures OffsetOf(cs', k) == OffsetOf(cs, k)
    decreases k
  {
    if k > 0 {
      OffsetStable(cs, cs', k - 1);
    }
  }

  lemma LayoutStep(rows: seq<RankedFile>, cs0: seq<Content>, cs: seq<Content>, cs': seq<Content>, idx: nat)
    requires SameContents(cs0, cs, idx) && idx < |cs| && cs[idx].files != [] && cs[idx].files[0] < |rows|
    requires forall k :: 0 <= k < idx ==> LaidOut(rows, cs, k)
    requires var f := rows[cs[idx].files[0]];
             cs' == cs[idx := cs[idx].(offset := OffsetOf(cs, idx), digest := f.digest, chunks := FileChunks(f),
                     size := Compressed(FileChunks(f)))]
    ensures SameContents(cs0, cs', idx + 1)
    ensures OffsetOf(cs', idx + 1) == OffsetOf(cs, idx) + cs'[idx].size
    ensures forall k :: 0 <= k < idx + 1 ==> LaidOut(rows, cs', k)
  {
    forall k | 0 <= k < idx + 1 ensures LaidOut(rows, cs', k) {
      OffsetStable(cs, cs', k);
      if k < idx {
        assert LaidOut(rows, cs, k);
      }
    }
    OffsetStable(cs, cs', idx);
  }

  lemma PlacedStep(rows: seq<RankedFile>, available: set<int>, best: map<string, int>, maxRank: real, cs: seq<Content>,
                   idx: nat,
                   before: seq<RankedFile>, files: seq<RankedFile>)
    requires CollectedAll(rows, available, best, maxRank, cs) && idx < |cs|
    requires PlacedUpTo(rows, available, best, cs, idx, before)
    requires |files| == |before| && forall i :: 0 <= i < |files| ==>
      files[i] == Placed(before[i], i in cs[idx].files, cs[idx].stack, idx)
    ensures PlacedUpTo(rows, available, best, cs, idx + 1, files)
  {
    hide Eligible, LeastOf, Group;
    forall k | 0 <= k < |cs|
      ensures rows[cs[k].files[0]].digest !in best
      ensures forall i: nat :: i in cs[k].files <==>
        i < |rows| && Eligible(rows[i], available) && rows[i].digest == rows[cs[k].files[0]].digest
    {
      MembersOf(rows, available, best, maxRank, cs[k]);
    }
    hide Collected;
    forall i, k | 0 <= i < |rows| && 0 <= k < idx + 1 && i in cs[k].files
      ensures files[i] == rows[i].(referenceStack := cs[k].stack, payloadOrder := k)
    {
      if k < idx {
        assert i !in cs[idx].files;
      } else {
        forall j | 0 <= j < idx ensures i !in cs[j].files {
          assert rows[cs[j].files[0]].digest != rows[cs[idx].files[0]].digest;
        }
        assert before[i] == rows[i];
      }
    }
  }

  lemma LayoutDone(rows: seq<RankedFile>, available: set<int>, best: map<string, int>, maxRank: real, cs0: seq<Content>,
                   cs: seq<Content>, files: seq<RankedFile>, bodyLength: nat)
    requires CollectedAll(rows, available, best, maxRank, cs0) && SameContents(cs0, cs, |cs|)
    requires forall k :: 0 <= k < |cs| ==> LaidOut(rows, cs, k)
    requires bodyLength == OffsetOf(cs, |cs|) && PlacedUpTo(rows, available, best, cs0, |cs|, files)
      && |files| == |rows|
    ensures DeltaOk(rows, available, best, maxRank, files, cs, bodyLength)
  {
    CollectedSame(rows, available, best, maxRank, cs0, cs);
    hide CollectedAll, SameContents, LaidOut, PlacedUpTo, FileOk;
    forall i | 0 <= i < |rows| ensures FileOk(rows[i], files[i], available, best, cs) {
      FinalFile(rows, available, best, maxRank, cs0, cs, files, i);
    }
  }

  lemma CollectedSame(rows: seq<RankedFile>, available: set<int>, best: map<string, int>, maxRank: real,
                      cs0: seq<Content>, cs: seq<Content>)
    requires CollectedAll(rows, available, best, maxRank, cs0) && SameContents(cs0, cs, |cs|)
    ensures CollectedAll(rows, available, best, maxRank, cs)
  {
    hide Eligible, LeastOf, Group;
    forall k | 0 <= k < |cs| ensures Collected(rows, available, best, maxRank, cs[k]) {
      assert Collected(rows, available, best, maxRank, cs0[k]);
    }
    hide Collected;
    forall i | 0 <= i < |rows| && Eligible(rows[i], available) && rows[i].digest !in best
      ensures exists k :: 0 <= k < |cs| && rows[cs[k].files[0]].digest == rows[i].digest
    {
      var k :| 0 <= k < |cs0| && rows[cs0[k].files[0]].digest == rows[i].digest;
      assert cs[k].files == cs0[k].files;
    }
  }

  lemma FinalFile(rows: seq<RankedFile>, available: set<int>, best: map<string, int>, maxRank: real, cs0: seq<Content>,
                  cs: seq<Content>, files: seq<RankedFile>, i: nat)
    requires CollectedAll(rows, available, best, maxRank, cs0) && SameContents(cs0, cs, |cs|) && i < |rows|
    requires forall k :: 0 <= k < |cs| ==> LaidOut(rows, cs, k)
    requires PlacedUpTo(rows, available, best, cs0, |cs|, files)
    ensures FileOk(rows[i], files[i], available, best, cs)
  {
    hide Eligible, LeastOf, Group, FileChunks, Compressed, OffsetOf;
    forall k | 0 <= k < |cs|
      ensures rows[cs0[k].files[0]].digest !in best
      ensures i in cs0[k].files <==> Eligible(rows[i], available) && rows[i].digest == rows[cs0[k].files[0]].digest
    {
      MembersOf(rows, available, best, maxRank, cs0[k]);
    }
    hide Collected;
    if Eligible(rows[i], available) && rows[i].digest !in best {
      var k :| 0 <= k < |cs0| && rows[cs0[k].files[0]].digest == rows[i].digest;
      assert LaidOut(rows, cs, k) && i in cs0[k].files;
    } else {
      assert forall k :: 0 <= k < |cs| ==> i !in cs0[k].files;
    }
  }
}
