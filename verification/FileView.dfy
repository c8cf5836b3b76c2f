/** What it means for scanned entries to store a file, and that a written layer stores its files. */
module FileView {
  import opened Basics
  import opened Gzip
  import opened Toc
  import opened Layer
  import opened Paths
  import opened TocScan
  import opened Linking

  /** Where the next gzip boundary after an entry is: the offset of the next entry that has one. */
  function NextBoundary(ents: seq<Ent>, i: nat, size: nat): nat
    requires i <= |ents|
    decreases |ents| - i
  {
    if i == |ents| then size
    else if ents[i].e.offset != 0 then ents[i].e.offset
    else NextBoundary(ents, i + 1, size)
  }

  /** It is the first offset from `i` on that is not zero, or the end when there is none. */
  lemma {:induction false} BoundaryIs(ents: seq<Ent>, i: nat, j: nat, size: nat)
    requires i <= j <= |ents| && (forall k :: i <= k < j ==> ents[k].e.offset == 0)
    requires j < |ents| ==> ents[j].e.offset != 0
    ensures NextBoundary(ents, i, size) == if j < |ents| then ents[j].e.offset else size
    decreases j - i
  {
    if i < j {
      BoundaryIs(ents, i + 1, j, size);
    }
  }

  function AsChunk(e: TocEntry): FileChunk {
    FileChunk(e.offset, e.chunkOffset, e.chunkSize, e.compressedSize)
  }

  function View(ents: seq<Ent>, ids: seq<nat>): (r: seq<FileChunk>)
    requires forall i :: 0 <= i < |ids| ==> ids[i] < |ents|
    ensures |r| == |ids| && forall i :: 0 <= i < |ids| ==> r[i] == AsChunk(ents[ids[i]].e)
  {
    seq(|ids|, i requires 0 <= i < |ids| => AsChunk(ents[ids[i]].e))
  }

  /** The entries `ids` tile `data`, and the gzip stream of the last one reaches past its member. */
  ghost predicate Stores(f: Format, blob: Bytes, ents: seq<Ent>, data: Bytes, ids: seq<nat>) {
    && ids != [] && (forall i :: 0 <= i < |ids| ==> ids[i] < |ents|)
    && Tiles(f.z, blob, data, View(ents, ids), |data|)
    && EndOf(AsChunk(ents[ids[|ids| - 1]].e)) <= NextBoundary(ents, ids[|ids| - 1] + 1, |blob|) <= |blob|
  }

  /** The chunk list of a file, or the file's own entry when it has none (getChunks). */
  function GetChunks(s: Scan, id: nat): seq<nat>
    requires id < |s.ents|
  {
    if s.ents[id].path in s.chunks then s.chunks[s.ents[id].path] else [id]
  }

  lemma {:induction false} ScanKeepsEntries(s: Scan, toc: seq<TocEntry>)
    requires WellFormed(s)
    ensures var r := ScanFrom(s, toc);
            && |r.ents| == |s.ents| + |toc| && r.ents[..|s.ents|] == s.ents
            && (forall i :: 0 <= i < |toc| ==> r.ents[|s.ents| + i].e.(chunkSize := 0) == toc[i].(chunkSize := 0))
    decreases |toc|
  {
    if toc != [] {
      hide Clean, WellFormed;
      var t := Step(s, toc[0]);
      ScanKeepsEntries(t, toc[1..]);
      var r := ScanFrom(t, toc[1..]);
      assert t.ents == s.ents + [t.ents[|s.ents|]];
      assert r.ents[|s.ents|] == r.ents[..|t.ents|][|s.ents|] == t.ents[|s.ents|];
      forall i | 0 <= i < |toc| ensures r.ents[|s.ents| + i].e.(chunkSize := 0) == toc[i].(chunkSize := 0) {
        if i > 0 {
          assert r.ents[|t.ents| + (i - 1)].e.(chunkSize := 0) == toc[1..][i - 1].(chunkSize := 0);
        }
      }
      assert r.ents[..|s.ents|] == r.ents[..|t.ents|][..|s.ents|] == s.ents;
    }
  }

  predicate SameOffsets(ents: seq<Ent>, toc: seq<TocEntry>) {
    |ents| == |toc| && forall i :: 0 <= i < |toc| ==> ents[i].e.offset == toc[i].offset
  }

  lemma {:induction false} BoundaryAfter(ents: seq<Ent>, toc: seq<TocEntry>, end: nat, size: nat, i: nat, j: nat)
    requires Ordered(toc, end) && end <= size && SameOffsets(ents, toc)
    requires i < j <= |toc| && toc[i].offset != 0
    ensures toc[i].offset + toc[i].compressedSize <= NextBoundary(ents, j, size) <= size
    decreases |toc| - j
  {
    if j < |toc| && ents[j].e.offset == 0 {
      BoundaryAfter(ents, toc, end, size, i, j + 1);
    }
  }

  lemma WrittenScan(f: Format, cs: nat, log: seq<TarItem>, groups: seq<seq<TocEntry>>, blob: Bytes, tocOff: nat)
    requires Written(f, cs, log, groups, blob, tocOff) && DistinctNames(log)
    ensures var s := ScanFrom(START, Flatten(groups));
      ScanOk(s, log, groups, |log|) && SameOffsets(s.ents, Flatten(groups))
  {
    assert |log| == |groups|;
    hide ScanFrom, Flatten, Ordered, TableOk, ScanOk, DistinctNames;
    assert groups[..|groups|] == groups;
    ScanWritten(f, cs, blob, log, groups, |log|);
    var toc := Flatten(groups);
    var s := ScanFrom(START, toc);
    ScanKeepsEntries(START, toc);
    forall i | 0 <= i < |toc| ensures s.ents[i].e.offset == toc[i].offset {
      assert s.ents[|START.ents| + i].e.(chunkSize := 0) == toc[i].(chunkSize := 0);
    }
  }

  /** The last entry of a group in the flattened table. */
  lemma LastOfGroup(groups: seq<seq<TocEntry>>, k: nat)
    requires k < |groups| && groups[k] != []
    ensures StartOf(groups, k) + |groups[k]| <= |Flatten(groups)|
    ensures Flatten(groups)[StartOf(groups, k) + |groups[k]| - 1] == groups[k][|groups[k]| - 1]
  {
    FlattenAt(groups, k);
    var start, g := StartOf(groups, k), groups[k];
    assert Flatten(groups)[start..start + |g|][|g| - 1] == g[|g| - 1];
  }

  lemma GroupStores(f: Format, cs: nat, blob: Bytes, s: Scan, log: seq<TarItem>, groups: seq<seq<TocEntry>>, k: nat)
    requires k < |log| == |groups| && cs > 0 && GroupOk(f, cs, blob, log[k], groups[k]) && HasPayload(log[k].h)
    requires Located(s, log, groups, k)
    ensures GetChunks(s, StartOf(groups, k)) == Ids(StartOf(groups, k), |groups[k]|)
    ensures View(s.ents, Ids(StartOf(groups, k), |groups[k]|)) == RestoredAll(groups[k], |log[k].data|)
    ensures groups[k][|groups[k]| - 1].offset != 0
  {
    hide StartOf, Clean, Tiles;
    MultiChunk(f, cs, blob, log[k], groups[k]);
    var g := groups[k];
    assert RecordOk(f, cs, log[k].h, log[k].data, g[|g| - 1], |g| == 1);
  }

  lemma LocatedStores(f: Format, cs: nat, blob: Bytes, s: Scan, log: seq<TarItem>, groups: seq<seq<TocEntry>>,
                      tocOff: nat, k: nat)
    requires k < |log| == |groups| && cs > 0 && GroupOk(f, cs, blob, log[k], groups[k]) && HasPayload(log[k].h)
    requires Located(s, log, groups, k) && SameOffsets(s.ents, Flatten(groups))
    requires Ordered(Flatten(groups), tocOff) && tocOff <= |blob|
    ensures Stores(f, blob, s.ents, log[k].data, Ids(StartOf(groups, k), |groups[k]|))
  {
    hide Flatten, StartOf, Ordered, Clean, Tiles, SameOffsets, RestoredAll, RecordsOk;
    assert Tiles(f.z, blob, log[k].data, RestoredAll(groups[k], |log[k].data|), |log[k].data|);
    assert groups[k] != [];
    assert s.ents[StartOf(groups, k) + |groups[k]| - 1].e == Explicit(groups[k][|groups[k]| - 1], groups[k][0].size);
    hide GroupOk, PartialGroup, Located;
    LastOfGroup(groups, k);
    GroupStores(f, cs, blob, s, log, groups, k);
    var last := StartOf(groups, k) + |groups[k]| - 1;
    assert |s.ents| == |Flatten(groups)| by { SameLength(s.ents, Flatten(groups)); }
    BoundaryAfter(s.ents, Flatten(groups), tocOff, |blob|, last, last + 1);
    var ids := Ids(StartOf(groups, k), |groups[k]|);
    assert ids[|ids| - 1] == last;
  }

  lemma SameLength(ents: seq<Ent>, toc: seq<TocEntry>)
    requires SameOffsets(ents, toc)
    ensures |ents| == |toc| && forall i :: 0 <= i < |toc| ==> ents[i].e.offset == toc[i].offset
  {
  }

  /** In a written layer, the chunk list found for a regular file stores exactly that file. */
  lemma WrittenStores(f: Format, cs: nat, log: seq<TarItem>, groups: seq<seq<TocEntry>>, blob: Bytes, tocOff: nat,
                      k: nat)
    requires Written(f, cs, log, groups, blob, tocOff) && DistinctNames(log)
    requires k < |log| && HasPayload(log[k].h)
    ensures var s := ScanFrom(START, Flatten(groups));
            && Located(s, log, groups, k)
            && GetChunks(s, StartOf(groups, k)) == Ids(StartOf(groups, k), |groups[k]|)
            && Stores(f, blob, s.ents, log[k].data, Ids(StartOf(groups, k), |groups[k]|))
  {
    hide ScanFrom, Flatten, StartOf, Ordered, DistinctNames, GroupOk, Located, Clean;
    WrittenScan(f, cs, log, groups, blob, tocOff);
    assert GroupOk(f, cs, blob, log[k], groups[k]);
    var s := ScanFrom(START, Flatten(groups));
    assert Located(s, log, groups, k);
    hide TableOk, NothingElse, ScanOk, Stores, SameOffsets, Ids, View, RestoredAll;
    GroupStores(f, cs, blob, s, log, groups, k);
    LocatedStores(f, cs, blob, s, log, groups, tocOff, k);
  }

  /** In a written layer each chunk of a file carries the digest of its own bytes. */
  lemma ChunkDigests(f: Format, cs: nat, log: seq<TarItem>, groups: seq<seq<TocEntry>>, blob: Bytes, tocOff: nat,
                     k: nat, i: nat)
    requires Written(f, cs, log, groups, blob, tocOff) && DistinctNames(log)
    requires k < |log| && HasPayload(log[k].h) && i < |groups[k]|
    ensures var s := ScanFrom(START, Flatten(groups));
            && StartOf(groups, k) + i < |s.ents|
            && var e := s.ents[StartOf(groups, k) + i].e;
               && 0 < e.chunkSize && e.chunkOffset + e.chunkSize <= |log[k].data|
               && e.chunkDigest == f.sha(log[k].data[e.chunkOffset..e.chunkOffset + e.chunkSize])
  {
    hide ScanFrom, Flatten, StartOf, Ordered, DistinctNames, Clean, GroupOk, Explicit;
    WrittenScan(f, cs, log, groups, blob, tocOff);
    assert GroupOk(f, cs, blob, log[k], groups[k]) && Located(ScanFrom(START, Flatten(groups)), log, groups, k);
    hide TableOk, ScanOk;
    GroupDigests(f, cs, blob, log[k], groups[k], i);
  }

  lemma GroupDigests(f: Format, cs: nat, blob: Bytes, it: TarItem, g: seq<TocEntry>, i: nat)
    requires cs > 0 && GroupOk(f, cs, blob, it, g) && HasPayload(it.h) && i < |g|
    ensures var e := Explicit(g[i], g[0].size);
            && 0 < e.chunkSize && e.chunkOffset + e.chunkSize <= |it.data|
            && e.chunkDigest == f.sha(it.data[e.chunkOffset..e.chunkOffset + e.chunkSize])
  {
    assert RecordOk(f, cs, it.h, it.data, g[i], i == 0) && RecordOk(f, cs, it.h, it.data, g[0], true);
    assert Holds(f.z, blob, it.data, RestoredAll(g, |it.data|)[i]);
  }

  /** Distinct tar names make every entry but the chunks the one its name denotes. */
  lemma WrittenUnique(f: Format, cs: nat, log: seq<TarItem>, groups: seq<seq<TocEntry>>, blob: Bytes, tocOff: nat)
    requires Written(f, cs, log, groups, blob, tocOff) && DistinctNames(log)
    ensures var s := ScanFrom(START, Flatten(groups)); Unique(s.ents, s.m)
  {
    hide ScanFrom, Ordered, Clean, Flatten, StartOf, Explicit;
    WrittenScan(f, cs, log, groups, blob, tocOff);
    var s := ScanFrom(START, Flatten(groups));
    SameLength(s.ents, Flatten(groups));
    forall i | 0 <= i < |s.ents| && s.ents[i].e.kind != Chunk
      ensures s.ents[i].path in s.m && s.m[s.ents[i].path] == i
    {
      var k := FlattenFind(groups, i);
      assert GroupOk(f, cs, blob, log[k], groups[k]);
      assert Located(s, log, groups, k);
      KindInGroup(f, cs, blob, log[k], groups[k], i - StartOf(groups, k));
    }
  }

  lemma KindInGroup(f: Format, cs: nat, blob: Bytes, it: TarItem, g: seq<TocEntry>, r: nat)
    requires cs > 0 && GroupOk(f, cs, blob, it, g) && r < |g|
    ensures r > 0 ==> Explicit(g[r], g[0].size).kind == Chunk
    ensures Explicit(g[r], g[0].size).kind == g[r].kind
  {
    if r > 0 {
      LaterOfGroup(f, cs, blob, it, g, r);
    }
  }

  /** Over the whole table, the members that entries point at follow one another without overlap. */
  lemma OffsetsIncrease(f: Format, cs: nat, log: seq<TarItem>, groups: seq<seq<TocEntry>>, blob: Bytes, tocOff: nat,
                        i: nat, j: nat)
    requires Lawful(f.z) && Written(f, cs, log, groups, blob, tocOff) && i < j < |Flatten(groups)|
    requires Flatten(groups)[i].offset != 0 && Flatten(groups)[j].offset != 0
    ensures 0 < Flatten(groups)[i].compressedSize
    ensures Flatten(groups)[i].offset + Flatten(groups)[i].compressedSize <= Flatten(groups)[j].offset
  {
    hide Flatten, StartOf;
    var k := FlattenFind(groups, i);
    var g, r := groups[k], i - StartOf(groups, k);
    assert GroupOk(f, cs, blob, log[k], g);
    if HasPayload(log[k].h) {
      var v := RestoredAll(g, |log[k].data|);
      assert Holds(f.z, blob, log[k].data, v[r]);
    }
  }

  /** The gzip stream from the start of chunk `k` to the boundary after the file. */
  function StreamFrom(blob: Bytes, ents: seq<Ent>, ids: seq<nat>, k: nat): Bytes
    requires ids != [] && k < |ids| && forall i :: 0 <= i < |ids| ==> ids[i] < |ents|
    requires ents[ids[k]].e.offset <= NextBoundary(ents, ids[|ids| - 1] + 1, |blob|) <= |blob|
  {
    blob[ents[ids[k]].e.offset..NextBoundary(ents, ids[|ids| - 1] + 1, |blob|)]
  }

  /** Decoding from the start of any chunk gives the file from that chunk's offset on. */
  lemma ReadFromChunk(f: Format, blob: Bytes, ents: seq<Ent>, data: Bytes, ids: seq<nat>, k: nat, n: nat)
    requires Lawful(f.z) && Stores(f, blob, ents, data, ids) && k < |ids|
    requires ents[ids[k]].e.chunkOffset + n <= |data|
    ensures ents[ids[k]].e.offset <= NextBoundary(ents, ids[|ids| - 1] + 1, |blob|)
    ensures ReadStream(f.z, StreamFrom(blob, ents, ids, k), n)
         == Some(data[ents[ids[k]].e.chunkOffset..ents[ids[k]].e.chunkOffset + n])
  {
    hide NextBoundary, Flatten, Deflated, Pieces, ReadStream, Lawful, Holds;
    var v := View(ents, ids);
    var next := NextBoundary(ents, ids[|ids| - 1] + 1, |blob|);
    var end := EndOf(v[|v| - 1]);
    TilesInRange(f.z, blob, data, v);
    var ps := Pieces(data, v, k);
    PiecesCover(f.z, blob, data, v, k);
    PiecesMembers(f.z, blob, data, v, k);
    hide Tiles, Stores;
    ReadStreamMembers(f.z, ps, blob[end..next], n);
    SliceJoin(blob, v[k].offset, end, next);
    assert StreamFrom(blob, ents, ids, k) == Flatten(Deflated(f.z, ps)) + blob[end..next];
    var co := v[k].chunkOffset;
    assert Flatten(ps)[..n] == data[co..co + n];
  }

  lemma TilesInRange(z: Codec, blob: Bytes, data: Bytes, v: seq<FileChunk>)
    requires Tiles(z, blob, data, v, |data|)
    ensures forall i :: 0 <= i < |v| ==> 0 < v[i].chunkSize && v[i].chunkOffset + v[i].chunkSize <= |data|
  {
    assert forall i :: 0 <= i < |v| ==> Holds(z, blob, data, v[i]);
  }

  /** The chunk at position `k` is the one that holds byte `offset`, and no other does. */
  predicate ChunkHolds(v: seq<FileChunk>, k: nat, offset: nat) {
    k < |v| && v[k].chunkOffset <= offset < v[k].chunkOffset + v[k].chunkSize
  }

  lemma ChunkUnique(z: Codec, blob: Bytes, data: Bytes, v: seq<FileChunk>, j: nat, k: nat, offset: nat)
    requires Tiles(z, blob, data, v, |data|) && ChunkHolds(v, j, offset) && ChunkHolds(v, k, offset)
    ensures j == k
  {
    if j < k {
      TilesOrdered(z, blob, data, v, |data|, j, k);
    } else if k < j {
      TilesOrdered(z, blob, data, v, |data|, k, j);
    }
  }

  /** The first chunk whose end is past `offset` holds it. */
  lemma FirstPastHolds(z: Codec, blob: Bytes, data: Bytes, v: seq<FileChunk>, k: nat, offset: nat)
    requires Tiles(z, blob, data, v, |data|) && k <= |v| && v != []
    requires k > 0 ==> v[k - 1].chunkOffset + v[k - 1].chunkSize <= offset
    requires k < |v| ==> offset < v[k].chunkOffset + v[k].chunkSize
    ensures k < |v| <==> offset < |data|
    ensures k < |v| ==> ChunkHolds(v, k, offset)
  {
    if k == |v| {
    } else {
      assert Holds(z, blob, data, v[k]);
      if k > 0 {
        assert v[k - 1 + 1].chunkOffset == v[k - 1].chunkOffset + v[k - 1].chunkSize;
      }
    }
  }
}
