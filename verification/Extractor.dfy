/** Saving a converted layer: each named entry is stored together with its list of chunks. */
module Extractor {
  import opened Basics
  import opened Toc
  import opened Layer
  import opened Paths
  import opened TocScan
  import opened FileView

  /** What the database keeps of one entry. */
  datatype Row = Row(entry: TocEntry, chunks: seq<FileChunk>)

  /** The chunks a file's content is read from: its list, or the entry itself when there is none. */
  function ContentChunks(r: Row): seq<FileChunk> {
    if r.chunks != [] then r.chunks else [AsChunk(r.entry)]
  }

  function ChunkViews(es: seq<TocEntry>): (r: seq<FileChunk>)
    ensures |r| == |es| && forall i :: 0 <= i < |es| ==> r[i] == AsChunk(es[i])
  {
    seq(|es|, i requires 0 <= i < |es| => AsChunk(es[i]))
  }

  function RowAt(entries: map<Path, TocEntry>, chunks: map<Path, seq<TocEntry>>, p: Path): Row
    requires p in entries
  {
    Row(entries[p], if p in chunks then ChunkViews(chunks[p]) else [])
  }

  /** Every entry, with no chunks yet, visited in any order. */
  method BufferEntries(entries: map<Path, TocEntry>) returns (buffer: map<Path, Row>)
    ensures buffer.Keys == entries.Keys && forall p :: p in entries ==> buffer[p] == Row(entries[p], [])
  {
    buffer := map[];
    var todo := entries.Keys;
    while todo != {}
      invariant todo <= entries.Keys && buffer.Keys == entries.Keys - todo
      invariant forall p :: p in buffer ==> buffer[p] == Row(entries[p], [])
      decreases |todo|
    {
      var p :| p in todo;
      buffer := buffer[p := Row(entries[p], [])];
      todo := todo - {p};
    }
  }

  /** The join in saveLayer, over two maps visited in any order. A chunk list without an entry makes the
      program dereference a nil entry, here the error result. */
  method SaveLayer(entries: map<Path, TocEntry>, chunks: map<Path, seq<TocEntry>>) returns (r: Result<map<Path, Row>>)
    ensures r.Ok? <==> chunks.Keys <= entries.Keys
    ensures r.Ok? ==> r.value.Keys == entries.Keys && forall p :: p in entries ==>
      r.value[p] == RowAt(entries, chunks, p)
  {
    hide ChunkViews;
    var buffer := BufferEntries(entries);
    var todo := chunks.Keys;
    while todo != {}
      invariant todo <= chunks.Keys && chunks.Keys - todo <= entries.Keys && buffer.Keys == entries.Keys
      invariant forall p :: p in entries ==>
        buffer[p] == if p in todo then Row(entries[p], []) else RowAt(entries, chunks, p)
      decreases |todo|
    {
      var p :| p in todo;
      if p !in buffer {
        return Err;
      }
      buffer := buffer[p := buffer[p].(chunks := buffer[p].chunks + ChunkViews(chunks[p]))];
      todo := todo - {p};
    }
    r := Ok(buffer);
  }

  /** The maps GetTOC hands over after a scan: entries by name, chunk lists by name. */
  function EntryMap(s: Scan): map<Path, TocEntry>
    requires WellFormed(s)
  {
    map p | p in s.m :: s.ents[s.m[p]].e
  }

  function EntriesOf(s: Scan, ids: seq<nat>): (r: seq<TocEntry>)
    requires forall i :: 0 <= i < |ids| ==> ids[i] < |s.ents|
    ensures |r| == |ids| && forall i :: 0 <= i < |ids| ==> r[i] == s.ents[ids[i]].e
  {
    seq(|ids|, i requires 0 <= i < |ids| => s.ents[ids[i]].e)
  }

  function ChunkMap(s: Scan): map<Path, seq<TocEntry>>
    requires WellFormed(s)
  {
    map p | p in s.chunks :: EntriesOf(s, s.chunks[p])
  }

  /** The row saved for name `p`. */
  function SavedRow(s: Scan, p: Path): Row
    requires WellFormed(s) && p in s.m
  {
    RowAt(EntryMap(s), ChunkMap(s), p)
  }

  /** What a header says of its entry, whatever kind it is. */
  predicate Describes(h: TarHeader, e: TocEntry) {
    && e.name == h.name
    && (h.flag == TypeDir ==> e.kind == Dir && e.size == 0 && e.linkName == "")
    && (h.flag == TypeReg ==> e.kind == Reg && e.size == h.size && e.linkName == "")
    && (h.flag == TypeSymlink ==> e.kind == Symlink && e.size == 0 && e.linkName == h.linkName)
    && (h.flag == TypeLink ==> e.kind == Hardlink && e.size == 0 && e.linkName == h.linkName)
    && (h.flag == TypeChar ==> e.kind == CharDevice && e.size == 0 && e.linkName == "")
    && (h.flag == TypeBlock ==> e.kind == BlockDevice && e.size == 0 && e.linkName == "")
    && (h.flag == TypeFifo ==> e.kind == Fifo && e.size == 0 && e.linkName == "")
    && h.flag != TypeOther
  }

  /** The row saved for any entry of a written layer is what its header says, and carries a digest if and
      only if it is a regular file, namely that of its data. */
  lemma WrittenEntry(f: Format, cs: nat, log: seq<TarItem>, groups: seq<seq<TocEntry>>, blob: Bytes, tocOff: nat,
                     k: nat)
    requires Written(f, cs, log, groups, blob, tocOff) && DistinctNames(log) && k < |log|
    ensures log[k].Item? && var s := ScanFrom(START, Flatten(groups));
            && Clean(log[k].h.name) in s.m
            && var e := SavedRow(s, Clean(log[k].h.name)).entry;
               Describes(log[k].h, e) && e.digest == if log[k].h.flag == TypeReg then f.sha(log[k].data) else ""
  {
    hide ScanFrom, Ordered, Clean, Flatten, StartOf, Tiles, DistinctNames;
    WrittenScan(f, cs, log, groups, blob, tocOff);
    var s := ScanFrom(START, Flatten(groups));
    assert GroupOk(f, cs, blob, log[k], groups[k]) && Located(s, log, groups, k);
    if HasPayload(log[k].h) {
      assert RecordOk(f, cs, log[k].h, log[k].data, groups[k][0], true);
    }
    RowIsView(s, log, groups, k);
    hide Located;
  }

  /** The row saved for a regular file of a written layer lists chunks that tile the file, and carries
      its size and digest. No chunk list is without an entry, so saving succeeds. */
  lemma WrittenRow(f: Format, cs: nat, log: seq<TarItem>, groups: seq<seq<TocEntry>>, blob: Bytes, tocOff: nat, k: nat)
    requires Written(f, cs, log, groups, blob, tocOff) && DistinctNames(log)
    requires k < |log| && HasPayload(log[k].h)
    ensures var s := ScanFrom(START, Flatten(groups));
            && ChunkMap(s).Keys <= EntryMap(s).Keys
            && Clean(log[k].h.name) in s.m
            && var row := SavedRow(s, Clean(log[k].h.name));
               && row.entry.digest == f.sha(log[k].data) && row.entry.size == |log[k].data|
               && Tiles(f.z, blob, log[k].data, ContentChunks(row), |log[k].data|)
  {
    hide ScanFrom, Ordered, Clean, Flatten, StartOf, Tiles, DistinctNames;
    WrittenScan(f, cs, log, groups, blob, tocOff);
    WrittenStores(f, cs, log, groups, blob, tocOff, k);
    var s := ScanFrom(START, Flatten(groups));
    var ids := Ids(StartOf(groups, k), |groups[k]|);
    var data := log[k].data;
    assert Tiles(f.z, blob, data, View(s.ents, ids), |data|);
    assert GroupOk(f, cs, blob, log[k], groups[k]);
    MultiChunk(f, cs, blob, log[k], groups[k]);
    RowIsView(s, log, groups, k);
  }

  lemma RowIsView(s: Scan, log: seq<TarItem>, groups: seq<seq<TocEntry>>, k: nat)
    requires WellFormed(s) && k < |log| == |groups| && log[k].Item? && groups[k] != [] && Located(s, log, groups, k)
    ensures SavedRow(s, Clean(log[k].h.name)).entry == Explicit(groups[k][0], groups[k][0].size)
    ensures ContentChunks(SavedRow(s, Clean(log[k].h.name))) == View(s.ents, Ids(StartOf(groups, k), |groups[k]|))
  {
    hide Clean, StartOf, Explicit;
    var path, g := Clean(log[k].h.name), groups[k];
    var ids := Ids(StartOf(groups, k), |g|);
    var row := SavedRow(s, path);
    if |g| > 1 {
      assert row.chunks == ChunkViews(EntriesOf(s, ids));
      assert row.chunks == View(s.ents, ids);
    } else {
      assert row.chunks == [];
      assert View(s.ents, ids) == [AsChunk(row.entry)];
    }
  }
}
