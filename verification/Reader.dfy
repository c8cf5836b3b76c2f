/** The stargz reader: rebuilds implicit fields, the directory tree and the gzip boundaries, and reads
    any range of any file. */
module Reader {
  import opened Basics
  import opened Gzip
  import opened Toc
  import opened Layer
  import opened Paths
  import opened TocScan
  import opened DirTree
  import opened Linking
  import opened FileView
  import Footer

  const MAX_GZ_READ := 0x20_0000

  function ReadTable(f: Format, targz: Bytes): Result<seq<TocEntry>> {
    match f.z.inflate(targz)
    case None => Err
    case Some(m) =>
      match f.readToc(m.payload)
      case None => Err
      case Some(toc) => Ok(toc)
  }

  /** OpenStargz up to the decoded entries: footer, first member of the table's gzip stream, JSON. */
  function OpenToc(f: Format, blob: Bytes): Result<seq<TocEntry>> {
    if |blob| < Footer.FOOTER_SIZE then Err
    else match Footer.ParseFooter(blob[|blob| - Footer.FOOTER_SIZE..])
      case FooterInfo(Offset(off), size) =>
        if off < 0 || off > |blob| - size then Err
        else ReadTable(f, blob[off..|blob| - size])
      case _ => Err
  }

  /** A closed layer opens to exactly the entries the writer recorded. */
  lemma OpenWritten(f: Format, cs: nat, log: seq<TarItem>, groups: seq<seq<TocEntry>>, blob: Bytes, tocOff: nat)
    requires LawfulFormat(f) && Written(f, cs, log, groups, blob, tocOff) && tocOff < Footer.INT64_LIMIT
    ensures OpenToc(f, blob) == Ok(Flatten(groups))
  {
    hide TableOk, Ordered, Flatten, Footer.FooterBytes, Footer.ParseFooter;
    var toc := Flatten(groups);
    var m := f.z.deflate(f.TocTar(toc));
    var footer := Footer.FooterBytes(tocOff);
    assert blob[tocOff..] == m + footer;
    assert blob[|blob| - Footer.FOOTER_SIZE..] == blob[tocOff..][|m|..] == footer;
    Footer.FooterRoundTrip(tocOff);
    assert blob[tocOff..|blob| - Footer.FOOTER_SIZE] == blob[tocOff..][..|m|] == m;
    assert m + [] == m;
  }

  function NodeOf(en: Ent): Node {
    Node(en.path, en.e.kind, en.e.linkName)
  }

  /** What the first pass leaves: the scan, and a tree without links. */
  ghost predicate Scanned(ents: seq<Ent>, m: map<Path, nat>, d: Dirs) {
    && d.m == m && Shape(d) && |d.nodes| == |ents|
    && (forall p :: p in m ==> m[p] < |ents| && ents[m[p]].path == p && ents[m[p]].e.kind != Chunk)
    && (forall i :: 0 <= i < |ents| ==>
          && d.nodes[i] == NodeOf(ents[i]) && d.children[i] == map[]
          && d.numLink[i] == if ents[i].e.kind == Dir then 1 else 0)
  }

  lemma ScannedIsTree(ents: seq<Ent>, m: map<Path, nat>, d: Dirs)
    requires Scanned(ents, m, d)
    ensures TreeInv(d, |ents|, {})
  {
    forall p | p in d.m ensures CountOk(d, |ents|, {}, p) {
      assert HardNames(d, {}, d.m[p]) == {} && SubDirs(d, {}, p) == {};
    }
  }

  /** Bytes, or what is left of them before the end of the file, or an error. */
  datatype ReadResult = Data(bytes: Bytes) | EndOfFile(bytes: Bytes) | InvalidOffset | Broken

  class Reader {
    const f: Format
    const blob: Bytes
    const toc: seq<TocEntry>

    var ents: seq<Ent>
    var chunks: map<Path, seq<nat>>
    var dirs: Dirs                  // r.m, with the link counts and children of its entries
    var nextOffset: seq<nat>

    constructor (f: Format, blob: Bytes, toc: seq<TocEntry>)
      ensures this.f == f && this.blob == blob && this.toc == toc
    {
      this.f, this.blob, this.toc := f, blob, toc;
      ents, chunks, dirs, nextOffset := [], map[], Dirs(map[], [], [], []), [];
    }

    /** First pass of initFields for one entry. */
    method ScanEntry(entry: TocEntry, last: Path, reg: Option<nat>) returns (lastPath: Path, lastReg: Option<nat>)
      requires WellFormed(Scan(ents, dirs.m, chunks, last, reg)) && Scanned(ents, dirs.m, dirs)
      modifies `ents, `chunks, `dirs
      ensures Scan(ents, dirs.m, chunks, lastPath, lastReg)
         == Step(Scan(old(ents), old(dirs).m, old(chunks), last, reg), entry)
      ensures Scanned(ents, dirs.m, dirs)
    {
      hide Clean, Scanned;
      ghost var d0, ents0 := dirs, ents;
      var e, i := entry, |ents|;
      lastPath, lastReg := last, reg;
      if e.kind == Chunk {
        chunks := chunks[lastPath := ChunksFor(lastPath) + [i]];
        if e.chunkSize == 0 && lastReg.Some? {
          e := e.(chunkSize := ents[lastReg.value].e.size - e.chunkOffset);
        }
      } else {
        lastPath := Clean(e.name);
        dirs := dirs.(m := dirs.m[lastPath := i]);
      }
      if e.kind == Reg {
        lastReg := Some(i);
        if 0 < e.chunkSize < e.size {
          chunks := chunks[lastPath := [i]];
        }
      }
      if e.chunkSize == 0 {
        e := e.(chunkSize := e.size);
      }
      ents := ents + [Ent(lastPath, e)];
      dirs := dirs.(nodes := dirs.nodes + [Node(lastPath, e.kind, e.linkName)],
                    numLink := dirs.numLink + [if e.kind == Dir then 1 else 0],
                    children := dirs.children + [map[]]);
      ScannedSnoc(ents0, d0, Ent(lastPath, e));
    }

    function ChunksFor(p: Path): seq<nat>
      reads `chunks
    {
      if p in chunks then chunks[p] else []
    }

    /** First pass of initFields. */
    method ScanEntries()
      modifies `ents, `chunks, `dirs
      ensures var s := ScanFrom(START, toc); ents == s.ents && chunks == s.chunks && dirs.m == s.m
      ensures Scanned(ents, dirs.m, dirs)
    {
      hide Scanned, ScanFrom, Step;
      ents, chunks, dirs := [], map[], Dirs(map[], [], [], []);
      var lastPath: Path, lastReg: Option<nat> := [], None;
      var i := 0;
      EmptyScan(toc);
      while i < |toc|
        invariant 0 <= i <= |toc|
        invariant Scan(ents, dirs.m, chunks, lastPath, lastReg) == ScanFrom(START, toc[..i])
        invariant Scanned(ents, dirs.m, dirs)
      {
        assert toc[..i + 1] == toc[..i] + [toc[i]];
        ScanSnoc(START, toc[..i], toc[i]);
        lastPath, lastReg := ScanEntry(toc[i], lastPath, lastReg);
        i := i + 1;
      }
      assert toc[..i] == toc;
    }

    /** getOrCreateDir. */
    method GetOrCreateDir(q: Path) returns (id: nat)
      requires Shape(dirs)
      modifies `dirs
      ensures dirs == Create(old(dirs), q) && id == dirs.m[q]
      decreases |q|
    {
      if q in dirs.m {
        return dirs.m[q];
      }
      id := |dirs.nodes|;
      dirs := NewDir(dirs, q);
      if q != [] {
        var parent := GetOrCreateDir(Parent(q));
        dirs := AddChild(dirs, parent, BaseName(q), id);
      }
    }

    /** Second pass of initFields for one entry. */
    method AddToParent(i: nat) returns (ok: bool)
      requires Arena(dirs, ents) && i < |ents| && ents[i].path != []
      modifies `dirs
      ensures ok == LinkEntry(old(dirs), i, ents[i].path).Some?
      ensures ok ==> dirs == LinkEntry(old(dirs), i, ents[i].path).value && Arena(dirs, ents)
    {
      hide Clean, Create;
      var name := ents[i].path;
      var parent := GetOrCreateDir(Parent(name));
      ghost var d1 := dirs;
      dirs := dirs.(numLink := dirs.numLink[i := dirs.numLink[i] + 1]);
      var child := i;
      if ents[i].e.kind == Hardlink {
        if Clean(ents[i].e.linkName) !in dirs.m {
          return false;
        }
        child := dirs.m[Clean(ents[i].e.linkName)];
        dirs := dirs.(numLink := dirs.numLink[child := dirs.numLink[child] + 1]);
      }
      assert child == TargetOf(d1, i) && dirs == CountEntry(d1, i);
      dirs := AddChild(dirs, parent, BaseName(name), child);
      ok := true;
    }

    /** Second pass of initFields: every entry but the chunks and the root becomes a child. */
    method LinkEntries() returns (ok: bool)
      requires Arena(dirs, ents)
      modifies `dirs
      ensures ok == LinkFrom(old(dirs), ents, 0).Some?
      ensures ok ==> dirs == LinkFrom(old(dirs), ents, 0).value
    {
      hide LinkEntry, Arena;
      ArenaShape(dirs, ents);
      var i := 0;
      ok := true;
      while i < |ents|
        invariant 0 <= i <= |ents| <= |dirs.nodes| && Shape(dirs) && Arena(dirs, ents) && ok
        invariant LinkFrom(old(dirs), ents, 0) == LinkFrom(dirs, ents, i)
      {
        if ents[i].e.kind != Chunk && ents[i].path != [] {
          ok := AddToParent(i);
          if !ok {
            return;
          }
          ArenaShape(dirs, ents);
        }
        i := i + 1;
      }
    }

    /** Third pass of initFields: from the last entry back to the first. */
    method SetNextOffsets()
      modifies `nextOffset
      ensures |nextOffset| == |ents|
      ensures forall i :: 0 <= i < |ents| && ents[i].e.kind in {Reg, Chunk} ==>
        nextOffset[i] == NextBoundary(ents, i + 1, |blob|)
    {
      nextOffset := seq(|ents|, _ => 0);
      var lastOffset := |blob|;
      var i := |ents|;
      while i > 0
        invariant 0 <= i <= |ents| == |nextOffset|
        invariant lastOffset == NextBoundary(ents, i, |blob|)
        invariant forall j :: i <= j < |ents| && ents[j].e.kind in {Reg, Chunk} ==>
          nextOffset[j] == NextBoundary(ents, j + 1, |blob|)
      {
        i := i - 1;
        if ents[i].e.kind == Reg || ents[i].e.kind == Chunk {
          nextOffset := nextOffset[i := lastOffset];
        }
        if ents[i].e.offset != 0 {
          lastOffset := ents[i].e.offset;
        }
      }
    }

    /** What initFields establishes for the readers below. */
    ghost predicate Ready()
      reads this
    {
      && |ents| == |nextOffset| && |ents| <= |dirs.nodes| && Shape(dirs)
      && (var s := ScanFrom(START, toc); ents == s.ents && chunks == s.chunks && Extends(s.m, dirs.m))
      && (forall i :: 0 <= i < |ents| ==> dirs.nodes[i] == NodeOf(ents[i]))
      && (forall i :: 0 <= i < |ents| && ents[i].e.kind in {Reg, Chunk} ==>
            nextOffset[i] == NextBoundary(ents, i + 1, |blob|))
    }

    /** initFields. When it succeeds on distinct names, the directory tree is complete: every name
        but the root is a child of its parent, every added name is an ancestor of a name in the
        table, and every link count is accounted for. It fails if and only if a hard link's target is
        neither in the table nor implied by the entries up to the link. */
    method InitFields() returns (ok: bool)
      modifies this
      ensures ok ==> Ready()
      ensures ok && Unique(ents, ScanFrom(START, toc).m) ==> TreeInv(dirs, |ents|, dirs.m.Keys - {[]})
      ensures ok ==> forall p :: p in dirs.m && p !in ScanFrom(START, toc).m ==>
        dirs.m[p] >= |ents| && exists j :: 0 <= j < |ents| && p < ents[j].path
      ensures var s := ScanFrom(START, toc); !ok <==> exists j :: 0 <= j < |s.ents| && Dangling(s.m, s.ents, j)
    {
      hide TreeInv, Unique, Clean, ScanFrom;
      ScanEntries();
      ghost var d0 := dirs;
      ok := LinkEntries();
      SecondPass(ents, d0);
      if ok {
        SetNextOffsets();
      }
    }

    /** sort.Search: a position where the predicate turns from false to true. */
    static method Search(n: nat, p: nat --> bool) returns (k: nat)
      requires forall h: nat :: h < n ==> p.requires(h)
      ensures k <= n && (k > 0 ==> !p(k - 1)) && (k < n ==> p(k))
    {
      var j := n;
      k := 0;
      while k < j
        invariant 0 <= k <= j <= n
        invariant (k > 0 ==> !p(k - 1)) && (j < n ==> p(j))
      {
        var h := (k + j) / 2;
        if !p(h) {
          k := h + 1;
        } else {
          j := h;
        }
      }
    }

    /** Lookup. The target of a hard link is looked up by its name as written. */
    function Lookup(name: string): (r: Option<nat>)
      reads `dirs
      requires Shape(dirs)
      ensures r.Some? ==> r.value < |dirs.nodes|
    {
      var p := Clean(name);
      if p !in dirs.m then None
      else
        var n := dirs.nodes[dirs.m[p]];
        if n.kind != Hardlink then Some(dirs.m[p])
        else if AsCleaned(n.linkName) && Clean(n.linkName) in dirs.m then Some(dirs.m[Clean(n.linkName)])
        else None
    }

    /** The chunk list of an entry (getChunks). */
    function Chunks(id: nat): (r: seq<nat>)
      reads this
      requires Ready() && id < |ents|
      ensures r == GetChunks(ScanFrom(START, toc), id)
      ensures forall i :: 0 <= i < |r| ==> r[i] < |ents|
    {
      if ents[id].path in chunks then chunks[ents[id].path] else [id]
    }

    /** The chunk that ReadAt starts decoding at: one that begins at or before the offset. */
    method StartChunk(ids: seq<nat>, off: nat) returns (k: Option<nat>)
      requires ids != [] && forall i :: 0 <= i < |ids| ==> ids[i] < |ents|
      ensures k.Some? ==> k.value < |ids| && ents[ids[k.value]].e.chunkOffset <= off
      ensures k.None? ==> ents[ids[0]].e.chunkOffset > 0
    {
      var i := 0;
      if |ids| > 1 {
        var v := View(ents, ids);
        i := Search(|v|, (h: nat) requires h < |v| => v[h].chunkOffset >= off);
        if i == |v| {
          i := |v| - 1;
        }
      }
      if ents[ids[i]].e.chunkOffset > off {
        if i == 0 {
          return None;
        }
        i := i - 1;
      }
      k := Some(i);
    }

    /** The gzip stream that ReadAt decodes: up to the boundary after the file, read ahead at first. */
    method Stream(start: nat, last: nat, n: nat) returns (r: Option<Bytes>)
      requires Ready() && last < |ents| && ents[last].e.kind in {Reg, Chunk}
      ensures var next := NextBoundary(ents, last + 1, |blob|);
              start <= next <= |blob| ==> r == ReadStream(f.z, blob[start..next], n)
    {
      hide ScanFrom, NextBoundary, Clean, ReadStream;
      var next := nextOffset[last];
      if next < start || Min(next, |blob|) - start < Min(MAX_GZ_READ, next - start) {
        return None;
      }
      r := ReadStream(f.z, blob[start..Min(next, |blob|)], n);
    }

    /** fileReader.ReadAt over the chunks `ids` of a file of `size` bytes: whichever chunk the search
        starts from, the bytes are those of the file. */
    method ReadAt(ids: seq<nat>, size: nat, n: nat, off: int) returns (r: ReadResult)
      requires Ready() && ids != [] && forall i :: 0 <= i < |ids| ==> ids[i] < |ents|
      requires ents[ids[|ids| - 1]].e.kind in {Reg, Chunk}
      ensures off >= size ==> r == EndOfFile([])
      ensures off < size && off < 0 ==> r == InvalidOffset
      ensures forall data: Bytes ::
        (Lawful(f.z) && Stores(f, blob, ents, data, ids) && |data| == size && 0 <= off < size && off + n <= size
         ==> r == Data(data[off..off + n]))
    {
      hide ScanFrom, NextBoundary, Stores, Lawful, ReadStream, Ready, StreamFrom;
      if off >= size {
        return EndOfFile([]);
      }
      if off < 0 {
        return InvalidOffset;
      }
      var k := StartChunk(ids, off);
      if k.None? {
        forall data: Bytes | Stores(f, blob, ents, data, ids) ensures false {
          FirstChunkAtZero(f, blob, ents, data, ids);
        }
        return Broken;
      }
      var start := ents[ids[k.value]].e;
      var within := off - start.chunkOffset;
      var decoded := Stream(start.offset, ids[|ids| - 1], within + n);
      if decoded.None? || |decoded.value| < within {
        r := Broken;
      } else {
        r := Data(decoded.value[within..]);
      }
      forall data: Bytes | Lawful(f.z) && Stores(f, blob, ents, data, ids) && |data| == size && off + n <= size
        ensures r == Data(data[off..off + n])
      {
        DecodedRange(f, blob, ents, data, ids, k.value, within, n);
      }
    }

    /** ReadAt of the section reader that OpenFile wraps around the file: it ends at the file's size. */
    method ReadSection(ids: seq<nat>, size: nat, n: nat, off: int) returns (r: ReadResult)
      requires Ready() && ids != [] && forall i :: 0 <= i < |ids| ==> ids[i] < |ents|
      requires ents[ids[|ids| - 1]].e.kind in {Reg, Chunk}
      ensures forall data: Bytes :: Lawful(f.z) && Stores(f, blob, ents, data, ids) && |data| == size ==>
        RangeRead(r, data, n, off)
      ensures off < 0 || off >= size ==> r == EndOfFile([])
    {
      hide Ready, Stores, Lawful;
      if off < 0 || off >= size {
        return EndOfFile([]);
      }
      r := ReadAt(ids, size, Min(n, size - off), off);
      if n > size - off && r.Data? {
        r := EndOfFile(r.bytes);
      }
    }

    /** The search result is the one chunk in `ids` that holds byte `offset`, or none past the end; a
        negative offset finds the first. */
    predicate Found(r: Option<nat>, ids: seq<nat>, offset: int, size: nat)
      reads this
      requires ids != [] && forall i :: 0 <= i < |ids| ==> ids[i] < |ents|
    {
      if offset >= size then r.None?
      else if offset < 0 then r == Some(ids[0])
      else r.Some? && exists k: nat :: k < |ids| && ids[k] == r.value && ChunkHolds(View(ents, ids), k, offset)
    }

    /** ChunkEntryForOffset. A name with a chunk list finds the one chunk that holds the byte, and none past
        the end; a name without one, such as that of a hard link, finds the entry itself. */
    method ChunkEntryForOffset(name: string, offset: int) returns (r: Option<nat>)
      requires Ready()
      ensures r.Some? ==> r.value < |ents|
      ensures Lookup(name).None? || Lookup(name).value >= |ents| || ents[Lookup(name).value].e.kind !in {Reg, Chunk} ==>
        r.None?
      ensures forall id: nat :: Lookup(name) == Some(id) && id < |ents| && ents[id].e.kind in {Reg, Chunk} ==>
        if |ChunksFor(Clean(name))| < 2 then r == if offset < ents[id].e.chunkSize then Some(id) else None
        else forall data: Bytes :: Stores(f, blob, ents, data, ChunksFor(Clean(name))) ==>
          Found(r, ChunksFor(Clean(name)), offset, |data|)
      ensures forall id: nat, data: Bytes ::
        (Lookup(name) == Some(id) && id < |ents| && ents[id].e.kind == Reg && ents[id].path == Clean(name)
         && Stores(f, blob, ents, data, Chunks(id)) && (Clean(name) in chunks ==> |Chunks(id)| > 1)
         ==> Found(r, Chunks(id), offset, |data|))
    {
      hide ScanFrom, NextBoundary, Clean, Render;
      var e := Lookup(name);
      if e.None? || e.value >= |ents| || (ents[e.value].e.kind != Reg && ents[e.value].e.kind != Chunk) {
        return None;
      }
      ChunkIdsBounded();
      var list := ChunksFor(Clean(name));
      if |list| < 2 {
        r := if offset >= ents[e.value].e.chunkSize then None else Some(e.value);
        forall data: Bytes | Stores(f, blob, ents, data, [e.value]) ensures Found(r, [e.value], offset, |data|) {
          OneChunk(f, blob, ents, data, e.value);
          assert r.Some? && offset >= 0 ==> [e.value][0] == r.value && ChunkHolds(View(ents, [e.value]), 0, offset);
        }
        return;
      }
      r := SearchChunks(list, offset);
    }

    method SearchChunks(list: seq<nat>, offset: int) returns (r: Option<nat>)
      requires list != [] && forall i :: 0 <= i < |list| ==> list[i] < |ents|
      ensures r.Some? ==> r.value < |ents|
      ensures forall data: Bytes :: Stores(f, blob, ents, data, list) ==> Found(r, list, offset, |data|)
    {
      hide NextBoundary, Stores;
      var v := View(ents, list);
      var i := Search(|v|, (h: nat) requires h < |v| =>
        v[h].chunkOffset >= offset || v[h].chunkOffset < offset < v[h].chunkOffset + v[h].chunkSize);
      r := if i == |list| then None else Some(list[i]);
      forall data: Bytes | Stores(f, blob, ents, data, list) ensures Found(r, list, offset, |data|) {
        SearchedChunk(f, blob, ents, data, list, i, offset);
      }
    }

    /** OpenFile followed by ReadAt. From a closed layer whose tar entries have distinct names, every
        range of every regular file reads back as the bytes that were in the tar, and nothing else can be
        read. Through a hard link the same is read as from its target, if the link's target is written as
        it is when cleaned, and nothing otherwise. */
    method ReadFile(name: string, n: nat, off: int) returns (r: Result<ReadResult>)
      requires Ready()
      ensures forall cs: nat, log: seq<TarItem>, groups: seq<seq<TocEntry>>, tocOff: nat, k: nat ::
        (Lawful(f.z) && Written(f, cs, log, groups, blob, tocOff) && toc == Flatten(groups) && DistinctNames(log)
         && k < |log| && log[k].h.flag != TypeLink && Clean(log[k].h.name) == Clean(name)
         ==> ItemRead(r, log[k], n, off))
      ensures forall cs: nat, log: seq<TarItem>, groups: seq<seq<TocEntry>>, tocOff: nat, j: nat, k: nat ::
        (Lawful(f.z) && Written(f, cs, log, groups, blob, tocOff) && toc == Flatten(groups) && DistinctNames(log)
         && LinksTo(log, j, k) && Clean(log[j].h.name) == Clean(name)
         ==> if AsCleaned(log[j].h.linkName) then ItemRead(r, log[k], n, off) else r.Err?)
      ensures Lookup(name).None? ==> r.Err?
    {
      hide ScanFrom, NextBoundary, Clean, Flatten, Written, Lawful, Stores;
      var e := Lookup(name);
      forall cs: nat, log: seq<TarItem>, groups: seq<seq<TocEntry>>, tocOff: nat, k: nat
        | Written(f, cs, log, groups, blob, tocOff) && toc == Flatten(groups) && DistinctNames(log)
          && k < |log| && log[k].h.flag != TypeLink && Clean(log[k].h.name) == Clean(name)
        ensures e.Some? && FoundAs(e.value, log[k])
      {
        FoundUnderName(name, cs, log, groups, tocOff, k);
      }
      forall cs: nat, log: seq<TarItem>, groups: seq<seq<TocEntry>>, tocOff: nat, j: nat, k: nat
        | Written(f, cs, log, groups, blob, tocOff) && toc == Flatten(groups) && DistinctNames(log)
          && LinksTo(log, j, k) && Clean(log[j].h.name) == Clean(name)
        ensures if AsCleaned(log[j].h.linkName) then e.Some? && FoundAs(e.value, log[k]) else e.None?
      {
        FoundThroughLink(name, cs, log, groups, tocOff, j, k);
      }
      if e.None? || e.value >= |ents| || ents[e.value].e.kind != Reg {
        return Err;
      }
      var ids := Chunks(e.value);
      if ids == [] || (ents[ids[|ids| - 1]].e.kind != Reg && ents[ids[|ids| - 1]].e.kind != Chunk) {
        return Err;
      }
      var d := ReadSection(ids, ents[e.value].e.size, n, off);
      r := Ok(d);
    }

    /** What reading an item of the tar gives: an error, unless it is a regular file. */
    static predicate ItemRead(r: Result<ReadResult>, it: TarItem, n: nat, off: int)
      requires it.Item?
    {
      if it.h.flag == TypeReg then r.Ok? && RangeRead(r.value, it.data, n, off) else r.Err?
    }

    /** Reading `n` bytes of `data` at `off`: outside, or the range as far as the file goes. */
    static predicate RangeRead(r: ReadResult, data: Bytes, n: nat, off: int) {
      r == if off < 0 || off >= |data| then EndOfFile([])
           else if off + n <= |data| then Data(data[off..off + n])
           else EndOfFile(data[off..])
    }

    /** Entry `id` is a regular file and its chunks store `data`, if there is any. */
    ghost predicate IsStored(id: nat, data: Bytes)
      reads this
      requires Ready()
    {
      && id < |ents| && ents[id].e.kind == Reg && ents[id].e.size == |data|
      && Chunks(id) != [] && (data != [] ==> Stores(f, blob, ents, data, Chunks(id)))
      && ents[Chunks(id)[|Chunks(id)| - 1]].e.kind in {Reg, Chunk}
    }

    /** Entry `id` is that of the tar item. */
    ghost predicate FoundAs(id: nat, it: TarItem)
      reads this
      requires Ready() && it.Item?
    {
      if it.h.flag == TypeReg then IsStored(id, it.data) else id < |ents| && ents[id].e.kind != Reg
    }

    lemma FoundEntry(cs: nat, log: seq<TarItem>, groups: seq<seq<TocEntry>>, tocOff: nat, k: nat)
      requires Ready() && Written(f, cs, log, groups, blob, tocOff) && toc == Flatten(groups) && DistinctNames(log)
      requires k < |log|
      ensures var p := Clean(log[k].h.name);
              && p in dirs.m && FoundAs(dirs.m[p], log[k]) && dirs.m[p] < |dirs.nodes|
              && (dirs.nodes[dirs.m[p]].kind == Hardlink <==> log[k].h.flag == TypeLink)
              && (log[k].h.flag == TypeLink ==> dirs.nodes[dirs.m[p]].linkName == log[k].h.linkName)
    {
      hide ScanFrom, NextBoundary, Clean, Flatten, DistinctNames, Stores, Ordered, StartOf, View;
      if HasPayload(log[k].h) {
        WrittenStores(f, cs, log, groups, blob, tocOff, k);
        WrittenKinds(f, cs, log, groups, blob, tocOff, k);
      } else {
        WrittenOther(f, cs, log, groups, blob, tocOff, k);
        hide Written;
      }
    }

    lemma FoundUnderName(name: string, cs: nat, log: seq<TarItem>, groups: seq<seq<TocEntry>>, tocOff: nat, k: nat)
      requires Ready() && Written(f, cs, log, groups, blob, tocOff) && toc == Flatten(groups) && DistinctNames(log)
      requires k < |log| && log[k].h.flag != TypeLink && Clean(log[k].h.name) == Clean(name)
      ensures Lookup(name).Some? && FoundAs(Lookup(name).value, log[k])
    {
      hide ScanFrom, NextBoundary, Clean, Flatten, DistinctNames, Written, FoundAs;
      FoundEntry(cs, log, groups, tocOff, k);
    }

    lemma FoundThroughLink(name: string, cs: nat, log: seq<TarItem>, groups: seq<seq<TocEntry>>, tocOff: nat, j: nat,
                           k: nat)
      requires Ready() && Written(f, cs, log, groups, blob, tocOff) && toc == Flatten(groups) && DistinctNames(log)
      requires LinksTo(log, j, k) && Clean(log[j].h.name) == Clean(name)
      ensures if AsCleaned(log[j].h.linkName) then
          Lookup(name).Some? && FoundAs(Lookup(name).value, log[k])
        else
          Lookup(name).None?
    {
      hide ScanFrom, NextBoundary, Clean, Flatten, DistinctNames, Written, FoundAs, AsCleaned;
      FoundEntry(cs, log, groups, tocOff, k);
      FoundEntry(cs, log, groups, tocOff, j);
    }

    lemma ChunkIdsBounded()
      requires Ready()
      ensures forall p :: p in chunks ==> forall i :: 0 <= i < |chunks[p]| ==> chunks[p][i] < |ents|
    {
    }
  }

  /** Item `j` is a hard link to item `k`. */
  predicate LinksTo(log: seq<TarItem>, j: nat, k: nat) {
    && j < |log| && log[j].Item? && log[j].h.flag == TypeLink
    && k < |log| && log[k].Item? && Clean(log[j].h.linkName) == Clean(log[k].h.name)
  }

  /** The name is written as it is when cleaned. */
  predicate AsCleaned(name: string) {
    Render(Clean(name)) == name
  }

  /** Where the first pass puts anything but a file with data. */
  lemma WrittenOther(f: Format, cs: nat, log: seq<TarItem>, groups: seq<seq<TocEntry>>, blob: Bytes, tocOff: nat,
                     k: nat)
    requires Written(f, cs, log, groups, blob, tocOff) && DistinctNames(log)
    requires k < |log| && !HasPayload(log[k].h)
    ensures var (s, p) := (ScanFrom(START, Flatten(groups)), Clean(log[k].h.name));
            && p in s.m && s.m[p] < |s.ents| && p !in s.chunks && s.ents[s.m[p]].path == p
            && var e := s.ents[s.m[p]].e;
               && (log[k].h.flag == TypeReg <==> e.kind == Reg) && (log[k].h.flag == TypeLink <==> e.kind == Hardlink)
               && (log[k].h.flag == TypeReg ==> e.size == 0 && log[k].data == [])
               && (log[k].h.flag == TypeLink ==> e.linkName == log[k].h.linkName)
  {
    hide ScanFrom, Flatten, StartOf, Ordered, DistinctNames, Clean, Tiles;
    WrittenScan(f, cs, log, groups, blob, tocOff);
    assert GroupOk(f, cs, blob, log[k], groups[k]);
    assert Located(ScanFrom(START, Flatten(groups)), log, groups, k);
  }

  /** The entries of a payload group: the file first, chunks after it. */
  lemma WrittenKinds(f: Format, cs: nat, log: seq<TarItem>, groups: seq<seq<TocEntry>>, blob: Bytes, tocOff: nat,
                     k: nat)
    requires Written(f, cs, log, groups, blob, tocOff) && k < |log| && HasPayload(log[k].h)
    ensures groups[k] != [] && groups[k][0].kind == Reg && groups[k][0].size == |log[k].data|
    ensures groups[k][|groups[k]| - 1].kind in {Reg, Chunk}
  {
    hide Ordered, Flatten, Tiles;
    assert GroupOk(f, cs, blob, log[k], groups[k]);
    assert RecordOk(f, cs, log[k].h, log[k].data, groups[k][0], true);
    var last := |groups[k]| - 1;
    assert RecordOk(f, cs, log[k].h, log[k].data, groups[k][last], last == 0);
  }

  lemma DecodedRange(f: Format, blob: Bytes, ents: seq<Ent>, data: Bytes, ids: seq<nat>, k: nat, within: nat, n: nat)
    requires Lawful(f.z) && Stores(f, blob, ents, data, ids) && k < |ids|
    requires ents[ids[k]].e.chunkOffset + within + n <= |data|
    ensures var (e, next) := (ents[ids[k]].e, NextBoundary(ents, ids[|ids| - 1] + 1, |blob|));
            && e.offset <= next <= |blob|
            && var r := ReadStream(f.z, blob[e.offset..next], within + n);
               && r.Some? && |r.value| == within + n
               && r.value[within..] == data[e.chunkOffset + within..e.chunkOffset + within + n]
  {
    hide NextBoundary, ReadStream, Lawful;
    BoundaryInside(f, blob, ents, data, ids);
    ReadFromChunk(f, blob, ents, data, ids, k, within + n);
  }

  lemma OneChunk(f: Format, blob: Bytes, ents: seq<Ent>, data: Bytes, id: nat)
    requires id < |ents| && Stores(f, blob, ents, data, [id])
    ensures ents[id].e.chunkSize == |data| && ents[id].e.chunkOffset == 0
  {
    assert View(ents, [id])[0] == AsChunk(ents[id].e);
  }

  lemma FirstChunkAtZero(f: Format, blob: Bytes, ents: seq<Ent>, data: Bytes, ids: seq<nat>)
    requires Stores(f, blob, ents, data, ids)
    ensures ents[ids[0]].e.chunkOffset == 0
  {
    assert View(ents, ids)[0].chunkOffset == 0;
  }

  lemma BoundaryInside(f: Format, blob: Bytes, ents: seq<Ent>, data: Bytes, ids: seq<nat>)
    requires Stores(f, blob, ents, data, ids)
    ensures NextBoundary(ents, ids[|ids| - 1] + 1, |blob|) <= |blob|
  {
  }

  lemma SearchedChunk(f: Format, blob: Bytes, ents: seq<Ent>, data: Bytes, ids: seq<nat>, i: nat, offset: int)
    requires Stores(f, blob, ents, data, ids) && i <= |ids|
    requires var v := View(ents, ids);
      && (i > 0 ==>
            !(v[i - 1].chunkOffset >= offset
                || v[i - 1].chunkOffset < offset < v[i - 1].chunkOffset + v[i - 1].chunkSize))
      && (i < |v| ==> v[i].chunkOffset >= offset || v[i].chunkOffset < offset < v[i].chunkOffset + v[i].chunkSize)
    ensures offset >= 0 ==> (i < |ids| <==> offset < |data|)
    ensures offset >= 0 && i < |ids| ==> ChunkHolds(View(ents, ids), i, offset)
    ensures offset < 0 ==> i == 0
  {
    var v := View(ents, ids);
    if i < |v| {
      assert Holds(f.z, blob, data, v[i]);
    }
    if offset >= 0 {
      FirstPastHolds(f.z, blob, data, v, i, offset);
    }
  }

  lemma ArenaShape(d: Dirs, ents: seq<Ent>)
    requires Arena(d, ents)
    ensures Shape(d) && |ents| <= |d.nodes|
  {
  }

  function WithEntry(d: Dirs, en: Ent, id: nat): Dirs {
    Dirs(if en.e.kind == Chunk then d.m else d.m[en.path := id],
         d.nodes + [NodeOf(en)],
         d.numLink + [if en.e.kind == Dir then 1 else 0],
         d.children + [map[]])
  }

  lemma ScannedSnoc(ents: seq<Ent>, d: Dirs, en: Ent)
    requires Scanned(ents, d.m, d)
    ensures var d' := WithEntry(d, en, |ents|); Scanned(ents + [en], d'.m, d')
  {
  }

  lemma EmptyScan(toc: seq<TocEntry>)
    ensures ScanFrom(START, toc[..0]) == START
    ensures Scanned([], map[], Dirs(map[], [], [], []))
  {
    assert toc[..0] == [];
  }

  lemma SecondPass(ents: seq<Ent>, d: Dirs)
    requires Scanned(ents, d.m, d)
    ensures LinkFrom(d, ents, 0).None? <==> exists j :: 0 <= j < |ents| && Dangling(d.m, ents, j)
    ensures LinkFrom(d, ents, 0).Some? ==>
      var d' := LinkFrom(d, ents, 0).value;
      && (Unique(ents, d.m) ==> TreeInv(d', |ents|, d'.m.Keys - {[]}))
      && (forall p :: p in d'.m && p !in d.m ==> d'.m[p] >= |ents| && exists j :: 0 <= j < |ents| && p < ents[j].path)
  {
    LinkFromFails(d, d.m, ents, 0);
    if LinkFrom(d, ents, 0).Some? {
      LinkFromNames(d, ents, 0);
      if Unique(ents, d.m) {
        ScannedIsTree(ents, d.m, d);
        LinkFromKeeps(d, ents, {}, 0);
      }
    }
  }
}
