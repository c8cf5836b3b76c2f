/** The first pass over a decoded table of contents: names, chunk lists and implicit chunk sizes. */
module TocScan {
  import opened Basics
  import opened Toc
  import opened Layer
  import opened Paths

  /** An entry under its cleaned name; a chunk carries the name of the file it belongs to. */
  datatype Ent = Ent(path: Path, e: TocEntry)

  /** Entries are identified by their position, as pointers identify them in the program. */
  datatype Scan = Scan(ents: seq<Ent>, m: map<Path, nat>, chunks: map<Path, seq<nat>>, lastPath: Path,
                       lastReg: Option<nat>)

  const START := Scan([], map[], map[], [], None)

  predicate WellFormed(s: Scan) {
    && (s.lastReg.Some? ==> s.lastReg.value < |s.ents|)
    && (forall p :: p in s.m ==> s.m[p] < |s.ents|)
    && (forall p :: p in s.chunks ==> forall i :: 0 <= i < |s.chunks[p]| ==> s.chunks[p][i] < |s.ents|)
  }

  function ChunksOf(s: Scan, p: Path): seq<nat> {
    if p in s.chunks then s.chunks[p] else []
  }

  /** The size a chunk entry gets from the regular file before it. */
  function ChunkSizeOf(s: Scan, e: TocEntry): int
    requires WellFormed(s)
  {
    if e.kind == Chunk && e.chunkSize == 0 && s.lastReg.Some? then s.ents[s.lastReg.value].e.size - e.chunkOffset
    else e.chunkSize
  }

  function Step(s: Scan, e: TocEntry): (r: Scan)
    requires WellFormed(s)
    ensures WellFormed(r)
  {
    var id := |s.ents|;
    var path := if e.kind == Chunk then s.lastPath else Clean(e.name);
    var size := ChunkSizeOf(s, e);
    var chunks :=
      if e.kind == Chunk then s.chunks[path := ChunksOf(s, path) + [id]]
      else if e.kind == Reg && 0 < size < e.size then s.chunks[path := [id]]
      else s.chunks;
    Scan(s.ents + [Ent(path, e.(chunkSize := if size == 0 then e.size else size))],
         if e.kind == Chunk then s.m else s.m[path := id],
         chunks,
         path,
         if e.kind == Reg then Some(id) else s.lastReg)
  }

  function ScanFrom(s: Scan, toc: seq<TocEntry>): (r: Scan)
    requires WellFormed(s)
    ensures WellFormed(r)
    decreases |toc|
  {
    if toc == [] then s else ScanFrom(Step(s, toc[0]), toc[1..])
  }

  lemma {:induction false} ScanAppend(s: Scan, a: seq<TocEntry>, b: seq<TocEntry>)
    requires WellFormed(s)
    ensures ScanFrom(s, a + b) == ScanFrom(ScanFrom(s, a), b)
    decreases |a|
  {
    if a == [] {
      assert a + b == b;
    } else {
      assert (a + b)[1..] == a[1..] + b;
      ScanAppend(Step(s, a[0]), a[1..], b);
    }
  }

  lemma ScanSnoc(s: Scan, a: seq<TocEntry>, e: TocEntry)
    requires WellFormed(s)
    ensures ScanFrom(s, a + [e]) == Step(ScanFrom(s, a), e)
  {
    ScanAppend(s, a, [e]);
    assert [e][1..] == [];
  }

  /** Name `p` denotes the last entry of the table that has it when cleaned; entries of chunks have none. */
  predicate DenotesLast(m: map<Path, nat>, toc: seq<TocEntry>, p: Path) {
    && (p in m <==> exists i :: 0 <= i < |toc| && toc[i].kind != Chunk && Clean(toc[i].name) == p)
    && (p in m ==>
          && m[p] < |toc| && toc[m[p]].kind != Chunk && Clean(toc[m[p]].name) == p
          && forall i :: m[p] < i < |toc| && toc[i].kind != Chunk ==> Clean(toc[i].name) != p)
  }

  /** So it is for every table, and for every name. */
  lemma {:induction false} LastNamed(toc: seq<TocEntry>, p: Path)
    ensures |ScanFrom(START, toc).ents| == |toc| && DenotesLast(ScanFrom(START, toc).m, toc, p)
    decreases |toc|
  {
    if toc != [] {
      hide Clean, ScanFrom, DenotesLast;
      var n := |toc| - 1;
      LastNamed(toc[..n], p);
      assert toc == toc[..n] + [toc[n]];
      ScanSnoc(START, toc[..n], toc[n]);
      LastSnoc(ScanFrom(START, toc[..n]).m, toc[..n], toc[n], p);
    }
  }

  lemma LastSnoc(m: map<Path, nat>, toc: seq<TocEntry>, e: TocEntry, p: Path)
    requires DenotesLast(m, toc, p)
    ensures DenotesLast(if e.kind == Chunk then m else m[Clean(e.name) := |toc|], toc + [e], p)
  {
    hide Clean;
    assert (toc + [e])[|toc|] == e && forall i :: 0 <= i < |toc| ==> (toc + [e])[i] == toc[i];
  }

  /** The entry with its chunk size made explicit. */
  function Explicit(e: TocEntry, size: nat): TocEntry {
    e.(chunkSize := Restored(e, size).chunkSize)
  }

  function Ids(start: nat, n: nat): (r: seq<nat>)
    ensures |r| == n && forall i :: 0 <= i < n ==> r[i] == start + i
  {
    seq(n, i requires 0 <= i < n => start + i)
  }

  /** What the scan has become after the first `r` entries of a written group. */
  function AfterGroup(s: Scan, path: Path, size: nat, g: seq<TocEntry>, r: nat): Scan
    requires 0 < r <= |g|
  {
    var id := |s.ents|;
    Scan(s.ents + seq(r, i requires 0 <= i < r => Ent(path, Explicit(g[i], size))),
         s.m[path := id],
         if |g| > 1 then s.chunks[path := Ids(id, r)] else s.chunks,
         path,
         if g[0].kind == Reg then Some(id) else s.lastReg)
  }

  /** The first entry of a group says, by its own chunk size, whether more entries follow. */
  lemma MultiChunk(f: Format, cs: nat, blob: Bytes, it: TarItem, g: seq<TocEntry>)
    requires cs > 0 && GroupOk(f, cs, blob, it, g)
    ensures g[0].kind != Chunk && g[0].size == if it.h.flag == TypeReg then |it.data| else 0
    ensures |g| > 1 <==> g[0].kind == Reg && 0 < g[0].chunkSize < g[0].size
    ensures g[0].kind == Reg ==>
      Restored(g[0], g[0].size).chunkSize == (if g[0].chunkSize == 0 then g[0].size else g[0].chunkSize)
  {
    if HasPayload(it.h) {
      var r := RestoredAll(g, |it.data|);
      assert RecordOk(f, cs, it.h, it.data, g[0], true);
      assert Holds(f.z, blob, it.data, r[0]);
      if |g| > 1 {
        TilesOrdered(f.z, blob, it.data, r, |it.data|, 0, |g| - 1);
        assert Holds(f.z, blob, it.data, r[|g| - 1]);
      }
    }
  }

  lemma StepFirst(f: Format, cs: nat, blob: Bytes, s: Scan, it: TarItem, g: seq<TocEntry>)
    requires cs > 0 && GroupOk(f, cs, blob, it, g) && WellFormed(s)
    ensures Step(s, g[0]) == AfterGroup(s, Clean(it.h.name), g[0].size, g, 1)
  {
    var path, size := Clean(it.h.name), g[0].size;
    MultiChunk(f, cs, blob, it, g);
    FirstOfGroup(f, cs, blob, it, g);
    hide GroupOk, Clean;
    var t := Step(s, g[0]);
    assert t.ents == s.ents + [Ent(path, Explicit(g[0], size))];
    assert seq(1, i requires 0 <= i < 1 => Ent(path, Explicit(g[i], size))) == [Ent(path, Explicit(g[0], size))];
    assert Ids(|s.ents|, 1) == [|s.ents|];
  }

  lemma AfterGroupGrows(s: Scan, path: Path, size: nat, g: seq<TocEntry>, r: nat)
    requires 1 < r <= |g|
    ensures var (b, a) := (AfterGroup(s, path, size, g, r - 1), AfterGroup(s, path, size, g, r));
            && b.ents[|s.ents|] == Ent(path, Explicit(g[0], size))
            && a.ents == b.ents + [Ent(path, Explicit(g[r - 1], size))]
            && a.chunks == b.chunks[path := ChunksOf(b, path) + [|b.ents|]]
  {
    hide Explicit;
    assert Ids(|s.ents|, r - 1) + [|s.ents| + r - 1] == Ids(|s.ents|, r);
  }

  lemma StepLater(f: Format, cs: nat, blob: Bytes, s: Scan, it: TarItem, g: seq<TocEntry>, r: nat)
    requires cs > 0 && GroupOk(f, cs, blob, it, g) && WellFormed(s) && 1 < r <= |g|
    requires WellFormed(AfterGroup(s, Clean(it.h.name), g[0].size, g, r - 1))
    ensures Step(AfterGroup(s, Clean(it.h.name), g[0].size, g, r - 1), g[r - 1])
       == AfterGroup(s, Clean(it.h.name), g[0].size, g, r)
  {
    var path, size := Clean(it.h.name), g[0].size;
    LaterOfGroup(f, cs, blob, it, g, r - 1);
    hide GroupOk, Clean, WellFormed, ChunksOf;
    AfterGroupGrows(s, path, size, g, r);
  }

  lemma {:induction false} ScanGroup(f: Format, cs: nat, blob: Bytes, s: Scan, it: TarItem, g: seq<TocEntry>, r: nat)
    requires cs > 0 && GroupOk(f, cs, blob, it, g) && WellFormed(s) && 0 < r <= |g|
    ensures ScanFrom(s, g[..r]) == AfterGroup(s, Clean(it.h.name), g[0].size, g, r)
    decreases r
  {
    hide Step, AfterGroup, WellFormed;
    if r == 1 {
      assert g[..1] == [] + [g[0]];
      ScanSnoc(s, [], g[0]);
      StepFirst(f, cs, blob, s, it, g);
    } else {
      ScanGroup(f, cs, blob, s, it, g, r - 1);
      assert g[..r] == g[..r - 1] + [g[r - 1]];
      ScanSnoc(s, g[..r - 1], g[r - 1]);
      StepLater(f, cs, blob, s, it, g, r);
    }
  }

  lemma FirstOfGroup(f: Format, cs: nat, blob: Bytes, it: TarItem, g: seq<TocEntry>)
    requires cs > 0 && GroupOk(f, cs, blob, it, g)
    ensures g[0].name == it.h.name && g[0].kind != Chunk
    ensures Explicit(g[0], g[0].size) == g[0].(chunkSize := if g[0].chunkSize == 0 then g[0].size else g[0].chunkSize)
  {
    if HasPayload(it.h) {
      var r := RestoredAll(g, |it.data|);
      assert RecordOk(f, cs, it.h, it.data, g[0], true);
      assert r[0].chunkOffset == 0;
    }
  }

  lemma LaterOfGroup(f: Format, cs: nat, blob: Bytes, it: TarItem, g: seq<TocEntry>, i: nat)
    requires cs > 0 && GroupOk(f, cs, blob, it, g) && 0 < i < |g|
    ensures g[i].kind == Chunk && g[i].size == 0 && g[0].kind == Reg && Restored(g[i], g[0].size).chunkSize != 0
  {
    assert HasPayload(it.h);
    var r := RestoredAll(g, |it.data|);
    assert RecordOk(f, cs, it.h, it.data, g[i], false);
    assert RecordOk(f, cs, it.h, it.data, g[0], true);
    assert Holds(f.z, blob, it.data, r[i]);
  }

  predicate DistinctNames(log: seq<TarItem>) {
    && (forall k :: 0 <= k < |log| ==> log[k].Item?)
    && (forall j, k :: 0 <= j < k < |log| ==> Clean(log[j].h.name) != Clean(log[k].h.name))
  }

  /** Where the scan of a written table puts the k-th tar entry, its chunks, and nothing else. */
  ghost predicate Located(s: Scan, log: seq<TarItem>, groups: seq<seq<TocEntry>>, k: nat)
    requires k < |log| == |groups| && log[k].Item? && groups[k] != []
  {
    var path, start, g := Clean(log[k].h.name), StartOf(groups, k), groups[k];
    && start + |g| <= |s.ents|
    && path in s.m && s.m[path] == start
    && (forall i :: 0 <= i < |g| ==> s.ents[start + i] == Ent(path, Explicit(g[i], g[0].size)))
    && (if |g| > 1 then path in s.chunks && s.chunks[path] == Ids(start, |g|) else path !in s.chunks)
  }

  ghost predicate NothingElse(s: Scan, log: seq<TarItem>, n: nat) {
    && n <= |log|
    && (forall p :: p in s.m ==> exists k :: 0 <= k < n && log[k].Item? && Clean(log[k].h.name) == p)
    && (forall p :: p in s.chunks ==> p in s.m)
  }

  /** The scan of the first `n` groups, and no more. */
  ghost predicate ScanOk(s: Scan, log: seq<TarItem>, groups: seq<seq<TocEntry>>, n: nat) {
    && n <= |log| == |groups| && |s.ents| == StartOf(groups, n)
    && (forall k :: 0 <= k < n ==> log[k].Item? && groups[k] != [] && Located(s, log, groups, k))
    && NothingElse(s, log, n)
  }

  lemma LocatedAfter(s: Scan, log: seq<TarItem>, groups: seq<seq<TocEntry>>, j: nat, k: nat)
    requires j < k < |log| == |groups| && DistinctNames(log) && groups[j] != [] && groups[k] != []
    requires Located(s, log, groups, j)
    ensures Located(AfterGroup(s, Clean(log[k].h.name), groups[k][0].size, groups[k], |groups[k]|), log, groups, j)
  {
    assert log[j].Item? && log[k].Item? && Clean(log[j].h.name) != Clean(log[k].h.name);
    hide Clean, Explicit, StartOf, DistinctNames;
  }

  lemma LocatedNow(s: Scan, log: seq<TarItem>, groups: seq<seq<TocEntry>>, k: nat)
    requires k < |log| == |groups| && log[k].Item? && groups[k] != []
    requires |s.ents| == StartOf(groups, k) && Clean(log[k].h.name) !in s.chunks
    ensures Located(AfterGroup(s, Clean(log[k].h.name), groups[k][0].size, groups[k], |groups[k]|), log, groups, k)
  {
    hide Clean, Explicit, StartOf;
  }

  lemma NothingElseAfter(s: Scan, log: seq<TarItem>, groups: seq<seq<TocEntry>>, k: nat)
    requires k < |log| == |groups| && DistinctNames(log) && groups[k] != [] && NothingElse(s, log, k)
    ensures Clean(log[k].h.name) !in s.m && Clean(log[k].h.name) !in s.chunks
    ensures NothingElse(AfterGroup(s, Clean(log[k].h.name), groups[k][0].size, groups[k], |groups[k]|), log, k + 1)
  {
    hide Clean, Explicit;
    var path := Clean(log[k].h.name);
    var t := AfterGroup(s, path, groups[k][0].size, groups[k], |groups[k]|);
    forall p | p in t.m ensures exists j :: 0 <= j < k + 1 && log[j].Item? && Clean(log[j].h.name) == p {
      if p == path {
        assert log[k].Item? && Clean(log[k].h.name) == p;
      }
    }
  }

  lemma AddGroup(s: Scan, log: seq<TarItem>, groups: seq<seq<TocEntry>>, k: nat)
    requires k < |log| == |groups| && DistinctNames(log) && groups[k] != [] && ScanOk(s, log, groups, k)
    ensures ScanOk(AfterGroup(s, Clean(log[k].h.name), groups[k][0].size, groups[k], |groups[k]|), log, groups, k + 1)
  {
    var t := AfterGroup(s, Clean(log[k].h.name), groups[k][0].size, groups[k], |groups[k]|);
    FlattenAt(groups, k);
    assert |t.ents| == StartOf(groups, k + 1);
    assert log[k].Item?;
    hide Clean, StartOf, AfterGroup, DistinctNames, NothingElse, Located;
    NothingElseAfter(s, log, groups, k);
    LocatedNow(s, log, groups, k);
    forall j | 0 <= j < k ensures Located(t, log, groups, j) {
      LocatedAfter(s, log, groups, j, k);
    }
  }

  lemma ScanOneMore(groups: seq<seq<TocEntry>>, k: nat)
    requires k < |groups|
    ensures ScanFrom(START, Flatten(groups[..k + 1])) == ScanFrom(ScanFrom(START, Flatten(groups[..k])), groups[k])
  {
    hide ScanFrom, Flatten;
    assert groups[..k + 1] == groups[..k] + [groups[k]];
    FlattenSnoc(groups[..k], groups[k]);
    ScanAppend(START, Flatten(groups[..k]), groups[k]);
  }

  lemma {:induction false} ScanWritten(f: Format, cs: nat, blob: Bytes, log: seq<TarItem>, groups: seq<seq<TocEntry>>,
                                       n: nat)
    requires cs > 0 && TableOk(f, cs, blob, log, groups) && DistinctNames(log) && n <= |log|
    ensures ScanOk(ScanFrom(START, Flatten(groups[..n])), log, groups, n)
    decreases n
  {
    if n == 0 {
      assert Flatten(groups[..0]) == [];
    } else {
      var k := n - 1;
      assert GroupOk(f, cs, blob, log[k], groups[k]) && groups[k] != [];
      hide TableOk, GroupOk, ScanOk, ScanFrom, DistinctNames, WellFormed, AfterGroup, Flatten, Clean;
      ScanWritten(f, cs, blob, log, groups, k);
      var s := ScanFrom(START, Flatten(groups[..k]));
      ScanOneMore(groups, k);
      assert groups[k][..|groups[k]|] == groups[k];
      ScanGroup(f, cs, blob, s, log[k], groups[k], |groups[k]|);
      AddGroup(s, log, groups, k);
    }
  }
}
