/** A second pull builds on what the first one put on disk. What the delta says of a file it does not send
    is which layer holds its digest; whether the client finds the bytes there depends on where the first
    pull stored them, and it stored each content once, in the lowest layer that has it. */
module TwoPulls {
  import opened Basics
  import opened Toc
  import opened Layer
  import opened Delta
  import opened Builder
  import opened Extraction
  import opened Stream
  import opened EndToEnd
  import opened PullMachine
  import opened ClientView

  /** A pull with what the client adds: which layers it skips, the disk before, and how far it has come. */
  datatype Client = Client(p: Pull, existing: seq<ExistingFile>, skip: seq<bool>, disk: map<DiskPath, Bytes>,
                           run: seq<State>)

  function ConfigOf(m: Client): Config {
    ClientConfig(m.p, m.skip, [], m.disk)
  }

  /** Everything asked of one pull. */
  ghost predicate Proper(m: Client) {
    && LawfulFormat(m.p.f) && Provided(m.p) && DigestsOk(m.p) && Computed(m.p) && Existing(m.p, m.existing)
    && SkipsByHash(m.p, m.skip) && ValidConfig(ConfigOf(m)) && m.run != [] && IsRun(ConfigOf(m), m.run)
  }

  /** The pull has extracted every content. */
  ghost predicate AllExtracted(m: Client) {
    Proper(m) && m.run[|m.run| - 1].pc.Marking?
  }

  function DiskOf(m: Client): map<DiskPath, Bytes>
    requires m.run != []
  {
    m.run[|m.run| - 1].disk
  }

  /** The layer that content `k` of the pull was stored in. */
  function StoredIn(p: Pull, k: nat): string
    requires k < |p.contents| && p.contents[k].stack < |p.dst|
  {
    p.dst[p.contents[k].stack].hash
  }

  /** After the pull a content is in the layer it was stored in, and in no other that lacked it before. */
  lemma StoredOnce(m: Client, k: nat, h: string)
    requires AllExtracted(m) && k < |m.p.contents| && m.p.contents[k].stack < |m.p.dst| && |m.skip| == |m.p.dst|
    requires !m.skip[m.p.contents[k].stack] && Canonical(h) && Canonical(m.p.contents[k].digest)
    requires FileAt(h, m.p.contents[k].digest) !in m.disk
    ensures FileAt(h, m.p.contents[k].digest) in DiskOf(m) <==> h == StoredIn(m.p, k)
    ensures h == StoredIn(m.p, k) ==> DiskOf(m)[FileAt(h, m.p.contents[k].digest)] == ContentData(m.p, k)
  {
    var c := ConfigOf(m);
    var d := m.p.contents[k].digest;
    assert c.contents[k] == WireOf(m.p.contents[k]) && c.hashes == Hashes(m.p.dst);
    DataOfContent(m.p, m.skip, [], m.disk, k);
    hide Provided, DigestsOk, Computed, Existing, ContentData, Canonical, ClientConfig, FileAt, IsRun, LawfulFormat;
    if h == StoredIn(m.p, k) {
      MarkedHasContent(c, m.run, k);
    } else {
      WritesFile(c, h, d);
      forall j | 0 <= j < |c.contents| && j != k ensures c.contents[j].digest != d {
        DigestsDiffer(c, j, k);
      }
      hide Writes, ValidConfig;
      LeavesAlone(c, m.run, |m.run| - 1, FileAt(h, d));
    }
  }

  lemma MarkedHasContent(c: Config, run: seq<State>, k: nat)
    requires ValidConfig(c) && IsRun(c, run) && run[|run| - 1].pc.Marking? && k < |c.contents|
      && !c.skip[c.contents[k].stack]
    ensures FullyWritten(c, run[|run| - 1], k)
  {
    RunInv(c, run, |run| - 1);
    hide FullyWritten, MarksInv, OpenersInv;
  }

  // --- the second pull

  /** Equal digests mean equal files across the two pulls. */
  ghost predicate SameFiles(p: Pull, q: Pull) {
    p.f == q.f
    && forall a: TarItem, b: TarItem :: InPlay(p, a) && InPlay(q, b) && p.f.sha(a.data) == p.f.sha(b.data) ==>
       a.data == b.data
  }

  /** The layer an open of row `i` looks in, when an available layer holds the digest: the one of the best
      serial for a file of a new layer, its own for a file of an available layer. */
  function LooksIn(p: Pull, i: nat): string
    requires i < |p.rows| && p.rows[i].stack < |p.dst| && p.rows[i].digest in p.best
  {
    var layers := ClientLayers(p.dst + p.src);
    if Eligible(p.rows[i], p.available) && p.best[p.rows[i].digest] in layers then layers[p.best[p.rows[i].digest]]
    else p.dst[p.rows[i].stack].hash
  }

  lemma OpensThere(m: Client, i: nat)
    requires Proper(m) && i < |m.p.rows| && HasContent(m.p.rows[i]) && m.p.rows[i].digest in m.p.best
    ensures i < |m.p.files| && m.p.rows[i].stack < |m.p.dst| && m.p.files[i].digest == m.p.rows[i].digest
    ensures Canonical(m.p.rows[i].digest) && Canonical(LooksIn(m.p, i))
    ensures RealPath(ConfigOf(m), i) == FileAt(LooksIn(m.p, i), m.p.rows[i].digest)
  {
    var p := m.p;
    FileResolves(p, m.existing, i);
    StackInRange(p, i);
    RefersTo(p, m.existing, i);
    hide Provided, Computed, Existing, ValidConfig, IsRun, FileAt, ClientLayers, LawfulFormat, Body;
    assert ConfigOf(m).files[i] == OnWire(p.files[i]);
  }

  /** A referenced file names the best serial; one in an available layer names nothing. */
  lemma RefersTo(p: Pull, existing: seq<ExistingFile>, i: nat)
    requires Provided(p) && DigestsOk(p) && Computed(p) && Existing(p, existing)
    requires i < |p.rows| && HasContent(p.rows[i]) && p.rows[i].digest in p.best
    ensures |p.files| == |p.rows|
    ensures Eligible(p.rows[i], p.available) ==> p.files[i].referenceFsId == p.best[p.rows[i].digest] != 0
    ensures !Eligible(p.rows[i], p.available) ==>
      p.files[i].referenceFsId == 0 && p.files[i].referenceStack == 0 && p.files[i].stack == p.rows[i].stack
  {
    FileResolves(p, existing, i);
    assert FileOk(p.rows[i], p.files[i], p.available, p.best, p.contents);
    assert Unreferenced(p.rows[i]) == p.rows[i];
    hide Provided, DigestsOk, CollectedAll, LaidOut, IsBest, Eligible, ClientLayers;
  }

  /** This pull does not write a digest that an available layer holds. */
  lemma NotWritten(m: Client, h: string, d: string)
    requires Proper(m) && d in m.p.best && Canonical(h) && Canonical(d)
    ensures !Writes(ConfigOf(m), FileAt(h, d))
  {
    var c := ConfigOf(m);
    forall k | 0 <= k < |c.contents| ensures c.contents[k].digest != d {
      DigestMissing(m.p, k);
    }
    hide Provided, DigestsOk, Computed, Existing, ClientConfig, FileAt, IsRun, LawfulFormat;
    WritesFile(c, h, d);
  }

  lemma SameBytes(p: Pull, q: Pull, k: nat, i: nat)
    requires Provided(p) && DigestsOk(p) && Computed(p) && Provided(q) && SameFiles(p, q)
    requires k < |p.contents| && i < |q.rows| && HasContent(q.rows[i]) && p.contents[k].digest == q.rows[i].digest
    ensures ContentData(p, k) == RowData(q, i)
  {
    ContentOf(p, k);
    var first := p.contents[k].files[0];
    assert HasContent(p.rows[first]);
    hide Computed, DigestsOk, Eligible, Tiles, InPlay, HasFile, Provided;
    ContentRow(p, first);
    ContentRow(q, i);
    hide TarData;
  }

  /** The second pull starts where the first one ended. Content `k` of the first has the digest of row `i` of
      the second, which an available layer holds; the layer the open looks in lacked it before the first. */
  ghost predicate Follows(m: Client, n: Client, k: nat, i: nat) {
    && AllExtracted(m) && Proper(n) && n.disk == DiskOf(m) && SameFiles(m.p, n.p)
    && k < |m.p.contents| && m.p.contents[k].stack < |m.p.dst| == |m.skip| && !m.skip[m.p.contents[k].stack]
    && i < |n.p.rows| && n.p.rows[i].stack < |n.p.dst| && HasContent(n.p.rows[i]) && n.p.rows[i].digest in n.p.best
    && m.p.contents[k].digest == n.p.rows[i].digest && Canonical(n.p.rows[i].digest) && Canonical(LooksIn(n.p, i))
    && FileAt(LooksIn(n.p, i), n.p.rows[i].digest) !in m.disk
  }

  /** Whether an open of file `i` finds its path, and then the bytes of the tar. */
  ghost predicate OpenFinds(n: Client, i: nat, there: bool)
    requires Proper(n) && i < |n.p.rows| && HasContent(n.p.rows[i])
  {
    && i < |n.p.files| && |n.p.files[i].digest| >= 12
    && var path := RealPath(ConfigOf(n), i);
       (path in DiskOf(n) <==> there) && (there ==> DiskOf(n)[path] == RowData(n.p, i))
  }

  lemma KeptByPull(n: Client, h: string, d: string)
    requires Proper(n) && d in n.p.best && Canonical(h) && Canonical(d)
    ensures n.run != [] && (FileAt(h, d) in DiskOf(n) <==> FileAt(h, d) in n.disk)
    ensures FileAt(h, d) in n.disk ==> DiskOf(n)[FileAt(h, d)] == n.disk[FileAt(h, d)]
  {
    hide Proper, FileAt, Writes, ValidConfig, IsRun, Canonical, ConfigOf;
    CanonicalLength(h);
    CanonicalLength(d);
    NotWritten(n, h, d);
    RunOf(n);
    LeavesAlone(ConfigOf(n), n.run, |n.run| - 1, FileAt(h, d));
  }

  lemma CanonicalLength(d: string)
    requires Canonical(d)
    ensures |d| == 71
  {
  }

  lemma RunOf(n: Client)
    requires Proper(n)
    ensures n.run != [] && ValidConfig(ConfigOf(n)) && IsRun(ConfigOf(n), n.run) && ConfigOf(n).disk == n.disk
  {
    hide Provided, DigestsOk, Computed, Existing, LawfulFormat, ValidConfig, IsRun, SkipsByHash;
  }

  lemma PathKept(m: Client, n: Client, k: nat, i: nat)
    requires Follows(m, n, k, i)
    ensures var path := FileAt(LooksIn(n.p, i), n.p.rows[i].digest);
            && (path in DiskOf(n) <==> LooksIn(n.p, i) == StoredIn(m.p, k))
            && (path in DiskOf(n) ==> DiskOf(n)[path] == ContentData(m.p, k))
  {
    assert AllExtracted(m) && Proper(m);
    hide Proper, AllExtracted, ContentData, Canonical, FileAt, LooksIn, SameFiles, HasContent;
    StoredOnce(m, k, LooksIn(n.p, i));
    KeptByPull(n, LooksIn(n.p, i), n.p.rows[i].digest);
  }

  /** Exactly when a file that is not sent can be opened: in every state of the second pull the path exists
      if and only if the layer the open looks in is the one the first pull stored the content in, and what
      it holds is the file's bytes. */
  lemma FoundExactly(m: Client, n: Client, k: nat, i: nat)
    requires Follows(m, n, k, i)
    ensures OpenFinds(n, i, LooksIn(n.p, i) == StoredIn(m.p, k))
  {
    OpensThere(n, i);
    PathKept(m, n, k, i);
    SameBytes(m.p, n.p, k, i);
    hide Provided, DigestsOk, Computed, Existing, ContentData, RowData, Canonical, ClientConfig, FileAt, IsRun,
         LawfulFormat, LooksIn;
    hide RealPath, SameFiles, HasContent, ValidConfig;
  }

  /** The second image is pulled with the first as its source, and the first was pulled from nothing; the
      files known to exist are those of the first image. */
  ghost predicate Upgrades(m: Client, n: Client) {
    && Proper(m) && Proper(n) && m.p.available == {} && n.p.src == m.p.dst
    && (forall e :: e in n.existing ==>
          exists r ::
            0 <= r < |m.p.rows| && HasContent(m.p.rows[r]) && e == ExistingFile(m.p.rows[r].digest, m.p.rows[r].fsId))
  }

  lemma NothingKnown(p: Pull, existing: seq<ExistingFile>)
    requires Existing(p, existing) && p.available == {}
    ensures p.best == map[]
  {
    hide Unreferenced;
    assert forall i :: 0 <= i < |existing| ==> existing[i] in existing;
  }

  /** Every digest the second pull refers to was sent by the first: as content `k`, stored in the lowest
      layer that has it, while the open looks in the layer of row `r`, which has the largest serial. */
  lemma FirstPullHas(m: Client, n: Client, i: nat) returns (k: nat, r: nat)
    requires Upgrades(m, n) && i < |n.p.rows| && n.p.rows[i].stack < |n.p.dst|
    requires Eligible(n.p.rows[i], n.p.available) && n.p.rows[i].digest in n.p.best
    ensures k < |m.p.contents| && m.p.contents[k].digest == n.p.rows[i].digest
    ensures r < |m.p.rows| && m.p.rows[r].digest == n.p.rows[i].digest && m.p.rows[r].stack < |m.p.dst|
    ensures LooksIn(n.p, i) == m.p.dst[m.p.rows[r].stack].hash
    ensures forall q :: 0 <= q < |m.p.rows| && HasContent(m.p.rows[q]) && m.p.rows[q].digest == n.p.rows[i].digest ==>
      m.p.rows[q].fsId <= m.p.rows[r].fsId || ExistingFile(m.p.rows[q].digest, m.p.rows[q].fsId) !in n.existing
    ensures forall q :: 0 <= q < |m.p.rows| && HasContent(m.p.rows[q]) && m.p.rows[q].digest == n.p.rows[i].digest ==>
      m.p.contents[k].stack <= m.p.rows[q].stack
  {
    var d := n.p.rows[i].digest;
    var s := n.p.best[d];
    NothingKnown(m.p, m.existing);
    var e: nat :| e < |n.existing| && n.existing[e] == ExistingFile(d, s);
    assert n.existing[e] in n.existing;
    var r': nat :| r' < |m.p.rows| && HasContent(m.p.rows[r'])
      && n.existing[e] == ExistingFile(m.p.rows[r'].digest, m.p.rows[r'].fsId);
    r := r';
    SerialLayer(m.p, n.p, n.existing, r, s);
    k := ContentWith(m.p, r);
  }

  lemma SerialLayer(p: Pull, q: Pull, existing: seq<ExistingFile>, r: nat, s: int)
    requires Provided(p) && Provided(q) && DigestsOk(q) && Existing(q, existing) && q.src == p.dst
    requires r < |p.rows| && p.rows[r].fsId == s && s in q.available
    ensures p.rows[r].stack < |p.dst| && s in ClientLayers(q.dst + q.src)
    ensures ClientLayers(q.dst + q.src)[s] == p.dst[p.rows[r].stack].hash
  {
    StackInRange(p, r);
    assert p.dst[p.rows[r].stack].serial == s by {
      hide RowOf, IsConverted;
    }
    SourceSerial(q, s);
    hide IsConverted, RowOf, InSource, DigestsOk, Existing, ClientLayers;
    var i :| 0 <= i < |q.src| && q.src[i].serial == s && q.src[i].hash == ClientLayers(q.dst + q.src)[s];
    assert (q.src + q.dst)[i] == q.src[i] && (q.src + q.dst)[p.rows[r].stack] == p.dst[p.rows[r].stack];
  }

  /** Pulled from nothing, every file with content is in some content, stored no higher than the file. */
  lemma ContentWith(p: Pull, r: nat) returns (k: nat)
    requires Provided(p) && Computed(p) && p.available == {} && p.best == map[] && r < |p.rows| && HasContent(p.rows[r])
    ensures k < |p.contents| && p.contents[k].digest == p.rows[r].digest
    ensures forall q :: 0 <= q < |p.rows| && HasContent(p.rows[q]) && p.rows[q].digest == p.rows[r].digest ==>
      p.contents[k].stack <= p.rows[q].stack
  {
    hide RowOf, IsConverted, FileOk, Provided;
    var k': nat :| k' < |p.contents| && p.rows[p.contents[k'].files[0]].digest == p.rows[r].digest;
    k := k';
    var c := p.contents[k];
    assert Collected(p.rows, p.available, p.best, p.maxRank, c) && LaidOut(p.rows, p.contents, k);
    hide Computed;
    forall q: nat | q < |p.rows| && HasContent(p.rows[q]) && p.rows[q].digest == p.rows[r].digest
      ensures c.stack <= p.rows[q].stack
    {
      Lowest(p.rows, p.available, p.best, p.maxRank, c, q);
    }
  }

  lemma Lowest(rows: seq<RankedFile>, available: set<int>, best: map<string, int>, maxRank: real, c: Content, q: nat)
    requires Collected(rows, available, best, maxRank, c)
    requires q < |rows| && Eligible(rows[q], available) && rows[q].digest == rows[c.files[0]].digest
    ensures c.stack <= rows[q].stack
  {
    GroupMembers(rows, available, rows[q].digest, |rows|);
    var j :| 0 <= j < |c.files| && c.files[j] == q;
  }
}
