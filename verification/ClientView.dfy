/** The computed delta as the client sees it: every serial it refers to is known, and an early open of a
    payload file reads the bytes of the tar. */
module ClientView {
  import opened Basics
  import opened Toc
  import opened Delta
  import opened Builder
  import opened Extraction
  import opened Stream
  import opened EndToEnd
  import opened PullMachine
  import opened EarlyStart
  import Progress
  import Refinement

  /** m.layers: the layers of both images by serial, later entries overwriting earlier ones. */
  function ClientLayers(rows: seq<LayerRow>): map<int, string> {
    if rows == [] then map[] else ClientLayers(rows[..|rows| - 1])[rows[|rows| - 1].serial := rows[|rows| - 1].hash]
  }

  lemma {:induction false} ClientLayersKeys(rows: seq<LayerRow>)
    ensures forall i :: 0 <= i < |rows| ==> rows[i].serial in ClientLayers(rows)
    ensures forall s :: s in ClientLayers(rows) ==>
      exists i :: 0 <= i < |rows| && rows[i] == LayerRow(s, ClientLayers(rows)[s], rows[i].size)
    decreases |rows|
  {
    if rows != [] {
      var n := |rows| - 1;
      ClientLayersKeys(rows[..n]);
      forall s | s in ClientLayers(rows)
        ensures exists i :: 0 <= i < |rows| && rows[i] == LayerRow(s, ClientLayers(rows)[s], rows[i].size)
      {
        if s == rows[n].serial {
          assert rows[n] == LayerRow(s, ClientLayers(rows)[s], rows[n].size);
        } else {
          var i :| 0 <= i < n && rows[..n][i] == LayerRow(s, ClientLayers(rows[..n])[s], rows[..n][i].size);
          assert rows[i] == LayerRow(s, ClientLayers(rows)[s], rows[i].size);
        }
      }
    }
  }

  function OnWire(f: RankedFile): ReferencedFile {
    ReferencedFile(f.digest, f.stack, f.referenceFsId, f.referenceStack, f.payloadOrder)
  }

  function ClientConfig(p: Pull, skip: seq<bool>, t: Bytes, disk: map<DiskPath, Bytes>): Config {
    Config(p.f.z, Hashes(p.dst), ClientLayers(p.dst + p.src), Wires(p.contents),
           seq(|p.files|, i requires 0 <= i < |p.files| => OnWire(p.files[i])), skip,
           Body(p.loaded, p.contents) + t, disk)
  }

  /** Rows of available layers, and the references chosen from them; serials are positive. */
  ghost predicate Existing(p: Pull, existing: seq<ExistingFile>) {
    && IsBest(existing, p.best) && (forall e :: e in existing ==> e.fsId in p.available)
    && (forall i :: 0 <= i < |p.src| ==> p.src[i].serial > 0)
    && (forall i :: 0 <= i < |p.rows| ==> Unreferenced(p.rows[i]) == p.rows[i])
  }

  /** Skipping goes by layer hash. */
  predicate SkipsByHash(p: Pull, skip: seq<bool>) {
    |skip| == |p.dst| && forall i, j :: 0 <= i < j < |p.dst| && p.dst[i].hash == p.dst[j].hash ==> skip[i] == skip[j]
  }

  lemma SourceSerial(p: Pull, s: int)
    requires Provided(p) && DigestsOk(p) && s in p.available
    ensures s in ClientLayers(p.dst + p.src) && Canonical(ClientLayers(p.dst + p.src)[s])
    ensures exists i :: 0 <= i < |p.src| && p.src[i].serial == s && p.src[i].hash == ClientLayers(p.dst + p.src)[s]
  {
    hide IsConverted, RowOf, InSource, InPlay;
    var all := p.dst + p.src;
    ClientLayersKeys(all);
    var i :| 0 <= i < |p.src| && p.src[i].serial == s;
    assert all[|p.dst| + i] == p.src[i];
    var j :| 0 <= j < |all| && all[j] == LayerRow(s, ClientLayers(all)[s], all[j].size);
    var k := if j < |p.dst| then |p.src| + j else j - |p.dst|;
    assert (p.src + p.dst)[k] == all[j] && (p.src + p.dst)[i] == p.src[i];
  }

  /** What the delta says of one file, in the client's terms: a reference names a layer the client can
      look up, holding a file of that digest; a payload file is in the content of its order. */
  lemma FileResolves(p: Pull, existing: seq<ExistingFile>, i: nat)
    requires Provided(p) && DigestsOk(p) && Computed(p) && Existing(p, existing) && i < |p.rows|
    ensures |p.files| == |p.rows| && p.files[i].stack == p.rows[i].stack && p.files[i].digest == p.rows[i].digest
    ensures p.files[i].referenceStack < |p.dst|
    ensures p.files[i].referenceFsId != 0 ==>
      && p.files[i].referenceFsId in ClientLayers(p.dst + p.src)
      && Canonical(ClientLayers(p.dst + p.src)[p.files[i].referenceFsId])
      && ExistingFile(p.rows[i].digest, p.files[i].referenceFsId) in existing
    ensures Eligible(p.rows[i], p.available) && p.rows[i].digest in p.best ==> p.files[i].referenceFsId > 0
    ensures Eligible(p.rows[i], p.available) && p.rows[i].digest !in p.best ==>
      && p.files[i].payloadOrder < |p.contents| && p.files[i].referenceFsId == 0
      && p.files[i].referenceStack == p.contents[p.files[i].payloadOrder].stack
      && p.contents[p.files[i].payloadOrder].digest == p.rows[i].digest
      && i in p.contents[p.files[i].payloadOrder].files
  {
    Partition(p.rows, p.available, p.best, existing, p.maxRank, p.files, p.contents, p.bodyLength, i);
    assert FileOk(p.rows[i], p.files[i], p.available, p.best, p.contents);
    StackInRange(p, i);
    forall s | s in p.available ensures s > 0 {
    }
    hide Provided, DigestsOk, CollectedAll, LaidOut, IsBest;
    if Eligible(p.rows[i], p.available) {
      if p.rows[i].digest in p.best {
        SourceSerial(p, p.files[i].referenceFsId);
      } else {
        var o := p.files[i].payloadOrder;
        ContentMembersRange(p, o);
      }
    }
  }

  lemma ContentMembersRange(p: Pull, k: nat)
    requires Provided(p) && Computed(p) && k < |p.contents|
    ensures p.contents[k].stack < |p.dst|
  {
    ContentMembers(p, k);
    StackInRange(p, p.contents[k].files[0]);
  }

  /** The client's view of a computed delta is well formed; in particular every serial that a file refers to
      is known. Whether the path is there is a matter of the pulls before this one (`TwoPulls`). */
  lemma ViewIsValid(p: Pull, existing: seq<ExistingFile>, skip: seq<bool>, t: Bytes, disk: map<DiskPath, Bytes>)
    requires Provided(p) && DigestsOk(p) && Computed(p) && Existing(p, existing) && SkipsByHash(p, skip)
    ensures ValidConfig(ClientConfig(p, skip, t, disk))
  {
    assert |p.files| == |p.rows|;
    hide Provided, DigestsOk, Computed, Existing, Body, ClientLayers, Eligible;
    Addressed(p);
    forall i | 0 <= i < |p.files|
      ensures p.files[i].stack < |p.dst| && p.files[i].referenceStack < |p.dst|
      ensures p.files[i].referenceFsId != 0 ==>
        && p.files[i].referenceFsId in ClientLayers(p.dst + p.src)
        && Canonical(ClientLayers(p.dst + p.src)[p.files[i].referenceFsId])
    {
      FileResolves(p, existing, i);
      StackInRange(p, i);
    }
    ConfigIsValid(p, skip, t, disk);
  }

  lemma ConfigIsValid(p: Pull, skip: seq<bool>, t: Bytes, disk: map<DiskPath, Bytes>)
    requires SkipsByHash(p, skip) && WellAddressed(Hashes(p.dst), Wires(p.contents)) && DistinctFiles(Wires(p.contents))
    requires forall i :: 0 <= i < |p.files| ==> p.files[i].stack < |p.dst| && p.files[i].referenceStack < |p.dst|
    requires forall i :: 0 <= i < |p.files| && p.files[i].referenceFsId != 0 ==>
      && p.files[i].referenceFsId in ClientLayers(p.dst + p.src)
      && Canonical(ClientLayers(p.dst + p.src)[p.files[i].referenceFsId])
    ensures ValidConfig(ClientConfig(p, skip, t, disk))
  {
    hide Body, ClientLayers, WellAddressed;
  }

  /** The body the machine reads holds every content, and content `k` is the file's bytes. */
  lemma {:induction false} BodyOfContent(p: Pull, skip: seq<bool>, t: Bytes, disk: map<DiskPath, Bytes>, k: nat)
    requires LawfulFormat(p.f) && Provided(p) && DigestsOk(p) && Computed(p) && k <= |p.contents|
    ensures BodyAt(ClientConfig(p, skip, t, disk), k) == Some(BodyFrom(p.loaded, p.contents, k) + t)
    decreases k
  {
    hide Provided, DigestsOk, Computed, BodyFrom, Body, ClientLayers, SoundContent, ContentBytes;
    WholeBody(p.loaded, p.contents);
    if k > 0 {
      BodyOfContent(p, skip, t, disk, k - 1);
      PullIsSound(p);
      BodyCons(p.f.z, p.loaded, p.contents, Datas(p), k - 1, t);
      hide Wires, ClientConfig;
      assert BodyFrom(p.loaded, p.contents, k - 1) + t
          == ContentBytes(p.loaded, p.contents[k - 1]) + (BodyFrom(p.loaded, p.contents, k) + t);
      NextContent(ClientConfig(p, skip, t, disk), k - 1, p.contents[k - 1].size,
            BodyFrom(p.loaded, p.contents, k - 1) + t);
    }
  }

  lemma NextContent(c: Config, k: nat, n: nat, b: Bytes)
    requires k < |c.contents| && BodyAt(c, k) == Some(b) && n == Compressed(c.contents[k].chunks) && n <= |b|
    ensures BodyAt(c, k + 1) == Some(b[n..])
  {
  }

  lemma PullIsSound(p: Pull)
    requires Provided(p) && DigestsOk(p) && Computed(p)
    ensures Sound(p.f.z, p.loaded, p.contents, Datas(p))
  {
    hide Provided, DigestsOk, Computed, SoundContent;
    forall k | 0 <= k < |p.contents| ensures SoundContent(p.f.z, p.loaded, p.contents[k], Datas(p)[k]) {
      ContentIsSound(p, k);
    }
  }

  lemma DataOfContent(p: Pull, skip: seq<bool>, t: Bytes, disk: map<DiskPath, Bytes>, k: nat)
    requires LawfulFormat(p.f) && Provided(p) && DigestsOk(p) && Computed(p) && k < |p.contents|
    ensures FullData(ClientConfig(p, skip, t, disk), k) == Some(ContentData(p, k))
  {
    hide Provided, DigestsOk, Computed, BodyFrom, Body, ClientLayers, SoundContent, ContentBytes, BodyAt, ContentData;
    BodyOfContent(p, skip, t, disk, k);
    PullIsSound(p);
    ContentIsSound(p, k);
    BodyCons(p.f.z, p.loaded, p.contents, Datas(p), k, t);
    SoundBytes(p.f.z, p.loaded, p.contents[k], ContentData(p, k), BodyFrom(p.loaded, p.contents, k + 1) + t);
    assert BodyFrom(p.loaded, p.contents, k) + t
        == ContentBytes(p.loaded, p.contents[k]) + (BodyFrom(p.loaded, p.contents, k + 1) + t);
  }

  /** Every pull of a computed delta: in every interleaving of the extractor with any number of opens,
      once an open of payload file `i` is past its gate, the path it opens holds the bytes of the tar
      and goes on holding them, provided the file's order is not zero and its content's stack is not
      mistaken for its own. */
  lemma EarlyOpenReadsTar(p: Pull, existing: seq<ExistingFile>, skip: seq<bool>, t: Bytes, disk: map<DiskPath, Bytes>,
                          run: seq<State>, a: nat, b: nat, op: nat, i: nat)
    requires LawfulFormat(p.f) && Provided(p) && DigestsOk(p) && Computed(p) && Existing(p, existing)
      && SkipsByHash(p, skip)
    requires i < |p.rows| && Eligible(p.rows[i], p.available) && p.rows[i].digest !in p.best
    requires |p.files| == |p.rows| && ValidConfig(ClientConfig(p, skip, t, disk))
      && GateCondition(ClientConfig(p, skip, t, disk), i)
    requires IsRun(ClientConfig(p, skip, t, disk), run) && a <= b < |run| && op < |run[a].openers|
      && run[a].openers[op] == Passed(i)
    ensures |p.rows[i].digest| >= 12
    ensures var c := ClientConfig(p, skip, t, disk);
            RealPath(c, i) in run[b].disk && run[b].disk[RealPath(c, i)] == RowData(p, i)
  {
    FileResolves(p, existing, i);
    var c := ClientConfig(p, skip, t, disk);
    var o := p.files[i].payloadOrder;
    assert InContentOf(c, i, o);
    assert Canonical(p.contents[o].digest);
    hide Provided, DigestsOk, Computed, Existing, ValidConfig, IsRun, RealPath, FullData, ContentData, Eligible,
         ClientConfig, GateCondition;
    EarlyStartSafe(c, i, o);
    assert Holding(c, run[b], i, o);
    DataOfContent(p, skip, t, disk, o);
    ContentDataOf(p, o, i);
  }

  /** In every interleaving the extraction of a computed delta goes through. The extractor can always go on
      until it has marked every layer; it gets there within as many steps as the contents, their chunks and
      the layers add up to; and then it has read exactly the body. */
  lemma PullCompletes(p: Pull, skip: seq<bool>, t: Bytes, disk: map<DiskPath, Bytes>, run: seq<State>, i: nat)
    requires LawfulFormat(p.f) && Provided(p) && DigestsOk(p) && Computed(p) && |skip| == |p.dst|
    requires ValidConfig(ClientConfig(p, skip, t, disk)) && IsRun(ClientConfig(p, skip, t, disk), run) && i < |run|
    ensures !run[i].pc.Failed? && |run[i].closed| == |p.contents|
    ensures ExtractorStep(ClientConfig(p, skip, t, disk), run[i]).Some? <==> run[i].pc != Marking(|p.dst|)
    ensures Progress.Steps(run, i) <= Progress.LeftFrom(ClientConfig(p, skip, t, disk), 0)
    ensures run[i].pc == Marking(|p.dst|) ==>
      run[i].rest == t && forall j :: 0 <= j < |p.dst| ==>
        |p.dst[j].hash| >= 12 && CompletedJson(p.dst[j].hash) in run[i].disk
  {
    hide Provided, DigestsOk, Computed, ValidConfig, IsRun, ExtractFrom, Body, Delivered, Copyable, WellAddressed,
         LawfulFormat;
    hide ExtractorStep, Progress.LeftFrom, Wires;
    var c := ClientConfig(p, skip, t, disk);
    PullIsFaithful(p, skip, t, disk);
    Refinement.MachineRefinesExtract(c, run, i);
    assert c.hashes == Hashes(p.dst);
    forall j | 0 <= j < |p.dst| ensures |p.dst[j].hash| >= 12 {
      HashLength(c, j);
    }
    Progress.ExtractorMoves(c, run, i);
    Progress.StepsBounded(c, run, i);
  }

  lemma HashLength(c: Config, j: nat)
    requires ValidConfig(c) && j < |c.hashes|
    ensures |c.hashes[j]| >= 12
  {
  }

  /** The file a content was collected from is in that content, on the client's side. */
  lemma FirstFileOf(p: Pull, existing: seq<ExistingFile>, skip: seq<bool>, t: Bytes, disk: map<DiskPath, Bytes>, k: nat)
    requires Provided(p) && DigestsOk(p) && Computed(p) && Existing(p, existing) && SkipsByHash(p, skip)
      && k < |p.contents|
    ensures p.contents[k].files != [] && p.contents[k].files[0] < |p.files|
    ensures InContentOf(ClientConfig(p, skip, t, disk), p.contents[k].files[0], k)
  {
    ContentOf(p, k);
    var f := p.contents[k].files[0];
    assert f in p.contents[k].files;
    DigestMissing(p, k);
    FileResolves(p, existing, f);
    var o := p.files[f].payloadOrder;
    DistinctDigests(p.rows, p.available, p.best, p.maxRank, p.files, p.contents, p.bodyLength, k, o);
    hide Provided, DigestsOk, Computed, Existing, Eligible, RowData, Body, ClientLayers;
  }

  lemma DigestMissing(p: Pull, k: nat)
    requires Computed(p) && k < |p.contents|
    ensures p.contents[k].digest !in p.best
  {
    DistinctDigests(p.rows, p.available, p.best, p.maxRank, p.files, p.contents, p.bodyLength, k, k);
  }

  /** File `f` is in the first content, so it has no signal, and is safe to open early only if its bytes
      were there before and stay. */
  ghost predicate Unsignalled(c: Config, f: nat) {
    && ValidConfig(c) && f < |c.files| && c.contents != [] && InContentOf(c, f, 0) && c.files[f].payloadOrder == 0
    && FullData(c, 0).Some? && (GateSafe(c, f, 0) <==> AlreadyThere(c, f, 0))
    && (RealPath(c, f) !in c.disk ==> !GateSafe(c, f, 0))
  }

  lemma NoSignal(c: Config, f: nat)
    requires ValidConfig(c) && f < |c.files| && c.contents != [] && InContentOf(c, f, 0) && FullData(c, 0).Some?
    ensures Unsignalled(c, f)
  {
    hide FullData, RealPath, GateSafe;
    EarlyStartExactly(c, f, 0);
  }

  /** Every pull that sends anything has a file that cannot be opened early. */
  lemma FirstFileUnsafe(p: Pull, existing: seq<ExistingFile>, skip: seq<bool>, t: Bytes, disk: map<DiskPath, Bytes>)
    requires LawfulFormat(p.f) && Provided(p) && DigestsOk(p) && Computed(p) && Existing(p, existing)
      && SkipsByHash(p, skip)
    requires p.contents != [] && ValidConfig(ClientConfig(p, skip, t, disk))
    ensures p.contents[0].files != [] && Unsignalled(ClientConfig(p, skip, t, disk), p.contents[0].files[0])
  {
    hide LawfulFormat, Provided, DigestsOk, Computed, Existing, FullData, Body, ClientLayers, ValidConfig, Wires,
         ContentData, Unsignalled;
    FirstFileOf(p, existing, skip, t, disk, 0);
    DataOfContent(p, skip, t, disk, 0);
    NoSignal(ClientConfig(p, skip, t, disk), p.contents[0].files[0]);
  }

  lemma ContentDataOf(p: Pull, k: nat, i: nat)
    requires Provided(p) && DigestsOk(p) && Computed(p) && k < |p.contents| && i in p.contents[k].files
    ensures i < |p.rows| && Eligible(p.rows[i], p.available) && RowData(p, i) == ContentData(p, k)
  {
    hide Provided, DigestsOk, Computed, RowData, Eligible;
    ContentOf(p, k);
  }
}
