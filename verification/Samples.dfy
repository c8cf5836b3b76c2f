/** Pulls of real layers, for every lawful format: one with everything the main results ask for, in which
    one file refers to a layer the client has, one may be opened early, and two must not; and two pulls
    after one another, where a reference leads nowhere. */
module Samples {
  import opened Basics
  import opened Toc
  import opened Layer
  import opened Paths
  import opened Delta
  import opened Builder
  import opened Extraction
  import opened Stream
  import opened EndToEnd
  import opened PullMachine
  import opened EarlyStart
  import opened ClientView
  import opened TwoPulls
  import opened SampleLayer
  import opened SamplePull
  import SampleDelta
  import Progress
  import opened Response
  import PlainTable
  import PlainBundle
  import StoredCodec

  function DigestOf(c: char): (r: string)
    ensures Canonical(r) && r[7] == c
  {
    "sha256:" + seq(64, _ => c)
  }

  lemma NamesDiffer()
    ensures Clean("a") != Clean("b") && Clean("a") != Clean("c") && Clean("b") != Clean("c")
  {
    CleanRender(["a"]);
    CleanRender(["b"]);
    CleanRender(["c"]);
  }

  // --- an upgrade

  /** Three files in one layer, and the last of them once more in another. */
  function NewImage(): Image {
    Image([2, 3], [DigestOf('b'), DigestOf('c')],
          [[SmallFile("a", ONE), SmallFile("b", TWO), SmallFile("c", THREE)], [SmallFile("a", THREE)]])
  }

  const PICKS: seq<Pick> := [Pick(0, 0), Pick(0, 1), Pick(0, 2), Pick(1, 0)]

  const OLD: seq<LayerRow> := [LayerRow(1, DigestOf('a'), 100)]

  /** The four rows: the client has the digest of the first, the last two are the same file. */
  predicate FourRows(p: Pull) {
    && |p.rows| == 4 && p.available == {1} && p.best.Keys == {p.rows[0].digest} && p.best[p.rows[0].digest] == 1
    && (forall i :: 0 <= i < 4 ==> Eligible(p.rows[i], p.available) && Unreferenced(p.rows[i]) == p.rows[i])
    && p.rows[0].digest != p.rows[1].digest && p.rows[0].digest != p.rows[2].digest
       && p.rows[1].digest != p.rows[2].digest
    && p.rows[2].digest == p.rows[3].digest
    && p.rows[0].stack == p.rows[1].stack == p.rows[2].stack == 0 && p.rows[3].stack == 1
  }

  lemma NewImageIsSmall(f: Format)
    ensures AllSmall(NewImage()) && InImage(NewImage(), PICKS) && OneTwoThree(NewImage())
    ensures OneToOne(OLD + LayerRows(f, NewImage())) && Serials(OLD) == {1}
  {
    NamesDiffer();
    hide Clean, LayerWith;
    var image := NewImage();
    assert Small(image.files[0]) && Small(image.files[1]);
    assert OLD[0].serial == 1;
    var rows := OLD + LayerRows(f, image);
    assert rows[0] == OLD[0] && rows[1] == LayerRows(f, image)[0] && rows[2] == LayerRows(f, image)[1] && |rows| == 3;
    assert rows[0].hash[7] != rows[1].hash[7] && rows[0].hash[7] != rows[2].hash[7]
      && rows[1].hash[7] != rows[2].hash[7];
  }

  lemma UpgradePull(f: Format) returns (p: Pull)
    requires LawfulFormat(f) && TellsApart(f)
    ensures p.f == f && Provided(p) && Computed(p) && DigestsOk(p) && FourRows(p) && p.src == OLD
      && p.dst == LayerRows(f, NewImage())
    ensures p.contents == SampleDelta.ContentsOf(p.rows, p.available, p.best, p.maxRank)
  {
    NewImageIsSmall(f);
    hide LawfulFormat, AllSmall, OneToOne, Provided, Computed, DigestsOk, SampleDelta.ContentsOf, LayerRows, Layers,
         InImage, OneTwoThree;
    p := Sample(f, OLD, NewImage(), PICKS, map[f.sha(ONE) := 1]);
    SampleDigests(p, NewImage(), PICKS);
    assert forall i :: 0 <= i < 4 ==> IsPicked(f, NewImage(), PICKS[i], p.rows[i]);
  }

  lemma FirstsOfFour(p: Pull)
    requires FourRows(p)
    ensures SampleDelta.Firsts(p.rows, p.available, p.best, 4) == [1, 2]
  {
    hide Eligible, Unreferenced;
    var (r, a, b) := (p.rows, p.available, p.best);
    assert !SampleDelta.IsFirst(r, a, b, 0) && SampleDelta.IsFirst(r, a, b, 1) && SampleDelta.IsFirst(r, a, b, 2);
    assert !SampleDelta.IsFirst(r, a, b, 3);
    hide SampleDelta.IsFirst;
    assert SampleDelta.Firsts(r, a, b, 0) == [] && SampleDelta.Firsts(r, a, b, 1) == []
      && SampleDelta.Firsts(r, a, b, 2) == [1];
    assert SampleDelta.Firsts(r, a, b, 3) == [1, 2];
  }

  /** Two contents: the second file, and the third file, which is also the fourth. */
  lemma TwoContents(p: Pull)
    requires Provided(p) && Computed(p) && FourRows(p)
    requires p.contents == SampleDelta.ContentsOf(p.rows, p.available, p.best, p.maxRank)
    ensures |p.contents| == 2 && p.contents[0].digest == p.rows[1].digest && p.contents[1].digest == p.rows[2].digest
    ensures p.contents[0].stack == p.contents[1].stack == 0
  {
    hide Provided, Computed, Unreferenced, Eligible, SampleDelta.ContentsOf, Collected, LaidOut,
         SampleDelta.InStackOrder, SampleDelta.Firsts;
    RowsInOrder(p);
    FirstsOfFour(p);
    ContentCount(p);
    SampleDelta.ContentOfFirst(p.rows, p.available, p.best, p.maxRank, 0);
    SampleDelta.ContentOfFirst(p.rows, p.available, p.best, p.maxRank, 1);
    ContentMembers(p, 0);
    ContentMembers(p, 1);
  }

  lemma RowsInOrder(p: Pull)
    requires Provided(p)
    ensures SampleDelta.InStackOrder(p.rows)
  {
    hide IsConverted, RowOf, InSource, Unreferenced;
  }

  lemma ContentCount(p: Pull)
    requires p.contents == SampleDelta.ContentsOf(p.rows, p.available, p.best, p.maxRank)
    ensures |p.contents| == |SampleDelta.Firsts(p.rows, p.available, p.best, |p.rows|)|
  {
  }

  /** The fates of the four files, as the client is told. */
  predicate FourFates(p: Pull) {
    && |p.files| == |p.rows| == 4 && |p.contents| == 2 && |p.dst| == 2
    && p.files[0].referenceFsId == 1
    && (forall i :: 1 <= i < 4 ==> p.files[i].referenceFsId == 0 && p.files[i].referenceStack == 0)
    && p.files[1].payloadOrder == 0 && p.files[2].payloadOrder == p.files[3].payloadOrder == 1
    && (forall i :: 0 <= i < 4 ==> p.files[i].stack == p.rows[i].stack && p.files[i].digest == p.rows[i].digest)
  }

  lemma Fate(p: Pull, existing: seq<ExistingFile>, i: nat, k: nat)
    requires Provided(p) && DigestsOk(p) && Computed(p) && Existing(p, existing) && i < |p.rows| && k < |p.contents|
    requires Eligible(p.rows[i], p.available)
    requires p.rows[i].digest !in p.best ==> p.contents[k].digest == p.rows[i].digest
    ensures |p.files| == |p.rows| && p.files[i].stack == p.rows[i].stack && p.files[i].digest == p.rows[i].digest
    ensures p.rows[i].digest in p.best ==> p.files[i].referenceFsId == p.best[p.rows[i].digest]
    ensures p.rows[i].digest !in p.best ==>
      p.files[i].payloadOrder == k && p.files[i].referenceFsId == 0 && p.files[i].referenceStack == p.contents[k].stack
  {
    assert HasContent(p.rows[i]);
    hide Provided, DigestsOk, Computed, Existing, Eligible, ClientLayers;
    FileResolves(p, existing, i);
    if p.rows[i].digest in p.best {
      RefersTo(p, existing, i);
    } else {
      DistinctDigests(p.rows, p.available, p.best, p.maxRank, p.files, p.contents, p.bodyLength, k,
            p.files[i].payloadOrder);
    }
  }

  lemma FourAreFated(p: Pull, existing: seq<ExistingFile>)
    requires Provided(p) && DigestsOk(p) && Computed(p) && Existing(p, existing) && FourRows(p) && |p.dst| == 2
    requires p.contents == SampleDelta.ContentsOf(p.rows, p.available, p.best, p.maxRank)
    ensures FourFates(p)
  {
    hide Provided, DigestsOk, Computed, Existing, Eligible, Unreferenced, SampleDelta.ContentsOf;
    TwoContents(p);
    assert p.rows[0].digest in p.best && forall i :: 1 <= i < 4 ==> p.rows[i].digest !in p.best;
    Fate(p, existing, 0, 0);
    Fate(p, existing, 1, 0);
    Fate(p, existing, 2, 1);
    Fate(p, existing, 3, 1);
  }

  /** The pull before its first step, with no layer to skip. */
  function Fresh(p: Pull, existing: seq<ExistingFile>, disk: map<DiskPath, Bytes>): Client {
    var skip := seq(|p.dst|, _ => false);
    Client(p, existing, skip, disk, [Start(ClientConfig(p, skip, [], disk))])
  }

  lemma FreshIsProper(p: Pull, existing: seq<ExistingFile>, disk: map<DiskPath, Bytes>)
    requires LawfulFormat(p.f) && Provided(p) && DigestsOk(p) && Computed(p) && Existing(p, existing)
    ensures Proper(Fresh(p, existing, disk))
  {
    hide LawfulFormat, Provided, DigestsOk, Computed, Existing, ClientConfig, ValidConfig, Start;
    var m := Fresh(p, existing, disk);
    ViewIsValid(p, existing, m.skip, [], disk);
  }

  /** File `f` is in content `o`, which decodes; and it is safe to open early, or not. */
  ghost predicate Opens(c: Config, f: nat, o: nat, safe: bool) {
    && ValidConfig(c) && f < |c.files| && o < |c.contents| && InContentOf(c, f, o) && Decodes(c, o + 1)
    && (GateSafe(c, f, o) <==> safe)
  }

  lemma OpensExactly(c: Config, f: nat, o: nat)
    requires ValidConfig(c) && f < |c.files| && o < |c.contents| && InContentOf(c, f, o) && Decodes(c, o + 1)
    requires c.disk == map[] && !c.skip[c.contents[o].stack]
    ensures Opens(c, f, o, c.files[f].payloadOrder >= 1 && RightPath(c, f))
  {
    hide ValidConfig, GateSafe, Decodes, RealPath, FullData, InContentOf;
    EarlyStartExactly(c, f, o);
  }

  /** All that the main results ask for, and the four files: the first refers to the layer the client has,
      the second has order zero and must not be opened early, the third may be, and the fourth must not,
      since its content's stack is zero and it is not in the lowest layer. */
  ghost predicate Upgraded(m: Client) {
    && Proper(m) && FourFates(m.p) && m.p.src == OLD && m.skip == [false, false]
    && Opens(ConfigOf(m), 1, 0, false) && Opens(ConfigOf(m), 2, 1, true) && Opens(ConfigOf(m), 3, 1, false)
  }

  lemma DecodesAll(m: Client, n: nat)
    requires Proper(m) && n <= |m.p.contents|
    ensures Decodes(ConfigOf(m), n)
  {
    hide LawfulFormat, Provided, DigestsOk, Computed, Existing, IsRun, ContentData, FullData;
    forall k: nat | k < n ensures FullData(ConfigOf(m), k).Some? {
      DataOfContent(m.p, m.skip, [], m.disk, k);
    }
  }

  lemma FourOpens(m: Client)
    requires Proper(m) && FourRows(m.p) && FourFates(m.p) && m.disk == map[] && m.skip == [false, false]
      && m.p.src == OLD
    requires m.p.contents[0].digest == m.p.rows[1].digest && m.p.contents[1].digest == m.p.rows[2].digest
    requires m.p.contents[0].stack == m.p.contents[1].stack == 0 && m.p.dst[0].hash != m.p.dst[1].hash
    ensures Upgraded(m)
  {
    hide LawfulFormat, Provided, DigestsOk, Computed, Existing, IsRun, SkipsByHash, Body, ClientLayers, Decodes, Opens;
    DecodesAll(m, 1);
    DecodesAll(m, 2);
    var c := ConfigOf(m);
    assert forall i :: 0 <= i < 4 ==> c.files[i] == OnWire(m.p.files[i]);
    assert |c.contents| == 2 && c.contents[0] == WireOf(m.p.contents[0]) && c.contents[1] == WireOf(m.p.contents[1]);
    assert c.hashes == Hashes(m.p.dst);
    assert ValidConfig(c);
    hide Proper, ClientConfig, Hashes, ValidConfig;
    OpensExactly(c, 1, 0);
    OpensExactly(c, 2, 1);
    OpensExactly(c, 3, 1);
  }

  lemma UpgradeMeetsAll(f: Format) returns (m: Client)
    requires LawfulFormat(f) && TellsApart(f)
    ensures Upgraded(m) && m.p.f == f
  {
    hide LawfulFormat, Provided, DigestsOk, Computed, Proper, LayerWith, OneTwoThree, TellsApart,
         SampleDelta.ContentsOf;
    var p := UpgradePull(f);
    var existing := [ExistingFile(p.rows[0].digest, 1)];
    assert existing[0] == ExistingFile(p.rows[0].digest, p.best[p.rows[0].digest]);
    assert Existing(p, existing);
    hide Existing;
    m := Fresh(p, existing, map[]);
    FreshIsProper(p, existing, map[]);
    TwoContents(p);
    FourAreFated(p, existing);
    assert p.dst[0].hash[7] != p.dst[1].hash[7];
    FourOpens(m);
  }

  /** No layer is marked yet, and an open of the third file is past its gate. */
  ghost predicate OpenedEarly(c: Config, run: seq<State>) {
    ValidConfig(c) && IsRun(c, run) && run[|run| - 1].pc == AtContent(|c.contents|)
      && Passed(2) in run[|run| - 1].openers
  }

  lemma OpenHappens(c: Config) returns (run: seq<State>)
    requires Opens(c, 2, 1, true) && |c.contents| == 2 && !c.skip[c.contents[1].stack] && HasSignal(c, 2)
    requires c.files[2].payloadOrder == 1
    ensures OpenedEarly(c, run)
  {
    run := RunTo(c, 2);
    RunInv(c, run, |run| - 1);
    var s := run[|run| - 1];
    assert s.closed[1] == 1;
    hide IsRun, Inv, ValidConfig, Opens, ExtractorStep;
    run := Step(c, run, Open(2));
    var t := run[|run| - 1];
    assert t.openers[|s.openers|] == Waiting(2);
    run := Step(c, run, Wake(|s.openers|));
    assert run[|run| - 1].openers[|s.openers|] == Passed(2);
  }

  /** An open does get through before the pull is done. */
  lemma EarlyOpenHappens(m: Client) returns (run: seq<State>)
    requires Upgraded(m)
    ensures OpenedEarly(ConfigOf(m), run)
  {
    var c := ConfigOf(m);
    assert c.files[2] == OnWire(m.p.files[2]);
    assert |c.contents| == 2;
    hide Proper, FourFates, ConfigOf;
    run := OpenHappens(c);
  }

  // --- two pulls after one another

  const BOTH: seq<Pick> := [Pick(0, 0), Pick(1, 0)]
  const ONLY: seq<Pick> := [Pick(0, 0)]

  /** One file, in two layers. */
  function FirstImage(): Image {
    Image([1, 2], [DigestOf('a'), DigestOf('b')], [[SmallFile("a", ONE)], [SmallFile("a", ONE)]])
  }

  /** The same file in a new layer. */
  function SecondImage(): Image {
    Image([3], [DigestOf('c')], [[SmallFile("a", ONE)]])
  }

  lemma ImagesAreSmall()
    ensures AllSmall(FirstImage()) && InImage(FirstImage(), BOTH) && OneTwoThree(FirstImage())
    ensures AllSmall(SecondImage()) && InImage(SecondImage(), ONLY) && OneTwoThree(SecondImage())
  {
    hide Clean;
    assert Small([SmallFile("a", ONE)]);
  }

  lemma SerialsDiffer(f: Format)
    ensures OneToOne(LayerRows(f, FirstImage()) + LayerRows(f, SecondImage()))
  {
    hide LayerWith;
    var rows, more := LayerRows(f, FirstImage()), LayerRows(f, SecondImage());
    assert |rows| == 2 && |more| == 1;
    var all := rows + more;
    assert all[0] == rows[0] && all[1] == rows[1] && all[2] == more[0] && |all| == 3;
    assert all[0].hash[7] != all[1].hash[7] && all[0].hash[7] != all[2].hash[7] && all[1].hash[7] != all[2].hash[7];
    hide LayerRows;
  }

  lemma FirstSerials(f: Format)
    ensures var rows := LayerRows(f, FirstImage());
            OneToOne([] + rows) && Serials([]) == {} && Serials(rows) == {1, 2}
  {
    hide LayerWith;
    var rows := LayerRows(f, FirstImage());
    assert [] + rows == rows && |rows| == 2;
    assert rows[0].hash[7] != rows[1].hash[7];
    hide LayerRows;
  }

  /** The first pull, from nothing, stores the file in the lower layer. */
  lemma FirstPull(f: Format) returns (m: Client)
    requires LawfulFormat(f) && TellsApart(f)
    ensures AllExtracted(m) && m.p.f == f && m.p.available == {} && m.disk == map[] && m.skip == [false, false]
    ensures m.p.dst == LayerRows(f, FirstImage()) && m.p.layers == Layers(f, FirstImage())
    ensures ArePicked(f, FirstImage(), BOTH, m.p.rows)
  {
    ImagesAreSmall();
    SerialsDiffer(f);
    FirstSerials(f);
    hide LawfulFormat, AllSmall, OneToOne, Provided, Computed, DigestsOk, SampleDelta.ContentsOf, LayerRows, Layers,
         InImage, OneTwoThree;
    var p := Sample(f, [], FirstImage(), BOTH, map[]);
    SampleDigests(p, FirstImage(), BOTH);
    assert Existing(p, []);
    hide Existing, ArePicked, Proper, Fresh;
    FreshIsProper(p, [], map[]);
    m := ToTheEnd(Fresh(p, [], map[]));
  }

  /** The same pull, run to its end. */
  lemma ToTheEnd(m: Client) returns (n: Client)
    requires Proper(m)
    ensures n == m.(run := n.run) && AllExtracted(n)
  {
    hide LawfulFormat, Provided, DigestsOk, Computed, Existing, ValidConfig, IsRun, ClientConfig;
    var run := Progress.Finish(ConfigOf(m), m.run);
    PullCompletes(m.p, m.skip, [], m.disk, run, |run| - 1);
    n := m.(run := run);
  }

  /** The second pull, from the first image: the digest is known from both of its layers. */
  lemma SecondPull(m: Client) returns (n: Client)
    requires AllExtracted(m) && TellsApart(m.p.f) && m.p.dst == LayerRows(m.p.f, FirstImage())
    ensures AllExtracted(n) && n.p.f == m.p.f && n.p.src == m.p.dst && n.disk == DiskOf(m) && n.p.available == {1, 2}
    ensures n.p.best == map[m.p.f.sha(ONE) := 2]
    ensures n.existing == [ExistingFile(m.p.f.sha(ONE), 1), ExistingFile(m.p.f.sha(ONE), 2)]
    ensures n.p.dst == LayerRows(m.p.f, SecondImage()) && n.p.layers == Layers(m.p.f, SecondImage())
    ensures ArePicked(m.p.f, SecondImage(), ONLY, n.p.rows)
  {
    var f := m.p.f;
    ImagesAreSmall();
    SerialsDiffer(f);
    FirstSerials(f);
    hide LawfulFormat, AllSmall, OneToOne, Provided, Computed, DigestsOk, SampleDelta.ContentsOf, LayerRows, Layers,
         InImage, OneTwoThree;
    var best := map[f.sha(ONE) := 2];
    var p := Sample(f, m.p.dst, SecondImage(), ONLY, best);
    SampleDigests(p, SecondImage(), ONLY);
    var existing := [ExistingFile(f.sha(ONE), 1), ExistingFile(f.sha(ONE), 2)];
    assert existing[1] == ExistingFile(f.sha(ONE), best[f.sha(ONE)]);
    assert Existing(p, existing);
    hide Existing, ArePicked, Proper, Fresh;
    FreshIsProper(p, existing, DiskOf(m));
    n := ToTheEnd(Fresh(p, existing, DiskOf(m)));
  }

  lemma AlikeFiles(p: Pull, q: Pull)
    requires p.f == q.f && TellsApart(p.f)
    requires p.layers == Layers(p.f, FirstImage()) && q.layers == Layers(p.f, SecondImage())
    ensures SameFiles(p, q)
  {
    ImagesAreSmall();
    hide Layers, OneTwoThree, InPlay;
    forall a: TarItem | InPlay(p, a) ensures a.Item? && a.data in [ONE, TWO, THREE] {
      InPlayIsSmall(p, FirstImage(), a);
    }
    forall b: TarItem | InPlay(q, b) ensures b.Item? && b.data in [ONE, TWO, THREE] {
      InPlayIsSmall(q, SecondImage(), b);
    }
  }

  /** The file of the second image is said to be in layer 2, was stored in layer 1, and is not found even
      when both pulls are done. */
  ghost predicate LeadsNowhere(m: Client, n: Client, k: nat) {
    && AllExtracted(m) && AllExtracted(n) && Upgrades(m, n) && Follows(m, n, k, 0)
    && |n.p.files| == 1 && n.p.files[0].referenceFsId == 2
    && m.p.dst[0].serial == 1 && StoredIn(m.p, k) == m.p.dst[0].hash && OpenFinds(n, 0, false)
  }

  /** What the two pulls have in common, for the one file. */
  ghost predicate OneDigest(m: Client, n: Client, d: string) {
    && |m.p.rows| == 2 && m.p.rows[0].digest == m.p.rows[1].digest == d && HasContent(m.p.rows[0])
       && HasContent(m.p.rows[1])
    && m.p.rows[0].stack == 0 && m.p.rows[1].stack == 1 && m.p.rows[0].fsId == 1 && m.p.rows[1].fsId == 2
    && |n.p.rows| == 1 && n.p.rows[0].digest == d && n.p.rows[0].stack == 0 && Eligible(n.p.rows[0], n.p.available)
    && n.p.best == map[d := 2] && n.existing == [ExistingFile(d, 1), ExistingFile(d, 2)] && m.p.available == {}
  }

  lemma DoesUpgrade(m: Client, n: Client, d: string)
    requires Proper(m) && Proper(n) && OneDigest(m, n, d) && n.p.src == m.p.dst
    ensures Upgrades(m, n)
  {
    hide Proper, HasContent, Eligible;
    forall e | e in n.existing
      ensures exists r ::
        0 <= r < |m.p.rows| && HasContent(m.p.rows[r]) && e == ExistingFile(m.p.rows[r].digest, m.p.rows[r].fsId)
    {
      var r := e.fsId - 1;
      assert HasContent(m.p.rows[r]) && e == ExistingFile(m.p.rows[r].digest, m.p.rows[r].fsId);
    }
  }

  /** The first pull stored the file in layer 1; the second looks for it in layer 2. */
  lemma StoredBelow(m: Client, n: Client, d: string) returns (k: nat)
    requires Upgrades(m, n) && OneDigest(m, n, d) && |m.p.dst| == 2 && |n.p.dst| == 1
    ensures k < |m.p.contents| && m.p.contents[k].digest == d && m.p.contents[k].stack == 0
    ensures LooksIn(n.p, 0) == m.p.dst[1].hash
  {
    var r: nat;
    hide Proper, Upgrades, LooksIn, Eligible;
    assert n.existing[1] in n.existing;
    k, r := FirstPullHas(m, n, 0);
    assert HasContent(m.p.rows[0]) && HasContent(m.p.rows[1]);
    assert ExistingFile(m.p.rows[1].digest, m.p.rows[1].fsId) in n.existing;
    assert r == 1;
  }

  lemma PicksShare(m: Client, n: Client)
    requires ArePicked(m.p.f, FirstImage(), BOTH, m.p.rows) && ArePicked(m.p.f, SecondImage(), ONLY, n.p.rows)
    requires n.p.best == map[m.p.f.sha(ONE) := 2] && n.p.available == {1, 2} && m.p.available == {}
      && Canonical(m.p.f.sha(ONE))
    requires n.existing == [ExistingFile(m.p.f.sha(ONE), 1), ExistingFile(m.p.f.sha(ONE), 2)]
    ensures OneDigest(m, n, m.p.f.sha(ONE))
  {
    hide Unreferenced;
    assert IsPicked(m.p.f, FirstImage(), BOTH[0], m.p.rows[0]) && IsPicked(m.p.f, FirstImage(), BOTH[1], m.p.rows[1]);
    assert IsPicked(m.p.f, SecondImage(), ONLY[0], n.p.rows[0]);
  }

  lemma TwoHashes(f: Format)
    ensures var rows := LayerRows(f, FirstImage());
            && |rows| == 2 && rows[0].hash != rows[1].hash && rows[0].serial == 1 && |LayerRows(f, SecondImage())| == 1
  {
    hide LayerWith;
    assert LayerRows(f, FirstImage())[0].hash[7] != LayerRows(f, FirstImage())[1].hash[7];
  }

  lemma LooksSomewhere(m: Client, n: Client, d: string)
    requires Proper(n) && OneDigest(m, n, d)
    ensures HasContent(n.p.rows[0]) && n.p.rows[0].stack < |n.p.dst| && Canonical(d) && Canonical(LooksIn(n.p, 0))
  {
    assert HasContent(n.p.rows[0]);
    hide Proper, HasContent, Eligible, LooksIn, RealPath, Canonical, FileAt;
    OpensThere(n, 0);
  }

  lemma ItFollows(m: Client, n: Client, k: nat, d: string)
    requires AllExtracted(m) && AllExtracted(n) && OneDigest(m, n, d) && SameFiles(m.p, n.p) && n.disk == DiskOf(m)
      && m.disk == map[]
    requires |m.p.dst| == 2 && |n.p.dst| == 1 && m.skip == [false, false]
    requires k < |m.p.contents| && m.p.contents[k].digest == d && m.p.contents[k].stack == 0
    ensures Follows(m, n, k, 0)
  {
    hide Proper, SameFiles, HasContent, Eligible, LooksIn, Canonical, FileAt;
    LooksSomewhere(m, n, d);
  }

  lemma RefersToTwo(m: Client, n: Client, d: string)
    requires Proper(n) && OneDigest(m, n, d)
    ensures |n.p.files| == 1 && n.p.files[0].referenceFsId == 2
  {
    assert HasContent(n.p.rows[0]);
    hide LawfulFormat, Provided, DigestsOk, Computed, Existing, ValidConfig, IsRun, HasContent, Eligible;
    RefersTo(n.p, n.existing, 0);
  }

  lemma ReferenceLeadsNowhere(f: Format) returns (m: Client, n: Client, k: nat)
    requires LawfulFormat(f) && TellsApart(f)
    ensures LeadsNowhere(m, n, k) && m.p.f == f
  {
    var d := f.sha(ONE);
    assert Canonical(d);
    hide LawfulFormat, TellsApart, OneDigest, Upgrades, Proper, Follows, OpenFinds, LayerRows, Layers, SameFiles,
         LooksIn, ArePicked, Canonical;
    hide Eligible;
    TwoHashes(f);
    m := FirstPull(f);
    n := SecondPull(m);
    PicksShare(m, n);
    DoesUpgrade(m, n, d);
    AlikeFiles(m.p, n.p);
    k := StoredBelow(m, n, d);
    ItFollows(m, n, k, d);
    FoundExactly(m, n, k, 0);
    RefersToTwo(m, n, d);
  }

  // --- altogether

  /** With a concrete format and a concrete header encoding: everything the main results ask for can be met,
      with a reference, a safe early open and two unsafe ones; and references can lead nowhere. */
  lemma SamplesExist() returns (f: Format, json: Json, u: Client, run: seq<State>, m: Client, n: Client, k: nat)
    ensures LawfulFormat(f) && LawfulJson(json)
    ensures u.p.f == f && Upgraded(u) && OpenedEarly(ConfigOf(u), run)
    ensures m.p.f == f && LeadsNowhere(m, n, k)
  {
    var sha: Bytes -> string :=
      data => if data == ONE then DigestOf('1') else if data == TWO then DigestOf('2') else DigestOf('3');
    assert sha(ONE) == DigestOf('1') && sha(TWO) == DigestOf('2') && sha(THREE) == DigestOf('3');
    assert sha(ONE)[7] != sha(TWO)[7] && sha(ONE)[7] != sha(THREE)[7] && sha(TWO)[7] != sha(THREE)[7];
    f := Format(StoredCodec.STORED, sha, PlainTable.WritePlain, PlainTable.AsIs, PlainTable.ReadPlain);
    assert TellsApart(f);
    json := Json(PlainBundle.WriteBundle, PlainBundle.ReadBundle);
    hide LawfulFormat, LawfulJson, Upgraded, LeadsNowhere, TellsApart, DigestOf;
    PlainTable.PlainIsLawful(sha);
    PlainBundle.PlainBundleIsLawful();
    u := UpgradeMeetsAll(f);
    run := EarlyOpenHappens(u);
    m, n, k := ReferenceLeadsNowhere(f);
  }
}
