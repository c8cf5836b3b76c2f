/** Pulls that are known to exist: the requested files are picked from sample layers, and the delta is one
    that every input has. */
module SamplePull {
  import opened Basics
  import opened Toc
  import opened Layer
  import opened Paths
  import opened TocScan
  import opened Delta
  import opened Builder
  import opened Extraction
  import opened EndToEnd
  import opened SampleLayer
  import Extractor
  import Footer
  import SampleDelta

  const ONE: Bytes := [1]
  const TWO: Bytes := [2]
  const THREE: Bytes := [3]

  /** The layers of an image: serial, hash and files of each. */
  datatype Image = Image(serials: seq<int>, hashes: seq<string>, files: seq<seq<SmallFile>>)

  /** A requested file: its layer and its position there. */
  datatype Pick = Pick(stack: nat, file: nat)

  predicate InImage(image: Image, picks: seq<Pick>) {
    && |image.serials| == |image.hashes| == |image.files|
    && (forall i :: 0 <= i < |picks| ==>
          picks[i].stack < |image.files| && picks[i].file < |image.files[picks[i].stack]|)
    && (forall i, j :: 0 <= i < j < |picks| ==> picks[i].stack <= picks[j].stack)
  }

  ghost predicate AllSmall(image: Image) {
    forall s :: 0 <= s < |image.files| ==> Small(image.files[s])
  }

  function LayerOf(f: Format, image: Image, s: nat): Converted
    requires s < |image.files|
  {
    LayerWith(f, image.files[s])
  }

  function LayerRows(f: Format, image: Image): (r: seq<LayerRow>)
    requires |image.serials| == |image.hashes| == |image.files|
    ensures |r| == |image.files|
    ensures forall s :: 0 <= s < |r| ==>
      r[s] == LayerRow(image.serials[s], image.hashes[s], |LayerOf(f, image, s).blob|)
  {
    seq(|image.files|, s requires 0 <= s < |image.files| =>
      LayerRow(image.serials[s], image.hashes[s], |LayerOf(f, image, s).blob|))
  }

  function Loaded(f: Format, image: Image): (r: seq<ImageLayer>)
    requires |image.serials| == |image.hashes| == |image.files|
    ensures |r| == |image.files|
    ensures forall s :: 0 <= s < |r| ==>
      r[s] == ImageLayer(LayerRows(f, image)[s], false, Some(LayerOf(f, image, s).blob))
  {
    seq(|image.files|, s requires 0 <= s < |image.files| =>
      ImageLayer(LayerRows(f, image)[s], false, Some(LayerOf(f, image, s).blob)))
  }

  function Layers(f: Format, image: Image): (r: seq<Converted>)
    ensures |r| == |image.files| && forall s :: 0 <= s < |r| ==> r[s] == LayerOf(f, image, s)
  {
    seq(|image.files|, s requires 0 <= s < |image.files| => LayerOf(f, image, s))
  }

  function FileOf(image: Image, pick: Pick): SmallFile
    requires pick.stack < |image.files| && pick.file < |image.files[pick.stack]|
  {
    image.files[pick.stack][pick.file]
  }

  predicate IsPicked(f: Format, image: Image, pick: Pick, row: RankedFile)
    requires pick.stack < |image.files| == |image.serials| && pick.file < |image.files[pick.stack]|
  {
    && row.fsId == image.serials[pick.stack] && row.stack == pick.stack && row.rank == 0.0 && Unreferenced(row) == row
    && row.digest == f.sha(FileOf(image, pick).data) && row.size == |FileOf(image, pick).data| > 0
  }

  /** The rows are those of the picked files. */
  predicate ArePicked(f: Format, image: Image, picks: seq<Pick>, rows: seq<RankedFile>) {
    && |rows| == |picks| && |image.serials| == |image.files|
    && forall i :: 0 <= i < |picks| ==>
         && picks[i].stack < |image.files| && picks[i].file < |image.files[picks[i].stack]|
         && IsPicked(f, image, picks[i], rows[i])
  }

  /** The row is the one saved for the file. */
  predicate Saved(f: Format, image: Image, pick: Pick, row: RankedFile)
    requires pick.stack < |image.files| == |image.serials|
  {
    && row.name in ScanOf(LayerOf(f, image, pick.stack)).m
    && row == RowOf(LayerOf(f, image, pick.stack), row.name, image.serials[pick.stack], pick.stack, 0.0)
  }

  /** The row of a picked file, and what is known of it. */
  lemma PickedRow(f: Format, image: Image, pick: Pick) returns (row: RankedFile)
    requires LawfulFormat(f) && AllSmall(image) && pick.stack < |image.files| == |image.serials|
    requires pick.file < |image.files[pick.stack]|
    ensures Saved(f, image, pick, row) && IsPicked(f, image, pick, row)
  {
    SampleRow(f, image.files[pick.stack], pick.file);
    hide ScanFrom, LayerWith, Extractor.SavedRow, Clean;
    row := RowOf(LayerOf(f, image, pick.stack), Clean(FileOf(image, pick).name), image.serials[pick.stack], pick.stack,
          0.0);
  }

  /** The rows of all picked files. */
  lemma {:induction false} PickedRows(f: Format, image: Image, picks: seq<Pick>) returns (rows: seq<RankedFile>)
    requires LawfulFormat(f) && AllSmall(image) && InImage(image, picks)
    ensures |rows| == |picks|
    ensures forall i :: 0 <= i < |rows| ==> Saved(f, image, picks[i], rows[i]) && IsPicked(f, image, picks[i], rows[i])
    decreases |picks|
  {
    hide RowOf, ScanOf, AllSmall, IsPicked, Saved;
    if picks == [] {
      rows := [];
    } else {
      var n := |picks| - 1;
      rows := PickedRows(f, image, picks[..n]);
      var row := PickedRow(f, image, picks[n]);
      rows := rows + [row];
    }
  }

  function Serials(rows: seq<LayerRow>): set<int> {
    set i | 0 <= i < |rows| :: rows[i].serial
  }

  /** Whatever the source and the best serials, there is a pull of the picked files. */
  lemma Sample(f: Format, src: seq<LayerRow>, image: Image, picks: seq<Pick>, best: map<string, int>) returns (p: Pull)
    requires LawfulFormat(f) && AllSmall(image) && InImage(image, picks) && OneToOne(src + LayerRows(f, image))
    ensures p.f == f && p.src == src && p.dst == LayerRows(f, image) && p.layers == Layers(f, image)
    ensures p.available == Serials(src) && p.best == best && p.maxRank == 1.0
    ensures Provided(p) && Computed(p) && p.contents == SampleDelta.ContentsOf(p.rows, p.available, best, 1.0)
    ensures ArePicked(f, image, picks, p.rows)
  {
    hide Saved, IsPicked, AllSmall;
    var rows := PickedRows(f, image, picks);
    StacksRise(f, image, picks, rows);
    var dst := LayerRows(f, image);
    var after := SampleDelta.DeltaExists(rows, Serials(src), best, 1.0);
    var cs := SampleDelta.ContentsOf(rows, Serials(src), best, 1.0);
    p := Pull(f, CHUNK, src, dst, Layers(f, image), rows, Serials(src), best, 1.0, after, cs, OffsetOf(cs, |cs|),
          Loaded(f, image));
    hide DeltaOk, SampleDelta.ContentsOf, Provided, Layers, Loaded, OneToOne;
    SampleProvided(p, image, picks);
  }

  lemma StacksRise(f: Format, image: Image, picks: seq<Pick>, rows: seq<RankedFile>)
    requires InImage(image, picks) && |rows| == |picks|
    requires forall i :: 0 <= i < |rows| ==> IsPicked(f, image, picks[i], rows[i])
    ensures SampleDelta.InStackOrder(rows)
  {
  }

  lemma SampleProvided(p: Pull, image: Image, picks: seq<Pick>)
    requires LawfulFormat(p.f) && AllSmall(image) && InImage(image, picks) && OneToOne(p.src + p.dst)
      && p.chunkSize == CHUNK
    requires p.dst == LayerRows(p.f, image) && p.layers == Layers(p.f, image) && p.loaded == Loaded(p.f, image)
    requires p.available == Serials(p.src) && |p.rows| == |picks|
    requires forall i :: 0 <= i < |picks| ==>
      Saved(p.f, image, picks[i], p.rows[i]) && IsPicked(p.f, image, picks[i], p.rows[i])
    ensures Provided(p)
  {
    forall s | 0 <= s < |p.layers| ensures IsConverted(p.f, CHUNK, p.layers[s]) {
      SampleIsConverted(p.f, image.files[s]);
    }
    hide RowOf, ScanOf, LayerWith, IsConverted, OneToOne, LawfulFormat, AllSmall, Unreferenced;
  }

  /** A digest function that is well formed on three files and tells them apart. */
  predicate TellsApart(f: Format) {
    && Canonical(f.sha(ONE)) && Canonical(f.sha(TWO)) && Canonical(f.sha(THREE))
    && f.sha(ONE) != f.sha(TWO) && f.sha(ONE) != f.sha(THREE) && f.sha(TWO) != f.sha(THREE)
  }

  predicate OneTwoThree(image: Image) {
    forall s :: 0 <= s < |image.files| ==>
      forall k :: 0 <= k < |image.files[s]| ==> image.files[s][k].data in [ONE, TWO, THREE]
  }

  lemma InPlayIsSmall(p: Pull, image: Image, it: TarItem)
    requires p.layers == Layers(p.f, image) && OneTwoThree(image) && InPlay(p, it)
    ensures it.Item? && it.data in [ONE, TWO, THREE]
  {
    hide Groups, Members, Footer.FooterBytes;
    var s :| 0 <= s < |p.layers| && it in p.layers[s].log;
    assert p.layers[s].log == Log(image.files[s]);
  }

  lemma SampleDigests(p: Pull, image: Image, picks: seq<Pick>)
    requires p.layers == Layers(p.f, image) && OneTwoThree(image) && TellsApart(p.f) && InImage(image, picks)
    requires (forall i :: 0 <= i < |p.dst| ==> Canonical(p.dst[i].hash))
      && (forall i :: 0 <= i < |p.src| ==> Canonical(p.src[i].hash))
    requires ArePicked(p.f, image, picks, p.rows)
    ensures DigestsOk(p)
  {
    hide Layers, Canonical;
    forall a: TarItem | InPlay(p, a) ensures a.data in [ONE, TWO, THREE] {
      InPlayIsSmall(p, image, a);
    }
    hide InPlay;
    forall i | 0 <= i < |p.rows| ensures Canonical(p.rows[i].digest) {
      assert FileOf(image, picks[i]).data in [ONE, TWO, THREE];
    }
  }
}
