/** The pull machine does what extraction is specified to do, one atomic step at a time, whoever opens
    what in the meantime. */
module Refinement {
  import opened Basics
  import opened Toc
  import opened Extraction
  import opened PullMachine

  function ExtractAt(c: Config, k: nat, s: Bytes, disk: map<DiskPath, Bytes>): Option<Extracted>
    requires ValidConfig(c) && k <= |c.contents|
  {
    ExtractFrom(c.z, c.hashes, c.skip, c.contents, k, s, disk)
  }

  /** What extracting the whole body is specified to do. */
  function Specified(c: Config): Option<Extracted>
    requires ValidConfig(c)
  {
    ExtractAt(c, 0, c.body, c.disk)
  }

  /** The disk once the first `n` layers have been marked. */
  function Marked(c: Config, disk: map<DiskPath, Bytes>, n: nat): map<DiskPath, Bytes>
    requires ValidConfig(c) && n <= |c.hashes|
  {
    if n == 0 then disk else Marked(c, disk, n - 1)[CompletedJson(c.hashes[n - 1]) := []]
  }

  /** The first `n` layers have their marks, and nothing else has changed. */
  lemma {:induction false} MarkedIs(c: Config, disk: map<DiskPath, Bytes>, n: nat)
    requires ValidConfig(c) && n <= |c.hashes|
    ensures var d := Marked(c, disk, n);
            && (forall i :: 0 <= i < n ==> CompletedJson(c.hashes[i]) in d)
            && (forall p :: p in disk ==> p in d)
            && (forall p :: p in d && (forall i :: 0 <= i < n ==> p != CompletedJson(c.hashes[i])) ==>
                  p in disk && d[p] == disk[p])
    decreases n
  {
    hide CompletedJson, ValidConfig;
    if n > 0 {
      MarkedIs(c, disk, n - 1);
    }
  }

  /** Part of content `k` has been decoded: what was there before it began would end as specified. */
  ghost predicate Within(c: Config, s: State, k: nat, j: nat, b: Bytes, disk: map<DiskPath, Bytes>)
    requires ValidConfig(c) && k < |c.contents|
  {
    && !c.skip[c.contents[k].stack] && ContentPath(c, k) in s.disk
    && s.disk == disk[ContentPath(c, k) := s.disk[ContentPath(c, k)]]
    && Specified(c) == ExtractAt(c, k, b, disk)
    && Decoding(c.z, b, c.contents[k].chunks, j, s.rest, s.disk[ContentPath(c, k)])
  }

  /** How far the machine has come towards the specified end. */
  ghost predicate Agrees(c: Config, s: State)
    requires ValidConfig(c)
  {
    match s.pc
    case AtContent(k) => k <= |c.contents| && Specified(c) == ExtractAt(c, k, s.rest, s.disk)
    case InContent(k, j) => k < |c.contents| && exists b, disk :: Within(c, s, k, j, b, disk)
    case Marking(i) =>
      && i <= |c.hashes| && Specified(c).Some? && s.rest == Specified(c).value.rest
      && s.disk == Marked(c, Specified(c).value.disk, i)
    case Failed => Specified(c).None?
  }

  lemma OneContent(c: Config, k: nat, b: Bytes, disk: map<DiskPath, Bytes>)
    requires ValidConfig(c) && k < |c.contents| && !c.skip[c.contents[k].stack]
    ensures var n := Compressed(c.contents[k].chunks);
            match DecodeChunks(c.z, b, c.contents[k].chunks)
            case None => ExtractAt(c, k, b, disk) == None
            case Some(data) =>
              && n <= |b|
              && ExtractAt(c, k, b, disk) == ExtractAt(c, k + 1, b[n..], disk[ContentPath(c, k) := data])
  {
    DecodeNeedsBytes(c.z, b, c.contents[k].chunks);
    hide DecodeChunks, Compressed;
  }

  lemma AtContentAgrees(c: Config, s: State, t: State)
    requires ValidConfig(c) && |s.closed| == |c.contents| && s.pc.AtContent? && Agrees(c, s)
      && ExtractorStep(c, s) == Some(t)
    ensures Agrees(c, t)
  {
    hide Decoding, Compressed, ContentPath, FileAt;
    var k := s.pc.k;
    if k < |c.contents| && !c.skip[c.contents[k].stack] {
      StartDecoding(c.z, s.rest, c.contents[k].chunks);
      assert Within(c, t, k, 0, s.rest, s.disk);
    }
  }

  lemma InContentAgrees(c: Config, s: State, t: State)
    requires ValidConfig(c) && |s.closed| == |c.contents| && s.pc.InContent? && Agrees(c, s)
      && ExtractorStep(c, s) == Some(t)
    ensures Agrees(c, t)
  {
    var (k, j) := (s.pc.k, s.pc.j);
    var b, disk :| Within(c, s, k, j, b, disk);
    var chunks, path := c.contents[k].chunks, ContentPath(c, k);
    OneContent(c, k, b, disk);
    hide ExtractAt, DecodeChunks, DecodeChunk, Specified, ContentPath, FileAt, ValidConfig;
    if j == |chunks| {
      DecodingDone(c.z, b, chunks, s.rest, s.disk[path]);
    } else {
      DecodingStep(c.z, b, chunks, j, s.rest, s.disk[path]);
      hide Decoding;
      if t.pc.InContent? {
        assert t.disk == disk[path := t.disk[path]];
        assert Within(c, t, k, j + 1, b, disk);
      }
    }
  }

  lemma StepAgrees(c: Config, s: State, t: State)
    requires ValidConfig(c) && Agrees(c, s) && Next(c, s, t)
    ensures Agrees(c, t)
  {
    var a :| Apply(c, s, a) == Some(t);
    hide Specified, ExtractAt, Decoding, ContentPath, CompletedJson, DecodeChunk;
    if a.Extractor? {
      match s.pc {
        case AtContent(_) => hide Agrees; AtContentAgrees(c, s, t);
        case InContent(_, _) => hide Agrees; InContentAgrees(c, s, t);
        case Marking(i) => assert t.disk == Marked(c, Specified(c).value.disk, i + 1);
      }
    } else {
      assert t == s.(openers := t.openers);
      if s.pc.InContent? {
        var b, disk :| Within(c, s, s.pc.k, s.pc.j, b, disk);
        assert Within(c, t, s.pc.k, s.pc.j, b, disk);
      }
    }
  }

  lemma {:induction false} RunAgrees(c: Config, run: seq<State>, i: nat)
    requires ValidConfig(c) && IsRun(c, run) && i < |run|
    ensures Agrees(c, run[i])
    decreases i
  {
    hide Next, Within, ExtractAt;
    if i > 0 {
      RunAgrees(c, run, i - 1);
      assert Next(c, run[i - 1], run[i - 1 + 1]);
      hide Agrees;
      StepAgrees(c, run[i - 1], run[i]);
    }
  }

  /** In every interleaving: a run that has marked every layer has left on disk what extraction is
      specified to leave, and the marks; a run that failed was bound to. */
  lemma MachineRefinesExtract(c: Config, run: seq<State>, i: nat)
    requires ValidConfig(c) && IsRun(c, run) && i < |run|
    ensures run[i].pc.Failed? ==> Specified(c).None?
    ensures run[i].pc == Marking(|c.hashes|) ==>
      Specified(c).Some? && run[i].rest == Specified(c).value.rest
        && run[i].disk == Marked(c, Specified(c).value.disk, |c.hashes|)
    ensures run[i].pc == Marking(|c.hashes|) ==>
      && (forall j :: 0 <= j < |c.hashes| ==> CompletedJson(c.hashes[j]) in run[i].disk)
      && (forall p :: p in run[i].disk && (forall j :: 0 <= j < |c.hashes| ==> p != CompletedJson(c.hashes[j])) ==>
            p in Specified(c).value.disk && run[i].disk[p] == Specified(c).value.disk[p])
  {
    RunAgrees(c, run, i);
    hide Specified, CompletedJson;
    if run[i].pc == Marking(|c.hashes|) {
      MarkedIs(c, Specified(c).value.disk, |c.hashes|);
    }
  }
}
