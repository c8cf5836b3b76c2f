/** One pull as atomic steps: the extractor and any number of opens, in every interleaving. */
module PullMachine {
  import opened Basics
  import opened Gzip
  import opened Toc
  import opened Extraction

  /** A requested file as the client sees it. */
  datatype ReferencedFile = ReferencedFile(digest: string, stack: nat, referenceFsId: int, referenceStack: nat,
                                           payloadOrder: nat)

  /** What stays fixed during a pull. `layers` finds a layer's hash by serial (m.layers). */
  datatype Config = Config(
    z: Codec,
    hashes: seq<string>,
    layers: map<int, string>,
    contents: seq<Wire>,
    files: seq<ReferencedFile>,
    skip: seq<bool>,
    body: Bytes,
    disk: map<DiskPath, Bytes>)

  /** Where the extractor is: about to look at content `k`, with `j` chunks of content `k` written, or
      about to mark layer `i` as completed. */
  datatype Pc = AtContent(k: nat) | InContent(k: nat, j: nat) | Marking(i: nat) | Failed

  /** An open that has computed its path: still at the gate, or past it. */
  datatype Opener = Waiting(file: nat) | Passed(file: nat)

  datatype State = State(pc: Pc, rest: Bytes, disk: map<DiskPath, Bytes>, closed: seq<nat>, openers: seq<Opener>)

  datatype Action = Extractor | Open(file: nat) | Wake(opener: nat)

  predicate ValidConfig(c: Config) {
    && WellAddressed(c.hashes, c.contents) && |c.skip| == |c.hashes|
    && (forall j, k :: 0 <= j < k < |c.contents| ==> c.contents[j].digest != c.contents[k].digest)
    && (forall i :: 0 <= i < |c.files| ==> c.files[i].stack < |c.hashes| && c.files[i].referenceStack < |c.hashes|)
    && (forall i :: 0 <= i < |c.files| && c.files[i].referenceFsId != 0 ==>
          c.files[i].referenceFsId in c.layers && |c.layers[c.files[i].referenceFsId]| >= 12)
    && (forall i, j :: 0 <= i < j < |c.hashes| && c.hashes[i] == c.hashes[j] ==> c.skip[i] == c.skip[j])
  }

  function ContentPath(c: Config, k: nat): DiskPath
    requires ValidConfig(c) && k < |c.contents|
  {
    FileAt(c.hashes[c.contents[k].stack], c.contents[k].digest)
  }

  function CompletedJson(hash: string): DiskPath
    requires |hash| >= 12
  {
    DigestPath(hash) + ["completed.json"]
  }

  /** getRealPath: by stack in the requested image, where zero stands for the file's own, or by serial. */
  function RealPath(c: Config, f: nat): DiskPath
    requires ValidConfig(c) && f < |c.files| && |c.files[f].digest| >= 12
  {
    var r := c.files[f];
    if r.referenceFsId != 0 then FileAt(c.layers[r.referenceFsId], r.digest)
    else FileAt(c.hashes[if r.referenceStack != 0 then r.referenceStack else r.stack], r.digest)
  }

  /** Init gives a file a signal to wait for only when its order is positive. */
  predicate HasSignal(c: Config, f: nat)
    requires f < |c.files|
  {
    0 < c.files[f].payloadOrder < |c.contents|
  }

  function Start(c: Config): State {
    State(AtContent(0), c.body, c.disk, seq(|c.contents|, _ => 0), [])
  }

  /** One step of Extract. */
  function ExtractorStep(c: Config, s: State): Option<State>
    requires ValidConfig(c) && |s.closed| == |c.contents|
  {
    match s.pc
    case AtContent(k) =>
      if k > |c.contents| then None
      else if k == |c.contents| then Some(s.(pc := Marking(0)))
      else
        var n := Compressed(c.contents[k].chunks);
        if c.skip[c.contents[k].stack] then
          if |s.rest| < n then Some(s.(pc := Failed)) else Some(s.(pc := AtContent(k + 1), rest := s.rest[n..]))
        else Some(s.(pc := InContent(k, 0), disk := s.disk[ContentPath(c, k) := []]))
    case InContent(k, j) =>
      if k >= |c.contents| || j > |c.contents[k].chunks| || ContentPath(c, k) !in s.disk then None
      else if j == |c.contents[k].chunks|
        then Some(s.(pc := AtContent(k + 1), closed := s.closed[k := s.closed[k] + 1]))
      else
        var ch := c.contents[k].chunks[j];
        var b := DecodeChunk(c.z, s.rest, ch);
        if b.None? || |s.rest| < ch.compressedSize then Some(s.(pc := Failed))
        else Some(s.(pc := InContent(k, j + 1), rest := s.rest[ch.compressedSize..],
                     disk := s.disk[ContentPath(c, k) := s.disk[ContentPath(c, k)] + b.value]))
    case Marking(i) =>
      if i >= |c.hashes| then None
      else Some(s.(pc := Marking(i + 1), disk := s.disk[CompletedJson(c.hashes[i]) := []]))
    case Failed => None
  }

  /** The machine: the extractor moves, an open arrives at its gate, or a waiting one finds its signal closed. */
  function Apply(c: Config, s: State, a: Action): Option<State>
    requires ValidConfig(c) && |s.closed| == |c.contents|
  {
    match a
    case Extractor => ExtractorStep(c, s)
    case Open(f) =>
      if f >= |c.files| then None
      else Some(s.(openers := s.openers + [if HasSignal(c, f) then Waiting(f) else Passed(f)]))
    case Wake(o) =>
      if o < |s.openers| && s.openers[o].Waiting? && s.openers[o].file < |c.files| && HasSignal(c, s.openers[o].file)
         && s.closed[c.files[s.openers[o].file].payloadOrder] > 0
      then Some(s.(openers := s.openers[o := Passed(s.openers[o].file)]))
      else None
  }

  ghost predicate Next(c: Config, s: State, t: State)
    requires ValidConfig(c)
  {
    |s.closed| == |c.contents| && exists a :: Apply(c, s, a) == Some(t)
  }

  /** A run: states from the start, each a step after the one before. */
  ghost predicate IsRun(c: Config, run: seq<State>)
    requires ValidConfig(c)
  {
    && run != [] && run[0] == Start(c)
    && (forall i :: 0 <= i < |run| - 1 ==> Next(c, run[i], run[i + 1]))
  }

  /** The body from content `k` on. */
  function BodyAt(c: Config, k: nat): Option<Bytes>
    requires k <= |c.contents|
  {
    if k == 0 then Some(c.body)
    else match BodyAt(c, k - 1)
      case None => None
      case Some(b) =>
        var n := Compressed(c.contents[k - 1].chunks);
        if |b| < n then None else Some(b[n..])
  }

  /** The whole of content `k`, if the body holds it. */
  function FullData(c: Config, k: nat): Option<Bytes>
    requires k < |c.contents|
  {
    match BodyAt(c, k)
    case None => None
    case Some(b) => DecodeChunks(c.z, b, c.contents[k].chunks)
  }

  ghost predicate FullyWritten(c: Config, s: State, k: nat)
    requires ValidConfig(c) && k < |c.contents|
  {
    FullData(c, k).Some? && ContentPath(c, k) in s.disk && s.disk[ContentPath(c, k)] == FullData(c, k).value
  }

  /** Contents below `n` that are not skipped are fully written and signalled once. */
  ghost predicate DoneBelow(c: Config, s: State, n: nat)
    requires ValidConfig(c) && n <= |c.contents| == |s.closed|
  {
    && (forall k :: 0 <= k < n ==> s.closed[k] == if c.skip[c.contents[k].stack] then 0 else 1)
    && (forall k :: 0 <= k < n && !c.skip[c.contents[k].stack] ==> FullyWritten(c, s, k))
    && (forall k :: n <= k < |c.contents| ==> s.closed[k] == 0)
  }

  ghost predicate PcInv(c: Config, s: State)
    requires ValidConfig(c) && |s.closed| == |c.contents|
  {
    match s.pc
    case AtContent(k) => k <= |c.contents| && DoneBelow(c, s, k) && BodyAt(c, k) == Some(s.rest)
    case InContent(k, j) =>
      && k < |c.contents| && !c.skip[c.contents[k].stack] && DoneBelow(c, s, k)
      && ContentPath(c, k) in s.disk && BodyAt(c, k).Some?
      && Decoding(c.z, BodyAt(c, k).value, c.contents[k].chunks, j, s.rest, s.disk[ContentPath(c, k)])
    case Marking(_) => DoneBelow(c, s, |c.contents|)
    case Failed => exists n :: 0 <= n <= |c.contents| && DoneBelow(c, s, n)
  }

  /** No layer is marked complete before every content has been extracted. */
  ghost predicate MarksInv(c: Config, s: State)
    requires ValidConfig(c)
  {
    !s.pc.Marking? ==> forall i :: 0 <= i < |c.hashes| && CompletedJson(c.hashes[i]) in s.disk ==>
      CompletedJson(c.hashes[i]) in c.disk
  }

  /** An opener past a gate that has a signal has seen it closed. */
  ghost predicate OpenersInv(c: Config, s: State)
    requires ValidConfig(c) && |s.closed| == |c.contents|
  {
    forall o :: 0 <= o < |s.openers| ==>
      && s.openers[o].file < |c.files|
      && (s.openers[o].Waiting? ==> HasSignal(c, s.openers[o].file))
      && (s.openers[o].Passed? && HasSignal(c, s.openers[o].file) ==>
            s.closed[c.files[s.openers[o].file].payloadOrder] > 0)
  }

  ghost predicate Inv(c: Config, s: State)
    requires ValidConfig(c)
  {
    |s.closed| == |c.contents| && PcInv(c, s) && MarksInv(c, s) && OpenersInv(c, s)
  }

  lemma DigestsDiffer(c: Config, j: nat, k: nat)
    requires ValidConfig(c) && j < |c.contents| && k < |c.contents| && j != k
    ensures c.contents[j].digest != c.contents[k].digest
  {
    if k < j {
      assert c.contents[k].digest != c.contents[j].digest;
    }
  }

  lemma ContentPathsDiffer(c: Config, j: nat, k: nat)
    requires ValidConfig(c) && j < |c.contents| && k < |c.contents| && j != k
    ensures ContentPath(c, j) != ContentPath(c, k)
  {
    hide FileAt;
    DigestsDiffer(c, j, k);
    if ContentPath(c, j) == ContentPath(c, k) {
      FileAtInjective(c.hashes[c.contents[j].stack], c.contents[j].digest, c.hashes[c.contents[k].stack],
            c.contents[k].digest);
    }
  }

  lemma MarkIsNoContent(c: Config, k: nat, hash: string)
    requires ValidConfig(c) && k < |c.contents| && |hash| >= 12
    ensures ContentPath(c, k) != CompletedJson(hash)
  {
    assert |ContentPath(c, k)| == 8 && |CompletedJson(hash)| == 5;
  }

  lemma StartInv(c: Config)
    requires ValidConfig(c)
    ensures Inv(c, Start(c))
  {
  }

  /** Writing to one content's path leaves what is done below it. */
  lemma DoneBelowKept(c: Config, s: State, t: State, n: nat, p: DiskPath)
    requires ValidConfig(c) && n <= |c.contents| == |s.closed| && DoneBelow(c, s, n)
    requires t.closed == s.closed && s.disk.Keys <= t.disk.Keys && forall q :: q in s.disk && q != p ==>
      t.disk[q] == s.disk[q]
    requires forall k :: 0 <= k < n ==> ContentPath(c, k) != p
    ensures DoneBelow(c, t, n)
  {
    hide ContentPath, ValidConfig, FullData;
  }

  lemma AtContentStep(c: Config, s: State, t: State)
    requires ValidConfig(c) && Inv(c, s) && s.pc.AtContent? && ExtractorStep(c, s) == Some(t)
    ensures PcInv(c, t)
  {
    hide FullData, MarksInv, OpenersInv, FileAt, Canonical;
    var k := s.pc.k;
    if k < |c.contents| {
      if c.skip[c.contents[k].stack] {
        if t.pc.Failed? {
          assert DoneBelow(c, t, k);
        } else {
          assert BodyAt(c, k + 1) == Some(t.rest);
          assert DoneBelow(c, t, k + 1);
        }
      } else {
        forall j | 0 <= j < k ensures ContentPath(c, j) != ContentPath(c, k) {
          ContentPathsDiffer(c, j, k);
        }
        DoneBelowKept(c, s, t, k, ContentPath(c, k));
        StartDecoding(c.z, s.rest, c.contents[k].chunks);
      }
    }
  }

  lemma ContentDone(c: Config, s: State, k: nat)
    requires ValidConfig(c) && Inv(c, s) && k < |c.contents| && s.pc == InContent(k, |c.contents[k].chunks|)
    ensures FullyWritten(c, s, k) && BodyAt(c, k + 1) == Some(s.rest)
  {
    hide MarksInv, OpenersInv, FileAt, DecodeChunk, DecodeChunks, Decoding, DoneBelow;
    DecodingDone(c.z, BodyAt(c, k).value, c.contents[k].chunks, s.rest, s.disk[ContentPath(c, k)]);
  }

  lemma DoneOneMore(c: Config, s: State, t: State, k: nat)
    requires ValidConfig(c) && k < |c.contents| == |s.closed| && DoneBelow(c, s, k) && FullyWritten(c, s, k)
    requires !c.skip[c.contents[k].stack] && t.disk == s.disk && t.closed == s.closed[k := s.closed[k] + 1]
    ensures DoneBelow(c, t, k + 1)
  {
    hide FullData, ContentPath;
  }

  lemma InContentStep(c: Config, s: State, t: State)
    requires ValidConfig(c) && Inv(c, s) && s.pc.InContent? && ExtractorStep(c, s) == Some(t)
    ensures PcInv(c, t)
  {
    hide MarksInv, OpenersInv, FileAt, DecodeChunk, DecodeChunks, Decoding, FullData, BodyAt, DoneBelow, ValidConfig;
    var (k, j) := (s.pc.k, s.pc.j);
    var chunks, path := c.contents[k].chunks, ContentPath(c, k);
    if j == |chunks| {
      ContentDone(c, s, k);
      DoneOneMore(c, s, t, k);
    } else {
      DecodingStep(c.z, BodyAt(c, k).value, chunks, j, s.rest, s.disk[path]);
      forall i | 0 <= i < k ensures ContentPath(c, i) != path {
        ContentPathsDiffer(c, i, k);
      }
      hide ContentPath;
      DoneBelowKept(c, s, t, k, path);
    }
  }

  lemma MarkingStep(c: Config, s: State, t: State)
    requires ValidConfig(c) && Inv(c, s) && s.pc.Marking? && ExtractorStep(c, s) == Some(t)
    ensures PcInv(c, t)
  {
    hide MarksInv, OpenersInv, FileAt, FullData, BodyAt;
    forall k | 0 <= k < |c.contents| ensures ContentPath(c, k) != CompletedJson(c.hashes[s.pc.i]) {
      MarkIsNoContent(c, k, c.hashes[s.pc.i]);
    }
    DoneBelowKept(c, s, t, |c.contents|, CompletedJson(c.hashes[s.pc.i]));
  }

  /** The extractor never reopens a signal, and marks layers only at the end. */
  lemma ExtractorRest(c: Config, s: State, t: State)
    requires ValidConfig(c) && Inv(c, s) && ExtractorStep(c, s) == Some(t)
    ensures |t.closed| == |c.contents| && MarksInv(c, t) && OpenersInv(c, t)
  {
    hide PcInv, FileAt, FullData, BodyAt, DecodeChunk;
    assert forall k :: 0 <= k < |c.contents| ==> s.closed[k] <= t.closed[k];
    if !t.pc.Marking? {
      forall i | 0 <= i < |c.hashes| && CompletedJson(c.hashes[i]) in t.disk
        ensures CompletedJson(c.hashes[i]) in c.disk
      {
        if s.pc.AtContent? && s.pc.k < |c.contents| {
          MarkIsNoContent(c, s.pc.k, c.hashes[i]);
        } else if s.pc.InContent? {
          MarkIsNoContent(c, s.pc.k, c.hashes[i]);
        }
      }
    }
  }

  /** The extractor's invariant does not depend on who has opened what. */
  lemma OpenersFrame(c: Config, s: State, t: State)
    requires ValidConfig(c) && |s.closed| == |c.contents| && PcInv(c, s) && MarksInv(c, s)
    requires t == s.(openers := t.openers)
    ensures PcInv(c, t) && MarksInv(c, t)
  {
    hide FullData, BodyAt, Decoding, ContentPath, ValidConfig;
    if s.pc.Failed? {
      var n :| 0 <= n <= |c.contents| && DoneBelow(c, s, n);
      assert DoneBelow(c, t, n);
    }
  }

  lemma StepInv(c: Config, s: State, t: State)
    requires ValidConfig(c) && Inv(c, s) && Next(c, s, t)
    ensures Inv(c, t)
  {
    var a :| Apply(c, s, a) == Some(t);
    match a {
      case Extractor =>
        hide PcInv, MarksInv, OpenersInv;
        ExtractorRest(c, s, t);
        match s.pc {
          case AtContent(_) => AtContentStep(c, s, t);
          case InContent(_, _) => InContentStep(c, s, t);
          case Marking(_) => MarkingStep(c, s, t);
        }
      case Open(f) =>
        hide PcInv, MarksInv;
        OpenersFrame(c, s, t);
      case Wake(o) =>
        hide PcInv, MarksInv;
        OpenersFrame(c, s, t);
    }
  }

  lemma {:induction false} RunInv(c: Config, run: seq<State>, i: nat)
    requires ValidConfig(c) && IsRun(c, run) && i < |run|
    ensures Inv(c, run[i])
    decreases i
  {
    hide Inv, Next;
    if i == 0 {
      StartInv(c);
    } else {
      RunInv(c, run, i - 1);
      assert Next(c, run[i - 1], run[i - 1 + 1]);
      StepInv(c, run[i - 1], run[i]);
    }
  }

  // --- what a pull leaves alone

  /** A path the pull may write: that of a content it does not skip, or a mark. */
  ghost predicate Writes(c: Config, p: DiskPath)
    requires ValidConfig(c)
  {
    || (exists k :: 0 <= k < |c.contents| && !c.skip[c.contents[k].stack] && p == ContentPath(c, k))
    || (exists i :: 0 <= i < |c.hashes| && p == CompletedJson(c.hashes[i]))
  }

  /** Path `p` is as it was before the pull. */
  ghost predicate AsBefore(c: Config, s: State, p: DiskPath) {
    (p in s.disk <==> p in c.disk) && (p in s.disk ==> s.disk[p] == c.disk[p])
  }

  lemma StepLeavesAlone(c: Config, s: State, t: State, p: DiskPath)
    requires ValidConfig(c) && Inv(c, s) && Next(c, s, t) && !Writes(c, p) && AsBefore(c, s, p)
    ensures AsBefore(c, t, p)
  {
    hide DecodeChunk, FileAt, MarksInv, OpenersInv, DoneBelow, BodyAt, Decoding;
  }

  /** In no state of a run has any other path been touched. */
  lemma {:induction false} LeavesAlone(c: Config, run: seq<State>, i: nat, p: DiskPath)
    requires ValidConfig(c) && IsRun(c, run) && i < |run| && !Writes(c, p)
    ensures AsBefore(c, run[i], p)
    decreases i
  {
    hide Inv, Next, Writes;
    if i > 0 {
      LeavesAlone(c, run, i - 1, p);
      RunInv(c, run, i - 1);
      assert Next(c, run[i - 1], run[i - 1 + 1]);
      StepLeavesAlone(c, run[i - 1], run[i], p);
    }
  }

  lemma FileAtDiffers(l: string, d: string, m: string, e: string)
    requires Canonical(l) && Canonical(d) && Canonical(m) && Canonical(e) && (l != m || d != e)
    ensures FileAt(l, d) != FileAt(m, e)
  {
    if FileAt(l, d) == FileAt(m, e) {
      FileAtInjective(l, d, m, e);
    }
  }

  lemma FileIsNoMark(l: string, d: string, m: string)
    requires |l| >= 12 && |d| >= 12 && |m| >= 12
    ensures FileAt(l, d) != CompletedJson(m)
  {
    assert |FileAt(l, d)| == 8 && |CompletedJson(m)| == 5;
  }

  /** A file path is written only as that of the content with its digest, in that content's layer. */
  lemma WritesFile(c: Config, h: string, d: string)
    requires ValidConfig(c) && Canonical(h) && Canonical(d)
    ensures Writes(c, FileAt(h, d)) <==>
      exists k :: 0 <= k < |c.contents| && !c.skip[c.contents[k].stack]
                  && c.contents[k].digest == d && c.hashes[c.contents[k].stack] == h
  {
    hide FileAt;
    forall i | 0 <= i < |c.hashes| ensures FileAt(h, d) != CompletedJson(c.hashes[i]) {
      FileIsNoMark(h, d, c.hashes[i]);
    }
    hide CompletedJson;
    forall k | 0 <= k < |c.contents| && (c.contents[k].digest != d || c.hashes[c.contents[k].stack] != h)
      ensures FileAt(h, d) != ContentPath(c, k)
    {
      FileAtDiffers(h, d, c.hashes[c.contents[k].stack], c.contents[k].digest);
    }
    if k :| 0 <= k < |c.contents| && !c.skip[c.contents[k].stack]
            && c.contents[k].digest == d && c.hashes[c.contents[k].stack] == h {
      assert FileAt(h, d) == ContentPath(c, k);
    }
  }
}
