/** When it is safe to start a container before the pull has finished. */
module EarlyStart {
  import opened Basics
  import opened Toc
  import opened Extraction
  import opened PullMachine

  /** The delta places file `f` in content `o`. */
  predicate InContentOf(c: Config, f: nat, o: nat)
    requires f < |c.files| && o < |c.contents|
  {
    var r := c.files[f];
    r.referenceFsId == 0 && r.payloadOrder == o && r.referenceStack == c.contents[o].stack
      && r.digest == c.contents[o].digest
  }

  /** The stack the file is told is not read as its own by mistake. */
  predicate RightPath(c: Config, f: nat)
    requires ValidConfig(c) && f < |c.files|
  {
    c.files[f].referenceStack != 0 || c.hashes[c.files[f].stack] == c.hashes[0]
  }

  /** The file has a signal to wait for, and the stack it is told is not read as its own by mistake. */
  predicate GateCondition(c: Config, f: nat)
    requires ValidConfig(c) && f < |c.files|
  {
    c.files[f].payloadOrder >= 1 && RightPath(c, f)
  }

  /** In every run, from the moment an open of `f` is past its gate, the path it opens holds the whole
      content and keeps holding it. */
  ghost predicate GateSafe(c: Config, f: nat, o: nat)
    requires ValidConfig(c) && f < |c.files| && o < |c.contents| && InContentOf(c, f, o)
  {
    forall run: seq<State>, i: nat, j: nat, op: nat ::
      IsRun(c, run) && i <= j < |run| && op < |run[i].openers| && run[i].openers[op] == Passed(f) ==>
        Holding(c, run[j], f, o)
  }

  ghost predicate Holding(c: Config, s: State, f: nat, o: nat)
    requires ValidConfig(c) && f < |c.files| && o < |c.contents| && InContentOf(c, f, o)
  {
    FullData(c, o).Some? && RealPath(c, f) in s.disk && s.disk[RealPath(c, f)] == FullData(c, o).value
  }

  lemma OpensContent(c: Config, f: nat, o: nat)
    requires ValidConfig(c) && f < |c.files| && o < |c.contents| && InContentOf(c, f, o) && GateCondition(c, f)
    ensures RealPath(c, f) == ContentPath(c, o)
  {
  }

  /** A closed signal stands for a content that is completely on disk. */
  lemma ClosedIsWritten(c: Config, s: State, k: nat)
    requires ValidConfig(c) && Inv(c, s) && k < |c.contents| && s.closed[k] > 0
    ensures FullyWritten(c, s, k) && !c.skip[c.contents[k].stack] && s.closed[k] == 1
  {
    hide FullyWritten, MarksInv, OpenersInv, Decoding, ContentPath, FullData;
    if s.pc.Failed? {
      var n :| 0 <= n <= |c.contents| && DoneBelow(c, s, n);
    }
  }

  lemma SignalsStayClosed(c: Config, s: State, t: State, k: nat)
    requires ValidConfig(c) && Next(c, s, t) && k < |c.contents|
    ensures |t.closed| == |c.contents| && s.closed[k] <= t.closed[k]
  {
  }

  lemma RunStep(c: Config, run: seq<State>, i: nat)
    requires ValidConfig(c) && IsRun(c, run) && i + 1 < |run|
    ensures Next(c, run[i], run[i + 1])
  {
    hide Next;
  }

  lemma {:induction false} SignalsStayClosedInRun(c: Config, run: seq<State>, i: nat, j: nat, k: nat)
    requires ValidConfig(c) && IsRun(c, run) && i <= j < |run| && k < |c.contents|
    ensures |run[i].closed| == |run[j].closed| == |c.contents| && run[i].closed[k] <= run[j].closed[k]
    decreases j - i
  {
    hide IsRun, Next, ValidConfig, PcInv, MarksInv, OpenersInv;
    RunInv(c, run, i);
    if i < j {
      SignalsStayClosedInRun(c, run, i, j - 1, k);
      RunStep(c, run, j - 1);
      SignalsStayClosed(c, run[j - 1], run[j], k);
    }
  }

  /** No signal is ever closed twice, and the signals of skipped contents are never closed. */
  lemma SignalsOnce(c: Config, run: seq<State>, i: nat, k: nat)
    requires ValidConfig(c) && IsRun(c, run) && i < |run| && k < |c.contents|
    ensures |run[i].closed| == |c.contents| && run[i].closed[k] <= 1
    ensures c.skip[c.contents[k].stack] ==> run[i].closed[k] == 0
  {
    RunInv(c, run, i);
    if run[i].closed[k] > 0 {
      ClosedIsWritten(c, run[i], k);
    }
  }

  /** A passed gate with a signal means the signal was closed by then. */
  lemma PassedSawSignal(c: Config, run: seq<State>, i: nat, f: nat, op: nat)
    requires ValidConfig(c) && IsRun(c, run) && i < |run| && f < |c.files| && op < |run[i].openers|
    requires run[i].openers[op] == Passed(f) && HasSignal(c, f)
    ensures |run[i].closed| == |c.contents| && run[i].closed[c.files[f].payloadOrder] > 0
  {
    RunInv(c, run, i);
  }

  /** Early start is safe under the condition, in every interleaving with every number of opens. */
  lemma EarlyStartSafe(c: Config, f: nat, o: nat)
    requires ValidConfig(c) && f < |c.files| && o < |c.contents| && InContentOf(c, f, o) && GateCondition(c, f)
    ensures GateSafe(c, f, o)
  {
    OpensContent(c, f, o);
    hide IsRun, ContentPath, RealPath, FullData, Inv, ValidConfig;
    forall run: seq<State>, i: nat, j: nat, op: nat
      | IsRun(c, run) && i <= j < |run| && op < |run[i].openers| && run[i].openers[op] == Passed(f)
      ensures Holding(c, run[j], f, o)
    {
      PassedSawSignal(c, run, i, f, op);
      SignalsStayClosedInRun(c, run, i, j, o);
      RunInv(c, run, j);
      ClosedIsWritten(c, run[j], o);
    }
  }

  /** An open of a file whose content was skipped waits forever, since nobody closes its signal. */
  lemma SkippedWaits(c: Config, run: seq<State>, i: nat, f: nat, o: nat, op: nat)
    requires ValidConfig(c) && f < |c.files| && o < |c.contents| && InContentOf(c, f, o) && o >= 1
    requires c.skip[c.contents[o].stack] && IsRun(c, run) && i < |run| && op < |run[i].openers|
      && run[i].openers[op].file == f
    ensures run[i].openers[op] == Waiting(f)
  {
    SignalsOnce(c, run, i, o);
    if run[i].openers[op] == Passed(f) {
      PassedSawSignal(c, run, i, f, op);
    }
  }

  // --- the other direction: runs in which the gate lets an open through too early

  lemma ExtendRun(c: Config, run: seq<State>, a: Action)
    requires ValidConfig(c) && IsRun(c, run) && |run[|run| - 1].closed| == |c.contents|
      && Apply(c, run[|run| - 1], a).Some?
    ensures IsRun(c, run + [Apply(c, run[|run| - 1], a).value])
  {
    var t := Apply(c, run[|run| - 1], a).value;
    assert Next(c, run[|run| - 1], t);
    hide Next, Apply;
    var more := run + [t];
    forall i | 0 <= i < |more| - 1 ensures Next(c, more[i], more[i + 1]) {
      if i < |run| - 1 {
        assert Next(c, run[i], run[i + 1]);
      }
    }
  }

  /** The body holds every content up to `n`. */
  predicate Decodes(c: Config, n: nat) {
    n <= |c.contents| && forall k :: 0 <= k < n ==> FullData(c, k).Some?
  }

  /** The extractor alone can finish the content it is in. */
  lemma {:induction false} RunChunks(c: Config, run: seq<State>, k: nat, j: nat) returns (run': seq<State>)
    requires ValidConfig(c) && IsRun(c, run) && k < |c.contents| && FullData(c, k).Some?
    requires run[|run| - 1].pc == InContent(k, j)
    ensures IsRun(c, run') && run'[|run'| - 1].pc == AtContent(k + 1)
    decreases |c.contents[k].chunks| - j
  {
    var s := run[|run| - 1];
    RunInv(c, run, |run| - 1);
    assert j <= |c.contents[k].chunks|;
    if j < |c.contents[k].chunks| {
      DecodingStep(c.z, BodyAt(c, k).value, c.contents[k].chunks, j, s.rest, s.disk[ContentPath(c, k)]);
    }
    hide IsRun, DecodeChunk, DecodeChunks, Decoding, PcInv, MarksInv, OpenersInv, FullData;
    ExtendRun(c, run, Extractor);
    var more := run + [Apply(c, s, Extractor).value];
    if j == |c.contents[k].chunks| {
      run' := more;
    } else {
      run' := RunChunks(c, more, k, j + 1);
    }
  }

  /** The extractor alone can reach content `n`. */
  lemma {:induction false} RunTo(c: Config, n: nat) returns (run: seq<State>)
    requires ValidConfig(c) && Decodes(c, n)
    ensures IsRun(c, run) && run[|run| - 1].pc == AtContent(n)
    decreases n
  {
    if n == 0 {
      run := [Start(c)];
    } else {
      run := RunTo(c, n - 1);
      var s := run[|run| - 1];
      RunInv(c, run, |run| - 1);
      EnoughBody(c, n - 1);
      assert BodyAt(c, n - 1) == Some(s.rest);
      assert FullData(c, n - 1).Some?;
      hide IsRun, PcInv, MarksInv, OpenersInv, FullData, ContentPath, ValidConfig;
      ExtendRun(c, run, Extractor);
      run := run + [Apply(c, s, Extractor).value];
      if !c.skip[c.contents[n - 1].stack] {
        run := RunChunks(c, run, n - 1, 0);
      }
    }
  }

  lemma EnoughBody(c: Config, k: nat)
    requires k < |c.contents| && FullData(c, k).Some?
    ensures BodyAt(c, k).Some? && Compressed(c.contents[k].chunks) <= |BodyAt(c, k).value|
  {
    DecodeNeedsBytes(c.z, BodyAt(c, k).value, c.contents[k].chunks);
  }

  /** The file the open reads was complete before the pull, and the pull does not write it anew; creating
      it anew does no harm only if it is empty. */
  predicate AlreadyThere(c: Config, f: nat, o: nat)
    requires ValidConfig(c) && f < |c.files| && o < |c.contents| && InContentOf(c, f, o) && FullData(c, o).Some?
  {
    && RealPath(c, f) in c.disk && c.disk[RealPath(c, f)] == FullData(c, o).value
    && (c.skip[c.contents[o].stack] || !RightPath(c, f) || FullData(c, o).value == [])
  }

  /** Where the open looks. */
  lemma OpensAt(c: Config, f: nat, o: nat)
    requires ValidConfig(c) && f < |c.files| && o < |c.contents| && InContentOf(c, f, o)
    ensures RightPath(c, f) ==> RealPath(c, f) == ContentPath(c, o)
    ensures c.skip[c.contents[o].stack] || !RightPath(c, f) ==> !Writes(c, RealPath(c, f))
  {
    var r := c.files[f];
    var h := c.hashes[if r.referenceStack != 0 then r.referenceStack else r.stack];
    WritesFile(c, h, r.digest);
    hide Writes, FileAt;
    forall k | 0 <= k < |c.contents| && k != o ensures c.contents[k].digest != r.digest {
      DigestsDiffer(c, k, o);
    }
  }

  lemma EmptySoFar(c: Config, s: State, o: nat)
    requires ValidConfig(c) && Inv(c, s) && o < |c.contents| && FullData(c, o) == Some([]) && s.pc.InContent?
      && s.pc.k == o
    ensures ContentPath(c, o) in s.disk && s.disk[ContentPath(c, o)] == []
  {
    hide DecodeChunk, DecodeChunks, FileAt, MarksInv, OpenersInv, DoneBelow;
    assert Decoding(c.z, BodyAt(c, o).value, c.contents[o].chunks, s.pc.j, s.rest, s.disk[ContentPath(c, o)]);
  }

  /** Any other step leaves the file of content `o` alone. */
  lemma OtherStep(c: Config, s: State, t: State, o: nat)
    requires ValidConfig(c) && |s.closed| == |c.contents| && ExtractorStep(c, s) == Some(t) && o < |c.contents|
    requires !(t.pc.InContent? && t.pc.k == o) && ContentPath(c, o) in s.disk
    ensures ContentPath(c, o) in t.disk && t.disk[ContentPath(c, o)] == s.disk[ContentPath(c, o)]
  {
    hide DecodeChunk, FileAt;
    if t.pc.InContent? && t.pc.k < |c.contents| {
      ContentPathsDiffer(c, t.pc.k, o);
    } else if t.pc.Marking? && t.pc.i > 0 {
      MarkIsNoContent(c, o, c.hashes[t.pc.i - 1]);
    }
  }

  /** An empty content that was there before is there, and empty, all the time. */
  lemma {:induction false} EmptyStays(c: Config, run: seq<State>, i: nat, o: nat)
    requires ValidConfig(c) && IsRun(c, run) && i < |run| && o < |c.contents| && FullData(c, o) == Some([])
    requires ContentPath(c, o) in c.disk && c.disk[ContentPath(c, o)] == []
    ensures ContentPath(c, o) in run[i].disk && run[i].disk[ContentPath(c, o)] == []
    decreases i
  {
    hide Inv, FullData, ContentPath, ExtractorStep, ValidConfig;
    if i > 0 {
      var s, t := run[i - 1], run[i];
      EmptyStays(c, run, i - 1, o);
      RunInv(c, run, i);
      assert Next(c, run[i - 1], run[i - 1 + 1]);
      var a :| Apply(c, s, a) == Some(t);
      if t.pc.InContent? && t.pc.k == o {
        EmptySoFar(c, t, o);
      } else if a.Extractor? {
        OtherStep(c, s, t, o);
      }
    }
  }

  lemma ThereIsSafe(c: Config, f: nat, o: nat)
    requires ValidConfig(c) && f < |c.files| && o < |c.contents| && InContentOf(c, f, o) && FullData(c, o).Some?
    requires AlreadyThere(c, f, o)
    ensures GateSafe(c, f, o)
  {
    OpensAt(c, f, o);
    hide IsRun, RealPath, FullData, ContentPath, Writes;
    forall run: seq<State>, i: nat, j: nat, op: nat
      | IsRun(c, run) && i <= j < |run| && op < |run[i].openers| && run[i].openers[op] == Passed(f)
      ensures Holding(c, run[j], f, o)
    {
      if c.skip[c.contents[o].stack] || !RightPath(c, f) {
        LeavesAlone(c, run, j, RealPath(c, f));
      } else {
        EmptyStays(c, run, j, o);
      }
    }
  }

  /** A file with a signal, of a content that is skipped, never gets past its gate. */
  lemma SkippedIsSafe(c: Config, f: nat, o: nat)
    requires ValidConfig(c) && f < |c.files| && o < |c.contents| && InContentOf(c, f, o)
    requires c.files[f].payloadOrder >= 1 && c.skip[c.contents[o].stack]
    ensures GateSafe(c, f, o)
  {
    hide IsRun, RealPath, FullData, ValidConfig;
    forall run: seq<State>, i: nat, op: nat
      | IsRun(c, run) && i < |run| && op < |run[i].openers| && run[i].openers[op].file == f
      ensures run[i].openers[op] == Waiting(f)
    {
      SkippedWaits(c, run, i, f, o, op);
    }
  }

  /** One more step, by an action that is possible. */
  lemma Step(c: Config, run: seq<State>, a: Action) returns (more: seq<State>)
    requires ValidConfig(c) && IsRun(c, run) && |run[|run| - 1].closed| == |c.contents|
      && Apply(c, run[|run| - 1], a).Some?
    ensures IsRun(c, more) && more[|more| - 1] == Apply(c, run[|run| - 1], a).value
    ensures |more| == |run| + 1 && more[..|run|] == run
  {
    ExtendRun(c, run, a);
    more := run + [Apply(c, run[|run| - 1], a).value];
  }

  /** In state `i` of the run an open of `f` is past its gate, and in the last state its path does not hold
      the content. */
  ghost predicate Fails(c: Config, run: seq<State>, i: nat, f: nat, o: nat)
    requires ValidConfig(c) && f < |c.files| && o < |c.contents| && InContentOf(c, f, o)
  {
    && IsRun(c, run) && i < |run| && Passed(f) in run[i].openers
    && !Holding(c, run[|run| - 1], f, o)
  }

  lemma FailsIsUnsafe(c: Config, run: seq<State>, i: nat, f: nat, o: nat)
    requires ValidConfig(c) && f < |c.files| && o < |c.contents| && InContentOf(c, f, o) && Fails(c, run, i, f, o)
    ensures !GateSafe(c, f, o)
  {
    hide IsRun, Holding, ValidConfig;
    var op: nat :| op < |run[i].openers| && run[i].openers[op] == Passed(f);
    assert IsRun(c, run) && i <= |run| - 1;
  }

  /** With no signal to wait for: the open comes first, or just before the file is created anew. */
  lemma TooEarlyFirst(c: Config, f: nat, o: nat) returns (run: seq<State>, i: nat)
    requires ValidConfig(c) && f < |c.files| && o < |c.contents| && InContentOf(c, f, o) && Decodes(c, o + 1)
    requires c.files[f].payloadOrder == 0 && !AlreadyThere(c, f, o)
    ensures Fails(c, run, i, f, o)
  {
    OpensAt(c, f, o);
    hide FullData, Writes, FileAt;
    if RealPath(c, f) in c.disk && c.disk[RealPath(c, f)] == FullData(c, o).value {
      run := RunTo(c, o);
      RunInv(c, run, |run| - 1);
      hide IsRun, Inv, RealPath;
      run := Step(c, run, Open(f));
      i := |run| - 1;
      run := Step(c, run, Extractor);
      assert run[i] == run[..|run| - 1][i];
    } else {
      run := [Start(c)];
      hide RealPath;
      run := Step(c, run, Open(f));
      i := |run| - 1;
    }
    assert run[i].openers[|run[i].openers| - 1] == Passed(f);
  }

  /** With a signal, but a stack taken for the file's own: the open comes after the signal, and looks where
      this pull writes nothing. */
  lemma TooEarlyElsewhere(c: Config, f: nat, o: nat) returns (run: seq<State>, i: nat)
    requires ValidConfig(c) && f < |c.files| && o < |c.contents| && InContentOf(c, f, o) && Decodes(c, o + 1)
    requires c.files[f].payloadOrder >= 1 && !c.skip[c.contents[o].stack] && !RightPath(c, f) && !AlreadyThere(c, f, o)
    ensures Fails(c, run, i, f, o)
  {
    OpensAt(c, f, o);
    run := RunTo(c, o + 1);
    RunInv(c, run, |run| - 1);
    var s := run[|run| - 1];
    assert s.closed[o] == 1;
    hide IsRun, Inv, RealPath, FullData, Writes, ExtractorStep;
    run := Step(c, run, Open(f));
    var t := run[|run| - 1];
    assert t.openers[|s.openers|] == Waiting(f);
    run := Step(c, run, Wake(|s.openers|));
    i := |run| - 1;
    assert run[i].openers == t.openers[|s.openers| := Passed(f)];
    LeavesAlone(c, run, i, RealPath(c, f));
    assert run[i].openers[|s.openers|] == Passed(f);
  }

  /** Exactly when early start is safe for a file, in a pull whose body decodes that far. The file has a
      signal, and either its content is skipped, so that an open waits for ever, or the open looks where the
      content goes; or else the bytes were there before and stay. */
  lemma EarlyStartExactly(c: Config, f: nat, o: nat)
    requires ValidConfig(c) && f < |c.files| && o < |c.contents| && InContentOf(c, f, o) && Decodes(c, o + 1)
    ensures GateSafe(c, f, o) <==>
      (c.files[f].payloadOrder >= 1 && (c.skip[c.contents[o].stack] || RightPath(c, f))) || AlreadyThere(c, f, o)
  {
    var skipped := c.skip[c.contents[o].stack];
    hide RealPath, ValidConfig, GateSafe, Fails, AlreadyThere, FullData;
    if c.files[f].payloadOrder >= 1 && skipped {
      SkippedIsSafe(c, f, o);
    } else if GateCondition(c, f) {
      EarlyStartSafe(c, f, o);
    } else if AlreadyThere(c, f, o) {
      ThereIsSafe(c, f, o);
    } else if c.files[f].payloadOrder == 0 {
      var run, i := TooEarlyFirst(c, f, o);
      FailsIsUnsafe(c, run, i, f, o);
    } else {
      var run, i := TooEarlyElsewhere(c, f, o);
      FailsIsUnsafe(c, run, i, f, o);
    }
  }

  /** A layer marked complete by this pull has every content the bundle places in it, in full; so the
      files of a pull that was stopped anywhere are either complete or in a layer without the mark. */
  lemma MarkedIsComplete(c: Config, run: seq<State>, i: nat, stack: nat, k: nat)
    requires ValidConfig(c) && IsRun(c, run) && i < |run| && stack < |c.hashes| && k < |c.contents|
    requires c.contents[k].stack == stack && !c.skip[stack]
    requires CompletedJson(c.hashes[stack]) in run[i].disk && CompletedJson(c.hashes[stack]) !in c.disk
    ensures FullyWritten(c, run[i], k)
  {
    RunInv(c, run, i);
    hide FullyWritten, OpenersInv, CompletedJson, FullData, ContentPath;
  }
}
