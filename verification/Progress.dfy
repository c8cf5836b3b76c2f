/** The pull machine gets somewhere: the extractor can always go on until it has failed or marked every
    layer, it gets there in a bounded number of steps, and then nobody who can be woken is kept waiting. */
module Progress {
  import opened Basics
  import opened Extraction
  import opened PullMachine
  import opened EarlyStart

  predicate AtEnd(c: Config, pc: Pc) {
    pc.Failed? || pc == Marking(|c.hashes|)
  }

  /** The extractor can step, in any state of any run, exactly when it is not at its end. */
  lemma ExtractorMoves(c: Config, run: seq<State>, i: nat)
    requires ValidConfig(c) && IsRun(c, run) && i < |run|
    ensures |run[i].closed| == |c.contents|
    ensures ExtractorStep(c, run[i]).Some? <==> !AtEnd(c, run[i].pc)
  {
    RunInv(c, run, i);
    MarksInRange(c, run, i);
    hide DecodeChunk, MarksInv, OpenersInv, DoneBelow;
  }

  lemma {:induction false} MarksInRange(c: Config, run: seq<State>, i: nat)
    requires ValidConfig(c) && IsRun(c, run) && i < |run|
    ensures run[i].pc.Marking? ==> run[i].pc.i <= |c.hashes|
    decreases i
  {
    if i > 0 {
      MarksInRange(c, run, i - 1);
      assert Next(c, run[i - 1], run[i - 1 + 1]);
    }
  }

  /** How many steps the extractor has left at most. */
  function Left(c: Config, pc: Pc): int {
    match pc
    case AtContent(k) => LeftFrom(c, k)
    case InContent(k, j) => if k < |c.contents| then |c.contents[k].chunks| - j + 1 + LeftFrom(c, k + 1) else 0
    case Marking(i) => |c.hashes| - i
    case Failed => 0
  }

  function LeftFrom(c: Config, k: nat): nat
    decreases |c.contents| - k
  {
    if k >= |c.contents| then |c.hashes| + 1 else |c.contents[k].chunks| + 2 + LeftFrom(c, k + 1)
  }

  lemma StepLeft(c: Config, s: State, t: State)
    requires ValidConfig(c) && |s.closed| == |c.contents| && Next(c, s, t)
    ensures t.pc == s.pc || (0 <= Left(c, t.pc) < Left(c, s.pc))
  {
    hide DecodeChunk, FileAt;
    var a :| Apply(c, s, a) == Some(t);
  }

  /** How often the extractor has stepped. */
  function Steps(run: seq<State>, i: nat): nat
    requires i < |run|
  {
    if i == 0 then 0 else Steps(run, i - 1) + if run[i].pc == run[i - 1].pc then 0 else 1
  }

  lemma {:induction false} StepsBounded(c: Config, run: seq<State>, i: nat)
    requires ValidConfig(c) && IsRun(c, run) && i < |run|
    ensures 0 <= Left(c, run[i].pc) && Steps(run, i) + Left(c, run[i].pc) <= LeftFrom(c, 0)
    decreases i
  {
    hide Next, LeftFrom, Inv;
    if i > 0 {
      StepsBounded(c, run, i - 1);
      assert Next(c, run[i - 1], run[i - 1 + 1]);
      RunInv(c, run, i - 1);
      ClosedLength(c, run[i - 1]);
      StepLeft(c, run[i - 1], run[i]);
    }
  }

  lemma ClosedLength(c: Config, s: State)
    requires ValidConfig(c) && Inv(c, s)
    ensures |s.closed| == |c.contents|
  {
  }

  /** Every run goes on to an end: the extractor alone needs at most as many steps as are left to it. */
  lemma {:induction false} Finish(c: Config, run: seq<State>) returns (more: seq<State>)
    requires ValidConfig(c) && IsRun(c, run)
    ensures IsRun(c, more) && run <= more && AtEnd(c, more[|more| - 1].pc)
    ensures more[|more| - 1].openers == run[|run| - 1].openers
    decreases Left(c, run[|run| - 1].pc)
  {
    var s := run[|run| - 1];
    ExtractorMoves(c, run, |run| - 1);
    StepsBounded(c, run, |run| - 1);
    if AtEnd(c, s.pc) {
      more := run;
    } else {
      var t := ExtractorStep(c, s).value;
      assert Apply(c, s, Extractor) == Some(t) && t.pc != s.pc && t.openers == s.openers by {
        hide DecodeChunk;
      }
      assert Next(c, s, t);
      StepLeft(c, s, t);
      hide IsRun, Next, ValidConfig, Left, ExtractorStep, AtEnd;
      var longer := Step(c, run, Extractor);
      StepsBounded(c, longer, |longer| - 1);
      more := Finish(c, longer);
      assert run <= longer;
    }
  }

  /** When every layer is marked, an open at a gate can pass it, unless its content was skipped. */
  lemma WaitersWake(c: Config, run: seq<State>, i: nat, op: nat)
    requires ValidConfig(c) && IsRun(c, run) && i < |run| && run[i].pc.Marking? && op < |run[i].openers|
    requires run[i].openers[op].Waiting?
    ensures |run[i].closed| == |c.contents| && run[i].openers[op].file < |c.files|
      && HasSignal(c, run[i].openers[op].file)
    ensures Apply(c, run[i], Wake(op)).Some? <==>
      !c.skip[c.contents[c.files[run[i].openers[op].file].payloadOrder].stack]
  {
    RunInv(c, run, i);
    hide FullyWritten, MarksInv, ContentPath, ExtractorStep;
  }

  /** An open of a file with a signal gets past its gate in some run exactly when its content is not
      skipped, in a pull whose body decodes that far. */
  lemma PassesExactly(c: Config, f: nat, o: nat)
    requires ValidConfig(c) && f < |c.files| && o < |c.contents| && InContentOf(c, f, o) && o >= 1 && Decodes(c, o + 1)
    ensures (exists run: seq<State> :: IsRun(c, run) && Passed(f) in run[|run| - 1].openers) <==>
      !c.skip[c.contents[o].stack]
  {
    if c.skip[c.contents[o].stack] {
      forall run: seq<State> | IsRun(c, run) ensures Passed(f) !in run[|run| - 1].openers {
        hide IsRun, ValidConfig, InContentOf;
        var openers := run[|run| - 1].openers;
        forall op: nat | op < |openers| ensures openers[op] != Passed(f) {
          if openers[op].file == f {
            SkippedWaits(c, run, |run| - 1, f, o, op);
          }
        }
      }
    } else {
      var run := RunTo(c, o + 1);
      RunInv(c, run, |run| - 1);
      var s := run[|run| - 1];
      assert s.closed[o] == 1;
      hide IsRun, Inv, FullData, ExtractorStep;
      run := Step(c, run, Open(f));
      var t := run[|run| - 1];
      assert t.openers[|s.openers|] == Waiting(f);
      run := Step(c, run, Wake(|s.openers|));
      assert run[|run| - 1].openers[|s.openers|] == Passed(f);
    }
  }
}
