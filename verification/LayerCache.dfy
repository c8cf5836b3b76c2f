/** The proxy's layer cache as atomic steps: any number of fetchers of one layer share one load. */
module LayerCache {
  import opened Basics

  /** Where a fetcher is. `Found` has made its channel and is about to subscribe; `Loaded` is about to take
      the entry's mutex in SetReady; `Notifying` holds it and closes subscriber `i` next. */
  datatype Phase = Idle | Found | Waiting | Loading | Loaded(ok: bool) | Notifying(ok: bool, i: nat) | Done(ok: bool)

  /** `entry`: the cache has an entry for the layer; the next three are its fields. `closed` counts how
      often each fetcher's channel has been closed, `loads` records who has run Load. */
  datatype State = State(
    entry: bool,
    ready: bool,
    locked: bool,
    buffer: Option<Bytes>,
    subscribers: seq<nat>,
    closed: seq<nat>,
    loads: seq<nat>,
    fetchers: seq<Phase>)

  datatype Action =
    | Fetch(f: nat) | Subscribe(f: nat) | Wake(f: nat)
    | Finish(f: nat, result: Option<Bytes>) | SetReady(f: nat) | Notify(f: nat)

  function Start(n: nat): State {
    State(false, false, false, None, [], seq(n, _ => 0), [], seq(n, _ => Idle))
  }

  /** One step of fetcher `a.f`, or None when it cannot take it. Fetch happens under the cache's mutex;
      Subscribe and SetReady need the entry's mutex, which SetReady holds until every channel is closed. */
  function Apply(s: State, a: Action): Option<State>
    requires |s.closed| == |s.fetchers|
  {
    if a.f >= |s.fetchers| then None
    else match a
      case Fetch(f) =>
        if s.fetchers[f] != Idle then None
        else if s.entry then Some(s.(fetchers := s.fetchers[f := Found]))
        else Some(s.(entry := true, loads := s.loads + [f], fetchers := s.fetchers[f := Loading]))
      case Subscribe(f) =>
        if s.fetchers[f] != Found || s.locked then None
        else if s.ready then Some(s.(closed := s.closed[f := s.closed[f] + 1], fetchers := s.fetchers[f := Waiting]))
        else Some(s.(subscribers := s.subscribers + [f], fetchers := s.fetchers[f := Waiting]))
      case Wake(f) =>
        if s.fetchers[f] != Waiting || s.closed[f] == 0 then None
        else Some(s.(fetchers := s.fetchers[f := Done(true)]))
      case Finish(f, result) =>
        if s.fetchers[f] != Loading then None
        else Some(s.(buffer := if result.Some? then result else s.buffer,
                     fetchers := s.fetchers[f := Loaded(result.Some?)]))
      case SetReady(f) =>
        if !s.fetchers[f].Loaded? || s.locked then None
        else Some(s.(ready := true, locked := true, fetchers := s.fetchers[f := Notifying(s.fetchers[f].ok, 0)]))
      case Notify(f) =>
        if !s.fetchers[f].Notifying? then None
        else
          var i := s.fetchers[f].i;
          if i >= |s.subscribers| then Some(s.(locked := false, fetchers := s.fetchers[f := Done(s.fetchers[f].ok)]))
          else if s.subscribers[i] >= |s.closed| then None
          else
            var t := s.subscribers[i];
            Some(s.(closed := s.closed[t := s.closed[t] + 1],
                    fetchers := s.fetchers[f := Notifying(s.fetchers[f].ok, i + 1)]))
  }

  ghost predicate Next(s: State, t: State) {
    |s.closed| == |s.fetchers| && exists a :: Apply(s, a) == Some(t)
  }

  /** A run of `n` fetchers. */
  ghost predicate IsRun(n: nat, run: seq<State>) {
    && run != [] && run[0] == Start(n)
    && (forall i :: 0 <= i < |run| - 1 ==> Next(run[i], run[i + 1]))
  }

  /** How many subscribers have been notified. */
  function Notified(s: State): nat {
    if s.loads == [] || s.loads[0] >= |s.fetchers| then 0
    else match s.fetchers[s.loads[0]]
      case Notifying(_, i) => Min(i, |s.subscribers|)
      case Done(_) => |s.subscribers|
      case _ => 0
  }

  /** Subscribers whose channel is still open. */
  function Pending(s: State): seq<nat> {
    s.subscribers[Notified(s)..]
  }

  predicate Distinct(xs: seq<nat>) {
    forall i, j :: 0 <= i < j < |xs| ==> xs[i] != xs[j]
  }

  /** Before anyone has fetched. */
  predicate Untouched(s: State) {
    && !s.entry && !s.ready && !s.locked && s.buffer == None && s.subscribers == []
    && forall f :: 0 <= f < |s.fetchers| ==> s.fetchers[f] == Idle
  }

  /** The one loader and the entry agree on how far the load has come. */
  predicate LoaderInv(s: State, l: nat) {
    && l < |s.fetchers| && s.entry
    && match s.fetchers[l]
       case Loading => !s.ready && !s.locked && s.buffer == None
       case Loaded(ok) => !s.ready && !s.locked && (ok <==> s.buffer.Some?)
       case Notifying(ok, i) => s.ready && s.locked && (ok <==> s.buffer.Some?) && i <= |s.subscribers|
       case Done(ok) => s.ready && !s.locked && (ok <==> s.buffer.Some?)
       case _ => false
  }

  /** A fetcher that is not the loader: its channel is closed once, unless it is yet to be notified. */
  predicate SharerInv(s: State, f: nat)
    requires f < |s.fetchers| == |s.closed|
  {
    match s.fetchers[f]
    case Idle => s.closed[f] == 0 && f !in s.subscribers
    case Found => s.closed[f] == 0 && f !in s.subscribers
    case Waiting => (s.closed[f] == if f in Pending(s) then 0 else 1) && (f !in s.subscribers ==> s.ready)
    case Done(ok) => ok && s.closed[f] == 1 && s.ready && f !in Pending(s)
    case _ => false
  }

  predicate Inv(s: State) {
    && |s.closed| == |s.fetchers| && |s.loads| <= 1 && Distinct(s.subscribers)
    && (forall i :: 0 <= i < |s.subscribers| ==> s.subscribers[i] < |s.fetchers|)
    && (if s.loads == [] then Untouched(s)
        else LoaderInv(s, s.loads[0]) && s.closed[s.loads[0]] == 0 && s.loads[0] !in s.subscribers)
    && (forall f: nat :: f < |s.fetchers| && s.loads != [f] ==> SharerInv(s, f))
  }

  lemma StepInv(s: State, t: State)
    requires Inv(s) && Next(s, t)
    ensures Inv(t) && |t.fetchers| == |s.fetchers|
  {
    var a :| Apply(s, a) == Some(t);
    hide Inv;
    match a {
      case Fetch(f) => FetchStep(s, t, f);
      case Subscribe(f) => SubscribeStep(s, t, f);
      case Notify(f) => NotifyStep(s, t, f);
      case _ => PhaseStep(s, t, a);
    }
  }

  lemma FetchStep(s: State, t: State, f: nat)
    requires Inv(s) && Apply(s, Fetch(f)) == Some(t)
    ensures Inv(t)
  {
    assert s.loads != [] ==> s.loads == [s.loads[0]];
    assert Pending(t) == Pending(s);
    forall g: nat | g < |t.fetchers| && t.loads != [g] ensures SharerInv(t, g) {
      assert SharerInv(s, g);
    }
  }

  lemma SubscribeStep(s: State, t: State, f: nat)
    requires Inv(s) && Apply(s, Subscribe(f)) == Some(t)
    ensures Inv(t)
  {
    assert s.loads == [s.loads[0]];
    assert SharerInv(s, f);
    assert Pending(t) == if s.ready then Pending(s) else Pending(s) + [f];
    forall g: nat | g < |t.fetchers| && t.loads != [g] ensures SharerInv(t, g) {
      assert SharerInv(s, g);
    }
  }

  lemma OnlyLoader(s: State, f: nat)
    requires Inv(s) && f < |s.fetchers| && (s.fetchers[f].Loading? || s.fetchers[f].Loaded? || s.fetchers[f].Notifying?)
    ensures s.loads == [f]
  {
    assert s.loads != [f] ==> SharerInv(s, f);
  }

  lemma PhaseStep(s: State, t: State, a: Action)
    requires Inv(s) && Apply(s, a) == Some(t) && (a.Wake? || a.Finish? || a.SetReady?)
    ensures Inv(t)
  {
    if a.Wake? {
      assert SharerInv(s, a.f);
    } else {
      OnlyLoader(s, a.f);
    }
    assert Pending(t) == Pending(s);
    forall g: nat | g < |t.fetchers| && t.loads != [g] ensures SharerInv(t, g) {
      assert SharerInv(s, g);
    }
  }

  lemma NotifyStep(s: State, t: State, f: nat)
    requires Inv(s) && Apply(s, Notify(f)) == Some(t)
    ensures Inv(t)
  {
    OnlyLoader(s, f);
    var i := s.fetchers[f].i;
    if i < |s.subscribers| {
      var rest := s.subscribers[i + 1..];
      assert Pending(t) == rest && Pending(s) == [s.subscribers[i]] + rest;
      assert forall j :: 0 <= j < |rest| ==> rest[j] == s.subscribers[i + 1 + j];
      assert s.subscribers[i] !in rest;
      assert s.subscribers[i] in s.subscribers;
      assert SharerInv(s, s.subscribers[i]);
      forall g: nat | g < |t.fetchers| && g != f ensures SharerInv(t, g) {
        assert SharerInv(s, g);
      }
    } else {
      assert Pending(s) == [] && Pending(t) == [];
      forall g: nat | g < |t.fetchers| && g != f ensures SharerInv(t, g) {
        assert SharerInv(s, g);
      }
    }
  }

  lemma {:induction false} RunInv(n: nat, run: seq<State>, i: nat)
    requires IsRun(n, run) && i < |run|
    ensures Inv(run[i]) && |run[i].fetchers| == n
    decreases i
  {
    hide Inv, Next;
    if i == 0 {
      StartInv(n);
    } else {
      RunInv(n, run, i - 1);
      assert Next(run[i - 1], run[i - 1 + 1]);
      StepInv(run[i - 1], run[i]);
    }
  }

  lemma StartInv(n: nat)
    ensures Inv(Start(n))
  {
  }

  /** Exactly one fetcher runs Load, however many there are and however they interleave. */
  lemma OneLoad(n: nat, run: seq<State>, i: nat, f: nat)
    requires IsRun(n, run) && i < |run| && f < n
    ensures |run[i].loads| <= 1 && |run[i].fetchers| == n
    ensures run[i].fetchers[f] != Idle ==> |run[i].loads| == 1
  {
    RunInv(n, run, i);
  }

  /** No channel is ever closed twice; every fetcher that returned after waiting has had its own closed. */
  lemma ClosedOnce(n: nat, run: seq<State>, i: nat, f: nat)
    requires IsRun(n, run) && i < |run| && f < n
    ensures |run[i].closed| == |run[i].fetchers| == n && run[i].closed[f] <= 1
    ensures run[i].fetchers[f].Done? && run[i].loads != [f] ==> run[i].closed[f] == 1
  {
    RunInv(n, run, i);
    if run[i].loads != [f] {
      assert SharerInv(run[i], f);
    }
  }

  // --- nobody stays blocked

  ghost predicate CanMove(s: State, f: nat)
    requires |s.closed| == |s.fetchers|
  {
    exists a: Action :: a.f == f && Apply(s, a).Some?
  }

  /** Once Load has returned, every fetcher that is not done can take its next step. */
  lemma NobodyBlocked(n: nat, run: seq<State>, i: nat, f: nat)
    requires IsRun(n, run) && i < |run| && f < n
    requires |run[i].fetchers| == |run[i].closed| == n && run[i].loads != [] && run[i].loads[0] < n
      && run[i].fetchers[run[i].loads[0]].Done?
    ensures run[i].fetchers[f].Done? || CanMove(run[i], f)
  {
    var s := run[i];
    RunInv(n, run, i);
    if !s.fetchers[f].Done? {
      assert s.loads == [s.loads[0]];
      assert SharerInv(s, f);
      assert Pending(s) == [];
      var a := if s.fetchers[f] == Idle then Fetch(f) else if s.fetchers[f] == Found then Subscribe(f) else Wake(f);
      assert a.f == f && Apply(s, a).Some?;
    }
  }

  /** No deadlock: as long as a fetcher is not done, someone can move. */
  lemma NoDeadlock(n: nat, run: seq<State>, i: nat, f: nat)
    requires IsRun(n, run) && i < |run| && f < n
    requires |run[i].fetchers| == |run[i].closed| == n && !run[i].fetchers[f].Done?
    ensures exists g :: 0 <= g < n && CanMove(run[i], g)
  {
    var s := run[i];
    RunInv(n, run, i);
    if s.loads == [] {
      assert Apply(s, Fetch(f)).Some?;
      assert CanMove(s, f);
    } else {
      var l := s.loads[0];
      if s.fetchers[l].Done? {
        NobodyBlocked(n, run, i, f);
      } else {
        var a := match s.fetchers[l] case Loading => Finish(l, None) case Loaded(_) => SetReady(l) case _ => Notify(l);
        assert a.f == l && Apply(s, a).Some?;
        assert CanMove(s, l);
      }
    }
  }

  function Weight(p: Phase): nat {
    match p
    case Idle => 5
    case Found => 4
    case Waiting => 1
    case Loading => 4
    case Loaded(_) => 3
    case Notifying(_, _) => 2
    case Done(_) => 0
  }

  function Weights(ps: seq<Phase>): nat {
    if ps == [] then 0 else Weight(ps[0]) + Weights(ps[1..])
  }

  lemma {:induction false} WeightsUpdate(ps: seq<Phase>, f: nat, p: Phase)
    requires f < |ps|
    ensures Weights(ps[f := p]) + Weight(ps[f]) == Weights(ps) + Weight(p)
    decreases f
  {
    if f == 0 {
      assert ps[0 := p][1..] == ps[1..];
    } else {
      assert ps[f := p][1..] == ps[1..][f - 1 := p];
      WeightsUpdate(ps[1..], f - 1, p);
    }
  }

  /** What is still to be done: every step makes it smaller. */
  function Remaining(s: State): int {
    Weights(s.fetchers) + |s.subscribers| - Notified(s)
  }

  lemma StepProgress(s: State, t: State)
    requires Inv(s) && Next(s, t)
    ensures 0 <= Remaining(t) < Remaining(s)
  {
    StepInv(s, t);
    var a :| Apply(s, a) == Some(t);
    WeightsUpdate(s.fetchers, a.f, t.fetchers[a.f]);
    assert t.fetchers == s.fetchers[a.f := t.fetchers[a.f]];
    hide Weights;
    match a {
      case Fetch(f) => assert s.loads != [] ==> s.loads == [s.loads[0]];
      case Subscribe(f) => assert s.loads == [s.loads[0]]; assert SharerInv(s, f);
      case Wake(f) => assert s.loads == [s.loads[0]]; assert SharerInv(s, f);
      case Finish(f, _) => assert s.loads == [f];
      case SetReady(f) => assert s.loads == [f];
      case Notify(f) => assert s.loads == [f];
    }
  }

  lemma {:induction false} IdleWeights(n: nat)
    ensures Weights(seq(n, _ => Idle)) == 5 * n
    decreases n
  {
    if n > 0 {
      assert seq(n, _ => Idle)[1..] == seq((n - 1) as nat, _ => Idle);
      IdleWeights(n - 1);
    }
  }

  lemma StartRemaining(n: nat)
    ensures Remaining(Start(n)) == 5 * n
  {
    IdleWeights(n);
    assert Start(n).fetchers == seq(n, _ => Idle);
  }

  lemma {:induction false} RunProgress(n: nat, run: seq<State>, i: nat)
    requires IsRun(n, run) && i < |run|
    ensures 0 <= Remaining(run[i]) <= 5 * n - i
    decreases i
  {
    hide Next, Inv, Remaining;
    if i == 0 {
      StartRemaining(n);
    } else {
      RunProgress(n, run, i - 1);
      RunInv(n, run, i - 1);
      assert Next(run[i - 1], run[i - 1 + 1]);
      StepProgress(run[i - 1], run[i]);
    }
  }

  predicate AllDone(s: State) {
    forall f :: 0 <= f < |s.fetchers| ==> s.fetchers[f].Done?
  }

  ghost predicate Stuck(s: State) {
    |s.closed| == |s.fetchers| && forall g :: 0 <= g < |s.fetchers| ==> !CanMove(s, g)
  }

  /** Every run ends, within five steps for each fetcher, and when it cannot go on everyone has returned. */
  lemma EveryRunEnds(n: nat, run: seq<State>)
    requires IsRun(n, run)
    ensures |run| <= 5 * n + 1
    ensures Stuck(run[|run| - 1]) ==> |run[|run| - 1].fetchers| == n && AllDone(run[|run| - 1])
  {
    RunProgress(n, run, |run| - 1);
    RunInv(n, run, |run| - 1);
    var s := run[|run| - 1];
    if Stuck(s) {
      forall f: nat | f < n ensures s.fetchers[f].Done? {
        if !s.fetchers[f].Done? {
          NoDeadlock(n, run, |run| - 1, f);
        }
      }
    }
  }

  // --- what the fetchers are left holding

  lemma RunStep(n: nat, run: seq<State>, i: nat)
    requires IsRun(n, run) && i + 1 < |run|
    ensures Inv(run[i]) && Next(run[i], run[i + 1]) && |run[i].fetchers| == |run[i + 1].fetchers| == n
  {
    RunInv(n, run, i);
    RunInv(n, run, i + 1);
    hide Inv, Next;
  }

  /** Nothing undoes the end of a load, or a fetcher's return. */
  lemma StepStays(s: State, t: State)
    requires Inv(s) && Next(s, t)
    ensures s.ready ==> t.ready && t.buffer == s.buffer
    ensures s.buffer.Some? ==> t.buffer == s.buffer
    ensures t.buffer.Some? && s.buffer.None? ==> exists f: nat :: Apply(s, Finish(f, t.buffer)) == Some(t)
    ensures s.loads != [] ==> t.loads == s.loads
    ensures forall f :: 0 <= f < |s.fetchers| == |t.fetchers| && s.fetchers[f].Done? ==> t.fetchers[f] == s.fetchers[f]
  {
    var a :| Apply(s, a) == Some(t);
    if a.Finish? {
      OnlyLoader(s, a.f);
    }
    assert s.loads != [] ==> s.loads == [s.loads[0]];
  }

  lemma {:induction false} BufferStays(n: nat, run: seq<State>, i: nat, j: nat)
    requires IsRun(n, run) && i <= j < |run| && run[i].ready
    ensures run[j].ready && run[j].buffer == run[i].buffer
    decreases j - i
  {
    hide Inv, Next, IsRun;
    if i < j {
      BufferStays(n, run, i, j - 1);
      RunStep(n, run, j - 1);
      StepStays(run[j - 1], run[j]);
    }
  }

  /** Step `k` is the end of a load that returned `b`. */
  ghost predicate LoadedAt(run: seq<State>, k: nat, b: Bytes) {
    && k + 1 < |run| && |run[k].closed| == |run[k].fetchers|
    && exists f: nat :: Apply(run[k], Finish(f, Some(b))) == Some(run[k + 1])
  }

  /** The buffer is what a load has returned, from then on and for good, and nothing before. */
  lemma {:induction false} BufferIsLoaded(n: nat, run: seq<State>, j: nat, b: Bytes)
    requires IsRun(n, run) && j < |run|
    ensures run[j].buffer == Some(b) <==> exists k: nat :: k < j && LoadedAt(run, k, b)
    decreases j
  {
    hide Inv, IsRun, Next;
    if j == 0 {
      assert run[0] == Start(n) by {
        StartOfRun(n, run);
      }
    } else {
      BufferIsLoaded(n, run, j - 1, b);
      RunStep(n, run, j - 1);
      StepStays(run[j - 1], run[j - 1 + 1]);
      RunClosed(n, run, j - 1);
      if LoadedAt(run, j - 1, b) {
        var f: nat :| Apply(run[j - 1], Finish(f, Some(b))) == Some(run[j - 1 + 1]);
      }
    }
  }

  lemma StartOfRun(n: nat, run: seq<State>)
    requires IsRun(n, run)
    ensures run[0] == Start(n)
  {
    hide Next;
  }

  lemma RunClosed(n: nat, run: seq<State>, i: nat)
    requires IsRun(n, run) && i < |run|
    ensures |run[i].closed| == |run[i].fetchers|
  {
    RunInv(n, run, i);
    hide Next;
  }

  /** A fetcher that has returned success holds the entry for good. Its buffer no longer changes, and holds
      what Load returned if Load returned anything. */
  lemma SuccessIsShared(n: nat, run: seq<State>, i: nat, j: nat, f: nat)
    requires IsRun(n, run) && i <= j < |run| && f < n && |run[i].fetchers| == n && run[i].fetchers[f] == Done(true)
    ensures run[j].buffer == run[i].buffer && |run[j].loads| == 1 && run[j].loads[0] < |run[j].fetchers|
    ensures run[j].loads[0] == f ==> run[j].buffer.Some?
    ensures forall b: Bytes :: run[j].buffer == Some(b) <==> exists k: nat :: k < i && LoadedAt(run, k, b)
    ensures run[j].fetchers[run[j].loads[0]].Done? ==> (run[j].fetchers[run[j].loads[0]].ok <==> run[j].buffer.Some?)
  {
    RunInv(n, run, i);
    RunInv(n, run, j);
    if run[i].loads != [f] {
      assert SharerInv(run[i], f);
    }
    BufferStays(n, run, i, j);
    forall b: Bytes ensures run[i].buffer == Some(b) <==> exists k: nat :: k < i && LoadedAt(run, k, b) {
      BufferIsLoaded(n, run, i, b);
    }
    DoneStays(n, run, i, j, f);
    assert run[j].loads == [run[j].loads[0]];
  }

  lemma {:induction false} DoneStays(n: nat, run: seq<State>, i: nat, j: nat, f: nat)
    requires IsRun(n, run) && i <= j < |run| && f < n && |run[i].fetchers| == n && run[i].fetchers[f].Done?
      && run[i].loads != []
    ensures |run[j].fetchers| == n && run[j].fetchers[f] == run[i].fetchers[f] && run[j].loads == run[i].loads
    decreases j - i
  {
    hide Inv, Next, IsRun;
    if i < j {
      DoneStays(n, run, i, j - 1, f);
      RunStep(n, run, j - 1);
      StepStays(run[j - 1], run[j]);
    }
  }

  /** Success means a buffer. */
  predicate SuccessHoldsBuffer(s: State) {
    forall f :: 0 <= f < |s.fetchers| && s.fetchers[f] == Done(true) ==> s.buffer.Some?
  }

  /** A failed load is reported to the loader alone, since the error that SetReady hands on was read
      before Load set it. So success stands for a buffer exactly when Load stored one or nobody shared it. */
  lemma FailureIsNotShared(n: nat, run: seq<State>)
    requires n >= 1 && IsRun(n, run) && AllDone(run[|run| - 1])
    ensures SuccessHoldsBuffer(run[|run| - 1]) <==> run[|run| - 1].buffer.Some? || n == 1
  {
    var s := run[|run| - 1];
    RunInv(n, run, |run| - 1);
    assert s.fetchers[0].Done?;
    assert s.loads == [s.loads[0]];
    if n > 1 && s.buffer.None? {
      var f := if s.loads[0] == 0 then 1 else 0;
      assert SharerInv(s, f);
      assert s.fetchers[f] == Done(true);
    }
  }

  /** Such a run: fetcher 0 loads and fails while fetcher 1 waits, and fetcher 1 returns success with no buffer. */
  lemma FailureHidden() returns (run: seq<State>)
    ensures IsRun(2, run) && run[|run| - 1].fetchers == [Done(false), Done(true)] && run[|run| - 1].buffer == None
  {
    hide IsRun;
    run := InitialRun(2);
    run := Extend(2, run, Fetch(0));
    run := Extend(2, run, Fetch(1));
    run := Extend(2, run, Subscribe(1));
    run := Extend(2, run, Finish(0, None));
    run := Extend(2, run, SetReady(0));
    run := Extend(2, run, Notify(0));
    run := Extend(2, run, Notify(0));
    run := Extend(2, run, Wake(1));
  }

  lemma InitialRun(n: nat) returns (run: seq<State>)
    ensures IsRun(n, run) && run == [Start(n)]
  {
    run := [Start(n)];
  }

  lemma Extend(n: nat, run: seq<State>, a: Action) returns (more: seq<State>)
    requires IsRun(n, run) && |run[|run| - 1].closed| == |run[|run| - 1].fetchers| && Apply(run[|run| - 1], a).Some?
    ensures IsRun(n, more) && more[|more| - 1] == Apply(run[|run| - 1], a).value
  {
    more := run + [Apply(run[|run| - 1], a).value];
    assert Next(run[|run| - 1], more[|run|]);
    hide Next, Apply;
    forall i | 0 <= i < |more| - 1 ensures Next(more[i], more[i + 1]) {
      if i < |run| - 1 {
        assert Next(run[i], run[i + 1]);
      }
    }
  }
}
