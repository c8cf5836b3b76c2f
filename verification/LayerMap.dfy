/** The client's layer map: which manager and file system stand behind each layer. */
module LayerMap {
  import opened Basics

  /** A mounted file system: the manager and stack it was made for, and where it is mounted. */
  datatype Instance = Instance(manager: nat, stack: int, mountPoint: string)

  /** One entry of the map. `manager` is a position in `managers`; a stack of -1 goes with none. */
  datatype MountPoint = MountPoint(fs: Option<Instance>, manager: Option<nat>, stack: int, snapshots: set<string>)

  const EMPTY := MountPoint(None, None, -1, {})

  /** A manager in memory: the image, the layer hash of each stack, the file systems it has created. */
  datatype Manager = Manager(image: string, hashes: seq<string>, fs: map<int, Instance>)

  /** `tornDown` lists the file systems that have been unmounted. */
  datatype State = State(layers: map<string, MountPoint>, loaded: map<string, nat>, managers: seq<Manager>,
                         tornDown: seq<Instance>)

  const START := State(map[], map[], [], [])

  /** The operations, with what the world answers: whether the content store has the image, whether the
      optimizer starts, whether mounting and unmounting succeed. Register is one turn of the loop in
      CreateSnapshots, which takes the lock once for each stack. */
  datatype Op =
    | AddCompleted(hash: string)
    | Load(image: string, stored: Option<seq<string>>, optimizerOk: bool)
    | NewManager(image: string, hashes: seq<string>)
    | Register(manager: nat, stack: nat)
    | Mount(hash: string, path: string, snapshot: string, mounts: bool)
    | Unmount(hash: string, snapshot: string, unmounts: bool)

  /** The entry after a manager has offered itself for `stack`: an entry that has a manager keeps it. */
  function Offered(layers: map<string, MountPoint>, hash: string, manager: nat, stack: int): MountPoint {
    if hash !in layers then MountPoint(None, Some(manager), stack, {})
    else if layers[hash].manager.None? then layers[hash].(manager := Some(manager), stack := stack)
    else layers[hash]
  }

  function Offer(layers: map<string, MountPoint>, hashes: seq<string>, manager: nat, n: nat): map<string, MountPoint>
    requires n <= |hashes|
  {
    if n == 0 then layers
    else
      var l := Offer(layers, hashes, manager, n - 1);
      l[hashes[n - 1] := Offered(l, hashes[n - 1], manager, n - 1)]
  }

  datatype Outcome = Done | Mounted(path: string) | NoManager | NotFound | Failed

  /** What NewStarlightFS does to the manager and to an instance it already has. */
  function NewFS(s: State, m: nat, stack: int, path: string): State
    requires m < |s.managers|
  {
    var known := s.managers[m].fs;
    s.(managers := s.managers[m := s.managers[m].(fs := known[stack := Instance(m, stack, path)])],
       tornDown := if stack in known then s.tornDown + [known[stack]] else s.tornDown)
  }

  function Mounting(s: State, o: Op): (State, Outcome)
    requires o.Mount?
  {
    if o.hash !in s.layers then (s, NotFound)
    else
      var mp := s.layers[o.hash];
      if mp.fs.Some? then
        (s.(layers := s.layers[o.hash := mp.(snapshots := mp.snapshots + {o.snapshot})]),
              Mounted(mp.fs.value.mountPoint))
      else if mp.manager.None? || mp.manager.value >= |s.managers| then (s, NoManager)
      else if !o.mounts then (s, Failed)
      else
        var t := NewFS(s, mp.manager.value, mp.stack, o.path);
        (t.(layers := t.layers[o.hash := mp.(fs := Some(Instance(mp.manager.value, mp.stack, o.path)),
                    snapshots := mp.snapshots + {o.snapshot})]),
         Mounted(o.path))
  }

  function Unmounting(s: State, o: Op): (State, Outcome)
    requires o.Unmount?
  {
    if o.hash !in s.layers || o.snapshot !in s.layers[o.hash].snapshots then (s, Done)
    else
      var mp := s.layers[o.hash].(snapshots := s.layers[o.hash].snapshots - {o.snapshot});
      var t := s.(layers := s.layers[o.hash := mp]);
      if mp.snapshots != {} || mp.fs.None? then (t, Done)
      else if !o.unmounts then (t, Failed)
      else (t.(tornDown := t.tornDown + [mp.fs.value]), Done)
  }

  function Apply(s: State, o: Op): (State, Outcome) {
    match o
    case AddCompleted(h) => (if h in s.layers then s else s.(layers := s.layers[h := EMPTY]), Done)
    case Load(image, stored, ok) =>
      if image in s.loaded then (s, Done)
      else if stored.None? then (s, Failed)
      else
        var m := |s.managers|;
        var t := s.(managers := s.managers + [Manager(image, stored.value, map[])], loaded := s.loaded[image := m]);
        if !ok then (t, Failed) else (t.(layers := Offer(s.layers, stored.value, m, |stored.value|)), Done)
    case NewManager(image, hashes) =>
      (s.(managers := s.managers + [Manager(image, hashes, map[])], loaded := s.loaded[image := |s.managers|]), Done)
    case Register(m, i) =>
      if m >= |s.managers| || i >= |s.managers[m].hashes| then (s, Failed)
      else (s.(layers := s.layers[s.managers[m].hashes[i] := Offered(s.layers, s.managers[m].hashes[i], m, i)]), Done)
    case Mount(_, _, _, _) => Mounting(s, o)
    case Unmount(_, _, _) => Unmounting(s, o)
  }

  // --- what every operation keeps

  /** An entry: registered snapshots imply a file system, that implies a manager, and the manager has this
      very layer at the entry's stack and knows the file system. */
  predicate EntryOk(s: State, h: string)
    requires h in s.layers
  {
    var mp := s.layers[h];
    && (mp.snapshots != {} ==> mp.fs.Some?)
    && (mp.fs.Some? ==> mp.manager == Some(mp.fs.value.manager) && mp.stack == mp.fs.value.stack)
    && (mp.manager.None? ==> mp.stack == -1)
    && (mp.manager.Some? ==>
          && mp.manager.value < |s.managers|
          && 0 <= mp.stack < |s.managers[mp.manager.value].hashes|
          && s.managers[mp.manager.value].hashes[mp.stack] == h)
    && (mp.fs.Some? ==>
          mp.stack in s.managers[mp.manager.value].fs && s.managers[mp.manager.value].fs[mp.stack] == mp.fs.value)
  }

  /** A file system a manager has created is the one of the entry for that layer. */
  predicate InstanceOk(s: State, m: nat, i: int)
    requires m < |s.managers| && i in s.managers[m].fs
  {
    && 0 <= i < |s.managers[m].hashes| && s.managers[m].hashes[i] in s.layers
    && var mp := s.layers[s.managers[m].hashes[i]];
       mp.manager == Some(m) && mp.stack == i && mp.fs == Some(s.managers[m].fs[i])
  }

  /** The instance is one that its manager created and still lists. */
  predicate Known(s: State, i: Instance) {
    i.manager < |s.managers| && i.stack in s.managers[i.manager].fs && s.managers[i.manager].fs[i.stack] == i
  }

  ghost predicate Inv(s: State) {
    && (forall h :: h in s.layers ==> EntryOk(s, h))
    && (forall m: nat, i :: m < |s.managers| && i in s.managers[m].fs ==> InstanceOk(s, m, i))
    && (forall k :: 0 <= k < |s.tornDown| ==> Known(s, s.tornDown[k]))
    && (forall d :: d in s.loaded ==> s.loaded[d] < |s.managers| && s.managers[s.loaded[d]].image == d)
  }

  /** What never changes once set: an entry, its manager and stack, its file system. */
  ghost predicate Evolves(s: State, t: State) {
    && s.layers.Keys <= t.layers.Keys && |s.managers| <= |t.managers|
    && (forall m :: 0 <= m < |s.managers| ==>
          t.managers[m].image == s.managers[m].image && t.managers[m].hashes == s.managers[m].hashes)
    && (forall h :: h in s.layers && s.layers[h].manager.Some? ==>
          t.layers[h].manager == s.layers[h].manager && t.layers[h].stack == s.layers[h].stack)
    && (forall h :: h in s.layers && s.layers[h].fs.Some? ==> t.layers[h].fs == s.layers[h].fs)
  }

  lemma OfferOne(s: State, h: string, m: nat, i: nat)
    requires Inv(s) && m < |s.managers| && i < |s.managers[m].hashes| && s.managers[m].hashes[i] == h
    ensures var t := s.(layers := s.layers[h := Offered(s.layers, h, m, i)]); Inv(t) && Evolves(s, t)
  {
    var t := s.(layers := s.layers[h := Offered(s.layers, h, m, i)]);
    forall g | g in t.layers ensures EntryOk(t, g) {
      if g in s.layers {
        assert EntryOk(s, g);
      }
    }
    forall n: nat, j | n < |t.managers| && j in t.managers[n].fs ensures InstanceOk(t, n, j) {
      assert InstanceOk(s, n, j);
    }
  }

  lemma {:induction false} OfferMany(s: State, m: nat, n: nat)
    requires Inv(s) && m < |s.managers| && n <= |s.managers[m].hashes|
    ensures var t := s.(layers := Offer(s.layers, s.managers[m].hashes, m, n)); Inv(t) && Evolves(s, t)
    decreases n
  {
    hide Inv, Evolves;
    if n == 0 {
      EvolvesSelf(s);
    } else {
      OfferMany(s, m, n - 1);
      var t := s.(layers := Offer(s.layers, s.managers[m].hashes, m, n - 1));
      OfferOne(t, s.managers[m].hashes[n - 1], m, n - 1);
      EvolvesTrans(s, t, s.(layers := Offer(s.layers, s.managers[m].hashes, m, n)));
    }
  }

  lemma EvolvesSelf(s: State)
    ensures Evolves(s, s)
  {
  }

  lemma EvolvesTrans(s: State, t: State, u: State)
    requires Evolves(s, t) && Evolves(t, u)
    ensures Evolves(s, u)
  {
  }

  lemma AddManager(s: State, image: string, hashes: seq<string>)
    requires Inv(s)
    ensures var t := s.(managers := s.managers + [Manager(image, hashes, map[])],
          loaded := s.loaded[image := |s.managers|]); Inv(t) && Evolves(s, t)
  {
    var t := s.(managers := s.managers + [Manager(image, hashes, map[])], loaded := s.loaded[image := |s.managers|]);
    forall g | g in t.layers ensures EntryOk(t, g) {
      assert EntryOk(s, g);
    }
    forall n: nat, j | n < |t.managers| && j in t.managers[n].fs ensures InstanceOk(t, n, j) {
      assert InstanceOk(s, n, j);
    }
  }

  /** Whether a mount is about to create a file system the manager already has. */
  predicate Recreates(s: State, h: string) {
    && h in s.layers && s.layers[h].fs.None? && s.layers[h].manager.Some?
    && s.layers[h].manager.value < |s.managers| && s.layers[h].stack in s.managers[s.layers[h].manager.value].fs
  }

  lemma NeverRecreates(s: State, h: string)
    requires Inv(s)
    ensures !Recreates(s, h)
  {
    if h in s.layers && s.layers[h].manager.Some? {
      assert EntryOk(s, h);
      var m, i := s.layers[h].manager.value, s.layers[h].stack;
      if i in s.managers[m].fs {
        assert InstanceOk(s, m, i);
      }
    }
  }

  /** Snapshots may come and go as long as none is registered without a file system. */
  lemma SnapshotsChange(s: State, h: string, names: set<string>)
    requires Inv(s) && h in s.layers && (names != {} ==> s.layers[h].fs.Some?)
    ensures var t := s.(layers := s.layers[h := s.layers[h].(snapshots := names)]); Inv(t) && Evolves(s, t)
  {
    var t := s.(layers := s.layers[h := s.layers[h].(snapshots := names)]);
    forall g | g in t.layers ensures EntryOk(t, g) {
      assert EntryOk(s, g);
    }
    forall n: nat, j | n < |t.managers| && j in t.managers[n].fs ensures InstanceOk(t, n, j) {
      assert InstanceOk(s, n, j);
    }
    forall k | 0 <= k < |t.tornDown| ensures Known(t, t.tornDown[k]) {
      assert Known(s, s.tornDown[k]);
    }
  }

  /** A layer with a manager and no file system gets one. */
  lemma FirstMount(s: State, h: string, path: string)
    requires Inv(s) && h in s.layers && s.layers[h].fs.None? && s.layers[h].manager.Some?
    ensures s.layers[h].manager.value < |s.managers|
    ensures var mp := s.layers[h];
            var n := NewFS(s, mp.manager.value, mp.stack, path);
            var t := n.(layers := s.layers[h := mp.(fs := Some(Instance(mp.manager.value, mp.stack, path)))]);
            Inv(t) && Evolves(s, t) && n.tornDown == s.tornDown
  {
    NeverRecreates(s, h);
    var mp := s.layers[h];
    assert EntryOk(s, h);
    var m := mp.manager.value;
    var n := NewFS(s, m, mp.stack, path);
    var t := n.(layers := s.layers[h := mp.(fs := Some(Instance(m, mp.stack, path)))]);
    forall g | g in t.layers ensures EntryOk(t, g) {
      assert EntryOk(s, g);
    }
    forall k: nat, j | k < |t.managers| && j in t.managers[k].fs ensures InstanceOk(t, k, j) {
      if k != m || j != mp.stack {
        assert InstanceOk(s, k, j);
      }
    }
    forall k | 0 <= k < |t.tornDown| ensures Known(t, t.tornDown[k]) {
      assert Known(s, s.tornDown[k]);
    }
  }

  lemma MountKeeps(s: State, o: Op)
    requires Inv(s) && o.Mount?
    ensures Inv(Apply(s, o).0) && Evolves(s, Apply(s, o).0)
    ensures Apply(s, o).0.tornDown == s.tornDown
  {
    EvolvesSelf(s);
    hide Inv, Evolves;
    if o.hash in s.layers {
      var mp := s.layers[o.hash];
      if mp.fs.Some? {
        SnapshotsChange(s, o.hash, mp.snapshots + {o.snapshot});
      } else if mp.manager.Some? {
        FirstMount(s, o.hash, o.path);
        var n := NewFS(s, mp.manager.value, mp.stack, o.path);
        var t := n.(layers := s.layers[o.hash := mp.(fs := Some(Instance(mp.manager.value, mp.stack, o.path)))]);
        SnapshotsChange(t, o.hash, mp.snapshots + {o.snapshot});
        if o.mounts {
          assert t.(layers := t.layers[o.hash := t.layers[o.hash].(snapshots := mp.snapshots + {o.snapshot})])
             == Apply(s, o).0;
          EvolvesTrans(s, t, Apply(s, o).0);
        }
      }
    }
  }

  lemma UnmountKeeps(s: State, o: Op)
    requires Inv(s) && o.Unmount?
    ensures Inv(Apply(s, o).0) && Evolves(s, Apply(s, o).0)
  {
    EvolvesSelf(s);
    if o.hash in s.layers && o.snapshot in s.layers[o.hash].snapshots {
      assert EntryOk(s, o.hash);
      hide Inv, Evolves;
      var names := s.layers[o.hash].snapshots - {o.snapshot};
      SnapshotsChange(s, o.hash, names);
      var t := s.(layers := s.layers[o.hash := s.layers[o.hash].(snapshots := names)]);
      if names == {} && o.unmounts {
        TearDown(t, o.hash);
        EvolvesTrans(s, t, Apply(s, o).0);
      }
    }
  }

  lemma TearDown(s: State, h: string)
    requires Inv(s) && h in s.layers && s.layers[h].fs.Some?
    ensures var t := s.(tornDown := s.tornDown + [s.layers[h].fs.value]); Inv(t) && Evolves(s, t)
  {
    assert EntryOk(s, h);
    var t := s.(tornDown := s.tornDown + [s.layers[h].fs.value]);
    forall g | g in t.layers ensures EntryOk(t, g) {
      assert EntryOk(s, g);
    }
    forall k: nat, j | k < |t.managers| && j in t.managers[k].fs ensures InstanceOk(t, k, j) {
      assert InstanceOk(s, k, j);
    }
    forall k | 0 <= k < |t.tornDown| ensures Known(t, t.tornDown[k]) {
      assert k < |s.tornDown| ==> Known(s, s.tornDown[k]);
    }
  }

  lemma AddCompletedKeeps(s: State, h: string)
    requires Inv(s)
    ensures Inv(Apply(s, AddCompleted(h)).0) && Evolves(s, Apply(s, AddCompleted(h)).0)
  {
    var t := Apply(s, AddCompleted(h)).0;
    forall g | g in t.layers ensures EntryOk(t, g) {
      if g in s.layers {
        assert EntryOk(s, g);
      }
    }
    forall n: nat, j | n < |t.managers| && j in t.managers[n].fs ensures InstanceOk(t, n, j) {
      assert InstanceOk(s, n, j);
    }
  }

  lemma ApplyKeeps(s: State, o: Op)
    requires Inv(s)
    ensures Inv(Apply(s, o).0) && Evolves(s, Apply(s, o).0)
  {
    hide Inv, Evolves;
    EvolvesSelf(s);
    match o {
      case AddCompleted(h) => AddCompletedKeeps(s, h);
      case Load(image, stored, ok) =>
        if image !in s.loaded && stored.Some? {
          AddManager(s, image, stored.value);
          var t := s.(managers := s.managers + [Manager(image, stored.value, map[])],
                loaded := s.loaded[image := |s.managers|]);
          assert t.managers[|s.managers|].hashes == stored.value;
          OfferMany(t, |s.managers|, |stored.value|);
          EvolvesTrans(s, t, t.(layers := Offer(s.layers, stored.value, |s.managers|, |stored.value|)));
        }
      case NewManager(image, hashes) => AddManager(s, image, hashes);
      case Register(m, i) =>
        if m < |s.managers| && i < |s.managers[m].hashes| {
          OfferOne(s, s.managers[m].hashes[i], m, i);
        }
      case Mount(_, _, _, _) => MountKeeps(s, o);
      case Unmount(_, _, _) => UnmountKeeps(s, o);
    }
  }

  function Run(s: State, ops: seq<Op>): State
    decreases |ops|
  {
    if ops == [] then s else Run(Apply(s, ops[0]).0, ops[1..])
  }

  /** Every sequence of operations keeps the invariant and what has been set. */
  lemma {:induction false} RunKeeps(s: State, ops: seq<Op>)
    requires Inv(s)
    ensures Inv(Run(s, ops)) && Evolves(s, Run(s, ops))
    decreases |ops|
  {
    hide Inv, Evolves, Apply;
    if ops == [] {
      EvolvesSelf(s);
    } else {
      ApplyKeeps(s, ops[0]);
      RunKeeps(Apply(s, ops[0]).0, ops[1..]);
      EvolvesTrans(s, Apply(s, ops[0]).0, Run(s, ops));
    }
  }

  /** In every history, a mount never tears an existing file system down, and of a layer with a manager it
      reports the path of the one file system the layer will ever have. */
  lemma MountIsStable(before: seq<Op>, o: Op, after: seq<Op>)
    requires o.Mount?
    ensures var s := Run(START, before);
            var (t, r) := Apply(s, o);
            var u := Run(t, after);
            && !Recreates(s, o.hash) && t.tornDown == s.tornDown
            && (r.Mounted? ==>
                  && o.hash in u.layers && u.layers[o.hash].fs.Some? && u.layers[o.hash].fs.value.mountPoint == r.path
                  && u.layers[o.hash].manager == Some(u.layers[o.hash].fs.value.manager)
                     && o.snapshot in t.layers[o.hash].snapshots)
  {
    var s := Run(START, before);
    var t := Apply(s, o).0;
    RunKeeps(START, before);
    ApplyKeeps(s, o);
    NeverRecreates(s, o.hash);
    MountKeeps(s, o);
    RunKeeps(t, after);
    if Apply(s, o).1.Mounted? {
      assert EntryOk(t, o.hash) && EntryOk(Run(t, after), o.hash);
    }
  }

  /** Unmount leaves the torn-down file system in the entry, so a mount hands out a file system that is
      served exactly when the entry had none before or had one that was never torn down. */
  lemma MountIsLive(before: seq<Op>, o: Op)
    requires o.Mount? && Apply(Run(START, before), o).1.Mounted?
    ensures var s := Run(START, before);
            var t := Apply(s, o).0;
            && o.hash in s.layers && o.hash in t.layers && t.layers[o.hash].fs.Some?
            && (t.layers[o.hash].fs.value !in t.tornDown <==>
                    s.layers[o.hash].fs.None? || s.layers[o.hash].fs.value !in s.tornDown)
  {
    var s := Run(START, before);
    var t := Apply(s, o).0;
    RunKeeps(START, before);
    MountKeeps(s, o);
    NeverRecreates(s, o.hash);
    if s.layers[o.hash].fs.None? {
      var i := t.layers[o.hash].fs.value;
      assert !Known(s, i);
    }
  }

  /** A history that hands out a torn-down file system: mount, unmount, mount again. */
  lemma RemountIsStale(hash: string, path: string, again: string, snapshot: string)
    ensures var ops := [NewManager("image", [hash]), Register(0, 0), Mount(hash, path, snapshot, true),
          Unmount(hash, snapshot, true)];
            var s := Run(START, ops);
            Apply(s, Mount(hash, again, snapshot, true)).1 == Mounted(path) && Instance(0, 0, path) in s.tornDown
  {
    var a := Apply(START, NewManager("image", [hash])).0;
    assert a.managers == [Manager("image", [hash], map[])];
    var b := Apply(a, Register(0, 0)).0;
    assert b.layers == map[hash := MountPoint(None, Some(0), 0, {})];
    var c := Apply(b, Mount(hash, path, snapshot, true)).0;
    assert {} + {snapshot} == {snapshot};
    assert c.layers == map[hash := MountPoint(Some(Instance(0, 0, path)), Some(0), 0, {snapshot})];
    var d := Apply(c, Unmount(hash, snapshot, true)).0;
    assert {snapshot} - {snapshot} == {};
    assert d.tornDown == [Instance(0, 0, path)];
    var (create, register) := (NewManager("image", [hash]), Register(0, 0));
    var (mount, unmount) := (Mount(hash, path, snapshot, true), Unmount(hash, snapshot, true));
    RunSnoc(START, [], create);
    RunSnoc(START, [create], register);
    RunSnoc(START, [create, register], mount);
    RunSnoc(START, [create, register, mount], unmount);
    assert [] + [create] == [create] && [create] + [register] == [create, register];
    assert [create, register] + [mount] == [create, register, mount];
    assert [create, register, mount] + [unmount] == [create, register, mount, unmount];
    assert Run(START, [create, register, mount, unmount]) == d;
  }

  // --- what becomes of an offer

  /** A manager has offered itself to layer `h`. The layer has a manager: the one it had, with everything
      else, or this one, at the first of its stacks that has this hash; there is no other change. */
  predicate TakenUp(s: State, t: State, h: string, m: nat) {
    && h in t.layers && t.layers[h].manager.Some?
    && if h in s.layers && s.layers[h].manager.Some? then t.layers[h] == s.layers[h]
       else
         && t.layers[h].manager == Some(m) && m < |t.managers|
         && 0 <= t.layers[h].stack < |t.managers[m].hashes| && t.managers[m].hashes[t.layers[h].stack] == h
         && (forall i :: 0 <= i < t.layers[h].stack ==> t.managers[m].hashes[i] != h)
         && t.layers[h].fs == (if h in s.layers then s.layers[h].fs else None)
         && t.layers[h].snapshots == (if h in s.layers then s.layers[h].snapshots else {})
  }

  /** Manager `m` has offered itself to the layers `hashes`, and nothing else has happened to any layer. */
  ghost predicate OnlyOffered(s: State, t: State, hashes: seq<string>, m: nat) {
    && (forall h :: h in hashes ==> TakenUp(s, t, h, m))
    && (forall h :: h !in hashes ==> (h in t.layers <==> h in s.layers))
    && (forall h :: h !in hashes && h in s.layers ==> t.layers[h] == s.layers[h])
  }

  lemma {:induction false} OffersTaken(s: State, m: nat, n: nat)
    requires m < |s.managers| && n <= |s.managers[m].hashes|
    ensures OnlyOffered(s, s.(layers := Offer(s.layers, s.managers[m].hashes, m, n)), s.managers[m].hashes[..n], m)
    decreases n
  {
    var hashes := s.managers[m].hashes;
    if n > 0 {
      OffersTaken(s, m, n - 1);
      var before := s.(layers := Offer(s.layers, hashes, m, n - 1));
      var after := s.(layers := Offer(s.layers, hashes, m, n));
      var h := hashes[n - 1];
      assert hashes[..n] == hashes[..n - 1] + [h];
      if h in hashes[..n - 1] {
        assert TakenUp(s, before, h, m);
        assert after.layers == before.layers;
      } else {
        forall i | 0 <= i < n - 1 ensures hashes[i] != h {
          assert hashes[i] == hashes[..n - 1][i];
        }
        forall g | g in hashes[..n - 1] ensures TakenUp(s, after, g, m) {
          assert TakenUp(s, before, g, m);
        }
      }
    }
  }

  /** Registering stack after stack is offering all of them. */
  lemma {:induction false} RegistersOffer(s: State, m: nat, n: nat)
    requires m < |s.managers| && n <= |s.managers[m].hashes|
    ensures Run(s, Registers(m, n)) == s.(layers := Offer(s.layers, s.managers[m].hashes, m, n))
    decreases n
  {
    if n > 0 {
      RegistersOffer(s, m, n - 1);
      RunSnoc(s, Registers(m, n - 1), Register(m, n - 1));
    }
  }

  /** A layer that was offered to never lacks a manager again: whatever happens later, a mount of it does not
      answer that there is none. */
  lemma OfferedMounts(s: State, t: State, h: string, m: nat, later: seq<Op>, o: Op)
    requires Inv(t) && TakenUp(s, t, h, m) && o.Mount? && o.hash == h
    ensures Apply(Run(t, later), o).1 != NoManager && Apply(Run(t, later), o).1 != NotFound
  {
    RunKeeps(t, later);
    var u := Run(t, later);
    assert h in u.layers && EntryOk(u, h);
  }

  // --- the client object

  class Client {
    var layers: map<string, MountPoint>
    var loaded: map<string, nat>        // managerMap
    var managers: seq<Manager>
    var tornDown: seq<Instance>

    constructor ()
      ensures Contents() == START
    {
      layers, loaded, managers, tornDown := map[], map[], [], [];
    }

    function Contents(): State
      reads this
    {
      State(layers, loaded, managers, tornDown)
    }

    method AddCompletedLayers(hash: string)
      modifies this
      ensures Contents() == Apply(old(Contents()), AddCompleted(hash)).0
    {
      if hash !in layers {
        layers := layers[hash := MountPoint(None, None, -1, {})];
      }
    }

    /** One layer of an image looks for its entry, under the lock. */
    method OfferManager(m: nat, hash: string, stack: nat)
      modifies `layers
      ensures layers == old(layers)[hash := Offered(old(layers), hash, m, stack)]
    {
      if hash in layers {
        var mp := layers[hash];
        if mp.manager.None? {
          layers := layers[hash := mp.(manager := Some(m), stack := stack)];
        }
      } else {
        layers := layers[hash := MountPoint(None, Some(m), stack, {})];
      }
    }

    /** LoadImage: the manager in memory, or a new one from the content store. */
    method LoadImage(image: string, stored: Option<seq<string>>, optimizerOk: bool) returns (m: Option<nat>)
      modifies this
      ensures Contents() == Apply(old(Contents()), Load(image, stored, optimizerOk)).0
      ensures m.Some? <==> image in old(loaded) || (stored.Some? && optimizerOk)
      ensures m.Some? ==> image in loaded && loaded[image] == m.value
      ensures m.Some? && image !in old(loaded) ==>
        && m.value == |old(managers)| && managers == old(managers) + [Manager(image, stored.value, map[])]
        && OnlyOffered(old(Contents()), Contents(), stored.value, m.value)
      ensures m.None? || image in old(loaded) ==> layers == old(layers)
    {
      if image in loaded {
        return Some(loaded[image]);
      }
      if stored.None? {
        return None;
      }
      var id := |managers|;
      managers := managers + [Manager(image, stored.value, map[])];
      loaded := loaded[image := id];
      if !optimizerOk {
        return None;
      }
      var idx := 0;
      while idx < |stored.value|
        modifies `layers
        invariant 0 <= idx <= |stored.value| && layers == Offer(old(layers), stored.value, id, idx)
      {
        OfferManager(id, stored.value[idx], idx);
        idx := idx + 1;
      }
      m := Some(id);
      OffersTaken(old(Contents()).(managers := managers, loaded := loaded), id, idx);
      assert stored.value[..idx] == stored.value;
    }

    /** PrepareDirectories: a stack counts as complete when its layer already has an entry. */
    method PrepareDirectories(hashes: seq<string>) returns (completed: seq<bool>)
      ensures |completed| == |hashes| && forall i :: 0 <= i < |hashes| ==> completed[i] == (hashes[i] in layers)
      ensures forall i, j :: 0 <= i < j < |hashes| && hashes[i] == hashes[j] ==> completed[i] == completed[j]
    {
      completed := [];
      var idx := 0;
      while idx < |hashes|
        invariant 0 <= idx <= |hashes| && |completed| == idx
        invariant forall i :: 0 <= i < idx ==> completed[i] == (hashes[i] in layers)
      {
        completed := completed + [hashes[idx] in layers];
        idx := idx + 1;
      }
    }

    /** CreateSnapshots with nothing else going on; `added` is how many snapshots could be added. The layer
        whose snapshot fails has been offered by then. */
    method CreateSnapshots(m: nat, chains: nat, added: nat) returns (ok: bool)
      requires m < |managers| && chains <= |managers[m].hashes|
      modifies `layers
      ensures ok == (chains <= added)
      ensures Contents() == Run(old(Contents()), Registers(m, if ok then chains else added + 1))
      ensures OnlyOffered(old(Contents()), Contents(), managers[m].hashes[..if ok then chains else added + 1], m)
    {
      var idx := 0;
      while idx < chains
        invariant 0 <= idx <= chains && idx <= added
        invariant Contents() == Run(old(Contents()), Registers(m, idx))
      {
        RunSnoc(old(Contents()), Registers(m, idx), Register(m, idx));
        OfferManager(m, managers[m].hashes[idx], idx);
        if idx == added {
          RegistersOffer(old(Contents()), m, idx + 1);
          OffersTaken(old(Contents()), m, idx + 1);
          return false;
        }
        idx := idx + 1;
      }
      RegistersOffer(old(Contents()), m, chains);
      OffersTaken(old(Contents()), m, chains);
      ok := true;
    }

    /** NewStarlightFS, when mounting succeeds. */
    method NewStarlightFS(m: nat, stack: int, path: string) returns (f: Instance)
      requires m < |managers|
      modifies `managers, `tornDown
      ensures Contents() == NewFS(old(Contents()), m, stack, path) && f == Instance(m, stack, path)
    {
      if stack in managers[m].fs {
        tornDown := tornDown + [managers[m].fs[stack]];
      }
      f := Instance(m, stack, path);
      managers := managers[m := managers[m].(fs := managers[m].fs[stack := f])];
    }

    /** Mount. In the states that occur, the entry it reads is consistent and no file system is torn down. */
    method MountLayer(hash: string, path: string, snapshot: string, mounts: bool) returns (r: Outcome)
      requires Inv(Contents())
      modifies this
      ensures (Contents(), r) == Apply(old(Contents()), Mount(hash, path, snapshot, mounts))
      ensures Inv(Contents()) && tornDown == old(tornDown)
    {
      MountKeeps(Contents(), Mount(hash, path, snapshot, mounts));
      assert hash in layers ==> EntryOk(Contents(), hash);
      hide Inv, Evolves;
      if hash !in layers {
        return NotFound;
      }
      var mp := layers[hash];
      if mp.fs.Some? {
        layers := layers[hash := mp.(snapshots := mp.snapshots + {snapshot})];
        return Mounted(mp.fs.value.mountPoint);
      }
      if mp.manager.None? {
        return NoManager;
      }
      if !mounts {
        return Failed;
      }
      var f := NewStarlightFS(mp.manager.value, mp.stack, path);
      layers := layers[hash := mp.(fs := Some(f), snapshots := mp.snapshots + {snapshot})];
      r := Mounted(path);
    }

    method UnmountLayer(hash: string, snapshot: string, unmounts: bool) returns (r: Outcome)
      modifies this
      ensures (Contents(), r) == Apply(old(Contents()), Unmount(hash, snapshot, unmounts))
    {
      if hash !in layers {
        return Done;
      }
      var mp := layers[hash];
      if snapshot !in mp.snapshots {
        return Done;
      }
      mp := mp.(snapshots := mp.snapshots - {snapshot});
      layers := layers[hash := mp];
      if |mp.snapshots| > 0 {
        return Done;
      }
      if mp.fs.None? {
        return Done;
      }
      if !unmounts {
        return Failed;
      }
      tornDown := tornDown + [mp.fs.value];
      r := Done;
    }
  }

  /** The registrations of the first `n` stacks of a manager. */
  function Registers(m: nat, n: nat): seq<Op> {
    if n == 0 then [] else Registers(m, n - 1) + [Register(m, n - 1)]
  }

  lemma {:induction false} RunSnoc(s: State, ops: seq<Op>, o: Op)
    ensures Run(s, ops + [o]) == Apply(Run(s, ops), o).0
    decreases |ops|
  {
    hide Apply;
    if ops == [] {
      assert ([] + [o])[1..] == [];
    } else {
      assert (ops + [o])[1..] == ops[1..] + [o];
      RunSnoc(Apply(s, ops[0]).0, ops[1..], o);
    }
  }
}
