/** What the entries of the layer map hold after any history, told from the operations and their answers. */
module LayerHistory {
  import opened LayerMap

  /** An unmount takes exactly its snapshot from exactly its layer, and leaves everything else of every entry;
      it tears the layer's file system down if and only if that was the last snapshot and unmounting works. */
  lemma UnmountTakesAway(s: State, hash: string, snapshot: string, unmounts: bool)
    ensures var t := Apply(s, Unmount(hash, snapshot, unmounts)).0;
            && t.managers == s.managers && t.loaded == s.loaded && t.layers.Keys == s.layers.Keys
            && (forall h :: h in s.layers && h != hash ==> t.layers[h] == s.layers[h])
            && (hash in s.layers ==>
                  t.layers[hash] == s.layers[hash].(snapshots := s.layers[hash].snapshots - {snapshot}))
            && t.tornDown == s.tornDown +
                 if hash in s.layers && s.layers[hash].snapshots == {snapshot} && s.layers[hash].fs.Some? && unmounts
                 then [s.layers[hash].fs.value] else []
  {
    if hash in s.layers && snapshot !in s.layers[hash].snapshots {
      assert s.layers[hash].snapshots - {snapshot} == s.layers[hash].snapshots;
    } else if hash in s.layers && s.layers[hash].snapshots - {snapshot} == {} {
      assert s.layers[hash].snapshots == {snapshot};
    }
  }

  /** In the states that occur nothing else is ever torn down. */
  lemma OnlyUnmountTearsDown(s: State, o: Op)
    requires Inv(s) && !o.Unmount?
    ensures Apply(s, o).0.tornDown == s.tornDown
  {
    if o.Mount? {
      MountKeeps(s, o);
    }
  }

  /** A mount answers with the file system there is, or makes the one the manager has for the stack; the
      snapshot is added to those the layer has, and no other layer is touched. */
  lemma MountAdds(s: State, hash: string, path: string, snapshot: string, mounts: bool)
    requires Inv(s)
    ensures var (t, r) := Apply(s, Mount(hash, path, snapshot, mounts));
            && (r.NotFound? <==> hash !in s.layers)
            && (r.NoManager? <==> hash in s.layers && s.layers[hash].fs.None? && s.layers[hash].manager.None?)
            && (r.Mounted? <==>
                  hash in s.layers && (s.layers[hash].fs.Some? || (s.layers[hash].manager.Some? && mounts)))
            && (!r.Mounted? ==> t == s)
            && (r.Mounted? ==>
                  && t.layers.Keys == s.layers.Keys && t.loaded == s.loaded
                  && (forall h :: h in s.layers && h != hash ==> t.layers[h] == s.layers[h])
                  && t.layers[hash].snapshots == s.layers[hash].snapshots + {snapshot}
                  && t.layers[hash].fs.Some? && r.path == t.layers[hash].fs.value.mountPoint
                  && (s.layers[hash].fs.None? ==> r.path == path))
  {
    if hash in s.layers {
      assert EntryOk(s, hash);
    }
  }

  // --- whole histories

  /** What operation `k` was answered. */
  function Answer(ops: seq<Op>, k: nat): Outcome
    requires k < |ops|
  {
    Apply(Run(START, ops[..k]), ops[k]).1
  }

  /** Operation `k` mounted snapshot `x` of layer `h`, and it has not been unmounted since. */
  predicate StillMounted(ops: seq<Op>, k: nat, h: string, x: string)
    requires k < |ops|
  {
    && ops[k].Mount? && ops[k].hash == h && ops[k].snapshot == x && Answer(ops, k).Mounted?
    && forall j :: k < j < |ops| ==> !(ops[j].Unmount? && ops[j].hash == h && ops[j].snapshot == x)
  }

  lemma Earlier(ops: seq<Op>, o: Op, k: nat)
    requires k < |ops|
    ensures Answer(ops + [o], k) == Answer(ops, k) && (ops + [o])[k] == ops[k]
  {
    assert (ops + [o])[..k] == ops[..k];
  }

  lemma Latest(ops: seq<Op>, o: Op)
    ensures Answer(ops + [o], |ops|) == Apply(Run(START, ops), o).1
    ensures Run(START, ops + [o]) == Apply(Run(START, ops), o).0
  {
    assert (ops + [o])[..|ops|] == ops;
    RunSnoc(START, ops, o);
  }

  lemma HistoryInv(ops: seq<Op>)
    ensures Inv(Run(START, ops))
  {
    RunKeeps(START, ops);
  }

  predicate Registered(s: State, h: string, x: string) {
    h in s.layers && x in s.layers[h].snapshots
  }

  /** One more operation: what it registers and what it removes. */
  lemma RegisteredStep(s: State, o: Op, h: string, x: string)
    requires Inv(s)
    ensures var (t, r) := Apply(s, o);
            Registered(t, h, x) <==>
              (o.Mount? && o.hash == h && o.snapshot == x && r.Mounted?)
              || (Registered(s, h, x) && !(o.Unmount? && o.hash == h && o.snapshot == x))
  {
    match o {
      case Mount(hash, path, snapshot, mounts) =>
        MountAdds(s, hash, path, snapshot, mounts);
        hide Apply, Inv;
      case Unmount(hash, snapshot, unmounts) =>
        UnmountTakesAway(s, hash, snapshot, unmounts);
        hide Apply, Inv;
      case Load(image, stored, ok) =>
        if image !in s.loaded && stored.Some? && ok {
          OfferKeepsSnapshots(s.layers, stored.value, |s.managers|, |stored.value|, h);
        }
      case _ =>
    }
  }

  lemma {:induction false} OfferKeepsSnapshots(layers: map<string, MountPoint>, hashes: seq<string>, m: nat, n: nat,
                                               h: string)
    requires n <= |hashes|
    ensures var after := Offer(layers, hashes, m, n);
            (if h in after then after[h].snapshots else {}) == (if h in layers then layers[h].snapshots else {})
    decreases n
  {
    if n > 0 {
      OfferKeepsSnapshots(layers, hashes, m, n - 1, h);
    }
  }

  /** After any history a snapshot is registered for a layer if and only if some mount of it was answered and
      no unmount of it came later. */
  lemma {:induction false} SnapshotsAre(ops: seq<Op>, h: string, x: string)
    ensures Registered(Run(START, ops), h, x) <==> exists k :: 0 <= k < |ops| && StillMounted(ops, k, h, x)
    decreases |ops|
  {
    if ops != [] {
      var (before, o) := (ops[..|ops| - 1], ops[|ops| - 1]);
      assert ops == before + [o];
      SnapshotsAre(before, h, x);
      HistoryInv(before);
      RegisteredStep(Run(START, before), o, h, x);
      Latest(before, o);
      forall k: nat | k < |before|
        ensures StillMounted(ops, k, h, x) <==>
          StillMounted(before, k, h, x) && !(o.Unmount? && o.hash == h && o.snapshot == x)
      {
        Earlier(before, o, k);
        StillSnoc(before, o, k, h, x);
      }
      hide Run, Apply, StillMounted;
      LastMount(before, o, h, x);
    }
  }

  lemma StillSnoc(ops: seq<Op>, o: Op, k: nat, h: string, x: string)
    requires k < |ops|
    ensures StillMounted(ops + [o], k, h, x) <==>
      StillMounted(ops, k, h, x) && !(o.Unmount? && o.hash == h && o.snapshot == x)
  {
    Earlier(ops, o, k);
    hide Answer;
    var more := ops + [o];
    assert more[|ops|] == o && forall j :: 0 <= j < |ops| ==> more[j] == ops[j];
  }

  lemma LastMount(ops: seq<Op>, o: Op, h: string, x: string)
    ensures StillMounted(ops + [o], |ops|, h, x) <==>
      o.Mount? && o.hash == h && o.snapshot == x && Apply(Run(START, ops), o).1.Mounted?
  {
    Latest(ops, o);
    hide Answer;
  }

  // --- managers and file systems

  /** Only offers give a layer a manager, and only offers and the scan of the disk make an entry, which at
      first has nothing else. */
  lemma OthersLeaveManagers(s: State, o: Op, h: string)
    requires Inv(s) && !o.Load? && !o.Register?
    ensures var t := Apply(s, o).0;
            && (h in t.layers <==> h in s.layers || o == AddCompleted(h))
            && (h in s.layers ==> t.layers[h].manager == s.layers[h].manager && t.layers[h].stack == s.layers[h].stack)
            && (h in t.layers && h !in s.layers ==>
                  t.layers[h].manager.None? && t.layers[h].fs.None? && t.layers[h].snapshots == {})
  {
  }

  /** A new manager is in memory from then on, under its image, even when the optimizer could not be started. */
  lemma ManagerIsLoaded(s: State, o: Op)
    requires Inv(s) && (o.NewManager? || (o.Load? && o.image !in s.loaded && o.stored.Some?))
    ensures var t := Apply(s, o).0;
            && t.loaded == s.loaded[o.image := |s.managers|] && |t.managers| == |s.managers| + 1
            && t.managers[|s.managers|] == Manager(o.image, if o.NewManager? then o.hashes else o.stored.value, map[])
            && t.managers[..|s.managers|] == s.managers
  {
  }

  /** Operation `k` is the first that mounted layer `h`. */
  predicate FirstMounted(ops: seq<Op>, k: nat, h: string)
    requires k < |ops|
  {
    && ops[k].Mount? && ops[k].hash == h && Answer(ops, k).Mounted?
    && forall j :: 0 <= j < k ==> !(ops[j].Mount? && ops[j].hash == h && Answer(ops, j).Mounted?)
  }

  lemma FirstSnoc(ops: seq<Op>, o: Op, k: nat, h: string)
    requires k < |ops|
    ensures FirstMounted(ops + [o], k, h) <==> FirstMounted(ops, k, h)
  {
    forall j: nat | j < |ops| ensures Answer(ops + [o], j) == Answer(ops, j) && (ops + [o])[j] == ops[j] {
      Earlier(ops, o, j);
    }
    hide Answer;
  }

  predicate HasFileSystem(s: State, h: string) {
    h in s.layers && s.layers[h].fs.Some?
  }

  /** One more operation: whether there is a file system, and where it is mounted. */
  lemma FileSystemStep(s: State, o: Op, h: string)
    requires Inv(s)
    ensures var (t, r) := Apply(s, o);
            && (HasFileSystem(t, h) <==> HasFileSystem(s, h) || (o.Mount? && o.hash == h && r.Mounted?))
            && (HasFileSystem(s, h) ==> t.layers[h].fs == s.layers[h].fs)
            && (HasFileSystem(t, h) && !HasFileSystem(s, h) ==> t.layers[h].fs.value.mountPoint == o.path)
  {
    match o {
      case Load(image, stored, ok) =>
        if image !in s.loaded && stored.Some? && ok {
          OfferKeepsFileSystems(s.layers, stored.value, |s.managers|, |stored.value|, h);
        }
      case Mount(hash, path, snapshot, mounts) =>
        MountAdds(s, hash, path, snapshot, mounts);
      case _ =>
    }
  }

  lemma {:induction false} OfferKeepsFileSystems(layers: map<string, MountPoint>, hashes: seq<string>, m: nat, n: nat,
                                                 h: string)
    requires n <= |hashes|
    ensures var after := Offer(layers, hashes, m, n);
            && (h in layers ==> h in after && after[h].fs == layers[h].fs)
            && (h !in layers && h in after ==> after[h].fs.None?)
    decreases n
  {
    if n > 0 {
      OfferKeepsFileSystems(layers, hashes, m, n - 1, h);
    }
  }

  /** After any history a layer has a file system if and only if some mount of it was answered, and it is the
      one of the first of them. */
  lemma {:induction false} FileSystemIs(ops: seq<Op>, h: string)
    ensures HasFileSystem(Run(START, ops), h) <==> exists k :: 0 <= k < |ops| && FirstMounted(ops, k, h)
    ensures forall k: nat :: k < |ops| && FirstMounted(ops, k, h) ==>
      HasFileSystem(Run(START, ops), h) && Run(START, ops).layers[h].fs.value.mountPoint == ops[k].path
    decreases |ops|
  {
    if ops != [] {
      var n := |ops| - 1;
      var (before, o) := (ops[..n], ops[n]);
      assert ops == before + [o];
      FileSystemIs(before, h);
      HistoryInv(before);
      FileSystemStep(Run(START, before), o, h);
      Latest(before, o);
      forall k: nat | k < n ensures FirstMounted(ops, k, h) <==> FirstMounted(before, k, h) && ops[k] == before[k] {
        FirstSnoc(before, o, k, h);
      }
      FirstIsLast(before, o, h);
      hide Run, Apply, FirstMounted, Answer, HasFileSystem;
    }
  }

  lemma FirstIsLast(ops: seq<Op>, o: Op, h: string)
    ensures FirstMounted(ops + [o], |ops|, h) <==>
      && o.Mount? && o.hash == h && Apply(Run(START, ops), o).1.Mounted?
      && !exists k :: 0 <= k < |ops| && FirstMounted(ops, k, h)
  {
    Latest(ops, o);
    forall j: nat | j < |ops| ensures Answer(ops + [o], j) == Answer(ops, j) && (ops + [o])[j] == ops[j] {
      Earlier(ops, o, j);
    }
    hide Answer;
    if j :| 0 <= j < |ops| && ops[j].Mount? && ops[j].hash == h && Answer(ops, j).Mounted? {
      var k := LeastMount(ops, j, h);
    }
  }

  lemma {:induction false} LeastMount(ops: seq<Op>, j: nat, h: string) returns (k: nat)
    requires j < |ops| && ops[j].Mount? && ops[j].hash == h && Answer(ops, j).Mounted?
    ensures k <= j && FirstMounted(ops, k, h)
    decreases j
  {
    hide Answer;
    if i :| 0 <= i < j && ops[i].Mount? && ops[i].hash == h && Answer(ops, i).Mounted? {
      k := LeastMount(ops, i, h);
    } else {
      k := j;
    }
  }
}
