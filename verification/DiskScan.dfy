/** Restart: the scan of the layer directories, which keeps the complete ones and deletes the rest. */
module DiskScan {
  import opened Basics
  import opened Extraction

  /** What a path holds. Paths are relative to the layers directory, which is []. */
  datatype Node = File(data: Bytes) | Dir

  type Disk = map<DiskPath, Node>

  /** `p` lies strictly below `q`. */
  predicate Below(q: DiskPath, p: DiskPath) {
    |q| < |p| && p[..|q|] == q
  }

  /** Everything but the root lies in a directory. */
  ghost predicate Closed(d: Disk) {
    forall p: DiskPath :: p in d && |p| > 1 ==> p[..|p| - 1] in d && d[p[..|p| - 1]] == Dir
  }

  const MARK := "completed.json"

  /** A layer directory that has been marked complete. */
  predicate Complete(d: Disk, p: DiskPath) {
    && |p| == 4 && |p[0]| == 1 && |p[1]| == 2 && |p[2]| == 2
    && p in d && d[p] == Dir && p + [MARK] in d
  }

  /** Some complete layer directory is `q` or lies below it. */
  ghost predicate Alive(d: Disk, q: DiskPath) {
    exists p: DiskPath :: Complete(d, p) && |q| <= |p| && p[..|q|] == q
  }

  /** What a scan of level `k` and the levels below it leaves of `p`: directories above the layers that
      have a complete layer in them; at the layers' level the complete directories, and files, which the
      scan does not look at. */
  ghost predicate Kept(d: Disk, k: nat, p: DiskPath) {
    && (k <= 1 && |p| >= 1 ==> Alive(d, p[..1]))
    && (k <= 2 && |p| >= 2 ==> Alive(d, p[..2]))
    && (k <= 3 && |p| >= 3 ==> Alive(d, p[..3]))
    && (|p| >= 4 && p[..4] in d && d[p[..4]] == Dir ==> Complete(d, p[..4]))
  }

  /** The digest the scan rebuilds from the names on the way to a layer. */
  function Rebuilt(p: DiskPath): string
    requires |p| == 4
  {
    "sha256:" + p[0] + p[1] + p[2] + p[3]
  }

  /** It maps back to the directory it came from. */
  lemma RebuiltMapsBack(d: Disk, p: DiskPath)
    requires Complete(d, p)
    ensures |Rebuilt(p)| >= 12 && DigestPath(Rebuilt(p)) == p
  {
    var r := Rebuilt(p);
    assert r[7..8] == p[0] && r[8..10] == p[1] && r[10..12] == p[2] && r[12..] == p[3];
    assert DigestPath(r) == [p[0], p[1], p[2], p[3]] == p;
  }

  lemma RebuiltDigest(h: string)
    requires Canonical(h)
    ensures Rebuilt(DigestPath(h)) == h
  {
    assert h == h[..7] + h[7..8] + h[8..10] + h[10..12] + h[12..];
  }

  /** The names directly below `p`. */
  function ReadDir(d: Disk, p: DiskPath): set<string> {
    set q | q in d && |q| == |p| + 1 && q[..|p|] == p :: q[|p|]
  }

  lemma ReadDirNames(d: Disk, p: DiskPath, n: string)
    ensures n in ReadDir(d, p) <==> p + [n] in d
  {
    if p + [n] in d {
      assert (p + [n])[..|p|] == p && (p + [n])[|p|] == n;
    }
    if n in ReadDir(d, p) {
      var q :| q in d && |q| == |p| + 1 && q[..|p|] == p && q[|p|] == n;
      assert q == p + [n];
    }
  }

  function Removed(d: Disk, p: DiskPath): Disk {
    map q | q in d && q != p && !Below(p, q) :: d[q]
  }

  /** The scan has dealt with what lies below `p`, except under the names still to do, and with nothing else. */
  ghost predicate Part(start: Disk, before: Disk, after: Disk, p: DiskPath, todo: set<string>) {
    forall q: DiskPath ::
      && (q in after <==> q in before && (Below(p, q) && q[|p|] !in todo ==> Kept(start, |p| + 1, q)))
      && (q in after ==> after[q] == before[q])
  }

  /** At `p` and below nothing has been deleted yet. */
  ghost predicate Untouched(start: Disk, d: Disk, p: DiskPath) {
    forall q: DiskPath :: q == p || Below(p, q) ==> (q in d <==> q in start) && (q in d ==> d[q] == start[q])
  }

  /** The complete layers below `p`, except under the names still to do. */
  ghost function Found(start: Disk, p: DiskPath, todo: set<string>): (r: set<DiskPath>)
    ensures forall q :: q in r ==> |q| == 4
  {
    set q | q in start && Complete(start, q) && Below(p, q) && q[|p|] !in todo
  }

  ghost function Digests(layers: set<DiskPath>): set<string>
    requires forall q :: q in layers ==> |q| == 4
  {
    set q | q in layers :: Rebuilt(q)
  }

  lemma {:induction false} PrefixIn(d: Disk, q: DiskPath, k: nat)
    requires Closed(d) && q in d && 0 < k < |q|
    ensures q[..k] in d && d[q[..k]] == Dir
    decreases |q|
  {
    if k < |q| - 1 {
      PrefixIn(d, q[..|q| - 1], k);
      assert q[..|q| - 1][..k] == q[..k];
    }
  }

  lemma AliveBelow(start: Disk, p: DiskPath)
    requires |p| < 4
    ensures Alive(start, p) <==> Found(start, p, {}) != {}
  {
    if Found(start, p, {}) != {} {
      var q :| q in Found(start, p, {});
      assert Complete(start, q) && q[..|p|] == p;
    }
    if Alive(start, p) {
      var q :| Complete(start, q) && |p| <= |q| && q[..|p|] == p;
      assert q in Found(start, p, {});
    }
  }

  /** An entry that is not a directory with a name of the right length has no layers below it. */
  lemma WrongKind(start: Disk, p: DiskPath, n: string)
    requires Closed(start) && |p| < 3
    requires p + [n] !in start || start[p + [n]] != Dir || |n| != (if |p| == 0 then 1 else 2)
    ensures Found(start, p + [n], {}) == {}
  {
    if q :| q in Found(start, p + [n], {}) {
      PrefixIn(start, q, |p| + 1);
      assert q[|p|] == q[..|p| + 1][|p|] == n;
    }
  }

  /** Finishing one name adds the layers found under it. */
  lemma FoundMore(start: Disk, p: DiskPath, todo: set<string>, n: string)
    requires n in todo && |p| < 4
    ensures |p| < 3 ==> Found(start, p, todo - {n}) == Found(start, p, todo) + Found(start, p + [n], {})
    ensures |p| == 3 ==>
      Found(start, p, todo - {n}) == Found(start, p, todo) + if Complete(start, p + [n]) then {p + [n]} else {}
  {
    forall q | q in start && Complete(start, q)
      ensures |p| < 3 ==>
        (q in Found(start, p, todo - {n}) <==> q in Found(start, p, todo) || q in Found(start, p + [n], {}))
      ensures |p| == 3 ==> (q in Found(start, p, todo - {n}) <==> q in Found(start, p, todo) || q == p + [n])
    {
      if Below(p, q) && q[|p|] == n {
        assert q[..|p| + 1] == p + [n];
      }
      if Below(p + [n], q) || q == p + [n] {
        assert q[..|p|] == (q[..|p| + 1])[..|p|] == p;
        assert q[|p|] == q[..|p| + 1][|p|] == n;
      }
    }
  }

  /** What was at and below `dir` is as a scan of level `k` leaves it. */
  ghost predicate EntryDone(start: Disk, d: Disk, d': Disk, k: nat, dir: DiskPath) {
    && (forall q :: q in d' <==> q in d && (q == dir || Below(dir, q) ==> Kept(start, k, q)))
    && (forall q :: q in d' ==> d'[q] == d[q])
  }

  /** After one name: what was at and below it is as a scan of its level leaves it. */
  lemma NameDone(start: Disk, before: Disk, d: Disk, d': Disk, p: DiskPath, todo: set<string>, n: string)
    requires Part(start, before, d, p, todo) && n in todo
    requires EntryDone(start, d, d', |p| + 1, p + [n])
    ensures Part(start, before, d', p, todo - {n})
  {
    hide Kept;
    forall q: DiskPath ensures (Below(p, q) && q[|p|] == n) <==> (q == p + [n] || Below(p + [n], q)) {
      if Below(p, q) && q[|p|] == n {
        assert q[..|p| + 1] == p + [n];
      }
      if q == p + [n] || Below(p + [n], q) {
        assert q[..|p|] == (q[..|p| + 1])[..|p|] == p;
        assert q[|p|] == q[..|p| + 1][|p|] == n;
      }
    }
  }

  lemma StillUntouched(start: Disk, before: Disk, d: Disk, p: DiskPath, todo: set<string>, n: string)
    requires Untouched(start, before, p) && Part(start, before, d, p, todo) && n in todo
    ensures Untouched(start, d, p + [n])
  {
    hide Kept;
    forall q: DiskPath | q == p + [n] || Below(p + [n], q) ensures Below(p, q) && q[|p|] == n {
      assert q[..|p|] == (q[..|p| + 1])[..|p|] == p;
      assert q[|p|] == q[..|p| + 1][|p|] == n;
    }
  }

  /** One directory above the layers: scan below it, then delete it if nothing complete was found. */
  lemma DirectoryDone(start: Disk, d: Disk, below: Disk, d': Disk, p: DiskPath, n: string, scanned: bool, alive: bool)
    requires Closed(start) && |p| < 3 && Untouched(start, d, p + [n])
    requires if scanned then Part(start, d, below, p + [n], {}) else below == d && !alive
    requires alive == Alive(start, p + [n]) && d' == (if alive then below else Removed(below, p + [n]))
    ensures EntryDone(start, d, d', |p| + 1, p + [n])
  {
    hide Kept, Closed, Untouched, Alive;
    var dir := p + [n];
    forall q | q in d ensures q in d' <==> (q == dir || Below(dir, q) ==> Kept(start, |p| + 1, q)) {
      if q == dir || Below(dir, q) {
        KeptStep(start, dir, q);
      }
    }
  }

  /** Above the layers, what is kept at one level is what the level below keeps of the living directories. */
  lemma KeptStep(start: Disk, dir: DiskPath, q: DiskPath)
    requires 1 <= |dir| <= 3 && (q == dir || Below(dir, q))
    ensures Kept(start, |dir|, q) <==> Alive(start, dir) && Kept(start, |dir| + 1, q)
    ensures Kept(start, |dir| + 1, dir)
  {
    assert q[..|dir|] == dir;
  }

  /** One entry at the layers' level. */
  lemma LayerDone(start: Disk, d: Disk, d': Disk, p: DiskPath, n: string)
    requires |p| == 3 && Untouched(start, d, p + [n]) && p + [n] in d
    requires d' == (if d[p + [n]] == Dir && !Complete(start, p + [n]) then Removed(d, p + [n]) else d)
    ensures EntryDone(start, d, d', |p| + 1, p + [n])
  {
    forall q | q in d && (q == p + [n] || Below(p + [n], q))
      ensures Kept(start, |p| + 1, q) <==> !(start[p + [n]] == Dir && !Complete(start, p + [n]))
    {
      assert q[..4] == p + [n];
    }
  }

  lemma AllNames(start: Disk, before: Disk, p: DiskPath)
    requires Closed(start) && Untouched(start, before, p)
    ensures Part(start, before, before, p, ReadDir(before, p))
  {
    forall q | q in before && Below(p, q) ensures q[|p|] in ReadDir(before, p) {
      NameListed(start, before, p, q);
    }
  }

  lemma NameListed(start: Disk, before: Disk, p: DiskPath, q: DiskPath)
    requires Closed(start) && Untouched(start, before, p) && q in before && Below(p, q)
    ensures q[|p|] in ReadDir(before, p)
  {
    if |q| > |p| + 1 {
      PrefixIn(start, q, |p| + 1);
    }
    assert q[..|p| + 1] == p + [q[|p|]];
    assert Below(p, q[..|p| + 1]) by {
      assert q[..|p| + 1][..|p|] == q[..|p|];
    }
    ReadDirNames(before, p, q[|p|]);
  }

  lemma NoneFound(start: Disk, before: Disk, p: DiskPath)
    requires Closed(start) && Untouched(start, before, p)
    ensures Found(start, p, ReadDir(before, p)) == {}
  {
    AllNames(start, before, p);
    if q :| q in Found(start, p, ReadDir(before, p)) {
      assert q in before && Below(p, q);
      NameListed(start, before, p, q);
    }
  }

  lemma Listed(start: Disk, before: Disk, d: Disk, p: DiskPath, todo: set<string>, n: string)
    requires Part(start, before, d, p, todo) && n in todo && todo <= ReadDir(before, p)
    ensures p + [n] in d
  {
    hide Kept;
    ReadDirNames(before, p, n);
    assert (p + [n])[|p|] == n;
  }

  lemma AtLayer(start: Disk, d: Disk, dir: DiskPath)
    requires |dir| == 4 && |dir[0]| == 1 && |dir[1]| == |dir[2]| == 2 && Untouched(start, d, dir) && dir in d
    ensures Complete(start, dir) <==> d[dir] == Dir && dir + [MARK] in d
  {
    assert (dir + [MARK])[..4] == dir;
  }

  /** Where the loop over `p` stands: what it has deleted, whether it has found a layer, what it has registered. */
  ghost predicate Loop(start: Disk, before: Disk, known: set<string>, d: Disk, layers: set<string>, p: DiskPath,
                       todo: set<string>, found: bool)
  {
    && todo <= ReadDir(before, p) && Part(start, before, d, p, todo)
    && found == (Found(start, p, todo) != {})
    && layers == known + Digests(Found(start, p, todo))
  }

  lemma LoopStart(start: Disk, before: Disk, known: set<string>, p: DiskPath)
    requires Closed(start) && Untouched(start, before, p)
    ensures Loop(start, before, known, before, known, p, ReadDir(before, p), false)
  {
    AllNames(start, before, p);
    NoneFound(start, before, p);
    DigestsNone();
  }

  /** The entry called `n` is still there. */
  lemma LoopEntry(start: Disk, before: Disk, known: set<string>, d: Disk, layers: set<string>, p: DiskPath,
                  todo: set<string>, found: bool, n: string)
    requires Untouched(start, before, p) && Loop(start, before, known, d, layers, p, todo, found) && n in todo
    ensures Untouched(start, d, p + [n]) && p + [n] in d
  {
    StillUntouched(start, before, d, p, todo, n);
    Listed(start, before, d, p, todo, n);
  }

  lemma LoopStep(start: Disk, before: Disk, known: set<string>, d: Disk, layers: set<string>, p: DiskPath,
                 todo: set<string>, found: bool,
                 n: string, d': Disk, more: set<DiskPath>)
    requires Loop(start, before, known, d, layers, p, todo, found) && n in todo && |p| < 4
      && EntryDone(start, d, d', |p| + 1, p + [n])
    requires more == if |p| < 3 then Found(start, p + [n], {}) else if Complete(start, p + [n]) then {p + [n]} else {}
    ensures forall q :: q in more ==> |q| == 4
    ensures Loop(start, before, known, d', layers + Digests(more), p, todo - {n}, found || more != {})
  {
    hide Found, Complete, Digests, Kept;
    assert forall q :: q in more ==> |q| == 4;
    NameDone(start, before, d, d', p, todo, n);
    FoundMore(start, p, todo, n);
    DigestsMore(Found(start, p, todo), more);
  }

  lemma LoopEnd(start: Disk, before: Disk, known: set<string>, d: Disk, layers: set<string>, p: DiskPath, found: bool)
    requires Loop(start, before, known, d, layers, p, {}, found) && |p| < 4
    ensures Part(start, before, d, p, {}) && found == Alive(start, p) && layers == known + Digests(Found(start, p, {}))
  {
    AliveBelow(start, p);
  }

  /** What a whole scan does. */
  ghost predicate ScanResult(before: Disk, known: set<string>, after: Disk, layers: set<string>) {
    && (forall q :: q in after <==> q in before && (q != [] ==> Kept(before, 1, q)))
    && (forall q :: q in after ==> after[q] == before[q])
    && (forall h :: h in layers <==> h in known || exists q: DiskPath :: Complete(before, q) && Rebuilt(q) == h)
  }

  /** A complete layer directory survives with everything in it and every directory above it. */
  lemma CompleteSurvives(before: Disk, known: set<string>, after: Disk, layers: set<string>, p: DiskPath)
    requires Closed(before) && ScanResult(before, known, after, layers) && Complete(before, p)
    ensures forall k :: 0 < k <= 4 ==> p[..k] in after && after[p[..k]] == Dir
    ensures forall q: DiskPath :: Below(p, q) ==> (q in after <==> q in before)
    ensures Complete(after, p) && Rebuilt(p) in layers && DigestPath(Rebuilt(p)) == p
  {
    RebuiltMapsBack(before, p);
    hide Kept, Rebuilt, DigestPath, Closed, Complete, ScanResult, Below;
    AboveSurvives(before, known, after, layers, p);
    InsideSurvives(before, known, after, layers, p);
  }

  lemma AboveSurvives(before: Disk, known: set<string>, after: Disk, layers: set<string>, p: DiskPath)
    requires Closed(before) && ScanResult(before, known, after, layers) && Complete(before, p)
    ensures forall k :: 0 < k <= 4 ==> p[..k] in after && after[p[..k]] == Dir
    ensures Complete(after, p) && Rebuilt(p) in layers
  {
    hide Kept, Rebuilt;
    forall k | 0 < k <= 4 ensures p[..k] in after && after[p[..k]] == Dir {
      AboveLayer(before, p, k);
    }
    assert p[..4] == p && (p + [MARK])[..4] == p;
    InLayer(before, p, p + [MARK]);
  }

  lemma InsideSurvives(before: Disk, known: set<string>, after: Disk, layers: set<string>, p: DiskPath)
    requires ScanResult(before, known, after, layers) && Complete(before, p)
    ensures forall q: DiskPath :: Below(p, q) ==> (q in after <==> q in before)
  {
    hide Kept, Rebuilt;
    forall q: DiskPath | Below(p, q) ensures q in after <==> q in before {
      InLayer(before, p, q);
    }
  }

  lemma AboveLayer(before: Disk, p: DiskPath, k: nat)
    requires Closed(before) && Complete(before, p) && 0 < k <= 4
    ensures p[..k] in before && before[p[..k]] == Dir && Kept(before, 1, p[..k])
  {
    if k < 4 {
      PrefixIn(before, p, k);
    }
    assert p[..4] == p;
    forall j | 0 < j <= k ensures Alive(before, p[..j]) && p[..k][..j] == p[..j] {
      assert Complete(before, p) && p[..|p[..j]|] == p[..j];
    }
  }

  lemma InLayer(before: Disk, p: DiskPath, q: DiskPath)
    requires Complete(before, p) && Below(p, q)
    ensures Kept(before, 1, q)
  {
    forall j | 0 < j <= 4 ensures Alive(before, q[..j]) {
      assert q[..j] == q[..4][..j] == p[..j];
      assert Complete(before, p) && p[..|q[..j]|] == q[..j];
    }
  }

  /** No other layer directory is left, nor anything below one; and a digest in the usual form is
      registered exactly when its directory is complete. */
  lemma OnlyCompleteSurvives(before: Disk, after: Disk, layers: set<string>, h: string)
    requires Closed(before) && ScanResult(before, {}, after, layers) && Canonical(h)
    ensures h in layers <==> Complete(before, DigestPath(h))
    ensures h !in layers && (DigestPath(h) in before ==> before[DigestPath(h)] == Dir) ==>
      forall q: DiskPath :: q == DigestPath(h) || Below(DigestPath(h), q) ==> q !in after
  {
    RebuiltDigest(h);
    var p := DigestPath(h);
    if h in layers {
      var q: DiskPath :| Complete(before, q) && Rebuilt(q) == h;
      RebuiltMapsBack(before, q);
    } else if p in before ==> before[p] == Dir {
      forall q: DiskPath | q == p || Below(p, q) ensures q !in after {
        if q in before {
          assert q[..4] == p;
          if q != p {
            PrefixIn(before, q, 4);
          }
          assert !Kept(before, 1, q);
        }
      }
    }
  }

  /** Of what lies above or beside the layer directories, only what leads to a complete one is left: the first
      three components of whatever survives are those of a complete layer. */
  lemma OnlyAliveSurvives(before: Disk, known: set<string>, after: Disk, layers: set<string>, q: DiskPath, k: nat)
    requires ScanResult(before, known, after, layers) && q in after && 0 < k <= |q| && k <= 3
    ensures exists p: DiskPath :: Complete(before, p) && k <= |p| && p[..k] == q[..k]
  {
    hide Complete, Below, Rebuilt;
    assert Kept(before, 1, q);
    assert Alive(before, q[..k]);
    hide Kept, ScanResult;
    var p: DiskPath :| Complete(before, p) && |q[..k]| <= |p| && p[..|q[..k]|] == q[..k];
    assert |q[..k]| == k;
  }

  class Client {
    var disk: Disk
    var layers: set<string>      // the keys of layerMap

    constructor (disk: Disk)
      ensures this.disk == disk && layers == {}
    {
      this.disk, this.layers := disk, {};
    }

    method RemoveAll(p: DiskPath)
      modifies `disk
      ensures disk == Removed(old(disk), p)
    {
      disk := map q | q in disk && q != p && !Below(p, q) :: disk[q];
    }

    method AddCompletedLayers(h: string)
      modifies `layers
      ensures layers == old(layers) + {h}
    {
      layers := layers + {h};
    }

    /** One entry at the layers' level. */
    method ScanLayer(ghost start: Disk, dir: DiskPath) returns (complete: bool)
      requires |dir| == 4 && |dir[0]| == 1 && |dir[1]| == |dir[2]| == 2 && Untouched(start, disk, dir) && dir in disk
      modifies this
      ensures complete == Complete(start, dir)
      ensures disk == if old(disk)[dir] == Dir && !complete then Removed(old(disk), dir) else old(disk)
      ensures layers == old(layers) + if complete then {Rebuilt(dir)} else {}
    {
      AtLayer(start, disk, dir);
      hide Untouched, Complete;
      complete := false;
      if disk[dir] == Dir {
        if dir + [MARK] !in disk {
          RemoveAll(dir);
        } else {
          complete := true;
          AddCompletedLayers("sha256:" + dir[0] + dir[1] + dir[2] + dir[3]);
        }
      }
    }

    /** The loop over one directory whose entries are layers; `found` is the flag x3. */
    method ScanLayers(ghost start: Disk, p: DiskPath) returns (found: bool)
      requires Closed(start) && Untouched(start, disk, p) && |p| == 3 && |p[0]| == 1 && |p[1]| == |p[2]| == 2
      modifies this
      ensures Part(start, old(disk), disk, p, {})
      ensures found == Alive(start, p)
      ensures layers == old(layers) + Digests(Found(start, p, {}))
    {
      hide Part, Untouched, Closed, Found, ReadDir, Below, Complete, Digests, Alive, Removed, Kept, Loop, EntryDone;
      found := false;
      var todo := ReadDir(disk, p);
      LoopStart(start, disk, layers, p);
      while todo != {}
        invariant Loop(start, old(disk), old(layers), disk, layers, p, todo, found)
        decreases |todo|
      {
        var n :| n in todo;
        LoopEntry(start, old(disk), old(layers), disk, layers, p, todo, found, n);
        ghost var before, known := disk, layers;
        var complete := ScanLayer(start, p + [n]);
        LayerDone(start, before, disk, p, n);
        var marked := if complete then {p + [n]} else {};
        LoopStep(start, old(disk), old(layers), before, known, p, todo, found, n, disk, marked);
        DigestsOne(p + [n]);
        found := found || complete;
        todo := todo - {n};
      }
      LoopEnd(start, old(disk), old(layers), disk, layers, p, found);
    }

    /** The loop over one directory above those. It has the same shape at each of the three levels; `found`
        is the flag x1 or x2 of the entry the directory is. */
    method ScanDirectory(ghost start: Disk, p: DiskPath) returns (found: bool)
      requires Closed(start) && Untouched(start, disk, p) && |p| <= 3
      requires (|p| > 0 ==> |p[0]| == 1) && (forall k :: 1 <= k < |p| ==> |p[k]| == 2)
      modifies this
      ensures Part(start, old(disk), disk, p, {})
      ensures found == Alive(start, p)
      ensures layers == old(layers) + Digests(Found(start, p, {}))
      decreases 3 - |p|
    {
      hide Part, Untouched, Closed, Found, ReadDir, Below, Complete, Digests, Alive, Removed, Kept, Loop, EntryDone;
      if |p| == 3 {
        found := ScanLayers(start, p);
        return;
      }
      found := false;
      var todo := ReadDir(disk, p);
      LoopStart(start, disk, layers, p);
      while todo != {}
        invariant Loop(start, old(disk), old(layers), disk, layers, p, todo, found)
        decreases |todo|
      {
        var n :| n in todo;
        LoopEntry(start, old(disk), old(layers), disk, layers, p, todo, found, n);
        ghost var before, known := disk, layers;
        var sub := ScanEntry(start, p, n);
        AliveBelow(start, p + [n]);
        LoopStep(start, old(disk), old(layers), before, known, p, todo, found, n, disk, Found(start, p + [n], {}));
        found := found || sub;
        todo := todo - {n};
      }
      LoopEnd(start, old(disk), old(layers), disk, layers, p, found);
    }

    /** One turn of that loop: a directory with a name of the right length is scanned, and the entry is
        deleted unless that found a complete layer. */
    method ScanEntry(ghost start: Disk, p: DiskPath, n: string) returns (found: bool)
      requires Closed(start) && |p| < 3 && Untouched(start, disk, p + [n]) && p + [n] in disk
      requires (|p| > 0 ==> |p[0]| == 1) && (forall k :: 1 <= k < |p| ==> |p[k]| == 2)
      modifies this
      ensures EntryDone(start, old(disk), disk, |p| + 1, p + [n])
      ensures found == Alive(start, p + [n])
      ensures layers == old(layers) + Digests(Found(start, p + [n], {}))
      decreases 3 - |p|, 0
    {
      var dir := p + [n];
      assert disk[dir] == start[dir] && dir in start;
      hide Part, Untouched, Closed, Found, ReadDir, Below, Complete, Digests, Alive, Removed, Kept, EntryDone;
      found := false;
      ghost var scanned := disk[dir] == Dir && |n| == if |p| == 0 then 1 else 2;
      if disk[dir] == Dir && |n| == if |p| == 0 then 1 else 2 {
        found := ScanDirectory(start, dir);
      } else {
        WrongKind(start, p, n);
        AliveBelow(start, dir);
        DigestsNone();
      }
      ghost var below := disk;
      if !found {
        RemoveAll(dir);
      }
      DirectoryDone(start, old(disk), below, disk, p, n, scanned, found);
    }

    /** The whole scan, from the layers directory down. */
    method ScanExistingFilesystems()
      requires Closed(disk)
      modifies this
      ensures ScanResult(old(disk), old(layers), disk, layers)
    {
      ghost var start := disk;
      RootUntouched(start);
      var found := ScanDirectory(start, []);
      FoundAll(start);
      WholeTree(start, disk);
      hide Kept, Complete, Part, Digests, Found;
    }
  }

  lemma WholeTree(start: Disk, after: Disk)
    requires Part(start, start, after, [], {})
    ensures forall q :: q in after <==> q in start && (q != [] ==> Kept(start, 1, q))
  {
    hide Kept;
    forall q: DiskPath ensures Below([], q) <==> q != [] {
    }
  }

  lemma RootUntouched(d: Disk)
    ensures Untouched(d, d, [])
  {
  }

  lemma FoundAll(d: Disk)
    ensures forall h :: h in Digests(Found(d, [], {})) <==> exists q: DiskPath :: Complete(d, q) && Rebuilt(q) == h
  {
    forall q: DiskPath | Complete(d, q) ensures q in Found(d, [], {}) {
    }
  }

  lemma DigestsNone()
    ensures Digests({}) == {}
  {
  }

  lemma DigestsMore(a: set<DiskPath>, b: set<DiskPath>)
    requires forall q :: q in a + b ==> |q| == 4
    ensures Digests(a + b) == Digests(a) + Digests(b)
  {
  }

  lemma DigestsOne(q: DiskPath)
    requires |q| == 4
    ensures Digests({q}) == {Rebuilt(q)} && Digests({}) == {}
  {
  }
}
