/** The directory tree built over the entries: names, parents, children and link counts. */
module DirTree {
  import opened Toc
  import opened Paths

  datatype Node = Node(path: Path, kind: Kind, linkName: string)

  /** The heap of directory entries. A node is identified by its position; `m` names nodes, and each
      node has a link count and named children. */
  datatype Dirs = Dirs(m: map<Path, nat>, nodes: seq<Node>, numLink: seq<int>, children: seq<map<string, nat>>)

  predicate Shape(d: Dirs) {
    && |d.numLink| == |d.nodes| == |d.children|
    && (forall p :: p in d.m ==> d.m[p] < |d.nodes|)
  }

  /** The node an entry stands for: a hard link stands for the node its target names. */
  function TargetOf(d: Dirs, id: nat): nat
    requires id < |d.nodes|
  {
    var n := d.nodes[id];
    if n.kind == Hardlink && Clean(n.linkName) in d.m then d.m[Clean(n.linkName)] else id
  }

  /** The node a name reaches. */
  function Target(d: Dirs, p: Path): nat
    requires p in d.m && d.m[p] < |d.nodes|
  {
    TargetOf(d, d.m[p])
  }

  predicate IsHardlink(d: Dirs, p: Path) {
    p in d.m && d.m[p] < |d.nodes| && d.nodes[d.m[p]].kind == Hardlink
  }

  /** Hard links among the names `linked` that reach node `id`. */
  ghost function HardNames(d: Dirs, linked: set<Path>, id: nat): set<Path> {
    set p | p in linked && IsHardlink(d, p) && Target(d, p) == id
  }

  predicate IsSubdirOf(d: Dirs, q: Path, p: Path) {
    q in d.m && d.m[q] < |d.nodes| && q != [] && Parent(q) == p && Target(d, q) < |d.nodes|
      && d.nodes[Target(d, q)].kind == Dir
  }

  /** Names among `linked` directly below `p` that reach a directory. */
  ghost function SubDirs(d: Dirs, linked: set<Path>, p: Path): set<Path> {
    set q | q in linked && IsSubdirOf(d, q, p)
  }

  /** Link counts a node has of itself; nodes below `n0` come from the table, the others are implied. */
  function Own(d: Dirs, n0: nat, linked: set<Path>, p: Path): int
    requires p in d.m && d.m[p] < |d.nodes|
  {
    if d.m[p] < n0 then (if d.nodes[d.m[p]].kind == Dir then 1 else 0) + (if p in linked then 1 else 0) else 2
  }

  ghost predicate CountOk(d: Dirs, n0: nat, linked: set<Path>, p: Path)
    requires p in d.m && d.m[p] < |d.nodes| == |d.numLink|
  {
    d.numLink[d.m[p]] == Own(d, n0, linked, p) + |HardNames(d, linked, d.m[p])| + |SubDirs(d, linked, p)|
  }

  /** Name `p` is a child of its parent. */
  predicate ChildOk(d: Dirs, p: Path) {
    && Shape(d) && p in d.m && p != [] && Parent(p) in d.m
    && BaseName(p) in d.children[d.m[Parent(p)]]
    && d.children[d.m[Parent(p)]][BaseName(p)] == Target(d, p)
    && (IsHardlink(d, p) ==> Clean(d.nodes[d.m[p]].linkName) in d.m)
  }

  /** Names are unambiguous, implied nodes are directories, the names in `linked` and only they are
      children of their parents, and every link count is accounted for. */
  ghost predicate TreeInv(d: Dirs, n0: nat, linked: set<Path>) {
    && Shape(d) && n0 <= |d.nodes|
    && (forall p :: p in d.m ==> d.nodes[d.m[p]].path == p)
    && (forall id :: n0 <= id < |d.nodes| ==>
          d.nodes[id].kind == Dir && d.nodes[id].path in d.m && d.m[d.nodes[id].path] == id)
    && (forall p :: p in linked ==> ChildOk(d, p))
    && (forall p, b :: p in d.m && b in d.children[d.m[p]] ==> p + [b] in linked)
    && (forall p :: p in d.m ==> CountOk(d, n0, linked, p))
  }

  function NewDir(d: Dirs, q: Path): Dirs {
    Dirs(d.m[q := |d.nodes|], d.nodes + [Node(q, Dir, "")], d.numLink + [2], d.children + [map[]])
  }

  /** TOCEntry.AddChild. */
  function AddChild(d: Dirs, parent: nat, base: string, child: nat): Dirs
    requires Shape(d) && parent < |d.nodes| && child < |d.nodes|
  {
    var c: map<string, nat> := d.children[parent][base := child];
    d.(numLink := d.numLink[parent := d.numLink[parent] + if d.nodes[child].kind == Dir then 1 else 0],
       children := d.children[parent := c])
  }

  /** An entry of the table counts its own name, and a hard link its target. */
  function CountEntry(d: Dirs, id: nat): Dirs
    requires Shape(d) && id < |d.nodes|
  {
    var own := d.numLink[id := d.numLink[id] + 1];
    d.(numLink := if d.nodes[id].kind == Hardlink then own[TargetOf(d, id) := own[TargetOf(d, id)] + 1] else own)
  }

  lemma TargetStable(d: Dirs, q: Path, p: Path)
    requires Shape(d) && p in d.m && q !in d.m
    requires IsHardlink(d, p) ==> Clean(d.nodes[d.m[p]].linkName) in d.m
    ensures Shape(NewDir(d, q)) && Target(NewDir(d, q), p) == Target(d, p) < |d.nodes|
    ensures IsHardlink(NewDir(d, q), p) == IsHardlink(d, p)
  {
  }

  lemma NewDirSets(d: Dirs, n0: nat, linked: set<Path>, q: Path, p: Path)
    requires TreeInv(d, n0, linked) && q !in d.m && p in d.m
    ensures HardNames(NewDir(d, q), linked, d.m[p]) == HardNames(d, linked, d.m[p])
    ensures SubDirs(NewDir(d, q), linked, p) == SubDirs(d, linked, p)
  {
    hide CountOk, Clean;
    forall r | r in linked
      ensures ChildOk(d, r) && Target(NewDir(d, q), r) == Target(d, r) < |d.nodes|
        && IsHardlink(NewDir(d, q), r) == IsHardlink(d, r)
    {
      TargetStable(d, q, r);
    }
  }

  lemma NewDirChild(d: Dirs, q: Path, r: Path)
    requires ChildOk(d, r) && q !in d.m
    ensures ChildOk(NewDir(d, q), r)
  {
    hide Clean;
    TargetStable(d, q, r);
  }

  /** A new implied directory that nothing is linked to yet. */
  lemma NewDirKeeps(d: Dirs, n0: nat, linked: set<Path>, q: Path)
    requires TreeInv(d, n0, linked) && q !in d.m
    ensures TreeInv(NewDir(d, q), n0, linked)
  {
    var d' := NewDir(d, q);
    hide Clean, CountOk, Target, IsHardlink, ChildOk, HardNames, SubDirs;
    forall r | r in linked ensures ChildOk(d', r) {
      NewDirChild(d, q, r);
    }
    forall p, b | p in d'.m && b in d'.children[d'.m[p]] ensures p + [b] in linked {
      assert p in d.m;
    }
    forall p | p in d'.m ensures CountOk(d', n0, linked, p) {
      if p == q {
        NewDirEmpty(d, n0, linked, q);
      } else {
        NewDirSets(d, n0, linked, q, p);
        NewDirCounts(d, n0, linked, q, p);
      }
    }
  }

  lemma NewDirCounts(d: Dirs, n0: nat, linked: set<Path>, q: Path, p: Path)
    requires Shape(d) && q !in d.m && p in d.m && CountOk(d, n0, linked, p)
    requires HardNames(NewDir(d, q), linked, d.m[p]) == HardNames(d, linked, d.m[p])
    requires SubDirs(NewDir(d, q), linked, p) == SubDirs(d, linked, p)
    ensures Shape(NewDir(d, q)) && CountOk(NewDir(d, q), n0, linked, p)
  {
    hide HardNames, SubDirs;
  }

  lemma NewDirEmpty(d: Dirs, n0: nat, linked: set<Path>, q: Path)
    requires TreeInv(d, n0, linked) && q !in d.m
    ensures Shape(NewDir(d, q)) && CountOk(NewDir(d, q), n0, linked, q)
  {
    hide CountOk, Clean;
    var d' := NewDir(d, q);
    forall r | r in linked
      ensures ChildOk(d, r) && Target(d', r) == Target(d, r) < |d.nodes|
    {
      TargetStable(d, q, r);
    }
    assert HardNames(d', linked, d'.m[q]) == {};
    assert SubDirs(d', linked, q) == {};
    EmptyCount(d', n0, linked, q);
  }

  lemma EmptyCount(d: Dirs, n0: nat, linked: set<Path>, q: Path)
    requires q in d.m && n0 <= d.m[q] < |d.nodes| == |d.numLink|
    requires HardNames(d, linked, d.m[q]) == {} && SubDirs(d, linked, q) == {} && d.numLink[d.m[q]] == 2
    ensures CountOk(d, n0, linked, q)
  {
  }

  /** The state after name `p` has been made a child of its parent. */
  function LinkName(d: Dirs, n0: nat, p: Path): Dirs
    requires Shape(d) && p in d.m && p != [] && Parent(p) in d.m
  {
    AddChild(if d.m[p] < n0 then CountEntry(d, d.m[p]) else d, d.m[Parent(p)], BaseName(p), Target(d, p))
  }

  lemma HardNamesGrow(d: Dirs, linked: set<Path>, p: Path, id: nat)
    requires Shape(d) && p in d.m && p !in linked
    ensures |HardNames(d, linked + {p}, id)|
         == |HardNames(d, linked, id)| + if IsHardlink(d, p) && Target(d, p) == id then 1 else 0
  {
    hide Target, IsHardlink;
    var h := HardNames(d, linked, id);
    assert HardNames(d, linked + {p}, id) == if IsHardlink(d, p) && Target(d, p) == id then h + {p} else h;
  }

  lemma SubDirsGrow(d: Dirs, linked: set<Path>, p: Path, x: Path)
    requires p !in linked
    ensures |SubDirs(d, linked + {p}, x)| == |SubDirs(d, linked, x)| + if IsSubdirOf(d, p, x) then 1 else 0
  {
    hide IsSubdirOf;
    var s := SubDirs(d, linked, x);
    assert SubDirs(d, linked + {p}, x) == if IsSubdirOf(d, p, x) then s + {p} else s;
  }

  /** The sets depend only on names and node kinds. */
  lemma SetsSame(d: Dirs, d': Dirs, linked: set<Path>, id: nat, x: Path)
    requires d.m == d'.m && d.nodes == d'.nodes
    ensures HardNames(d, linked, id) == HardNames(d', linked, id)
    ensures SubDirs(d, linked, x) == SubDirs(d', linked, x)
  {
    hide Clean;
  }

  lemma ImpliedHasDir(d: Dirs, n0: nat, linked: set<Path>, p: Path)
    requires TreeInv(d, n0, linked) && p in d.m
    ensures d.m[p] >= n0 ==> d.nodes[d.m[p]].kind == Dir
  {
  }

  /** What linking `p` adds to each link count, and to the children of each node. */
  lemma LinkEffect(d: Dirs, n0: nat, p: Path)
    requires Shape(d) && p in d.m && p != [] && Parent(p) in d.m
    requires d.m[p] >= n0 ==> d.nodes[d.m[p]].kind == Dir
    ensures var d' := LinkName(d, n0, p);
            && Shape(d') && d'.m == d.m && d'.nodes == d.nodes
            && Target(d, p) < |d.nodes|
            && (forall id :: 0 <= id < |d.nodes| ==> d'.numLink[id] == d.numLink[id] + Increment(d, n0, p, id))
            && (forall id :: 0 <= id < |d.nodes| ==> d'.children[id] == ChildrenAfter(d, p, id))
  {
    assert Target(d, p) < |d.nodes|;
    hide Target;
  }

  function Increment(d: Dirs, n0: nat, p: Path, id: nat): int
    requires Shape(d) && p in d.m && p != [] && Parent(p) in d.m && id < |d.nodes|
  {
    (if id == d.m[p] && id < n0 then 1 else 0)
    + (if IsHardlink(d, p) && Target(d, p) == id then 1 else 0)
    + (if IsSubdirOf(d, p, Parent(p)) && id == d.m[Parent(p)] then 1 else 0)
  }

  function ChildrenAfter(d: Dirs, p: Path, id: nat): map<string, nat>
    requires Shape(d) && p in d.m && p != [] && Parent(p) in d.m && id < |d.nodes|
  {
    if id == d.m[Parent(p)] then d.children[id][BaseName(p) := Target(d, p)] else d.children[id]
  }

  /** Different names have different nodes. */
  lemma NamesInjective(d: Dirs, n0: nat, linked: set<Path>, p: Path, q: Path)
    requires TreeInv(d, n0, linked) && p in d.m && q in d.m
    ensures d.m[p] == d.m[q] <==> p == q
  {
    assert d.nodes[d.m[p]].path == p && d.nodes[d.m[q]].path == q;
  }

  lemma LinkedCount(d: Dirs, n0: nat, linked: set<Path>, p: Path, x: Path)
    requires Shape(d) && x in d.m && p in d.m && p != [] && p !in linked && Parent(p) in d.m
    requires d.m[p] >= n0 ==> d.nodes[d.m[p]].kind == Dir
    requires (d.m[x] == d.m[p] <==> x == p) && (d.m[x] == d.m[Parent(p)] <==> x == Parent(p))
    requires CountOk(d, n0, linked, x)
    ensures LinkName(d, n0, p).m == d.m && LinkName(d, n0, p).nodes == d.nodes && Shape(LinkName(d, n0, p))
    ensures CountOk(LinkName(d, n0, p), n0, linked + {p}, x)
  {
    var d' := LinkName(d, n0, p);
    LinkEffect(d, n0, p);
    HardNamesGrow(d, linked, p, d.m[x]);
    SubDirsGrow(d, linked, p, x);
    SetsSame(d, d', linked + {p}, d.m[x], x);
    assert IsSubdirOf(d, p, x) <==> x == Parent(p) && IsSubdirOf(d, p, Parent(p)) by {
      hide Target;
    }
    assert Own(d', n0, linked + {p}, x) == Own(d, n0, linked, x) + if x == p && d.m[p] < n0 then 1 else 0;
    hide HardNames, SubDirs, LinkName, Target, IsHardlink, IsSubdirOf, Own;
    assert d'.numLink[d.m[x]] == d.numLink[d.m[x]] + Increment(d, n0, p, d.m[x]);
  }

  lemma SameParent(p: Path, q: Path)
    requires p != [] && q != [] && p != q
    ensures Parent(p) != Parent(q) || BaseName(p) != BaseName(q)
  {
    ParentAndBase(p);
    ParentAndBase(q);
  }

  lemma LinkedChildren(d: Dirs, n0: nat, linked: set<Path>, p: Path, r: Path)
    requires TreeInv(d, n0, linked) && r in linked + {p}
    requires p in d.m && p != [] && p !in linked && Parent(p) in d.m
    requires IsHardlink(d, p) ==> Clean(d.nodes[d.m[p]].linkName) in d.m
    ensures ChildOk(LinkName(d, n0, p), r)
  {
    hide Clean, CountOk;
    ImpliedHasDir(d, n0, linked, p);
    LinkEffect(d, n0, p);
    if r != p {
      assert ChildOk(d, r);
      SameParent(p, r);
      NamesInjective(d, n0, linked, Parent(p), Parent(r));
    }
    hide TreeInv, LinkName;
  }

  lemma LinkedBack(d: Dirs, n0: nat, linked: set<Path>, p: Path, q: Path, b: string)
    requires TreeInv(d, n0, linked)
    requires p in d.m && p != [] && p !in linked && Parent(p) in d.m
    requires q in d.m && Shape(LinkName(d, n0, p)) && b in LinkName(d, n0, p).children[d.m[q]]
    ensures q + [b] in linked + {p}
  {
    ParentAndBase(p);
    ImpliedHasDir(d, n0, linked, p);
    LinkEffect(d, n0, p);
    NamesInjective(d, n0, linked, Parent(p), q);
  }

  /** Linking one name keeps the tree's invariant. */
  lemma LinkKeeps(d: Dirs, n0: nat, linked: set<Path>, p: Path)
    requires TreeInv(d, n0, linked)
    requires p in d.m && p != [] && p !in linked && Parent(p) in d.m
    requires IsHardlink(d, p) ==> Clean(d.nodes[d.m[p]].linkName) in d.m
    ensures TreeInv(LinkName(d, n0, p), n0, linked + {p})
  {
    hide Clean, CountOk, LinkName, ChildOk, Target, IsHardlink;
    var d' := LinkName(d, n0, p);
    ImpliedHasDir(d, n0, linked, p);
    LinkEffect(d, n0, p);
    forall x | x in d'.m ensures CountOk(d', n0, linked + {p}, x) {
      NamesInjective(d, n0, linked, x, p);
      NamesInjective(d, n0, linked, x, Parent(p));
      LinkedCount(d, n0, linked, p, x);
    }
    forall r | r in linked + {p} ensures ChildOk(d', r) {
      LinkedChildren(d, n0, linked, p, r);
    }
    forall q, b | q in d'.m && b in d'.children[d'.m[q]] ensures q + [b] in linked + {p} {
      LinkedBack(d, n0, linked, p, q, b);
    }
  }

  // --- what the finished tree says

  /** Hard links whose target, cleaned, names node `id`. */
  ghost function LinkNames(d: Dirs, id: nat): set<Path>
    requires Shape(d)
  {
    set q | q in d.m && q != [] && d.nodes[d.m[q]].kind == Hardlink && Clean(d.nodes[d.m[q]].linkName) in d.m
            && d.m[Clean(d.nodes[d.m[q]].linkName)] == id
  }

  /** Names one component below `p` of directories, or of hard links to directories. */
  ghost function DirsBelow(d: Dirs, p: Path): set<Path>
    requires Shape(d)
  {
    set q | q in d.m && |q| == |p| + 1 && p <= q
            && (d.nodes[d.m[q]].kind == Dir
                || (d.nodes[d.m[q]].kind == Hardlink && Clean(d.nodes[d.m[q]].linkName) in d.m
                    && d.nodes[d.m[Clean(d.nodes[d.m[q]].linkName)]].kind == Dir))
  }

  /** When every name but the root has been linked, a hard link's name leads from its directory to the node
      of its cleaned target, which exists; and any other name leads to its own node. */
  lemma ChildIs(d: Dirs, n0: nat, p: Path)
    requires TreeInv(d, n0, d.m.Keys - {[]}) && p in d.m && p != []
    ensures p[..|p| - 1] in d.m && p[|p| - 1] in d.children[d.m[p[..|p| - 1]]]
    ensures var (n, child) := (d.nodes[d.m[p]], d.children[d.m[p[..|p| - 1]]][p[|p| - 1]]);
            if n.kind == Hardlink then Clean(n.linkName) in d.m && child == d.m[Clean(n.linkName)] else child == d.m[p]
  {
    hide CountOk, Clean;
    assert ChildOk(d, p);
  }

  /** There are no other children. */
  lemma NoOtherChild(d: Dirs, n0: nat, p: Path, b: string)
    requires TreeInv(d, n0, d.m.Keys - {[]}) && p in d.m && b in d.children[d.m[p]]
    ensures p + [b] in d.m
  {
    hide CountOk, ChildOk;
  }

  lemma NamesCounted(d: Dirs, n0: nat, p: Path)
    requires TreeInv(d, n0, d.m.Keys - {[]}) && p in d.m
    ensures HardNames(d, d.m.Keys - {[]}, d.m[p]) == LinkNames(d, d.m[p])
    ensures SubDirs(d, d.m.Keys - {[]}, p) == DirsBelow(d, p)
  {
    hide CountOk, Clean;
    forall q | q in d.m && q != []
      ensures q in HardNames(d, d.m.Keys - {[]}, d.m[p]) <==> q in LinkNames(d, d.m[p])
      ensures q in SubDirs(d, d.m.Keys - {[]}, p) <==> q in DirsBelow(d, p)
    {
      assert ChildOk(d, q);
      assert Parent(q) == p <==> |q| == |p| + 1 && p <= q;
    }
  }

  /** A directory other than the root counts itself, its name, the directories named below it, and any hard
      link made to it. */
  lemma DirectoryLinkCount(d: Dirs, n0: nat, p: Path)
    requires TreeInv(d, n0, d.m.Keys - {[]}) && p in d.m && p != [] && d.nodes[d.m[p]].kind == Dir
    ensures d.numLink[d.m[p]] == 2 + |DirsBelow(d, p)| + |LinkNames(d, d.m[p])|
  {
    hide ChildOk, HardNames, SubDirs, LinkNames, DirsBelow;
    NamesCounted(d, n0, p);
    assert CountOk(d, n0, d.m.Keys - {[]}, p);
    ImpliedHasDir(d, n0, d.m.Keys - {[]}, p);
  }

  /** Anything else that is no hard link counts its name and the hard links made to it, and one more for each
      directory named below it: so the count is that of its names exactly when there is none. */
  lemma FileLinkCount(d: Dirs, n0: nat, p: Path)
    requires TreeInv(d, n0, d.m.Keys - {[]}) && p in d.m && p != []
    requires d.nodes[d.m[p]].kind != Dir && d.nodes[d.m[p]].kind != Hardlink
    ensures d.numLink[d.m[p]] == 1 + |LinkNames(d, d.m[p])| + |DirsBelow(d, p)|
  {
    hide ChildOk, HardNames, SubDirs, LinkNames, DirsBelow;
    NamesCounted(d, n0, p);
    assert CountOk(d, n0, d.m.Keys - {[]}, p);
    ImpliedHasDir(d, n0, d.m.Keys - {[]}, p);
  }

  lemma ParentNamed(d: Dirs, n0: nat, p: Path)
    requires TreeInv(d, n0, d.m.Keys - {[]}) && p in d.m && p != []
    ensures Parent(p) in d.m
  {
    hide CountOk;
    assert ChildOk(d, p);
  }

  /** The map of names is closed under parents, up to and including the root. */
  lemma {:induction false} Closed(d: Dirs, n0: nat, p: Path, k: nat)
    requires TreeInv(d, n0, d.m.Keys - {[]}) && p in d.m && k <= |p|
    ensures p[..k] in d.m
    decreases |p| - k
  {
    hide TreeInv;
    if k == |p| {
      assert p[..k] == p;
    } else {
      Closed(d, n0, p, k + 1);
      ParentNamed(d, n0, p[..k + 1]);
      assert Parent(p[..k + 1]) == p[..k];
    }
  }
}
