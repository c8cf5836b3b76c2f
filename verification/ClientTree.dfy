/** The file system tree the client builds for one layer, from a map visited in any order. */
module ClientTree {
  import opened Paths
  import DirTree

  const OPAQUE := ".wh..wh..opq"

  /** A marker that hides everything the layers below have in its directory. */
  predicate IsMarker(p: Path) {
    p != [] && BaseName(p) == OPAQUE
  }

  /** Every name but the root has its directory among the names. */
  predicate ParentClosed(all: set<Path>) {
    forall p :: p in all && p != [] ==> Parent(p) in all
  }

  /** Nothing lies in a marker, which is a plain file. */
  predicate MarkersAreLeaves(all: set<Path>) {
    forall p :: p in all && p != [] ==> !IsMarker(Parent(p))
  }

  /** What belongs in the children of `dir`. */
  predicate IsChild(all: set<Path>, dir: Path, p: Path) {
    p in all && p != [] && Parent(p) == dir && dir in all && !IsMarker(p)
  }

  predicate NoRepeats(list: seq<Path>) {
    forall i, j :: 0 <= i < j < |list| ==> list[i] != list[j]
  }

  /** The tree over `all`, once the names in `todo` are disregarded: each entry is appended once, to its
      directory; each marker is gone from the map and has become an attribute of its directory. */
  ghost predicate TreeOf(all: set<Path>, todo: set<Path>, names: set<Path>, children: map<Path, seq<Path>>,
                         opaqueDirs: set<Path>)
  {
    && (forall p :: p in names <==> p in all && (p in todo || !IsMarker(p) || Parent(p) !in all))
    && (forall d, p :: d in children ==> (p in children[d] <==> IsChild(all, d, p) && p !in todo))
    && (forall d, p :: IsChild(all, d, p) && p !in todo ==> d in children)
    && (forall d :: d in children ==> NoRepeats(children[d]))
    && (forall d :: d in opaqueDirs <==> d in all && d + [".wh..wh..opq"] in all && d + [".wh..wh..opq"] !in todo)
  }

  /** One layer's part of Init. `names` are the keys of the lookup map, where the root is []. */
  class Layer {
    var names: set<Path>
    var children: map<Path, seq<Path>>
    var opaqueDirs: set<Path>

    constructor (all: set<Path>)
      ensures names == all && children == map[] && opaqueDirs == {}
    {
      names, children, opaqueDirs := all, map[], {};
    }

    method AppendChild(dir: Path, p: Path)
      modifies `children
      ensures children == old(children)[dir := (if dir in old(children) then old(children)[dir] else []) + [p]]
    {
      if dir !in children {
        children := children[dir := []];
      }
      children := children[dir := children[dir] + [p]];
    }

    /** A layer without a root makes Init panic, here `ok` false. The loop deletes only the name it is at,
        so it still visits every other one. */
    method Build() returns (ok: bool)
      requires children == map[] && opaqueDirs == {}
      modifies this
      ensures ok == ([] in old(names))
      ensures ok && MarkersAreLeaves(old(names)) ==> TreeOf(old(names), {}, names, children, opaqueDirs)
    {
      if [] !in names {
        return false;
      }
      ghost var all := names;
      var todo := names;
      while todo != {}
        invariant todo <= all && (MarkersAreLeaves(all) ==> TreeOf(all, todo, names, children, opaqueDirs))
        decreases |todo|
      {
        hide TreeOf, MarkersAreLeaves;
        var p :| p in todo;
        if MarkersAreLeaves(all) {
          StillListed(all, todo, names, children, opaqueDirs, p);
        }
        ghost var (n, c, o) := (names, children, opaqueDirs);
        if p != [] && Parent(p) in names {
          if BaseName(p) == OPAQUE {
            opaqueDirs := opaqueDirs + {Parent(p)};
            names := names - {p};
          } else {
            AppendChild(Parent(p), p);
          }
        }
        if MarkersAreLeaves(all) {
          Visited(all, todo, n, c, o, p, names, children, opaqueDirs);
        }
        todo := todo - {p};
      }
      ok := true;
    }
  }

  /** A directory of an entry is never deleted, so the lookup succeeds in whatever order names come. */
  lemma StillListed(all: set<Path>, todo: set<Path>, names: set<Path>, children: map<Path, seq<Path>>,
                    opaqueDirs: set<Path>, p: Path)
    requires MarkersAreLeaves(all) && todo <= all && TreeOf(all, todo, names, children, opaqueDirs) && p in todo
    ensures p != [] ==> (Parent(p) in names <==> Parent(p) in all)
  {
  }

  lemma Visited(all: set<Path>, todo: set<Path>, n: set<Path>, c: map<Path, seq<Path>>, o: set<Path>, p: Path,
                n': set<Path>, c': map<Path, seq<Path>>, o': set<Path>)
    requires todo <= all && TreeOf(all, todo, n, c, o) && p in todo
    requires p == [] || Parent(p) !in all ==> n' == n && c' == c && o' == o
    requires p != [] && Parent(p) in all && IsMarker(p) ==> n' == n - {p} && c' == c && o' == o + {Parent(p)}
    requires p != [] && Parent(p) in all && !IsMarker(p) ==>
      n' == n && c' == c[Parent(p) := (if Parent(p) in c then c[Parent(p)] else []) + [p]] && o' == o
    ensures TreeOf(all, todo - {p}, n', c', o')
  {
    forall d ensures p == d + [OPAQUE] <==> IsMarker(p) && Parent(p) == d {
      if IsMarker(p) && Parent(p) == d {
        ParentAndBase(p);
      }
    }
    forall d, q | d in c' ensures q in c'[d] <==> IsChild(all, d, q) && q !in todo - {p} {
      if d == Parent(p) && c' != c {
        var list := if d in c then c[d] else [];
        assert c'[d] == list + [p];
        assert q in list <==> IsChild(all, d, q) && q !in todo;
      }
    }
  }

  predicate Step(children: map<Path, seq<Path>>, dir: Path, p: Path) {
    dir in children && p in children[dir]
  }

  /** The client can walk from the root to `p`: every step is to a child. */
  predicate Reaches(children: map<Path, seq<Path>>, p: Path) {
    forall k :: 0 <= k < |p| ==> Step(children, p[..k], p[..k + 1])
  }

  lemma LastStep(children: map<Path, seq<Path>>, p: Path)
    requires p != []
    ensures Reaches(children, p) <==> Reaches(children, Parent(p)) && Step(children, Parent(p), p)
  {
    hide Step;
    var n := |p| - 1;
    var d := Parent(p);
    assert d == p[..n] && p == p[..n + 1];
    if Reaches(children, p) {
      assert Step(children, p[..n], p[..n + 1]);
      forall k | 0 <= k < |d| ensures Step(children, d[..k], d[..k + 1]) {
        assert d[..k] == p[..k] && d[..k + 1] == p[..k + 1];
      }
    }
    if Reaches(children, d) && Step(children, d, p) {
      forall k | 0 <= k < |p| ensures Step(children, p[..k], p[..k + 1]) {
        if k < n {
          assert d[..k] == p[..k] && d[..k + 1] == p[..k + 1];
        }
      }
    }
  }

  /** When the names are closed under parents, as those of a table are, everything left in the map is
      reachable from the root, and nothing else is. */
  lemma {:induction false} Reachable(all: set<Path>, names: set<Path>, children: map<Path, seq<Path>>,
                                     opaqueDirs: set<Path>, p: Path)
    requires ParentClosed(all) && MarkersAreLeaves(all) && [] in all && TreeOf(all, {}, names, children, opaqueDirs)
    ensures p in names <==> Reaches(children, p)
    decreases |p|
  {
    if p != [] {
      Reachable(all, names, children, opaqueDirs, Parent(p));
      LastStep(children, p);
      assert IsChild(all, Parent(p), p) <==> p in names;
      hide Reaches;
    }
  }

  /** The names of a table, once its tree is complete, are closed under parents. */
  lemma TableNamesClosed(d: DirTree.Dirs, n0: nat)
    requires DirTree.TreeInv(d, n0, d.m.Keys - {[]})
    ensures ParentClosed(d.m.Keys)
    ensures d.m.Keys != {} ==> [] in d.m.Keys
  {
    forall p | p in d.m.Keys && p != [] ensures Parent(p) in d.m.Keys {
      DirTree.ParentNamed(d, n0, p);
    }
    if p :| p in d.m.Keys {
      DirTree.Closed(d, n0, p, 0);
      assert p[..0] == [];
    }
  }
}
