/** The second pass over the table: create missing parents, count names, add children. */
module Linking {
  import opened Basics
  import opened Toc
  import opened Paths
  import opened TocScan
  import opened DirTree

  predicate Extends(m: map<Path, nat>, m': map<Path, nat>) {
    forall p :: p in m ==> p in m' && m'[p] == m[p]
  }

  /** The state after getOrCreateDir(q). */
  function Create(d: Dirs, q: Path): (r: Dirs)
    requires Shape(d)
    ensures Shape(r) && q in r.m && Extends(d.m, r.m) && d.nodes <= r.nodes
    decreases |q|
  {
    if q in d.m then d
    else if q == [] then NewDir(d, q)
    else
      var d1 := Create(NewDir(d, q), Parent(q));
      AddChild(d1, d1.m[Parent(q)], BaseName(q), |d.nodes|)
  }

  /** Names in `d'` that are not in `d`, apart from the root. */
  function NewNames(d: Dirs, d': Dirs): set<Path> {
    d'.m.Keys - d.m.Keys - {[]}
  }

  /** Created names are ancestors of the one asked for, and name implied directories. */
  lemma {:induction false} CreatedNames(d: Dirs, q: Path)
    requires Shape(d)
    ensures forall p :: p in Create(d, q).m && p !in d.m ==> p <= q && Create(d, q).m[p] >= |d.nodes|
    decreases |q|
  {
    if q !in d.m && q != [] {
      CreatedNames(NewDir(d, q), Parent(q));
    }
  }

  lemma LinkedNamed(d: Dirs, n0: nat, linked: set<Path>)
    requires TreeInv(d, n0, linked)
    ensures forall p :: p in linked ==> p in d.m && p != []
  {
    hide CountOk, HardNames, SubDirs;
  }

  /** Linking an implied directory below its parent. */
  lemma ImpliedLink(d: Dirs, n0: nat, linked: set<Path>, q: Path)
    requires TreeInv(d, n0, linked) && q in d.m && d.m[q] >= n0 && q != [] && q !in linked && Parent(q) in d.m
    ensures d.m[q] < |d.nodes|
    ensures TreeInv(AddChild(d, d.m[Parent(q)], BaseName(q), d.m[q]), n0, linked + {q})
  {
    hide CountOk, ChildOk, HardNames, SubDirs;
    ImpliedHasDir(d, n0, linked, q);
    LinkKeeps(d, n0, linked, q);
  }

  lemma {:induction false} CreateKeeps(d: Dirs, n0: nat, linked: set<Path>, q: Path)
    requires TreeInv(d, n0, linked)
    ensures TreeInv(Create(d, q), n0, linked + NewNames(d, Create(d, q)))
    decreases |q|
  {
    hide TreeInv;
    assert Shape(d) && n0 <= |d.nodes| by { ShapeOfTree(d, n0, linked); }
    if q in d.m {
      assert linked + NewNames(d, d) == linked;
    } else {
      var d0 := NewDir(d, q);
      NewDirKeeps(d, n0, linked, q);
      if q == [] {
        assert linked + NewNames(d, d0) == linked;
      } else {
        var d1 := Create(d0, Parent(q));
        CreateKeeps(d0, n0, linked, Parent(q));
        LinkedNamed(d, n0, linked);
        var linked1 := linked + NewNames(d0, d1);
        assert q !in linked1 && d1.m[q] == |d.nodes|;
        ImpliedLink(d1, n0, linked1, q);
        assert linked1 + {q} == linked + NewNames(d, Create(d, q));
      }
    }
  }

  lemma ShapeOfTree(d: Dirs, n0: nat, linked: set<Path>)
    requires TreeInv(d, n0, linked)
    ensures Shape(d) && n0 <= |d.nodes|
  {
  }

  /** The second pass for entry `i` called `name`: None when a hard link's target is not found. */
  function LinkEntry(d: Dirs, i: nat, name: Path): (r: Option<Dirs>)
    requires Shape(d) && i < |d.nodes| && name != []
    ensures r.Some? ==> Shape(r.value) && Extends(d.m, r.value.m) && d.nodes <= r.value.nodes
  {
    var d1 := Create(d, Parent(name));
    if d1.nodes[i].kind == Hardlink && Clean(d1.nodes[i].linkName) !in d1.m then None
    else Some(AddChild(CountEntry(d1, i), d1.m[Parent(name)], BaseName(name), TargetOf(d1, i)))
  }

  lemma LinkEntryNames(d: Dirs, i: nat, name: Path)
    requires Shape(d) && i < |d.nodes| && name != []
    ensures LinkEntry(d, i, name).Some? ==> LinkEntry(d, i, name).value.m == Create(d, Parent(name)).m
  {
    hide Clean;
  }

  lemma LinkEntryIsLinkName(d: Dirs, n0: nat, i: nat, name: Path)
    requires Shape(d) && i < n0 && name != [] && name in d.m && d.m[name] == i && i < |d.nodes|
    requires LinkEntry(d, i, name).Some?
    ensures LinkEntry(d, i, name).value == LinkName(Create(d, Parent(name)), n0, name)
    ensures var d1 := Create(d, Parent(name)); IsHardlink(d1, name) ==> Clean(d1.nodes[d1.m[name]].linkName) in d1.m
  {
    hide Clean, Create;
  }

  lemma LinkEntryKeeps(d: Dirs, n0: nat, linked: set<Path>, i: nat, name: Path)
    requires TreeInv(d, n0, linked)
    requires i < n0 && name != [] && name in d.m && d.m[name] == i && name !in linked && i < |d.nodes|
    requires LinkEntry(d, i, name).Some?
    ensures var d' := LinkEntry(d, i, name).value; TreeInv(d', n0, linked + NewNames(d, d') + {name})
  {
    hide TreeInv, Clean, Create, LinkEntry, LinkName;
    ShapeOfTree(d, n0, linked);
    var d1 := Create(d, Parent(name));
    CreateKeeps(d, n0, linked, Parent(name));
    LinkEntryNames(d, i, name);
    LinkEntryIsLinkName(d, n0, i, name);
    LinkedNamed(d, n0, linked);
    LinkKeeps(d1, n0, linked + NewNames(d, d1), name);
  }

  /** The second pass from entry `i` on. */
  function LinkFrom(d: Dirs, ents: seq<Ent>, i: nat): (r: Option<Dirs>)
    requires Shape(d) && i <= |ents| <= |d.nodes|
    ensures r.Some? ==> Shape(r.value) && Extends(d.m, r.value.m) && d.nodes <= r.value.nodes
    decreases |ents| - i
  {
    if i == |ents| then Some(d)
    else if ents[i].e.kind == Chunk || ents[i].path == [] then LinkFrom(d, ents, i + 1)
    else match LinkEntry(d, i, ents[i].path)
      case None => None
      case Some(d') => LinkFrom(d', ents, i + 1)
  }

  /** Every entry but the chunks is the one its name denotes. */
  predicate Unique(ents: seq<Ent>, m: map<Path, nat>) {
    forall i :: 0 <= i < |ents| && ents[i].e.kind != Chunk ==> ents[i].path in m && m[ents[i].path] == i
  }

  /** Names still to be linked are those of the entries from `i` on. */
  predicate Progress(d: Dirs, n0: nat, linked: set<Path>, i: nat) {
    && (forall p :: p in linked ==> p in d.m && (d.m[p] >= n0 || d.m[p] < i))
    && (forall p :: p in d.m && p != [] && p !in linked ==> i <= d.m[p] < n0)
  }

  lemma ProgressStep(d: Dirs, n0: nat, linked: set<Path>, i: nat, name: Path)
    requires TreeInv(d, n0, linked) && Progress(d, n0, linked, i)
    requires i < n0 && name != [] && name in d.m && d.m[name] == i && i < |d.nodes|
    requires LinkEntry(d, i, name).Some?
    ensures name !in linked
    ensures var d' := LinkEntry(d, i, name).value; Progress(d', n0, linked + NewNames(d, d') + {name}, i + 1)
  {
    hide TreeInv, LinkEntry, Create, Clean;
    ShapeOfTree(d, n0, linked);
    LinkEntryNames(d, i, name);
    CreatedNames(d, Parent(name));
    LinkedNamed(d, n0, linked);
    forall p | p in d.m && d.m[p] == i ensures p == name {
      NamesInjective(d, n0, linked, p, name);
    }
    ProgressAfter(d, LinkEntry(d, i, name).value, n0, linked, i, name);
  }

  lemma ProgressAfter(d: Dirs, d': Dirs, n0: nat, linked: set<Path>, i: nat, name: Path)
    requires Progress(d, n0, linked, i) && name in d.m && d.m[name] == i
    requires Extends(d.m, d'.m) && (forall p :: p in d.m && d.m[p] == i ==> p == name)
    requires forall p :: p in d'.m && p !in d.m ==> d'.m[p] >= n0
    ensures Progress(d', n0, linked + NewNames(d, d') + {name}, i + 1)
  {
  }

  /** The arena begins with the entries of the table. */
  predicate Arena(d: Dirs, ents: seq<Ent>) {
    && Shape(d) && |ents| <= |d.nodes|
    && (forall j :: 0 <= j < |ents| ==> d.nodes[j] == Node(ents[j].path, ents[j].e.kind, ents[j].e.linkName))
  }

  ghost predicate Tabled(d: Dirs, ents: seq<Ent>) {
    && Arena(d, ents) && Unique(ents, d.m)
    && (forall p :: p in d.m && d.m[p] < |ents| ==> d.nodes[d.m[p]].kind != Chunk)
  }

  lemma NamedByOwner(d: Dirs, ents: seq<Ent>, i: nat)
    requires Tabled(d, ents) && i < |ents| && ents[i].e.kind != Chunk
    ensures ents[i].path in d.m && d.m[ents[i].path] == i
  {
  }

  lemma TabledAfter(d: Dirs, ents: seq<Ent>, i: nat, name: Path)
    requires Tabled(d, ents) && i < |ents| && name != [] && LinkEntry(d, i, name).Some?
    ensures Tabled(LinkEntry(d, i, name).value, ents)
  {
    hide Clean, Create, LinkEntry;
    LinkEntryNames(d, i, name);
    CreatedNames(d, Parent(name));
  }

  lemma ProgressSkip(d: Dirs, n0: nat, linked: set<Path>, i: nat, en: Ent)
    requires TreeInv(d, n0, linked) && Progress(d, n0, linked, i) && i < |d.nodes|
    requires en.path == [] || en.e.kind == Chunk
    requires d.nodes[i] == Node(en.path, en.e.kind, en.e.linkName)
    requires forall p :: p in d.m && d.m[p] < n0 ==> d.nodes[d.m[p]].kind != Chunk
    ensures Progress(d, n0, linked, i + 1)
  {
    forall p | p in d.m && p != [] ensures d.m[p] != i {
      assert d.nodes[d.m[p]].path == p;
    }
    hide TreeInv;
  }

  /** With distinct names the second pass leaves a tree in which every name but the root is linked. */
  lemma {:induction false} LinkFromKeeps(d: Dirs, ents: seq<Ent>, linked: set<Path>, i: nat)
    requires TreeInv(d, |ents|, linked) && Tabled(d, ents) && Progress(d, |ents|, linked, i) && i <= |ents|
    requires LinkFrom(d, ents, i).Some?
    ensures TreeInv(LinkFrom(d, ents, i).value, |ents|, LinkFrom(d, ents, i).value.m.Keys - {[]})
    decreases |ents| - i
  {
    hide TreeInv, LinkEntry, Clean, Create, Unique;
    if i == |ents| {
      assert linked == d.m.Keys - {[]} by {
        LinkedNamed(d, |ents|, linked);
      }
    } else if ents[i].e.kind == Chunk || ents[i].path == [] {
      ProgressSkip(d, |ents|, linked, i, ents[i]);
      hide Progress;
      LinkFromKeeps(d, ents, linked, i + 1);
    } else {
      NamedByOwner(d, ents, i);
      hide Progress;
      var name := ents[i].path;
      var d' := LinkEntry(d, i, name).value;
      ProgressStep(d, |ents|, linked, i, name);
      LinkEntryKeeps(d, |ents|, linked, i, name);
      TabledAfter(d, ents, i, name);
      hide Tabled;
      LinkFromKeeps(d', ents, linked + NewNames(d, d') + {name}, i + 1);
    }
  }

  /** Names that the second pass adds are proper ancestors of names in the table. */
  lemma {:induction false} LinkFromNames(d: Dirs, ents: seq<Ent>, i: nat)
    requires Shape(d) && i <= |ents| <= |d.nodes| && LinkFrom(d, ents, i).Some?
    ensures forall p :: p in LinkFrom(d, ents, i).value.m && p !in d.m ==>
      LinkFrom(d, ents, i).value.m[p] >= |ents| && exists j :: 0 <= j < |ents| && p < ents[j].path
    decreases |ents| - i
  {
    hide Create, LinkEntry;
    if i == |ents| {
    } else if ents[i].e.kind == Chunk || ents[i].path == [] {
      LinkFromNames(d, ents, i + 1);
    } else {
      var name := ents[i].path;
      LinkEntryNames(d, i, name);
      CreatedNames(d, Parent(name));
      LinkFromNames(LinkEntry(d, i, name).value, ents, i + 1);
      forall p | p in LinkFrom(d, ents, i).value.m && p !in d.m
        ensures LinkFrom(d, ents, i).value.m[p] >= |ents| && exists j :: 0 <= j < |ents| && p < ents[j].path
      {
        if p in LinkEntry(d, i, name).value.m {
          assert p <= Parent(name) && Parent(name) < name;
          assert p < ents[i].path;
        }
      }
    }
  }

  // --- exactly when the pass fails

  /** Name `p` is needed as a directory above `n`, with no name of the table in between. */
  predicate Implied(m: map<Path, nat>, p: Path, n: Path) {
    p < n && forall q :: q in m ==> !(p < q < n)
  }

  predicate IsLinked(en: Ent) {
    en.e.kind != Chunk && en.path != []
  }

  /** A name of the table, or one that the first `n` entries imply. */
  predicate Known(m: map<Path, nat>, ents: seq<Ent>, n: nat, p: Path)
    requires n <= |ents|
  {
    p in m || exists j :: 0 <= j < n && IsLinked(ents[j]) && Implied(m, p, ents[j].path)
  }

  /** Entry `i` is a hard link to a name that is neither in the table nor implied by then. */
  predicate Dangling(m: map<Path, nat>, ents: seq<Ent>, i: nat)
    requires i < |ents|
  {
    IsLinked(ents[i]) && ents[i].e.kind == Hardlink && !Known(m, ents, i + 1, Clean(ents[i].e.linkName))
  }

  predicate CreatesName(m: map<Path, nat>, q: Path, p: Path) {
    p in m || (p <= q && forall x :: x in m ==> !(p <= x <= q))
  }

  lemma UpTo(x: Path, q: Path)
    requires q != []
    ensures x <= q <==> x == q || x <= Parent(q)
    ensures x < q <==> x <= Parent(q)
  {
    if x <= q {
      assert x == q[..|x|];
    }
    if x <= Parent(q) {
      assert x == Parent(q)[..|x|] == q[..|x|];
    }
  }

  lemma CreatesAbove(m: map<Path, nat>, q: Path, id: nat, p: Path)
    requires q !in m && q != []
    ensures CreatesName(m, q, p) <==> CreatesName(m[q := id], Parent(q), p)
  {
    UpTo(p, q);
    UpTo(q, q);
    forall x | x in m ensures x <= q <==> x <= Parent(q) {
      UpTo(x, q);
    }
    hide Parent;
    assert forall x :: x in m[q := id] <==> x == q || x in m;
  }

  /** getOrCreateDir creates the name and what is above it, up to the first that is there. */
  lemma {:induction false} CreateExactly(d: Dirs, q: Path)
    requires Shape(d)
    ensures forall p :: p in Create(d, q).m <==> CreatesName(d.m, q, p)
    decreases |q|
  {
    if q in d.m {
    } else if q == [] {
    } else {
      CreateExactly(NewDir(d, q), Parent(q));
      var d1 := Create(NewDir(d, q), Parent(q));
      assert Create(d, q).m == d1.m;
      hide Create;
      forall p ensures p in d1.m <==> CreatesName(d.m, q, p) {
        CreatesAbove(d.m, q, |d.nodes|, p);
      }
    }
  }

  /** The names there after `i` entries have been linked. */
  ghost predicate NamesAre(d: Dirs, m: map<Path, nat>, ents: seq<Ent>, i: nat)
    requires i <= |ents|
  {
    forall p :: p in d.m <==> Known(m, ents, i, p)
  }

  lemma PrefixesCompare(a: Path, b: Path, n: Path)
    requires a <= n && b <= n
    ensures a == b || a < b || b < a
  {
    assert a == n[..|a|] && b == n[..|b|];
    if |a| < |b| {
      assert a == b[..|a|];
    } else if |b| < |a| {
      assert b == a[..|b|];
    }
  }

  /** What is above a name known from one entry is known from it, or hidden by a name of the table. */
  lemma ImpliedAbove(m: map<Path, nat>, p: Path, x: Path, n: Path)
    requires p < x && Implied(m, x, n) && x !in m && forall q :: q in m ==> !(p < q < x)
    ensures Implied(m, p, n)
  {
    forall q | q in m ensures !(p < q < n) {
      if p < q < n {
        PrefixesCompare(q, x, n);
      }
    }
  }

  lemma NamesStep(d: Dirs, m: map<Path, nat>, ents: seq<Ent>, i: nat, p: Path)
    requires Shape(d) && i < |ents| && IsLinked(ents[i]) && NamesAre(d, m, ents, i)
    ensures CreatesName(d.m, Parent(ents[i].path), p) <==> Known(m, ents, i + 1, p)
  {
    var name := ents[i].path;
    assert Known(m, ents, i + 1, p) <==> Known(m, ents, i, p) || Implied(m, p, name);
    UpTo(p, name);
    forall x | x in d.m ensures x < name <==> x <= Parent(name) {
      UpTo(x, name);
    }
    assert forall x :: x in m ==> Known(m, ents, i, x);
    hide Parent, Known;
    if Implied(m, p, name) {
      forall x | x in d.m && p <= x && !(p < x) ensures p == x {
      }
      forall x | x in d.m && p < x < name ensures Known(m, ents, i, p) {
        KnownAbove(d, m, ents, i, p, x);
      }
    }
  }

  lemma KnownAbove(d: Dirs, m: map<Path, nat>, ents: seq<Ent>, i: nat, p: Path, x: Path)
    requires i < |ents| && NamesAre(d, m, ents, i) && x in d.m && p < x < ents[i].path
    requires Implied(m, p, ents[i].path)
    ensures Known(m, ents, i, p)
  {
    assert Known(m, ents, i, x) && x !in m;
    var j :| 0 <= j < i && IsLinked(ents[j]) && Implied(m, x, ents[j].path);
    ImpliedAbove(m, p, x, ents[j].path);
  }

  /** The pass fails if and only if a hard link's target is neither in the table nor implied by the
      entries up to the link. */
  lemma {:induction false} LinkFromFails(d: Dirs, m: map<Path, nat>, ents: seq<Ent>, i: nat)
    requires Arena(d, ents) && i <= |ents| && NamesAre(d, m, ents, i)
    ensures LinkFrom(d, ents, i).None? <==> exists j :: i <= j < |ents| && Dangling(m, ents, j)
    decreases |ents| - i
  {
    hide Clean, Create, CreatesName, Known, Implied;
    if i < |ents| {
      if !IsLinked(ents[i]) {
        SameKnown(m, ents, i);
        LinkFromFails(d, m, ents, i + 1);
      } else {
        CreateExactly(d, Parent(ents[i].path));
        forall p ensures p in Create(d, Parent(ents[i].path)).m <==> Known(m, ents, i + 1, p) {
          NamesStep(d, m, ents, i, p);
        }
        assert LinkEntry(d, i, ents[i].path).None? <==> Dangling(m, ents, i);
        if LinkEntry(d, i, ents[i].path).Some? {
          LinkEntryNames(d, i, ents[i].path);
          LinkFromFails(LinkEntry(d, i, ents[i].path).value, m, ents, i + 1);
        }
      }
    }
  }

  lemma SameKnown(m: map<Path, nat>, ents: seq<Ent>, i: nat)
    requires i < |ents| && !IsLinked(ents[i])
    ensures forall p :: Known(m, ents, i, p) <==> Known(m, ents, i + 1, p)
  {
    hide Implied;
  }
}
