/** File access traces: what a tracer records, and how the traces of a group are ranked together. */
module Tracer {
  import opened Sorting

  /** `access` and `wait` are durations; `access` counts from the start of the trace. */
  datatype TraceItem = TraceItem(fileName: string, stack: int, access: int, wait: int)

  datatype Trace = Trace(image: string, start: int, items: seq<TraceItem>)

  datatype RankedItem = RankedItem(item: TraceItem, rank: nat, sourceImage: nat)

  datatype Group = Group(history: seq<RankedItem>, images: seq<string>)

  // --- the order of image names

  function StringLe(a: string, b: string): bool {
    if a == [] then true else if b == [] then false
    else if a[0] != b[0] then a[0] < b[0] else StringLe(a[1..], b[1..])
  }

  /** A string comes before those it is a prefix of, and otherwise the first character that differs decides. */
  lemma {:induction false} StringLeIs(a: string, b: string, n: nat)
    requires n <= |a| && n <= |b| && a[..n] == b[..n]
    requires n < |a| && n < |b| ==> a[n] != b[n]
    ensures StringLe(a, b) <==> n == |a| || (n < |b| && a[n] < b[n])
    decreases n
  {
    if n > 0 {
      assert a[0] == a[..n][0] == b[..n][0] == b[0];
      assert a[1..][..n - 1] == a[..n][1..] == b[..n][1..] == b[1..][..n - 1];
      StringLeIs(a[1..], b[1..], n - 1);
    }
  }

  lemma {:induction false} StringTotal(a: string, b: string)
    ensures StringLe(a, b) || StringLe(b, a)
    decreases |a|
  {
    if a != [] && b != [] && a[0] == b[0] {
      StringTotal(a[1..], b[1..]);
    }
  }

  lemma {:induction false} StringTrans(a: string, b: string, c: string)
    requires StringLe(a, b) && StringLe(b, c)
    ensures StringLe(a, c)
    decreases |a|
  {
    if a != [] && b != [] && c != [] && a[0] == b[0] == c[0] {
      StringTrans(a[1..], b[1..], c[1..]);
    }
  }

  lemma StringOrder()
    ensures TotalPreorder(StringLe)
  {
    forall a: string, b: string ensures StringLe(a, b) || StringLe(b, a) {
      StringTotal(a, b);
    }
    forall a: string, b: string, c: string | StringLe(a, b) && StringLe(b, c) ensures StringLe(a, c) {
      StringTrans(a, b, c);
    }
  }

  // --- recording

  class Recorder {
    const image: string
    const start: int
    var items: seq<TraceItem>

    constructor (image: string, start: int)
      ensures this.image == image && this.start == start && items == []
    {
      this.image, this.start, items := image, start, [];
    }

    /** Both times are absolute. */
    method Log(fileName: string, stack: int, accessTime: int, completeTime: int)
      modifies `items
      ensures items == old(items) + [TraceItem(fileName, stack, accessTime - start, completeTime - accessTime)]
    {
      items := items + [TraceItem(fileName, stack, accessTime - start, completeTime - accessTime)];
    }

    /** Close sorts the items before it writes them. */
    method Close() returns (t: Trace, ghost perm: seq<nat>)
      modifies `items
      ensures t == Trace(image, start, items) && ByAccess(items) && Rearranged(old(items), items, perm)
    {
      items, perm := SortBy(items, (a: TraceItem, b: TraceItem) => a.access <= b.access);
      t := Trace(image, start, items);
    }
  }

  predicate ByAccess(items: seq<TraceItem>) {
    forall i, j :: 0 <= i < j < |items| ==> items[i].access <= items[j].access
  }

  // --- ranking

  /** Item `k` is the first for its file. */
  predicate First(items: seq<TraceItem>, k: nat) {
    k < |items| && forall j :: 0 <= j < k ==> items[j].fileName != items[k].fileName
  }

  /** The first items among the first `n`, as positions. */
  function Firsts(items: seq<TraceItem>, n: nat): seq<nat>
    requires n <= |items|
  {
    if n == 0 then [] else Firsts(items, n - 1) + if First(items, n - 1) then [n - 1] else []
  }

  lemma {:induction false} FirstsAre(items: seq<TraceItem>, n: nat)
    requires n <= |items|
    ensures forall k: nat :: k in Firsts(items, n) <==> k < n && First(items, k)
    ensures forall i, j :: 0 <= i < j < |Firsts(items, n)| ==> Firsts(items, n)[i] < Firsts(items, n)[j]
    decreases n
  {
    if n > 0 {
      FirstsAre(items, n - 1);
      var f := Firsts(items, n - 1);
      assert forall i :: 0 <= i < |f| ==> f[i] in f;
    }
  }

  /** Where the history of the first `n` traces comes from: trace and position. */
  function Origins(traces: seq<Trace>, n: nat): seq<(nat, nat)>
    requires n <= |traces|
  {
    if n == 0 then [] else Origins(traces, n - 1) + Tagged(n - 1, Firsts(traces[n - 1].items, |traces[n - 1].items|))
  }

  function Tagged(t: nat, ks: seq<nat>): (r: seq<(nat, nat)>)
    ensures |r| == |ks| && forall i :: 0 <= i < |ks| ==> r[i] == (t, ks[i])
  {
    seq(|ks|, i requires 0 <= i < |ks| => (t, ks[i]))
  }

  lemma {:induction false} OriginsAre(traces: seq<Trace>, n: nat)
    requires n <= |traces|
    ensures forall t: nat, k: nat :: (t, k) in Origins(traces, n) <==> t < n && First(traces[t].items, k)
    ensures forall i, j :: 0 <= i < j < |Origins(traces, n)| ==> Origins(traces, n)[i] != Origins(traces, n)[j]
    decreases n
  {
    if n > 0 {
      OriginsAre(traces, n - 1);
      var items := traces[n - 1].items;
      FirstsAre(items, |items|);
      var (o, f) := (Origins(traces, n - 1), Firsts(items, |items|));
      var tagged := Tagged(n - 1, f);
      forall t: nat, k: nat ensures (t, k) in tagged <==> t == n - 1 && First(items, k) {
        if t == n - 1 && First(items, k) {
          var i :| 0 <= i < |f| && f[i] == k;
          assert tagged[i] == (t, k);
        }
      }
      assert forall i :: 0 <= i < |o| ==> (o[i].0, o[i].1) in o;
    }
  }

  function Earliest(traces: seq<Trace>): int
    requires traces != []
  {
    var n := |traces| - 1;
    if n == 0 then traces[0].start
    else if traces[n].start < Earliest(traces[..n]) then traces[n].start else Earliest(traces[..n])
  }

  /** It is the least start. */
  lemma {:induction false} EarliestIs(traces: seq<Trace>)
    requires traces != []
    ensures forall i :: 0 <= i < |traces| ==> Earliest(traces) <= traces[i].start
    ensures exists i :: 0 <= i < |traces| && Earliest(traces) == traces[i].start
    decreases |traces|
  {
    var n := |traces| - 1;
    if n > 0 {
      EarliestIs(traces[..n]);
      assert Earliest(traces) <= traces[n].start && Earliest(traces) <= Earliest(traces[..n]);
      forall i | 0 <= i < n ensures Earliest(traces[..n]) <= traces[i].start {
        assert traces[..n][i] == traces[i];
      }
      var i :| 0 <= i < n && Earliest(traces[..n]) == traces[..n][i].start;
      var k := if traces[n].start < Earliest(traces[..n]) then n else i;
      assert traces[k].start == Earliest(traces);
    }
  }

  /** The item at one origin, with its access time counted from the start of the earliest trace. */
  predicate ComesFrom(traces: seq<Trace>, images: seq<string>, r: RankedItem, o: (nat, nat))
    requires traces != []
  {
    && o.0 < |traces| && o.1 < |traces[o.0].items|
    && var t := traces[o.0];
       && r.item == t.items[o.1].(access := t.items[o.1].access + (t.start - Earliest(traces)))
       && r.sourceImage < |images| && images[r.sourceImage] == t.image
  }

  function ImagesOf(traces: seq<Trace>): (r: seq<string>)
    ensures |r| == |traces| && forall i :: 0 <= i < |traces| ==> r[i] == traces[i].image
  {
    seq(|traces|, i requires 0 <= i < |traces| => traces[i].image)
  }

  /** A ranked group: ranks count up with the access time, and the history holds the first item of each
      file of each trace, once, under that trace's image. `from` says which item of which trace each
      entry of the history is. */
  ghost predicate Ranked(traces: seq<Trace>, g: Group, from: seq<(nat, nat)>)
    requires traces != []
  {
    && |from| == |g.history|
    && (exists perm :: Rearranged(ImagesOf(traces), g.images, perm)) && Sorted(g.images, StringLe)
    && (forall i :: 0 <= i < |g.history| ==>
          g.history[i].rank == i && ComesFrom(traces, g.images, g.history[i], from[i]))
    && (forall i, j :: 0 <= i < j < |g.history| ==> g.history[i].item.access <= g.history[j].item.access)
    && (forall i, j :: 0 <= i < j < |from| ==> from[i] != from[j])
    && (forall t: nat, k: nat :: (t, k) in from <==> t < |traces| && First(traces[t].items, k))
  }

  /** The position that stands for each image in the sorted list: the last one, when an image repeats. */
  method Positions(images: seq<string>) returns (lookup: map<string, nat>)
    ensures forall i :: 0 <= i < |images| ==> images[i] in lookup
    ensures forall s :: s in lookup ==> lookup[s] < |images| && images[lookup[s]] == s
  {
    lookup := map[];
    var i := 0;
    while i < |images|
      invariant 0 <= i <= |images|
      invariant forall k :: 0 <= k < i ==> images[k] in lookup
      invariant forall s :: s in lookup ==> lookup[s] < i && images[lookup[s]] == s
    {
      lookup := lookup[images[i] := i];
      i := i + 1;
    }
  }

  /** The earliest start, and the images, of a group's traces. */
  method EarliestAndImages(traces: seq<Trace>) returns (earliest: int, images: seq<string>)
    requires traces != []
    ensures earliest == Earliest(traces) && images == ImagesOf(traces)
  {
    earliest, images := traces[0].start, [];
    var i := 0;
    while i < |traces|
      invariant 0 <= i <= |traces| && |images| == i && (i == 0 ==> earliest == traces[0].start)
      invariant i > 0 ==> earliest == Earliest(traces[..i])
      invariant forall k :: 0 <= k < i ==> images[k] == traces[k].image
    {
      assert traces[..i + 1][..i] == traces[..i];
      if i > 0 && traces[i].start < earliest {
        earliest := traces[i].start;
      }
      images := images + [traces[i].image];
      i := i + 1;
    }
    assert traces[..i] == traces;
  }

  /** `visited` holds the files of the first `k` items. */
  ghost predicate Seen(items: seq<TraceItem>, k: nat, visited: set<string>)
    requires k <= |items|
  {
    forall name :: name in visited <==> exists j :: 0 <= j < k && items[j].fileName == name
  }

  lemma SeenMore(items: seq<TraceItem>, k: nat, visited: set<string>)
    requires k < |items| && Seen(items, k, visited)
    ensures First(items, k) <==> items[k].fileName !in visited
    ensures Seen(items, k + 1, visited + {items[k].fileName})
    ensures items[k].fileName in visited ==> Seen(items, k + 1, visited)
  {
  }

  /** One trace's turn: its first items, under the image's position, at times from the earliest start. */
  method AddTrace(traces: seq<Trace>, images: seq<string>, t: nat, offset: int, image: nat)
    returns (more: seq<RankedItem>)
    requires t < |traces| && offset == traces[t].start - Earliest(traces) && image < |images|
      && images[image] == traces[t].image
    ensures var ks := Firsts(traces[t].items, |traces[t].items|);
            |more| == |ks| && forall i :: 0 <= i < |ks| ==> ComesFrom(traces, images, more[i], (t, ks[i]))
  {
    hide Earliest;
    more := [];
    var items := traces[t].items;
    var visited: set<string> := {};
    var k := 0;
    while k < |items|
      invariant 0 <= k <= |items| && |more| == |Firsts(items, k)|
      invariant Seen(items, k, visited)
      invariant forall i :: 0 <= i < |more| ==> ComesFrom(traces, images, more[i], (t, Firsts(items, k)[i]))
    {
      SeenMore(items, k, visited);
      hide First, Seen;
      if items[k].fileName !in visited {
        var item := TraceItem(items[k].fileName, items[k].stack, items[k].access + offset, items[k].wait);
        more := more + [RankedItem(item, 0, image)];
        visited := visited + {items[k].fileName};
      }
      k := k + 1;
    }
  }

  /** The histories of all traces, one after the other. */
  method Populate(traces: seq<Trace>, earliest: int, images: seq<string>, lookup: map<string, nat>)
    returns (history: seq<RankedItem>)
    requires traces != [] && earliest == Earliest(traces)
    requires forall t :: 0 <= t < |traces| ==> traces[t].image in lookup
    requires forall s :: s in lookup ==> lookup[s] < |images| && images[lookup[s]] == s
    ensures FromOrigins(traces, images, history, Origins(traces, |traces|))
  {
    hide Firsts, ComesFrom, Earliest;
    history := [];
    var t := 0;
    while t < |traces|
      invariant 0 <= t <= |traces| && FromOrigins(traces, images, history, Origins(traces, t))
    {
      var more := AddTrace(traces, images, t, traces[t].start - earliest, lookup[traces[t].image]);
      history := history + more;
      t := t + 1;
    }
  }

  ghost predicate FromOrigins(traces: seq<Trace>, images: seq<string>, history: seq<RankedItem>, from: seq<(nat, nat)>)
    requires traces != []
  {
    |history| == |from| && forall i :: 0 <= i < |history| ==> ComesFrom(traces, images, history[i], from[i])
  }

  /** Sort by access time, then number. */
  method SortAndRank(before: seq<RankedItem>) returns (history: seq<RankedItem>, ghost perm: seq<nat>)
    ensures |history| == |before| == |perm| && Arrangement(perm)
    ensures forall i :: 0 <= i < |history| ==> history[i] == before[perm[i]].(rank := i)
    ensures forall i, j :: 0 <= i < j < |history| ==> history[i].item.access <= history[j].item.access
  {
    history, perm := SortBy(before, (a: RankedItem, b: RankedItem) => a.item.access <= b.item.access);
    var sorted := history;
    var i := 0;
    while i < |history|
      invariant 0 <= i <= |history| == |sorted|
      invariant forall k :: 0 <= k < |history| ==> history[k] == if k < i then sorted[k].(rank := k) else sorted[k]
    {
      history := history[i := history[i].(rank := i)];
      i := i + 1;
    }
  }

  /** Each position below the length occurs once. */
  predicate Arrangement(perm: seq<nat>) {
    && (forall i :: 0 <= i < |perm| ==> perm[i] < |perm|)
    && (forall i, j :: 0 <= i < j < |perm| ==> perm[i] != perm[j])
  }

  ghost predicate IsRanking(traces: seq<Trace>, g: Group)
    requires traces != []
  {
    exists from :: Ranked(traces, g, from)
  }

  /** A named group. */
  method RankGroup(traces: seq<Trace>) returns (g: Group)
    requires traces != []
    ensures IsRanking(traces, g)
  {
    hide Origins, Earliest, StringLe, First;
    var earliest, images := EarliestAndImages(traces);
    StringOrder();
    ghost var imagePerm: seq<nat>;
    images, imagePerm := SortBy(images, StringLe);
    var lookup := Positions(images);
    HasImage(traces, images, imagePerm);
    var before := Populate(traces, earliest, images, lookup);
    var history: seq<RankedItem>;
    ghost var perm: seq<nat>;
    history, perm := SortAndRank(before);
    ghost var from := seq(|perm|, i requires 0 <= i < |perm| => Origins(traces, |traces|)[perm[i]]);
    g := Group(history, images);
    FromCovers(traces, perm, from);
    hide Rearranged;
    forall i | 0 <= i < |history| ensures ComesFrom(traces, images, history[i], from[i]) {
      assert ComesFrom(traces, images, before[perm[i]], from[i]);
    }
    assert Ranked(traces, g, from);
  }

  lemma HasImage(traces: seq<Trace>, images: seq<string>, perm: seq<nat>)
    requires Rearranged(ImagesOf(traces), images, perm)
    ensures forall t :: 0 <= t < |traces| ==> traces[t].image in images
  {
    forall t | 0 <= t < |traces| ensures traces[t].image in images {
      EveryPosition(perm, |traces|, t);
      var i :| 0 <= i < |perm| && perm[i] == t;
      assert images[i] == ImagesOf(traces)[t];
    }
  }

  /** Sorting keeps every origin, once. */
  lemma FromCovers(traces: seq<Trace>, perm: seq<nat>, from: seq<(nat, nat)>)
    requires |from| == |perm| == |Origins(traces, |traces|)| && Arrangement(perm)
    requires forall i :: 0 <= i < |from| ==> from[i] == Origins(traces, |traces|)[perm[i]]
    ensures forall i, j :: 0 <= i < j < |from| ==> from[i] != from[j]
    ensures forall t: nat, k: nat :: (t, k) in from <==> t < |traces| && First(traces[t].items, k)
  {
    OriginsAre(traces, |traces|);
    var o := Origins(traces, |traces|);
    hide Origins, First;
    forall i, j | 0 <= i < j < |from| ensures from[i] != from[j] {
      if perm[i] < perm[j] {
        assert o[perm[i]] != o[perm[j]];
      } else {
        assert o[perm[j]] != o[perm[i]];
      }
    }
    forall x: (nat, nat) ensures x in from <==> x in o {
      if x in o {
        var p: nat :| p < |o| && o[p] == x;
        EveryPosition(perm, |perm|, p);
        var i :| 0 <= i < |perm| && perm[i] == p;
        assert from[i] == x;
      }
    }
  }

  /** What a ranked group says of one file of one trace that was closed: it appears exactly once from
      that trace, and no access the trace recorded for the file was earlier, in absolute time. */
  lemma EarliestOnce(traces: seq<Trace>, g: Group, from: seq<(nat, nat)>, t: nat, k: nat) returns (i: nat)
    requires traces != [] && Ranked(traces, g, from) && t < |traces| && k < |traces[t].items|
      && ByAccess(traces[t].items)
    ensures i < |g.history| == |from| && from[i].0 == t && g.history[i].item.fileName == traces[t].items[k].fileName
    ensures forall j ::
      0 <= j < |from| && from[j].0 == t && g.history[j].item.fileName == traces[t].items[k].fileName ==> j == i
    ensures g.history[i].item.access + Earliest(traces) <= traces[t].items[k].access + traces[t].start
    ensures g.history[i].rank == i && forall j :: 0 <= j < i ==> g.history[j].item.access <= g.history[i].item.access
    ensures g.history[i].sourceImage < |g.images| && g.images[g.history[i].sourceImage] == traces[t].image
    ensures exists m ::
      && 0 <= m <= k && traces[t].items[m].fileName == traces[t].items[k].fileName
      && traces[t].items[m].access + traces[t].start == g.history[i].item.access + Earliest(traces)
      && traces[t].items[m].stack == g.history[i].item.stack && traces[t].items[m].wait == g.history[i].item.wait
  {
    var f := FirstOf(traces[t].items, k);
    assert (t, f) in from;
    i :| 0 <= i < |from| && from[i] == (t, f);
    assert ComesFrom(traces, g.images, g.history[i], from[i]);
    forall j | 0 <= j < |from| && from[j].0 == t && g.history[j].item.fileName == traces[t].items[k].fileName
      ensures j == i
    {
      assert ComesFrom(traces, g.images, g.history[j], from[j]);
      assert (from[j].0, from[j].1) in from;
      SameFirst(traces[t].items, from[j].1, f);
      assert from[j] == from[i];
    }
  }

  lemma {:induction false} FirstOf(items: seq<TraceItem>, k: nat) returns (f: nat)
    requires k < |items|
    ensures f <= k && First(items, f) && items[f].fileName == items[k].fileName
    decreases k
  {
    if First(items, k) {
      f := k;
    } else {
      var j :| 0 <= j < k && items[j].fileName == items[k].fileName;
      f := FirstOf(items, j);
    }
  }

  lemma SameFirst(items: seq<TraceItem>, a: nat, b: nat)
    requires First(items, a) && First(items, b) && items[a].fileName == items[b].fileName
    ensures a == b
  {
  }
}
