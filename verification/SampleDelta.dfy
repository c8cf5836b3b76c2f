/** Every input has a delta: for rows in stack order, whatever is available and whatever the best serials
    are, contents and references exist that make one. */
module SampleDelta {
  import opened Toc
  import opened Delta

  /** The first eligible row with a digest that has to be sent. */
  predicate IsFirst(rows: seq<RankedFile>, available: set<int>, best: map<string, int>, i: nat)
    requires i < |rows|
  {
    && Eligible(rows[i], available) && rows[i].digest !in best
    && forall j :: 0 <= j < i && Eligible(rows[j], available) ==> rows[j].digest != rows[i].digest
  }

  function Firsts(rows: seq<RankedFile>, available: set<int>, best: map<string, int>, n: nat): seq<nat>
    requires n <= |rows|
  {
    if n == 0 then []
    else Firsts(rows, available, best, n - 1) + if IsFirst(rows, available, best, n - 1) then [n - 1] else []
  }

  lemma {:induction false} FirstsAre(rows: seq<RankedFile>, available: set<int>, best: map<string, int>, n: nat)
    requires n <= |rows|
    ensures forall i: nat :: i in Firsts(rows, available, best, n) <==> i < n && IsFirst(rows, available, best, i)
    ensures forall j, k :: 0 <= j < k < |Firsts(rows, available, best, n)| ==>
      Firsts(rows, available, best, n)[j] < Firsts(rows, available, best, n)[k]
    decreases n
  {
    hide IsFirst;
    if n > 0 {
      FirstsAre(rows, available, best, n - 1);
      var f := Firsts(rows, available, best, n - 1);
      assert forall i :: 0 <= i < |f| ==> f[i] in f;
    }
  }

  /** Every digest that has to be sent has a first row. */
  lemma {:induction false} HasFirst(rows: seq<RankedFile>, available: set<int>, best: map<string, int>, i: nat)
    returns (j: nat)
    requires i < |rows| && Eligible(rows[i], available) && rows[i].digest !in best
    ensures j <= i && IsFirst(rows, available, best, j) && rows[j].digest == rows[i].digest
    decreases i
  {
    if IsFirst(rows, available, best, i) {
      j := i;
    } else {
      var k :| 0 <= k < i && Eligible(rows[k], available) && rows[k].digest == rows[i].digest;
      j := HasFirst(rows, available, best, k);
    }
  }

  function LeastRank(rows: seq<RankedFile>, g: seq<nat>, maxRank: real): real
    requires InRange(g, |rows|)
  {
    if g == [] then maxRank
    else
      var r := LeastRank(rows, g[1..], maxRank);
      if rows[g[0]].rank < r then rows[g[0]].rank else r
  }

  lemma {:induction false} LeastRankIs(rows: seq<RankedFile>, g: seq<nat>, maxRank: real)
    requires InRange(g, |rows|)
    ensures var r := LeastRank(rows, g, maxRank);
            && r <= maxRank && (forall i :: 0 <= i < |g| ==> r <= rows[g[i]].rank)
            && (r == maxRank || exists i :: 0 <= i < |g| && r == rows[g[i]].rank)
    decreases |g|
  {
    if g != [] {
      LeastRankIs(rows, g[1..], maxRank);
      var r := LeastRank(rows, g[1..], maxRank);
      if r != maxRank {
        var i :| 0 <= i < |g[1..]| && r == rows[g[1..][i]].rank;
        assert r == rows[g[i + 1]].rank;
      }
    }
  }

  /** The content collected from row `i`. */
  function ContentFrom(rows: seq<RankedFile>, available: set<int>, maxRank: real, i: nat, offset: nat): Content
    requires i < |rows|
  {
    var g := Group(rows, available, rows[i].digest, |rows|);
    GroupMembers(rows, available, rows[i].digest, |rows|);
    assert InRange(g, |rows|) by {
      assert forall j :: 0 <= j < |g| ==> g[j] in g;
    }
    Content(g, LeastRank(rows, g, maxRank), rows[i].stack, offset,
            Compressed(FileChunks(rows[i])), FileChunks(rows[i]), rows[i].digest)
  }

  /** One content for each of the rows `from`, one after the other in the body. */
  function Contents(rows: seq<RankedFile>, available: set<int>, maxRank: real, from: seq<nat>): (cs: seq<Content>)
    requires InRange(from, |rows|)
    ensures |cs| == |from|
  {
    if from == [] then []
    else
      var n := |from| - 1;
      var cs := Contents(rows, available, maxRank, from[..n]);
      cs + [ContentFrom(rows, available, maxRank, from[n], OffsetOf(cs, n))]
  }

  lemma {:induction false} OffsetPrefix(cs: seq<Content>, c: Content, k: nat)
    requires k <= |cs|
    ensures OffsetOf(cs + [c], k) == OffsetOf(cs, k)
    decreases k
  {
    if k > 0 {
      OffsetPrefix(cs, c, k - 1);
    }
  }

  lemma {:induction false} ContentsAre(rows: seq<RankedFile>, available: set<int>, maxRank: real, from: seq<nat>,
                                       k: nat)
    requires InRange(from, |rows|) && k < |from|
    ensures var cs := Contents(rows, available, maxRank, from);
            cs[k] == ContentFrom(rows, available, maxRank, from[k], OffsetOf(cs, k))
    decreases |from|
  {
    hide ContentFrom;
    var n := |from| - 1;
    var before := Contents(rows, available, maxRank, from[..n]);
    OffsetPrefix(before, ContentFrom(rows, available, maxRank, from[n], OffsetOf(before, n)), k);
    if k < n {
      ContentsAre(rows, available, maxRank, from[..n], k);
    }
  }

  predicate InStackOrder(rows: seq<RankedFile>) {
    forall i, j :: 0 <= i < j < |rows| ==> rows[i].stack <= rows[j].stack
  }

  /** The content from a first row collects its whole group. */
  lemma CollectedFrom(rows: seq<RankedFile>, available: set<int>, best: map<string, int>, maxRank: real, i: nat,
                      offset: nat)
    requires i < |rows| && IsFirst(rows, available, best, i) && InStackOrder(rows)
    ensures ContentFrom(rows, available, maxRank, i, offset).files != []
    ensures ContentFrom(rows, available, maxRank, i, offset).files[0] == i
    ensures Collected(rows, available, best, maxRank, ContentFrom(rows, available, maxRank, i, offset))
  {
    var g := Group(rows, available, rows[i].digest, |rows|);
    GroupMembers(rows, available, rows[i].digest, |rows|);
    hide Group;
    assert i in g;
    assert forall j :: 0 <= j < |g| ==> g[j] in g;
    assert g[0] == i;
    LeastRankIs(rows, g, maxRank);
    hide LeastRank;
    assert rows[i].stack == rows[g[0]].stack;
  }

  /** What becomes of row `i`. */
  ghost function Fated(rows: seq<RankedFile>, available: set<int>, best: map<string, int>, cs: seq<Content>,
                       i: nat): RankedFile
    requires i < |rows|
    requires Eligible(rows[i], available) && rows[i].digest !in best ==>
      exists k: nat :: k < |cs| && cs[k].digest == rows[i].digest
  {
    if !Eligible(rows[i], available) then rows[i]
    else if rows[i].digest in best then rows[i].(referenceFsId := best[rows[i].digest])
    else
      var k: nat :| k < |cs| && cs[k].digest == rows[i].digest;
      rows[i].(referenceStack := cs[k].stack, payloadOrder := k)
  }

  function ContentsOf(rows: seq<RankedFile>, available: set<int>, best: map<string, int>, maxRank: real): seq<Content> {
    var from := Firsts(rows, available, best, |rows|);
    FirstsAre(rows, available, best, |rows|);
    assert InRange(from, |rows|) by {
      assert forall j :: 0 <= j < |from| ==> from[j] in from;
    }
    Contents(rows, available, maxRank, from)
  }

  /** Content `k` comes from first row `k`. */
  lemma ContentOfFirst(rows: seq<RankedFile>, available: set<int>, best: map<string, int>, maxRank: real, k: nat)
    requires InStackOrder(rows) && k < |ContentsOf(rows, available, best, maxRank)|
    ensures var from := Firsts(rows, available, best, |rows|);
            var cs := ContentsOf(rows, available, best, maxRank);
            && |from| == |cs| && from[k] < |rows| && IsFirst(rows, available, best, from[k])
            && Collected(rows, available, best, maxRank, cs[k]) && LaidOut(rows, cs, k)
            && cs[k].files[0] == from[k] && cs[k].digest == rows[from[k]].digest
  {
    var from := Firsts(rows, available, best, |rows|);
    var cs := ContentsOf(rows, available, best, maxRank);
    FirstsAre(rows, available, best, |rows|);
    hide Firsts, Contents, Group, LeastRank, Eligible, IsFirst;
    assert forall j :: 0 <= j < |from| ==> from[j] in from;
    ContentsAre(rows, available, maxRank, from, k);
    CollectedFrom(rows, available, best, maxRank, from[k], OffsetOf(cs, k));
    hide Collected;
  }

  lemma ContentFor(rows: seq<RankedFile>, available: set<int>, best: map<string, int>, maxRank: real, i: nat)
    returns (k: nat)
    requires InStackOrder(rows) && i < |rows| && Eligible(rows[i], available) && rows[i].digest !in best
    ensures k < |ContentsOf(rows, available, best, maxRank)|
    ensures ContentsOf(rows, available, best, maxRank)[k].digest == rows[i].digest
  {
    var from := Firsts(rows, available, best, |rows|);
    FirstsAre(rows, available, best, |rows|);
    hide Eligible, IsFirst, InStackOrder, Collected, LaidOut;
    var j := HasFirst(rows, available, best, i);
    k :| 0 <= k < |from| && from[k] == j;
    ContentOfFirst(rows, available, best, maxRank, k);
  }

  lemma DistinctFirsts(rows: seq<RankedFile>, available: set<int>, best: map<string, int>, maxRank: real, j: nat,
                       k: nat)
    requires InStackOrder(rows) && j < k < |ContentsOf(rows, available, best, maxRank)|
    ensures var cs := ContentsOf(rows, available, best, maxRank);
            cs[j].files != [] && cs[k].files != [] && cs[j].files[0] < |rows| && cs[k].files[0] < |rows|
            && rows[cs[j].files[0]].digest != rows[cs[k].files[0]].digest
  {
    FirstsAre(rows, available, best, |rows|);
    hide Collected, Firsts, ContentsOf, Eligible, InStackOrder, OffsetOf, FileChunks;
    ContentOfFirst(rows, available, best, maxRank, j);
    ContentOfFirst(rows, available, best, maxRank, k);
  }

  /** The contents are one for each missing digest, and laid out. */
  lemma ContentsOfAre(rows: seq<RankedFile>, available: set<int>, best: map<string, int>, maxRank: real)
    requires InStackOrder(rows)
    ensures var cs := ContentsOf(rows, available, best, maxRank);
            && CollectedAll(rows, available, best, maxRank, cs)
            && (forall k :: 0 <= k < |cs| ==> LaidOut(rows, cs, k))
            && (forall i: nat :: i < |rows| && Eligible(rows[i], available) && rows[i].digest !in best ==>
                  exists k: nat :: k < |cs| && cs[k].digest == rows[i].digest)
  {
    hide ContentsOf, Collected, LaidOut, Eligible, InStackOrder, Firsts, IsFirst;
    var cs := ContentsOf(rows, available, best, maxRank);
    forall k: nat | k < |cs|
      ensures Collected(rows, available, best, maxRank, cs[k]) && LaidOut(rows, cs, k)
      ensures cs[k].files != [] && cs[k].files[0] < |rows| && cs[k].digest == rows[cs[k].files[0]].digest
    {
      ContentOfFirst(rows, available, best, maxRank, k);
      HeadInRange(rows, available, best, maxRank, cs[k]);
    }
    forall j: nat, k: nat | j < k < |cs| ensures rows[cs[j].files[0]].digest != rows[cs[k].files[0]].digest {
      DistinctFirsts(rows, available, best, maxRank, j, k);
    }
    forall i: nat | i < |rows| && Eligible(rows[i], available) && rows[i].digest !in best
      ensures exists k: nat :: k < |cs| && cs[k].digest == rows[i].digest
      ensures exists k: nat :: k < |cs| && rows[cs[k].files[0]].digest == rows[i].digest
    {
      var k := ContentFor(rows, available, best, maxRank, i);
      assert rows[cs[k].files[0]].digest == rows[i].digest;
    }
  }

  lemma HeadInRange(rows: seq<RankedFile>, available: set<int>, best: map<string, int>, maxRank: real, c: Content)
    requires Collected(rows, available, best, maxRank, c)
    ensures c.files != [] && c.files[0] < |rows|
  {
    hide LeastOf, Group;
  }

  /** Every input has a delta. */
  lemma DeltaExists(rows: seq<RankedFile>, available: set<int>, best: map<string, int>, maxRank: real)
    returns (after: seq<RankedFile>)
    requires InStackOrder(rows)
    ensures var cs := ContentsOf(rows, available, best, maxRank);
            DeltaOk(rows, available, best, maxRank, after, cs, OffsetOf(cs, |cs|))
  {
    ContentsOfAre(rows, available, best, maxRank);
    var cs := ContentsOf(rows, available, best, maxRank);
    hide CollectedAll, LaidOut, ContentsOf, OffsetOf, Eligible;
    after := seq(|rows|, i requires 0 <= i < |rows| => Fated(rows, available, best, cs, i));
  }
}
