/** What a delta is: which requested files need content sent, and how that content is laid out. */
module Delta {
  import opened Toc
  import opened Paths

  /** A requested file. The three references start at zero and are filled in by the builder. */
  datatype RankedFile = RankedFile(
    name: Path,
    digest: string,
    size: nat,
    fsId: int,
    stack: nat,
    rank: real,
    chunks: seq<FileChunk>,
    own: FileChunk,
    referenceFsId: int,
    referenceStack: nat,
    payloadOrder: nat)

  /** A row of GetUniqueFiles. */
  datatype ExistingFile = ExistingFile(digest: string, fsId: int)

  /** `files` are positions in the list of requested files. */
  datatype Content = Content(
    files: seq<nat>,
    rank: real,
    stack: nat,
    offset: nat,
    size: nat,
    chunks: seq<FileChunk>,
    digest: string)

  /** The file has content, and its layer is not already with the client. */
  predicate Eligible(f: RankedFile, available: set<int>) {
    f.digest != "" && f.size != 0 && f.fsId !in available
  }

  /** The eligible files with a digest among the first `n`, in row order. */
  function Group(files: seq<RankedFile>, available: set<int>, d: string, n: nat): seq<nat>
    requires n <= |files|
  {
    if n == 0 then []
    else
      var g := Group(files, available, d, n - 1);
      if Eligible(files[n - 1], available) && files[n - 1].digest == d then g + [n - 1] else g
  }

  lemma {:induction false} GroupMembers(files: seq<RankedFile>, available: set<int>, d: string, n: nat)
    requires n <= |files|
    ensures forall i: nat :: i in Group(files, available, d, n) <==>
      i < n && Eligible(files[i], available) && files[i].digest == d
    ensures forall j, k :: 0 <= j < k < |Group(files, available, d, n)| ==>
      Group(files, available, d, n)[j] < Group(files, available, d, n)[k]
    decreases n
  {
    if n > 0 {
      GroupMembers(files, available, d, n - 1);
      var g, h := Group(files, available, d, n - 1), Group(files, available, d, n);
      forall i: nat ensures i in h <==> i < n && Eligible(files[i], available) && files[i].digest == d {
        assert h == g || h == g + [n - 1];
      }
      assert forall i :: 0 <= i < |g| ==> g[i] in g;
    }
  }

  /** For each digest held by an available layer, the largest serial that holds it. */
  predicate IsBest(existing: seq<ExistingFile>, best: map<string, int>) {
    && (forall i :: 0 <= i < |existing| ==> existing[i].digest in best && existing[i].fsId <= best[existing[i].digest])
    && (forall d :: d in best ==> exists i :: 0 <= i < |existing| && existing[i] == ExistingFile(d, best[d]))
  }

  predicate InRange(g: seq<nat>, n: nat) {
    forall i :: 0 <= i < |g| ==> g[i] < n
  }

  /** `stack` and `rank` are the least of the members', the rank never above `maxRank`. */
  predicate LeastOf(files: seq<RankedFile>, g: seq<nat>, stack: nat, rank: real, maxRank: real)
    requires InRange(g, |files|)
  {
    && (forall i :: 0 <= i < |g| ==> stack <= files[g[i]].stack && rank <= files[g[i]].rank)
    && (exists i :: 0 <= i < |g| && stack == files[g[i]].stack)
    && (rank == maxRank || exists i :: 0 <= i < |g| && rank == files[g[i]].rank)
    && rank <= maxRank
  }

  function FileChunks(f: RankedFile): seq<FileChunk> {
    if f.chunks != [] then f.chunks else [f.own]
  }

  /** A content collects the whole group of one missing digest. */
  ghost predicate Collected(files: seq<RankedFile>, available: set<int>, best: map<string, int>, maxRank: real,
                            c: Content)
  {
    && c.files != [] && InRange(c.files, |files|)
    && var d := files[c.files[0]].digest;
       && d !in best
       && c.files == Group(files, available, d, |files|)
       && LeastOf(files, c.files, c.stack, c.rank, maxRank)
  }

  /** The contents so far: one for each missing digest, in any order. */
  ghost predicate CollectedAll(files: seq<RankedFile>, available: set<int>, best: map<string, int>, maxRank: real,
                               cs: seq<Content>)
  {
    && (forall k :: 0 <= k < |cs| ==> Collected(files, available, best, maxRank, cs[k]))
    && (forall j, k :: 0 <= j < k < |cs| ==> files[cs[j].files[0]].digest != files[cs[k].files[0]].digest)
    && (forall i :: 0 <= i < |files| && Eligible(files[i], available) && files[i].digest !in best ==>
          exists k :: 0 <= k < |cs| && files[cs[k].files[0]].digest == files[i].digest)
  }

  predicate RankOrdered(cs: seq<Content>) {
    forall j, k :: 0 <= j < k < |cs| ==> cs[j].rank <= cs[k].rank
  }

  /** Contents come in the order of need: for whatever file of a later content, an earlier content has a file
      that ranks no later, unless the rank is none at all. */
  lemma EarlierNeeded(files: seq<RankedFile>, available: set<int>, best: map<string, int>, maxRank: real,
                      cs: seq<Content>, j: nat, k: nat, f: nat)
    requires CollectedAll(files, available, best, maxRank, cs) && RankOrdered(cs) && j < k < |cs|
    requires f in cs[k].files && f < |files|
    ensures files[f].rank >= maxRank || exists g :: g in cs[j].files && g < |files| && files[g].rank <= files[f].rank
  {
    hide Group, Eligible;
    assert Collected(files, available, best, maxRank, cs[j]) && Collected(files, available, best, maxRank, cs[k]);
    if cs[j].rank != maxRank {
      var i :| 0 <= i < |cs[j].files| && cs[j].rank == files[cs[j].files[i]].rank;
      assert cs[j].files[i] in cs[j].files;
    }
  }

  /** Body offset at which content `k` begins. */
  function OffsetOf(cs: seq<Content>, k: nat): nat
    requires k <= |cs|
  {
    if k == 0 then 0 else OffsetOf(cs, k - 1) + cs[k - 1].size
  }

  /** A laid-out content copies the chunks of its first file and starts where the one before it ends. */
  ghost predicate LaidOut(files: seq<RankedFile>, cs: seq<Content>, k: nat)
    requires k < |cs|
  {
    && cs[k].files != [] && cs[k].files[0] < |files|
    && cs[k].digest == files[cs[k].files[0]].digest
    && cs[k].chunks == FileChunks(files[cs[k].files[0]])
    && cs[k].size == Compressed(cs[k].chunks)
    && cs[k].offset == OffsetOf(cs, k)
  }

  function Unreferenced(f: RankedFile): RankedFile {
    f.(referenceFsId := 0, referenceStack := 0, payloadOrder := 0)
  }

  /** What becomes of one requested file: nothing, a reference to an available layer, or a place in the
      content of its digest. */
  ghost predicate FileOk(before: RankedFile, after: RankedFile, available: set<int>, best: map<string, int>,
                         cs: seq<Content>)
  {
    if !Eligible(before, available) then after == before
    else if before.digest in best then after == before.(referenceFsId := best[before.digest])
    else exists k :: 0 <= k < |cs| && cs[k].digest == before.digest
                     && after == before.(referenceStack := cs[k].stack, payloadOrder := k)
  }

  /** The delta computed for `before`: contents partition the missing digests, tile the body, and every
      file knows where its content is. */
  ghost predicate DeltaOk(before: seq<RankedFile>, available: set<int>, best: map<string, int>, maxRank: real,
                          after: seq<RankedFile>, cs: seq<Content>, bodyLength: nat) {
    && CollectedAll(before, available, best, maxRank, cs)
    && (forall k :: 0 <= k < |cs| ==> LaidOut(before, cs, k))
    && bodyLength == OffsetOf(cs, |cs|)
    && |after| == |before|
    && (forall i :: 0 <= i < |before| ==> FileOk(before[i], after[i], available, best, cs))
  }

  /** Digests of contents are pairwise distinct, and none is held by an available layer. */
  lemma DistinctDigests(before: seq<RankedFile>, available: set<int>, best: map<string, int>, maxRank: real,
                        after: seq<RankedFile>, cs: seq<Content>, bodyLength: nat, j: nat, k: nat)
    requires DeltaOk(before, available, best, maxRank, after, cs, bodyLength) && j < |cs| && k < |cs|
    ensures cs[j].digest !in best
    ensures j != k ==> cs[j].digest != cs[k].digest
  {
    assert LaidOut(before, cs, j) && LaidOut(before, cs, k);
    assert Collected(before, available, best, maxRank, cs[j]);
    if k < j {
      assert before[cs[k].files[0]].digest != before[cs[j].files[0]].digest;
    }
  }

  /** The four fates of a requested file. */
  datatype Fate = Empty | InAvailable | Refers(serial: int) | InPayload(order: nat)

  function FateOf(f: RankedFile, available: set<int>, best: map<string, int>, after: RankedFile): Fate {
    if f.digest == "" || f.size == 0 then Empty
    else if f.fsId in available then InAvailable
    else if f.digest in best then Refers(after.referenceFsId)
    else InPayload(after.payloadOrder)
  }

  /** Each requested file has one fate, and its record agrees with it: a reference names an available
      layer that holds the digest; a payload file is a member of the content of its order, which has
      its digest, and of no other content. */
  lemma Partition(before: seq<RankedFile>, available: set<int>, best: map<string, int>, existing: seq<ExistingFile>,
                  maxRank: real,
                  after: seq<RankedFile>, cs: seq<Content>, bodyLength: nat, i: nat)
    requires DeltaOk(before, available, best, maxRank, after, cs, bodyLength)
    requires IsBest(existing, best) && (forall e :: e in existing ==> e.fsId in available)
    requires i < |before| && Unreferenced(before[i]) == before[i]
    ensures match FateOf(before[i], available, best, after[i])
            case Empty => after[i] == before[i] && forall k :: 0 <= k < |cs| ==> i !in cs[k].files
            case InAvailable => after[i] == before[i] && forall k :: 0 <= k < |cs| ==> i !in cs[k].files
            case Refers(serial) =>
              && serial in available && ExistingFile(before[i].digest, serial) in existing
              && after[i].referenceFsId == serial && after[i].referenceStack == 0 && after[i].payloadOrder == 0
              && forall k :: 0 <= k < |cs| ==> i !in cs[k].files
            case InPayload(order) =>
              && order < |cs| && i in cs[order].files && cs[order].digest == before[i].digest
              && after[i].referenceFsId == 0 && after[i].referenceStack == cs[order].stack
                 && after[i].payloadOrder == order
              && forall k :: 0 <= k < |cs| && k != order ==> i !in cs[k].files
  {
    assert FileOk(before[i], after[i], available, best, cs);
    hide LeastOf;
    forall k | 0 <= k < |cs|
      ensures i in cs[k].files <==> Eligible(before[i], available) && before[i].digest == cs[k].digest
      ensures cs[k].digest !in best
    {
      assert LaidOut(before, cs, k) && Collected(before, available, best, maxRank, cs[k]);
      GroupMembers(before, available, cs[k].digest, |before|);
    }
    if Eligible(before[i], available) && before[i].digest !in best {
      var order := after[i].payloadOrder;
      forall k | 0 <= k < |cs| && k != order ensures cs[k].digest != cs[order].digest {
        DistinctDigests(before, available, best, maxRank, after, cs, bodyLength, k, order);
      }
    }
  }

  /** When rows come in stack order, a content's stack is that of its first file, whose chunks it copies. */
  lemma StackOfFirst(before: seq<RankedFile>, available: set<int>, best: map<string, int>, maxRank: real, c: Content)
    requires Collected(before, available, best, maxRank, c)
    requires forall i, j :: 0 <= i < j < |before| ==> before[i].stack <= before[j].stack
    ensures c.stack == before[c.files[0]].stack
    ensures Eligible(before[c.files[0]], available)
  {
    GroupMembers(before, available, before[c.files[0]].digest, |before|);
    var i :| 0 <= i < |c.files| && c.stack == before[c.files[i]].stack;
    if i > 0 {
      assert c.files[0] < c.files[i];
    }
    assert c.files[0] in c.files;
  }
}
