/** Crash and restart: a pull is stopped anywhere, and the next start scans what it left on disk. */
module Restart {
  import opened Basics
  import opened Extraction
  import opened PullMachine
  import EarlyStart
  import opened DiskScan

  /** The directory tree holds exactly these files; nobody makes a directory called like the mark. */
  ghost predicate Represents(tree: Disk, files: map<DiskPath, Bytes>) {
    && Closed(tree)
    && (forall p: DiskPath :: p in files <==> p in tree && tree[p].File?)
    && (forall p: DiskPath :: p in files ==> tree[p] == File(files[p]))
    && (forall p: DiskPath :: p + [MARK] in tree ==> tree[p + [MARK]].File?)
  }

  lemma MarkedDirectory(tree: Disk, files: map<DiskPath, Bytes>, h: string)
    requires Represents(tree, files) && Canonical(h)
    ensures Complete(tree, DigestPath(h)) <==> CompletedJson(h) in files
    ensures DigestPath(h) in tree && CompletedJson(h) in files ==> tree[DigestPath(h)] == Dir
  {
    var p := DigestPath(h);
    if CompletedJson(h) in files {
      assert (p + [MARK])[..|p + [MARK]| - 1] == p;
    }
  }

  /** A layer that a pull stopped at any step had not yet marked: it is registered exactly when the mark
      is there. If it is, each content that the bundle places in it and the pull did not skip is on disk
      in full, before and after the scan; if it is not, the scan leaves nothing of its directory, so the
      next pull fetches the layer again. */
  lemma CrashRestart(c: Config, run: seq<State>, i: nat, stack: nat, tree: Disk, after: Disk, layers: set<string>)
    requires ValidConfig(c) && IsRun(c, run) && i < |run| && stack < |c.hashes|
      && CompletedJson(c.hashes[stack]) !in c.disk
    requires Represents(tree, run[i].disk) && ScanResult(tree, {}, after, layers)
    ensures c.hashes[stack] in layers <==> CompletedJson(c.hashes[stack]) in run[i].disk
    ensures c.hashes[stack] in layers ==>
      forall k :: 0 <= k < |c.contents| && c.contents[k].stack == stack && !c.skip[stack] ==>
        ContentSurvives(c, k, after)
    ensures (c.hashes[stack] !in layers
             && (DigestPath(c.hashes[stack]) in tree ==> tree[DigestPath(c.hashes[stack])] == Dir)) ==>
      forall q: DiskPath :: q == DigestPath(c.hashes[stack]) || Below(DigestPath(c.hashes[stack]), q) ==> q !in after
  {
    var h := c.hashes[stack];
    assert Canonical(h);
    MarkedDirectory(tree, run[i].disk, h);
    OnlyCompleteSurvives(tree, after, layers, h);
    if h in layers {
      forall k | 0 <= k < |c.contents| && c.contents[k].stack == stack && !c.skip[stack]
        ensures ContentSurvives(c, k, after)
      {
        EarlyStart.MarkedIsComplete(c, run, i, stack, k);
        CompleteSurvives(tree, {}, after, layers, DigestPath(h));
        hide FullData;
        BelowItsLayer(c, k);
      }
    }
  }

  ghost predicate ContentSurvives(c: Config, k: nat, after: Disk)
    requires ValidConfig(c) && k < |c.contents|
  {
    FullData(c, k).Some? && ContentPath(c, k) in after && after[ContentPath(c, k)] == File(FullData(c, k).value)
  }

  lemma BelowItsLayer(c: Config, k: nat)
    requires ValidConfig(c) && k < |c.contents|
    ensures Below(DigestPath(c.hashes[c.contents[k].stack]), ContentPath(c, k))
  {
  }
}
