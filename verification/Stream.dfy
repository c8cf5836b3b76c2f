/** The body as a stream: where each content begins, and what extracting the whole of it does. */
module Stream {
  import opened Basics
  import opened Gzip
  import opened Toc
  import opened Delta
  import opened Builder
  import opened Extraction
  import opened Decoding

  /** Each content's chunks tile its data in the layer they are copied from, and its size adds them up. */
  ghost predicate Sound(z: Codec, dst: seq<ImageLayer>, cs: seq<Content>, datas: seq<Bytes>) {
    && |datas| == |cs|
    && (forall k :: 0 <= k < |cs| ==> SoundContent(z, dst, cs[k], datas[k]))
  }

  ghost predicate SoundContent(z: Codec, dst: seq<ImageLayer>, c: Content, data: Bytes) {
    && c.stack < |dst| && dst[c.stack].blob.Some? && c.chunks != [] && c.size == Compressed(c.chunks)
    && Tiles(z, dst[c.stack].blob.value, data, c.chunks, |data|)
  }

  function WireOf(c: Content): Wire {
    Wire(c.stack, c.offset, c.size, c.chunks, c.digest)
  }

  function Wires(cs: seq<Content>): (r: seq<Wire>)
    ensures |r| == |cs| && forall k :: 0 <= k < |cs| ==> r[k] == WireOf(cs[k])
  {
    seq(|cs|, k requires 0 <= k < |cs| => WireOf(cs[k]))
  }

  lemma SoundBytes(z: Codec, dst: seq<ImageLayer>, c: Content, data: Bytes, t: Bytes)
    requires Lawful(z) && SoundContent(z, dst, c, data)
    ensures |ContentBytes(dst, c)| == c.size
    ensures DecodeChunks(z, ContentBytes(dst, c) + t, c.chunks) == Some(data)
  {
    ContentRoundTrip(z, dst[c.stack].blob.value, data, c.chunks, t);
  }

  /** What remains of the body at content `k`. */
  function BodyFrom(dst: seq<ImageLayer>, cs: seq<Content>, k: nat): Bytes
    requires k <= |cs|
  {
    Flatten(BodyParts(dst, cs)[k..])
  }

  lemma BodyCons(z: Codec, dst: seq<ImageLayer>, cs: seq<Content>, datas: seq<Bytes>, k: nat, t: Bytes)
    requires Lawful(z) && Sound(z, dst, cs, datas) && k < |cs|
    ensures BodyFrom(dst, cs, k) == ContentBytes(dst, cs[k]) + BodyFrom(dst, cs, k + 1)
    ensures |ContentBytes(dst, cs[k])| == cs[k].size == Compressed(cs[k].chunks)
    ensures (BodyFrom(dst, cs, k) + t)[cs[k].size..] == BodyFrom(dst, cs, k + 1) + t
  {
    hide Tiles;
    assert SoundContent(z, dst, cs[k], datas[k]);
    SoundBytes(z, dst, cs[k], datas[k], []);
    hide SoundContent, ContentBytes;
    var parts := BodyParts(dst, cs);
    assert parts[k..][1..] == parts[k + 1..];
    assert BodyFrom(dst, cs, k) + t == ContentBytes(dst, cs[k]) + (BodyFrom(dst, cs, k + 1) + t);
  }

  /** Content `k` begins at the offset written in it. */
  lemma {:induction false} OffsetInBody(z: Codec, dst: seq<ImageLayer>, cs: seq<Content>, datas: seq<Bytes>, k: nat)
    requires Lawful(z) && Sound(z, dst, cs, datas) && k <= |cs|
    ensures OffsetOf(cs, k) <= |Body(dst, cs)| && Body(dst, cs)[OffsetOf(cs, k)..] == BodyFrom(dst, cs, k)
    decreases k
  {
    hide Sound, BodyFrom, Flatten;
    if k == 0 {
      WholeBody(dst, cs);
    } else {
      OffsetInBody(z, dst, cs, datas, k - 1);
      BodyCons(z, dst, cs, datas, k - 1, []);
      var at := OffsetOf(cs, k - 1);
      assert Body(dst, cs)[at..] == ContentBytes(dst, cs[k - 1]) + BodyFrom(dst, cs, k);
      assert Body(dst, cs)[at + cs[k - 1].size..] == Body(dst, cs)[at..][cs[k - 1].size..];
    }
  }

  lemma WholeBody(dst: seq<ImageLayer>, cs: seq<Content>)
    ensures BodyFrom(dst, cs, 0) == Body(dst, cs) && BodyFrom(dst, cs, |cs|) == []
  {
    assert BodyParts(dst, cs)[0..] == BodyParts(dst, cs);
    assert BodyParts(dst, cs)[|cs|..] == [];
  }

  /** The disk after the first `k` contents: each one not skipped has been written where it belongs. */
  function DiskAfter(hashes: seq<string>, skip: seq<bool>, ws: seq<Wire>, datas: seq<Bytes>, k: nat,
                     disk: map<DiskPath, Bytes>): map<DiskPath, Bytes>
    requires WellAddressed(hashes, ws) && |skip| == |hashes| && |datas| == |ws| && k <= |ws|
  {
    if k == 0 then disk
    else
      var d := DiskAfter(hashes, skip, ws, datas, k - 1, disk);
      if skip[ws[k - 1].stack] then d else d[FileAt(hashes[ws[k - 1].stack], ws[k - 1].digest) := datas[k - 1]]
  }

  lemma {:induction false} ReachesContent(z: Codec, dst: seq<ImageLayer>, hashes: seq<string>, skip: seq<bool>,
                                          cs: seq<Content>, datas: seq<Bytes>,
                                          k: nat, t: Bytes, disk: map<DiskPath, Bytes>)
    requires Lawful(z) && Sound(z, dst, cs, datas) && WellAddressed(hashes, Wires(cs)) && |skip| == |hashes|
      && k <= |cs|
    ensures ExtractFrom(z, hashes, skip, Wires(cs), 0, BodyFrom(dst, cs, 0) + t, disk)
         == ExtractFrom(z, hashes, skip, Wires(cs), k, BodyFrom(dst, cs, k) + t,
               DiskAfter(hashes, skip, Wires(cs), datas, k, disk))
    decreases k
  {
    hide BodyFrom, ExtractFrom, SoundContent, Lawful;
    if k > 0 {
      ReachesContent(z, dst, hashes, skip, cs, datas, k - 1, t, disk);
      BodyCons(z, dst, cs, datas, k - 1, t);
      assert SoundContent(z, dst, cs[k - 1], datas[k - 1]);
      hide Sound, ContentBytes;
      var part, rest := ContentBytes(dst, cs[k - 1]), BodyFrom(dst, cs, k) + t;
      SoundBytes(z, dst, cs[k - 1], datas[k - 1], rest);
      OneContent(z, hashes, skip, Wires(cs), k - 1, part, rest, datas[k - 1],
            DiskAfter(hashes, skip, Wires(cs), datas, k - 1, disk));
      assert BodyFrom(dst, cs, k - 1) + t == part + rest;
    }
  }

  /** Whatever layers are skipped, extraction reaches content `k` exactly at its offset in the body. */
  lemma Reaches(z: Codec, dst: seq<ImageLayer>, hashes: seq<string>, skip: seq<bool>, cs: seq<Content>,
                datas: seq<Bytes>,
                k: nat, t: Bytes, disk: map<DiskPath, Bytes>)
    requires Lawful(z) && Sound(z, dst, cs, datas) && WellAddressed(hashes, Wires(cs)) && |skip| == |hashes|
      && k <= |cs|
    ensures OffsetOf(cs, k) <= |Body(dst, cs)|
    ensures ExtractFrom(z, hashes, skip, Wires(cs), 0, Body(dst, cs) + t, disk)
         == ExtractFrom(z, hashes, skip, Wires(cs), k, Body(dst, cs)[OffsetOf(cs, k)..] + t,
               DiskAfter(hashes, skip, Wires(cs), datas, k, disk))
  {
    hide Body, BodyFrom, Sound, ExtractFrom, DiskAfter, OffsetOf, Lawful;
    WholeBody(dst, cs);
    OffsetInBody(z, dst, cs, datas, k);
    ReachesContent(z, dst, hashes, skip, cs, datas, k, t, disk);
  }

  lemma OneContent(z: Codec, hashes: seq<string>, skip: seq<bool>, ws: seq<Wire>, k: nat, part: Bytes, t: Bytes,
                   data: Bytes, disk: map<DiskPath, Bytes>)
    requires WellAddressed(hashes, ws) && |skip| == |hashes| && k < |ws|
    requires |part| == Compressed(ws[k].chunks) && DecodeChunks(z, part + t, ws[k].chunks) == Some(data)
    ensures ExtractFrom(z, hashes, skip, ws, k, part + t, disk) == ExtractFrom(z, hashes, skip, ws, k + 1, t,
              if skip[ws[k].stack] then disk else disk[FileAt(hashes[ws[k].stack], ws[k].digest) := data])
  {
    assert (part + t)[|part|..] == t;
    hide DecodeChunks, Compressed;
  }

  predicate DistinctFiles(ws: seq<Wire>) {
    forall j, k :: 0 <= j < k < |ws| ==> ws[j].digest != ws[k].digest
  }

  /** A content is on disk where its wire form says, as `data`. */
  predicate OnDisk(hashes: seq<string>, w: Wire, disk: map<DiskPath, Bytes>, data: Bytes) {
    && w.stack < |hashes| && |hashes[w.stack]| >= 12 && |w.digest| >= 12
    && var p := FileAt(hashes[w.stack], w.digest);
       p in disk && disk[p] == data
  }

  /** Each content not skipped is on disk as its data, and stays as written. */
  lemma {:induction false} WrittenOnce(hashes: seq<string>, skip: seq<bool>, ws: seq<Wire>, datas: seq<Bytes>, n: nat,
                                       k: nat, disk: map<DiskPath, Bytes>)
    requires WellAddressed(hashes, ws) && |skip| == |hashes| && |datas| == |ws| && k < n <= |ws|
    requires DistinctFiles(ws) && !skip[ws[k].stack]
    ensures OnDisk(hashes, ws[k], DiskAfter(hashes, skip, ws, datas, n, disk), datas[k])
    decreases n
  {
    hide FileAt;
    if n - 1 > k {
      WrittenOnce(hashes, skip, ws, datas, n - 1, k, disk);
      if FileAt(hashes[ws[k].stack], ws[k].digest) == FileAt(hashes[ws[n - 1].stack], ws[n - 1].digest) {
        FileAtInjective(hashes[ws[k].stack], ws[k].digest, hashes[ws[n - 1].stack], ws[n - 1].digest);
      }
    }
  }

  /** A whole run succeeds, consumes exactly the body, and leaves the disk that `DiskAfter` describes. */
  lemma ExtractsBody(z: Codec, dst: seq<ImageLayer>, hashes: seq<string>, skip: seq<bool>, cs: seq<Content>,
                     datas: seq<Bytes>,
                     t: Bytes, disk: map<DiskPath, Bytes>)
    requires Lawful(z) && Sound(z, dst, cs, datas) && WellAddressed(hashes, Wires(cs)) && |skip| == |hashes|
    ensures |Body(dst, cs)| == OffsetOf(cs, |cs|)
    ensures ExtractFrom(z, hashes, skip, Wires(cs), 0, Body(dst, cs) + t, disk)
         == Some(Extracted(DiskAfter(hashes, skip, Wires(cs), datas, |cs|, disk), t))
  {
    hide Body, BodyFrom, Sound, DiskAfter, OffsetOf, Lawful, Wires;
    WholeBody(dst, cs);
    OffsetInBody(z, dst, cs, datas, |cs|);
    ReachesContent(z, dst, hashes, skip, cs, datas, |cs|, t, disk);
    assert [] + t == t;
  }
}
