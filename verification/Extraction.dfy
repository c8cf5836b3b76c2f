/** Extracting a delta bundle: the client reads the body content by content and writes files. */
module Extraction {
  import opened Basics
  import opened Gzip
  import opened Toc

  type DiskPath = seq<string>

  /** What a content says on the wire. */
  datatype Wire = Wire(stack: nat, offset: nat, size: nat, chunks: seq<FileChunk>, digest: string)

  /** A digest as the registry writes it: "sha256:" and 64 more characters. */
  predicate Canonical(d: string) {
    |d| == 71 && d[..7] == "sha256:"
  }

  /** The four-part path a digest is stored under, used for layers and for contents. */
  function DigestPath(d: string): DiskPath
    requires |d| >= 12
  {
    [d[7..8], d[8..10], d[10..12], d[12..]]
  }

  lemma DigestPathInjective(d: string, e: string)
    requires Canonical(d) && Canonical(e) && DigestPath(d) == DigestPath(e)
    ensures d == e
  {
    assert d == d[..7] + DigestPath(d)[0] + DigestPath(d)[1] + DigestPath(d)[2] + DigestPath(d)[3];
    assert e == e[..7] + DigestPath(e)[0] + DigestPath(e)[1] + DigestPath(e)[2] + DigestPath(e)[3];
  }

  /** Where a content goes: under its layer's directory. */
  function FileAt(layerHash: string, digest: string): DiskPath
    requires |layerHash| >= 12 && |digest| >= 12
  {
    DigestPath(layerHash) + DigestPath(digest)
  }

  lemma FileAtInjective(l: string, d: string, m: string, e: string)
    requires Canonical(l) && Canonical(d) && Canonical(m) && Canonical(e) && FileAt(l, d) == FileAt(m, e)
    ensures l == m && d == e
  {
    assert DigestPath(l) == FileAt(l, d)[..4] && DigestPath(m) == FileAt(m, e)[..4];
    assert DigestPath(d) == FileAt(l, d)[4..] && DigestPath(e) == FileAt(m, e)[4..];
    DigestPathInjective(l, m);
    DigestPathInjective(d, e);
  }

  /** One chunk off the stream: its bytes are one gzip stream, of which ChunkSize bytes are wanted. */
  function DecodeChunk(z: Codec, s: Bytes, c: FileChunk): Option<Bytes> {
    if |s| < c.compressedSize || z.inflate(s[..c.compressedSize]).None? then None
    else ReadStream(z, s[..c.compressedSize], if c.chunkSize < 0 then 0 else c.chunkSize)
  }

  /** The content that the chunks `cs` at the front of the stream decode to. */
  function DecodeChunks(z: Codec, s: Bytes, cs: seq<FileChunk>): Option<Bytes>
    decreases |cs|
  {
    if cs == [] then Some([])
    else match DecodeChunk(z, s, cs[0])
      case None => None
      case Some(b) =>
        match DecodeChunks(z, s[cs[0].compressedSize..], cs[1..])
        case None => None
        case Some(rest) => Some(b + rest)
  }

  datatype Extracted = Extracted(disk: map<DiskPath, Bytes>, rest: Bytes)

  predicate WellAddressed(hashes: seq<string>, cs: seq<Wire>) {
    && (forall i :: 0 <= i < |hashes| ==> Canonical(hashes[i]))
    && (forall k :: 0 <= k < |cs| ==> cs[k].stack < |hashes| && Canonical(cs[k].digest))
  }

  /** Extract from content `k` on: contents of skipped stacks are discarded, the others written. None
      when the stream ends early or a chunk does not decode. */
  function ExtractFrom(z: Codec, hashes: seq<string>, skip: seq<bool>, cs: seq<Wire>, k: nat, s: Bytes,
                       disk: map<DiskPath, Bytes>): Option<Extracted>
    requires WellAddressed(hashes, cs) && |skip| == |hashes| && k <= |cs|
    decreases |cs| - k
  {
    if k == |cs| then Some(Extracted(disk, s))
    else
      var c := cs[k];
      var n := Compressed(c.chunks);
      if |s| < n then None
      else if skip[c.stack] then ExtractFrom(z, hashes, skip, cs, k + 1, s[n..], disk)
      else match DecodeChunks(z, s, c.chunks)
        case None => None
        case Some(data) => ExtractFrom(z, hashes, skip, cs, k + 1, s[n..],
              disk[FileAt(hashes[c.stack], c.digest) := data])
  }

  lemma {:induction false} DecodeNeedsBytes(z: Codec, s: Bytes, cs: seq<FileChunk>)
    ensures DecodeChunks(z, s, cs).Some? ==> Compressed(cs) <= |s|
    decreases |cs|
  {
    if cs != [] && DecodeChunk(z, s, cs[0]).Some? {
      DecodeNeedsBytes(z, s[cs[0].compressedSize..], cs[1..]);
    }
  }

  /** The client side of a bundle being extracted. */
  class Manager {
    const z: Codec
    const hashes: seq<string>     // Destination.Layers, by stack
    const contents: seq<Wire>
    var completed: seq<bool>      // completedStack
    var signals: seq<bool>        // whether each content's signal has been closed
    var disk: map<DiskPath, Bytes>
    var stream: Bytes             // what is left of the response body

    constructor (z: Codec, hashes: seq<string>, contents: seq<Wire>, completed: seq<bool>, disk: map<DiskPath, Bytes>,
                 stream: Bytes)
      ensures this.z == z && this.hashes == hashes && this.contents == contents && this.completed == completed
      ensures this.disk == disk && this.stream == stream && signals == seq(|contents|, _ => false)
    {
      this.z, this.hashes, this.contents, this.completed := z, hashes, contents, completed;
      this.disk, this.stream := disk, stream;
      signals := seq(|contents|, _ => false);
    }

    /** Reads exactly `n` bytes off the body. */
    method Read(n: nat) returns (r: Option<Bytes>)
      modifies `stream
      ensures r.Some? <==> n <= |old(stream)|
      ensures r.Some? ==> r.value == old(stream)[..n] && stream == old(stream)[n..]
    {
      if n > |stream| {
        stream := [];
        return None;
      }
      r := Some(stream[..n]);
      stream := stream[n..];
    }

    /** One chunk: read its bytes, decode, append to the file. */
    method WriteChunk(ch: FileChunk, path: DiskPath) returns (ok: bool)
      requires path in disk
      modifies `stream, `disk
      ensures ok == DecodeChunk(z, old(stream), ch).Some?
      ensures ok ==> ch.compressedSize <= |old(stream)| && stream == old(stream)[ch.compressedSize..]
      ensures ok ==> disk == old(disk)[path := old(disk)[path] + DecodeChunk(z, old(stream), ch).value]
      ensures !ok ==> disk == old(disk)
    {
      hide ReadStream;
      var b := Read(ch.compressedSize);
      if b.None? || z.inflate(b.value).None? {
        return false;
      }
      var data := ReadStream(z, b.value, if ch.chunkSize < 0 then 0 else ch.chunkSize);
      if data.None? {
        return false;
      }
      disk := disk[path := disk[path] + data.value];
      ok := true;
    }

    /** The chunk loop of one content. The file is created empty and grows chunk by chunk. */
    method WriteContent(c: Wire, path: DiskPath) returns (ok: bool)
      modifies `stream, `disk
      ensures ok == DecodeChunks(z, old(stream), c.chunks).Some?
      ensures ok ==> Compressed(c.chunks) <= |old(stream)| && stream == old(stream)[Compressed(c.chunks)..]
      ensures ok ==> disk == old(disk)[path := DecodeChunks(z, old(stream), c.chunks).value]
      ensures path in disk && disk == old(disk)[path := disk[path]]
    {
      hide DecodeChunk, Decoding;
      disk := disk[path := []];
      var i := 0;
      StartDecoding(z, stream, c.chunks);
      while i < |c.chunks|
        invariant 0 <= i <= |c.chunks|
        invariant path in disk && disk == old(disk)[path := disk[path]]
        invariant Decoding(z, old(stream), c.chunks, i, stream, disk[path])
      {
        DecodingStep(z, old(stream), c.chunks, i, stream, disk[path]);
        ok := WriteChunk(c.chunks[i], path);
        if !ok {
          return;
        }
        i := i + 1;
      }
      DecodingDone(z, old(stream), c.chunks, stream, disk[path]);
      ok := true;
    }

    /** Extract up to the writing of completed.json. A run that succeeds does what ExtractFrom says, and
        closes exactly the signals of the contents it did not skip. */
    method Extract() returns (ok: bool)
      requires WellAddressed(hashes, contents) && |completed| == |hashes| && |signals| == |contents|
      requires forall k :: 0 <= k < |signals| ==> !signals[k]
      modifies `stream, `disk, `signals
      ensures ok == ExtractFrom(z, hashes, completed, contents, 0, old(stream), old(disk)).Some?
      ensures ok ==>
        ExtractFrom(z, hashes, completed, contents, 0, old(stream), old(disk)) == Some(Extracted(disk, stream))
      ensures |signals| == |contents|
      ensures ok ==> forall k :: 0 <= k < |contents| ==> signals[k] == !completed[contents[k].stack]
    {
      var k := 0;
      while k < |contents|
        invariant 0 <= k <= |contents| == |signals|
        invariant ExtractFrom(z, hashes, completed, contents, 0, old(stream), old(disk))
           == ExtractFrom(z, hashes, completed, contents, k, stream, disk)
        invariant forall j :: 0 <= j < k ==> signals[j] == !completed[contents[j].stack]
        invariant forall j :: k <= j < |contents| ==> !signals[j]
      {
        hide DecodeChunks;
        var c := contents[k];
        DecodeNeedsBytes(z, stream, c.chunks);
        if completed[c.stack] {
          var n := Total(c.chunks);
          var discarded := Read(n);
          if discarded.None? {
            return false;
          }
        } else {
          var done := WriteContent(c, FileAt(hashes[c.stack], c.digest));
          if !done {
            return false;
          }
          signals := signals[k := true];
        }
        k := k + 1;
      }
      ok := true;
    }
  }

  method Total(cs: seq<FileChunk>) returns (n: nat)
    ensures n == Compressed(cs)
  {
    n := 0;
    var i := 0;
    while i < |cs|
      invariant 0 <= i <= |cs| && n + Compressed(cs[i..]) == Compressed(cs)
    {
      assert cs[i..][1..] == cs[i + 1..];
      n := n + cs[i].compressedSize;
      i := i + 1;
    }
  }

  function Prepend(a: Bytes, b: Option<Bytes>): Option<Bytes> {
    match b case None => None case Some(t) => Some(a + t)
  }

  /** After `i` chunks, `soFar` has been decoded and `s` is left of `s0`. */
  ghost predicate Decoding(z: Codec, s0: Bytes, cs: seq<FileChunk>, i: nat, s: Bytes, soFar: Bytes) {
    && i <= |cs| && |s| <= |s0| && s == s0[|s0| - |s|..]
    && |s0| - |s| + Compressed(cs[i..]) == Compressed(cs)
    && DecodeChunks(z, s0, cs) == Prepend(soFar, DecodeChunks(z, s, cs[i..]))
  }

  lemma StartDecoding(z: Codec, s: Bytes, cs: seq<FileChunk>)
    ensures Decoding(z, s, cs, 0, s, [])
  {
    assert cs[0..] == cs && s[0..] == s;
    var r := DecodeChunks(z, s, cs);
    assert r.Some? ==> [] + r.value == r.value;
  }

  lemma DecodingStep(z: Codec, s0: Bytes, cs: seq<FileChunk>, i: nat, s: Bytes, soFar: Bytes)
    requires Decoding(z, s0, cs, i, s, soFar) && i < |cs|
    ensures DecodeChunk(z, s, cs[i]).None? ==> DecodeChunks(z, s0, cs).None?
    ensures DecodeChunk(z, s, cs[i]).Some? ==>
      && cs[i].compressedSize <= |s|
      && Decoding(z, s0, cs, i + 1, s[cs[i].compressedSize..], soFar + DecodeChunk(z, s, cs[i]).value)
  {
    assert cs[i..][1..] == cs[i + 1..] && cs[i..][0] == cs[i];
    if DecodeChunk(z, s, cs[i]).Some? {
      assert cs[i].compressedSize <= |s|;
      hide DecodeChunk;
      var b := DecodeChunk(z, s, cs[i]).value;
      var rest := DecodeChunks(z, s[cs[i].compressedSize..], cs[i + 1..]);
      assert rest.Some? ==> soFar + (b + rest.value) == (soFar + b) + rest.value;
    }
  }

  lemma DecodingDone(z: Codec, s0: Bytes, cs: seq<FileChunk>, s: Bytes, soFar: Bytes)
    requires Decoding(z, s0, cs, |cs|, s, soFar)
    ensures DecodeChunks(z, s0, cs) == Some(soFar)
    ensures Compressed(cs) <= |s0| && s == s0[Compressed(cs)..]
  {
    assert cs[|cs|..] == [];
    assert soFar + [] == soFar;
  }
}
