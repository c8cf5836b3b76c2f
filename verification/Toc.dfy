/** The table of contents of a stargz layer, and what it means for a list of chunks to hold a file. */
module Toc {
  import opened Basics
  import opened Gzip
  import Footer

  datatype Kind = Dir | Reg | Symlink | Hardlink | CharDevice | BlockDevice | Fifo | Chunk

  datatype TocEntry = TocEntry(
    name: string,
    kind: Kind,
    size: nat,
    linkName: string,
    offset: nat,
    chunkOffset: nat,
    chunkSize: int,
    compressedSize: nat,
    digest: string,
    chunkDigest: string)

  datatype FileChunk = FileChunk(offset: nat, chunkOffset: nat, chunkSize: int, compressedSize: nat)

  /** The foreign parts of the format: gzip, SHA-256, and the tar and JSON around the table of contents. */
  datatype Format = Format(
    z: Codec,
    sha: Bytes -> string,
    tocJson: seq<TocEntry> -> Bytes,
    tar: Bytes -> Bytes,
    readToc: Bytes -> Option<seq<TocEntry>>)
  {
    /** The table of contents as the one file of a tar. */
    function TocTar(es: seq<TocEntry>): Bytes {
      tar(tocJson(es))
    }
  }

  ghost predicate LawfulFormat(f: Format) {
    && Lawful(f.z)
    && (forall off: nat :: IsMember(f.z, Footer.FooterBytes(off), []))
    && (forall t: seq<TocEntry> :: f.readToc(f.TocTar(t)) == Some(t))
  }

  /** Chunk `c` is one gzip member of `blob` that decodes to its own range of `data`. */
  ghost predicate Holds(z: Codec, blob: Bytes, data: Bytes, c: FileChunk) {
    && 0 < c.chunkSize && c.chunkOffset + c.chunkSize <= |data|
    && c.offset + c.compressedSize <= |blob|
    && blob[c.offset..c.offset + c.compressedSize] == z.deflate(data[c.chunkOffset..c.chunkOffset + c.chunkSize])
  }

  /** Each chunk begins, in the file and in the layer, where the one before it ends. */
  predicate Adjacent(cs: seq<FileChunk>) {
    forall i :: 0 <= i < |cs| - 1 ==>
      && cs[i + 1].chunkOffset == cs[i].chunkOffset + cs[i].chunkSize
      && cs[i + 1].offset == cs[i].offset + cs[i].compressedSize
  }

  /** The chunks tile [0, to) of `data`, in order, each held by one member. */
  ghost predicate Tiles(z: Codec, blob: Bytes, data: Bytes, cs: seq<FileChunk>, to: nat) {
    && (cs == [] ==> to == 0)
    && (cs != [] ==> cs[0].chunkOffset == 0 && cs[|cs| - 1].chunkOffset + cs[|cs| - 1].chunkSize == to)
    && Adjacent(cs)
    && (forall i :: 0 <= i < |cs| ==> Holds(z, blob, data, cs[i]))
  }

  lemma HoldsExtends(z: Codec, blob: Bytes, more: Bytes, data: Bytes, c: FileChunk)
    requires Holds(z, blob, data, c)
    ensures Holds(z, blob + more, data, c)
  {
    assert (blob + more)[c.offset..c.offset + c.compressedSize] == blob[c.offset..c.offset + c.compressedSize];
  }

  /** The pieces of `data` that the chunks from `k` on hold. */
  ghost function Pieces(data: Bytes, cs: seq<FileChunk>, k: nat): seq<Bytes>
    requires k <= |cs|
    requires forall i :: 0 <= i < |cs| ==> 0 < cs[i].chunkSize && cs[i].chunkOffset + cs[i].chunkSize <= |data|
    decreases |cs| - k
  {
    if k == |cs| then []
    else [data[cs[k].chunkOffset..cs[k].chunkOffset + cs[k].chunkSize]] + Pieces(data, cs, k + 1)
  }

  lemma TilesSnoc(z: Codec, blob: Bytes, data: Bytes, cs: seq<FileChunk>, to: nat, c: FileChunk)
    requires Tiles(z, blob, data, cs, to) && Holds(z, blob, data, c) && c.chunkOffset == to
    requires cs != [] ==> c.offset == EndOf(cs[|cs| - 1])
    ensures Tiles(z, blob, data, cs + [c], to + c.chunkSize)
  {
    hide Holds;
  }

  lemma SliceJoin(s: Bytes, a: nat, b: nat, c: nat)
    requires a <= b <= c <= |s|
    ensures s[a..b] + s[b..c] == s[a..c]
  {
  }

  lemma FlattenCons(g: seq<Bytes>)
    ensures Flatten(g) == if g == [] then [] else g[0] + Flatten(g[1..])
  {
  }

  lemma {:induction false} PiecesCover(z: Codec, blob: Bytes, data: Bytes, cs: seq<FileChunk>, k: nat)
    requires k < |cs| && Tiles(z, blob, data, cs, |data|)
    ensures Flatten(Pieces(data, cs, k)) == data[cs[k].chunkOffset..]
    decreases |cs| - k
  {
    var c := cs[k];
    assert Holds(z, blob, data, c);
    hide Holds, Flatten;
    FlattenCons(Pieces(data, cs, k));
    var rest := Pieces(data, cs, k + 1);
    assert Pieces(data, cs, k)[1..] == rest;
    if k + 1 == |cs| {
      FlattenCons(rest);
    } else {
      PiecesCover(z, blob, data, cs, k + 1);
      SliceJoin(data, c.chunkOffset, c.chunkOffset + c.chunkSize, |data|);
    }
  }

  lemma DeflatedCons(z: Codec, p: Bytes, rest: seq<Bytes>)
    ensures Flatten(Deflated(z, [p] + rest)) == z.deflate(p) + Flatten(Deflated(z, rest))
  {
    assert Deflated(z, [p] + rest)[1..] == Deflated(z, rest);
  }

  function EndOf(c: FileChunk): nat {
    c.offset + c.compressedSize
  }

  /** The layer bytes from chunk `k` to the end of the last chunk are the members of its pieces. */
  lemma {:induction false} PiecesMembers(z: Codec, blob: Bytes, data: Bytes, cs: seq<FileChunk>, k: nat)
    requires k < |cs| && Tiles(z, blob, data, cs, |data|)
    ensures cs[k].offset <= EndOf(cs[|cs| - 1]) <= |blob|
    ensures blob[cs[k].offset..EndOf(cs[|cs| - 1])] == Flatten(Deflated(z, Pieces(data, cs, k)))
    decreases |cs| - k
  {
    var c := cs[k];
    assert Holds(z, blob, data, c);
    DeflatedCons(z, data[c.chunkOffset..c.chunkOffset + c.chunkSize], Pieces(data, cs, k + 1));
    if k + 1 == |cs| {
      assert Flatten(Deflated(z, [])) == [];
    } else {
      PiecesMembers(z, blob, data, cs, k + 1);
      assert cs[k + 1].offset == EndOf(c);
      SliceJoin(blob, c.offset, EndOf(c), EndOf(cs[|cs| - 1]));
    }
  }

  /** Earlier chunks end before later chunks begin, in the file and in the layer. */
  lemma {:induction false} TilesOrdered(z: Codec, blob: Bytes, data: Bytes, cs: seq<FileChunk>, to: nat, i: nat, j: nat)
    requires Tiles(z, blob, data, cs, to) && i < j < |cs|
    ensures cs[i].chunkOffset + cs[i].chunkSize <= cs[j].chunkOffset
    ensures EndOf(cs[i]) <= cs[j].offset
    decreases j - i
  {
    assert Holds(z, blob, data, cs[j]);
    if i + 1 < j {
      TilesOrdered(z, blob, data, cs, to, i, j - 1);
      assert Holds(z, blob, data, cs[j - 1]);
      assert cs[j - 1 + 1].chunkOffset == cs[j - 1].chunkOffset + cs[j - 1].chunkSize;
    }
  }

  /** Total size of the chunks in the layer. */
  function Compressed(cs: seq<FileChunk>): nat {
    if cs == [] then 0 else cs[0].compressedSize + Compressed(cs[1..])
  }

  lemma {:induction false} CompressedSnoc(cs: seq<FileChunk>, c: FileChunk)
    ensures Compressed(cs + [c]) == Compressed(cs) + c.compressedSize
    decreases |cs|
  {
    if cs != [] {
      assert (cs + [c])[1..] == cs[1..] + [c];
      CompressedSnoc(cs[1..], c);
    }
  }
}
