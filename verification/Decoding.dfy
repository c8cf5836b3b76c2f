/** Encoder against decoder for one content: the bytes copied out of a layer decode to the file. */
module Decoding {
  import opened Basics
  import opened Gzip
  import opened Toc
  import opened Builder
  import opened Extraction

  /** The chunks of a tiling, cut out of the layer, are the members of its pieces. */
  lemma {:induction false} CutIsMembers(z: Codec, blob: Bytes, data: Bytes, cs: seq<FileChunk>, k: nat)
    requires Tiles(z, blob, data, cs, |data|) && k <= |cs|
    requires forall i :: 0 <= i < |cs| ==> 0 < cs[i].chunkSize && cs[i].chunkOffset + cs[i].chunkSize <= |data|
    ensures Flatten(ChunkBytes(blob, cs[k..])) == Flatten(Deflated(z, Pieces(data, cs, k)))
    ensures |Flatten(ChunkBytes(blob, cs[k..]))| == Compressed(cs[k..])
    decreases |cs| - k
  {
    if k < |cs| {
      assert Holds(z, blob, data, cs[k]);
      CutIsMembers(z, blob, data, cs, k + 1);
      hide Tiles, Holds;
      var piece := data[cs[k].chunkOffset..cs[k].chunkOffset + cs[k].chunkSize];
      assert cs[k..][1..] == cs[k + 1..];
      assert ChunkBytes(blob, cs[k..])[1..] == ChunkBytes(blob, cs[k + 1..]);
      DeflatedCons(z, piece, Pieces(data, cs, k + 1));
    } else {
      assert cs[k..] == [];
    }
  }

  /** Reading the members of the pieces back, chunk by chunk. */
  lemma {:induction false} DecodePieces(z: Codec, blob: Bytes, data: Bytes, cs: seq<FileChunk>, k: nat, t: Bytes)
    requires Lawful(z) && Tiles(z, blob, data, cs, |data|) && k <= |cs|
    requires forall i :: 0 <= i < |cs| ==> 0 < cs[i].chunkSize && cs[i].chunkOffset + cs[i].chunkSize <= |data|
    ensures DecodeChunks(z, Flatten(Deflated(z, Pieces(data, cs, k))) + t, cs[k..])
       == Some(Flatten(Pieces(data, cs, k)))
    decreases |cs| - k
  {
    hide Flatten, Deflated, DecodeChunk, Lawful;
    if k < |cs| {
      DecodePieces(z, blob, data, cs, k + 1, t);
      var c := cs[k];
      var piece := data[c.chunkOffset..c.chunkOffset + c.chunkSize];
      assert Holds(z, blob, data, c);
      assert c.compressedSize == |z.deflate(piece)|;
      hide Tiles, Holds;
      var ps := Pieces(data, cs, k + 1);
      var rest := Flatten(Deflated(z, ps)) + t;
      assert Pieces(data, cs, k) == [piece] + ps;
      DeflatedCons(z, piece, ps);
      FlattenAppend([piece], ps);
      FlattenOne(piece);
      assert Flatten(Deflated(z, Pieces(data, cs, k))) + t == z.deflate(piece) + rest;
      DecodeOne(z, piece, c, rest);
      assert cs[k..][1..] == cs[k + 1..];
    } else {
      assert cs[k..] == [];
      FlattenNone();
    }
  }

  lemma FlattenOne(p: Bytes)
    ensures Flatten([p]) == p
  {
    assert [p][1..] == [];
  }

  lemma FlattenNone()
    ensures Flatten<Byte>([]) == []
  {
  }

  lemma DecodeOne(z: Codec, piece: Bytes, c: FileChunk, rest: Bytes)
    requires Lawful(z) && c.compressedSize == |z.deflate(piece)| && c.chunkSize == |piece|
    ensures DecodeChunk(z, z.deflate(piece) + rest, c) == Some(piece)
    ensures (z.deflate(piece) + rest)[c.compressedSize..] == rest
  {
    var s := z.deflate(piece) + rest;
    assert s[..c.compressedSize] == z.deflate(piece);
    ReadOneMember(z, piece, |piece|);
    assert piece[..|piece|] == piece;
    assert z.deflate(piece) + [] == z.deflate(piece);
  }

  /** What the client decodes from a content's bytes, whatever follows them, is the file they were cut
      from, and the bytes are as many as the chunks' compressed sizes add up to. */
  lemma ContentRoundTrip(z: Codec, blob: Bytes, data: Bytes, cs: seq<FileChunk>, t: Bytes)
    requires Lawful(z) && Tiles(z, blob, data, cs, |data|) && cs != []
    ensures DecodeChunks(z, Flatten(ChunkBytes(blob, cs)) + t, cs) == Some(data)
    ensures |Flatten(ChunkBytes(blob, cs))| == Compressed(cs)
  {
    assert forall i :: 0 <= i < |cs| ==> Holds(z, blob, data, cs[i]);
    assert cs[0..] == cs;
    CutIsMembers(z, blob, data, cs, 0);
    DecodePieces(z, blob, data, cs, 0, t);
    PiecesCover(z, blob, data, cs, 0);
    assert data[cs[0].chunkOffset..] == data;
  }
}
