/** A concrete encoding of the bundle header, so that what is proved for every lawful JSON is not proved
    of nothing. */
module PlainBundle {
  import opened Basics
  import opened Toc
  import opened Builder
  import opened Extraction
  import opened PullMachine
  import opened Response
  import opened PlainTable

  function LayerNums(l: LayerRow): seq<nat> {
    [Sign(l.serial), Size(l.serial), l.size] + StringNums(l.hash)
  }

  function TakeLayer(ns: seq<nat>): Option<Taken<LayerRow>> {
    if |ns| < 3 then None
    else match TakeString(ns[3..])
      case None => None
      case Some(hash) => Some(Taken(LayerRow(SignedNum(ns[0], ns[1]), hash.value, ns[2]), hash.rest))
  }

  lemma LayersInvert()
    ensures Inverse(LayerNums, TakeLayer)
  {
    hide StringNums, TakeString;
    forall l: LayerRow, t: seq<nat> ensures TakeLayer(LayerNums(l) + t) == Some(Taken(l, t)) {
      assert (LayerNums(l) + t)[3..] == StringNums(l.hash) + t;
      StringRoundTrip(l.hash, t);
    }
  }

  function ChunkNums(c: FileChunk): seq<nat> {
    [c.offset, c.chunkOffset, Sign(c.chunkSize), Size(c.chunkSize), c.compressedSize]
  }

  function TakeChunk(ns: seq<nat>): Option<Taken<FileChunk>> {
    if |ns| < 5 then None
    else Some(Taken(FileChunk(ns[0], ns[1], SignedNum(ns[2], ns[3]), ns[4]), ns[5..]))
  }

  lemma ChunksInvert()
    ensures Inverse(ChunkNums, TakeChunk)
  {
    forall c: FileChunk, t: seq<nat> ensures TakeChunk(ChunkNums(c) + t) == Some(Taken(c, t)) {
      assert (ChunkNums(c) + t)[5..] == t;
    }
  }

  function WireNums(w: Wire): seq<nat> {
    [w.stack, w.offset, w.size] + (ListNums(ChunkNums, w.chunks) + StringNums(w.digest))
  }

  function TakeWire(ns: seq<nat>): Option<Taken<Wire>> {
    if |ns| < 3 then None
    else match TakeList(TakeChunk, ns[3..])
      case None => None
      case Some(chunks) =>
        match TakeString(chunks.rest)
        case None => None
        case Some(digest) => Some(Taken(Wire(ns[0], ns[1], ns[2], chunks.value, digest.value), digest.rest))
  }

  lemma WiresInvert()
    ensures Inverse(WireNums, TakeWire)
  {
    ChunksInvert();
    hide StringNums, TakeString, ListNums, TakeList, ChunkNums, TakeChunk;
    forall w: Wire, t: seq<nat> ensures TakeWire(WireNums(w) + t) == Some(Taken(w, t)) {
      var ns := WireNums(w) + t;
      assert ns[3..] == ListNums(ChunkNums, w.chunks) + (StringNums(w.digest) + t);
      ListRoundTrip(ChunkNums, TakeChunk, w.chunks, StringNums(w.digest) + t);
      StringRoundTrip(w.digest, t);
    }
  }

  function FileNums(f: ReferencedFile): seq<nat> {
    [f.stack, Sign(f.referenceFsId), Size(f.referenceFsId), f.referenceStack, f.payloadOrder] + StringNums(f.digest)
  }

  function TakeFile(ns: seq<nat>): Option<Taken<ReferencedFile>> {
    if |ns| < 5 then None
    else match TakeString(ns[5..])
      case None => None
      case Some(digest) =>
        Some(Taken(ReferencedFile(digest.value, ns[0], SignedNum(ns[1], ns[2]), ns[3], ns[4]), digest.rest))
  }

  lemma FilesInvert()
    ensures Inverse(FileNums, TakeFile)
  {
    hide StringNums, TakeString;
    forall f: ReferencedFile, t: seq<nat> ensures TakeFile(FileNums(f) + t) == Some(Taken(f, t)) {
      assert (FileNums(f) + t)[5..] == StringNums(f.digest) + t;
      StringRoundTrip(f.digest, t);
    }
  }

  function BundleNums(b: Bundle): seq<nat> {
    ListNums(LayerNums, b.destination)
    + (ListNums(LayerNums, b.source) + (ListNums(WireNums, b.contents) + ListNums(FileNums, b.files)))
  }

  function TakeBundle(ns: seq<nat>): Option<Taken<Bundle>> {
    match TakeList(TakeLayer, ns)
    case None => None
    case Some(destination) =>
      match TakeList(TakeLayer, destination.rest)
      case None => None
      case Some(source) =>
        match TakeList(TakeWire, source.rest)
        case None => None
        case Some(contents) =>
          match TakeList(TakeFile, contents.rest)
          case None => None
          case Some(files) =>
            Some(Taken(Bundle(destination.value, source.value, contents.value, files.value), files.rest))
  }

  lemma BundleRoundTrip(b: Bundle, t: seq<nat>)
    ensures TakeBundle(BundleNums(b) + t) == Some(Taken(b, t))
  {
    LayersInvert();
    WiresInvert();
    FilesInvert();
    hide ListNums, TakeList, LayerNums, TakeLayer, WireNums, TakeWire, FileNums, TakeFile, Inverse;
    var files := ListNums(FileNums, b.files) + t;
    var contents := ListNums(WireNums, b.contents) + files;
    var source := ListNums(LayerNums, b.source) + contents;
    assert BundleNums(b) + t == ListNums(LayerNums, b.destination) + source;
    ListRoundTrip(LayerNums, TakeLayer, b.destination, source);
    ListRoundTrip(LayerNums, TakeLayer, b.source, contents);
    ListRoundTrip(WireNums, TakeWire, b.contents, files);
    ListRoundTrip(FileNums, TakeFile, b.files, t);
  }

  function WriteBundle(b: Bundle): Bytes {
    EncodeNums(BundleNums(b))
  }

  function ReadBundle(s: Bytes): Option<Bundle> {
    match DecodeNums(s, 0)
    case None => None
    case Some(ns) =>
      match TakeBundle(ns)
      case None => None
      case Some(t) => if t.rest == [] then Some(t.value) else None
  }

  lemma PlainBundleIsLawful()
    ensures LawfulJson(Json(WriteBundle, ReadBundle))
  {
    hide BundleNums, TakeBundle, EncodeNums, DecodeNums;
    forall b: Bundle ensures ReadBundle(WriteBundle(b)) == Some(b) {
      NumsRoundTrip(BundleNums(b));
      BundleRoundTrip(b, []);
      assert BundleNums(b) + [] == BundleNums(b);
    }
  }
}
