/** The whole response to a delta request: manifest, config and header, each compressed on its own, and
    then the body, whose length the server announces before it writes any of it. */
module Response {
  import opened Basics
  import opened Gzip
  import opened Delta
  import opened Builder
  import opened Extraction
  import opened Stream
  import opened Toc
  import opened EndToEnd
  import opened PullMachine
  import opened ClientView

  /** The lengths in the HTTP header. */
  datatype Headers = Headers(contentLength: nat, manifestSize: nat, configSize: nat, starlightHeaderSize: nat)

  datatype Parts = Parts(manifest: Bytes, config: Bytes, header: Bytes)

  /** What the header describes: the layers of both images, the contents and the requested files. */
  datatype Bundle = Bundle(destination: seq<LayerRow>, source: seq<LayerRow>, contents: seq<Wire>,
                           files: seq<ReferencedFile>)

  /** JSON as a parameter. */
  datatype Json = Json(encode: Bundle -> Bytes, decode: Bytes -> Option<Bundle>)

  ghost predicate LawfulJson(j: Json) {
    forall b: Bundle :: j.decode(j.encode(b)) == Some(b)
  }

  /** The announced sizes cut the front of the response into the three compressed parts, and the whole
      length also counts the body. */
  predicate Announced(z: Codec, h: Headers, front: Bytes, parts: Parts, bodyLength: nat) {
    && h.manifestSize + h.configSize + h.starlightHeaderSize == |front|
    && h.contentLength == |front| + bodyLength
    && front[..h.manifestSize] == z.deflate(parts.manifest)
    && front[h.manifestSize..h.manifestSize + h.configSize] == z.deflate(parts.config)
    && front[h.manifestSize + h.configSize..] == z.deflate(parts.header)
  }

  /** WriteHeader: the parts go through one counting writer, and each size is what the count grew by. */
  method WriteHeader(z: Codec, parts: Parts, bodyLength: nat) returns (h: Headers, front: Bytes)
    ensures Announced(z, h, front, parts, bodyLength)
  {
    front := z.deflate(parts.manifest);
    var manifestSize := |front|;
    front := front + z.deflate(parts.config);
    var configSize := |front| - manifestSize;
    front := front + z.deflate(parts.header);
    var headerSize := |front| - manifestSize - configSize;
    h := Headers(|front| + bodyLength, manifestSize, configSize, headerSize);
  }

  /** gzip.NewReader and io.ReadAll over one part; an empty part has no member to open. */
  function Decompress(z: Codec, part: Bytes): Option<Bytes> {
    if part == [] then None else Gunzip(z, part)
  }

  /** readBody: exactly `size` bytes, or an error. */
  method ReadBody(body: Bytes, size: nat) returns (r: Option<Bytes>, rest: Bytes)
    ensures r.Some? <==> size <= |body|
    ensures r.Some? ==> r.value == body[..size] && rest == body[size..]
  {
    if size > |body| {
      return None, [];
    }
    return Some(body[..size]), body[size..];
  }

  /** The reads of PullImage up to the point where the manager is created. */
  method ReadParts(z: Codec, h: Headers, body: Bytes) returns (r: Option<Parts>, rest: Bytes)
    ensures r.Some? <==>
      && h.manifestSize + h.configSize + h.starlightHeaderSize <= |body|
      && Decompress(z, body[..h.manifestSize]).Some?
      && Decompress(z, body[h.manifestSize..h.manifestSize + h.configSize]).Some?
      && Decompress(z, body[h.manifestSize + h.configSize..h.manifestSize + h.configSize + h.starlightHeaderSize]).Some?
    ensures r.Some? ==>
      && Decompress(z, body[..h.manifestSize]) == Some(r.value.manifest)
      && Decompress(z, body[h.manifestSize..h.manifestSize + h.configSize]) == Some(r.value.config)
      && Decompress(z, body[h.manifestSize + h.configSize..h.manifestSize + h.configSize + h.starlightHeaderSize])
          == Some(r.value.header)
      && rest == body[h.manifestSize + h.configSize + h.starlightHeaderSize..]
  {
    hide Decompress;
    var buf: Option<Bytes>;
    buf, rest := ReadBody(body, h.manifestSize);
    if buf.None? { return None, []; }
    var manifest := Decompress(z, buf.value);
    if manifest.None? { return None, []; }
    buf, rest := ReadBody(rest, h.configSize);
    if buf.None? { return None, []; }
    assert buf.value == body[h.manifestSize..h.manifestSize + h.configSize];
    var config := Decompress(z, buf.value);
    if config.None? { return None, []; }
    buf, rest := ReadBody(rest, h.starlightHeaderSize);
    if buf.None? { return None, []; }
    assert buf.value == body[h.manifestSize + h.configSize..h.manifestSize + h.configSize + h.starlightHeaderSize];
    var header := Decompress(z, buf.value);
    if header.None? { return None, []; }
    r := Some(Parts(manifest.value, config.value, header.value));
  }

  lemma DecompressDeflated(z: Codec, p: Bytes)
    requires Lawful(z)
    ensures Decompress(z, z.deflate(p)) == Some(p)
  {
    GunzipMembers(z, [z.deflate(p)], [p]);
    assert Flatten([z.deflate(p)]) == z.deflate(p) && Flatten([p]) == p;
    assert 0 < |z.deflate(p)|;
  }

  /** Reading back an announced response gives the three parts as written and stops where the body starts. */
  lemma PartsRoundTrip(z: Codec, h: Headers, front: Bytes, parts: Parts, bodyLength: nat, body: Bytes)
    requires Lawful(z) && Announced(z, h, front, parts, bodyLength)
    ensures var sent := front + body;
            var m, c := h.manifestSize, h.manifestSize + h.configSize;
            && Decompress(z, sent[..m]) == Some(parts.manifest)
            && Decompress(z, sent[m..c]) == Some(parts.config)
            && Decompress(z, sent[c..c + h.starlightHeaderSize]) == Some(parts.header)
            && sent[c + h.starlightHeaderSize..] == body
  {
    hide Decompress, Lawful;
    var sent := front + body;
    var m, c := h.manifestSize, h.manifestSize + h.configSize;
    assert sent[..m] == front[..m] && sent[m..c] == front[m..c] && sent[c..c + h.starlightHeaderSize] == front[c..];
    assert sent[|front|..] == body;
    DecompressDeflated(z, parts.manifest);
    DecompressDeflated(z, parts.config);
    DecompressDeflated(z, parts.header);
  }

  function BundleOf(p: Pull): Bundle {
    Bundle(p.dst, p.src, Wires(p.contents), seq(|p.files|, i requires 0 <= i < |p.files| => OnWire(p.files[i])))
  }

  /** What the client makes of the bundle it decoded, of what is left of the response, and of its disk. */
  function DecodedConfig(z: Codec, b: Bundle, skip: seq<bool>, body: Bytes, disk: map<DiskPath, Bytes>): Config {
    Config(z, Hashes(b.destination), ClientLayers(b.destination + b.source), b.contents, b.files, skip, body, disk)
  }

  /** Between the offset and the size that come with content `k`, the body holds that content. */
  ghost predicate InPlace(p: Pull, w: Wire, k: nat, body: Bytes)
    requires Provided(p) && DigestsOk(p) && Computed(p) && k < |p.contents|
  {
    && w.offset + w.size <= |body|
    && DecodeChunks(p.f.z, body[w.offset..w.offset + w.size], w.chunks) == Some(ContentData(p, k))
  }

  /** The bundle that the client has decoded is all it needs. It starts from the configuration that the pull
      is about, files and layers of both images included; every content is where the bundle says; and
      extraction consumes every byte that is left and delivers every file. */
  ghost predicate Received(p: Pull, b: Bundle, body: Bytes, skip: seq<bool>, disk: map<DiskPath, Bytes>)
    requires Provided(p) && DigestsOk(p) && Computed(p)
  {
    && b.destination == p.dst && b.source == p.src && |b.contents| == |p.contents| && |skip| == |b.destination|
    && DecodedConfig(p.f.z, b, skip, body, disk) == ClientConfig(p, skip, [], disk)
    && (forall k: nat :: k < |p.contents| ==> InPlace(p, b.contents[k], k, body))
    && WellAddressed(Hashes(b.destination), b.contents)
    && var r := ExtractFrom(p.f.z, Hashes(b.destination), skip, b.contents, 0, body, disk);
       r.Some? && r.value.rest == [] && Delivered(p, skip, r.value.disk)
  }

  lemma ContentInPlace(p: Pull, k: nat)
    requires LawfulFormat(p.f) && Provided(p) && DigestsOk(p) && Computed(p) && k < |p.contents|
    ensures InPlace(p, WireOf(p.contents[k]), k, Body(p.loaded, p.contents))
  {
    hide LawfulFormat, Provided, DigestsOk, Computed, Body, BodyFrom, OffsetOf, ContentData, SoundContent, ContentBytes;
    hide Sound, InPlace;
    var c := p.contents[k];
    OffsetIs(p, k);
    LawfulCodec(p.f);
    PullIsSound(p);
    ContentIsSound(p, k);
    OffsetInBody(p.f.z, p.loaded, p.contents, Datas(p), k);
    BodyCons(p.f.z, p.loaded, p.contents, Datas(p), k, []);
    SoundBytes(p.f.z, p.loaded, c, ContentData(p, k), []);
    var (bytes, rest) := (ContentBytes(p.loaded, c), BodyFrom(p.loaded, p.contents, k + 1));
    SliceOf(Body(p.loaded, p.contents), c.offset, bytes, rest);
    assert bytes + [] == bytes;
    IsInPlace(p, c, k, Body(p.loaded, p.contents));
  }

  lemma IsInPlace(p: Pull, c: Content, k: nat, body: Bytes)
    requires Provided(p) && DigestsOk(p) && Computed(p) && k < |p.contents| && c.offset + c.size <= |body|
    requires DecodeChunks(p.f.z, body[c.offset..c.offset + c.size], c.chunks) == Some(ContentData(p, k))
    ensures InPlace(p, WireOf(c), k, body)
  {
    hide Provided, DigestsOk, Computed, ContentData, DecodeChunks;
  }

  lemma OffsetIs(p: Pull, k: nat)
    requires Computed(p) && k < |p.contents|
    ensures p.contents[k].offset == OffsetOf(p.contents, k)
  {
    assert LaidOut(p.rows, p.contents, k);
    hide FileOk, CollectedAll;
  }

  lemma LawfulCodec(f: Format)
    requires LawfulFormat(f)
    ensures Lawful(f.z)
  {
  }

  lemma SliceOf(body: Bytes, at: nat, bytes: Bytes, rest: Bytes)
    requires at <= |body| && body[at..] == bytes + rest
    ensures at + |bytes| <= |body| && body[at..at + |bytes|] == bytes
  {
    assert body[at..at + |bytes|] == body[at..][..|bytes|];
  }

  /** The whole exchange, for every pull and every set of skipped layers. The response is as long as
      announced, and the client gets back its three parts and a bundle that is all it needs. */
  lemma WholeResponse(p: Pull, json: Json, manifest: Bytes, config: Bytes, h: Headers, front: Bytes, skip: seq<bool>,
                      disk: map<DiskPath, Bytes>)
    requires LawfulFormat(p.f) && LawfulJson(json) && Provided(p) && DigestsOk(p) && Computed(p) && |skip| == |p.dst|
    requires Announced(p.f.z, h, front, Parts(manifest, config, json.encode(BundleOf(p))), p.bodyLength)
    ensures var sent := front + Body(p.loaded, p.contents);
            var m, c := h.manifestSize, h.manifestSize + h.configSize;
            var at := c + h.starlightHeaderSize;
            && |sent| == h.contentLength && at <= |sent|
            && Decompress(p.f.z, sent[..m]) == Some(manifest)
            && Decompress(p.f.z, sent[m..c]) == Some(config)
            && Decompress(p.f.z, sent[c..at]).Some?
            && json.decode(Decompress(p.f.z, sent[c..at]).value).Some?
            && Received(p, json.decode(Decompress(p.f.z, sent[c..at]).value).value, sent[at..], skip, disk)
  {
    var body := Body(p.loaded, p.contents);
    hide Provided, DigestsOk, Computed, Body, Decompress, Received, BundleOf, LawfulFormat;
    LawfulCodec(p.f);
    PartsRoundTrip(p.f.z, h, front, Parts(manifest, config, json.encode(BundleOf(p))), p.bodyLength, body);
    IsReceived(p, skip, disk);
    BodyIsLong(p, skip);
  }

  lemma BodyIsLong(p: Pull, skip: seq<bool>)
    requires LawfulFormat(p.f) && Provided(p) && DigestsOk(p) && Computed(p) && |skip| == |p.dst|
    ensures |Body(p.loaded, p.contents)| == p.bodyLength
  {
    hide LawfulFormat, Provided, DigestsOk, Computed, Body, ExtractFrom, Delivered;
    PullIsFaithful(p, skip, [], map[]);
  }

  lemma IsReceived(p: Pull, skip: seq<bool>, disk: map<DiskPath, Bytes>)
    requires LawfulFormat(p.f) && Provided(p) && DigestsOk(p) && Computed(p) && |skip| == |p.dst|
    ensures Received(p, BundleOf(p), Body(p.loaded, p.contents), skip, disk)
  {
    var body := Body(p.loaded, p.contents);
    hide LawfulFormat, Provided, DigestsOk, Computed, Body, ExtractFrom, WellAddressed, Delivered, InPlace;
    hide DecodedConfig, ClientConfig;
    BundleConfig(p, skip, disk);
    PullIsFaithful(p, skip, [], disk);
    forall k: nat | k < |p.contents| ensures InPlace(p, WireOf(p.contents[k]), k, body) {
      ContentInPlace(p, k);
    }
    assert body + [] == body;
  }

  lemma BundleConfig(p: Pull, skip: seq<bool>, disk: map<DiskPath, Bytes>)
    ensures DecodedConfig(p.f.z, BundleOf(p), skip, Body(p.loaded, p.contents), disk) == ClientConfig(p, skip, [], disk)
  {
    hide Body, ClientLayers;
    assert Body(p.loaded, p.contents) + [] == Body(p.loaded, p.contents);
  }
}
