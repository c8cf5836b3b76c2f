# Starlight: what the delta bundle promises

Starlight ships a container image as a delta bundle. Layers are rewritten into a chunked gzip format
with a table of contents. A proxy works out which file contents a worker lacks, and sends those
contents in one stream. The worker unpacks the stream while containers already read from it.

This project models that path from end to end and proves, for all inputs, that it delivers the right
bytes. Its main results, each for every tar, chunk size, pair of images, order of map iteration and
database rows, and interleaving:

- **The pull is faithful** (`EndToEnd.PullIsFaithful`). Whatever layers the client skips, extraction
  consumes exactly the body, and every file sent into a layer that is not skipped is byte for byte the
  one in the tar that was converted. `Response.WholeResponse` adds the three compressed parts in front
  of the body, and that the response is exactly Content-Length bytes long. `Pipeline.PullImage` runs the
  parts one after another, from tars to the client's disk, and derives the hypotheses on the way.
- **Early start is safe, exactly when it is** (`EarlyStart.EarlyStartExactly`,
  `ClientView.EarlyOpenReadsTar`). In every interleaving of extraction with any number of opens, an open
  that is past its gate reads the whole file if and only if the file's payload order is not zero and the
  stack of its content is not taken for "its own" (or the content is skipped, and no open gets past), or the
  bytes were there before and stay. So every pull that sends anything has a file that must not be opened
  early (`ClientView.FirstFileUnsafe`).
- **The pull completes** (`ClientView.PullCompletes`). The interleaved machine refines the sequential
  extraction (`Refinement.MachineRefinesExtract`); it can always step until every layer is marked, in a
  bounded number of steps.
- **What is not sent is found, exactly when it is** (`TwoPulls.FoundExactly`). Over two pulls: a file that
  the second one does not send is found if and only if the layer an open looks in is the one in which the
  first pull stored its content; and `Samples.ReferenceLeadsNowhere` gives two pulls where it is not.
- **A layer reads back** (`Writer.Writer.Close`, `Reader.Reader.ReadFile`). The bytes hashed for DiffID
  are those the layer decompresses to, which are the tar and the table, and any range of any file reads as
  the slice of the tar's data.
- **The delta is a partition whose serials are known** (`Builder.Builder.ComputeDelta`, `Delta.Partition`,
  `ClientView.ViewIsValid`).
- **One load for all** (`LayerCache`). One fetcher loads, every channel is closed once, every run ends with
  everyone returned; but a failed load is reported to the loader alone (`LayerCache.FailureIsNotShared`).
- **Stable mounts** (`LayerMap.RunKeeps`, `LayerMap.MountIsStable`, and what every history of mounts leaves in
  `LayerHistory.SnapshotsAre` and `LayerHistory.FileSystemIs`), **crash and restart**
  (`Restart.CrashRestart`), **the client's tree** (`ClientTree.Reachable`), **trace ranking**
  (`Tracer.EarliestOnce`).

## How it is modelled

- Code that changes things step by step is a class or a method with loops (`Writer`, `Reader`, `Builder`,
  `Manager`, the two `Client` classes, `Layer`, `Recorder`), proved against functions and predicates on
  values. Concurrent parts (`PullMachine`, `LayerCache`, the lock-protected operations of `LayerMap`) are
  state machines over atomic steps.
- gzip is a parameter, `Gzip.Codec`, of which only this is asked: a member is self-delimiting, so that it
  decodes the same whatever follows. `StoredCodec` is a codec of that kind with real headers and trailers
  (RFC 1952) and stored blocks (RFC 1951), and it also decodes the footer. The tar and JSON around the table of
  contents are a parameter too, and so is the JSON of the bundle header; `PlainTable.PlainIsLawful` and
  `PlainBundle.PlainBundleIsLawful` show that what is asked of them can be met.
- SHA-256 is a parameter. Equal digests are taken to mean equal contents only among the files of the images
  of one pull (of two, in `TwoPulls`; and among the layers of an image, in `Pipeline`), and digests and layer
  hashes in play have the form `sha256:` and 64 characters.
- Pointers to table entries, tree nodes and managers are positions in a sequence. Cleaned names are lists
  of components, with [] for the root; `Paths.CleanRender` relates them to the string form.
- Map iteration is a choice among what is left, `sort.Sort` may order ties in any way, and database rows
  come in any order, except that requested files come in stack order, as `proxy/database.go:586` orders them.
- Ranks are reals, and `math.MaxFloat64` is a parameter `maxRank` that ranks are compared with.
- The hypotheses of the main results can be met together: `Samples.SamplesExist` builds, from tar entries on and
  with a concrete format and header, a pull with a reference, a file that may be opened early and is, and two that
  must not be; and two pulls after one another in which a reference leads nowhere.
- The lemmas about written layers assume that no two tar entries have the same cleaned name.

## Where the code and its comments disagree

- The comment at `proxy/builder.go:352-353` wants the lowest layer, and one of the requested image if
  there is one. The code keeps the largest serial, and no layer of the requested image is ever marked available,
  since each image has its own layer objects. The model does what the code does.
- `defer lc.SetReady(err)` at `util/common/cache.go:76` evaluates `err` before it is set, so subscribers never
  hear of a failure. `LayerCache.FailureIsNotShared` says exactly when that matters.
- `client/fs/fs.go:55-68` opens a referenced file in the layer of its serial, which is the largest serial whose layer
  holds the digest (`proxy/builder.go:355-358`). But a content is stored once, in the lowest layer that has it
  (`proxy/builder.go:418-427`). So a digest held by two layers of the first image is referred to in the higher one,
  where nobody wrote it; and a file of a layer the client has is looked for in its own layer, with the same gap.
  `TwoPulls.FoundExactly` says exactly when the path is there.
- Zero stands for "absent" in the wire form, for the payload order and for the content's stack.
  `EarlyStart.EarlyStartExactly` says exactly which files that affects, and `ClientView.FirstFileUnsafe` that the
  first content always has one.
- `Unmount` leaves the torn-down file system in the layer map. `LayerMap.MountIsLive` says exactly which mounts
  hand out a file system that is still served, and `LayerMap.RemountIsStale` shows one that is not.
- A legacy footer is read through a 51-byte window, of which the first four bytes are not its own. If they look like
  a gzip header without a header checksum, the newer parser indexes an empty Extra field and panics; if they announce
  a header checksum, the stored one never matches and the legacy offset is found
  (`LegacyWindow.LegacyFooterRoundTrip`).
- `Lookup` uses a hard link's target as written (`util/common/stargz.go:361`), while the directory tree is built with
  its cleaned form (213). `Reader.Reader.ReadFile` says which links can be read through.

## Model

| member | source | states |
|---|---|---|
| Footer.FooterRoundTrip | util/common/stargz.go:782-840 | every offset below 2^63 parses back from its 51-byte footer, with size 51 |
| Footer.HexAlphabet | util/common/stargz.go:782-797 | a digit of the offset is written and read as in lower-case hexadecimal |
| Footer.FooterLayout | util/common/stargz.go:782-797 | the footer byte by byte: gzip header, subfield "SG", the offset as sixteen lower-case hexadecimal digits, "STARGZ", and an empty member's end |
| LegacyWindow.LegacyFooterRoundTrip | util/common/stargz.go:800-858 | a legacy footer behind any four bytes yields its offset and 47 if and only if those bytes do not look like a gzip header or announce a header checksum, which then never matches; in every other case the newer parser panics |
| Gzip.GunzipMembers | util/common/stargz.go:583-594 | decoding a concatenation of members gives the concatenation of what they hold |
| Gzip.ReadStreamMembers | util/common/stargz.go:446-463 | a stream that starts with members yields any prefix of their payloads, whatever bytes follow |
| StoredCodec.StoredRoundTrip | util/common/stargz.go:583-594 | a concrete gzip with stored blocks decodes what it encodes, whatever follows |
| StoredCodec.StoredIsLawful | util/common/stargz.go:782-797 | that codec meets the hypothesis on gzip, and every footer is an empty member of it |
| PlainTable.PlainIsLawful | util/common/stargz.go:547-561 | with a concrete table encoding, everything asked of the format is met for any digest function |
| PlainBundle.PlainBundleIsLawful | proxy/builder.go:65-148 | a concrete encoding of the bundle header gives back every bundle it was given |
| Writer.Writer.constructor | util/common/stargz.go:500-533 | a new writer is in the invariant; a chunk size of zero or less becomes 4 MiB |
| Writer.Writer.CloseGz | util/common/stargz.go:583-594 | the open member's bytes are flushed as one member, and hashed bytes still equal decompressed bytes; a closed writer reports an error and changes nothing |
| Writer.Writer.WriteGz | util/common/stargz.go:493-498 | every byte goes to the hash and to the open member alike |
| Writer.Writer.AppendChunk | util/common/stargz.go:716-752 | one chunk is copied and recorded at the offset where its member begins, with its place in the file, its digest and the full chunk size unless it is the last; too little data is an error |
| Writer.Writer.AppendChunks | util/common/stargz.go:707-758 | the chunks of a file tile it in order, each one member holding exactly its range, and the call succeeds if and only if the file has all its bytes |
| Writer.Writer.AppendTar | util/common/stargz.go:623-767 | succeeds if and only if every item can be processed; then exactly the kept entries have been recorded, and the bytes hashed are the tar of them: each header, data and padding to 512 bytes; even on failure hashed bytes equal decompressed bytes |
| Writer.KeepIs | util/common/stargz.go:641-646 | what is kept of a tar is every item in order but those called stargz.index.json |
| Writer.AcceptsAny | util/common/stargz.go:668-703 | an item can be processed if and only if its header can be encoded, its kind is known and a regular file has all its data, or it is an old table |
| Writer.Writer.Close | util/common/stargz.go:535-580 | the bytes hashed for DiffID are what the whole blob, footer included, decompresses to: the tar of the entries, and the table; and the blob is a written layer: table, offsets and footer in place |
| Writer.DecodesToHashed | util/common/stargz.go:535-594 | wherever the stream was cut into members, the blob decompresses to the bytes that were hashed |
| Toc.TilesOrdered | util/common/stargz.go:714-755 | of two chunks of a file, the earlier one ends before the later begins, in the file and in the blob |
| Paths.CleanIsClean | util/common/stargz.go:867-869 | a cleaned name has no empty, "." or ".." component and no slash inside one |
| Paths.CleanRender | util/common/stargz.go:867-869 | cleaning the string form of a cleaned name gives it back |
| Paths.CleanSnoc | util/common/stargz.go:867-869 | a last part that is empty or a dot changes nothing, ".." takes a component away if there is one, any other part adds itself |
| Paths.CleanPart | util/common/stargz.go:867-869 | a name without a slash is its own only component, unless it is empty or consists of dots that stand for directories |
| TocScan.ScanWritten | util/common/stargz.go:133-181 | after the first pass over a written table every tar entry is found under its cleaned name with its sizes restored, its chunk list is its own entries, and no other name appears |
| TocScan.LastNamed | util/common/stargz.go:133-170 | over any table, written or not, a name denotes the last entry that has it when cleaned, and chunks have none |
| FileView.WrittenStores | util/common/stargz.go:133-181 | the chunk list found for a regular file tiles the tar's data: positive sizes, in order, contiguous, each one gzip member of the blob |
| FileView.ChunkDigests | util/common/stargz.go:732-746 | each chunk of a file carries the digest of its own bytes |
| FileView.BoundaryIs | util/common/stargz.go:223-232 | the next boundary is the first offset further on that is not zero, or the end of the blob |
| FileView.OffsetsIncrease | util/common/stargz.go:714-755 | over the whole table, each member ends before the next entry's member begins |
| FileView.WrittenUnique | util/common/stargz.go:169-173 | when tar names are distinct, each entry but the chunks is the one its name denotes |
| Reader.OpenWritten | util/common/stargz.go:72-123 | opening a closed layer finds the table that was written, through footer, tar and JSON |
| Reader.Reader.GetOrCreateDir | util/common/stargz.go:249-265 | terminates, and creates the missing directories up to the root, each a child of its parent |
| Linking.CreateKeeps | util/common/stargz.go:249-265 | creating implied directories keeps the tree invariant, link counts included |
| Linking.CreatedNames | util/common/stargz.go:249-265 | only ancestors of the name are created |
| Linking.CreateExactly | util/common/stargz.go:249-265 | the names created are the name and those above it, up to the first that is there |
| Linking.LinkFromKeeps | util/common/stargz.go:184-221 | linking every entry leaves each name but the root a child of its parent, with all link counts accounted for |
| Linking.LinkFromFails | util/common/stargz.go:210-219 | the second pass fails if and only if some hard link's target is neither in the table nor a directory implied by the entries up to the link |
| Reader.Reader.SetNextOffsets | util/common/stargz.go:223-232 | each data entry's next offset is the offset of the next entry that has one, or the end of the blob |
| Reader.Reader.InitFields | util/common/stargz.go:125-234 | on distinct names the directory tree is complete and every added name is an ancestor of one in the table; it fails if and only if a hard link's target is neither in the table nor implied by the entries up to the link |
| DirTree.LinkKeeps | util/common/stargz.go:208-220 | adding one name, hard link or not, keeps names unambiguous and counts exact |
| DirTree.ChildIs | util/common/stargz.go:208-220 | in the finished tree a hard link's name leads to the node of its cleaned target, which exists, and any other name to its own node |
| DirTree.NoOtherChild | util/common/toc.go:446-454 | and there are no other children |
| DirTree.DirectoryLinkCount | util/common/toc.go:446-454 | a directory other than the root has 2 links, one for each directory named below it, and one for each hard link whose cleaned target it is |
| DirTree.FileLinkCount | util/common/stargz.go:208-220 | anything but a directory or a link has 1 link, one for each hard link whose cleaned target it is, and one for each directory named below it |
| DirTree.Closed | util/common/stargz.go:184-221 | the names are closed under parents, up to and including the root |
| FileView.ReadFromChunk | util/common/stargz.go:426-463 | decoding from the start of any chunk to the boundary after the file yields the file from that chunk's offset on |
| FileView.ChunkUnique | util/common/stargz.go:327-348 | no two chunks hold the same byte |
| Reader.Reader.ReadAt | util/common/stargz.go:408-463 | past the end and before the start are reported; within the file the result is exactly the slice, from whichever chunk the search starts |
| Reader.Reader.ReadSection | util/common/stargz.go:387-392 | through the section reader every read, at any offset and of any length, gives the part of the file it covers, and says when the file ended |
| Reader.Reader.ChunkEntryForOffset | util/common/stargz.go:327-348 | with a chunk list, the one chunk that holds the byte, none past the end, and the first for a negative offset; without one, as for the name of a hard link, the entry itself up to its chunk size; and nothing for a name that is no data |
| Reader.Reader.ReadFile | util/common/stargz.go:354-463 | every read of every regular file of a written layer, empty ones too, gives the tar's bytes as far as the file goes, and nothing else can be read; through a hard link the same as from its target, if and only if the target is written as it is when cleaned; an unknown name is an error |
| Extractor.SaveLayer | proxy/extractor.go:127-145 | for any order of both maps, each entry is stored with its own chunk list, and it fails if and only if some chunk list has no entry |
| Extractor.WrittenRow | proxy/extractor.go:127-145 | the row saved for a file of a written layer has its digest and size, and chunks that tile its bytes |
| Extractor.WrittenEntry | util/common/stargz.go:650-703 | the row saved for any entry has the name, kind, size and link target of its header, and the digest of its data if it is a regular file |
| Builder.Builder.constructor | proxy/builder.go:517-568 | the layers to fetch are exactly those of the requested image whose hash is in no source layer, and only source layers are available |
| Builder.FindBest | proxy/builder.go:350-359 | for any row order, the reference chosen for a digest is the largest available serial that holds it |
| Builder.GroupRequested | proxy/builder.go:378-397 | each missing digest is mapped to exactly the eligible files that have it, in row order |
| Builder.Builder.NewContent | proxy/builder.go:416-429 | a content's stack and rank are the least of its files', the rank never above the maximum |
| Builder.Builder.CollectContents | proxy/builder.go:406-431 | for any order of the map, there is one content for each missing digest, holding all of its files, and the other files refer to the chosen layer |
| Builder.Builder.SortByRank | proxy/builder.go:432-436 | the contents are rearranged so that ranks never decrease, and still are one for each missing digest |
| Sorting.SortBy | proxy/builder.go:432-436 | sorting rearranges, each element once, into an order in which none comes before a smaller one |
| Builder.Builder.LayOut | proxy/builder.go:438-471 | contents tile the body from offset 0, each with the chunks of its first file, and each file knows its content's stack and order |
| Builder.Builder.ComputeDelta | proxy/builder.go:309-481 | for every order of maps and rows the result is a delta: contents partition what is missing, tile the body, and are sorted by rank unless that is disabled |
| Delta.GroupMembers | proxy/builder.go:378-397 | a group holds exactly the eligible files of its digest, each once |
| Delta.DistinctDigests | proxy/builder.go:407-430 | no two contents have the same digest, and no content's is held by an available layer |
| Delta.Partition | proxy/builder.go:344-471 | each requested file is exactly one of empty, in an available layer, referring to an available layer that holds its digest, or a member of exactly one content, with its digest and order |
| Delta.StackOfFirst | proxy/builder.go:416-429 | when rows come in stack order, a content's stack is its first file's, whose chunks it copies |
| Delta.EarlierNeeded | proxy/builder.go:416-436 | for every file of a later content an earlier content has a file that ranks no later, unless it has no rank |
| Builder.Builder.Load | proxy/builder.go:483-515 | succeeds if and only if the registry has every missing layer in its recorded size, and then each of them, and no other, has its blob |
| Builder.Builder.WriteBody | proxy/builder.go:150-170 | succeeds if and only if every content can be copied from a loaded layer, and then writes the contents' chunks in order |
| Extraction.FileAtInjective | util/receive/image.go:53-59 | two contents share a path only if layer and digest are the same |
| Extraction.Manager.WriteContent | client/manager.go:139-173 | the file holds exactly what the chunks decode to, the stream has moved by their compressed sizes, and it fails if and only if a chunk is short or does not decode |
| Extraction.Manager.Extract | client/manager.go:117-183 | writes what the specification of extraction says, content by content, and closes exactly the signals of contents that were not skipped |
| Decoding.ContentRoundTrip | client/manager.go:157-169 | what the client decodes from the bytes the proxy cut out is the file they were cut from, whatever follows, and they are as many as the chunks' sizes add up to |
| Stream.OffsetInBody | proxy/builder.go:446-470 | each content begins in the body at the offset written in it |
| Stream.Reaches | client/manager.go:127-138 | whatever layers are skipped, extraction arrives at each content exactly at its offset |
| Stream.WrittenOnce | client/manager.go:140-149 | a content's file is never overwritten by a later one |
| Stream.ExtractsBody | client/manager.go:127-183 | a whole run succeeds and consumes the body to the last byte, and no more |
| EndToEnd.LayerLoaded | proxy/builder.go:290-307 | the layer a content is copied from is always among those fetched |
| EndToEnd.ContentIsSound | proxy/builder.go:150-170 | every content of a computed delta can be copied, so no layer is ever missing when the body is written |
| EndToEnd.PullIsFaithful | client/manager.go:117-183 | the body is as long as announced, extraction consumes exactly it, and every file sent into a layer that is not skipped is on disk as in the tar that was converted |
| EndToEnd.RowDelivered | client/manager.go:117-183 | every requested file that the client lacks and no available layer has is then on disk, in a layer no higher than its own, unless that layer is skipped |
| Response.WriteHeader | proxy/builder.go:65-148 | the announced sizes cut the front of the response into the three compressed parts, and Content-Length is their sum and the body's |
| Response.ReadParts | client/client.go:630-683 | reads exactly the three parts, failing if and only if one is short or does not decompress, and stops where the body begins |
| Response.PartsRoundTrip | client/client.go:258-271 | reading an announced response gives the parts as written, and leaves exactly the body |
| Response.WholeResponse | client/client.go:630-783 | for every pull and set of skipped layers, the response is Content-Length bytes; from the bundle decoded out of it, requested files and layers of both images included, the client starts from exactly the configuration the other results are about; each content is at its recorded offset; and extraction driven by that bundle alone consumes every remaining byte and delivers every file |
| PullMachine.StepInv | client/manager.go:117-183 | every step of the extractor and of any open keeps: contents so far are complete and signalled once, no layer is marked before all contents are done, and a passed gate saw its signal |
| PullMachine.RunInv | client/manager.go:117-183 | so it holds in every state of every run |
| Refinement.MachineRefinesExtract | client/manager.go:117-197 | in every interleaving, once every layer is marked the disk is what extraction is specified to leave and a mark for every layer, and nothing else; and a run fails only if extraction of the same body fails |
| Progress.ExtractorMoves | client/manager.go:117-197 | in every state of every run the extractor can step, unless it has failed or marked every layer |
| Progress.StepsBounded | client/manager.go:117-197 | the extractor's steps in any run are bounded by the contents, their chunks and the layers |
| Progress.Finish | client/manager.go:117-197 | every run can be continued to one in which the extractor has failed or marked every layer |
| Progress.WaitersWake | client/manager.go:174-175 | when layers are being marked, a waiting open can pass its gate if and only if its content was not skipped |
| Progress.PassesExactly | client/fs/fs.go:181-210 | an open of a file with a positive order gets past its gate in some run if and only if its content is not skipped |
| ClientView.PullCompletes | client/manager.go:117-197 | the extraction of a computed delta never fails, in any interleaving; it can go on until it has marked every layer, in a bounded number of steps, and has then read exactly the body and left a mark for every layer |
| EarlyStart.EarlyStartSafe | client/fs/fs.go:181-210 | past its gate, the path an open uses holds the whole content from then on, if the order is positive and the content's stack is not mistaken for the file's own |
| EarlyStart.SignalsOnce | client/manager.go:174-175 | no signal is closed twice, and those of skipped contents never |
| EarlyStart.SkippedWaits | client/manager.go:129-138 | an open of a file whose content was skipped never gets past its gate |
| EarlyStart.TooEarlyFirst | util/receive/image.go:166-190 | with order zero there is a run in which an open is past its gate and its path does not hold the file, unless the file was there and stays |
| EarlyStart.TooEarlyElsewhere | util/receive/image.go:166-190 | with a stack taken for the file's own there is such a run, in which the open looks where this pull writes nothing |
| EarlyStart.EarlyStartExactly | util/receive/image.go:166-190 | opens of a file are safe in every run if and only if its order is positive and its content is skipped or looked for where it is put, or the file was there before and stays as it is |
| EarlyStart.MarkedIsComplete | client/manager.go:185-196 | a layer this pull marked complete has, in full, every content placed in it that was not skipped |
| ClientView.FileResolves | client/manager.go:292-303 | a referenced serial is a key of the client's layer map, and the database has the digest for that layer; a payload file is in the content of its order |
| ClientView.ViewIsValid | client/manager.go:292-318 | every computed delta is a valid start for the client: every serial is known and all content paths are distinct |
| ClientView.EarlyOpenReadsTar | client/fs/fs.go:55-68 | in every interleaving, an early open that meets the condition reads the bytes the tar has for the file |
| ClientView.FirstFileUnsafe | util/receive/image.go:166-190 | in every pull that sends anything, the file its first content was collected from is safe to open early if and only if its bytes were there before and stay; never when its path is absent |
| TwoPulls.StoredOnce | proxy/builder.go:418-427 | after a pull a content is in the layer it was stored in, whole, and in no other layer that lacked it |
| TwoPulls.FoundExactly | client/fs/fs.go:55-68 | in every state of a second pull, an open of a file that is not sent finds its path if and only if the layer it looks in is the one where the first pull stored the content; and then it reads the bytes of the tar |
| TwoPulls.FirstPullHas | proxy/builder.go:355-427 | for every file that refers to an image pulled from nothing, that pull sent the content and stored it in the lowest layer that has it, while the open looks in the one with the largest known serial |
| LayerCache.StepInv | util/common/cache.go:49-73 | every step of every fetcher keeps the protocol's invariant |
| LayerCache.OneLoad | proxy/builder.go:172-215 | of any number of fetchers exactly one runs Load |
| LayerCache.ClosedOnce | util/common/cache.go:56-73 | no channel is closed twice, and each waiter's is closed before it returns |
| LayerCache.NobodyBlocked | util/common/cache.go:49-73 | once Load has returned, every fetcher that has not can take its next step |
| LayerCache.NoDeadlock | proxy/builder.go:172-215 | while a fetcher has not returned, someone can move |
| LayerCache.EveryRunEnds | proxy/builder.go:172-215 | a run has at most five steps for each fetcher, and when none is left all have returned |
| LayerCache.BufferIsLoaded | util/common/cache.go:75-104 | in every state of every run the buffer holds given bytes if and only if a load has returned them |
| LayerCache.SuccessIsShared | proxy/builder.go:178-214 | a fetcher that returned success holds the entry for good: its buffer never changes, and holds exactly what the load returned, if it returned anything |
| LayerCache.FailureIsNotShared | util/common/cache.go:75-76 | success stands for a buffer if and only if Load stored one or nobody shared the load |
| LayerCache.FailureHidden | util/common/cache.go:75-76 | a run in which a waiter returns success after a failed load |
| LayerMap.Client.AddCompletedLayers | client/client.go:937-949 | an entry without a manager is added if there is none |
| LayerMap.Client.LoadImage | client/client.go:812-906 | returns the manager in memory or a new one; a new one has offered itself to each of its layers, and each of them then has the manager it had, or this one at the first stack with its hash; nothing else changes |
| LayerMap.Client.PrepareDirectories | client/manager.go:201-226 | a stack counts as complete if and only if its layer has an entry, so equal layers are skipped together |
| LayerMap.Client.CreateSnapshots | client/manager.go:230-269 | each stack's layer keeps the manager it has, or gets this one at the first stack with its hash; a failing snapshot stops after its own layer |
| LayerMap.OfferedMounts | client/client.go:984-1031 | whatever happens later, a mount of a layer that a manager has offered itself to never answers that there is no manager |
| LayerMap.Client.MountLayer | client/client.go:984-1031 | returns the entry's file system, or makes one from its manager; it never tears one down |
| LayerMap.Client.UnmountLayer | client/client.go:1033-1072 | removes the snapshot; the file system is torn down when the last one goes, and stays in the entry |
| LayerHistory.UnmountTakesAway | client/client.go:1033-1072 | an unmount takes exactly its snapshot from its layer, and tears the file system down if and only if that was the last one and unmounting works |
| LayerHistory.OnlyUnmountTearsDown | client/client.go:1048-1064 | in the states that occur nothing else is ever torn down |
| LayerHistory.MountAdds | client/client.go:984-1031 | when a mount is answered, with what, and that it adds its snapshot to those the layer has and touches no other layer |
| LayerHistory.SnapshotsAre | client/client.go:984-1052 | after any history a snapshot is registered for a layer if and only if some mount of it was answered and no unmount of it came later |
| LayerHistory.FileSystemIs | client/client.go:984-1031 | after any history a layer has a file system if and only if a mount of it was answered, and it is that of the first |
| LayerHistory.OthersLeaveManagers | client/client.go:937-949 | only offers give a layer a manager, and a scanned layer has nothing but its entry |
| LayerHistory.ManagerIsLoaded | client/client.go:866-880 | a new manager is in memory from then on, even when the optimizer could not be started |
| LayerMap.RunKeeps | client/client.go:882-1072 | after every sequence of operations: snapshots imply a file system, that a manager, whose layer at the entry's stack is this one; and manager, stack and file system never change once set |
| LayerMap.MountIsStable | client/client.go:984-1031 | in every history a mount tears nothing down, and reports the path of the one file system the layer will ever have |
| LayerMap.MountIsLive | client/client.go:1064-1071 | a mount hands out a file system that is served if and only if the entry had none or one not torn down |
| LayerMap.RemountIsStale | client/client.go:1064-1071 | mount, unmount, mount again hands out the one that was torn down |
| DiskScan.RebuiltMapsBack | client/client.go:211-217 | the digest rebuilt from the names maps back to the same directory |
| DiskScan.Client.ScanDirectory | client/client.go:167-250 | a directory is scanned level by level, and the flag is set if and only if there is a complete layer below |
| DiskScan.Client.ScanExistingFilesystems | client/client.go:167-252 | exactly what has a complete layer above or below it is kept, unchanged, and exactly the complete layers are registered |
| DiskScan.CompleteSurvives | client/client.go:218-229 | a complete layer keeps everything in it and every directory above it, and is registered under a digest that maps back |
| DiskScan.OnlyCompleteSurvives | client/client.go:218-248 | a digest is registered if and only if its directory is complete, and of any other layer directory nothing is left |
| DiskScan.OnlyAliveSurvives | client/client.go:230-248 | whatever is left above or beside the layer directories leads to a complete one |
| Restart.CrashRestart | client/client.go:167-252 | for a pull stopped at any step, a layer is registered if and only if it was marked; then its contents that were not skipped are on disk in full, and otherwise its directory is gone |
| ClientTree.Layer.Build | client/manager.go:327-361 | for every order, each entry is appended once to its directory, each opaque marker is gone and has become its directory's attribute, and a layer without a root fails |
| ClientTree.Reachable | client/manager.go:327-361 | when names are closed under parents, what is left in the map is exactly what can be reached from the root |
| ClientTree.TableNamesClosed | util/common/stargz.go:184-221 | the names of a table are closed under parents |
| SampleDelta.DeltaExists | proxy/builder.go:309-481 | for any rows in stack order, whatever is available, there is a delta |
| SampleLayer.SampleIsConverted | util/common/stargz.go:623-767 | for any list of small files with different names there is a converted layer |
| Pipeline.Convert | util/common/stargz.go:535-767 | a tar is converted if and only if each of its items can be, and the result is a layer holding them, which decompresses to their tar and the table |
| Pipeline.Save | proxy/extractor.go:87-153 | a converted layer opens, and is saved if and only if no hard link dangles; the rows saved are those of its table |
| Pipeline.PullImage | client/client.go:630-783 | for any tars, serials, images, database rows, requests and skipped layers: pushing fails only on a tar that cannot be converted; after it, building, responding and extracting one after another go through whenever serials and digests can be trusted, use up the response, leave every file sent as in its tar, and give the client the configuration of the pull |
| Samples.UpgradeMeetsAll | util/receive/image.go:166-190 | for every lawful format there is an upgrade that meets all hypotheses together, with a file that refers to the old image, one that may be opened early, one with order zero and one with stack zero that must not |
| Samples.EarlyOpenHappens | client/fs/fs.go:181-210 | in that upgrade an open does get past its gate before any layer is marked complete |
| Samples.ReferenceLeadsNowhere | client/fs/fs.go:55-68 | for every lawful format there are two pulls, both run to their end, after which the file of the second refers to a path that is not there |
| Samples.SamplesExist | proxy/builder.go:309-481 | with a concrete format and header encoding all of this exists |
| Tracer.Recorder.Close | client/fs/tracer.go:103-120 | the trace holds the logged items, rearranged by access time |
| Tracer.Positions | client/fs/tracer.go:291-295 | each image is looked up at a position that holds it, even when images repeat |
| Tracer.RankGroup | client/fs/tracer.go:267-330 | ranks count from 0 in the order of absolute access times, and the history is the first item of each file of each trace, once, under that trace's image |
| Tracer.EarliestOnce | client/fs/tracer.go:297-330 | each file of a closed trace appears exactly once from that trace, with its earliest access time counted from the least start, its stack and wait, the rank of its place in that order, and that trace's image |
| Tracer.EarliestIs | client/fs/tracer.go:278-290 | times count from the least start of the traces |
| Tracer.StringLeIs | client/fs/tracer.go:291-295 | image names are in lexicographic order |

## Left out

- StoredCodec.StoredRoundTrip: this codec writes stored blocks and does not compress; what is proved for every lawful codec does not depend on that.
- StoredCodec.StoredIsLawful: the same codec.
- PlainTable.PlainIsLawful: the table is encoded as numbers and not as JSON in a tar, whose encoding is a parameter elsewhere.
- PlainBundle.PlainBundleIsLawful: the header is encoded as numbers and not as JSON, which is a parameter elsewhere.
- Writer.Writer.AppendTar: owner, mode, times, extended attributes and group names are not carried, and the tar is taken as already decompressed.
- Reader.Reader.ReadAt: reading past the end of the file, which the section reader around it prevents (`Reader.Reader.ReadSection`), is not specified.
- Builder.Builder.Load: layers are fetched one after the other, and no layer cache is left from an earlier load that failed; the concurrent side of fetching, failures included, is `LayerCache`, which has one layer.
- Extraction.Manager.WriteContent: errors of creating and writing the file.
- Extraction.Manager.Extract: errors of creating directories and files.
- Response.ReadParts: decoding of manifest and config, and failures of the content store.
- Pipeline.PullImage: a source image is always named, it may be empty; blobs of 2^63 bytes and more are refused, as sizes are 64 bits wide.
- LayerMap.Client.CreateSnapshots: the method runs alone; in the state machine each turn of its loop is a step of its own.
- DiskScan.Client.ScanDirectory: every directory can be read.
- DiskScan.Client.ScanExistingFilesystems: every directory can be read and deleted.
- Restart.CrashRestart: one pull at a time, and directories that can be read and deleted.
- ClientTree.Layer.Build: the tree is specified when nothing lies inside an opaque marker, which is a plain file; otherwise the outcome depends on the order of the map.
- TwoPulls.FirstPullHas: the first image is pulled from nothing; `TwoPulls.FoundExactly` asks for no such thing.
- Overlapping pulls of one layer, and the conditional unlock of the manager map in `PullImage`: the code keeps no clean invariant there.
- A tar appended to a writer after it was closed.
- Landmarks, `VerifyTOC`, and the renaming of whiteouts: carried along or unused.
- The ranking of the "default" group, which takes each trace alone, and the reading of trace files.
- Cache eviction: entries are permanent, since its condition never holds.
- The database beyond row order and uniqueness; HTTP, gRPC, containerd, FUSE, the registry, logging and configuration.
- 64-bit overflow of sizes and offsets, except for the footer's offset.
