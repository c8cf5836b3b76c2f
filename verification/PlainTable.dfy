/** A concrete table encoding: with the stored-block codec it meets everything asked of the format, so
    that what is proved for every lawful format is not proved of nothing. */
module PlainTable {
  import opened Basics
  import opened Toc
  import opened StoredCodec

  /** Numbers in unary, each ended by a zero byte. */
  function Unary(n: nat): Bytes {
    if n == 0 then [0] else [1] + Unary(n - 1)
  }

  function EncodeNums(ns: seq<nat>): Bytes {
    if ns == [] then [] else Unary(ns[0]) + EncodeNums(ns[1..])
  }

  /** Reads numbers; `n` has been counted of the one that is under way. */
  function DecodeNums(s: Bytes, n: nat): Option<seq<nat>> {
    if s == [] then (if n == 0 then Some([]) else None)
    else if s[0] != 0 then DecodeNums(s[1..], n + 1)
    else match DecodeNums(s[1..], 0)
      case None => None
      case Some(rest) => Some([n] + rest)
  }

  lemma {:induction false} DecodeUnary(k: nat, n: nat, t: Bytes)
    ensures DecodeNums(Unary(k) + t, n) == DecodeNums([0] + t, n + k)
    decreases k
  {
    if k > 0 {
      assert (Unary(k) + t)[1..] == Unary(k - 1) + t;
      DecodeUnary(k - 1, n + 1, t);
    }
  }

  lemma {:induction false} NumsRoundTrip(ns: seq<nat>)
    ensures DecodeNums(EncodeNums(ns), 0) == Some(ns)
    decreases |ns|
  {
    if ns == [] {
      assert DecodeNums([], 0) == Some([]);
    } else {
      var t := EncodeNums(ns[1..]);
      DecodeUnary(ns[0], 0, t);
      assert ([0] + t)[1..] == t;
      NumsRoundTrip(ns[1..]);
      assert [ns[0]] + ns[1..] == ns;
    }
  }

  datatype Taken<T> = Taken(value: T, rest: seq<nat>)

  function Codes(s: string): seq<nat> {
    if s == "" then [] else [s[0] as nat] + Codes(s[1..])
  }

  function StringNums(s: string): seq<nat> {
    [|s|] + Codes(s)
  }

  function TakeChars(ns: seq<nat>, n: nat): Option<Taken<string>> {
    if n == 0 then Some(Taken("", ns))
    else if ns == [] || !(ns[0] < 0xD800 || 0xE000 <= ns[0] < 0x11_0000) then None
    else match TakeChars(ns[1..], n - 1)
      case None => None
      case Some(t) => Some(Taken([ns[0] as char] + t.value, t.rest))
  }

  function TakeString(ns: seq<nat>): Option<Taken<string>> {
    if ns == [] then None else TakeChars(ns[1..], ns[0])
  }

  lemma {:induction false} CharsRoundTrip(s: string, t: seq<nat>)
    ensures TakeChars(Codes(s) + t, |s|) == Some(Taken(s, t))
    decreases |s|
  {
    if s != "" {
      assert (Codes(s) + t)[1..] == Codes(s[1..]) + t;
      CharsRoundTrip(s[1..], t);
      assert [s[0]] + s[1..] == s;
    } else {
      assert Codes(s) + t == t;
    }
  }

  lemma StringRoundTrip(s: string, t: seq<nat>)
    ensures TakeString(StringNums(s) + t) == Some(Taken(s, t))
  {
    var ns := StringNums(s) + t;
    assert StringNums(s) == [|s|] + Codes(s);
    assert ns[0] == |s| && ns[1..] == Codes(s) + t;
    CharsRoundTrip(s, t);
  }

  function KindNum(k: Kind): nat {
    match k
    case Dir => 0
    case Reg => 1
    case Symlink => 2
    case Hardlink => 3
    case CharDevice => 4
    case BlockDevice => 5
    case Fifo => 6
    case Chunk => 7
  }

  function NumKind(n: nat): Kind {
    if n == 0 then Dir else if n == 1 then Reg else if n == 2 then Symlink else if n == 3 then Hardlink
    else if n == 4 then CharDevice else if n == 5 then BlockDevice else if n == 6 then Fifo else Chunk
  }

  function Fixed(e: TocEntry): (r: seq<nat>)
    ensures |r| == 7
  {
    [KindNum(e.kind), e.size, e.offset, e.chunkOffset, Sign(e.chunkSize), Size(e.chunkSize), e.compressedSize]
  }

  function Sign(n: int): nat {
    if n < 0 then 1 else 0
  }

  function Size(n: int): nat {
    if n < 0 then -n else n
  }

  function SignedNum(sign: nat, n: nat): int {
    var m: int := n;
    if sign == 1 then -m else m
  }

  function EntryNums(e: TocEntry): seq<nat> {
    Fixed(e) + (StringNums(e.name) + (StringNums(e.linkName) + (StringNums(e.digest) + StringNums(e.chunkDigest))))
  }

  function TakeEntry(ns: seq<nat>): Option<Taken<TocEntry>> {
    if |ns| < 7 then None
    else match TakeString(ns[7..])
      case None => None
      case Some(name) =>
        match TakeString(name.rest)
        case None => None
        case Some(link) =>
          match TakeString(link.rest)
          case None => None
          case Some(digest) =>
            match TakeString(digest.rest)
            case None => None
            case Some(chunk) =>
              Some(Taken(TocEntry(name.value, NumKind(ns[0]), ns[1], link.value, ns[2], ns[3], SignedNum(ns[4], ns[5]),
                        ns[6],
                                  digest.value, chunk.value), chunk.rest))
  }

  lemma EntryRoundTrip(e: TocEntry, t: seq<nat>)
    ensures TakeEntry(EntryNums(e) + t) == Some(Taken(e, t))
  {
    hide StringNums, TakeString;
    var ns := EntryNums(e) + t;
    var after := StringNums(e.chunkDigest) + t;
    assert ns[..7] == Fixed(e);
    assert ns[7..] == StringNums(e.name) + (StringNums(e.linkName) + (StringNums(e.digest) + after));
    StringRoundTrip(e.name, StringNums(e.linkName) + (StringNums(e.digest) + after));
    StringRoundTrip(e.linkName, StringNums(e.digest) + after);
    StringRoundTrip(e.digest, after);
    StringRoundTrip(e.chunkDigest, t);
  }

  // --- lists

  function EachNums<T>(enc: T -> seq<nat>, xs: seq<T>): seq<nat> {
    if xs == [] then [] else enc(xs[0]) + EachNums(enc, xs[1..])
  }

  function ListNums<T>(enc: T -> seq<nat>, xs: seq<T>): seq<nat> {
    [|xs|] + EachNums(enc, xs)
  }

  function TakeEach<T>(take: seq<nat> -> Option<Taken<T>>, ns: seq<nat>, n: nat): Option<Taken<seq<T>>>
    decreases n
  {
    if n == 0 then Some(Taken([], ns))
    else match take(ns)
      case None => None
      case Some(x) =>
        match TakeEach(take, x.rest, n - 1)
        case None => None
        case Some(xs) => Some(Taken([x.value] + xs.value, xs.rest))
  }

  function TakeList<T>(take: seq<nat> -> Option<Taken<T>>, ns: seq<nat>): Option<Taken<seq<T>>> {
    if ns == [] then None else TakeEach(take, ns[1..], ns[0])
  }

  /** What `enc` writes, `take` takes, whatever follows. */
  ghost predicate Inverse<T(!new)>(enc: T -> seq<nat>, take: seq<nat> -> Option<Taken<T>>) {
    forall x: T, t: seq<nat> :: take(enc(x) + t) == Some(Taken(x, t))
  }

  lemma {:induction false} EachRoundTrip<T(!new)>(enc: T -> seq<nat>, take: seq<nat> -> Option<Taken<T>>, xs: seq<T>,
                                           t: seq<nat>)
    requires Inverse(enc, take)
    ensures TakeEach(take, EachNums(enc, xs) + t, |xs|) == Some(Taken(xs, t))
    decreases |xs|
  {
    if xs == [] {
      assert EachNums(enc, xs) + t == t;
    } else {
      assert EachNums(enc, xs) + t == enc(xs[0]) + (EachNums(enc, xs[1..]) + t);
      EachRoundTrip(enc, take, xs[1..], t);
      assert [xs[0]] + xs[1..] == xs;
    }
  }

  lemma ListRoundTrip<T(!new)>(enc: T -> seq<nat>, take: seq<nat> -> Option<Taken<T>>, xs: seq<T>, t: seq<nat>)
    requires Inverse(enc, take)
    ensures TakeList(take, ListNums(enc, xs) + t) == Some(Taken(xs, t))
  {
    var ns := ListNums(enc, xs) + t;
    assert ns[0] == |xs| && ns[1..] == EachNums(enc, xs) + t;
    EachRoundTrip(enc, take, xs, t);
  }

  lemma EntriesInvert()
    ensures Inverse(EntryNums, TakeEntry)
  {
    hide EntryNums, TakeEntry;
    forall e: TocEntry, t: seq<nat> ensures TakeEntry(EntryNums(e) + t) == Some(Taken(e, t)) {
      EntryRoundTrip(e, t);
    }
  }

  /** Nothing is put around the table. */
  function AsIs(s: Bytes): Bytes {
    s
  }

  function WritePlain(es: seq<TocEntry>): Bytes {
    EncodeNums(ListNums(EntryNums, es))
  }

  function ReadPlain(s: Bytes): Option<seq<TocEntry>> {
    match DecodeNums(s, 0)
    case None => None
    case Some(ns) =>
      match TakeList(TakeEntry, ns)
      case None => None
      case Some(t) => if t.rest == [] then Some(t.value) else None
  }

  /** Whatever the digest function, there is a lawful format. */
  lemma PlainIsLawful(sha: Bytes -> string)
    ensures LawfulFormat(Format(STORED, sha, WritePlain, AsIs, ReadPlain))
  {
    StoredIsLawful();
    EntriesInvert();
    hide DecodeNums, EncodeNums, TakeList, ListNums, EntryNums, TakeEntry, Inverse;
    forall es: seq<TocEntry> ensures ReadPlain(WritePlain(es)) == Some(es) {
      NumsRoundTrip(ListNums(EntryNums, es));
      ListRoundTrip(EntryNums, TakeEntry, es, []);
      assert ListNums(EntryNums, es) + [] == ListNums(EntryNums, es);
    }
  }
}
