/** gzip as a parameter. A codec compresses a payload into one member (section 2.2 of RFC 1952)
    and decodes one member from the front of a byte string, saying how many bytes it took. */
module Gzip {
  import opened Basics

  datatype Member = Member(payload: Bytes, used: nat)

  datatype Codec = Codec(deflate: Bytes -> Bytes, inflate: Bytes -> Option<Member>)

  /** Members are self-delimiting: whatever follows one does not change how it decodes. */
  ghost predicate Lawful(z: Codec) {
    && (forall p: Bytes :: 0 < |z.deflate(p)|)
    && (forall p: Bytes, t: Bytes :: z.inflate(z.deflate(p) + t) == Some(Member(p, |z.deflate(p)|)))
  }

  /** `m` is one whole member that decodes to `p`. */
  ghost predicate IsMember(z: Codec, m: Bytes, p: Bytes) {
    0 < |m| && forall t: Bytes :: z.inflate(m + t) == Some(Member(p, |m|))
  }

  lemma DeflateIsMember(z: Codec, p: Bytes)
    requires Lawful(z)
    ensures IsMember(z, z.deflate(p), p)
  {
  }

  function Deflated(z: Codec, payloads: seq<Bytes>): seq<Bytes> {
    seq(|payloads|, i requires 0 <= i < |payloads| => z.deflate(payloads[i]))
  }

  /** Decoding a whole byte string as consecutive members, as a multistream reader run to its end does. */
  function Gunzip(z: Codec, s: Bytes): Option<Bytes>
    decreases |s|
  {
    if s == [] then Some([])
    else match z.inflate(s)
      case None => None
      case Some(m) =>
        if 0 < m.used <= |s| then
          match Gunzip(z, s[m.used..])
          case None => None
          case Some(rest) => Some(m.payload + rest)
        else None
  }

  /** The first `n` bytes a multistream reader produces from `s`, or None if it fails before that.
      Only as many members are decoded as are needed. */
  function ReadStream(z: Codec, s: Bytes, n: nat): Option<Bytes>
    decreases |s|
  {
    if n == 0 then Some([])
    else match z.inflate(s)
      case None => None
      case Some(m) =>
        if n <= |m.payload| then Some(m.payload[..n])
        else if 0 < m.used <= |s| then
          match ReadStream(z, s[m.used..], n - |m.payload|)
          case None => None
          case Some(rest) => Some(m.payload + rest)
        else None
  }

  lemma {:induction false} GunzipMembers(z: Codec, ms: seq<Bytes>, ps: seq<Bytes>)
    requires |ms| == |ps| && forall i :: 0 <= i < |ms| ==> IsMember(z, ms[i], ps[i])
    ensures Gunzip(z, Flatten(ms)) == Some(Flatten(ps))
    decreases |ms|
  {
    if ms == [] {
    } else {
      GunzipMembers(z, ms[1..], ps[1..]);
      var t := Flatten(ms[1..]);
      assert Flatten(ms) == ms[0] + t;
      assert IsMember(z, ms[0], ps[0]);
      assert (ms[0] + t)[|ms[0]|..] == t;
    }
  }

  /** A stream that starts with members yields their payloads, whatever comes after. */
  lemma {:induction false} ReadStreamMembers(z: Codec, ps: seq<Bytes>, t: Bytes, n: nat)
    requires Lawful(z) && n <= |Flatten(ps)|
    ensures ReadStream(z, Flatten(Deflated(z, ps)) + t, n) == Some(Flatten(ps)[..n])
    decreases |ps|
  {
    if n == 0 {
    } else {
      var ms := Deflated(z, ps);
      assert ms[1..] == Deflated(z, ps[1..]);
      var u := Flatten(ms[1..]) + t;
      assert Flatten(ms) + t == z.deflate(ps[0]) + u;
      assert (z.deflate(ps[0]) + u)[|z.deflate(ps[0])|..] == u;
      if n <= |ps[0]| {
        assert Flatten(ps)[..n] == ps[0][..n];
      } else {
        ReadStreamMembers(z, ps[1..], t, n - |ps[0]|);
        assert Flatten(ps)[..n] == ps[0] + Flatten(ps[1..])[..n - |ps[0]|];
      }
    }
  }

  /** One member alone: reading no more than its payload is a prefix of the payload. */
  lemma ReadOneMember(z: Codec, p: Bytes, n: nat)
    requires Lawful(z) && n <= |p|
    ensures ReadStream(z, z.deflate(p), n) == Some(p[..n])
  {
    assert z.deflate(p) + [] == z.deflate(p);
  }
}
