/** Cleaned entry names. A name relative to the root is the list of its components; the root is []. */
module Paths {

  type Path = seq<string>

  /** The parts of `s` between slashes. */
  function Split(s: string): (r: seq<string>)
    ensures r != []
  {
    if s == "" then [""]
    else
      var r := Split(s[1..]);
      if s[0] == '/' then [""] + r else [[s[0]] + r[0]] + r[1..]
  }

  /** path.Clean on a rooted path: drop empty parts and dots, let ".." cancel what is before it. */
  function Resolve(parts: seq<string>, acc: Path): Path {
    if parts == [] then acc
    else if parts[0] == "" || parts[0] == "." then Resolve(parts[1..], acc)
    else if parts[0] == ".." then Resolve(parts[1..], Parent(acc))
    else Resolve(parts[1..], acc + [parts[0]])
  }

  /** cleanEntryName. */
  function Clean(name: string): Path {
    Resolve(Split(name), [])
  }

  function Parent(p: Path): Path {
    if p == [] then [] else p[..|p| - 1]
  }

  function BaseName(p: Path): string
    requires p != []
  {
    p[|p| - 1]
  }

  /** The string form of a cleaned name. */
  function Render(p: Path): string {
    if p == [] then "" else if |p| == 1 then p[0] else p[0] + "/" + Render(p[1..])
  }

  predicate ValidPart(c: string) {
    c != "" && c != "." && c != ".." && '/' !in c
  }

  predicate IsClean(p: Path) {
    forall i :: 0 <= i < |p| ==> ValidPart(p[i])
  }

  lemma ParentAndBase(p: Path)
    requires p != []
    ensures p == Parent(p) + [BaseName(p)]
  {
  }

  lemma {:induction false} SplitHasNoSlash(s: string)
    ensures forall i :: 0 <= i < |Split(s)| ==> '/' !in Split(s)[i]
    decreases |s|
  {
    if s != "" {
      SplitHasNoSlash(s[1..]);
    }
  }

  lemma {:induction false} ResolveIsClean(parts: seq<string>, acc: Path)
    requires forall i :: 0 <= i < |parts| ==> '/' !in parts[i]
    requires IsClean(acc)
    ensures IsClean(Resolve(parts, acc))
    decreases |parts|
  {
    if parts == [] {
    } else if parts[0] == "" || parts[0] == "." {
      ResolveIsClean(parts[1..], acc);
    } else if parts[0] == ".." {
      ResolveIsClean(parts[1..], Parent(acc));
    } else {
      ResolveIsClean(parts[1..], acc + [parts[0]]);
    }
  }

  lemma CleanIsClean(name: string)
    ensures IsClean(Clean(name))
  {
    SplitHasNoSlash(name);
    ResolveIsClean(Split(name), []);
  }

  lemma {:induction false} SplitAtSlash(c: string, s: string)
    requires '/' !in c
    ensures Split(c + "/" + s) == [c] + Split(s)
    ensures Split(c) == [c]
    decreases |c|
  {
    if c == "" {
      assert c + "/" + s == "/" + s;
    } else {
      assert (c + "/" + s)[1..] == c[1..] + "/" + s;
      SplitAtSlash(c[1..], s);
      assert c == [c[0]] + c[1..];
    }
  }

  lemma {:induction false} SplitRender(p: Path)
    requires IsClean(p) && p != []
    ensures Split(Render(p)) == p
    decreases |p|
  {
    assert ValidPart(p[0]);
    if |p| == 1 {
      SplitAtSlash(p[0], "");
    } else {
      SplitRender(p[1..]);
      SplitAtSlash(p[0], Render(p[1..]));
    }
  }

  lemma {:induction false} ResolveValid(parts: seq<string>, acc: Path)
    requires IsClean(parts)
    ensures Resolve(parts, acc) == acc + parts
    decreases |parts|
  {
    if parts != [] {
      assert ValidPart(parts[0]);
      ResolveValid(parts[1..], acc + [parts[0]]);
    }
  }

  /** Cleaning is idempotent: a cleaned name read back is itself. */
  lemma CleanRender(p: Path)
    requires IsClean(p)
    ensures Clean(Render(p)) == p
  {
    if p == [] {
      assert Split("") == [""];
    } else {
      SplitRender(p);
      ResolveValid(p, []);
    }
  }

  // --- what cleaning does, one part after another

  lemma {:induction false} SplitSnoc(s: string, c: string)
    requires '/' !in c
    ensures Split(s + "/" + c) == Split(s) + [c]
    decreases |s|
  {
    SplitAtSlash(c, "");
    if s == "" {
      assert s + "/" + c == ['/'] + c;
    } else {
      assert (s + "/" + c)[1..] == s[1..] + "/" + c;
      SplitSnoc(s[1..], c);
    }
  }

  lemma {:induction false} ResolveSnoc(parts: seq<string>, acc: Path, c: string)
    ensures var before := Resolve(parts, acc);
            Resolve(parts + [c], acc) ==
              if c == "" || c == "." then before
              else if c == ".." then before[..if before == [] then 0 else |before| - 1]
              else before + [c]
    decreases |parts|
  {
    if parts == [] {
      assert parts + [c] == [c] && [c][1..] == [];
    } else {
      assert (parts + [c])[1..] == parts[1..] + [c];
      if parts[0] == "" || parts[0] == "." {
        ResolveSnoc(parts[1..], acc, c);
      } else if parts[0] == ".." {
        ResolveSnoc(parts[1..], Parent(acc), c);
      } else {
        ResolveSnoc(parts[1..], acc + [parts[0]], c);
      }
    }
  }

  /** A last part that is empty or a dot changes nothing, ".." takes one component away if there is one, and
      any other part adds itself. */
  lemma CleanSnoc(s: string, c: string)
    requires '/' !in c
    ensures Clean(s + "/" + c) ==
              if c == "" || c == "." then Clean(s)
              else if c == ".." then Clean(s)[..if Clean(s) == [] then 0 else |Clean(s)| - 1]
              else Clean(s) + [c]
  {
    SplitSnoc(s, c);
    ResolveSnoc(Split(s), [], c);
  }

  /** A name without a slash. */
  lemma CleanPart(c: string)
    requires '/' !in c
    ensures Clean(c) == if c == "" || c == "." || c == ".." then [] else [c]
  {
    SplitAtSlash(c, "");
    ResolveSnoc([], [], c);
    assert [] + [c] == [c];
  }
}
