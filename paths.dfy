/**
 * Paths as sequences of name components, and the path arithmetic of the
 * copier: `Path::join` with one component, `strip_prefix`, and the re-rooting
 * `base_dest.join(dir.strip_prefix(&base_source).unwrap())`.
 */
module Paths {
  import opened Results

  type Name = string

  /** A path as its components; `[]` is the root of the modelled file system. */
  type Path = seq<Name>

  predicate IsPrefix(base: Path, p: Path)
  {
    |base| <= |p| && p[..|base|] == base
  }

  /** `p` is a direct entry of `dir`. */
  predicate IsChild(dir: Path, p: Path)
  {
    |p| == |dir| + 1 && p[..|dir|] == dir
  }

  /** Neither path lies at or below the other. */
  predicate Disjoint(a: Path, b: Path)
  {
    !IsPrefix(a, b) && !IsPrefix(b, a)
  }

  function FileName(p: Path): Name
    requires p != []
  {
    p[|p| - 1]
  }

  /** `dir.join(name)` for a single component `name`. */
  function Join(dir: Path, name: Name): (p: Path)
    ensures IsChild(dir, p) && FileName(p) == name
  {
    dir + [name]
  }

  /** `p.strip_prefix(base)`: the components of `p` after `base`, if `base` is a prefix of `p`. */
  function StripPrefix(base: Path, p: Path): (r: Option<Path>)
    ensures r.Some? <==> IsPrefix(base, p)
    ensures r.Some? ==> base + r.value == p
  {
    if IsPrefix(base, p) then Some(p[|base|..]) else None
  }

  /** `target.join(p.strip_prefix(base)?)`: `p` moved from under `base` to under `target`. */
  function Reroot(base: Path, target: Path, p: Path): (r: Option<Path>)
    ensures r.Some? <==> IsPrefix(base, p)
    ensures r.Some? ==> IsPrefix(target, r.value) && |r.value| - |target| == |p| - |base|
  {
    match StripPrefix(base, p)
    case None => None
    case Some(rel) => Some(target + rel)
  }

  /** Re-rooting back from `target` to `base` undoes re-rooting from `base` to `target`. */
  lemma RerootRoundTrip(base: Path, target: Path, p: Path)
    requires IsPrefix(base, p)
    ensures Reroot(target, base, Reroot(base, target, p).value) == Some(p)
  {
    var rel := p[|base|..];
    assert (target + rel)[..|target|] == target;
    assert (target + rel)[|target|..] == rel;
    assert base + rel == p;
  }

  /** Different paths below `base` are re-rooted to different paths. */
  lemma RerootInjective(base: Path, target: Path, p: Path, q: Path)
    requires IsPrefix(base, p) && IsPrefix(base, q)
    requires Reroot(base, target, p) == Reroot(base, target, q)
    ensures p == q
  {
    RerootRoundTrip(base, target, p);
    RerootRoundTrip(base, target, q);
  }

  /** The entry `name` of a directory is re-rooted to the entry `name` of the re-rooted directory. */
  lemma RerootJoin(base: Path, target: Path, dir: Path, name: Name)
    requires IsPrefix(base, dir)
    ensures Reroot(base, target, Join(dir, name)) == Some(Join(Reroot(base, target, dir).value, name))
  {
    var j := Join(dir, name);
    assert j[..|base|] == dir[..|base|];
    assert IsPrefix(base, j);
    assert j[|base|..] == dir[|base|..] + [name];
    assert StripPrefix(base, j) == Some(dir[|base|..] + [name]);
    assert Reroot(base, target, dir).value == target + dir[|base|..];
    assert Reroot(base, target, j) == Some(target + (dir[|base|..] + [name]));
    assert target + (dir[|base|..] + [name]) == Join(target + dir[|base|..], name);
  }

  /** An entry of a directory below `base` is re-rooted to the same entry of the re-rooted directory. */
  lemma RerootEntry(base: Path, target: Path, dir: Path, p: Path)
    requires IsPrefix(base, dir) && IsChild(dir, p)
    ensures Reroot(base, target, p) == Some(Join(Reroot(base, target, dir).value, FileName(p)))
  {
    RerootJoin(base, target, dir, FileName(p));
    assert p == Join(dir, FileName(p));
  }

  /** Re-rooting keeps the parent relation, in both directions. */
  lemma RerootChild(base: Path, target: Path, dir: Path, p: Path)
    requires IsPrefix(base, dir) && IsPrefix(base, p)
    ensures IsChild(Reroot(base, target, dir).value, Reroot(base, target, p).value) <==> IsChild(dir, p)
  {
    var d, q := Reroot(base, target, dir).value, Reroot(base, target, p).value;
    if IsChild(dir, p) {
      RerootJoin(base, target, dir, FileName(p));
      assert p == Join(dir, FileName(p));
    }
    if IsChild(d, q) {
      RerootJoin(target, base, d, FileName(q));
      assert q == Join(d, FileName(q));
      RerootRoundTrip(base, target, dir);
      RerootRoundTrip(base, target, p);
    }
  }

  /** Two prefixes of the same path are comparable. */
  lemma PrefixesComparable(a: Path, b: Path, p: Path)
    requires IsPrefix(a, p) && IsPrefix(b, p)
    ensures IsPrefix(a, b) || IsPrefix(b, a)
  {
    if |a| <= |b| {
      assert b[..|a|] == p[..|a|];
    } else {
      assert a[..|b|] == p[..|b|];
    }
  }

  lemma PrefixTransitive(a: Path, b: Path, c: Path)
    requires IsPrefix(a, b) && IsPrefix(b, c)
    ensures IsPrefix(a, c)
  {
    assert c[..|a|] == c[..|b|][..|a|];
  }

  /** Prefix chains, stated for any three paths. */
  lemma PrefixChain(a: Path, b: Path, c: Path)
    ensures IsPrefix(a, b) && IsPrefix(b, c) ==> IsPrefix(a, c)
  {
    if IsPrefix(a, b) && IsPrefix(b, c) {
      PrefixTransitive(a, b, c);
    }
  }

  /** No path lies below both of two disjoint paths. */
  lemma Apart(a: Path, b: Path, p: Path)
    ensures Disjoint(a, b) && IsPrefix(a, p) ==> !IsPrefix(b, p)
  {
    if IsPrefix(a, p) && IsPrefix(b, p) {
      PrefixesComparable(a, b, p);
    }
  }
}
