/**
The path helper of the file update checker. A path is an expanded absolute one: the
sequence of its parts below the root. `Pathname#ascend` visits the prefixes of it.
 */
module Paths {
  import opened Wrappers

  type Path = seq<string>

  // `ascendant_of?`: a proper ancestor.
  predicate AscendantOf(base: Path, other: Path) { base < other }

  // --- filter_out_descendants ---------------------------------------------------

  ghost predicate TopMost(path: Path, dirs: seq<Path>) {
    path in dirs && forall other | other in dirs :: !AscendantOf(other, path)
  }

  predicate ByParts(dirs: seq<Path>) { forall i, j | 0 <= i < j < |dirs| :: |dirs[i]| <= |dirs[j]| }

  function Insert(dir: Path, sorted: seq<Path>): (r: seq<Path>)
    requires ByParts(sorted)
    ensures ByParts(r) && forall x :: x in r <==> x == dir || x in sorted
  {
    if sorted == [] then [dir]
    else if |dir| <= |sorted[0]| then [dir] + sorted
    else
      assert sorted == [sorted[0]] + sorted[1..];
      var rest := Insert(dir, sorted[1..]);
      assert forall x | x in rest :: |sorted[0]| <= |x|;
      [sorted[0]] + rest
  }

  // `sort_by` the number of parts.
  function Sort(dirs: seq<Path>): (r: seq<Path>)
    ensures ByParts(r) && forall x :: x in r <==> x in dirs
  {
    if dirs == [] then []
    else
      assert dirs == [dirs[0]] + dirs[1..];
      Insert(dirs[0], Sort(dirs[1..]))
  }

  // `Array#-`.
  function Minus(dirs: seq<Path>, removed: seq<Path>): seq<Path> {
    if dirs == [] then []
    else (if dirs[0] in removed then [] else [dirs[0]]) + Minus(dirs[1..], removed)
  }

  // The part of `dirs` that is topmost in `all`, in the order of `dirs`.
  ghost function Roots(dirs: seq<Path>, all: seq<Path>): seq<Path> {
    if dirs == [] then []
    else (if TopMost(dirs[0], all) then [dirs[0]] else []) + Roots(dirs[1..], all)
  }

  lemma {:induction false} MinusIsRoots(dirs: seq<Path>, all: seq<Path>, removed: seq<Path>)
    requires forall d | d in dirs :: TopMost(d, all) <==> d !in removed
    ensures Minus(dirs, removed) == Roots(dirs, all)
  {
    if dirs == [] {
    } else {
      MinusIsRoots(dirs[1..], all, removed);
    }
  }

  // Those below dir, or those not below it.
  function Part(dir: Path, dirs: seq<Path>, below: bool): seq<Path> {
    if dirs == [] then []
    else (if AscendantOf(dir, dirs[0]) == below then [dirs[0]] else []) + Part(dir, dirs[1..], below)
  }

  lemma {:induction false} PartMembers(dir: Path, dirs: seq<Path>, below: bool)
    ensures |Part(dir, dirs, below)| <= |dirs|
    ensures forall p :: p in Part(dir, dirs, below) <==> p in dirs && AscendantOf(dir, p) == below
  {
    if dirs == [] {
    } else {
      PartMembers(dir, dirs[1..], below);
      assert dirs == [dirs[0]] + dirs[1..];
    }
  }

  lemma {:induction false} PartIsByParts(dir: Path, dirs: seq<Path>, below: bool)
    requires ByParts(dirs)
    ensures ByParts(Part(dir, dirs, below))
  {
    if dirs == [] {
    } else {
      var tail, rest := dirs[1..], Part(dir, dirs[1..], below);
      PartIsByParts(dir, tail, below);
      PartMembers(dir, tail, below);
      forall k | 0 <= k < |rest| ensures |dirs[0]| <= |rest[k]| {
        assert rest[k] in tail;
      }
    }
  }

  lemma {:induction false} PartGoesOn(dir: Path, dirs: seq<Path>, i: nat, below: bool, done: seq<Path>)
    requires i < |dirs|
    ensures done + Part(dir, dirs[i..], below) ==
            (if AscendantOf(dir, dirs[i]) == below then done + [dirs[i]] else done) + Part(dir, dirs[i + 1..], below)
  {
    assert dirs[i..][1..] == dirs[i + 1..];
  }

  // `reject!` of the descendants of dir, which are collected.
  method Reject(dir: Path, sorted: seq<Path>, descendants: seq<Path>)
    returns (kept: seq<Path>, collected: seq<Path>)
    ensures kept == Part(dir, sorted, false) && collected == descendants + Part(dir, sorted, true)
  {
    kept, collected := [], descendants;
    for i := 0 to |sorted|
      invariant kept + Part(dir, sorted[i..], false) == Part(dir, sorted, false)
      invariant collected + Part(dir, sorted[i..], true) == descendants + Part(dir, sorted, true)
    {
      PartGoesOn(dir, sorted, i, false, kept);
      PartGoesOn(dir, sorted, i, true, collected);
      if AscendantOf(dir, sorted[i]) {
        collected := collected + [sorted[i]];
      } else {
        kept := kept + [sorted[i]];
      }
    }
  }

  // Every descendant found lies below one of the paths dealt with, so an ancestor that
  // was itself removed was removed by a still higher one.
  ghost predicate Sorting(dirs: seq<Path>, sorted: seq<Path>, descendants: seq<Path>, done: seq<Path>) {
    && ByParts(sorted)
    && (forall p :: p in dirs <==> p in sorted || p in descendants || p in done)
    && (forall p | p in descendants :: exists q :: q in done && AscendantOf(q, p))
    && (forall p, q | p in sorted && q in done :: !AscendantOf(q, p))
    && (forall p | p in done :: TopMost(p, dirs))
  }

  lemma {:induction false} HeadIsTopMost(dirs: seq<Path>, sorted: seq<Path>, descendants: seq<Path>, done: seq<Path>)
    requires Sorting(dirs, sorted, descendants, done) && sorted != []
    ensures TopMost(sorted[0], dirs)
  {
    var dir := sorted[0];
    forall other | other in dirs ensures !AscendantOf(other, dir) {
      if other in sorted {
        var j :| 0 <= j < |sorted| && sorted[j] == other;
        assert |sorted[0]| <= |sorted[j]|;
      } else if other in descendants {
        var q :| q in done && AscendantOf(q, other);
        assert AscendantOf(other, dir) ==> AscendantOf(q, dir);
      }
    }
  }

  lemma {:induction false} SortingIsKept(
      dirs: seq<Path>, sorted: seq<Path>, descendants: seq<Path>, done: seq<Path>, reduced: seq<Path>, more: seq<Path>)
    requires Sorting(dirs, sorted, descendants, done) && sorted != [] && TopMost(sorted[0], dirs) && ByParts(reduced)
    requires forall p :: p in reduced <==> p in sorted[1..] && !AscendantOf(sorted[0], p)
    requires forall p :: p in more <==> p in descendants || (p in sorted[1..] && AscendantOf(sorted[0], p))
    ensures Sorting(dirs, reduced, more, done + [sorted[0]])
  {
    var later := done + [sorted[0]];
    assert sorted == [sorted[0]] + sorted[1..];
    assert forall q :: q in later <==> q in done || q == sorted[0];
    forall p | p in more ensures exists q :: q in later && AscendantOf(q, p) {
      if p in descendants {
        var q :| q in done && AscendantOf(q, p);
        assert q in later;
      } else {
        assert sorted[0] in later;
      }
    }
  }

  lemma {:induction false} MinusNothing(dirs: seq<Path>)
    ensures Minus(dirs, []) == dirs
  {
    if dirs == [] {
    } else {
      MinusNothing(dirs[1..]);
    }
  }

  // Exactly the paths without a proper ancestor in the collection, in the original order.
  method FilterOutDescendants(dirs: seq<Path>) returns (kept: seq<Path>)
    ensures kept == Roots(dirs, dirs)
  {
    if |dirs| < 2 {
      MinusIsRoots(dirs, dirs, []);
      MinusNothing(dirs);
      return dirs;
    }
    var sorted, descendants := Sort(dirs), [];
    ghost var done: seq<Path> := [];
    while sorted != []
      invariant Sorting(dirs, sorted, descendants, done)
      decreases |sorted|
    {
      HeadIsTopMost(dirs, sorted, descendants, done);
      var dir, rest := sorted[0], sorted[1..];
      var reduced, more := Reject(dir, rest, descendants);
      PartMembers(dir, rest, false);
      PartMembers(dir, rest, true);
      PartIsByParts(dir, rest, false);
      SortingIsKept(dirs, sorted, descendants, done, reduced, more);
      sorted, descendants, done := reduced, more, done + [dir];
    }
    MinusIsRoots(dirs, dirs, descendants);
    return Minus(dirs, descendants);
  }

  lemma {:induction false} RootsAreTopMost(dirs: seq<Path>, all: seq<Path>, path: Path)
    ensures path in Roots(dirs, all) <==> path in dirs && TopMost(path, all)
  {
    if dirs == [] {
    } else {
      RootsAreTopMost(dirs[1..], all, path);
      assert dirs == [dirs[0]] + dirs[1..];
    }
  }

  // Nothing goes unwatched: every path of the collection lies at or below one that is
  // kept, and of those kept none lies below another.
  lemma {:induction false} RootsCover(dirs: seq<Path>, path: Path) returns (root: Path)
    requires path in dirs
    ensures root in Roots(dirs, dirs) && root <= path
    ensures forall other | other in Roots(dirs, dirs) :: !AscendantOf(other, root) && !AscendantOf(root, other)
    decreases |path|
  {
    if other :| other in dirs && AscendantOf(other, path) {
      root := RootsCover(dirs, other);
    } else {
      root := path;
      RootsAreTopMost(dirs, dirs, path);
      forall other | other in Roots(dirs, dirs) ensures !AscendantOf(other, root) && !AscendantOf(root, other) {
        RootsAreTopMost(dirs, dirs, other);
      }
    }
  }

  // --- longest_common_subpath -----------------------------------------------------

  ghost predicate Common(path: Path, paths: seq<Path>) { forall p | p in paths :: path <= p }

  // What the documentation promises.
  ghost predicate Longest(path: Path, paths: seq<Path>) {
    paths != [] && Common(path, paths) && forall other | Common(other, paths) :: other <= path
  }

  // A path after the first that lies at or above all the others.
  ghost predicate CoversAll(path: Path, paths: seq<Path>) {
    paths != [] && path in paths[1..] && Common(path, paths)
  }

  // The loop's result over the paths after the first: a proper ancestor of each, and
  // the longest such prefix of the start.
  ghost predicate ProperlyAbove(path: Path, others: seq<Path>) { forall p | p in others :: AscendantOf(path, p) }

  lemma {:induction false} MeetsItsDocumentation(paths: seq<Path>, path: Path)
    requires paths != [] && path <= paths[0] && ProperlyAbove(path, paths[1..])
    requires forall q | q <= paths[0] && ProperlyAbove(q, paths[1..]) :: q <= path
    ensures Longest(path, paths) <==> !exists p :: CoversAll(p, paths)
  {
    assert paths == [paths[0]] + paths[1..];
    if p :| CoversAll(p, paths) {
      assert AscendantOf(path, p);
    } else {
      forall q | Common(q, paths) ensures q <= path {
        forall p | p in paths[1..] ensures AscendantOf(q, p) {
          assert p in paths && !CoversAll(p, paths);
        }
        assert paths[0] in paths && ProperlyAbove(q, paths[1..]);
      }
    }
  }

  // The code demands a proper ancestor of every path after the first, so it meets its
  // documentation exactly when none of those lies at or above all the others.
  method LongestCommonSubpath(paths: seq<Path>) returns (r: Option<Path>)
    ensures r.Some? ==>
              && paths != [] && r.value <= paths[0] && ProperlyAbove(r.value, paths[1..])
              && forall q | q <= paths[0] && ProperlyAbove(q, paths[1..]) :: q <= r.value
    ensures r.None? <==> paths == [] || [] in paths[1..]
    ensures paths != [] ==>
              ((r.Some? && Longest(r.value, paths)) <==> !exists p :: CoversAll(p, paths))
  {
    if paths == [] {
      return None;
    }
    var lcsp := paths[0];
    for i := 1 to |paths|
      invariant lcsp <= paths[0] && ProperlyAbove(lcsp, paths[1..i]) && [] !in paths[1..i]
      invariant forall q | q <= paths[0] && ProperlyAbove(q, paths[1..i]) :: q <= lcsp
    {
      assert paths[1..i + 1] == paths[1..i] + [paths[i]];
      ghost var before := lcsp;
      while !AscendantOf(lcsp, paths[i])
        invariant lcsp <= before
        invariant forall q | q <= before && AscendantOf(q, paths[i]) :: q <= lcsp
        decreases |lcsp|
      {
        if lcsp == [] {
          assert paths[i] == [] && paths[i] == paths[1..][i - 1];
          assert CoversAll([], paths);
          return None;
        }
        forall q | q <= before && AscendantOf(q, paths[i]) ensures q <= lcsp[..|lcsp| - 1] {
          assert q != lcsp;
        }
        lcsp := lcsp[..|lcsp| - 1];
      }
      ghost var visited := paths[1..i + 1];
      forall q | q <= paths[0] && ProperlyAbove(q, visited) ensures q <= lcsp {
        assert forall p | p in paths[1..i] :: p in paths[1..i + 1];
        assert ProperlyAbove(q, paths[1..i]) && paths[i] in paths[1..i + 1];
      }
    }
    assert paths[1..|paths|] == paths[1..];
    MeetsItsDocumentation(paths, lcsp);
    return Some(lcsp);
  }

  // The same two paths in either order: after /a the path /a/b changes nothing, but after
  // /a/b the path /a covers all, and the root is found instead of /a.
  lemma {:induction false} OrderMatters()
    ensures !exists p :: CoversAll(p, [["a"], ["a", "b"]])
    ensures CoversAll(["a"], [["a", "b"], ["a"]]) && Longest(["a"], [["a", "b"], ["a"]])
    ensures forall q :: ProperlyAbove(q, [["a", "b"], ["a"]][1..]) <==> q == []
  {
    var one, two: Path := ["a"], ["a", "b"];
    assert [one, two][1..] == [two] && [two, one][1..] == [one];
    assert one <= two && !(two <= one);
    assert one in [one, two] && one in [one];
    forall p ensures !CoversAll(p, [one, two]) {
    }
    forall q | Common(q, [two, one]) ensures q <= one {
      assert one in [two, one];
    }
    forall q ensures ProperlyAbove(q, [one]) <==> q == [] {
      assert AscendantOf(q, one) <==> q == [];
    }
  }
}
