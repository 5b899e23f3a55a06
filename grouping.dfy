/**
 * Building `folder2files`: the dictionary from folder to the matching files
 * in it, in the flat mode (the current directory only) and the recursive
 * mode (every directory the walk yields). Regular-expression matching and
 * the regular-file test are predicates given by the caller; the directory
 * listing and the walk are given as sequences.
 */
module Grouping {

  /**
   * The dictionary with its keys in insertion order, which is the order in
   * which the script later visits the folders.
   */
  datatype Folders = Folders(order: seq<string>, files: map<string, seq<string>>)

  /** Keys are listed once each, and the listed keys are the dictionary's. */
  ghost predicate Valid(g: Folders) {
    (forall i, j :: 0 <= i < j < |g.order| ==> g.order[i] != g.order[j]) &&
    (forall k :: k in g.files <==> k in g.order)
  }

  /**
   * The paths a folder keeps, in listing order: those the pattern matches
   * and that are regular files.
   */
  function Matching(paths: seq<string>, matches: string -> bool, isFile: string -> bool): seq<string>
    decreases |paths|
  {
    if paths == [] then []
    else
      var p := paths[|paths| - 1];
      var kept := Matching(paths[..|paths| - 1], matches, isFile);
      if matches(p) && isFile(p) then kept + [p] else kept
  }

  /** A path is kept exactly when it is listed, matches and is a regular file. */
  lemma {:induction false} MatchingMembers(paths: seq<string>, matches: string -> bool, isFile: string -> bool)
    ensures forall p :: p in Matching(paths, matches, isFile) <==> p in paths && matches(p) && isFile(p)
    decreases |paths|
  {
    if paths != [] {
      var init := paths[..|paths| - 1];
      MatchingMembers(init, matches, isFile);
      assert paths == init + [paths[|paths| - 1]];
    }
  }

  /**
   * Filtering a listing is filtering its parts one after the other, so the
   * kept paths keep the listing's order.
   */
  lemma {:induction false} MatchingAppend(a: seq<string>, b: seq<string>, matches: string -> bool, isFile: string -> bool)
    ensures Matching(a + b, matches, isFile) == Matching(a, matches, isFile) + Matching(b, matches, isFile)
    decreases |b|
  {
    if b == [] {
      assert a + b == a;
    } else {
      var init := b[..|b| - 1];
      assert (a + b)[..|a + b| - 1] == a + init;
      MatchingAppend(a, init, matches, isFile);
    }
  }

  /** The key of the flat mode: the current directory. */
  const Here: string := "."

  /**
   * The flat mode: one key, ".", holding the matching regular files among
   * the directory's entries, in listing order (the entry name is the path).
   */
  method GroupFlat(entries: seq<string>, matches: string -> bool, isFile: string -> bool)
    returns (g: Folders)
    ensures Valid(g)
    ensures g.order == [Here] && g.files.Keys == {Here}
    ensures g.files[Here] == Matching(entries, matches, isFile)
  {
    g := Folders([Here], map[Here := []]);
    for i := 0 to |entries|
      invariant g.order == [Here] && g.files.Keys == {Here}
      invariant g.files[Here] == Matching(entries[..i], matches, isFile)
    {
      var f := entries[i];
      assert entries[..i + 1][..i] == entries[..i];
      if !matches(f) {
        continue;
      }
      if !isFile(f) {
        continue;
      }
      g := g.(files := g.files[Here := g.files[Here] + [f]]);
    }
    assert entries[..|entries|] == entries;
  }

  /** One step of the walk: a directory, its subdirectories and its files. */
  datatype WalkEntry = WalkEntry(root: string, dirs: seq<string>, files: seq<string>)

  /** `os.path.join(root, name)` on POSIX. */
  function JoinPath(root: string, name: string): string {
    if |name| > 0 && name[0] == '/' then name
    else if root == [] || root[|root| - 1] == '/' then root + name
    else root + "/" + name
  }

  /** The joined paths of an entry's files, in the walk's order. */
  function EntryPaths(e: WalkEntry): (paths: seq<string>)
    ensures |paths| == |e.files|
  {
    seq(|e.files|, i requires 0 <= i < |e.files| => JoinPath(e.root, e.files[i]))
  }

  /**
   * One step of the recursive loop: the root becomes a key if it is not one
   * yet, and its matching regular files are appended to its list.
   */
  function AddEntry(g: Folders, e: WalkEntry, matches: string -> bool, isFile: string -> bool): Folders {
    var keyed := if e.root in g.files then g else Folders(g.order + [e.root], g.files[e.root := []]);
    keyed.(files := keyed.files[e.root := keyed.files[e.root] + Matching(EntryPaths(e), matches, isFile)])
  }

  /** The dictionary after the recursive loop has handled the given walk. */
  function GroupWalk(walk: seq<WalkEntry>, matches: string -> bool, isFile: string -> bool): Folders
    decreases |walk|
  {
    if walk == [] then Folders([], map[])
    else AddEntry(GroupWalk(walk[..|walk| - 1], matches, isFile), walk[|walk| - 1], matches, isFile)
  }

  /** The roots of the walk, in the walk's order. */
  function Roots(walk: seq<WalkEntry>): (roots: seq<string>)
    ensures |roots| == |walk|
  {
    seq(|walk|, i requires 0 <= i < |walk| => walk[i].root)
  }

  /** The distinct elements of `s`, in the order of their first occurrence. */
  function Distinct(s: seq<string>): seq<string>
    decreases |s|
  {
    if s == [] then []
    else
      var d := Distinct(s[..|s| - 1]);
      if s[|s| - 1] in d then d else d + [s[|s| - 1]]
  }

  /** Position of the first occurrence of `x` in `s`, or `|s|`. */
  function FirstIndex(s: seq<string>, x: string): (k: nat)
    ensures k <= |s| && (k < |s| <==> x in s)
    ensures k < |s| ==> s[k] == x && x !in s[..k]
    decreases |s|
  {
    if s == [] then 0 else if s[0] == x then 0 else 1 + FirstIndex(s[1..], x)
  }

  lemma {:induction false} FirstIndexAppend(s: seq<string>, y: string, x: string)
    requires x in s
    ensures FirstIndex(s + [y], x) == FirstIndex(s, x)
    decreases |s|
  {
    if s[0] != x {
      assert (s + [y])[1..] == s[1..] + [y];
      FirstIndexAppend(s[1..], y, x);
    }
  }

  /**
   * `Distinct` holds each element of `s` once, ordered by where it first
   * occurs in `s`.
   */
  lemma {:induction false} DistinctFirstOccurrences(s: seq<string>)
    ensures forall x :: x in Distinct(s) <==> x in s
    ensures forall a, b :: 0 <= a < b < |Distinct(s)| ==>
      FirstIndex(s, Distinct(s)[a]) < FirstIndex(s, Distinct(s)[b])
    decreases |s|
  {
    if s != [] {
      var init := s[..|s| - 1];
      var y := s[|s| - 1];
      DistinctFirstOccurrences(init);
      assert s == init + [y];
      var d := Distinct(init);
      forall x | x in d
        ensures FirstIndex(s, x) == FirstIndex(init, x) < |init|
      {
        FirstIndexAppend(init, y, x);
      }
      if y !in d {
        assert FirstIndex(s, y) == |init|;
      }
    }
  }

  /** Distinct elements are never repeated. */
  lemma DistinctOnce(s: seq<string>)
    ensures forall a, b :: 0 <= a < b < |Distinct(s)| ==> Distinct(s)[a] != Distinct(s)[b]
  {
    DistinctFirstOccurrences(s);
  }

  /**
   * Every root the walk yields is a key, empty list or not, nothing else is,
   * and the keys come in the order in which the walk first yields them.
   */
  lemma {:induction false} GroupWalkKeys(walk: seq<WalkEntry>, matches: string -> bool, isFile: string -> bool)
    ensures var g := GroupWalk(walk, matches, isFile);
      g.order == Distinct(Roots(walk)) && forall r :: r in g.files <==> r in Roots(walk)
    decreases |walk|
  {
    if walk != [] {
      var init := walk[..|walk| - 1];
      GroupWalkKeys(init, matches, isFile);
      DistinctFirstOccurrences(Roots(init));
      assert Roots(walk) == Roots(init) + [walk[|walk| - 1].root];
    }
  }

  /** The dictionary of the recursive mode is valid. */
  lemma GroupWalkValid(walk: seq<WalkEntry>, matches: string -> bool, isFile: string -> bool)
    ensures Valid(GroupWalk(walk, matches, isFile))
  {
    GroupWalkKeys(walk, matches, isFile);
    DistinctFirstOccurrences(Roots(walk));
    DistinctOnce(Roots(walk));
  }

  /** What a root's step of the walk contributes to its list. */
  function Contribution(e: WalkEntry, root: string, matches: string -> bool, isFile: string -> bool): seq<string> {
    if e.root == root then Matching(EntryPaths(e), matches, isFile) else []
  }

  /** The files a root collects from every step of the walk that yields it. */
  function Collected(walk: seq<WalkEntry>, root: string, matches: string -> bool, isFile: string -> bool): seq<string>
    decreases |walk|
  {
    if walk == [] then []
    else Collected(walk[..|walk| - 1], root, matches, isFile) + Contribution(walk[|walk| - 1], root, matches, isFile)
  }

  lemma CollectedAppend(walk: seq<WalkEntry>, e: WalkEntry, root: string, matches: string -> bool, isFile: string -> bool)
    ensures Collected(walk + [e], root, matches, isFile) ==
      Collected(walk, root, matches, isFile) + Contribution(e, root, matches, isFile)
  {
    assert (walk + [e])[..|walk|] == walk;
  }

  lemma {:induction false} CollectedAbsent(walk: seq<WalkEntry>, root: string, matches: string -> bool, isFile: string -> bool)
    requires root !in Roots(walk)
    ensures Collected(walk, root, matches, isFile) == []
    decreases |walk|
  {
    if walk != [] {
      var n := |walk| - 1;
      assert walk[n].root == Roots(walk)[n];
      assert Roots(walk[..n]) == Roots(walk)[..n];
      CollectedAbsent(walk[..n], root, matches, isFile);
    }
  }

  /**
   * Each key's list holds, in walk order, the joined paths of that root's
   * files that match and are regular files.
   */
  lemma {:induction false} GroupWalkFiles(walk: seq<WalkEntry>, matches: string -> bool, isFile: string -> bool)
    ensures var g := GroupWalk(walk, matches, isFile);
      forall r :: r in g.files ==> g.files[r] == Collected(walk, r, matches, isFile)
    decreases |walk|
  {
    if walk != [] {
      var init := walk[..|walk| - 1];
      var e := walk[|walk| - 1];
      GroupWalkFiles(init, matches, isFile);
      GroupWalkKeys(init, matches, isFile);
      assert walk == init + [e];
      var before := GroupWalk(init, matches, isFile);
      var g := GroupWalk(walk, matches, isFile);
      forall r | r in g.files
        ensures g.files[r] == Collected(walk, r, matches, isFile)
      {
        CollectedAppend(init, e, r, matches, isFile);
        if r != e.root {
          assert r in before.files;
        } else if r !in before.files {
          CollectedAbsent(init, r, matches, isFile);
        }
      }
    }
  }

  /**
   * A path is listed under a root exactly when some step of the walk yields
   * that root and the path is one of its files' joined paths that matches and
   * is a regular file.
   */
  lemma {:induction false} CollectedMembers(walk: seq<WalkEntry>, root: string, matches: string -> bool, isFile: string -> bool)
    ensures forall p :: p in Collected(walk, root, matches, isFile) <==>
      matches(p) && isFile(p) && exists i :: 0 <= i < |walk| && walk[i].root == root && p in EntryPaths(walk[i])
    decreases |walk|
  {
    if walk != [] {
      var n := |walk| - 1;
      var init := walk[..n];
      CollectedMembers(init, root, matches, isFile);
      MatchingMembers(EntryPaths(walk[n]), matches, isFile);
      forall p
        ensures (exists i :: 0 <= i < |walk| && walk[i].root == root && p in EntryPaths(walk[i])) <==>
          ((walk[n].root == root && p in EntryPaths(walk[n])) ||
           exists i :: 0 <= i < |init| && init[i].root == root && p in EntryPaths(init[i]))
      {
        if i :| 0 <= i < |walk| && walk[i].root == root && p in EntryPaths(walk[i]) {
          if i < n { assert init[i] == walk[i]; }
        }
        if i :| 0 <= i < |init| && init[i].root == root && p in EntryPaths(init[i]) {
          assert walk[i] == init[i];
        }
      }
    }
  }

  /** The loop's state after one more entry of the walk. */
  lemma GroupWalkNext(walk: seq<WalkEntry>, i: nat, matches: string -> bool, isFile: string -> bool)
    requires i < |walk|
    ensures GroupWalk(walk[..i + 1], matches, isFile) ==
      AddEntry(GroupWalk(walk[..i], matches, isFile), walk[i], matches, isFile)
  {
    assert walk[..i + 1][..i] == walk[..i];
  }

  /**
   * The inner loop of the recursive mode: the joined paths of the entry's
   * files that match and are regular files are appended, in order, to the
   * list of its root, which is already a key; nothing else changes.
   */
  method AppendEntryFiles(g: Folders, e: WalkEntry, matches: string -> bool, isFile: string -> bool)
    returns (g': Folders)
    requires e.root in g.files
    ensures g'.order == g.order
    ensures g'.files == g.files[e.root := g.files[e.root] + Matching(EntryPaths(e), matches, isFile)]
  {
    g' := g;
    ghost var base := g.files[e.root];
    ghost var paths := EntryPaths(e);
    assert paths[..0] == [] && base + [] == base;
    assert g.files == g.files[e.root := base + Matching(paths[..0], matches, isFile)];
    for j := 0 to |e.files|
      invariant g'.order == g.order
      invariant g'.files == g.files[e.root := base + Matching(paths[..j], matches, isFile)]
    {
      var path := JoinPath(e.root, e.files[j]);
      assert paths[..j + 1][..j] == paths[..j] && paths[..j + 1][j] == path;
      ghost var kept := Matching(paths[..j], matches, isFile);
      if !matches(path) {
        assert Matching(paths[..j + 1], matches, isFile) == kept;
        continue;
      }
      if !isFile(path) {
        assert Matching(paths[..j + 1], matches, isFile) == kept;
        continue;
      }
      assert Matching(paths[..j + 1], matches, isFile) == kept + [path];
      assert (base + kept) + [path] == base + (kept + [path]);
      g' := g'.(files := g'.files[e.root := g'.files[e.root] + [path]]);
    }
    assert paths[..|e.files|] == paths;
  }

  /**
   * The recursive mode: for each step of the walk, its root becomes a key if
   * it is not one yet, and the joined paths of its files that match and are
   * regular files are appended to that key's list.
   */
  method GroupRecursive(walk: seq<WalkEntry>, matches: string -> bool, isFile: string -> bool)
    returns (g: Folders)
    ensures g == GroupWalk(walk, matches, isFile)
  {
    g := Folders([], map[]);
    for i := 0 to |walk|
      invariant g == GroupWalk(walk[..i], matches, isFile)
    {
      var e := walk[i];
      GroupWalkNext(walk, i, matches, isFile);
      if e.root !in g.files {
        g := Folders(g.order + [e.root], g.files[e.root := []]);
      }
      g := AppendEntryFiles(g, e, matches, isFile);
    }
    assert walk[..|walk|] == walk;
  }
}
