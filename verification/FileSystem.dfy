/**
 A file system with symbolic links, and the two walks over it: `Walk` places a path without
 asking what exists (workdir.Where), `EvalSymlinks` places it only if every part exists.
 */
module FileSystem {
  import opened Prelude
  import opened Paths

  datatype Node = Dir | File(size: nat) | Special

  /** links maps a place to the text of the link there; nodes holds everything that is not a link. */
  datatype FS = FS(links: map<Path, string>, nodes: map<Path, Node>)

  /** filepath.EvalSymlinks gives up after this many links. */
  const EVAL_LINKS: nat := 255

  /** Where a link found in directory `at` starts over from. */
  function LinkBase(at: Path, target: string): Path {
    if IsAbs(target) then [] else at
  }

  /**
   Place `todo` starting from the link-free place `at`, following at most `hops` links.
   A missing part, a file and a directory all step alike; None is a chain that does not end.
   */
  function Walk(links: map<Path, string>, at: Path, todo: seq<Part>, hops: nat): Option<Path>
    decreases hops, |todo|
  {
    if todo == [] then Some(at)
    else
      var next := Descend(at, todo[0]);
      if IsName(todo[0]) && next in links then
        if hops == 0 then None
        else Walk(links, LinkBase(at, links[next]), Parts(links[next]) + todo[1..], hops - 1)
      else
        Walk(links, next, todo[1..], hops)
  }

  /** workdir.Where: the end of the walk, or the path as given when the chain does not end. */
  function Where(links: map<Path, string>, p: Path, hops: nat): Path {
    match Walk(links, [], p, hops)
    case Some(end) => end
    case None => p
  }

  function NodeAt(fs: FS, p: Path): Option<Node> {
    if p == [] then Some(Dir)
    else if p in fs.nodes then Some(fs.nodes[p])
    else None
  }

  /** The same walk, failing on a part that is missing or that is not a directory and has more below it. */
  function Eval(fs: FS, at: Path, todo: seq<Part>, hops: nat): Option<Path>
    decreases hops, |todo|
  {
    if todo == [] then Some(at)
    else
      var next := Descend(at, todo[0]);
      if !IsName(todo[0]) then Eval(fs, next, todo[1..], hops)
      else if next in fs.links then
        if hops == 0 then None
        else Eval(fs, LinkBase(at, fs.links[next]), Parts(fs.links[next]) + todo[1..], hops - 1)
      else
        match NodeAt(fs, next)
        case None => None
        case Some(node) =>
          if node != Dir && |todo| > 1 then None else Eval(fs, next, todo[1..], hops)
  }

  function EvalSymlinks(fs: FS, p: Path): Option<Path> {
    Eval(fs, [], p, EVAL_LINKS)
  }

  /** os.Stat: what is at the end of the links. */
  function Stat(fs: FS, p: Path): Option<Node> {
    match EvalSymlinks(fs, p)
    case None => None
    case Some(end) => NodeAt(fs, end)
  }

  /** os.Lstat succeeds: something, be it a dangling link, has this name in an existing directory. */
  predicate Occupied(fs: FS, p: Path)
    requires p != []
  {
    match EvalSymlinks(fs, p[..|p| - 1])
    case None => false
    case Some(dir) =>
      var place := dir + [p[|p| - 1]];
      place in fs.links || place in fs.nodes
  }

  /** No component on the way to p, p included, is a link. */
  ghost predicate LinkFree(links: map<Path, string>, p: Path) {
    forall n | 0 < n <= |p| :: p[..n] !in links
  }

  lemma DescendKeepsLinkFree(links: map<Path, string>, at: Path, c: Part)
    requires LinkFree(links, at)
    requires IsName(c) ==> Descend(at, c) !in links
    ensures LinkFree(links, Descend(at, c))
  {
    var next := Descend(at, c);
    forall n | 0 < n <= |next|
      ensures next[..n] !in links
    {
      if n <= |at| {
        assert next[..n] == at[..n];
      } else {
        assert next[..n] == next;
      }
    }
  }

  lemma {:induction false} WalkEndsLinkFree(links: map<Path, string>, at: Path, todo: seq<Part>, hops: nat)
    requires LinkFree(links, at)
    ensures var end := Walk(links, at, todo, hops); end.Some? ==> LinkFree(links, end.value)
    decreases hops, |todo|
  {
    if todo == [] {
    } else {
      var next := Descend(at, todo[0]);
      if IsName(todo[0]) && next in links {
        if hops > 0 {
          WalkEndsLinkFree(links, LinkBase(at, links[next]), Parts(links[next]) + todo[1..], hops - 1);
        }
      } else {
        DescendKeepsLinkFree(links, at, todo[0]);
        WalkEndsLinkFree(links, next, todo[1..], hops);
      }
    }
  }

  lemma {:induction false} WalkOfLinkFree(links: map<Path, string>, at: Path, names: Path, hops: nat)
    requires LinkFree(links, at + names)
    ensures Walk(links, at, names, hops) == Some(at + names)
    decreases |names|
  {
    if names == [] {
      assert at + names == at;
    } else {
      var next := at + [names[0]];
      assert next == (at + names)[..|at| + 1];
      assert next + names[1..] == at + names;
      WalkOfLinkFree(links, next, names[1..], hops);
    }
  }

  lemma {:induction false} WalkPastLinkFree(
    links: map<Path, string>, at: Path, names: Path, rest: seq<Part>, hops: nat)
    requires LinkFree(links, at + names)
    ensures Walk(links, at, names + rest, hops) == Walk(links, at + names, rest, hops)
    decreases |names|
  {
    if names == [] {
      assert names + rest == rest && at + names == at;
    } else {
      var next := at + [names[0]];
      assert next == (at + names)[..|at| + 1];
      assert next + names[1..] == at + names;
      assert (names + rest)[1..] == names[1..] + rest;
      WalkPastLinkFree(links, next, names[1..], rest, hops);
    }
  }

  /** A path with its first link replaced by what the link says, from where the link is. */
  function Followed(dir: Path, target: string, rest: seq<Part>): seq<Part> {
    if IsAbs(target) then Parts(target) + rest else dir + (Parts(target) + rest)
  }

  /** The first link on a path stands for its text, read from the directory the link is in. */
  lemma WalkFollowsLinks(links: map<Path, string>, dir: Path, c: Name, rest: seq<Part>, hops: nat)
    requires LinkFree(links, dir) && dir + [c] in links && hops > 0
    ensures Walk(links, [], dir + ([c] + rest), hops)
         == Walk(links, [], Followed(dir, links[dir + [c]], rest), hops - 1)
  {
    var target := links[dir + [c]];
    assert [] + dir == dir;
    assert ([c] + rest)[1..] == rest;
    WalkPastLinkFree(links, [], dir, [c] + rest, hops);
    if !IsAbs(target) {
      WalkPastLinkFree(links, [], dir, Parts(target) + rest, hops - 1);
    }
  }

  /** And `..` goes to the parent of the place reached so far, not of the path as it is spelled. */
  lemma WalkGoesUp(links: map<Path, string>, dir: Path, rest: seq<Part>, hops: nat)
    requires LinkFree(links, dir) && dir != []
    ensures Walk(links, [], dir + ([".."] + rest), hops) == Walk(links, [], dir[..|dir| - 1] + rest, hops)
  {
    var up := dir[..|dir| - 1];
    assert [] + dir == dir && [] + up == up;
    assert ([".."] + rest)[1..] == rest;
    WalkPastLinkFree(links, [], dir, [".."] + rest, hops);
    assert forall n | 0 < n <= |up| :: up[..n] == dir[..n];
    WalkPastLinkFree(links, [], up, rest, hops);
  }

  /** A place is its own place, and nothing on the way to it is a link unless the chain did not end. */
  lemma WhereIsAPlace(links: map<Path, string>, p: Path, hops: nat)
    ensures Where(links, Where(links, p, hops), hops) == Where(links, p, hops)
    ensures LinkFree(links, Where(links, p, hops)) <==> Walk(links, [], p, hops).Some?
  {
    WalkEndsLinkFree(links, [], p, hops);
    var w := Where(links, p, hops);
    if LinkFree(links, w) {
      assert [] + w == w;
      WalkOfLinkFree(links, [], w, hops);
    }
  }

  lemma {:induction false} EvalIsWalk(fs: FS, at: Path, todo: seq<Part>, hops: nat, more: nat)
    requires hops <= more
    ensures var end := Eval(fs, at, todo, hops);
      end.Some? ==> Walk(fs.links, at, todo, more) == end
    decreases hops, |todo|
  {
    if todo == [] {
    } else {
      var next := Descend(at, todo[0]);
      if IsName(todo[0]) && next in fs.links {
        if hops > 0 {
          EvalIsWalk(fs, LinkBase(at, fs.links[next]), Parts(fs.links[next]) + todo[1..], hops - 1, more - 1);
        }
      } else {
        EvalIsWalk(fs, next, todo[1..], hops, more);
      }
    }
  }

  /** Where is what EvalSymlinks returns, for every path that exists. */
  lemma WhereIsEvalSymlinks(fs: FS, p: Path, hops: nat)
    requires hops >= EVAL_LINKS
    ensures var end := EvalSymlinks(fs, p); end.Some? ==> end.value == Where(fs.links, p, hops)
  {
    EvalIsWalk(fs, [], p, EVAL_LINKS, hops);
  }

  /** In a file system that does not change, resolving a place leads nowhere else. */
  lemma PlaceResolvesToItself(fs: FS, p: Path, hops: nat)
    requires hops >= EVAL_LINKS
    ensures var w := Where(fs.links, p, hops);
      var end := EvalSymlinks(fs, w);
      end.Some? ==> end.value == w && LinkFree(fs.links, w)
  {
    var w := Where(fs.links, p, hops);
    WhereIsAPlace(fs.links, p, hops);
    WhereIsEvalSymlinks(fs, w, hops);
    if EvalSymlinks(fs, w).Some? {
      EvalIsWalk(fs, [], w, EVAL_LINKS, hops);
      WalkEndsLinkFree(fs.links, [], w, hops);
    }
  }

  /** p exists at its place: every directory on the way is one, and p itself is there. */
  ghost predicate Exists(fs: FS, p: Path) {
    && NodeAt(fs, p).Some?
    && forall n | 0 <= n < |p| :: NodeAt(fs, p[..n]) == Some(Dir)
  }

  lemma {:induction false} EvalOfLinkFree(fs: FS, at: Path, names: Path, hops: nat)
    requires LinkFree(fs.links, at + names)
    requires Exists(fs, at) && (names != [] ==> NodeAt(fs, at) == Some(Dir))
    ensures Eval(fs, at, names, hops) == if Exists(fs, at + names) then Some(at + names) else None
    decreases |names|
  {
    var p := at + names;
    if names == [] {
      assert p == at;
    } else {
      var next := at + [names[0]];
      assert next == p[..|at| + 1];
      assert next + names[1..] == p;
      if NodeAt(fs, next).None? || (NodeAt(fs, next) != Some(Dir) && |names| > 1) {
        assert !Exists(fs, p) by {
          assert |names| == 1 ==> p == next;
        }
      } else {
        forall n | 0 <= n < |next|
          ensures NodeAt(fs, next[..n]) == Some(Dir)
        {
          assert next[..n] == at[..n];
          assert n == |at| ==> at[..n] == at;
        }
        EvalOfLinkFree(fs, next, names[1..], hops);
      }
    }
  }

  /** Without links on the way, EvalSymlinks is a test of existence. */
  lemma EvalSymlinksOfLinkFree(fs: FS, p: Path)
    requires LinkFree(fs.links, p)
    ensures EvalSymlinks(fs, p) == if Exists(fs, p) then Some(p) else None
  {
    assert [] + p == p;
    EvalOfLinkFree(fs, [], p, EVAL_LINKS);
  }

  lemma {:induction false} EvalPastDirectories(fs: FS, at: Path, names: Path, rest: seq<Part>, hops: nat)
    requires LinkFree(fs.links, at + names) && Exists(fs, at + names)
    requires NodeAt(fs, at + names) == Some(Dir)
    ensures Eval(fs, at, names + rest, hops) == Eval(fs, at + names, rest, hops)
    decreases |names|
  {
    if names == [] {
      assert names + rest == rest && at + names == at;
    } else {
      var next := at + [names[0]];
      assert next == (at + names)[..|at| + 1];
      assert next + names[1..] == at + names;
      assert (names + rest)[1..] == names[1..] + rest;
      assert NodeAt(fs, next) == Some(Dir) by {
        assert |names| == 1 ==> next == at + names;
      }
      EvalPastDirectories(fs, next, names[1..], rest, hops);
    }
  }

  /** EvalSymlinks follows links in the same way, from a directory that is there. */
  lemma EvalFollowsLinks(fs: FS, dir: Path, c: Name, rest: seq<Part>, hops: nat)
    requires LinkFree(fs.links, dir) && Exists(fs, dir) && NodeAt(fs, dir) == Some(Dir)
    requires dir + [c] in fs.links && hops > 0
    ensures Eval(fs, [], dir + ([c] + rest), hops)
         == Eval(fs, [], Followed(dir, fs.links[dir + [c]], rest), hops - 1)
  {
    var target := fs.links[dir + [c]];
    assert [] + dir == dir;
    assert ([c] + rest)[1..] == rest;
    EvalPastDirectories(fs, [], dir, [c] + rest, hops);
    if !IsAbs(target) {
      EvalPastDirectories(fs, [], dir, Parts(target) + rest, hops - 1);
    }
  }

  lemma EvalGoesUp(fs: FS, dir: Path, rest: seq<Part>, hops: nat)
    requires LinkFree(fs.links, dir) && Exists(fs, dir) && NodeAt(fs, dir) == Some(Dir) && dir != []
    ensures Eval(fs, [], dir + ([".."] + rest), hops) == Eval(fs, [], dir[..|dir| - 1] + rest, hops)
  {
    var up := dir[..|dir| - 1];
    assert [] + dir == dir && [] + up == up;
    assert ([".."] + rest)[1..] == rest;
    EvalPastDirectories(fs, [], dir, [".."] + rest, hops);
    assert forall n | 0 <= n <= |up| :: up[..n] == dir[..n];
    EvalPastDirectories(fs, [], up, rest, hops);
  }
}
