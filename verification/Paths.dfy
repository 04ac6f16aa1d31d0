/**
 Clean absolute paths, and the string that filepath.Rel makes of two of them.
 A path is the sequence of its components; `[]` is the root directory.
 */
module Paths {
  import opened Text

  /** Anything a separator-free stretch of a path can be, `""`, `.` and `..` included. */
  type Part = c: string | '/' !in c witness ""

  predicate IsName(c: string) {
    c != "" && c != "." && c != ".." && '/' !in c
  }

  /** A component of a clean path. */
  type Name = c: Part | IsName(c) witness "a"

  type Path = seq<Name>

  function Parts(s: string): seq<Part> {
    Split(s, '/')
  }

  predicate IsAbs(s: string) {
    HasPrefix(s, "/")
  }

  /** One component taken lexically: `..` removes the component before it. */
  function Descend(at: Path, c: Part): Path {
    if c == "" || c == "." then at
    else if c == ".." then (if at == [] then [] else at[..|at| - 1])
    else at + [c]
  }

  function Lexical(at: Path, todo: seq<Part>): Path
    decreases |todo|
  {
    if todo == [] then at else Lexical(Descend(at, todo[0]), todo[1..])
  }

  /** filepath.Clean of an absolute path. */
  function Clean(s: string): Path {
    Lexical([], Parts(s))
  }

  /** filepath.Join of an absolute directory and a relative path. */
  function JoinClean(dir: string, rel: string): Path {
    Clean(dir + "/" + rel)
  }

  function Render(p: Path): string {
    "/" + Join(p, '/')
  }

  lemma {:induction false} LexicalNames(at: Path, names: Path)
    ensures Lexical(at, names) == at + names
    decreases |names|
  {
    if names == [] {
    } else {
      LexicalNames(at + [names[0]], names[1..]);
      assert at + [names[0]] + names[1..] == at + names;
    }
  }

  lemma {:induction false} LexicalAppend(at: Path, a: seq<Part>, b: seq<Part>)
    ensures Lexical(at, a + b) == Lexical(Lexical(at, a), b)
    decreases |a|
  {
    if a == [] {
      assert a + b == b;
    } else {
      assert (a + b)[1..] == a[1..] + b;
      LexicalAppend(Descend(at, a[0]), a[1..], b);
    }
  }

  /** One more component on a path: a name goes down, `..` goes up and stays at the root, others stay. */
  lemma CleanOfOneMore(s: string, c: Part)
    ensures IsName(c) ==> Clean(s + "/" + c) == Clean(s) + [c]
    ensures c == "" || c == "." ==> Clean(s + "/" + c) == Clean(s)
    ensures c == ".." ==>
      Clean(s + "/" + c) == if Clean(s) == [] then [] else Clean(s)[..|Clean(s)| - 1]
  {
    SplitAppend(s, c, '/');
    SplitWithoutSeparator(c, '/');
    assert s + "/" + c == s + ['/'] + c;
    LexicalAppend([], Parts(s), [c]);
    assert Lexical(Clean(s), [c]) == Descend(Clean(s), c);
  }

  /** Joining goes on from the directory, component by component. */
  lemma JoinGoesOn(dir: string, rel: string)
    ensures JoinClean(dir, rel) == Lexical(Clean(dir), Parts(rel))
  {
    SplitAppend(dir, rel, '/');
    assert dir + "/" + rel == dir + ['/'] + rel;
    LexicalAppend([], Parts(dir), Parts(rel));
  }

  /** A clean path survives being written out and cleaned again. */
  lemma {:induction false} CleanOfRender(p: Path)
    ensures Clean(Render(p)) == p
  {
    var s := Render(p);
    assert s[1..] == Join(p, '/');
    if p == [] {
      assert Parts(s) == ["", ""];
      assert Lexical([], ["", ""]) == Lexical([], [""]) == [];
    } else {
      SplitOfJoin(p, '/');
      assert Parts(s) == [""] + p;
      assert Lexical([], [""] + p) == Lexical([], p);
      LexicalNames([], p);
    }
  }

  /** Length of the longest common prefix. */
  function Common(a: Path, b: Path): (n: nat)
    ensures n <= |a| && n <= |b| && a[..n] == b[..n]
    ensures n < |a| && n < |b| ==> a[n] != b[n]
  {
    if a == [] || b == [] || a[0] != b[0] then 0
    else
      var n := Common(a[1..], b[1..]);
      assert a[..n + 1] == [a[0]] + a[1..][..n];
      assert b[..n + 1] == [b[0]] + b[1..][..n];
      n + 1
  }

  function Ups(n: nat): (ups: seq<Part>)
    ensures |ups| == n && forall i | 0 <= i < n :: ups[i] == ".."
  {
    seq(n, _ => "..")
  }

  /** The components of filepath.Rel(base, target): up out of what is left of base, then down. */
  function RelParts(base: Path, target: Path): (parts: seq<Part>) {
    var n := Common(base, target);
    Ups(|base| - n) + target[n..]
  }

  /** filepath.Rel of two clean absolute paths. */
  function Rel(base: Path, target: Path): string {
    var parts := RelParts(base, target);
    if parts == [] then "." else Join(parts, '/')
  }

  lemma {:induction false} LexicalUps(at: Path, n: nat)
    requires n <= |at|
    ensures Lexical(at, Ups(n)) == at[..|at| - n]
    decreases n
  {
    if n == 0 {
      assert at[..|at|] == at;
    } else {
      var up := at[..|at| - 1];
      assert Ups(n)[1..] == Ups(n - 1);
      LexicalUps(up, n - 1);
      assert up[..|up| - (n - 1)] == at[..|at| - n];
    }
  }

  lemma UpAndDown(base: Path, ups: nat, names: Path)
    requires ups <= |base|
    ensures Lexical(base, Ups(ups) + names) == base[..|base| - ups] + names
  {
    LexicalAppend(base, Ups(ups), names);
    LexicalUps(base, ups);
    LexicalNames(base[..|base| - ups], names);
  }

  lemma RelPartsLeadThere(base: Path, target: Path)
    ensures Lexical(base, RelParts(base, target)) == target
  {
    var n := Common(base, target);
    UpAndDown(base, |base| - n, target[n..]);
    assert base[..n] + target[n..] == target[..n] + target[n..] == target;
  }

  /** The string Rel returns leads from the one path to the other. */
  lemma RelLeadsThere(base: Path, target: Path)
    ensures Lexical(base, Parts(Rel(base, target))) == target
  {
    var parts := RelParts(base, target);
    RelPartsLeadThere(base, target);
    if parts == [] {
      SplitWithoutSeparator(".", '/');
      assert ["."][1..] == [];
      assert Descend(base, ".") == base;
    } else {
      SplitOfJoin(parts, '/');
    }
  }

  /** The test matchRoot makes on the string Rel returned. */
  predicate Escapes(rel: string) {
    rel == ".." || HasPrefix(rel, "../")
  }

  lemma CommonOfPrefix(root: Path, path: Path)
    ensures Common(root, path) == |root| <==> root <= path
  {
    var n := Common(root, path);
    if n == |root| {
      assert root[..n] == root;
    }
  }

  /** The string begins with a `..` component exactly when the first component is `..`. */
  lemma EscapesIsFirstComponent(parts: seq<Part>)
    requires parts != []
    ensures Escapes(Join(parts, '/')) <==> parts[0] == ".."
  {
    var rel := Join(parts, '/');
    var head := parts[0];
    assert HasPrefix(rel, "../") ==> rel[2] == '/';
    if |parts| == 1 {
      assert forall i | 0 <= i < |rel| :: rel[i] != '/';
    } else {
      var rest := Join(parts[1..], '/');
      assert rel == head + "/" + rest;
      assert rel[|head|] == '/';
      if HasPrefix(rel, "../") {
        assert rel[0] == '.' && rel[1] == '.' && rel[2] == '/';
        assert |head| == 2;
        assert head == rel[..2];
      }
      if head == ".." {
        assert rel[..3] == "../";
      }
    }
  }

  /**
   The string test is exact: it lets a path through precisely when the root's components
   are a prefix of the path's, and the remainder is "." precisely for the root itself.
   */
  lemma RelTestIsComponentPrefix(root: Path, path: Path)
    ensures !Escapes(Rel(root, path)) <==> root <= path
    ensures Rel(root, path) == "." <==> root == path
  {
    var n := Common(root, path);
    var parts := RelParts(root, path);
    CommonOfPrefix(root, path);
    if parts == [] {
      assert n == |root| == |path|;
      assert root[..n] == root && path[..n] == path;
    } else {
      EscapesIsFirstComponent(parts);
      if n == |root| {
        assert parts[0] == path[n];
      }
      SplitOfJoin(parts, '/');
      SplitWithoutSeparator(".", '/');
      if root == path {
        assert false;
      }
    }
  }

  /** Below a root, splitting the Rel string gives back the components below the root. */
  lemma RelSplitsBelowRoot(root: Path, path: Path)
    requires root < path
    ensures Parts(Rel(root, path)) == path[|root|..]
  {
    CommonOfPrefix(root, path);
    assert RelParts(root, path) == path[|root|..];
    SplitOfJoin(path[|root|..], '/');
  }
}
