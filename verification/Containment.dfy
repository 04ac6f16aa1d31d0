/**
 The containment policy of one tool call: which existing file may be uploaded, and where a
 new file may be written. Every question put to the operating system is answered by its own
 snapshot of the file system, so a call may be interleaved with any outside changes.
 */
module Containment {
  import opened Prelude
  import opened Text
  import opened Paths
  import opened FileSystem
  import F = Filename

  datatype Reason =
    | NoRoots | NotAbsolute | NotFound | OutsideRoots | NotRegularFile
    | SensitivePath | HiddenComponent | TooLarge | AlreadyExists | BadFilename

  /** pathguard's reason for a refusal by the floor or the directory check; NoFloor for every other one. */
  datatype Floor =
    | NoFloor | SensitivePlace | ServerDir | SystemDir | HomeDir | Unresolvable | HomeUnknown | Unconfigured

  /** The sentence of a violation, by the values quoted in it. */
  datatype Detail =
    | NoRootConfigured
    | NeedsWorkDir(file: string)
    | WorkDirNotAbsolute(workDir: string)
    | Refused(path: string, why: string)
    | BadDirectory(why: string)
    | ResolvesOutside(raw: string)
    | CannotResolve(raw: string)
    | CannotStat(path: string)
    | NotRegular(path: string)
    | NotADirectory(raw: string)
    | Hidden(component: string)
    | Size(size: nat, cap: int)
    | Exists(path: string)
    | BadName(name: F.BadName)

  datatype Violation = Violation(
    reason: Reason, path: string, roots: seq<Path>, detail: Detail, floor: Floor)

  datatype Policy = Policy(
    roots: seq<Path>, serverDirs: seq<string>, allowHidden: bool, maxSize: int)

  /** A judgement refuses when `why` is not empty. */
  datatype Judgement = Judgement(reason: Floor, why: string)

  /**
   The path judgements this server leaves to pathguard: the two file policies, on a path as named
   and as placed, the check of a directory beneath the work directory, and the number of links its
   walk follows.
   */
  datatype Guard = Guard(
    hops: nat,
    outbound: (seq<string>, FS, Path, Path) -> Judgement,
    local: (seq<string>, FS, Path, Path) -> Judgement,
    beneath: (seq<string>, FS, Path) -> Option<Judgement>)
  {
    /** Where is at least as patient as EvalSymlinks, so that they agree on every existing path. */
    predicate Valid() {
      hops >= EVAL_LINKS
    }
  }

  /** The file system as each step of one call finds it. */
  datatype Moments = Moments(
    place: FS, floor: FS, beneath: FS, eval: FS,
    floorAgain: FS, beneathAgain: FS, stat: FS, lstat: FS)

  function Still(fs: FS): Moments {
    Moments(fs, fs, fs, fs, fs, fs, fs, fs)
  }

  // ---------- the policy ----------

  datatype RootError = RelativeRoot(root: string) | UnresolvableRoot(root: string) | RootNotADirectory(root: string)

  function CanonicalRoot(eval: FS, stat: FS, root: string): Result<Path, RootError> {
    if !IsAbs(root) then Failure(RelativeRoot(root))
    else
      match EvalSymlinks(eval, Clean(root))
      case None => Failure(UnresolvableRoot(root))
      case Some(place) =>
        match Stat(stat, place)
        case None => Failure(UnresolvableRoot(root))
        case Some(node) => if node == Dir then Success(place) else Failure(RootNotADirectory(root))
  }

  /**
   Canonical roots in order, one for one; or the first root that is not a directory to be reached.
   eval and stat give the file system as the two questions about each root find it.
   */
  method NewPolicy(
    eval: nat -> FS, stat: nat -> FS, roots: seq<string>, serverDirs: seq<string>, allowHidden: bool, maxSize: int)
    returns (r: Result<Policy, RootError>)
    ensures r.Success? ==>
      && |r.value.roots| == |roots|
      && (forall i | 0 <= i < |roots| :: CanonicalRoot(eval(i), stat(i), roots[i]) == Success(r.value.roots[i]))
      && r.value == Policy(r.value.roots, serverDirs, allowHidden, maxSize)
    ensures r.Failure? ==> exists i ::
      && 0 <= i < |roots| && CanonicalRoot(eval(i), stat(i), roots[i]) == Failure(r.error)
      && forall j | 0 <= j < i :: CanonicalRoot(eval(j), stat(j), roots[j]).Success?
  {
    var canonical: seq<Path> := [];
    for i := 0 to |roots|
      invariant |canonical| == i
      invariant forall j | 0 <= j < i :: CanonicalRoot(eval(j), stat(j), roots[j]) == Success(canonical[j])
    {
      ghost var judged := CanonicalRoot(eval(i), stat(i), roots[i]);
      if !IsAbs(roots[i]) {
        return Failure(RelativeRoot(roots[i]));
      }
      var resolved := EvalSymlinks(eval(i), Clean(roots[i]));
      if resolved.None? {
        return Failure(UnresolvableRoot(roots[i]));
      }
      var node := Stat(stat(i), resolved.value);
      if node.None? {
        return Failure(UnresolvableRoot(roots[i]));
      }
      if node.value != Dir {
        return Failure(RootNotADirectory(roots[i]));
      }
      assert judged == Success(resolved.value);
      canonical := canonical + [resolved.value];
    }
    return Success(Policy(canonical, serverDirs, allowHidden, maxSize));
  }

  // ---------- containment in a root ----------

  /** One turn of matchRoot's loop, on the string filepath.Rel returns. */
  predicate Matches(root: Path, path: Path, allowRoot: bool) {
    var rel := Rel(root, path);
    !Escapes(rel) && (rel == "." ==> allowRoot)
  }

  function MatchRoot(roots: seq<Path>, path: Path, allowRoot: bool): Option<Path> {
    if roots == [] then None
    else if Matches(roots[0], path, allowRoot) then Some(roots[0])
    else MatchRoot(roots[1..], path, allowRoot)
  }

  /** Strictly below the root, or the root itself where that is allowed. */
  predicate Contains(root: Path, path: Path, allowRoot: bool) {
    root < path || (allowRoot && root == path)
  }

  lemma MatchesIsContains(root: Path, path: Path, allowRoot: bool)
    ensures Matches(root, path, allowRoot) <==> Contains(root, path, allowRoot)
  {
    RelTestIsComponentPrefix(root, path);
  }

  /** matchRoot finds the first root that contains the path, by components and not by spelling. */
  lemma {:induction false} MatchRootFindsTheFirst(roots: seq<Path>, path: Path, allowRoot: bool)
    ensures var m := MatchRoot(roots, path, allowRoot);
      && (m.None? <==> forall i | 0 <= i < |roots| :: !Contains(roots[i], path, allowRoot))
      && (m.Some? ==> exists i ::
            && 0 <= i < |roots| && roots[i] == m.value && Contains(roots[i], path, allowRoot)
            && forall j | 0 <= j < i :: !Contains(roots[j], path, allowRoot))
  {
    if roots == [] {
    } else {
      MatchesIsContains(roots[0], path, allowRoot);
      MatchRootFindsTheFirst(roots[1..], path, allowRoot);
      var m := MatchRoot(roots[1..], path, allowRoot);
      if !Contains(roots[0], path, allowRoot) && m.Some? {
        var i :| && 0 <= i < |roots| - 1 && roots[1..][i] == m.value && Contains(roots[1..][i], path, allowRoot)
                 && forall j | 0 <= j < i :: !Contains(roots[1..][j], path, allowRoot);
        assert roots[i + 1] == m.value;
        forall j | 0 <= j < i + 1
          ensures !Contains(roots[j], path, allowRoot)
        {
          assert j > 0 ==> roots[j] == roots[1..][j - 1];
        }
      }
    }
  }

  method FindRoot(roots: seq<Path>, path: Path, allowRoot: bool) returns (m: Option<Path>)
    ensures m == MatchRoot(roots, path, allowRoot)
  {
    for i := 0 to |roots|
      invariant MatchRoot(roots, path, allowRoot) == MatchRoot(roots[i..], path, allowRoot)
    {
      var rel := Rel(roots[i], path);
      if Escapes(rel) || (rel == "." && !allowRoot) {
        continue;
      }
      return Some(roots[i]);
    }
    return None;
  }

  // ---------- hidden components ----------

  function FirstHidden(parts: seq<Part>): Option<Part> {
    if parts == [] then None
    else if HasPrefix(parts[0], ".") then Some(parts[0])
    else FirstHidden(parts[1..])
  }

  lemma {:induction false} FirstHiddenIsNone(parts: seq<Part>)
    ensures FirstHidden(parts).None? <==> forall i | 0 <= i < |parts| :: !HasPrefix(parts[i], ".")
  {
    if parts == [] {
    } else {
      FirstHiddenIsNone(parts[1..]);
    }
  }

  method FindHidden(rel: string) returns (hidden: Option<Part>)
    ensures hidden == FirstHidden(Parts(rel))
  {
    var parts := Parts(rel);
    for i := 0 to |parts|
      invariant FirstHidden(parts) == FirstHidden(parts[i..])
    {
      if HasPrefix(parts[i], ".") {
        return Some(parts[i]);
      }
    }
    return None;
  }

  /** No component below the root begins with a dot. */
  predicate PlainBelow(root: Path, path: Path) {
    root <= path && forall i | |root| <= i < |path| :: !HasPrefix(path[i], ".")
  }

  lemma HiddenBelow(root: Path, path: Path)
    requires root < path
    ensures FirstHidden(Parts(Rel(root, path))).None? <==> PlainBelow(root, path)
  {
    RelSplitsBelowRoot(root, path);
    var below: seq<Part> := path[|root|..];
    FirstHiddenIsNone(below);
    assert forall i | |root| <= i < |path| :: path[i] == below[i - |root|];
  }

  // ---------- the judgements on a place ----------

  /** filepath.Dir. */
  function Parent(p: Path): Path {
    if p == [] then [] else p[..|p| - 1]
  }

  /** The credential floor. */
  function Sensitive(p: Policy, j: Judgement, named: Path, placed: Path): Option<Violation> {
    if j.why == "" then None
    else
      var at := Render(if j.reason == Unresolvable then named else placed);
      Some(Violation(SensitivePath, at, p.roots, Refused(at, j.why), j.reason))
  }

  /** workdir.DirDenied: pathguard's refusal, but for the two kinds left to the file policies. */
  function DirDenied(g: Guard, serverDirs: seq<string>, fs: FS, dir: Path): Judgement {
    match g.beneath(serverDirs, fs, dir)
    case None => Judgement(NoFloor, "")
    case Some(j) =>
      if j.reason == SensitivePlace || j.reason == ServerDir then Judgement(NoFloor, "") else j
  }

  function DeniedDir(p: Policy, j: Judgement, path: Path): Option<Violation> {
    if j.why == "" then None
    else Some(Violation(SensitivePath, Render(path), p.roots, BadDirectory(j.why), j.reason))
  }

  function Outside(p: Policy, where: Path, raw: string): Violation {
    Violation(OutsideRoots, Render(where), p.roots, ResolvesOutside(raw), NoFloor)
  }

  /** Stages 2 and 3 for an upload source. */
  function JudgeSource(p: Policy, g: Guard, floor: FS, beneath: FS, raw: string, where: Path)
    : Result<Path, Violation>
  {
    match Sensitive(p, g.outbound(p.serverDirs, floor, Clean(raw), where), Clean(raw), where)
    case Some(v) => Failure(v)
    case None =>
      match MatchRoot(p.roots, where, false)
      case None => Failure(Outside(p, where, raw))
      case Some(root) =>
        match DeniedDir(p, DirDenied(g, p.serverDirs, beneath, Parent(where)), where)
        case Some(v) => Failure(v)
        case None => Success(root)
  }

  /** Stages 2 and 3 for a download target: the file is judged by the floor, its directory contained. */
  function JudgeTarget(p: Policy, g: Guard, floor: FS, beneath: FS, raw: string, dir: Path, base: Name)
    : Result<Path, Violation>
  {
    var named := Clean(raw) + [base];
    var target := dir + [base];
    match Sensitive(p, g.local(p.serverDirs, floor, named, target), named, target)
    case Some(v) => Failure(v)
    case None =>
      match MatchRoot(p.roots, dir, true)
      case None => Failure(Outside(p, dir, raw))
      case Some(root) =>
        match DeniedDir(p, DirDenied(g, p.serverDirs, beneath, dir), target)
        case Some(v) => Failure(v)
        case None => Success(root)
  }

  /** The raw path the untrusted arguments name. */
  function RawPath(p: Policy, workDir: string, file: string): Result<string, Violation> {
    if IsAbs(file) then Success(file)
    else if workDir == "" then
      Failure(Violation(NotAbsolute, file, p.roots, NeedsWorkDir(file), NoFloor))
    else if !IsAbs(workDir) then
      Failure(Violation(NotAbsolute, workDir, p.roots, WorkDirNotAbsolute(workDir), NoFloor))
    else
      Success(Render(JoinClean(workDir, file)))
  }

  // ---------- the upload source ----------

  /** Stages 4 to 6, on what Stat says is there. */
  function AdmitFile(p: Policy, node: Option<Node>, root: Path, c: Path): Result<Path, Violation> {
    match node
    case None => Failure(Violation(NotFound, Render(c), p.roots, CannotStat(Render(c)), NoFloor))
    case Some(n) =>
      var hidden := FirstHidden(Parts(Rel(root, c)));
      if !n.File? then
        Failure(Violation(NotRegularFile, Render(c), p.roots, NotRegular(Render(c)), NoFloor))
      else if !p.allowHidden && hidden.Some? then
        Failure(Violation(HiddenComponent, Render(c), p.roots, Hidden(hidden.value), NoFloor))
      else if p.maxSize > 0 && n.size > p.maxSize then
        Failure(Violation(TooLarge, Render(c), p.roots, Size(n.size, p.maxSize), NoFloor))
      else Success(c)
  }

  function ResolveSource(p: Policy, g: Guard, m: Moments, workDir: string, file: string)
    : Result<Path, Violation>
  {
    if p.roots == [] then Failure(Violation(NoRoots, file, [], NoRootConfigured, NoFloor))
    else
      var raw :- RawPath(p, workDir, file);
      var where := Where(m.place.links, Clean(raw), g.hops);
      var root :- JudgeSource(p, g, m.floor, m.beneath, raw, where);
      match EvalSymlinks(m.eval, where)
      case None => Failure(Violation(NotFound, raw, p.roots, CannotResolve(raw), NoFloor))
      case Some(c) =>
        var root' :- if c == where then Success(root)
                     else JudgeSource(p, g, m.floorAgain, m.beneathAgain, raw, c);
        AdmitFile(p, Stat(m.stat, c), root', c)
  }

  /** Policy.Resolve, step by step. */
  method Resolve(p: Policy, g: Guard, m: Moments, workDir: string, file: string)
    returns (r: Result<Path, Violation>)
    ensures r == ResolveSource(p, g, m, workDir, file)
  {
    if |p.roots| == 0 {
      return Failure(Violation(NoRoots, file, [], NoRootConfigured, NoFloor));
    }
    var raw := file;
    if !IsAbs(raw) {
      if workDir == "" {
        return Failure(Violation(NotAbsolute, file, p.roots, NeedsWorkDir(file), NoFloor));
      }
      if !IsAbs(workDir) {
        return Failure(Violation(NotAbsolute, workDir, p.roots, WorkDirNotAbsolute(workDir), NoFloor));
      }
      raw := Render(JoinClean(workDir, raw));
    }
    var where := Where(m.place.links, Clean(raw), g.hops);
    var v := Sensitive(p, g.outbound(p.serverDirs, m.floor, Clean(raw), where), Clean(raw), where);
    if v.Some? {
      return Failure(v.value);
    }
    var matchedRoot := FindRoot(p.roots, where, false);
    if matchedRoot.None? {
      return Failure(Outside(p, where, raw));
    }
    v := DeniedDir(p, DirDenied(g, p.serverDirs, m.beneath, Parent(where)), where);
    if v.Some? {
      return Failure(v.value);
    }
    var canonical := EvalSymlinks(m.eval, where);
    if canonical.None? {
      return Failure(Violation(NotFound, raw, p.roots, CannotResolve(raw), NoFloor));
    }
    var c := canonical.value;
    if c != where {
      v := Sensitive(p, g.outbound(p.serverDirs, m.floorAgain, Clean(raw), c), Clean(raw), c);
      if v.Some? {
        return Failure(v.value);
      }
      matchedRoot := FindRoot(p.roots, c, false);
      if matchedRoot.None? {
        return Failure(Outside(p, c, raw));
      }
      v := DeniedDir(p, DirDenied(g, p.serverDirs, m.beneathAgain, Parent(c)), c);
      if v.Some? {
        return Failure(v.value);
      }
    }
    var node := Stat(m.stat, c);
    if node.None? {
      return Failure(Violation(NotFound, Render(c), p.roots, CannotStat(Render(c)), NoFloor));
    }
    if !node.value.File? {
      return Failure(Violation(NotRegularFile, Render(c), p.roots, NotRegular(Render(c)), NoFloor));
    }
    if !p.allowHidden {
      var hidden := FindHidden(Rel(matchedRoot.value, c));
      if hidden.Some? {
        return Failure(Violation(HiddenComponent, Render(c), p.roots, Hidden(hidden.value), NoFloor));
      }
    }
    if p.maxSize > 0 && node.value.size > p.maxSize {
      return Failure(Violation(TooLarge, Render(c), p.roots, Size(node.value.size, p.maxSize), NoFloor));
    }
    return Success(c);
  }

  // ---------- the download target ----------

  /** The checks that depend on what exists at the destination. */
  function AdmitTarget(p: Policy, m: Moments, raw: string, root: Path, dir: Path, base: Name)
    : Result<Path, Violation>
  {
    var target := dir + [base];
    var hidden := FirstHidden(Parts(Rel(root, target)));
    if Stat(m.stat, dir) != Some(Dir) then
      Failure(Violation(NotFound, Render(dir), p.roots, NotADirectory(raw), NoFloor))
    else if !p.allowHidden && hidden.Some? then
      Failure(Violation(HiddenComponent, Render(target), p.roots, Hidden(hidden.value), NoFloor))
    else if Occupied(m.lstat, target) then
      Failure(Violation(AlreadyExists, Render(target), p.roots, Exists(Render(target)), NoFloor))
    else Success(target)
  }

  function ResolveTarget(p: Policy, g: Guard, m: Moments, workDir: string, destDir: string, filename: string)
    : Result<Path, Violation>
  {
    if p.roots == [] then Failure(Violation(NoRoots, destDir, [], NoRootConfigured, NoFloor))
    else
      match F.Sanitize(filename)
      case Failure(e) => Failure(Violation(BadFilename, filename, p.roots, BadName(e), NoFloor))
      case Success(base) =>
        F.SanitizedNameIsBare(filename);
        var raw :- RawPath(p, workDir, destDir);
        var where := Where(m.place.links, Clean(raw), g.hops);
        var root :- JudgeTarget(p, g, m.floor, m.beneath, raw, where, base);
        match EvalSymlinks(m.eval, where)
        case None => Failure(Violation(NotFound, raw, p.roots, CannotResolve(raw), NoFloor))
        case Some(dir) =>
          var root' :- if dir == where then Success(root)
                       else JudgeTarget(p, g, m.floorAgain, m.beneathAgain, raw, dir, base);
          AdmitTarget(p, m, raw, root', dir, base)
  }

  /** Policy.ResolveNewFile, step by step. */
  method ResolveNewFile(p: Policy, g: Guard, m: Moments, workDir: string, destDir: string, filename: string)
    returns (r: Result<Path, Violation>)
    ensures r == ResolveTarget(p, g, m, workDir, destDir, filename)
  {
    if |p.roots| == 0 {
      return Failure(Violation(NoRoots, destDir, [], NoRootConfigured, NoFloor));
    }
    var sanitized := F.Sanitize(filename);
    if sanitized.Failure? {
      return Failure(Violation(BadFilename, filename, p.roots, BadName(sanitized.error), NoFloor));
    }
    F.SanitizedNameIsBare(filename);
    var base: Name := sanitized.value;
    var raw := destDir;
    if !IsAbs(raw) {
      if workDir == "" {
        return Failure(Violation(NotAbsolute, destDir, p.roots, NeedsWorkDir(destDir), NoFloor));
      }
      if !IsAbs(workDir) {
        return Failure(Violation(NotAbsolute, workDir, p.roots, WorkDirNotAbsolute(workDir), NoFloor));
      }
      raw := Render(JoinClean(workDir, raw));
    }
    var named := Clean(raw) + [base];
    var whereDir := Where(m.place.links, Clean(raw), g.hops);
    var target := whereDir + [base];
    var v := Sensitive(p, g.local(p.serverDirs, m.floor, named, target), named, target);
    if v.Some? {
      return Failure(v.value);
    }
    var matchedRoot := FindRoot(p.roots, whereDir, true);
    if matchedRoot.None? {
      return Failure(Outside(p, whereDir, raw));
    }
    v := DeniedDir(p, DirDenied(g, p.serverDirs, m.beneath, whereDir), target);
    if v.Some? {
      return Failure(v.value);
    }
    var canonical := EvalSymlinks(m.eval, whereDir);
    if canonical.None? {
      return Failure(Violation(NotFound, raw, p.roots, CannotResolve(raw), NoFloor));
    }
    var dir := canonical.value;
    if dir != whereDir {
      target := dir + [base];
      v := Sensitive(p, g.local(p.serverDirs, m.floorAgain, named, target), named, target);
      if v.Some? {
        return Failure(v.value);
      }
      matchedRoot := FindRoot(p.roots, dir, true);
      if matchedRoot.None? {
        return Failure(Outside(p, dir, raw));
      }
      v := DeniedDir(p, DirDenied(g, p.serverDirs, m.beneathAgain, dir), target);
      if v.Some? {
        return Failure(v.value);
      }
    }
    var node := Stat(m.stat, dir);
    if node != Some(Dir) {
      return Failure(Violation(NotFound, Render(dir), p.roots, NotADirectory(raw), NoFloor));
    }
    if !p.allowHidden {
      var hidden := FindHidden(Rel(matchedRoot.value, target));
      if hidden.Some? {
        return Failure(Violation(HiddenComponent, Render(target), p.roots, Hidden(hidden.value), NoFloor));
      }
    }
    if Occupied(m.lstat, target) {
      return Failure(Violation(AlreadyExists, Render(target), p.roots, Exists(Render(target)), NoFloor));
    }
    return Success(target);
  }
}
