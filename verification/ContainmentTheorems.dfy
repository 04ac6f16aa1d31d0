/** What the containment policy guarantees, over every call and every interleaving of outside changes. */
module ContainmentTheorems {
  import opened Prelude
  import opened Text
  import opened Paths
  import opened FileSystem
  import opened Containment
  import F = Filename

  // ---------- soundness of acceptance ----------

  /** Root number i is the first that contains the path. */
  ghost predicate FirstRoot(roots: seq<Path>, path: Path, allowRoot: bool, i: nat) {
    && i < |roots|
    && Contains(roots[i], path, allowRoot)
    && forall j | 0 <= j < i :: !Contains(roots[j], path, allowRoot)
  }

  lemma MatchIsFirst(roots: seq<Path>, path: Path, allowRoot: bool)
    ensures var m := MatchRoot(roots, path, allowRoot);
      && (m.None? <==> forall i: nat :: !FirstRoot(roots, path, allowRoot, i))
      && (m.None? ==> forall i | 0 <= i < |roots| :: !Contains(roots[i], path, allowRoot))
      && (m.Some? ==> exists i: nat :: FirstRoot(roots, path, allowRoot, i) && m.value == roots[i])
  {
    MatchRootFindsTheFirst(roots, path, allowRoot);
    var m := MatchRoot(roots, path, allowRoot);
    if m.Some? {
      var i :| 0 <= i < |roots| && roots[i] == m.value && FirstRoot(roots, path, allowRoot, i);
    }
  }

  /**
   pathguard has nothing against the directory that is this server's to heed: credential places and
   server directories are left to the file policies, every other reason refuses.
   */
  predicate DirCleared(g: Guard, serverDirs: seq<string>, fs: FS, dir: Path) {
    var b := g.beneath(serverDirs, fs, dir);
    b.Some? ==> b.value.reason == SensitivePlace || b.value.reason == ServerDir || b.value.why == ""
  }

  /** c passed the floor, containment and the directory check, on these two snapshots. */
  ghost predicate SourceCleared(p: Policy, g: Guard, floor: FS, beneath: FS, named: Path, c: Path) {
    && g.outbound(p.serverDirs, floor, named, c).why == ""
    && (exists i: nat :: FirstRoot(p.roots, c, false, i))
    && (c != [] ==> DirCleared(g, p.serverDirs, beneath, c[..|c| - 1]))
  }

  ghost predicate TargetCleared(p: Policy, g: Guard, floor: FS, beneath: FS, named: Path, dir: Path, base: Name) {
    && g.local(p.serverDirs, floor, named + [base], dir + [base]).why == ""
    && (exists i: nat :: FirstRoot(p.roots, dir, true, i))
    && DirCleared(g, p.serverDirs, beneath, dir)
  }

  lemma DirDeniedRefuses(g: Guard, serverDirs: seq<string>, fs: FS, dir: Path)
    ensures DirDenied(g, serverDirs, fs, dir).why == "" <==> DirCleared(g, serverDirs, fs, dir)
  {
  }

  lemma JudgeSourceClears(p: Policy, g: Guard, floor: FS, beneath: FS, raw: string, c: Path)
    ensures var r := JudgeSource(p, g, floor, beneath, raw, c);
      && (r.Success? <==> SourceCleared(p, g, floor, beneath, Clean(raw), c))
      && (r.Success? ==> exists i: nat :: FirstRoot(p.roots, c, false, i) && r.value == p.roots[i])
  {
    MatchIsFirst(p.roots, c, false);
    DirDeniedRefuses(g, p.serverDirs, beneath, Parent(c));
  }

  lemma JudgeTargetClears(p: Policy, g: Guard, floor: FS, beneath: FS, raw: string, dir: Path, base: Name)
    ensures var r := JudgeTarget(p, g, floor, beneath, raw, dir, base);
      && (r.Success? <==> TargetCleared(p, g, floor, beneath, Clean(raw), dir, base))
      && (r.Success? ==> exists i: nat :: FirstRoot(p.roots, dir, true, i) && r.value == p.roots[i])
  {
    MatchIsFirst(p.roots, dir, true);
    DirDeniedRefuses(g, p.serverDirs, beneath, dir);
  }

  /** c is a regular file within the cap, with no hidden component below the root that contains c itself. */
  ghost predicate FileAdmitted(p: Policy, node: Option<Node>, c: Path) {
    && node.Some? && node.value.File?
    && (p.maxSize > 0 ==> node.value.size <= p.maxSize)
    && (p.allowHidden || exists i: nat :: FirstRoot(p.roots, c, false, i) && PlainBelow(p.roots[i], c))
  }

  /** The refusals that are about what exists; every other one is decided before anything is looked up. */
  predicate DependsOnExistence(r: Reason) {
    r in {NotFound, NotRegularFile, HiddenComponent, TooLarge, AlreadyExists}
  }

  lemma AdmitFileAdmits(p: Policy, node: Option<Node>, i: nat, c: Path)
    requires FirstRoot(p.roots, c, false, i)
    ensures var r := AdmitFile(p, node, p.roots[i], c);
      && (r.Success? <==> FileAdmitted(p, node, c))
      && (r.Success? ==> r.value == c)
      && (r.Failure? ==> DependsOnExistence(r.error.reason))
  {
    HiddenBelow(p.roots[i], c);
    forall j: nat | FirstRoot(p.roots, c, false, j)
      ensures j == i
    {
    }
  }

  /**
   Whatever the file system does between the steps of the call, the path that is returned has
   itself been through every stage, and nothing that has been through every stage is refused.
   */
  lemma AcceptedSourceIsExactlyCleared(p: Policy, g: Guard, m: Moments, workDir: string, file: string, c: Path)
    ensures ResolveSource(p, g, m, workDir, file) == Success(c) <==>
      && p.roots != []
      && RawPath(p, workDir, file).Success?
      && var named := Clean(RawPath(p, workDir, file).value);
         var where := Where(m.place.links, named, g.hops);
      && SourceCleared(p, g, m.floor, m.beneath, named, where)
      && EvalSymlinks(m.eval, where) == Some(c)
      && (c != where ==> SourceCleared(p, g, m.floorAgain, m.beneathAgain, named, c))
      && FileAdmitted(p, Stat(m.stat, c), c)
  {
    if p.roots != [] && RawPath(p, workDir, file).Success? {
      var raw := RawPath(p, workDir, file).value;
      var where := Where(m.place.links, Clean(raw), g.hops);
      JudgeSourceClears(p, g, m.floor, m.beneath, raw, where);
      var first := JudgeSource(p, g, m.floor, m.beneath, raw, where);
      var end := EvalSymlinks(m.eval, where);
      if first.Success? && end.Some? {
        var e := end.value;
        JudgeSourceClears(p, g, m.floorAgain, m.beneathAgain, raw, e);
        var root := if e == where then first else JudgeSource(p, g, m.floorAgain, m.beneathAgain, raw, e);
        if root.Success? {
          var i: nat :| FirstRoot(p.roots, e, false, i) && root.value == p.roots[i];
          AdmitFileAdmits(p, Stat(m.stat, e), i, e);
        }
      }
    }
  }

  /** dir is a directory at the end, the target is free, and no hidden component is below dir's root. */
  ghost predicate TargetAdmitted(p: Policy, m: Moments, dir: Path, base: Name) {
    && Stat(m.stat, dir) == Some(Dir)
    && !Occupied(m.lstat, dir + [base])
    && (p.allowHidden
        || exists i: nat :: FirstRoot(p.roots, dir, true, i) && PlainBelow(p.roots[i], dir + [base]))
  }

  lemma AdmitTargetAdmits(p: Policy, m: Moments, raw: string, i: nat, dir: Path, base: Name)
    requires FirstRoot(p.roots, dir, true, i)
    ensures var r := AdmitTarget(p, m, raw, p.roots[i], dir, base);
      && (r.Success? <==> TargetAdmitted(p, m, dir, base))
      && (r.Success? ==> r.value == dir + [base])
      && (r.Failure? ==> DependsOnExistence(r.error.reason))
  {
    assert p.roots[i] < dir + [base];
    HiddenBelow(p.roots[i], dir + [base]);
    forall j: nat | FirstRoot(p.roots, dir, true, j)
      ensures j == i
    {
    }
  }

  lemma AcceptedTargetIsExactlyCleared(
    p: Policy, g: Guard, m: Moments, workDir: string, destDir: string, filename: string, target: Path)
    ensures ResolveTarget(p, g, m, workDir, destDir, filename) == Success(target) <==>
      && p.roots != []
      && F.Sanitize(filename).Success? && F.IsBareName(F.Sanitize(filename).value)
      && RawPath(p, workDir, destDir).Success?
      && var base: Name := F.Sanitize(filename).value;
         var named := Clean(RawPath(p, workDir, destDir).value);
         var where := Where(m.place.links, named, g.hops);
      && TargetCleared(p, g, m.floor, m.beneath, named, where, base)
      && EvalSymlinks(m.eval, where).Some?
      && var dir := EvalSymlinks(m.eval, where).value;
      && (dir != where ==> TargetCleared(p, g, m.floorAgain, m.beneathAgain, named, dir, base))
      && TargetAdmitted(p, m, dir, base)
      && target == dir + [base]
  {
    F.SanitizedNameIsBare(filename);
    if p.roots != [] && F.Sanitize(filename).Success? && RawPath(p, workDir, destDir).Success? {
      var base: Name := F.Sanitize(filename).value;
      var raw := RawPath(p, workDir, destDir).value;
      var where := Where(m.place.links, Clean(raw), g.hops);
      JudgeTargetClears(p, g, m.floor, m.beneath, raw, where, base);
      var first := JudgeTarget(p, g, m.floor, m.beneath, raw, where, base);
      var end := EvalSymlinks(m.eval, where);
      if first.Success? && end.Some? {
        var dir := end.value;
        JudgeTargetClears(p, g, m.floorAgain, m.beneathAgain, raw, dir, base);
        var root := if dir == where then first
                    else JudgeTarget(p, g, m.floorAgain, m.beneathAgain, raw, dir, base);
        if root.Success? {
          var i: nat :| FirstRoot(p.roots, dir, true, i) && root.value == p.roots[i];
          AdmitTargetAdmits(p, m, raw, i, dir, base);
        }
      }
    }
  }

  // ---------- every refusal is true ----------

  /** What a refusal of a path judged on these snapshots says about it. */
  ghost predicate SourceRefusalHolds(p: Policy, g: Guard, floor: FS, beneath: FS, raw: string, c: Path, v: Violation) {
    v.roots == p.roots &&
    match v.reason
    case SensitivePath =>
      var j := g.outbound(p.serverDirs, floor, Clean(raw), c);
      if j.why != "" then
        && v.floor == j.reason && v.detail == Refused(v.path, j.why)
        && v.path == Render(if j.reason == Unresolvable then Clean(raw) else c)
      else
        var d := g.beneath(p.serverDirs, beneath, Parent(c));
        && d.Some? && v.floor == d.value.reason && v.detail == BadDirectory(d.value.why) && v.path == Render(c)
        && d.value.why != "" && d.value.reason != SensitivePlace && d.value.reason != ServerDir
        && exists i: nat :: FirstRoot(p.roots, c, false, i)
    case OutsideRoots =>
      && g.outbound(p.serverDirs, floor, Clean(raw), c).why == ""
      && v.path == Render(c) && v.detail == ResolvesOutside(raw) && v.floor == NoFloor
      && forall i | 0 <= i < |p.roots| :: !Contains(p.roots[i], c, false)
    case _ => false
  }

  lemma JudgedSourceRefusal(p: Policy, g: Guard, floor: FS, beneath: FS, raw: string, c: Path)
    ensures var r := JudgeSource(p, g, floor, beneath, raw, c);
      r.Failure? ==> SourceRefusalHolds(p, g, floor, beneath, raw, c, r.error)
  {
    MatchIsFirst(p.roots, c, false);
  }

  /** The detail names the first component below the root that begins with a dot. */
  ghost predicate HiddenIn(root: Path, path: Path, detail: Detail) {
    exists i: nat ::
      && |root| <= i < |path| && HasPrefix(path[i], ".") && detail == Hidden(path[i])
      && forall j | |root| <= j < i :: !HasPrefix(path[j], ".")
  }

  lemma {:induction false} FirstHiddenIs(parts: seq<Part>) returns (i: nat)
    requires FirstHidden(parts).Some?
    ensures i < |parts| && HasPrefix(parts[i], ".") && FirstHidden(parts) == Some(parts[i])
    ensures forall j | 0 <= j < i :: !HasPrefix(parts[j], ".")
  {
    i := 0;
    if !HasPrefix(parts[0], ".") {
      var k := FirstHiddenIs(parts[1..]);
      i := k + 1;
    }
  }

  lemma HiddenIsNamed(root: Path, path: Path)
    requires root < path && FirstHidden(Parts(Rel(root, path))).Some?
    ensures HiddenIn(root, path, Hidden(FirstHidden(Parts(Rel(root, path))).value))
  {
    RelSplitsBelowRoot(root, path);
    var below: seq<Part> := path[|root|..];
    var i := FirstHiddenIs(below);
    assert path[|root| + i] == below[i];
    assert forall j | |root| <= j < |root| + i :: path[j] == below[j - |root|];
  }

  /** What a refusal by the last stages says about the file at c. */
  ghost predicate FileRefusalHolds(p: Policy, node: Option<Node>, c: Path, v: Violation) {
    v.roots == p.roots && v.path == Render(c) && v.floor == NoFloor &&
    match v.reason
    case NotFound => node.None? && v.detail == CannotStat(v.path)
    case NotRegularFile => node.Some? && !node.value.File? && v.detail == NotRegular(v.path)
    case HiddenComponent =>
      && node.Some? && node.value.File? && !p.allowHidden
      && exists i: nat :: FirstRoot(p.roots, c, false, i) && HiddenIn(p.roots[i], c, v.detail)
    case TooLarge =>
      && node.Some? && node.value.File? && 0 < p.maxSize < node.value.size
      && (p.allowHidden || exists i: nat :: FirstRoot(p.roots, c, false, i) && PlainBelow(p.roots[i], c))
      && v.detail == Size(node.value.size, p.maxSize)
    case _ => false
  }

  lemma FileRefusal(p: Policy, node: Option<Node>, i: nat, c: Path)
    requires FirstRoot(p.roots, c, false, i)
    ensures var r := AdmitFile(p, node, p.roots[i], c);
      r.Failure? ==> FileRefusalHolds(p, node, c, r.error)
  {
    HiddenBelow(p.roots[i], c);
    if FirstHidden(Parts(Rel(p.roots[i], c))).Some? {
      HiddenIsNamed(p.roots[i], c);
    }
  }

  /** The refusal of an argument that names no path at all. */
  ghost predicate NotAbsoluteHolds(p: Policy, workDir: string, file: string, v: Violation) {
    && !IsAbs(file) && !IsAbs(workDir)
    && v == if workDir == "" then Violation(NotAbsolute, file, p.roots, NeedsWorkDir(file), NoFloor)
            else Violation(NotAbsolute, workDir, p.roots, WorkDirNotAbsolute(workDir), NoFloor)
  }

  /**
   Each reason code, path and detail means what it says, whatever changes during the call: the floor
   speaks before containment, a place is judged again exactly when it has moved, and what exists is
   only told of a place that has itself been cleared.
   */
  lemma SourceRefusalIsTrue(p: Policy, g: Guard, m: Moments, workDir: string, file: string)
    requires ResolveSource(p, g, m, workDir, file).Failure?
    ensures
      var v := ResolveSource(p, g, m, workDir, file).error;
      if p.roots == [] then v == Violation(NoRoots, file, [], NoRootConfigured, NoFloor)
      else if RawPath(p, workDir, file).Failure? then NotAbsoluteHolds(p, workDir, file, v)
      else
        var raw := RawPath(p, workDir, file).value;
        var where := Where(m.place.links, Clean(raw), g.hops);
        var end := EvalSymlinks(m.eval, where);
        || SourceRefusalHolds(p, g, m.floor, m.beneath, raw, where, v)
        || (SourceCleared(p, g, m.floor, m.beneath, Clean(raw), where) &&
             if end.None? then v == Violation(NotFound, raw, p.roots, CannotResolve(raw), NoFloor)
             else
               || (end.value != where && SourceRefusalHolds(p, g, m.floorAgain, m.beneathAgain, raw, end.value, v))
               || ((end.value != where ==>
                      SourceCleared(p, g, m.floorAgain, m.beneathAgain, Clean(raw), end.value))
                   && FileRefusalHolds(p, Stat(m.stat, end.value), end.value, v)))
  {
    if p.roots != [] && RawPath(p, workDir, file).Success? {
      var raw := RawPath(p, workDir, file).value;
      var where := Where(m.place.links, Clean(raw), g.hops);
      JudgedSourceRefusal(p, g, m.floor, m.beneath, raw, where);
      JudgeSourceClears(p, g, m.floor, m.beneath, raw, where);
      var end := EvalSymlinks(m.eval, where);
      var first := JudgeSource(p, g, m.floor, m.beneath, raw, where);
      if first.Success? && end.Some? {
        var c := end.value;
        JudgedSourceRefusal(p, g, m.floorAgain, m.beneathAgain, raw, c);
        JudgeSourceClears(p, g, m.floorAgain, m.beneathAgain, raw, c);
        var root := if c == where then first else JudgeSource(p, g, m.floorAgain, m.beneathAgain, raw, c);
        if root.Success? {
          var i: nat :| FirstRoot(p.roots, c, false, i) && root.value == p.roots[i];
          FileRefusal(p, Stat(m.stat, c), i, c);
        }
      }
    }
  }

  /** The same for a destination directory and the file to be made in it. */
  ghost predicate TargetRefusalHolds(
    p: Policy, g: Guard, floor: FS, beneath: FS, raw: string, dir: Path, base: Name, v: Violation)
  {
    var named := Clean(raw) + [base];
    var target := dir + [base];
    v.roots == p.roots &&
    match v.reason
    case SensitivePath =>
      var j := g.local(p.serverDirs, floor, named, target);
      if j.why != "" then
        && v.floor == j.reason && v.detail == Refused(v.path, j.why)
        && v.path == Render(if j.reason == Unresolvable then named else target)
      else
        var d := g.beneath(p.serverDirs, beneath, dir);
        && d.Some? && v.floor == d.value.reason && v.detail == BadDirectory(d.value.why) && v.path == Render(target)
        && d.value.why != "" && d.value.reason != SensitivePlace && d.value.reason != ServerDir
        && exists i: nat :: FirstRoot(p.roots, dir, true, i)
    case OutsideRoots =>
      && g.local(p.serverDirs, floor, named, target).why == ""
      && v.path == Render(dir) && v.detail == ResolvesOutside(raw) && v.floor == NoFloor
      && forall i | 0 <= i < |p.roots| :: !Contains(p.roots[i], dir, true)
    case _ => false
  }

  ghost predicate NewFileRefusalHolds(
    p: Policy, m: Moments, raw: string, dir: Path, base: Name, v: Violation)
  {
    var target := dir + [base];
    v.roots == p.roots && v.floor == NoFloor &&
    match v.reason
    case NotFound => Stat(m.stat, dir) != Some(Dir) && v.path == Render(dir) && v.detail == NotADirectory(raw)
    case HiddenComponent =>
      && !p.allowHidden && v.path == Render(target) && Stat(m.stat, dir) == Some(Dir)
      && exists i: nat :: FirstRoot(p.roots, dir, true, i) && HiddenIn(p.roots[i], target, v.detail)
    case AlreadyExists =>
      && Occupied(m.lstat, target) && v.path == Render(target) && v.detail == Exists(v.path)
      && Stat(m.stat, dir) == Some(Dir)
      && (p.allowHidden || exists i: nat :: FirstRoot(p.roots, dir, true, i) && PlainBelow(p.roots[i], target))
    case _ => false
  }

  lemma JudgedTargetRefusal(p: Policy, g: Guard, floor: FS, beneath: FS, raw: string, dir: Path, base: Name)
    ensures var r := JudgeTarget(p, g, floor, beneath, raw, dir, base);
      r.Failure? ==> TargetRefusalHolds(p, g, floor, beneath, raw, dir, base, r.error)
  {
    MatchIsFirst(p.roots, dir, true);
  }

  lemma NewFileRefusal(p: Policy, m: Moments, raw: string, i: nat, dir: Path, base: Name)
    requires FirstRoot(p.roots, dir, true, i)
    ensures var r := AdmitTarget(p, m, raw, p.roots[i], dir, base);
      r.Failure? ==> NewFileRefusalHolds(p, m, raw, dir, base, r.error)
  {
    assert p.roots[i] < dir + [base];
    HiddenBelow(p.roots[i], dir + [base]);
    if FirstHidden(Parts(Rel(p.roots[i], dir + [base]))).Some? {
      HiddenIsNamed(p.roots[i], dir + [base]);
    }
  }

  lemma TargetRefusalIsTrue(p: Policy, g: Guard, m: Moments, workDir: string, destDir: string, filename: string)
    requires ResolveTarget(p, g, m, workDir, destDir, filename).Failure?
    ensures
      var v := ResolveTarget(p, g, m, workDir, destDir, filename).error;
      if p.roots == [] then v == Violation(NoRoots, destDir, [], NoRootConfigured, NoFloor)
      else if F.Sanitize(filename).Failure? then
        v == Violation(BadFilename, filename, p.roots, BadName(F.Sanitize(filename).error), NoFloor)
      else if RawPath(p, workDir, destDir).Failure? then NotAbsoluteHolds(p, workDir, destDir, v)
      else
        F.IsBareName(F.Sanitize(filename).value) &&
        var base: Name := F.Sanitize(filename).value;
        var raw := RawPath(p, workDir, destDir).value;
        var where := Where(m.place.links, Clean(raw), g.hops);
        var end := EvalSymlinks(m.eval, where);
        || TargetRefusalHolds(p, g, m.floor, m.beneath, raw, where, base, v)
        || (TargetCleared(p, g, m.floor, m.beneath, Clean(raw), where, base) &&
             if end.None? then v == Violation(NotFound, raw, p.roots, CannotResolve(raw), NoFloor)
             else
               || (end.value != where
                   && TargetRefusalHolds(p, g, m.floorAgain, m.beneathAgain, raw, end.value, base, v))
               || ((end.value != where ==>
                      TargetCleared(p, g, m.floorAgain, m.beneathAgain, Clean(raw), end.value, base))
                   && NewFileRefusalHolds(p, m, raw, end.value, base, v)))
  {
    F.SanitizedNameIsBare(filename);
    if p.roots != [] && F.Sanitize(filename).Success? && RawPath(p, workDir, destDir).Success? {
      var base: Name := F.Sanitize(filename).value;
      var raw := RawPath(p, workDir, destDir).value;
      var where := Where(m.place.links, Clean(raw), g.hops);
      JudgedTargetRefusal(p, g, m.floor, m.beneath, raw, where, base);
      JudgeTargetClears(p, g, m.floor, m.beneath, raw, where, base);
      var end := EvalSymlinks(m.eval, where);
      var first := JudgeTarget(p, g, m.floor, m.beneath, raw, where, base);
      if first.Success? && end.Some? {
        var dir := end.value;
        JudgedTargetRefusal(p, g, m.floorAgain, m.beneathAgain, raw, dir, base);
        JudgeTargetClears(p, g, m.floorAgain, m.beneathAgain, raw, dir, base);
        var root := if dir == where then first
                    else JudgeTarget(p, g, m.floorAgain, m.beneathAgain, raw, dir, base);
        if root.Success? {
          var i: nat :| FirstRoot(p.roots, dir, true, i) && root.value == p.roots[i];
          NewFileRefusal(p, m, raw, i, dir, base);
        }
      }
    }
  }

  // ---------- existence never changes a refusal ----------

  /**
   The same links, and the same answers from pathguard about the one place that is asked about: the
   two file systems may differ in everything else, that is, in which files and directories exist
   and how large they are.
   */
  ghost predicate SourceDiffersInExistence(
    p: Policy, g: Guard, fs: FS, other: FS, workDir: string, file: string)
  {
    && fs.links == other.links
    && (RawPath(p, workDir, file).Success? ==>
          var named := Clean(RawPath(p, workDir, file).value);
          var where := Where(fs.links, named, g.hops);
          && g.outbound(p.serverDirs, fs, named, where) == g.outbound(p.serverDirs, other, named, where)
          && g.beneath(p.serverDirs, fs, Parent(where)) == g.beneath(p.serverDirs, other, Parent(where)))
  }

  ghost predicate TargetDiffersInExistence(
    p: Policy, g: Guard, fs: FS, other: FS, workDir: string, destDir: string, filename: string)
  {
    && fs.links == other.links
    && (RawPath(p, workDir, destDir).Success? ==>
          var named := Clean(RawPath(p, workDir, destDir).value);
          var dir := Where(fs.links, named, g.hops);
          && (forall base: Name | F.Sanitize(filename) == Success(base) ::
                g.local(p.serverDirs, fs, named + [base], dir + [base])
                == g.local(p.serverDirs, other, named + [base], dir + [base]))
          && g.beneath(p.serverDirs, fs, dir) == g.beneath(p.serverDirs, other, dir))
  }

  /** In an unchanging file system the judgements are never made a second time. */
  lemma StillSourceIsJudgedOnce(p: Policy, g: Guard, fs: FS, workDir: string, file: string)
    requires g.Valid() && p.roots != [] && RawPath(p, workDir, file).Success?
    ensures
      var raw := RawPath(p, workDir, file).value;
      var where := Where(fs.links, Clean(raw), g.hops);
      var judged := JudgeSource(p, g, fs, fs, raw, where);
      var r := ResolveSource(p, g, Still(fs), workDir, file);
      if judged.Failure? then r == Failure(judged.error) && !DependsOnExistence(judged.error.reason)
      else if r.Failure? then DependsOnExistence(r.error.reason)
      else r.value == where && LinkFree(fs.links, where)
  {
    var raw := RawPath(p, workDir, file).value;
    var where := Where(fs.links, Clean(raw), g.hops);
    PlaceResolvesToItself(fs, Clean(raw), g.hops);
    JudgeSourceClears(p, g, fs, fs, raw, where);
    var judged := JudgeSource(p, g, fs, fs, raw, where);
    if judged.Success? && EvalSymlinks(fs, where).Some? {
      var i: nat :| FirstRoot(p.roots, where, false, i) && judged.value == p.roots[i];
      AdmitFileAdmits(p, Stat(fs, where), i, where);
    }
  }

  lemma StillTargetIsJudgedOnce(p: Policy, g: Guard, fs: FS, workDir: string, destDir: string, filename: string)
    requires g.Valid() && p.roots != [] && RawPath(p, workDir, destDir).Success?
    requires F.Sanitize(filename).Success? && IsName(F.Sanitize(filename).value)
    ensures
      var base: Name := F.Sanitize(filename).value;
      var raw := RawPath(p, workDir, destDir).value;
      var where := Where(fs.links, Clean(raw), g.hops);
      var judged := JudgeTarget(p, g, fs, fs, raw, where, base);
      var r := ResolveTarget(p, g, Still(fs), workDir, destDir, filename);
      if judged.Failure? then r == Failure(judged.error) && !DependsOnExistence(judged.error.reason)
      else if r.Failure? then DependsOnExistence(r.error.reason)
      else r.value == where + [base] && LinkFree(fs.links, where)
  {
    var base: Name := F.Sanitize(filename).value;
    var raw := RawPath(p, workDir, destDir).value;
    var where := Where(fs.links, Clean(raw), g.hops);
    PlaceResolvesToItself(fs, Clean(raw), g.hops);
    JudgeTargetClears(p, g, fs, fs, raw, where, base);
    var judged := JudgeTarget(p, g, fs, fs, raw, where, base);
    if judged.Success? && EvalSymlinks(fs, where).Some? {
      var i: nat :| FirstRoot(p.roots, where, true, i) && judged.value == p.roots[i];
      AdmitTargetAdmits(p, Still(fs), raw, i, where, base);
    }
  }

  /**
   A refusal that is not about existence is the same violation, word for word, in any other file
   system that differs only in what exists: it cannot tell the caller which files there are.
   */
  lemma ExistenceNeverChangesASourceRefusal(
    p: Policy, g: Guard, fs: FS, other: FS, workDir: string, file: string)
    requires g.Valid() && SourceDiffersInExistence(p, g, fs, other, workDir, file)
    ensures var r := ResolveSource(p, g, Still(fs), workDir, file);
      (r.Failure? && !DependsOnExistence(r.error.reason)) ==>
        ResolveSource(p, g, Still(other), workDir, file) == r
  {
    if p.roots != [] && RawPath(p, workDir, file).Success? {
      StillSourceIsJudgedOnce(p, g, fs, workDir, file);
      StillSourceIsJudgedOnce(p, g, other, workDir, file);
    }
  }

  lemma ExistenceNeverChangesATargetRefusal(
    p: Policy, g: Guard, fs: FS, other: FS, workDir: string, destDir: string, filename: string)
    requires g.Valid() && TargetDiffersInExistence(p, g, fs, other, workDir, destDir, filename)
    ensures var r := ResolveTarget(p, g, Still(fs), workDir, destDir, filename);
      (r.Failure? && !DependsOnExistence(r.error.reason)) ==>
        ResolveTarget(p, g, Still(other), workDir, destDir, filename) == r
  {
    F.SanitizedNameIsBare(filename);
    if p.roots != [] && F.Sanitize(filename).Success? && RawPath(p, workDir, destDir).Success? {
      StillTargetIsJudgedOnce(p, g, fs, workDir, destDir, filename);
      StillTargetIsJudgedOnce(p, g, other, workDir, destDir, filename);
    }
  }

  /**
   In an unchanging file system an upload source is accepted exactly when its place, reached
   without links, is cleared and a regular file that may be sent exists there.
   */
  lemma StillSourceAccepted(p: Policy, g: Guard, fs: FS, workDir: string, file: string, c: Path)
    requires g.Valid()
    ensures ResolveSource(p, g, Still(fs), workDir, file) == Success(c) <==>
      && p.roots != []
      && RawPath(p, workDir, file).Success?
      && var named := Clean(RawPath(p, workDir, file).value);
      && c == Where(fs.links, named, g.hops)
      && LinkFree(fs.links, c) && FileSystem.Exists(fs, c)
      && SourceCleared(p, g, fs, fs, named, c)
      && FileAdmitted(p, NodeAt(fs, c), c)
  {
    AcceptedSourceIsExactlyCleared(p, g, Still(fs), workDir, file, c);
    if p.roots != [] && RawPath(p, workDir, file).Success? {
      var named := Clean(RawPath(p, workDir, file).value);
      var where := Where(fs.links, named, g.hops);
      PlaceResolvesToItself(fs, named, g.hops);
      if LinkFree(fs.links, where) {
        EvalSymlinksOfLinkFree(fs, where);
      }
    }
  }

  /** What is asked last about a directory that is its own place. */
  lemma StillTargetAdmitted(p: Policy, fs: FS, dir: Path, base: Name)
    requires EvalSymlinks(fs, dir) == Some(dir)
    ensures TargetAdmitted(p, Still(fs), dir, base) <==>
      && NodeAt(fs, dir) == Some(Dir) && dir + [base] !in fs.links && dir + [base] !in fs.nodes
      && (p.allowHidden
          || exists i: nat :: FirstRoot(p.roots, dir, true, i) && PlainBelow(p.roots[i], dir + [base]))
  {
    assert (dir + [base])[..|dir|] == dir;
  }

  /**
   And a download target is accepted exactly when its directory's place, reached without links, is
   cleared and a directory, and nothing is at the target.
   */
  lemma StillTargetAccepted(
    p: Policy, g: Guard, fs: FS, workDir: string, destDir: string, filename: string, target: Path)
    requires g.Valid()
    ensures ResolveTarget(p, g, Still(fs), workDir, destDir, filename) == Success(target) <==>
      && p.roots != []
      && F.Sanitize(filename).Success? && F.IsBareName(F.Sanitize(filename).value)
      && RawPath(p, workDir, destDir).Success?
      && var base: Name := F.Sanitize(filename).value;
         var named := Clean(RawPath(p, workDir, destDir).value);
         var dir := Where(fs.links, named, g.hops);
      && target == dir + [base]
      && LinkFree(fs.links, dir) && FileSystem.Exists(fs, dir) && NodeAt(fs, dir) == Some(Dir)
      && TargetCleared(p, g, fs, fs, named, dir, base)
      && target !in fs.links && target !in fs.nodes
      && (p.allowHidden || exists i: nat :: FirstRoot(p.roots, dir, true, i) && PlainBelow(p.roots[i], target))
  {
    AcceptedTargetIsExactlyCleared(p, g, Still(fs), workDir, destDir, filename, target);
    F.SanitizedNameIsBare(filename);
    if RawPath(p, workDir, destDir).Success? && F.Sanitize(filename).Success? {
      var named := Clean(RawPath(p, workDir, destDir).value);
      var dir := Where(fs.links, named, g.hops);
      PlaceResolvesToItself(fs, named, g.hops);
      if LinkFree(fs.links, dir) {
        EvalSymlinksOfLinkFree(fs, dir);
      }
      if EvalSymlinks(fs, dir) == Some(dir) {
        StillTargetAdmitted(p, fs, dir, F.Sanitize(filename).value);
      }
    }
  }

  // ---------- the filename names the file and nothing else ----------

  lemma FilenameOnlyNamesTheFile(
    p: Policy, g: Guard, m: Moments, workDir: string, destDir: string, filename: string, other: string)
    requires ResolveTarget(p, g, m, workDir, destDir, filename).Success?
    requires ResolveTarget(p, g, m, workDir, destDir, other).Success?
    ensures
      var t := ResolveTarget(p, g, m, workDir, destDir, filename).value;
      var u := ResolveTarget(p, g, m, workDir, destDir, other).value;
      && t != [] && u != [] && Parent(t) == Parent(u)
      && F.Sanitize(filename) == Success(t[|t| - 1])
      && F.Sanitize(other) == Success(u[|u| - 1])
  {
    AcceptedTargetIsExactlyCleared(p, g, m, workDir, destDir, filename,
      ResolveTarget(p, g, m, workDir, destDir, filename).value);
    AcceptedTargetIsExactlyCleared(p, g, m, workDir, destDir, other,
      ResolveTarget(p, g, m, workDir, destDir, other).value);
  }

  // ---------- the place a call names ----------

  /**
   A relative argument names what it names below the work directory, and an absolute one names the
   same place whatever the work directory is: writing the joined path out and reading it back in
   the judgements loses nothing.
   */
  lemma RawPathNamesThePlace(p: Policy, workDir: string, file: string)
    ensures RawPath(p, workDir, file).Success? <==> IsAbs(file) || IsAbs(workDir)
    ensures RawPath(p, workDir, file).Success? ==>
      Clean(RawPath(p, workDir, file).value)
      == if IsAbs(file) then Clean(file) else Lexical(Clean(workDir), Parts(file))
  {
    CleanOfRender(JoinClean(workDir, file));
    JoinGoesOn(workDir, file);
  }

  // ---------- the work directory is the boundary ----------

  /** A root is accepted exactly when it leads to a directory, and its place is the root. */
  lemma RootsAreDirectories(eval: FS, stat: FS, root: string, place: Path)
    ensures CanonicalRoot(eval, stat, root) == Success(place) <==>
      IsAbs(root) && EvalSymlinks(eval, Clean(root)) == Some(place) && Stat(stat, place) == Some(Dir)
    ensures CanonicalRoot(eval, stat, root) == Failure(RelativeRoot(root)) <==> !IsAbs(root)
    ensures CanonicalRoot(eval, stat, root) == Failure(RootNotADirectory(root)) <==>
      && IsAbs(root) && EvalSymlinks(eval, Clean(root)).Some?
      && var node := Stat(stat, EvalSymlinks(eval, Clean(root)).value); node.Some? && node != Some(Dir)
  {
  }

  lemma SourceIsBelowItsRoot(p: Policy, g: Guard, m: Moments, workDir: string, file: string)
    requires |p.roots| == 1 && ResolveSource(p, g, m, workDir, file).Success?
    ensures p.roots[0] < ResolveSource(p, g, m, workDir, file).value
  {
    AcceptedSourceIsExactlyCleared(p, g, m, workDir, file, ResolveSource(p, g, m, workDir, file).value);
  }

  /** And there is nothing at an accepted target, not even a dangling link. */
  lemma TargetIsBelowItsRoot(p: Policy, g: Guard, m: Moments, workDir: string, destDir: string, filename: string)
    requires |p.roots| == 1 && ResolveTarget(p, g, m, workDir, destDir, filename).Success?
    ensures var target := ResolveTarget(p, g, m, workDir, destDir, filename).value;
      p.roots[0] < target && !Occupied(m.lstat, target)
  {
    AcceptedTargetIsExactlyCleared(
      p, g, m, workDir, destDir, filename, ResolveTarget(p, g, m, workDir, destDir, filename).value);
  }

  /**
   A policy built for one work directory lets nothing out from, or in to, anywhere but strictly
   below that directory's canonical place, whatever changes while the call runs.
   */
  lemma WorkDirIsTheBoundary(
    eval: FS, stat: FS, dir: string, p: Policy, g: Guard, m: Moments,
    workDir: string, file: string, filename: string)
    requires |p.roots| == 1 && CanonicalRoot(eval, stat, dir) == Success(p.roots[0])
    ensures IsAbs(dir) && EvalSymlinks(eval, Clean(dir)).Some?
    ensures var root := EvalSymlinks(eval, Clean(dir)).value;
      && LinkFree(eval.links, root)
      && (var r := ResolveSource(p, g, m, workDir, file); r.Success? ==> root < r.value)
      && (var r := ResolveTarget(p, g, m, workDir, file, filename); r.Success? ==> root < r.value)
  {
    EvalIsWalk(eval, [], Clean(dir), EVAL_LINKS, EVAL_LINKS);
    WalkEndsLinkFree(eval.links, [], Clean(dir), EVAL_LINKS);
    if ResolveSource(p, g, m, workDir, file).Success? {
      SourceIsBelowItsRoot(p, g, m, workDir, file);
    }
    if ResolveTarget(p, g, m, workDir, file, filename).Success? {
      TargetIsBelowItsRoot(p, g, m, workDir, file, filename);
    }
  }
}
