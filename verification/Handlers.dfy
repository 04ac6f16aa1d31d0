/**
 The injected tools' handlers: argument checks, the work directory, containment, the transfer and
 the audit trail, as the effects they have in order and the result they return.
 */
module Handlers {
  import opened Prelude
  import opened Paths
  import opened FileSystem
  import opened Containment
  import Theorems = ContainmentTheorems
  import Fetch
  import J = JsonRpc

  datatype Tool = FileUpload | FileUploadToThread | FileDownload

  /** How an audited call ended, and why. */
  datatype Outcome = Ok | Denied(reason: Reason) | DeclaredSize | Failed(error: string)

  datatype AuditEntry = AuditEntry(
    tool: Tool, path: string, size: int, channelId: string, threadTs: string, fileId: string, outcome: Outcome)

  datatype UploadRequest = UploadRequest(
    path: Path, filename: string, channelId: string, comment: string, threadTs: string)

  datatype UploadResult = UploadResult(
    fileId: string, filename: string, size: int, channelId: string, threadTs: string)

  datatype FileInfo = FileInfo(id: string, name: string, size: int)

  /** A failed transfer: Slack's refusal, or anything else. */
  datatype TransferError = Slack(call: string, reason: string) | Other(message: string)

  /** How a call names its work directory: the argument, and what the runtime adds to the call. */
  datatype WorkDir = WorkDir(arg: string, meta: map<string, J.Json>)

  /** workdir's refusal of a work directory, or an error of another kind. */
  datatype WorkDirError =
    | Refused(code: string, message: string, details: map<string, J.Json>)
    | Unexpected(message: string)

  /** What a handler does to the world, in order. */
  datatype Effect =
    | Upload(request: UploadRequest)
    | Info(fileId: string)
    | FetchTo(info: FileInfo, target: Path, maxSize: int)
    | Audit(entry: AuditEntry)

  datatype ToolResult =
    | Uploaded(result: UploadResult)
    | Downloaded(fileId: string, path: Path, filename: string, size: nat)
    | ErrorResult(code: Code)

  /** The code of a structured error, with what its details carry. */
  datatype Code =
    | InvalidArguments
    | BadWorkDir(code: string, message: string, details: map<string, J.Json>)
    | InternalError
    | PathDeniedFor(violation: Violation)
    | SlackApiError(call: string, reason: string)
    | UploadFailed
    | DownloadFailed
    | FileTooLarge

  datatype Settings = Settings(allowHidden: bool, maxFileSize: int, serverDirs: seq<string>)

  datatype UploadArgs = UploadArgs(
    channelId: string, file: string, workDir: WorkDir, comment: string, filename: string, threadTs: string)

  datatype DownloadArgs = DownloadArgs(fileId: string, destDir: string, workDir: WorkDir, filename: string)

  /**
   What the outside contributes to one call: the judgement of the work directory, the file system as
   each step finds it, pathguard's answers, and the answers of the transfer client.
   */
  datatype World = World(
    resolveWorkDir: (WorkDir, seq<string>) -> Result<string, WorkDirError>,
    rootEval: FS, rootStat: FS, moments: Moments, guard: Guard,
    upload: Result<UploadResult, TransferError>,
    info: Result<FileInfo, TransferError>,
    fetch: Result<nat, Fetch.FetchError>)

  /** policyFor: the resolved work directory and a policy with it as the only root. */
  function PolicyFor(it: Settings, w: World, named: WorkDir): Result<(string, Policy), ToolResult> {
    match w.resolveWorkDir(named, it.serverDirs)
    case Failure(Refused(code, message, details)) => Failure(ErrorResult(BadWorkDir(code, message, details)))
    case Failure(Unexpected(_)) => Failure(ErrorResult(InternalError))
    case Success(dir) =>
      match CanonicalRoot(w.rootEval, w.rootStat, dir)
      case Failure(_) => Failure(ErrorResult(InternalError))
      case Success(root) => Success((dir, Policy([root], it.serverDirs, it.allowHidden, it.maxFileSize)))
  }

  /** pathDenied: the denial is audited and reported. */
  function PathDenied(tool: Tool, v: Violation, channelId: string, threadTs: string): (seq<Effect>, ToolResult) {
    ([Audit(AuditEntry(tool, v.path, 0, channelId, threadTs, "", Denied(v.reason)))],
     ErrorResult(PathDeniedFor(v)))
  }

  function TransferFailed(e: TransferError, otherwise: Code): ToolResult {
    match e
    case Slack(call, reason) => ErrorResult(SlackApiError(call, reason))
    case Other(_) => ErrorResult(otherwise)
  }

  function Message(e: TransferError): string {
    match e
    case Slack(call, reason) => call + ": " + reason
    case Other(message) => message
  }

  /** A root-message upload never threads. */
  function Thread(name: Tool, args: UploadArgs): string {
    if name == FileUpload then "" else args.threadTs
  }

  predicate UploadArgsOk(name: Tool, args: UploadArgs) {
    && args.channelId != "" && args.file != ""
    && (name == FileUploadToThread ==> args.threadTs != "")
  }

  /** handleUpload once containment has decided. */
  function UploadDecided(
    w: World, name: Tool, args: UploadArgs, decided: Result<Path, Violation>): (seq<Effect>, ToolResult)
  {
    var thread := Thread(name, args);
    match decided
    case Failure(v) => PathDenied(name, v, args.channelId, thread)
    case Success(path) =>
      var request := Upload(UploadRequest(path, args.filename, args.channelId, args.comment, thread));
      match w.upload
      case Failure(e) =>
        ([request, Audit(AuditEntry(name, Render(path), 0, args.channelId, thread, "", Failed(Message(e))))],
         TransferFailed(e, UploadFailed))
      case Success(u) =>
        ([request, Audit(AuditEntry(name, Render(path), u.size, u.channelId, u.threadTs, u.fileId, Ok))],
         Uploaded(u))
  }

  function HandleUpload(it: Settings, w: World, name: Tool, args: UploadArgs): (seq<Effect>, ToolResult) {
    if !UploadArgsOk(name, args) then ([], ErrorResult(InvalidArguments))
    else
      match PolicyFor(it, w, args.workDir)
      case Failure(refusal) => ([], refusal)
      case Success((dir, policy)) =>
        UploadDecided(w, name, args, ResolveSource(policy, w.guard, w.moments, dir, args.file))
  }

  function DownloadAudit(path: string, size: int, fileId: string, outcome: Outcome): Effect {
    Audit(AuditEntry(FileDownload, path, size, "", "", fileId, outcome))
  }

  /** handleDownload once containment has decided. */
  function DownloadDecided(
    w: World, args: DownloadArgs, maxSize: int, info: FileInfo, filename: string, decided: Result<Path, Violation>)
    : (seq<Effect>, ToolResult)
  {
    match decided
    case Failure(v) => PathDenied(FileDownload, v, "", "")
    case Success(target) =>
      match w.fetch
      case Failure(e) =>
        ([FetchTo(info, target, maxSize), DownloadAudit(Render(target), 0, args.fileId, Failed("fetch"))],
         ErrorResult(if e.TooLarge? then FileTooLarge else DownloadFailed))
      case Success(size) =>
        ([FetchTo(info, target, maxSize), DownloadAudit(Render(target), size, args.fileId, Ok)],
         Downloaded(args.fileId, target, filename, size))
  }

  /** The destination and the name that the arguments and the file's metadata come to. */
  function DestDir(args: DownloadArgs, dir: string): string {
    if args.destDir == "" then dir else args.destDir
  }

  function SaveAs(args: DownloadArgs, info: FileInfo): string {
    if args.filename == "" then info.name else args.filename
  }

  predicate DeclaredTooLarge(maxSize: int, info: FileInfo) {
    maxSize > 0 && info.size > maxSize
  }

  /** handleDownload once the file's metadata has been asked for. */
  function InfoReceived(w: World, args: DownloadArgs, dir: string, policy: Policy): (seq<Effect>, ToolResult) {
    match w.info
    case Failure(e) =>
      ([DownloadAudit("", 0, args.fileId, Failed(Message(e)))], TransferFailed(e, DownloadFailed))
    case Success(info) =>
      if DeclaredTooLarge(policy.maxSize, info) then
        ([DownloadAudit("", info.size, args.fileId, DeclaredSize)], ErrorResult(FileTooLarge))
      else
        DownloadDecided(w, args, policy.maxSize, info, SaveAs(args, info),
          ResolveTarget(policy, w.guard, w.moments, dir, DestDir(args, dir), SaveAs(args, info)))
  }

  function HandleDownload(it: Settings, w: World, args: DownloadArgs): (seq<Effect>, ToolResult) {
    if args.fileId == "" then ([], ErrorResult(InvalidArguments))
    else
      match PolicyFor(it, w, args.workDir)
      case Failure(refusal) => ([], refusal)
      case Success((dir, policy)) =>
        var (more, result) := InfoReceived(w, args, dir, policy);
        ([Info(args.fileId)] + more, result)
  }

  /** A call of one of the injected tools. */
  datatype Call = UploadCall(name: Tool, upload: UploadArgs) | DownloadCall(download: DownloadArgs)

  function Handle(it: Settings, w: World, c: Call): (seq<Effect>, ToolResult) {
    match c
    case UploadCall(name, args) => HandleUpload(it, w, name, args)
    case DownloadCall(args) => HandleDownload(it, w, args)
  }

  /** The call got past its argument checks and policyFor. */
  predicate Admitted(it: Settings, w: World, c: Call) {
    match c
    case UploadCall(name, args) =>
      && args.channelId != "" && args.file != "" && (name == FileUploadToThread ==> args.threadTs != "")
      && PolicyFor(it, w, args.workDir).Success?
    case DownloadCall(args) => args.fileId != "" && PolicyFor(it, w, args.workDir).Success?
  }

  // ---------- what is asked for is what is done ----------

  /** The policy has the one root that the work directory leads to, and the settings as they are. */
  lemma PolicyIsOfTheWorkDir(it: Settings, w: World, named: WorkDir)
    ensures
      var r := PolicyFor(it, w, named);
      match w.resolveWorkDir(named, it.serverDirs)
      case Failure(Refused(code, message, details)) => r == Failure(ErrorResult(BadWorkDir(code, message, details)))
      case Failure(Unexpected(_)) => r == Failure(ErrorResult(InternalError))
      case Success(dir) =>
        if IsAbs(dir) && EvalSymlinks(w.rootEval, Clean(dir)).Some?
           && Stat(w.rootStat, EvalSymlinks(w.rootEval, Clean(dir)).value) == Some(Dir) then
          var root := EvalSymlinks(w.rootEval, Clean(dir)).value;
          r == Success((dir, Policy([root], it.serverDirs, it.allowHidden, it.maxFileSize)))
        else r == Failure(ErrorResult(InternalError))
  {
  }

  /** The code for a failed transfer. */
  predicate IsCodeFor(e: TransferError, otherwise: Code, r: ToolResult) {
    r == ErrorResult(if e.Slack? then SlackApiError(e.call, e.reason) else otherwise)
  }

  /**
   An upload that containment accepts is sent: that file, to the channel, with the comment and the
   display name of the call, in its thread if it is for one. What is audited and returned is what
   came of it.
   */
  lemma AcceptedUploadsAreSent(it: Settings, w: World, name: Tool, args: UploadArgs)
    requires Admitted(it, w, UploadCall(name, args))
    ensures
      var (dir, policy) := PolicyFor(it, w, args.workDir).value;
      var decided := ResolveSource(policy, w.guard, w.moments, dir, args.file);
      var thread := if name == FileUpload then "" else args.threadTs;
      var (effects, r) := HandleUpload(it, w, name, args);
      && (decided.Success? ==>
            && |effects| == 2
            && effects[0] == Upload(UploadRequest(decided.value, args.filename, args.channelId, args.comment, thread))
            && effects[1].Audit? && effects[1].entry.tool == name && effects[1].entry.path == Render(decided.value)
            && if w.upload.Success? then r == Uploaded(w.upload.value)
               else
                 && IsCodeFor(w.upload.error, UploadFailed, r)
                 && effects[1].entry.channelId == args.channelId && effects[1].entry.threadTs == thread)
      && (decided.Failure? ==>
            && r == ErrorResult(PathDeniedFor(decided.error))
            && effects == [Audit(AuditEntry(name, decided.error.path, 0, args.channelId, thread, "",
                             Denied(decided.error.reason)))])
  {
  }

  lemma DownloadAfterInfo(w: World, args: DownloadArgs, dir: string, policy: Policy)
    ensures
      var (more, r) := InfoReceived(w, args, dir, policy);
      && match w.info
         case Failure(e) => |more| == 1 && IsCodeFor(e, DownloadFailed, r)
         case Success(info) =>
           var destDir := if args.destDir == "" then dir else args.destDir;
           var filename := if args.filename == "" then info.name else args.filename;
           if policy.maxSize > 0 && info.size > policy.maxSize then
             && r == ErrorResult(FileTooLarge)
             && more == [Audit(AuditEntry(FileDownload, "", info.size, "", "", args.fileId, DeclaredSize))]
           else
             match ResolveTarget(policy, w.guard, w.moments, dir, destDir, filename)
             case Failure(v) =>
               && r == ErrorResult(PathDeniedFor(v))
               && more == [Audit(AuditEntry(FileDownload, v.path, 0, "", "", "", Denied(v.reason)))]
             case Success(target) =>
               && |more| == 2 && more[0] == FetchTo(info, target, policy.maxSize)
               && more[1].Audit? && more[1].entry.fileId == args.fileId
               && more[1].entry.tool == FileDownload && more[1].entry.path == Render(target)
               && r == (match w.fetch
                        case Success(size) => Downloaded(args.fileId, target, filename, size)
                        case Failure(e) => ErrorResult(if e.TooLarge? then FileTooLarge else DownloadFailed))
  {
  }

  /**
   A download asks for the file's metadata, and goes on only if the declared size is within the cap;
   then a target that containment accepts is written to, under the name and in the directory that
   the call gives, or the file's own name and the work directory.
   */
  lemma AcceptedDownloadsAreFetched(it: Settings, w: World, args: DownloadArgs)
    requires Admitted(it, w, DownloadCall(args))
    ensures
      var (dir, policy) := PolicyFor(it, w, args.workDir).value;
      var (effects, r) := HandleDownload(it, w, args);
      && |effects| >= 2 && effects[0] == Info(args.fileId)
      && match w.info
         case Failure(e) => |effects| == 2 && IsCodeFor(e, DownloadFailed, r)
         case Success(info) =>
           var destDir := if args.destDir == "" then dir else args.destDir;
           var filename := if args.filename == "" then info.name else args.filename;
           if policy.maxSize > 0 && info.size > policy.maxSize then
             && r == ErrorResult(FileTooLarge)
             && effects[1..] == [Audit(AuditEntry(FileDownload, "", info.size, "", "", args.fileId, DeclaredSize))]
           else
             match ResolveTarget(policy, w.guard, w.moments, dir, destDir, filename)
             case Failure(v) =>
               && r == ErrorResult(PathDeniedFor(v))
               && effects[1..] == [Audit(AuditEntry(FileDownload, v.path, 0, "", "", "", Denied(v.reason)))]
             case Success(target) =>
               && |effects| == 3 && effects[1] == FetchTo(info, target, policy.maxSize)
               && effects[2].Audit? && effects[2].entry.fileId == args.fileId
               && effects[2].entry.tool == FileDownload && effects[2].entry.path == Render(target)
               && r == (match w.fetch
                        case Success(size) => Downloaded(args.fileId, target, filename, size)
                        case Failure(e) => ErrorResult(if e.TooLarge? then FileTooLarge else DownloadFailed))
  {
    var (dir, policy) := PolicyFor(it, w, args.workDir).value;
    assert HandleDownload(it, w, args).0 == [Info(args.fileId)] + InfoReceived(w, args, dir, policy).0;
    DownloadAfterInfo(w, args, dir, policy);
  }

  // ---------- the audit trail ----------

  function AuditOf(e: Effect): seq<AuditEntry> {
    if e.Audit? then [e.entry] else []
  }

  function Audits(effects: seq<Effect>): seq<AuditEntry> {
    if effects == [] then [] else AuditOf(effects[0]) + Audits(effects[1..])
  }

  /** The entry tells what the result tells. */
  predicate Matches(entry: AuditEntry, r: ToolResult) {
    match r
    case Uploaded(u) =>
      && entry.outcome == Ok && entry.fileId == u.fileId && entry.size == u.size
      && entry.channelId == u.channelId && entry.threadTs == u.threadTs
    case Downloaded(fileId, path, _, size) =>
      entry.outcome == Ok && entry.fileId == fileId && entry.path == Render(path) && entry.size == size
    case ErrorResult(code) =>
      match entry.outcome
      case Ok => false
      case Denied(reason) =>
        code.PathDeniedFor? && reason == code.violation.reason && entry.path == code.violation.path
      case DeclaredSize => code == FileTooLarge
      case Failed(_) => code.SlackApiError? || code == UploadFailed || code == DownloadFailed || code == FileTooLarge
  }

  lemma {:induction false} AuditsAppend(a: seq<Effect>, b: seq<Effect>)
    ensures Audits(a + b) == Audits(a) + Audits(b)
  {
    if a == [] {
      assert a + b == b;
    } else {
      assert (a + b)[1..] == a[1..] + b && (a + b)[0] == a[0];
      AuditsAppend(a[1..], b);
      var head, mid, tail := AuditOf(a[0]), Audits(a[1..]), Audits(b);
      assert Audits(a + b) == head + (mid + tail);
      assert head + (mid + tail) == (head + mid) + tail;
    }
  }

  /** One audit entry, at the end, that matches the result. */
  predicate AuditedOnce(effects: seq<Effect>, r: ToolResult) {
    && effects != [] && effects[|effects| - 1].Audit?
    && Audits(effects) == [effects[|effects| - 1].entry]
    && Matches(effects[|effects| - 1].entry, r)
  }

  lemma {:induction false} AuditedAtTheEnd(effects: seq<Effect>, r: ToolResult)
    requires effects != [] && effects[|effects| - 1].Audit? && Matches(effects[|effects| - 1].entry, r)
    requires forall i | 0 <= i < |effects| - 1 :: !effects[i].Audit?
    ensures AuditedOnce(effects, r)
  {
    if |effects| > 1 {
      AuditedAtTheEnd(effects[1..], r);
    }
  }

  lemma UploadIsAuditedOnce(w: World, name: Tool, args: UploadArgs, decided: Result<Path, Violation>)
    ensures var (effects, r) := UploadDecided(w, name, args, decided); AuditedOnce(effects, r)
  {
    var (effects, r) := UploadDecided(w, name, args, decided);
    AuditedAtTheEnd(effects, r);
  }

  lemma DecisionIsAuditedOnce(
    w: World, args: DownloadArgs, maxSize: int, info: FileInfo, filename: string, decided: Result<Path, Violation>)
    ensures var (effects, r) := DownloadDecided(w, args, maxSize, info, filename, decided); AuditedOnce(effects, r)
  {
    var (effects, r) := DownloadDecided(w, args, maxSize, info, filename, decided);
    AuditedAtTheEnd(effects, r);
  }

  lemma DownloadIsAuditedOnce(w: World, args: DownloadArgs, dir: string, policy: Policy)
    ensures var (effects, r) := InfoReceived(w, args, dir, policy); AuditedOnce(effects, r)
  {
    if w.info.Success? && !DeclaredTooLarge(policy.maxSize, w.info.value) {
      var filename := SaveAs(args, w.info.value);
      DecisionIsAuditedOnce(w, args, policy.maxSize, w.info.value, filename,
        ResolveTarget(policy, w.guard, w.moments, dir, DestDir(args, dir), filename));
    } else {
      var (effects, r) := InfoReceived(w, args, dir, policy);
      AuditedAtTheEnd(effects, r);
    }
  }

  /**
   An admitted call leaves exactly one audit entry, as its last effect, and the entry matches the
   result that is returned; any other call has no effect at all.
   */
  lemma EveryAdmittedCallIsAuditedOnce(it: Settings, w: World, c: Call)
    ensures var (effects, r) := Handle(it, w, c);
      if Admitted(it, w, c) then AuditedOnce(effects, r) else effects == [] && r.ErrorResult?
  {
    if Admitted(it, w, c) {
      match c
      case UploadCall(name, args) =>
        var (dir, policy) := PolicyFor(it, w, args.workDir).value;
        UploadIsAuditedOnce(w, name, args, ResolveSource(policy, w.guard, w.moments, dir, args.file));
      case DownloadCall(args) =>
        var (dir, policy) := PolicyFor(it, w, args.workDir).value;
        DownloadIsAuditedOnce(w, args, dir, policy);
        AuditsAppend([Info(args.fileId)], InfoReceived(w, args, dir, policy).0);
    }
  }

  // ---------- no transfer without containment ----------

  /** The upload call that may send this file. */
  ghost predicate MaySend(it: Settings, w: World, c: Call, request: UploadRequest) {
    && c.UploadCall? && PolicyFor(it, w, c.upload.workDir).Success?
    && (var (dir, policy) := PolicyFor(it, w, c.upload.workDir).value;
        && ResolveSource(policy, w.guard, w.moments, dir, c.upload.file) == Success(request.path)
        && policy.roots[0] < request.path)
    && (c.name == FileUpload ==> request.threadTs == "")
    && (c.name == FileUploadToThread ==> request.threadTs == c.upload.threadTs != "")
  }

  /** The download call that may write this target. */
  ghost predicate MayWrite(it: Settings, w: World, c: Call, info: FileInfo, target: Path, maxSize: int) {
    && c.DownloadCall? && PolicyFor(it, w, c.download.workDir).Success?
    && (var (dir, policy) := PolicyFor(it, w, c.download.workDir).value;
        var destDir := if c.download.destDir == "" then dir else c.download.destDir;
        var filename := if c.download.filename == "" then info.name else c.download.filename;
        && ResolveTarget(policy, w.guard, w.moments, dir, destDir, filename) == Success(target)
        && policy.roots[0] < target && !Occupied(w.moments.lstat, target)
        && maxSize == policy.maxSize && (maxSize > 0 ==> info.size <= maxSize))
    && w.info == Success(info)
  }

  lemma UploadsTheDecision(w: World, name: Tool, args: UploadArgs, decided: Result<Path, Violation>, i: nat)
    requires i < |UploadDecided(w, name, args, decided).0|
    ensures var e := UploadDecided(w, name, args, decided).0[i];
      && !e.FetchTo?
      && (e.Upload? ==> decided == Success(e.request.path) && e.request.threadTs == Thread(name, args))
  {
  }

  lemma UploadsAreContained(it: Settings, w: World, name: Tool, args: UploadArgs, i: nat)
    requires i < |HandleUpload(it, w, name, args).0|
    ensures var e := HandleUpload(it, w, name, args).0[i];
      && !e.FetchTo?
      && (e.Upload? ==> MaySend(it, w, UploadCall(name, args), e.request))
  {
    var (dir, policy) := PolicyFor(it, w, args.workDir).value;
    var decided := ResolveSource(policy, w.guard, w.moments, dir, args.file);
    if decided.Success? {
      Theorems.SourceIsBelowItsRoot(policy, w.guard, w.moments, dir, args.file);
    }
    UploadsTheDecision(w, name, args, decided, i);
  }

  lemma FetchesTheDecision(
    w: World, args: DownloadArgs, maxSize: int, info: FileInfo, filename: string, decided: Result<Path, Violation>,
    i: nat)
    requires i < |DownloadDecided(w, args, maxSize, info, filename, decided).0|
    ensures var e := DownloadDecided(w, args, maxSize, info, filename, decided).0[i];
      && !e.Upload?
      && (e.FetchTo? ==> e.info == info && decided == Success(e.target) && e.maxSize == maxSize)
  {
  }

  lemma DownloadsTheDecision(w: World, args: DownloadArgs, dir: string, policy: Policy, i: nat)
    requires i < |InfoReceived(w, args, dir, policy).0| && |policy.roots| == 1
    ensures var e := InfoReceived(w, args, dir, policy).0[i];
      && !e.Upload?
      && (e.FetchTo? ==>
          && w.info == Success(e.info)
          && ResolveTarget(policy, w.guard, w.moments, dir, DestDir(args, dir), SaveAs(args, e.info))
             == Success(e.target)
          && policy.roots[0] < e.target && !Occupied(w.moments.lstat, e.target)
          && e.maxSize == policy.maxSize && !DeclaredTooLarge(e.maxSize, e.info))
  {
    var e := InfoReceived(w, args, dir, policy).0[i];
    if w.info.Success? && !DeclaredTooLarge(policy.maxSize, w.info.value) {
      var info := w.info.value;
      FetchesTheDecision(w, args, policy.maxSize, info, SaveAs(args, info),
        ResolveTarget(policy, w.guard, w.moments, dir, DestDir(args, dir), SaveAs(args, info)), i);
    }
    if e.FetchTo? {
      Theorems.TargetIsBelowItsRoot(policy, w.guard, w.moments, dir, DestDir(args, dir), SaveAs(args, e.info));
    }
  }

  lemma DownloadEffect(it: Settings, w: World, args: DownloadArgs, i: nat)
    requires i < |HandleDownload(it, w, args).0|
    ensures PolicyFor(it, w, args.workDir).Success?
    ensures
      var (dir, policy) := PolicyFor(it, w, args.workDir).value;
      var more := InfoReceived(w, args, dir, policy).0;
      && |policy.roots| == 1 && i <= |more|
      && HandleDownload(it, w, args).0[i] == if i == 0 then Info(args.fileId) else more[i - 1]
  {
    var (dir, policy) := PolicyFor(it, w, args.workDir).value;
    assert HandleDownload(it, w, args).0 == [Info(args.fileId)] + InfoReceived(w, args, dir, policy).0;
  }

  lemma DownloadsAreContained(it: Settings, w: World, args: DownloadArgs, i: nat)
    requires i < |HandleDownload(it, w, args).0|
    ensures var e := HandleDownload(it, w, args).0[i];
      && !e.Upload?
      && (e.FetchTo? ==> MayWrite(it, w, DownloadCall(args), e.info, e.target, e.maxSize))
  {
    DownloadEffect(it, w, args, i);
    if i > 0 {
      var (dir, policy) := PolicyFor(it, w, args.workDir).value;
      DownloadsTheDecision(w, args, dir, policy, i - 1);
    }
  }

  /**
   Nothing is uploaded but a path that containment accepted, and nothing is written but to a target
   that it accepted, with nothing there, after the declared size was checked; both strictly below
   the work directory.
   */
  lemma TransfersAreContained(it: Settings, w: World, c: Call, i: nat)
    requires i < |Handle(it, w, c).0|
    ensures var e := Handle(it, w, c).0[i];
      && (e.Upload? ==> MaySend(it, w, c, e.request))
      && (e.FetchTo? ==> MayWrite(it, w, c, e.info, e.target, e.maxSize))
  {
    match c
    case UploadCall(name, args) => UploadsAreContained(it, w, name, args, i);
    case DownloadCall(args) => DownloadsAreContained(it, w, args, i);
  }

  lemma FreeTargetIsNobodys(target: Path, found: FS, files: Fetch.Files, maxSize: int, transfer: Fetch.World)
    requires target != [] && !Occupied(found, target) && Fetch.FreshTemp(files, transfer)
    requires forall name: Name | name in files :: Occupied(found, Parent(target) + [name])
    ensures var base := target[|target| - 1];
      var after := Fetch.FetchTo(files, base, maxSize, transfer).0;
      && base !in files
      && forall name | name in files :: name in after && after[name] == files[name]
  {
    var base := target[|target| - 1];
    assert target == Parent(target) + [base];
    Fetch.OnlyTheTargetChanges(files, base, maxSize, transfer);
  }

  /**
   A download overwrites nothing. If the directory's files are the ones Lstat found there, or fewer,
   the target is none of them, and each is as it was when the transfer has ended, in whatever way.
   */
  lemma DownloadsOverwriteNothing(
    it: Settings, w: World, c: Call, i: nat, files: Fetch.Files, transfer: Fetch.World)
    requires i < |Handle(it, w, c).0| && Handle(it, w, c).0[i].FetchTo?
    requires Fetch.FreshTemp(files, transfer)
    requires forall name: Name | name in files ::
      Occupied(w.moments.lstat, Parent(Handle(it, w, c).0[i].target) + [name])
    ensures
      var e := Handle(it, w, c).0[i];
      && e.target != []
      && var base := e.target[|e.target| - 1];
         var after := Fetch.FetchTo(files, base, e.maxSize, transfer).0;
      && base !in files
      && forall name | name in files :: name in after && after[name] == files[name]
  {
    TransfersAreContained(it, w, c, i);
    var e := Handle(it, w, c).0[i];
    FreeTargetIsNobodys(e.target, w.moments.lstat, files, e.maxSize, transfer);
  }

  // ---------- sequences of calls ----------

  function EffectsOf(it: Settings, calls: seq<(World, Call)>): seq<Effect> {
    if calls == [] then []
    else Handle(it, calls[0].0, calls[0].1).0 + EffectsOf(it, calls[1..])
  }

  /** The call, if it is admitted. */
  function IfAdmitted(it: Settings, call: (World, Call)): seq<(World, Call)> {
    if Admitted(it, call.0, call.1) then [call] else []
  }

  function AdmittedCalls(it: Settings, calls: seq<(World, Call)>): seq<(World, Call)> {
    if calls == [] then [] else IfAdmitted(it, calls[0]) + AdmittedCalls(it, calls[1..])
  }

  /** The entry tells what the call returned. */
  predicate Tells(it: Settings, entry: AuditEntry, call: (World, Call)) {
    Matches(entry, Handle(it, call.0, call.1).1)
  }

  /** One for one, in order. */
  ghost predicate Pairwise<A(!new), B(!new)>(related: (A, B) -> bool, a: seq<A>, b: seq<B>) {
    |a| == |b| && forall i | 0 <= i < |a| :: related(a[i], b[i])
  }

  lemma PairwiseAppend<A(!new), B(!new)>(related: (A, B) -> bool, a: seq<A>, x: seq<B>, b: seq<A>, y: seq<B>)
    requires Pairwise(related, a, x) && Pairwise(related, b, y)
    ensures Pairwise(related, a + b, x + y)
  {
    forall i | 0 <= i < |a + b|
      ensures related((a + b)[i], (x + y)[i])
    {
      if i < |a| {
        assert (a + b)[i] == a[i] && (x + y)[i] == x[i];
      } else {
        assert (a + b)[i] == b[i - |a|] && (x + y)[i] == y[i - |a|];
      }
    }
  }

  function Telling(it: Settings): (AuditEntry, (World, Call)) -> bool {
    (entry, call) => Tells(it, entry, call)
  }

  ghost predicate AllMatch(it: Settings, trail: seq<AuditEntry>, calls: seq<(World, Call)>) {
    Pairwise(Telling(it), trail, calls)
  }

  lemma OneEntryForTheCall(it: Settings, call: (World, Call))
    ensures AllMatch(it, Audits(Handle(it, call.0, call.1).0), IfAdmitted(it, call))
  {
    EveryAdmittedCallIsAuditedOnce(it, call.0, call.1);
  }

  /** The trail of a whole run has one matching entry for each admitted call, in the order of the calls. */
  lemma {:induction false} TrailMatchesTheCalls(it: Settings, calls: seq<(World, Call)>)
    ensures AllMatch(it, Audits(EffectsOf(it, calls)), AdmittedCalls(it, calls))
  {
    if calls == [] {
    } else {
      var first, rest := Handle(it, calls[0].0, calls[0].1).0, EffectsOf(it, calls[1..]);
      OneEntryForTheCall(it, calls[0]);
      TrailMatchesTheCalls(it, calls[1..]);
      AuditsAppend(first, rest);
      PairwiseAppend(Telling(it), Audits(first), IfAdmitted(it, calls[0]), Audits(rest), AdmittedCalls(it, calls[1..]));
    }
  }

  // ---------- step by step ----------

  class InjectedTools {
    const it: Settings
    var effects: seq<Effect>

    constructor (it: Settings)
      ensures this.it == it && effects == []
    {
      this.it := it;
      effects := [];
    }

    method Do(e: Effect)
      modifies this
      ensures effects == old(effects) + [e]
    {
      effects := effects + [e];
    }

    method FindPolicy(w: World, named: WorkDir) returns (r: Result<(string, Policy), ToolResult>)
      ensures r == PolicyFor(it, w, named)
    {
      var resolved := w.resolveWorkDir(named, it.serverDirs);
      if resolved.Failure? {
        var e := resolved.error;
        return Failure(ErrorResult(if e.Refused? then BadWorkDir(e.code, e.message, e.details) else InternalError));
      }
      var dir := resolved.value;
      var policy := NewPolicy(_ => w.rootEval, _ => w.rootStat, [dir], it.serverDirs, it.allowHidden, it.maxFileSize);
      if policy.Failure? {
        return Failure(ErrorResult(InternalError));
      }
      assert policy.value.roots == [policy.value.roots[0]];
      return Success((dir, policy.value));
    }

    method Deny(tool: Tool, v: Violation, channelId: string, threadTs: string) returns (r: ToolResult)
      modifies this
      ensures
        var (denial, result) := PathDenied(tool, v, channelId, threadTs);
        effects == old(effects) + denial && r == result
    {
      Do(Audit(AuditEntry(tool, v.path, 0, channelId, threadTs, "", Denied(v.reason))));
      r := ErrorResult(PathDeniedFor(v));
    }

    method DoUpload(w: World, name: Tool, args: UploadArgs) returns (r: ToolResult)
      modifies this
      ensures
        var (more, result) := HandleUpload(it, w, name, args);
        effects == old(effects) + more && r == result
    {
      var threadTs := args.threadTs;
      if args.channelId == "" || args.file == "" {
        return ErrorResult(InvalidArguments);
      }
      if name == FileUploadToThread && threadTs == "" {
        return ErrorResult(InvalidArguments);
      }
      if name == FileUpload {
        threadTs := "";
      }
      var found := FindPolicy(w, args.workDir);
      if found.Failure? {
        return found.error;
      }
      var (dir, policy) := found.value;
      var resolved := Resolve(policy, w.guard, w.moments, dir, args.file);
      if resolved.Failure? {
        r := Deny(name, resolved.error, args.channelId, threadTs);
        return;
      }
      r := Send(w, name, args, threadTs, resolved.value);
    }

    /** handleUpload from the transfer on. */
    method Send(w: World, name: Tool, args: UploadArgs, threadTs: string, path: Path) returns (r: ToolResult)
      requires threadTs == Thread(name, args)
      modifies this
      ensures
        var (more, result) := UploadDecided(w, name, args, Success(path));
        effects == old(effects) + more && r == result
    {
      Do(Upload(UploadRequest(path, args.filename, args.channelId, args.comment, threadTs)));
      if w.upload.Failure? {
        var e := w.upload.error;
        Do(Audit(AuditEntry(name, Render(path), 0, args.channelId, threadTs, "", Failed(Message(e)))));
        return TransferFailed(e, UploadFailed);
      }
      var u := w.upload.value;
      Do(Audit(AuditEntry(name, Render(path), u.size, u.channelId, u.threadTs, u.fileId, Ok)));
      return Uploaded(u);
    }

    method DoDownload(w: World, args: DownloadArgs) returns (r: ToolResult)
      modifies this
      ensures
        var (more, result) := HandleDownload(it, w, args);
        effects == old(effects) + more && r == result
    {
      if args.fileId == "" {
        return ErrorResult(InvalidArguments);
      }
      var found := FindPolicy(w, args.workDir);
      if found.Failure? {
        return found.error;
      }
      var (dir, policy) := found.value;
      r := AskAndDownload(w, args, dir, policy);
    }

    /** handleDownload from the call of Info on. */
    method AskAndDownload(w: World, args: DownloadArgs, dir: string, policy: Policy) returns (r: ToolResult)
      modifies this
      ensures
        var (more, result) := InfoReceived(w, args, dir, policy);
        effects == old(effects) + ([Info(args.fileId)] + more) && r == result
    {
      Do(Info(args.fileId));
      r := AfterInfo(w, args, dir, policy);
      ghost var more := InfoReceived(w, args, dir, policy).0;
      assert old(effects) + [Info(args.fileId)] + more == old(effects) + ([Info(args.fileId)] + more);
    }

    /** handleDownload from the answer of Info on. */
    method AfterInfo(w: World, args: DownloadArgs, dir: string, policy: Policy) returns (r: ToolResult)
      modifies this
      ensures
        var (more, result) := InfoReceived(w, args, dir, policy);
        effects == old(effects) + more && r == result
    {
      var destDir := args.destDir;
      if destDir == "" {
        destDir := dir;
      }
      if w.info.Failure? {
        Do(DownloadAudit("", 0, args.fileId, Failed(Message(w.info.error))));
        return TransferFailed(w.info.error, DownloadFailed);
      }
      var info := w.info.value;
      if DeclaredTooLarge(policy.maxSize, info) {
        Do(DownloadAudit("", info.size, args.fileId, DeclaredSize));
        return ErrorResult(FileTooLarge);
      }
      var filename := args.filename;
      if filename == "" {
        filename := info.name;
      }
      var resolved := ResolveNewFile(policy, w.guard, w.moments, dir, destDir, filename);
      if resolved.Failure? {
        r := Deny(FileDownload, resolved.error, "", "");
        return;
      }
      r := Download(w, args, policy.maxSize, info, filename, resolved.value);
    }

    /** handleDownload from the transfer on. */
    method Download(
      w: World, args: DownloadArgs, maxSize: int, info: FileInfo, filename: string, target: Path)
      returns (r: ToolResult)
      modifies this
      ensures
        var (more, result) := DownloadDecided(w, args, maxSize, info, filename, Success(target));
        effects == old(effects) + more && r == result
    {
      Do(FetchTo(info, target, maxSize));
      if w.fetch.Failure? {
        Do(DownloadAudit(Render(target), 0, args.fileId, Failed("fetch")));
        return ErrorResult(if w.fetch.error.TooLarge? then FileTooLarge else DownloadFailed);
      }
      Do(DownloadAudit(Render(target), w.fetch.value, args.fileId, Ok));
      return Downloaded(args.fileId, target, filename, w.fetch.value);
    }
  }
}
