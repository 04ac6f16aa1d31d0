# slack-mcp-extender: a verified model

A Dafny model of the parts of slack-mcp-extender that decide what may leave the machine, what may be
written to it, and what the agent and the upstream get to see of each other.

| file | what it models |
|---|---|
| `Text.dfy`, `Trim.dfy` | splitting, joining and trimming of text |
| `Paths.dfy` | clean absolute paths, `filepath.Rel` and the string test made on its result |
| `FileSystem.dfy` | a file system with links; `Where` and `EvalSymlinks` as two walks over it |
| `Filename.dfy` | `SanitizeFilename` |
| `Containment.dfy`, `ContainmentTheorems.dfy` | `NewPolicy`, `Resolve`, `ResolveNewFile`, and what they guarantee |
| `JsonText.dfy`, `JsonValue.dfy`, `Sse.dfy` | the scanners of JSON text; the event-stream reader and batch dispatch |
| `JsonRpc.dfy`, `ToolSet.dfy` | the tools/list merge and its agreement with routing |
| `Proxy.dfy` | the protocol: the atomic steps of two goroutines and a timer, and what every run keeps |
| `Pipe.dfy` | the wiring of the protocol to the injected tools |
| `Goroutines.dfy` | the proxy as the object its goroutines share, with channels as objects |
| `Tokens.dfy`, `Retry.dfy` | the token provider, and the two clients that retry once |
| `Fetch.dfy` | the capped, atomic download |
| `Handlers.dfy` | the injected tools' handlers and the audit trail |

`dafny verify dfyconfig.toml` checks the project.

## How it is modelled

* A call of `Resolve` or `ResolveNewFile` takes one snapshot of the file system for each question it puts
  to the operating system (`Moments`), so a statement over all `Moments` holds however the file system
  changes during the call; `Still(fs)` is the file system that does not change.
* pathguard's judgements are function-valued fields of `Guard`. The one thing taken from its contract is
  that `Where` follows at least as many links as `EvalSymlinks`, so that they agree on every existing path
  (`Guard.Valid`).
* The proxy is a state machine whose events are the atomic steps of either goroutine, the timer, and the
  outside; theorems quantify over every sequence of events. Replies written by the agent goroutine are
  counted apart from lines relayed by the reader: a response that comes after its timeout is relayed.
* The class `Goroutines.Pipe` is the proxy in the program's own form: the pending map refers to channel objects, and
  `ForwardRequest` and `ReadAgent` are the agent goroutine's own code, which lets the reader take any
  number of its steps between two of its own (`Turn` says how many, and which case the select takes).
  Its state in the protocol is a ghost field, tied to the objects by `Valid`; that the state has been
  reached by a run (`Goroutines.LeadsIsARun`) makes every theorem about runs one about the object.
* JSON is modelled by decoded values, and a decoded object is a map, as in the code. The stream parser is
  the exception: there the text itself matters, and strings, escapes and nesting are scanned.
* The stream reader trims all white space around a field's value and emits a last event at the end of the
  stream, where sections 9.2.5 and 9.2.6 of the WHATWG HTML standard strip one space and discard it.
  The model follows the code.
* Where a step runs outside this program (HTTP, the token endpoint, a write, a rename), its outcome is an
  input. Sizes are integers; int64 wrap-around is written out where the code can reach it.

## Where the code departs from what its comments say

* `MergeToolsListResult` assigns into a nil map when the result is JSON `null`, which panics
  (`JsonRpc.MergeTouchesOnlyTools`); this is the only way a run of the proxy ends the process
  (`Pipe.NullToolsListIsTheOnlyCrash`), and it does (`Pipe.NullToolsListCrashes`).
* `FetchTo` computes `maxSize+1` in int64. With a cap of 2^63-1 the limit is negative and every download
  succeeds as an empty file (`Fetch.LargestCapLosesTheFile`); `Fetch.WholeStreamArrives` is the exact
  condition.
* `ParseTokenResponse` multiplies `expires_in` by a second in int64 nanoseconds; a lifetime is honoured
  exactly up to 9223372036 seconds (`Tokens.LifetimeIsHonoured`).
* The merge is described as preserving every byte of upstream content; it goes through `json.Marshal`,
  which preserves values. The model states the preservation of values.
* The package comment of the proxy says that everything but the two seams passes byte for byte. A
  response to a request is parsed and encoded again (`internal/proxy/proxy.go:187`, `:219-225`), and a
  line that does not parse is dropped in either direction. The model relays lines as text and writes
  responses as messages.
* A response that is in its channel when the timer fires may be lost, neither written nor relayed
  (`Proxy.ATimelyResponseCanBeLost`); the select takes either case.

## Model

| member | source | states |
|---|---|---|
| Paths.RelTestIsComponentPrefix | internal/containment/containment.go:196-208 | the string test on Rel lets a path through exactly when the root's components are a prefix of the path's, and "." means the root itself, for all clean absolute paths |
| Paths.RelSplitsBelowRoot | internal/containment/containment.go:347-350 | splitting Rel at separators yields exactly the components below the root |
| Paths.RelLeadsThere | internal/containment/containment.go:196-208 | the string Rel returns, walked from the one path, leads to the other |
| Paths.CleanOfOneMore | internal/containment/containment.go:248-277 | one more component on a path: a name goes down, ".." goes up and stays at the root, "." and nothing stay |
| Paths.JoinGoesOn | internal/containment/containment.go:248-268 | joining goes on from the directory component by component |
| FileSystem.WhereIsAPlace | internal/workdir/workdir.go:96-106 | Where is idempotent, and every prefix of its result is link-free exactly when the chain of links ends |
| FileSystem.WhereIsEvalSymlinks | internal/workdir/workdir.go:96-101 | for a path that exists, Where is what EvalSymlinks returns |
| FileSystem.WalkFollowsLinks | internal/workdir/workdir.go:96-106 | the first link on a path stands for its text, read from the directory it is in, or from the root if it is absolute |
| FileSystem.WalkGoesUp | internal/workdir/workdir.go:96-106 | ".." goes to the parent of the place reached so far |
| FileSystem.EvalFollowsLinks | internal/containment/containment.go:300-313 | EvalSymlinks follows links in the same way, from a directory that is there |
| FileSystem.EvalGoesUp | internal/containment/containment.go:300-313 | and goes up in the same way |
| FileSystem.PlaceResolvesToItself | internal/containment/containment.go:300-305 | in an unchanging file system a place resolves nowhere but to itself |
| FileSystem.EvalSymlinksOfLinkFree | internal/containment/containment.go:300-313 | on a link-free place EvalSymlinks is exactly a test of existence |
| Filename.BaseSplits | internal/containment/containment.go:379-387 | a name that is not all slashes has a last component, which Base finds |
| Filename.SanitizeKeepsOnlyTheLastComponent | internal/containment/containment.go:379-394 | whatever directories surround it, only the last component counts, and it is accepted exactly when it is bare and control-free |
| Filename.SanitizedNameIsBare | internal/containment/containment.go:379-394 | a sanitized name is non-empty, separator-free, control-free, neither "." nor "..", and unchanged by sanitizing again |
| Containment.NewPolicy | internal/containment/containment.go:108-145 | the roots are canonicalized in order, one for one, or the first that is not a reachable directory is reported |
| Containment.MatchRootFindsTheFirst | internal/containment/containment.go:193-208 | matchRoot returns the first root containing the path by components, and none exactly when none does |
| Containment.FindRoot | internal/containment/containment.go:196-208 | the loop computes MatchRoot |
| Containment.HiddenBelow | internal/containment/containment.go:345-359 | the hidden test passes exactly when no component below the root begins with a dot |
| Containment.FindHidden | internal/containment/containment.go:347-359 | the loop finds the first hidden component |
| Containment.Resolve | internal/containment/containment.go:239-372 | the stages in order compute ResolveSource, for every interleaving with outside changes |
| Containment.ResolveNewFile | internal/containment/containment.go:402-531 | the stages in order compute ResolveTarget, for every interleaving with outside changes |
| ContainmentTheorems.AcceptedSourceIsExactlyCleared | internal/containment/containment.go:277-371 | a path is returned exactly when it has itself passed the floor, strict containment, pathguard's check of its directory for every reason but the two left to the file policies, regular file, hidden test against its own root, and size, whatever changes meanwhile |
| ContainmentTheorems.AcceptedTargetIsExactlyCleared | internal/containment/containment.go:446-530 | a target is returned exactly when target and directory have themselves passed every check and nothing is there |
| ContainmentTheorems.SourceRefusalIsTrue | internal/containment/containment.go:239-372 | each reason code, path, floor reason and detail means what it says, and every earlier check was passed: a place is judged again exactly when it has moved, and what exists is only told of a place that has itself been cleared |
| ContainmentTheorems.TargetRefusalIsTrue | internal/containment/containment.go:402-531 | the same for a download target and its directory |
| ContainmentTheorems.StillSourceIsJudgedOnce | internal/containment/containment.go:300-324 | in an unchanging file system the second judgement is never made, and what follows the first is only about existence |
| ContainmentTheorems.StillTargetIsJudgedOnce | internal/containment/containment.go:470-493 | the same for a download target |
| ContainmentTheorems.ExistenceNeverChangesASourceRefusal | internal/containment/containment.go:16-21 | two file systems with the same links, and the same answers from pathguard about the one place asked about, give the identical violation whenever one refuses for another reason than existence |
| ContainmentTheorems.ExistenceNeverChangesATargetRefusal | internal/containment/containment.go:442-493 | the same for a download target |
| ContainmentTheorems.StillSourceAccepted | internal/containment/containment.go:239-372 | in an unchanging file system exactly the cleared, link-free, existing regular files are accepted |
| ContainmentTheorems.StillTargetAccepted | internal/containment/containment.go:402-531 | in an unchanging file system exactly the free targets in a cleared, link-free, existing directory are accepted |
| ContainmentTheorems.FilenameOnlyNamesTheFile | docs/en/adr/0002-symmetric-download-with-write-containment.md:50-56 | two filenames with one destination give targets in one directory, each named by the sanitized filename |
| ContainmentTheorems.RawPathNamesThePlace | internal/containment/containment.go:248-268 | a relative argument names its lexical place below the work directory, an absolute one its own, and there is none exactly when neither is absolute |
| ContainmentTheorems.WorkDirIsTheBoundary | internal/proxy/tools.go:52-86 | with the policy of one work directory, every accepted path is strictly below its canonical place |
| ContainmentTheorems.RootsAreDirectories | internal/containment/containment.go:108-145 | a root is accepted exactly when it is absolute and leads to a directory, and its place is what becomes the root |
| JsonText.TokensSurviveLineTrimming | internal/transport/sse.go:208-231 | splitting a JSON text at line breaks, trimming the lines and joining them keeps the token sequence |
| JsonText.ElementsOfArrayText | internal/transport/sse.go:240-248 | reading the elements of a printed array gives back the printed values |
| JsonText.ElementsKeepTheTokens | internal/transport/sse.go:240-248 | the elements of any array text, put in brackets again, have the tokens of the text |
| JsonText.ElementsOfSpacedArray | internal/transport/sse.go:240-248 | white space around the elements of an array does not matter, and nothing else in it is an element |
| JsonText.BlankArrayIsEmpty | internal/transport/sse.go:240-248 | an array of white space has no elements |
| JsonValue.ValuesAreClosed | internal/transport/sse.go:240-248 | the text of every JSON value, however nested and whatever its strings hold, is cut out of a batch whole |
| JsonValue.ValuesHaveTheirTokens | internal/transport/sse.go:208-250 | the tokens of the text of every JSON value are the value's |
| Sse.ConsumeSSEStream | internal/transport/sse.go:202-231 | the line loop enqueues exactly what the block-wise specification gives |
| Sse.AnyStreamIsRead | internal/transport/sse.go:202-231 | of every stream, with either line break, any event types and any white space, exactly the data of the events whose last type is empty or "message" is dispatched, in order, an event the stream breaks off in included |
| Sse.OnlyMessagesArrive | internal/transport/sse.go:202-250 | one object per event: exactly the objects of the events that count are enqueued, in order |
| Sse.DataIsDispatched | internal/transport/sse.go:233-250 | blank data is nothing, and data that is no valid array is one message |
| Sse.BatchIsDispatched | internal/transport/sse.go:240-248 | a valid array of objects is its objects |
| Sse.PrintedStreamIsRead | internal/transport/sse.go:202-250 | a printed stream with arbitrary noise lines is read back event by event, in order |
| Sse.MessagesRoundTrip | internal/transport/sse.go:202-250 | one object per event: exactly the printed messages are enqueued, in order |
| Sse.BatchRoundTrip | internal/transport/sse.go:233-250 | one batch array: exactly its messages are enqueued, in order |
| Sse.RecordsAreObjectTexts | internal/transport/sse.go:233-250 | the text of every JSON object is one that these round trips are about |
| Sse.MultiLineJsonKeepsItsTokens | internal/transport/sse.go:202-250 | a stream of JSON texts, each spread over data lines with noise between, is enqueued in order, each text as one message with its tokens or as the elements of a batch with its tokens |
| JsonRpc.FilterInPlace | internal/jsonrpc/jsonrpc.go:150-162 | filtering over the aliased slice keeps exactly the entries that do not collide, reports the others in order, and leaves the rest of the array alone |
| JsonRpc.Append | internal/jsonrpc/jsonrpc.go:164-170 | append extends the slice, in the backing array or in a copy |
| JsonRpc.AppendInjected | internal/jsonrpc/jsonrpc.go:164-170 | the definitions follow the kept entries in order |
| JsonRpc.MergeToolsListResult | internal/jsonrpc/jsonrpc.go:132-183 | the in-place merge is filter(upstream) followed by the injected definitions; null when there are neither |
| JsonRpc.MergeKeepsTheOthers | internal/jsonrpc/jsonrpc.go:132-176 | a result is merged exactly when it is an object whose "tools" is a list, null or absent; every upstream entry without an injected name stays, in order, the definitions follow, and the collisions are the names of all other entries, in order |
| JsonRpc.MergeListsOnce | internal/jsonrpc/jsonrpc.go:145-170 | any such list has each injected name exactly once, with the local definition |
| JsonRpc.MergeIsIdempotent | internal/jsonrpc/jsonrpc.go:122-183 | merging a merged result changes nothing and reports every injected name |
| JsonRpc.MergeTouchesOnlyTools | internal/jsonrpc/jsonrpc.go:122-176 | every other field of the result is unchanged, and the assignment panics exactly for a null result |
| JsonRpc.InjectedOccurOnce | internal/jsonrpc/jsonrpc.go:145-170 | each injected name occurs exactly once, with the local definition |
| ToolSet.DefinitionsAreHandled | internal/proxy/tools.go:88-148 | the names handled are exactly the names defined, and these are distinct |
| ToolSet.ListAgreesWithRouting | internal/proxy/proxy.go:143-172 | an entry of a merged list names a locally handled tool exactly when it is the local definition; every other entry is upstream's |
| ToolSet.HandledToolsAreListedOnce | internal/jsonrpc/jsonrpc.go:128-170 | each handled tool is listed exactly once, as it is defined locally |
| Proxy.StepKeepsInv | internal/proxy/proxy.go:57-217 | every atomic step keeps the invariant of pending map, channels, requests, lines and output |
| Proxy.PendingHoldsOnlyTheCurrentRequest | internal/proxy/proxy.go:191-217 | over every run exactly the awaited request is pending, never under "", with an empty channel; none between lines; the reader never blocks |
| Proxy.ResponsesReachTheirRequest | internal/proxy/proxy.go:102-114 | whenever a response to the awaited request is read, the request gets it and it is not relayed |
| Proxy.RepliesAreExplained | internal/proxy/proxy.go:57-217 | over every run, every reply word for word by its cause: a local result, the finished response to that very request, a timeout error, a send error |
| Proxy.EveryRequestIsAnsweredOnceInOrder | internal/proxy/proxy.go:57-82 | over every run each agent request gets exactly one reply from the agent goroutine, with its own id, in order |
| Proxy.UpstreamMessagesAreConserved | internal/proxy/proxy.go:84-119 | over every run each upstream line is relayed verbatim once, or what it decodes to is handed to exactly one request of its id; if that is not written, the request is still being served or was answered by a timeout or a send error |
| Proxy.ATimelyResponseCanBeLost | internal/proxy/proxy.go:206-216 | for every request and response, a run in which the response is in the channel before the timer fires and is neither written nor relayed |
| Proxy.ServerRequestsAreAlwaysRelayed | internal/proxy/proxy.go:102-117 | over every run each line with a method, or with neither result nor error, is handed to no request and is relayed or about to be; reading it leaves the pending map alone, whatever its id |
| Proxy.AgentLinesAreSentVerbatim | internal/proxy/proxy.go:121-199 | over every run upstream is sent the agent's parseable lines byte for byte, in order, but for the calls kept locally |
| Proxy.SilenceIsAlwaysAnswered | internal/proxy/proxy.go:206-216 | in every continuation of every run, until the next agent line is read, the agent goroutine takes at most four steps; it stops only at its input, every request answered, or in a crash, and short of that can always go on without the upstream |
| Proxy.CrashIsAnUnfinishableResponse | internal/proxy/proxy.go:145-164 | the process dies only of a response that cannot be finished, with its request unanswered |
| Pipe.NullToolsListIsTheOnlyCrash | internal/jsonrpc/jsonrpc.go:132-176 | finishing a response panics exactly for a null result to tools/list with injected tools |
| Pipe.NullToolsListCrashes | internal/jsonrpc/jsonrpc.go:138-176 | every tools/list answered by a null result reaches that crash in five steps |
| Pipe.ListAgreesWithSending | internal/proxy/proxy.go:143-180 | over every run of the wired proxy, a call of a tool that a merged list has as a local definition is never sent upstream, and every other line that parses is sent as often as it is written, verbatim |
| Pipe.RepliesAreMergedResponses | internal/proxy/proxy.go:143-164 | over every run, what the agent is written for an answered tools/list: upstream's other entries in order, then the local definitions, every other field as it was; and for every other request, or a list that cannot be merged, the response field for field |
| Pipe.MergedRepliesListOnce | internal/proxy/proxy.go:145-164 | in such a reply each handled tool is listed exactly once, as it is defined locally |
| Goroutines.LeadsIsARun | internal/proxy/proxy.go:66-77 | what the object does, with any interference, is a run of the protocol |
| Goroutines.Pipe.constructor | internal/proxy/proxy.go:50-55 | the object starts empty |
| Goroutines.Pipe.ReaderMoves | internal/proxy/proxy.go:87-119 | each step of the reader on the shared map and channels is the protocol's step, changes nothing of the agent goroutine's, and never finds a channel full |
| Goroutines.Pipe.ForwardRequest | internal/proxy/proxy.go:189-217 | with the reader interfering anywhere: the line is sent once, the entry is gone on every path, and one reply is written under the request's id, which is what a response read meanwhile came to exactly if the send worked, the response was there at the select and the select took it; no reply only if that response cannot be finished |
| Goroutines.Pipe.HandleLocally | internal/proxy/proxy.go:166-180 | with the reader interfering: a local call is answered with the tool's result under its id, and nothing is sent upstream |
| Goroutines.Pipe.ReadAgent | internal/proxy/proxy.go:57-82 | for every input and interference: nothing is left pending, upstream was sent exactly the lines not kept here, the replies answer the requests one for one in order, and all else that was written is what upstream sent and no request took |
| Tokens.LifetimeIsHonoured | internal/transport/tokens.go:149-188 | a declared lifetime sets the expiry exactly when it fits a Duration |
| Tokens.TokenStoresWhatIsIssued | internal/transport/tokens.go:61-188 | all that one call does, by the fields of the answer: the tokens, type and expiry held, the old refresh token only if none is issued, the file equal to what is held if the save works and unchanged otherwise |
| Tokens.DroppedTokenIsNeverServed | internal/transport/tokens.go:97-102 | after an invalidation only a newly issued token is served, and the refresh token is still there |
| Tokens.RotationIsFollowed | internal/transport/tokens.go:84-95 | over every sequence of calls the refresh token held is the last one issued, or the loaded one, and each renewal presents the one held at that time |
| Tokens.RefreshTokenIsNeverLost | internal/transport/tokens.go:84-95 | over every sequence of calls a non-empty refresh token is never lost, in memory or on disk |
| Tokens.IssuedTokensAreNotEmpty | internal/transport/tokens.go:61-95 | over every sequence of calls nothing empty is issued as a token |
| Tokens.SpentIsForever | internal/transport/tokens.go:65-102 | the state with both tokens empty is absorbing, and every later call is refused |
| Tokens.SpentExactlyWhenDropped | internal/transport/tokens.go:61-102 | that state is reached exactly without a refresh token, by an invalidation or from the start |
| Tokens.CachedExactlyWhileUsable | internal/transport/tokens.go:65-78 | the cache serves exactly while the token has more than 30 s left or cannot be renewed |
| Tokens.RefreshedTokenServesItsLifetime | internal/transport/tokens.go:75-95 | a refreshed token is served until 31 s before the end of its lifetime and never in its last 30 s |
| Tokens.CallsKeepRefreshedSince | internal/transport/tokens.go:61-102 | after an invalidation any cached token comes from a later refresh, whatever calls follow |
| Tokens.StoredTokenProvider.constructor | internal/transport/tokens.go:51-59 | the provider starts from the loaded tokens |
| Tokens.StoredTokenProvider.GetToken | internal/transport/tokens.go:61-95 | the branches of Token, on the object's fields |
| Retry.SendRetriesSafely | internal/transport/sse.go:66-121 | Send makes at most two requests and one invalidation, and the second request carries a token refreshed after that invalidation, which comes after the rejection, whatever other users of the provider do |
| Retry.ApiCallRetriesSafely | internal/transfer/upload.go:153-201 | the same for apiCall |
| Retry.SendMakesItsAttempts | internal/transport/sse.go:66-121 | which requests Send makes, with which tokens, and its result, by the answers: a second one exactly after a 401, and the last answer counts |
| Retry.ApiCallMakesItsAttempts | internal/transfer/upload.go:153-201 | the same for apiCall, after an authentication error |
| Retry.AuthErrorsRejectTheToken | internal/transfer/upload.go:251-257 | an answer rejects the token exactly for the four authentication errors |
| Retry.SendMessage | internal/transport/sse.go:68-88 | the two attempts, step by step |
| Retry.CallApi | internal/transfer/upload.go:157-169 | the loop on the retried flag makes at most two attempts |
| Fetch.CopyBody | internal/transfer/download.go:99-107 | the limited copy writes the stream up to its limit or first failure |
| Fetch.CopyReachesTheLimit | internal/transfer/download.go:95-103 | a copy is cut exactly at its limit and does not see what comes after; it fails there only if the failure comes with the very byte that reaches the limit |
| Fetch.CopyIsAPrefix | internal/transfer/download.go:99-107 | whatever fails, what is written is a prefix of the stream |
| Fetch.FailedWriteIsReported | internal/transfer/download.go:99-107 | a write that fails before the limit is reached is an error |
| Fetch.EveryStepCounts | internal/transfer/download.go:72-124 | FetchTo succeeds exactly if every step does, and otherwise reports the first that fails |
| Fetch.FetchIsAllOrNothing | internal/transfer/download.go:60-125 | the target holds the whole stream within the cap and nothing else changed, or nothing changed, or, the cleanup failing, only the temporary file is left over |
| Fetch.OnlyTheTargetChanges | internal/transfer/download.go:87-124 | under every cap and failure no file but the target changes |
| Fetch.TooLargeIsExact | internal/transfer/download.go:99-111 | too large is reported exactly for a stream beyond the cap whose limited copy meets no failure, whatever is set to fail |
| Fetch.WholeStreamArrives | internal/transfer/download.go:99-124 | when nothing fails, a download arrives whole exactly when it is within the cap, except that a cap of 2^63-1 lets only the empty file through |
| Fetch.LargestCapLosesTheFile | internal/transfer/download.go:99-103 | an input for which it does not |
| Fetch.Directory.Fetch | internal/transfer/download.go:64-125 | the temporary file is filled, renamed or cleaned up on every path |
| Handlers.EveryAdmittedCallIsAuditedOnce | internal/proxy/tools.go:161-334 | a call past its argument checks and policyFor makes exactly one audit entry, its last effect, matching the result; any other call has no effect |
| Handlers.TransfersAreContained | internal/proxy/tools.go:187-288 | Upload only gets a path Resolve accepted, and FetchTo only a free target ResolveNewFile accepted after the declared-size check, both strictly below the work directory |
| Handlers.DownloadsOverwriteNothing | internal/containment/containment.go:519-528 | if the directory's files are among those Lstat found, the target of a download is none of them, and each is unchanged when the transfer has ended |
| Handlers.TrailMatchesTheCalls | internal/proxy/tools.go:161-334 | over every sequence of calls the trail has one matching entry for each admitted call, in order |
| Handlers.PolicyIsOfTheWorkDir | internal/proxy/tools.go:72-86 | the policy has the one root the work directory leads to and the settings as they are; otherwise the refusal is reported |
| Handlers.AcceptedUploadsAreSent | internal/proxy/tools.go:161-231 | an accepted file is sent, with the call's channel, comment, name and thread; the audit and the result say what came of it |
| Handlers.AcceptedDownloadsAreFetched | internal/proxy/tools.go:233-304 | a download asks for the metadata, stops at a declared size over the cap, and otherwise writes the accepted target in the directory and under the name of the call, or the defaults |
| Handlers.InjectedTools.FindPolicy | internal/proxy/tools.go:72-86 | the work directory, as the argument and the call's metadata give it, is resolved and made the only root, or its refusal is reported |
| Handlers.InjectedTools.DoUpload | internal/proxy/tools.go:161-231 | the effects of an upload in order, and its result |
| Handlers.InjectedTools.DoDownload | internal/proxy/tools.go:233-304 | the effects of a download in order, and its result |

## Left out

- OAuth login, the loopback certificate, the command line and the configuration: user interaction and field checks.
- pathguard: its credential list, file identities and case folding are uninterpreted. A hard link to a credential file outside the work directory is the documented exception to the independence from existence; it makes the floor's answers differ, which those theorems assume away.
- HTTP requests, headers, status texts and the Mcp-Session-Id: responses are inputs.
- `handleResponse`, `enqueue`, `ReadLine` and `Close` of the transport: the queue is a sequence and the transport stays open while a stream is read.
- `Client.Upload`'s three requests and `Client.Info`'s fallbacks: each is settled by reading one branch.
- The wording of messages, of which only the values quoted in them are kept; in the handlers and the proxy's send error, less than that.
- Failures of `json.Marshal` on a parsed message and of writes to the agent: assumed not to happen.
- `SaveTokens`' temporary file and `AuditLog.Append`'s file: a save works or does not, and the log is a sequence.
- Saturation of `time.Time` at its limits, permission bits, file modes, paths with NUL bytes or beyond 4096 bytes, and the scanners' limit of 1 MB.
- JSON syntax as a whole: whether a bracketed text is a valid array is a parameter of the stream parser, of which only `Sse.ClosesArrays` is ever asked.
- ContainmentTheorems.FilenameOnlyNamesTheFile: compares two accepted targets; which of two filenames is accepted does depend on the filename, through the floor, the hidden rule and what is already there.
- JsonRpc.MergeTouchesOnlyTools: states that values are unchanged, not bytes, because the code re-encodes them.
