/** The wiring of the proxy to the message parser and to the injected tools. */
module Pipe {
  import opened Prelude
  import opened JsonRpc
  import opened Proxy
  import ToolSet

  /** handleToolsCall keeps the call: it decodes and names an injected tool. */
  function KeepsCall(toolName: Message -> Option<string>, injected: bool, m: Message): bool {
    && m.methodName == "tools/call" && injected
    && toolName(m).Some? && ToolSet.Handles(toolName(m).value)
  }

  /**
   What is written for a response. A tools/list result gets the injected tools merged in; one that
   cannot be merged is passed on as it is, and a result of JSON null panics.
   */
  function Finish(codec: Codec, wording: string -> (string, Json), injected: bool, req: Message, resp: Message)
    : Option<Message>
  {
    if req.methodName == "tools/list" && resp.error.None? && resp.result.Some? && injected then
      match Merge(codec, resp.result.value, ToolSet.Definitions(wording))
      case Merged(result, _) => Some(resp.(result := Some(result)))
      case Unmergeable => Some(resp)
      case NilMapPanic => None
    else Some(resp)
  }

  function Wire(
    parse: string -> Option<Message>, toolName: Message -> Option<string>,
    codec: Codec, wording: string -> (string, Json), injected: bool): Config
  {
    Config(parse,
      (m: Message) => KeepsCall(toolName, injected, m),
      (req: Message, resp: Message) => Finish(codec, wording, injected, req, resp))
  }

  lemma WiringIsValid(
    parse: string -> Option<Message>, toolName: Message -> Option<string>,
    codec: Codec, wording: string -> (string, Json), injected: bool)
    ensures Wire(parse, toolName, codec, wording, injected).Valid()
  {
  }

  /**
   The one way a run ends the process: upstream answers the tools/list being served with a result
   of JSON null while there are injected tools. In every other case finishing a response succeeds.
   */
  lemma NullToolsListIsTheOnlyCrash(
    parse: string -> Option<Message>, toolName: Message -> Option<string>,
    codec: Codec, wording: string -> (string, Json), injected: bool,
    events: seq<Event>, s: State)
    requires Reached(Wire(parse, toolName, codec, wording, injected), events, s)
    ensures s.agent.Crashed? ==>
      && s.requests != [] && s.agent.at < |s.lines|
      && injected && s.requests[Current(s)].methodName == "tools/list"
      && s.lines[s.agent.at].to == Some(Current(s))
      && s.lines[s.agent.at].msg.error.None? && s.lines[s.agent.at].msg.result == Some(Null)
    ensures forall req: Message, resp: Message ::
      Finish(codec, wording, injected, req, resp).None? <==>
        injected && req.methodName == "tools/list" && resp.error.None? && resp.result == Some(Null)
  {
    var cfg := Wire(parse, toolName, codec, wording, injected);
    WiringIsValid(parse, toolName, codec, wording, injected);
    forall req: Message, resp: Message
      ensures Finish(codec, wording, injected, req, resp).None? <==>
        injected && req.methodName == "tools/list" && resp.error.None? && resp.result == Some(Null)
    {
      if resp.result.Some? {
        MergeTouchesOnlyTools(codec, resp.result.value, ToolSet.Definitions(wording));
      }
    }
    if s.agent.Crashed? {
      CrashIsAnUnfinishableResponse(cfg, events, s);
      assert Finish(codec, wording, injected, s.requests[Current(s)], s.lines[s.agent.at].msg).None?;
    }
  }

  /** And it does happen: in five steps, whatever the request and the response are otherwise. */
  lemma NullToolsListCrashes(
    parse: string -> Option<Message>, toolName: Message -> Option<string>,
    codec: Codec, wording: string -> (string, Json), raw: string, answer: string)
    requires raw != "" && parse(raw).Some? && answer != "" && parse(answer).Some?
    requires parse(raw).value.IsRequest() && parse(raw).value.methodName == "tools/list"
    requires var resp := parse(answer).value;
      resp.IsResponse() && resp.id == parse(raw).value.id && resp.error.None? && resp.result == Some(Null)
    ensures
      var events := [AgentReads(raw), SendReturns(true), ReaderReads(answer), HandsOver, Receives];
      exists s :: Reached(Wire(parse, toolName, codec, wording, true), events, s) && s.agent.Crashed?
  {
    var cfg := Wire(parse, toolName, codec, wording, true);
    var before := [AgentReads(raw), SendReturns(true), ReaderReads(answer), HandsOver];
    assert "tools/list" != "tools/call" by { assert "tools/list"[6] != "tools/call"[6]; }
    AResponseArrives(cfg, raw, answer);
    RunAppend(cfg, INITIAL, before, [Receives]);
    var s := Run(cfg, INITIAL, before).value;
    assert Run(cfg, s, [Receives]) == Step(cfg, s, Receives);
    assert before + [Receives] == [AgentReads(raw), SendReturns(true), ReaderReads(answer), HandsOver, Receives];
  }

  // ---------- the list and the routing ----------

  lemma {:induction false} ForwardedCount(cfg: Config, read: seq<string>, raw: string)
    ensures multiset(Forwarded(cfg, read))[raw] == if IsForwarded(cfg, raw) then multiset(read)[raw] else 0
  {
    if read == [] {
    } else {
      var last := |read| - 1;
      assert read == read[..last] + [read[last]];
      ForwardedCount(cfg, read[..last], raw);
    }
  }

  /** The list has an entry of this name, and that entry is the local definition. */
  ghost predicate ListedLocally(codec: Codec, wording: string -> (string, Json), list: seq<Json>, name: string) {
    exists k: nat :: NamedAt(codec, list, name, k) && list[k] in Encoded(codec, ToolSet.Definitions(wording))
  }

  lemma ListedLocallyIsHandled(codec: Codec, wording: string -> (string, Json), result: Json, name: string)
    requires codec.Valid() && Merge(codec, result, ToolSet.Definitions(wording)).Merged?
    ensures ListedLocally(codec, wording, MergedTools(codec, result, ToolSet.Definitions(wording)), name)
       <==> ToolSet.Handles(name)
  {
    var defs := ToolSet.Definitions(wording);
    var list := MergedTools(codec, result, defs);
    if ToolSet.Handles(name) {
      ToolSet.HandledToolsAreListedOnce(codec, wording, result, name);
      var k: nat :| NamedAt(codec, list, name, k);
      ToolSet.ListAgreesWithRouting(codec, wording, result, k);
    } else if ListedLocally(codec, wording, list, name) {
      var k: nat :| NamedAt(codec, list, name, k) && list[k] in Encoded(codec, defs);
      ToolSet.ListAgreesWithRouting(codec, wording, result, k);
    }
  }

  /** A call that stays here: of a tool that this list has with its local definition. */
  ghost predicate IsKept(
    toolName: Message -> Option<string>, codec: Codec, wording: string -> (string, Json), injected: bool,
    list: seq<Json>, msg: Message)
  {
    && injected && msg.methodName == "tools/call" && msg.id !in {"", "null"}
    && toolName(msg).Some? && ListedLocally(codec, wording, list, toolName(msg).value)
  }

  /**
   The list the agent sees tells it where its calls go. A call of a tool that is listed with its
   local definition, in any merged list, is never sent upstream; every other line that parses is
   sent as often as the agent writes it, byte for byte.
   */
  lemma ListAgreesWithSending(
    parse: string -> Option<Message>, toolName: Message -> Option<string>,
    codec: Codec, wording: string -> (string, Json), injected: bool, result: Json,
    events: seq<Event>, s: State, raw: string)
    requires codec.Valid() && Merge(codec, result, ToolSet.Definitions(wording)).Merged?
    requires Reached(Wire(parse, toolName, codec, wording, injected), events, s)
    ensures
      var list := MergedTools(codec, result, ToolSet.Definitions(wording));
      var sent := s.sent + (if s.agent.Passing? || s.agent.Registered? then [s.agent.raw] else []);
      multiset(sent)[raw]
      == if parse(raw).None? || IsKept(toolName, codec, wording, injected, list, parse(raw).value) then 0
         else multiset(s.read)[raw]
  {
    var cfg := Wire(parse, toolName, codec, wording, injected);
    WiringIsValid(parse, toolName, codec, wording, injected);
    AgentLinesAreSentVerbatim(cfg, events, s);
    ForwardedCount(cfg, s.read, raw);
    if parse(raw).Some? && toolName(parse(raw).value).Some? {
      ListedLocallyIsHandled(codec, wording, result, toolName(parse(raw).value).value);
    }
  }

  // ---------- what the agent is written ----------

  /** The response with the injected tools merged into its list, and nothing else changed. */
  ghost predicate IsMergedReply(codec: Codec, wording: string -> (string, Json), resp: Message, reply: Message)
    requires resp.result.Some? && resp.result.value.Object?
  {
    && reply.result.Some? && reply == resp.(result := reply.result) && reply.result.value.Object?
    && var was, fields := resp.result.value.fields, reply.result.value.fields;
    && fields.Keys == was.Keys + {"tools"}
    && (forall key | key in was && key != "tools" :: fields[key] == was[key])
    && fields["tools"].Array?
    && exists collisions ::
         IsMergeOf(codec, ToolSet.Definitions(wording), ListOf(resp.result.value), fields["tools"].items, collisions)
  }

  /** The list has one entry of this name, and it is the local definition. */
  ghost predicate ListsOnce(codec: Codec, wording: string -> (string, Json), list: seq<Json>, name: string) {
    exists k: nat ::
      && NamedAt(codec, list, name, k)
      && list[k] == codec.encode(ToolSet.Definition(wording, name))
      && forall l: nat :: NamedAt(codec, list, name, l) ==> l == k
  }

  lemma FinishMerges(
    codec: Codec, wording: string -> (string, Json), injected: bool, req: Message, resp: Message)
    ensures
      var reply := Finish(codec, wording, injected, req, resp);
      var lists := injected && req.methodName == "tools/list" && resp.error.None? && resp.result.Some?;
      reply.Some? ==>
        if lists && CanMerge(resp.result.value) then IsMergedReply(codec, wording, resp, reply.value)
        else reply.value == resp
  {
    if resp.result.Some? {
      MergeKeepsTheOthers(codec, resp.result.value, ToolSet.Definitions(wording));
      MergeTouchesOnlyTools(codec, resp.result.value, ToolSet.Definitions(wording));
    }
  }

  /**
   Over every run, what the agent is written for a request that upstream answered: for tools/list,
   while there are injected tools and the result can be merged, upstream's other entries in order
   and then the local definitions, with every other field of the response as it was; for every
   other request, and for a list that cannot be merged, the response itself.
   */
  lemma RepliesAreMergedResponses(
    parse: string -> Option<Message>, toolName: Message -> Option<string>,
    codec: Codec, wording: string -> (string, Json), injected: bool,
    events: seq<Event>, s: State, r: nat)
    requires Reached(Wire(parse, toolName, codec, wording, injected), events, s)
    requires r < |s.replies| && s.replies[r].cause.Upstream?
    ensures r < |s.requests| && s.replies[r].cause.line < |s.lines|
    ensures
      var req, line, reply := s.requests[r], s.lines[s.replies[r].cause.line], s.replies[r].msg;
      var lists := injected && req.methodName == "tools/list" && line.msg.error.None? && line.msg.result.Some?;
      && line.to == Some(r) && parse(line.raw) == Some(line.msg) && line.msg.id == req.id
      && if lists && CanMerge(line.msg.result.value) then IsMergedReply(codec, wording, line.msg, reply)
         else reply == line.msg
  {
    var cfg := Wire(parse, toolName, codec, wording, injected);
    WiringIsValid(parse, toolName, codec, wording, injected);
    RepliesAreExplained(cfg, events, s, r);
    UpstreamMessagesAreConserved(cfg, events, s);
    FinishMerges(codec, wording, injected, s.requests[r], s.lines[s.replies[r].cause.line].msg);
  }

  /** In such a reply each handled tool is listed exactly once, as it is defined here. */
  lemma MergedRepliesListOnce(
    codec: Codec, wording: string -> (string, Json), resp: Message, reply: Message, name: string)
    requires codec.Valid() && ToolSet.Handles(name)
    requires resp.result.Some? && resp.result.value.Object? && IsMergedReply(codec, wording, resp, reply)
    ensures ListsOnce(codec, wording, reply.result.value.fields["tools"].items, name)
  {
    var defs := ToolSet.Definitions(wording);
    var list := reply.result.value.fields["tools"].items;
    var i := if name == ToolSet.FILE_UPLOAD then 0 else if name == ToolSet.FILE_UPLOAD_TO_THREAD then 1 else 2;
    var collisions :| IsMergeOf(codec, defs, ListOf(resp.result.value), list, collisions);
    ToolSet.DefinitionsAreHandled(wording, name);
    MergeListsOnce(codec, defs, ListOf(resp.result.value), list, collisions, i);
  }
}
