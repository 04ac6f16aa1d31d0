/**
 The pipe between the agent and the upstream as atomic steps of two goroutines and a timer, which
 may interleave in any order. The agent goroutine serves one request at a time; the reader hands a
 response to the request that waits for its id and relays everything else.
 */
module Proxy {
  import opened Prelude
  import opened JsonRpc

  /**
   parse decodes a line; isLocal says that handleToolsCall keeps a request; finish is what is
   written for a response, None when making it panics.
   */
  datatype Config = Config(
    parse: string -> Option<Message>,
    isLocal: Message -> bool,
    finish: (Message, Message) -> Option<Message>)
  {
    /** A response that is passed on keeps its id. */
    ghost predicate Valid() {
      forall req, resp: Message | finish(req, resp).Some? ::
        && finish(req, resp).value.id == resp.id
        && (resp.IsResponse() ==> finish(req, resp).value.IsResponse())
    }
  }

  datatype Cause = Local | Upstream(line: nat) | Timeout | SendError

  datatype Reply = Reply(msg: Message, cause: Cause)

  /** What the agent goroutine is doing; it serves the last request read. */
  datatype Agent =
    | Idle
    | Passing(raw: string)
    | Handling
    | Registered(raw: string)
    | SendFailed
    | Waiting
    | TimedOut
    | Replying(reply: Reply)
    | Crashed(at: nat)

  datatype Reader = Reading | Handing(line: nat, channel: nat) | Relaying(raw: string)

  /**
   The one-slot channel of a request and what became of it: not made for a local call; empty and
   waiting; promised the line in the reader's hands; holding it; emptied again.
   */
  datatype Channel = NotMade | Awaiting | Promised(line: nat) | Holding(line: nat) | Drained(line: nat) {
    predicate HasLine() {
      Promised? || Holding? || Drained?
    }
  }

  /** An upstream line, and the request it was handed to, if it was. */
  datatype Line = Line(raw: string, msg: Message, to: Option<nat>)

  /**
   pending and channels are shared. The rest records what the goroutines have read and written:
   the agent's parseable lines, what was sent upstream, the requests and their replies, the
   upstream's parseable lines, and what was relayed.
   */
  datatype State = State(
    agent: Agent,
    reader: Reader,
    pending: map<string, nat>,
    channels: seq<Channel>,
    read: seq<string>,
    sent: seq<string>,
    requests: seq<Message>,
    replies: seq<Reply>,
    lines: seq<Line>,
    relayed: seq<string>)

  const INITIAL := State(Idle, Reading, map[], [], [], [], [], [], [], [])

  datatype Event =
    | AgentReads(raw: string)
    | SendReturns(ok: bool)
    | ToolReturns(result: Json)
    | Receives
    | TimerFires
    | DropsEntry
    | WritesReply
    | ReaderReads(raw: string)
    | HandsOver
    | Relays

  function Current(s: State): int {
    |s.requests| - 1
  }

  function ErrorReply(req: Message, cause: Cause): Message {
    NewErrorResponse(req.id, -32603, if cause == Timeout then "upstream timeout" else "send to upstream")
  }

  // ---------- the steps of the agent goroutine ----------

  function AgentReadsLine(cfg: Config, s: State, raw: string): State {
    if raw == "" || cfg.parse(raw).None? then s
    else
      var msg := cfg.parse(raw).value;
      if !msg.IsRequest() then s.(read := s.read + [raw], agent := Passing(raw))
      else if cfg.isLocal(msg) then
        s.(read := s.read + [raw], requests := s.requests + [msg],
           channels := s.channels + [NotMade], agent := Handling)
      else
        s.(read := s.read + [raw], requests := s.requests + [msg],
           channels := s.channels + [Awaiting], agent := Registered(raw),
           pending := s.pending[msg.IDString() := |s.requests|])
  }

  function SendReturned(s: State, ok: bool): Option<State> {
    match s.agent
    case Passing(raw) => Some(s.(sent := s.sent + [raw], agent := Idle))
    case Registered(raw) => Some(s.(sent := s.sent + [raw], agent := if ok then Waiting else SendFailed))
    case _ => None
  }

  function ToolReturned(s: State, result: Json): Option<State> {
    if s.agent.Handling? && s.requests != [] then
      var msg := NewResultResponse(s.requests[Current(s)].id, result);
      Some(s.(agent := Replying(Reply(msg, Local))))
    else None
  }

  function Received(cfg: Config, s: State): Option<State> {
    var r := Current(s);
    if s.agent.Waiting? && 0 <= r < |s.channels| && s.channels[r].Holding? && s.channels[r].line < |s.lines| then
      var n := s.channels[r].line;
      var f := cfg.finish(s.requests[r], s.lines[n].msg);
      Some(s.(channels := s.channels[r := Drained(n)],
              agent := if f.Some? then Replying(Reply(f.value, Upstream(n))) else Crashed(n)))
    else None
  }

  function EntryDropped(s: State): Option<State> {
    if (s.agent.SendFailed? || s.agent.TimedOut?) && s.requests != [] then
      var req := s.requests[Current(s)];
      var cause := if s.agent.TimedOut? then Timeout else SendError;
      Some(s.(pending := s.pending - {req.IDString()},
              agent := Replying(Reply(ErrorReply(req, cause), cause))))
    else None
  }

  // ---------- the steps of the reader goroutine ----------

  function ReaderReadsLine(cfg: Config, s: State, raw: string): State {
    if raw == "" || cfg.parse(raw).None? then s
    else
      var msg := cfg.parse(raw).value;
      var id := msg.IDString();
      if msg.IsResponse() && id in s.pending && s.pending[id] < |s.channels| then
        var ch := s.pending[id];
        s.(lines := s.lines + [Line(raw, msg, Some(ch))],
           pending := s.pending - {id},
           channels := s.channels[ch := Promised(|s.lines|)],
           reader := Handing(|s.lines|, ch))
      else
        s.(lines := s.lines + [Line(raw, msg, None)], reader := Relaying(raw))
  }

  /** ch <- msg: blocked while the slot is taken. */
  function HandedOver(s: State): Option<State> {
    if s.reader.Handing? && s.reader.channel < |s.channels| && !s.channels[s.reader.channel].Holding? then
      Some(s.(channels := s.channels[s.reader.channel := Holding(s.reader.line)], reader := Reading))
    else None
  }

  /** One atomic step; None when it cannot be taken. */
  function Step(cfg: Config, s: State, e: Event): Option<State> {
    if s.agent.Crashed? then None
    else
      match e
      case AgentReads(raw) => if s.agent.Idle? then Some(AgentReadsLine(cfg, s, raw)) else None
      case SendReturns(ok) => SendReturned(s, ok)
      case ToolReturns(result) => ToolReturned(s, result)
      case Receives => Received(cfg, s)
      case TimerFires => if s.agent.Waiting? then Some(s.(agent := TimedOut)) else None
      case DropsEntry => EntryDropped(s)
      case WritesReply =>
        if s.agent.Replying? then Some(s.(replies := s.replies + [s.agent.reply], agent := Idle)) else None
      case ReaderReads(raw) => if s.reader.Reading? then Some(ReaderReadsLine(cfg, s, raw)) else None
      case HandsOver => HandedOver(s)
      case Relays =>
        if s.reader.Relaying? then Some(s.(relayed := s.relayed + [s.reader.raw], reader := Reading)) else None
  }

  // ---------- the invariant ----------

  /** A request has been registered and not yet answered. */
  predicate Forwarding(s: State) {
    s.agent.Registered? || s.agent.SendFailed? || s.agent.Waiting? || s.agent.TimedOut?
  }

  /** Between lines every request has its reply; while one is served, all the others have. */
  predicate CountInv(s: State) {
    && |s.channels| == |s.requests|
    && |s.requests| == |s.replies| + (if s.agent.Idle? || s.agent.Passing? then 0 else 1)
  }

  /** Nothing has been handed to the current request yet, and it still waits. */
  predicate IsAwaited(s: State)
    requires CountInv(s)
  {
    Forwarding(s) && s.channels[Current(s)] == Awaiting
  }

  /** Exactly the request that is awaited is registered, under its own id. */
  ghost predicate PendingInv(s: State)
    requires CountInv(s)
  {
    s.pending == if IsAwaited(s) then map[s.requests[Current(s)].id := Current(s)] else map[]
  }

  /** The reader's hands and the channels agree about the line between them. */
  predicate ReaderInv(s: State) {
    s.reader.Handing? ==>
      && s.reader.channel < |s.channels|
      && s.channels[s.reader.channel] == Promised(s.reader.line)
  }

  /** The reply that request r has, or is about to have. */
  function ReplyOf(s: State, r: nat): Option<Reply> {
    if r < |s.replies| then Some(s.replies[r])
    else if s.agent.Replying? then Some(s.agent.reply)
    else None
  }

  /** The line in r's channel is a response to r, handed to r and to no other request. */
  predicate ChannelOk(s: State, r: nat)
    requires r < |s.requests| && r < |s.channels|
  {
    var ch := s.channels[r];
    && (ch.HasLine() ==>
          && ch.line < |s.lines|
          && s.lines[ch.line].to == Some(r)
          && s.lines[ch.line].msg.IsResponse()
          && s.lines[ch.line].msg.id == s.requests[r].id)
    && (ch.Promised? ==> s.reader == Handing(ch.line, r))
  }

  /** The reply is one that its cause explains. */
  predicate Explained(cfg: Config, s: State, r: nat, reply: Reply)
    requires r < |s.requests| && r < |s.channels|
  {
    var req := s.requests[r];
    var ch := s.channels[r];
    && reply.msg.id == req.id && reply.msg.IsResponse()
    && match reply.cause
       case Local => ch == NotMade && reply.msg.params.None? && reply.msg.result.Some? && reply.msg.error.None?
       case Upstream(n) => ch == Drained(n) && n < |s.lines| && cfg.finish(req, s.lines[n].msg) == Some(reply.msg)
       case Timeout => ch != NotMade && !ch.Drained? && reply.msg == ErrorReply(req, Timeout)
       case SendError => ch != NotMade && !ch.Drained? && reply.msg == ErrorReply(req, SendError)
  }

  predicate RequestOk(cfg: Config, s: State, r: nat)
    requires r < |s.requests| && r < |s.channels|
  {
    && s.requests[r].IsRequest()
    && (cfg.isLocal(s.requests[r]) <==> s.channels[r] == NotMade)
    && ChannelOk(s, r)
    && match ReplyOf(s, r)
       case Some(reply) => Explained(cfg, s, r, reply)
       case None =>
         && (s.agent.Handling? <==> s.channels[r] == NotMade)
         && (s.channels[r].Drained? ==>
               && s.agent == Crashed(s.channels[r].line)
               && s.channels[r].line < |s.lines|
               && cfg.finish(s.requests[r], s.lines[s.channels[r].line].msg).None?)
         && (s.agent.Crashed? ==> s.channels[r].Drained?)
  }

  ghost predicate RequestInv(cfg: Config, s: State)
    requires CountInv(s)
  {
    forall r: nat | r < |s.requests| :: RequestOk(cfg, s, r)
  }

  /** A line that was handed over is the one its request's channel has had. */
  predicate LineOk(s: State, n: nat)
    requires n < |s.lines|
  {
    var to := s.lines[n].to;
    to.Some? ==> to.value < |s.channels| && s.channels[to.value].HasLine() && s.channels[to.value].line == n
  }

  ghost predicate LineInv(s: State) {
    forall n: nat | n < |s.lines| :: LineOk(s, n)
  }

  /** The lines that were handed to nobody. */
  function Unclaimed(lines: seq<Line>): seq<string> {
    if lines == [] then []
    else
      var last := |lines| - 1;
      Unclaimed(lines[..last]) + if lines[last].to.None? then [lines[last].raw] else []
  }

  predicate IsForwarded(cfg: Config, raw: string) {
    cfg.parse(raw).Some? && !(cfg.parse(raw).value.IsRequest() && cfg.isLocal(cfg.parse(raw).value))
  }

  /** The agent's lines that go upstream. */
  function Forwarded(cfg: Config, read: seq<string>): seq<string> {
    if read == [] then []
    else
      var last := |read| - 1;
      Forwarded(cfg, read[..last]) + if IsForwarded(cfg, read[last]) then [read[last]] else []
  }

  /** The agent's requests among its lines: what has a method, and an id to answer to. */
  function Requests(cfg: Config, read: seq<string>): seq<Message> {
    if read == [] then []
    else
      var last := |read| - 1;
      var msg := cfg.parse(read[last]);
      var asks := msg.Some? && msg.value.methodName != "" && msg.value.id !in {"", "null"};
      Requests(cfg, read[..last]) + if asks then [msg.value] else []
  }

  /** Both directions are verbatim: what is claimed by nobody is relayed, what is not kept is sent. */
  ghost predicate TransparentInv(cfg: Config, s: State) {
    && s.requests == Requests(cfg, s.read)
    && Forwarded(cfg, s.read)
       == s.sent + (if s.agent.Passing? || s.agent.Registered? then [s.agent.raw] else [])
    && Unclaimed(s.lines)
       == s.relayed + (if s.reader.Relaying? then [s.reader.raw] else [])
  }

  ghost predicate Inv(cfg: Config, s: State) {
    && CountInv(s) && PendingInv(s) && ReaderInv(s)
    && RequestInv(cfg, s) && LineInv(s) && TransparentInv(cfg, s)
  }

  lemma InitiallyInv(cfg: Config)
    ensures Inv(cfg, INITIAL)
  {
  }

  /** The agent goroutine has moved on; nothing of the reader's side has changed. */
  ghost predicate AgentMoved(s: State, t: State) {
    && s.requests <= t.requests && s.channels <= t.channels && s.replies <= t.replies
    && t.reader == s.reader && t.lines == s.lines && t.relayed == s.relayed
  }

  lemma AnsweredStaysOk(cfg: Config, s: State, t: State, r: nat)
    requires AgentMoved(s, t) && r < |s.replies| && r < |s.requests| && r < |s.channels|
    requires RequestOk(cfg, s, r)
    ensures RequestOk(cfg, t, r)
  {
    assert ReplyOf(t, r) == ReplyOf(s, r);
  }

  lemma NewLineKeepsRequest(cfg: Config, s: State, raw: string, r: nat)
    requires Inv(cfg, s) && s.agent.Idle?
    requires var t := AgentReadsLine(cfg, s, raw); r < |t.requests| == |t.channels|
    ensures RequestOk(cfg, AgentReadsLine(cfg, s, raw), r)
  {
    if r < |s.requests| {
      assert RequestOk(cfg, s, r);
      AnsweredStaysOk(cfg, s, AgentReadsLine(cfg, s, raw), r);
    }
  }

  lemma PassedLineKeepsInv(cfg: Config, s: State, raw: string)
    requires Inv(cfg, s) && s.agent.Idle?
    requires raw != "" && cfg.parse(raw).Some? && !cfg.parse(raw).value.IsRequest()
    ensures Inv(cfg, AgentReadsLine(cfg, s, raw))
  {
    var t := AgentReadsLine(cfg, s, raw);
    assert t.read[..|s.read|] == s.read;
    forall r: nat | r < |t.requests|
      ensures RequestOk(cfg, t, r)
    {
      assert RequestOk(cfg, s, r);
      AnsweredStaysOk(cfg, s, t, r);
    }
    forall n: nat | n < |t.lines|
      ensures LineOk(t, n)
    {
      assert LineOk(s, n);
    }
  }

  lemma NewRequestKeepsInv(cfg: Config, s: State, raw: string)
    requires Inv(cfg, s) && s.agent.Idle?
    requires raw != "" && cfg.parse(raw).Some? && cfg.parse(raw).value.IsRequest()
    ensures Inv(cfg, AgentReadsLine(cfg, s, raw))
  {
    var t := AgentReadsLine(cfg, s, raw);
    assert t.read[..|s.read|] == s.read;
    forall r: nat | r < |t.requests|
      ensures RequestOk(cfg, t, r)
    {
      NewLineKeepsRequest(cfg, s, raw, r);
    }
    forall n: nat | n < |t.lines|
      ensures LineOk(t, n)
    {
      assert LineOk(s, n);
    }
  }

  lemma AgentReadsKeepsInv(cfg: Config, s: State, e: Event)
    requires cfg.Valid() && e.AgentReads?
    requires Inv(cfg, s) && Step(cfg, s, e).Some?
    ensures Inv(cfg, Step(cfg, s, e).value)
  {
    if e.raw != "" && cfg.parse(e.raw).Some? {
      if cfg.parse(e.raw).value.IsRequest() {
        NewRequestKeepsInv(cfg, s, e.raw);
      } else {
        PassedLineKeepsInv(cfg, s, e.raw);
      }
    }
  }

  lemma MovedRequestIsOk(cfg: Config, s: State, t: State, r: nat)
    requires CountInv(s) && RequestInv(cfg, s) && AgentMoved(s, t) && CountInv(t)
    requires t.requests == s.requests && r < |t.requests|
    requires |s.replies| < |s.requests| ==> RequestOk(cfg, t, Current(s))
    ensures RequestOk(cfg, t, r)
  {
    if r < |s.replies| {
      assert RequestOk(cfg, s, r);
      AnsweredStaysOk(cfg, s, t, r);
    }
  }

  /** Such a move has only the current request, the pending map and what is sent to answer for. */
  lemma AgentMovesKeepsInv(cfg: Config, s: State, t: State)
    requires Inv(cfg, s) && AgentMoved(s, t)
    requires t.requests == s.requests && t.channels == s.channels && t.read == s.read
    requires CountInv(t) && PendingInv(t)
    requires |s.replies| < |s.requests| ==> RequestOk(cfg, t, Current(s))
    requires t.sent + (if t.agent.Passing? || t.agent.Registered? then [t.agent.raw] else [])
          == s.sent + (if s.agent.Passing? || s.agent.Registered? then [s.agent.raw] else [])
    ensures Inv(cfg, t)
  {
    forall r: nat | r < |t.requests|
      ensures RequestOk(cfg, t, r)
    {
      MovedRequestIsOk(cfg, s, t, r);
    }
    assert LineInv(t) by {
      forall n: nat | n < |t.lines|
        ensures LineOk(t, n)
      {
        assert LineOk(s, n);
      }
    }
  }

  lemma SendReturnsKeepsInv(cfg: Config, s: State, e: Event)
    requires cfg.Valid() && e.SendReturns?
    requires Inv(cfg, s) && Step(cfg, s, e).Some?
    ensures Inv(cfg, Step(cfg, s, e).value)
  {
    assert |s.replies| < |s.requests| ==> RequestOk(cfg, s, Current(s));
    AgentMovesKeepsInv(cfg, s, Step(cfg, s, e).value);
  }

  lemma ToolReturnsKeepsInv(cfg: Config, s: State, e: Event)
    requires cfg.Valid() && e.ToolReturns?
    requires Inv(cfg, s) && Step(cfg, s, e).Some?
    ensures Inv(cfg, Step(cfg, s, e).value)
  {
    assert RequestOk(cfg, s, Current(s));
    AgentMovesKeepsInv(cfg, s, Step(cfg, s, e).value);
  }

  lemma TimerFiresKeepsInv(cfg: Config, s: State, e: Event)
    requires cfg.Valid() && e.TimerFires?
    requires Inv(cfg, s) && Step(cfg, s, e).Some?
    ensures Inv(cfg, Step(cfg, s, e).value)
  {
    assert RequestOk(cfg, s, Current(s));
    AgentMovesKeepsInv(cfg, s, Step(cfg, s, e).value);
  }

  lemma DropsEntryKeepsInv(cfg: Config, s: State, e: Event)
    requires cfg.Valid() && e.DropsEntry?
    requires Inv(cfg, s) && Step(cfg, s, e).Some?
    ensures Inv(cfg, Step(cfg, s, e).value)
  {
    assert RequestOk(cfg, s, Current(s));
    var t := Step(cfg, s, e).value;
    assert t.pending == map[];
    AgentMovesKeepsInv(cfg, s, t);
  }

  lemma WritesReplyKeepsInv(cfg: Config, s: State, e: Event)
    requires cfg.Valid() && e.WritesReply?
    requires Inv(cfg, s) && Step(cfg, s, e).Some?
    ensures Inv(cfg, Step(cfg, s, e).value)
  {
    assert RequestOk(cfg, s, Current(s));
    AgentMovesKeepsInv(cfg, s, Step(cfg, s, e).value);
  }

  lemma ReceivesKeepsInv(cfg: Config, s: State, e: Event)
    requires cfg.Valid() && e.Receives?
    requires Inv(cfg, s) && Step(cfg, s, e).Some?
    ensures Inv(cfg, Step(cfg, s, e).value)
  {
    var t := Step(cfg, s, e).value;
    forall r: nat | r < |t.requests|
      ensures RequestOk(cfg, t, r)
    {
      if r < |s.requests| {
        assert RequestOk(cfg, s, r);
      }
    }
    forall n: nat | n < |t.lines|
      ensures LineOk(t, n)
    {
      if n < |s.lines| {
        assert LineOk(s, n);
      }
    }
  }

  /** The reader takes the entry and claims the line it has read. */
  ghost predicate Claims(cfg: Config, s: State, raw: string) {
    && Inv(cfg, s) && !s.agent.Crashed? && s.reader.Reading?
    && raw != "" && cfg.parse(raw).Some?
    && cfg.parse(raw).value.IsResponse() && cfg.parse(raw).value.IDString() in s.pending
  }

  lemma ClaimIsForTheCurrentRequest(cfg: Config, s: State, raw: string)
    requires Claims(cfg, s, raw)
    ensures var msg := cfg.parse(raw).value;
      var c := Current(s);
      && Forwarding(s) && 0 <= c && s.channels[c] == Awaiting
      && msg.id == msg.IDString() == s.requests[c].id
      && ReaderReadsLine(cfg, s, raw) == s.(
           lines := s.lines + [Line(raw, msg, Some(c))], pending := map[],
           channels := s.channels[c := Promised(|s.lines|)], reader := Handing(|s.lines|, c))
  {
    assert RequestOk(cfg, s, Current(s));
    assert s.pending - {cfg.parse(raw).value.IDString()} == map[];
  }

  lemma ClaimKeepsRequest(cfg: Config, s: State, raw: string, r: nat)
    requires Claims(cfg, s, raw) && r < |s.requests|
    requires var t := ReaderReadsLine(cfg, s, raw); |t.requests| == |t.channels| == |s.requests|
    ensures RequestOk(cfg, ReaderReadsLine(cfg, s, raw), r)
  {
    ClaimIsForTheCurrentRequest(cfg, s, raw);
    assert RequestOk(cfg, s, r);
  }

  lemma ClaimKeepsInv(cfg: Config, s: State, raw: string)
    requires Claims(cfg, s, raw)
    ensures Inv(cfg, ReaderReadsLine(cfg, s, raw))
  {
    var t := ReaderReadsLine(cfg, s, raw);
    ClaimIsForTheCurrentRequest(cfg, s, raw);
    assert t.lines[..|s.lines|] == s.lines;
    forall r: nat | r < |t.requests|
      ensures RequestOk(cfg, t, r)
    {
      ClaimKeepsRequest(cfg, s, raw, r);
    }
    forall n: nat | n < |t.lines|
      ensures LineOk(t, n)
    {
      if n < |s.lines| {
        assert LineOk(s, n);
      }
    }
  }

  /** A line that resolves nothing goes to the agent. */
  lemma UnclaimedLineKeepsInv(cfg: Config, s: State, raw: string)
    requires Inv(cfg, s) && !s.agent.Crashed? && s.reader.Reading? && !Claims(cfg, s, raw)
    requires raw != "" && cfg.parse(raw).Some?
    ensures Inv(cfg, ReaderReadsLine(cfg, s, raw))
  {
    var t := ReaderReadsLine(cfg, s, raw);
    assert t == s.(lines := s.lines + [Line(raw, cfg.parse(raw).value, None)], reader := Relaying(raw));
    assert t.lines[..|s.lines|] == s.lines;
    forall r: nat | r < |t.requests|
      ensures RequestOk(cfg, t, r)
    {
      assert RequestOk(cfg, s, r);
    }
    forall n: nat | n < |t.lines|
      ensures LineOk(t, n)
    {
      if n < |s.lines| {
        assert LineOk(s, n);
      }
    }
  }

  lemma ReaderReadsKeepsInv(cfg: Config, s: State, e: Event)
    requires cfg.Valid() && e.ReaderReads?
    requires Inv(cfg, s) && Step(cfg, s, e).Some?
    ensures Inv(cfg, Step(cfg, s, e).value)
  {
    if Claims(cfg, s, e.raw) {
      ClaimKeepsInv(cfg, s, e.raw);
    } else if e.raw != "" && cfg.parse(e.raw).Some? {
      UnclaimedLineKeepsInv(cfg, s, e.raw);
    }
  }

  lemma HandsOverKeepsInv(cfg: Config, s: State, e: Event)
    requires cfg.Valid() && e.HandsOver?
    requires Inv(cfg, s) && Step(cfg, s, e).Some?
    ensures Inv(cfg, Step(cfg, s, e).value)
  {
    var t := Step(cfg, s, e).value;
    forall r: nat | r < |t.requests|
      ensures RequestOk(cfg, t, r)
    {
      if r < |s.requests| {
        assert RequestOk(cfg, s, r);
      }
    }
    forall n: nat | n < |t.lines|
      ensures LineOk(t, n)
    {
      if n < |s.lines| {
        assert LineOk(s, n);
      }
    }
  }

  lemma RelaysKeepsInv(cfg: Config, s: State, e: Event)
    requires cfg.Valid() && e.Relays?
    requires Inv(cfg, s) && Step(cfg, s, e).Some?
    ensures Inv(cfg, Step(cfg, s, e).value)
  {
    var t := Step(cfg, s, e).value;
    forall r: nat | r < |t.requests|
      ensures RequestOk(cfg, t, r)
    {
      if r < |s.requests| {
        assert RequestOk(cfg, s, r);
      }
    }
    forall n: nat | n < |t.lines|
      ensures LineOk(t, n)
    {
      if n < |s.lines| {
        assert LineOk(s, n);
      }
    }
  }

  // ---------- runs ----------

  lemma StepKeepsInv(cfg: Config, s: State, e: Event)
    requires cfg.Valid() && Inv(cfg, s) && Step(cfg, s, e).Some?
    ensures Inv(cfg, Step(cfg, s, e).value)
  {
    match e
    case AgentReads(_) => AgentReadsKeepsInv(cfg, s, e);
    case SendReturns(_) => SendReturnsKeepsInv(cfg, s, e);
    case ToolReturns(_) => ToolReturnsKeepsInv(cfg, s, e);
    case Receives => ReceivesKeepsInv(cfg, s, e);
    case TimerFires => TimerFiresKeepsInv(cfg, s, e);
    case DropsEntry => DropsEntryKeepsInv(cfg, s, e);
    case WritesReply => WritesReplyKeepsInv(cfg, s, e);
    case ReaderReads(_) => ReaderReadsKeepsInv(cfg, s, e);
    case HandsOver => HandsOverKeepsInv(cfg, s, e);
    case Relays => RelaysKeepsInv(cfg, s, e);
  }

  /** The state after these steps, None when one of them cannot be taken. */
  function Run(cfg: Config, s: State, events: seq<Event>): Option<State>
    decreases |events|
  {
    if events == [] then Some(s)
    else
      match Step(cfg, s, events[0])
      case None => None
      case Some(t) => Run(cfg, t, events[1..])
  }

  lemma {:induction false} RunAppend(cfg: Config, s: State, events: seq<Event>, more: seq<Event>)
    requires Run(cfg, s, events).Some?
    ensures Run(cfg, s, events + more) == Run(cfg, Run(cfg, s, events).value, more)
    decreases |events|
  {
    if events == [] {
      assert events + more == more;
    } else {
      assert (events + more)[1..] == events[1..] + more;
      RunAppend(cfg, Step(cfg, s, events[0]).value, events[1..], more);
    }
  }

  lemma {:induction false} RunKeepsInv(cfg: Config, s: State, events: seq<Event>)
    requires cfg.Valid() && Inv(cfg, s) && Run(cfg, s, events).Some?
    ensures Inv(cfg, Run(cfg, s, events).value)
    decreases |events|
  {
    if events == [] {
    } else {
      StepKeepsInv(cfg, s, events[0]);
      RunKeepsInv(cfg, Step(cfg, s, events[0]).value, events[1..]);
    }
  }

  /** s is reached from the start by some interleaving of the goroutines, the timer and the outside. */
  ghost predicate Reached(cfg: Config, events: seq<Event>, s: State) {
    Run(cfg, INITIAL, events) == Some(s)
  }

  lemma ReachedHasInv(cfg: Config, events: seq<Event>, s: State)
    requires cfg.Valid() && Reached(cfg, events, s)
    ensures Inv(cfg, s)
  {
    InitiallyInv(cfg);
    RunKeepsInv(cfg, INITIAL, events);
  }

  /**
   In every reachable state exactly the awaited request is registered, under its own non-empty id.
   Between lines nothing is, and the reader, when it has a message to hand over, always can.
   */
  lemma PendingHoldsOnlyTheCurrentRequest(cfg: Config, events: seq<Event>, s: State)
    requires cfg.Valid() && Reached(cfg, events, s)
    ensures CountInv(s)
    ensures s.pending == if IsAwaited(s) then map[s.requests[Current(s)].id := Current(s)] else map[]
    ensures |s.pending| <= 1 && "" !in s.pending
    ensures s.agent.Idle? ==> s.pending == map[]
    ensures forall id | id in s.pending ::
      && s.pending[id] == Current(s) < |s.channels| && s.channels[Current(s)] == Awaiting
      && s.requests[Current(s)].id == id
    ensures s.reader.Handing? && !s.agent.Crashed? ==> Step(cfg, s, HandsOver).Some?
  {
    ReachedHasInv(cfg, events, s);
    if s.pending != map[] {
      assert RequestOk(cfg, s, Current(s));
    }
  }

  /** A response to the awaited request is never relayed: whenever it is read, the request gets it. */
  lemma ResponsesReachTheirRequest(cfg: Config, events: seq<Event>, s: State, raw: string)
    requires cfg.Valid() && Reached(cfg, events, s) && !s.agent.Crashed? && s.reader.Reading?
    requires CountInv(s) && IsAwaited(s) && raw != "" && cfg.parse(raw).Some?
    requires var msg := cfg.parse(raw).value;
      msg.methodName == "" && (msg.result.Some? || msg.error.Some?) && msg.id == s.requests[Current(s)].id
    ensures var n := |s.lines|;
      var t := Run(cfg, s, [ReaderReads(raw), HandsOver]);
      && t.Some? && t.value.lines == s.lines + [Line(raw, cfg.parse(raw).value, Some(Current(s)))]
      && t.value.channels == s.channels[Current(s) := Holding(n)]
      && t.value.pending == map[] && t.value.relayed == s.relayed
  {
    ReachedHasInv(cfg, events, s);
    assert RequestOk(cfg, s, Current(s));
    ClaimIsForTheCurrentRequest(cfg, s, raw);
    var t := ReaderReadsLine(cfg, s, raw);
    var events := [ReaderReads(raw), HandsOver];
    assert events[1..] == [HandsOver];
    assert Run(cfg, t, [HandsOver]) == Step(cfg, t, HandsOver);
  }

  /**
   The agent goroutine answers the requests it reads one for one, in the order it read them, each
   under its own id; only the last one read can still be unanswered, and not between lines.
   */
  lemma EveryRequestIsAnsweredOnceInOrder(cfg: Config, events: seq<Event>, s: State)
    requires cfg.Valid() && Reached(cfg, events, s)
    ensures s.requests == Requests(cfg, s.read)
    ensures |s.replies| <= |s.requests| <= |s.replies| + 1
    ensures s.agent.Idle? ==> |s.replies| == |s.requests|
    ensures forall r | 0 <= r < |s.replies| ::
      && s.replies[r].msg.id == s.requests[r].id && s.replies[r].msg.IsResponse()
      && (s.replies[r].cause == Local <==> cfg.isLocal(s.requests[r]))
  {
    ReachedHasInv(cfg, events, s);
    forall r | 0 <= r < |s.replies|
      ensures s.replies[r].msg.id == s.requests[r].id && s.replies[r].msg.IsResponse()
      ensures s.replies[r].cause == Local <==> cfg.isLocal(s.requests[r])
    {
      assert RequestOk(cfg, s, r);
    }
  }

  /** What the agent goroutine writes for a request, and why. */
  ghost predicate IsExplained(cfg: Config, s: State, req: Message, r: nat, reply: Reply) {
    match reply.cause
    case Local =>
      cfg.isLocal(req) && exists result :: reply.msg == Message(req.id, "", None, Some(result), None)
    case Upstream(n) =>
      && !cfg.isLocal(req) && n < |s.lines| && s.lines[n].to == Some(r) && s.lines[n].msg.id == req.id
      && cfg.finish(req, s.lines[n].msg) == Some(reply.msg)
    case Timeout =>
      && !cfg.isLocal(req)
      && reply.msg == Message(req.id, "", None, None, Some(RpcError(-32603, "upstream timeout", None)))
    case SendError =>
      && !cfg.isLocal(req)
      && reply.msg == Message(req.id, "", None, None, Some(RpcError(-32603, "send to upstream", None)))
  }

  lemma RepliesAreExplained(cfg: Config, events: seq<Event>, s: State, r: nat)
    requires cfg.Valid() && Reached(cfg, events, s) && r < |s.replies|
    ensures r < |s.requests| && IsExplained(cfg, s, s.requests[r], r, s.replies[r])
  {
    ReachedHasInv(cfg, events, s);
    assert RequestOk(cfg, s, r);
    var reply := s.replies[r];
    assert reply.cause == Local ==>
      reply.msg == Message(s.requests[r].id, "", None, Some(reply.msg.result.value), None);
  }

  /** Each line was decoded to the message that is recorded with it. */
  ghost predicate LinesAreParsed(cfg: Config, lines: seq<Line>) {
    forall n | 0 <= n < |lines| :: cfg.parse(lines[n].raw) == Some(lines[n].msg)
  }

  lemma {:induction false} RunParsesLines(cfg: Config, s: State, events: seq<Event>)
    requires LinesAreParsed(cfg, s.lines) && Run(cfg, s, events).Some?
    ensures LinesAreParsed(cfg, Run(cfg, s, events).value.lines)
    decreases |events|
  {
    if events == [] {
    } else {
      RunParsesLines(cfg, Step(cfg, s, events[0]).value, events[1..]);
    }
  }

  /** What became of a line that was handed to a request. */
  ghost predicate Delivered(cfg: Config, s: State, n: nat, r: nat)
    requires n < |s.lines| && r < |s.requests|
  {
    if r < |s.replies| then
      var reply := s.replies[r];
      if reply.cause == Upstream(n) then cfg.finish(s.requests[r], s.lines[n].msg) == Some(reply.msg)
      else reply.cause in {Timeout, SendError} && reply.msg == ErrorReply(s.requests[r], reply.cause)
    else r == Current(s)
  }

  /**
   Upstream messages are conserved: each line is relayed verbatim once, in order, or handed to
   exactly one request, whose id it carries. The request of a line that was handed over and not
   written is still being served, or was answered by a timeout or a send error.
   */
  lemma UpstreamMessagesAreConserved(cfg: Config, events: seq<Event>, s: State)
    requires cfg.Valid() && Reached(cfg, events, s)
    ensures s.relayed + (if s.reader.Relaying? then [s.reader.raw] else []) == Unclaimed(s.lines)
    ensures LinesAreParsed(cfg, s.lines)
    ensures forall n | 0 <= n < |s.lines| && s.lines[n].to.Some? ::
      var r := s.lines[n].to.value;
      && r < |s.requests|
      && s.lines[n].msg.IsResponse() && s.lines[n].msg.id == s.requests[r].id
      && Delivered(cfg, s, n, r)
    ensures forall n, k | 0 <= n < k < |s.lines| && s.lines[n].to.Some? :: s.lines[n].to != s.lines[k].to
  {
    RunParsesLines(cfg, INITIAL, events);
    ReachedHasInv(cfg, events, s);
    forall n | 0 <= n < |s.lines| && s.lines[n].to.Some?
      ensures
        var r := s.lines[n].to.value;
        && r < |s.requests|
        && s.lines[n].msg.IsResponse() && s.lines[n].msg.id == s.requests[r].id
        && Delivered(cfg, s, n, r)
    {
      assert LineOk(s, n);
      assert RequestOk(cfg, s, s.lines[n].to.value);
    }
    forall n, k | 0 <= n < k < |s.lines| && s.lines[n].to.Some?
      ensures s.lines[n].to != s.lines[k].to
    {
      assert LineOk(s, n) && LineOk(s, k);
    }
  }

  lemma ARequestIsSent(cfg: Config, raw: string, req: Message)
    requires raw != "" && cfg.parse(raw) == Some(req) && req.IsRequest() && !cfg.isLocal(req)
    ensures Run(cfg, INITIAL, [AgentReads(raw), SendReturns(true)])
         == Some(State(Waiting, Reading, map[req.id := 0], [Awaiting], [raw], [raw], [req], [], [], []))
  {
    var sending := [AgentReads(raw), SendReturns(true)];
    var t := AgentReadsLine(cfg, INITIAL, raw);
    assert t.read == [raw] && t.requests == [req] && t.channels == [Awaiting] && t.pending == map[req.id := 0];
    assert sending[1..] == [SendReturns(true)];
    assert Run(cfg, t, [SendReturns(true)]) == SendReturned(t, true);
    assert t.sent + [raw] == [raw];
  }

  /** The way of a request and its response up to the channel. */
  lemma AResponseArrives(cfg: Config, raw: string, answer: string)
    requires raw != "" && cfg.parse(raw).Some? && answer != "" && cfg.parse(answer).Some?
    requires var req, resp := cfg.parse(raw).value, cfg.parse(answer).value;
      req.IsRequest() && !cfg.isLocal(req) && resp.IsResponse() && resp.id == req.id
    ensures Run(cfg, INITIAL, [AgentReads(raw), SendReturns(true), ReaderReads(answer), HandsOver])
         == Some(State(Waiting, Reading, map[], [Holding(0)], [raw], [raw],
              [cfg.parse(raw).value], [], [Line(answer, cfg.parse(answer).value, Some(0))], []))
  {
    var sending, answering := [AgentReads(raw), SendReturns(true)], [ReaderReads(answer), HandsOver];
    var req, resp := cfg.parse(raw).value, cfg.parse(answer).value;
    ARequestIsSent(cfg, raw, req);
    RunAppend(cfg, INITIAL, sending, answering);
    assert sending + answering == [AgentReads(raw), SendReturns(true), ReaderReads(answer), HandsOver];
    var s := State(Waiting, Reading, map[req.id := 0], [Awaiting], [raw], [raw], [req], [], [], []);
    var line := Line(answer, resp, Some(0));
    var t := State(Waiting, Handing(0, 0), map[], [Promised(0)], [raw], [raw], [req], [], [line], []);
    assert ReaderReadsLine(cfg, s, answer) == t by {
      assert map[req.id := 0] - {req.id} == map[];
      assert [Awaiting][0 := Promised(0)] == [Promised(0)];
    }
    assert [Promised(0)][0 := Holding(0)] == [Holding(0)];
    assert answering[1..] == [HandsOver] && Run(cfg, t, [HandsOver]) == Step(cfg, t, HandsOver);
  }

  lemma TheTimerWins(cfg: Config, s: State)
    requires s.agent.Waiting? && s.requests != [] && s.pending == map[]
    ensures var reply := Reply(ErrorReply(s.requests[Current(s)], Timeout), Timeout);
      Run(cfg, s, [TimerFires, DropsEntry, WritesReply]) == Some(s.(agent := Idle, replies := s.replies + [reply]))
  {
    var after := [TimerFires, DropsEntry, WritesReply];
    var t := s.(agent := TimedOut);
    var u := s.(agent := Replying(Reply(ErrorReply(s.requests[Current(s)], Timeout), Timeout)));
    assert Step(cfg, s, TimerFires) == Some(t);
    assert Step(cfg, t, DropsEntry) == Some(u) by {
      assert t.pending - {s.requests[Current(s)].IDString()} == map[];
    }
    assert after[1..][1..] == after[2..] == [WritesReply];
    assert Run(cfg, u, after[2..]) == Step(cfg, u, WritesReply);
    assert Run(cfg, t, after[1..]) == Run(cfg, u, after[2..]);
  }

  /**
   Such a response need not be late: one that is already in the channel when the timer fires is
   lost, neither written nor relayed, if the select takes the timer's case.
   */
  lemma ATimelyResponseCanBeLost(cfg: Config, raw: string, answer: string)
    requires raw != "" && cfg.parse(raw).Some? && answer != "" && cfg.parse(answer).Some?
    requires var req, resp := cfg.parse(raw).value, cfg.parse(answer).value;
      req.IsRequest() && !cfg.isLocal(req) && resp.IsResponse() && resp.id == req.id
    ensures
      var events := [AgentReads(raw), SendReturns(true), ReaderReads(answer), HandsOver,
                     TimerFires, DropsEntry, WritesReply];
      exists s ::
        && Reached(cfg, events, s) && s.agent.Idle? && s.reader.Reading?
        && s.lines == [Line(answer, cfg.parse(answer).value, Some(0))] && s.channels == [Holding(0)]
        && s.replies == [Reply(ErrorReply(cfg.parse(raw).value, Timeout), Timeout)] && s.relayed == []
  {
    var before := [AgentReads(raw), SendReturns(true), ReaderReads(answer), HandsOver];
    var after := [TimerFires, DropsEntry, WritesReply];
    AResponseArrives(cfg, raw, answer);
    RunAppend(cfg, INITIAL, before, after);
    TheTimerWins(cfg, Run(cfg, INITIAL, before).value);
    assert before + after
        == [AgentReads(raw), SendReturns(true), ReaderReads(answer), HandsOver, TimerFires, DropsEntry, WritesReply];
  }

  /** Nothing has come of this line but that it is passed on to the agent. */
  ghost predicate IsRelayed(s: State, n: nat)
    requires n < |s.lines|
  {
    s.lines[n].to.None? && (s.lines[n].raw in s.relayed || s.reader == Relaying(s.lines[n].raw))
  }

  lemma {:induction false} UnclaimedHasEveryLine(lines: seq<Line>, n: nat)
    requires n < |lines| && lines[n].to.None?
    ensures lines[n].raw in Unclaimed(lines)
  {
    var last := |lines| - 1;
    if n < last {
      UnclaimedHasEveryLine(lines[..last], n);
    }
  }

  lemma ClaimedLinesAreResponses(cfg: Config, s: State, n: nat)
    requires Inv(cfg, s) && n < |s.lines|
    ensures s.lines[n].to.Some? ==> s.lines[n].msg.IsResponse()
  {
    assert LineOk(s, n);
    if s.lines[n].to.Some? {
      assert RequestOk(cfg, s, s.lines[n].to.value);
    }
  }

  /** A request or a notification, or nothing at all. */
  predicate IsOfTheServer(msg: Message) {
    msg.methodName != "" || (msg.result.None? && msg.error.None?)
  }

  /**
   In every run what upstream sends of its own, requests under a registered id included, goes to
   the agent: reading it takes no pending entry, and it is relayed or about to be.
   */
  lemma ServerRequestsAreAlwaysRelayed(cfg: Config, events: seq<Event>, s: State)
    requires cfg.Valid() && Reached(cfg, events, s)
    ensures forall n: nat | n < |s.lines| && IsOfTheServer(s.lines[n].msg) :: IsRelayed(s, n)
    ensures forall raw | Step(cfg, s, ReaderReads(raw)).Some? && raw != "" && cfg.parse(raw).Some? ::
      IsOfTheServer(cfg.parse(raw).value) ==>
        Step(cfg, s, ReaderReads(raw)).value
        == s.(lines := s.lines + [Line(raw, cfg.parse(raw).value, None)], reader := Relaying(raw))
  {
    ReachedHasInv(cfg, events, s);
    forall n: nat | n < |s.lines| && IsOfTheServer(s.lines[n].msg)
      ensures IsRelayed(s, n)
    {
      ClaimedLinesAreResponses(cfg, s, n);
      UnclaimedHasEveryLine(s.lines, n);
    }
  }

  /**
   Upstream is sent the agent's parseable lines, byte for byte and in order, but for the calls kept
   here; whether a send succeeds is another matter.
   */
  lemma AgentLinesAreSentVerbatim(cfg: Config, events: seq<Event>, s: State)
    requires cfg.Valid() && Reached(cfg, events, s)
    ensures s.sent + (if s.agent.Passing? || s.agent.Registered? then [s.agent.raw] else [])
         == Forwarded(cfg, s.read)
    ensures s.agent.Idle? ==> s.sent == Forwarded(cfg, s.read)
  {
    ReachedHasInv(cfg, events, s);
  }

  /** Steps that need nothing from upstream but that a send returns. */
  predicate IsOwnStep(e: Event) {
    e.SendReturns? || e.ToolReturns? || e.TimerFires? || e.DropsEntry? || e.WritesReply?
  }

  /** How many of its own steps the agent goroutine is at most away from its input. */
  function Distance(a: Agent): nat {
    match a
    case Registered(_) => 4
    case Waiting => 3
    case SendFailed => 2
    case TimedOut => 2
    case Handling => 2
    case Replying(_) => 1
    case Passing(_) => 1
    case _ => 0
  }

  /** The step that takes the agent goroutine towards its input. */
  function OwnStep(a: Agent): Event {
    match a
    case Registered(_) => SendReturns(true)
    case Passing(_) => SendReturns(true)
    case Handling => ToolReturns(Null)
    case Waiting => TimerFires
    case Replying(_) => WritesReply
    case _ => DropsEntry
  }

  lemma OwnStepIsCloser(cfg: Config, s: State)
    requires CountInv(s) && !s.agent.Crashed? && !s.agent.Idle?
    ensures IsOwnStep(OwnStep(s.agent))
    ensures var t := Step(cfg, s, OwnStep(s.agent));
      && t.Some? && !t.value.agent.Crashed? && t.value.requests == s.requests
      && Distance(t.value.agent) == Distance(s.agent) - 1
  {
  }

  lemma {:induction false} WayBack(cfg: Config, s: State) returns (events: seq<Event>)
    requires cfg.Valid() && Inv(cfg, s) && !s.agent.Crashed?
    ensures |events| == Distance(s.agent) && forall i | 0 <= i < |events| :: IsOwnStep(events[i])
    ensures var t := Run(cfg, s, events);
      t.Some? && t.value.agent.Idle? && t.value.requests == s.requests
    decreases Distance(s.agent)
  {
    if s.agent.Idle? {
      events := [];
    } else {
      var e := OwnStep(s.agent);
      OwnStepIsCloser(cfg, s);
      StepKeepsInv(cfg, s, e);
      var rest := WayBack(cfg, Step(cfg, s, e).value);
      events := [e] + rest;
      assert events[1..] == rest;
    }
  }

  predicate IsReaderStep(e: Event) {
    e.ReaderReads? || e.HandsOver? || e.Relays?
  }

  /** How many steps the agent goroutine and its timer take in a run. */
  function AgentSteps(events: seq<Event>): nat {
    if events == [] then 0
    else (if IsReaderStep(events[0]) then 0 else 1) + AgentSteps(events[1..])
  }

  /** No line of the agent is read. */
  predicate NoNewLine(events: seq<Event>) {
    forall i | 0 <= i < |events| :: !events[i].AgentReads?
  }

  /** Whatever it does, the agent goroutine comes closer to its input, and the reader does not hold it up. */
  lemma StepBringsCloser(cfg: Config, s: State, e: Event)
    requires Step(cfg, s, e).Some? && !e.AgentReads?
    ensures var t := Step(cfg, s, e).value;
      && t.requests == s.requests
      && (if IsReaderStep(e) then t.agent == s.agent else Distance(t.agent) < Distance(s.agent))
  {
  }

  lemma {:induction false} RunBringsCloser(cfg: Config, s: State, events: seq<Event>)
    requires Run(cfg, s, events).Some? && NoNewLine(events)
    ensures var t := Run(cfg, s, events).value;
      AgentSteps(events) + Distance(t.agent) <= Distance(s.agent) && t.requests == s.requests
    decreases |events|
  {
    if events == [] {
    } else {
      StepBringsCloser(cfg, s, events[0]);
      RunBringsCloser(cfg, Step(cfg, s, events[0]).value, events[1..]);
    }
  }

  /**
   No silence of the upstream keeps a request unanswered once its send has returned. Whatever
   happens until the agent's next line is read, the agent goroutine takes at most four steps; it
   stops only at its input, with every request answered, or in a crash; and short of that it can
   always go on, by itself, to where it stops.
   */
  lemma SilenceIsAlwaysAnswered(cfg: Config, events: seq<Event>, s: State, more: seq<Event>, t: State)
    returns (back: seq<Event>)
    requires cfg.Valid() && Reached(cfg, events, s)
    requires NoNewLine(more) && Run(cfg, s, more) == Some(t)
    ensures AgentSteps(more) + Distance(t.agent) <= Distance(s.agent) <= 4
    ensures t.requests == s.requests && (t.agent.Idle? ==> |t.replies| == |t.requests|)
    ensures Distance(t.agent) == 0 <==> t.agent.Idle? || t.agent.Crashed?
    ensures !t.agent.Crashed? ==>
      && |back| == Distance(t.agent) && forall i | 0 <= i < |back| :: IsOwnStep(back[i])
    ensures !t.agent.Crashed? ==>
      var u := Run(cfg, t, back);
      u.Some? && u.value.agent.Idle? && u.value.requests == s.requests && |u.value.replies| == |s.requests|
  {
    ReachedHasInv(cfg, events, s);
    RunKeepsInv(cfg, s, more);
    RunBringsCloser(cfg, s, more);
    back := [];
    if !t.agent.Crashed? {
      back := WayBack(cfg, t);
      RunKeepsInv(cfg, t, back);
    }
  }

  /** The process only ever dies of a response that cannot be finished, with its request unanswered. */
  lemma CrashIsAnUnfinishableResponse(cfg: Config, events: seq<Event>, s: State)
    requires cfg.Valid() && Reached(cfg, events, s) && s.agent.Crashed?
    ensures s.requests != [] && s.agent.at < |s.lines|
    ensures s.lines[s.agent.at].to == Some(Current(s)) && |s.replies| == Current(s)
    ensures cfg.finish(s.requests[Current(s)], s.lines[s.agent.at].msg).None?
  {
    ReachedHasInv(cfg, events, s);
    assert RequestOk(cfg, s, Current(s));
  }
}
