/**
 The proxy as the object that its two goroutines share: the pending map, a channel object for each
 registered request, and the two outputs. The methods of the agent goroutine let the reader go on,
 as far as it may, between any two of their own steps.
 */
module Goroutines {
  import opened Prelude
  import opened JsonRpc
  import opened Proxy

  /** A channel with one slot, made for a request. */
  class Slot {
    ghost const request: nat
    var content: Option<Message>

    constructor (ghost request: nat)
      ensures this.request == request && content == None
    {
      this.request := request;
      content := None;
    }
  }

  /** What the reader goroutine has in hand between two of its steps. */
  datatype Hand = Empty | Deliver(slot: Slot, msg: Message) | Relay(raw: string)

  /** What the agent gets: lines relayed by the reader, and replies written by the agent goroutine. */
  datatype Output = Relayed(raw: string) | Replied(msg: Message)

  function RelaysIn(out: seq<Output>): seq<string> {
    if out == [] then []
    else
      var last := |out| - 1;
      RelaysIn(out[..last]) + if out[last].Relayed? then [out[last].raw] else []
  }

  function RepliesIn(out: seq<Output>): seq<Message> {
    if out == [] then []
    else
      var last := |out| - 1;
      RepliesIn(out[..last]) + if out[last].Replied? then [out[last].msg] else []
  }

  function Messages(replies: seq<Reply>): (msgs: seq<Message>)
    ensures |msgs| == |replies| && forall i | 0 <= i < |replies| :: msgs[i] == replies[i].msg
  {
    if replies == [] then []
    else
      var last := |replies| - 1;
      Messages(replies[..last]) + [replies[last].msg]
  }

  lemma OutputAppend(out: seq<Output>, o: Output)
    ensures RelaysIn(out + [o]) == RelaysIn(out) + if o.Relayed? then [o.raw] else []
    ensures RepliesIn(out + [o]) == RepliesIn(out) + if o.Replied? then [o.msg] else []
  {
    assert (out + [o])[..|out|] == out;
  }

  lemma MessagesAppend(replies: seq<Reply>, reply: Reply)
    ensures Messages(replies + [reply]) == Messages(replies) + [reply.msg]
  {
    assert (replies + [reply])[..|replies|] == replies;
  }

  // ---------- runs between two states ----------

  /** Whatever the goroutines do, P goes on holding. */
  ghost predicate Kept(cfg: Config, P: State -> bool) {
    forall s: State, e: Event :: P(s) && Step(cfg, s, e).Some? ==> P(Step(cfg, s, e).value)
  }

  /** t comes of s by some steps: whatever holds of s and is kept by every step holds of t. */
  ghost predicate Leads(cfg: Config, s: State, t: State) {
    forall P: State -> bool :: Kept(cfg, P) && P(s) ==> P(t)
  }

  ghost predicate Reachable(cfg: Config, s: State) {
    Leads(cfg, INITIAL, s)
  }

  lemma LeadsOn(cfg: Config, s: State, t: State, u: State)
    requires Leads(cfg, s, t) && Leads(cfg, t, u)
    ensures Leads(cfg, s, u)
  {
  }

  lemma StepLeads(cfg: Config, s: State, e: Event, t: State)
    requires Step(cfg, s, e) == Some(t) && Reachable(cfg, s)
    ensures Leads(cfg, s, t) && Reachable(cfg, t)
  {
  }

  /** What Leads says is that there is a run. */
  lemma LeadsIsARun(cfg: Config, s: State, t: State) returns (events: seq<Event>)
    requires Leads(cfg, s, t)
    ensures Run(cfg, s, events) == Some(t)
  {
    var P := (u: State) => exists events :: Run(cfg, s, events) == Some(u);
    forall u: State, e: Event | P(u) && Step(cfg, u, e).Some?
      ensures P(Step(cfg, u, e).value)
    {
      var events :| Run(cfg, s, events) == Some(u);
      RunAppend(cfg, s, events, [e]);
      assert Run(cfg, u, [e]) == Step(cfg, u, e);
    }
    assert Kept(cfg, P);
    assert Run(cfg, s, []) == Some(s);
    events :| Run(cfg, s, events) == Some(t);
  }

  /** The part of the invariant that the object's own code relies on. */
  lemma ReachableIsSound(cfg: Config, s: State)
    requires cfg.Valid() && Reachable(cfg, s)
    ensures CountInv(s) && (s.reader.Handing? && !s.agent.Crashed? ==> HandedOver(s).Some?)
    ensures forall id | id in s.pending :: s.pending[id] < |s.channels| && s.channels[s.pending[id]] == Awaiting
  {
    var events := LeadsIsARun(cfg, INITIAL, s);
    ReachedHasInv(cfg, events, s);
    PendingHoldsOnlyTheCurrentRequest(cfg, events, s);
  }

  lemma RegisteredState(cfg: Config, s: State, raw: string, msg: Message)
    requires cfg.Valid() && Reachable(cfg, s) && s.agent.Idle?
    requires raw != "" && cfg.parse(raw) == Some(msg) && msg.IsRequest() && !cfg.isLocal(msg)
    ensures var t := AgentReadsLine(cfg, s, raw);
      && Leads(cfg, s, t) && Reachable(cfg, t)
      && |s.channels| == |s.requests|
      && t == s.(agent := Registered(raw), read := s.read + [raw], requests := s.requests + [msg],
                 channels := s.channels + [Awaiting], pending := s.pending[msg.IDString() := |s.requests|])
  {
    ReachableIsSound(cfg, s);
    StepLeads(cfg, s, AgentReads(raw), AgentReadsLine(cfg, s, raw));
  }

  lemma ClaimedState(cfg: Config, s: State, raw: string, msg: Message)
    requires cfg.Valid() && Reachable(cfg, s) && !s.agent.Crashed? && s.reader.Reading?
    requires raw != "" && cfg.parse(raw) == Some(msg) && msg.IsResponse() && msg.IDString() in s.pending
    ensures var t := ReaderReadsLine(cfg, s, raw);
      var ch := s.pending[msg.IDString()];
      && Leads(cfg, s, t) && Reachable(cfg, t) && SameAgent(s, t)
      && ch < |s.channels| && s.channels[ch] == Awaiting
      && t == s.(lines := s.lines + [Line(raw, msg, Some(ch))], pending := s.pending - {msg.IDString()},
                 channels := s.channels[ch := Promised(|s.lines|)], reader := Handing(|s.lines|, ch))
  {
    ReachableIsSound(cfg, s);
    StepLeads(cfg, s, ReaderReads(raw), ReaderReadsLine(cfg, s, raw));
  }

  // ---------- what a goroutine meets ----------

  /** What one turn of the agent goroutine meets: how far the reader gets meanwhile, and who wins. */
  datatype Turn = Turn(
    raw: string, result: Json,
    idle: seq<string>, sending: seq<string>, sendWorks: bool,
    waiting: seq<string>, timerFirst: bool, expired: seq<string>, writing: seq<string>)

  /** The turn's line, if it parses. */
  function HeardIn(cfg: Config, turn: Turn): seq<string> {
    if turn.raw != "" && cfg.parse(turn.raw).Some? then [turn.raw] else []
  }

  /** The lines that parse. */
  function Heard(cfg: Config, turns: seq<Turn>): seq<string> {
    if turns == [] then []
    else
      var last := |turns| - 1;
      Heard(cfg, turns[..last]) + HeardIn(cfg, turns[last])
  }

  /** What the agent goroutine has read, sent and written is the same; the reader may have read on. */
  ghost predicate SameRecords(s: State, t: State) {
    && t.requests == s.requests && t.replies == s.replies
    && t.read == s.read && t.sent == s.sent && s.lines <= t.lines
  }

  /** The reader has changed nothing that is the agent goroutine's own. */
  ghost predicate SameAgent(s: State, t: State) {
    t.agent == s.agent && SameRecords(s, t)
  }

  // ---------- the reader's steps ----------

  /** The reader's next step; raw is the line it reads, if that is what it does next. */
  function ReaderEvent(s: State, raw: string): Event {
    match s.reader
    case Reading => ReaderReads(raw)
    case Handing(_, _) => HandsOver
    case Relaying(_) => Relays
  }

  /** Where one step after the other takes the reader; it always can take one. */
  function Moved(cfg: Config, s: State, lines: seq<string>): State {
    if lines == [] then s
    else
      var last := |lines| - 1;
      var t := Moved(cfg, s, lines[..last]);
      match Step(cfg, t, ReaderEvent(t, lines[last]))
      case None => t
      case Some(u) => u
  }

  // ---------- one forwarded request ----------

  /** The state in which the select is reached, if the send works. */
  function AtSelect(cfg: Config, s: State, turn: Turn): State {
    var sending := Moved(cfg, AgentReadsLine(cfg, s, turn.raw), turn.sending);
    Moved(cfg, sending.(sent := sending.sent + [turn.raw], agent := Waiting), turn.waiting)
  }

  /** The channel of request r has its response. */
  predicate Ready(s: State, r: nat) {
    r < |s.channels| && s.channels[r].Holding?
  }

  predicate TakesResponse(cfg: Config, s: State, turn: Turn) {
    turn.sendWorks && Ready(AtSelect(cfg, s, turn), |s.requests|) && !turn.timerFirst
  }

  /** Why the reply is what it is. */
  predicate CauseIs(cfg: Config, s: State, turn: Turn, cause: Cause) {
    if !turn.sendWorks then cause == SendError
    else if TakesResponse(cfg, s, turn) then cause.Upstream?
    else cause == Timeout
  }

  /** A line with the request's id, read while the request was served, and finished to this reply. */
  ghost predicate ComesFromUpstream(cfg: Config, s: State, t: State, req: Message, reply: Message) {
    exists n: nat ::
      && |s.lines| <= n < |t.lines| && t.lines[n].msg.IsResponse() && t.lines[n].msg.id == req.id
      && cfg.finish(req, t.lines[n].msg) == Some(reply)
  }

  /** The one reply to a forwarded request: an error of its own, or what the response came to. */
  ghost predicate Answers(cfg: Config, s: State, t: State, turn: Turn, req: Message, reply: Message) {
    && reply.id == req.id && reply.IsResponse()
    && if !turn.sendWorks then reply == ErrorReply(req, SendError)
       else if TakesResponse(cfg, s, turn) then ComesFromUpstream(cfg, s, t, req, reply)
       else reply == ErrorReply(req, Timeout)
  }

  lemma ClaimsAreOfReadRequests(cfg: Config, s: State)
    requires Inv(cfg, s)
    ensures forall n | 0 <= n < |s.lines| && s.lines[n].to.Some? :: s.lines[n].to.value < |s.requests|
  {
    forall n | 0 <= n < |s.lines| && s.lines[n].to.Some?
      ensures s.lines[n].to.value < |s.requests|
    {
      assert LineOk(s, n);
    }
  }

  lemma ForwardedIsAnswered(cfg: Config, s: State, t: State, turn: Turn, req: Message, reply: Reply)
    requires cfg.Valid() && Reachable(cfg, s) && Reachable(cfg, t) && s.agent.Idle? && t.agent.Idle?
    requires t.requests == s.requests + [req] && t.replies == s.replies + [reply] && s.lines <= t.lines
    requires !cfg.isLocal(req) && CauseIs(cfg, s, turn, reply.cause)
    ensures t.pending == map[] && Answers(cfg, s, t, turn, req, reply.msg)
  {
    var events := LeadsIsARun(cfg, INITIAL, s);
    ReachedHasInv(cfg, events, s);
    var more := LeadsIsARun(cfg, INITIAL, t);
    ReachedHasInv(cfg, more, t);
    var r := |s.requests|;
    assert RequestOk(cfg, t, r) && t.requests[r] == req;
    assert ReplyOf(t, r) == Some(reply);
    assert t.replies[..|s.replies|] == s.replies;
    if reply.cause.Upstream? {
      ClaimsAreOfReadRequests(cfg, s);
      assert t.lines[reply.cause.line].to == Some(r);
      assert ComesFromUpstream(cfg, s, t, req, reply.msg);
    }
  }

  /** These are the replies, so far, to these requests: in their order, each under its own id. */
  ghost predicate Answer(replies: seq<Message>, requests: seq<Message>) {
    && |replies| <= |requests|
    && forall r | 0 <= r < |replies| :: replies[r].id == requests[r].id && replies[r].IsResponse()
  }

  lemma IdleIsSettled(cfg: Config, s: State)
    requires cfg.Valid() && Reachable(cfg, s) && s.agent.Idle?
    ensures s.pending == map[] && s.sent == Forwarded(cfg, s.read)
    ensures Answer(Messages(s.replies), Requests(cfg, s.read)) && |s.replies| == |Requests(cfg, s.read)|
  {
    var events := LeadsIsARun(cfg, INITIAL, s);
    PendingHoldsOnlyTheCurrentRequest(cfg, events, s);
    AgentLinesAreSentVerbatim(cfg, events, s);
    EveryRequestIsAnsweredOnceInOrder(cfg, events, s);
  }

  lemma UnclaimedIsRelayed(cfg: Config, s: State)
    requires cfg.Valid() && Reachable(cfg, s)
    ensures s.relayed + (if s.reader.Relaying? then [s.reader.raw] else []) == Unclaimed(s.lines)
  {
    var events := LeadsIsARun(cfg, INITIAL, s);
    ReachedHasInv(cfg, events, s);
  }

  // ---------- the object ----------

  class Pipe {
    const cfg: Config
    var pending: map<string, Slot>
    var sent: seq<string>
    var out: seq<Output>
    var hand: Hand
    ghost var s: State
    ghost var slots: map<nat, Slot>

    /** Each channel of the history that has been made is an object, with what it holds. */
    ghost predicate SlotsOk()
      reads this, slots.Values
    {
      && (forall r: nat :: r in slots <==> r < |s.channels| && s.channels[r] != NotMade)
      && (forall r: nat | r in slots ::
            && slots[r].request == r
            && if s.channels[r].Holding? then
                 && s.channels[r].line < |s.lines|
                 && slots[r].content == Some(s.lines[s.channels[r].line].msg)
               else slots[r].content == None)
    }

    ghost predicate PendingOk()
      reads this
    {
      && pending.Keys == s.pending.Keys
      && forall id | id in pending :: s.pending[id] in slots && pending[id] == slots[s.pending[id]]
    }

    ghost predicate HandOk()
      reads this
    {
      match s.reader
      case Reading => hand == Empty
      case Handing(n, ch) => n < |s.lines| && ch in slots && hand == Deliver(slots[ch], s.lines[n].msg)
      case Relaying(raw) => hand == Relay(raw)
    }

    ghost predicate OutputsOk()
      reads this
    {
      sent == s.sent && RelaysIn(out) == s.relayed && RepliesIn(out) == Messages(s.replies)
    }

    ghost predicate Valid()
      reads this, slots.Values
    {
      cfg.Valid() && Reachable(cfg, s) && SlotsOk() && PendingOk() && HandOk() && OutputsOk()
    }

    constructor (cfg: Config)
      requires cfg.Valid()
      ensures Valid() && this.cfg == cfg && s == INITIAL && slots == map[]
    {
      this.cfg := cfg;
      pending, sent, out, hand := map[], [], [], Empty;
      s, slots := INITIAL, map[];
    }

    // ---------- the reader goroutine ----------

    /** The reader's next step; raw is the line it reads, if it comes to read one. */
    method ReaderMoves(raw: string)
      requires Valid() && !s.agent.Crashed?
      modifies this`pending, this`out, this`hand, this`s, slots.Values
      ensures Valid() && SameAgent(old(s), s) && Leads(cfg, old(s), s)
      ensures Some(s) == Step(cfg, old(s), ReaderEvent(old(s), raw))
    {
      match hand
      case Empty => ReadLine(raw);
      case Deliver(slot, msg) => HandOver(slot, msg);
      case Relay(line) => RelayLine(line);
    }

    method ReadLine(raw: string)
      requires Valid() && !s.agent.Crashed? && hand.Empty?
      modifies this`pending, this`hand, this`s
      ensures Valid() && SameAgent(old(s), s) && Leads(cfg, old(s), s)
      ensures s == ReaderReadsLine(cfg, old(s), raw)
    {
      if raw == "" {
        return;
      }
      var parsed := cfg.parse(raw);
      if parsed.None? {
        return;
      }
      var msg := parsed.value;
      if msg.IsResponse() {
        var id := msg.IDString();
        if id in pending {
          TakeEntry(raw, msg);
          return;
        }
      }
      KeepForRelay(raw, msg);
    }

    method TakeEntry(raw: string, msg: Message)
      requires Valid() && !s.agent.Crashed? && hand.Empty?
      requires raw != "" && cfg.parse(raw) == Some(msg) && msg.IsResponse() && msg.IDString() in pending
      modifies this`pending, this`hand, this`s
      ensures Valid() && SameAgent(old(s), s) && Leads(cfg, old(s), s)
      ensures s == ReaderReadsLine(cfg, old(s), raw)
    {
      var id := msg.IDString();
      ghost var ch := s.pending[id];
      ClaimedState(cfg, s, raw, msg);
      var slot := pending[id];
      pending := pending - {id};
      hand := Deliver(slot, msg);
      s := ReaderReadsLine(cfg, s, raw);
      assert s.channels == old(s).channels[ch := Promised(|old(s).lines|)];
      assert SlotsOk();
    }

    method KeepForRelay(raw: string, msg: Message)
      requires Valid() && !s.agent.Crashed? && hand.Empty?
      requires raw != "" && cfg.parse(raw) == Some(msg) && !(msg.IsResponse() && msg.IDString() in pending)
      modifies this`hand, this`s
      ensures Valid() && SameAgent(old(s), s) && Leads(cfg, old(s), s)
      ensures s == ReaderReadsLine(cfg, old(s), raw)
    {
      StepLeads(cfg, s, ReaderReads(raw), ReaderReadsLine(cfg, s, raw));
      s := ReaderReadsLine(cfg, s, raw);
      hand := Relay(raw);
    }

    /** ch <- msg, which never blocks: the slot is empty. */
    method HandOver(slot: Slot, msg: Message)
      requires Valid() && !s.agent.Crashed? && hand == Deliver(slot, msg)
      modifies this`hand, this`s, slots.Values
      ensures Valid() && SameAgent(old(s), s) && Leads(cfg, old(s), s)
      ensures Some(s) == HandedOver(old(s))
    {
      ReachableIsSound(cfg, s);
      assert slot.content.None?;
      StepLeads(cfg, s, HandsOver, HandedOver(s).value);
      s := HandedOver(s).value;
      slot.content := Some(msg);
      hand := Empty;
    }

    method RelayLine(line: string)
      requires Valid() && !s.agent.Crashed? && hand == Relay(line)
      modifies this`out, this`hand, this`s
      ensures Valid() && SameAgent(old(s), s) && Leads(cfg, old(s), s)
      ensures s == old(s).(relayed := old(s).relayed + [line], reader := Reading)
    {
      ghost var t := s.(relayed := s.relayed + [line], reader := Reading);
      StepLeads(cfg, s, Relays, t);
      OutputAppend(out, Relayed(line));
      s := t;
      out := out + [Relayed(line)];
      hand := Empty;
    }

    /** The reader makes some of its steps; nothing of the agent goroutine's changes. */
    method LetReaderMove(lines: seq<string>)
      requires Valid() && !s.agent.Crashed?
      modifies this`pending, this`out, this`hand, this`s, slots.Values
      ensures Valid() && SameAgent(old(s), s) && Leads(cfg, old(s), s)
      ensures s == Moved(cfg, old(s), lines)
    {
      for i := 0 to |lines|
        invariant Valid() && SameAgent(old(s), s) && Leads(cfg, old(s), s)
        invariant s == Moved(cfg, old(s), lines[..i])
      {
        ghost var before := s;
        ReaderMoves(lines[i]);
        LeadsOn(cfg, old(s), before, s);
        assert lines[..i + 1][..i] == lines[..i];
      }
      assert lines[..|lines|] == lines;
    }

    // ---------- the agent goroutine ----------

    /** A new channel for the request, under its id. */
    method Register(raw: string, msg: Message) returns (slot: Slot)
      requires Valid() && s.agent.Idle? && raw != "" && cfg.parse(raw) == Some(msg)
      requires msg.IsRequest() && !cfg.isLocal(msg)
      modifies this`pending, this`s, this`slots
      ensures Valid() && fresh(slot) && slots == old(slots)[|old(s.requests)| := slot]
      ensures s.agent == Registered(raw) && Leads(cfg, old(s), s) && s == AgentReadsLine(cfg, old(s), raw)
      ensures s.read == old(s.read) + [raw] && s.requests == old(s.requests) + [msg]
      ensures s.sent == old(s.sent) && s.replies == old(s.replies) && s.lines == old(s.lines)
    {
      ghost var r := |s.requests|;
      slot := new Slot(r);
      pending := pending[msg.IDString() := slot];
      slots := slots[r := slot];
      RegisteredState(cfg, s, raw, msg);
      s := s.(agent := Registered(raw), read := s.read + [raw], requests := s.requests + [msg],
              channels := s.channels + [Awaiting], pending := s.pending[msg.IDString() := r]);
      assert SlotsOk();
      assert PendingOk();
    }

    method SendUp(raw: string, works: bool)
      requires Valid() && (s.agent == Registered(raw) || s.agent == Passing(raw))
      modifies this`sent, this`s
      ensures Valid() && sent == old(sent) + [raw]
      ensures Leads(cfg, old(s), s) && s == old(s).(sent := old(s).sent + [raw], agent :=
        if old(s).agent.Passing? then Idle else if works then Waiting else SendFailed)
    {
      ghost var t := SendReturned(s, works).value;
      StepLeads(cfg, s, SendReturns(works), t);
      s := t;
      sent := sent + [raw];
    }

    /** Upstream.Send of the line that has just been read, while the reader goes on. */
    method Send(turn: Turn)
      requires Valid() && (s.agent == Registered(turn.raw) || s.agent == Passing(turn.raw))
      modifies this`pending, this`sent, this`out, this`hand, this`s, slots.Values
      ensures Valid() && Leads(cfg, old(s), s) && sent == old(sent) + [turn.raw]
      ensures
        var sending := Moved(cfg, old(s), turn.sending);
        SameAgent(old(s), sending) && s == sending.(sent := sending.sent + [turn.raw], agent :=
          if old(s).agent.Passing? then Idle else if turn.sendWorks then Waiting else SendFailed)
    {
      LetReaderMove(turn.sending);
      ghost var sending := s;
      SendUp(turn.raw, turn.sendWorks);
      LeadsOn(cfg, old(s), sending, s);
    }

    /** The timer fires, and the select takes its case. */
    method Expire()
      requires Valid() && s.agent.Waiting?
      modifies this`s
      ensures Valid() && s == old(s).(agent := TimedOut) && Leads(cfg, old(s), s)
    {
      StepLeads(cfg, s, TimerFires, s.(agent := TimedOut));
      s := s.(agent := TimedOut);
    }

    /** delete(p.pending, id), and the error that is the reply. */
    method DropEntry(msg: Message, cause: Cause) returns (reply: Message)
      requires Valid() && (s.agent.SendFailed? || s.agent.TimedOut?) && s.requests != []
      requires s.requests[Current(s)] == msg && cause == if s.agent.TimedOut? then Timeout else SendError
      modifies this`pending, this`s
      ensures Valid() && reply == ErrorReply(msg, cause)
      ensures Some(s) == EntryDropped(old(s)) && Leads(cfg, old(s), s) && s.agent.reply.msg == reply
    {
      ghost var t := EntryDropped(s).value;
      StepLeads(cfg, s, DropsEntry, t);
      s := t;
      pending := pending - {msg.IDString()};
      reply := ErrorReply(msg, cause);
    }

    /** resp := <-ch, and what is written for it; None when making that panics. */
    method Take(slot: Slot, msg: Message) returns (reply: Option<Message>)
      requires Valid() && s.agent.Waiting? && s.requests != [] && s.requests[Current(s)] == msg
      requires Current(s) in slots && slot == slots[Current(s)] && slot.content.Some?
      requires Current(s) < |s.channels| && s.channels[Current(s)].Holding?
      modifies slot, this`s
      ensures Valid() && Leads(cfg, old(s), s) && SameRecords(old(s), s)
      ensures var n := old(s).channels[Current(s)].line;
        s.agent == if reply.Some? then Replying(Reply(reply.value, Upstream(n))) else Crashed(n)
    {
      ghost var t := Received(cfg, s).value;
      StepLeads(cfg, s, Receives, t);
      s := t;
      reply := cfg.finish(msg, slot.content.value);
      slot.content := None;
    }

    method WriteReply(reply: Message)
      requires Valid() && s.agent.Replying? && s.agent.reply.msg == reply
      modifies this`out, this`s
      ensures Valid() && RepliesIn(out) == old(RepliesIn(out)) + [reply]
      ensures Some(s) == Step(cfg, old(s), WritesReply) && Leads(cfg, old(s), s)
    {
      ghost var t := s.(replies := s.replies + [s.agent.reply], agent := Idle);
      StepLeads(cfg, s, WritesReply, t);
      MessagesAppend(s.replies, s.agent.reply);
      OutputAppend(out, Replied(reply));
      s := t;
      out := out + [Replied(reply)];
    }

    /** The way out of forwardRequest after a failed send or a timeout. */
    method GiveUp(turn: Turn, msg: Message, cause: Cause) returns (reply: Message)
      requires Valid() && (s.agent.SendFailed? || s.agent.TimedOut?) && s.requests != []
      requires s.requests[Current(s)] == msg && cause == if s.agent.TimedOut? then Timeout else SendError
      modifies this`pending, this`out, this`hand, this`s, slots.Values
      ensures Valid() && SameRecords(old(s), s) && Leads(cfg, old(s), s)
      ensures reply == ErrorReply(msg, cause) && s.agent == Replying(Reply(reply, cause))
    {
      LetReaderMove(turn.expired);
      ghost var before := s;
      reply := DropEntry(msg, cause);
      LeadsOn(cfg, old(s), before, s);
    }

    /** The timer's case of the select. */
    method TimeOut(turn: Turn, msg: Message) returns (reply: Message)
      requires Valid() && s.agent.Waiting? && s.requests != [] && s.requests[Current(s)] == msg
      modifies this`pending, this`out, this`hand, this`s, slots.Values
      ensures Valid() && SameRecords(old(s), s) && Leads(cfg, old(s), s)
      ensures reply == ErrorReply(msg, Timeout) && s.agent == Replying(Reply(reply, Timeout))
    {
      Expire();
      ghost var expired := s;
      reply := GiveUp(turn, msg, Timeout);
      LeadsOn(cfg, old(s), expired, s);
    }

    /** The select: the response or the timer, whichever comes first, and either if both are there. */
    method Await(turn: Turn, msg: Message, slot: Slot) returns (reply: Option<Message>)
      requires Valid() && s.agent.Waiting? && s.requests != [] && s.requests[Current(s)] == msg
      requires Current(s) in slots && slot == slots[Current(s)]
      modifies this`pending, this`out, this`hand, this`s, slots.Values
      ensures Valid() && SameRecords(old(s), s) && Leads(cfg, old(s), s)
      ensures if reply.Some? then s.agent.Replying? && s.agent.reply.msg == reply.value else s.agent.Crashed?
      ensures
        var takes := Ready(Moved(cfg, old(s), turn.waiting), Current(old(s))) && !turn.timerFirst;
        if reply.None? then takes
        else if takes then s.agent.reply.cause.Upstream?
        else s.agent.reply.cause == Timeout
    {
      LetReaderMove(turn.waiting);
      ghost var before := s;
      if slot.content.Some? && !turn.timerFirst {
        reply := Take(slot, msg);
      } else {
        var error := TimeOut(turn, msg);
        reply := Some(error);
      }
      LeadsOn(cfg, old(s), before, s);
    }

    /** forwardRequest up to the return of Send. */
    method RegisterAndSend(turn: Turn, msg: Message) returns (slot: Slot)
      requires Valid() && s.agent.Idle? && turn.raw != "" && cfg.parse(turn.raw) == Some(msg)
      requires msg.IsRequest() && !cfg.isLocal(msg)
      modifies this, slots.Values
      ensures Valid() && fresh(slots.Values - old(slots.Values)) && Leads(cfg, old(s), s)
      ensures s.read == old(s.read) + [turn.raw] && s.sent == old(s.sent) + [turn.raw]
      ensures s.requests == old(s.requests) + [msg] && s.replies == old(s.replies) && old(s.lines) <= s.lines
      ensures Current(s) in slots && slot == slots[Current(s)]
      ensures s.agent == if turn.sendWorks then Waiting else SendFailed
      ensures turn.sendWorks ==> Moved(cfg, s, turn.waiting) == AtSelect(cfg, old(s), turn)
    {
      ghost var before := s;
      slot := Register(turn.raw, msg);
      ghost var registered := s;
      Send(turn);
      LeadsOn(cfg, before, registered, s);
    }

    /** forwardRequest up to the reply. */
    method Exchange(turn: Turn, msg: Message) returns (reply: Option<Message>)
      requires Valid() && s.agent.Idle? && turn.raw != "" && cfg.parse(turn.raw) == Some(msg)
      requires msg.IsRequest() && !cfg.isLocal(msg)
      modifies this, slots.Values
      ensures Valid() && fresh(slots.Values - old(slots.Values)) && Leads(cfg, old(s), s)
      ensures s.read == old(s.read) + [turn.raw] && s.sent == old(s.sent) + [turn.raw]
      ensures s.requests == old(s.requests) + [msg] && s.replies == old(s.replies) && old(s.lines) <= s.lines
      ensures if reply.Some? then s.agent.Replying? && s.agent.reply.msg == reply.value else s.agent.Crashed?
      ensures RepliesIn(out) == old(RepliesIn(out))
      ensures if reply.Some? then CauseIs(cfg, old(s), turn, s.agent.reply.cause) else TakesResponse(cfg, old(s), turn)
    {
      var slot := RegisterAndSend(turn, msg);
      ghost var sent := s;
      if turn.sendWorks {
        reply := Await(turn, msg, slot);
      } else {
        var error := GiveUp(turn, msg, SendError);
        reply := Some(error);
      }
      LeadsOn(cfg, old(s), sent, s);
    }

    /** The reply is written, after whatever the reader still does before it. */
    method Finish(turn: Turn, reply: Message)
      requires Valid() && s.agent.Replying? && s.agent.reply.msg == reply
      modifies this`pending, this`out, this`hand, this`s, slots.Values
      ensures Valid() && Leads(cfg, old(s), s) && s.agent.Idle?
      ensures s.requests == old(s.requests) && s.read == old(s.read) && s.sent == old(s.sent)
      ensures s.replies == old(s.replies) + [old(s).agent.reply] && old(s.lines) <= s.lines
      ensures RepliesIn(out) == old(RepliesIn(out)) + [reply]
    {
      LetReaderMove(turn.writing);
      ghost var before := s;
      WriteReply(reply);
      LeadsOn(cfg, old(s), before, s);
    }

    /**
     A request that goes upstream. Whatever the reader does meanwhile, the line is sent once, and
     unless the response cannot be finished, one reply is written under the request's id: what
     becomes of a response to it that was read in the meantime, if it is there and taken before the
     timer fires, and an error otherwise. On every path the entry is gone.
     */
    method ForwardRequest(turn: Turn, msg: Message) returns (reply: Option<Message>)
      requires Valid() && s.agent.Idle? && turn.raw != "" && cfg.parse(turn.raw) == Some(msg)
      requires msg.IsRequest() && !cfg.isLocal(msg)
      modifies this, slots.Values
      ensures Valid() && fresh(slots.Values - old(slots.Values)) && Leads(cfg, old(s), s)
      ensures s.read == old(s.read) + [turn.raw] && sent == old(sent) + [turn.raw]
      ensures reply.None? ==>
        s.agent.Crashed? && TakesResponse(cfg, old(s), turn) && RepliesIn(out) == old(RepliesIn(out))
      ensures reply.Some? ==>
        && s.agent.Idle? && pending == map[]
        && RepliesIn(out) == old(RepliesIn(out)) + [reply.value]
        && Answers(cfg, old(s), s, turn, msg, reply.value)
    {
      ghost var before := s;
      reply := Exchange(turn, msg);
      if reply.Some? {
        ghost var replying := s;
        Finish(turn, reply.value);
        LeadsOn(cfg, before, replying, s);
        assert before.lines <= s.lines;
        ForwardedIsAnswered(cfg, before, s, turn, msg, replying.agent.reply);
        assert pending == map[];
      }
    }

    /** A notification, or a response to a server: sent, and nothing comes of it here. */
    method PassOn(turn: Turn, msg: Message)
      requires Valid() && s.agent.Idle? && turn.raw != "" && cfg.parse(turn.raw) == Some(msg) && !msg.IsRequest()
      modifies this`pending, this`sent, this`out, this`hand, this`s, slots.Values
      ensures Valid() && Leads(cfg, old(s), s) && s.agent.Idle? && s.read == old(s.read) + [turn.raw]
      ensures sent == old(sent) + [turn.raw] && RepliesIn(out) == old(RepliesIn(out))
    {
      ghost var before := s;
      ghost var t := s.(read := s.read + [turn.raw], agent := Passing(turn.raw));
      StepLeads(cfg, s, AgentReads(turn.raw), t);
      s := t;
      Send(turn);
      LeadsOn(cfg, before, t, s);
    }

    /** A call of an injected tool: answered here with the tool's result, and upstream hears nothing of it. */
    method HandleLocally(turn: Turn, msg: Message)
      requires Valid() && s.agent.Idle? && turn.raw != "" && cfg.parse(turn.raw) == Some(msg)
      requires msg.IsRequest() && cfg.isLocal(msg)
      modifies this`pending, this`out, this`hand, this`s, slots.Values
      ensures Valid() && Leads(cfg, old(s), s) && s.agent.Idle? && s.read == old(s.read) + [turn.raw]
      ensures sent == old(sent)
      ensures RepliesIn(out) == old(RepliesIn(out)) + [Message(msg.id, "", None, Some(turn.result), None)]
    {
      ghost var before := s;
      StartCall(turn.raw, msg);
      ghost var started := s;
      LetReaderMove(turn.waiting);
      ghost var handled := s;
      LeadsOn(cfg, before, started, handled);
      var reply := NewResultResponse(msg.id, turn.result);
      EndCall(msg, turn.result);
      ghost var replying := s;
      LeadsOn(cfg, before, handled, replying);
      Finish(turn, reply);
      LeadsOn(cfg, before, replying, s);
    }

    ghost method StartCall(raw: string, msg: Message)
      requires Valid() && s.agent.Idle? && raw != "" && cfg.parse(raw) == Some(msg)
      requires msg.IsRequest() && cfg.isLocal(msg)
      modifies this`s
      ensures Valid() && Leads(cfg, old(s), s)
      ensures s == old(s).(read := old(s).read + [raw], requests := old(s).requests + [msg],
                           channels := old(s).channels + [NotMade], agent := Handling)
    {
      ghost var t := s.(read := s.read + [raw], requests := s.requests + [msg],
                        channels := s.channels + [NotMade], agent := Handling);
      StepLeads(cfg, s, AgentReads(raw), t);
      s := t;
    }

    ghost method EndCall(msg: Message, result: Json)
      requires Valid() && s.agent.Handling? && s.requests != [] && s.requests[Current(s)] == msg
      modifies this`s
      ensures Valid() && Leads(cfg, old(s), s)
      ensures s == old(s).(agent := Replying(Reply(NewResultResponse(msg.id, result), Local)))
    {
      ghost var t := s.(agent := Replying(Reply(NewResultResponse(msg.id, result), Local)));
      StepLeads(cfg, s, ToolReturns(result), t);
      s := t;
    }

    /** One turn of readAgent's loop, with the wait for the line. */
    method TakeTurn(turn: Turn) returns (alive: bool)
      requires Valid() && s.agent.Idle?
      modifies this, slots.Values
      ensures Valid() && fresh(slots.Values - old(slots.Values)) && Leads(cfg, old(s), s)
      ensures (if alive then s.agent.Idle? else s.agent.Crashed?) && s.read == old(s.read) + HeardIn(cfg, turn)
    {
      ghost var before := s;
      LetReaderMove(turn.idle);
      ghost var idle := s;
      alive := HandleLine(turn);
      LeadsOn(cfg, before, idle, s);
    }

    /** The routing of one line. */
    method HandleLine(turn: Turn) returns (alive: bool)
      requires Valid() && s.agent.Idle?
      modifies this, slots.Values
      ensures Valid() && fresh(slots.Values - old(slots.Values)) && Leads(cfg, old(s), s)
      ensures (if alive then s.agent.Idle? else s.agent.Crashed?) && s.read == old(s.read) + HeardIn(cfg, turn)
    {
      if turn.raw == "" {
        return true;
      }
      var parsed := cfg.parse(turn.raw);
      if parsed.None? {
        return true;
      }
      var msg := parsed.value;
      if !msg.IsRequest() {
        PassOn(turn, msg);
      } else if cfg.isLocal(msg) {
        HandleLocally(turn, msg);
      } else {
        var reply := ForwardRequest(turn, msg);
        return reply.Some?;
      }
      return true;
    }

    /**
     readAgent. However the reader and the timers interleave with it, and unless a response cannot
     be finished: every parseable line has been read, nothing is pending, upstream has been sent
     exactly the lines that are not kept here, the replies that were written answer the requests one
     for one, in order, each under its own id, and the rest of what was written is what upstream sent
     and no request took.
     */
    method ReadAgent(turns: seq<Turn>) returns (alive: bool)
      requires Valid() && s.agent.Idle?
      modifies this, slots.Values
      ensures Valid() && fresh(slots.Values - old(slots.Values)) && Leads(cfg, old(s), s)
      ensures if alive then s.agent.Idle? else s.agent.Crashed?
      ensures alive ==>
        && s.read == old(s.read) + Heard(cfg, turns)
        && pending == map[] && sent == Forwarded(cfg, s.read)
        && Answer(RepliesIn(out), Requests(cfg, s.read)) && |RepliesIn(out)| == |Requests(cfg, s.read)|
        && RelaysIn(out) + (if hand.Relay? then [hand.raw] else []) == Unclaimed(s.lines)
    {
      for i := 0 to |turns|
        invariant Valid() && s.agent.Idle? && fresh(slots.Values - old(slots.Values))
        invariant Leads(cfg, old(s), s) && s.read == old(s.read) + Heard(cfg, turns[..i])
      {
        ghost var before := s;
        alive := TakeTurn(turns[i]);
        LeadsOn(cfg, old(s), before, s);
        if !alive {
          return;
        }
        assert turns[..i + 1][..i] == turns[..i];
      }
      assert turns[..|turns|] == turns;
      IdleIsSettled(cfg, s);
      UnclaimedIsRelayed(cfg, s);
      return true;
    }
  }
}
