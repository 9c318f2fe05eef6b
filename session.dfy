/**
 * One websocket connection of the backend: the registry of live connections, and the loop
 * that answers the client's envelopes until it disconnects or something goes wrong.
 *
 * The transport is not modelled: the frames the client sends are given as a sequence of
 * already-decoded events, the messages sent back are returned as a sequence, and running out
 * of events stands for the client disconnecting. `env(i)` is what the outside world answers
 * while event `i` is processed.
 */
module Session {
  import opened Text
  import opened Agent

  const GREETING: string := "Hello! I'm a voice assistant for NovaTech Solutions. How can I help you today?"

  const CLEARED_NOTICE: string := "Conversation history cleared."

  const MESSAGE_TYPE: string := "message"

  const CLEAR_TYPE: string := "clear_history"

  datatype Option<T> = None | Some(value: T)

  /** A decoded JSON object from the client: its "type" and "content" fields, when they are strings. */
  datatype Envelope = Envelope(kind: Option<string>, content: Option<string>)

  /**
   * What receiving the next frame gives: an envelope; a frame that is not a JSON object, with
   * the text of the exception it raises; or the client going away.
   */
  datatype Incoming = Frame(envelope: Envelope) | Malformed(detail: string) | Disconnect

  /** The messages the server sends, by their "type" field. */
  datatype Outbound =
    | Connected(greeting: string)
    | Typing(active: bool)
    | Response(text: string)
    | Cleared(notice: string)
    | Error(detail: string)

  /** The state of one connection: the agent's memory, what was sent, and whether the loop runs. */
  datatype Conn = Conn(memory: seq<Exchange>, sent: seq<Outbound>, open: bool)

  /** `message.get("content", "")`. */
  function ContentOf(e: Envelope): string {
    match e.content
    case None => ""
    case Some(text) => text
  }

  /** Just after the handshake: an empty memory and the greeting sent. */
  function Opened(): Conn {
    Conn([], [Connected(GREETING)], true)
  }

  /** One turn of the receive loop; a closed connection ignores everything. */
  function Step(setup: Setup, c: Conn, event: Incoming, oracles: Oracles): Conn {
    if !c.open then c
    else
      match event
      case Disconnect => c.(open := false)
      case Malformed(detail) => c.(sent := c.sent + [Error(detail)], open := false)
      case Frame(e) =>
        if e.kind == Some(MESSAGE_TYPE) then
          var text := ContentOf(e);
          var reply := Outcome(setup, c.memory, text, oracles);
          c.(memory := Remember(c.memory, text, reply), sent := c.sent + [Typing(true), Response(ReplyText(reply))])
        else if e.kind == Some(CLEAR_TYPE) then
          c.(memory := [], sent := c.sent + [Cleared(CLEARED_NOTICE)])
        else c
  }

  /** The connection after the given events, event `i` answered with `env(i)`. */
  function Run(setup: Setup, events: seq<Incoming>, env: nat -> Oracles): Conn {
    if events == [] then Opened()
    else Step(setup, Run(setup, events[..|events| - 1], env), Last(events), env(|events| - 1))
  }

  // ----- what the client sees ----------------------------------------------------------------

  /**
   * The shape of every transcript: the greeting first and only first; every typing indicator
   * is on and immediately followed by a response; an error is the last message and closes
   * the connection.
   */
  ghost predicate WellFormed(c: Conn) {
    && c.sent != [] && c.sent[0] == Connected(GREETING)
    && (forall j :: 0 < j < |c.sent| ==> !c.sent[j].Connected?)
    && (forall j :: 0 <= j < |c.sent| && c.sent[j].Typing? ==>
          c.sent[j].active && j + 1 < |c.sent| && c.sent[j + 1].Response?)
    && (forall j :: 0 <= j < |c.sent| && c.sent[j].Error? ==> j == |c.sent| - 1 && !c.open)
  }

  lemma StepWellFormed(setup: Setup, c: Conn, event: Incoming, oracles: Oracles)
    requires WellFormed(c)
    ensures WellFormed(Step(setup, c, event, oracles))
    ensures c.sent <= Step(setup, c, event, oracles).sent
  {
    var d := Step(setup, c, event, oracles);
    if c.open {
      var tail := d.sent[|c.sent|..];
      assert d.sent == c.sent + tail;
      assert WellFormedTail(tail, d.open);
      ExtendWellFormed(c, tail, d);
    }
  }

  /** The shape of what one turn appends, given whether the loop goes on afterwards. */
  ghost predicate WellFormedTail(tail: seq<Outbound>, open: bool) {
    && (forall j :: 0 <= j < |tail| ==> !tail[j].Connected?)
    && (forall j :: 0 <= j < |tail| && tail[j].Typing? ==>
          tail[j].active && j + 1 < |tail| && tail[j + 1].Response?)
    && (forall j :: 0 <= j < |tail| && tail[j].Error? ==> j == |tail| - 1 && !open)
  }

  /** Appending a well-formed tail to an open, well-formed transcript keeps it well formed. */
  lemma ExtendWellFormed(c: Conn, tail: seq<Outbound>, d: Conn)
    requires WellFormed(c) && c.open && WellFormedTail(tail, d.open) && d.sent == c.sent + tail
    ensures WellFormed(d)
  {
    var n := |c.sent|;
    forall j | 0 <= j < n ensures d.sent[j] == c.sent[j] && !c.sent[j].Error? {
    }
    forall j | n <= j < |d.sent| ensures d.sent[j] == tail[j - n] {
    }
  }

  /** Every transcript of the loop is well formed. */
  lemma {:induction false} RunWellFormed(setup: Setup, events: seq<Incoming>, env: nat -> Oracles)
    ensures WellFormed(Run(setup, events, env))
    decreases |events|
  {
    if events != [] {
      var init := events[..|events| - 1];
      RunWellFormed(setup, init, env);
      StepWellFormed(setup, Run(setup, init, env), Last(events), env(|events| - 1));
    }
  }

  /** Later events never change what was already sent: the transcript only grows. */
  lemma {:induction false} RunGrows(setup: Setup, events: seq<Incoming>, more: seq<Incoming>, env: nat -> Oracles)
    ensures Run(setup, events, env).sent <= Run(setup, events + more, env).sent
    decreases |more|
  {
    if more == [] {
      assert events + more == events;
    } else {
      var init := more[..|more| - 1];
      RunGrows(setup, events, init, env);
      assert (events + more)[..|events + more| - 1] == events + init;
      RunWellFormed(setup, events + init, env);
      StepWellFormed(setup, Run(setup, events + init, env), Last(more), env(|events + more| - 1));
    }
  }

  /** Once the loop has ended, further frames are never read: nothing changes. */
  lemma {:induction false} ClosedIgnores(setup: Setup, events: seq<Incoming>, more: seq<Incoming>, env: nat -> Oracles)
    requires !Run(setup, events, env).open
    ensures Run(setup, events + more, env) == Run(setup, events, env)
    decreases |more|
  {
    if more == [] {
      assert events + more == events;
    } else {
      var init := more[..|more| - 1];
      ClosedIgnores(setup, events, init, env);
      assert (events + more)[..|events + more| - 1] == events + init;
    }
  }

  /** A message envelope without content is answered as the empty text. */
  lemma MissingContent(setup: Setup, c: Conn, oracles: Oracles)
    ensures Step(setup, c, Frame(Envelope(Some(MESSAGE_TYPE), None)), oracles) ==
      Step(setup, c, Frame(Envelope(Some(MESSAGE_TYPE), Some(""))), oracles)
  {
  }

  /**
   * A message envelope adds exactly a typing indicator and one response carrying the agent's
   * reply; the memory gains the exchange only when the model answered.
   */
  lemma StepMessage(setup: Setup, c: Conn, e: Envelope, oracles: Oracles)
    requires c.open && e.kind == Some(MESSAGE_TYPE)
    ensures var d := Step(setup, c, Frame(e), oracles);
      var reply := Outcome(setup, c.memory, ContentOf(e), oracles);
      && d.open
      && d.sent == c.sent + [Typing(true), Response(ReplyText(reply))]
      && (reply.Answer? ==> d.memory == c.memory + [Exchange(ContentOf(e), reply.content)])
      && (reply.Failure? <==> d.memory == c.memory)
  {
  }

  /**
   * A clear_history envelope sends one notice and empties the memory, so the next message
   * reaches the model with no history at all.
   */
  lemma StepClear(setup: Setup, c: Conn, e: Envelope, oracles: Oracles)
    requires c.open && e.kind == Some(CLEAR_TYPE)
    ensures var d := Step(setup, c, Frame(e), oracles);
      && d.open
      && d.sent == c.sent + [Cleared(CLEARED_NOTICE)]
      && d.memory == []
      && LoadHistory(d.memory) == []
  {
  }

  /** An envelope of any other type is ignored: no message and no change. */
  lemma StepIgnoresOther(setup: Setup, c: Conn, e: Envelope, oracles: Oracles)
    requires e.kind != Some(MESSAGE_TYPE) && e.kind != Some(CLEAR_TYPE)
    ensures Step(setup, c, Frame(e), oracles) == c
  {
  }

  /** A malformed frame sends one error with the exception text and ends the loop. */
  lemma StepMalformed(setup: Setup, c: Conn, detail: string, oracles: Oracles)
    requires c.open
    ensures var d := Step(setup, c, Malformed(detail), oracles);
      && !d.open && d.memory == c.memory
      && d.sent == c.sent + [Error(detail)]
      && Last(d.sent) == Error(detail)
  {
  }

  // ----- the registry and the endpoint -------------------------------------------------------

  /** `active_connections`: the agent serving each connected client id. */
  class ConnectionRegistry {
    var active: map<string, VoiceAgent>

    constructor()
      ensures active == map[]
    {
      active := map[];
    }

    /** A client id maps to its new agent, replacing the entry of an earlier connection. */
    method Register(clientId: string, agent: VoiceAgent)
      modifies this
      ensures active == old(active)[clientId := agent]
    {
      active := active[clientId := agent];
    }

    /** The `finally` clause: the id is removed if it is still present. */
    method Deregister(clientId: string)
      modifies this
      ensures active == old(active) - {clientId}
    {
      if clientId in active {
        active := active - {clientId};
      }
    }
  }

  /**
   * The `try` block of `websocket_endpoint`: greet, then answer envelopes until the client
   * disconnects or a frame cannot be read.
   */
  method Serve(agent: VoiceAgent, events: seq<Incoming>, env: nat -> Oracles) returns (sent: seq<Outbound>)
    requires agent.Valid() && agent.memory == []
    modifies agent
    ensures sent == Run(Setup(agent.template, agent.store.chunks), events, env).sent
    ensures agent.memory == Run(Setup(agent.template, agent.store.chunks), events, env).memory
  {
    ghost var setup := Setup(agent.template, agent.store.chunks);
    sent := [Connected(GREETING)];
    var open := true;
    var i := 0;
    while open && i < |events|
      invariant 0 <= i <= |events|
      invariant agent.Valid() && Setup(agent.template, agent.store.chunks) == setup
      invariant Run(setup, events[..i], env) == Conn(agent.memory, sent, open)
      decreases |events| - i
    {
      assert events[..i + 1][..i] == events[..i];
      match events[i] {
        case Disconnect =>
          open := false;
        case Malformed(detail) =>
          sent := sent + [Error(detail)];
          open := false;
        case Frame(e) =>
          if e.kind == Some(MESSAGE_TYPE) {
            var text := if e.content.Some? then e.content.value else "";
            sent := sent + [Typing(true)];
            var reply := agent.ProcessMessage(text, env(i));
            sent := sent + [Response(reply)];
          } else if e.kind == Some(CLEAR_TYPE) {
            agent.ClearMemory();
            sent := sent + [Cleared(CLEARED_NOTICE)];
          }
      }
      i := i + 1;
    }
    if open {
      assert events[..i] == events;
    } else {
      ClosedIgnores(setup, events[..i], events[i..], env);
      assert events[..i] + events[i..] == events;
    }
  }

  /** `VoiceAgent()` for a new connection: a fresh agent of its own, with nothing remembered. */
  method NewAgent(folder: DataFolder) returns (agent: VoiceAgent)
    ensures fresh(agent) && fresh(agent.store)
    ensures agent.Valid() && agent.memory == [] && agent.store.chunks == StoreChunks(folder)
  {
    agent := new VoiceAgent(folder);
  }

  /**
   * `websocket_endpoint`: register a fresh agent, serve the connection, then deregister.
   * Only the registry and the new agent change, so no other connection's agent is touched.
   */
  method WebsocketEndpoint(
    registry: ConnectionRegistry, clientId: string, folder: DataFolder,
    events: seq<Incoming>, env: nat -> Oracles)
    returns (sent: seq<Outbound>, agent: VoiceAgent)
    modifies registry
    ensures fresh(agent)
    ensures sent == Run(Setup(agent.template, StoreChunks(folder)), events, env).sent
    ensures agent.memory == Run(Setup(agent.template, StoreChunks(folder)), events, env).memory
    ensures registry.active == old(registry.active) - {clientId}
  {
    agent := NewAgent(folder);
    registry.Register(clientId, agent);
    sent := Serve(agent, events, env);
    registry.Deregister(clientId);
  }
}
