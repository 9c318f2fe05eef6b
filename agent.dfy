/**
 * The voice agent of one connection: its windowed chat memory, the context it retrieves for a
 * question, the message list it sends to the language model, and how it records an exchange.
 *
 * The language model, the nearest-neighbour engine and the clock are not modelled: an
 * `Oracles` value supplies what they answer for one message.
 */
module Agent {
  import opened Text
  import opened Chunking
  import opened Retrieval

  /** The chat memory hands the model the last `WINDOW_SIZE` exchanges. */
  const WINDOW_SIZE: nat := 10

  /** The number of chunks asked of the vector store per message. */
  const SEARCH_K: nat := 4

  const NO_DOCUMENTS: string := "No company documents have been loaded yet."

  const APOLOGY: string := "I apologize, but I'm having trouble processing your request. Please try again."

  // The agent's system prompt template, cut at its two placeholders `{current_time}` and `{context}`.
  const PROMPT_HEAD: string :=
    "You are a voice assistant exclusively for NovaTech Solutions. \n"
    + "You ONLY answer questions related to NovaTech Solutions - its services, products, policies, and company information.\n"
    + "\n"
    + "STRICT RULES:\n"
    + "1. You ONLY answer questions about NovaTech Solutions\n"
    + "2. If a question is NOT related to NovaTech Solutions (like general knowledge, weather, math, other companies, personal questions, etc.), you MUST respond with: \"I can only answer questions related to NovaTech Solutions. Is there anything about our company, services, or products I can help you with?\"\n"
    + "3. Use the provided company context to answer NovaTech-related questions accurately\n"
    + "4. If information is not in the context but the question IS about NovaTech, say: \"I don't have that specific information about NovaTech Solutions. Can I help you with something else about our company?\"\n"
    + "5. Keep responses concise and suitable for voice (1-3 sentences)\n"
    + "6. Be professional and helpful\n"
    + "7. Current date/time: "

  const PROMPT_MIDDLE: string := "\n\nCOMPANY CONTEXT:\n"

  const PROMPT_TAIL: string :=
    "\n\nRemember: ONLY answer NovaTech Solutions related questions. Politely decline all other topics."

  /** The system prompt template of the agent: the text around its two placeholders. */
  const NOVATECH_TEMPLATE: Template := Template(PROMPT_HEAD, PROMPT_MIDDLE, PROMPT_TAIL)

  /** A prompt template cut at `{current_time}` and `{context}`. */
  datatype Template = Template(head: string, middle: string, tail: string)

  /** What an agent keeps fixed once built: its prompt template and the chunks of its store. */
  datatype Setup = Setup(template: Template, chunks: seq<string>)

  datatype Role = System | User | Assistant

  /** One entry of the message list sent to the model. */
  datatype ChatMessage = ChatMessage(role: Role, content: string)

  /** One saved exchange: the user's text and the model's answer. */
  datatype Exchange = Exchange(input: string, output: string)

  /** A message as the chat memory hands it back. */
  datatype StoredMessage = Human(content: string) | AI(content: string)

  /** What the model call gives: an answer, or an exception. */
  datatype Reply = Answer(content: string) | Failure

  /** What the outside world answers while one message is processed. */
  datatype Oracles = Oracles(nearest: Engine, generate: seq<ChatMessage> -> Reply, now: string)

  /** The `data` folder next to the backend: missing, or its PDF files in glob order. */
  datatype DataFolder = Missing | Present(files: seq<seq<string>>)

  // ----- context and prompt ------------------------------------------------------------------

  /** `_get_relevant_context`: the fallback sentence, or the results separated by blank lines. */
  function RelevantContext(results: seq<string>): string {
    if results == [] then NO_DOCUMENTS else Join(results, BLANK_LINE)
  }

  /**
   * The context hands the model exactly the retrieved chunks: splitting it at blank lines
   * gives them back, since no chunk holds a blank line or ends with a newline.
   */
  lemma ContextRecoversResults(results: seq<string>)
    requires results != []
    requires forall c :: c in results ==> Trimmed(c) && NoBlankLine(c)
    ensures SplitBlankLines(RelevantContext(results)) == results
  {
    forall c | c in results ensures NoBlankLine(c) && !EndsWithNewline(c) {
      assert IsSpace('\n');
    }
    SplitJoin(results);
  }

  /** Without results the model is told that no documents are loaded. */
  lemma ContextWithoutResults()
    ensures SplitBlankLines(RelevantContext([])) == [NO_DOCUMENTS]
  {
    assert NoBlankLine(NO_DOCUMENTS) by {
      forall i | 0 <= i < |NO_DOCUMENTS| ensures !BlankLineAt(NO_DOCUMENTS, i) {
        assert NO_DOCUMENTS[i] != '\n';
      }
    }
    SplitWhole(NO_DOCUMENTS);
  }

  /** `_get_system_prompt`: the template with the time and the context put in verbatim. */
  function SystemPrompt(template: Template, now: string, context: string): string {
    template.head + now + template.middle + context + template.tail
  }

  /**
   * Each placeholder's value can be read back from its place in the prompt: the values are
   * inserted as they are, whatever they contain.
   */
  lemma PromptCarries(template: Template, now: string, context: string)
    ensures var p := SystemPrompt(template, now, context);
      var h := |template.head|;
      var at := h + |now| + |template.middle|;
      && |p| == at + |context| + |template.tail|
      && p[..h] == template.head
      && p[h..h + |now|] == now
      && p[at..at + |context|] == context
      && p[at + |context|..] == template.tail
  {
    var p := SystemPrompt(template, now, context);
    var h := |template.head|;
    var at := h + |now| + |template.middle|;
    assert p == (template.head + now + template.middle) + context + template.tail;
    assert p[..at] == template.head + now + template.middle;
    assert p[..at][..h] == p[..h];
    assert p[..at][h..h + |now|] == p[h..h + |now|];
  }

  // ----- chat memory -------------------------------------------------------------------------

  /** The messages the chat memory stores: the user's text, then the answer, per exchange. */
  function Buffer(memory: seq<Exchange>): (msgs: seq<StoredMessage>)
    ensures |msgs| == 2 * |memory|
    ensures forall j :: 0 <= j < |memory| ==>
      msgs[2 * j] == Human(memory[j].input) && msgs[2 * j + 1] == AI(memory[j].output)
  {
    if memory == [] then []
    else
      var e := Last(memory);
      Buffer(memory[..|memory| - 1]) + [Human(e.input), AI(e.output)]
  }

  /** The last `WINDOW_SIZE` exchanges. */
  function Window(memory: seq<Exchange>): (w: seq<Exchange>)
    ensures |w| <= WINDOW_SIZE && |w| <= |memory| && w == memory[|memory| - |w|..]
    ensures |w| == WINDOW_SIZE || w == memory
  {
    if |memory| <= WINDOW_SIZE then memory else memory[|memory| - WINDOW_SIZE..]
  }

  /** What the memory loads as history: the last `2 * WINDOW_SIZE` stored messages. */
  function LoadHistory(memory: seq<Exchange>): (h: seq<StoredMessage>)
    ensures var msgs := Buffer(memory); |h| <= 2 * WINDOW_SIZE && |h| <= |msgs| && h == msgs[|msgs| - |h|..]
    ensures |h| == 2 * WINDOW_SIZE || h == Buffer(memory)
  {
    var msgs := Buffer(memory);
    if |msgs| <= 2 * WINDOW_SIZE then msgs else msgs[|msgs| - 2 * WINDOW_SIZE..]
  }

  lemma BufferAppend(a: seq<Exchange>, b: seq<Exchange>)
    ensures Buffer(a + b) == Buffer(a) + Buffer(b)
  {
    var l, r := Buffer(a + b), Buffer(a) + Buffer(b);
    assert |l| == |r|;
    forall i | 0 <= i < |l| ensures l[i] == r[i] {
      var j := i / 2;
      if j < |a| {
        assert (a + b)[j] == a[j];
      } else {
        assert (a + b)[j] == b[j - |a|];
      }
    }
  }

  /**
   * The history is whole exchanges: the user and answer messages of the last ten exchanges,
   * never an answer without its question.
   */
  lemma HistoryIsWindow(memory: seq<Exchange>)
    ensures LoadHistory(memory) == Buffer(Window(memory))
    ensures |LoadHistory(memory)| <= 2 * WINDOW_SIZE
  {
    if |memory| > WINDOW_SIZE {
      var cut := |memory| - WINDOW_SIZE;
      assert memory == memory[..cut] + memory[cut..];
      BufferAppend(memory[..cut], memory[cut..]);
    }
  }

  /** Saving an exchange slides the window: the oldest exchange drops out once ten are held. */
  lemma WindowSlides(memory: seq<Exchange>, e: Exchange)
    ensures Window(memory + [e]) ==
      (if |memory| < WINDOW_SIZE then Window(memory) else Window(memory)[1..]) + [e]
  {
    var m := memory + [e];
    if |memory| >= WINDOW_SIZE {
      assert m[|m| - WINDOW_SIZE..] == memory[|memory| - WINDOW_SIZE..][1..] + [e];
    }
  }

  // ----- the message list --------------------------------------------------------------------

  /** The role a stored message is sent with. */
  function AsChat(m: StoredMessage): ChatMessage {
    match m
    case Human(text) => ChatMessage(User, text)
    case AI(text) => ChatMessage(Assistant, text)
  }

  /** The history as chat messages, in stored order. */
  function ChatHistory(history: seq<StoredMessage>): (ms: seq<ChatMessage>)
    ensures |ms| == |history|
    ensures forall j :: 0 <= j < |history| ==> ms[j] == AsChat(history[j])
  {
    if history == [] then [] else ChatHistory(history[..|history| - 1]) + [AsChat(Last(history))]
  }

  /** The message list of `process_message`. */
  function BuildMessages(prompt: string, history: seq<StoredMessage>, message: string): seq<ChatMessage> {
    [ChatMessage(System, prompt)] + ChatHistory(history) + [ChatMessage(User, message)]
  }

  /**
   * The model sees the system prompt first, then the windowed exchanges in stored order, each
   * as a user message followed by an assistant message, then the new user text last.
   */
  lemma MessagesLayout(prompt: string, memory: seq<Exchange>, message: string)
    ensures var ms := BuildMessages(prompt, LoadHistory(memory), message);
      var w := Window(memory);
      && |ms| == 2 * |w| + 2 <= 2 * WINDOW_SIZE + 2
      && ms[0] == ChatMessage(System, prompt)
      && ms[|ms| - 1] == ChatMessage(User, message)
      && (forall j :: 0 <= j < |w| ==>
            ms[2 * j + 1] == ChatMessage(User, w[j].input) && ms[2 * j + 2] == ChatMessage(Assistant, w[j].output))
      && (forall i :: 0 < i < |ms| ==> ms[i].role != System)
  {
    HistoryIsWindow(memory);
    ExchangesLayout(prompt, Window(memory), message);
  }

  /** The message list built from the stored messages of the given exchanges. */
  lemma ExchangesLayout(prompt: string, w: seq<Exchange>, message: string)
    ensures var ms := BuildMessages(prompt, Buffer(w), message);
      && |ms| == 2 * |w| + 2
      && ms[0] == ChatMessage(System, prompt)
      && ms[|ms| - 1] == ChatMessage(User, message)
      && (forall j :: 0 <= j < |w| ==>
            ms[2 * j + 1] == ChatMessage(User, w[j].input) && ms[2 * j + 2] == ChatMessage(Assistant, w[j].output))
      && (forall i :: 0 < i < |ms| ==> ms[i].role != System)
  {
    var history := Buffer(w);
    var ms := BuildMessages(prompt, history, message);
    forall j | 0 <= j < |w|
      ensures ms[2 * j + 1] == ChatMessage(User, w[j].input) && ms[2 * j + 2] == ChatMessage(Assistant, w[j].output)
    {
      assert ms[2 * j + 1] == AsChat(history[2 * j]);
      assert ms[2 * j + 2] == AsChat(history[2 * j + 1]);
    }
    forall i | 0 < i < |ms| ensures ms[i].role != System {
      if i < |ms| - 1 {
        assert ms[i] == AsChat(history[i - 1]);
      }
    }
  }

  /** The assembly loop of `process_message`: system prompt, converted history, user text. */
  method AssembleMessages(prompt: string, history: seq<StoredMessage>, message: string)
    returns (messages: seq<ChatMessage>)
    ensures messages == BuildMessages(prompt, history, message)
  {
    messages := [ChatMessage(System, prompt)];
    for j := 0 to |history|
      invariant messages == [ChatMessage(System, prompt)] + ChatHistory(history[..j])
    {
      assert history[..j + 1][..j] == history[..j];
      match history[j]
      case Human(text) =>
        messages := messages + [ChatMessage(User, text)];
      case AI(text) =>
        messages := messages + [ChatMessage(Assistant, text)];
    }
    assert history[..|history|] == history;
    messages := messages + [ChatMessage(User, message)];
  }

  // ----- one message -------------------------------------------------------------------------

  /** What the store's search gives for a message: nothing before an index exists. */
  function Retrieve(chunks: seq<string>, message: string, oracles: Oracles): Selection {
    if chunks == [] then Found([]) else SelectChunks(chunks, oracles.nearest(message, SEARCH_K))
  }

  /** What processing a message comes to: the model's reply, or a failure anywhere before it. */
  function Outcome(setup: Setup, memory: seq<Exchange>, message: string, oracles: Oracles): Reply {
    match Retrieve(setup.chunks, message, oracles)
    case IndexError => Failure
    case Found(results) =>
      var prompt := SystemPrompt(setup.template, oracles.now, RelevantContext(results));
      oracles.generate(BuildMessages(prompt, LoadHistory(memory), message))
  }

  /** The text `process_message` returns. */
  function ReplyText(reply: Reply): string {
    match reply
    case Answer(text) => text
    case Failure => APOLOGY
  }

  /** The memory after `process_message`: the exchange is saved only when the model answered. */
  function Remember(memory: seq<Exchange>, message: string, reply: Reply): seq<Exchange> {
    match reply
    case Answer(text) => memory + [Exchange(message, text)]
    case Failure => memory
  }

  /**
   * A message adds at most one exchange and never rewrites the older ones; it adds one exactly
   * when the model answered, and that exchange pairs the message with the returned text.
   */
  lemma RememberOne(memory: seq<Exchange>, message: string, reply: Reply)
    ensures var m := Remember(memory, message, reply);
      && memory <= m
      && (|m| == |memory| + 1 <==> reply.Answer?)
      && (|m| == |memory| <==> reply.Failure?)
      && (reply.Answer? ==> Last(m) == Exchange(message, ReplyText(reply)))
  {
  }

  /**
   * Before any document is loaded no engine is consulted, nothing can fail before the model
   * call, and the model is told that no documents are loaded.
   */
  lemma OutcomeWithoutDocuments(template: Template, memory: seq<Exchange>, message: string, oracles: Oracles)
    ensures Outcome(Setup(template, []), memory, message, oracles) ==
      oracles.generate(BuildMessages(SystemPrompt(template, oracles.now, NO_DOCUMENTS), LoadHistory(memory), message))
  {
  }

  /**
   * With documents loaded the context holds only stored chunks, at most `SEARCH_K` of them when
   * the engine reports `SEARCH_K` positions.
   */
  lemma RetrievedAreStored(chunks: seq<string>, message: string, oracles: Oracles)
    ensures Retrieve(chunks, message, oracles).Found? ==>
      var rs := Retrieve(chunks, message, oracles).chunks;
      |rs| <= |oracles.nearest(message, SEARCH_K)| && forall c :: c in rs ==> c in chunks
  {
    if chunks != [] {
      SelectChunksBound(chunks, oracles.nearest(message, SEARCH_K));
    }
  }

  /** The chunks the store holds once the agent has loaded the data folder. */
  function StoreChunks(folder: DataFolder): seq<string> {
    match folder
    case Missing => []
    case Present(files) => LoadedChunks(files)
  }

  /**
   * The context the agent builds from its own store hands the model exactly the retrieved
   * chunks: every loaded chunk is stripped and free of blank lines, so the round trip applies.
   */
  lemma StoredContextRecovers(folder: DataFolder, message: string, oracles: Oracles)
    ensures var found := Retrieve(StoreChunks(folder), message, oracles);
      found.Found? && found.chunks != [] ==> SplitBlankLines(RelevantContext(found.chunks)) == found.chunks
  {
    var chunks := StoreChunks(folder);
    var found := Retrieve(chunks, message, oracles);
    if found.Found? && found.chunks != [] {
      if folder.Present? {
        LoadedChunksWellFormed(KeptTexts(Pages(folder.files)));
      }
      RetrievedAreStored(chunks, message, oracles);
      ContextRecoversResults(found.chunks);
    }
  }

  // ----- the agent ---------------------------------------------------------------------------

  /** `VoiceAgent`: the chat memory of one connection and the vector store it searches. */
  class VoiceAgent {
    /** Every saved exchange, oldest first; only the window of it reaches the model. */
    var memory: seq<Exchange>
    const store: SimpleVectorStore
    const template: Template

    ghost predicate Valid()
      reads this, store
    {
      store.Valid()
    }

    /** `__init__`: empty memory, and the store filled from the data folder. */
    constructor(folder: DataFolder)
      ensures Valid()
      ensures memory == []
      ensures fresh(store)
      ensures store.chunks == StoreChunks(folder)
      ensures template == NOVATECH_TEMPLATE
    {
      memory := [];
      store := new SimpleVectorStore();
      template := NOVATECH_TEMPLATE;
      new;
      LoadDocuments(folder);
    }

    /** `_load_documents`: a missing folder is created and left empty; otherwise its chunks, if any, are indexed. */
    method LoadDocuments(folder: DataFolder)
      requires store.chunks == [] && !store.indexed
      modifies store
      ensures Valid()
      ensures store.chunks == StoreChunks(folder)
    {
      if folder.Missing? {
        return;
      }
      var chunks := LoadPdfsFromFolder(folder.files);
      if chunks != [] {
        store.AddDocuments(chunks);
      }
    }

    /**
     * `process_message`: retrieve context, ask the model with the windowed history, and save
     * the exchange; any failure gives the fixed apology and leaves the memory as it was.
     */
    method ProcessMessage(message: string, oracles: Oracles) returns (reply: string)
      requires Valid()
      modifies this
      ensures Valid()
      ensures reply == ReplyText(Outcome(Setup(template, store.chunks), old(memory), message, oracles))
      ensures memory == Remember(old(memory), message, Outcome(Setup(template, store.chunks), old(memory), message, oracles))
    {
      var found := store.Search(message, SEARCH_K, oracles.nearest);
      if found.IndexError? {
        return APOLOGY;
      }
      var context := RelevantContext(found.chunks);
      var prompt := SystemPrompt(template, oracles.now, context);
      var history := LoadHistory(memory);
      var messages := AssembleMessages(prompt, history, message);
      var response := oracles.generate(messages);
      match response
      case Failure =>
        reply := APOLOGY;
      case Answer(text) =>
        memory := memory + [Exchange(message, text)];
        reply := text;
    }

    /** `clear_memory`: forget every exchange. */
    method ClearMemory()
      modifies this
      ensures memory == []
    {
      memory := [];
    }
  }
}
