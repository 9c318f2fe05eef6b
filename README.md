# NovaTech voice agent backend — a Dafny model

This project models the sequential core of the NovaTech Solutions voice agent backend and proves what it promises.

**Document ingestion** (`load_pdfs_from_folder`):
- The non-blank page texts of the PDF files are kept, stripped, in page order.
- Each kept text is split into paragraphs at blank lines.
- The non-empty stripped paragraphs of one text are packed greedily into chunks of about 500 characters, joined by single spaces.
- A new chunk starts at every text.

**Retrieval bookkeeping** (`SimpleVectorStore`):
- The store remembers its chunks and whether an index exists.
- `search` turns the positions reported by the nearest-neighbour engine into chunk texts. It keeps every position below `len(chunks)`, and uses Python's indexing for negative positions.

**The agent** (`VoiceAgent`):
- `_get_relevant_context` joins the retrieved chunks with blank lines, or falls back to a fixed sentence.
- `process_message` builds the message list for the language model: the system prompt, then the windowed history (the last ten exchanges), then the new text.
- An exchange is saved only when the model answers. Any failure gives a fixed apology.
- `clear_memory` forgets every exchange.

**The websocket endpoint** (`websocket_endpoint`):
- It registers a fresh agent under the client id and greets the client.
- It answers `message` envelopes with a typing indicator and a response.
- It answers `clear_history` envelopes with a notice, and ignores every other type.
- A frame that cannot be read sends an error and ends the loop. The client id is removed from the registry however the handler ends.

Modules, in dependency order:
- `Text` (`text.dfy`): Python's `str.strip()`, `str.split('\n\n')` and `sep.join`, with the round trip between split and join.
- `Chunking` (`chunking.dfy`): the two loops of `load_pdfs_from_folder`, their pure specification, and the greedy-packing properties.
- `Retrieval` (`retrieval.dfy`): the vector store class, its search loop, and an independent description of what the search selects.
- `Agent` (`agent.dfy`): context, prompt, chat memory window, message assembly, and the `VoiceAgent` class.
- `Session` (`session.dfy`): the registry class, the receive loop as a method, and its pure step function with the transcript properties.

Where the repository's design description and the code differ, the model follows the code:
- Chunking packs paragraphs. It does not use a sliding window with overlap.
- No question is refused by the code. Refusal is only an instruction inside the prompt.
- The `cleared` message carries "Conversation history cleared.".
- The `error` message carries the text of the exception.

## Model

| member | source | states |
|---|---|---|
| Text.Strip | backend/agent.py:91-92 | the stripped text is empty exactly when the text is all whitespace, and otherwise it neither starts nor ends with whitespace; Text.StripSlice states which slice of the text it is |
| Text.StripSlice | backend/agent.py:91-92 | the stripped text is the slice of the text that starts after its leading whitespace, with only whitespace after it, so together with the contract of Text.Strip it is the text with its leading and trailing whitespace removed |
| Text.StripIdempotent | backend/agent.py:106 | stripping a text twice gives the same as stripping it once, so re-stripping a stored page text changes nothing |
| Text.SplitBlankLines | backend/agent.py:102 | no piece holds a "\n\n", no piece but the last ends with a newline (the cut is at the leftmost "\n\n"), and joining the pieces with "\n\n" gives back the text |
| Text.SplitJoin | backend/agent.py:102 | splitting at "\n\n" undoes joining with "\n\n" when no part holds a "\n\n" and no part but the last ends with a newline |
| Text.JoinEnds | backend/agent.py:190 | a join starts with its first part and ends with its last part |
| Text.JoinAppend | backend/agent.py:190 | joining a concatenation puts exactly one separator between the two joins |
| Text.Join | backend/agent.py:190 | `sep.join(parts)`; Text.JoinEnds and Text.JoinAppend state that the join starts with the first part, ends with the last, and puts exactly one separator at each seam, and Text.SplitJoin that splitting undoes it |
| Chunking.KeptTexts | backend/agent.py:89-92 | no more texts are kept than there are pages, and every kept text is non-empty and stripped |
| Chunking.KeptTextAt | backend/agent.py:89-92 | page i contributes its stripped text exactly when it is not all whitespace, after the texts of the earlier pages and before those of the later ones |
| Chunking.KeptTextsAppend | backend/agent.py:84-92 | keeping page texts distributes over concatenation, so page order is preserved |
| Chunking.ExtractTexts | backend/agent.py:84-96 | the first loop collects exactly the kept texts of all pages of all files, in order |
| Chunking.AppendPageTexts | backend/agent.py:89-92 | the page loop of one file appends exactly the kept texts of its pages, in page order |
| Chunking.NonBlankStripped | backend/agent.py:104-108 | at most one paragraph per piece, each non-empty and stripped; Chunking.ParagraphsAt states which piece gives which paragraph |
| Chunking.Paragraphs | backend/agent.py:102-108 | every paragraph is non-empty, stripped and free of blank lines; Chunking.ParagraphsAt and Chunking.ParagraphsJoin tie the paragraphs to the text |
| Chunking.ParagraphsAt | backend/agent.py:102-108 | piece i of the split text gives its strip as a paragraph exactly when it is not all whitespace, after the paragraphs of the earlier pieces and before those of the later ones |
| Chunking.ParagraphsJoin | backend/agent.py:102-108 | stripped paragraphs without blank lines, joined with "\n\n", are read back as exactly those paragraphs |
| Chunking.PackFrom | backend/agent.py:103-118 | the packing loop from a given state; Chunking.PackFromGreedy states that it extends a greedy packing of what was already read to one of all paragraphs |
| Chunking.PackFromGreedy | backend/agent.py:103-118 | continuing the loop from a greedy packing of the paragraphs read so far gives a greedy packing of all of them |
| Chunking.Pack | backend/agent.py:103-118 | the groups of paragraphs of one text; Chunking.PackGreedy states that they are its greedy packing |
| Chunking.PackGreedy | backend/agent.py:105-118 | the groups hold the paragraphs in order with none lost or repeated; no group is empty; a paragraph joins a group only while the lengths stay below 500; a new group starts only when the next paragraph no longer fits |
| Chunking.MultiParagraphBound | backend/agent.py:110-111 | a group of two or more paragraphs joins to at most 500 characters |
| Chunking.PageChunks | backend/agent.py:100-118 | the chunks of one text, each group joined with " "; Chunking.PageChunksRejoin, Chunking.PageChunksWellFormed and Chunking.PageChunkSize state its properties |
| Chunking.ChunkTexts | backend/agent.py:99-119 | the chunks of all kept texts, text after text; Chunking.ChunksPerText states that no chunk spans two texts |
| Chunking.LoadedChunks | backend/agent.py:73-121 | the chunks a folder yields; Chunking.LoadPdfsFromFolder is proved equal to it and Chunking.LoadedChunksWellFormed states their shape |
| Chunking.AppendTextChunks | backend/agent.py:100-118 | the packing loop for one text appends exactly that text's chunks |
| Chunking.ChunkAllTexts | backend/agent.py:99-119 | the outer chunking loop yields exactly the chunks of each kept text, text after text |
| Chunking.LoadPdfsFromFolder | backend/agent.py:73-121 | the result is the chunks of the kept texts, text after text, and is empty for a folder without PDF files |
| Chunking.PageChunksRejoin | backend/agent.py:102-118 | a text's chunks joined with " " equal its paragraphs joined with " " |
| Chunking.PageChunksWellFormed | backend/agent.py:110-118 | every chunk is non-empty, stripped and free of blank lines |
| Chunking.PageChunkSize | backend/agent.py:110-115 | a chunk of two or more paragraphs has at most 500 characters, and a chunk longer than 500 is one paragraph of the text |
| Chunking.ChunksPerText | backend/agent.py:100-118 | the chunks of text i lie between those of the earlier and the later texts, so no chunk spans two texts |
| Chunking.LoadedChunksWellFormed | backend/agent.py:99-121 | every chunk the folder yields is non-empty, stripped and free of blank lines |
| Retrieval.PyIndex | backend/agent.py:68 | indexing gives an element of the chunks, counting a negative position from the end |
| Retrieval.SelectChunks | backend/agent.py:65-70 | the search loop over the reported positions; Retrieval.SelectChunksFails and Retrieval.SelectChunksFound state when it raises and what it returns |
| Retrieval.SelectChunksFails | backend/agent.py:66-68 | the search raises exactly when some reported position lies below -len(chunks) |
| Retrieval.SelectChunksFound | backend/agent.py:65-70 | when the search does not raise, it returns the chunk at each position below len(chunks), in the engine's order, and nothing else |
| Retrieval.SelectChunksBound | backend/agent.py:65-70 | a search returns no more chunks than positions reported, and only stored chunks |
| Retrieval.PaddingRepeatsLast | backend/agent.py:66-68 | the padding position -1 passes the filter and yields the last stored chunk |
| Retrieval.SelectErrorSticks | backend/agent.py:66-68 | once the positions read so far raise, the whole search raises, whatever follows |
| Retrieval.SimpleVectorStore.constructor | backend/agent.py:32-35 | a new store holds no chunks and no index |
| Retrieval.SimpleVectorStore.AddDocuments | backend/agent.py:37-51 | the store keeps exactly the given chunks and has an index |
| Retrieval.SimpleVectorStore.Search | backend/agent.py:53-70 | no index gives no results; otherwise the result is the engine's positions filtered as above |
| Agent.RelevantContext | backend/agent.py:183-190 | the fallback sentence or the results joined with "\n\n"; Agent.ContextRecoversResults, Agent.ContextWithoutResults and Agent.StoredContextRecovers state what the model can read back from it |
| Agent.ContextRecoversResults | backend/agent.py:185-190 | splitting the context at blank lines gives back exactly the retrieved chunks |
| Agent.ContextWithoutResults | backend/agent.py:187-188 | without results the context is the single fixed sentence |
| Agent.StoredContextRecovers | backend/agent.py:183-190 | for the agent's own store, splitting the context at blank lines gives back exactly the retrieved chunks |
| Agent.SystemPrompt | backend/agent.py:192-195 | the template with the time and the context inserted; Agent.PromptCarries states where each value sits |
| Agent.PromptCarries | backend/agent.py:192-195 | the time and the context are placed verbatim at the two placeholders of the template |
| Agent.Buffer | backend/agent.py:225-228 | the memory stores, per exchange, the user's text and then the answer, in order |
| Agent.Window | backend/agent.py:138-142 | the last ten exchanges: a suffix of the memory of at most ten exchanges, the whole memory when it holds fewer |
| Agent.LoadHistory | backend/agent.py:138-142 | the last 20 stored messages: a suffix of the stored messages of at most 20, all of them when there are fewer |
| Agent.HistoryIsWindow | backend/agent.py:138-142 | the loaded history is the messages of the last ten exchanges, at most 20 messages |
| Agent.WindowSlides | backend/agent.py:138-142 | saving an exchange appends it to the window, and drops the oldest exchange once ten are held |
| Agent.ChatHistory | backend/agent.py:210-215 | each stored message is sent in order, user text with role user, answer with role assistant |
| Agent.BuildMessages | backend/agent.py:203-218 | the message list sent to the model; Agent.MessagesLayout states its layout |
| Agent.MessagesLayout | backend/agent.py:203-218 | the message list is the system prompt first, then each windowed exchange as a user and an assistant message in stored order, then the new text last as a user message; at most 22 messages; only the first has role system |
| Agent.AssembleMessages | backend/agent.py:203-218 | the assembly loop builds exactly that message list |
| Agent.Outcome | backend/agent.py:197-234 | what a message comes to: a failure when the search raises, otherwise the model's reply to the assembled list; Agent.OutcomeWithoutDocuments and Agent.RetrievedAreStored state its properties |
| Agent.ReplyText | backend/agent.py:230-234 | the model's text, or the fixed apology on any failure; Session.StepMessage states what the client receives |
| Agent.Remember | backend/agent.py:224-228 | the memory after a message; Agent.RememberOne states that it gains exactly the exchange on an answer and nothing on failure |
| Agent.RememberOne | backend/agent.py:221-234 | a message adds exactly one exchange when the model answered, pairing the message with the returned text, and none on failure; older exchanges are kept |
| Agent.OutcomeWithoutDocuments | backend/agent.py:185-188 | before any document is loaded the model is asked with the no-documents sentence as context |
| Agent.RetrievedAreStored | backend/agent.py:185 | the context holds only stored chunks, no more than the engine reported positions |
| Agent.VoiceAgent.constructor | backend/agent.py:127-146 | a new agent has an empty memory and a store filled from the data folder |
| Agent.VoiceAgent.LoadDocuments | backend/agent.py:165-181 | a missing folder leaves the store empty; otherwise the folder's chunks, if any, are indexed |
| Agent.VoiceAgent.ProcessMessage | backend/agent.py:197-234 | the reply is the model's answer or the apology, and the memory gains the exchange only on an answer |
| Agent.VoiceAgent.ClearMemory | backend/agent.py:236-238 | the memory is empty afterwards |
| Session.ContentOf | backend/main.py:84 | the "content" field, or "" when it is missing; Session.MissingContent states the default |
| Session.Step | backend/main.py:78-117 | one turn of the receive loop; Session.StepMessage, Session.StepClear, Session.StepIgnoresOther, Session.StepMalformed and Session.StepWellFormed state each case |
| Session.Run | backend/main.py:71-117 | the connection after the given frames; Session.RunWellFormed, Session.RunGrows and Session.ClosedIgnores state its properties |
| Session.StepWellFormed | backend/main.py:78-117 | one turn of the loop keeps the transcript well formed and only appends to it |
| Session.RunWellFormed | backend/main.py:73-117 | the greeting comes first and only first; every typing indicator is on and is directly followed by a response; an error is the last message and ends the loop |
| Session.RunGrows | backend/main.py:78-117 | later frames never change what was already sent |
| Session.ClosedIgnores | backend/main.py:110-117 | once the loop has ended, further frames change nothing |
| Session.MissingContent | backend/main.py:84 | a message envelope without content is answered as the empty text |
| Session.StepMessage | backend/main.py:83-101 | a message envelope sends a typing indicator and one response with the agent's reply; the memory gains the exchange exactly on an answer |
| Session.StepClear | backend/main.py:103-108 | a clear_history envelope sends one notice and empties the memory, so no history reaches the next message |
| Session.StepIgnoresOther | backend/main.py:83-108 | an envelope of any other type sends nothing and changes nothing |
| Session.StepMalformed | backend/main.py:112-117 | an unreadable frame sends one error with the exception text and ends the loop, leaving the memory as it was |
| Session.ConnectionRegistry.constructor | backend/main.py:31 | the registry starts empty |
| Session.ConnectionRegistry.Register | backend/main.py:67 | the id maps to the new agent, replacing an earlier entry for the same id |
| Session.ConnectionRegistry.Deregister | backend/main.py:118-120 | the id is no longer registered, and every other entry is kept |
| Session.NewAgent | backend/main.py:66 | each connection gets a fresh agent with an empty memory and a store filled from the data folder |
| Session.Serve | backend/main.py:71-117 | the receive loop sends exactly the transcript of the pure loop over the frames and leaves the agent's memory as the pure loop does |
| Session.WebsocketEndpoint | backend/main.py:63-120 | what is sent and the agent's final memory are those of the pure loop over the frames; afterwards the id is not registered and every other entry is as before; only the registry and the new agent change |

## Left out

- PDF reading and folder handling are not modelled. A folder is given as its PDF files in glob order. Each file is the texts of the pages extracted before any read error, because the loop swallows a file's exception and keeps the pages already appended. A page whose extraction gives no text is an empty string, which is dropped like a blank one. Creating a missing data folder is not modelled.
- Sentence embeddings and the L2 index are floating-point work in foreign libraries. The engine is a function from the query and `k` to the positions it reports. It is assumed to raise nothing.
- Retrieval.SimpleVectorStore.AddDocuments requires a non-empty chunk list. The only caller passes one, and the embedding step would fail on an empty list.
- Retrieval.SimpleVectorStore.Search: "at most k results" is stated as "at most as many results as positions reported". The engine reports exactly k positions.
- The language model call, its temperature and the environment configuration are a network client. For each message the model is a function from the message list to an answer or a failure.
- The clock is not modelled. The current time is a given string.
- The chat memory class is library code and is not part of this model. It is modelled from its documented behaviour: it stores every exchange, loads the last `2 * k` messages, and `clear` empties it.
- The web framework, CORS, the health endpoints, server start-up, JSON decoding and `send_json` are transport.
  - Frames are given already decoded: an envelope, an unreadable frame with its exception text, or a disconnect. Running out of frames stands for a disconnect.
  - A "type" or "content" field that is not a string is not modelled. A non-string "type" behaves like a missing one, since it never equals "message" or "clear_history".
  - Failures while sending are not modelled.
- The registry maps a client id to its agent only; the websocket object stored beside it is transport.
- An exception raised while creating the agent, before the handler's `try`, is not modelled.
- async scheduling and concurrent connections are not modelled; one connection's loop is modelled on its own. In particular, two live connections sharing one client id are out of scope: the earlier handler's `finally` would remove the later one's entry.
- `print` logging is not modelled.
