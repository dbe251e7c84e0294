# Legal RAG backend: a Dafny model of its core

This project models the logic in `backend/main.py` of a retrieval-augmented
legal assistant. The service answers questions about Mexican law and has
these parts:

- Uploaded documents are split into overlapping chunks.
- The chunks are embedded through a remote provider, behind a key-value
  cache with a one-hour expiry.
- The embeddings are stored in a vector index.
- A chat request embeds the question and retrieves similar chunks. It
  assembles them into a bounded context and asks a chat provider for an
  answer.

The model keeps the service's own structure. There is one module per part:

| module | file | what it models |
|---|---|---|
| `Wrappers` | `wrappers.dfy` | `Option`, `Result` (a value or an HTTP status), and how a provider reply becomes a result or a status |
| `PyStr` | `pystr.dfy` | The Python `str` built-ins the core uses: `rfind` (whole string and range), `strip` (Python's exact `isspace` set), slicing with clamping, ASCII `lower`, and `or` on an optional string |
| `Chunker` | `chunker.dfy` | `chunk_text`: its `while` loop as a method, the windows it cuts as a specification function, and the coverage, overlap, snap and length properties |
| `Retrieval` | `context.dfy` | Building the context in `chat`: `"[title]:\ncontent"` entries joined by a blank line, cut at 6000 characters and followed by `"..."` |
| `Upload` | `upload.dfy` | `upload_document` up to queuing: POSIX `splitext`, the lower-cased allow-list, text routing by extension, chunking, title and source |
| `Embedding` | `embedding.dfy` | `generate_embedding_openrouter`: a `Gateway` class holding the cache as a map with expiry times and an abstract provider, plus the hit/miss/store/error rules |
| `Ingest` | `ingest.dfy` | `process_document_chunks`: the `for` loop that embeds each chunk in turn and fills six parallel columns |
| `Generation` | `chat.dfy` | `generate_chat_response_openrouter` (prompt by language, model override, user message, fixed sampling parameters) and the `chat` endpoint |
| `Service` | `service.dfy` | The clients `initialize_clients` leaves behind, and the `/health` report |

Imperative code stays imperative:

- `chunk_text` is a `while` loop, proved equal to the specification function `Chunks`.
- `process_document_chunks` is a `for` loop, proved equal to the specification function `EmbedRun` and the predicate `RowsMatch`.
- The cache is a mutable field of the `Gateway` class.

Everything else is a function.

Some inputs are parameters rather than modelled code:

- the remote calls (embedding provider, chat provider, index search);
- the MD5 digest;
- UTF-8 decoding;
- the clock;
- whether the cache server answers at the moment of each call;
- whether `create_client` or `redis.from_url` raises at startup.

Some behaviours of the code are easy to misread:

- **The cache is not best-effort.** The cache client connects per command,
  so whether the server answers is decided at each call (`Embedding.LinkAt`).
  A `get` that finds no server raises, and the embedding call fails with 500
  instead of degrading to a miss (`Embedding.UnreachableFails`). A `ping` from
  `/health` that finds no server raises too, which the application's generic
  handler answers with 500 (`Service.UnreachableCacheBreaksHealth`). A server
  that comes back serves hits again. `initialize_clients` assigns the client
  before its own `ping`, so whether the server answered at startup decides
  nothing. An exception in `create_client` or in `redis.from_url` ends startup
  early and leaves no cache client (`Service.InitializeClients`).
- **The upstream status is not propagated.** A non-200 reply from a provider
  raises an exception carrying that status, but inside a `try` whose
  `except Exception` re-raises it as 500. Only a client timeout gives 504
  (`Wrappers.FromProvider`). The `chat` endpoint rewraps even that 504 as
  500 (`Generation.Chat`).
- **A rejected upload answers 500, not 400.** The 400 for a disallowed
  extension is raised inside the same kind of `try` (`Upload.UploadDocument`).
- **The context can be 6003 characters long.** The 6000-character cut comes
  before the `"..."` is appended (`Retrieval.AssembleContext`).
- **Chunking has no guard on its configuration.** For a non-negative
  `overlap`, the loop ends for every text exactly when `0 < chunkSize`,
  `overlap < chunkSize` and `5 * overlap <= 4 * chunkSize + 5`
  (`Chunker.ValidConfig`, `Chunker.ProgressUnderGuard`), and the model
  requires this. The defaults 1000/200 meet it. `overlap < chunkSize` alone
  is not enough: a window snapped at a period can be as narrow as
  `4 * chunkSize / 5 + 2` characters, and a text whose only period makes the
  first window exactly `overlap` wide sends the loop back to 0 forever
  (`Chunker.GuardIsTight`). With `overlap >= chunkSize` the start never moves
  forward (`Chunker.NoProgressWithoutGuard`).
- **An empty API key.** It stops `initialize_clients` before any client is
  created. `/health`, however, tests `is not None` and reports OpenRouter as
  configured (`Service.EmptyKeyLooksConfigured`).

## Model

| member | source | states |
|---|---|---|
| `Wrappers.FromProvider` | backend/main.py:235-253 | a provider call succeeds exactly on a 200 reply with the expected payload, which it returns; it fails with 504 exactly on a timeout, and with 500 on everything else (non-200 status, missing payload) |
| `PyStr.RFind` | backend/main.py:359 | `rfind` gives -1 or an index inside the string that holds the character |
| `PyStr.RFindIsLast` | backend/main.py:359 | `rfind` reports the last occurrence: no later index holds the character |
| `PyStr.RFindInIsLast` | backend/main.py:359 | `rfind` on a range reports the last occurrence inside that range |
| `PyStr.RFindSlice` | backend/main.py:355-359 | `rfind` on the slice `text[start:end]` is `rfind` on the range `[start, end)` shifted by `start`, or -1 for both |
| `PyStr.StripTrims` | backend/main.py:364 | `strip` keeps the single slice that neither starts nor ends with whitespace, with only whitespace outside it; the result is empty exactly when the input is all whitespace |
| `PyStr.Strip` | backend/main.py:364 | `strip` never lengthens a string; `StripTrims` says what it keeps |
| `PyStr.Take` | backend/main.py:637-639 | `s[:n]` is the prefix of length `min(n, len(s))` |
| `PyStr.Lower` | backend/main.py:506 | `lower` keeps the length and maps each character on its own, lowering ASCII letters |
| `PyStr.Or` | backend/main.py:270 | `value or fallback` yields the value unless it is `None` or empty, and the fallback otherwise |
| `Chunker.WindowEnd` | backend/main.py:354-362 | a window's end lies strictly after its start and at most `chunkSize` after it; an end short of `start + chunkSize` means the window was snapped at a period past 80% of `chunkSize` |
| `Chunker.WindowEndSnap` | backend/main.py:358-362 | the last window is never snapped; a snapped window ends with the last `.` of the full window, past 80%; a window left full has no `.` past 80% except possibly its last character |
| `Chunker.NextStart` | backend/main.py:365 | the next start is at most the text's length, reaches it exactly when the window reached the end, and is otherwise the window's end less `overlap` |
| `Chunker.Windows` | backend/main.py:353-365 | every window the loop cuts is non-empty and lies inside the text |
| `Chunker.StripAllAt` | backend/main.py:364 | chunk `i` is window `i` of the text, stripped |
| `Chunker.Chunks` | backend/main.py:347-367 | `chunk_text` returns one chunk per window the loop cuts |
| `Chunker.WindowAt` | backend/main.py:353-365 | window `i` ends at `min(WindowEnd, len(text))`; if that end is inside the text, window `i + 1` exists and starts `overlap` before it; otherwise window `i` is the last |
| `Chunker.CutWindow` | backend/main.py:354-362 | one turn's `end` and `chunk`, computed with `rfind` on the slice as the loop does, are the specification's window |
| `Chunker.ChunkText` | backend/main.py:347-367 | the loop returns exactly the stripped windows (`Chunks`); no chunk exactly when the text is empty; every chunk is at most `chunkSize` long |
| `Chunker.WindowsEnds` | backend/main.py:349-365 | the windows are empty exactly for an empty remainder; otherwise the first starts at the loop's start and the last ends at `len(text)` |
| `Chunker.WindowsLinked` | backend/main.py:365 | each window but the last ends inside the text, and the next starts `overlap` before that end |
| `Chunker.WindowsSnap` | backend/main.py:357-362 | each window but the last is either `chunkSize` wide or ends with a `.` past 80% of `chunkSize` |
| `Chunker.WindowsCover` | backend/main.py:353-365 | every character of the text lies in some window: no gaps |
| `Chunker.ChunkCount` | backend/main.py:347-367 | `chunk_text` returns no chunk exactly when the text is empty |
| `Chunker.ChunkLength` | backend/main.py:354-364 | every stripped chunk is at most `chunkSize` characters long |
| `Chunker.NoProgressWithoutGuard` | backend/main.py:365 | with `overlap >= chunkSize`, a window that is not the last leaves the next start at or before the current one |
| `Chunker.WindowsNarrow` | backend/main.py:354-362 | no window is wider than `chunkSize` |
| `Chunker.ProgressUnderGuard` | backend/main.py:353-365 | under the guard, every window that is not the last moves the start forward, so the loop ends |
| `Chunker.GuardIsTight` | backend/main.py:353-365 | with `overlap` below `chunkSize` but past the guard's bound, a text whose only period sits at offset `overlap - 1` snaps its first window to `overlap` characters and sends the next start back to 0, so the loop cuts that window forever |
| `Retrieval.Entry` | backend/main.py:449-452 | an entry is `[`, the title, `]:` and a newline, then the content, each at its fixed offset |
| `Retrieval.Entries` | backend/main.py:449-452 | one entry per retrieved document, in retrieval order |
| `Retrieval.Join` | backend/main.py:449-452 | `"\n\n".join(entries)`; what the join holds is stated by `JoinLength`, `JoinPrefix` and `JoinAt` |
| `Retrieval.JoinLength` | backend/main.py:449-452 | the joined text is as long as its entries plus one separator between each two |
| `Retrieval.JoinPrefix` | backend/main.py:449-452 | joining more entries only appends to the joined text |
| `Retrieval.JoinAt` | backend/main.py:449-452 | each entry appears intact at its offset, preceded by the blank-line separator unless it is the first |
| `Retrieval.AssembleContext` | backend/main.py:449-457 | a joined text of at most 6000 characters is kept unchanged; a longer one becomes its first 6000 characters followed by `...`, 6003 in all |
| `Retrieval.NoDocsNoContext` | backend/main.py:449-452 | no documents give the empty context |
| `Retrieval.ContextHoldsEntry` | backend/main.py:449-457 | a document whose entry ends within the first 6000 characters reaches the prompt intact, at its offset |
| `Retrieval.ContextKeepsOrder` | backend/main.py:449-452 | an earlier document's entry and a separator come before a later document's entry |
| `Retrieval.TruncatedEndsWithMarker` | backend/main.py:455-457 | a context that differs from the joined text is 6003 characters long and ends with `...` |
| `Upload.SplitExt` | backend/main.py:506 | `splitext` splits the path into a root and an extension that concatenate back to it; a non-empty extension starts with `.` |
| `Upload.SplitExtShape` | backend/main.py:506 | the extension is the last `.` of the last path component and what follows, and only when something other than dots precedes it in that component |
| `Upload.FileExtension` | backend/main.py:506 | the extension is empty or starts with a dot, is as long as the one `splitext` returns, and is already lower-case |
| `Upload.IsAccepted` | backend/main.py:505-507 | a file name is accepted only when it has an extension, and then exactly when the lower-cased extension is on the allow-list |
| `Upload.SplitIgnoresCase` | backend/main.py:506 | file names that lower-case alike get extensions of the same length from `splitext` |
| `Upload.AcceptanceIgnoresCase` | backend/main.py:505-507 | file names that lower-case alike have the same extension, so both are accepted or both rejected |
| `Upload.ExtractText` | backend/main.py:517-522 | `.txt` and `.md` are decoded, and fail with 500 exactly when decoding fails; `.pdf` and `.docx` get the placeholder naming the file |
| `Upload.UploadDocument` | backend/main.py:496-551 | a disallowed extension fails with 500; an upload succeeds exactly when the extension is allowed and the text is extracted; every failure is 500; a queued job carries the chunks of the text (none exactly when the text is empty), the id, `title or filename`, and the file name as source |
| `Upload.UpperCaseAccepted` | backend/main.py:505-507 | `A.TXT` is accepted |
| `Upload.LastExtensionOnly` | backend/main.py:505-507 | `a.md.gz` is rejected |
| `Upload.DotFileRejected` | backend/main.py:505-507 | `.md` has no extension and is rejected |
| `Upload.ExecutableRejected` | backend/main.py:505-507 | `x.exe` is rejected |
| `Embedding.CacheKey` | backend/main.py:213 | the cache key is `embed:` followed by the text's digest |
| `Embedding.LinkAt` | backend/main.py:214-215 | a call sees no cache exactly when there is no client, and an unreachable one exactly when the client's server does not answer at that moment |
| `Embedding.EmbedOutcome` | backend/main.py:209-253 | the provider is asked exactly without a client or on a miss; a success is the unexpired cached vector or the provider's 200 answer; the cache is unchanged, or gains the new vector under the key for an hour |
| `Embedding.SharedKeyIffSameDigest` | backend/main.py:213 | two texts share a cache key exactly when their digests agree |
| `Embedding.UnreachableFails` | backend/main.py:214-215 | a call whose cache server does not answer fails with 500, asks no provider and leaves the cache unchanged, even when the key would be a hit |
| `Embedding.HitSkipsProvider` | backend/main.py:214-217 | with a cache, a hit returns the cached vector without asking the provider and without changing the cache |
| `Embedding.MissAsksProviderAndStores` | backend/main.py:219-246 | with a cache, a miss asks the provider; a success is then a hit for the next hour, with the same vector; no other key changes |
| `Embedding.NoClientAlwaysAsks` | backend/main.py:214-246 | without a cache client every call asks the provider and nothing is stored |
| `Embedding.FailureStatus` | backend/main.py:235-253 | a call fails only with 500 or 504; 504 exactly when the provider was asked and timed out; a non-200 reply gives 500 |
| `Embedding.RepeatWithinTtlIsCached` | backend/main.py:213-246 | a text embedded on a miss is answered from the cache within the hour, with the same vector and no provider call |
| `Embedding.Gateway.constructor` | backend/main.py:138-141 | a gateway starts with the given digest, provider, client presence and contents, and no calls |
| `Embedding.Gateway.Embed` | backend/main.py:209-253 | the result, the new cache and the provider calls are those of `EmbedOutcome`, for the link the call sees |
| `Embedding.EmbedTwice` | backend/main.py:213-246 | while the cache answers, embedding a text twice within the hour, the first time successfully, asks the provider at most once; after a miss the second call returns the first vector |
| `Ingest.Step` | backend/main.py:633-635 | a turn after a failure changes nothing; a turn otherwise makes at most one provider call and adds at most one vector |
| `Ingest.EmbedRun` | backend/main.py:633-635 | a run without failure has one vector per chunk; no run has more vectors or calls than chunks |
| `Ingest.VectorsComeFromCacheOrProvider` | backend/main.py:633-635 | in a run without failure, the vector of chunk `i` is the unexpired entry under its key in the cache the first `i` turns left, or the provider's 200 answer for that chunk |
| `Ingest.RunStopsAtFailure` | backend/main.py:633-670 | once an embedding fails, later chunks change nothing: the loop is left |
| `Ingest.UnreachableEmbedsNothing` | backend/main.py:214-217 | when the cache server does not answer the first chunk's `get`, that chunk fails before any provider call and the run keeps no vector |
| `Ingest.NoClientAsksForEachText` | backend/main.py:633-635 | without a cache client and with a provider that answers, each chunk is sent once, in order, and keeps the provider's vector |
| `Ingest.CallsAreChunks` | backend/main.py:633-635 | the provider is sent only chunks of the document, never more often than they occur |
| `Ingest.RowsSnoc` | backend/main.py:637-642 | adding chunk `i`'s row to columns that describe the first `i` chunks describes the first `i + 1` |
| `Ingest.ProcessDocumentChunks` | backend/main.py:610-670 | with the index down nothing happens; otherwise the cache and the calls are those of `EmbedRun`; the job is abandoned exactly when an embedding fails; else the six columns have one row per chunk, with the run's vectors, contents cut to 65535, title and source cut to 512, index `i` and the turn's time |
| `Generation.SystemPrompt` | backend/main.py:258-267 | the system prompt is one of the two prompts |
| `Generation.PromptFallsBackToSpanish` | backend/main.py:258-284 | only `"en"` selects the English prompt; every other code gets the Spanish one |
| `Generation.ChatModel` | backend/main.py:270 | the model is the configured one, or a non-empty override as given |
| `Generation.EmptyOverrideUsesDefault` | backend/main.py:270 | an absent or empty model override selects the configured model; any other override is used as given |
| `Generation.UserMessage` | backend/main.py:285 | the user message opens with `Contexto:` and a newline, ends with the question, and is as long as its four parts |
| `Generation.UserMessageParts` | backend/main.py:285 | the user message is `Contexto:` and a newline, the context, a blank line and `Pregunta: `, then the question |
| `Generation.Payload` | backend/main.py:281-291 | the request carries two messages, a system message and then a user message |
| `Generation.PayloadShape` | backend/main.py:281-291 | the request carries a system message with one of the two prompts, then a user message holding the context; temperature 0.7, 2000 tokens, top-p 0.9, frequency penalty 0.1 |
| `Generation.Generate` | backend/main.py:255-306 | generation succeeds exactly on a 200 reply with a completion, and returns that text with the chosen model; it fails with 504 exactly on a timeout, otherwise with 500 |
| `Generation.GenerateTimeoutIs504` | backend/main.py:301-303 | a chat provider timeout leaves generation as 504 |
| `Generation.SearchSimilar` | backend/main.py:308-312 | with the index down, retrieval returns no document |
| `Generation.Chat` | backend/main.py:436-493 | every failure is 500; a failed question embedding fails the request; otherwise the request succeeds exactly when generation does, with the answer, the retrieved documents as sources, `context_id or` a fresh id, and the model used |
| `Service.InitializeClients` | backend/main.py:116-145 | the database client exists exactly when the key check passes, both credentials are non-empty and `create_client` does not raise; the cache client exists exactly when the key check passes, `create_client` did not raise if it was called, and `redis.from_url` does not raise |
| `Service.CreateFailureLeavesNoCache` | backend/main.py:129-141 | a `create_client` that raises leaves neither client |
| `Service.HealthCheck` | backend/main.py:390-413 | for the cache link at the time of the check: it fails with 500 exactly when the cache server does not answer; otherwise it is degraded exactly when the key is `None` or the index is down, healthy otherwise, and reports the cache and database as they are |
| `Service.EmptyKeyLooksConfigured` | backend/main.py:121-123 | an empty key leaves neither client, yet the report is healthy with OpenRouter marked configured and the cache and database marked absent |
| `Service.UnreachableCacheBreaksHealth` | backend/main.py:138-144 | once startup created the cache client, a health check made while its server does not answer fails with 500, whatever happened at startup |
| `Service.HealthReflectsCriticalServices` | backend/main.py:406-411 | while the cache answers, or with no client, the report is returned, degraded exactly when a critical service is missing, with the cache marked present exactly when there is a client |

## Left out

- Network, HTTP and framework plumbing: httpx, FastAPI routing, Pydantic validation and exception-handler bodies are not modelled. Providers and the index search are abstract functions of their input. A provider reply is a status with an optional payload, or a timeout.
- Remote stores: the vector index's insert and flush, and the metadata and chat-history rows in the database (`store_chat_history` included), are outside the model. The `/api/search` and `/api/models` endpoints, the root endpoint and Milvus collection setup are not modelled either. They only forward to remote services.
- `BackgroundTasks` scheduling and async/await. Ingestion is modelled as a call that runs to completion, and its failures are an outcome.
- MD5 is an abstract `digest` function. Document ids and fresh context ids are parameters.
- Floating point: embedding vectors are opaque `seq<real>`, and search scores are left out. The 80% snap threshold is compared exactly as `5 * p > 4 * chunkSize`.
- Clocks are parameters. In `ProcessDocumentChunks`, the cache's time and the row's timestamp are both `clock(i)`, but the source reads the clock separately for each.
- UTF-8 decoding is an abstract `decode` function, with `None` for a decoding error.
- `PyStr.Lower`: lowers ASCII letters only. Python's full Unicode case mapping is not modelled; the allowed extensions are ASCII. Under it `lower` can change a string's length (`'İ'` becomes two code points), so `Upload.FileExtension`'s length clause and `Upload.AcceptanceIgnoresCase` hold for this ASCII mapping only.
- `Chunker.ChunkText`: requires `ValidConfig`, which the source does not check. With a non-negative `overlap` outside it, the loop does not terminate for some texts (`NoProgressWithoutGuard`, `GuardIsTight`). A negative `overlap` ends the loop but leaves gaps between chunks; the model does not cover it, nor the negative starts Python would then slice with.
- `Generation.SearchSimilar`: the index call is an abstract function. The source's own `except` returning `[]` is folded into it, and so is the `top_k` limit.
- `Embedding.EmbedOutcome`: one call sees the cache in one state. A server that answers the `get` and then fails the `setex` (500 after the provider was asked, nothing stored) is not modelled.
- The upload's response message string and the log messages are not modelled.
