# AIRagAssistant core in Dafny

This project models the stateful core of a retrieval-augmented chat application and proves properties about it:

- **Backend document pipeline** (`backend/main.py`). `clean_text` and `chunk_text` prepare a text. The suffix dispatch of `load_document` picks a loader. The module-global chunk store `VECTOR_DB` is filled by `process_uploaded_file`. `chat_query` assembles the answer.
- **Request gatekeeping** (`backend/app.py`). This covers the extension check `allowed_file` and the validation cascades of the upload and chat endpoints. It also covers the `processing_status` record that the background upload job updates step by step, and the fields the health and info endpoints derive.
- **Chat controller** (`frontend/src/components/RagAssistantUI.jsx`). This holds the message log, the upload status line and the connection indicator. Its handlers change them: session change, history fetch, health check, upload with validation and status polling, and send.
- **Session sidebar** (`frontend/src/components/Sidebar.jsx`). This holds the session list, its re-fetch, and the delete handler with its selection reconciliation.

Modules:

- `Common` holds shared vocabulary: Python and JavaScript whitespace, `strip`, `rfind`, lower-casing, `basename` and `join`.
- `DocumentProcessor`, `VectorStore` and `ApiServer` model the backend.
- `AssistantUI` and `SessionSidebar` model the frontend.

What the code does step by step is written as imperative Dafny:

- the chunking loop;
- the store (`VECTOR_DB` is a list object with an identity, so a second name can alias it);
- the status record of the background job;
- the controller and sidebar state, as classes whose methods update fields.

Each such method is proved against a specification function. The properties the code promises are proved about those functions as lemmas.

Every network reply, the file system, the embedding and generation calls, the similarity ranking and the user's answers to dialogs are parameters:

- a network reply is ok with its decoded body, not ok, or a thrown error;
- the embedding outcome is given per chunk;
- `retrieve`'s result is given as a sequence.

The requests each component sends are kept in a ghost log, so the contracts can state which calls a handler makes and in what order.

Four behaviours of the code are worth noting, because a reader might expect otherwise:

- A poll that exhausts its 30 reschedules while the server still reports processing is classified like any terminal reply: by whether the message contains "Error". It is not classified as "status unknown".
- A health check that gets a non-ok response leaves the connection indicator unchanged. Only a thrown request sets it to disconnected.
- The sidebar clears the selection only after a successful delete. It re-fetches the list only after a successful delete.
- Nothing discards a history reply that arrives for a session which is no longer selected.

## Model

| member | source | states |
|---|---|---|
| Common.Strip | backend/main.py:43 | `str.strip()`: the result has no whitespace at either end and is no longer than the input |
| Common.StripEmptyIff | backend/main.py:43-44 | the strip of a window is empty exactly when every character of the window is whitespace |
| Common.StripContained | backend/main.py:43 | the strip of a string is a substring of it |
| Common.StripSlice | backend/main.py:43 | the strip of a slice `text[start:end]` is a substring of `text` |
| Common.StripFixed | backend/main.py:101 | a string with no whitespace at either end is its own strip |
| Common.StripIdempotent | backend/main.py:43 | stripping twice is stripping once |
| Common.StripKeeps | backend/main.py:101 | strip loses none of the characters that a whitespace-rejecting filter keeps |
| Common.StripLeft | backend/main.py:98 | the text from the first non-whitespace character starts with no whitespace |
| Common.StripLeftKeeps | backend/main.py:98 | skipping a whitespace run loses none of the characters that a whitespace-rejecting filter keeps |
| Common.SkipSpaces | backend/main.py:98 | the end of a whitespace run: every character before it is whitespace, the one at it is not |
| Common.Filter | backend/main.py:100 | deleting the characters outside a class leaves only characters of that class and never lengthens the text |
| Common.FilterMembers | backend/main.py:100 | a character occurs in the output exactly when it occurs in the input and belongs to the class |
| Common.FilterAllKept | backend/main.py:100 | a text made only of characters of the class passes unchanged |
| Common.FilterAppend | backend/main.py:100 | filtering distributes over concatenation, so each character of the class stays, in its order, and every other one goes |
| Common.RFind | backend/main.py:39 | `rfind` finds the last occurrence in `[lo, hi)`, or -1 when there is none |
| Common.Basename | backend/main.py:235 | `os.path.basename` is a suffix of the path that contains no '/' |
| Common.BasenameAfterSlash | backend/main.py:235 | the base name is the whole path or starts right after a '/'; with Basename's contract it is exactly the text after the last '/' |
| Common.Lower | backend/main.py:114 | lower-casing keeps the length and maps every character |
| Common.NatToString | frontend/src/components/RagAssistantUI.jsx:287-288 | a number prints as decimal digits that denote it, with no leading zero |
| DocumentProcessor.CollapseWhitespace | backend/main.py:98 | `re.sub(r'\s+', ' ', ...)` empties only the empty text; its only whitespace is ' ', and no two spaces are adjacent |
| DocumentProcessor.CollapseNoSpace | backend/main.py:98 | text without whitespace passes the first pass unchanged |
| DocumentProcessor.CollapseAllSpace | backend/main.py:98 | a non-empty whitespace run becomes exactly one ' ' |
| DocumentProcessor.CollapseAppend | backend/main.py:98 | where a text splits outside a whitespace run, its halves collapse independently; with the two cases above, every maximal run becomes exactly one ' ' and every other character stays |
| DocumentProcessor.CleanText | backend/main.py:95-101 | `clean_text` returns text with no whitespace at either end |
| DocumentProcessor.CleanTextChars | backend/main.py:95-101 | every character of `clean_text`'s output is a word character, whitespace or one of `.,!?;:()-"`, and ' ' is its only whitespace character |
| DocumentProcessor.FilterOnlySpaces | backend/main.py:100 | the character-deleting pass keeps ' ' as the only whitespace |
| DocumentProcessor.StripChars | backend/main.py:101 | every character of a strip comes from the stripped text |
| DocumentProcessor.CollapseKeeps | backend/main.py:98 | collapsing whitespace changes no non-whitespace character |
| DocumentProcessor.FilterKeptThenVisible | backend/main.py:100 | deleting outside the kept class, then dropping whitespace, is one filter |
| DocumentProcessor.CleanTextKeepsVisible | backend/main.py:95-101 | the non-whitespace characters of `clean_text`'s output are exactly the input's kept non-whitespace characters, in order |
| DocumentProcessor.WindowEnd | backend/main.py:34-41 | a window ends strictly past its middle and no later than `chunk_size` after its start |
| DocumentProcessor.WindowEndAtSentence | backend/main.py:37-41 | a window that is not the last ends right after its last '.' when that '.' lies past the middle; otherwise it is `chunk_size` long |
| DocumentProcessor.NextStart | backend/main.py:47 | `start = end - overlap` strictly increases `start` when `overlap <= chunk_size // 2` |
| DocumentProcessor.ChunksFromUnfold | backend/main.py:33-47 | one turn of the loop: the window at `start` emits its chunk, then the loop goes on from the next start |
| DocumentProcessor.ChunkStep | backend/main.py:43-47 | one turn of the loop keeps "chunks so far + chunks still to come = all chunks" |
| DocumentProcessor.WindowChunk | backend/main.py:43 | a non-empty stripped window is a chunk: its own strip, at most `chunk_size` long, a substring of the text |
| DocumentProcessor.ChunksFromShape | backend/main.py:33-47 | every chunk the loop produces is non-empty, is its own strip, is at most `chunk_size` long and is a substring of the text |
| DocumentProcessor.ChunksShape | backend/main.py:27-49 | a text of at most `chunk_size` characters comes back whole and unstripped; otherwise every chunk is non-empty, its own strip, at most `chunk_size` long and a substring |
| DocumentProcessor.ChunkText | backend/main.py:25-49 | the loop, with its inline `rfind` end computation and its skip of empty stripped windows, returns exactly the chunk list of the specification function; it terminates |
| DocumentProcessor.TailFromLastDot | backend/main.py:114 | a name's tail from its last '.' starts with '.' and holds no other '.' and no '/' |
| DocumentProcessor.TrimEnd | backend/main.py:106 | the end of a path once pathlib drops its trailing '/' and "." components: what remains ends in neither |
| DocumentProcessor.TrimEndPrefix | backend/main.py:106 | the trimmed end of a prefix depends only on that prefix |
| DocumentProcessor.TrimTail | backend/main.py:106 | the trimmed path is a prefix of the path that ends in neither '/' nor a "." component |
| DocumentProcessor.TrimTailFixed | backend/main.py:106 | a path that ends in neither '/' nor a "." component is left as it is |
| DocumentProcessor.PathName | backend/main.py:106-114 | `Path.name` is a '/'-free suffix of the trimmed path |
| DocumentProcessor.PlainPathName | backend/main.py:106-114 | a '/'-free name that does not end in '.' is its own `Path.name` |
| DocumentProcessor.NameSuffix | backend/main.py:114 | the suffix of a final component is empty, or its last '.' and the non-empty, dot-free text after it, taken from its end |
| DocumentProcessor.Suffix | backend/main.py:106-121 | `Path.suffix` is empty, or a '.' followed by at least one non-dot character, taken from the end of `Path.name` |
| DocumentProcessor.SuffixEndsTrimmed | backend/main.py:106-114 | the suffix ends the path once its trailing '/' and "." components are dropped |
| DocumentProcessor.SuffixIgnoresTrailing | backend/main.py:106-114 | appending "/" or "/." to a path leaves its suffix unchanged |
| DocumentProcessor.TrailingSlashSuffix | backend/main.py:106-114 | a file name stem + '.' + extension followed by '/' has the suffix '.' + extension, so "a.txt/" is a `.txt` document |
| DocumentProcessor.SuffixHasStem | backend/main.py:114 | a non-empty suffix is shorter than `Path.name`, so a non-empty stem precedes it; a name with no split stem + '.' + extension has the suffix "" |
| DocumentProcessor.SuffixOfSplit | backend/main.py:114 | a `Path.name` that is a non-empty stem, '.', and a non-empty extension without '.' has the suffix '.' + extension |
| DocumentProcessor.KindOf | backend/main.py:114-121 | a loader is chosen exactly when the lower-cased suffix is `.txt`, `.docx` or `.pdf`, and each of the three loaders exactly for its own suffix |
| DocumentProcessor.KindOfSuffix | backend/main.py:116-121 | the branch for a lower-cased suffix: the text loader exactly for `.txt`, the DOCX loader exactly for `.docx`, the PDF loader exactly for `.pdf`, none otherwise |
| DocumentProcessor.TrimmedChunksShape | backend/main.py:27-49 | a text without whitespace at its ends yields at least one chunk ("" for ""), each at most `chunk_size` long, its own strip and a substring |
| DocumentProcessor.LoadedChunksShape | backend/main.py:104-129 | the chunks of a loaded document are at most 500 characters long, carry no whitespace at their ends, and are substrings of the cleaned text |
| DocumentProcessor.LoadDocument | backend/main.py:104-129 | `load_document` succeeds exactly when the file exists, its suffix is supported and its loader returns; it then returns the chunks of the cleaned text |
| VectorStore.ChunkList.constructor | backend/main.py:18 | a new list is empty |
| VectorStore.Embedded | backend/main.py:132-143 | the entries the chunk loop appends are no more than the chunks, and each carries the file's source and one of its chunks |
| VectorStore.EmbeddedAllSucceed | backend/main.py:234-235 | when every embedding succeeds, the store holds exactly the chunks, in order, each with its embedding |
| VectorStore.EmbeddedNext | backend/main.py:234-235 | one more chunk appends its entry exactly when its embedding call succeeded |
| VectorStore.RagStore.constructor | backend/main.py:18 | the module starts with an empty store |
| VectorStore.RagStore.RebindDatabase | backend/main.py:146-149 | `clear_database` as written binds the global to a fresh empty list |
| VectorStore.RagStore.ClearDatabase | backend/main.py:146-149 | `clear_database` as intended leaves the store empty |
| VectorStore.RagStore.AddChunkToDatabase | backend/main.py:132-143 | appends exactly one `(chunk, embedding, source)` at the end, or leaves the store unchanged when embedding fails |
| VectorStore.RagStore.ProcessUploadedFile | backend/main.py:221-244 | as written: `VECTOR_DB` ends bound to a new list; False exactly when loading fails, and that list is then empty; otherwise it holds the embedded chunks, every entry with the file's basename as source |
| VectorStore.RagStore.AddChunks | backend/main.py:234-237 | the chunk loop appends exactly the embedded entries of the chunks, in order, to the list `VECTOR_DB` is bound to |
| VectorStore.RagStore.LoadAndAdd | backend/main.py:229-240 | from an empty list: False exactly when `load_document` raises, leaving it empty; otherwise the list holds the embedded chunks |
| VectorStore.RagStore.ProcessUploadedFileInPlace | backend/main.py:221-244 | with the in-place clear: `VECTOR_DB` stays bound to the same list, which ends with the same contents as in ProcessUploadedFile |
| VectorStore.StaleImportAfterUpload | backend/app.py:14 | for every upload, with `clear_database` as written: the list app.py imported keeps 0 entries, while main.py's store holds every embedded chunk |
| VectorStore.SharedImportAfterUpload | backend/app.py:14 | for every upload, with the in-place clear: the list app.py imported holds exactly as many entries as main.py's store |
| VectorStore.GenerateResponse | backend/main.py:186-189 | no retrieved chunks gives the canned answer without a model call; otherwise the model's text, or the error text when the call raised |
| VectorStore.SourcesOf | backend/main.py:270 | the source of every retrieved tuple, in order |
| VectorStore.Distinct | backend/main.py:270 | `list(set(...))` has no duplicates and the same elements as its input |
| VectorStore.ChatQuery | backend/main.py:247-276 | an empty store and an empty retrieval give their canned replies with no sources and 0 chunks; otherwise `chunks_used` is the retrieval size and the sources are duplicate-free, exactly the retrieved sources |
| VectorStore.ChatQuerySources | backend/main.py:266-276 | an answer from retrieved chunks names between 1 and `chunks_used` sources |
| VectorStore.DistinctNoLonger | backend/main.py:270 | de-duplication never lengthens the list |
| ApiServer.AllowedFile | backend/app.py:37-40 | `allowed_file` holds exactly when the name contains '.' and the lower-cased text after the last '.' is txt, pdf or docx |
| ApiServer.RejectsTrailingDot | backend/app.py:37-40 | "x." is rejected |
| ApiServer.AcceptsBareUpperExtension | backend/app.py:37-40 | ".PDF" is accepted |
| ApiServer.RejectsInnerExtension | backend/app.py:37-40 | "a.pdf.exe" is rejected: only the last extension counts |
| ApiServer.RejectsNoDot | backend/app.py:37-40 | "docx" without a dot is rejected |
| ApiServer.LowerAfterDot | backend/app.py:40 | lower-casing commutes with a leading '.' |
| ApiServer.SupportedSuffixIsAllowed | backend/app.py:22 | every suffix that `load_document` dispatches is an allowed extension behind its dot |
| ApiServer.LastDot | backend/app.py:40 | a '.' followed by dot-free text is the last '.' |
| ApiServer.SupportedNameIsAllowed | backend/app.py:37-40 | every name that `load_document` can dispatch passes `allowed_file` once its trailing '/' and "." components are dropped; a name without them passes as it is |
| ApiServer.SupportedTailIsAllowed | backend/app.py:37-40 | a name that ends in a dispatchable suffix passes `allowed_file` |
| ApiServer.NoSlashBasename | backend/main.py:235 | a name without '/' is its own basename |
| ApiServer.LeadingDotNoSuffix | backend/main.py:114 | a name whose only '.' is its first character has no suffix |
| ApiServer.AllowedNameNotLoadable | backend/app.py:37-40 | ".pdf" passes `allowed_file` yet `load_document` rejects it: the two checks differ |
| ApiServer.UploadDecision | backend/app.py:59-78 | busy gives 429 before any other check; then missing file, empty name and disallowed extension give 400, the last listing the allowed extensions in the set's iteration order; the upload starts exactly when every check passes and the save succeeded |
| ApiServer.BackgroundTrace | backend/app.py:88-126 | one run of the job takes the record through at least four values |
| ApiServer.BackgroundTraceShape | backend/app.py:88-126 | the job starts processing the file, progress never decreases while it works, progress is always 0, 25 or 100, and it ends not processing, reset after success or failure, with "Error: " text after an exception |
| ApiServer.ProcessingStatus.constructor | backend/app.py:29-34 | the record starts idle |
| ApiServer.ProcessingStatus.StartJob | backend/app.py:91-99 | the job's first updates: start, then reading at 25 |
| ApiServer.ProcessingStatus.FinishJob | backend/app.py:102-126 | the updates after `process_uploaded_file`: 100, success or failure text, reset; or the exception record |
| ApiServer.ProcessingStatus.RunBackground | backend/app.py:88-126 | the job, run sequentially, appends exactly its trace to the record's history and keeps progress in {0, 25, 100} |
| ApiServer.UploadFile | backend/app.py:54-140 | the reply is the cascade's; a rejection leaves the status record untouched; an accepted upload runs the background job |
| ApiServer.Chat | backend/app.py:149-182 | a missing body or `message` gives 400; a blank message gives 400; an empty store gives the canned answer with no sources; otherwise the reply passes the answer through and echoes the stripped message as `query` |
| ApiServer.HealthCheck | backend/app.py:43-51 | `documents_loaded` holds exactly when `chunks_count > 0` |
| ApiServer.GetInfo | backend/app.py:209-219 | `documents_loaded` holds exactly when `chunks_count > 0`; the formats are the set's iteration of the allowed extensions, each once; `max_file_size_mb` is 16 |
| AssistantUI.OrElse | frontend/src/components/RagAssistantUI.jsx:193 | `value \|\| fallback` gives the value when it is a non-empty string, otherwise the fallback |
| AssistantUI.MapHistory | frontend/src/components/RagAssistantUI.jsx:77-82 | the mapped history has the server's length and order, `id` is the index, `text` the content, and the sender is bot exactly for role "assistant" |
| AssistantUI.ValidateFile | frontend/src/components/RagAssistantUI.jsx:134-155 | a MIME type outside the allow-list is refused first; then a size above 16 MiB; everything else is accepted |
| AssistantUI.ValidateFileBoundary | frontend/src/components/RagAssistantUI.jsx:139-155 | exactly 16 MiB is accepted, one byte more is refused, and the type is judged before the size |
| AssistantUI.UploadResultMessage | frontend/src/components/RagAssistantUI.jsx:186-201 | the outcome line is a system message, "success" after an ok upload and "error" otherwise |
| AssistantUI.TerminalStatus | frontend/src/components/RagAssistantUI.jsx:231-234 | the terminal status is an error exactly when the message contains "Error", otherwise a success |
| AssistantUI.PollFrom | frontend/src/components/RagAssistantUI.jsx:209-251 | polling from any attempt makes at least one and at most 31 status requests in all |
| AssistantUI.PollFromShape | frontend/src/components/RagAssistantUI.jsx:223-248 | polling continues only while the server reports processing and fewer than 30 reschedules happened; a throw ends it with "Processing status unknown"; any other reply ends it in the terminal branch with that reply's status |
| AssistantUI.ReplyMessages | frontend/src/components/RagAssistantUI.jsx:272-307 | success appends a bot message with sources defaulting to [] and chunks to 0, plus one sources line exactly when the sources are non-empty; failure appends exactly one system error message, whose text carries the server's `error` (or "Failed to get response" when it is missing or empty) or the thrown error's message |
| AssistantUI.ChatErrorText | frontend/src/components/RagAssistantUI.jsx:300-303 | the error line is the error marker, then the failure's reason, then the hint to start the Flask API |
| AssistantUI.ApplyHealth | frontend/src/components/RagAssistantUI.jsx:98-115 | an ok health reply sets connected with the server's flag and chunk count; a non-ok reply changes nothing; a throw sets disconnected, with no documents and no chunk count |
| AssistantUI.Assistant.constructor | frontend/src/components/RagAssistantUI.jsx:16-65 | mounting checks the connection, then shows the greeting or loads the session's history |
| AssistantUI.Assistant.SessionEffect | frontend/src/components/RagAssistantUI.jsx:51-65 | without a session the log becomes exactly the greeting; with one, the history is fetched |
| AssistantUI.Assistant.SelectSession | frontend/src/components/RagAssistantUI.jsx:51-65 | the effect runs only when `sessionId` changes: then the greeting and no request without a session, or one history request and the fetched history with one |
| AssistantUI.Assistant.FetchMessages | frontend/src/components/RagAssistantUI.jsx:67-87 | an ok reply replaces the log with the mapped history; a non-ok reply or a throw leaves it unchanged |
| AssistantUI.Assistant.CheckApiConnection | frontend/src/components/RagAssistantUI.jsx:98-115 | one health request; the indicator becomes what the reply makes of it |
| AssistantUI.Assistant.AddSystemMessage | frontend/src/components/RagAssistantUI.jsx:118-127 | appends exactly one system message and changes nothing else |
| AssistantUI.Assistant.PollUploadStatus | frontend/src/components/RagAssistantUI.jsx:209-252 | the counted loop leaves the status line, the requests and the indicator that the polling function specifies; the terminal branch checks the connection once and schedules the reset |
| AssistantUI.Assistant.ResetUploadStatus | frontend/src/components/RagAssistantUI.jsx:238-240 | the scheduled reset empties the status line |
| AssistantUI.Assistant.StartUpload | frontend/src/components/RagAssistantUI.jsx:130-176 | a missing or refused file sends nothing and adds no message; an accepted one sets the pending state, adds one "Uploading" line and sends one upload request |
| AssistantUI.Assistant.FinishUpload | frontend/src/components/RagAssistantUI.jsx:178-205 | one success or error line; only success polls; `isUploading` is false afterwards whatever the outcome |
| AssistantUI.Assistant.HandleFileUpload | frontend/src/components/RagAssistantUI.jsx:130-206 | an accepted file adds exactly the "Uploading" line and the outcome line and ends with `isUploading` false; after success it polls, and the status line and indicator are those the poll leaves; after a failure the status line is the failure and the indicator is unchanged; a refused file changes no message and sends nothing |
| AssistantUI.Assistant.SendMessageToBackend | frontend/src/components/RagAssistantUI.jsx:255-309 | one chat request; the log gains exactly the reply messages of the outcome |
| AssistantUI.Assistant.BeginSend | frontend/src/components/RagAssistantUI.jsx:311-324 | whitespace-only input or a pending send changes nothing; otherwise one user message with the untrimmed text, the input cleared, `isTyping` set |
| AssistantUI.Assistant.CompleteSend | frontend/src/components/RagAssistantUI.jsx:326-327 | after the reply, `isTyping` is false again |
| AssistantUI.Assistant.HandleSendMessage | frontend/src/components/RagAssistantUI.jsx:311-328 | a refused send changes nothing; otherwise the log gains the user's message and then the reply messages, the user's message stays, and `isTyping` ends false |
| SessionSidebar.DeleteAlert | frontend/src/components/Sidebar.jsx:40-54 | no alert after a successful delete; the server's error (or "Unknown error") after a refusal; a retry prompt after a throw |
| SessionSidebar.SelectionAfterDelete | frontend/src/components/Sidebar.jsx:40-44 | the selection changes exactly when the selected session was deleted successfully, and then it is cleared |
| SessionSidebar.Sidebar.constructor | frontend/src/components/Sidebar.jsx:7-14 | mounting fetches the list once |
| SessionSidebar.Sidebar.FetchHistory | frontend/src/components/Sidebar.jsx:16-28 | one request; an ok reply replaces the list wholesale, anything else leaves it unchanged |
| SessionSidebar.Sidebar.SelectSession | frontend/src/components/Sidebar.jsx:12-14 | the list is re-fetched exactly when the selection changes |
| SessionSidebar.Sidebar.HandleDelete | frontend/src/components/Sidebar.jsx:30-55 | a declined confirmation sends nothing; a successful delete re-fetches the list, and clears the selection only when it deleted the selected session; a failed delete neither re-fetches nor changes the selection |
| SessionSidebar.DeleteThenShow | frontend/src/components/Sidebar.jsx:7-45 | for every history reply at mount and every reply to the effect's re-fetch: after deleting the selected session with a successful handler re-fetch, the sidebar shows the effect's list when that re-fetch succeeds and the handler's otherwise, raises no alert and selects nothing |

## Left out

- Threads, timers and the upload race are not modelled. The background job runs to completion in sequence. Polling is a loop with a counter. The 1000 ms and 3000 ms delays and the check-then-set race on `is_processing` are not represented.
- Flask routing, CORS, saving and deleting files, `secure_filename`, headers and JSON parsing are not modelled. The secured filename and the save error are parameters of `UploadDecision`. Request bodies are a small JSON datatype with integer numbers.
- Ollama calls and the floating-point similarity code are parameters. `cosine_similarity` and the ranking in `retrieve` are represented only by the sequence `retrieve` returned.
- The TXT, DOCX and PDF loaders and the file-existence check are parameters of `LoadDocument`.
- The CLI `main()` loop is not part of this model. Neither are the log lines `print` writes.
- `handleClearDocuments` and the `/api/clear` endpoint are not modelled.
- Exception texts that Python or the browser would produce are reduced to strings passed in or fixed approximations. This covers a non-string `message` in the chat body and an escaping exception in the background job.
- `alert`, `window.confirm`, `event.target.value = ""`, scrolling, theming and rendering are not modelled. The confirmation answer is a parameter. An alert is a returned value.
- `Date.now()` ids and timestamps are not tracked; such a message carries the id `ClockId`.
- VectorStore.Distinct: orders the de-duplicated sources by first occurrence, because the iteration order of a Python set is unspecified. The contract states only the set of elements and the absence of duplicates.
- AssistantUI.Assistant.PollUploadStatus: keeps only the status line the poll ends with, not the intermediate "Processing document..." values.
- AssistantUI.Assistant.SendMessageToBackend: assumes `result.response` is a string. An ok reply whose `sources` is present but is not an array is not modelled.
- Common.Filter: its own contract gives only the length bound and the class of every kept character. That every character of the class is kept, in order, is stated by Common.FilterMembers, Common.FilterAllKept and Common.FilterAppend. Those facts stay out of the function's contract because every proof that mentions the filter would then carry them.
- Common.Basename: its own contract says the result is a '/'-free suffix of the path. That it starts right after the last '/' is stated by Common.BasenameAfterSlash, kept apart for the same reason.
- DocumentProcessor.CollapseWhitespace: its own contract does not say that each whitespace run becomes exactly one ' '. Three lemmas state it together: text without whitespace is unchanged (DocumentProcessor.CollapseNoSpace), a whitespace run becomes ' ' (DocumentProcessor.CollapseAllSpace), and the two halves of a text split outside a run collapse independently (DocumentProcessor.CollapseAppend).
- DocumentProcessor.Suffix: its own contract gives the shape of the suffix and that it ends `Path.name`. That it ends the trimmed path is stated by DocumentProcessor.SuffixEndsTrimmed. Its value for a name stem + '.' + extension is stated by DocumentProcessor.SuffixOfSplit, and that a non-empty suffix leaves a stem by DocumentProcessor.SuffixHasStem.
- DocumentProcessor.PathName: follows POSIX pathlib. Backslash separators and Windows drives are not modelled; only the trailing components, which alone decide `Path.name`, are normalised.
- ApiServer.Chat: relates nothing to main.py's store. `storedChunks` is the length of the list app.py imported, and `answer` is what `chat_query` returned. The same holds for ApiServer.HealthCheck and ApiServer.GetInfo.
- DocumentProcessor.ChunkText: requires `overlap <= chunk_size // 2`. This holds for the defaults 500 and 50 that `load_document` uses. With a larger overlap the Python loop can run forever.
- DocumentProcessor.CleanText: treats `\w` as ASCII letters, digits and '_'. Python's `\w` on `str` also accepts non-ASCII letters and digits.
- SessionSidebar.Sidebar.HandleDelete: assumes the reply to the effect's re-fetch arrives after the handler's. A body that fails to parse after a refused delete is modelled as a thrown delete.

## Findings

| source | as written | input that shows it | evidently intended | confidence | as-written member | corrected member |
|---|---|---|---|---|---|---|
| backend/app.py:14 with backend/main.py:146-149 | app.py imports the list object bound to `VECTOR_DB`. `clear_database` then binds main.py's global to a new list, so `health_check`, `chat` and `get_info` read a list that uploads never fill | upload one file whose one chunk embeds: main.py's store holds 1 entry, while the list app.py reads holds 0 | `clear_database` empties the list in place (`VECTOR_DB.clear()`), so every importer sees the uploaded chunks | not executed | VectorStore.StaleImportAfterUpload | VectorStore.SharedImportAfterUpload |
