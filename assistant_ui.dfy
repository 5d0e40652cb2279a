/** The chat controller of frontend/src/components/RagAssistantUI.jsx: the
    message log, the upload status line, the connection indicator, and the
    handlers that change them. Every network reply is a parameter: ok with
    its decoded body, not ok, or a thrown error with its message. */
module AssistantUI {
  import opened Common

  datatype Sender = UserSender | BotSender | SystemSender

  /** The `type` of a system message. */
  datatype Notice = Info | Success | Failure

  /** A message `id`: an index or literal the code sets, or a `Date.now()`
      value, which this model does not track. */
  datatype MessageId = FixedId(n: int) | ClockId

  datatype Message = Message(id: MessageId, text: string, sender: Sender, notice: Option<Notice>,
                             sources: Option<seq<string>>, chunksUsed: Option<int>)

  /** The `type` of the upload status line; `NoKind` is the empty string. */
  datatype StatusKind = NoKind | Loading | Succeeded | Errored

  datatype UploadStatus = UploadStatus(message: string, kind: StatusKind)

  const NoStatus := UploadStatus("", NoKind)

  datatype ApiStatus = ApiStatus(connected: bool, documentsLoaded: bool, chunksCount: Option<int>)

  /** A request the controller sends, or the status reset it schedules. */
  datatype Request =
    | HealthRequest
    | HistoryRequest(session: string)
    | UploadRequest(file: string)
    | StatusRequest
    | ChatRequest(message: string)
    | StatusResetScheduled

  datatype HealthReply = HealthOk(documentsLoaded: bool, chunksCount: int) | HealthNotOk | HealthThrew

  datatype HistoryRecord = HistoryRecord(role: string, content: string)

  datatype HistoryReply = HistoryOk(records: seq<HistoryRecord>) | HistoryNotOk | HistoryThrew

  datatype UploadOutcome = Uploaded | UploadRefused(error: Option<string>) | UploadThrew(message: string)

  datatype StatusReply = StatusBody(isProcessing: bool, message: Option<string>) | StatusThrew

  datatype ChatOutcome =
    | Answered(response: string, sources: Option<seq<string>>, chunksUsed: Option<int>)
    | ChatRefused(error: Option<string>)
    | ChatThrew(message: string)

  /** The selected file: its name, MIME type and size in bytes. */
  datatype FileInfo = FileInfo(name: string, mimeType: string, size: int)

  /** JavaScript's `value || fallback` for an optional string. */
  function OrElse(value: Option<string>, fallback: string): (r: string)
    ensures r == fallback || (value.Some? && r == value.value && r != "")
    ensures value.None? || value == Some("") ==> r == fallback
  {
    if value.Some? && value.value != "" then value.value else fallback
  }

  // ------------------------------------------------------------ message log

  const GreetingText := "Hello! I'm AI RAG Assistant. Select a chat or start a new one!"

  const Greeting := Message(FixedId(1), GreetingText, BotSender, None, None, None)

  /** A truthy `sessionId`. */
  predicate HasSession(session: Option<string>) {
    session.Some? && session.value != ""
  }

  /** The mapping `fetchMessages` applies to the server's history. */
  function MapHistory(records: seq<HistoryRecord>): (r: seq<Message>)
    ensures |r| == |records|
    ensures forall i :: 0 <= i < |r| ==>
              && r[i].id == FixedId(i)
              && r[i].text == records[i].content
              && (r[i].sender == BotSender <==> records[i].role == "assistant")
              && (r[i].sender == UserSender <==> records[i].role != "assistant")
  {
    seq(|records|, i requires 0 <= i < |records| =>
      Message(FixedId(i), records[i].content,
              if records[i].role == "assistant" then BotSender else UserSender, None, None, None))
  }

  function SystemMessage(text: string, notice: Notice): Message {
    Message(ClockId, text, SystemSender, Some(notice), None, None)
  }

  // ----------------------------------------------------------------- upload

  const AllowedTypes: seq<string> := [
    "application/pdf",
    "application/vnd.openxmlformats-officedocument.wordprocessingml.document",
    "text/plain"
  ]

  const MaxSize: int := 16 * 1024 * 1024

  const TypeRejected := UploadStatus("Please upload a PDF, DOCX, or TXT file.", Errored)

  const SizeRejected := UploadStatus("File size must be less than 16MB.", Errored)

  /** The checks `handleFileUpload` makes before uploading: the status line it
      shows when it refuses the file, None when it accepts it. */
  function ValidateFile(file: FileInfo): (r: Option<UploadStatus>)
    ensures file.mimeType !in AllowedTypes ==> r == Some(TypeRejected)
    ensures file.mimeType in AllowedTypes && file.size > MaxSize ==> r == Some(SizeRejected)
    ensures r.None? <==> file.mimeType in AllowedTypes && file.size <= MaxSize
  {
    if file.mimeType !in AllowedTypes then Some(TypeRejected)
    else if file.size > MaxSize then Some(SizeRejected)
    else None
  }

  /** Exactly 16 MiB is accepted, one byte more is not, and the type is
      judged before the size. */
  lemma ValidateFileBoundary(name: string)
    ensures ValidateFile(FileInfo(name, "text/plain", 16777216)).None?
    ensures ValidateFile(FileInfo(name, "text/plain", 16777217)) == Some(SizeRejected)
    ensures ValidateFile(FileInfo(name, "image/png", 16777217)) == Some(TypeRejected)
  {
    assert "image/png" != AllowedTypes[0] && "image/png" != AllowedTypes[1] && "image/png" != AllowedTypes[2];
  }

  function UploadingLine(name: string): string {
    "\U{1F4C4} Uploading \"" + name + "\"..."
  }

  /** The error message `handleFileUpload` catches for a failed upload. */
  function UploadError(outcome: UploadOutcome): string
    requires !outcome.Uploaded?
  {
    match outcome
    case UploadRefused(error) => OrElse(error, "Upload failed")
    case UploadThrew(message) => message
  }

  /** The system message that reports the upload's outcome. */
  function UploadResultMessage(name: string, outcome: UploadOutcome): (m: Message)
    ensures m.sender == SystemSender
    ensures m.notice == Some(if outcome.Uploaded? then Success else Failure)
  {
    if outcome.Uploaded? then
      SystemMessage("\U{2705} \"" + name + "\" uploaded successfully! You can now ask questions about this document.", Success)
    else
      SystemMessage("\U{274C} Upload failed: " + UploadError(outcome), Failure)
  }

  // ---------------------------------------------------------------- polling

  const MaxAttempts: nat := 30

  /** The status line a terminal poll shows. */
  function TerminalStatus(message: Option<string>): (r: UploadStatus)
    ensures r.kind == Errored <==> message.Some? && Contains(message.value, "Error")
    ensures r.kind == Errored || r.kind == Succeeded
    ensures r.message != ""
  {
    UploadStatus(OrElse(message, "Document processed successfully!"),
                 if message.Some? && Contains(message.value, "Error") then Errored else Succeeded)
  }

  const StatusUnknown := UploadStatus("Processing status unknown", Errored)

  /** How polling ends: the status line it leaves, the number of status
      requests made, and whether it reached the terminal branch (which checks
      the connection and schedules the reset). */
  datatype PollEnd = PollEnd(status: UploadStatus, requests: nat, terminal: bool)

  /** Polling from the moment `attempts` reschedules have happened; `reply(k)`
      answers the k-th status request. */
  function PollFrom(reply: nat -> StatusReply, attempts: nat): (r: PollEnd)
    requires attempts <= MaxAttempts
    ensures attempts < r.requests <= MaxAttempts + 1
    decreases MaxAttempts - attempts
  {
    match reply(attempts)
    case StatusThrew => PollEnd(StatusUnknown, attempts + 1, false)
    case StatusBody(processing, message) =>
      if processing && attempts < MaxAttempts then PollFrom(reply, attempts + 1)
      else PollEnd(TerminalStatus(message), attempts + 1, true)
  }

  /** Polling goes on only while the server reports processing and fewer
      than 30 reschedules have happened; the reply that ends it decides the
      status line. */
  lemma {:induction false} PollFromShape(reply: nat -> StatusReply, attempts: nat)
    requires attempts <= MaxAttempts
    ensures var end := PollFrom(reply, attempts);
            var last := reply(end.requests - 1);
            && (forall k :: attempts <= k < end.requests - 1 ==> reply(k).StatusBody? && reply(k).isProcessing)
            && (last.StatusThrew? ==> !end.terminal && end.status == StatusUnknown)
            && (last.StatusBody? ==>
                  && end.terminal
                  && end.status == TerminalStatus(last.message)
                  && (!last.isProcessing || end.requests == MaxAttempts + 1))
    decreases MaxAttempts - attempts
  {
    match reply(attempts)
    case StatusThrew =>
    case StatusBody(processing, message) =>
      if processing && attempts < MaxAttempts {
        PollFromShape(reply, attempts + 1);
      }
  }

  function StatusRequests(n: nat): (r: seq<Request>)
    ensures |r| == n && forall i :: 0 <= i < n ==> r[i] == StatusRequest
  {
    seq(n, _ => StatusRequest)
  }

  /** The requests a whole poll sends. */
  function PollRequests(reply: nat -> StatusReply): seq<Request> {
    var end := PollFrom(reply, 0);
    StatusRequests(end.requests) + (if end.terminal then [HealthRequest, StatusResetScheduled] else [])
  }

  // -------------------------------------------------------------------- chat

  /** The `chunks_used` value as a template literal prints it. */
  function ChunksText(chunksUsed: Option<int>): string {
    if chunksUsed.Some? then IntToString(chunksUsed.value) else "undefined"
  }

  function SourcesLine(sources: seq<string>, chunksUsed: Option<int>): string {
    "\U{1F4DA} Sources: " + Join(sources, ", ") + " (" + ChunksText(chunksUsed) + " chunks used)"
  }

  const ChatErrorPrefix := "\U{274C} Error: "
  const ChatErrorAdvice := ". Please make sure the Flask API is running."

  /** The text of the system message a failed send appends: the failure's
      reason right after the error marker, then the hint about the API. */
  function ChatErrorText(reason: string): (r: string)
    ensures |r| == |ChatErrorPrefix| + |reason| + |ChatErrorAdvice|
    ensures OccursAt(r, ChatErrorPrefix, 0)
    ensures OccursAt(r, reason, |ChatErrorPrefix|)
    ensures OccursAt(r, ChatErrorAdvice, |ChatErrorPrefix| + |reason|)
  {
    var r := ChatErrorPrefix + reason + ChatErrorAdvice;
    assert r[..|ChatErrorPrefix|] == ChatErrorPrefix;
    assert r[|ChatErrorPrefix|..|ChatErrorPrefix| + |reason|] == reason;
    assert r[|ChatErrorPrefix| + |reason|..|r|] == ChatErrorAdvice;
    r
  }

  /** The messages `sendMessageToBackend` appends for an outcome. */
  function ReplyMessages(outcome: ChatOutcome): (r: seq<Message>)
    ensures 1 <= |r| <= 2
    ensures r[0].sender == BotSender <==> outcome.Answered?
    ensures !outcome.Answered? ==> |r| == 1 && r[0].sender == SystemSender && r[0].notice == Some(Failure)
    ensures outcome.ChatRefused? ==>
              r[0].text == ChatErrorText(if outcome.error.Some? && outcome.error.value != "" then outcome.error.value
                                         else "Failed to get response")
    ensures outcome.ChatThrew? ==> r[0].text == ChatErrorText(outcome.message)
    ensures outcome.Answered? ==>
              && r[0].text == outcome.response
              && r[0].sources == Some(if outcome.sources.Some? then outcome.sources.value else [])
              && r[0].chunksUsed == Some(if outcome.chunksUsed.Some? then outcome.chunksUsed.value else 0)
              && (|r| == 2 <==> outcome.sources.Some? && outcome.sources.value != [])
              && (|r| == 2 ==> r[1] == SystemMessage(SourcesLine(outcome.sources.value, outcome.chunksUsed), Info))
  {
    match outcome
    case Answered(response, sources, chunksUsed) =>
      var bot := Message(ClockId, response, BotSender, None,
                         Some(if sources.Some? then sources.value else []),
                         Some(if chunksUsed.Some? then chunksUsed.value else 0));
      if sources.Some? && sources.value != [] then
        [bot, SystemMessage(SourcesLine(sources.value, chunksUsed), Info)]
      else [bot]
    case ChatRefused(error) =>
      [SystemMessage(ChatErrorText(OrElse(error, "Failed to get response")), Failure)]
    case ChatThrew(message) =>
      [SystemMessage(ChatErrorText(message), Failure)]
  }

  /** The connection indicator after a health check. */
  function ApplyHealth(current: ApiStatus, reply: HealthReply): (r: ApiStatus)
    ensures reply.HealthOk? ==>
              r.connected && r.documentsLoaded == reply.documentsLoaded && r.chunksCount == Some(reply.chunksCount)
    ensures reply.HealthNotOk? ==> r == current
    ensures reply.HealthThrew? ==> !r.connected && !r.documentsLoaded && r.chunksCount == None
  {
    match reply
    case HealthOk(documentsLoaded, chunksCount) => ApiStatus(true, documentsLoaded, Some(chunksCount))
    case HealthNotOk => current
    case HealthThrew => ApiStatus(false, false, None)
  }

  class Assistant {
    /** The `sessionId` prop. */
    var sessionId: Option<string>
    var messages: seq<Message>
    var inputText: string
    var isTyping: bool
    var isUploading: bool
    var uploadStatus: UploadStatus
    var apiStatus: ApiStatus
    /** Every request sent so far, in order. */
    ghost var requests: seq<Request>

    /** Mounting: the initial state, then the two effects that run on mount
        (the connection check and the session effect). */
    constructor (session: Option<string>, health: HealthReply, history: HistoryReply)
      ensures sessionId == session && inputText == "" && !isTyping && !isUploading && uploadStatus == NoStatus
      ensures apiStatus == ApplyHealth(ApiStatus(false, false, None), health)
      ensures !HasSession(session) ==> messages == [Greeting] && requests == [HealthRequest]
      ensures HasSession(session) ==>
                && messages == (if history.HistoryOk? then MapHistory(history.records) else [])
                && requests == [HealthRequest, HistoryRequest(session.value)]
    {
      sessionId := session;
      messages := [];
      inputText := "";
      isTyping := false;
      isUploading := false;
      uploadStatus := NoStatus;
      apiStatus := ApiStatus(false, false, None);
      requests := [];
      new;
      CheckApiConnection(health);
      SessionEffect(history);
    }

    /** The effect that runs when `sessionId` changes: a greeting when there
        is no session, otherwise the session's history. */
    method SessionEffect(history: HistoryReply)
      modifies this
      ensures !HasSession(sessionId) ==> messages == [Greeting] && requests == old(requests)
      ensures HasSession(sessionId) ==>
                && messages == (if history.HistoryOk? then MapHistory(history.records) else old(messages))
                && requests == old(requests) + [HistoryRequest(sessionId.value)]
      ensures sessionId == old(sessionId) && inputText == old(inputText) && isTyping == old(isTyping)
      ensures isUploading == old(isUploading) && uploadStatus == old(uploadStatus) && apiStatus == old(apiStatus)
    {
      if HasSession(sessionId) {
        FetchMessages(sessionId.value, history);
      } else {
        messages := [Greeting];
      }
    }

    /** The parent selects another session. */
    method SelectSession(session: Option<string>, history: HistoryReply)
      modifies this
      ensures sessionId == session
      ensures session == old(sessionId) ==> messages == old(messages) && requests == old(requests)
      ensures session != old(sessionId) && !HasSession(session) ==> messages == [Greeting] && requests == old(requests)
      ensures session != old(sessionId) && HasSession(session) ==>
                && messages == (if history.HistoryOk? then MapHistory(history.records) else old(messages))
                && requests == old(requests) + [HistoryRequest(session.value)]
      ensures inputText == old(inputText) && isTyping == old(isTyping)
      ensures isUploading == old(isUploading) && uploadStatus == old(uploadStatus) && apiStatus == old(apiStatus)
    {
      if session != sessionId {
        sessionId := session;
        SessionEffect(history);
      }
    }

    /** `fetchMessages(id)`. */
    method FetchMessages(id: string, history: HistoryReply)
      modifies this
      ensures messages == (if history.HistoryOk? then MapHistory(history.records) else old(messages))
      ensures requests == old(requests) + [HistoryRequest(id)]
      ensures sessionId == old(sessionId) && inputText == old(inputText) && isTyping == old(isTyping)
      ensures isUploading == old(isUploading) && uploadStatus == old(uploadStatus) && apiStatus == old(apiStatus)
    {
      requests := requests + [HistoryRequest(id)];
      if history.HistoryOk? {
        messages := MapHistory(history.records);
      }
    }

    /** `checkApiConnection()`. */
    method CheckApiConnection(health: HealthReply)
      modifies this
      ensures apiStatus == ApplyHealth(old(apiStatus), health)
      ensures requests == old(requests) + [HealthRequest]
      ensures sessionId == old(sessionId) && messages == old(messages) && inputText == old(inputText)
      ensures isTyping == old(isTyping) && isUploading == old(isUploading) && uploadStatus == old(uploadStatus)
    {
      requests := requests + [HealthRequest];
      match health {
        case HealthOk(documentsLoaded, chunksCount) =>
          apiStatus := ApiStatus(true, documentsLoaded, Some(chunksCount));
        case HealthNotOk =>
        case HealthThrew =>
          apiStatus := ApiStatus(false, false, None);
      }
    }

    /** `addSystemMessage(text, type)`. */
    method AddSystemMessage(text: string, notice: Notice)
      modifies this
      ensures messages == old(messages) + [SystemMessage(text, notice)]
      ensures sessionId == old(sessionId) && inputText == old(inputText) && isTyping == old(isTyping)
      ensures isUploading == old(isUploading) && uploadStatus == old(uploadStatus)
      ensures apiStatus == old(apiStatus) && requests == old(requests)
    {
      messages := messages + [SystemMessage(text, notice)];
    }

    /** `pollUploadStatus()`: one status request per round, at most 31. */
    method PollUploadStatus(reply: nat -> StatusReply, health: HealthReply)
      modifies this
      ensures uploadStatus == PollFrom(reply, 0).status
      ensures requests == old(requests) + PollRequests(reply)
      ensures apiStatus == (if PollFrom(reply, 0).terminal then ApplyHealth(old(apiStatus), health) else old(apiStatus))
      ensures sessionId == old(sessionId) && messages == old(messages) && inputText == old(inputText)
      ensures isTyping == old(isTyping) && isUploading == old(isUploading)
    {
      ghost var end := PollFrom(reply, 0);
      var attempts: nat := 0;
      var polling := true;
      var status := uploadStatus;
      var terminal := false;
      ghost var sent: nat := 0;
      while polling
        invariant attempts <= MaxAttempts
        invariant polling ==> PollFrom(reply, attempts) == end && sent == attempts && !terminal
        invariant !polling ==> status == end.status && terminal == end.terminal && sent == end.requests
        decreases MaxAttempts - attempts, if polling then 1 else 0
      {
        sent := sent + 1;
        match reply(attempts) {
          case StatusThrew =>
            status := StatusUnknown;
            polling := false;
          case StatusBody(processing, message) =>
            if processing && attempts < MaxAttempts {
              status := UploadStatus(OrElse(message, "Processing document..."), Loading);
              attempts := attempts + 1;
            } else {
              status := TerminalStatus(message);
              terminal := true;
              polling := false;
            }
        }
      }
      requests := requests + StatusRequests(sent);
      uploadStatus := status;
      if terminal {
        CheckApiConnection(health);
        requests := requests + [StatusResetScheduled];
      }
    }

    /** The reset the terminal poll schedules, when it fires. */
    method ResetUploadStatus()
      modifies this
      ensures uploadStatus == NoStatus
      ensures sessionId == old(sessionId) && messages == old(messages) && inputText == old(inputText)
      ensures isTyping == old(isTyping) && isUploading == old(isUploading)
      ensures apiStatus == old(apiStatus) && requests == old(requests)
    {
      uploadStatus := NoStatus;
    }

    /** `handleFileUpload` up to its `await`: the checks on the selected
        `file` (None when none is selected), then the pending upload. It
        returns the name of the file sent, None when nothing was sent. */
    method StartUpload(file: Option<FileInfo>) returns (sent: Option<string>)
      modifies this
      ensures sent.Some? <==> file.Some? && ValidateFile(file.value).None?
      ensures sent.None? ==>
                && messages == old(messages) && isUploading == old(isUploading) && requests == old(requests)
                && uploadStatus == (if file.None? then old(uploadStatus) else ValidateFile(file.value).value)
      ensures sent.Some? ==>
                && sent.value == file.value.name
                && isUploading && uploadStatus == UploadStatus("Uploading and processing document...", Loading)
                && messages == old(messages) + [SystemMessage(UploadingLine(sent.value), Info)]
                && requests == old(requests) + [UploadRequest(sent.value)]
      ensures sessionId == old(sessionId) && inputText == old(inputText) && isTyping == old(isTyping)
      ensures apiStatus == old(apiStatus)
    {
      if file.None? {
        return None;
      }
      var f := file.value;
      var rejection := ValidateFile(f);
      if rejection.Some? {
        uploadStatus := rejection.value;
        return None;
      }
      isUploading := true;
      uploadStatus := UploadStatus("Uploading and processing document...", Loading);
      AddSystemMessage(UploadingLine(f.name), Info);
      requests := requests + [UploadRequest(f.name)];
      sent := Some(f.name);
    }

    /** `handleFileUpload` from its `await` on: the outcome of the upload of
        `name`, the end of the pending state, and on success the poll, whose
        requests `reply` and `health` answer. */
    method FinishUpload(name: string, outcome: UploadOutcome, reply: nat -> StatusReply, health: HealthReply)
      modifies this
      ensures !isUploading
      ensures messages == old(messages) + [UploadResultMessage(name, outcome)]
      ensures outcome.Uploaded? ==>
                && requests == old(requests) + PollRequests(reply)
                && uploadStatus == PollFrom(reply, 0).status
                && apiStatus == (if PollFrom(reply, 0).terminal then ApplyHealth(old(apiStatus), health) else old(apiStatus))
      ensures !outcome.Uploaded? ==>
                && requests == old(requests) && apiStatus == old(apiStatus)
                && uploadStatus == UploadStatus("Upload failed: " + UploadError(outcome), Errored)
      ensures sessionId == old(sessionId) && inputText == old(inputText) && isTyping == old(isTyping)
    {
      var result := UploadResultMessage(name, outcome);
      if outcome.Uploaded? {
        uploadStatus := UploadStatus("Document uploaded successfully! Processing...", Succeeded);
        AddSystemMessage(result.text, Success);
      } else {
        uploadStatus := UploadStatus("Upload failed: " + UploadError(outcome), Errored);
        AddSystemMessage(result.text, Failure);
      }
      isUploading := false;
      if outcome.Uploaded? {
        PollUploadStatus(reply, health);
      }
    }

    /** `handleFileUpload` run to completion. */
    method HandleFileUpload(file: Option<FileInfo>, outcome: UploadOutcome,
                            reply: nat -> StatusReply, health: HealthReply)
      modifies this
      ensures file.None? || ValidateFile(file.value).Some? ==>
                && messages == old(messages) && isUploading == old(isUploading)
                && requests == old(requests) && apiStatus == old(apiStatus)
                && uploadStatus == (if file.None? then old(uploadStatus) else ValidateFile(file.value).value)
      ensures file.Some? && ValidateFile(file.value).None? ==>
                && !isUploading
                && messages == old(messages) + [SystemMessage(UploadingLine(file.value.name), Info)]
                                             + [UploadResultMessage(file.value.name, outcome)]
                && (outcome.Uploaded? ==>
                      && requests == old(requests) + [UploadRequest(file.value.name)] + PollRequests(reply)
                      && uploadStatus == PollFrom(reply, 0).status
                      && apiStatus == (if PollFrom(reply, 0).terminal then ApplyHealth(old(apiStatus), health)
                                       else old(apiStatus)))
                && (!outcome.Uploaded? ==>
                      && requests == old(requests) + [UploadRequest(file.value.name)]
                      && uploadStatus == UploadStatus("Upload failed: " + UploadError(outcome), Errored)
                      && apiStatus == old(apiStatus))
      ensures sessionId == old(sessionId) && inputText == old(inputText) && isTyping == old(isTyping)
    {
      var sent := StartUpload(file);
      if sent.Some? {
        FinishUpload(sent.value, outcome, reply, health);
      }
    }

    /** `sendMessageToBackend(text)`. */
    method SendMessageToBackend(text: string, outcome: ChatOutcome)
      modifies this
      ensures messages == old(messages) + ReplyMessages(outcome)
      ensures requests == old(requests) + [ChatRequest(text)]
      ensures sessionId == old(sessionId) && inputText == old(inputText) && isTyping == old(isTyping)
      ensures isUploading == old(isUploading) && uploadStatus == old(uploadStatus) && apiStatus == old(apiStatus)
    {
      requests := requests + [ChatRequest(text)];
      messages := messages + ReplyMessages(outcome);
    }

    /** `handleSendMessage` up to its `await`: the guard, the user's message,
        and the pending state. It returns the text sent, None when the guard
        refused. */
    method BeginSend() returns (sent: Option<string>)
      modifies this
      ensures sent.None? <==> IsBlank(old(inputText)) || old(isTyping)
      ensures sent.None? ==> messages == old(messages) && inputText == old(inputText) && isTyping == old(isTyping)
      ensures sent.Some? ==>
                && sent.value == old(inputText)
                && messages == old(messages) + [Message(ClockId, old(inputText), UserSender, None, None, None)]
                && inputText == "" && isTyping
      ensures sessionId == old(sessionId) && isUploading == old(isUploading) && uploadStatus == old(uploadStatus)
      ensures apiStatus == old(apiStatus) && requests == old(requests)
    {
      if IsBlank(inputText) || isTyping {
        return None;
      }
      var text := inputText;
      messages := messages + [Message(ClockId, text, UserSender, None, None, None)];
      inputText := "";
      isTyping := true;
      sent := Some(text);
    }

    /** `handleSendMessage` from its `await` on: the reply, then the pending
        state ends. */
    method CompleteSend(text: string, outcome: ChatOutcome)
      modifies this
      ensures messages == old(messages) + ReplyMessages(outcome)
      ensures requests == old(requests) + [ChatRequest(text)]
      ensures !isTyping
      ensures sessionId == old(sessionId) && inputText == old(inputText) && isUploading == old(isUploading)
      ensures uploadStatus == old(uploadStatus) && apiStatus == old(apiStatus)
    {
      SendMessageToBackend(text, outcome);
      isTyping := false;
    }

    /** `handleSendMessage` run to completion. */
    method HandleSendMessage(outcome: ChatOutcome)
      modifies this
      ensures IsBlank(old(inputText)) || old(isTyping) ==>
                messages == old(messages) && inputText == old(inputText) && isTyping == old(isTyping)
                && requests == old(requests)
      ensures !IsBlank(old(inputText)) && !old(isTyping) ==>
                && messages == old(messages) + [Message(ClockId, old(inputText), UserSender, None, None, None)]
                                             + ReplyMessages(outcome)
                && requests == old(requests) + [ChatRequest(old(inputText))]
                && inputText == "" && !isTyping
      ensures sessionId == old(sessionId) && isUploading == old(isUploading)
      ensures uploadStatus == old(uploadStatus) && apiStatus == old(apiStatus)
    {
      var sent := BeginSend();
      if sent.Some? {
        CompleteSend(sent.value, outcome);
      }
    }
  }
}
