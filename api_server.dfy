/** The request gatekeeping of backend/app.py: the extension check, the
    validation cascades of the upload and chat endpoints, the fields the
    health and info endpoints derive, and the processing-status record the
    background upload job updates step by step.

    `storedChunks` below is `len(VECTOR_DB)` as app.py sees it (the list it
    imported), and `answer` is what `chat_query` returned; no relation to
    main.py's current store is assumed. */
module ApiServer {
  import opened Common
  import opened DocumentProcessor
  import VectorStore

  const AllowedExtensions: set<string> := {"txt", "pdf", "docx"}

  /** `listing` is an iteration of the set `ALLOWED_EXTENSIONS`: each allowed
      extension exactly once. Its order depends on the process's string
      hashing, so the functions below take it as a parameter; one process
      iterates the set in one order, for `", ".join(...)` and `list(...)` alike. */
  predicate IsListing(listing: seq<string>) {
    && (forall x :: x in listing ==> x in AllowedExtensions)
    && (forall x :: x in AllowedExtensions ==> x in listing)
    && (forall i, j :: 0 <= i < j < |listing| ==> listing[i] != listing[j])
  }

  const MaxFileSize: nat := 16 * 1024 * 1024

  // --------------------------------------------------------------- allowed_file

  /** `allowed_file`: the name contains '.', and the text after its last '.',
      lower-cased, is an allowed extension. */
  function AllowedFile(filename: string): (ok: bool)
    ensures ok <==> exists i :: 0 <= i < |filename| && filename[i] == '.'
                                && (forall j :: i < j < |filename| ==> filename[j] != '.')
                                && Lower(filename[i + 1..]) in AllowedExtensions
  {
    var dot := RFind(filename, '.', 0, |filename|);
    dot >= 0 && Lower(filename[dot + 1..]) in AllowedExtensions
  }

  /** A trailing dot leaves no extension. */
  lemma RejectsTrailingDot()
    ensures !AllowedFile("x.")
  {
    var s := "x.";
    assert s[0] == 'x' && s[1] == '.';
    assert RFind(s, '.', 0, 2) == 1;
    assert s[2..] == [];
  }

  /** A name that is only an extension is accepted, whatever its case. */
  lemma AcceptsBareUpperExtension()
    ensures AllowedFile(".PDF")
  {
    var s := ".PDF";
    assert s[0] == '.' && s[1] == 'P' && s[2] == 'D' && s[3] == 'F';
    assert RFind(s, '.', 0, 4) == 0;
    assert Lower(s[1..]) == "pdf";
  }

  /** Only the text after the last dot counts. */
  lemma RejectsInnerExtension()
    ensures !AllowedFile("a.pdf.exe")
  {
    var s := "a.pdf.exe";
    assert s[5] == '.' && s[6] == 'e' && s[7] == 'x' && s[8] == 'e';
    assert RFind(s, '.', 0, 9) == 5;
    assert Lower(s[6..])[0] == 'e';
  }

  /** A name without a dot is rejected even when it spells an extension. */
  lemma RejectsNoDot()
    ensures !AllowedFile("docx")
  {
    var s := "docx";
    assert s[0] == 'd' && s[1] == 'o' && s[2] == 'c' && s[3] == 'x';
    assert RFind(s, '.', 0, 4) == -1;
  }

  /** `Lower` commutes with a leading '.'. */
  lemma LowerAfterDot(ext: string)
    ensures Lower("." + ext) == "." + Lower(ext)
  {
  }

  /** Every lower-cased suffix `load_document` accepts is an accepted
      extension behind its dot. */
  lemma SupportedSuffixIsAllowed(ext: string)
    requires Lower("." + ext) in SupportedSuffixes
    ensures Lower(ext) in AllowedExtensions
  {
    LowerAfterDot(ext);
    var l := Lower(ext);
    assert ("." + l)[1..] == l;
    assert ".txt"[1..] == "txt" && ".docx"[1..] == "docx" && ".pdf"[1..] == "pdf";
  }

  /** A '.' followed by dot-free text is the last '.' of the string. */
  lemma LastDot(name: string, i: nat, ext: string)
    requires i < |name| && name[i..] == "." + ext && '.' !in ext
    ensures name[i] == '.' && name[i + 1..] == ext
    ensures forall j :: i < j < |name| ==> name[j] != '.'
  {
    assert name[i..][0] == '.';
    assert name[i + 1..] == name[i..][1..];
    forall j | i < j < |name|
      ensures name[j] != '.'
    {
      assert name[j] == ext[j - i - 1];
    }
  }

  /** Every name `load_document` can dispatch passes `allowed_file` once its
      trailing '/' and "." components are dropped (a name that ends in neither
      is its own trimmed form, by TrimTailFixed). */
  lemma SupportedNameIsAllowed(name: string)
    requires KindOf(name).Some?
    ensures AllowedFile(TrimTail(name))
  {
    SuffixEndsTrimmed(name);
    SupportedTailIsAllowed(TrimTail(name), Suffix(name));
  }

  /** A name that ends in a suffix `load_document` dispatches passes
      `allowed_file`. */
  lemma SupportedTailIsAllowed(name: string, suffix: string)
    requires |suffix| >= 2 && suffix[0] == '.' && '.' !in suffix[1..]
    requires |suffix| <= |name| && suffix == name[|name| - |suffix|..]
    requires Lower(suffix) in SupportedSuffixes
    ensures AllowedFile(name)
  {
    var i := |name| - |suffix|;
    var ext := suffix[1..];
    assert suffix == "." + ext;
    SupportedSuffixIsAllowed(ext);
    LastDot(name, i, ext);
  }

  /** A name without '/' is its own base name. */
  lemma NoSlashBasename(s: string)
    requires '/' !in s
    ensures Basename(s) == s
  {
    var slash := RFind(s, '/', 0, |s|);
    assert slash == -1;
  }

  /** A name whose only '.' is its first character (such as ".pdf") is all
      extension: `Path.suffix` is empty. */
  lemma LeadingDotNoSuffix(s: string)
    requires s != [] && s[0] == '.' && '.' !in s[1..] && '/' !in s
    ensures Suffix(s) == []
  {
    if s == "." {
      assert TrimTail(s) == [];
    } else {
      assert s[|s| - 1] == s[1..][|s| - 2];
      PlainPathName(s);
      LeadingDotNameSuffix(s);
    }
  }

  /** The same for the name itself. */
  lemma LeadingDotNameSuffix(s: string)
    requires s != [] && s[0] == '.' && '.' !in s[1..] && '/' !in s
    ensures NameSuffix(s) == []
  {
    var dot := RFind(s, '.', 0, |s|);
    assert forall k :: 1 <= k < |s| ==> s[k] == s[1..][k - 1];
    assert dot == 0;
  }

  /** The converse fails: ".pdf" passes `allowed_file`, yet it has no suffix
      for `load_document`, which rejects it. */
  lemma AllowedNameNotLoadable()
    ensures AllowedFile(".pdf") && KindOf(".pdf").None?
  {
    var s := ".pdf";
    assert s[0] == '.' && s[1] == 'p' && s[2] == 'd' && s[3] == 'f';
    assert RFind(s, '.', 0, 4) == 0;
    assert Lower(s[1..]) == "pdf";
    assert '/' !in s && '.' !in s[1..];
    LeadingDotNoSuffix(s);
  }

  // ---------------------------------------------------------------- upload_file

  datatype UploadReply =
    | UploadStarted(message: string, filename: string, status: string)
    | UploadRejected(code: int, error: string)

  const BusyError := "Another file is currently being processed. Please wait."
  function UnsupportedTypeError(listing: seq<string>): string {
    "File type not supported. Allowed types: " + Join(listing, ", ")
  }
  const UploadStartedMessage := "File upload started. Processing in background..."

  /** The cascade of `upload_file`. `file` is the filename of the request's
      `file` part (None when there is none), `secured` what `secure_filename`
      made of it, `saveError` the text of the exception saving it raised, and
      `listing` the order in which the set of allowed extensions iterates. */
  function UploadDecision(listing: seq<string>, isProcessing: bool, file: Option<string>, secured: string,
                          saveError: Option<string>): (r: UploadReply)
    requires IsListing(listing)
    ensures isProcessing ==> r == UploadRejected(429, BusyError)
    ensures !isProcessing && file.None? ==> r == UploadRejected(400, "No file provided")
    ensures !isProcessing && file == Some("") ==> r == UploadRejected(400, "No file selected")
    ensures !isProcessing && file.Some? && file.value != "" && !AllowedFile(file.value) ==>
              r == UploadRejected(400, UnsupportedTypeError(listing))
    ensures r.UploadStarted? <==> !isProcessing && file.Some? && AllowedFile(file.value) && saveError.None?
    ensures r.UploadStarted? ==> r == UploadStarted(UploadStartedMessage, secured, "processing")
    ensures r.UploadRejected? ==> r.code == 400 || r.code == 429 || r.code == 500
  {
    if isProcessing then UploadRejected(429, BusyError)
    else if file.None? then UploadRejected(400, "No file provided")
    else if file.value == "" then UploadRejected(400, "No file selected")
    else if !AllowedFile(file.value) then UploadRejected(400, UnsupportedTypeError(listing))
    else if saveError.Some? then UploadRejected(500, "Upload failed: " + saveError.value)
    else UploadStarted(UploadStartedMessage, secured, "processing")
  }

  // ------------------------------------------------------ process_file_background

  /** The `processing_status` record. */
  datatype Status = Status(isProcessing: bool, progress: int, message: string, currentFile: Option<string>)

  const Idle := Status(false, 0, "", None)

  predicate ValidStatus(s: Status) {
    s.progress == 0 || s.progress == 25 || s.progress == 100
  }

  const StartingMessage := "Starting file processing..."
  const ReadingMessage := "Reading file..."
  const SuccessMessage := "File processed successfully!"
  const FailureMessage := "Failed to process file"

  /** What the call to `process_uploaded_file` in the job came to: its
      boolean, or an exception escaping it. */
  datatype ProcessOutcome = Processed(success: bool) | Raised(error: string)

  /** The record once the job has begun reading the file. */
  function Halfway(filename: string): Status {
    Status(true, 25, ReadingMessage, Some(filename))
  }

  /** The values the record takes up to the call to `process_uploaded_file`. */
  function StartTrace(filename: string): seq<Status> {
    [Status(true, 0, StartingMessage, Some(filename)), Status(true, 0, ReadingMessage, Some(filename)), Halfway(filename)]
  }

  /** The values the record takes after that call. */
  function FinishTrace(filename: string, outcome: ProcessOutcome): seq<Status> {
    match outcome
    case Processed(ok) =>
      var done := Halfway(filename).(progress := 100);
      [done, done.(message := if ok then SuccessMessage else FailureMessage), Idle]
    case Raised(e) =>
      [Status(false, 0, "Error: " + e, None)]
  }

  /** Every value the record takes during one run of the job, in order. */
  function BackgroundTrace(filename: string, outcome: ProcessOutcome): (t: seq<Status>)
    ensures |t| >= 4
  {
    StartTrace(filename) + FinishTrace(filename, outcome)
  }

  /** The job starts processing the file, only moves progress forward while
      it works, and ends not processing; progress is always 0, 25 or 100. */
  lemma BackgroundTraceShape(filename: string, outcome: ProcessOutcome)
    ensures var t := BackgroundTrace(filename, outcome);
            var last := t[|t| - 1];
            && t[0] == Status(true, 0, StartingMessage, Some(filename))
            && (forall i :: 0 <= i < |t| ==> ValidStatus(t[i]))
            && (forall i :: 0 <= i < |t| - 1 ==> t[i].isProcessing && t[i].currentFile == Some(filename))
            && (forall i, j :: 0 <= i <= j < |t| - 1 ==> t[i].progress <= t[j].progress)
            && !last.isProcessing && last.progress == 0 && last.currentFile.None?
            && (outcome.Processed? ==>
                  last == Idle && t[|t| - 3].progress == 100
                  && t[|t| - 2].message == (if outcome.success then SuccessMessage else FailureMessage))
            && (outcome.Raised? ==> last.message == "Error: " + outcome.error)
  {
  }

  class ProcessingStatus {
    var isProcessing: bool
    var progress: int
    var message: string
    var currentFile: Option<string>
    /** Every value the record has held, in order: what the status endpoint
        could have reported at some moment. */
    ghost var history: seq<Status>

    function Current(): Status
      reads this
    {
      Status(isProcessing, progress, message, currentFile)
    }

    ghost predicate Valid()
      reads this
    {
      && history != []
      && history[|history| - 1] == Current()
      && forall s :: s in history ==> ValidStatus(s)
    }

    constructor ()
      ensures Valid() && Current() == Idle && history == [Idle]
    {
      isProcessing, progress, message, currentFile := false, 0, "", None;
      history := [Idle];
    }

    /** The job up to the call to `process_uploaded_file`. */
    method StartJob(filename: string)
      requires Valid()
      modifies this
      ensures Valid() && Current() == Halfway(filename)
      ensures history == old(history) + StartTrace(filename)
    {
      ghost var seen: seq<Status> := [];
      isProcessing, progress, message, currentFile := true, 0, StartingMessage, Some(filename);
      seen := seen + [Current()];
      message := ReadingMessage;
      seen := seen + [Current()];
      progress := 25;
      seen := seen + [Current()];
      assert seen == StartTrace(filename);
      history := history + seen;
    }

    /** The job from the call to `process_uploaded_file` on. */
    method FinishJob(filename: string, outcome: ProcessOutcome)
      requires Valid() && Current() == Halfway(filename)
      modifies this
      ensures Valid()
      ensures history == old(history) + FinishTrace(filename, outcome)
    {
      ghost var seen: seq<Status> := [];
      match outcome {
        case Processed(ok) =>
          progress := 100;
          seen := seen + [Current()];
          if ok {
            message := SuccessMessage;
          } else {
            message := FailureMessage;
          }
          seen := seen + [Current()];
          isProcessing, progress, message, currentFile := false, 0, "", None;
          seen := seen + [Current()];
          assert seen == FinishTrace(filename, Processed(ok));
        case Raised(e) =>
          isProcessing, progress, message, currentFile := false, 0, "Error: " + e, None;
          seen := seen + [Current()];
          assert seen == FinishTrace(filename, Raised(e));
      }
      history := history + seen;
    }

    /** `process_file_background`, run to completion. */
    method RunBackground(filename: string, outcome: ProcessOutcome)
      requires Valid()
      modifies this
      ensures Valid()
      ensures history == old(history) + BackgroundTrace(filename, outcome)
    {
      StartJob(filename);
      FinishJob(filename, outcome);
      assert history == old(history) + StartTrace(filename) + FinishTrace(filename, outcome);
    }
  }

  /** `upload_file`: the cascade, then the background job when it accepts.
      A rejected request leaves the status record as it was. */
  method UploadFile(listing: seq<string>, status: ProcessingStatus, file: Option<string>, secured: string,
                    saveError: Option<string>, outcome: ProcessOutcome) returns (r: UploadReply)
    requires IsListing(listing) && status.Valid()
    modifies status
    ensures status.Valid()
    ensures r == UploadDecision(listing, old(status.isProcessing), file, secured, saveError)
    ensures r.UploadRejected? ==> status.history == old(status.history) && status.Current() == old(status.Current())
    ensures r.UploadStarted? ==> status.history == old(status.history) + BackgroundTrace(secured, outcome)
  {
    r := UploadDecision(listing, status.isProcessing, file, secured, saveError);
    if r.UploadStarted? {
      status.RunBackground(secured, outcome);
    }
  }

  // ----------------------------------------------------------------------- chat

  /** A parsed JSON request body (numbers are integers here). */
  datatype Json =
    | JNull
    | JBool(b: bool)
    | JNum(n: int)
    | JStr(s: string)
    | JArr(items: seq<Json>)
    | JObj(fields: map<string, Json>)

  /** Python truthiness of the decoded value. */
  predicate Truthy(j: Json) {
    match j
    case JNull => false
    case JBool(b) => b
    case JNum(n) => n != 0
    case JStr(s) => s != ""
    case JArr(items) => items != []
    case JObj(fields) => fields != map[]
  }

  /** The Python type name of the decoded value. */
  function TypeName(j: Json): string {
    match j
    case JNull => "NoneType"
    case JBool(_) => "bool"
    case JNum(_) => "int"
    case JStr(_) => "str"
    case JArr(_) => "list"
    case JObj(_) => "dict"
  }

  datatype ChatReply =
    | ChatAnswer(response: string, sources: seq<string>, chunksUsed: nat, query: Option<string>)
    | ChatRejected(code: int, error: string)

  const NoDocumentsYet := "No documents have been uploaded yet. Please upload a document first to ask questions."

  function ChatFailed(reason: string): ChatReply {
    ChatRejected(500, "Chat processing failed: " + reason)
  }

  /** `chat`. A body that is not a JSON object but is truthy makes `in` or the
      indexing raise, which the handler turns into a 500. */
  function Chat(data: Json, storedChunks: nat, answer: VectorStore.ChatResult): (r: ChatReply)
    ensures !Truthy(data) ==> r == ChatRejected(400, "No message provided")
    ensures data.JObj? && "message" !in data.fields ==> r == ChatRejected(400, "No message provided")
    ensures data.JObj? && "message" in data.fields && data.fields["message"].JStr? ==>
              var s := data.fields["message"].s;
              && (AllPySpace(s) ==> r == ChatRejected(400, "Empty message"))
              && (!AllPySpace(s) && storedChunks == 0 ==>
                    r == ChatAnswer(NoDocumentsYet, [], 0, None))
              && (!AllPySpace(s) && storedChunks > 0 ==>
                    r == ChatAnswer(answer.response, answer.sources, answer.chunksUsed, Some(Strip(s))))
    ensures r.ChatAnswer? ==> data.JObj? && r.query.None? == (storedChunks == 0)
    ensures r.ChatAnswer? && r.query.Some? ==>
              r.query.value != [] && !IsPySpace(r.query.value[0]) && !IsPySpace(r.query.value[|r.query.value| - 1])
    ensures r.ChatRejected? ==> r.code == 400 || r.code == 500
  {
    if !Truthy(data) then ChatRejected(400, "No message provided")
    else match data
      case JObj(fields) =>
        if "message" !in fields then ChatRejected(400, "No message provided")
        else if !fields["message"].JStr? then
          ChatFailed("'" + TypeName(fields["message"]) + "' object has no attribute 'strip'")
        else
          var s := fields["message"].s;
          var userMessage := Strip(s);
          StripEmptyIff(s);
          if userMessage == "" then ChatRejected(400, "Empty message")
          else if storedChunks == 0 then ChatAnswer(NoDocumentsYet, [], 0, None)
          else ChatAnswer(answer.response, answer.sources, answer.chunksUsed, Some(userMessage))
      case JStr(s) =>
        if !Contains(s, "message") then ChatRejected(400, "No message provided")
        else ChatFailed("string indices must be integers, not 'str'")
      case JArr(items) =>
        if JStr("message") !in items then ChatRejected(400, "No message provided")
        else ChatFailed("list indices must be integers or slices, not str")
      case _ =>
        ChatFailed("argument of type '" + TypeName(data) + "' is not iterable")
  }

  // ------------------------------------------------------ health_check, get_info

  datatype Health = Health(status: string, message: string, documentsLoaded: bool, chunksCount: nat)

  /** `health_check`. */
  function HealthCheck(storedChunks: nat): (r: Health)
    ensures r.status == "healthy" && r.message == "RAG Chatbot API is running"
    ensures r.chunksCount == storedChunks
    ensures r.documentsLoaded <==> r.chunksCount > 0
  {
    Health("healthy", "RAG Chatbot API is running", storedChunks > 0, storedChunks)
  }

  datatype Info = Info(documentsLoaded: bool, chunksCount: nat, currentFile: Option<string>,
                       isProcessing: bool, supportedFormats: seq<string>, maxFileSizeMb: nat)

  /** `get_info`, over the current processing status; `listing` is the
      order in which the set of allowed extensions iterates. */
  function GetInfo(listing: seq<string>, storedChunks: nat, status: Status): (r: Info)
    requires IsListing(listing)
    ensures r.chunksCount == storedChunks
    ensures r.documentsLoaded <==> r.chunksCount > 0
    ensures r.currentFile == status.currentFile && r.isProcessing == status.isProcessing
    ensures forall x :: x in r.supportedFormats <==> x in AllowedExtensions
    ensures forall i, j :: 0 <= i < j < |r.supportedFormats| ==> r.supportedFormats[i] != r.supportedFormats[j]
    ensures r.maxFileSizeMb == 16
  {
    Info(storedChunks > 0, storedChunks, status.currentFile, status.isProcessing,
         listing, MaxFileSize / (1024 * 1024))
  }
}
