/**
 * The chat dialogue: how an incoming message or button press is routed to a
 * handler, and what each handler does to the user's FSM context and to the
 * topics table. Prompts, keyboards and the report to the group chat are not
 * modelled; each event yields one `Reply` that names what the user is told.
 */
module Dialogue {
  import opened Wrappers
  import opened Labels
  import opened Naming
  import opened Storage
  import opened Fsm

  /** A document attached to a message; Telegram may omit its file name. */
  datatype Document = Document(fileName: Option<string>)

  /** What reaches the bot: a message (text and/or document) or an inline-button press. */
  datatype Event =
    | Message(text: Option<string>, document: Option<Document>)
    | Callback(data: Option<string>)

  /** The exceptions a handler can raise; the handler stops there and what it already changed stays. */
  datatype PyError =
    | MissingData(key: DataKey)        // KeyError on `data["..."]`
    | UnknownColumn(fileType: Option<string>)  // KeyError on the label-to-column dictionary
    | NotSubscriptable                 // TypeError: `files[i]` when no row was found
    | NullButtonText                   // a keyboard button built with `text=None` fails validation

  /** What the user is told about an event. */
  datatype Reply =
    | Prompted                         // the next menu or question
    | Ignored                          // no handler accepts the event
    | SentFile(path: string)           // the document at this path is sent
    | FileNotFound
    | PermissionDenied
    | Cancelled
    | NoTopicsInSection
    | AskForDocument
    | Uploaded
    | DeleteReport(outcome: DeleteOutcome)
    | Raised(error: PyError)

  /** Stored documents live under this directory. */
  const FilesDir: string := "files/"

  const BackToSectionsData: string := "back_to_sections"

  /** Python's `str.isspace()` for one character: the separators of `str.split()` with no argument. */
  predicate IsSpace(c: char)
  {
    c in {' ', '\t', '\n', '\r', '\U{0B}', '\U{0C}', '\U{1C}', '\U{1D}', '\U{1E}', '\U{1F}',
          '\U{85}', '\U{A0}', '\U{1680}', '\U{2000}', '\U{2001}', '\U{2002}', '\U{2003}', '\U{2004}',
          '\U{2005}', '\U{2006}', '\U{2007}', '\U{2008}', '\U{2009}', '\U{200A}', '\U{2028}',
          '\U{2029}', '\U{202F}', '\U{205F}', '\U{3000}'}
  }

  /** How many whitespace characters `s` starts with. */
  function LeadingSpaces(s: string): (n: nat)
    ensures n <= |s|
    ensures forall i :: 0 <= i < n ==> IsSpace(s[i])
    ensures n < |s| ==> !IsSpace(s[n])
  {
    if s != [] && IsSpace(s[0]) then 1 + LeadingSpaces(s[1..]) else 0
  }

  /** `s.split(maxsplit=1)[0]` for an `s` that starts with no whitespace: everything before the first whitespace. */
  function FirstWord(s: string): (w: string)
    ensures w <= s
    ensures forall i :: 0 <= i < |w| ==> !IsSpace(w[i])
    ensures |w| < |s| ==> IsSpace(s[|w|])
  {
    if s == [] || IsSpace(s[0]) then [] else [s[0]] + FirstWord(s[1..])
  }

  /**
   * The command a message text carries, as aiogram's `Command` filter reads
   * it: the text is split at whitespace, and its first word must start with
   * `/`; the command is the rest of that word. A text that is only whitespace
   * carries none.
   */
  function CommandOf(text: Option<string>): (c: Option<string>)
    ensures c.Some? <==>
              text.Some? && LeadingSpaces(text.value) < |text.value| && text.value[LeadingSpaces(text.value)] == '/'
    ensures c.Some? ==>
              var start := LeadingSpaces(text.value) + 1;
              && (forall i :: 0 <= i < |c.value| ==> !IsSpace(c.value[i]))
              && start + |c.value| <= |text.value|
              && text.value[start..start + |c.value|] == c.value
              && (start + |c.value| < |text.value| ==> IsSpace(text.value[start + |c.value|]))
  {
    if text.None? then None
    else
      var n := LeadingSpaces(text.value);
      if n < |text.value| && text.value[n] == '/' then
        var word := FirstWord(text.value[n + 1..]);
        assert text.value[n + 1..][..|word|] == word;
        Some(word)
      else None
  }

  /** A word without whitespace, followed by the end or by whitespace, is the first word. */
  lemma {:induction false} FirstWordOf(w: string, rest: string)
    requires forall i :: 0 <= i < |w| ==> !IsSpace(w[i])
    requires rest == [] || IsSpace(rest[0])
    ensures FirstWord(w + rest) == w
  {
    if w != [] {
      assert (w + rest)[1..] == w[1..] + rest;
      FirstWordOf(w[1..], rest);
    }
  }

  /** Leading whitespace is skipped before the `/`. */
  lemma CommandAfterIndent()
    ensures CommandOf(Some(" /start")) == Some("start")
  {
    var t := " /start";
    assert IsSpace(t[0]) && t[1..] == "/start";
    assert LeadingSpaces(t) == 1;
    assert t[2..] == "start" + [];
    FirstWordOf("start", []);
  }

  /** A newline ends the command word. */
  lemma CommandBeforeNewline()
    ensures CommandOf(Some("/start\nhi")) == Some("start")
  {
    var t := "/start\nhi";
    assert LeadingSpaces(t) == 0;
    assert t[1..] == "start" + "\nhi";
    FirstWordOf("start", "\nhi");
  }

  predicate IsCommand(text: Option<string>, name: string)
  {
    CommandOf(text) == Some(name)
  }

  /** The message handlers, named after the source's functions, and "no handler". */
  datatype Handler =
    | StartH | ChooseTopicH | SendFileH
    | AddFileStartH | AddFileTopicH | AddFileTypeH | UploadFilePromptH
    | DeleteFileStartH | DeleteChooseTopicH | DeleteChooseTypeH | DeleteSelectedFileH
    | ReceiveFileH
    | NoHandler

  /** The handler registered for messages in each state. */
  function StateHandler(state: FormState): Handler
  {
    match state
    case NoState => NoHandler
    case Section => ChooseTopicH
    case Action => SendFileH
    case AddSection => AddFileTopicH
    case AddTopic => AddFileTypeH
    case FileType => UploadFilePromptH
    case FileUpload => ReceiveFileH
    case DeleteSection => DeleteChooseTopicH
    case DeleteTopic => DeleteChooseTypeH
    case DeleteType => DeleteSelectedFileH
  }

  /**
   * Message routing: the first registered handler whose filter accepts the
   * message wins. The registration order is /start, Form.section,
   * Form.action, /add_file, Form.add_section, Form.add_topic, Form.file_type,
   * /delete_file, Form.delete_section, Form.delete_topic, Form.delete_type,
   * Form.file_upload; the command handlers accept any state.
   */
  function Route(state: FormState, text: Option<string>): (h: Handler)
    ensures h == StartH <==> IsCommand(text, "start")
    ensures h == AddFileStartH <==> IsCommand(text, "add_file") && state !in {Section, Action}
    ensures h == DeleteFileStartH <==>
              IsCommand(text, "delete_file") && state !in {Section, Action, AddSection, AddTopic, FileType}
    ensures CommandOf(text).None? ==> h == StateHandler(state)
    ensures h !in {StartH, AddFileStartH, DeleteFileStartH} ==> h == StateHandler(state)
    ensures h == NoHandler <==>
              state == NoState && !IsCommand(text, "start") && !IsCommand(text, "add_file") && !IsCommand(text, "delete_file")
  {
    if IsCommand(text, "start") then StartH
    else if state == Section then ChooseTopicH
    else if state == Action then SendFileH
    else if IsCommand(text, "add_file") then AddFileStartH
    else if state == AddSection then AddFileTopicH
    else if state == AddTopic then AddFileTypeH
    else if state == FileType then UploadFilePromptH
    else if IsCommand(text, "delete_file") then DeleteFileStartH
    else if state == DeleteSection then DeleteChooseTopicH
    else if state == DeleteTopic then DeleteChooseTypeH
    else if state == DeleteType then DeleteSelectedFileH
    else if state == FileUpload then ReceiveFileH
    else NoHandler
  }

  /** A shadowed /add_file in the section state reaches choose_topic, which then takes it for a section name. */
  lemma AddFileShadowedInSection()
    ensures Route(Section, Some("/add_file")) == ChooseTopicH
  {
    assert "/add_file"[1..] == "add_file" + [];
    FirstWordOf("add_file", []);
  }

  /** The back button is never a command, so it always reaches the current state's handler. */
  lemma BackReachesStateHandler(state: FormState)
    ensures Route(state, Some(Back)) == StateHandler(state)
  {
    assert !IsSpace(Back[0]);
    assert LeadingSpaces(Back) == 0;
  }

  /**
   * send_file's choice: the slot of the requested kind (theory 0, task 1,
   * homework 2), no file for any other text, and no choice at all (`None`,
   * the TypeError of `files[i]`) when a kind is asked of a missing row.
   */
  function ChosenFile(files: Option<Files>, action: Option<string>): (r: Option<Option<string>>)
    ensures r.None? <==> ParseFileType(action).Some? && files.None?
    ensures action == Some(TheoryLabel) && files.Some? ==> r == Some(files.value.theory)
    ensures action == Some(TaskLabel) && files.Some? ==> r == Some(files.value.task)
    ensures action == Some(HomeworkLabel) && files.Some? ==> r == Some(files.value.homework)
    ensures ParseFileType(action).None? ==> r == Some(None)
  {
    match ParseFileType(action)
    case None => Some(None)
    case Some(ft) => if files.None? then None else Some(Slot(files.value, ft))
  }

  /** The bot: two privileged user ids and the shared topics table. */
  class Bot {
    const teacher: int
    const admin: int
    const table: TopicTable

    /** The bot starts on an empty table. */
    constructor(teacher: int, admin: int)
      ensures this.teacher == teacher && this.admin == admin
      ensures fresh(table) && table.rows == []
    {
      this.teacher := teacher;
      this.admin := admin;
      table := new TopicTable();
    }

    /** The permission test of /add_file and /delete_file. */
    predicate MayEdit(user: int): (b: bool)
      ensures !b <==> user != teacher && user != admin
    {
      user == teacher || user == admin
    }

    /** The table invariant the dialogue keeps. */
    ghost predicate Valid()
      reads this, table
    {
      WellFormed(table.rows)
    }

    /** start: clear the context and ask for a section. */
    method Start(ctx: Context) returns (reply: Reply)
      modifies ctx
      ensures ctx.state == Section && ctx.data == map[] && reply == Prompted
    {
      ctx.Clear();
      ctx.SetState(Section);
      reply := Prompted;
    }

    /**
     * choose_topic: back restarts; any other text is recorded as the section
     * and the state is left unset. A NULL topic among the section's topics
     * makes the topic keyboard fail after the section is recorded, so the
     * state stays where it was.
     */
    method ChooseTopic(ctx: Context, text: Option<string>) returns (reply: Reply)
      modifies ctx
      ensures text == Some(Back) ==> ctx.state == Section && ctx.data == map[] && reply == Prompted
      ensures text != Some(Back) ==> ctx.data == old(ctx.data)[SectionKey := text]
      ensures text != Some(Back) && None in TopicsBySection(table.rows, text) ==>
                reply == Raised(NullButtonText) && ctx.state == old(ctx.state)
      ensures text != Some(Back) && None !in TopicsBySection(table.rows, text) ==>
                reply == Prompted && ctx.state == NoState
    {
      if text == Some(Back) {
        reply := Start(ctx);
        return;
      }
      ctx.UpdateData(SectionKey, text);
      if None in TopicsBySection(table.rows, text) {
        return Raised(NullButtonText);
      }
      ctx.SetState(NoState);
      reply := Prompted;
    }

    /** topic_callback: record the pressed topic and ask for an action, whatever the state. */
    method TopicCallback(ctx: Context, callbackData: string) returns (reply: Reply)
      requires TopicPrefix <= callbackData
      modifies ctx
      ensures ctx.state == Action
      ensures ctx.data == old(ctx.data)[TopicKey := Some(TopicOfCallback(callbackData))]
      ensures reply == Prompted
    {
      ctx.UpdateData(TopicKey, Some(TopicOfCallback(callbackData)));
      ctx.SetState(Action);
      reply := Prompted;
    }

    /**
     * send_file: back returns to the section menu; a requested kind sends the
     * stored file of the chosen topic, or says it is missing, and restarts.
     * A missing "section" or "topic" entry, or a kind asked of a topic with no
     * row, raises before anything changes.
     */
    method SendFile(ctx: Context, text: Option<string>) returns (reply: Reply)
      modifies ctx
      ensures text == Some(Back) ==> ctx.state == Section && ctx.data == map[] && reply == Prompted
      ensures text != Some(Back) && (SectionKey !in old(ctx.data) || TopicKey !in old(ctx.data)) ==>
                reply.Raised? && ctx.state == old(ctx.state) && ctx.data == old(ctx.data)
      ensures text != Some(Back) && SectionKey in old(ctx.data) && TopicKey in old(ctx.data) ==>
                var choice := ChosenFile(FilesForKey(table.rows, old(ctx.data)[SectionKey], old(ctx.data)[TopicKey]), text);
                if choice.None? then
                  reply == Raised(NotSubscriptable) && ctx.state == old(ctx.state) && ctx.data == old(ctx.data)
                else
                  && ctx.state == Section && ctx.data == map[]
                  && reply == if Truthy(choice.value) then SentFile(FilesDir + choice.value.value) else FileNotFound
    {
      if text == Some(Back) {
        if Truthy(ctx.Get(SectionKey)) {
          reply := ChooseTopic(ctx, text);
        } else {
          reply := Start(ctx);
        }
        return;
      }
      if SectionKey !in ctx.data {
        return Raised(MissingData(SectionKey));
      }
      if TopicKey !in ctx.data {
        return Raised(MissingData(TopicKey));
      }
      var files := FilesForKey(table.rows, ctx.data[SectionKey], ctx.data[TopicKey]);
      var choice := ChosenFile(files, text);
      if choice.None? {
        return Raised(NotSubscriptable);
      }
      var path := choice.value;
      var answer := if Truthy(path) then SentFile(FilesDir + path.value) else FileNotFound;
      reply := Start(ctx);
      reply := answer;
    }

    /** add_file_start: refuse unprivileged users without touching their context; else ask for a section. */
    method AddFileStart(ctx: Context) returns (reply: Reply)
      modifies ctx
      ensures !MayEdit(ctx.user) ==> reply == PermissionDenied && ctx.state == old(ctx.state) && ctx.data == old(ctx.data)
      ensures MayEdit(ctx.user) ==> reply == Prompted && ctx.state == AddSection && ctx.data == old(ctx.data)
    {
      if !MayEdit(ctx.user) {
        return PermissionDenied;
      }
      ctx.SetState(AddSection);
      reply := Prompted;
    }

    /** add_file_topic: back cancels the upload; any other text is recorded as the section. */
    method AddFileTopic(ctx: Context, text: Option<string>) returns (reply: Reply)
      modifies ctx
      ensures text == Some(Back) ==> reply == Cancelled && ctx.state == NoState && ctx.data == map[]
      ensures text != Some(Back) ==>
                reply == Prompted && ctx.state == AddTopic && ctx.data == old(ctx.data)[SectionKey := text]
    {
      if text == Some(Back) {
        ctx.Clear();
        return Cancelled;
      }
      ctx.UpdateData(SectionKey, text);
      ctx.SetState(AddTopic);
      reply := Prompted;
    }

    /** add_file_type: back goes through add_file_start; any other text is recorded as the topic. */
    method AddFileType(ctx: Context, text: Option<string>) returns (reply: Reply)
      modifies ctx
      ensures text == Some(Back) && !MayEdit(ctx.user) ==>
                reply == PermissionDenied && ctx.state == old(ctx.state) && ctx.data == old(ctx.data)
      ensures text == Some(Back) && MayEdit(ctx.user) ==>
                reply == Prompted && ctx.state == AddSection && ctx.data == old(ctx.data)
      ensures text != Some(Back) ==>
                reply == Prompted && ctx.state == FileType && ctx.data == old(ctx.data)[TopicKey := text]
    {
      if text == Some(Back) {
        reply := AddFileStart(ctx);
        return;
      }
      ctx.UpdateData(TopicKey, text);
      ctx.SetState(FileType);
      reply := Prompted;
    }

    /** upload_file_prompt: back reaches add_file_topic's back branch and cancels; else the text is the file type. */
    method UploadFilePrompt(ctx: Context, text: Option<string>) returns (reply: Reply)
      modifies ctx
      ensures text == Some(Back) ==> reply == Cancelled && ctx.state == NoState && ctx.data == map[]
      ensures text != Some(Back) ==>
                reply == Prompted && ctx.state == FileUpload && ctx.data == old(ctx.data)[FileTypeKey := text]
    {
      if text == Some(Back) {
        reply := AddFileTopic(ctx, text);
        return;
      }
      ctx.UpdateData(FileTypeKey, text);
      ctx.SetState(FileUpload);
      reply := Prompted;
    }

    /** delete_file_start: refuse unprivileged users without touching their context; else ask for a section. */
    method DeleteFileStart(ctx: Context) returns (reply: Reply)
      modifies ctx
      ensures !MayEdit(ctx.user) ==> reply == PermissionDenied && ctx.state == old(ctx.state) && ctx.data == old(ctx.data)
      ensures MayEdit(ctx.user) ==> reply == Prompted && ctx.state == DeleteSection && ctx.data == old(ctx.data)
    {
      if !MayEdit(ctx.user) {
        return PermissionDenied;
      }
      ctx.SetState(DeleteSection);
      reply := Prompted;
    }

    /**
     * delete_file_choose_topic: back cancels; a section without listed topics
     * is refused and nothing is recorded; else the section is recorded. A NULL
     * topic among them makes the topic keyboard fail after the section is
     * recorded, so the state stays where it was.
     */
    method DeleteChooseTopic(ctx: Context, text: Option<string>) returns (reply: Reply)
      modifies ctx
      ensures text == Some(Back) ==> reply == Cancelled && ctx.state == NoState && ctx.data == map[]
      ensures text != Some(Back) && TopicsBySection(table.rows, text) == [] ==>
                reply == NoTopicsInSection && ctx.state == old(ctx.state) && ctx.data == old(ctx.data)
      ensures text != Some(Back) && TopicsBySection(table.rows, text) != [] ==> ctx.data == old(ctx.data)[SectionKey := text]
      ensures text != Some(Back) && TopicsBySection(table.rows, text) != [] && None in TopicsBySection(table.rows, text) ==>
                reply == Raised(NullButtonText) && ctx.state == old(ctx.state)
      ensures text != Some(Back) && TopicsBySection(table.rows, text) != [] && None !in TopicsBySection(table.rows, text) ==>
                reply == Prompted && ctx.state == DeleteTopic
    {
      if text == Some(Back) {
        ctx.Clear();
        return Cancelled;
      }
      var topics := TopicsBySection(table.rows, text);
      if topics == [] {
        return NoTopicsInSection;
      }
      ctx.UpdateData(SectionKey, text);
      if None in topics {
        return Raised(NullButtonText);
      }
      ctx.SetState(DeleteTopic);
      reply := Prompted;
    }

    /** delete_file_choose_type: back goes through delete_file_start; else the text is the topic. */
    method DeleteChooseType(ctx: Context, text: Option<string>) returns (reply: Reply)
      modifies ctx
      ensures text == Some(Back) && !MayEdit(ctx.user) ==>
                reply == PermissionDenied && ctx.state == old(ctx.state) && ctx.data == old(ctx.data)
      ensures text == Some(Back) && MayEdit(ctx.user) ==>
                reply == Prompted && ctx.state == DeleteSection && ctx.data == old(ctx.data)
      ensures text != Some(Back) ==>
                reply == Prompted && ctx.state == DeleteType && ctx.data == old(ctx.data)[TopicKey := text]
    {
      if text == Some(Back) {
        reply := DeleteFileStart(ctx);
        return;
      }
      ctx.UpdateData(TopicKey, text);
      ctx.SetState(DeleteType);
      reply := Prompted;
    }

    /**
     * delete_selected_file: back goes through delete_file_choose_type to
     * delete_file_start; else the file of the typed kind is deleted from the
     * recorded topic, the outcome is reported and the context is cleared.
     */
    method DeleteSelectedFile(ctx: Context, text: Option<string>) returns (reply: Reply)
      modifies ctx, table
      ensures text == Some(Back) ==> table.rows == old(table.rows)
      ensures text == Some(Back) && !MayEdit(ctx.user) ==>
                reply == PermissionDenied && ctx.state == old(ctx.state) && ctx.data == old(ctx.data)
      ensures text == Some(Back) && MayEdit(ctx.user) ==>
                reply == Prompted && ctx.state == DeleteSection && ctx.data == old(ctx.data)
      ensures text != Some(Back) && (SectionKey !in old(ctx.data) || TopicKey !in old(ctx.data)) ==>
                reply.Raised? && ctx.state == old(ctx.state) && ctx.data == old(ctx.data) && table.rows == old(table.rows)
      ensures text != Some(Back) && SectionKey in old(ctx.data) && TopicKey in old(ctx.data) ==>
                var d := DeleteEffect(old(table.rows), old(ctx.data)[SectionKey], old(ctx.data)[TopicKey], text);
                && table.rows == d.rows
                && reply == DeleteReport(d.outcome)
                && ctx.state == NoState && ctx.data == map[]
    {
      if text == Some(Back) {
        reply := DeleteChooseType(ctx, text);
        return;
      }
      if SectionKey !in ctx.data {
        return Raised(MissingData(SectionKey));
      }
      if TopicKey !in ctx.data {
        return Raised(MissingData(TopicKey));
      }
      var outcome, removed := table.DeleteFileByType(ctx.data[SectionKey], ctx.data[TopicKey], text);
      ctx.Clear();
      reply := DeleteReport(outcome);
    }

    /**
     * receive_file: back goes through add_file_type to add_file_start; a
     * message without a document is asked again; else the document's stored
     * name is written into the recorded topic's slot and the context is
     * cleared. An unknown file type raises and writes nothing.
     */
    method ReceiveFile(ctx: Context, text: Option<string>, document: Option<Document>) returns (reply: Reply)
      modifies ctx, table
      ensures text == Some(Back) ==> table.rows == old(table.rows)
      ensures text == Some(Back) && !MayEdit(ctx.user) ==>
                reply == PermissionDenied && ctx.state == old(ctx.state) && ctx.data == old(ctx.data)
      ensures text == Some(Back) && MayEdit(ctx.user) ==>
                reply == Prompted && ctx.state == AddSection && ctx.data == old(ctx.data)
      ensures text != Some(Back) && document.None? ==>
                reply == AskForDocument && ctx.state == old(ctx.state) && ctx.data == old(ctx.data)
                && table.rows == old(table.rows)
      ensures text != Some(Back) && document.Some? &&
              (SectionKey !in old(ctx.data) || TopicKey !in old(ctx.data) || FileTypeKey !in old(ctx.data)) ==>
                reply.Raised? && ctx.state == old(ctx.state) && ctx.data == old(ctx.data) && table.rows == old(table.rows)
      ensures text != Some(Back) && document.Some? &&
              SectionKey in old(ctx.data) && TopicKey in old(ctx.data) && FileTypeKey in old(ctx.data) ==>
                var section, topic, fileType := old(ctx.data)[SectionKey], old(ctx.data)[TopicKey], old(ctx.data)[FileTypeKey];
                var name := StoredFileName(section, topic, fileType, document.value.fileName);
                var written := UpsertEffect(old(table.rows), section, topic, fileType, name);
                if written.None? then
                  && reply == Raised(UnknownColumn(fileType))
                  && ctx.state == old(ctx.state) && ctx.data == old(ctx.data) && table.rows == old(table.rows)
                else
                  && reply == Uploaded
                  && ctx.state == NoState && ctx.data == map[] && table.rows == written.value
    {
      if text == Some(Back) {
        reply := AddFileType(ctx, text);
        return;
      }
      if document.None? {
        return AskForDocument;
      }
      if SectionKey !in ctx.data {
        return Raised(MissingData(SectionKey));
      }
      if TopicKey !in ctx.data {
        return Raised(MissingData(TopicKey));
      }
      if FileTypeKey !in ctx.data {
        return Raised(MissingData(FileTypeKey));
      }
      var section, topic, fileType := ctx.data[SectionKey], ctx.data[TopicKey], ctx.data[FileTypeKey];
      var name := StoredFileName(section, topic, fileType, document.value.fileName);
      var written := table.Upsert(section, topic, fileType, name);
      if !written {
        return Raised(UnknownColumn(fileType));
      }
      ctx.Clear();
      reply := Uploaded;
    }

    /**
     * One event of one user, dispatched to the handler `Route` picks (or, for
     * a button press, to the callback handlers). The reply, the new state and
     * data, and the new table are those of that handler. Besides, the table
     * stays well formed, and a user who may not edit never enters the upload
     * or delete dialogue and never changes the table.
     */
    method Handle(ctx: Context, event: Event) returns (reply: Reply)
      requires Valid()
      modifies ctx, table
      ensures Valid()
      ensures !MayEdit(ctx.user) && !PrivilegedState(old(ctx.state)) ==>
                !PrivilegedState(ctx.state) && table.rows == old(table.rows)
      ensures !PrivilegedState(old(ctx.state)) ==> table.rows == old(table.rows)
      ensures event.Callback? || Route(old(ctx.state), event.text) !in {DeleteSelectedFileH, ReceiveFileH} ==>
                table.rows == old(table.rows)
      // Button presses: a topic button, the "back to sections" button, anything else.
      ensures event.Callback? && IsTopicCallback(event.data) ==>
                reply == Prompted && ctx.state == Action
                && ctx.data == old(ctx.data)[TopicKey := Some(TopicOfCallback(event.data.value))]
      ensures event.Callback? && !IsTopicCallback(event.data) && event.data == Some(BackToSectionsData) ==>
                reply == Prompted && ctx.state == Section && ctx.data == map[]
      ensures event.Callback? && !IsTopicCallback(event.data) && event.data != Some(BackToSectionsData) ==>
                reply == Ignored && ctx.state == old(ctx.state) && ctx.data == old(ctx.data)
      // Messages no handler accepts, and the three commands.
      ensures event.Message? && Route(old(ctx.state), event.text) == NoHandler ==>
                reply == Ignored && ctx.state == old(ctx.state) && ctx.data == old(ctx.data)
      ensures event.Message? && Route(old(ctx.state), event.text) == StartH ==>
                reply == Prompted && ctx.state == Section && ctx.data == map[]
      ensures event.Message? && Route(old(ctx.state), event.text) in {AddFileStartH, DeleteFileStartH} && !MayEdit(ctx.user) ==>
                reply == PermissionDenied && ctx.state == old(ctx.state) && ctx.data == old(ctx.data)
      ensures event.Message? && Route(old(ctx.state), event.text) == AddFileStartH && MayEdit(ctx.user) ==>
                reply == Prompted && ctx.state == AddSection && ctx.data == old(ctx.data)
      ensures event.Message? && Route(old(ctx.state), event.text) == DeleteFileStartH && MayEdit(ctx.user) ==>
                reply == Prompted && ctx.state == DeleteSection && ctx.data == old(ctx.data)
      // The back button, by the state it is pressed in.
      ensures event.Message? && event.text == Some(Back) ==>
                table.rows == old(table.rows) &&
                match old(ctx.state)
                case NoState => reply == Ignored && ctx.state == NoState && ctx.data == old(ctx.data)
                case Section | Action => reply == Prompted && ctx.state == Section && ctx.data == map[]
                case AddSection | FileType | DeleteSection => reply == Cancelled && ctx.state == NoState && ctx.data == map[]
                case AddTopic | FileUpload =>
                  if MayEdit(ctx.user) then reply == Prompted && ctx.state == AddSection && ctx.data == old(ctx.data)
                  else reply == PermissionDenied && ctx.state == old(ctx.state) && ctx.data == old(ctx.data)
                case DeleteTopic | DeleteType =>
                  if MayEdit(ctx.user) then reply == Prompted && ctx.state == DeleteSection && ctx.data == old(ctx.data)
                  else reply == PermissionDenied && ctx.state == old(ctx.state) && ctx.data == old(ctx.data)
      // Any other text, by the state handler that takes it.
      ensures event.Message? && event.text != Some(Back) && Route(old(ctx.state), event.text) == ChooseTopicH ==>
                ctx.data == old(ctx.data)[SectionKey := event.text] &&
                if None in TopicsBySection(old(table.rows), event.text) then
                  reply == Raised(NullButtonText) && ctx.state == old(ctx.state)
                else
                  reply == Prompted && ctx.state == NoState
      ensures event.Message? && event.text != Some(Back) && Route(old(ctx.state), event.text) == SendFileH ==>
                if SectionKey !in old(ctx.data) || TopicKey !in old(ctx.data) then
                  reply.Raised? && ctx.state == old(ctx.state) && ctx.data == old(ctx.data)
                else
                  var choice := ChosenFile(FilesForKey(old(table.rows), old(ctx.data)[SectionKey], old(ctx.data)[TopicKey]), event.text);
                  if choice.None? then
                    reply == Raised(NotSubscriptable) && ctx.state == old(ctx.state) && ctx.data == old(ctx.data)
                  else
                    && ctx.state == Section && ctx.data == map[]
                    && reply == if Truthy(choice.value) then SentFile(FilesDir + choice.value.value) else FileNotFound
      ensures event.Message? && event.text != Some(Back) && Route(old(ctx.state), event.text) == AddFileTopicH ==>
                reply == Prompted && ctx.state == AddTopic && ctx.data == old(ctx.data)[SectionKey := event.text]
      ensures event.Message? && event.text != Some(Back) && Route(old(ctx.state), event.text) == AddFileTypeH ==>
                reply == Prompted && ctx.state == FileType && ctx.data == old(ctx.data)[TopicKey := event.text]
      ensures event.Message? && event.text != Some(Back) && Route(old(ctx.state), event.text) == UploadFilePromptH ==>
                reply == Prompted && ctx.state == FileUpload && ctx.data == old(ctx.data)[FileTypeKey := event.text]
      ensures event.Message? && event.text != Some(Back) && Route(old(ctx.state), event.text) == DeleteChooseTopicH ==>
                var topics := TopicsBySection(old(table.rows), event.text);
                if topics == [] then
                  reply == NoTopicsInSection && ctx.state == old(ctx.state) && ctx.data == old(ctx.data)
                else
                  && ctx.data == old(ctx.data)[SectionKey := event.text]
                  && if None in topics then reply == Raised(NullButtonText) && ctx.state == old(ctx.state)
                     else reply == Prompted && ctx.state == DeleteTopic
      ensures event.Message? && event.text != Some(Back) && Route(old(ctx.state), event.text) == DeleteChooseTypeH ==>
                reply == Prompted && ctx.state == DeleteType && ctx.data == old(ctx.data)[TopicKey := event.text]
      ensures event.Message? && event.text != Some(Back) && Route(old(ctx.state), event.text) == DeleteSelectedFileH ==>
                if SectionKey !in old(ctx.data) || TopicKey !in old(ctx.data) then
                  reply.Raised? && ctx.state == old(ctx.state) && ctx.data == old(ctx.data) && table.rows == old(table.rows)
                else
                  var d := DeleteEffect(old(table.rows), old(ctx.data)[SectionKey], old(ctx.data)[TopicKey], event.text);
                  && table.rows == d.rows && reply == DeleteReport(d.outcome)
                  && ctx.state == NoState && ctx.data == map[]
      ensures event.Message? && event.text != Some(Back) && Route(old(ctx.state), event.text) == ReceiveFileH ==>
                if event.document.None? then
                  reply == AskForDocument && ctx.state == old(ctx.state) && ctx.data == old(ctx.data)
                  && table.rows == old(table.rows)
                else if SectionKey !in old(ctx.data) || TopicKey !in old(ctx.data) || FileTypeKey !in old(ctx.data) then
                  reply.Raised? && ctx.state == old(ctx.state) && ctx.data == old(ctx.data) && table.rows == old(table.rows)
                else
                  var section, topic, fileType := old(ctx.data)[SectionKey], old(ctx.data)[TopicKey], old(ctx.data)[FileTypeKey];
                  var name := StoredFileName(section, topic, fileType, event.document.value.fileName);
                  var written := UpsertEffect(old(table.rows), section, topic, fileType, name);
                  if written.None? then
                    && reply == Raised(UnknownColumn(fileType))
                    && ctx.state == old(ctx.state) && ctx.data == old(ctx.data) && table.rows == old(table.rows)
                  else
                    && reply == Uploaded
                    && ctx.state == NoState && ctx.data == map[] && table.rows == written.value
    {
      match event
      case Callback(data) =>
        if IsTopicCallback(data) {
          reply := TopicCallback(ctx, data.value);
        } else if data == Some(BackToSectionsData) {
          reply := Start(ctx);
        } else {
          reply := Ignored;
        }
      case Message(text, document) =>
        match Route(ctx.state, text)
        case StartH => reply := Start(ctx);
        case ChooseTopicH => reply := ChooseTopic(ctx, text);
        case SendFileH => reply := SendFile(ctx, text);
        case AddFileStartH => reply := AddFileStart(ctx);
        case AddFileTopicH => reply := AddFileTopic(ctx, text);
        case AddFileTypeH => reply := AddFileType(ctx, text);
        case UploadFilePromptH => reply := UploadFilePrompt(ctx, text);
        case DeleteFileStartH => reply := DeleteFileStart(ctx);
        case DeleteChooseTopicH => reply := DeleteChooseTopic(ctx, text);
        case DeleteChooseTypeH => reply := DeleteChooseType(ctx, text);
        case DeleteSelectedFileH =>
          ghost var before := table.rows;
          ghost var data := ctx.data;
          reply := DeleteSelectedFile(ctx, text);
          if text != Some(Back) && SectionKey in data && TopicKey in data {
            DeletePreservesWellFormed(before, data[SectionKey], data[TopicKey], text);
          }
        case ReceiveFileH =>
          ghost var before := table.rows;
          ghost var data := ctx.data;
          reply := ReceiveFile(ctx, text, document);
          if text != Some(Back) && document.Some? && SectionKey in data && TopicKey in data && FileTypeKey in data {
            var name := StoredFileName(data[SectionKey], data[TopicKey], data[FileTypeKey], document.value.fileName);
            UpsertPreservesWellFormed(before, data[SectionKey], data[TopicKey], data[FileTypeKey], name);
          }
        case NoHandler => reply := Ignored;
    }
  }

  /** The button of the scenario's topic leads back to that topic. */
  lemma KnownTopicRoundTrip()
    ensures TopicOfCallback(TopicCallbackData(Some("Кислоты"))) == "Кислоты"
  {
    var t := "Кислоты";
    forall i | 0 <= i < |t| ensures !OccursAt(t, TopicPrefix, i) {
      assert i + |TopicPrefix| > |t| || t[i] != TopicPrefix[0];
    }
    TopicCallbackRoundTrip(t);
  }

  /** Lower-case letters and `_` are not whitespace. */
  lemma LowerWordHasNoSpace(w: string)
    requires forall i :: 0 <= i < |w| ==> '_' <= w[i] <= 'z'
    ensures forall i :: 0 <= i < |w| ==> !IsSpace(w[i])
  {
  }

  /** "/add_file" carries the add_file command. */
  lemma AddFileCommand()
    ensures IsCommand(Some("/add_file"), "add_file")
  {
    var t := "/add_file";
    assert !IsSpace(t[0]) && LeadingSpaces(t) == 0;
    assert t[1..] == "add_file" + [];
    LowerWordHasNoSpace("add_file");
    FirstWordOf("add_file", []);
    assert FirstWord(t[1..]) == "add_file";
  }

  /** "/delete_file" carries the delete_file command. */
  lemma DeleteFileCommand()
    ensures IsCommand(Some("/delete_file"), "delete_file")
  {
    var t := "/delete_file";
    assert !IsSpace(t[0]) && LeadingSpaces(t) == 0;
    assert t[1..] == "delete_file" + [];
    LowerWordHasNoSpace("delete_file");
    FirstWordOf("delete_file", []);
    assert FirstWord(t[1..]) == "delete_file";
  }

  /** A text that starts with neither whitespace nor '/' is no command, so it reaches the state's handler. */
  lemma PlainTextRoutes(state: FormState, s: string)
    requires s != [] && !IsSpace(s[0]) && s[0] != '/'
    ensures Route(state, Some(s)) == StateHandler(state)
  {
    assert LeadingSpaces(s) == 0;
  }

  /** A typed answer that is neither a command nor the back button. */
  predicate PlainText(s: string)
  {
    s != [] && !IsSpace(s[0]) && s[0] != '/' && s != Back
  }

  /**
   * A typed answer in the upload dialogue, routed by `Handle`: the section,
   * then the topic, then the file type is recorded, and the dialogue moves
   * one step on.
   */
  method AnswerUploadPrompt(bot: Bot, ctx: Context, text: string) returns (reply: Reply)
    requires bot.Valid() && PlainText(text) && ctx.state in {AddSection, AddTopic, FileType}
    modifies bot.table, ctx
    ensures bot.Valid() && bot.table.rows == old(bot.table.rows) && reply == Prompted
    ensures old(ctx.state) == AddSection ==> ctx.state == AddTopic && ctx.data == old(ctx.data)[SectionKey := Some(text)]
    ensures old(ctx.state) == AddTopic ==> ctx.state == FileType && ctx.data == old(ctx.data)[TopicKey := Some(text)]
    ensures old(ctx.state) == FileType ==> ctx.state == FileUpload && ctx.data == old(ctx.data)[FileTypeKey := Some(text)]
  {
    PlainTextRoutes(ctx.state, text);
    reply := bot.Handle(ctx, Message(Some(text), None));
  }

  /** The texts the scenarios type are plain answers. */
  lemma ScenarioTextsArePlain()
    ensures PlainText(TheoryLabel) && PlainText("Органическая химия") && PlainText("Кислоты")
  {
    assert !IsSpace(TheoryLabel[0]);
    assert !IsSpace("Органическая химия"[0]);
    assert !IsSpace("Кислоты"[0]);
  }

  /**
   * From no state, /add_file, the section, the topic and "Теория", each event
   * routed by `Handle`, bring a teacher to the document prompt with the three
   * answers recorded and the table untouched.
   */
  method OpenTheoryUpload(bot: Bot, teacher: Context, section: string, topic: string)
    requires PlainText(section) && PlainText(topic)
    requires bot.Valid() && bot.MayEdit(teacher.user) && teacher.state == NoState
    modifies bot.table, teacher
    ensures bot.Valid() && bot.table.rows == old(bot.table.rows)
    ensures teacher.state == FileUpload
    ensures teacher.data == old(teacher.data)[SectionKey := Some(section)][TopicKey := Some(topic)][FileTypeKey := Some(TheoryLabel)]
  {
    AddFileCommand();
    assert Route(NoState, Some("/add_file")) == AddFileStartH;
    var r := bot.Handle(teacher, Message(Some("/add_file"), None));
    r := AnswerUploadPrompt(bot, teacher, section);
    r := AnswerUploadPrompt(bot, teacher, topic);
    ScenarioTextsArePlain();
    r := AnswerUploadPrompt(bot, teacher, TheoryLabel);
  }

  /**
   * A teacher's upload of a theory file for a new topic into an empty table:
   * the dialogue of `OpenTheoryUpload`, then the document, routed by `Handle`,
   * store exactly one row and clear the context.
   */
  method UploadTheoryScenario(bot: Bot, teacher: Context, section: string, topic: string, fileName: string)
    returns (name: string)
    requires PlainText(section) && PlainText(topic)
    requires bot.table.rows == [] && bot.MayEdit(teacher.user) && teacher.state == NoState
    modifies bot.table, teacher
    ensures name == StoredFileName(Some(section), Some(topic), Some(TheoryLabel), Some(fileName))
    ensures bot.table.rows == [Row(Some(section), Some(topic), Some(name), None, None)] && bot.Valid()
    ensures teacher.state == NoState && teacher.data == map[]
  {
    OpenTheoryUpload(bot, teacher, section, topic);
    name := StoredFileName(Some(section), Some(topic), Some(TheoryLabel), Some(fileName));
    var row := Row(Some(section), Some(topic), Some(name), None, None);
    assert UpsertEffect([], Some(section), Some(topic), Some(TheoryLabel), name) == Some([row]) by {
      assert ParseFileType(Some(TheoryLabel)) == Some(Theory);
      assert NewRow(Some(section), Some(topic), Some(TheoryLabel), name) == row;
      assert [] + [row] == [row];
    }
    assert Route(FileUpload, None) == ReceiveFileH;
    var r := bot.Handle(teacher, Message(None, Some(Document(Some(fileName)))));
  }

  /** The table after the scenario's upload resolves the topic to the stored theory file. */
  lemma UploadedTopicFiles(name: string)
    ensures FilesForKey([Row(Some("Органическая химия"), Some("Кислоты"), Some(name), None, None)],
                        Some("Органическая химия"), Some("Кислоты"))
            == Some(Files(Some(name), None, None))
  {
    var rows := [Row(Some("Органическая химия"), Some("Кислоты"), Some(name), None, None)];
    assert Matches(rows[0], Some("Органическая химия"), Some("Кислоты"));
    assert FirstMatch(rows, Some("Органическая химия"), Some("Кислоты")) == Some(0);
  }

  /** After the upload, a student may not start a deletion. */
  method StudentDeniedScenario(teacherId: int, studentId: int) returns (reply: Reply, state: FormState)
    requires teacherId != studentId
    ensures reply == PermissionDenied && state == NoState
  {
    var bot := new Bot(teacherId, teacherId);
    var teacher := new Context(teacherId);
    var student := new Context(studentId);
    ScenarioTextsArePlain();
    var name := UploadTheoryScenario(bot, teacher, "Органическая химия", "Кислоты", "acids.pdf");
    DeleteFileCommand();
    assert Route(NoState, Some("/delete_file")) == DeleteFileStartH;
    assert !bot.MayEdit(student.user);
    reply := bot.Handle(student, Message(Some("/delete_file"), None));
    state := student.state;
  }

  /** After the upload, a student who picks the section, the topic button and "Теория" is sent the stored file. */
  method FetchScenario(teacherId: int, studentId: int) returns (reply: Reply)
    ensures reply == SentFile(FilesDir + StoredFileName(Some("Органическая химия"), Some("Кислоты"), Some(TheoryLabel), Some("acids.pdf")))
  {
    var bot := new Bot(teacherId, teacherId);
    var teacher := new Context(teacherId);
    var student := new Context(studentId);
    ScenarioTextsArePlain();
    var name := UploadTheoryScenario(bot, teacher, "Органическая химия", "Кислоты", "acids.pdf");
    var section, topic := Some("Органическая химия"), Some("Кислоты");

    var r := bot.Start(student);
    assert TopicsBySection(bot.table.rows, section) == [topic];
    r := bot.ChooseTopic(student, section);
    KnownTopicRoundTrip();
    r := bot.TopicCallback(student, TopicCallbackData(topic));
    assert student.data[SectionKey] == section && student.data[TopicKey] == topic;
    UploadedTopicFiles(name);
    reply := bot.SendFile(student, Some(TheoryLabel));
  }

  /** After the upload, the teacher deletes the only file, which removes the topic. */
  method DeleteScenario(teacherId: int) returns (reply: Reply, rowsLeft: nat)
    ensures reply == DeleteReport(TopicRemoved) && rowsLeft == 0
  {
    var bot := new Bot(teacherId, teacherId);
    var teacher := new Context(teacherId);
    ScenarioTextsArePlain();
    var name := UploadTheoryScenario(bot, teacher, "Органическая химия", "Кислоты", "acids.pdf");
    var section, topic := Some("Органическая химия"), Some("Кислоты");

    var r := bot.DeleteFileStart(teacher);
    assert TopicsBySection(bot.table.rows, section) == [topic];
    r := bot.DeleteChooseTopic(teacher, section);
    r := bot.DeleteChooseType(teacher, topic);
    assert teacher.state == DeleteType && teacher.data[SectionKey] == section && teacher.data[TopicKey] == topic;
    UploadThenDeleteTheory(name);
    reply := bot.DeleteSelectedFile(teacher, Some(TheoryLabel));
    rowsLeft := |bot.table.rows|;
  }
}
