# Chemistry study-materials bot, modelled in Dafny

The bot hands out study materials over Telegram. A user chooses one of three
chemistry sections, then a topic, then one of three kinds of document: theory
("Теория"), task ("Задание") or homework ("Домашнее задание"). The bot sends the
stored file. Two configured users, the teacher and the admin, can upload a
document for a (section, topic, kind) triple and delete one. All of this state
lives in the SQLite table `topics`. Each row holds a section, a topic and three
nullable file-name columns. A topic's row is removed once its last file is
deleted.

The model has six modules:

- `Wrappers` defines `Option`. Python's `None` is `None`, and every value that
  can be `None` in the source is an `Option<string>`: message texts, FSM data
  entries and the table's columns.
- `Labels` holds the three kind labels, the back button "Назад", the list of
  sections, and the mapping from a label to its column (`ParseFileType`).
- `Naming` covers the stored file name (`{section}_{topic}_{type}_{name}` with
  spaces replaced by `_`). It also models `str.split(sep)[0]` and the parsing of
  the `topic:<name>` callback data.
- `Storage` has the `topics` table as a sequence of rows in rowid order, the
  queries of `db.py`, and `delete_file_by_type`. It also has the
  insert-or-update that `receive_file` runs against the table. Each is a
  specification function with lemmas. Class `TopicTable` holds the rows and
  does the `UPDATE`/`DELETE` statements as loops, each proved equal to its
  specification function.
- `Fsm` models aiogram's per-user `FSMContext` as class `Context`: the current
  `Form` state and the data dictionary.
- `Dialogue` covers message routing in aiogram's registration order and class
  `Bot`, which has one method per handler of `bot.py`. `Bot.Handle` processes
  one event: it dispatches to the handler `Route` picks, and its contract
  gives the reply, the new state and data, and the new table of that
  handler. The upload and denial scenarios send their events through it. It
  also proves two invariants:
  - the table stays well formed: keys are unique and every row holds a file;
  - a user who is neither teacher nor admin never enters the upload or delete
    dialogue and never changes the table.

SQL semantics are written out. `col = ?` never matches a NULL column on either
side (`SqlEq`), and `IS NOT NULL` is `HasFile`. Python's `not x` on a column or
data entry is `!Truthy(x)`, where `None` and `""` are both falsy. `fetchone()`
returns the first matching row in rowid order (`FirstMatch`).

A handler that raises (`KeyError` on a missing data entry or an unknown label,
`TypeError` on `files[i]` of a missing row) answers `Raised(...)`. Whatever the
handler changed before the raise stays changed.

The model follows the code in these places, which a reader may not expect:

- `get_files_for_topic` returns `None` for an unknown topic, so `send_file`
  fails on `files[0]` with a `TypeError`. This is modelled as
  `Raised(NotSubscriptable)` (`ChosenFile` answers `None`).
- "Назад" in the topic menu (`choose_topic`) restarts at the section menu
  (state `section`).
- A typed section is not checked against the three sections.
- The deletion's "no files left" test uses truthiness. The topic listing uses
  `IS NOT NULL`.
- A topic can be NULL: a message without text (a sticker, say) at the topic
  prompt records `topic=None`, and the upload inserts a row whose topic is
  NULL. Building a keyboard button from that topic then fails in
  `choose_topic` and `delete_file_choose_topic`, after the section is recorded
  and before the state changes (`Raised(NullButtonText)`).

The model uses the corrected definitions of the two defects under
"## Findings". Those defects are `UpsertAsWritten` and `FilesForTopic`, and
each is kept and proved to misbehave.

## Model

| member | source | states |
|---|---|---|
| Labels.ParseFileType | db.py:89-97 | A label maps to a kind exactly when it is that kind's button text; every other text, and `None`, maps to no column |
| Labels.Sections | db.py:42-43 | Exactly three distinct sections, none of them the back button |
| Labels.BackIsNoFileType | bot.py:184-189 | "Назад" is not one of the three kind labels, so it never selects a column |
| Naming.ReplaceSpaces | bot.py:306 | `.replace(" ", "_")`: same length, each space becomes `_`, every other character is kept |
| Naming.StoredFileName | bot.py:306 | The stored name contains no space; its length is the rendered parts plus three separators (`None` renders as "None") |
| Naming.StoredFileNameWithoutSpaces | bot.py:306 | For parts without spaces the stored name is exactly `section_topic_type_name` |
| Naming.UpTo | bot.py:88 | `s.split(sep)[0]`: a prefix of `s` with no occurrence of `sep` inside it, which ends at the first occurrence or at the end of `s` |
| Naming.TopicCallbackData | bot.py:77 | A topic button's data passes the topic filter and is "topic:" followed by the rendered topic |
| Naming.IsTopicCallback | bot.py:86 | The filter accepts only present data that starts with "topic:"; absent or empty data is refused |
| Naming.TopicOfCallback | bot.py:86-88 | The topic read from callback data is a prefix of the text after "topic:" |
| Naming.TopicCallbackRoundTrip | bot.py:77-88 | A topic button's data passes the callback filter, and parsing it gives back the topic, when the topic does not contain "topic:" |
| Storage.WithSlot | bot.py:324 | Setting one file column keeps the key and the other two columns |
| Storage.HasFile | db.py:53-57 | `IS NOT NULL` on some file column: true iff at least one of the three slots holds a value |
| Storage.TopicsBySection | db.py:47-63 | A topic is listed iff some row has that section (non-NULL match) and at least one non-NULL file column |
| Storage.TopicsBySectionAppend | db.py:51-61 | The listing keeps rowid order: listing two runs of rows is listing each in turn |
| Storage.FirstMatch | db.py:104-105 | `fetchone()`: the first row matching section and topic, or none iff no row matches |
| Storage.MatchIsFirst | db.py:104-105 | With unique keys every matching row is the one `fetchone()` returns |
| Storage.FirstWithTopic | db.py:71-72 | The first row whose topic matches, whatever its section; none iff no row's topic matches |
| Storage.FilesForTopic | db.py:67-74 | As written: none iff no row has the topic, else the files of the first row (in rowid order) with that topic, whatever its section |
| Storage.FilesForKey | bot.py:125-128 | Corrected lookup: none iff no row has the (section, topic) key; with unique keys, the files of the key's row |
| Storage.ListedTopicResolves | bot.py:73-77 | Every topic offered in a section's menu resolves to files, by either lookup |
| Storage.FilesForTopicIgnoresSection | db.py:71 | Counterexample: two sections share a topic name, and the as-written lookup returns the other section's file |
| Storage.ClearSlot | db.py:124 | `UPDATE ... SET <column> = NULL`: same row count; non-matching rows unchanged; matching rows keep their key and other slots and get the column NULL |
| Storage.RemoveMatching | db.py:133 | `DELETE ... WHERE section = ? AND topic = ?` keeps exactly the rows that do not match |
| Storage.DeleteEffect | db.py:78-139 | A deletion never adds rows; a file is removed iff the outcome is `deleted` or `topic_removed`; `deleted` keeps the row count |
| Storage.DeleteOutcomeByFiles | db.py:96-139 | Unknown label gives `not_found`; no row gives `no_topic`; an empty slot gives `not_found`; else the slot's file is removed, with `topic_removed` iff the other two slots are empty, else `deleted` |
| Storage.ClearSlotKeepsKeys | db.py:124 | Nulling a column changes no row's key and the row count |
| Storage.ClearSlotKeepsFirstMatch | db.py:124-129 | The re-select after the `UPDATE` finds the same row |
| Storage.ClearSlotUnique | db.py:124 | With unique keys the `UPDATE` changes only the key's row |
| Storage.RemoveMatchingKeepsUnique | db.py:133 | Deleting rows keeps keys unique |
| Storage.RemoveMatchingTwice | db.py:133 | The `DELETE` is idempotent |
| Storage.ClearSlotKeepsOthers | db.py:124-133 | The `UPDATE` leaves the rows of every other key as they were |
| Storage.DeleteKeepsOtherRows | db.py:78-139 | A deletion leaves the rows of every other key, in order |
| Storage.DeleteUnchangedUnlessRemoved | db.py:97-136 | The outcome is `not_found` or `no_topic` iff the table is unchanged and nothing is removed; after `deleted` or `topic_removed` the table differs and a truthy file name is removed |
| Storage.RemoveMatchingShrinks | db.py:133 | When some row has the key, the `DELETE` removes at least one row |
| Storage.DeleteResultRow | db.py:123-136 | After `deleted`, the key's row has the deleted slot NULL and the other two unchanged; after `topic_removed`, no row has the key |
| Storage.DeletePreservesWellFormed | db.py:123-136 | A deletion keeps keys unique and every row holding a file |
| Storage.DeleteTwice | db.py:107-116 | Repeating a successful deletion answers `not_found` (after `deleted`) or `no_topic` (after `topic_removed`) and changes nothing |
| Storage.NewRow | bot.py:326-329 | The inserted row has the key, the file name in the slot of the recognised label and NULL in the others (NULL in all three for an unknown label) |
| Storage.UpsertAsWritten | bot.py:314-334 | As written: fails (the `KeyError`) iff the key has a row and the label is unknown; otherwise keeps the row count for an existing key and adds one row for a new key |
| Storage.UpsertEffect | bot.py:314-334 | Corrected upsert: writes iff the label is one of the three, and then does what the code does |
| Storage.UpsertExisting | bot.py:317-324 | With a row for the key: same row count, other keys untouched, the chosen slot holds the new name, other slots kept; an unknown label writes nothing |
| Storage.UpsertFresh | bot.py:325-334 | Without a row for the key: exactly one row is appended, with the key, the new name in the chosen slot and NULL elsewhere |
| Storage.UpsertKeepsKeysUnique | bot.py:314-334 | An upload never creates a second row for an existing key |
| Storage.UpsertPreservesWellFormed | bot.py:314-334 | The corrected upload keeps keys unique and every row holding a file |
| Storage.UpsertAsWrittenInsertsEmptyRow | bot.py:326-334 | Counterexample: a new topic uploaded with the typed label "Видео" gets a row with three NULLs |
| Storage.EmptyRowIsStuck | db.py:104-116 | A row with three NULLs is never listed in its section, and every deletion for its key answers `not_found` and changes nothing |
| Storage.UploadThenDeleteTheory | bot.py:311-337 | Uploading theory for a new topic creates one row with only that file; deleting it reports `topic_removed` and empties the table |
| Storage.TopicTable.constructor | db.py:11-20 | The table starts empty |
| Storage.TopicTable.FindFirst | db.py:104-105 | The scan finds the first matching row in rowid order |
| Storage.TopicTable.DeleteFileByType | db.py:78-139 | The outcome, the new rows and the removed file are those of the deletion's specification |
| Storage.TopicTable.ClearSlotInPlace | db.py:124 | The `UPDATE` loop nulls the column of exactly the matching rows |
| Storage.TopicTable.RemoveMatchingInPlace | db.py:133 | The `DELETE` loop keeps exactly the non-matching rows, in order |
| Storage.TopicTable.Upsert | bot.py:311-337 | Writes the corrected upsert's rows and reports whether it wrote |
| Fsm.Context.constructor | bot.py:25 | A user's context starts with no state and no data |
| Fsm.Context.Clear | bot.py:53 | `state.clear()` drops the state and all data |
| Fsm.Context.SetState | bot.py:63 | `set_state` changes only the state |
| Fsm.Context.UpdateData | bot.py:74 | `update_data` sets one entry and keeps the state and the other entries |
| Fsm.Context.Get | bot.py:116-117 | `data.get(key)`: the stored value when the key is present, `None` otherwise |
| Dialogue.LeadingSpaces | bot.py:51 | The number of whitespace characters (Python's `str.isspace`) the text starts with: all of them whitespace, and the next one not |
| Dialogue.FirstWord | bot.py:51 | `split(maxsplit=1)[0]` of a text without leading whitespace: the prefix up to the first whitespace character or the end |
| Dialogue.CommandOf | bot.py:51 | aiogram's `Command` filter: a command exists iff the first non-whitespace character is `/`; it is the rest of that first word, which has no whitespace and is followed by whitespace or the end |
| Dialogue.FirstWordOf | bot.py:51 | A word without whitespace followed by the end or by whitespace is the first word |
| Dialogue.CommandAfterIndent | bot.py:51 | " /start" carries the command `start`: leading whitespace is skipped |
| Dialogue.CommandBeforeNewline | bot.py:51 | "/start\nhi" carries the command `start`: a newline ends the command word |
| Dialogue.Route | bot.py:51-291 | /start always wins; /add_file is shadowed in the section and action states; /delete_file also in the three upload states; every other message, shadowed commands and unknown commands included, goes to the state's handler; nothing handles it without a state |
| Dialogue.AddFileShadowedInSection | bot.py:66-74 | /add_file sent in the section state reaches choose_topic |
| Dialogue.BackReachesStateHandler | bot.py:66-71 | "Назад" always reaches the current state's handler |
| Dialogue.ChosenFile | bot.py:130-136 | Positional choice: theory 0, task 1, homework 2; any other text chooses no file; a kind asked of a missing row is a `TypeError` |
| Dialogue.Bot.constructor | bot.py:20-25 | The bot knows the teacher and admin ids and starts on an empty table |
| Dialogue.Bot.MayEdit | bot.py:152 | A user is refused exactly when the id is neither the teacher's nor the admin's |
| Dialogue.Bot.Start | bot.py:51-63 | /start clears the context and enters the section state |
| Dialogue.Bot.ChooseTopic | bot.py:66-83 | "Назад" restarts; any other text is recorded as the section; the state is then unset, or stays as it was when a listed topic is NULL and the keyboard fails |
| Dialogue.Bot.TopicCallback | bot.py:86-98 | A topic button records the topic and enters the action state |
| Dialogue.Bot.SendFile | bot.py:113-145 | With the corrected (section, topic) lookup: "Назад" restarts; missing data raises and changes nothing; else the chosen slot's file of the key's row is sent if truthy, "not found" otherwise, and the dialogue restarts |
| Dialogue.Bot.AddFileStart | bot.py:148-162 | An unprivileged user is refused and the context is untouched; otherwise the add-section state is entered |
| Dialogue.Bot.AddFileTopic | bot.py:165-174 | "Назад" cancels and clears; any other text is recorded as the section and the add-topic state is entered |
| Dialogue.Bot.AddFileType | bot.py:177-192 | "Назад" goes back through the permission check; any other text is recorded as the topic and the file-type state is entered |
| Dialogue.Bot.UploadFilePrompt | bot.py:195-203 | "Назад" cancels through add_file_topic; any other text is recorded as the file type and the upload state is entered |
| Dialogue.Bot.DeleteFileStart | bot.py:206-219 | An unprivileged user is refused and the context is untouched; otherwise the delete-section state is entered |
| Dialogue.Bot.DeleteChooseTopic | bot.py:222-241 | "Назад" cancels; a section with no listed topics is refused and nothing is recorded; else the section is recorded and the delete-topic state entered, or the state stays as it was when a listed topic is NULL and the keyboard fails |
| Dialogue.Bot.DeleteChooseType | bot.py:244-261 | "Назад" goes back through the permission check; else the text is recorded as the topic |
| Dialogue.Bot.DeleteSelectedFile | bot.py:264-287 | The table becomes the deletion's result for the recorded key, the outcome is reported and the context is cleared; missing data raises and changes nothing |
| Dialogue.Bot.ReceiveFile | bot.py:290-340 | With the corrected upsert: no document asks again; missing data or an unknown label raises and writes nothing; else the stored name is upserted into the key's row and the context is cleared |
| Dialogue.Bot.Handle | bot.py:51-340 | One event does what the handler `Route` picks does: a topic button records the topic and enters the action state, "back_to_sections" restarts, other buttons and unrouted messages are ignored; /start restarts; /add_file and /delete_file refuse an unprivileged user with the context unchanged and otherwise enter their section prompt; "Назад" returns to the section menu from `section`/`action`, cancels from `add_section`, `file_type` and `delete_section`, and goes back to the add or delete section prompt from the later states; any other text is recorded and advances, or raises, as the handler's own contract says, and only `delete_type` and `file_upload` change the table. Besides, the table stays well formed, and an unprivileged user outside the edit dialogue stays outside it and changes no row |
| Dialogue.AddFileCommand | bot.py:148 | "/add_file" carries the add_file command |
| Dialogue.DeleteFileCommand | bot.py:206 | "/delete_file" carries the delete_file command |
| Dialogue.PlainTextRoutes | bot.py:66-291 | A text that starts with neither whitespace nor `/` is no command, so it reaches the current state's handler |
| Dialogue.AnswerUploadPrompt | bot.py:165-203 | Through `Handle`, a plain answer in `add_section`, `add_topic` or `file_type` is recorded as the section, topic or file type and moves to the next state, without touching the table |
| Dialogue.OpenTheoryUpload | bot.py:148-203 | Through `Handle`, /add_file, a section, a topic and "Теория" bring a teacher from no state to the document prompt with the three answers recorded |
| Dialogue.KnownTopicRoundTrip | bot.py:77-88 | The button for "Кислоты" leads back to "Кислоты" |
| Dialogue.UploadedTopicFiles | bot.py:125-128 | After that upload, the (section, topic) lookup finds exactly the stored theory file and no task or homework |
| Dialogue.UploadTheoryScenario | bot.py:148-340 | For any plain section and topic, a teacher's upload of theory into an empty table, every event routed by `Handle`, leaves exactly one row holding the stored name and a cleared context |
| Dialogue.StudentDeniedScenario | bot.py:206-211 | After that upload, a user who is neither teacher nor admin sending /delete_file, routed by `Handle`, is refused and stays in no state |
| Dialogue.FetchScenario | bot.py:51-145 | After that upload, a student who picks the section, the topic button and "Теория" is sent `files/` plus the stored name |
| Dialogue.DeleteScenario | bot.py:206-287 | After that upload, the teacher deleting the theory file through the dialogue is told `topic_removed` and the table is left empty |

## Left out

- Keyboards, prompt texts, `callback.answer()`, removal of the inline keyboard and the Markdown report to the group chat are not modelled. Each event yields one `Reply`.
- Downloading, sending and deleting files on disk are not modelled. A deletion returns the name of the file it would remove. The existence check before `os.remove` is not modelled.
- SQLite connections, commits and the unused `files` table are not modelled. The `id` column is replaced by a row's position in rowid order.
- Reading `TEACHER`, `ADMIN`, `GROUP` and `TOKEN` from the environment is left out. The teacher and admin ids are constructor parameters, and a non-numeric id (the `int()` failure) is not modelled.
- Async execution and concurrent updates are left out. Events are processed one at a time, and a message's sender is the owner of the `Context` it is given.
- The `Form.topic` state and its handler `dummy_topic_message` are left out, because no handler ever enters that state.
- Dialogue.CommandOf: `@botname` mentions are not split off, so "/start@bot" is not read as /start, and a document's caption is not read as a command: a document message has no text in the model.
- Dialogue.Bot.SendFile: it looks files up with the corrected `FilesForKey` (by section and topic), not `get_files_for_topic` (by topic only). With rows ("Органическая химия", "Кислоты", org.pdf) then ("Общая химия", "Кислоты", gen.pdf) and recorded key ("Общая химия", "Кислоты"), the code sends files/org.pdf and the model sends files/gen.pdf. With a recorded section of `None` the code still finds a file by topic, while the model raises the `TypeError`.
- Dialogue.Bot.ReceiveFile: it writes through the corrected `UpsertEffect`, not the code's upsert. For a new key with an unknown type label such as "Видео", the code inserts a row with three NULLs, says the upload succeeded and clears the state; the model raises the `KeyError` the update path raises, writes nothing and keeps the state.
- Dialogue.Bot.Handle: the well-formedness it keeps holds for the corrected upload. With the as-written upload an unknown label breaks it (see Findings).
- Labels.Sections: a typed section is not checked against this list anywhere in the source, so the model does not check it either.

## Findings

| source | as written | input that shows it | evidently intended | confidence | as-written member | corrected member |
|---|---|---|---|---|---|---|
| bot.py:326-334 | A new topic uploaded with a file type that is none of the three labels gets a row whose three file columns are NULL. The update path raises `KeyError` for the same label. | Teacher types "Видео" instead of pressing a type button, for a new topic "Кислоты" in "Общая химия" | An unknown type is refused on both paths, and every row holds a file | high, not executed | Storage.UpsertAsWrittenInsertsEmptyRow | Storage.UpsertPreservesWellFormed |
| db.py:67-74 | `get_files_for_topic` selects by topic only, so `send_file` can deliver another section's file | Rows ("Органическая химия", "Кислоты", org.pdf) then ("Общая химия", "Кислоты", gen.pdf); a student picks "Общая химия" > "Кислоты" > "Теория" | Look up by (section, topic) as the deletion does | high, not executed | Storage.FilesForTopicIgnoresSection | Storage.FilesForKey |
