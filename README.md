# looplit core, modelled in Dafny

looplit is a debugger for stateful LLM agents. A Python backend wraps the user's
functions in a `stateful` decorator. That decorator tracks which lineage each call runs
on and streams every input and output state to a React frontend over a socket. The
frontend keeps the states of every lineage. It lets the user edit them, fork them and
re-run them, and it resolves git-style merge conflicts in a state's text.

This project models the parts of both sides that compute or change state, and proves
what they promise:

- **`merge_conflicts.dfy`** (`MergeConflicts`): the state merge editor's text model.
  - The buffer is a sequence of lines with `<<<<<<<` / `=======` / `>>>>>>>` markers.
  - `addBlankLines` is a loop on strings, proved against the function `Pad`.
  - `parseConflicts` is a one-pass scan with one open accumulator, proved against `Parse`.
  - `Parse` is proved sound, complete and ordered with respect to an independent
    description of a conflict block (`IsBlock` / `BlockConflict`).
- **`merge_shift.dfy`** (`ConflictShift`): the scanner on two buffers that share a tail.
  Scanned idle to where the tail begins, both report the same conflicts along it, moved
  by the difference of the tail's positions. This is what a resolution relies on.
- **`state_merge_editor.dfy`** (`StateMergeEditor`): the editor surface.
  - Highlight bands and one "Accept Current / Accept Incoming" widget per conflict.
  - A conflict is resolved by a line splice, with its cursor position.
  - The editor (buffer, cursor, decorations, widgets) is a class. Its methods keep the
    decorations and widgets equal to those of the buffer's current parse.
- **`yaml_editor.dfy`** (`YamlEditor`): the pair of multi-line string transforms over
  JSON values, and the one-shot "suppress the next change" flag of the YAML editor.
- **`list_dicts.dfy`, `tool_calls.dfy`, `sessions.dfy`, `stateful.dfy`**: the backend.
  - `map_tool_calls` and its table `FUNCS_TO_TOOL_CALLS`.
  - The serialiser and the session registry.
  - The pairing of tool calls with lineages.
  - The `stateful` decorator's lineage choice, call stack, events and registration.
- **`cli.dfy`** (`Cli`): the command line's `check_file` and `get_build_dir`.
- **`chat_types.dfy`, `message_edits.dfy`, `frontend_store.dfy`, `navigation.dfy`,
  `tool_call_view.dfy`**: the frontend.
  - Message and content-block edits.
  - The global store's updaters: edit state, fork, compose, apply/discard, socket events.
  - Undo/redo and fork navigation.
  - The tool-call view.

Every updater the source writes as "copy, then mutate the copy" is modelled twice:

- a function that states the result;
- a method that does the steps on locals and is proved equal to that function.

Examples are `SetEditStateUpdate`, `AddForkUpdate`, `TruncateAndPush`,
`AddBlankLines`, `ParseConflicts` and `MapToolCalls`. Objects whose fields the source
updates in place are classes: the merge editor, the YAML editor component, the session
registry and sessions, the tool-call table and the decorator's module tables.

Randomness, clocks and the filesystem are parameters:

- `newId` / `freshId` stand for `uuid4()`;
- `pathExists` and `splitExt` stand for `os.path.exists` and `os.path.splitext`;
- the outcome of the user's function is an `Outcome`;
- `parsed` stands for what js-yaml's `load` returns; its default schema turns a YAML timestamp into a `Date`, modelled as `JDate`.

## Model

| member | source | states |
|---|---|---|
| MergeConflicts.MarkersExclusive | frontend/src/components/StateMergeEditor.tsx:9-11 | a line starts with at most one of the three markers, and no marker line is blank |
| MergeConflicts.AddBlankLines | frontend/src/components/StateMergeEditor.tsx:19-33 | the push loop yields the joined padded buffer `PaddedText(text)` |
| MergeConflicts.PadLayout | frontend/src/components/StateMergeEditor.tsx:19-33 | every input line keeps its place, in order; exactly one `""` is inserted right before each start marker that is not line 0 and whose predecessor is not blank; nothing else is added |
| MergeConflicts.PadNoOp | frontend/src/components/StateMergeEditor.tsx:26-29 | a buffer in which no line needs padding is left unchanged |
| MergeConflicts.PadLeavesNothingToPad | frontend/src/components/StateMergeEditor.tsx:26-29 | in the padded buffer every start marker after line 0 is already preceded by a blank line |
| MergeConflicts.PadIdempotent | frontend/src/components/StateMergeEditor.tsx:19-33 | padding twice equals padding once |
| MergeConflicts.PadKeepsLines | frontend/src/components/StateMergeEditor.tsx:27-29 | padding only adds lines and introduces no newline characters |
| MergeConflicts.PaddedTextLines | frontend/src/components/StateMergeEditor.tsx:19-33 | the lines of the padded text are the padded lines of the text |
| MergeConflicts.PaddedTextIdempotent | frontend/src/components/StateMergeEditor.tsx:19-33 | `addBlankLines` is idempotent on texts |
| MergeConflicts.ExamplePad | frontend/src/components/StateMergeEditor.tsx:26-28 | a start marker right after a non-blank line gets one blank line above it |
| MergeConflicts.Parse | frontend/src/components/StateMergeEditor.tsx:47-81 | every reported conflict has its header above its footer, and both inside the buffer |
| MergeConflicts.ParseConflicts | frontend/src/components/StateMergeEditor.tsx:47-81 | the `forEach` over the lines with its mutable accumulator returns `Parse` of the text's lines |
| MergeConflicts.ParseSound | frontend/src/components/StateMergeEditor.tsx:53-71 | every reported conflict spans a block (a start marker, then an end marker, with no start or end marker in between), and its record is the one that block describes |
| MergeConflicts.ParseComplete | frontend/src/components/StateMergeEditor.tsx:66-70 | every block of the buffer is reported; unterminated blocks, restarted blocks and stray middle/end lines therefore yield nothing |
| MergeConflicts.ParseOrdered | frontend/src/components/StateMergeEditor.tsx:66-70 | conflicts come in document order and do not overlap: each footer lies above the next header |
| MergeConflicts.HeadersIncrease | frontend/src/components/StateMergeEditor.tsx:55-62 | the headers of the reported conflicts strictly increase |
| MergeConflicts.ParsedBlock | frontend/src/components/StateMergeEditor.tsx:53-62 | record `j` is the record of the block it spans, and `hasBlankLineBefore` holds iff the header is not line 0 and the line above it trims to nothing |
| MergeConflicts.ParsedConflictShape | frontend/src/components/StateMergeEditor.tsx:55-76 | start equals header and footer equals end; the marker is `middle` iff a separator is set; a separator is the last middle marker of the block; without one the whole body is the current side |
| MergeConflicts.SingleMiddle | frontend/src/components/StateMergeEditor.tsx:63-76 | with exactly one middle marker, `current` is the lines strictly between header and separator, and `incoming` the lines strictly between separator and footer |
| MergeConflicts.NoStartNoConflicts | frontend/src/components/StateMergeEditor.tsx:53-71 | a buffer without start markers has no conflicts |
| MergeConflicts.OnlyBlock | frontend/src/components/StateMergeEditor.tsx:52-78 | a buffer whose only start marker heads one block holds exactly that conflict |
| MergeConflicts.ExampleParse | frontend/src/components/StateMergeEditor.tsx:47-81 | a worked buffer parses to the expected single record |
| StateMergeEditor.DecorationsAt | frontend/src/components/StateMergeEditor.tsx:139-184 | conflict `j` owns the four bands at positions `4j..4j+3` (header, current, incoming, footer), in conflict order |
| StateMergeEditor.WidgetsAt | frontend/src/components/StateMergeEditor.tsx:187-219 | widget `i` belongs to conflict `i`, has id `conflict-actions-<i>` and sits on the header line |
| StateMergeEditor.WidgetIdsDistinct | frontend/src/components/StateMergeEditor.tsx:187 | no two widgets share an id |
| StateMergeEditor.BandsCoverSides | frontend/src/components/StateMergeEditor.tsx:154-170 | with one middle marker, the current band covers exactly the current lines (1-based `header+2..separator`) and the incoming band exactly the incoming lines (`separator+2..footer`) |
| StateMergeEditor.ResolveIsEdit | frontend/src/components/StateMergeEditor.tsx:235-258 | replacing the computed range with the joined lines plus `'\n'` splices the chosen lines in place of the conflict and its blank line |
| StateMergeEditor.ParsedResolvable | frontend/src/components/StateMergeEditor.tsx:236-240 | the range computed for any parsed conflict lies inside the buffer |
| StateMergeEditor.SidesOfParsed | frontend/src/components/StateMergeEditor.tsx:71-76 | the sides of a parsed conflict hold no newline and no start or end marker |
| StateMergeEditor.ResolvedClean | frontend/src/components/StateMergeEditor.tsx:252-265 | the resolved buffer is a non-empty list of newline-free lines, so the text re-read by `getValue` splits back into it |
| StateMergeEditor.CursorAfterInsertion | frontend/src/components/StateMergeEditor.tsx:246-249 | the cursor lands on the last inserted line; its column is that line's JavaScript `.length` (UTF-16 code units) plus one, which is at least its character count plus one |
| Text.Utf16LengthBounds | frontend/src/components/StateMergeEditor.tsx:248 | a string's `.length` lies between its character count and twice it, and equals the character count iff no character lies outside the Basic Multilingual Plane |
| StateMergeEditor.EditStartsAfterPrevious | frontend/src/components/StateMergeEditor.tsx:235-238 | the replaced range of conflict `j` starts below the footer of conflict `j-1` |
| StateMergeEditor.ResolveKeepsEarlier | frontend/src/components/StateMergeEditor.tsx:264-266 | after resolving conflict `j`, the re-parse still begins with conflicts `0..j-1`, unchanged |
| ConflictShift.IdleThrough | frontend/src/components/StateMergeEditor.tsx:52-79 | with nothing open, lines that are not start markers leave the scanner as it was |
| ConflictShift.ScanShift | frontend/src/components/StateMergeEditor.tsx:47-81 | two buffers that share a tail, both scanned idle to where it begins, and whose start marker opening the tail (if any) sees the same blank-line test, are scanned alike along it: the same open accumulator and the same new records, every line number moved by the offset of the tail |
| StateMergeEditor.ResolveShiftsLater | frontend/src/components/StateMergeEditor.tsx:235-266 | when no start marker lies between conflicts `j-1` and `j`, none among the chosen lines and none on the line right after the footer, the re-parse after resolving conflict `j` is conflicts `0..j-1` unchanged, followed by conflicts `j+1..` each moved by the change in line count, `startLineNumber - 1 + newLines.length - (footerLine + 1)`, with marker, sides and blank-line flag kept |
| StateMergeEditor.ResolveSideShiftsLater | frontend/src/components/StateMergeEditor.tsx:235-283 | in a padded buffer, accepting either side of conflict `j` removes just that conflict and moves the later ones as above, provided no stray start marker lies between conflicts `j-1` and `j` |
| StateMergeEditor.ExampleResolve | frontend/src/components/StateMergeEditor.tsx:235-283 | accepting the incoming side of the worked buffer's one conflict gives the lines `a`, `Y`, `b`, which hold no conflict |
| StateMergeEditor.ResolveOnlyConflict | frontend/src/components/StateMergeEditor.tsx:252-266 | resolving a conflict whose header is the buffer's only start marker, with one of its sides, leaves no conflict |
| StateMergeEditor.StrayMarkersParse | frontend/src/components/StateMergeEditor.tsx:47-81 | in a buffer with an unterminated start marker above a conflict and a stray end marker below it, only the inner conflict is reported |
| StateMergeEditor.ResolveCanResurface | frontend/src/components/StateMergeEditor.tsx:251-266 | resolving the only reported conflict of that buffer joins the stray markers into a new conflict: the re-parse is not empty |
| StateMergeEditor.MergeEditor.constructor | frontend/src/components/StateMergeEditor.tsx:306-319 | the editor opens on the padded text, decorated with its conflicts, with the given `readOnly` option |
| StateMergeEditor.MergeEditor.ClearAllWidgets | frontend/src/components/StateMergeEditor.tsx:116-124 | every widget is removed and nothing else changes |
| StateMergeEditor.MergeEditor.AddConflictDecorations | frontend/src/components/StateMergeEditor.tsx:126-224 | the old decorations and widgets are replaced by exactly the bands and widgets of the given conflicts; buffer and cursor are kept |
| StateMergeEditor.MergeEditor.ContentChanged | frontend/src/components/StateMergeEditor.tsx:312-316 | after a user edit the decorations show the conflicts of the new text |
| StateMergeEditor.MergeEditor.MakeEdit | frontend/src/components/StateMergeEditor.tsx:226-267 | an empty side fails at the cursor computation and leaves the editor unchanged; a non-empty side moves the cursor to `Cursor` and re-decorates; the conflict is replaced iff the editor is not read-only, and a read-only editor keeps its text and decorations |
| StateMergeEditor.MergeEditor.Redecorate | frontend/src/components/StateMergeEditor.tsx:264-266 | re-parsing the buffer's text restores the decorations invariant without touching buffer or cursor |
| StateMergeEditor.MergeEditor.SetReadOnly | frontend/src/components/StateMergeEditor.tsx:319 | the `readOnly` option is updated and nothing else changes |
| StateMergeEditor.MergeEditor.AcceptCurrent | frontend/src/components/StateMergeEditor.tsx:269-275 | widget `i` resolves parsed conflict `i` with its current side; it applies iff that side is non-empty and the editor is not read-only; a non-empty side always moves the cursor |
| StateMergeEditor.MergeEditor.AcceptIncoming | frontend/src/components/StateMergeEditor.tsx:277-283 | widget `i` resolves parsed conflict `i` with its incoming side; it applies iff that side is non-empty and the editor is not read-only; a non-empty side always moves the cursor |
| YamlEditor.ConvertPointwise | frontend/src/components/YamlEditor.tsx:18-31 | same shape (array lengths, object keys in order, other scalars identical); a string without `'\n'` gains one and any other string is unchanged; a `Date` becomes an empty object |
| YamlEditor.CleanupPointwise | frontend/src/components/YamlEditor.tsx:33-46 | same shape; exactly one trailing `'\n'` is removed from each string that has one; a `Date` becomes an empty object |
| YamlEditor.ConvertAllMultiline | frontend/src/components/YamlEditor.tsx:19-21 | every string of the converted value contains a newline, and no `Date` is left |
| YamlEditor.ConvertFixesMultiline | frontend/src/components/YamlEditor.tsx:19-21 | a value without dates whose strings all contain a newline is a fixed point |
| YamlEditor.ConvertIdempotent | frontend/src/components/YamlEditor.tsx:18-31 | converting twice equals converting once |
| YamlEditor.CleanupConvert | frontend/src/components/YamlEditor.tsx:18-46 | round trip: cleanup after convert gives back any value without dates none of whose strings ends in `'\n'` |
| YamlEditor.CleanupConvertNeedsProviso | frontend/src/components/YamlEditor.tsx:34-35 | the proviso is needed: `"a\n"` comes back as `"a"` |
| YamlEditor.TimestampBecomesEmptyObject | frontend/src/components/YamlEditor.tsx:157-160 | a field the YAML parser reads as a timestamp reaches the parent as an empty object |
| YamlEditor.SyncOverwrites | frontend/src/components/YamlEditor.tsx:124-134 | a mounted editor showing different text is overwritten and the flag is raised; otherwise nothing changes |
| YamlEditor.ChangeSuppressed | frontend/src/components/YamlEditor.tsx:148-152 | a flagged change only lowers the flag: nothing is propagated and the error is kept |
| YamlEditor.ChangePropagates | frontend/src/components/YamlEditor.tsx:153-164 | an unflagged non-empty change passes on the cleaned-up parse (which may hold dates) or shows the parse error; empty text is ignored |
| YamlEditor.ExactlyOneSuppressed | frontend/src/components/YamlEditor.tsx:124-152 | after an overwriting sync exactly one change event is swallowed, and the next edit reaches the parent |
| YamlEditor.YamlEditorView.constructor | frontend/src/components/YamlEditor.tsx:82-85 | before mount: no editor, flag down, no error, nothing emitted |
| YamlEditor.YamlEditorView.Mount | frontend/src/components/YamlEditor.tsx:167-168 | the mounted editor holds the rendered YAML |
| YamlEditor.YamlEditorView.Sync | frontend/src/components/YamlEditor.tsx:124-134 | the effect's field updates equal `SyncStep` |
| YamlEditor.YamlEditorView.OnChange | frontend/src/components/YamlEditor.tsx:148-165 | the handler's field updates equal `ChangeStep` |
| ListDicts.AppendSpec | backend/looplit/utils.py:40-42 | "create if absent, then append" extends exactly one list by `x`, keeps the others, and adds a new key at the end of the iteration order |
| ToolCalls.Select | backend/looplit/utils.py:31-33 | only assistant messages with a non-empty tool-call list are selected |
| ToolCalls.SelectErr | backend/looplit/utils.py:32 | the selection raises `KeyError('tool_calls')` iff some assistant message lacks the key |
| ToolCalls.SelectKeeps | backend/looplit/utils.py:31-33 | every considered message is selected |
| ToolCalls.SelectLast | backend/looplit/utils.py:34 | the last selected message is the last considered message of the conversation |
| ToolCalls.LastCallsSpec | backend/looplit/utils.py:31-36 | with no considered message there is nothing to do; otherwise only the last one's calls are used |
| ToolCalls.RecordValid | backend/looplit/utils.py:39-42 | recording keeps the table well formed |
| ToolCalls.RecordSpec | backend/looplit/utils.py:37-42 | a stateful function's list becomes its old list followed by its calls' ids in call order, after one leading `call_` is stripped from each name; other lists are untouched; a key appears only if it got an id |
| ToolCalls.RecordOnlyGrows | backend/looplit/utils.py:42 | no list is ever shortened |
| ToolCalls.RecordTwice | backend/looplit/utils.py:42 | not idempotent: recording the same calls again appends their ids again |
| ToolCalls.ToolCallTable.constructor | backend/looplit/utils.py:26 | the table starts empty |
| ToolCalls.ToolCallTable.MapToolCalls | backend/looplit/utils.py:29-42 | on a `KeyError` or with no considered message the table is unchanged; otherwise the loop's updates equal `Record` on the last message's calls |
| Sessions.SerializeJsonReady | backend/looplit/session.py:10-28 | whatever goes in, the result holds only scalars, lists and dicts |
| Sessions.SerializeFixesJsonReady | backend/looplit/session.py:17-22 | a value that is already JSON-ready comes back unchanged |
| Sessions.SerializeIdempotent | backend/looplit/session.py:10-28 | serialising twice equals serialising once |
| Sessions.SerializeShape | backend/looplit/session.py:17-28 | dicts keep their keys in order and lists their length; tuples and sets become lists; other objects become their `str` |
| Sessions.Registry.constructor | backend/looplit/session.py:142-143 | both registry tables start empty |
| Sessions.Registry.Get | backend/looplit/session.py:76-79 | a session is found iff its socket id is registered |
| Sessions.Registry.GetById | backend/looplit/session.py:81-84 | a session is found iff its id is registered |
| Sessions.Registry.Require | backend/looplit/session.py:86-91 | returns the session `Get` finds, and otherwise fails with "Session not found" |
| Sessions.Session.constructor | backend/looplit/session.py:43-62 | the new session is registered under its fresh id and its socket id, not restored, with an empty call stack |
| Sessions.Session.Restore | backend/looplit/session.py:64-69 | the old socket key is removed and the new one maps to the session; afterwards `get(new)` finds it and the old key finds nothing if it differs |
| Sessions.Session.Delete | backend/looplit/session.py:71-74 | both registry entries go; afterwards neither `get` nor `get_by_id` finds the session |
| Sessions.Session.SyncToolCalls | backend/looplit/session.py:119-131 | the nested loops emit exactly `SyncEvents` over the table's keys in order |
| Sessions.ZipEventsSpec | backend/looplit/session.py:129-131 | a pair is sent iff it sits at the same position of both lists, below both lengths, with neither id empty; nothing else is sent |
| Sessions.ZipEventsAll | backend/looplit/session.py:129-131 | with no empty ids the events are the zip, position by position |
| Sessions.SyncEventsSpec | backend/looplit/session.py:124-131 | an event is sent iff some listed function pairs it |
| Sessions.FuncEventsNeedBoth | backend/looplit/session.py:126-129 | a function with no tool calls or no lineages sends nothing |
| Stateful.Register | backend/looplit/decorators.py:134-138 | without `LOOPLIT_DEBUG` nothing is registered; with it the name is bound (or rebound) to the new wrapper and every other entry is kept |
| Stateful.EnterLineage | backend/looplit/decorators.py:53-74 | a root call runs on the initial lineage; a call after another function's frame runs on the fresh id and appends it to its function's lineages; otherwise the caller's lineage is inherited; the frame is pushed |
| Stateful.EnterKeepsInv | backend/looplit/decorators.py:53-74 | entering keeps the invariant that explains every frame's lineage |
| Stateful.PrepareKeepsInv | backend/looplit/decorators.py:88-93 | the tool-call mapping and sync leave the stack and the lineage table alone |
| Stateful.CompleteKeepsInv | backend/looplit/decorators.py:126-128 | completing pops exactly one frame and keeps the invariant |
| Stateful.CallRestoresStack | backend/looplit/decorators.py:72-128 | a completed call leaves the stack as it found it |
| Stateful.EnterEvents | backend/looplit/decorators.py:76-86 | the input state is sent for non-root calls, an interrupt only for a non-root call when requested, then `start` |
| Stateful.CompleteEvents | backend/looplit/decorators.py:104-129 | a result whose class declares `metadata` is sent under the call's lineage and handed back; one whose class does not raises the `AttributeError`, which is sent as an error tagged with the lineage; a raised error is sent the same way; a cancellation sends nothing; then `end`; only a sent result is handed back |
| Stateful.WithFuncNameSpec | backend/looplit/decorators.py:104-107 | reading `metadata` fails, with the `AttributeError` message, iff the class does not declare it; otherwise falsy metadata becomes exactly `{func_name}`, or `func_name` is set and the other entries are kept |
| Stateful.PlainStateLost | backend/looplit/decorators.py:104-129 | a result of the library's own `State` class is never sent or handed back: the call reports "'State' object has no attribute 'metadata'" and ends |
| Stateful.CompleteIntendedEvents | backend/looplit/decorators.py:104-118 | with the field declared, every returned result is sent under the call's lineage and handed back with its id, its messages and `func_name` set |
| Stateful.Runtime.constructor | backend/looplit/decorators.py:23-25 | the module tables start empty |
| Stateful.Runtime.Decorate | backend/looplit/decorators.py:40-140 | the wrapper is returned iff debugging is on, and registration follows `Register` |
| Stateful.Runtime.Enter | backend/looplit/decorators.py:53-86 | its updates equal `EnterStep`, and the lineage returned is the one chosen |
| Stateful.Runtime.Prepare | backend/looplit/decorators.py:88-93 | its updates equal `PrepareStep` |
| Stateful.Runtime.Complete | backend/looplit/decorators.py:104-129 | its updates equal `CompleteStep`, including the `AttributeError` path for a class without `metadata` |
| Stateful.Runtime.Call | backend/looplit/decorators.py:44-129 | a whole call composes the three steps (a `map_tool_calls` error counts as raised, a class without `metadata` gives the `AttributeError`), keeps the invariant and restores the stack |
| Cli.CheckFileAccepts | backend/looplit/cli/__init__.py:63-81 | accepted iff the extension is `.py` or `.py3` and the file exists |
| Cli.CheckFileRejects | backend/looplit/cli/__init__.py:70-81 | no extension gives the "no extension" usage error; another extension gives a usage error naming it, even for a missing file; a missing well-named file gives `BadParameter` |
| Cli.UpperCaseRefused | backend/looplit/cli/__init__.py:65-70 | the comparison is case-sensitive: `.PY` is refused |
| Cli.GetBuildDirSpec | backend/looplit/cli/__init__.py:45-53 | the local build wins, then the packaged one; the answer exists; it fails, naming the local target, iff neither exists |
| Cli.PathJoinEndsWith | backend/looplit/cli/__init__.py:45-46 | each candidate path ends in its last component |
| MessageEdits.AddBlockAppends | frontend/src/components/Message/index.tsx:61-104 | adding a block yields a list: the old content's blocks followed by the new block |
| MessageEdits.AddActionsSpec | frontend/src/components/Message/index.tsx:61-104 | `addText` as intended (on the message shown) appends an empty text block, and `addImage` an image whose displayed URL is the given one; every other field is kept |
| MessageEdits.CapturedSpec | frontend/src/components/Message/index.tsx:61-80 | the message the memoised `addText` captured has the current content, is one of the renders, and is the current message when the handler changes on every render |
| MessageEdits.AddTextAsWrittenSpec | frontend/src/components/Message/index.tsx:61-80 | as written the action appends to the current content but keeps every other field of the captured message; it agrees with `addText` on the message shown iff the captured message is the current one, which it is when the handler is not stable |
| MessageEdits.AddTextRevertsRole | frontend/src/components/Message/index.tsx:61-80 | with a stable handler, changing the role and then adding a text block restores the old role, where the intended action keeps the new one |
| MessageEdits.ReplacementsIndependent | frontend/src/components/Message/index.tsx:113-166 | the role and content replacements touch only their own field, commute, and the later one wins |
| MessageEdits.PasteVersusDialog | frontend/src/components/Message/Content.tsx:22-38 | a pasted image is appended like the dialog's; into a message without content a paste also leaves an empty text block in front |
| MessageEdits.EditTextSpec | frontend/src/components/Message/Content.tsx:66-75 | only block `i`'s text changes, the length is kept, and typing the old text back restores the list |
| MessageEdits.DeleteSpec | frontend/src/components/Message/Content.tsx:82-86 | exactly block `i` is removed and the rest keep their order; reinserting it restores the list; an index past the end deletes nothing |
| MessageEdits.FirstTextSurvives | frontend/src/components/Message/Content.tsx:80-86 | no offered delete removes a leading text block |
| MessageEdits.ChangeMessageSpec | frontend/src/views/function/chat/Body/index.tsx:45-58 | the message at `i` is replaced, the length and every other message and field are kept; past the end the message is appended |
| MessageEdits.ChangeMessageRestores | frontend/src/views/function/chat/Body/index.tsx:50-57 | putting the old message back is no change, and of two changes at one index the later wins |
| MessageEdits.ChangeFromBody | frontend/src/views/function/chat/Body/index.tsx:84 | messages are editable exactly when nothing is running |
| FrontendStore.SetEditStateUpdate | frontend/src/hooks/useSetEditState.ts:11-18 | the copy-and-assign/delete steps equal `SetEditState` |
| FrontendStore.SetEditStateSpec | frontend/src/hooks/useSetEditState.ts:11-18 | a state is stored under the lineage, `undefined` removes the key, all other keys are kept; clearing is idempotent and undoes a set |
| FrontendStore.AddForkUpdate | frontend/src/hooks/useForkState.ts:41-60 | the step-by-step updater equals `AddFork` |
| FrontendStore.AddForkSpec | frontend/src/hooks/useForkState.ts:41-60 | the list at (view, message) gains the new id at its end, and a first fork gives `[current, new]`; every other list is untouched |
| FrontendStore.ForkSpec | frontend/src/hooks/useForkState.ts:24-72 | one new lineage holding only the state under the new id; others unchanged; the fork is recorded; the view moves to index 0 of the new lineage; the function is called on it, which clears the error so that no view shows an alert; edit states, running flag, interrupt and tool-call table are kept; the new id is returned |
| FrontendStore.SpliceKeep | frontend/src/components/MessageComposer/index.tsx:60 | `splice(start)` keeps a prefix of the lineage |
| FrontendStore.TruncateAndPush | frontend/src/components/MessageComposer/index.tsx:56-69 | the copy/splice/push steps set the lineage to its kept prefix followed by the new state, and keep every other lineage |
| FrontendStore.AddMessageDisabled | frontend/src/components/MessageComposer/index.tsx:41-45 | while running, with empty content or with an edit state, nothing changes and nothing is called |
| FrontendStore.ComposedStateSpec | frontend/src/components/MessageComposer/index.tsx:46-53 | the new state has a fresh id, the current messages followed by the composer message, and a copy of the tools (or `[]`) |
| FrontendStore.AddMessageSpec | frontend/src/components/MessageComposer/index.tsx:43-86 | the lineage is truncated after the index and the new state appended; the index is bumped by one; the composer is emptied and keeps its role; the function is called iff `send`, and a send clears the error; nothing else changes |
| FrontendStore.AddMessageShowsNewState | frontend/src/components/MessageComposer/index.tsx:56-72 | from inside the lineage the new state lands right after the current one, and the new index shows it |
| FrontendStore.EditModeSpec | frontend/src/views/function/chat/Header/EditMode.tsx:27-56 | discard clears only this lineage's edit state and leaves the history alone; apply appends the edit state at the END of the lineage, clears it, bumps the index and keeps other lineages; apply throws iff the lineage has no history |
| FrontendStore.ApplyThenSettle | frontend/src/views/function/chat/Header/EditMode.tsx:49-56 | once the view settles the applied state is shown; the index apply sets shows it directly only when the edit was on the last state |
| FrontendStore.ComposeSettled | frontend/src/views/function/index.tsx:16-19 | settling after composing does not move the view |
| FrontendStore.ReceiveSpec | frontend/src/SocketConnection.tsx:64-109 | `start`/`end` set running; `error` and `interrupt` store their payload; `output_state` appends to (or creates) one lineage; `map_tc_to_lid` overwrites one mapping; nothing else changes |
| FrontendStore.ReceiveAllHistory | frontend/src/SocketConnection.tsx:93-100 | over a run each lineage's history is its old list followed by the states output for it, in order of arrival |
| FrontendStore.ReceiveAllRunning | frontend/src/SocketConnection.tsx:64-70 | after a run, running reflects the last `start`/`end` event |
| FrontendStore.OutputFollowed | frontend/src/SocketConnection.tsx:93-100 | an output for the viewed lineage is what the view shows once settled, unless an edit state is in front |
| FrontendStore.ReceiveAllError | frontend/src/SocketConnection.tsx:72-74 | no socket event clears an error; after a run the chat body's alert shows on exactly the views of the last error's lineage |
| FrontendStore.SendClearsError | frontend/src/hooks/useInteraction.ts:22-25 | an error for the viewed lineage shows its alert; composing without sending keeps it, and sending hides it |
| Navigation.LineageNavInRange | frontend/src/views/function/state/Header/LineageNav.tsx:21-82 | from inside a lineage every key press (any key, with or without Shift, as written and as intended) and every button move stays inside; in edit mode nothing moves; the counter reads between `1/len` and `len/len` |
| Navigation.UndoRedoInverse | frontend/src/views/function/state/Header/LineageNav.tsx:24-35 | Cmd/Ctrl+Z and Cmd/Ctrl+Shift+Z with key `'z'` are inverse away from the bounds and stop at them |
| Navigation.RedoNeedsLowercase | frontend/src/views/function/state/Header/LineageNav.tsx:24-36 | as written, Ctrl+Shift+Z reported as key `'Z'` neither redoes nor prevents the default, where the intended handler redoes |
| Navigation.KeyDownIntendedAgrees | frontend/src/views/function/state/Header/LineageNav.tsx:24-36 | the intended handler agrees with the written one on every key but `'Z'`, which the written one ignores and the intended one treats as `'z'` |
| Navigation.ButtonsOutsideRange | frontend/src/views/function/state/Header/LineageNav.tsx:54-82 | the `===` bounds do not catch index -1 (an empty lineage), where "previous" stays enabled |
| Navigation.ForkClickSpec | frontend/src/views/function/chat/Body/ForkButton.tsx:30-53 | a click forks the current state cut after message `index` (a user or tool message), with the same tools, under the new id; the lineage's edit state is cleared first, and the call clears the error |
| Navigation.FindIndex | frontend/src/views/function/chat/Body/ForkNav.tsx:24 | the position is -1 or inside the list |
| Navigation.FindIndexSpec | frontend/src/views/function/chat/Body/ForkNav.tsx:24 | the first position holding the lineage, or -1 exactly when it is absent |
| Navigation.ForkNavAsWrittenMissing | frontend/src/views/function/chat/Body/ForkNav.tsx:24-36 | as written, a lineage missing from the list shows `0/n` with "previous" enabled, and clicking it fails |
| Navigation.ForkTwiceLosesPosition | frontend/src/views/function/chat/Body/ForkNav.tsx:20-26 | two successive forks produce that case |
| Navigation.ForkNavSpec | frontend/src/views/function/chat/Body/ForkNav.tsx:20-57 | the guarded navigator shows iff the lineage is listed, at its position; each enabled button leads to an existing neighbour; the counter is between `1/n` and `n/n`; edit mode disables both buttons |
| Navigation.ForkNavAgrees | frontend/src/views/function/chat/Body/ForkNav.tsx:20-26 | the guard changes nothing when the lineage is listed |
| Navigation.ForkNavGoTo | frontend/src/views/function/chat/Body/ForkNav.tsx:31-53 | an enabled button selects the neighbouring lineage at its last state |
| Navigation.ForkShowsNewLast | frontend/src/views/function/chat/Body/ForkNav.tsx:40-57 | right after a fork the navigator shows the new lineage last: `n/n`, with "next" disabled |
| ToolCallView.ResponseSpec | frontend/src/views/function/chat/Body/ToolCall.tsx:20-22 | the response is the first tool message answering the call, and there is none iff no message answers it |
| ToolCallView.RenderSpec | frontend/src/views/function/chat/Body/ToolCall.tsx:20-61 | loading iff running without a response; nested view iff a non-empty lineage is mapped; the name loses one leading `call_` only when mapped |
| ToolCallView.RenderNameMatchesBackend | frontend/src/views/function/chat/Body/ToolCall.tsx:26-30 | for a mapped call the name shown is the name the backend attributed the call to |
| ToolCallView.MappedAfterEvent | frontend/src/views/function/chat/Body/ToolCall.tsx:51-61 | after `map_tc_to_lid` with a non-empty lineage the call opens that lineage's nested view |

## Left out

- Monaco itself is not modelled: decoration collections, DOM widgets, undo stops and focus. The model keeps only the state the component reads and writes. Monaco's clamping of a range past the last line is modelled as "to the end of the buffer".
- StateMergeEditor.MergeEditor.MakeEdit: the `!model` and `!editor` early returns are not modelled, because the editor always has a model once mounted.
- js-yaml `dump`/`load` are external. The parse result is a parameter, and the rendered YAML is a string given to `Sync`.
- `JsonEditor.tsx` is not part of this model. It uses the same suppression flag as the YAML editor, which `YamlEditor` covers.
- pydantic (`model_dump`, and the `tool` decorator's schema building) is external. A model is an opaque value holding its dump.
- Sessions.Serialize: floats are opaque tokens. Sets and tuples are given by their elements in iteration order.
- `send_output_state` also serialises the messages of the state it sends. Events carry the state as given.
- Stateful.CompleteStep: the `duration_ms`, `start_time` and `end_time` metadata entries come from the clock and are left out.
- Stateful.Runtime.Call: only a call that makes no nested stateful calls is composed end to end. Nested calls are covered by the step lemmas and `CallRestoresStack`.
- Stateful: the sync/async wrapper choice is a flag, because `run_sync` and the event loop are external. asyncio task creation and cancellation become the `Cancelled` outcome.
- Sessions.Session.constructor: `initial_lineage_id` starts as `None` in the source; the model uses the empty string.
- The socket, FastAPI/uvicorn, file watching and `load_module` are I/O and are not modelled.
- `os.path.splitext` and `os.path.exists` are given as functions.
- Cli.PathJoin follows `os.path.join` on POSIX only.
- Navigation.ForkShown: an index past the current state's messages counts as hidden. The source would throw reading `.role`, but the chat body only renders the button under existing messages.
- FrontendStore.Apply: when the lineage has no history, the source has already cleared the edit state before its updater throws. The model reports only the error and keeps the store.
- The interrupt acknowledgement callback is an opaque handle.
- The scroll-position store of the chat body, the tool-call arguments editor, the copy and "ask AI" buttons, and every non-shortcut key event are UI only.
- LLM calls (`canvas.py`, the examples), Markdown, image dialogs, themes, routing and Save/Upload are not part of this model.
- ToolCalls.Select: a message without `"role"` raises `KeyError` at `utils.py:32`, and a tool call without `"function"` or `"id"` raises at lines 38 and 42 after part of the table has been updated. The model assumes every message and call follows the OpenAI schema, which rules both out.
- StateMergeEditor.BandsCoverSides: the lemma states the bounds the source computes. With an empty side (separator right after the header, or footer right after the separator) the band's start line lies below its end line, and Monaco's `Range` swaps them, so the band then highlights the two marker lines. Monaco's normalisation of a range is not modelled.
- FrontendStore.AddForkUpdate: the source copies the forks map shallowly and then assigns into the per-view array of the previous atom value (`useForkState.ts:41-57`). Recoil's development-mode freezing rejects that on the second fork in the same view. The model builds fresh lists and does not capture that aliasing.
- StateMergeEditor.MergeEditor.MakeEdit: the cursor is set to the computed position as is; Monaco's `setPosition` clamps a position to the document, which matters only in a read-only editor whose text was not replaced. The clamping is not modelled.
- StateMergeEditor.ResolveShiftsLater: the later conflicts are described only under its three provisos, which are needed. A stray start marker above conflict `j` can join later lines into a new conflict (`ResolveCanResurface`). On a buffer that is not padded, as after a user edit, the line after the footer can be a start marker whose blank-line flag the splice changes. The shape of the re-parse in those cases is not described.
- The merge editor's `acceptAll`/`rejectAll` callbacks and a `state_edit` event handler do not exist in the source, and are not modelled.

## Findings

| source | as written | input that shows it | evidently intended | confidence | as-written member | corrected member |
|---|---|---|---|---|---|---|
| frontend/src/views/function/chat/Body/ForkNav.tsx:24-26 | `findIndex` returns -1 for a missing lineage, yet the guard tests `=== undefined`, which never holds; the navigator then shows `0/n`, "previous" is enabled, and clicking it reads `forks[-2]` and fails on `.length` | fork at message 2 on `root` (giving lineage L1), then fork at message 4 on L1 (giving L2); on L2, message 2's forks are `[root, L1]` | hide the navigator when the current lineage is not among the forks (`currentForkIndex === -1`) | not executed | Navigation.ForkNavAsWritten | Navigation.ForkNav |
| backend/looplit/decorators.py:104 | `result.metadata` is read on the user's result, but the library's `State` declares only `id`, `messages` and `tools`; pydantic raises `AttributeError`, the `except` sends it as an error, and the output state is never sent or returned | any stateful function returning a plain `State` (as the examples do) | declare `metadata: Optional[dict] = None` on `State`; the frontend already drops a `metadata` entry from the states it shows | not executed | Stateful.CompleteStep | Stateful.CompleteStepIntended |
| frontend/src/components/Message/index.tsx:80 | `addText` is memoised on `[message.content, onChange]` and spreads the message of the render that built it | in the composer (whose `onChange` is a stable state setter) choose the role `assistant`, then click "Add Text Block": the role falls back to `user` | depend on the whole `message`, as `addImage` does | not executed | MessageEdits.AddTextAsWritten | MessageEdits.AddText |
| frontend/src/views/function/state/Header/LineageNav.tsx:24 | the shortcut test is `event.key === 'z'`, but with Shift held browsers report `'Z'`, so the redo branch is unreachable by keyboard | Ctrl+Shift+Z (or Cmd+Shift+Z) on a state that has a successor | compare the key case-insensitively | not executed | Navigation.KeyDown | Navigation.KeyDownIntended |
