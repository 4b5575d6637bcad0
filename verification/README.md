# AirLatex sidebar and comment panel, modelled in Dafny

AirLatex is a Neovim plugin for Overleaf projects. This project models its
two text panels and the id helpers they use.

- **Sidebar** (`sidebar.py`). The sidebar draws the project list and the
  folder tree of every open project. Each line is paired with a *cursor
  path*: the objects from the project down to the node the line shows.
  `listProjects` and `listProjectStructure` write the lines through
  `bufferappend`. This function overwrites the buffer from the top and
  remembers the path of the line that lands on the cursor row.
  `cursorAction` reads that path when a key is pressed. It toggles a folder
  or project, connects or disconnects a project, or opens a document.
- **Comment panel** (`commentbuffer.py`). `render` orders the threads under
  the cursor by the time stamp of each thread's first message. `_render`
  draws the selected thread: a header, the messages in boxes, and a footer
  that resolves or reopens the thread. The panel also holds the reply and
  new-comment drafts, and switches between threads.
- **Ids** (`util.py`). `generateId` builds a hexadecimal id from a time
  stamp, a machine number and a process number. `generateCommentId` adds a
  six-digit counter to it. `_genTimeStamp` builds a time stamp out of
  `time.time()`. It is meant to be a 13-digit millisecond stamp.

## How the Python is modelled

- Dictionaries become datatypes. An absent optional key (`open`, `msg`,
  `lastUpdatedBy`, `first_name`, `timestamp`) becomes `Option`.
- A cursor-path element is `Elem(slot, node)`:
  - `node` is the value. `cursorAt` compares elements with `!=`, which is
    value equality on dictionaries. A project keeps the identity of its
    handler object, which Python compares by identity, and one token for
    the keys the sidebar never reads, such as the project's id. So two
    projects are equal in the model exactly when the dictionaries are.
  - `slot` is the element's position in the list that holds it. It stands
    for the object's identity, which `_toggle` uses to mutate the shared
    dictionary.
- Remote calls become events: connect, disconnect, join document, reply,
  create, resolve, reopen, and the refresh that schedules a redraw.
- An exception the sidebar's `catchException` reports becomes an
  `ErrorMessage` event.
- In the comment panel, the exception decorator itself fails:
  `updateStatusLine` is not defined on the panel. So a raise leaves the
  method. It is modelled as a `Fault` next to the state at the point of
  the raise.
- The window width, `str.center`, `textwrap.wrap` and the `strftime` of a
  time stamp are inputs. They are an `Env` record of functions, left
  uninterpreted.
- The random draws and the clock of `generateId` are an `Entropy` input.
  So is the `str(time.time())` of `_genTimeStamp`.

A few behaviours of the code that the model keeps as they are:

- `changeComment` on an empty thread list divides by zero
  (`CommentPanel.EmptyChangeRaises`).
- A redraw that finds the server unreachable returns without releasing the
  render lock (`CommentPanel.RedrawReleases`).
- `_render` raises `KeyError` on a thread without `messages` and on a
  message without `timestamp` (`CommentLayout.ThreadLinesShape`).
- `finishDraft` when no draft is in progress hides the panel
  (`CommentPanel.FinishDraft`).
- A key on a one-element path that is not a connected project calls
  `session.connectProject`. Before a session exists, `session` is `False`,
  so the call raises and the error is reported
  (`SidebarAction.CursorActionWith`).

## Model

| member | source | states |
|---|---|---|
| PyStr.RStrip | rplugin/python3/airlatex/commentbuffer.py:69-71 | `str.rstrip()`: the result is a prefix of the input, does not end in whitespace, and only whitespace was removed |
| PyStr.Repeat | rplugin/python3/airlatex/commentbuffer.py:204 | `c * n` has `max(0, n)` characters, all equal to `c` |
| PyStr.RStripSpaces | rplugin/python3/airlatex/commentbuffer.py:69-71 | whitespace added to the end of a string is stripped together with the whitespace already there |
| Buffer.Append | rplugin/python3/airlatex/sidebar.py:55-63 | one `bufferappend`: the line lands at the write index (replacing a line or appending one), no other line changes, the index advances, and the path is captured exactly when the new index is the cursor row |
| Buffer.WriteRun | rplugin/python3/airlatex/sidebar.py:55-63 | a loop of `bufferappend` calls over fixed lines leaves the buffer as the run of single writes defines |
| Buffer.WriteAllHolds | rplugin/python3/airlatex/sidebar.py:55-63 | a run of `bufferappend` calls from the top leaves the written lines over the old leftovers, and the captured path is the one of the line on the cursor row |
| Buffer.TruncateHolds | rplugin/python3/airlatex/sidebar.py:170-172 | deleting from the write index on leaves exactly the written lines, and the captured path is the cursor row's path or the reset value |
| SidebarTree.Toggle | rplugin/python3/airlatex/sidebar.py:271-276 | `_toggle`: an absent flag becomes the default, a present one is negated |
| SidebarTree.CursorAt | rplugin/python3/airlatex/sidebar.py:210-225 | `cursorAt(pos)` holds iff `pos` is no longer than the cursor path and agrees with it element by element |
| SidebarTree.CursorAtPrefixes | rplugin/python3/airlatex/sidebar.py:217-225 | the empty path and every prefix of the cursor path are "at" the cursor |
| SidebarTree.ToggleAt | rplugin/python3/airlatex/sidebar.py:252 | toggling a folder below the top keeps the top folder's flag, name, documents, file references and number of sub-folders |
| SidebarTree.ToggleAtKeepsOthers | rplugin/python3/airlatex/sidebar.py:252 | every folder at an address other than the toggled one keeps its flag, name, documents, file references and number of sub-folders |
| SidebarTree.DistinctProjectsNotAt | rplugin/python3/airlatex/sidebar.py:210-225 | projects whose handler objects differ, or that differ in a key the sidebar does not read, are never at each other's cursor path |
| SidebarTree.ToggleAtChangesOnlyTarget | rplugin/python3/airlatex/sidebar.py:271-276 | the toggle reaches the addressed folder and changes only its flag |
| SidebarTree.ToggleTwiceRestores | rplugin/python3/airlatex/sidebar.py:271-276 | toggling a folder that has a flag twice restores the tree |
| SidebarStructure.ListProjectStructure | rplugin/python3/airlatex/sidebar.py:179-203 | the method writes exactly the lines of the reference listing: folders with their open subtrees, then documents, then file references under their header |
| SidebarStructure.WriteFolders | rplugin/python3/airlatex/sidebar.py:184-190 | the folder loop writes every sub-folder's block in order |
| SidebarStructure.WriteFolderBlock | rplugin/python3/airlatex/sidebar.py:186-190 | one folder's line, then its subtree when it is open |
| SidebarStructure.WriteDocs | rplugin/python3/airlatex/sidebar.py:193-196 | the document loop writes one line per document, one step deeper than the folders |
| SidebarStructure.WriteFileRefs | rplugin/python3/airlatex/sidebar.py:198-203 | the header line and one line per file reference, and nothing when there are none |
| SidebarStructure.WriteFileRefLines | rplugin/python3/airlatex/sidebar.py:201-203 | the loop over the file references writes one line per reference, in order |
| SidebarStructure.StructureAttached | rplugin/python3/airlatex/sidebar.py:179-203 | every line's path is the prefix followed by a chain of open folders down to its node, and its text is that node's label at the chain's depth |
| SidebarStructure.StructureTextsIgnorePos | rplugin/python3/airlatex/sidebar.py:179-203 | the text of the listing does not depend on the path prefix it is drawn under |
| SidebarStructure.StructureOrdered | rplugin/python3/airlatex/sidebar.py:182-203 | under each folder, lines come folders first, then documents, then the file-reference header, then file references, each group in list order |
| SidebarStructure.StructureCount | rplugin/python3/airlatex/sidebar.py:179-203 | the listing has one line per visible node plus one header per folder with file references |
| SidebarStructure.Disclosure | rplugin/python3/airlatex/sidebar.py:186-190 | a closed folder is one line; an open one is its line followed by its own listing one level deeper |
| SidebarStructure.ToggleRedrawsOnlyItsBlock | rplugin/python3/airlatex/sidebar.py:184-190 | toggling a drawn folder changes the listing only inside that folder's block, which is redrawn from the toggled folder; the lines before and after are the same |
| SidebarStructure.ToggleSplice | rplugin/python3/airlatex/sidebar.py:184-190 | the listings before and after a toggle are the same lines around the folder's old and new block, and the block starts at the folder's offset |
| SidebarStructure.ToggleHiddenKeepsTexts | rplugin/python3/airlatex/sidebar.py:184-190 | toggling a folder inside a closed folder changes no line of the listing |
| SidebarRender.ListProjects | rplugin/python3/airlatex/sidebar.py:114-177 | the buffer afterwards is the reference listing: header with counter, project blocks, footer; the captured path is the cursor row's; the counter advances; the cursor moves to row 5 unless overwriting |
| SidebarRender.WriteProject | rplugin/python3/airlatex/sidebar.py:140-160 | one project's line, its structure when open, and then its details (separator when open, message when present, source, owner, last change, last editor when present) exactly when the path captured so far is at the project |
| SidebarRender.WriteHead | rplugin/python3/airlatex/sidebar.py:141-148 | the project's line with its open or closed symbol, followed by the root folder's structure one level down when the project is open |
| SidebarRender.ListingShape | rplugin/python3/airlatex/sidebar.py:127-169 | the listing has at least nine lines, starts with the four header lines and ends with the five footer lines |
| SidebarRender.DetailsShownIff | rplugin/python3/airlatex/sidebar.py:150-160 | a project's details are shown iff the cursor row is on the project's own lines, or an earlier line's path starts at an equal project |
| SidebarRender.ListingResolves | rplugin/python3/airlatex/sidebar.py:114-177 | every path the listing captures is empty, a marker, or a project followed by a chain of open folders in that project |
| SidebarAction.ToggleProject | rplugin/python3/airlatex/sidebar.py:239-240 | only the addressed project's flag changes |
| SidebarAction.ToggleFolder | rplugin/python3/airlatex/sidebar.py:250-253 | only the project the path starts at changes, by toggling the folder the path leads to, with default true |
| SidebarAction.CursorActionWith | rplugin/python3/airlatex/sidebar.py:228-269 | each kind of cursor line gets its action: nothing, connect (or report the error when there is no session yet), toggle, disconnect and refresh, join the document, or report the error a missing key raises |
| SidebarAction.InertLines | rplugin/python3/airlatex/sidebar.py:233-248 | a key on a header line, the file-references header or a file reference does nothing |
| SidebarAction.FirstEnterKeepsProjectClosed | rplugin/python3/airlatex/sidebar.py:239-240 | the first enter on a connected project without a flag sets it to false, so the project stays closed, and a second enter opens it |
| SidebarAction.EnterOnFolderLine | rplugin/python3/airlatex/sidebar.py:250-253 | enter on a folder line flips that folder's flag, refreshes, leaves every other project alone, and changes the project's listing only inside the folder's block |
| SidebarAction.ProjectLeaveNeverDisconnects | rplugin/python3/airlatex/__init__.py:169-172 | the leave binding passes `"del"` but `cursorAction` disconnects on `"d"`, so leaving never disconnects and only refreshes |
| SidebarAction.ProjectLeaveCorrectedDisconnects | rplugin/python3/airlatex/sidebar.py:241-243 | with the two keys agreeing, leaving a connected project disconnects it and refreshes |
| ThreadOrder.Lookup | rplugin/python3/airlatex/commentbuffer.py:142-144 | a missing or empty thread record counts as absent |
| ThreadOrder.SortKey | rplugin/python3/airlatex/commentbuffer.py:141-147 | the key is -1 for an absent thread or one without messages, otherwise the first message's time stamp, 0 when it has none |
| ThreadOrder.Insert | rplugin/python3/airlatex/commentbuffer.py:149 | inserting adds exactly the new id |
| ThreadOrder.InsertSorted | rplugin/python3/airlatex/commentbuffer.py:149 | inserting into a sorted list keeps it sorted |
| ThreadOrder.Sort | rplugin/python3/airlatex/commentbuffer.py:149 | `sorted(..., key=lookup)` returns a permutation of the ids in ascending key order |
| ThreadOrder.SortStable | rplugin/python3/airlatex/commentbuffer.py:149 | ids with equal keys keep their relative order |
| ThreadOrder.NoMessagesFirst | rplugin/python3/airlatex/commentbuffer.py:141-149 | a thread without messages comes before every thread whose first message has a non-negative time stamp |
| CommentLayout.Indicator | rplugin/python3/airlatex/commentbuffer.py:180-182 | the `(i / n)` indicator is present iff more than one thread is shown, and shows the 1-based position and the count |
| CommentLayout.DisplayName | rplugin/python3/airlatex/commentbuffer.py:192-194 | the author is the first name when present and non-empty, otherwise the e-mail, otherwise "user" |
| CommentLayout.MessageBlock | rplugin/python3/airlatex/commentbuffer.py:198-211 | a message is a name line, the box top, one indented line per wrapped chunk, the box bottom and a blank line |
| CommentLayout.BoxAligned | rplugin/python3/airlatex/commentbuffer.py:202-207 | when the name and date fit, both lines are exactly the window wide, the date ends the name line, and the box's tee sits under the bar after the name |
| CommentLayout.BodyLines | rplugin/python3/airlatex/commentbuffer.py:190-211 | the lines are, in order, the stripped block (name line, box, wrapped content) of each message before the first one without a time stamp, where a lookup error stops the drawing; every line is trimmed |
| CommentLayout.ThreadLinesShape | rplugin/python3/airlatex/commentbuffer.py:184-216 | a drawing is exactly the centred header, the resolved marker or a blank, the blocks of the messages before the first one without a time stamp, and the footer when every message has one; a thread without messages or with a message without a time stamp raises a lookup error |
| CommentLayout.FooterTrimmed | rplugin/python3/airlatex/commentbuffer.py:213-216 | the footer is written unchanged by the stripping `bufferappend` |
| CommentLayout.PatternMatches | rplugin/python3/airlatex/commentbuffer.py:349-354 | every line that ends in the word, whitespace and the marks, followed by nothing or one newline, matches the search |
| CommentLayout.MatchSplits | rplugin/python3/airlatex/commentbuffer.py:349-354 | every matching line splits into some text, the word, non-empty whitespace, the marks and an optional final newline |
| CommentLayout.FooterPatterns | rplugin/python3/airlatex/commentbuffer.py:213-216 | an open thread's footer matches the resolve pattern iff the window is at least 13 wide, a resolved thread's footer matches the reopen pattern iff it is at least 12 wide, and neither matches the other pattern |
| CommentLayout.MessageLineCanResolve | rplugin/python3/airlatex/commentbuffer.py:349-352 | a content line whose text ends in "resolve ✓✓" also matches the resolve pattern |
| CommentPanel.Initial | rplugin/python3/airlatex/commentbuffer.py:14-33 | the panel starts with no threads, index 0, no draft, comment counter 1, valid, unlocked and hidden |
| CommentPanel.Render | rplugin/python3/airlatex/commentbuffer.py:133-151 | while a drawing is pending nothing happens; otherwise the project is set, the threads are the given ids in key order (a sorted permutation in which ids with equal keys keep their order, as the stable `sorted` gives), the first is selected, and a refresh is scheduled |
| CommentPanel.Redraw | rplugin/python3/airlatex/commentbuffer.py:153-219 | an unreachable server gives the single error line and nothing else changes; no threads give an empty buffer; otherwise the draft is dropped; the selection and thread list never change |
| CommentPanel.RedrawReleases | rplugin/python3/airlatex/commentbuffer.py:153-219 | the lock is free after a redraw iff it was free before or the selected thread was drawn to the end; the error line keeps it held |
| CommentPanel.RedrawShowsThread | rplugin/python3/airlatex/commentbuffer.py:184-216 | a complete drawing shows the header first, then the resolved marker or a blank, and the thread's footer last |
| CommentPanel.Hide | rplugin/python3/airlatex/commentbuffer.py:239-255 | hiding a visible panel forgets threads, selection and draft and empties the buffer; a hidden panel is unchanged |
| CommentPanel.Content | rplugin/python3/airlatex/commentbuffer.py:257-264 | the loop builds the draft text: every line not starting with `#`, each followed by a newline |
| CommentPanel.DraftTextSkipsComments | rplugin/python3/airlatex/commentbuffer.py:260-263 | a `#` line adds nothing to the draft and any other line adds itself and a newline |
| CommentPanel.TemplateDraft | rplugin/python3/airlatex/commentbuffer.py:318-327 | the draft template contributes two newlines, and text typed below it follows unchanged |
| CommentPanel.FinishDraft | rplugin/python3/airlatex/commentbuffer.py:266-298 | nothing while the server is unreachable; without a draft the panel hides; a dropped reply sends nothing and only refreshes; a submitted reply goes to the selected thread; a submitted new comment is created under a fresh id that becomes the only thread, and the counter advances even when the call raises |
| CommentPanel.Reply | rplugin/python3/airlatex/commentbuffer.py:276-277 | a reply is sent only when there is a project and a selected thread |
| CommentPanel.SubmitReply | rplugin/python3/airlatex/commentbuffer.py:272-277 | submitting a reply sends the draft text to the selected thread and refreshes |
| CommentPanel.SubmitCreation | rplugin/python3/airlatex/commentbuffer.py:288-294 | submitting a new comment sends the buffer's draft under a fresh id ending in the padded counter (two newlines and the typed text when the text is typed below the template); the id becomes the only thread and the counter advances |
| CommentPanel.QuitCreation | rplugin/python3/airlatex/commentbuffer.py:279-287 | dropping a new comment clears and refreshes the panel if it was open before, and hides it otherwise |
| CommentPanel.SuccessiveIdsDiffer | rplugin/python3/airlatex/commentbuffer.py:289-291 | two comments created one after the other get ids with different counter suffixes while the counter is below 16^6 |
| CommentPanel.PrepCommentCreation | rplugin/python3/airlatex/commentbuffer.py:300-312 | remembers whether the panel was open, opens it, forgets the threads and starts insert mode |
| CommentPanel.PrepCommentRespond | rplugin/python3/airlatex/commentbuffer.py:314-328 | the first call puts the template in the buffer and starts drafting; later calls change nothing |
| CommentPanel.RespondIdempotent | rplugin/python3/airlatex/commentbuffer.py:318-328 | a second `prepCommentRespond` leaves the draft alone |
| CommentPanel.ChangeComment | rplugin/python3/airlatex/commentbuffer.py:330-335 | the selection moves to a position inside the list and nothing else changes; with no threads it raises a division by zero |
| CommentPanel.ForwardCycles | rplugin/python3/airlatex/commentbuffer.py:334 | pressing next once per thread comes back to the thread selected before |
| CommentPanel.NextThenPrevious | rplugin/python3/airlatex/commentbuffer.py:334 | next then previous restores the selection |
| CommentPanel.EmptyChangeRaises | rplugin/python3/airlatex/commentbuffer.py:334 | with no threads, switching raises a division by zero |
| CommentPanel.ChangeCommentGuarded | rplugin/python3/airlatex/commentbuffer.py:330-335 | with no threads nothing happens; otherwise as written |
| CommentPanel.GuardedChangeKeepsValid | rplugin/python3/airlatex/commentbuffer.py:330-335 | the guarded switch never raises and keeps the selection inside the list |
| CommentPanel.ValidPreserved | rplugin/python3/airlatex/commentbuffer.py:149-150 | every operation keeps the selection inside the thread list, or 0 when there are none |
| CommentPanel.CursorAction | rplugin/python3/airlatex/commentbuffer.py:344-356 | only enter does anything, and only on a line matching one of the two patterns; the panel state never changes |
| CommentPanel.Act | rplugin/python3/airlatex/commentbuffer.py:350-356 | a branch that does not match makes no call |
| CommentPanel.EnterOnMatch | rplugin/python3/airlatex/commentbuffer.py:348-356 | enter on a line matching exactly one pattern resolves or reopens the selected thread and refreshes |
| CommentPanel.EnterOnFooter | rplugin/python3/airlatex/commentbuffer.py:344-356 | after a complete drawing in a window at least 13 wide, enter on the last line resolves an open thread and reopens a resolved one |
| CommentPanel.CommentAppend | rplugin/python3/airlatex/commentbuffer.py:66-74 | the panel's `bufferappend` writes the stripped line at the write index, leaves the other lines alone, and captures the path exactly when the new index is the saved cursor row |
| CommentPanel.CommentWriteAllStrips | rplugin/python3/airlatex/commentbuffer.py:66-74 | a run of the panel's `bufferappend` calls is a run of the sidebar's appends of the stripped lines |
| CommentPanel.WriteAtEnd | rplugin/python3/airlatex/commentbuffer.py:67-72 | writing from at or past the end of the buffer only appends |
| CommentPanel.FirstDrawingLosesHeader | rplugin/python3/airlatex/commentbuffer.py:185-188 | as written, the first drawing writes its second line over the header, leaving only the stripped rest; a later drawing keeps the header |
| CommentPanel.DrawingKeepsHeaderCorrected | rplugin/python3/airlatex/commentbuffer.py:185-188 | with the write index set past the header, every drawing is the header followed by the stripped rest |
| Util.ToHex | rplugin/python3/airlatex/util.py:71-73 | `format(n, 'x')` is non-empty, hexadecimal and has no leading zero |
| Util.HexRoundTrip | rplugin/python3/airlatex/util.py:71-73 | reading the hexadecimal text back gives the number |
| Util.HexLength | rplugin/python3/airlatex/util.py:76-77 | the text fits `k` digits iff the number is below 16^k |
| Util.PadField | rplugin/python3/airlatex/util.py:76-77 | padding keeps the text as a suffix; it gives exactly `w` digits when the text fits, 2w digits when the text has between w+1 and 2w digits, and the text itself when it is longer |
| Util.PadFieldValue | rplugin/python3/airlatex/util.py:76-77 | padding with zeros keeps the value |
| Util.GenerateId | rplugin/python3/airlatex/util.py:70-77 | the id is hexadecimal and ends in the padded process field |
| Util.GenerateIdFields | rplugin/python3/airlatex/util.py:70-77 | with fields in range the id has 18 digits and each field reads back from its place |
| Util.PidTail | rplugin/python3/airlatex/util.py:71-77 | the last four digits always give back the process number |
| Util.MachineOverflow | rplugin/python3/airlatex/util.py:72 | the draw 16777216 is allowed and gives a 12-digit machine field and a 24-digit id |
| Util.CorrectedDrawFixedWidth | rplugin/python3/airlatex/util.py:72 | drawing below 16^6 always gives 18 digits |
| Util.CommentSuffix | rplugin/python3/airlatex/util.py:82-83 | the counter suffix is six hexadecimal digits |
| Util.SuffixRoundTrip | rplugin/python3/airlatex/util.py:82-83 | the suffix reads back as the counter modulo 16^6 |
| Util.SuffixIsPadded | rplugin/python3/airlatex/util.py:83 | below 16^6 the suffix is the counter padded to six digits |
| Util.SuffixInjective | rplugin/python3/airlatex/util.py:81-84 | different counters below 16^6 give different suffixes |
| Util.GenerateCommentId | rplugin/python3/airlatex/util.py:81-84 | a comment id is hexadecimal and ends in the counter suffix |
| Util.DropPoint | rplugin/python3/airlatex/util.py:15 | the eleventh character (the decimal point) is dropped |
| Util.GenTimeStamp | rplugin/python3/airlatex/util.py:12-18 | the loop pads with zeros to at least 13 characters and keeps longer text whole |
| Util.GenTimeStampTooLong | rplugin/python3/airlatex/util.py:11-18 | a time with six decimals gives 16 characters, not 13 |
| Util.GenTimeStampCorrected | rplugin/python3/airlatex/util.py:11-18 | cut or padded to exactly 13 characters, the digits kept in place |

## Left out

- `__init__.py` is not part of this model. Its command handlers appear only
  as the keys they pass.
- Window and buffer set-up is not modelled: `initSidebarBuffer`,
  `initCommentBuffer`, `show`, `toggle`, `visible`, the window commands of
  `hide`, and `vimCursorSet`. For the comment panel, `visible` is a flag
  that `show` and `hide` set.
- Concurrency is not modelled: the sidebar's mutex, and the comment panel's
  asyncio lock, `triggerRefresh`, `clear` and `markInvalid`. The lock is a
  flag. `render` reads it and a complete `_render` clears it. A refresh is
  an event.
- `SidebarRender.ListProjects`: `updateStatus` is left out. It rewrites the
  status line with the same text.
- `strftime`, `time.time()`, `random.randint`, `str.center` and
  `textwrap.wrap` are inputs. The model says nothing about their results.
- The sidebar's `cursorAt` check `isinstance(pos, list)` is left out. Every
  call passes a list.
- A cursor path is read against the current project list. A path that the
  list no longer matches is out of scope.
- `SidebarRender.ListProjects`: `bufferappend` reads the cursor row from
  `nvim.current.window` (sidebar.py:61), and `listProjects` deletes the
  leftovers from `nvim.current.buffer` (sidebar.py:172). The model takes
  both to be the sidebar's window and buffer. The Enter mapping is global
  (sidebar.py:111), and `cursorAction` refreshes the sidebar after a toggle
  or disconnect (sidebar.py:243, 253). So Enter pressed in another window
  reaches `listProjects`. It then reads that window's cursor row and cuts
  that window's buffer from the write index on. This case is not
  modelled.
- `SidebarRender.ListProjects` has no `KeyError` branch. A project missing
  `name`, `source`, `owner` or `lastUpdated` cannot be expressed, because
  those fields are always present in the datatype.
- `CommentPanel.Redraw` keeps the buffer as its logical list of lines. Two
  things are left out:
  - the write index of `bufferappend`, which nothing resets. Its effect is
    shown on its own by `CommentPanel.FirstDrawingLosesHeader`.
  - the saving of the cursor row and the panel's `cursorPos`, which no
    comment action reads.
- `CommentPanel.CursorAction` takes the current line as an argument. It
  reads the same line `nvim.current.line` gives.
- A thread record whose `messages` key holds something other than a list,
  and a message whose `user` or `content` key is missing, cannot be
  expressed.
- `threads` is the dictionary `{}` in some states and a list in others.
  Both are a sequence here. Indexing the empty one is a `LookupError`,
  which covers both the `KeyError` and the `IndexError` the source raises.
- Logging and the error text of the exception decorators are left out.

## Findings

| source | as written | input that shows it | evidently intended | confidence | as-written member | corrected member |
|---|---|---|---|---|---|---|
| rplugin/python3/airlatex/__init__.py:169-172 | the leave binding calls `cursorAction("del")`, but `cursorAction` disconnects only on `"d"` | a connected project's line, leave key pressed | leaving disconnects the project | high (not executed) | SidebarAction.ProjectLeaveNeverDisconnects | SidebarAction.ProjectLeaveCorrectedDisconnects |
| rplugin/python3/airlatex/util.py:72 | `randint(0, 16777216)` includes 16^6, which needs seven hex digits; the `'000000'[:6 - 7]` slice then keeps five zeros | machine draw 16777216 | a six-digit machine field and an 18-digit id | high (not executed) | Util.MachineOverflow | Util.CorrectedDrawFixedWidth |
| rplugin/python3/airlatex/util.py:11-18 | the time stamp is only padded, never cut, so a time with six decimals gives 16 digits | `str(time.time())` = "1700000000.123456" | 13 digits, as the comment above the function says | medium (not executed) | Util.GenTimeStampTooLong | Util.GenTimeStampCorrected |
| rplugin/python3/airlatex/commentbuffer.py:334 | `% len(self.threads)` divides by zero when no thread is shown | next-comment key after the panel was hidden | nothing happens | high (not executed) | CommentPanel.EmptyChangeRaises | CommentPanel.GuardedChangeKeepsValid |
| rplugin/python3/airlatex/commentbuffer.py:185-188 | the write index starts at 0 and is never reset, so the first drawing's first `bufferappend` overwrites the header in line 0 | the first drawing of a thread after start-up | the header stays above the thread | medium (not executed) | CommentPanel.FirstDrawingLosesHeader | CommentPanel.DrawingKeepsHeaderCorrected |
