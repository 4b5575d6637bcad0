/** The comment panel of commentbuffer.py as a state machine: which threads
    it shows, which one is selected, the draft in progress, and the lines of
    its buffer. Each public method of the panel is a function from the state
    (and its arguments) to the next state, the remote calls it makes, and
    the exception it raises, if any; the state at the raise is kept. */
module CommentPanel {
  import opened PyStr
  import opened Buffer
  import opened ThreadOrder
  import opened CommentLayout
  import Util

  datatype Panel = Panel(
    project: Option<Comments>,   // the comments of `self.project`; `None` before one is set
    threads: seq<string>,        // the thread ids on display, in order
    index: int,                  // the selected thread
    creation: string,            // the document of a comment being created, or ""
    drafting: bool,
    previousOpen: bool,          // whether the panel was open when creation began
    commentId: nat,              // the counter behind new comment ids
    invalid: bool,               // the comment server cannot be reached
    locked: bool,                // `uilock`
    visible: bool,               // the panel's window is open
    lines: seq<string>)          // the buffer

  datatype Event =
    | Refresh                                                  // `triggerRefresh()`
    | ReplyComment(thread: string, content: string)           // `project.replyComment`
    | CreateComment(thread: string, doc: string, content: string)  // `project.createComment`
    | ResolveComment(thread: string)                           // `project.resolveComment`
    | ReopenComment(thread: string)                            // `project.reopenComment`
    | FeedInsert                                               // `feedkeys('i')`

  datatype Outcome = Outcome(panel: Panel, events: seq<Event>, fault: Option<Fault>)

  /** An emptied buffer still holds one empty line. */
  const Cleared: seq<string> := [""]

  const Unreachable: string := "Unable to communicate with comments server."

  /** What `prepCommentRespond` puts in the buffer. */
  const DraftTemplate: seq<string> := [
    "", "", "#", "# Drafting comment.", "# Lines starting with '#' will be ignored.",
    "# Do ZZ to save and send.", "# Do ZQ to quit without sending.", "#"]

  /** The panel after `__init__` and `initGUI`. */
  function Initial(): (p: Panel)
    ensures p.threads == [] && p.index == 0 && p.creation == "" && !p.drafting
    ensures p.commentId == 1 && !p.invalid && !p.locked && !p.visible
  {
    Panel(None, [], 0, "", false, false, 1, false, false, false, Cleared)
  }

  /** The selection is a position in the list of threads, and 0 when the
      list is empty. */
  predicate Valid(p: Panel) {
    if |p.threads| == 0 then p.index == 0 else 0 <= p.index < |p.threads|
  }

  /** `s[i]` in Python: negative positions count from the end. */
  function PyIndex(s: seq<string>, i: int): (r: Option<string>)
    ensures r.Some? <==> -|s| <= i < |s|
    ensures 0 <= i < |s| ==> r == Some(s[i])
    ensures -|s| <= i < 0 ==> r == Some(s[|s| + i])
  {
    if 0 <= i < |s| then Some(s[i])
    else if -|s| <= i < 0 then Some(s[|s| + i])
    else None
  }

  /** `render(project, threads)`: unless a drawing is pending, show the
      given threads ordered by their first message's time and select the
      first. */
  function Render(p: Panel, comments: Comments, ids: seq<string>): (r: Outcome)
    ensures p.locked ==> r == Outcome(p, [], None)
    ensures !p.locked ==>
              && r.events == [Refresh] && r.fault.None?
              && r.panel == p.(project := Some(comments), threads := r.panel.threads, index := 0)
              && Sorted(comments, r.panel.threads)
              && multiset(r.panel.threads) == multiset(ids)
              && r.panel.threads == Sort(comments, ids)
    // with SortStable: threads with equal keys keep the order they came in
    ensures !p.locked ==> forall v :: WithKey(comments, r.panel.threads, v) == WithKey(comments, ids, v)
  {
    if p.locked then Outcome(p, [], None)
    else
      SortStableAll(comments, ids);
      Outcome(p.(project := Some(comments), threads := Sort(comments, ids), index := 0), [Refresh], None)
  }

  /** `_render`: redraw the buffer for the selected thread. */
  function Redraw(p: Panel, env: Env): (r: Outcome)
    ensures r.events == []
    ensures p.invalid ==> r == Outcome(p.(lines := [Unreachable]), [], None)
    ensures !p.invalid && |p.threads| == 0 ==> r == Outcome(p.(lines := Cleared), [], None)
    ensures !p.invalid && |p.threads| > 0 ==> !r.panel.drafting && r.panel.creation == ""
    ensures r.panel.threads == p.threads && r.panel.index == p.index && r.panel.commentId == p.commentId
    ensures r.panel.invalid == p.invalid && r.panel.project == p.project
    ensures r.panel.locked ==> p.locked
  {
    if p.invalid then Outcome(p.(lines := [Unreachable]), [], None)
    else if |p.threads| == 0 then Outcome(p.(lines := Cleared), [], None)
    else
      var q := p.(drafting := false, creation := "", lines := Cleared);
      match p.project
      case None => Outcome(q, [], Some(AttributeError))
      case Some(comments) =>
        match PyIndex(p.threads, p.index)
        case None => Outcome(q, [], Some(LookupError))
        case Some(id) =>
          match Lookup(comments, id)
          case None => Outcome(q, [], None)
          case Some(t) =>
            var d := ThreadLines(env, t, p.index, |p.threads|);
            if d.fault.Some? then Outcome(q.(lines := d.lines), [], d.fault)
            else Outcome(q.(lines := d.lines, locked := false), [], None)
  }

  /** The thread `_render` draws: the selected one, when the panel can
      reach the server, shows threads, has a project and finds the record. */
  predicate Drawable(p: Panel) {
    && !p.invalid && |p.threads| > 0 && p.project.Some?
    && PyIndex(p.threads, p.index).Some?
    && Lookup(p.project.value, PyIndex(p.threads, p.index).value).Some?
  }

  function Shown(p: Panel): ThreadData
    requires Drawable(p)
  {
    Lookup(p.project.value, PyIndex(p.threads, p.index).value).value
  }

  /** A complete drawing: every message has a time stamp. */
  predicate Complete(t: ThreadData) {
    t.Thread? && t.messages.Some?
    && forall i :: 0 <= i < |t.messages.value| ==> t.messages.value[i].timestamp.Some?
  }

  /** `_render` releases the lock exactly when it draws a thread to the
      end; the message about the unreachable server leaves it held. */
  lemma RedrawReleases(p: Panel, env: Env)
    ensures !Redraw(p, env).panel.locked <==> !p.locked || (Drawable(p) && Complete(Shown(p)))
    ensures p.invalid ==> Redraw(p, env).panel.locked == p.locked
  {
    if Drawable(p) {
      ThreadLinesShape(env, Shown(p), p.index, |p.threads|);
    }
  }

  /** What a complete drawing shows: the header, the resolved marker or a
      blank line, and the footer that resolves or reopens the thread. */
  lemma RedrawShowsThread(p: Panel, env: Env)
    requires Drawable(p) && Complete(Shown(p))
    ensures var r := Redraw(p, env);
      && r.fault.None?
      && |r.panel.lines| >= 2
      && r.panel.lines[0] == Header(env, p.index, |p.threads|)
      && r.panel.lines[1] == (if Shown(p).resolved then "!! Resolved" else "")
      && r.panel.lines[|r.panel.lines| - 1] == FooterLine(env.size, Shown(p).resolved)
  {
    ThreadLinesShape(env, Shown(p), p.index, |p.threads|);
  }

  /** `hide()`: closing the panel forgets the threads and the draft. */
  function Hide(p: Panel): (r: Panel)
    ensures !r.visible
    ensures Valid(p) ==> Valid(r)
    ensures !p.visible ==> r == p
    ensures p.visible ==>
              r == p.(threads := [], index := 0, creation := "", drafting := false, lines := Cleared, visible := false)
  {
    if p.visible then p.(threads := [], index := 0, creation := "", drafting := false, lines := Cleared, visible := false)
    else p
  }

  /** The draft text of the buffer: every line not starting with `#`,
      each followed by a newline. */
  function DraftText(lines: seq<string>): string
    decreases |lines|
  {
    if |lines| == 0 then ""
    else (if StartsWith(lines[0], "#") then "" else lines[0] + "\n") + DraftText(lines[1..])
  }

  lemma {:induction false} DraftTextConcat(a: seq<string>, b: seq<string>)
    ensures DraftText(a + b) == DraftText(a) + DraftText(b)
    decreases |a|
  {
    if |a| == 0 {
      assert a + b == b;
    } else {
      assert (a + b)[1..] == a[1..] + b;
      DraftTextConcat(a[1..], b);
    }
  }

  /** The `content` property. */
  method Content(lines: seq<string>) returns (content: string)
    ensures content == DraftText(lines)
  {
    content := "";
    for i := 0 to |lines|
      invariant content == DraftText(lines[..i])
    {
      DraftTextConcat(lines[..i], [lines[i]]);
      assert lines[..i + 1] == lines[..i] + [lines[i]];
      if StartsWith(lines[i], "#") {
        continue;
      }
      content := content + lines[i] + "\n";
    }
    assert lines[..|lines|] == lines;
  }

  /** The template contributes two empty lines to the draft, and what is
      typed below it follows unchanged. */
  lemma TemplateDraft(typed: seq<string>)
    ensures DraftText(DraftTemplate) == "\n\n"
    ensures DraftText(DraftTemplate + typed) == "\n\n" + DraftText(typed)
  {
    var notes := DraftTemplate[2..];
    assert DraftTemplate == ["", ""] + notes;
    forall k | 0 <= k < |notes|
      ensures StartsWith(notes[k], "#")
    {
      assert notes[k] == DraftTemplate[k + 2];
      assert DraftTemplate[k + 2][0] == '#' by {
        if k == 0 {} else if k == 1 {} else if k == 2 {} else if k == 3 {} else if k == 4 {} else {}
      }
      assert notes[k][..1] == [notes[k][0]];
    }
    NotesDropped(notes);
    DraftTextConcat(["", ""], notes);
    assert DraftText(["", ""]) == "\n" + DraftText([""]);
    DraftTextConcat(DraftTemplate, typed);
  }

  lemma {:induction false} NotesDropped(lines: seq<string>)
    requires forall i :: 0 <= i < |lines| ==> StartsWith(lines[i], "#")
    ensures DraftText(lines) == ""
    decreases |lines|
  {
    if |lines| > 0 {
      NotesDropped(lines[1..]);
    }
  }

  /** Lines starting with `#` never reach the draft, and every other line
      does. */
  lemma {:induction false} DraftTextSkipsComments(lines: seq<string>, line: string)
    ensures StartsWith(line, "#") ==> DraftText(lines + [line]) == DraftText(lines)
    ensures !StartsWith(line, "#") ==> DraftText(lines + [line]) == DraftText(lines) + line + "\n"
  {
    DraftTextConcat(lines, [line]);
    assert [line][1..] == [];
  }

  /** `finishDraft(submit)`: send or drop the draft. `e` is what
      `generateId` draws. */
  function FinishDraft(p: Panel, submit: bool, e: Util.Entropy): (r: Outcome)
    ensures p.invalid ==> r == Outcome(p, [], None)
    ensures !p.invalid && !p.drafting ==> r == Outcome(Hide(p), [], None)
    ensures !p.invalid && p.drafting ==> !r.panel.drafting && r.panel.creation == ""
    // a reply draft: dropped, nothing is sent; submitted, it goes to the
    // selected thread
    ensures !p.invalid && p.drafting && p.creation == "" && !submit ==>
              r == Outcome(p.(drafting := false), [Refresh], None)
    ensures !p.invalid && p.drafting && p.creation == "" && submit ==>
              && r.panel == p.(drafting := false)
              && (r.fault.None? <==> p.project.Some? && PyIndex(p.threads, p.index).Some?)
              && (r.fault.None? ==>
                    r.events == [ReplyComment(PyIndex(p.threads, p.index).value, DraftText(p.lines)), Refresh])
              && (r.fault.Some? ==> r.events == [])
    // a new comment: submitted, it is sent under a fresh id, which becomes
    // the only thread, and the counter moves on even when the call raises
    ensures !p.invalid && p.drafting && p.creation != "" && submit ==>
              var id := Util.GenerateCommentId(p.commentId, e);
              && r.panel.commentId == p.commentId + 1
              && (p.project.None? ==> r.fault == Some(AttributeError) && r.events == [])
              && (p.project.Some? ==>
                    && r.fault.None?
                    && r.events == [CreateComment(id, p.creation, DraftText(p.lines)), Refresh]
                    && r.panel.threads == [id] && r.panel.index == 0)
    ensures !p.invalid && p.drafting && p.creation != "" && !submit ==>
              && r.fault.None? && r.panel.commentId == p.commentId
              && (forall ev :: ev in r.events ==> ev == Refresh)
  {
    if p.invalid then Outcome(p, [], None)
    else if p.drafting then
      var q := p.(drafting := false);
      if q.creation == "" then
        if !submit then Outcome(q, [Refresh], None)
        else Reply(q)
      else
        var doc := q.creation;
        var q2 := q.(creation := "");
        if !submit then
          if q2.previousOpen then Outcome(q2.(lines := Cleared), [Refresh], None)
          else Outcome(Hide(q2), [], None)
        else
          var id := Util.GenerateCommentId(q2.commentId, e);
          var q3 := q2.(commentId := q2.commentId + 1);
          if q3.project.None? then Outcome(q3, [], Some(AttributeError))
          else Outcome(q3.(threads := [id], index := 0), [CreateComment(id, doc, DraftText(q3.lines)), Refresh], None)
    else Outcome(Hide(p), [], None)
  }

  /** The reply `finishDraft` sends: the draft, to the selected thread. */
  function Reply(q: Panel): (r: Outcome)
    ensures r.panel == q
    ensures r.fault.None? ==> q.project.Some? && PyIndex(q.threads, q.index).Some?
  {
    match q.project
    case None => Outcome(q, [], Some(AttributeError))
    case Some(_) =>
      match PyIndex(q.threads, q.index)
      case None => Outcome(q, [], Some(LookupError))
      case Some(id) => Outcome(q, [ReplyComment(id, DraftText(q.lines)), Refresh], None)
  }

  /** `prepCommentCreation()`: open the panel for a new comment and start
      insert mode, which starts the draft. */
  function PrepCommentCreation(p: Panel): (r: Outcome)
    ensures p.invalid ==> r == Outcome(p, [], None)
    ensures !p.invalid ==>
              && r.events == [FeedInsert] && r.fault.None?
              && r.panel.visible && r.panel.previousOpen == p.visible
              && r.panel.threads == [] && r.panel.index == 0
              && r.panel.creation == p.creation && r.panel.lines == p.lines
  {
    if p.invalid then Outcome(p, [], None)
    else Outcome(p.(previousOpen := p.visible, visible := true, index := 0, threads := []), [FeedInsert], None)
  }

  /** `prepCommentRespond()`: put the draft template in the buffer, once. */
  function PrepCommentRespond(p: Panel): (r: Panel)
    ensures p.invalid || p.drafting ==> r == p
    ensures !p.invalid ==> r.drafting
    ensures !p.invalid && !p.drafting ==> r == p.(lines := DraftTemplate, drafting := true)
  {
    if p.invalid || p.drafting then p else p.(lines := DraftTemplate, drafting := true)
  }

  /** `changeComment(change)` as written: the `%` by the number of threads
      divides by zero when there are none. */
  function ChangeComment(p: Panel, change: int): (r: Outcome)
    ensures p.invalid ==> r == Outcome(p, [], None)
    ensures !p.invalid && |p.threads| == 0 ==> r == Outcome(p, [], Some(ZeroDivisionError))
    ensures !p.invalid && |p.threads| > 0 ==>
              && r.fault.None? && r.events == [Refresh]
              && 0 <= r.panel.index < |p.threads|
              && r.panel == p.(index := r.panel.index)
  {
    if p.invalid then Outcome(p, [], None)
    else if |p.threads| == 0 then Outcome(p, [], Some(ZeroDivisionError))
    else Outcome(p.(index := (p.index + change) % |p.threads|), [Refresh], None)
  }

  /** `changeComment` with an empty thread list treated as nothing to
      change. */
  function ChangeCommentGuarded(p: Panel, change: int): (r: Outcome)
    ensures r.fault.None?
    ensures |p.threads| == 0 ==> r == Outcome(p, [], None)
    ensures |p.threads| > 0 ==> r == ChangeComment(p, change)
  {
    if |p.threads| == 0 then Outcome(p, [], None) else ChangeComment(p, change)
  }

  /** `cursorAction(key)`: `enter` on a line ending in the resolve or the
      reopen pattern resolves or reopens the selected thread. */
  function CursorAction(p: Panel, line: string, key: string): (r: Outcome)
    ensures r.panel == p
    ensures p.invalid || key != "enter" ==> r == Outcome(p, [], None)
    ensures !PatternAtEnd(line, "resolve", ResolveMark) && !PatternAtEnd(line, "reopen", ReopenMark) ==>
              r == Outcome(p, [], None)
  {
    if p.invalid || key != "enter" then Outcome(p, [], None)
    else
      var resolved := Act(p, PatternAtEnd(line, "resolve", ResolveMark), ResolveComment(""));
      if resolved.fault.Some? then resolved
      else
        var reopened := Act(p, PatternAtEnd(line, "reopen", ReopenMark), ReopenComment(""));
        Outcome(p, resolved.events + reopened.events, reopened.fault)
  }

  /** One `if pattern.search(line)` branch of `cursorAction`; `call` names
      the remote call, made on the selected thread. */
  function Act(p: Panel, matched: bool, call: Event): (r: Outcome)
    requires call.ResolveComment? || call.ReopenComment?
    ensures r.panel == p
    ensures !matched ==> r.events == [] && r.fault.None?
  {
    if !matched then Outcome(p, [], None)
    else match p.project
      case None => Outcome(p, [], Some(AttributeError))
      case Some(_) =>
        match PyIndex(p.threads, p.index)
        case None => Outcome(p, [], Some(LookupError))
        case Some(id) =>
          var ev := if call.ResolveComment? then ResolveComment(id) else ReopenComment(id);
          Outcome(p, [ev, Refresh], None)
  }

  /** A redraw keeps a valid selection, and so does every action. */
  lemma ValidPreserved(p: Panel, env: Env, comments: Comments, ids: seq<string>, submit: bool,
                       e: Util.Entropy, change: int, line: string, key: string)
    requires Valid(p)
    ensures Valid(Render(p, comments, ids).panel)
    ensures Valid(Redraw(p, env).panel)
    ensures Valid(FinishDraft(p, submit, e).panel)
    ensures Valid(PrepCommentCreation(p).panel)
    ensures Valid(PrepCommentRespond(p))
    ensures Valid(ChangeComment(p, change).panel)
    ensures Valid(CursorAction(p, line, key).panel)
  {
    ValidAfterDraw(p, env, comments, ids);
    ValidAfterDraft(p, submit, e);
    ValidAfterMove(p, change, line, key);
  }

  lemma ValidAfterDraw(p: Panel, env: Env, comments: Comments, ids: seq<string>)
    requires Valid(p)
    ensures Valid(Render(p, comments, ids).panel)
    ensures Valid(Redraw(p, env).panel)
  {
  }

  lemma ValidAfterDraft(p: Panel, submit: bool, e: Util.Entropy)
    requires Valid(p)
    ensures Valid(FinishDraft(p, submit, e).panel)
    ensures Valid(PrepCommentCreation(p).panel)
    ensures Valid(PrepCommentRespond(p))
  {
  }

  lemma ValidAfterMove(p: Panel, change: int, line: string, key: string)
    requires Valid(p)
    ensures Valid(ChangeComment(p, change).panel)
    ensures Valid(CursorAction(p, line, key).panel)
  {
  }

  /** With a valid selection, the thread lookups never fail. */
  lemma ValidIndexes(p: Panel)
    requires Valid(p) && |p.threads| > 0
    ensures PyIndex(p.threads, p.index) == Some(p.threads[p.index])
  {
  }

  /** A second `prepCommentRespond` leaves the draft alone. */
  lemma RespondIdempotent(p: Panel)
    ensures PrepCommentRespond(PrepCommentRespond(p)) == PrepCommentRespond(p)
  {
  }

  /** Cycling forward `k` times. */
  function Forward(p: Panel, k: nat): Outcome
    decreases k
  {
    if k == 0 then Outcome(p, [], None)
    else
      var o := ChangeComment(p, 1);
      if o.fault.Some? then o else Forward(o.panel, k - 1)
  }

  lemma {:induction false} ForwardIndex(p: Panel, k: nat)
    requires Valid(p) && |p.threads| > 0 && !p.invalid
    ensures Forward(p, k).fault.None?
    ensures Forward(p, k).panel == p.(index := (p.index + k) % |p.threads|)
    decreases k
  {
    if k > 0 {
      var n := |p.threads|;
      var o := ChangeComment(p, 1);
      ForwardIndex(o.panel, k - 1);
      AddMod(p.index, k, n);
    }
  }

  /** `((a + 1) % n + (k - 1)) % n == (a + k) % n` */
  lemma AddMod(a: int, k: int, n: int)
    requires n > 0 && k >= 1
    ensures ((a + 1) % n + (k - 1)) % n == (a + k) % n
  {
    var q := (a + 1) / n;
    assert (a + 1) % n == a + 1 - q * n;
    assert (a + 1) % n + (k - 1) == (a + k) - q * n;
    ShiftMod(a + k, q, n);
  }

  lemma ShiftMod(x: int, q: int, n: int)
    requires n > 0
    ensures (x - q * n) % n == x % n
  {
    var r := x % n;
    var d := x / n;
    assert x - q * n == (d - q) * n + r;
    Util.ModUnique(x - q * n, d - q, r, n);
  }

  /** Pressing the next-comment key once per thread comes back to the
      thread selected before. */
  lemma ForwardCycles(p: Panel)
    requires Valid(p) && |p.threads| > 0 && !p.invalid
    ensures Forward(p, |p.threads|).fault.None?
    ensures Forward(p, |p.threads|).panel == p
  {
    var n := |p.threads|;
    ForwardIndex(p, n);
    Util.ModUnique(p.index + n, 1, p.index, n);
    assert p.(index := p.index) == p;
  }

  /** Next then previous returns to the selection before. */
  lemma NextThenPrevious(p: Panel)
    requires Valid(p) && |p.threads| > 0 && !p.invalid
    ensures ChangeComment(ChangeComment(p, 1).panel, -1).panel == p
  {
    var n := |p.threads|;
    var i := p.index;
    if i + 1 < n {
      Util.ModUnique(i + 1, 0, i + 1, n);
      Util.ModUnique(i, 0, i, n);
    } else {
      Util.ModUnique(i + 1, 1, 0, n);
      Util.ModUnique(-1, -1, n - 1, n);
    }
    assert p.(index := i) == p;
  }

  /** As written, switching threads with none on display raises. */
  lemma EmptyChangeRaises(p: Panel, change: int)
    requires !p.invalid && |p.threads| == 0
    ensures ChangeComment(p, change).fault == Some(ZeroDivisionError)
  {
  }

  /** Guarded, switching threads never raises, keeps a valid selection and
      agrees with the source whenever there is a thread. */
  lemma GuardedChangeKeepsValid(p: Panel, change: int)
    requires Valid(p)
    ensures ChangeCommentGuarded(p, change).fault.None?
    ensures Valid(ChangeCommentGuarded(p, change).panel)
    ensures |p.threads| == 0 ==> ChangeCommentGuarded(p, change).panel == p
  {
  }

  /** Submitting a new comment: the draft in the buffer is sent under a
      fresh id ending in the counter's suffix, which becomes the only thread
      on display, and the counter moves on. When the buffer is the template
      with text typed below it, the draft is two newlines and that text. */
  lemma SubmitCreation(p: Panel, typed: seq<string>, e: Util.Entropy)
    requires !p.invalid && p.drafting && p.creation != "" && p.project.Some?
    ensures var r := FinishDraft(p, true, e);
      var id := Util.GenerateCommentId(p.commentId, e);
      && r.fault.None?
      && r.events == [CreateComment(id, p.creation, DraftText(p.lines)), Refresh]
      && (p.lines == DraftTemplate + typed ==> r.events[0].content == "\n\n" + DraftText(typed))
      && r.panel.threads == [id] && r.panel.index == 0
      && r.panel.commentId == p.commentId + 1
      && !r.panel.drafting && r.panel.creation == ""
      && EndsWith(id, Util.CommentSuffix(p.commentId))
  {
    TemplateDraft(typed);
  }

  /** Replying: the draft goes to the selected thread. */
  lemma SubmitReply(p: Panel, e: Util.Entropy)
    requires !p.invalid && p.drafting && p.creation == "" && p.project.Some?
    requires Valid(p) && |p.threads| > 0
    ensures FinishDraft(p, true, e) ==
              Outcome(p.(drafting := false), [ReplyComment(p.threads[p.index], DraftText(p.lines)), Refresh], None)
  {
  }

  /** Dropping a new comment closes the panel unless it was open before,
      in which case the panel is cleared and redrawn. */
  lemma QuitCreation(p: Panel, e: Util.Entropy)
    requires !p.invalid && p.drafting && p.creation != ""
    ensures var r := FinishDraft(p, false, e);
      && r.fault.None?
      && (p.previousOpen ==> r.events == [Refresh] && r.panel.lines == Cleared && r.panel.threads == p.threads)
      && (!p.previousOpen ==> r.events == [] && r.panel == Hide(p.(drafting := false, creation := "")))
      && r.panel.commentId == p.commentId
  {
  }

  /** Two comments created one after the other get ids with different
      counters, while the counter stays below 16^6. */
  lemma SuccessiveIdsDiffer(p: Panel, e1: Util.Entropy, e2: Util.Entropy)
    requires !p.invalid && p.drafting && p.creation != "" && p.project.Some?
    requires p.commentId + 1 < Util.Pow16(6)
    ensures var r1 := FinishDraft(p, true, e1);
      var q := PrepCommentRespond(r1.panel.(creation := p.creation));
      var r2 := FinishDraft(q, true, e2);
      && r1.events[0].CreateComment? && r2.events[0].CreateComment?
      && Util.CommentSuffix(p.commentId) != Util.CommentSuffix(q.commentId)
      && EndsWith(r1.events[0].thread, Util.CommentSuffix(p.commentId))
      && EndsWith(r2.events[0].thread, Util.CommentSuffix(p.commentId + 1))
  {
    Util.SuffixInjective(p.commentId, p.commentId + 1);
  }

  /** `enter` on the footer of a complete drawing resolves the thread on
      display when it is open and reopens it when it is resolved, provided
      the window is wide enough to leave a blank before the marks. */
  lemma EnterOnFooter(p: Panel, env: Env)
    requires Valid(p) && Drawable(p) && Complete(Shown(p)) && env.size >= 13
    ensures var d := Redraw(p, env).panel;
      var id := p.threads[p.index];
      CursorAction(d, d.lines[|d.lines| - 1], "enter").events
        == [if Shown(p).resolved then ReopenComment(id) else ResolveComment(id), Refresh]
  {
    var d := Redraw(p, env).panel;
    RedrawShowsThread(p, env);
    var line := d.lines[|d.lines| - 1];
    var resolved := Shown(p).resolved;
    assert line == FooterLine(env.size, resolved);
    FooterPatterns(env.size);
    assert PatternAtEnd(line, "resolve", ResolveMark) == !resolved;
    assert PatternAtEnd(line, "reopen", ReopenMark) == resolved;
    assert PyIndex(d.threads, d.index) == Some(p.threads[p.index]);
    EnterOnMatch(d, line, p.threads[p.index]);
  }

  /** `enter` on a line that matches exactly one of the two patterns makes
      that pattern's call on the selected thread, then refreshes. */
  lemma EnterOnMatch(d: Panel, line: string, id: string)
    requires !d.invalid && d.project.Some? && PyIndex(d.threads, d.index) == Some(id)
    requires PatternAtEnd(line, "resolve", ResolveMark) != PatternAtEnd(line, "reopen", ReopenMark)
    ensures CursorAction(d, line, "enter").fault.None?
    ensures PatternAtEnd(line, "resolve", ResolveMark) ==>
              CursorAction(d, line, "enter").events == [ResolveComment(id), Refresh]
    ensures PatternAtEnd(line, "reopen", ReopenMark) ==>
              CursorAction(d, line, "enter").events == [ReopenComment(id), Refresh]
  {
    var resolving := PatternAtEnd(line, "resolve", ResolveMark);
    assert Act(d, resolving, ResolveComment("")).events == if resolving then [ResolveComment(id), Refresh] else [];
    assert Act(d, !resolving, ReopenComment("")).events == if resolving then [] else [ReopenComment(id), Refresh];
  }

  /** `bufferappend` in commentbuffer.py: the line is stripped of trailing
      whitespace before it is written, and the cursor row is the one saved
      at the last redraw. */
  function CommentAppend<P>(b: Buffer<P>, arg: string, pos: P, row: int): (r: Buffer<P>)
    ensures r.writeIndex == b.writeIndex + 1
    ensures |b.lines| <= |r.lines| && (b.writeIndex <= |b.lines| ==> b.writeIndex < |r.lines|)
    ensures b.writeIndex <= |b.lines| ==> r.lines[b.writeIndex] == RStrip(arg) && Trimmed(r.lines[b.writeIndex])
    ensures forall j :: 0 <= j < |b.lines| && j != b.writeIndex ==> r.lines[j] == b.lines[j]
    ensures r.writeIndex == row ==> r.cursorPos == pos
    ensures r.writeIndex != row ==> r.cursorPos == b.cursorPos
  {
    Append(b, RStrip(arg), pos, row)
  }

  /** A run of the panel's `bufferappend` calls, all with the same path. */
  function CommentWriteAll<P>(b: Buffer<P>, args: seq<string>, pos: P, row: int): Buffer<P>
    decreases |args|
  {
    if |args| == 0 then b
    else CommentWriteAll(CommentAppend(b, args[0], pos, row), args[1..], pos, row)
  }

  /** Lines to be written, all with the path `pos`. */
  function Plain<P>(lines: seq<string>, pos: P): (r: seq<Entry<P>>)
    ensures Texts(r) == lines
    ensures forall i :: 0 <= i < |r| ==> r[i].path == pos
  {
    seq(|lines|, i requires 0 <= i < |lines| => Entry(lines[i], pos))
  }

  /** The panel's appends are the sidebar's appends of the stripped lines,
      so everything proved about `WriteAll` holds for them. */
  lemma {:induction false} CommentWriteAllStrips<P>(b: Buffer<P>, args: seq<string>, pos: P, row: int)
    ensures CommentWriteAll(b, args, pos, row) == WriteAll(b, Plain(Stripped(args), pos), row)
    decreases |args|
  {
    if |args| > 0 {
      var es := Plain(Stripped(args), pos);
      assert es[0] == Entry(RStrip(args[0]), pos);
      assert es[1..] == Plain(Stripped(args[1..]), pos);
      CommentWriteAllStrips(CommentAppend(b, args[0], pos, row), args[1..], pos, row);
    }
  }

  /** Writing at or past the end of the buffer only appends. */
  lemma {:induction false} WriteAtEnd<P>(b: Buffer<P>, es: seq<Entry<P>>, row: int)
    requires b.writeIndex >= |b.lines|
    ensures WriteAll(b, es, row).lines == b.lines + Texts(es)
    decreases |es|
  {
    if |es| > 0 {
      var b1 := Append(b, es[0].text, es[0].path, row);
      AppendAtEnd(b, es[0].text, es[0].path, row);
      WriteAtEnd(b1, es[1..], row);
      TextsFirst(es);
      Regroup3(b.lines, [es[0].text], Texts(es[1..]));
    } else {
      assert b.lines + Texts(es) == b.lines;
    }
  }

  /** `bufferappend` at or past the end adds one line and stays at the end. */
  lemma AppendAtEnd<P>(b: Buffer<P>, arg: string, pos: P, row: int)
    requires b.writeIndex >= |b.lines|
    ensures Append(b, arg, pos, row).lines == b.lines + [arg]
    ensures Append(b, arg, pos, row).writeIndex >= |Append(b, arg, pos, row).lines|
  {
  }

  lemma TextsFirst<P>(es: seq<Entry<P>>)
    requires |es| > 0
    ensures Texts(es) == [es[0].text] + Texts(es[1..])
  {
    assert es == [es[0]] + es[1..];
    TextsConcat([es[0]], es[1..]);
  }

  /** The buffer after a drawing: the header set into the emptied buffer,
      then the rest written through the panel's `bufferappend` with the
      write index where the last drawing left it, which nothing resets. */
  function DrawnBuffer(writeIndex: nat, header: string, rest: seq<string>, row: int): seq<string> {
    CommentWriteAll(Buffer([header], writeIndex, 0), rest, 0, row).lines
  }

  /** As written, the first drawing starts writing at line 0 and replaces
      the header with the line after it; a later one starts past the end
      and keeps it. */
  lemma FirstDrawingLosesHeader(header: string, rest: seq<string>, row: int, w: nat)
    requires |rest| >= 1
    ensures DrawnBuffer(0, header, rest, row) == Stripped(rest)
    ensures w >= 1 ==> DrawnBuffer(w, header, rest, row) == [header] + Stripped(rest)
  {
    var es := Plain(Stripped(rest), 0);
    CommentWriteAllStrips(Buffer([header], 0, 0), rest, 0, row);
    WriteAllHolds(Buffer([header], 0, 0), [header], [], es, row, 0);
    assert [] + es == es;
    if w >= 1 {
      CommentWriteAllStrips(Buffer([header], w, 0), rest, 0, row);
      WriteAtEnd(Buffer([header], w, 0), es, row);
    }
  }

  /** With the write index set just past the header before the rest is
      written, every drawing shows the header and then the stripped rest. */
  lemma DrawingKeepsHeaderCorrected(header: string, rest: seq<string>, row: int)
    ensures DrawnBuffer(1, header, rest, row) == [header] + Stripped(rest)
  {
    CommentWriteAllStrips(Buffer([header], 1, 0), rest, 0, row);
    WriteAtEnd(Buffer([header], 1, 0), Plain(Stripped(rest), 0), row);
  }
}
