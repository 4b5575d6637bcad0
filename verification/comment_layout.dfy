/** What `_render` (commentbuffer.py) draws for one comment thread, and the
    two patterns `cursorAction` looks for on the line under the cursor.
    Centring, word wrapping and date formatting come from the environment
    and are left uninterpreted. */
module CommentLayout {
  import opened PyStr
  import opened ThreadOrder

  /** The dotted rules either side of the header. */
  const DottedLeft: string := "\U{2504}\U{2504}\U{2504}\U{2504}\U{2504}\U{2504}"
  const DottedRight: string := "\U{2504}\U{2504}\U{2504}\U{2504}\U{2504}\U{2504}\U{2504}"
  const Bar: char := '\U{2502}'        // vertical box line
  const Rule: char := '\U{2500}'       // horizontal box line
  const TopLeft: char := '\U{250C}'
  const Tee: char := '\U{2534}'        // joins the box to the bar after the name
  const TopRight: char := '\U{2510}'
  const BottomLeft: char := '\U{2514}'
  const Pilcrow: char := '\U{00B6}'
  const Guillemet: char := '\U{00BB}'
  const ResolveMark: string := "\U{2713}\U{2713}"
  const ReopenMark: string := "\U{2B03}\U{2B03}"

  /** What a method call raises. `LookupError` covers both the `KeyError`
      of indexing the empty dictionary and the `IndexError` of indexing a
      list out of range; the decorator treats them alike. */
  datatype Fault = LookupError | ZeroDivisionError | AttributeError

  /** The window width `g:AirLatexWinSize`, and the library calls
      `str.center`, `textwrap.wrap` and the strftime of a millisecond time
      stamp. */
  datatype Env = Env(
    size: int,
    center: (string, int) -> string,
    wrap: (string, int) -> seq<string>,
    date: int -> string)

  /** The lines written so far, and the fault that stopped the drawing, if
      one did. */
  datatype Drawn = Drawn(lines: seq<string>, fault: Option<Fault>)

  /** ` (i / n)` after "Comments" when several threads overlap. */
  function Indicator(index: int, n: nat): (r: string)
    ensures r == "" <==> n <= 1
    ensures n > 1 ==> StartsWith(r, " (" + IntStr(index + 1) + " / ") && EndsWith(r, " / " + IntStr(n) + ")")
  {
    if n > 1 then " (" + IntStr(index + 1) + " / " + IntStr(n) + ")" else ""
  }

  /** The header before centring. */
  function HeaderTitle(index: int, n: nat): string {
    DottedLeft + " Comments" + Indicator(index, n) + " " + DottedRight
  }

  /** The header line, centred in the window. */
  function Header(env: Env, index: int, n: nat): string {
    env.center(HeaderTitle(index, n), env.size)
  }

  /** The name shown for a message's author: the first name when it is
      present and not empty, otherwise the e-mail, otherwise "user". */
  function DisplayName(u: User): (r: string)
    ensures u.firstName.Some? && u.firstName.value != "" ==> r == u.firstName.value
    ensures (u.firstName.None? || u.firstName.value == "") && u.email.Some? ==> r == u.email.value
    ensures (u.firstName.None? || u.firstName.value == "") && u.email.None? ==> r == "user"
  {
    var first := u.firstName.GetOr("");
    if first != "" then first else u.email.GetOr("user")
  }

  /** `"  name │"`, the tag the box hangs from. */
  function Label(name: string): (r: string)
    ensures |r| == |name| + 4 && r[|r| - 1] == Bar
  {
    "  " + name + " " + [Bar]
  }

  /** The name line: the tag, then the date pushed to the right edge. */
  function NameLine(size: int, name: string, date: string): string {
    var space := size - |name| - |date| - 6;
    [Pilcrow] + Label(name) + " " + Repeat(' ', space) + date
  }

  /** The top of the box, with a tee under the tag's bar. */
  function BoxTop(size: int, name: string): string {
    var tag := Label(name);
    [TopLeft] + Repeat(Rule, |tag| - 1) + [Tee] + Repeat(Rule, size - 2 - |tag|) + [TopRight]
  }

  function Indented(chunks: seq<string>): (r: seq<string>)
    ensures |r| == |chunks|
    ensures forall i :: 0 <= i < |r| ==> r[i] == [Bar] + "  " + chunks[i]
  {
    seq(|chunks|, i requires 0 <= i < |chunks| => [Bar] + "  " + chunks[i])
  }

  /** The lines of one message as handed to `bufferappend`. */
  function MessageBlock(env: Env, name: string, date: string, content: string): (r: seq<string>)
    ensures |r| == 4 + |env.wrap(content, env.size - 3)|
    ensures r[0] == NameLine(env.size, name, date) && r[1] == BoxTop(env.size, name)
    ensures forall i :: 2 <= i < |r| - 2 ==> StartsWith(r[i], [Bar] + "  ")
    ensures r[|r| - 2] == [BottomLeft] && r[|r| - 1] == ""
  {
    [NameLine(env.size, name, date), BoxTop(env.size, name)]
    + Indented(env.wrap(content, env.size - 3))
    + [[BottomLeft], ""]
  }

  /** `bufferappend` strips every line it writes. */
  function Stripped(raw: seq<string>): (r: seq<string>)
    ensures |r| == |raw|
    ensures forall i :: 0 <= i < |r| ==> r[i] == RStrip(raw[i])
  {
    seq(|raw|, i requires 0 <= i < |raw| => RStrip(raw[i]))
  }

  /** A line with no trailing whitespace. */
  predicate Trimmed(line: string) {
    |line| == 0 || !IsSpace(line[|line| - 1])
  }

  predicate AllTrimmed(ls: seq<string>) {
    forall i :: 0 <= i < |ls| ==> Trimmed(ls[i])
  }

  lemma TrimmedConcat(a: seq<string>, b: seq<string>)
    requires AllTrimmed(a) && AllTrimmed(b)
    ensures AllTrimmed(a + b)
  {
    forall i | 0 <= i < |a + b|
      ensures Trimmed((a + b)[i])
    {
      if i >= |a| {
        assert (a + b)[i] == b[i - |a|];
      }
    }
  }

  lemma StrippedTrimmed(raw: seq<string>)
    ensures AllTrimmed(Stripped(raw))
  {
  }

  /** The lines `bufferappend` writes for a message that has a time stamp. */
  function MessageLines(env: Env, m: Message): seq<string>
    requires m.timestamp.Some?
  {
    Stripped(MessageBlock(env, DisplayName(m.user), env.date(m.timestamp.value), m.content))
  }

  /** The position of the first message without a time stamp, or the
      number of messages when every one has one. */
  function FirstUnstamped(ms: seq<Message>): (k: nat)
    ensures k <= |ms|
    ensures forall i :: 0 <= i < k ==> ms[i].timestamp.Some?
    ensures k < |ms| ==> ms[k].timestamp.None?
    decreases |ms|
  {
    if |ms| == 0 || ms[0].timestamp.None? then 0
    else
      assert forall i :: 1 <= i < |ms| ==> ms[i] == ms[1..][i - 1];
      1 + FirstUnstamped(ms[1..])
  }

  /** One block of lines per message, for messages that all have a time
      stamp. */
  function Blocks(env: Env, ms: seq<Message>): (r: seq<seq<string>>)
    requires forall i :: 0 <= i < |ms| ==> ms[i].timestamp.Some?
    ensures |r| == |ms|
    ensures forall i :: 0 <= i < |ms| ==> r[i] == MessageLines(env, ms[i])
  {
    seq(|ms|, i requires 0 <= i < |ms| && ms[i].timestamp.Some? => MessageLines(env, ms[i]))
  }

  /** The lines of the stamped messages before the first unstamped one. */
  function StampedBlocks(env: Env, ms: seq<Message>): seq<seq<string>> {
    Blocks(env, ms[..FirstUnstamped(ms)])
  }

  /** The blocks in order, one after the other. */
  function Concat(ss: seq<seq<string>>): seq<string>
    decreases |ss|
  {
    if |ss| == 0 then [] else ss[0] + Concat(ss[1..])
  }

  /** A stamped first message puts its block in front of the others'. */
  lemma StampedBlocksCons(env: Env, ms: seq<Message>)
    requires |ms| > 0 && ms[0].timestamp.Some?
    ensures Concat(StampedBlocks(env, ms)) == MessageLines(env, ms[0]) + Concat(StampedBlocks(env, ms[1..]))
  {
    var k := FirstUnstamped(ms);
    assert k == 1 + FirstUnstamped(ms[1..]);
    var bs := StampedBlocks(env, ms);
    assert bs[0] == MessageLines(env, ms[0]);
    assert bs[1..] == StampedBlocks(env, ms[1..]) by {
      assert ms[..k][1..] == ms[1..][..k - 1];
    }
  }

  /** The messages' lines, up to the first message without a time stamp,
      where `message['timestamp']` raises. */
  function BodyLines(env: Env, ms: seq<Message>): (r: Drawn)
    ensures r.fault.None? <==> forall i :: 0 <= i < |ms| ==> ms[i].timestamp.Some?
    ensures r.fault.Some? ==> r.fault == Some(LookupError)
    ensures r.lines == Concat(StampedBlocks(env, ms))
    ensures AllTrimmed(r.lines)
    decreases |ms|
  {
    if |ms| == 0 then Drawn([], None)
    else match ms[0].timestamp
      case None => Drawn([], Some(LookupError))
      case Some(stamp) =>
        var block := MessageLines(env, ms[0]);
        var rest := BodyLines(env, ms[1..]);
        assert forall i :: 1 <= i < |ms| ==> ms[i] == ms[1..][i - 1];
        StrippedTrimmed(MessageBlock(env, DisplayName(ms[0].user), env.date(stamp), ms[0].content));
        TrimmedConcat(block, rest.lines);
        StampedBlocksCons(env, ms);
        Drawn(block + rest.lines, rest.fault)
  }

  /** The last line: reopen a resolved thread, resolve an open one. */
  function FooterLine(size: int, resolved: bool): string {
    if resolved then " " + [Guillemet] + " reopen" + Repeat(' ', size - 4 - 7) + ReopenMark
    else " " + [Guillemet] + " resolve" + Repeat(' ', size - 5 - 7) + ResolveMark
  }

  /** The resolved marker, or nothing, then a blank line. */
  function StatusLines(resolved: bool): (r: seq<string>)
    ensures |r| >= 1 && r[0] == (if resolved then "!! Resolved" else "")
    ensures AllTrimmed(r)
  {
    (if resolved then ["!! Resolved"] else []) + [""]
  }

  /** `_render` from the header on, for a thread record that exists. */
  function ThreadLines(env: Env, t: ThreadData, index: int, n: nat): (r: Drawn)
    requires t.Thread?
    ensures |r.lines| >= 2
  {
    var header := Header(env, index, n);
    var status := StatusLines(t.resolved);
    match t.messages
    case None => Drawn([header] + status, Some(LookupError))
    case Some(ms) =>
      var body := BodyLines(env, ms);
      var drawn := if body.fault.Some? then body.lines else body.lines + [RStrip(FooterLine(env.size, t.resolved))];
      Drawn([header] + (status + drawn), body.fault)
  }

  /** The header, the status lines, the body and, for a complete drawing,
      the footer, put together: the header first, the status next, the
      footer last, and every line after the header trimmed. */
  lemma Assembled(header: string, status: seq<string>, body: seq<string>, complete: bool, footer: string)
    requires |status| >= 1 && AllTrimmed(status) && AllTrimmed(body) && Trimmed(footer)
    ensures var lines := [header] + (status + (if complete then body + [footer] else body));
      && lines[0] == header && lines[1] == status[0]
      && (complete ==> lines[|lines| - 1] == footer)
      && (forall i :: 1 <= i < |lines| ==> Trimmed(lines[i]))
  {
    var drawn := if complete then body + [footer] else body;
    if complete {
      assert AllTrimmed([footer]);
      TrimmedConcat(body, [footer]);
    }
    TrimmedConcat(status, drawn);
    Lines1Trimmed(header, status + drawn);
  }

  /** The drawing of a thread: the centred header, the resolved marker or
      a blank, the lines of every message before the first one without a
      time stamp, and, when every message has one, the footer last; a
      thread without messages or with a message without a time stamp
      stops with a lookup error. Only the header may end in whitespace. */
  lemma ThreadLinesShape(env: Env, t: ThreadData, index: int, n: nat)
    requires t.Thread?
    ensures var r := ThreadLines(env, t, index, n);
      && r.lines[0] == Header(env, index, n)
      && r.lines[1] == (if t.resolved then "!! Resolved" else "")
      && (r.fault.None? <==>
            t.messages.Some? && forall i :: 0 <= i < |t.messages.value| ==> t.messages.value[i].timestamp.Some?)
      && (r.fault.Some? ==> r.fault == Some(LookupError))
      && (t.messages.None? ==> r.lines == [Header(env, index, n)] + StatusLines(t.resolved))
      && (t.messages.Some? ==>
            r.lines == [Header(env, index, n)]
                       + (StatusLines(t.resolved)
                          + (var body := Concat(StampedBlocks(env, t.messages.value));
                             if r.fault.None? then body + [FooterLine(env.size, t.resolved)] else body)))
      && (r.fault.None? ==> r.lines[|r.lines| - 1] == FooterLine(env.size, t.resolved))
      && (forall i :: 1 <= i < |r.lines| ==> Trimmed(r.lines[i]))
  {
    var header := Header(env, index, n);
    var status := StatusLines(t.resolved);
    FooterTrimmed(env.size, t.resolved);
    match t.messages
    case None =>
      Assembled(header, status, [], false, FooterLine(env.size, t.resolved));
      assert [header] + (status + []) == [header] + status;
    case Some(ms) =>
      var body := BodyLines(env, ms);
      Assembled(header, status, body.lines, body.fault.None?, FooterLine(env.size, t.resolved));
  }

  lemma Lines1Trimmed(header: string, rest: seq<string>)
    requires AllTrimmed(rest)
    ensures forall i :: 1 <= i < |[header] + rest| ==> Trimmed(([header] + rest)[i])
  {
    assert forall i :: 1 <= i < |[header] + rest| ==> ([header] + rest)[i] == rest[i - 1];
  }

  /** Both box lines are exactly the window wide when the name and the
      date fit, the date ends the name line, and the tee of the box sits
      right under the bar after the name. */
  lemma BoxAligned(env: Env, name: string, date: string, content: string)
    requires env.size >= |name| + |date| + 6
    ensures var r := MessageBlock(env, name, date, content);
      && |r[0]| == env.size && |r[1]| == env.size
      && EndsWith(r[0], date)
      && r[0][|name| + 4] == Bar && r[1][|name| + 4] == Tee
      && r[1][0] == TopLeft && r[1][env.size - 1] == TopRight
  {
    var r := MessageBlock(env, name, date, content);
    var tag := Label(name);
    assert r[0] == [Pilcrow] + tag + " " + Repeat(' ', env.size - |name| - |date| - 6) + date;
    assert r[0][|name| + 4] == tag[|tag| - 1];
    assert r[1] == [TopLeft] + Repeat(Rule, |tag| - 1) + [Tee] + Repeat(Rule, env.size - 2 - |tag|) + [TopRight];
  }

  /** The footer has no trailing whitespace, so `bufferappend` writes it
      as it is. */
  lemma FooterTrimmed(size: int, resolved: bool)
    ensures RStrip(FooterLine(size, resolved)) == FooterLine(size, resolved)
    ensures Trimmed(FooterLine(size, resolved))
  {
    RStripKeeps(FooterLine(size, resolved));
  }

  /** The line without one final newline, which `$` may match before. */
  function WithoutFinalNewline(line: string): (r: string)
    ensures r <= line
    ensures line == r || line == r + "\n"
  {
    if EndsWith(line, "\n") then line[..|line| - 1] else line
  }

  /** `re.search(word + r'\s+' + mark + '$', line)` for a `word` that ends
      and a `mark` that starts without whitespace: the line, up to a final
      newline, ends in `mark`, and before it at least one whitespace
      character follows `word`. */
  predicate PatternAtEnd(line: string, word: string, mark: string) {
    var u := WithoutFinalNewline(line);
    EndsWith(u, mark) &&
    var v := u[..|u| - |mark|];
    |RStrip(v)| < |v| && EndsWith(RStrip(v), word)
  }

  /** A word that does not end in whitespace and a mark that neither starts
      with whitespace nor ends in a newline. */
  predicate PatternParts(word: string, mark: string) {
    |word| > 0 && !IsSpace(word[|word| - 1]) && |mark| > 0 && mark[|mark| - 1] != '\n'
  }

  /** Every line of the form `before, word, whitespace, mark` and then
      nothing or a newline matches. */
  lemma PatternMatches(before: string, word: string, gap: string, mark: string, tail: string)
    requires PatternParts(word, mark)
    requires |gap| > 0 && AllSpace(gap) && (tail == "" || tail == "\n")
    ensures PatternAtEnd(before + word + gap + mark + tail, word, mark)
  {
    var line := before + word + gap + mark + tail;
    var u := before + word + gap + mark;
    assert line == u + tail;
    if tail == "" {
      assert line[|line| - 1] == mark[|mark| - 1];
    } else {
      assert line[..|line| - 1] == u;
    }
    assert WithoutFinalNewline(line) == u;
    assert u[|u| - |mark|..] == mark;
    var v := u[..|u| - |mark|];
    assert v == (before + word) + gap;
    RStripSpaces(before + word, gap);
    RStripKeeps(before + word);
    assert (before + word)[|before + word| - |word|..] == word;
  }

  /** Every matching line has that form: the match is found exactly when
      the line splits into `before`, `word`, non-empty whitespace, `mark`
      and an optional final newline. */
  lemma MatchSplits(line: string, word: string, mark: string)
    requires PatternAtEnd(line, word, mark)
    ensures var u := WithoutFinalNewline(line);
      var v := u[..|u| - |mark|];
      var w := RStrip(v);
      && |v[|w|..]| > 0 && AllSpace(v[|w|..])
      && line == w[..|w| - |word|] + word + v[|w|..] + mark + line[|u|..]
      && (line[|u|..] == "" || line[|u|..] == "\n")
  {
    var u := WithoutFinalNewline(line);
    var v := u[..|u| - |mark|];
    var w := RStrip(v);
    assert w[..|w| - |word|] + word == w;
    assert w + v[|w|..] == v;
    assert v + mark == u;
    assert u + line[|u|..] == line;
  }

  /** `enter` on the footer of an open thread matches the resolve pattern
      exactly when the window is wide enough to leave a blank between the
      word and the marks, and it never matches the reopen pattern; and the
      other way round for a resolved thread. */
  lemma FooterPatterns(size: int)
    ensures PatternAtEnd(FooterLine(size, false), "resolve", ResolveMark) <==> size >= 13
    ensures !PatternAtEnd(FooterLine(size, false), "reopen", ReopenMark)
    ensures PatternAtEnd(FooterLine(size, true), "reopen", ReopenMark) <==> size >= 12
    ensures !PatternAtEnd(FooterLine(size, true), "resolve", ResolveMark)
  {
    FooterMatch(" " + [Guillemet] + " resolve", "resolve", size - 5 - 7, ResolveMark, "reopen", ReopenMark);
    FooterMatch(" " + [Guillemet] + " reopen", "reopen", size - 4 - 7, ReopenMark, "resolve", ResolveMark);
  }

  /** A footer `head`, `k` blanks, `mark` matches its own pattern exactly
      when there is a blank, and never a pattern with another mark. */
  lemma FooterMatch(head: string, word: string, k: int, mark: string, otherWord: string, other: string)
    requires |head| > 0 && !IsSpace(head[|head| - 1]) && EndsWith(head, word)
    requires |mark| == 2 && |other| == 2 && mark[1] != other[1] && mark[1] != '\n'
    ensures PatternAtEnd(head + Repeat(' ', k) + mark, word, mark) <==> k >= 1
    ensures !PatternAtEnd(head + Repeat(' ', k) + mark, otherWord, other)
  {
    var gap := Repeat(' ', k);
    var line := head + gap + mark;
    assert line[|line| - 1] == mark[1];
    assert WithoutFinalNewline(line) == line;
    assert line[..|line| - |mark|] == head + gap;
    RStripSpaces(head, gap);
    RStripKeeps(head);
  }

  /** A comment whose text ends in "resolve ✓✓" draws a content line that
      resolves the thread too: the pattern is not tied to the footer. */
  lemma Regroup5(h: string, pre: string, w: string, g: string, m: string)
    ensures h + (pre + (w + g + m)) == h + pre + w + g + m + ""
  {
  }

  lemma MessageLineCanResolve(chunk: string)
    requires EndsWith(chunk, "resolve " + ResolveMark)
    ensures PatternAtEnd(RStrip([Bar] + "  " + chunk), "resolve", ResolveMark)
  {
    var pre := chunk[..|chunk| - 10];
    var before := [Bar] + "  " + pre;
    assert chunk == pre + ("resolve " + ResolveMark);
    assert "resolve " + ResolveMark == "resolve" + " " + ResolveMark;
    Regroup5([Bar] + "  ", pre, "resolve", " ", ResolveMark);
    RStripKeeps([Bar] + "  " + chunk);
    PatternMatches(before, "resolve", " ", ResolveMark, "");
  }
}
