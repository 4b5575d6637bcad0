/** The write-index discipline both panels use to redraw an editor buffer in
    place (`bufferappend` in sidebar.py and commentbuffer.py): a write index
    walks down the buffer, overwriting existing lines and appending past the
    end, and the path handed along with the line that lands on the cursor row
    is remembered. `P` is the type of those paths. */
module Buffer {
  import opened PyStr

  datatype Buffer<P> = Buffer(lines: seq<string>, writeIndex: nat, cursorPos: P)

  /** One line to be written, with the path it is attached to. */
  datatype Entry<P> = Entry(text: string, path: P)

  function Texts<P>(es: seq<Entry<P>>): (r: seq<string>)
    ensures |r| == |es|
    ensures forall i :: 0 <= i < |es| ==> r[i] == es[i].text
  {
    seq(|es|, i requires 0 <= i < |es| => es[i].text)
  }

  /** `bufferappend(arg, pos)` with the cursor on (1-based) row `row`. */
  function Append<P>(b: Buffer<P>, arg: string, pos: P, row: int): (r: Buffer<P>)
    ensures r.writeIndex == b.writeIndex + 1
    ensures |b.lines| <= |r.lines| <= |b.lines| + 1
    ensures b.writeIndex <= |b.lines| ==>
              |r.lines| == Max(|b.lines|, b.writeIndex + 1) && r.lines[b.writeIndex] == arg
    ensures forall j :: 0 <= j < |b.lines| && j != b.writeIndex ==> r.lines[j] == b.lines[j]
    ensures r.writeIndex == row ==> r.cursorPos == pos
    ensures r.writeIndex != row ==> r.cursorPos == b.cursorPos
  {
    var lines := if b.writeIndex >= |b.lines| then b.lines + [arg] else b.lines[b.writeIndex := arg];
    var captured := if b.writeIndex + 1 == row then pos else b.cursorPos;
    Buffer(lines, b.writeIndex + 1, captured)
  }

  lemma TextsConcat<P>(a: seq<Entry<P>>, b: seq<Entry<P>>)
    ensures Texts(a + b) == Texts(a) + Texts(b)
  {
  }

  /** A run of `bufferappend` calls, one per entry, in order. */
  function WriteAll<P>(b: Buffer<P>, es: seq<Entry<P>>, row: int): Buffer<P>
    decreases |es|
  {
    if |es| == 0 then b
    else WriteAll(Append(b, es[0].text, es[0].path, row), es[1..], row)
  }

  /** Writing two runs one after the other is writing their concatenation. */
  lemma {:induction false} WriteAllConcat<P>(b: Buffer<P>, xs: seq<Entry<P>>, ys: seq<Entry<P>>, row: int)
    ensures WriteAll(b, xs + ys, row) == WriteAll(WriteAll(b, xs, row), ys, row)
    decreases |xs|
  {
    if |xs| > 0 {
      assert (xs + ys)[0] == xs[0];
      assert (xs + ys)[1..] == xs[1..] + ys;
      WriteAllConcat(Append(b, xs[0].text, xs[0].path, row), xs[1..], ys, row);
    } else {
      assert xs + ys == ys;
    }
  }

  /** One more `bufferappend` extends the run by one entry. */
  lemma WriteSnoc<P>(b: Buffer<P>, xs: seq<Entry<P>>, text: string, path: P, row: int)
    ensures WriteAll(b, xs + [Entry(text, path)], row) == Append(WriteAll(b, xs, row), text, path, row)
  {
    WriteAllConcat(b, xs, [Entry(text, path)], row);
    assert [Entry(text, path)][1..] == [];
  }

  /** A fixed run of `bufferappend` calls, one per entry, in order. */
  method WriteRun<P>(b: Buffer<P>, es: seq<Entry<P>>, row: int) returns (r: Buffer<P>)
    ensures r == WriteAll(b, es, row)
  {
    r := b;
    var i := 0;
    while i < |es|
      invariant i <= |es|
      invariant r == WriteAll(b, es[..i], row)
    {
      WriteSnoc(b, es[..i], es[i].text, es[i].path, row);
      assert es[..i + 1] == es[..i] + [Entry(es[i].text, es[i].path)];
      r := Append(r, es[i].text, es[i].path, row);
      i := i + 1;
    }
    assert es[..i] == es;
  }

  /** The path the cursor row captures once the entries `es` have been
      written from the top, starting from `init` (the reset value). */
  function Captured<P>(es: seq<Entry<P>>, row: int, init: P): P {
    if 1 <= row <= |es| then es[row - 1].path else init
  }

  /** What the buffer looks like after `texts` were written from the top over
      the previous contents `screen`: the new lines, then any old leftovers. */
  function Overlay(screen: seq<string>, texts: seq<string>): (r: seq<string>)
    ensures |r| == Max(|screen|, |texts|)
    ensures r[..|texts|] == texts
  {
    texts + (if |texts| < |screen| then screen[|texts|..] else [])
  }

  /** A buffer that has had exactly `acc` written from the top over `screen`,
      with the captured path reset to `init` beforehand. */
  ghost predicate Holds<P>(b: Buffer<P>, screen: seq<string>, acc: seq<Entry<P>>, row: int, init: P) {
    && b.writeIndex == |acc|
    && b.lines == Overlay(screen, Texts(acc))
    && b.cursorPos == Captured(acc, row, init)
  }

  lemma AppendHolds<P>(b: Buffer<P>, screen: seq<string>, acc: seq<Entry<P>>, e: Entry<P>, row: int, init: P)
    requires Holds(b, screen, acc, row, init)
    ensures Holds(Append(b, e.text, e.path, row), screen, acc + [e], row, init)
  {
    var r := Append(b, e.text, e.path, row);
    var want := Overlay(screen, Texts(acc + [e]));
    assert |r.lines| == |want|;
    forall j | 0 <= j < |want|
      ensures r.lines[j] == want[j]
    {
      if j < |acc| {
        assert want[j] == Texts(acc + [e])[j] == (acc + [e])[j].text == acc[j].text;
        assert b.lines[j] == Texts(acc)[j];
      } else if j > |acc| {
        assert b.lines[j] == screen[j];
      }
    }
  }

  /** Writing a run of entries extends what the buffer holds by exactly those
      entries; the captured path is that of the entry on the cursor row, if
      the run reached it. */
  lemma {:induction false} WriteAllHolds<P>(b: Buffer<P>, screen: seq<string>, acc: seq<Entry<P>>, es: seq<Entry<P>>, row: int, init: P)
    requires Holds(b, screen, acc, row, init)
    ensures Holds(WriteAll(b, es, row), screen, acc + es, row, init)
    decreases |es|
  {
    if |es| > 0 {
      var b1 := Append(b, es[0].text, es[0].path, row);
      var w := WriteAll(b1, es[1..], row);
      assert Holds(b1, screen, acc + [es[0]], row, init) by {
        AppendHolds(b, screen, acc, es[0], row, init);
      }
      assert Holds(w, screen, acc + [es[0]] + es[1..], row, init) by {
        WriteAllHolds(b1, screen, acc + [es[0]], es[1..], row, init);
      }
      assert acc + [es[0]] + es[1..] == acc + es;
      assert w == WriteAll(b, es, row);
    } else {
      assert acc + es == acc;
    }
  }

  /** Deleting everything below the write index (`del buffer[write_i:]`)
      leaves exactly the lines written, and the captured path is the one
      attached to the line on the cursor row, or `init` if no line was
      written there. */
  lemma TruncateHolds<P>(b: Buffer<P>, screen: seq<string>, acc: seq<Entry<P>>, row: int, init: P)
    requires Holds(b, screen, acc, row, init)
    ensures b.lines[..b.writeIndex] == Texts(acc)
    ensures 1 <= row <= |acc| ==> b.cursorPos == acc[row - 1].path
    ensures (row < 1 || row > |acc|) ==> b.cursorPos == init
  {
  }

  /** `t'` is `t` with the run `b` starting at line `n` replaced by `b'`. */
  predicate Spliced(t: seq<string>, t': seq<string>, b: seq<string>, b': seq<string>, n: nat) {
    && n + |b| <= |t| && n + |b'| <= |t'|
    && t[..n] == t'[..n]
    && t[n..n + |b|] == b
    && t'[n..n + |b'|] == b'
    && t[n + |b|..] == t'[n + |b'|..]
  }

  /** Equal listings, blocks and offsets give the same splice. */
  lemma SplicedSubst(t: seq<string>, t': seq<string>, b: seq<string>, b': seq<string>, n: nat,
                     u: seq<string>, u': seq<string>, c: seq<string>, c': seq<string>, m: nat)
    requires Spliced(t, t', b, b', n)
    requires t == u && t' == u' && b == c && b' == c' && n == m
    ensures Spliced(u, u', c, c', m)
  {
  }

  lemma Regroup3<T>(a: seq<T>, b: seq<T>, c: seq<T>)
    ensures a + b + c == a + (b + c)
  {
  }
}
