/** The order in which `render` (commentbuffer.py) lays out the overlapping
    comment threads under the cursor: by the time stamp of each thread's
    first message, with `sorted`'s stability for equal keys. */
module ThreadOrder {
  import opened PyStr
  import Buffer

  datatype User = User(firstName: Option<string>, email: Option<string>)

  /** One message of a thread; `timestamp` is absent when the key is. */
  datatype Message = Message(user: User, content: string, timestamp: Option<int>)

  /** The record `project.comments` holds for a thread id. `Empty` is the
      empty dictionary, which the source treats like a missing thread. */
  datatype ThreadData =
    | Empty
    | Thread(messages: Option<seq<Message>>, resolved: bool)

  /** `project.comments`: thread id to thread record. */
  type Comments = map<string, ThreadData>

  /** The thread's record, or `None` when it is missing or empty (`not
      thread` in the source). */
  function Lookup(comments: Comments, id: string): (r: Option<ThreadData>)
    ensures r.Some? ==> id in comments && r.value == comments[id] && r.value.Thread?
    ensures r.None? ==> id !in comments || comments[id].Empty?
  {
    if id in comments && comments[id].Thread? then Some(comments[id]) else None
  }

  /** The first message of a thread that has one. */
  predicate HasFirst(comments: Comments, id: string) {
    var t := Lookup(comments, id);
    t.Some? && t.value.messages.Some? && |t.value.messages.value| > 0
  }

  /** The sort key of `render`'s `lookup`: -1 for a missing or empty thread
      and for one without messages, otherwise the first message's time stamp,
      0 when that has none. */
  function SortKey(comments: Comments, id: string): (k: int)
    ensures !HasFirst(comments, id) ==> k == -1
    ensures HasFirst(comments, id) ==> k == comments[id].messages.value[0].timestamp.GetOr(0)
  {
    match Lookup(comments, id)
    case None => -1
    case Some(t) =>
      var ms := t.messages.GetOr([]);
      if |ms| == 0 then -1 else ms[0].timestamp.GetOr(0)
  }

  predicate Sorted(comments: Comments, s: seq<string>) {
    forall i, j :: 0 <= i < j < |s| ==> SortKey(comments, s[i]) <= SortKey(comments, s[j])
  }

  /** Puts `x` after every element whose key is not larger than its own. */
  function Insert(comments: Comments, t: seq<string>, x: string): (r: seq<string>)
    ensures multiset(r) == multiset(t) + multiset{x}
    decreases |t|
  {
    if |t| == 0 then [x]
    else if SortKey(comments, x) < SortKey(comments, t[0]) then [x] + t
    else
      assert t == [t[0]] + t[1..];
      [t[0]] + Insert(comments, t[1..], x)
  }

  /** Every id of `s` has a key of at least `b`. */
  predicate AtLeast(comments: Comments, s: seq<string>, b: int) {
    forall i :: 0 <= i < |s| ==> SortKey(comments, s[i]) >= b
  }

  lemma {:induction false} InsertAtLeast(comments: Comments, t: seq<string>, x: string, b: int)
    requires AtLeast(comments, t, b) && SortKey(comments, x) >= b
    ensures AtLeast(comments, Insert(comments, t, x), b)
    decreases |t|
  {
    if |t| > 0 && SortKey(comments, x) >= SortKey(comments, t[0]) {
      InsertAtLeast(comments, t[1..], x, b);
    }
  }

  /** A sorted list stays sorted with an id in front whose key is not larger
      than any of its own. */
  lemma SortedCons(comments: Comments, y: string, t: seq<string>)
    requires Sorted(comments, t) && AtLeast(comments, t, SortKey(comments, y))
    ensures Sorted(comments, [y] + t)
  {
    var r := [y] + t;
    forall i, j | 0 <= i < j < |r|
      ensures SortKey(comments, r[i]) <= SortKey(comments, r[j])
    {
      assert r[j] == t[j - 1];
      if i > 0 {
        assert r[i] == t[i - 1];
      }
    }
  }

  /** Inserting into a sorted list keeps it sorted. */
  lemma {:induction false} InsertSorted(comments: Comments, t: seq<string>, x: string)
    requires Sorted(comments, t)
    ensures Sorted(comments, Insert(comments, t, x))
    decreases |t|
  {
    if |t| == 0 {
    } else if SortKey(comments, x) < SortKey(comments, t[0]) {
      SortedTail(comments, t);
      SortedCons(comments, x, t);
    } else {
      SortedTail(comments, t);
      InsertSorted(comments, t[1..], x);
      InsertAtLeast(comments, t[1..], x, SortKey(comments, t[0]));
      SortedCons(comments, t[0], Insert(comments, t[1..], x));
    }
  }

  /** `sorted(ids, key=lookup)` */
  function Sort(comments: Comments, ids: seq<string>): (r: seq<string>)
    ensures multiset(r) == multiset(ids)
    ensures Sorted(comments, r)
    decreases |ids|
  {
    if |ids| == 0 then []
    else
      assert ids == ids[..|ids| - 1] + [ids[|ids| - 1]];
      var init := Sort(comments, ids[..|ids| - 1]);
      InsertSorted(comments, init, ids[|ids| - 1]);
      Insert(comments, init, ids[|ids| - 1])
  }

  /** The ids whose key is `v`, in order. */
  function WithKey(comments: Comments, s: seq<string>, v: int): seq<string>
    decreases |s|
  {
    if |s| == 0 then []
    else (if SortKey(comments, s[0]) == v then [s[0]] else []) + WithKey(comments, s[1..], v)
  }

  lemma {:induction false} WithKeySnoc(comments: Comments, s: seq<string>, x: string, v: int)
    ensures WithKey(comments, s + [x], v)
            == WithKey(comments, s, v) + (if SortKey(comments, x) == v then [x] else [])
    decreases |s|
  {
    if |s| == 0 {
      assert s + [x] == [x];
    } else {
      assert (s + [x])[1..] == s[1..] + [x];
      WithKeySnoc(comments, s[1..], x, v);
    }
  }

  lemma {:induction false} WithKeyNone(comments: Comments, s: seq<string>, v: int)
    requires forall i :: 0 <= i < |s| ==> SortKey(comments, s[i]) > v
    ensures WithKey(comments, s, v) == []
    decreases |s|
  {
    if |s| > 0 {
      WithKeyNone(comments, s[1..], v);
    }
  }

  lemma SortedTail(comments: Comments, t: seq<string>)
    requires |t| > 0 && Sorted(comments, t)
    ensures Sorted(comments, t[1..])
    ensures AtLeast(comments, t, SortKey(comments, t[0]))
  {
    forall i, j | 0 <= i < j < |t[1..]|
      ensures SortKey(comments, t[1..][i]) <= SortKey(comments, t[1..][j])
    {
      assert t[1..][i] == t[i + 1] && t[1..][j] == t[j + 1];
    }
    forall i | 0 <= i < |t|
      ensures SortKey(comments, t[i]) >= SortKey(comments, t[0])
    {
      if i > 0 {
        assert SortKey(comments, t[0]) <= SortKey(comments, t[i]);
      }
    }
  }

  /** The ids of key `v` in `[y] + s`. */
  lemma WithKeyCons(comments: Comments, y: string, s: seq<string>, v: int)
    ensures WithKey(comments, [y] + s, v) == (if SortKey(comments, y) == v then [y] else []) + WithKey(comments, s, v)
  {
    var r := [y] + s;
    assert r[0] == y && r[1..] == s;
  }

  /** `x` put in front of a sorted list whose keys are larger. */
  lemma WithKeyFront(comments: Comments, t: seq<string>, x: string, v: int)
    requires Sorted(comments, t) && |t| > 0 && SortKey(comments, x) < SortKey(comments, t[0])
    ensures WithKey(comments, [x] + t, v)
            == WithKey(comments, t, v) + (if SortKey(comments, x) == v then [x] else [])
  {
    WithKeyCons(comments, x, t, v);
    if SortKey(comments, x) == v {
      SortedTail(comments, t);
      WithKeyNone(comments, t, v);
      assert [x] + [] == [] + [x];
    } else {
      assert [] + WithKey(comments, t, v) == WithKey(comments, t, v) + [];
    }
  }

  /** `t[0]` put in front of `t[1..]` with `x` inserted. */
  lemma WithKeyBehind(comments: Comments, t: seq<string>, rest: seq<string>, x: string, v: int)
    requires |t| > 0
    requires WithKey(comments, rest, v)
             == WithKey(comments, t[1..], v) + (if SortKey(comments, x) == v then [x] else [])
    ensures WithKey(comments, [t[0]] + rest, v)
            == WithKey(comments, t, v) + (if SortKey(comments, x) == v then [x] else [])
  {
    var cx := if SortKey(comments, x) == v then [x] else [];
    var c0 := if SortKey(comments, t[0]) == v then [t[0]] else [];
    WithKeyCons(comments, t[0], rest, v);
    assert WithKey(comments, t, v) == c0 + WithKey(comments, t[1..], v);
    Buffer.Regroup3(c0, WithKey(comments, t[1..], v), cx);
  }

  /** Inserting keeps the ids of every key in their order and puts `x`
      last among the ids of its key. */
  lemma {:induction false} InsertWithKey(comments: Comments, t: seq<string>, x: string, v: int)
    requires Sorted(comments, t)
    ensures WithKey(comments, Insert(comments, t, x), v)
            == WithKey(comments, t, v) + (if SortKey(comments, x) == v then [x] else [])
    decreases |t|
  {
    if |t| == 0 {
      WithKeyCons(comments, x, [], v);
      assert [x] + [] == [x];
      var cx := if SortKey(comments, x) == v then [x] else [];
      assert cx + [] == [] + cx;
    } else if SortKey(comments, x) < SortKey(comments, t[0]) {
      WithKeyFront(comments, t, x, v);
    } else {
      SortedTail(comments, t);
      InsertWithKey(comments, t[1..], x, v);
      WithKeyBehind(comments, t, Insert(comments, t[1..], x), x, v);
    }
  }

  /** `sorted` is stable: the ids that share a key keep their relative
      order. */
  lemma {:induction false} SortStable(comments: Comments, ids: seq<string>, v: int)
    ensures WithKey(comments, Sort(comments, ids), v) == WithKey(comments, ids, v)
    decreases |ids|
  {
    if |ids| > 0 {
      var init := ids[..|ids| - 1];
      var x := ids[|ids| - 1];
      SortStable(comments, init, v);
      InsertWithKey(comments, Sort(comments, init), x, v);
      assert ids == init + [x];
      WithKeySnoc(comments, init, x, v);
    }
  }

  /** `SortStable` for every key at once. */
  lemma SortStableAll(comments: Comments, ids: seq<string>)
    ensures forall v :: WithKey(comments, Sort(comments, ids), v) == WithKey(comments, ids, v)
  {
    forall v
      ensures WithKey(comments, Sort(comments, ids), v) == WithKey(comments, ids, v)
    {
      SortStable(comments, ids, v);
    }
  }

  /** A thread without messages or without a record comes before every
      thread that has a first message with a non-negative time stamp. */
  lemma NoMessagesFirst(comments: Comments, ids: seq<string>, i: nat, j: nat)
    requires i < |Sort(comments, ids)| && j < |Sort(comments, ids)|
    requires !HasFirst(comments, Sort(comments, ids)[i])
    requires HasFirst(comments, Sort(comments, ids)[j])
    requires Sort(comments, ids)[j] in comments
    requires comments[Sort(comments, ids)[j]].messages.value[0].timestamp.GetOr(0) >= 0
    ensures i < j
  {
  }
}
