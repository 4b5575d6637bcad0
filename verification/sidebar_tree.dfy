/** The project listing the sidebar draws (sidebar.py). In the source these are
    dictionaries shared by reference: a project holds a root folder, folders
    hold sub-folders, editable documents and file references, and projects and
    folders may carry an `open` key. */
module SidebarTree {
  import opened PyStr

  datatype Doc = Doc(name: string)

  datatype FileRef = FileRef(name: string)

  /** `open` is `None` when the key is absent. */
  datatype Folder = Folder(
    name: string,
    open: Option<bool>,
    folders: seq<Folder>,
    docs: seq<Doc>,
    fileRefs: seq<FileRef>)

  datatype Person = Person(firstName: string, lastName: string)

  /** `handler` is the identity of the object under the `handler` key, or
      `None` when the project dictionary has no such key (it is not
      connected). `others` stands for the values of the keys the sidebar
      never reads, the project's id among them. Python's `!=` on the
      dictionaries compares every key, and the handler object by identity,
      so two projects are equal here exactly when they are equal there. */
  datatype Project = Project(
    name: string,
    open: Option<bool>,
    root: Folder,
    handler: Option<nat>,
    others: nat,
    msg: Option<string>,
    source: string,
    owner: Person,
    lastUpdated: string,
    lastUpdatedBy: Option<Person>)

  /** What a cursor-path element refers to. The source compares elements with
      `!=`, which on dictionaries and strings compares these values. */
  datatype Node =
    | ProjectNode(project: Project)
    | FolderNode(folder: Folder)
    | DocNode(doc: Doc)
    | FileRefNode(fileRef: FileRef)
    | Marker(tag: string)

  /** A cursor-path element: the referred node together with its position in
      the collection that holds it, which stands for the object's identity
      (markers are plain strings and sit at slot 0). */
  datatype Elem = Elem(slot: nat, node: Node)

  type Path = seq<Elem>

  /** `"open" in d and d["open"]`: an absent key means closed. */
  predicate IsOpen(flag: Option<bool>) {
    flag == Some(true)
  }

  /** `_toggle(d, "open", default)` on the flag: an absent key is set to the
      default, a present one is negated. */
  function Toggle(flag: Option<bool>, default: bool): (r: Option<bool>)
    ensures r.Some?
    ensures flag.None? ==> r.value == default
    ensures flag.Some? ==> r.value == !flag.value
  {
    match flag
    case None => Some(default)
    case Some(b) => Some(!b)
  }

  /** `cursorAt(pos)` against the recorded cursor path: `pos` is no longer than
      `cursorPos` and agrees with it element by element (by value). */
  function CursorAt(pos: Path, cursorPos: Path): (r: bool)
    ensures r <==> |pos| <= |cursorPos| && forall k :: 0 <= k < |pos| ==> pos[k].node == cursorPos[k].node
  {
    if |pos| > |cursorPos| then false else ZipMatch(pos, cursorPos)
  }

  /** The `for p, c in zip(pos, cursorPos)` loop of `cursorAt`. */
  function ZipMatch(pos: Path, cursorPos: Path): (r: bool)
    requires |pos| <= |cursorPos|
    ensures r <==> forall k :: 0 <= k < |pos| ==> pos[k].node == cursorPos[k].node
    decreases |pos|
  {
    if |pos| == 0 then true
    else if pos[0].node != cursorPos[0].node then false
    else ZipMatch(pos[1..], cursorPos[1..])
  }

  /** A folder address: the slots of the sub-folders leading from `f` to it. */
  predicate ValidAddress(f: Folder, addr: seq<nat>)
    decreases |addr|
  {
    |addr| == 0 || (addr[0] < |f.folders| && ValidAddress(f.folders[addr[0]], addr[1..]))
  }

  function FolderAt(f: Folder, addr: seq<nat>): Folder
    requires ValidAddress(f, addr)
    decreases |addr|
  {
    if |addr| == 0 then f else FolderAt(f.folders[addr[0]], addr[1..])
  }

  /** `_toggle(folder, "open", default)` applied to the folder object at
      `addr`. An address that leads nowhere names an object outside this
      tree, whose change the tree does not see. */
  function ToggleAt(f: Folder, addr: seq<nat>, default: bool): (r: Folder)
    ensures r.name == f.name && r.docs == f.docs && r.fileRefs == f.fileRefs
    ensures |r.folders| == |f.folders|
    ensures |addr| > 0 ==> r.open == f.open
    decreases |addr|
  {
    if |addr| == 0 then f.(open := Toggle(f.open, default))
    else if addr[0] < |f.folders| then
      f.(folders := f.folders[addr[0] := ToggleAt(f.folders[addr[0]], addr[1..], default)])
    else f
  }

  /** The toggle reaches the addressed folder and changes only its flag. */
  lemma {:induction false} ToggleAtChangesOnlyTarget(f: Folder, addr: seq<nat>, default: bool)
    requires ValidAddress(f, addr)
    ensures ValidAddress(ToggleAt(f, addr, default), addr)
    ensures FolderAt(ToggleAt(f, addr, default), addr)
            == FolderAt(f, addr).(open := Toggle(FolderAt(f, addr).open, default))
    decreases |addr|
  {
    if |addr| > 0 {
      ToggleAtChangesOnlyTarget(f.folders[addr[0]], addr[1..], default);
    }
  }

  /** Every folder at another address keeps its flag, its name, its
      documents, its file references and its number of sub-folders. */
  lemma {:induction false} ToggleAtKeepsOthers(f: Folder, addr: seq<nat>, a: seq<nat>, default: bool)
    requires ValidAddress(f, a) && a != addr
    ensures ValidAddress(ToggleAt(f, addr, default), a)
    ensures var g := FolderAt(ToggleAt(f, addr, default), a);
      var h := FolderAt(f, a);
      && g.open == h.open && g.name == h.name && g.docs == h.docs && g.fileRefs == h.fileRefs
      && |g.folders| == |h.folders|
    decreases |a|
  {
    var t := ToggleAt(f, addr, default);
    if |a| > 0 {
      var i := a[0];
      if |addr| > 0 && addr[0] == i {
        assert a[1..] != addr[1..] by {
          assert a == [i] + a[1..] && addr == [i] + addr[1..];
        }
        ToggleAtKeepsOthers(f.folders[i], addr[1..], a[1..], default);
      } else {
        assert t.folders[i] == f.folders[i];
      }
    }
  }

  /** Entering a folder twice restores a flag that was present. */
  lemma {:induction false} ToggleTwiceRestores(f: Folder, addr: seq<nat>, default: bool)
    requires ValidAddress(f, addr)
    requires FolderAt(f, addr).open.Some?
    ensures ToggleAt(ToggleAt(f, addr, default), addr, default) == f
    decreases |addr|
  {
    if |addr| > 0 {
      ToggleTwiceRestores(f.folders[addr[0]], addr[1..], default);
      var g := ToggleAt(f.folders[addr[0]], addr[1..], default);
      assert f.folders[addr[0] := g][addr[0] := ToggleAt(g, addr[1..], default)] == f.folders;
    }
  }

  /** Two connected projects with different handler objects, or that differ
      in a key the sidebar does not read, are never "at" each other, however
      much the drawn keys agree. */
  lemma DistinctProjectsNotAt(p: Project, q: Project, i: nat, j: nat)
    requires p.handler != q.handler || p.others != q.others
    ensures !CursorAt([Elem(i, ProjectNode(p))], [Elem(j, ProjectNode(q))])
  {
  }

  /** `cursorAt([])` always holds, and a recorded path is always "at" itself
      and at every prefix of itself. */
  lemma CursorAtPrefixes(cursorPos: Path, n: nat)
    requires n <= |cursorPos|
    ensures CursorAt([], cursorPos)
    ensures CursorAt(cursorPos[..n], cursorPos)
  {
  }
}
