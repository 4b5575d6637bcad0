/** `listProjectStructure` (sidebar.py): the depth-first, pre-order listing of
    a project's folder tree, one line per visible node, each line carrying the
    path of nodes from the project down to the node it shows. */
module SidebarStructure {
  import opened PyStr
  import opened Buffer
  import opened SidebarTree

  /** The configured arrows `g:AirLatexArrowOpen` and `g:AirLatexArrowClosed`. */
  datatype Config = Config(symbolOpen: string, symbolClosed: string)

  type Line = Entry<Path>

  function Symbol(cfg: Config, flag: Option<bool>): string {
    if IsOpen(flag) then cfg.symbolOpen else cfg.symbolClosed
  }

  /** `"   " + "  " * indent` */
  function IndentStr(indent: nat): string {
    "   " + Repeat(' ', 2 * indent)
  }

  function FolderLabel(cfg: Config, g: Folder, indent: nat): string {
    IndentStr(indent) + Symbol(cfg, g.open) + " " + g.name
  }

  /** Documents sit one indentation step deeper than the folders beside them. */
  function DocLabel(d: Doc, indent: nat): string {
    IndentStr(indent + 1) + d.name
  }

  function FileRefLabel(r: FileRef): string {
    "    - " + r.name
  }

  const FileRefsHeader: string := "   file Refs:"

  /** The string `"fileRefs"` the header line puts on its path. */
  const FileRefsMarker: Elem := Elem(0, Marker("fileRefs"))

  /** `listProjectStructure(f, pos, indent)`: sub-folders, then documents,
      then the file references under their header. */
  function Structure(cfg: Config, f: Folder, pos: Path, indent: nat): seq<Line>
    decreases f, 1
  {
    FolderEntries(cfg, f, 0, pos, indent) + DocEntries(f, pos, indent) + FileRefEntries(f, pos)
  }

  /** The first loop of `listProjectStructure`, from sub-folder `k` on. */
  function FolderEntries(cfg: Config, f: Folder, k: nat, pos: Path, indent: nat): seq<Line>
    requires k <= |f.folders|
    decreases f, 0, |f.folders| - k
  {
    if k == |f.folders| then []
    else FolderBlock(cfg, f.folders[k], k, pos, indent) + FolderEntries(cfg, f, k + 1, pos, indent)
  }

  /** One sub-folder: its own line, then, if it is open, its subtree one
      level deeper. */
  function FolderBlock(cfg: Config, g: Folder, slot: nat, pos: Path, indent: nat): seq<Line>
    decreases g, 2
  {
    var p := pos + [Elem(slot, FolderNode(g))];
    [Entry(FolderLabel(cfg, g, indent), p)]
    + (if IsOpen(g.open) then Structure(cfg, g, p, indent + 1) else [])
  }

  function DocEntries(f: Folder, pos: Path, indent: nat): seq<Line> {
    seq(|f.docs|, j requires 0 <= j < |f.docs| =>
      Entry(DocLabel(f.docs[j], indent), pos + [Elem(j, DocNode(f.docs[j]))]))
  }

  function FileRefEntries(f: Folder, pos: Path): seq<Line> {
    if |f.fileRefs| == 0 then []
    else [Entry(FileRefsHeader, pos + [FileRefsMarker])] + FileRefLines(f, pos)
  }

  function FileRefLines(f: Folder, pos: Path): seq<Line> {
    seq(|f.fileRefs|, j requires 0 <= j < |f.fileRefs| =>
      Entry(FileRefLabel(f.fileRefs[j]), pos + [Elem(j, FileRefNode(f.fileRefs[j]))]))
  }

  lemma {:induction false} BlocksBetweenSnoc(cfg: Config, f: Folder, k: nat, i: nat, pos: Path, indent: nat)
    requires k <= i < |f.folders|
    ensures BlocksBetween(cfg, f, k, i + 1, pos, indent)
            == BlocksBetween(cfg, f, k, i, pos, indent) + FolderBlock(cfg, f.folders[i], i, pos, indent)
    decreases i - k
  {
    if k < i {
      BlocksBetweenSnoc(cfg, f, k + 1, i, pos, indent);
      var b := FolderBlock(cfg, f.folders[k], k, pos, indent);
      var m := BlocksBetween(cfg, f, k + 1, i, pos, indent);
      var c := FolderBlock(cfg, f.folders[i], i, pos, indent);
      assert BlocksBetween(cfg, f, k, i + 1, pos, indent) == b + BlocksBetween(cfg, f, k + 1, i + 1, pos, indent);
      assert BlocksBetween(cfg, f, k, i, pos, indent) == b + m;
      Regroup3(b, m, c);
    } else {
      assert BlocksBetween(cfg, f, i + 1, i + 1, pos, indent) == [];
    }
  }

  lemma {:induction false} BlocksBetweenAll(cfg: Config, f: Folder, k: nat, pos: Path, indent: nat)
    requires k <= |f.folders|
    ensures BlocksBetween(cfg, f, k, |f.folders|, pos, indent) == FolderEntries(cfg, f, k, pos, indent)
    decreases |f.folders| - k
  {
    if k < |f.folders| {
      BlocksBetweenAll(cfg, f, k + 1, pos, indent);
    }
  }

  /** `listProjectStructure` as the source runs it: a loop over the
      sub-folders that recurses into the open ones, a loop over the
      documents, and, when there are file references, the header line and a
      loop over them. It writes exactly the lines of `Structure`, in order. */
  method ListProjectStructure(cfg: Config, b: Buffer<Path>, f: Folder, pos: Path, indent: nat, row: int)
      returns (r: Buffer<Path>)
    ensures r == WriteAll(b, Structure(cfg, f, pos, indent), row)
    decreases f, 1
  {
    r := WriteFolders(cfg, b, f, pos, indent, row);
    var r1 := WriteDocs(r, f, pos, indent, row);
    r := WriteFileRefs(r1, f, pos, row);
    WriteAllConcat(b, FolderEntries(cfg, f, 0, pos, indent), DocEntries(f, pos, indent), row);
    WriteAllConcat(b, FolderEntries(cfg, f, 0, pos, indent) + DocEntries(f, pos, indent), FileRefEntries(f, pos), row);
  }

  /** The first loop of `listProjectStructure`. */
  method WriteFolders(cfg: Config, b: Buffer<Path>, f: Folder, pos: Path, indent: nat, row: int)
      returns (r: Buffer<Path>)
    ensures r == WriteAll(b, FolderEntries(cfg, f, 0, pos, indent), row)
    decreases f, 0
  {
    r := b;
    var k := 0;
    while k < |f.folders|
      invariant k <= |f.folders|
      invariant r == WriteAll(b, BlocksBetween(cfg, f, 0, k, pos, indent), row)
    {
      assert f.folders[k] in f.folders;
      r := WriteFolderBlock(cfg, r, f.folders[k], k, pos, indent, row);
      assert r == WriteAll(b, BlocksBetween(cfg, f, 0, k + 1, pos, indent), row) by {
        WriteAllConcat(b, BlocksBetween(cfg, f, 0, k, pos, indent), FolderBlock(cfg, f.folders[k], k, pos, indent), row);
        BlocksBetweenSnoc(cfg, f, 0, k, pos, indent);
      }
      k := k + 1;
    }
    BlocksBetweenAll(cfg, f, 0, pos, indent);
  }

  /** One pass of the first loop: the folder's line, then its subtree if it
      is open. */
  method WriteFolderBlock(cfg: Config, b: Buffer<Path>, folder: Folder, k: nat, pos: Path, indent: nat, row: int)
      returns (r: Buffer<Path>)
    ensures r == WriteAll(b, FolderBlock(cfg, folder, k, pos, indent), row)
    decreases folder, 2
  {
    var p := pos + [Elem(k, FolderNode(folder))];
    if IsOpen(folder.open) {
      var line := IndentStr(indent) + cfg.symbolOpen + " " + folder.name;
      r := Append(b, line, p, row);
      assert r == WriteAll(b, [Entry(line, p)], row);
      r := ListProjectStructure(cfg, r, folder, p, indent + 1, row);
      WriteAllConcat(b, [Entry(line, p)], Structure(cfg, folder, p, indent + 1), row);
    } else {
      var line := IndentStr(indent) + cfg.symbolClosed + " " + folder.name;
      r := Append(b, line, p, row);
      assert r == WriteAll(b, [Entry(line, p)], row);
    }
  }

  /** The second loop of `listProjectStructure`. */
  method WriteDocs(b: Buffer<Path>, f: Folder, pos: Path, indent: nat, row: int) returns (r: Buffer<Path>)
    ensures r == WriteAll(b, DocEntries(f, pos, indent), row)
  {
    r := b;
    var docs := DocEntries(f, pos, indent);
    var j := 0;
    assert docs[..j] == [];
    while j < |f.docs|
      invariant j <= |f.docs|
      invariant r == WriteAll(b, docs[..j], row)
    {
      var d := f.docs[j];
      r := Append(r, IndentStr(indent + 1) + d.name, pos + [Elem(j, DocNode(d))], row);
      assert r == WriteAll(b, docs[..j + 1], row) by {
        WriteSnoc(b, docs[..j], IndentStr(indent + 1) + d.name, pos + [Elem(j, DocNode(d))], row);
        assert docs[..j + 1] == docs[..j] + [docs[j]];
      }
      j := j + 1;
    }
    assert docs[..|f.docs|] == docs;
  }

  /** The file-references part of `listProjectStructure`. */
  method WriteFileRefs(b: Buffer<Path>, f: Folder, pos: Path, row: int) returns (r: Buffer<Path>)
    ensures r == WriteAll(b, FileRefEntries(f, pos), row)
  {
    r := b;
    if |f.fileRefs| > 0 {
      var head := [Entry(FileRefsHeader, pos + [FileRefsMarker])];
      r := Append(r, FileRefsHeader, pos + [FileRefsMarker], row);
      assert r == WriteAll(b, head, row);
      r := WriteFileRefLines(r, f, pos, row);
      WriteAllConcat(b, head, FileRefLines(f, pos), row);
    }
  }

  /** The loop over the file references. */
  method WriteFileRefLines(b: Buffer<Path>, f: Folder, pos: Path, row: int) returns (r: Buffer<Path>)
    ensures r == WriteAll(b, FileRefLines(f, pos), row)
  {
    r := b;
    var refs := FileRefLines(f, pos);
    var m := 0;
    assert refs[..0] == [];
    while m < |f.fileRefs|
      invariant m <= |f.fileRefs|
      invariant r == WriteAll(b, refs[..m], row)
    {
      var file := f.fileRefs[m];
      r := Append(r, FileRefLabel(file), pos + [Elem(m, FileRefNode(file))], row);
      assert r == WriteAll(b, refs[..m + 1], row) by {
        WriteSnoc(b, refs[..m], FileRefLabel(file), pos + [Elem(m, FileRefNode(file))], row);
        assert refs[..m + 1] == refs[..m] + [refs[m]];
      }
      m := m + 1;
    }
    assert refs[..m] == refs;
  }

  // ---------------------------------------------------------------------
  // Path attachment: every line's path names the node the line shows.
  // ---------------------------------------------------------------------

  /** `q` leads from folder `f`, through open sub-folders, to a node the
      listing draws: a folder, a document, a file reference, or the
      file-references header of a folder that has file references. Each step
      names the node by value and by its slot in its parent. */
  ghost predicate Chain(f: Folder, q: Path)
    decreases |q|
  {
    |q| >= 1 &&
    match q[0].node
    case FolderNode(g) =>
      q[0].slot < |f.folders| && f.folders[q[0].slot] == g
      && (|q| == 1 || (IsOpen(g.open) && Chain(g, q[1..])))
    case DocNode(d) => |q| == 1 && q[0].slot < |f.docs| && f.docs[q[0].slot] == d
    case FileRefNode(r) => |q| == 1 && q[0].slot < |f.fileRefs| && f.fileRefs[q[0].slot] == r
    case Marker(_) => |q| == 1 && q[0] == FileRefsMarker && |f.fileRefs| > 0
    case ProjectNode(_) => false
  }

  /** The text drawn for node `e` at nesting depth `depth`. */
  function Label(cfg: Config, e: Elem, depth: nat): string {
    match e.node
    case FolderNode(g) => FolderLabel(cfg, g, depth)
    case DocNode(d) => DocLabel(d, depth)
    case FileRefNode(r) => FileRefLabel(r)
    case Marker(_) => FileRefsHeader
    case ProjectNode(_) => ""
  }

  /** A line drawn under prefix `pos` for folder `f` at indentation `indent`:
      its path is `pos` extended by a chain in `f`, and its text is the label
      of the chain's last node at the chain's depth. */
  ghost predicate AttachedUnder(cfg: Config, f: Folder, pos: Path, indent: nat, e: Line) {
    && |pos| < |e.path|
    && e.path[..|pos|] == pos
    && Chain(f, e.path[|pos|..])
    && e.text == Label(cfg, e.path[|e.path| - 1], indent + |e.path| - |pos| - 1)
  }

  lemma {:induction false} StructureAttached(cfg: Config, f: Folder, pos: Path, indent: nat)
    ensures forall e | e in Structure(cfg, f, pos, indent) :: AttachedUnder(cfg, f, pos, indent, e)
    decreases f, 1
  {
    FolderEntriesAttached(cfg, f, 0, pos, indent);
    forall e | e in DocEntries(f, pos, indent)
      ensures AttachedUnder(cfg, f, pos, indent, e)
    {
      var j :| 0 <= j < |f.docs| && e == DocEntries(f, pos, indent)[j];
      assert e.path[|pos|..] == [Elem(j, DocNode(f.docs[j]))];
    }
    forall e | e in FileRefEntries(f, pos)
      ensures AttachedUnder(cfg, f, pos, indent, e)
    {
      var rs := FileRefEntries(f, pos);
      var j :| 0 <= j < |rs| && e == rs[j];
      if j == 0 {
        assert e.path[|pos|..] == [FileRefsMarker];
      } else {
        assert e.path[|pos|..] == [Elem(j - 1, FileRefNode(f.fileRefs[j - 1]))];
      }
    }
  }

  lemma {:induction false} FolderEntriesAttached(cfg: Config, f: Folder, k: nat, pos: Path, indent: nat)
    requires k <= |f.folders|
    ensures forall e | e in FolderEntries(cfg, f, k, pos, indent) :: AttachedUnder(cfg, f, pos, indent, e)
    decreases f, 0, |f.folders| - k
  {
    if k < |f.folders| {
      var block := FolderBlock(cfg, f.folders[k], k, pos, indent);
      var rest := FolderEntries(cfg, f, k + 1, pos, indent);
      FolderBlockAttached(cfg, f, k, pos, indent);
      FolderEntriesAttached(cfg, f, k + 1, pos, indent);
      assert FolderEntries(cfg, f, k, pos, indent) == block + rest;
      forall e | e in block + rest
        ensures AttachedUnder(cfg, f, pos, indent, e)
      {
        assert e in block || e in rest;
      }
    }
  }

  /** The lines of sub-folder `k` are attached under its parent `f`. */
  lemma {:induction false} FolderBlockAttached(cfg: Config, f: Folder, k: nat, pos: Path, indent: nat)
    requires k < |f.folders|
    ensures forall e | e in FolderBlock(cfg, f.folders[k], k, pos, indent) :: AttachedUnder(cfg, f, pos, indent, e)
    decreases f, 0, 0
  {
    var g := f.folders[k];
    var p := pos + [Elem(k, FolderNode(g))];
    var first := Entry(FolderLabel(cfg, g, indent), p);
    FolderLineAttached(cfg, f, k, pos, indent);
    if IsOpen(g.open) {
      var sub := Structure(cfg, g, p, indent + 1);
      StructureAttached(cfg, g, p, indent + 1);
      forall e | e in sub
        ensures AttachedUnder(cfg, f, pos, indent, e)
      {
        SubtreeLineAttached(cfg, f, k, pos, indent, e);
      }
      assert FolderBlock(cfg, g, k, pos, indent) == [first] + sub;
    } else {
      assert FolderBlock(cfg, g, k, pos, indent) == [first];
    }
  }

  /** The line of sub-folder `k` itself is attached under `f`. */
  lemma FolderLineAttached(cfg: Config, f: Folder, k: nat, pos: Path, indent: nat)
    requires k < |f.folders|
    ensures AttachedUnder(cfg, f, pos, indent,
                          Entry(FolderLabel(cfg, f.folders[k], indent), pos + [Elem(k, FolderNode(f.folders[k]))]))
  {
    var head := Elem(k, FolderNode(f.folders[k]));
    var p := pos + [head];
    assert p[..|pos|] == pos;
    assert p[|pos|..] == [head];
    assert Chain(f, [head]);
  }

  /** A chain through the open sub-folder `k` is a chain from its parent. */
  lemma ChainThrough(f: Folder, k: nat, q: Path)
    requires k < |f.folders| && IsOpen(f.folders[k].open)
    requires |q| >= 2 && q[0] == Elem(k, FolderNode(f.folders[k])) && Chain(f.folders[k], q[1..])
    ensures Chain(f, q)
  {
  }

  /** A line attached under an open sub-folder is attached under its parent. */
  lemma SubtreeLineAttached(cfg: Config, f: Folder, k: nat, pos: Path, indent: nat, e: Line)
    requires k < |f.folders| && IsOpen(f.folders[k].open)
    requires AttachedUnder(cfg, f.folders[k], pos + [Elem(k, FolderNode(f.folders[k]))], indent + 1, e)
    ensures AttachedUnder(cfg, f, pos, indent, e)
  {
    var g := f.folders[k];
    var head := Elem(k, FolderNode(g));
    var p := pos + [head];
    var q := e.path[|pos|..];
    assert e.path[..|p|] == p;
    assert e.path[..|pos|] == p[..|pos|] == pos;
    assert q[0] == e.path[|pos|] == p[|pos|] == head;
    assert q[1..] == e.path[|p|..];
    ChainThrough(f, k, q);
    assert indent + 1 + |e.path| - |p| - 1 == indent + |e.path| - |pos| - 1;
  }

  // ---------------------------------------------------------------------
  // Disclosure: toggling a folder redraws only that folder's lines.
  // ---------------------------------------------------------------------

  /** The texts of a structure listing do not depend on the path prefix. */
  lemma {:induction false} StructureTextsIgnorePos(cfg: Config, f: Folder, pos: Path, pos': Path, indent: nat)
    ensures Texts(Structure(cfg, f, pos, indent)) == Texts(Structure(cfg, f, pos', indent))
    decreases f, 1
  {
    FolderEntriesTextsIgnorePos(cfg, f, 0, pos, pos', indent);
    TextsConcat(FolderEntries(cfg, f, 0, pos, indent), DocEntries(f, pos, indent));
    TextsConcat(FolderEntries(cfg, f, 0, pos, indent) + DocEntries(f, pos, indent), FileRefEntries(f, pos));
    TextsConcat(FolderEntries(cfg, f, 0, pos', indent), DocEntries(f, pos', indent));
    TextsConcat(FolderEntries(cfg, f, 0, pos', indent) + DocEntries(f, pos', indent), FileRefEntries(f, pos'));
  }

  lemma {:induction false} FolderEntriesTextsIgnorePos(cfg: Config, f: Folder, k: nat, pos: Path, pos': Path, indent: nat)
    requires k <= |f.folders|
    ensures Texts(FolderEntries(cfg, f, k, pos, indent)) == Texts(FolderEntries(cfg, f, k, pos', indent))
    decreases f, 0, |f.folders| - k
  {
    if k < |f.folders| {
      var g := f.folders[k];
      FolderBlockTextsIgnorePos(cfg, g, k, pos, k, pos', indent);
      FolderEntriesTextsIgnorePos(cfg, f, k + 1, pos, pos', indent);
      TextsConcat(FolderBlock(cfg, g, k, pos, indent), FolderEntries(cfg, f, k + 1, pos, indent));
      TextsConcat(FolderBlock(cfg, g, k, pos', indent), FolderEntries(cfg, f, k + 1, pos', indent));
    }
  }

  lemma {:induction false} FolderBlockTextsIgnorePos(cfg: Config, g: Folder, slot: nat, pos: Path, slot': nat, pos': Path, indent: nat)
    ensures Texts(FolderBlock(cfg, g, slot, pos, indent)) == Texts(FolderBlock(cfg, g, slot', pos', indent))
    decreases g, 2
  {
    var p := pos + [Elem(slot, FolderNode(g))];
    var p' := pos' + [Elem(slot', FolderNode(g))];
    if IsOpen(g.open) {
      StructureTextsIgnorePos(cfg, g, p, p', indent + 1);
      TextsConcat([Entry(FolderLabel(cfg, g, indent), p)], Structure(cfg, g, p, indent + 1));
      TextsConcat([Entry(FolderLabel(cfg, g, indent), p')], Structure(cfg, g, p', indent + 1));
    }
  }

  /** The folder with its flag toggled as `_toggle` does. */
  function Toggled(g: Folder, default: bool): Folder {
    g.(open := Toggle(g.open, default))
  }

  /** The lines a folder contributes to its parent's listing. */
  function BlockTexts(cfg: Config, g: Folder, indent: nat): seq<string> {
    Texts(FolderBlock(cfg, g, 0, [], indent))
  }

  /** The folder at `addr` is drawn: every folder strictly above it on the
      way down from `f` is open. */
  predicate Shown(f: Folder, addr: seq<nat>)
    decreases |addr|
  {
    && |addr| >= 1
    && addr[0] < |f.folders|
    && (|addr| == 1 || (IsOpen(f.folders[addr[0]].open) && Shown(f.folders[addr[0]], addr[1..])))
  }

  lemma {:induction false} ShownIsValid(f: Folder, addr: seq<nat>)
    requires Shown(f, addr)
    ensures ValidAddress(f, addr)
    decreases |addr|
  {
    if |addr| > 1 {
      ShownIsValid(f.folders[addr[0]], addr[1..]);
    }
  }

  /** Sub-folder `k` on depend only on the sub-folders from `k` on. */
  lemma {:induction false} FolderEntriesFrom(cfg: Config, f: Folder, f': Folder, k: nat, pos: Path, indent: nat)
    requires |f.folders| == |f'.folders| && k <= |f.folders|
    requires f.folders[k..] == f'.folders[k..]
    ensures FolderEntries(cfg, f, k, pos, indent) == FolderEntries(cfg, f', k, pos, indent)
    decreases |f.folders| - k
  {
    if k < |f.folders| {
      assert f.folders[k] == f.folders[k..][0] == f'.folders[k];
      assert f.folders[k + 1..] == f.folders[k..][1..];
      assert f'.folders[k + 1..] == f'.folders[k..][1..];
      FolderEntriesFrom(cfg, f, f', k + 1, pos, indent);
    }
  }

  /** The blocks of sub-folders `k` up to, not including, `i`. */
  function BlocksBetween(cfg: Config, f: Folder, k: nat, i: nat, pos: Path, indent: nat): seq<Line>
    requires k <= i <= |f.folders|
    decreases i - k
  {
    if k == i then [] else FolderBlock(cfg, f.folders[k], k, pos, indent) + BlocksBetween(cfg, f, k + 1, i, pos, indent)
  }

  lemma {:induction false} FolderEntriesSplit(cfg: Config, f: Folder, k: nat, i: nat, pos: Path, indent: nat)
    requires k <= i < |f.folders|
    ensures FolderEntries(cfg, f, k, pos, indent)
            == BlocksBetween(cfg, f, k, i, pos, indent) + FolderBlock(cfg, f.folders[i], i, pos, indent)
               + FolderEntries(cfg, f, i + 1, pos, indent)
    decreases i - k
  {
    if k < i {
      FolderEntriesSplit(cfg, f, k + 1, i, pos, indent);
      var b := FolderBlock(cfg, f.folders[k], k, pos, indent);
      var m := BlocksBetween(cfg, f, k + 1, i, pos, indent);
      var c := FolderBlock(cfg, f.folders[i], i, pos, indent);
      var t := FolderEntries(cfg, f, i + 1, pos, indent);
      assert FolderEntries(cfg, f, k, pos, indent) == b + FolderEntries(cfg, f, k + 1, pos, indent);
      assert BlocksBetween(cfg, f, k, i, pos, indent) == b + m;
      Regroup4(b, m, c, t);
    }
  }

  /** Regrouping four consecutive runs of lines. */
  lemma Regroup4<T>(a: seq<T>, b: seq<T>, c: seq<T>, d: seq<T>)
    ensures a + (b + c + d) == (a + b) + c + d
    ensures (a + b + c) + d == a + b + (c + d)
  {
  }

  lemma {:induction false} BlocksBetweenAgree(cfg: Config, f: Folder, f': Folder, k: nat, i: nat, pos: Path, indent: nat)
    requires k <= i <= |f.folders| == |f'.folders|
    requires f.folders[..i] == f'.folders[..i]
    ensures BlocksBetween(cfg, f, k, i, pos, indent) == BlocksBetween(cfg, f', k, i, pos, indent)
    decreases i - k
  {
    if k < i {
      assert f.folders[k] == f.folders[..i][k] == f'.folders[k];
      BlocksBetweenAgree(cfg, f, f', k + 1, i, pos, indent);
    }
  }

  /** The lines of `f`'s listing before sub-folder `i`'s block. */
  function Before(cfg: Config, f: Folder, i: nat, pos: Path, indent: nat): seq<Line>
    requires i < |f.folders|
  {
    BlocksBetween(cfg, f, 0, i, pos, indent)
  }

  /** The lines of `f`'s listing after sub-folder `i`'s block. */
  function After(cfg: Config, f: Folder, i: nat, pos: Path, indent: nat): seq<Line>
    requires i < |f.folders|
  {
    FolderEntries(cfg, f, i + 1, pos, indent) + DocEntries(f, pos, indent) + FileRefEntries(f, pos)
  }

  /** Every sub-folder's block splits the listing into before and after. */
  lemma StructureSplit(cfg: Config, f: Folder, i: nat, pos: Path, indent: nat)
    requires i < |f.folders|
    ensures Structure(cfg, f, pos, indent)
            == Before(cfg, f, i, pos, indent) + FolderBlock(cfg, f.folders[i], i, pos, indent) + After(cfg, f, i, pos, indent)
  {
    var pre := Before(cfg, f, i, pos, indent);
    var t := FolderEntries(cfg, f, i + 1, pos, indent);
    var d := DocEntries(f, pos, indent);
    var r := FileRefEntries(f, pos);
    var b := FolderBlock(cfg, f.folders[i], i, pos, indent);
    FolderEntriesSplit(cfg, f, 0, i, pos, indent);
    assert Structure(cfg, f, pos, indent) == (pre + b + t) + d + r;
    Regroup4(pre + b, t, d, r);
    Regroup4(pre, b, t + d, r);
    Regroup4(pre, b, t, d);
  }

  /** Replacing sub-folder `i` of `f` by `h` replaces that sub-folder's block
      and leaves the lines before and after it as they were. */
  lemma ReplaceSubfolder(cfg: Config, f: Folder, i: nat, h: Folder, pos: Path, indent: nat)
    requires i < |f.folders|
    ensures Structure(cfg, f, pos, indent)
            == Before(cfg, f, i, pos, indent) + FolderBlock(cfg, f.folders[i], i, pos, indent) + After(cfg, f, i, pos, indent)
    ensures Structure(cfg, f.(folders := f.folders[i := h]), pos, indent)
            == Before(cfg, f, i, pos, indent) + FolderBlock(cfg, h, i, pos, indent) + After(cfg, f, i, pos, indent)
  {
    var f' := f.(folders := f.folders[i := h]);
    StructureSplit(cfg, f, i, pos, indent);
    StructureSplit(cfg, f', i, pos, indent);
    SameSiblings(cfg, f, i, h, pos, indent);
    assert f'.folders[i] == h;
    assert DocEntries(f', pos, indent) == DocEntries(f, pos, indent);
    assert FileRefEntries(f', pos) == FileRefEntries(f, pos);
    assert After(cfg, f', i, pos, indent) == After(cfg, f, i, pos, indent);
  }

  /** The sub-folders other than `i` draw the same blocks after `i` is replaced. */
  lemma SameSiblings(cfg: Config, f: Folder, i: nat, h: Folder, pos: Path, indent: nat)
    requires i < |f.folders|
    ensures var f' := f.(folders := f.folders[i := h]);
      && BlocksBetween(cfg, f', 0, i, pos, indent) == BlocksBetween(cfg, f, 0, i, pos, indent)
      && FolderEntries(cfg, f', i + 1, pos, indent) == FolderEntries(cfg, f, i + 1, pos, indent)
  {
    var f' := f.(folders := f.folders[i := h]);
    assert f.folders[..i] == f'.folders[..i];
    BlocksBetweenAgree(cfg, f, f', 0, i, pos, indent);
    assert f.folders[i + 1..] == f'.folders[i + 1..];
    FolderEntriesFrom(cfg, f, f', i + 1, pos, indent);
  }

  /** Texts of a three-part listing. */
  lemma Texts3(a: seq<Line>, b: seq<Line>, c: seq<Line>)
    ensures Texts(a + b + c) == Texts(a) + Texts(b) + Texts(c)
  {
    TextsConcat(a + b, c);
    TextsConcat(a, b);
  }

  /** The texts of `f`'s structure listing at indentation `indent`. */
  function StructureTexts(cfg: Config, f: Folder, indent: nat): seq<string> {
    Texts(Structure(cfg, f, [], indent))
  }

  /** The line at which the block of the drawn folder at `addr` starts in
      `f`'s listing. */
  function Offset(cfg: Config, f: Folder, addr: seq<nat>, indent: nat): nat
    requires Shown(f, addr)
    decreases |addr|
  {
    |Before(cfg, f, addr[0], [], indent)|
    + (if |addr| == 1 then 0 else 1 + Offset(cfg, f.folders[addr[0]], addr[1..], indent + 1))
  }

  /** Regrouping a listing whose block is itself a line followed by a
      listing with a block inside it. */
  lemma Regroup(t: seq<string>, x: seq<string>, blk: seq<string>, y: seq<string>,
                l: seq<string>, s: seq<string>, p: seq<string>, b: seq<string>, q: seq<string>)
    requires t == x + blk + y && blk == l + s && s == p + b + q
    ensures t == (x + l + p) + b + (q + y)
  {
  }

  /** A listing cut as `pre + b + post` around a block that is replaced. */
  lemma SplicedConcat(pre: seq<string>, b: seq<string>, b': seq<string>, post: seq<string>)
    ensures Spliced(pre + b + post, pre + b' + post, b, b', |pre|)
  {
    var t, t' := pre + b + post, pre + b' + post;
    assert t[..|pre|] == pre == t'[..|pre|];
    assert t[|pre|..|pre| + |b|] == b;
    assert t'[|pre|..|pre| + |b'|] == b';
    assert t[|pre| + |b|..] == post == t'[|pre| + |b'|..];
  }

  /** Replacing sub-folder `i` of `f` by `h'` replaces sub-folder `i`'s
      block between the same lines. */
  lemma TopSplice(cfg: Config, f: Folder, i: nat, h': Folder, indent: nat)
    requires i < |f.folders|
    ensures var f' := f.(folders := f.folders[i := h']);
      var pre := Texts(Before(cfg, f, i, [], indent));
      var post := Texts(After(cfg, f, i, [], indent));
      && StructureTexts(cfg, f, indent) == pre + BlockTexts(cfg, f.folders[i], indent) + post
      && StructureTexts(cfg, f', indent) == pre + BlockTexts(cfg, h', indent) + post
  {
    ReplaceSubfolder(cfg, f, i, h', [], indent);
    Texts3(Before(cfg, f, i, [], indent), FolderBlock(cfg, f.folders[i], i, [], indent), After(cfg, f, i, [], indent));
    Texts3(Before(cfg, f, i, [], indent), FolderBlock(cfg, h', i, [], indent), After(cfg, f, i, [], indent));
    FolderBlockTextsIgnorePos(cfg, f.folders[i], i, [], 0, [], indent);
    FolderBlockTextsIgnorePos(cfg, h', i, [], 0, [], indent);
  }

  /** An open folder's block is its own line followed by its listing. */
  lemma OpenBlockTexts(cfg: Config, g: Folder, indent: nat)
    requires IsOpen(g.open)
    ensures BlockTexts(cfg, g, indent) == [FolderLabel(cfg, g, indent)] + StructureTexts(cfg, g, indent + 1)
  {
    var p := [Elem(0, FolderNode(g))];
    var e := Entry(FolderLabel(cfg, g, indent), p);
    var rest := Structure(cfg, g, p, indent + 1);
    assert [] + [Elem(0, FolderNode(g))] == p;
    assert FolderBlock(cfg, g, 0, [], indent) == [e] + rest;
    StructureTextsIgnorePos(cfg, g, p, [], indent + 1);
    TextsHead(FolderBlock(cfg, g, 0, [], indent), e, rest, StructureTexts(cfg, g, indent + 1));
  }

  /** The texts of a line followed by lines whose texts are known. */
  lemma TextsHead<P>(blk: seq<Entry<P>>, e: Entry<P>, rest: seq<Entry<P>>, t: seq<string>)
    requires blk == [e] + rest && Texts(rest) == t
    ensures Texts(blk) == [e.text] + t
  {
    TextsConcat([e], rest);
  }

  /** The listing before and after toggling the drawn folder at `addr` is
      the same lines `pre` and `post` around that folder's block, and `pre`
      ends where `Offset` says the block starts. */
  lemma {:induction false} ToggleSplice(cfg: Config, f: Folder, addr: seq<nat>, default: bool, indent: nat)
    returns (pre: seq<string>, post: seq<string>)
    requires Shown(f, addr)
    ensures ValidAddress(f, addr)
    ensures StructureTexts(cfg, f, indent)
            == pre + BlockTexts(cfg, FolderAt(f, addr), indent + |addr| - 1) + post
    ensures StructureTexts(cfg, ToggleAt(f, addr, default), indent)
            == pre + BlockTexts(cfg, Toggled(FolderAt(f, addr), default), indent + |addr| - 1) + post
    ensures |pre| == Offset(cfg, f, addr, indent)
    decreases |addr|
  {
    ShownIsValid(f, addr);
    if |addr| == 1 {
      pre, post := TopCase(cfg, f, addr, default, indent);
    } else {
      var p, q := ToggleSplice(cfg, f.folders[addr[0]], addr[1..], default, indent + 1);
      pre, post := NestedCase(cfg, f, addr, default, indent, p, q);
    }
  }

  /** `ToggleSplice` for a folder directly under `f`. */
  lemma TopCase(cfg: Config, f: Folder, addr: seq<nat>, default: bool, indent: nat)
    returns (pre: seq<string>, post: seq<string>)
    requires |addr| == 1 && addr[0] < |f.folders|
    ensures ValidAddress(f, addr)
    ensures StructureTexts(cfg, f, indent)
            == pre + BlockTexts(cfg, FolderAt(f, addr), indent + |addr| - 1) + post
    ensures StructureTexts(cfg, ToggleAt(f, addr, default), indent)
            == pre + BlockTexts(cfg, Toggled(FolderAt(f, addr), default), indent + |addr| - 1) + post
    ensures |pre| == |Before(cfg, f, addr[0], [], indent)|
  {
    var i := addr[0];
    var h := f.folders[i];
    assert addr[1..] == [];
    assert ValidAddress(h, addr[1..]);
    assert FolderAt(f, addr) == FolderAt(h, addr[1..]) == h;
    assert ToggleAt(f, addr, default) == f.(folders := f.folders[i := Toggled(h, default)]);
    TopSplice(cfg, f, i, Toggled(h, default), indent);
    pre, post := Texts(Before(cfg, f, i, [], indent)), Texts(After(cfg, f, i, [], indent));
  }

  /** `ToggleSplice` one level up from the folder's parent. */
  lemma NestedCase(cfg: Config, f: Folder, addr: seq<nat>, default: bool, indent: nat, p: seq<string>, q: seq<string>)
    returns (pre: seq<string>, post: seq<string>)
    requires |addr| > 1 && addr[0] < |f.folders| && IsOpen(f.folders[addr[0]].open)
    requires ValidAddress(f.folders[addr[0]], addr[1..])
    requires StructureTexts(cfg, f.folders[addr[0]], indent + 1)
             == p + BlockTexts(cfg, FolderAt(f.folders[addr[0]], addr[1..]), indent + 1 + |addr[1..]| - 1) + q
    requires StructureTexts(cfg, ToggleAt(f.folders[addr[0]], addr[1..], default), indent + 1)
             == p + BlockTexts(cfg, Toggled(FolderAt(f.folders[addr[0]], addr[1..]), default), indent + 1 + |addr[1..]| - 1) + q
    ensures ValidAddress(f, addr)
    ensures StructureTexts(cfg, f, indent)
            == pre + BlockTexts(cfg, FolderAt(f, addr), indent + |addr| - 1) + post
    ensures StructureTexts(cfg, ToggleAt(f, addr, default), indent)
            == pre + BlockTexts(cfg, Toggled(FolderAt(f, addr), default), indent + |addr| - 1) + post
    ensures |pre| == |Before(cfg, f, addr[0], [], indent)| + 1 + |p|
  {
    var i := addr[0];
    var rest := addr[1..];
    var h := f.folders[i];
    var h' := ToggleAt(h, rest, default);
    var b := BlockTexts(cfg, FolderAt(h, rest), indent + 1 + |rest| - 1);
    var b' := BlockTexts(cfg, Toggled(FolderAt(h, rest), default), indent + 1 + |rest| - 1);
    assert ToggleAt(f, addr, default) == f.(folders := f.folders[i := h']);
    pre, post := NestedSplice(cfg, f, i, h', p, q, b, b', indent);
    assert BlockTexts(cfg, FolderAt(f, addr), indent + |addr| - 1) == b;
    assert BlockTexts(cfg, Toggled(FolderAt(f, addr), default), indent + |addr| - 1) == b';
  }

  /** A block spliced into the listing of the open sub-folder `i` of `f` is
      spliced into `f`'s listing, after the lines before that sub-folder
      and its own line. */
  lemma NestedSplice(cfg: Config, f: Folder, i: nat, h': Folder, p: seq<string>, q: seq<string>,
                     b: seq<string>, b': seq<string>, indent: nat)
    returns (pre: seq<string>, post: seq<string>)
    requires i < |f.folders| && IsOpen(f.folders[i].open)
    requires h'.open == f.folders[i].open && h'.name == f.folders[i].name
    requires StructureTexts(cfg, f.folders[i], indent + 1) == p + b + q
    requires StructureTexts(cfg, h', indent + 1) == p + b' + q
    ensures StructureTexts(cfg, f, indent) == pre + b + post
    ensures StructureTexts(cfg, f.(folders := f.folders[i := h']), indent) == pre + b' + post
    ensures |pre| == |Before(cfg, f, i, [], indent)| + 1 + |p|
  {
    var h := f.folders[i];
    TopSplice(cfg, f, i, h', indent);
    var x := Texts(Before(cfg, f, i, [], indent));
    var y := Texts(After(cfg, f, i, [], indent));
    OpenBlockTexts(cfg, h, indent);
    OpenBlockTexts(cfg, h', indent);
    var l := [FolderLabel(cfg, h, indent)];
    assert [FolderLabel(cfg, h', indent)] == l;
    Regroup(StructureTexts(cfg, f, indent), x, BlockTexts(cfg, h, indent), y, l, StructureTexts(cfg, h, indent + 1), p, b, q);
    Regroup(StructureTexts(cfg, f.(folders := f.folders[i := h']), indent), x, BlockTexts(cfg, h', indent), y,
            l, StructureTexts(cfg, h', indent + 1), p, b', q);
    pre, post := x + l + p, q + y;
  }

  /** Toggling a drawn folder changes the listing only inside that folder's
      block, which starts at line `Offset`: the lines before it are the same,
      the lines after it are the same, and the block is redrawn from the
      folder with its flag toggled (one line when closed, its line and then
      its subtree when open). */
  lemma ToggleRedrawsOnlyItsBlock(cfg: Config, f: Folder, addr: seq<nat>, default: bool, indent: nat)
    requires Shown(f, addr)
    ensures ValidAddress(f, addr)
    ensures Spliced(StructureTexts(cfg, f, indent), StructureTexts(cfg, ToggleAt(f, addr, default), indent),
                    BlockTexts(cfg, FolderAt(f, addr), indent + |addr| - 1),
                    BlockTexts(cfg, Toggled(FolderAt(f, addr), default), indent + |addr| - 1),
                    Offset(cfg, f, addr, indent))
  {
    var pre, post := ToggleSplice(cfg, f, addr, default, indent);
    SplicedConcat(pre, BlockTexts(cfg, FolderAt(f, addr), indent + |addr| - 1),
                  BlockTexts(cfg, Toggled(FolderAt(f, addr), default), indent + |addr| - 1), post);
  }

  /** Toggling a folder that is not drawn (some folder above it is closed)
      leaves every line's text unchanged. */
  lemma {:induction false} ToggleHiddenKeepsTexts(cfg: Config, f: Folder, addr: seq<nat>, default: bool, pos: Path, indent: nat)
    requires ValidAddress(f, addr) && |addr| >= 1 && !Shown(f, addr)
    ensures Texts(Structure(cfg, ToggleAt(f, addr, default), pos, indent)) == Texts(Structure(cfg, f, pos, indent))
    decreases |addr|
  {
    var i := addr[0];
    var rest := addr[1..];
    var h := f.folders[i];
    var h' := ToggleAt(h, rest, default);
    assert |rest| >= 1;
    assert ToggleAt(f, addr, default) == f.(folders := f.folders[i := h']);
    if IsOpen(h.open) {
      ToggleHiddenKeepsTexts(cfg, h, rest, default, pos + [Elem(i, FolderNode(h))], indent + 1);
    }
    SameBlockTexts(cfg, h, h', i, pos, indent);
    SameStructureTexts(cfg, f, i, h', pos, indent);
  }

  /** A folder with the same name and flag whose subtree, when drawn, has
      the same texts draws a block with the same texts. */
  lemma SameBlockTexts(cfg: Config, h: Folder, h': Folder, i: nat, pos: Path, indent: nat)
    requires h'.open == h.open && h'.name == h.name
    requires IsOpen(h.open) ==>
      Texts(Structure(cfg, h', pos + [Elem(i, FolderNode(h))], indent + 1))
      == Texts(Structure(cfg, h, pos + [Elem(i, FolderNode(h))], indent + 1))
    ensures Texts(FolderBlock(cfg, h', i, pos, indent)) == Texts(FolderBlock(cfg, h, i, pos, indent))
  {
    var p := pos + [Elem(i, FolderNode(h))];
    var p' := pos + [Elem(i, FolderNode(h'))];
    assert FolderLabel(cfg, h', indent) == FolderLabel(cfg, h, indent);
    if IsOpen(h.open) {
      StructureTextsIgnorePos(cfg, h', p', p, indent + 1);
      TextsConcat([Entry(FolderLabel(cfg, h, indent), p)], Structure(cfg, h, p, indent + 1));
      TextsConcat([Entry(FolderLabel(cfg, h, indent), p')], Structure(cfg, h', p', indent + 1));
    }
  }

  /** Replacing a sub-folder by one whose block has the same texts keeps
      the texts of the listing. */
  lemma SameStructureTexts(cfg: Config, f: Folder, i: nat, h': Folder, pos: Path, indent: nat)
    requires i < |f.folders|
    requires Texts(FolderBlock(cfg, h', i, pos, indent)) == Texts(FolderBlock(cfg, f.folders[i], i, pos, indent))
    ensures Texts(Structure(cfg, f.(folders := f.folders[i := h']), pos, indent)) == Texts(Structure(cfg, f, pos, indent))
  {
    ReplaceSubfolder(cfg, f, i, h', pos, indent);
    Texts3(Before(cfg, f, i, pos, indent), FolderBlock(cfg, f.folders[i], i, pos, indent), After(cfg, f, i, pos, indent));
    Texts3(Before(cfg, f, i, pos, indent), FolderBlock(cfg, h', i, pos, indent), After(cfg, f, i, pos, indent));
  }

  // ---------------------------------------------------------------------
  // Order and size of the listing.
  // ---------------------------------------------------------------------

  /** The order of the kinds of line under one folder: sub-folders, then
      documents, then the file-references header, then file references. */
  function Kind(n: Node): nat {
    match n
    case FolderNode(_) => 0
    case DocNode(_) => 1
    case Marker(_) => 2
    case FileRefNode(_) => 3
    case ProjectNode(_) => 4
  }

  /** `a` is listed no later than `b` under the same folder. */
  predicate KeyLe(a: Elem, b: Elem) {
    Kind(a.node) < Kind(b.node) || (Kind(a.node) == Kind(b.node) && a.slot <= b.slot)
  }

  /** The element under folder `pos` that line `e` belongs to. */
  function Top(e: Line, pos: Path): Elem
    requires |pos| < |e.path|
  {
    e.path[|pos|]
  }

  /** Every line of a sub-listing starts with the sub-listing's prefix. */
  lemma StructureUnder(cfg: Config, f: Folder, pos: Path, indent: nat, e: Line)
    requires e in Structure(cfg, f, pos, indent)
    ensures |pos| < |e.path| && e.path[..|pos|] == pos
  {
    StructureAttached(cfg, f, pos, indent);
  }

  /** The lines of one sub-folder's block all belong to that sub-folder. */
  lemma FolderBlockTop(cfg: Config, g: Folder, slot: nat, pos: Path, indent: nat)
    ensures forall e | e in FolderBlock(cfg, g, slot, pos, indent) ::
              |pos| < |e.path| && Top(e, pos) == Elem(slot, FolderNode(g))
  {
    var head := Elem(slot, FolderNode(g));
    var p := pos + [head];
    var first := Entry(FolderLabel(cfg, g, indent), p);
    assert p[|pos|] == head;
    if IsOpen(g.open) {
      var sub := Structure(cfg, g, p, indent + 1);
      forall e | e in sub
        ensures |pos| < |e.path| && e.path[|pos|] == head
      {
        SubLineTop(cfg, g, head, pos, indent, e);
      }
      assert FolderBlock(cfg, g, slot, pos, indent) == [first] + sub;
    } else {
      assert FolderBlock(cfg, g, slot, pos, indent) == [first];
    }
  }

  /** A line of a sub-folder's subtree starts with the sub-folder's element. */
  lemma SubLineTop(cfg: Config, g: Folder, head: Elem, pos: Path, indent: nat, e: Line)
    requires e in Structure(cfg, g, pos + [head], indent + 1)
    ensures |pos| < |e.path| && e.path[|pos|] == head
  {
    var p := pos + [head];
    StructureUnder(cfg, g, p, indent + 1, e);
    assert e.path[|pos|] == e.path[..|p|][|pos|] == p[|pos|];
  }

  /** The sub-folder blocks from `k` on belong to sub-folders `k..`, in
      order. */
  lemma {:induction false} FolderEntriesOrdered(cfg: Config, f: Folder, k: nat, pos: Path, indent: nat)
    requires k <= |f.folders|
    ensures forall e | e in FolderEntries(cfg, f, k, pos, indent) ::
              |pos| < |e.path| && Top(e, pos).node.FolderNode? && k <= Top(e, pos).slot
    ensures forall i, j :: 0 <= i < j < |FolderEntries(cfg, f, k, pos, indent)| ==>
              Top(FolderEntries(cfg, f, k, pos, indent)[i], pos).slot <= Top(FolderEntries(cfg, f, k, pos, indent)[j], pos).slot
    decreases |f.folders| - k
  {
    if k < |f.folders| {
      var b := FolderBlock(cfg, f.folders[k], k, pos, indent);
      var t := FolderEntries(cfg, f, k + 1, pos, indent);
      FolderBlockTop(cfg, f.folders[k], k, pos, indent);
      FolderEntriesOrdered(cfg, f, k + 1, pos, indent);
      var s := b + t;
      assert s == FolderEntries(cfg, f, k, pos, indent);
      forall e | e in s
        ensures |pos| < |e.path| && Top(e, pos).node.FolderNode? && k <= Top(e, pos).slot
      {
        if e !in b { assert e in t; }
      }
      forall i, j | 0 <= i < j < |s|
        ensures Top(s[i], pos).slot <= Top(s[j], pos).slot
      {
        if j < |b| {
          assert s[i] == b[i] && b[i] in b;
          assert s[j] == b[j] && b[j] in b;
        } else if i < |b| {
          assert s[i] == b[i] && b[i] in b;
          assert s[j] == t[j - |b|] && t[j - |b|] in t;
        } else {
          assert s[i] == t[i - |b|] && s[j] == t[j - |b|];
        }
      }
    }
  }

  /** Every line of `s` lies under `pos`, and the elements directly under
      `pos` that the lines belong to never go back in the listing order. */
  predicate OrderedUnder(s: seq<Line>, pos: Path) {
    && (forall i :: 0 <= i < |s| ==> |pos| < |s[i].path|)
    && (forall i, j :: 0 <= i < j < |s| ==> KeyLe(Top(s[i], pos), Top(s[j], pos)))
  }

  /** Every line of `s` belongs to an element under `pos` of a kind from
      `lo` to `hi`. */
  predicate KindsWithin(s: seq<Line>, pos: Path, lo: nat, hi: nat) {
    forall i :: 0 <= i < |s| ==> |pos| < |s[i].path| && lo <= Kind(Top(s[i], pos).node) <= hi
  }

  /** Two ordered runs of lines whose kinds do not overlap, the lower kinds
      first, make one ordered run. */
  lemma OrderedConcat(x: seq<Line>, y: seq<Line>, pos: Path, m: nat)
    requires OrderedUnder(x, pos) && OrderedUnder(y, pos)
    requires KindsWithin(x, pos, 0, m) && KindsWithin(y, pos, m + 1, 4)
    ensures OrderedUnder(x + y, pos)
    ensures KindsWithin(x + y, pos, 0, 4)
  {
    var s := x + y;
    forall i | 0 <= i < |s|
      ensures |pos| < |s[i].path| && Kind(Top(s[i], pos).node) <= 4
    {
      if i >= |x| { assert s[i] == y[i - |x|]; }
    }
    forall i, j | 0 <= i < j < |s|
      ensures KeyLe(Top(s[i], pos), Top(s[j], pos))
    {
      if j < |x| {
        assert s[i] == x[i] && s[j] == x[j];
      } else if i < |x| {
        assert s[i] == x[i] && s[j] == y[j - |x|];
      } else {
        assert s[i] == y[i - |x|] && s[j] == y[j - |x|];
      }
    }
  }

  /** The sub-folder blocks, ordered by slot and all of kind 0. */
  lemma FolderEntriesKinds(cfg: Config, f: Folder, pos: Path, indent: nat)
    ensures OrderedUnder(FolderEntries(cfg, f, 0, pos, indent), pos)
    ensures KindsWithin(FolderEntries(cfg, f, 0, pos, indent), pos, 0, 0)
  {
    var a := FolderEntries(cfg, f, 0, pos, indent);
    FolderEntriesOrdered(cfg, f, 0, pos, indent);
    forall i | 0 <= i < |a|
      ensures |pos| < |a[i].path| && Kind(Top(a[i], pos).node) == 0
    {
      assert a[i] in a;
    }
  }

  /** The document lines, ordered by slot and all of kind 1. */
  lemma DocEntriesKinds(f: Folder, pos: Path, indent: nat)
    ensures OrderedUnder(DocEntries(f, pos, indent), pos)
    ensures KindsWithin(DocEntries(f, pos, indent), pos, 1, 1)
  {
    var d := DocEntries(f, pos, indent);
    assert forall i :: 0 <= i < |d| ==> |pos| < |d[i].path| && Top(d[i], pos) == Elem(i, DocNode(f.docs[i]));
  }

  /** The file-reference header, then the file references by slot. */
  lemma FileRefEntriesKinds(f: Folder, pos: Path)
    ensures OrderedUnder(FileRefEntries(f, pos), pos)
    ensures KindsWithin(FileRefEntries(f, pos), pos, 2, 4)
  {
    var r := FileRefEntries(f, pos);
    assert forall i :: 1 <= i < |r| ==> |pos| < |r[i].path| && Top(r[i], pos) == Elem(i - 1, FileRefNode(f.fileRefs[i - 1]));
    assert |r| > 0 ==> |pos| < |r[0].path| && Top(r[0], pos) == FileRefsMarker;
  }

  /** `listProjectStructure` lists the sub-folders (each with its subtree)
      in order, then the documents in order, then the file-references
      header and the file references in order: the elements the lines
      belong to never go back in that order. */
  lemma StructureOrdered(cfg: Config, f: Folder, pos: Path, indent: nat)
    ensures OrderedUnder(Structure(cfg, f, pos, indent), pos)
  {
    var a := FolderEntries(cfg, f, 0, pos, indent);
    var d := DocEntries(f, pos, indent);
    var r := FileRefEntries(f, pos);
    FolderEntriesKinds(cfg, f, pos, indent);
    DocEntriesKinds(f, pos, indent);
    FileRefEntriesKinds(f, pos);
    OrderedConcat(a, d, pos, 0);
    assert KindsWithin(a + d, pos, 0, 1);
    OrderedConcat(a + d, r, pos, 1);
  }

  /** The number of lines a folder's structure takes, counted over the tree:
      one per sub-folder plus the lines of the open ones, one per document,
      and, when there are file references, one for the header and one each. */
  function LineCount(f: Folder): nat
    decreases f, 1
  {
    FoldersLineCount(f, 0) + |f.docs| + (if |f.fileRefs| == 0 then 0 else 1 + |f.fileRefs|)
  }

  function FoldersLineCount(f: Folder, k: nat): nat
    requires k <= |f.folders|
    decreases f, 0, |f.folders| - k
  {
    if k == |f.folders| then 0
    else
      var g := f.folders[k];
      1 + (if IsOpen(g.open) then LineCount(g) else 0) + FoldersLineCount(f, k + 1)
  }

  lemma {:induction false} StructureCount(cfg: Config, f: Folder, pos: Path, indent: nat)
    ensures |Structure(cfg, f, pos, indent)| == LineCount(f)
    decreases f, 1
  {
    FolderEntriesCount(cfg, f, 0, pos, indent);
  }

  lemma {:induction false} FolderEntriesCount(cfg: Config, f: Folder, k: nat, pos: Path, indent: nat)
    requires k <= |f.folders|
    ensures |FolderEntries(cfg, f, k, pos, indent)| == FoldersLineCount(f, k)
    decreases f, 0, |f.folders| - k
  {
    if k < |f.folders| {
      var g := f.folders[k];
      if IsOpen(g.open) {
        StructureCount(cfg, g, pos + [Elem(k, FolderNode(g))], indent + 1);
      }
      FolderEntriesCount(cfg, f, k + 1, pos, indent);
    }
  }

  /** A closed folder (`open` absent or false) takes exactly one line; an
      open one takes its own line and its subtree's lines, drawn right below
      it one level deeper. */
  lemma Disclosure(cfg: Config, g: Folder, slot: nat, pos: Path, indent: nat)
    ensures var p := pos + [Elem(slot, FolderNode(g))];
      var blk := FolderBlock(cfg, g, slot, pos, indent);
      && blk[0] == Entry(FolderLabel(cfg, g, indent), p)
      && (!IsOpen(g.open) ==> |blk| == 1)
      && (IsOpen(g.open) ==> blk[1..] == Structure(cfg, g, p, indent + 1) && |blk| == 1 + LineCount(g))
  {
    StructureCount(cfg, g, pos + [Elem(slot, FolderNode(g))], indent + 1);
  }
}
