/** `listProjects` (sidebar.py): the whole sidebar, a four-line header, one
    block per project, and a five-line footer, written through `bufferappend`
    over the previous buffer contents, with the leftovers deleted. */
module SidebarRender {
  import opened PyStr
  import opened Buffer
  import opened SidebarTree
  import opened SidebarStructure

  /** What the plugin's session supplies: the project list (which may be
      `None`) and the status text. */
  datatype Session = Session(projectList: Option<seq<Project>>, status: string)

  /** The path the status line carries. */
  const StatusMarker: Elem := Elem(0, Marker("status"))

  /** The path the last-update line carries. */
  const LastUpdateMarker: Elem := Elem(0, Marker("lastupdate"))

  /** The projects listed: none without a session or when the session's
      list is `None`. */
  function Projects(session: Option<Session>): seq<Project> {
    match session
    case None => []
    case Some(s) => s.projectList.GetOr([])
  }

  function StatusText(session: Option<Session>): string {
    match session
    case None => "Starting Session"
    case Some(s) => s.status
  }

  /** The header; `counter` is the refresh counter shown after the title. */
  function Header(counter: nat): seq<Line> {
    [Entry("  ", []), Entry(" AirLatex" + Decimal(counter), []), Entry(" ========", []), Entry("  ", [])]
  }

  function Footer(status: string, lastUpdate: string): seq<Line> {
    [ Entry("  ", []), Entry("  ", []), Entry("  ", [])
    , Entry(" Status      : " + status, [StatusMarker])
    , Entry(" Last Update : " + lastUpdate, [LastUpdateMarker]) ]
  }

  /** The path of project number `slot`'s own line. */
  function ProjectPath(p: Project, slot: nat): Path {
    [Elem(slot, ProjectNode(p))]
  }

  /** The project's own line and, when it is open, its root folder's
      structure. */
  function ProjectHead(cfg: Config, p: Project, slot: nat): seq<Line> {
    [Entry(" " + Symbol(cfg, p.open) + " " + p.name, ProjectPath(p, slot))]
    + (if IsOpen(p.open) then Structure(cfg, p.root, ProjectPath(p, slot), 0) else [])
  }

  function PersonName(u: Person): string {
    u.firstName + " " + u.lastName
  }

  /** The detail lines shown under the project the cursor is on. */
  function Details(p: Project): seq<Line> {
    (if IsOpen(p.open) then [Entry("   -----------------", [])] else [])
    + (if p.msg.Some? then [Entry("   msg: " + p.msg.value, [])] else [])
    + [ Entry("   source: " + p.source, [])
      , Entry("   owner: " + PersonName(p.owner), [])
      , Entry("   last change: " + p.lastUpdated, []) ]
    + (if p.lastUpdatedBy.Some? then [Entry("    -> by: " + PersonName(p.lastUpdatedBy.value), [])] else [])
  }

  /** Project `slot`'s block, written after `acc`: the details follow when
      `cursorAt([project])` holds against the path captured so far. */
  function ProjectBlock(cfg: Config, acc: seq<Line>, p: Project, slot: nat, row: int): seq<Line> {
    var head := ProjectHead(cfg, p, slot);
    head + (if CursorAt(ProjectPath(p, slot), Captured(acc + head, row, [])) then Details(p) else [])
  }

  /** Everything written once the blocks of projects `k..` follow `acc`. */
  function Blocks(cfg: Config, acc: seq<Line>, ps: seq<Project>, k: nat, row: int): (r: seq<Line>)
    requires k <= |ps|
    ensures acc <= r
    decreases |ps| - k
  {
    if k == |ps| then acc else Blocks(cfg, acc + ProjectBlock(cfg, acc, ps[k], k, row), ps, k + 1, row)
  }

  /** The full sidebar, top to bottom, for cursor row `row`. */
  function Listing(cfg: Config, ps: seq<Project>, counter: nat, status: string, lastUpdate: string, row: int): seq<Line> {
    Blocks(cfg, Header(counter), ps, 0, row) + Footer(status, lastUpdate)
  }

  /** `listProjects(overwrite)` with the cursor on row `row`: the buffer
      afterwards (`screen` before), the captured cursor path, the next value
      of the refresh counter and the cursor row afterwards. The `strftime`
      text of the last update is passed in. */
  method ListProjects(cfg: Config, screen: seq<string>, session: Option<Session>, counter: nat,
                      lastUpdate: string, row: int, overwrite: bool)
      returns (lines: seq<string>, cursorPos: Path, nextCounter: nat, nextRow: int)
    ensures var l := Listing(cfg, Projects(session), counter, StatusText(session), lastUpdate, row);
      && lines == Texts(l)
      && cursorPos == Captured(l, row, [])
    ensures nextCounter == counter + 1
    ensures nextRow == if overwrite then row else 5
  {
    var projectList: Option<seq<Project>>;
    var status: string;
    if session.Some? {
      projectList := session.value.projectList;
      status := session.value.status;
    } else {
      projectList := Some([]);
      status := "Starting Session";
    }
    var b := Buffer(screen, 0, []);
    ghost var b0 := b;
    b := WriteRun(b, Header(counter), row);
    ghost var acc: seq<Line> := Header(counter);
    nextCounter := counter + 1;
    var ps := projectList.GetOr([]);
    var k := 0;
    while k < |ps|
      invariant k <= |ps|
      invariant b == WriteAll(b0, acc, row)
      invariant Blocks(cfg, acc, ps, k, row) == Blocks(cfg, Header(counter), ps, 0, row)
    {
      b := WriteProject(cfg, b, b0, acc, ps[k], k, row);
      acc := acc + ProjectBlock(cfg, acc, ps[k], k, row);
      k := k + 1;
    }
    b := WriteRun(b, Footer(status, lastUpdate), row);
    WriteAllConcat(b0, acc, Footer(status, lastUpdate), row);
    ghost var all := acc + Footer(status, lastUpdate);
    nextRow := if overwrite then row else 5;
    WriteAllHolds(b0, screen, [], all, row, []);
    assert [] + all == all;
    TruncateHolds(b, screen, all, row, []);
    lines := b.lines[..b.writeIndex];
    cursorPos := b.cursorPos;
  }

  /** Writing from the top of a buffer whose captured path was reset
      captures the path of the entry on the cursor row. */
  lemma CapturedFromTop(b0: Buffer<Path>, es: seq<Line>, row: int)
    requires b0.cursorPos == [] && b0.writeIndex == 0
    ensures WriteAll(b0, es, row).cursorPos == Captured(es, row, [])
  {
    WriteAllHolds(b0, b0.lines, [], es, row, []);
    assert [] + es == es;
  }

  /** The project's own line of `listProjects`, then its structure when it
      is open. */
  method WriteHead(cfg: Config, b: Buffer<Path>, p: Project, k: nat, row: int) returns (r: Buffer<Path>)
    ensures r == WriteAll(b, ProjectHead(cfg, p, k), row)
  {
    var pos := [Elem(k, ProjectNode(p))];
    ghost var head := ProjectHead(cfg, p, k);
    if IsOpen(p.open) {
      r := Append(b, " " + cfg.symbolOpen + " " + p.name, pos, row);
      assert r == WriteAll(b, [head[0]], row);
      r := ListProjectStructure(cfg, r, p.root, pos, 0, row);
      WriteAllConcat(b, [head[0]], Structure(cfg, p.root, pos, 0), row);
      assert [head[0]] + Structure(cfg, p.root, pos, 0) == head;
    } else {
      r := Append(b, " " + cfg.symbolClosed + " " + p.name, pos, row);
      assert r == WriteAll(b, head, row);
    }
  }

  /** One pass of the project loop of `listProjects`: the head, then the
      details when the cursor is on the project. */
  method WriteProject(cfg: Config, b: Buffer<Path>, ghost b0: Buffer<Path>, ghost acc: seq<Line>, p: Project, k: nat, row: int)
      returns (r: Buffer<Path>)
    requires b0.cursorPos == [] && b0.writeIndex == 0
    requires b == WriteAll(b0, acc, row)
    ensures r == WriteAll(b0, acc + ProjectBlock(cfg, acc, p, k, row), row)
  {
    r := WriteHead(cfg, b, p, k, row);
    ghost var head := ProjectHead(cfg, p, k);
    WriteAllConcat(b0, acc, head, row);
    BlockAfterHead(cfg, b0, acc, p, k, row);
    if CursorAt([Elem(k, ProjectNode(p))], r.cursorPos) {
      r := WriteRun(r, Details(p), row);
      WriteAllConcat(b, head, Details(p), row);
    } else {
      assert head + [] == head;
    }
    WriteAllConcat(b0, acc, ProjectBlock(cfg, acc, p, k, row), row);
  }

  /** Whether the details follow is decided by the path the head captured. */
  lemma BlockAfterHead(cfg: Config, b0: Buffer<Path>, acc: seq<Line>, p: Project, k: nat, row: int)
    requires b0.cursorPos == [] && b0.writeIndex == 0
    ensures var head := ProjectHead(cfg, p, k);
      ProjectBlock(cfg, acc, p, k, row)
      == head + (if CursorAt([Elem(k, ProjectNode(p))], WriteAll(b0, acc + head, row).cursorPos) then Details(p) else [])
  {
    CapturedFromTop(b0, acc + ProjectHead(cfg, p, k), row);
  }

  // ---------------------------------------------------------------------
  // Properties of the listing.
  // ---------------------------------------------------------------------

  /** The listing starts with the four header lines and ends with the five
      footer lines, with the project blocks in between. */
  lemma ListingShape(cfg: Config, ps: seq<Project>, counter: nat, status: string, lastUpdate: string, row: int)
    ensures var l := Listing(cfg, ps, counter, status, lastUpdate, row);
      && |l| >= 9
      && l[..4] == Header(counter)
      && l[|l| - 5..] == Footer(status, lastUpdate)
  {
    var blocks := Blocks(cfg, Header(counter), ps, 0, row);
    assert Header(counter) <= blocks;
    var l := blocks + Footer(status, lastUpdate);
    assert l[..4] == blocks[..4];
  }

  /** Every line of a project's head block is on the project's path. */
  lemma HeadOnProject(cfg: Config, p: Project, slot: nat, e: Line)
    requires e in ProjectHead(cfg, p, slot)
    ensures |e.path| >= 1 && e.path[0] == Elem(slot, ProjectNode(p))
  {
    if e != ProjectHead(cfg, p, slot)[0] {
      StructureUnder(cfg, p.root, ProjectPath(p, slot), 0, e);
      assert e.path[0] == e.path[..1][0];
    }
  }

  /** The details of a project are drawn exactly when the cursor row is on
      the project's own line or inside its structure, or on an earlier line
      whose path starts at a project equal to it by value (`cursorAt`
      compares by value). Otherwise the block is the head alone. */
  lemma DetailsShownIff(cfg: Config, acc: seq<Line>, p: Project, slot: nat, row: int)
    ensures var head := ProjectHead(cfg, p, slot);
      var onHead := |acc| < row <= |acc| + |head|;
      var onEqual := 1 <= row <= |acc| && |acc[row - 1].path| >= 1 && acc[row - 1].path[0].node == ProjectNode(p);
      && (ProjectBlock(cfg, acc, p, slot, row) == head + Details(p) <==> onHead || onEqual)
      && (!(onHead || onEqual) ==> ProjectBlock(cfg, acc, p, slot, row) == head)
  {
    var head := ProjectHead(cfg, p, slot);
    var all := acc + head;
    var c := Captured(all, row, []);
    assert |Details(p)| >= 3;
    if |acc| < row <= |all| {
      assert all[row - 1] == head[row - 1 - |acc|] && head[row - 1 - |acc|] in head;
      HeadOnProject(cfg, p, slot, all[row - 1]);
      assert CursorAt(ProjectPath(p, slot), c);
    } else if 1 <= row <= |acc| {
      assert all[row - 1] == acc[row - 1];
    }
  }

  /** A path of the listing leads to what its line shows: nothing (the
      header, blank and detail lines), the status or last-update marker, or
      project `slot` of the list by value and, below it, a chain of drawn
      nodes of its root folder. */
  ghost predicate Resolves(ps: seq<Project>, q: Path) {
    || q == []
    || q == [StatusMarker]
    || q == [LastUpdateMarker]
    || (&& q[0].slot < |ps|
        && q[0].node == ProjectNode(ps[q[0].slot])
        && (|q| == 1 || (IsOpen(ps[q[0].slot].open) && Chain(ps[q[0].slot].root, q[1..]))))
  }

  lemma BlockResolves(cfg: Config, acc: seq<Line>, ps: seq<Project>, k: nat, row: int, e: Line)
    requires k < |ps|
    requires e in ProjectBlock(cfg, acc, ps[k], k, row)
    ensures Resolves(ps, e.path)
  {
    var head := ProjectHead(cfg, ps[k], k);
    if e in head {
      HeadResolves(cfg, ps, k, e);
    } else {
      assert e in Details(ps[k]);
    }
  }

  /** The project's own line and the lines of its structure resolve. */
  lemma HeadResolves(cfg: Config, ps: seq<Project>, k: nat, e: Line)
    requires k < |ps| && e in ProjectHead(cfg, ps[k], k)
    ensures Resolves(ps, e.path)
  {
    var p := ps[k];
    var q := ProjectPath(p, k);
    if e != ProjectHead(cfg, p, k)[0] {
      assert IsOpen(p.open) && e in Structure(cfg, p.root, q, 0);
      StructureAttached(cfg, p.root, q, 0);
      assert AttachedUnder(cfg, p.root, q, 0, e);
      assert e.path[0] == e.path[..1][0] == q[0];
    }
  }

  lemma {:induction false} BlocksResolve(cfg: Config, acc: seq<Line>, ps: seq<Project>, k: nat, row: int)
    requires k <= |ps|
    requires forall e | e in acc :: Resolves(ps, e.path)
    ensures forall e | e in Blocks(cfg, acc, ps, k, row) :: Resolves(ps, e.path)
    decreases |ps| - k
  {
    if k < |ps| {
      var blk := ProjectBlock(cfg, acc, ps[k], k, row);
      forall e | e in acc + blk
        ensures Resolves(ps, e.path)
      {
        if e !in acc {
          BlockResolves(cfg, acc, ps, k, row, e);
        }
      }
      BlocksResolve(cfg, acc + blk, ps, k + 1, row);
    }
  }

  /** Every line of the sidebar carries a path that resolves in the project
      list: the cursor path `listProjects` captures always names what the
      cursor's line shows. */
  lemma ListingResolves(cfg: Config, ps: seq<Project>, counter: nat, status: string, lastUpdate: string, row: int)
    ensures forall e | e in Listing(cfg, ps, counter, status, lastUpdate, row) :: Resolves(ps, e.path)
  {
    BlocksResolve(cfg, Header(counter), ps, 0, row);
    var blocks := Blocks(cfg, Header(counter), ps, 0, row);
    forall e | e in blocks + Footer(status, lastUpdate)
      ensures Resolves(ps, e.path)
    {
      if e !in blocks {
        assert e in Footer(status, lastUpdate);
      }
    }
  }
}
