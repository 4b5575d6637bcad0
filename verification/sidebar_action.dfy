/** `cursorAction` and `_toggle` (sidebar.py): what pressing a key on a
    sidebar line does, given the cursor path the last listing captured. The
    remote calls it makes are recorded as events; the flags it flips are
    flipped in the project list the path points into. */
module SidebarAction {
  import opened PyStr
  import opened Buffer
  import opened SidebarTree
  import opened SidebarStructure
  import opened SidebarRender

  datatype Event =
    | Refresh                        // `triggerRefresh()`
    | Connect(target: Node)          // `session.connectProject(nvim, target)`
    | Disconnect(slot: nat)          // `project["handler"].disconnect()`
    | JoinDocument(path: Path)       // `handler.joinDocument(DocumentBuffer(path))`
    | ErrorMessage                   // an exception reported by `catchException`

  datatype Outcome = Outcome(projects: seq<Project>, events: seq<Event>)

  /** The slots along a path: the address of its last node. */
  function Slots(q: Path): (r: seq<nat>)
    ensures |r| == |q|
    ensures forall i :: 0 <= i < |q| ==> r[i] == q[i].slot
  {
    seq(|q|, i requires 0 <= i < |q| => q[i].slot)
  }

  /** `_toggle(project, "open", default)` on project `slot` of the list. */
  function ToggleProject(ps: seq<Project>, slot: nat, default: bool): (r: seq<Project>)
    ensures |r| == |ps|
    ensures forall j :: 0 <= j < |ps| && j != slot ==> r[j] == ps[j]
    ensures slot < |ps| ==> r[slot] == ps[slot].(open := Toggle(ps[slot].open, default))
  {
    if slot < |ps| then ps[slot := ps[slot].(open := Toggle(ps[slot].open, default))] else ps
  }

  /** `_toggle(folder, "open")` on the folder a path `[project, folder, ...,
      folder]` leads to. */
  function ToggleFolder(ps: seq<Project>, q: Path): (r: seq<Project>)
    requires |q| >= 1
    ensures |r| == |ps|
    ensures forall j :: 0 <= j < |ps| && j != q[0].slot ==> r[j] == ps[j]
    ensures q[0].slot < |ps| ==>
              r[q[0].slot] == ps[q[0].slot].(root := ToggleAt(ps[q[0].slot].root, Slots(q[1..]), true))
  {
    var k := q[0].slot;
    if k < |ps| then ps[k := ps[k].(root := ToggleAt(ps[k].root, Slots(q[1..]), true))] else ps
  }

  /** The project a path starts at has a `handler` key. */
  predicate Connected(n: Node) {
    n.ProjectNode? && n.project.handler.Some?
  }

  /** `cursorAction(key)`, with `leaveKey` the key the source compares
      against to disconnect. `session` is `airlatex.session`, which is
      `False` (`None` here) until a session has been built: connecting
      through it then raises an `AttributeError`. */
  function CursorActionWith(leaveKey: string, session: Option<Session>, ps: seq<Project>, cursorPos: Path,
                            key: string): (r: Outcome)
    ensures |cursorPos| == 0 ==> r == Outcome(ps, [])
    ensures |cursorPos| == 1 && !Connected(cursorPos[0].node) && session.Some? ==>
              r == Outcome(ps, [Connect(cursorPos[0].node)])
    ensures |cursorPos| == 1 && !Connected(cursorPos[0].node) && session.None? ==>
              r == Outcome(ps, [ErrorMessage])
    ensures |cursorPos| == 1 && Connected(cursorPos[0].node) ==>
              && (key == "enter" ==> r == Outcome(ToggleProject(ps, cursorPos[0].slot, false), [Refresh]))
              && (key != "enter" && key == leaveKey ==> r == Outcome(ps, [Disconnect(cursorPos[0].slot), Refresh]))
              && (key != "enter" && key != leaveKey ==> r == Outcome(ps, [Refresh]))
    ensures |cursorPos| >= 2 && (cursorPos[|cursorPos| - 1].node.Marker? || cursorPos[|cursorPos| - 1].node.FileRefNode?) ==>
              r == Outcome(ps, [])
    ensures |cursorPos| >= 2 && cursorPos[|cursorPos| - 1].node.FolderNode? ==>
              r == Outcome(ToggleFolder(ps, cursorPos), [Refresh])
    ensures |cursorPos| >= 2 && cursorPos[|cursorPos| - 1].node.DocNode? ==>
              && r.projects == ps
              && r.events == if Connected(cursorPos[0].node) then [JoinDocument(cursorPos)] else [ErrorMessage]
    ensures |cursorPos| >= 2 && cursorPos[|cursorPos| - 1].node.ProjectNode? ==> r == Outcome(ps, [ErrorMessage])
  {
    if |cursorPos| == 0 then Outcome(ps, [])
    else if |cursorPos| == 1 then
      var project := cursorPos[0];
      if Connected(project.node) then
        if key == "enter" then Outcome(ToggleProject(ps, project.slot, false), [Refresh])
        else if key == leaveKey then Outcome(ps, [Disconnect(project.slot), Refresh])
        else Outcome(ps, [Refresh])
      else if session.Some? then Outcome(ps, [Connect(project.node)])
      else Outcome(ps, [ErrorMessage])
    else
      match cursorPos[|cursorPos| - 1].node
      case Marker(_) => Outcome(ps, [])
      case FolderNode(_) => Outcome(ToggleFolder(ps, cursorPos), [Refresh])
      case DocNode(_) =>
        if Connected(cursorPos[0].node) then Outcome(ps, [JoinDocument(cursorPos)]) else Outcome(ps, [ErrorMessage])
      case FileRefNode(_) => Outcome(ps, [])
      case ProjectNode(_) => Outcome(ps, [ErrorMessage])
  }

  /** `cursorAction(key)` as written: it disconnects on the key `"d"`. */
  function CursorAction(session: Option<Session>, ps: seq<Project>, cursorPos: Path, key: string): Outcome {
    CursorActionWith("d", session, ps, cursorPos, key)
  }

  /** The `AirLatex_ProjectLeave` binding as written: `cursorAction("del")`. */
  function ProjectLeave(session: Option<Session>, ps: seq<Project>, cursorPos: Path): Outcome {
    CursorAction(session, ps, cursorPos, "del")
  }

  /** The leave binding with the key it passes and the key `cursorAction`
      checks agreeing. */
  function ProjectLeaveCorrected(session: Option<Session>, ps: seq<Project>, cursorPos: Path): Outcome {
    CursorActionWith("del", session, ps, cursorPos, "del")
  }

  /** As written, leaving never disconnects: on a connected project's line
      it only refreshes. */
  lemma ProjectLeaveNeverDisconnects(session: Option<Session>, ps: seq<Project>, cursorPos: Path)
    ensures forall s :: Disconnect(s) !in ProjectLeave(session, ps, cursorPos).events
    ensures |cursorPos| == 1 && Connected(cursorPos[0].node) ==>
              ProjectLeave(session, ps, cursorPos) == Outcome(ps, [Refresh])
  {
  }

  /** Corrected, leaving a connected project disconnects it and refreshes,
      and changes no flag. */
  lemma ProjectLeaveCorrectedDisconnects(session: Option<Session>, ps: seq<Project>, cursorPos: Path)
    requires |cursorPos| == 1 && Connected(cursorPos[0].node)
    ensures ProjectLeaveCorrected(session, ps, cursorPos) == Outcome(ps, [Disconnect(cursorPos[0].slot), Refresh])
  {
  }

  /** Enter on an empty path, on the file-references header or on a file
      reference does nothing. */
  lemma InertLines(session: Option<Session>, ps: seq<Project>, cursorPos: Path, key: string)
    requires |cursorPos| == 0
             || (|cursorPos| >= 2 && (cursorPos[|cursorPos| - 1].node.Marker? || cursorPos[|cursorPos| - 1].node.FileRefNode?))
    ensures CursorAction(session, ps, cursorPos, key) == Outcome(ps, [])
  {
  }

  /** The first enter on a connected project that has no `open` key sets it
      to false: the project stays closed. A second enter opens it. */
  lemma FirstEnterKeepsProjectClosed(session: Option<Session>, ps: seq<Project>, slot: nat)
    requires slot < |ps| && ps[slot].handler.Some? && ps[slot].open.None?
    ensures var r := CursorAction(session, ps, [Elem(slot, ProjectNode(ps[slot]))], "enter");
      && r.events == [Refresh]
      && r.projects[slot].open == Some(false)
      && !IsOpen(r.projects[slot].open)
      && IsOpen(CursorAction(session, r.projects, [Elem(slot, ProjectNode(r.projects[slot]))], "enter").projects[slot].open)
  {
  }

  /** A chain of folders through open folders is a drawn folder's address. */
  lemma {:induction false} FolderChainShown(f: Folder, q: Path)
    requires Chain(f, q) && q[|q| - 1].node.FolderNode?
    ensures Shown(f, Slots(q)) && ValidAddress(f, Slots(q))
    ensures FolderAt(f, Slots(q)) == q[|q| - 1].node.folder
    decreases |q|
  {
    if |q| > 1 {
      assert q[1..][|q[1..]| - 1] == q[|q| - 1];
      FolderChainShown(q[0].node.folder, q[1..]);
      assert Slots(q)[1..] == Slots(q[1..]);
    } else {
      assert Slots(q)[1..] == [];
    }
    ShownIsValid(f, Slots(q));
  }

  /** Enter on a folder line of the sidebar flips that folder's flag (an
      absent key becomes true) and nothing else: every other project is as
      it was, and in the folder's project the structure's lines change only
      inside the folder's block, which is redrawn from the toggled folder. */
  lemma EnterOnFolderLine(cfg: Config, session: Option<Session>, ps: seq<Project>, q: Path, key: string)
    requires Resolves(ps, q) && |q| >= 2 && q[|q| - 1].node.FolderNode?
    ensures var r := CursorAction(session, ps, q, key);
      var k := q[0].slot;
      var addr := Slots(q[1..]);
      && r.events == [Refresh]
      && |r.projects| == |ps|
      && (forall j :: 0 <= j < |ps| && j != k ==> r.projects[j] == ps[j])
      && k < |ps|
      && Shown(ps[k].root, addr)
      && ValidAddress(ps[k].root, addr)
      && FolderAt(ps[k].root, addr) == q[|q| - 1].node.folder
      && r.projects[k] == ps[k].(root := ToggleAt(ps[k].root, addr, true))
      && Spliced(
           StructureTexts(cfg, ps[k].root, 0),
           StructureTexts(cfg, r.projects[k].root, 0),
           BlockTexts(cfg, FolderAt(ps[k].root, addr), |addr| - 1),
           BlockTexts(cfg, Toggled(FolderAt(ps[k].root, addr), true), |addr| - 1),
           Offset(cfg, ps[k].root, addr, 0))
  {
    var k := q[0].slot;
    var root := ps[k].root;
    var addr := Slots(q[1..]);
    var r := CursorAction(session, ps, q, key);
    assert q[1..][|q[1..]| - 1] == q[|q| - 1];
    FolderChainShown(root, q[1..]);
    ToggleRedrawsOnlyItsBlock(cfg, root, addr, true, 0);
    assert r.projects[k].root == ToggleAt(root, addr, true);
    SplicedSubst(
      StructureTexts(cfg, root, 0), StructureTexts(cfg, ToggleAt(root, addr, true), 0),
      BlockTexts(cfg, FolderAt(root, addr), 0 + |addr| - 1),
      BlockTexts(cfg, Toggled(FolderAt(root, addr), true), 0 + |addr| - 1),
      Offset(cfg, root, addr, 0),
      StructureTexts(cfg, root, 0), StructureTexts(cfg, r.projects[k].root, 0),
      BlockTexts(cfg, FolderAt(root, addr), |addr| - 1),
      BlockTexts(cfg, Toggled(FolderAt(root, addr), true), |addr| - 1),
      Offset(cfg, root, addr, 0));
  }
}
