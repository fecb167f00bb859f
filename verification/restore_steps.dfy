/**
 One step of restoring a selection of a session's changes: if a change fits its turn,
 the step gives back what was there before the session and leaves everything else as it
 was; if it does not, the step fails.

 The invariant looks at each path through `View`: the node with the mode it will have
 once the directories that were created or widened on the way are finished with.
 */
module RestoreSteps {
  import opened Wrappers
  import opened FileTrees
  import opened Restoring
  import opened RestoreAgain

  /** A session changed `before` into `after`; `listed` are the paths to restore. */
  datatype Session = Session(snapshot: Snapshot, before: Tree, after: Tree, listed: set<Path>)

  /** Alike in existence, type, content, link target and mode. */
  predicate Similar(left: Option<Node>, right: Option<Node>) {
    match (left, right)
    case (None, None) => true
    case (Some(l), Some(r)) => l.kind == r.kind && l.mode == r.mode && (l.kind.Directory? || l.content == r.content)
    case _ => false
  }

  /** Not touched at all, but for the times of a directory. */
  predicate Intact(left: Option<Node>, right: Option<Node>) {
    left == right || (Similar(left, right) && left.Some? && left.value.kind.Directory?)
  }

  /** The snapshot holds what was there before the session. */
  ghost predicate Faithful(snapshot: Snapshot, before: Tree) {
    && (forall path :: path in snapshot.baseline <==> path in before)
    && (forall path :: path in before ==> FaithfulAt(snapshot, before, path))
  }

  predicate FaithfulAt(snapshot: Snapshot, before: Tree, path: Path)
    requires path in before
  {
    && path in snapshot.baseline && snapshot.baseline[path] == EntryOf(before[path])
    && (before[path].kind.File? || before[path].kind.Symlink? ==>
          path in snapshot.contents && snapshot.contents[path] == before[path].content)
    && (before[path].kind.Symlink? ==> before[path].mode == LINK_MODE)
  }

  /** Whatever the session changed below a listed path is listed too. */
  ghost predicate Recorded(s: Session) {
    && Rooted(s.before) && Rooted(s.after) && Faithful(s.snapshot, s.before)
    && forall path :: path in s.listed ==> Closed(s, path)
  }

  ghost predicate Closed(s: Session, path: Path) {
    forall below :: IsAbove(path, below) && below !in s.listed ==> Unchanged(s, below)
  }

  predicate Unchanged(s: Session, path: Path) {
    Similar(Get(s.before, path), Get(s.after, path))
  }

  /** A rename over the path or a new mode brings the old node back: the root directory
      itself is not restored, nor does a directory replace anything else or is replaced. */
  predicate Replaceable(s: Session, path: Path) {
    && (path == [] && path in s.before ==> !s.before[path].kind.Directory?)
    && (path in s.before && path in s.after ==>
          (s.before[path].kind.Directory? <==> s.after[path].kind.Directory?))
  }

  /** What a path has to be to be restored, whatever is restored before it. */
  ghost predicate Restorable(s: Session, path: Path) {
    && Reachable(s.after, path)
    && (path in s.before ==> !s.before[path].kind.Other?)
    && (Unchanged(s, path) || Replaceable(s, path))
  }

  /** Restoring such a path opens every directory above it for as long as the command runs. */
  predicate Rewritten(s: Session, path: Path) {
    path in s.before && !Unchanged(s, path)
  }

  /** A path can be restored once those in `held` were rewritten: what is only removed
      needs a directory that can be written, or that is held open for another path. */
  ghost predicate Fits(s: Session, held: set<Path>, path: Path) {
    && Restorable(s, path)
    && (path !in s.before && path in s.after && path != [] ==>
          Parent(path) in s.after &&
          (s.after[Parent(path)].mode.Usable() || exists other :: other in held && IsAbove(Parent(path), other)))
  }

  /** The list says what happened to this path. */
  predicate Accurate(s: Session, change: Change) {
    && change.path in s.listed
    && change.before == EntryAt(s.before, change.path)
    && change.after == EntryAt(s.after, change.path)
    && (change.kind.Created? <==> change.before.None?)
    && (change.before.Some? || change.after.Some?)
  }

  /** The mode a directory will end with. */
  function ViewMode(d: Disk, path: Path): Mode
    requires path in d.nodes
  {
    if path in d.finalized then d.nodes[path].mode
    else if path in d.created then d.created[path].mode
    else if path in d.temporary then d.temporary[path].mode
    else d.nodes[path].mode
  }

  function View(d: Disk, path: Path): Option<Node> {
    if path in d.nodes then Some(d.nodes[path].(mode := ViewMode(d, path))) else None
  }

  /** A missing directory above a listed path has to come back with it. */
  ghost predicate Needed(s: Session, path: Path) {
    path !in s.after && exists listed :: listed in s.listed && listed in s.before && Within(listed, path)
  }

  ghost predicate Settled(s: Session, d: Disk, pending: set<Path>, path: Path) {
    if path in d.created then
      && Needed(s, path)
      && path in s.before && s.before[path].kind.Directory?
      && path in d.nodes && d.nodes[path].kind.Directory?
      && d.created[path] == EntryOf(s.before[path])
      && Similar(View(d, path), Get(s.before, path))
    else if path in pending || path !in s.listed then Intact(View(d, path), Get(s.after, path))
    else Similar(View(d, path), Get(s.before, path))
  }

  /** A directory in hand is usable; a widened one is remembered as it was. */
  predicate InHand(s: Session, d: Disk, path: Path) {
    && (path in d.temporary ==>
          && path in d.nodes && d.nodes[path].kind.Directory? && path in s.before
          && d.temporary[path].kind.Directory?)
    && (path in d.nodes && path !in d.finalized && (path in d.created || path in d.temporary) ==>
          d.nodes[path].mode.Usable())
  }

  ghost predicate Mid(s: Session, d: Disk, pending: set<Path>) {
    && Rooted(d.nodes)
    && pending <= s.listed && d.finalized <= s.listed - pending
    && (forall path :: Settled(s, d, pending, path))
    && (forall path :: InHand(s, d, path))
    && (forall above, path :: above in s.listed && above !in pending && path in pending ==> !IsAbove(above, path))
  }

  /** Nothing above a path still to be restored is finished with. */
  lemma AboveUsable(s: Session, d: Disk, pending: set<Path>, above: Path, path: Path)
    requires Recorded(s) && Mid(s, d, pending) && path in pending && IsAbove(above, path)
    ensures above !in d.finalized && (above in s.listed ==> above in pending)
    ensures Reachable(s.after, path) && above in d.nodes ==> Holds(d.nodes, above)
  {
    assert Settled(s, d, pending, above) && InHand(s, d, above);
  }

  lemma PendingReachable(s: Session, d: Disk, pending: set<Path>, path: Path)
    requires Recorded(s) && Mid(s, d, pending) && path in pending && Reachable(s.after, path)
    ensures Reachable(d.nodes, path)
    ensures Lookup(d.nodes, path) == if path in d.nodes then Present(d.nodes[path]) else Absent
  {
    forall above | IsAbove(above, path) && above in d.nodes
      ensures Holds(d.nodes, above)
    {
      AboveUsable(s, d, pending, above, path);
    }
    LookupReachable(d.nodes, path);
  }

  lemma ParentWritable(nodes: Tree, path: Path)
    requires Rooted(nodes) && path != [] && Parent(path) in nodes
    requires nodes[Parent(path)].kind.Directory? && nodes[Parent(path)].mode.Usable()
    ensures Writable(nodes, path)
  {
    LookupPresent(nodes, Parent(path));
  }

  lemma ParentReadOnly(d: Disk, path: Path)
    requires Rooted(d.nodes) && path != [] && path in d.nodes && !Ready(d, Parent(path))
    ensures !Writable(d.nodes, path)
  {
    assert Holds(d.nodes, Parent(path));
    LookupPresent(d.nodes, Parent(path));
    hide Lookup;
  }

  /* Parent directories. */

  lemma RootedMade(nodes: Tree, path: Path, node: Node)
    requires Rooted(nodes) && path !in nodes
    requires path != [] ==> Holds(nodes, Parent(path))
    ensures Rooted(nodes[path := node])
  {
  }

  lemma RootedChanged(nodes: Tree, path: Path, node: Node)
    requires Rooted(nodes) && path in nodes
    requires (forall child :: child in nodes && child != [] ==> Parent(child) != path) ||
             (node.kind.Directory? && node.mode.searchable)
    ensures Rooted(nodes[path := node])
  {
  }

  lemma RootedRemoved(nodes: Tree, path: Path)
    requires Rooted(nodes) && forall child :: child in nodes && child != [] ==> Parent(child) != path
    ensures Rooted(nodes - {path})
  {
  }

  /** A step that changes only `path` leaves every other path as settled as it was. */
  lemma SettledElsewhere(s: Session, d: Disk, e: Disk, pending: set<Path>, path: Path, other: Path)
    requires other != path && SamePlace(d, e, other)
    requires other in d.created ==> other in e.created && d.created[other] == e.created[other]
    ensures Settled(s, d, pending, other) ==> Settled(s, e, pending, other) && Settled(s, e, pending - {path}, other)
    ensures InHand(s, d, other) ==> InHand(s, e, other)
  {
    assert View(e, other) == View(d, other);
  }

  lemma WidenedKeeps(s: Session, d: Disk, pending: set<Path>, path: Path)
    requires Mid(s, d, pending)
    requires path in d.nodes && d.nodes[path].kind.Directory? && !d.nodes[path].mode.Usable()
    requires path !in d.finalized && path in s.before
    ensures
      var noted := if path in d.temporary then d.temporary else d.temporary[path := EntryOf(d.nodes[path])];
      Mid(s, Chmod(d, path, d.nodes[path].mode.Widened()).(temporary := noted), pending)
  {
    assert Settled(s, d, pending, path) && InHand(s, d, path);
    var noted := d.temporary[path := EntryOf(d.nodes[path])];
    var e := Chmod(d, path, d.nodes[path].mode.Widened()).(temporary := noted);
    RootedChanged(d.nodes, path, e.nodes[path]);
    assert Settled(s, e, pending, path) && InHand(s, e, path);
    hide Rooted, Settled, InHand;
    forall p
      ensures Settled(s, e, pending, p) && InHand(s, e, p)
    {
      assert Settled(s, d, pending, p) && InHand(s, d, p);
      if p != path {
        SettledElsewhere(s, d, e, pending, path, p);
      }
    }
  }

  lemma MadeKeeps(s: Session, d: Disk, pending: set<Path>, path: Path, listed: Path)
    requires Recorded(s) && Mid(s, d, pending)
    requires listed in s.listed && listed in s.before && Within(listed, path)
    requires path !in d.nodes && path in s.before && s.before[path].kind.Directory? && path !in d.finalized
    requires path != [] ==> Holds(d.nodes, Parent(path))
    ensures
      path in s.snapshot.baseline &&
      var made := Made(d, path);
      Mid(s, made.(created := made.created[path := s.snapshot.baseline[path]]), pending)
  {
    assert Settled(s, d, pending, path) && InHand(s, d, path);
    assert FaithfulAt(s.snapshot, s.before, path);
    var made := Made(d, path);
    var e := made.(created := made.created[path := s.snapshot.baseline[path]]);
    RootedMade(d.nodes, path, e.nodes[path]);
    assert Settled(s, e, pending, path) && InHand(s, e, path);
    hide Rooted, Recorded, Settled, InHand;
    forall p
      ensures Settled(s, e, pending, p) && InHand(s, e, p)
    {
      assert Settled(s, d, pending, p) && InHand(s, d, p);
      if p != path {
        SettledElsewhere(s, d, e, pending, path, p);
      }
    }
  }

  predicate Ready(d: Disk, path: Path) {
    path in d.nodes && d.nodes[path].kind.Directory? && d.nodes[path].mode.Usable()
  }

  lemma EnsureOneKeeps(s: Session, d: Disk, pending: set<Path>, above: Path, path: Path)
    requires Recorded(s) && Mid(s, d, pending) && path in pending && path in s.before && IsAbove(above, path)
    requires Reachable(s.after, path)
    requires above != [] ==> Ready(d, Parent(above))
    ensures
      var attempt := EnsureOne(s.snapshot, d, above);
      attempt.ok && Mid(s, attempt.disk, pending) && Ready(attempt.disk, above)
  {
    AboveUsable(s, d, pending, above, path);
    RootedAbove(s.before, above, path);
    forall higher | IsAbove(higher, above) && higher in d.nodes
      ensures Holds(d.nodes, higher)
    {
      AboveTrans(higher, above, path);
      AboveUsable(s, d, pending, higher, path);
    }
    LookupReachable(d.nodes, above);
    if above in d.nodes {
      if !d.nodes[above].mode.Usable() {
        WidenedKeeps(s, d, pending, above);
      }
    } else {
      assert FaithfulAt(s.snapshot, s.before, above);
      if above != [] {
        ParentWritable(d.nodes, above);
      }
      MadeKeeps(s, d, pending, above, path);
    }
  }

  lemma {:induction false} EnsureKeeps(s: Session, d: Disk, pending: set<Path>, above: Path, path: Path)
    requires Recorded(s) && Mid(s, d, pending) && path in pending && path in s.before && IsAbove(above, path)
    requires Reachable(s.after, path)
    ensures
      var attempt := Ensure(s.snapshot, d, above);
      attempt.ok && Mid(s, attempt.disk, pending) && Ready(attempt.disk, above)
  {
    hide Recorded, Mid, EnsureOne;
    if above == [] {
      EnsureOneKeeps(s, d, pending, above, path);
    } else {
      AboveTrans(Parent(above), above, path);
      EnsureKeeps(s, d, pending, Parent(above), path);
      EnsureOneKeeps(s, Ensure(s.snapshot, d, Parent(above)).disk, pending, above, path);
    }
  }

  /* One change. */

  /** A pending path is as the session left it, or a directory made for its contents. */
  lemma PendingAgrees(s: Session, d: Disk, pending: set<Path>, change: Change)
    requires Recorded(s) && Mid(s, d, pending) && change.path in pending && Accurate(s, change)
    ensures !Conflicts(d, change)
    ensures change.path !in d.created ==> Intact(View(d, change.path), Get(s.after, change.path))
    ensures change.path in d.created ==> !Unchanged(s, change.path)
    ensures AlreadyRight(s.snapshot, d, change) ==> Similar(View(d, change.path), Get(s.before, change.path))
    ensures change.path in s.before && s.before[change.path].kind.Other? ==> !AlreadyRight(s.snapshot, d, change)
    ensures !(change.path in s.before && s.before[change.path].kind.Other?) ==>
      (AlreadyRight(s.snapshot, d, change) <==> Unchanged(s, change.path))
  {
    var p := change.path;
    assert Settled(s, d, pending, p) && InHand(s, d, p);
    assert p in s.before ==> FaithfulAt(s.snapshot, s.before, p);
  }

  /** No listed child of a pending path is still to be restored. */
  ghost predicate Lowest(pending: set<Path>, path: Path) {
    forall other :: other in pending ==> !IsAbove(path, other)
  }

  lemma MidDone(s: Session, d: Disk, pending: set<Path>, path: Path)
    requires Mid(s, d, pending) && path in pending && Lowest(pending, path)
    requires Similar(View(d, path), Get(s.before, path))
    ensures Mid(s, d, pending - {path})
  {
    forall p
      ensures Settled(s, d, pending - {path}, p)
    {
      assert Settled(s, d, pending, p);
    }
  }

  /** A child of a path being restored is one that was there before the session. */
  lemma ChildFromBefore(s: Session, d: Disk, pending: set<Path>, path: Path, child: Path)
    requires Recorded(s) && Mid(s, d, pending) && path in pending && Lowest(pending, path)
    requires child in d.nodes && child != [] && Parent(child) == path
    ensures child in s.before && Holds(s.before, path)
  {
    assert IsAbove(path, child);
    assert Settled(s, d, pending, child) && Closed(s, path);
  }

  /** The step is done if its own path is settled too. */
  lemma MidElsewhere(s: Session, d: Disk, e: Disk, pending: set<Path>, path: Path)
    requires Mid(s, d, pending) && path in pending && Lowest(pending, path)
    requires d.created == e.created && d.temporary == e.temporary
    requires e.finalized == d.finalized || e.finalized == d.finalized + {path}
    requires forall other :: other != path ==> Get(d.nodes, other) == Get(e.nodes, other)
    requires Rooted(e.nodes) && Settled(s, e, pending - {path}, path) && InHand(s, e, path)
    ensures Mid(s, e, pending - {path})
  {
    hide Rooted, Settled, InHand;
    forall other
      ensures Settled(s, e, pending - {path}, other) && InHand(s, e, other)
    {
      assert Settled(s, d, pending, other) && InHand(s, d, other);
      if other != path {
        SettledElsewhere(s, d, e, pending, path, other);
      }
    }
  }

  lemma RemoveReverts(s: Session, d: Disk, pending: set<Path>, change: Change)
    requires Recorded(s) && Mid(s, d, pending) && change.path in pending && Lowest(pending, change.path)
    requires Accurate(s, change) && change.kind.Created?
    requires change.path != [] ==> Ready(d, Parent(change.path))
    ensures
      var outcome := Remove(d, change);
      outcome.result.status.Restored? && Mid(s, outcome.disk, pending - {change.path})
  {
    var p := change.path;
    assert Settled(s, d, pending, p) && InHand(s, d, p);
    forall child | child in d.nodes && child != []
      ensures Parent(child) != p
    {
      if Parent(child) == p {
        ChildFromBefore(s, d, pending, p, child);
      }
    }
    if p != [] {
      ParentWritable(d.nodes, p);
    }
    RootedRemoved(d.nodes, p);
    hide Rooted, Writable, Recorded;
    MidElsewhere(s, d, d.(nodes := d.nodes - {p}), pending, p);
  }

  /** Giving a directory its mode finishes with it. */
  lemma FinishedDirectory(s: Session, d: Disk, pending: set<Path>, path: Path)
    requires Recorded(s) && Mid(s, d, pending) && path in pending && Lowest(pending, path)
    requires path in s.before && s.before[path].kind.Directory? && path in d.nodes && Replaceable(s, path)
    ensures d.nodes[path].kind.Directory?
    ensures Mid(s, Chmod(d, path, s.before[path].mode).(finalized := d.finalized + {path}), pending - {path})
  {
    assert Settled(s, d, pending, path) && InHand(s, d, path);
    var e := Chmod(d, path, s.before[path].mode).(finalized := d.finalized + {path});
    if child :| child in d.nodes && child != [] && Parent(child) == path {
      ChildFromBefore(s, d, pending, path, child);
    }
    RootedChanged(d.nodes, path, e.nodes[path]);
    MidElsewhere(s, d, e, pending, path);
  }

  lemma DirectoryReverts(s: Session, d: Disk, pending: set<Path>, path: Path)
    requires Recorded(s) && Mid(s, d, pending) && path in pending && Lowest(pending, path)
    requires path in s.before && s.before[path].kind.Directory? && Replaceable(s, path)
    requires path != [] && Ready(d, Parent(path))
    ensures
      var attempt := RestoreDirectory(d, path, EntryOf(s.before[path]));
      attempt.ok && Mid(s, attempt.disk, pending - {path})
  {
    if path in d.nodes {
      FinishedDirectory(s, d, pending, path);
    } else {
      ParentWritable(d.nodes, path);
      assert FaithfulAt(s.snapshot, s.before, path);
      assert path !in d.finalized;
      MadeKeeps(s, d, pending, path, path);
      var made := Made(d, path);
      var e := made.(created := made.created[path := s.snapshot.baseline[path]]);
      FinishedDirectory(s, e, pending, path);
    }
  }

  /** A file can be written over what is at its path, and nothing lies below it. */
  lemma FileWritten(s: Session, d: Disk, pending: set<Path>, path: Path)
    requires Recorded(s) && Mid(s, d, pending) && path in pending && Lowest(pending, path)
    requires path in s.before && !s.before[path].kind.Directory? && !s.before[path].kind.Other? && Replaceable(s, path)
    requires path != [] ==> Ready(d, Parent(path))
    ensures path in s.snapshot.contents
    ensures
      var e := Written(s.snapshot, d, path, path, EntryOf(s.before[path]));
      RestoreFile(s.snapshot, d, path, EntryOf(s.before[path])) == Attempt(e, true) &&
      path !in d.created && Rooted(e.nodes) && Similar(View(e, path), Get(s.before, path))
  {
    NoChildren(s, d, pending, path);
    assert FaithfulAt(s.snapshot, s.before, path);
    assert Settled(s, d, pending, path) && InHand(s, d, path);
    if path != [] {
      ParentWritable(d.nodes, path);
    }
    hide Recorded, Settled, InHand;
    var e := Written(s.snapshot, d, path, path, EntryOf(s.before[path]));
    if path in d.nodes {
      RootedChanged(d.nodes, path, e.nodes[path]);
    } else {
      RootedMade(d.nodes, path, e.nodes[path]);
    }
  }

  lemma FileReverts(s: Session, d: Disk, pending: set<Path>, path: Path)
    requires Recorded(s) && Mid(s, d, pending) && path in pending && Lowest(pending, path)
    requires path in s.before && !s.before[path].kind.Directory? && !s.before[path].kind.Other? && Replaceable(s, path)
    requires path != [] ==> Ready(d, Parent(path))
    ensures
      var attempt := RestoreFile(s.snapshot, d, path, EntryOf(s.before[path]));
      attempt.ok && Mid(s, attempt.disk, pending - {path})
  {
    FileWritten(s, d, pending, path);
    assert Settled(s, d, pending, path) && InHand(s, d, path);
    hide Recorded, RestoreFile, Rooted, Lowest;
    MidElsewhere(s, d, Written(s.snapshot, d, path, path, EntryOf(s.before[path])), pending, path);
  }

  lemma NoChildren(s: Session, d: Disk, pending: set<Path>, path: Path)
    requires Recorded(s) && Mid(s, d, pending) && path in pending && Lowest(pending, path)
    requires path in s.before && !s.before[path].kind.Directory?
    ensures forall child :: child in d.nodes && child != [] ==> Parent(child) != path
  {
    forall child | child in d.nodes && child != []
      ensures Parent(child) != path
    {
      if Parent(child) == path {
        ChildFromBefore(s, d, pending, path, child);
      }
    }
  }

  lemma ObjectReverts(s: Session, d: Disk, pending: set<Path>, path: Path)
    requires Recorded(s) && Mid(s, d, pending) && path in pending && Lowest(pending, path)
    requires path in s.before && Restorable(s, path) && Replaceable(s, path)
    ensures
      var attempt := RestoreObject(s.snapshot, d, path, EntryOf(s.before[path]));
      attempt.ok && Mid(s, attempt.disk, pending - {path})
  {
    hide Mid, Ensure, RestoreDirectory, RestoreFile, Reachable;
    assert FaithfulAt(s.snapshot, s.before, path);
    var e := d;
    if path != [] {
      EnsureKeeps(s, d, pending, Parent(path), path);
      e := Ensure(s.snapshot, d, Parent(path)).disk;
    }
    hide Recorded;
    if s.before[path].kind.Directory? {
      DirectoryReverts(s, e, pending, path);
    } else {
      FileReverts(s, e, pending, path);
    }
  }

  /* Directories held open. */

  /** `held` are the paths rewritten so far: every directory above one is usable until
      it is finished with, and no other was widened. */
  ghost predicate HeldOpen(s: Session, d: Disk, held: set<Path>) {
    && (forall path :: path in held ==> path in s.before && Reachable(s.after, path))
    && (forall above :: above in d.temporary ==> exists path :: path in held && IsAbove(above, path))
    && forall above, path :: path in held && IsAbove(above, path) && above !in d.finalized ==> Ready(d, above)
  }

  /** Making parents leaves all of them usable and widens nothing else. */
  lemma {:induction false} EnsureOpens(snapshot: Snapshot, d: Disk, own: Path, path: Path)
    ensures
      var attempt := Ensure(snapshot, d, own);
      && (attempt.ok && Within(own, path) ==> Ready(attempt.disk, path))
      && (Ready(d, path) ==> Ready(attempt.disk, path))
      && (path in attempt.disk.temporary && path !in d.temporary ==> Within(own, path))
      && attempt.disk.finalized == d.finalized
  {
    if own != [] {
      EnsureOpens(snapshot, d, Parent(own), path);
      hide Lookup, Writable;
      if IsAbove(path, own) {
        AboveParent(path, own);
      }
      if Within(Parent(own), path) {
        AboveChild(path, own);
      }
    }
  }

  lemma ObjectOpens(s: Session, d: Disk, held: set<Path>, path: Path)
    requires Rooted(s.before) && path in s.before && Reachable(s.after, path) && HeldOpen(s, d, held)
    requires path != [] || !s.before[path].kind.Directory?
    ensures
      var attempt := RestoreObject(s.snapshot, d, path, EntryOf(s.before[path]));
      attempt.ok ==> HeldOpen(s, attempt.disk, held + {path})
  {
    hide Rooted, Reachable, Ensure, Writable;
    var attempt := RestoreObject(s.snapshot, d, path, EntryOf(s.before[path]));
    if attempt.ok {
      forall above | above in attempt.disk.temporary
        ensures exists other :: other in held + {path} && IsAbove(above, other)
      {
        if above in d.temporary {
          var other :| other in held && IsAbove(above, other);
        } else {
          EnsureOpens(s.snapshot, d, Parent(path), above);
          AboveChild(above, path);
        }
      }
      forall above, other | other in held + {path} && IsAbove(above, other) && above !in attempt.disk.finalized
        ensures Ready(attempt.disk, above)
      {
        StaysOpen(s, d, held, path, above, other);
      }
    }
  }

  lemma StaysOpen(s: Session, d: Disk, held: set<Path>, path: Path, above: Path, other: Path)
    requires Rooted(s.before) && path in s.before && HeldOpen(s, d, held)
    requires path != [] || !s.before[path].kind.Directory?
    requires other in held + {path} && IsAbove(above, other)
    ensures
      var attempt := RestoreObject(s.snapshot, d, path, EntryOf(s.before[path]));
      attempt.ok && above !in attempt.disk.finalized ==> Ready(attempt.disk, above)
  {
    hide Ensure, Writable;
    RootedAbove(s.before, above, other);
    hide Rooted;
    if path != [] {
      EnsureOpens(s.snapshot, d, Parent(path), above);
      if other == path {
        AboveParent(above, path);
      }
    }
  }

  lemma RemoveOpens(s: Session, d: Disk, held: set<Path>, change: Change)
    requires Rooted(s.before) && change.path !in s.before && HeldOpen(s, d, held)
    ensures HeldOpen(s, Remove(d, change).disk, held)
  {
    hide Removable;
    forall above, path | path in held && IsAbove(above, path) && above !in d.finalized
      ensures Ready(Remove(d, change).disk, above)
    {
      RootedAbove(s.before, above, path);
    }
  }

  predicate Success(status: Status) {
    status.Restored? || status.AlreadyRestored?
  }

  function NowHeld(s: Session, held: set<Path>, path: Path): set<Path> {
    if Rewritten(s, path) then held + {path} else held
  }

  /** The next change, if it fits, reverts its path and keeps the rest. */
  lemma StepReverts(s: Session, d: Disk, pending: set<Path>, held: set<Path>, change: Change, force: bool)
    requires Recorded(s) && Mid(s, d, pending) && HeldOpen(s, d, held)
    requires change.path in pending && Lowest(pending, change.path) && Accurate(s, change)
    requires Fits(s, held, change.path)
    ensures
      var outcome := RestoreOne(s.snapshot, d, change, force);
      && Success(outcome.result.status) && Mid(s, outcome.disk, pending - {change.path})
      && HeldOpen(s, outcome.disk, NowHeld(s, held, change.path))
  {
    hide Mid, RestoreObject, Remove, Conflicts, AlreadyRight, Settled, HeldOpen, Reachable, Lookup;
    PendingReachable(s, d, pending, change.path);
    PendingAgrees(s, d, pending, change);
    if AlreadyRight(s.snapshot, d, change) {
      MidDone(s, d, pending, change.path);
    } else if change.kind.Created? {
      if change.path != [] {
        ParentReady(s, d, pending, held, change.path);
      }
      RemoveReverts(s, d, pending, change);
      RemoveOpens(s, d, held, change);
    } else {
      ObjectReverts(s, d, pending, change.path);
      ObjectOpens(s, d, held, change.path);
    }
  }

  /** A directory above a pending path has the mode the session left, or is held open. */
  lemma ParentReady(s: Session, d: Disk, pending: set<Path>, held: set<Path>, path: Path)
    requires Recorded(s) && Mid(s, d, pending) && HeldOpen(s, d, held) && path in pending
    requires path !in s.before && path in s.after && path != []
    requires Parent(path) in s.after
    ensures
      Ready(d, Parent(path)) <==>
      s.after[Parent(path)].mode.Usable() || exists other :: other in held && IsAbove(Parent(path), other)
  {
    hide Rooted, Reachable, Faithful, Closed;
    var above := Parent(path);
    assert Holds(s.after, above) by { HoldsAbove(s.after, path); }
    assert IsAbove(above, path);
    AboveUsable(s, d, pending, above, path);
    assert Settled(s, d, pending, above) && InHand(s, d, above);
  }

  lemma HoldsAbove(tree: Tree, path: Path)
    requires Rooted(tree) && path in tree && path != []
    ensures Holds(tree, Parent(path))
  {
  }

  /* A change that does not fit. */

  /** The root directory, special files and changes of type cannot be written back. */
  lemma ObjectFails(s: Session, d: Disk, path: Path)
    requires Faithful(s.snapshot, s.before) && path in s.before
    requires (path == [] && s.before[path].kind.Directory?) || s.before[path].kind.Other? ||
             (path in d.nodes && s.before[path].kind.Directory? != d.nodes[path].kind.Directory?)
    ensures !RestoreObject(s.snapshot, d, path, EntryOf(s.before[path])).ok
  {
    assert FaithfulAt(s.snapshot, s.before, path);
    ParentsElsewhere(s.snapshot, d, path, path);
    hide Ensure;
  }

  /** What closes the way to a pending path still does at its turn: nobody opened it. */
  lemma StillClosed(s: Session, d: Disk, pending: set<Path>, held: set<Path>, path: Path)
    requires Recorded(s) && Mid(s, d, pending) && HeldOpen(s, d, held) && path in pending
    requires !Reachable(s.after, path)
    ensures Lookup(d.nodes, path).Denied?
  {
    var above :| IsAbove(above, path) && above in s.after && !Holds(s.after, above);
    AboveUsable(s, d, pending, above, path);
    assert Settled(s, d, pending, above) && InHand(s, d, above);
    LookupDenied(d.nodes, above, path);
    hide Lookup;
  }

  /** A change that does not fit its turn is not restored. */
  lemma StepFails(s: Session, d: Disk, pending: set<Path>, held: set<Path>, change: Change, force: bool)
    requires Recorded(s) && Mid(s, d, pending) && HeldOpen(s, d, held)
    requires change.path in pending && Accurate(s, change)
    requires !Fits(s, held, change.path)
    ensures !Success(RestoreOne(s.snapshot, d, change, force).result.status)
  {
    var path := change.path;
    hide Mid, RestoreObject, Conflicts, AlreadyRight, HeldOpen, Reachable, Lookup, Rooted;
    if !Reachable(s.after, path) {
      StillClosed(s, d, pending, held, path);
    } else {
      PendingReachable(s, d, pending, path);
      PendingAgrees(s, d, pending, change);
      if path in s.before {
        KindAtTurn(s, d, pending, path);
        ObjectFails(s, d, path);
      } else {
        KindAtTurn(s, d, pending, path);
        HoldsAbove(s.after, path);
        ParentReady(s, d, pending, held, path);
        assert Rooted(d.nodes) by { MidRooted(s, d, pending); }
        ParentReadOnly(d, path);
      }
    }
  }

  lemma MidRooted(s: Session, d: Disk, pending: set<Path>)
    requires Mid(s, d, pending)
    ensures Rooted(d.nodes)
  {
  }

  lemma KindAtTurn(s: Session, d: Disk, pending: set<Path>, path: Path)
    requires Mid(s, d, pending) && path in pending
    ensures path in s.after ==> path in d.nodes && d.nodes[path].kind == s.after[path].kind && path !in d.created
    ensures path in d.created ==> path in s.before
  {
    assert Settled(s, d, pending, path);
  }
}
