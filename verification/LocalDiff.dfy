/** Comparing the local tree with the table: a walk over the directories, then a look for missing files. */
module LocalDiff {
  import opened Model
  import opened Paths
  import opened LocalFiles
  import opened Actions

  /** What the walk says about one file it visits. */
  function FileAction(t: Tree, rows: States, path: string): Option<SyncAction>
    requires path in t.files
  {
    var file := t.files[path];
    var md5 := Md5(file.content);
    if path !in rows then Some(NewUploadOf(path, md5, file.modified))
    else if LocalChanged(rows[path], md5, file.modified) then Some(UpdateUploadOf(path, rows[path], md5, file.modified))
    else None
  }

  /** What a cycle has to do for a path as far as the local side is concerned. */
  function LocalActionAt(t: Tree, rows: States, path: string): Option<SyncAction> {
    if path in t.files then (if Ignored(path) then None else FileAction(t, rows, path))
    else if path in rows && rows[path].driveFileId.Some? && path !in t.dirs then Some(DeleteRemoteOf(path, rows[path]))
    else None
  }

  /** The entries with a skipped component. */
  ghost function Hidden(t: Tree): set<string> {
    set p | p in t.files.Keys + t.dirs && Ignored(p)
  }

  function Listing(a: Option<SyncAction>): seq<SyncAction> {
    match a case Some(x) => [x] case None => []
  }

  /** The actions found so far are those of the visited files, one for each path. */
  ghost predicate Found(t: Tree, rows: States, hidden: set<string>, actions: seq<SyncAction>, visited: set<string>) {
    && DistinctPaths(actions)
    && (forall a :: a in actions ==> a.relativePath in visited && a.relativePath in t.files && a.relativePath !in hidden
                                     && FileAction(t, rows, a.relativePath) == Some(a))
    && (forall p :: p in visited && p in t.files && p !in hidden && FileAction(t, rows, p).Some? ==>
                      FileAction(t, rows, p).value in actions)
  }

  /** The state of the walk: `queue` holds the directories still to list, `listed` those already listed,
      `visited` every entry seen in them. */
  ghost predicate Walking(t: Tree, hidden: set<string>, queue: seq<string>, listed: set<string>, visited: set<string>) {
    && (forall i, j :: 0 <= i < j < |queue| ==> queue[i] != queue[j])
    && (forall d :: d in queue ==> d !in listed && (d == "" || d in t.dirs))
    && listed <= t.dirs + {""}
    && ("" in listed || "" in queue)
    && (forall d :: d in queue || d in listed ==> d == "" || (d in visited && d !in hidden))
    && (forall d :: d in visited && d in t.dirs && d !in hidden ==> d in queue || d in listed)
    && (forall p :: p in visited ==> t.Exists(p))
  }

  /** When no directory is left, every entry without a skipped component has been seen. */
  lemma {:induction false} EverythingSeen(t: Tree, listed: set<string>, visited: set<string>, p: string)
    requires WellFormed(t) && Walking(t, Hidden(t), [], listed, visited)
    requires forall q :: t.Exists(q) && Parent(q) in listed ==> q in visited
    requires t.Exists(p) && !Ignored(p)
    ensures p in visited
    decreases |p|
  {
    if Parent(p) != "" { EverythingSeen(t, listed, visited, Parent(p)); }
  }

  lemma VisitHidden(t: Tree, rows: States, hidden: set<string>, queue: seq<string>, listed: set<string>,
                    visited: set<string>, actions: seq<SyncAction>, p: string)
    requires Walking(t, hidden, queue, listed, visited) && Found(t, rows, hidden, actions, visited)
    requires t.Exists(p) && p in hidden
    ensures Walking(t, hidden, queue, listed, visited + {p}) && Found(t, rows, hidden, actions, visited + {p})
  {
  }

  lemma VisitDir(t: Tree, rows: States, hidden: set<string>, queue: seq<string>, listed: set<string>,
                 visited: set<string>, actions: seq<SyncAction>, p: string)
    requires Walking(t, hidden, queue, listed, visited) && Found(t, rows, hidden, actions, visited)
    requires p in t.dirs && p !in t.files && p != "" && p !in hidden && p !in visited
    ensures Walking(t, hidden, queue + [p], listed, visited + {p}) && Found(t, rows, hidden, actions, visited + {p})
  {
    var more := queue + [p];
    assert forall d :: d in more <==> d in queue || d == p;
  }

  lemma VisitFile(t: Tree, rows: States, hidden: set<string>, queue: seq<string>, listed: set<string>,
                  visited: set<string>, actions: seq<SyncAction>, p: string)
    requires Walking(t, hidden, queue, listed, visited) && Found(t, rows, hidden, actions, visited)
    requires p in t.files && p !in t.dirs && p !in hidden && p !in visited
    ensures Walking(t, hidden, queue, listed, visited + {p})
    ensures Found(t, rows, hidden, actions + Listing(FileAction(t, rows, p)), visited + {p})
  {
    match FileAction(t, rows, p)
    case None => assert actions + [] == actions;
    case Some(a) => assert forall x :: x in actions + [a] <==> x in actions || x == a;
  }

  lemma PopDir(t: Tree, hidden: set<string>, queue: seq<string>, listed: set<string>, visited: set<string>)
    requires Walking(t, hidden, queue, listed, visited) && queue != []
    ensures var last := queue[|queue| - 1];
      && last !in listed && (last == "" || (last in t.dirs && last !in hidden))
      && Walking(t, hidden, queue[..|queue| - 1], listed + {last}, visited)
  {
    var rest, last := queue[..|queue| - 1], queue[|queue| - 1];
    assert queue == rest + [last];
    assert forall d :: d in queue <==> d in rest || d == last;
  }

  /** What the walk relies on when it meets an entry. */
  ghost predicate EntryOk(t: Tree, hidden: set<string>, e: DirEntry, p: string) {
    && t.Exists(p) && p != "" && (e.isDir <==> p in t.dirs) && (p in t.files <==> p !in t.dirs)
    && (p in hidden <==> SkippedName(e.name))
    && (Contains(p, GIT_PART) ==> p in hidden)
  }

  /** The substring test of the walk never finds anything that the component test has let through. */
  lemma GitPartIsDead(path: string)
    ensures Contains(path, GIT_PART) ==> Ignored(path)
  {
    if Contains(path, GIT_PART) {
      var k :| 0 <= k <= |path| && ContainsAt(path, GIT_PART, k);
      GitPartIsIgnored(path, k);
    }
  }

  /** The paths of the entries of a directory, in order. */
  ghost function PathsIn(dir: string, entries: seq<DirEntry>): seq<string> {
    seq(|entries|, i requires 0 <= i < |entries| => EntryPath(dir, entries[i]))
  }

  lemma SkippedExactly(p: string, dir: string)
    requires Parent(p) == dir && (dir == "" || !Ignored(dir))
    ensures Ignored(p) <==> SkippedName(FileName(p))
  {
  }

  lemma OneEntryOk(t: Tree, hidden: set<string>, dir: string, e: DirEntry, p: string)
    requires NamesChild(t, dir, e) && p == EntryPath(dir, e) && (p in t.files ==> p !in t.dirs)
    requires p in hidden <==> SkippedName(e.name)
    requires Contains(p, GIT_PART) ==> p in hidden
    ensures EntryOk(t, hidden, e, p)
  {
    assert p != "";
  }

  lemma ChildHidden(t: Tree, dir: string, name: string, p: string)
    requires name != "" && '/' !in name && (dir == "" || !Ignored(dir)) && p == Join(dir, name) && t.Exists(p)
    ensures Parent(p) == dir
    ensures p in Hidden(t) <==> SkippedName(name)
    ensures Contains(p, GIT_PART) ==> p in Hidden(t)
  {
    JoinSplits(dir, name);
    SkippedExactly(p, dir);
    GitPartIsDead(p);
  }

  /** The listing is, path by path, the set of the directory's children. */
  lemma PathsInExactly(t: Tree, dir: string, entries: seq<DirEntry>)
    requires Lists(t, dir, entries)
    requires forall i :: 0 <= i < |entries| ==>
        t.Exists(PathsIn(dir, entries)[i]) && Parent(PathsIn(dir, entries)[i]) == dir
    ensures forall i, j :: 0 <= i < j < |entries| ==> PathsIn(dir, entries)[i] != PathsIn(dir, entries)[j]
    ensures forall p :: p in PathsIn(dir, entries) <==> t.Exists(p) && Parent(p) == dir
  {
    var paths := PathsIn(dir, entries);
    forall p ensures p in paths <==> t.Exists(p) && Parent(p) == dir {
      if p in paths {
        var i :| 0 <= i < |paths| && paths[i] == p;
        assert EntryPath(dir, entries[i]) == p;
      }
      if t.Exists(p) && Parent(p) == dir {
        assert Listed(dir, entries, p);
        var i :| 0 <= i < |entries| && EntryPath(dir, entries[i]) == p;
        assert paths[i] == p;
      }
    }
  }

  lemma EntryAt(t: Tree, dir: string, e: DirEntry, p: string)
    requires NamesChild(t, dir, e) && p == EntryPath(dir, e) && (dir == "" || !Ignored(dir))
        && (p in t.files ==> p !in t.dirs)
    ensures EntryOk(t, Hidden(t), e, p) && t.Exists(p) && Parent(p) == dir
  {
    ChildHidden(t, dir, e.name, p);
    var hidden := Hidden(t);
    OneEntryOk(t, hidden, dir, e, p);
  }

  lemma EntriesOk(t: Tree, dir: string, entries: seq<DirEntry>, paths: seq<string>)
    requires WellFormed(t) && Lists(t, dir, entries) && (dir == "" || !Ignored(dir)) && paths == PathsIn(dir, entries)
    ensures forall i :: 0 <= i < |entries| ==> EntryOk(t, Hidden(t), entries[i], paths[i])
    ensures forall i, j :: 0 <= i < j < |paths| ==> paths[i] != paths[j]
    ensures forall p :: p in paths <==> t.Exists(p) && Parent(p) == dir
  {
    forall i | 0 <= i < |entries|
      ensures EntryOk(t, Hidden(t), entries[i], paths[i]) && t.Exists(paths[i]) && Parent(paths[i]) == dir
    {
      EntryAt(t, dir, entries[i], paths[i]);
    }
    PathsInExactly(t, dir, entries);
  }

  /** Compares one file with its row. */
  method ClassifyFile(t: Tree, rows: States, path: string) returns (action: Option<SyncAction>)
    requires path in t.files
    ensures action == FileAction(t, rows, path)
  {
    var file := t.files[path];
    action := None;
    if path in rows {
      if LocalChanged(rows[path], Md5(file.content), file.modified) {
        action := Some(UpdateUploadOf(path, rows[path], Md5(file.content), file.modified));
      }
    } else {
      action := Some(NewUploadOf(path, Md5(file.content), file.modified));
    }
  }

  /** Looks at one entry: skips it, queues it as a directory, or compares it as a file. */
  method VisitEntry(t: Tree, rows: States, entry: DirEntry, relativePath: string, ghost hidden: set<string>,
                    found: seq<SyncAction>, queue: seq<string>, ghost listed: set<string>, ghost visited: set<string>)
    returns (actions: seq<SyncAction>, dirQueue: seq<string>)
    requires EntryOk(t, hidden, entry, relativePath) && relativePath !in visited
    requires Walking(t, hidden, queue, listed, visited) && Found(t, rows, hidden, found, visited)
    ensures Walking(t, hidden, dirQueue, listed, visited + {relativePath})
    ensures Found(t, rows, hidden, actions, visited + {relativePath})
  {
    actions, dirQueue := found, queue;
    if SkippedName(entry.name) {
      VisitHidden(t, rows, hidden, queue, listed, visited, found, relativePath);
      return;
    }
    if Contains(relativePath, GIT_PART) {
      assert false;
    }
    if entry.isDir {
      VisitDir(t, rows, hidden, queue, listed, visited, found, relativePath);
      dirQueue := dirQueue + [relativePath];
      return;
    }
    VisitFile(t, rows, hidden, queue, listed, visited, found, relativePath);
    var action := ClassifyFile(t, rows, relativePath);
    actions := actions + Listing(action);
  }

  /** Looks at the entries of one directory, whose paths are `paths`. */
  method VisitEntries(t: Tree, rows: States, relDir: string, entries: seq<DirEntry>, ghost paths: seq<string>,
                      ghost hidden: set<string>, found: seq<SyncAction>, queue: seq<string>,
                      ghost listed: set<string>, ghost before: set<string>)
    returns (actions: seq<SyncAction>, dirQueue: seq<string>, ghost visited: set<string>)
    requires paths == PathsIn(relDir, entries)
    requires forall i :: 0 <= i < |entries| ==> EntryOk(t, hidden, entries[i], paths[i]) && paths[i] !in before
    requires forall i, j :: 0 <= i < j < |paths| ==> paths[i] != paths[j]
    requires Walking(t, hidden, queue, listed, before) && Found(t, rows, hidden, found, before)
    ensures Walking(t, hidden, dirQueue, listed, visited) && Found(t, rows, hidden, actions, visited)
    ensures forall p :: p in visited <==> p in before || p in paths
  {
    actions, dirQueue, visited := found, queue, before;
    var i := 0;
    while i < |entries|
      invariant 0 <= i <= |entries|
      invariant Walking(t, hidden, dirQueue, listed, visited) && Found(t, rows, hidden, actions, visited)
      invariant forall p :: p in visited <==> p in before || p in paths[..i]
    {
      assert paths[i] !in paths[..i];
      assert paths[..i + 1] == paths[..i] + [paths[i]];
      var relativePath := EntryPath(relDir, entries[i]);
      actions, dirQueue := VisitEntry(t, rows, entries[i], relativePath, hidden, actions, dirQueue, listed, visited);
      visited := visited + {relativePath};
      i := i + 1;
    }
    assert paths[..i] == paths;
  }

  ghost predicate Asks(actions: seq<SyncAction>, p: string, kind: Kind) {
    exists a :: a in actions && a.relativePath == p && a.kind == kind
  }

  /** What the walk is for: a file without a row is uploaded, a file whose content or time is not the one in its row is
      uploaded over it, and a row with a Drive file whose path is gone leads to a deletion on Drive; nothing else. */
  ghost predicate ByKindExactly(t: Tree, rows: States, actions: seq<SyncAction>) {
    && (forall p :: Asks(actions, p, NewUpload) <==>
                      p in t.files && !Ignored(p) && p !in rows)
    && (forall p :: Asks(actions, p, UpdateUpload) <==>
                      p in t.files && !Ignored(p) && p in rows
                         && (rows[p].localMd5 != Some(Md5(t.files[p].content))
                             || rows[p].localModified != Some(t.files[p].modified)))
    && (forall p :: Asks(actions, p, DeleteRemote) <==>
                      p in rows && rows[p].driveFileId.Some? && !t.Exists(p))
    && (forall a :: a in actions ==>
          && (a.kind == NewUpload || a.kind == UpdateUpload || a.kind == DeleteRemote)
          && (a.kind != NewUpload ==> a.relativePath in rows && a.state == Some(rows[a.relativePath]))
          && (a.kind != DeleteRemote ==>
                a.relativePath in t.files && a.localMd5 == Some(Md5(t.files[a.relativePath].content))
                && a.localModified == Some(t.files[a.relativePath].modified)))
  }

  lemma KindAt(t: Tree, rows: States, actions: seq<SyncAction>, p: string, kind: Kind)
    requires forall a :: a in actions <==> LocalActionAt(t, rows, a.relativePath) == Some(a)
    ensures Asks(actions, p, kind) <==>
              LocalActionAt(t, rows, p).Some? && LocalActionAt(t, rows, p).value.kind == kind
  {
    hide Ignored;
    var here := LocalActionAt(t, rows, p);
    if here.Some? { assert here.value.relativePath == p && here.value in actions; }
  }

  lemma KindsOfWalk(t: Tree, rows: States, actions: seq<SyncAction>)
    requires forall a :: a in actions <==> LocalActionAt(t, rows, a.relativePath) == Some(a)
    ensures ByKindExactly(t, rows, actions)
  {
    hide Ignored, Asks;
    forall p, kind: Kind
      ensures Asks(actions, p, kind) <==>
                LocalActionAt(t, rows, p).Some? && LocalActionAt(t, rows, p).value.kind == kind
    {
      KindAt(t, rows, actions, p, kind);
    }
    forall a | a in actions ensures LocalActionAt(t, rows, a.relativePath) == Some(a) {}
  }

  /** The local actions of a cycle: one for each path that needs one, and no other. */
  method ComputeLocalChanges(t: Tree, rows: States) returns (actions: seq<SyncAction>)
    requires WellFormed(t) && forall p :: p in rows ==> rows[p].relativePath == p
    ensures DistinctPaths(actions)
    ensures forall a :: a in actions <==> LocalActionAt(t, rows, a.relativePath) == Some(a)
    ensures ByKindExactly(t, rows, actions)
  {
    actions := [];
    var dirQueue: seq<string> := [""];
    ghost var hidden := Hidden(t);
    ghost var listed: set<string> := {};
    ghost var visited: set<string> := {};
    while dirQueue != []
      invariant Walking(t, hidden, dirQueue, listed, visited)
      invariant Found(t, rows, hidden, actions, visited)
      invariant forall q :: q in visited <==> t.Exists(q) && Parent(q) in listed
      decreases t.dirs + {""} - listed
    {
      PopDir(t, hidden, dirQueue, listed, visited);
      var relDir := dirQueue[|dirQueue| - 1];
      dirQueue := dirQueue[..|dirQueue| - 1];
      var entries := ListDir(t, relDir);
      ghost var paths := PathsIn(relDir, entries);
      EntriesOk(t, relDir, entries, paths);
      listed := listed + {relDir};
      actions, dirQueue, visited :=
        VisitEntries(t, rows, relDir, entries, paths, hidden, actions, dirQueue, listed, visited);
    }
    forall p | t.Exists(p) && !Ignored(p) ensures p in visited {
      EverythingSeen(t, listed, visited, p);
    }
    actions := FindDeleted(t, rows, actions, hidden, visited);
    KindsOfWalk(t, rows, actions);
  }

  /** The second loop: rows of uploaded files that are gone. */
  method FindDeleted(t: Tree, rows: States, found: seq<SyncAction>, ghost hidden: set<string>,
                     ghost visited: set<string>)
    returns (actions: seq<SyncAction>)
    requires forall p :: p in rows ==> rows[p].relativePath == p
    requires hidden == Hidden(t) && Found(t, rows, hidden, found, visited)
    requires forall p :: t.Exists(p) && !Ignored(p) ==> p in visited
    ensures DistinctPaths(actions)
    ensures forall a :: a in actions <==> LocalActionAt(t, rows, a.relativePath) == Some(a)
  {
    actions := found;
    var left := rows.Keys;
    while left != {}
      invariant left <= rows.Keys && DistinctPaths(actions)
      invariant forall a :: a in actions <==>
                  LocalActionAt(t, rows, a.relativePath) == Some(a)
                      && (a.relativePath in t.files || a.relativePath !in left)
    {
      var p :| p in left;
      left := left - {p};
      if rows[p].driveFileId.None? {
        continue;
      }
      if !t.Exists(p) {
        actions := actions + [DeleteRemoteOf(p, rows[p])];
      }
    }
  }
}
