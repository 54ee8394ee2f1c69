/** Merging the local and the remote actions of a cycle, path by path. */
module Merge {
  import opened Model
  import opened Paths
  import opened LocalFiles
  import opened Actions
  import opened LocalDiff
  import opened RemoteDiff

  /** What a remote action makes of the action already recorded for its path. */
  function Combine(current: Option<SyncAction>, remote: SyncAction): SyncAction {
    match current
    case Some(local) =>
      if local.kind == UpdateUpload && remote.kind == UpdateDownload
         && local.state.Some? && remote.driveFile.Some? && local.localMd5.Some? && local.localModified.Some?
      then ConflictOf(remote.relativePath, local.state.value, remote.driveFile.value,
                      local.localMd5.value, local.localModified.value)
      else remote
    case None => remote
  }

  function LastAt(actions: seq<SyncAction>, path: string): Option<SyncAction> {
    if actions == [] then None
    else if actions[|actions| - 1].relativePath == path then Some(actions[|actions| - 1])
    else LastAt(actions[..|actions| - 1], path)
  }

  function RemoteAt(current: Option<SyncAction>, remote: seq<SyncAction>, path: string): Option<SyncAction>
    decreases |remote|
  {
    if remote == [] then current
    else RemoteAt(if remote[0].relativePath == path then Some(Combine(current, remote[0])) else current, remote[1..],
        path)
  }

  /** The merged action of a path. */
  function MergedAt(local: seq<SyncAction>, remote: seq<SyncAction>, path: string): Option<SyncAction> {
    RemoteAt(LastAt(local, path), remote, path)
  }

  method MergeActions(localActions: seq<SyncAction>, remoteActions: seq<SyncAction>) returns (merged: seq<SyncAction>)
    ensures DistinctPaths(merged)
    ensures forall a :: a in merged <==> MergedAt(localActions, remoteActions, a.relativePath) == Some(a)
  {
    var byPath: map<string, SyncAction> := map[];
    for i := 0 to |localActions|
      invariant forall p :: p in byPath <==> LastAt(localActions[..i], p).Some?
      invariant forall p :: p in byPath ==>
          LastAt(localActions[..i], p) == Some(byPath[p]) && byPath[p].relativePath == p
    {
      assert localActions[..i + 1][..i] == localActions[..i];
      byPath := byPath[localActions[i].relativePath := localActions[i]];
    }
    assert localActions[..|localActions|] == localActions;
    var rest := remoteActions;
    while rest != []
      invariant forall p :: p in byPath ==> byPath[p].relativePath == p
      invariant forall p :: RemoteAt(if p in byPath then Some(byPath[p]) else None, rest, p)
                            == MergedAt(localActions, remoteActions, p)
      decreases |rest|
    {
      byPath := TakeRemote(byPath, rest[0]);
      rest := rest[1..];
    }
    merged := Values(byPath);
  }

  /** One turn of the loop over the remote actions. */
  method TakeRemote(byPath: map<string, SyncAction>, remote: SyncAction) returns (next: map<string, SyncAction>)
    ensures var path := remote.relativePath;
      next == byPath[path := Combine(if path in byPath then Some(byPath[path]) else None, remote)]
  {
    var a, path := remote, remote.relativePath;
    next := byPath;
    if path in next {
      var local := next[path];
      next := map p | p in next && p != path :: next[p];
      if local.kind == UpdateUpload && a.kind == UpdateDownload
         && local.state.Some? && a.driveFile.Some? && local.localMd5.Some? && local.localModified.Some? {
        a := ConflictOf(path, local.state.value, a.driveFile.value, local.localMd5.value, local.localModified.value);
      } else {
        next := next[path := local];
      }
    }
    next := next[path := a];
  }

  /** The values of the map, in the order the map happens to give them. */
  method Values(byPath: map<string, SyncAction>) returns (values: seq<SyncAction>)
    requires forall p :: p in byPath ==> byPath[p].relativePath == p
    ensures DistinctPaths(values)
    ensures forall a :: a in values <==> a.relativePath in byPath && byPath[a.relativePath] == a
  {
    values := [];
    var left := byPath.Keys;
    while left != {}
      invariant left <= byPath.Keys && DistinctPaths(values)
      invariant forall a :: a in values <==>
          a.relativePath in byPath && a.relativePath !in left && byPath[a.relativePath] == a
    {
      var p :| p in left;
      values := values + [byPath[p]];
      left := left - {p};
    }
  }

  // ----- what the merge means, path by path -----

  /** The remote actions of one path, in order. */
  function ActionsAt(remote: seq<SyncAction>, path: string): seq<SyncAction> {
    if remote == [] then []
    else (if remote[0].relativePath == path then [remote[0]] else []) + ActionsAt(remote[1..], path)
  }

  lemma {:induction false} OnlyOwnPathMatters(current: Option<SyncAction>, remote: seq<SyncAction>, path: string)
    ensures RemoteAt(current, remote, path) == RemoteAt(current, ActionsAt(remote, path), path)
    ensures forall a :: a in ActionsAt(remote, path) <==> a in remote && a.relativePath == path
    decreases |remote|
  {
    if remote != [] {
      var own := ActionsAt(remote, path);
      if remote[0].relativePath == path {
        OnlyOwnPathMatters(Some(Combine(current, remote[0])), remote[1..], path);
        assert own[0] == remote[0] && own[1..] == ActionsAt(remote[1..], path);
      } else {
        OnlyOwnPathMatters(current, remote[1..], path);
        assert own == ActionsAt(remote[1..], path);
      }
    }
  }

  lemma {:induction false} AtMostOne(remote: seq<SyncAction>, path: string)
    requires DistinctPaths(remote)
    ensures |ActionsAt(remote, path)| <= 1
  {
    if remote != [] {
      AtMostOne(remote[1..], path);
      OnlyOwnPathMatters(None, remote[1..], path);
      var rest := ActionsAt(remote[1..], path);
      assert rest != [] ==> rest[0] in rest;
    }
  }

  lemma {:induction false} LastAtOfDistinct(local: seq<SyncAction>, path: string)
    ensures LastAt(local, path).Some? ==>
        LastAt(local, path).value in local && LastAt(local, path).value.relativePath == path
    ensures LastAt(local, path).None? ==> forall a :: a in local ==> a.relativePath != path
  {
    if local != [] {
      var n := |local| - 1;
      LastAtOfDistinct(local[..n], path);
      assert local == local[..n] + [local[n]];
    }
  }

  ghost function PickAt(actions: seq<SyncAction>, path: string): (r: Option<SyncAction>)
    ensures r.Some? ==> r.value in actions && r.value.relativePath == path
    ensures r.None? ==> forall a :: a in actions ==> a.relativePath != path
  {
    if exists a :: a in actions && a.relativePath == path
    then var a :| a in actions && a.relativePath == path; Some(a)
    else None
  }

  /** The action that a list records for a path is the last one. */
  lemma {:induction false} LastAtIsLast(actions: seq<SyncAction>, path: string)
    ensures match LastAt(actions, path)
            case Some(a) =>
              exists i :: 0 <= i < |actions| && actions[i] == a && a.relativePath == path
                          && forall j :: i < j < |actions| ==> actions[j].relativePath != path
            case None => forall i :: 0 <= i < |actions| ==> actions[i].relativePath != path
  {
    if actions != [] && actions[|actions| - 1].relativePath != path {
      var before := actions[..|actions| - 1];
      LastAtIsLast(before, path);
      assert forall i :: 0 <= i < |before| ==> before[i] == actions[i];
    }
  }

  /** With one action per path on either side the merge looks at the two actions of the path only, so
      the order of the lists does not matter. */
  lemma MergeIsPointwise(local: seq<SyncAction>, remote: seq<SyncAction>, path: string)
    requires DistinctPaths(local) && DistinctPaths(remote)
    ensures forall r :: r in remote && r.relativePath == path ==>
        MergedAt(local, remote, path) == Some(Combine(PickAt(local, path), r))
    ensures (forall r :: r in remote ==> r.relativePath != path) ==>
        MergedAt(local, remote, path) == PickAt(local, path)
  {
    LastAtOfDistinct(local, path);
    assert LastAt(local, path) == PickAt(local, path);
    OnlyOwnPathMatters(LastAt(local, path), remote, path);
    AtMostOne(remote, path);
    var own := ActionsAt(remote, path);
    forall r | r in remote && r.relativePath == path ensures own == [r] {
      assert r in own;
    }
    if own != [] { assert own[0] in own; }
  }

  /** The kinds the local and the remote comparison produce, with the parts they carry. */
  ghost predicate LocalShape(a: SyncAction) {
    || a.kind == NewUpload
    || a.kind == DeleteRemote
    || (a.kind == UpdateUpload && a.state.Some? && a.localMd5.Some? && a.localModified.Some?)
  }

  ghost predicate RemoteShape(a: SyncAction) {
    a.kind == DeleteLocal || ((a.kind == NewDownload || a.kind == UpdateDownload) && a.driveFile.Some?)
  }

  lemma {:induction false} LastRemoteWins(current: Option<SyncAction>, own: seq<SyncAction>, path: string)
    requires own != [] && (current.None? || current.value.kind != UpdateUpload)
    requires forall r :: r in own ==> r.relativePath == path && RemoteShape(r)
    ensures RemoteAt(current, own, path) == Some(own[|own| - 1])
    decreases |own|
  {
    if |own| > 1 {
      LastRemoteWins(Some(own[0]), own[1..], path);
    } else {
      assert own[1..] == [];
    }
  }

  /** A conflict comes out for a path exactly when the local file changed and one single remote action,
      a download over an existing row, meets it: a second remote action on the path replaces the conflict. */
  lemma ConflictNeedsOneRemoteAction(local: seq<SyncAction>, remote: seq<SyncAction>, path: string)
    requires forall a :: a in local ==> LocalShape(a)
    requires forall a :: a in remote ==> RemoteShape(a)
    ensures var own := ActionsAt(remote, path);
      (MergedAt(local, remote, path).Some? && MergedAt(local, remote, path).value.kind == Kind.Conflict)
      <==> (LastAt(local, path).Some? && LastAt(local, path).value.kind == UpdateUpload
            && |own| == 1 && own[0].kind == UpdateDownload)
  {
    var current, own := LastAt(local, path), ActionsAt(remote, path);
    LastAtOfDistinct(local, path);
    OnlyOwnPathMatters(current, remote, path);
    if own != [] {
      assert own[0] in own && own[|own| - 1] in own;
      var first := Some(Combine(current, own[0]));
      if |own| > 1 {
        LastRemoteWins(first, own[1..], path);
      } else {
        assert own[1..] == [];
      }
    }
  }

  // ----- both comparisons from one snapshot of the table -----

  /** The index by Drive id is an index of the rows. */
  ghost predicate IndexOk(ctx: Context) {
    && (forall p :: p in ctx.rows ==> ctx.rows[p].relativePath == p)
    && (forall id :: id in ctx.byId ==>
          var s := ctx.byId[id];
          s.driveFileId == Some(id) && s.relativePath in ctx.rows && ctx.rows[s.relativePath] == s)
  }

  /** The local actions are those the walk computes. */
  ghost predicate LocalExactly(t: Tree, rows: States, local: seq<SyncAction>) {
    DistinctPaths(local) && forall a :: a in local <==> LocalActionAt(t, rows, a.relativePath) == Some(a)
  }

  /** What a remote action says about the row of its path. */
  ghost predicate RemoteFits(ctx: Context, a: SyncAction) {
    && RemoteShape(a)
    && (a.kind == NewDownload ==> a.relativePath !in ctx.rows && a.state == None)
    && (a.kind != NewDownload ==> a.relativePath in ctx.rows && a.state == Some(ctx.rows[a.relativePath]))
  }

  lemma {:induction false} RemoteActionsFit(ctx: Context, paths: map<string, string>, changes: seq<DriveChange>)
    requires IndexOk(ctx)
    ensures forall a :: a in RemoteActions(ctx, paths, changes) ==> RemoteFits(ctx, a)
    decreases |changes|
  {
    if changes != [] {
      RemoteActionsFit(ctx, NextPaths(ctx, paths, changes[0]), changes[1..]);
      OneRemoteActionFits(ctx, paths, changes[0]);
    }
  }

  lemma OneRemoteActionFits(ctx: Context, paths: map<string, string>, c: DriveChange)
    requires IndexOk(ctx)
    ensures ActionOf(ctx, paths, c).Some? ==> RemoteFits(ctx, ActionOf(ctx, paths, c).value)
  {
  }

  /** Only five of the nine pairs of a local and a remote kind can meet on a path, and whenever both
      sides changed everything a conflict needs is there. */
  lemma FivePairsMeet(t: Tree, ctx: Context, local: seq<SyncAction>, changes: seq<DriveChange>, l: SyncAction,
                      r: SyncAction)
    requires IndexOk(ctx) && LocalExactly(t, ctx.rows, local)
    requires l in local && r in RemoteActions(ctx, KnownPaths(ctx), changes) && l.relativePath == r.relativePath
    ensures || (l.kind == NewUpload && r.kind == NewDownload)
            || (l.kind == UpdateUpload && (r.kind == UpdateDownload || r.kind == DeleteLocal))
            || (l.kind == DeleteRemote && (r.kind == UpdateDownload || r.kind == DeleteLocal))
    ensures l.kind == UpdateUpload && r.kind == UpdateDownload ==> Combine(Some(l), r).kind == Kind.Conflict
    ensures !(l.kind == UpdateUpload && r.kind == UpdateDownload) ==> Combine(Some(l), r) == r
  {
    RemoteActionsFit(ctx, KnownPaths(ctx), changes);
  }

  lemma {:induction false} DiffAppend(ctx: Context, paths: map<string, string>, a: seq<DriveChange>,
                                      b: seq<DriveChange>)
    ensures RemoteActions(ctx, paths, a + b) == RemoteActions(ctx, paths, a) + RemoteActions(ctx,
        PathsAfter(ctx, paths, a), b)
    decreases |a|
  {
    if a == [] {
      assert a + b == b;
    } else {
      assert (a + b)[1..] == a[1..] + b;
      DiffAppend(ctx, NextPaths(ctx, paths, a[0]), a[1..], b);
      Regroup(Emit(ActionOf(ctx, paths, a[0])), RemoteActions(ctx, NextPaths(ctx, paths, a[0]), a[1..]),
              RemoteActions(ctx, PathsAfter(ctx, paths, a), b));
    }
  }

  lemma {:induction false} ActionsAtAppend(a: seq<SyncAction>, b: seq<SyncAction>, path: string)
    ensures ActionsAt(a + b, path) == ActionsAt(a, path) + ActionsAt(b, path)
  {
    if a == [] {
      assert a + b == b;
    } else {
      assert (a + b)[1..] == a[1..] + b;
      ActionsAtAppend(a[1..], b, path);
    }
  }

  /** For a path with a row, a local file and one remote change, the pipeline of walk, comparison and
      merge answers Conflict exactly when both sides changed since the last sync. */
  lemma PipelineRefinesIsConflict(t: Tree, ctx: Context, local: seq<SyncAction>,
                                  before: seq<DriveChange>, c: DriveChange, after: seq<DriveChange>, path: string)
    requires IndexOk(ctx) && LocalExactly(t, ctx.rows, local)
    requires path in ctx.rows && path in t.files && !Ignored(path)
    requires Live(c) && ResolvePath(ctx, PathsAfter(ctx, KnownPaths(ctx), before), c) == Some(path)
    requires ActionsAt(RemoteActions(ctx, KnownPaths(ctx), before), path) == []
    requires ActionsAt(RemoteActions(ctx, PathsAfter(ctx, KnownPaths(ctx), before + [c]), after), path) == []
    ensures var merged := MergedAt(local, RemoteActions(ctx, KnownPaths(ctx), before + [c] + after), path);
      var file := t.files[path];
      (merged.Some? && merged.value.kind == Kind.Conflict)
      <==> IsConflict(ctx.rows[path], Md5(file.content), file.modified, c.file.value.md5Checksum, c.file.value.modified)
  {
    var known := KnownPaths(ctx);
    OwnActionsOfOneChange(ctx, known, before, c, after, path);
    RemoteActionsFit(ctx, known, before + [c] + after);
    OneChangeMerges(t, ctx, local, RemoteActions(ctx, known, before + [c] + after), c, path);
  }

  lemma LocalOfRow(t: Tree, rows: States, local: seq<SyncAction>, path: string)
    requires LocalExactly(t, rows, local) && path in rows && path in t.files && !Ignored(path)
    ensures (LastAt(local, path).Some? && LastAt(local, path).value.kind == UpdateUpload)
            <==> LocalChanged(rows[path], Md5(t.files[path].content), t.files[path].modified)
  {
    LastAtOfDistinct(local, path);
    var mine := FileAction(t, rows, path);
    assert LocalActionAt(t, rows, path) == mine;
    if mine.Some? { assert mine.value in local && mine.value.relativePath == path; }
  }

  lemma OneChangeMerges(t: Tree, ctx: Context, local: seq<SyncAction>, remote: seq<SyncAction>, c: DriveChange,
                        path: string)
    requires LocalExactly(t, ctx.rows, local) && path in ctx.rows && path in t.files && !Ignored(path) && Live(c)
    requires forall a :: a in remote ==> RemoteShape(a)
    requires ActionsAt(remote, path) == Emit(LiveAction(ctx, c, path))
    ensures var merged := MergedAt(local, remote, path);
      var file := t.files[path];
      (merged.Some? && merged.value.kind == Kind.Conflict)
      <==> IsConflict(ctx.rows[path], Md5(file.content), file.modified, c.file.value.md5Checksum, c.file.value.modified)
  {
    hide MergedAt, LastAt, ActionsAt;
    LocalOfRow(t, ctx.rows, local, path);
    ConflictNeedsOneRemoteAction(local, remote, path);
  }

  lemma ActionsOfOneChange(ctx: Context, paths: map<string, string>, c: DriveChange, path: string)
    requires Live(c) && ResolvePath(ctx, paths, c) == Some(path)
    ensures RemoteActions(ctx, paths, [c]) == Emit(LiveAction(ctx, c, path))
    ensures ActionsAt(Emit(LiveAction(ctx, c, path)), path) == Emit(LiveAction(ctx, c, path))
  {
    assert [c][1..] == [];
    assert ActionOf(ctx, paths, c) == LiveAction(ctx, c, path);
    assert RemoteActions(ctx, NextPaths(ctx, paths, c), [c][1..]) == [];
    var one := Emit(LiveAction(ctx, c, path));
    if one != [] { assert one[1..] == [] && one[0].relativePath == path; }
  }

  lemma OwnActionsOfOneChange(ctx: Context, paths: map<string, string>, before: seq<DriveChange>, c: DriveChange,
                              after: seq<DriveChange>, path: string)
    requires Live(c) && ResolvePath(ctx, PathsAfter(ctx, paths, before), c) == Some(path)
    requires ActionsAt(RemoteActions(ctx, paths, before), path) == []
    requires ActionsAt(RemoteActions(ctx, PathsAfter(ctx, paths, before + [c]), after), path) == []
    ensures ActionsAt(RemoteActions(ctx, paths, before + [c] + after), path) == Emit(LiveAction(ctx, c, path))
  {
    DiffAppend(ctx, paths, before + [c], after);
    DiffAppend(ctx, paths, before, [c]);
    ActionsOfOneChange(ctx, PathsAfter(ctx, paths, before), c, path);
    var first, one := RemoteActions(ctx, paths, before), Emit(LiveAction(ctx, c, path));
    var last := RemoteActions(ctx, PathsAfter(ctx, paths, before + [c]), after);
    ActionsAtAppend(first + one, last, path);
    ActionsAtAppend(first, one, path);
  }
}
