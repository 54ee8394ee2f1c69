/** Exactly when a failed cycle is resumed: new files whose parents lose their rows on the way. */
module Orphans {
  import opened Model
  import opened Actions
  import opened FileStates
  import opened RemoteDiff
  import opened Merge
  import opened Executor
  import opened Effects
  import opened Convergence
  import opened Resume

  /** After `k` actions the path of a known file has been taken over by another file. */
  ghost predicate Gone(c: Cycle, k: nat, id: string) {
    id in c.ctx.byId && Taken(c, id) && Done(c, k, c.ctx.byId[id].relativePath)
  }

  /** After `k` actions the file of the `j`-th change has been fetched. */
  ghost predicate Fetched(c: Cycle, k: nat, j: nat) {
    && j < |c.changes| && EmittedAt(c.ctx, c.changes, j).Some?
    && Fetches(EmittedAt(c.ctx, c.changes, j).value) && Done(c, k, EmittedAt(c.ctx, c.changes, j).value.relativePath)
  }

  ghost predicate FetchedFile(c: Cycle, k: nat, j: nat, id: string) {
    Fetched(c, k, j) && c.changes[j].fileId == id
  }

  /** After `k` actions the file has a row. */
  ghost predicate HasRow(c: Cycle, k: nat, id: string) {
    (id in c.ctx.byId && !Gone(c, k, id)) || exists j: nat :: FetchedFile(c, k, j, id)
  }

  predicate LiveFile(c: Cycle, j: nat, id: string) {
    j < |c.changes| && Live(c.changes[j]) && c.changes[j].fileId == id
  }

  /** The path that a second comparison, after `k` actions of the cycle, has for a file when it meets the `i`-th
      change: that of its row if it kept or got one, or else the join of names along its chain of parents. */
  ghost function PathAgain(c: Cycle, k: nat, id: string, i: nat): Option<string>
    decreases i, 0
  {
    if id in c.ctx.byId && !Gone(c, k, id) then Some(c.ctx.byId[id].relativePath)
    else if exists j: nat :: FetchedFile(c, k, j, id) then
      var j: nat :| FetchedFile(c, k, j, id);
      Some(EmittedAt(c.ctx, c.changes, j).value.relativePath)
    else if exists j: nat :: j < i && LiveFile(c, j, id) then
      var j: nat :| j < i && LiveFile(c, j, id);
      ResolvedAgain(c, k, j)
    else None
  }

  ghost function ResolvedAgain(c: Cycle, k: nat, j: nat): Option<string>
    requires j < |c.changes| && Live(c.changes[j])
    decreases j, 1
  {
    var parent := ParentOf(c.changes[j].file.value);
    Below(c.ctx.root, parent, match parent case Some(p) => PathAgain(c, k, p, j) case None => None,
        c.changes[j].file.value.name)
  }

  /** The file of the `i`-th change is new, and is still to be fetched after `k` actions. */
  ghost predicate Awaited(c: Cycle, k: nat, i: nat) {
    && i < |c.changes| && c.changes[i].fileId !in c.ctx.byId && EmittedAt(c.ctx, c.changes, i).Some?
    && !Done(c, k, EmittedAt(c.ctx, c.changes, i).value.relativePath)
  }

  /** Every new file that is still to be fetched finds the same path again. */
  ghost predicate ChainsHold(c: Cycle, k: nat) {
    forall i: nat :: Awaited(c, k, i) ==>
      Live(c.changes[i]) && ResolvedAgain(c, k, i) == Some(EmittedAt(c.ctx, c.changes, i).value.relativePath)
  }

  /** A row of the table comes from the start or from a fetch, while only fetches have run. */
  lemma RowSource(c: Cycle, envs: seq<Env>, k: nat, rows: States, p: string) returns (j: nat)
    requires Resumable(c) && RowsDone(c, envs, k, rows) && OnlyFetches(c, k)
    requires p in rows && rows[p].driveFileId.Some? && Done(c, k, p)
    ensures FetchedFile(c, k, j, rows[p].driveFileId.value)
    ensures EmittedAt(c.ctx, c.changes, j).value.relativePath == p
  {
    hide Resumable, RowsDone, EmittedAt, OnlyFetches;
    var m :| 0 <= m < k && m < |c.queue| && c.queue[m].relativePath == p;
    FetchKind(c, k, m);
    j := FetchHasSource(c, c.queue[m]);
    DoneFetch(c, envs, k, rows, j);
  }

  /** A known file that was fetched itself keeps its path. */
  lemma OwnFetchIsNoTakeover(c: Cycle, k: nat, j: nat)
    requires Resumable(c) && Fetched(c, k, j) && c.changes[j].fileId in c.ctx.byId
    ensures !Taken(c, c.changes[j].fileId)
    ensures EmittedAt(c.ctx, c.changes, j).value.relativePath == c.ctx.byId[c.changes[j].fileId].relativePath
  {
    hide Computed, RemoteActions, EmittedAt, PathsAt, KnownPaths, IndexFull;
    var id := c.changes[j].fileId;
    assert IndexOk(c.ctx) by { FullIsOk(c.ctx); }
    KnownShape(c, j);
    if i :| TakenBy(c, id, i) {
      SamePathSameChange(c, i, j);
    }
  }

  lemma KnownShape(c: Cycle, j: nat)
    requires IndexOk(c.ctx) && j < |c.changes| && c.changes[j].fileId in c.ctx.byId
        && EmittedAt(c.ctx, c.changes, j).Some?
    ensures EmittedAt(c.ctx, c.changes, j).value.relativePath == c.ctx.byId[c.changes[j].fileId].relativePath
  {
    hide PathsAt, ActionOf;
    EmittedShape(c.ctx, PathsAt(c.ctx, c.changes, j), c.changes[j]);
  }

  /** With one remote action per path, the actions of an unknown and of a known file never meet. */
  lemma SamePathSameChange(c: Cycle, i: nat, j: nat)
    requires Resumable(c) && i < |c.changes| && j < |c.changes|
    requires c.changes[i].fileId !in c.ctx.byId && c.changes[j].fileId in c.ctx.byId
    requires EmittedAt(c.ctx, c.changes, i).Some? && EmittedAt(c.ctx, c.changes, j).Some?
    ensures EmittedAt(c.ctx, c.changes, i).value.relativePath != EmittedAt(c.ctx, c.changes, j).value.relativePath
  {
    hide RemoteActions, EmittedAt, KnownPaths, IndexFull, MergedAt, LocalExactly;
    RemoteComesFromChanges(c.ctx, c.changes);
    var one, other := EmittedAt(c.ctx, c.changes, i).value, EmittedAt(c.ctx, c.changes, j).value;
    assert one in c.remote && other in c.remote;
    if one.relativePath == other.relativePath {
      assert one == other;
      SameActionSameFile(c, i, j);
    }
  }

  lemma SameActionSameFile(c: Cycle, i: nat, j: nat)
    requires Resumable(c) && i < |c.changes| && j < |c.changes|
    requires EmittedAt(c.ctx, c.changes, i).Some? && EmittedAt(c.ctx, c.changes, i) == EmittedAt(c.ctx, c.changes, j)
    ensures c.changes[i].fileId in c.ctx.byId <==> c.changes[j].fileId in c.ctx.byId
  {
    hide Computed, RemoteActions, PathsAt, ActionOf, IndexFull, KnownPaths, ResolvePath;
    assert IndexOk(c.ctx) by { FullIsOk(c.ctx); }
    EmittedShape(c.ctx, PathsAt(c.ctx, c.changes, i), c.changes[i]);
    EmittedShape(c.ctx, PathsAt(c.ctx, c.changes, j), c.changes[j]);
  }

  // ----- the files that the second comparison knows -----

  /** The files with a row, and their paths, are those that `PathAgain` starts from. */
  lemma KnownAgain(c: Cycle, envs: seq<Env>, k: nat, rows: States, next: Context, id: string, i: nat)
    requires Resumable(c) && FreshIds(c, envs) && RowsDone(c, envs, k, rows) && OnlyFetches(c, k)
    requires next.rows == rows && IndexFull(next)
    ensures id in next.byId <==> HasRow(c, k, id)
    ensures id in next.byId ==> PathAgain(c, k, id, i) == Some(next.byId[id].relativePath)
  {
    hide Resumable, FreshIds, RowsDone, OnlyFetches, IndexFull, EmittedAt, Done, ResolvedAgain, Taken;
    if id in c.ctx.byId {
      KnownKept(c, envs, k, rows, next, id);
    }
    if j: nat :| FetchedFile(c, k, j, id) {
      FetchedHasRow(c, envs, k, rows, next, j, id);
      forall m: nat | FetchedFile(c, k, m, id) ensures m == j { OneChange(c, m, j); }
      if id in c.ctx.byId { OwnFetchIsNoTakeover(c, k, j); }
    } else if id in next.byId && id !in c.ctx.byId {
      NewRowIsFetched(c, envs, k, rows, next, id);
    }
  }

  lemma OneChange(c: Cycle, m: nat, j: nat)
    requires Resumable(c) && m < |c.changes| && j < |c.changes| && c.changes[m].fileId == c.changes[j].fileId
    ensures m == j
  {
    hide Computed, IndexFull;
  }

  lemma KnownKept(c: Cycle, envs: seq<Env>, k: nat, rows: States, next: Context, id: string)
    requires Resumable(c) && FreshIds(c, envs) && RowsDone(c, envs, k, rows) && OnlyFetches(c, k)
    requires next.rows == rows && IndexFull(next) && id in c.ctx.byId
    ensures id in next.byId <==> !Gone(c, k, id)
    ensures id in next.byId ==> next.byId[id].relativePath == c.ctx.byId[id].relativePath
  {
    hide Resumable, FreshIds, RowsDone, OnlyFetches, IndexFull, TakenBy, Done;
    var p := c.ctx.byId[id].relativePath;
    if i :| TakenBy(c, id, i) {
      if Done(c, k, p) {
        ParentIsGone(c, envs, k, rows, next, id, i);
      } else {
        PendingKnown(c, envs, k, rows, next, id);
      }
    } else {
      KnownStay(c, envs, k, rows, next, id);
    }
  }

  lemma FetchedHasRow(c: Cycle, envs: seq<Env>, k: nat, rows: States, next: Context, j: nat, id: string)
    requires Resumable(c) && RowsDone(c, envs, k, rows) && next.rows == rows && IndexFull(next)
    requires FetchedFile(c, k, j, id)
    ensures id in next.byId && next.byId[id].relativePath == EmittedAt(c.ctx, c.changes, j).value.relativePath
  {
    hide Resumable, RowsDone, EmittedAt, Done;
    DoneFetch(c, envs, k, rows, j);
  }

  lemma NewRowIsFetched(c: Cycle, envs: seq<Env>, k: nat, rows: States, next: Context, id: string)
    requires Resumable(c) && RowsDone(c, envs, k, rows) && OnlyFetches(c, k) && next.rows == rows && IndexFull(next)
    requires id in next.byId && id !in c.ctx.byId
    ensures exists j: nat :: FetchedFile(c, k, j, id)
  {
    hide RowsDone, EmittedAt, OnlyFetches, Computed, RemoteActions, Done;
    var p := next.byId[id].relativePath;
    if Done(c, k, p) {
      var j := RowSource(c, envs, k, rows, p);
    } else {
      UndoneRow(c, envs, k, rows, p);
    }
  }

  // ----- the paths of the second comparison -----

  /** The map of paths of the second comparison is `PathAgain`. */
  lemma {:induction false} PathsAreAgain(c: Cycle, envs: seq<Env>, k: nat, rows: States, next: Context, i: nat,
                                         id: string)
    requires Resumable(c) && FreshIds(c, envs) && RowsDone(c, envs, k, rows) && OnlyFetches(c, k)
    requires next.rows == rows && IndexFull(next) && next.root == c.ctx.root && i <= |c.changes|
    ensures Lookup(PathsAt(next, c.changes, i), Some(id)) == PathAgain(c, k, id, i)
    decreases i, 0
  {
    hide Resumable, FreshIds, RowsDone, OnlyFetches, IndexFull, PathsAt, HasRow, ResolvePath, PathAgain;
    KnownAgain(c, envs, k, rows, next, id, i);
    if i == 0 {
      NoPathsYet(next, c.changes);
      NothingAtStart(c, k, id);
    } else {
      var ch := c.changes[i - 1];
      PathsAtNext(next, c.changes, i - 1);
      PathsAreAgain(c, envs, k, rows, next, i - 1, id);
      KnownAgain(c, envs, k, rows, next, id, i - 1);
      LaterChange(c, k, id, i);
      if ch.fileId == id && Unknown(next, ch) {
        AgainBelow(c, envs, k, rows, next, i - 1);
      }
    }
  }

  lemma {:induction false} AgainBelow(c: Cycle, envs: seq<Env>, k: nat, rows: States, next: Context, m: nat)
    requires Resumable(c) && FreshIds(c, envs) && RowsDone(c, envs, k, rows) && OnlyFetches(c, k)
    requires next.rows == rows && IndexFull(next) && next.root == c.ctx.root
    requires m < |c.changes| && Unknown(next, c.changes[m])
    ensures ResolvePath(next, PathsAt(next, c.changes, m), c.changes[m]) == ResolvedAgain(c, k, m)
    decreases m, 1
  {
    hide Resumable, FreshIds, RowsDone, OnlyFetches, IndexFull, PathsAt, PathAgain;
    var parent := ParentOf(c.changes[m].file.value);
    if parent.Some? { PathsAreAgain(c, envs, k, rows, next, m, parent.value); }
  }

  lemma NothingAtStart(c: Cycle, k: nat, id: string)
    ensures !HasRow(c, k, id) ==> PathAgain(c, k, id, 0) == None
  {
    hide Gone, FetchedFile;
  }

  /** One change more matters to the file that it is about only. */
  lemma LaterChange(c: Cycle, k: nat, id: string, i: nat)
    requires Resumable(c) && 0 < i <= |c.changes|
    ensures !LiveFile(c, i - 1, id) ==> PathAgain(c, k, id, i) == PathAgain(c, k, id, i - 1)
    ensures LiveFile(c, i - 1, id) && !HasRow(c, k, id) ==>
              PathAgain(c, k, id, i) == ResolvedAgain(c, k, i - 1) && PathAgain(c, k, id, i - 1) == None
  {
    hide Computed, IndexFull, Gone, FetchedFile, ResolvedAgain;
    forall m: nat, j: nat | LiveFile(c, m, id) && LiveFile(c, j, id) ensures m == j { OneChange(c, m, j); }
    if j: nat :| j < i && LiveFile(c, j, id) {
      if j < i - 1 { assert j < i - 1 && LiveFile(c, j, id); }
    }
  }

  // ----- the theorem -----

  /** The change of a new file that is still to be fetched emits the same again exactly when its chain of parents
      leads to the same path again. */
  lemma EmitsAgainExactly(c: Cycle, envs: seq<Env>, k: nat, rows: States, next: Context, i: nat)
    requires Resumable(c) && FreshIds(c, envs) && RowsDone(c, envs, k, rows) && Awaited(c, k, i)
    requires next.rows == rows && IndexFull(next) && next.root == c.ctx.root
    ensures Live(c.changes[i])
    ensures EmittedAt(next, c.changes, i) == EmittedAt(c.ctx, c.changes, i) <==>
              ResolvedAgain(c, k, i) == Some(EmittedAt(c.ctx, c.changes, i).value.relativePath)
  {
    hide Resumable, FreshIds, RowsDone, OnlyFetches, IndexFull, PathsAt, ResolvePath, ActionOf, Done, ResolvedAgain;
    var p, ch := EmittedAt(c.ctx, c.changes, i).value.relativePath, c.changes[i];
    EmittedUnknown(c, i);
    FetchesFirst(c, k, i);
    StaysUnknown(c, envs, k, rows, next, i);
    AgainBelow(c, envs, k, rows, next, i);
    UnknownWithPath(c.ctx, PathsAt(c.ctx, c.changes, i), ch, p);
    UndoneRow(c, envs, k, rows, p);
    var again := ResolvedAgain(c, k, i);
    if again.Some? {
      UnknownWithPath(next, PathsAt(next, c.changes, i), ch, again.value);
    } else {
      NoResolvedPath(next, PathsAt(next, c.changes, i), ch);
    }
  }

  lemma NoResolvedPath(ctx: Context, paths: map<string, string>, ch: DriveChange)
    requires Unknown(ctx, ch) && ResolvePath(ctx, paths, ch) == None
    ensures ActionOf(ctx, paths, ch) == None
  {
  }

  lemma ResumesExactly(c: Cycle, envs: seq<Env>, k: nat, rows: States, listing: seq<FileState>)
    requires Resumable(c) && FreshIds(c, envs) && RowsDone(c, envs, k, rows) && TableListing(listing, rows)
    ensures Resumes(c, k, Context(rows, ById(listing), c.ctx.root)) <==> ChainsHold(c, k)
  {
    hide Resumable, FreshIds, RowsDone, EmittedAt, StoredTime, ById, IndexFull, Done, ResolvedAgain;
    var next := Context(rows, ById(listing), c.ctx.root);
    IndexFullAfter(c, envs, k, rows, listing);
    forall i | 0 <= i < |c.changes| && EmittedAt(c.ctx, c.changes, i).Some?
      ensures var done := Done(c, k, EmittedAt(c.ctx, c.changes, i).value.relativePath);
        && (done ==> (EmittedAt(next, c.changes, i) == None <==>
                        c.changes[i].removed == Some(true)
                        || (Live(c.changes[i]) &&
                            StoredTime(c.changes[i].file.value.modified) == c.changes[i].file.value.modified)))
        && (!done && c.changes[i].fileId in c.ctx.byId ==>
              EmittedAt(next, c.changes, i) == EmittedAt(c.ctx, c.changes, i))
    {
      EmittedIsRemote(c, i);
      if Done(c, k, EmittedAt(c.ctx, c.changes, i).value.relativePath) {
        DoneIsQuiet(c, envs, k, rows, next, i);
      } else if c.changes[i].fileId in c.ctx.byId {
        PendingKnownEmits(c, envs, k, rows, next, i);
      }
    }
    forall i: nat | Awaited(c, k, i)
      ensures Live(c.changes[i])
      ensures EmittedAt(next, c.changes, i) == EmittedAt(c.ctx, c.changes, i) <==>
                ResolvedAgain(c, k, i) == Some(EmittedAt(c.ctx, c.changes, i).value.relativePath)
    {
      EmitsAgainExactly(c, envs, k, rows, next, i);
    }
  }

  /** Whatever effect of whatever action a cycle fails at: the next comparison of the same changes finds exactly the
      work that is left if and only if every new file still to be fetched has a chain of parents that leads to the
      same path again. */
  lemma {:induction false} FailedCycleResumesExactly(c: Cycle, envs: seq<Env>, k: nat, mid: World, end: World,
                                                     listing: seq<FileState>)
    requires Resumable(c) && FreshIds(c, envs) && k < |c.queue| == |envs|
    requires ExecuteAll(c.world, c.queue[..k], envs[..k]) == Some(mid)
    requires MayStop(mid, PlanOf(mid, c.queue[k], envs[k]).ops, end)
    requires TableListing(listing, end.rows)
    ensures var next := Context(end.rows, ById(listing), c.ctx.root);
      if end.rows == mid.rows then Resumes(c, k, next) <==> ChainsHold(c, k)
      else Execute(mid, c.queue[k], envs[k]) == Some(end) && (Resumes(c, k + 1, next) <==> ChainsHold(c, k + 1))
  {
    hide Resumable, FreshIds, RowsDone, Resumes, MayStop, PlanOf, Execute, ById, ChainsHold;
    StoppedRows(mid, c.queue[k], envs[k], end);
    if end.rows == mid.rows {
      RowsAfterPrefix(c, envs, k, mid);
      ResumesExactly(c, envs, k, end.rows, listing);
    } else {
      OneMoreExecuted(c.world, c.queue, envs, k, mid, end);
      RowsAfterPrefix(c, envs, k + 1, end);
      ResumesExactly(c, envs, k + 1, end.rows, listing);
    }
  }
}
