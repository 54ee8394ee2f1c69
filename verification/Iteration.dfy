/** What a completed cycle hands to the next one: every remote action done, and a table that is true again. */
module Iteration {
  import opened Model
  import opened LocalFiles
  import opened Actions
  import opened FileStates
  import opened LocalDiff
  import opened RemoteDiff
  import opened Merge
  import opened Executor
  import opened Safety
  import opened Effects
  import opened Convergence
  import opened Resume
  import opened Cycles
  import opened Edits

  // ----- every remote action lands -----

  lemma MergedForRemote(c: Cycle, r: SyncAction) returns (j: nat)
    requires Faithful(c) && r in c.remote
    ensures j < |c.queue| && c.queue[j].relativePath == r.relativePath && RemoteShape(r)
    ensures (Fetches(c.queue[j]) <==> Fetches(r)) && (Fetches(r) ==> c.queue[j].driveFile == r.driveFile)
    ensures !Fetches(r) ==> c.queue[j] == r
  {
    hide MergedAt, RemoteActions, KnownPaths, LocalActionAt, IndexFull, ChangeTrue;
    FaithfulParts(c);
    assert IndexOk(c.ctx) by { IndexIsOk(c.ctx); }
    RemoteActionsFit(c.ctx, KnownPaths(c.ctx), c.changes);
    MergeIsPointwise(c.local, c.remote, r.relativePath);
    MergedIsQueued(c, r.relativePath);
    j :| 0 <= j < |c.queue| && c.queue[j].relativePath == r.relativePath;
    assert c.queue[j] in c.queue;
    CombineFetches(PickAt(c.local, r.relativePath), r);
  }

  /** The Drive side of convergence, for the changes that emitted an action: at the end of a completed cycle the path
      of a fetched file has a row with that file's id and the file's content, and the path of a removed file has
      neither row nor file. Which changes emit one is the subject of `Landing`. */
  lemma {:induction false} RemoteActionLands(c: Cycle, envs: seq<Env>, end: World, r: SyncAction)
    requires Faithful(c) && ByPriority(c.queue) && |envs| == |c.queue|
    requires forall i :: 0 <= i < |envs| ==> EnvOk(c.ctx, envs[i])
    requires ExecuteAll(c.world, c.queue, envs) == Some(end) && r in c.remote
    ensures if Fetches(r)
            then r.driveFile.Some? && Good(end, r.relativePath)
                 && end.rows[r.relativePath].driveFileId == Some(r.driveFile.value.id)
            else r.relativePath !in end.rows && r.relativePath !in end.tree.files
  {
    hide Faithful, EnvOk, ExecuteAll, Good, NewRow, Running, Execute, RowDone, Stepped;
    var j := MergedForRemote(c, r);
    var a := c.queue[j];
    CycleConverges(c, envs, end);
    RowOfAction(c, envs, end, j);
    if !Fetches(r) {
      var mid, copies := RunFrom(c, envs, end, 0);
      assert c.queue[0..] == c.queue && envs[0..] == envs;
      FileIsRemoved(c, mid, c.queue, envs, end, copies, j);
    }
  }

  lemma RowOfAction(c: Cycle, envs: seq<Env>, end: World, j: nat)
    requires Faithful(c) && j < |c.queue| == |envs| && ExecuteAll(c.world, c.queue, envs) == Some(end)
    ensures var a := c.queue[j];
      && (Deletes(a) ==> a.relativePath !in end.rows)
      && (Fetches(a) ==> a.driveFile.Some? && a.relativePath in end.rows
                         && end.rows[a.relativePath].driveFileId == Some(a.driveFile.value.id))
  {
    hide Execute, ExecuteAll, MergedAt, RemoteActions, LocalExactly, StateAfter, IsTmp, RowTrue, ChangeTrue, Stored;
    RowsAtEnd(c, envs, end);
    assert RowDone(end.rows, c.queue[j], envs[j]);
    if !Deletes(c.queue[j]) { DriveIdOfNewRow(c.queue[j], envs[j]); }
  }

  lemma RowsAtEnd(c: Cycle, envs: seq<Env>, end: World)
    requires Faithful(c) && |c.queue| == |envs| && ExecuteAll(c.world, c.queue, envs) == Some(end)
    ensures UniqueIds(end.rows) && forall i :: 0 <= i < |c.queue| ==> RowDone(end.rows, c.queue[i], envs[i])
    ensures forall p :: (forall i :: 0 <= i < |c.queue| ==> c.queue[i].relativePath != p) ==>
        RowAt(end.rows, p) == RowAt(c.ctx.rows, p)
  {
    hide Execute, ExecuteAll, MergedAt, RemoteActions, LocalExactly, RowDone, IsTmp, RowTrue, ChangeTrue;
    ShapesOfRun(c);
    forall i | 0 <= i < |c.queue| ensures Fits(c.world.rows, c.queue[i]) { assert Shape(c, c.queue[i]); }
    RowsArePointwise(c.world, c.queue, envs, end);
  }

  // ----- a table that is true again -----

  /** Drive answers an upload with the hash of what was sent. */
  predicate TrueReply(a: SyncAction, env: Env) { Uploads(a) ==> env.reply.md5Checksum == a.localMd5 }

  ghost predicate TrueReplies(c: Cycle, envs: seq<Env>) {
    forall i :: 0 <= i < |c.queue| && i < |envs| ==> TrueReply(c.queue[i], envs[i])
  }

  /** The row records the content of its file as the last common one. */
  ghost predicate Recorded(w: World, p: string) {
    p in w.rows ==> p in w.tree.files && w.rows[p].localMd5 == w.rows[p].driveMd5 == Some(Md5(w.tree.files[p].content))
  }

  /** What an action of the queue says about contents is true. */
  ghost predicate TrueAction(c: Cycle, a: SyncAction) {
    && (Uploads(a) ==> a.relativePath in c.world.tree.files
                       && a.localMd5 == Some(Md5(c.world.tree.files[a.relativePath].content)))
    && (Fetches(a) ==> a.driveFile.Some? && OwnFile(c.ctx, a) && a.driveFile.value.id in c.world.drive
                       && a.driveFile.value.md5Checksum == Some(Md5(c.world.drive[a.driveFile.value.id])))
  }

  lemma {:induction false} RemoteHashesTrue(ctx: Context, w: World, paths: map<string, string>,
                                            changes: seq<DriveChange>)
    requires forall ch :: ch in changes ==> ChangeTrue(w, ch)
    ensures forall r :: r in RemoteActions(ctx, paths, changes) && r.driveFile.Some? ==>
              && r.driveFile.value.id in w.drive
              && r.driveFile.value.md5Checksum == Some(Md5(w.drive[r.driveFile.value.id]))
    decreases |changes|
  {
    if changes != [] {
      assert changes[0] in changes;
      RemoteHashesTrue(ctx, w, NextPaths(ctx, paths, changes[0]), changes[1..]);
    }
  }

  lemma ActionsAreTrue(c: Cycle, a: SyncAction)
    requires Faithful(c) && a in c.queue
    ensures TrueAction(c, a)
  {
    hide MergedAt, RemoteActions, KnownPaths, IndexFull, ChangeTrue, OwnFile, RowTrue;
    FaithfulParts(c);
    assert IndexOk(c.ctx) by { IndexIsOk(c.ctx); }
    ShapesOfRun(c);
    var i :| 0 <= i < |c.queue| && c.queue[i] == a;
    assert Shape(c, a);
    RemoteActionsFit(c.ctx, KnownPaths(c.ctx), c.changes);
    RemoteHashesTrue(c.ctx, c.world, KnownPaths(c.ctx), c.changes);
    MergeIsPointwise(c.local, c.remote, a.relativePath);
    var l := PickAt(c.local, a.relativePath);
    if r :| r in c.remote && r.relativePath == a.relativePath {
      CombineFetches(l, r);
    } else {
      assert LocalActionAt(c.world.tree, c.ctx.rows, a.relativePath) == Some(a);
    }
  }

  ghost predicate AllRecorded(w: World, rest: seq<SyncAction>) {
    forall p :: !Convergence.Pending(rest, p) ==> Recorded(w, p)
  }

  lemma RecordedAtStart(c: Cycle)
    requires Faithful(c)
    ensures AllRecorded(c.world, c.queue)
  {
    hide IndexFull, ChangeTrue, MergedAt, RemoteActions, LocalExactly;
    forall p | !Convergence.Pending(c.queue, p) ensures Recorded(c.world, p) {
      if p in c.world.rows {
        SettledAtStart(c, p);
        NoActionAt(c, p);
        assert RowTrue(c, c.ctx.rows[p]) && !Ignored(p);
      }
    }
  }

  lemma RowRecords(c: Cycle, w: World, a: SyncAction, env: Env, next: World)
    requires Stepped(w, a, env, next) && TrueAction(c, a) && TrueReply(a, env)
    requires a.relativePath in c.world.tree.files ==> FileAt(w, a.relativePath) == FileAt(c.world, a.relativePath)
    requires Fetches(a) ==> DriveAt(w, a.driveFile.value.id) == DriveAt(c.world, a.driveFile.value.id)
    ensures Recorded(next, a.relativePath)
  {
    hide CopyPath, OwnFile;
    assert FileAt(next, a.relativePath) == NewFile(w, a, env, a.relativePath);
    assert RowAt(next.rows, a.relativePath) == NewRow(a, env);
  }

  lemma StepRecords(c: Cycle, w: World, rest: seq<SyncAction>, envs: seq<Env>, next: World, copies: set<string>)
    requires rest != [] && envs != [] && Inv(c, w, rest, copies) && AllRecorded(w, rest) && DistinctPaths(rest)
    requires Stepped(w, rest[0], envs[0], next) && TrueAction(c, rest[0])
    requires TrueReply(rest[0], envs[0])
    ensures AllRecorded(next, rest[1..])
  {
    hide Stepped, Settled, TrueAction, Recorded;
    var a := rest[0];
    forall p | !Convergence.Pending(rest[1..], p) ensures Recorded(next, p) {
      PendingShifts(rest, p);
      if p == a.relativePath {
        assert Convergence.Pending(rest, p);
        FetchIsKept(c, w, rest, a);
        RowRecords(c, w, a, envs[0], next);
      } else {
        StaysRecorded(w, a, envs[0], next, p);
      }
    }
  }

  lemma FetchIsKept(c: Cycle, w: World, rest: seq<SyncAction>, a: SyncAction)
    requires rest != [] && a == rest[0] && DriveKept(c, w, rest) && TrueAction(c, a)
    ensures Fetches(a) ==>
        a.driveFile.Some? && DriveAt(w, a.driveFile.value.id) == DriveAt(c.world, a.driveFile.value.id)
  {
    assert Convergence.Pending(rest, a.relativePath);
  }

  lemma StaysRecorded(w: World, a: SyncAction, env: Env, next: World, p: string)
    requires Stepped(w, a, env, next) && p != a.relativePath && Recorded(w, p)
    ensures Recorded(next, p)
  {
    hide CopyPath, NewRow;
    assert RowAt(next.rows, p) == RowAt(w.rows, p);
    if p in w.rows { StepLeaves(w, a, env, next, p); }
  }

  lemma {:induction false} RunRecords(c: Cycle, w: World, rest: seq<SyncAction>, envs: seq<Env>, n: nat, mid: World,
                                      copies: set<string>)
    requires Inv(c, w, rest, copies) && AllRecorded(w, rest) && DistinctPaths(rest) && IndexFull(c.ctx)
    requires n <= |rest| == |envs| && ExecuteAll(w, rest[..n], envs[..n]) == Some(mid)
    requires forall i :: 0 <= i < |rest| ==> Shape(c, rest[i]) && !IsTmp(rest[i].relativePath) && TrueAction(c, rest[i])
    requires forall i :: 0 <= i < |envs| ==> EnvOk(c.ctx, envs[i])
    requires forall i :: 0 <= i < |rest| ==> TrueReply(rest[i], envs[i])
    ensures AllRecorded(mid, rest[n..])
    decreases n
  {
    hide Inv, Stepped, Execute, TrueAction, TrueReply, AllRecorded, Shape, IsTmp, EnvOk, IndexFull, CopyMade;
    if n == 0 {
      NothingRun(w, rest[..n], envs[..n]);
      assert rest[n..] == rest;
    } else {
      var next, tail, tailEnvs := Execute(w, rest[0], envs[0]).value, rest[1..], envs[1..];
      assert rest[..n][1..] == tail[..n - 1] && envs[..n][1..] == tailEnvs[..n - 1] && rest[n..] == tail[n - 1..];
      FirstSteps(c, w, rest, envs[0], next, copies);
      StepKeepsInv(c, w, rest, envs[0], next, copies);
      StepRecords(c, w, rest, envs, next, copies);
      RunRecords(c, next, tail, tailEnvs, n - 1, mid, copies + CopyMade(w, rest[0], envs[0]));
    }
  }

  lemma NothingRun(w: World, actions: seq<SyncAction>, envs: seq<Env>)
    requires actions == [] && |actions| <= |envs|
    ensures ExecuteAll(w, actions, envs) == Some(w)
  {
  }

  /** After any part of a cycle with true replies, every row whose path has no action left records the content
      that its file has on both sides; every other row is the one of the start. */
  lemma TableIsTrue(c: Cycle, envs: seq<Env>, n: nat, mid: World, p: string)
    requires Faithful(c) && n <= |c.queue| == |envs| && TrueReplies(c, envs)
    requires forall i :: 0 <= i < |envs| ==> EnvOk(c.ctx, envs[i])
    requires ExecuteAll(c.world, c.queue[..n], envs[..n]) == Some(mid)
    ensures if Convergence.Pending(c.queue[n..], p) then RowAt(mid.rows, p) == RowAt(c.ctx.rows, p)
            else p in mid.rows ==> Good(mid, p) && Recorded(mid, p)
  {
    hide Faithful, EnvOk, ExecuteAll, AllRecorded, TrueAction, Shape, IsTmp, Execute, Good, Recorded, DriveKept,
        CopiesMade;
    InvAfter(c, envs, n, mid);
    InvAtStart(c);
    RecordedAtStart(c);
    FaithfulParts(c);
    forall i | 0 <= i < |c.queue| ensures TrueAction(c, c.queue[i]) { ActionsAreTrue(c, c.queue[i]); }
    RunRecords(c, c.world, c.queue, envs, n, mid, {});
    if !Convergence.Pending(c.queue[n..], p) { RecordedThere(mid, c.queue[n..], p); }
  }

  lemma RecordedThere(w: World, rest: seq<SyncAction>, p: string)
    requires AllRecorded(w, rest) && !Convergence.Pending(rest, p)
    ensures Recorded(w, p)
  {
    hide Recorded;
  }

  /** The changes list the file. */
  ghost predicate Listed(changes: seq<DriveChange>, id: string) {
    exists ch :: ch in changes && ch.fileId == id && (Live(ch) || ch.removed == Some(true))
  }

  /** After the first `n` actions of a cycle the next one starts from the same table. Its changes list again what
      was listed before, and every Drive file that is not as it was then and as those actions left it. */
  ghost predicate Follows(c: Cycle, n: nat, mid: World, next: Cycle) {
    && next.world.rows == mid.rows
    && (n < |c.queue| ==> forall id :: Listed(c.changes, id) ==> Listed(next.changes, id))
    && (forall id :: DriveAt(next.world, id) == DriveAt(mid, id) || Listed(next.changes, id))
    && (n < |c.queue| ==> forall id :: DriveAt(next.world, id) == DriveAt(c.world, id) || Listed(next.changes, id))
  }

  /** What is asked of any start besides a true table. */
  ghost predicate Readable(c: Cycle) {
    && Computed(c) && DistinctPaths(c.remote) && (forall ch :: ch in c.changes ==> ChangeTrue(c.world, ch))
    && NoTmpFiles(c.world) && (forall a :: a in c.queue ==> !IsTmp(a.relativePath))
    && (forall p :: p in c.ctx.rows ==> !Ignored(p) && p !in c.world.tree.dirs)
  }

  /** A cycle that runs to its end, or stops before its next action has reached the table, leaves a faithful
      start for the next one: whatever is edited on either side in between, if the changes list the Drive
      edits, every row is true again, and with it all that convergence asks of the table. */
  lemma {:induction false} FaithfulAgain(c: Cycle, envs: seq<Env>, n: nat, mid: World, next: Cycle,
                                         listing: seq<FileState>)
    requires Faithful(c) && Resumable(c) && FreshIds(c, envs) && n <= |c.queue| == |envs| && TrueReplies(c, envs)
    requires forall i :: 0 <= i < |envs| ==> EnvOk(c.ctx, envs[i])
    requires ExecuteAll(c.world, c.queue[..n], envs[..n]) == Some(mid)
    requires Follows(c, n, mid, next) && TableListing(listing, mid.rows)
    requires next.ctx == Context(mid.rows, ById(listing), c.ctx.root) && Readable(next)
    ensures Faithful(next)
  {
    hide Faithful, Resumable, FreshIds, EnvOk, ExecuteAll, Computed, IndexFull, ById, ChangeTrue, IsTmp, TrueReplies,
        RowsDone, Follows;
    RowsAfterPrefix(c, envs, n, mid);
    IndexFullAfter(c, envs, n, mid.rows, listing);
    IdsAfterPrefix(c, envs, n, mid);
    forall p | p in next.ctx.rows ensures RowTrue(next, next.ctx.rows[p]) {
      TableIsTrue(c, envs, n, mid, p);
      RowIsTrue(c, n, mid, next, p);
    }
    FaithfulFromParts(next);
  }

  lemma IdsAfterPrefix(c: Cycle, envs: seq<Env>, n: nat, mid: World)
    requires Faithful(c) && n <= |c.queue| == |envs| && ExecuteAll(c.world, c.queue[..n], envs[..n]) == Some(mid)
    ensures UniqueIds(mid.rows)
  {
    hide Execute, ExecuteAll, MergedAt, RemoteActions, LocalExactly, RowDone, IsTmp, RowTrue, ChangeTrue;
    ShapesOfRun(c);
    forall i | 0 <= i < n ensures Fits(c.world.rows, c.queue[..n][i]) { assert Shape(c, c.queue[i]); }
    RowsArePointwise(c.world, c.queue[..n], envs[..n], mid);
  }

  lemma RowIsTrue(c: Cycle, n: nat, mid: World, next: Cycle, p: string)
    requires Faithful(c) && n <= |c.queue| && Follows(c, n, mid, next) && next.ctx.rows == mid.rows && p in mid.rows
    requires if Convergence.Pending(c.queue[n..], p) then RowAt(mid.rows, p) == RowAt(c.ctx.rows, p)
             else Good(mid, p) && Recorded(mid, p)
    ensures RowTrue(next, next.ctx.rows[p])
  {
    hide Computed, IndexFull, ChangeTrue, IsTmp;
    if Convergence.Pending(c.queue[n..], p) {
      assert RowTrue(c, c.ctx.rows[p]);
      var id := mid.rows[p].driveFileId.value;
      assert Listed(c.changes, id) ==> Listed(next.changes, id);
    } else {
      var id := mid.rows[p].driveFileId.value;
      assert DriveAt(next.world, id) == DriveAt(mid, id) || Listed(next.changes, id);
    }
  }

  lemma FaithfulFromParts(c: Cycle)
    requires Computed(c) && IndexFull(c.ctx) && UniqueIds(c.ctx.rows)
    requires forall p :: p in c.ctx.rows ==> RowTrue(c, c.ctx.rows[p]) && !Ignored(p) && p !in c.world.tree.dirs
    requires forall ch :: ch in c.changes ==> ChangeTrue(c.world, ch)
    requires DistinctPaths(c.remote)
    requires NoTmpFiles(c.world) && forall a :: a in c.queue ==> !IsTmp(a.relativePath)
    ensures Faithful(c)
  {
    hide Computed, IndexFull, RowTrue, ChangeTrue, IsTmp;
  }

  // ----- many rounds -----

  /** A cycle of a folder that stopped after `ran` actions in the world `mid`. */
  datatype Round = Round(cycle: Cycle, envs: seq<Env>, ran: nat, mid: World)

  ghost predicate RoundOk(r: Round) {
    && Resumable(r.cycle) && FreshIds(r.cycle, r.envs) && r.ran <= |r.cycle.queue| == |r.envs|
        && TrueReplies(r.cycle, r.envs)
    && (forall i :: 0 <= i < |r.envs| ==> EnvOk(r.cycle.ctx, r.envs[i]))
    && ExecuteAll(r.cycle.world, r.cycle.queue[..r.ran], r.envs[..r.ran]) == Some(r.mid)
  }

  ghost predicate Then(r: Round, next: Cycle) {
    && Follows(r.cycle, r.ran, r.mid, next) && Readable(next)
    && exists listing :: TableListing(listing, r.mid.rows)
        && next.ctx == Context(r.mid.rows, ById(listing), r.cycle.ctx.root)
  }

  lemma NextIsFaithful(r: Round, next: Cycle)
    requires Faithful(r.cycle) && RoundOk(r) && Then(r, next)
    ensures Faithful(next)
  {
    hide Faithful, Resumable, FreshIds, EnvOk, ExecuteAll, TrueReplies, Follows, Readable, ById;
    var listing :| TableListing(listing, r.mid.rows)
        && next.ctx == Context(r.mid.rows, ById(listing), r.cycle.ctx.root);
    FaithfulAgain(r.cycle, r.envs, r.ran, r.mid, next, listing);
  }

  /** A complete round with a faithful start ends with both sides in step. */
  ghost predicate InStepIfComplete(r: Round)
    requires |r.envs| == |r.cycle.queue|
  {
    r.ran == |r.cycle.queue| ==> Converged(r.mid, CopiesMade(r.cycle.world, r.cycle.queue, r.envs))
  }

  lemma RoundConverges(r: Round)
    requires Faithful(r.cycle) && RoundOk(r)
    ensures InStepIfComplete(r)
  {
    hide Faithful, Resumable, FreshIds, TrueReplies, EnvOk, ExecuteAll, Converged, CopiesMade;
    if r.ran == |r.cycle.queue| {
      assert r.cycle.queue[..r.ran] == r.cycle.queue && r.envs[..r.ran] == r.envs;
      CycleConverges(r.cycle, r.envs, r.mid);
    }
  }

  lemma RoundLengths(r: Round)
    requires RoundOk(r)
    ensures |r.envs| == |r.cycle.queue|
  {
    hide Resumable, FreshIds, TrueReplies, EnvOk, ExecuteAll;
  }

  /** Over any number of rounds, complete or stopped, with any edits on either side in between: every complete
      round ends with both sides in step. */
  lemma {:induction false} EveryRoundConverges(rounds: seq<Round>, k: nat)
    requires k < |rounds| && Faithful(rounds[0].cycle)
    requires forall i :: 0 <= i < |rounds| ==> RoundOk(rounds[i])
    requires forall i :: 0 < i < |rounds| ==> Then(rounds[i - 1], rounds[i].cycle)
    ensures |rounds[k].envs| == |rounds[k].cycle.queue| && InStepIfComplete(rounds[k]) && Faithful(rounds[k].cycle)
    decreases k
  {
    hide Faithful, RoundOk, Then, InStepIfComplete;
    if k > 0 {
      EveryRoundConverges(rounds, k - 1);
      NextIsFaithful(rounds[k - 1], rounds[k].cycle);
    }
    RoundLengths(rounds[k]);
    RoundConverges(rounds[k]);
  }
}
