/** Whole sync cycles: fetching the pages of changes, running one cycle, and the page token over many cycles. */
module Cycles {
  import opened Model
  import opened LocalFiles
  import opened Actions
  import opened FileStates
  import opened LocalDiff
  import opened RemoteDiff
  import opened Merge
  import opened Queue
  import opened Executor
  import opened Effects
  import opened Convergence
  import opened Resume
  import opened Trees

  // ----- fetching the pages -----

  datatype Page = Page(changes: seq<DriveChange>, next: Option<string>, newStart: Option<string>)

  datatype ChangeSet = ChangeSet(changes: seq<DriveChange>, newStart: Option<string>)

  /** Following the pages from the token comes to an end. A token without a page is a failing request. */
  ghost predicate EndsWithin(server: map<string, Page>, token: string, n: nat)
    decreases n
  {
    n > 0 && (token in server && server[token].next.Some? ==> EndsWithin(server, server[token].next.value, n - 1))
  }

  /** The pages from the token on. */
  ghost function Chain(server: map<string, Page>, token: string, n: nat): Option<seq<Page>>
    requires EndsWithin(server, token, n)
    decreases n
  {
    if token !in server then None
    else
      match server[token].next
      case None => Some([server[token]])
      case Some(next) =>
        match Chain(server, next, n - 1)
        case None => None
        case Some(rest) => Some([server[token]] + rest)
  }

  ghost function ChangesOf(pages: seq<Page>): seq<DriveChange> {
    if pages == [] then [] else pages[0].changes + ChangesOf(pages[1..])
  }

  ghost function LastStart(pages: seq<Page>, current: Option<string>): Option<string>
    decreases |pages|
  {
    if pages == [] then current
    else LastStart(pages[1..], if pages[0].newStart.Some? then pages[0].newStart else current)
  }

  lemma OnePage(page: Page, current: Option<string>)
    ensures ChangesOf([page]) == page.changes
    ensures LastStart([page], current) == if page.newStart.Some? then page.newStart else current
  {
    var pages := [page];
    assert pages[1..] == [];
    assert ChangesOf(pages[1..]) == [];
  }

  /** The new start token is the last one that any page has. */
  lemma {:induction false} LastStartIsLast(pages: seq<Page>, current: Option<string>)
    ensures match LastStart(pages, current)
            case Some(token) =>
              || (exists i :: 0 <= i < |pages| && LastStartAt(pages, i, token))
              || (current == Some(token) && NoStart(pages))
            case None => current == None && NoStart(pages)
    decreases |pages|
  {
    if pages != [] {
      var first, rest := pages[0].newStart, pages[1..];
      var next := if first.Some? then first else current;
      LastStartIsLast(rest, next);
      var last := LastStart(rest, next);
      assert forall i :: 0 < i < |pages| ==> pages[i] == rest[i - 1];
      if last.Some? {
        if i :| 0 <= i < |rest| && LastStartAt(rest, i, last.value) {
          assert rest[i + 1..] == pages[i + 2..];
          assert LastStartAt(pages, i + 1, last.value);
        } else if first.Some? {
          assert LastStartAt(pages, 0, last.value);
        }
      }
    }
  }

  ghost predicate NoStart(pages: seq<Page>) { forall i :: 0 <= i < |pages| ==> pages[i].newStart == None }

  ghost predicate LastStartAt(pages: seq<Page>, i: nat, token: string)
    requires i < |pages|
  {
    pages[i].newStart == Some(token) && NoStart(pages[i + 1..])
  }

  method FetchAllChanges(server: map<string, Page>, start: string, ghost n: nat) returns (r: Option<ChangeSet>)
    requires EndsWithin(server, start, n)
    ensures match Chain(server, start, n)
            case None => r == None
            case Some(pages) => r == Some(ChangeSet(ChangesOf(pages), LastStart(pages, None)))
  {
    var allChanges, pageToken, newStart := [], start, None;
    ghost var left := n;
    ghost var whole := Chain(server, start, n);
    while true
      invariant EndsWithin(server, pageToken, left)
      invariant match Chain(server, pageToken, left)
                case None => whole == None
                case Some(rest) => whole.Some? && ChangesOf(whole.value) == allChanges + ChangesOf(rest)
                                   && LastStart(whole.value, None) == LastStart(rest, newStart)
      decreases left
    {
      if pageToken !in server {
        return None;
      }
      var page := server[pageToken];
      ghost var rest := Chain(server, pageToken, left);
      assert rest.Some? ==> rest.value[0] == page;
      if page.next.None? { OnePage(page, newStart); }
      allChanges := allChanges + page.changes;
      if page.newStart.Some? {
        newStart := page.newStart;
      }
      match page.next {
        case Some(next) =>
          assert rest.Some? ==> rest.value[1..] == Chain(server, next, left - 1).value;
          pageToken := next;
          left := left - 1;
        case None =>
          return Some(ChangeSet(allChanges, newStart));
      }
    }
  }

  /** The server's pages are pieces of its change log: every page holds what lies between its token and the
      next one, and the last one leads to the end of the log. */
  ghost predicate ServesLog(server: map<string, Page>, log: seq<DriveChange>, position: map<string, nat>) {
    forall token :: token in server ==>
      && token in position && position[token] <= |log|
      && match server[token].next
         case Some(next) =>
           next in position && position[token] <= position[next] <= |log|
           && server[token].changes == log[position[token]..position[next]] && server[token].newStart == None
         case None =>
           server[token].changes == log[position[token]..]
           && server[token].newStart.Some? && server[token].newStart.value in position
           && position[server[token].newStart.value] == |log|
  }

  /** The fetched list is the log from the token to its end, without a gap or a repetition, and the new token
      stands at the end. */
  lemma {:induction false} FetchedIsTheLog(server: map<string, Page>, log: seq<DriveChange>, position: map<string, nat>,
                                           token: string, n: nat, current: Option<string>)
    requires ServesLog(server, log, position) && EndsWithin(server, token, n) && Chain(server, token, n).Some?
    ensures token in position && position[token] <= |log|
    ensures ChangesOf(Chain(server, token, n).value) == log[position[token]..]
    ensures var last := LastStart(Chain(server, token, n).value, current);
      last.Some? && last.value in position && position[last.value] == |log|
    decreases n
  {
    var pages := Chain(server, token, n).value;
    match server[token].next {
      case None =>
        assert pages == [server[token]] && pages[1..] == [];
      case Some(next) =>
        FetchedIsTheLog(server, log, position, next, n - 1, current);
        assert pages[1..] == Chain(server, next, n - 1).value;
        assert log[position[token]..position[next]] + log[position[next]..] == log[position[token]..];
    }
  }

  // ----- one cycle -----

  datatype Ended = Completed | Paused | Failed

  /** A cycle, how many of its actions ran, and how it ended. */
  datatype Attempt = Attempt(cycle: Cycle, envs: seq<Env>, ran: nat, ended: Ended)

  ghost predicate EndsIn(at: Attempt, end: World) {
    var queue := at.cycle.queue;
    && at.ran <= |queue| == |at.envs| && (at.ran == |queue| <==> at.ended == Completed)
    && var reached := ExecuteAll(at.cycle.world, queue[..at.ran], at.envs[..at.ran]);
       reached.Some?
       && if at.ended == Failed
          then MayStop(reached.value, PlanOf(reached.value, queue[at.ran], at.envs[at.ran]).ops, end)
          else end == reached.value
  }

  ghost predicate ByPriority(queue: seq<SyncAction>) {
    forall i, j :: 0 <= i < j < |queue| ==> queue[i].Priority() <= queue[j].Priority()
  }

  /** All downloads stand before all conflicts, these before all uploads, and these before all deletions. */
  ghost predicate DownloadsFirst(queue: seq<SyncAction>) {
    forall i, j :: 0 <= i < j < |queue| ==>
      && (queue[j].kind == NewDownload || queue[j].kind == UpdateDownload ==>
            queue[i].kind == NewDownload || queue[i].kind == UpdateDownload)
      && (queue[j].kind == Kind.Conflict ==> Fetches(queue[i]))
      && (Deletes(queue[i]) ==> Deletes(queue[j]))
  }

  lemma PriorityMeans(queue: seq<SyncAction>)
    ensures ByPriority(queue) <==> DownloadsFirst(queue)
  {
    forall i, j | 0 <= i < j < |queue|
      ensures queue[i].Priority() <= queue[j].Priority() <==>
        && (queue[j].kind == NewDownload || queue[j].kind == UpdateDownload ==>
              queue[i].kind == NewDownload || queue[i].kind == UpdateDownload)
        && (queue[j].kind == Kind.Conflict ==> Fetches(queue[i]))
        && (Deletes(queue[i]) ==> Deletes(queue[j]))
    {
    }
  }

  lemma SortedQueue(merged: seq<SyncAction>, queue: seq<SyncAction>)
    requires DistinctPaths(merged) && queue == StableSort(ByPriorityThenPath, merged)
    ensures DistinctPaths(queue) && ByPriority(queue) && forall a :: a in queue <==> a in merged
  {
    hide StringLe, StableSort;
    SortSorts(ByPriorityThenPath, merged);
    DistinctPathsOfMultiset(merged, queue);
    assert forall i, j :: 0 <= i < j < |queue| ==> Le(ByPriorityThenPath, queue[i], queue[j]);
    assert forall a :: a in queue <==> a in multiset(queue);
    assert forall a :: a in merged <==> a in multiset(merged);
  }

  lemma StartsInOrder(w: World, listing: seq<FileState>)
    requires WellFormed(w.tree) && TableListing(listing, w.rows)
    ensures InOrder(w)
  {
  }

  /** However a cycle ends, tree and table are in order again for the next one. */
  lemma AttemptKeepsOrder(at: Attempt, end: World)
    requires EndsIn(at, end) && InOrder(at.cycle.world) && FetchesNames(at.cycle.queue, at.envs)
    ensures InOrder(end)
  {
    hide InOrder, MayStop, PlanOf, ExecuteAll, Proper;
    var queue := at.cycle.queue;
    var reached := ExecuteAll(at.cycle.world, queue[..at.ran], at.envs[..at.ran]).value;
    RunKeepsOrder(at.cycle.world, queue, at.envs, at.ran, reached);
    if at.ended == Failed { ActionKeepsOrder(reached, queue[at.ran], at.envs[at.ran], end); }
  }

  /** A sync folder: its stored page token, and the host its files, its Drive and its table live on. */
  class SyncFolder {
    var pageToken: Option<string>
    const root: string
    const host: Host

    constructor (root: string, host: Host)
      ensures this.root == root && this.host == host && pageToken == None
    {
      this.root, this.host, pageToken := root, host, None;
    }

    /** The comparisons, the merge and the queue of one cycle. */
    method Compare(listing: seq<FileState>, changes: seq<DriveChange>) returns (queue: SyncQueue, ghost cycle: Cycle)
      requires WellFormed(host.world.tree) && TableListing(listing, host.world.rows)
      ensures fresh(queue) && queue.inner == cycle.queue
      ensures cycle.world == host.world && cycle.changes == changes
          && cycle.ctx == Context(host.world.rows, ById(listing), root)
      ensures Computed(cycle) && ByPriority(cycle.queue) && DownloadsFirst(cycle.queue)
    {
      hide MergedAt, RemoteActions, ById, LocalActionAt, WellFormed, StableSort;
      var local := ComputeLocalChanges(host.world.tree, host.world.rows);
      var remote := ComputeRemoteChanges(listing, host.world.rows, root, changes);
      var merged := MergeActions(local, remote);
      queue := new SyncQueue.FromActions(merged);
      SortedQueue(merged, queue.inner);
      PriorityMeans(queue.inner);
      cycle := Cycle(host.world, Context(host.world.rows, ById(listing), root), changes, local, remote, queue.inner);
    }

    /** One cycle. `server` answers the requests for changes and `startToken` the request for a first token;
        `listing` is the table as the database lists it, and the two flags say whether the database stores the
        first token and the new one. The token moves only after the queue has run, and only if it is stored. */
    method RunSyncLoop(server: map<string, Page>, startToken: Option<string>, listing: seq<FileState>,
                       pausedAt: nat -> bool, envAt: nat -> Env, storesFirst: bool, storesNew: bool, ghost n: nat)
      returns (r: Outcome, ghost at: Option<Attempt>)
      requires forall token :: EndsWithin(server, token, n)
      requires WellFormed(host.world.tree) && TableListing(listing, host.world.rows)
      modifies this, host
      ensures at == None <==>
        || (old(pageToken) == None && (startToken == None || !storesFirst))
        || Chain(server, (if old(pageToken).Some? then old(pageToken) else startToken).value, n) == None
      ensures at == None ==>
        && r == Err && host.world == old(host.world)
        && pageToken == if old(pageToken) == None && storesFirst then startToken else old(pageToken)
      ensures at.Some? ==>
        var start := if old(pageToken).Some? then old(pageToken) else startToken;
        var cycle := at.value.cycle;
        && start.Some? && Chain(server, start.value, n).Some?
        && var pages := Chain(server, start.value, n).value;
        && cycle.world == old(host.world) && cycle.changes == ChangesOf(pages)
        && cycle.ctx == Context(old(host.world).rows, ById(listing), root)
        && Computed(cycle) && ByPriority(cycle.queue) && EndsIn(at.value, host.world)
        && (r == Err <==> at.value.ended == Failed || (LastStart(pages, None).Some? && !storesNew))
        && |at.value.envs| == |cycle.queue| && (forall i :: 0 <= i < |cycle.queue| ==> at.value.envs[i] == envAt(i))
        && (at.value.ended == Paused ==> pausedAt(at.value.ran))
        && (forall i :: 0 <= i < at.value.ran ==> !pausedAt(i))
        && pageToken == if r == Ok && LastStart(pages, None).Some? then LastStart(pages, None) else start
      ensures at.Some? && old(host.Healthy()) && (forall i: nat :: !pausedAt(i))
              && |at.value.envs| == |at.value.cycle.queue|
              && ExecuteAll(old(host.world), at.value.cycle.queue, at.value.envs).Some? ==>
                at.value.ended == Completed && (storesNew ==> r == Ok)
      ensures at == None || FetchesNames(at.value.cycle.queue, at.value.envs) ==> InOrder(host.world)
    {
      hide ExecuteAll, MayStop, PlanOf, Computed, ByPriority, ById, LastStart, Chain, ChangesOf, TableListing,
          WellFormed, InOrder, FetchesNames;
      StartsInOrder(host.world, listing);
      at := None;
      if pageToken == None {
        if startToken == None || !storesFirst {
          return Err, None;
        }
        pageToken := startToken;
      }
      var fetched := FetchAllChanges(server, pageToken.value, n);
      if fetched == None {
        return Err, None;
      }
      var queue;
      ghost var cycle;
      queue, cycle := Compare(listing, fetched.value.changes);
      var envs := seq(|queue.inner|, i requires 0 <= i => envAt(i));
      var paused := seq(|queue.inner|, i requires 0 <= i => pausedAt(i));
      assert old(host.Healthy()) ==> host.Healthy();
      assert (forall i: nat :: !pausedAt(i)) ==> forall i :: 0 <= i < |paused| ==> !paused[i];
      var executed;
      r, executed := host.Run(queue, paused, envs);
      assert forall i :: 0 <= i < executed ==> paused[i] == pausedAt(i);
      at := Some(Attempt(cycle, envs, executed,
          if r == Err then Failed else if executed == |envs| then Completed else Paused));
      if FetchesNames(cycle.queue, envs) { AttemptKeepsOrder(at.value, host.world); }
      if r == Err {
        return;
      }
      if fetched.value.newStart.Some? {
        if !storesNew {
          r := Err;
          return;
        }
        pageToken := fetched.value.newStart;
      }
    }
  }

  // ----- many cycles -----

  /** One cycle in the life of a folder: it took the changes of the log from `from` to `to`; `stored` says
      whether the database stored the new token. */
  datatype Turn = Turn(from: nat, to: nat, at: Attempt, stored: bool)
  {
    /** Where the page token stands afterwards. */
    function Next(): nat { if at.ended == Failed || !stored then from else to }
  }

  ghost predicate TurnOk(log: seq<DriveChange>, t: Turn) {
    && t.from <= t.to <= |log| && t.at.cycle.changes == log[t.from..t.to]
    && Computed(t.at.cycle) && exists end :: EndsIn(t.at, end)
  }

  /** A life of a folder, during which anything else may happen between the cycles: every cycle starts at the
      token that the one before has left. */
  ghost predicate Life(log: seq<DriveChange>, turns: seq<Turn>, first: nat, last: nat)
    decreases |turns|
  {
    if turns == [] then first == last
    else TurnOk(log, turns[0]) && turns[0].from == first && Life(log, turns[1..], turns[0].Next(), last)
  }

  /** A queued action does the work of a remote action: it is that action, or the conflict made of it. */
  predicate Carries(a: SyncAction, r: SyncAction) {
    a.relativePath == r.relativePath
    && (a == r || (a.kind == Kind.Conflict && r.kind == UpdateDownload && a.driveFile == r.driveFile))
  }

  /** An action that ran does the work of the `m`-th change. */
  ghost predicate RanFor(at: Attempt, m: nat) {
    var c := at.cycle;
    && m < |c.changes| && EmittedAt(c.ctx, c.changes, m).Some?
    && exists j :: 0 <= j < at.ran && j < |c.queue| && Carries(c.queue[j], EmittedAt(c.ctx, c.changes, m).value)
  }

  /** A live file that no row knows, and whose parent is neither the sync root nor a file with a path: the
      comparison skips it. */
  predicate Dropped(ctx: Context, changes: seq<DriveChange>, m: nat)
    requires m < |changes|
  {
    Unknown(ctx, changes[m]) && ResolvePath(ctx, PathsAt(ctx, changes, m), changes[m]) == None
  }

  /** A file that a row knows has gone to the trash: the comparison skips it as well. */
  predicate TrashedRow(ctx: Context, ch: DriveChange) {
    ch.removed != Some(true) && ch.file.Some? && ch.file.value.IsTrashed() && ch.fileId in ctx.byId
  }

  /** The change asks for something that the comparison passes over. */
  predicate Overlooked(ctx: Context, changes: seq<DriveChange>, m: nat)
    requires m < |changes|
  {
    Dropped(ctx, changes, m) || TrashedRow(ctx, changes[m])
  }

  /** The row that a live file with a path is compared with has its hash and its time. */
  predicate UpToDate(ctx: Context, paths: map<string, string>, ch: DriveChange)
    requires Live(ch)
  {
    match ResolvePath(ctx, paths, ch)
    case Some(path) =>
      var known := KnownState(ctx, ch.fileId, path);
      known.Some? && !RemoteChanged(known.value, ch.file.value.md5Checksum, ch.file.value.modified)
    case None => false
  }

  /** The change asks for nothing: it is about a file that is gone, or in the trash, and that no row knows; or it
      brings no file; or the row has what it says. */
  predicate NothingToDo(ctx: Context, changes: seq<DriveChange>, m: nat)
    requires m < |changes|
  {
    var ch := changes[m];
    if Live(ch) then UpToDate(ctx, PathsAt(ctx, changes, m), ch)
    else ch.fileId !in ctx.byId || (ch.removed != Some(true) && ch.file.None?)
  }

  /** A change that emits nothing asks for nothing or is overlooked, and never both. */
  lemma NothingEmittedExactly(ctx: Context, changes: seq<DriveChange>, m: nat)
    requires m < |changes|
    ensures EmittedAt(ctx, changes, m) == None <==> NothingToDo(ctx, changes, m) || Overlooked(ctx, changes, m)
    ensures !(NothingToDo(ctx, changes, m) && Overlooked(ctx, changes, m))
  {
    hide PathsAt;
  }

  /** The `m`-th change of a cycle asked for nothing, or its action ran, or the action of a later change for the
      same path. */
  ghost predicate Handled(at: Attempt, m: nat) {
    var c := at.cycle;
    m < |c.changes| &&
    if EmittedAt(c.ctx, c.changes, m) == None then NothingToDo(c.ctx, c.changes, m)
    else exists later :: m <= later < |c.changes| && RanFor(at, later)
                         && EmittedAt(c.ctx, c.changes, later).value.relativePath
                            == EmittedAt(c.ctx, c.changes, m).value.relativePath
  }

  /** The last change that emits for the path of the `m`-th one. */
  lemma LastEmitter(c: Cycle, m: nat) returns (later: nat)
    requires m < |c.changes| && EmittedAt(c.ctx, c.changes, m).Some?
    ensures m <= later < |c.changes| && EmittedAt(c.ctx, c.changes, later).Some?
    ensures var p := EmittedAt(c.ctx, c.changes, m).value.relativePath;
      && EmittedAt(c.ctx, c.changes, later).value.relativePath == p
      && forall i :: later < i < |c.changes| && EmittedAt(c.ctx, c.changes, i).Some? ==>
           EmittedAt(c.ctx, c.changes, i).value.relativePath != p
  {
    hide EmittedAt;
    var p := EmittedAt(c.ctx, c.changes, m).value.relativePath;
    later := m;
    var i := m + 1;
    while i < |c.changes|
      invariant m <= later < i <= |c.changes| && EmittedAt(c.ctx, c.changes, later).Some?
      invariant EmittedAt(c.ctx, c.changes, later).value.relativePath == p
      invariant forall k :: later < k < i && EmittedAt(c.ctx, c.changes, k).Some? ==>
                  EmittedAt(c.ctx, c.changes, k).value.relativePath != p
    {
      if EmittedAt(c.ctx, c.changes, i).Some? && EmittedAt(c.ctx, c.changes, i).value.relativePath == p { later := i; }
      i := i + 1;
    }
  }

  lemma {:induction false} LastIsCarried(current: Option<SyncAction>, own: seq<SyncAction>, path: string)
    requires own != [] && forall i :: 0 <= i < |own| ==> own[i].relativePath == path
    ensures RemoteAt(current, own, path).Some? && Carries(RemoteAt(current, own, path).value, own[|own| - 1])
    decreases |own|
  {
    var first := Some(Combine(current, own[0]));
    if |own| == 1 {
      assert own[1..] == [];
      assert RemoteAt(first, own[1..], path) == first;
    } else {
      LastIsCarried(first, own[1..], path);
    }
  }

  /** The remote actions of a path end with the action of its last change. */
  lemma {:induction false} OwnEndsWith(c: Cycle, n: nat, later: nat, path: string)
    requires later < n <= |c.changes| && EmittedAt(c.ctx, c.changes, later).Some?
    requires EmittedAt(c.ctx, c.changes, later).value.relativePath == path
    requires forall i :: later < i < n && EmittedAt(c.ctx, c.changes, i).Some? ==>
               EmittedAt(c.ctx, c.changes, i).value.relativePath != path
    ensures var own := ActionsAt(RemoteActions(c.ctx, KnownPaths(c.ctx), c.changes[..n]), path);
      own != [] && own[|own| - 1] == EmittedAt(c.ctx, c.changes, later).value
    decreases n
  {
    hide ActionOf, KnownPaths, NextPaths, RemoteActions;
    var before, ch := c.changes[..n - 1], c.changes[n - 1];
    var paths := PathsAfter(c.ctx, KnownPaths(c.ctx), before);
    assert c.changes[..n] == before + [ch];
    DiffAppend(c.ctx, KnownPaths(c.ctx), before, [ch]);
    OneRemote(c.ctx, paths, ch);
    var one := EmittedAt(c.ctx, c.changes, n - 1);
    assert one == ActionOf(c.ctx, paths, ch);
    ActionsAtAppend(RemoteActions(c.ctx, KnownPaths(c.ctx), before), Emit(one), path);
    OwnOfOne(one, path);
    if later < n - 1 { OwnEndsWith(c, n - 1, later, path); }
  }

  lemma OwnOfOne(one: Option<SyncAction>, path: string)
    ensures ActionsAt(Emit(one), path) == if one.Some? && one.value.relativePath == path then Emit(one) else []
  {
    var s := Emit(one);
    if s != [] { assert s[1..] == [] && ActionsAt(s[1..], path) == []; }
  }

  /** Some queued action does the work of the last change for a path. */
  lemma QueueCarries(c: Cycle, later: nat) returns (j: nat)
    requires Computed(c) && later < |c.changes| && EmittedAt(c.ctx, c.changes, later).Some?
    requires forall i :: later < i < |c.changes| && EmittedAt(c.ctx, c.changes, i).Some? ==>
               EmittedAt(c.ctx, c.changes, i).value.relativePath
               != EmittedAt(c.ctx, c.changes, later).value.relativePath
    ensures j < |c.queue| && Carries(c.queue[j], EmittedAt(c.ctx, c.changes, later).value)
  {
    hide EmittedAt, RemoteActions, KnownPaths, LocalActionAt, LocalExactly, RemoteAt;
    var r := EmittedAt(c.ctx, c.changes, later).value;
    var path := r.relativePath;
    OwnEndsWith(c, |c.changes|, later, path);
    assert c.changes[..|c.changes|] == c.changes;
    var current, own := LastAt(c.local, path), ActionsAt(c.remote, path);
    OnlyOwnPathMatters(current, c.remote, path);
    forall i | 0 <= i < |own| ensures own[i].relativePath == path { assert own[i] in own; }
    LastIsCarried(current, own, path);
    var a := RemoteAt(current, own, path).value;
    assert MergedAt(c.local, c.remote, path) == Some(a) && a in c.queue;
    j :| 0 <= j < |c.queue| && c.queue[j] == a;
  }

  /** A cycle that ran through its queue has handled exactly the changes that the comparison did not overlook. */
  lemma {:induction false} CompletedHandles(at: Attempt, end: World, m: nat)
    requires Computed(at.cycle) && EndsIn(at, end) && at.ended == Completed && m < |at.cycle.changes|
    ensures Handled(at, m) <==> !Overlooked(at.cycle.ctx, at.cycle.changes, m)
  {
    hide EmittedAt, Computed, Carries, ExecuteAll, NothingToDo, Overlooked;
    var c := at.cycle;
    NothingEmittedExactly(c.ctx, c.changes, m);
    if EmittedAt(c.ctx, c.changes, m).Some? {
      var later := LastEmitter(c, m);
      var j := QueueCarries(c, later);
      assert RanFor(at, later);
    }
  }

  /** A cycle on a server that serves its log is a turn: it takes the log from its token to the end, and the
      token it commits stands there. */
  lemma {:induction false} CycleIsTurn(server: map<string, Page>, log: seq<DriveChange>, position: map<string, nat>,
                                       start: string, n: nat, at: Attempt, stored: bool, end: World)
    requires ServesLog(server, log, position) && EndsWithin(server, start, n) && Chain(server, start, n).Some?
    requires at.cycle.changes == ChangesOf(Chain(server, start, n).value)
    requires Computed(at.cycle) && EndsIn(at, end)
    ensures start in position && TurnOk(log, Turn(position[start], |log|, at, stored))
    ensures var last := LastStart(Chain(server, start, n).value, None);
      last.Some? && last.value in position && position[last.value] == |log|
  {
    hide Computed, EndsIn;
    FetchedIsTheLog(server, log, position, start, n, None);
  }

  /** Over any life of a folder, whatever fails in it and wherever: without a pause, every change below the
      page token was fetched by a cycle that ran to its end, and was handled there unless the comparison of that
      cycle overlooked it. */
  lemma {:induction false} NoneLostButOverlooked(log: seq<DriveChange>, turns: seq<Turn>, first: nat, last: nat, i: nat)
    returns (h: nat)
    requires Life(log, turns, first, last) && first <= i < last
    requires forall t :: t in turns ==> t.at.ended != Paused
    ensures h < |turns| && turns[h].at.ended == Completed && turns[h].from <= i < turns[h].to
    ensures var m := i - turns[h].from;
      && m < |turns[h].at.cycle.changes| && i < |log| && turns[h].at.cycle.changes[m] == log[i]
      && (Handled(turns[h].at, m) <==> !Overlooked(turns[h].at.cycle.ctx, turns[h].at.cycle.changes, m))
    decreases |turns|
  {
    hide Computed, Handled, TurnOk, Overlooked;
    var t := turns[0];
    assert t in turns;
    TurnGoesOn(log, t);
    if t.at.ended == Completed && i < t.to {
      h := 0;
      CompletedTurn(log, t, i);
    } else {
      var rest := NoneLostButOverlooked(log, turns[1..], t.Next(), last, i);
      h := rest + 1;
      assert turns[h] == turns[1..][rest];
    }
  }

  lemma TurnGoesOn(log: seq<DriveChange>, t: Turn)
    requires TurnOk(log, t)
    ensures t.from <= t.to <= |log| && |t.at.cycle.changes| == t.to - t.from
    ensures forall i :: t.from <= i < t.to ==> t.at.cycle.changes[i - t.from] == log[i]
  {
    hide Computed, EndsIn;
  }

  lemma CompletedTurn(log: seq<DriveChange>, t: Turn, i: nat)
    requires TurnOk(log, t) && t.at.ended == Completed && t.from <= i < t.to
    ensures i - t.from < |t.at.cycle.changes|
    ensures Handled(t.at, i - t.from) <==> !Overlooked(t.at.cycle.ctx, t.at.cycle.changes, i - t.from)
  {
    hide Computed, Handled, EndsIn, Overlooked;
    TurnGoesOn(log, t);
    var end :| EndsIn(t.at, end);
    CompletedHandles(t.at, end, i - t.from);
  }

  // ----- what a pause loses -----

  predicate LocalKind(a: SyncAction) { a.kind == NewUpload || a.kind == UpdateUpload || a.kind == DeleteRemote }

  /** The page token moves after a paused cycle as after a complete one: the cycle has handled every change that
      was not overlooked exactly when all actions it did not run come from the local side alone. */
  lemma {:induction false} PauseLosesExactly(at: Attempt, end: World)
    requires Computed(at.cycle) && IndexOk(at.cycle.ctx) && EndsIn(at, end) && at.ended == Paused
    ensures (forall m :: 0 <= m < |at.cycle.changes| ==>
               Handled(at, m) || Overlooked(at.cycle.ctx, at.cycle.changes, m))
            <==> (forall j :: at.ran <= j < |at.cycle.queue| ==> LocalKind(at.cycle.queue[j]))
  {
    hide EmittedAt, Computed, Carries, ExecuteAll, LocalKind, IndexOk, NothingToDo, Overlooked;
    var c := at.cycle;
    if forall j :: at.ran <= j < |c.queue| ==> LocalKind(c.queue[j]) {
      forall m | 0 <= m < |c.changes| ensures Handled(at, m) || Overlooked(c.ctx, c.changes, m) {
        NothingEmittedExactly(c.ctx, c.changes, m);
        if EmittedAt(c.ctx, c.changes, m).Some? {
          var later := LastEmitter(c, m);
          var j := QueueCarries(c, later);
          CarriesIsRemote(c, c.queue[j], later);
          assert RanFor(at, later);
        }
      }
    }
    if forall m :: 0 <= m < |c.changes| ==> Handled(at, m) || Overlooked(c.ctx, c.changes, m) {
      forall j | 0 <= j < |c.queue| && !LocalKind(c.queue[j]) ensures j < at.ran {
        var m := RemoteComesFrom(c, j);
        NothingEmittedExactly(c.ctx, c.changes, m);
        assert Handled(at, m);
        HandledRan(at, m, j);
      }
    }
  }

  lemma CarriesIsRemote(c: Cycle, a: SyncAction, later: nat)
    requires IndexOk(c.ctx) && later < |c.changes| && EmittedAt(c.ctx, c.changes, later).Some?
    requires Carries(a, EmittedAt(c.ctx, c.changes, later).value)
    ensures !LocalKind(a)
  {
    hide ActionOf, PathsAt;
    EmittedShape(c.ctx, PathsAt(c.ctx, c.changes, later), c.changes[later]);
  }

  /** A queued action of a remote kind has a change for its path. */
  lemma RemoteComesFrom(c: Cycle, j: nat) returns (m: nat)
    requires Computed(c) && j < |c.queue| && !LocalKind(c.queue[j])
    ensures m < |c.changes| && EmittedAt(c.ctx, c.changes, m).Some?
    ensures EmittedAt(c.ctx, c.changes, m).value.relativePath == c.queue[j].relativePath
  {
    hide EmittedAt, RemoteActions, KnownPaths, RemoteAt, MergedAt, LocalExactly, LocalKind;
    var a := c.queue[j];
    OwnOrLocal(c, a);
    var own := ActionsAt(c.remote, a.relativePath);
    OnlyOwnPathMatters(None, c.remote, a.relativePath);
    assert own[0] in own;
    RemoteComesFromChanges(c.ctx, c.changes);
    m :| 0 <= m < |c.changes| && EmittedAt(c.ctx, c.changes, m) == Some(own[0]);
  }

  /** Without a remote action for its path a queued action is a local one. */
  lemma OwnOrLocal(c: Cycle, a: SyncAction)
    requires Computed(c) && a in c.queue
    ensures ActionsAt(c.remote, a.relativePath) == [] ==> LocalKind(a)
  {
    hide EmittedAt, RemoteActions, KnownPaths;
    OnlyOwnPathMatters(LastAt(c.local, a.relativePath), c.remote, a.relativePath);
    LastAtOfDistinct(c.local, a.relativePath);
  }

  /** An action for the path of a handled change that emitted one has run. */
  lemma HandledRan(at: Attempt, m: nat, j: nat)
    requires Computed(at.cycle) && j < |at.cycle.queue| && Handled(at, m)
    requires EmittedAt(at.cycle.ctx, at.cycle.changes, m).Some?
    requires EmittedAt(at.cycle.ctx, at.cycle.changes, m).value.relativePath == at.cycle.queue[j].relativePath
    ensures j < at.ran
  {
    hide EmittedAt;
  }
}
