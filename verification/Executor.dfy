/** Executing sync actions: every action is a short sequence of single effects on the local tree, on
    Drive and on the table, and may stop between any two of them or in the middle of a write. */
module Executor {
  import opened Model
  import opened Paths
  import opened LocalFiles
  import opened Actions
  import opened FileStates
  import opened Queue

  /** `drive` holds the content of every file that can be downloaded, by id. */
  datatype World = World(tree: Tree, drive: map<string, Content>, rows: States)

  datatype Op =
    | MakeDirs(dir: string)
    | WriteFile(path: string, content: Content, modified: Time)
    | Rename(source: string, target: string)
    | RemoveFile(path: string)
    | DriveCreate(id: string, content: Content)
    | DriveUpdate(id: string, content: Content)
    | DriveDelete(id: string)
    | UpsertRow(state: FileState)
    | DeleteRow(id: string)

  /** The directory and everything above it. */
  function Ancestors(dir: string): set<string>
    decreases |dir|
  {
    if dir == "" then {} else {dir} + Ancestors(Parent(dir))
  }

  /** One effect; `None` when the operating system, the server or the database refuses it. */
  function Apply(w: World, op: Op): Option<World> {
    match op
    case MakeDirs(dir) =>
      if exists d :: d in Ancestors(dir) && d in w.tree.files then None
      else Some(w.(tree := w.tree.(dirs := w.tree.dirs + Ancestors(dir))))
    case WriteFile(path, content, modified) =>
      if path in w.tree.dirs || !(Parent(path) == "" || Parent(path) in w.tree.dirs) then None
      else Some(w.(tree := w.tree.(files := w.tree.files[path := LocalFile(content, modified)])))
    case Rename(source, target) =>
      if source !in w.tree.files || target in w.tree.dirs then None
      else Some(w.(tree := w.tree.(files := (w.tree.files - {source})[target := w.tree.files[source]])))
    case RemoveFile(path) =>
      if path !in w.tree.files then None else Some(w.(tree := w.tree.(files := w.tree.files - {path})))
    case DriveCreate(id, content) => if id in w.drive then None else Some(w.(drive := w.drive[id := content]))
    case DriveUpdate(id, content) => if id !in w.drive then None else Some(w.(drive := w.drive[id := content]))
    case DriveDelete(id) => if id !in w.drive then None else Some(w.(drive := w.drive - {id}))
    case UpsertRow(state) =>
      if exists p :: p in w.rows && p != state.relativePath && w.rows[p].id == state.id then None
      else Some(w.(rows := w.rows[state.relativePath := Stored(state)]))
    case DeleteRow(id) => Some(w.(rows := map p | p in w.rows && w.rows[p].id != id :: w.rows[p]))
  }

  /** The world after all effects, if none is refused. */
  function ApplyOps(w: World, ops: seq<Op>): Option<World>
    decreases |ops|
  {
    if ops == [] then Some(w)
    else match Apply(w, ops[0])
         case None => None
         case Some(next) => ApplyOps(next, ops[1..])
  }

  /** `torn` is what a write leaves behind when it stops early: the file with a part of the content. */
  predicate TornWrite(w: World, op: Op, torn: World) {
    && op.WriteFile?
    && exists n :: 0 <= n <= |op.content| && Apply(w, WriteFile(op.path, op.content[..n], op.modified)) == Some(torn)
  }

  /** The worlds in which an interrupted run of the effects can end. */
  ghost predicate MayStop(w: World, ops: seq<Op>, end: World)
    decreases |ops|
  {
    || end == w
    || (ops != [] && TornWrite(w, ops[0], end))
    || (ops != [] && Apply(w, ops[0]).Some? && MayStop(Apply(w, ops[0]).value, ops[1..], end))
  }

  // ----- the effects of each action -----

  /** What the outside supplies while one action runs: the time, the stamp for a conflict copy, a fresh
      row id, the id Drive gives to a new file, and the resource it answers an upload with. */
  datatype Env = Env(now: Time, stamp: string, uuid: string, newId: string, reply: DriveFile)

  /** The effects of an action, and whether it gets past its reads and checks. */
  datatype Plan = Plan(ops: seq<Op>, ok: bool)

  const REFUSED: Plan := Plan([], false)

  function WriteAtomicOps(path: string, content: Content, now: Time): seq<Op> {
    [MakeDirs(Parent(path)), WriteFile(TempPath(path), content, now), Rename(TempPath(path), path)]
  }

  function StateAfterUpload(env: Env, path: string, driveId: string, md5: Option<Md5>,
                            modified: Option<Time>): FileState {
    FileState(env.uuid, path, Some(driveId), env.reply.md5Checksum, env.reply.modified, md5, modified,
              SyncState(Synced, None), Some(env.now))
  }

  function StateAfterDownload(env: Env, path: string, file: DriveFile, existing: Option<FileState>,
                              kind: SyncStateKind): FileState {
    var id := match existing case Some(s) => s.id case None => env.uuid;
    FileState(id, path, Some(file.id), file.md5Checksum, file.modified, file.md5Checksum, file.modified,
              SyncState(kind, None), Some(env.now))
  }

  /** The name of the conflict copy is chosen among the paths that do not exist. */
  function CopyPath(w: World, a: SyncAction, env: Env): string {
    ConflictCopyOf(a.relativePath, env.stamp, w.tree.files.Keys + w.tree.dirs)
  }

  function NewUploadPlan(w: World, a: SyncAction, env: Env): Plan {
    if a.relativePath !in w.tree.files then REFUSED
    else Plan([DriveCreate(env.newId, w.tree.files[a.relativePath].content),
               UpsertRow(StateAfterUpload(env, a.relativePath, env.newId, a.localMd5, a.localModified))], true)
  }

  function UpdateUploadPlan(w: World, a: SyncAction, env: Env): Plan {
    if a.state.None? || a.relativePath !in w.tree.files || a.state.value.driveFileId.None? then REFUSED
    else
      var id := a.state.value.driveFileId.value;
      Plan([DriveUpdate(id, w.tree.files[a.relativePath].content),
            UpsertRow(StateAfterUpload(env, a.relativePath, id, a.localMd5, a.localModified))], true)
  }

  function DownloadPlan(w: World, a: SyncAction, env: Env): Plan {
    if a.driveFile.None? || a.driveFile.value.id !in w.drive then REFUSED
    else Plan(WriteAtomicOps(a.relativePath, w.drive[a.driveFile.value.id], env.now)
              + [UpsertRow(StateAfterDownload(env, a.relativePath, a.driveFile.value, a.state, Synced))], true)
  }

  function ConflictPlan(w: World, a: SyncAction, env: Env): Plan {
    if a.state.None? || a.driveFile.None? || a.relativePath !in w.tree.files then REFUSED
    else
      var copyOps := WriteAtomicOps(CopyPath(w, a, env), w.tree.files[a.relativePath].content, env.now);
      if a.driveFile.value.id !in w.drive then Plan(copyOps, false)
      else
        Plan(copyOps + WriteAtomicOps(a.relativePath, w.drive[a.driveFile.value.id], env.now)
             + [UpsertRow(StateAfterDownload(env, a.relativePath, a.driveFile.value, a.state,
                 SyncStateKind.Conflict))], true)
  }

  function DeleteRemotePlan(a: SyncAction): Plan {
    if a.state.None? || a.state.value.driveFileId.None? then REFUSED
    else Plan([DriveDelete(a.state.value.driveFileId.value), DeleteRow(a.state.value.id)], true)
  }

  function DeleteLocalPlan(a: SyncAction): Plan {
    if a.state.None? then REFUSED
    else Plan([RemoveFile(a.relativePath), DeleteRow(a.state.value.id)], true)
  }

  function PlanOf(w: World, a: SyncAction, env: Env): Plan {
    match a.kind
    case NewUpload => NewUploadPlan(w, a, env)
    case UpdateUpload => UpdateUploadPlan(w, a, env)
    case NewDownload => DownloadPlan(w, a, env)
    case UpdateDownload => DownloadPlan(w, a, env)
    case Conflict => ConflictPlan(w, a, env)
    case DeleteRemote => DeleteRemotePlan(a)
    case DeleteLocal => DeleteLocalPlan(a)
  }

  /** The world after an action that runs to its end. */
  function Execute(w: World, a: SyncAction, env: Env): Option<World> {
    var plan := PlanOf(w, a, env);
    if plan.ok then ApplyOps(w, plan.ops) else None
  }

  function ExecuteAll(w: World, actions: seq<SyncAction>, envs: seq<Env>): Option<World>
    requires |actions| <= |envs|
    decreases |actions|
  {
    if actions == [] then Some(w)
    else match Execute(w, actions[0], envs[0])
         case None => None
         case Some(next) => ExecuteAll(next, actions[1..], envs[1..])
  }

  // ----- the executor -----

  /** What happens to one effect: it goes through, it fails, it takes effect but reports a failure (a reply
      that is lost), or, for a write, it stops half-way. */
  datatype Fault = NoFault | Fails | ReplyLost | Tears(bytes: nat)

  class Host {
    var world: World
    var faults: seq<Fault>

    /** Nothing will fail that is not refused. */
    ghost predicate Healthy()
      reads this
    {
      forall i :: 0 <= i < |faults| ==> faults[i] == NoFault
    }

    /** One effect on the world, or a failure. */
    method Do(op: Op) returns (r: Outcome)
      modifies this
      ensures old(Healthy()) ==> Healthy() && (r == Ok <==> Apply(old(world), op).Some?)
      ensures Apply(old(world), op) == None ==> r == Err && world == old(world)
      ensures r == Err ==> Apply(old(world), op) == None || (old(faults) != [] && old(faults)[0] != NoFault)
      ensures faults == if old(faults) == [] then [] else old(faults)[1..]
      ensures r == Ok ==> Apply(old(world), op) == Some(world)
      ensures r == Err ==>
          world == old(world) || TornWrite(old(world), op, world) || Apply(old(world), op) == Some(world)
    {
      var fault := NoFault;
      if faults != [] {
        fault := faults[0];
        faults := faults[1..];
      }
      var next := Apply(world, op);
      if fault == Fails || next.None? {
        return Err;
      }
      if fault.Tears? && op.WriteFile? && fault.bytes <= |op.content| {
        var torn := Apply(world, WriteFile(op.path, op.content[..fault.bytes], op.modified));
        world := torn.value;
        return Err;
      }
      world := next.value;
      r := if fault == ReplyLost then Err else Ok;
    }

    /** Writes a temporary file beside the target and renames it. */
    method WriteAtomic(path: string, content: Content, now: Time) returns (r: Outcome)
      modifies this
      ensures r == Ok ==> ApplyOps(old(world), WriteAtomicOps(path, content, now)) == Some(world)
      ensures r == Err ==> MayStop(old(world), WriteAtomicOps(path, content, now), world)
      ensures old(Healthy()) ==>
          Healthy() && (r == Ok <==> ApplyOps(old(world), WriteAtomicOps(path, content, now)).Some?)
    {
      ghost var ops := WriteAtomicOps(path, content, now);
      ghost var w0 := world;
      r := Do(MakeDirs(Parent(path)));
      if r == Err { return; }
      ghost var w1 := world;
      assert ops[1..][0] == ops[1] && ops[1..][1..] == ops[2..] && ops[2..][0] == ops[2] && ops[2..][1..] == [];
      r := Do(WriteFile(TempPath(path), content, now));
      if r == Err {
        assert MayStop(w1, ops[1..], world);
        return;
      }
      ghost var w2 := world;
      r := Do(Rename(TempPath(path), path));
      assert r == Ok ==> ApplyOps(w2, ops[2..]) == ApplyOps(world, []);
      assert r == Err ==> MayStop(w2, ops[2..], world);
      assert r == Err ==> MayStop(w1, ops[1..], world);
      assert ApplyOps(w0, ops) == ApplyOps(w1, ops[1..]) == ApplyOps(w2, ops[2..]);
    }

    /** One action, effect by effect; every `Err` stops it where it is. */
    method ExecuteOne(a: SyncAction, env: Env) returns (r: Outcome)
      modifies this
      ensures if r == Ok then Execute(old(world), a, env) == Some(world)
              else MayStop(old(world), PlanOf(old(world), a, env).ops, world)
      ensures old(Healthy()) ==> Healthy() && (r == Ok <==> Execute(old(world), a, env).Some?)
    {
      match a.kind
      case NewUpload => r := ExecuteNewUpload(a, env);
      case UpdateUpload => r := ExecuteUpdateUpload(a, env);
      case NewDownload => r := ExecuteDownload(a, env);
      case UpdateDownload => r := ExecuteDownload(a, env);
      case Conflict => r := ExecuteConflict(a, env);
      case DeleteRemote => r := ExecuteDeleteRemote(a);
      case DeleteLocal => r := ExecuteDeleteLocal(a);
    }

    /** Two effects in a row. */
    method DoBoth(first: Op, second: Op) returns (r: Outcome)
      modifies this
      ensures r == Ok ==> ApplyOps(old(world), [first, second]) == Some(world)
      ensures r == Err ==> MayStop(old(world), [first, second], world)
      ensures old(Healthy()) ==> Healthy() && (r == Ok <==> ApplyOps(old(world), [first, second]).Some?)
    {
      ghost var w0 := world;
      assert [first, second][1..] == [second] && [second][1..] == [];
      r := Do(first);
      if r == Err { return; }
      ghost var w1 := world;
      r := Do(second);
      assert r == Ok ==> ApplyOps(w1, [second]) == ApplyOps(world, []);
      assert r == Err ==> MayStop(w1, [second], world);
    }

    method ExecuteNewUpload(a: SyncAction, env: Env) returns (r: Outcome)
      modifies this
      ensures var plan := NewUploadPlan(old(world), a, env);
        && (if r == Ok then plan.ok && ApplyOps(old(world), plan.ops) == Some(world)
            else MayStop(old(world), plan.ops, world))
        && (old(Healthy()) ==> Healthy() && (r == Ok <==> plan.ok && ApplyOps(old(world), plan.ops).Some?))
    {
      if a.relativePath !in world.tree.files {
        return Err;
      }
      r := DoBoth(DriveCreate(env.newId, world.tree.files[a.relativePath].content),
                  UpsertRow(StateAfterUpload(env, a.relativePath, env.newId, a.localMd5, a.localModified)));
    }

    method ExecuteUpdateUpload(a: SyncAction, env: Env) returns (r: Outcome)
      modifies this
      ensures var plan := UpdateUploadPlan(old(world), a, env);
        && (if r == Ok then plan.ok && ApplyOps(old(world), plan.ops) == Some(world)
            else MayStop(old(world), plan.ops, world))
        && (old(Healthy()) ==> Healthy() && (r == Ok <==> plan.ok && ApplyOps(old(world), plan.ops).Some?))
    {
      if a.state.None? || a.relativePath !in world.tree.files || a.state.value.driveFileId.None? {
        return Err;
      }
      var id := a.state.value.driveFileId.value;
      r := DoBoth(DriveUpdate(id, world.tree.files[a.relativePath].content),
                  UpsertRow(StateAfterUpload(env, a.relativePath, id, a.localMd5, a.localModified)));
    }

    method ExecuteDownload(a: SyncAction, env: Env) returns (r: Outcome)
      modifies this
      ensures var plan := DownloadPlan(old(world), a, env);
        && (if r == Ok then plan.ok && ApplyOps(old(world), plan.ops) == Some(world)
            else MayStop(old(world), plan.ops, world))
        && (old(Healthy()) ==> Healthy() && (r == Ok <==> plan.ok && ApplyOps(old(world), plan.ops).Some?))
    {
      if a.driveFile.None? || a.driveFile.value.id !in world.drive {
        return Err;
      }
      r := WriteAndRecord(a.relativePath, world.drive[a.driveFile.value.id], env.now,
                          StateAfterDownload(env, a.relativePath, a.driveFile.value, a.state, Synced));
    }

    /** An atomic write, and then the row. */
    method WriteAndRecord(path: string, content: Content, now: Time, state: FileState) returns (r: Outcome)
      modifies this
      ensures var ops := WriteAtomicOps(path, content, now) + [UpsertRow(state)];
        && (if r == Ok then ApplyOps(old(world), ops) == Some(world) else MayStop(old(world), ops, world))
        && (old(Healthy()) ==> Healthy() && (r == Ok <==> ApplyOps(old(world), ops).Some?))
    {
      hide ApplyOps, MayStop, WriteAtomicOps, Apply;
      ghost var w0, ops := world, WriteAtomicOps(path, content, now);
      r := WriteAtomic(path, content, now);
      if r == Err {
        StopsEarlier(w0, ops, [UpsertRow(state)], world);
        AppliesInTwoParts(w0, ops, [UpsertRow(state)]);
        return;
      }
      r := FinishWith(w0, ops, UpsertRow(state));
    }

    /** The last effect of a plan whose other effects are done. */
    method FinishWith(ghost start: World, ghost done: seq<Op>, op: Op) returns (r: Outcome)
      requires ApplyOps(start, done) == Some(world)
      modifies this
      ensures if r == Ok then ApplyOps(start, done + [op]) == Some(world) else MayStop(start, done + [op], world)
      ensures old(Healthy()) ==> Healthy() && (r == Ok <==> ApplyOps(start, done + [op]).Some?)
    {
      ghost var before := world;
      r := Do(op);
      AppliesInTwoParts(start, done, [op]);
      assert [op][1..] == [];
      assert r == Ok ==> ApplyOps(before, [op]) == ApplyOps(world, []);
      if r == Err {
        assert MayStop(before, [op], world);
        StopsLater(start, done, [op], world);
      }
    }

    method ExecuteConflict(a: SyncAction, env: Env) returns (r: Outcome)
      modifies this
      ensures var plan := ConflictPlan(old(world), a, env);
        && (if r == Ok then plan.ok && ApplyOps(old(world), plan.ops) == Some(world)
            else MayStop(old(world), plan.ops, world))
        && (old(Healthy()) ==> Healthy() && (r == Ok <==> plan.ok && ApplyOps(old(world), plan.ops).Some?))
    {
      if a.state.None? || a.driveFile.None? || a.relativePath !in world.tree.files {
        return Err;
      }
      hide ApplyOps, MayStop, WriteAtomicOps, CopyPath, StateAfterDownload;
      ghost var w0 := world;
      var localContent := world.tree.files[a.relativePath].content;
      var copy := CopyPath(world, a, env);
      ghost var copyOps := WriteAtomicOps(copy, localContent, env.now);
      r := WriteAtomic(copy, localContent, env.now);
      ghost var w1 := world;
      CopyOpsFirst(w0, a, env);
      OnlyTreeChanges(w0, copyOps, w1);
      if r == Err || a.driveFile.value.id !in world.drive {
        ghost var rest := ConflictPlan(w0, a, env).ops[|copyOps|..];
        if r == Ok { StopsLater(w0, copyOps, [], world); assert copyOps + [] == copyOps; }
        StopsEarlier(w0, copyOps, rest, world);
        AppliesInTwoParts(w0, copyOps, rest);
        return Err;
      }
      var server := world.drive[a.driveFile.value.id];
      var state := StateAfterDownload(env, a.relativePath, a.driveFile.value, a.state, SyncStateKind.Conflict);
      r := WriteAndRecord(a.relativePath, server, env.now, state);
      ghost var rest := WriteAtomicOps(a.relativePath, server, env.now) + [UpsertRow(state)];
      AppliesInTwoParts(w0, copyOps, rest);
      if r == Err { StopsLater(w0, copyOps, rest, world); }
    }

    method ExecuteDeleteRemote(a: SyncAction) returns (r: Outcome)
      modifies this
      ensures var plan := DeleteRemotePlan(a);
        && (if r == Ok then plan.ok && ApplyOps(old(world), plan.ops) == Some(world)
            else MayStop(old(world), plan.ops, world))
        && (old(Healthy()) ==> Healthy() && (r == Ok <==> plan.ok && ApplyOps(old(world), plan.ops).Some?))
    {
      if a.state.None? || a.state.value.driveFileId.None? {
        return Err;
      }
      r := DoBoth(DriveDelete(a.state.value.driveFileId.value), DeleteRow(a.state.value.id));
    }

    method ExecuteDeleteLocal(a: SyncAction) returns (r: Outcome)
      modifies this
      ensures var plan := DeleteLocalPlan(a);
        && (if r == Ok then plan.ok && ApplyOps(old(world), plan.ops) == Some(world)
            else MayStop(old(world), plan.ops, world))
        && (old(Healthy()) ==> Healthy() && (r == Ok <==> plan.ok && ApplyOps(old(world), plan.ops).Some?))
    {
      if a.state.None? {
        return Err;
      }
      r := DoBoth(RemoveFile(a.relativePath), DeleteRow(a.state.value.id));
    }

    /** Runs the queue until it is empty, an action fails, or the pause flag is seen; the flag is read after
        an action has been taken from the queue, so that action is gone. */
    method Run(queue: SyncQueue, paused: seq<bool>, envs: seq<Env>) returns (r: Outcome, executed: nat)
      requires |paused| == |envs| == |queue.inner|
      modifies this, queue
      ensures executed <= |envs| && forall i :: 0 <= i < executed ==> !paused[i]
      ensures ExecuteAll(old(world), old(queue.inner)[..executed], envs[..executed]).Some?
      ensures var reached := ExecuteAll(old(world), old(queue.inner)[..executed], envs[..executed]).value;
        if r == Ok then world == reached && (executed == |envs| || paused[executed])
        else executed < |envs| && !paused[executed]
             && MayStop(reached, PlanOf(reached, old(queue.inner)[executed], envs[executed]).ops, world)
      ensures queue.inner == if executed < |envs| then old(queue.inner)[executed + 1..] else []
      ensures old(Healthy()) && ExecuteAll(old(world), old(queue.inner), envs).Some?
              && (forall i :: 0 <= i < |paused| ==> !paused[i]) ==>
                r == Ok && executed == |envs|
    {
      hide Execute, PlanOf, MayStop;
      ghost var all, start := queue.inner, world;
      executed := 0;
      while true
        invariant executed <= |all| && queue.inner == all[executed..]
        invariant forall i :: 0 <= i < executed ==> !paused[i]
        invariant ExecuteAll(start, all[..executed], envs[..executed]) == Some(world)
        invariant old(Healthy()) ==> Healthy()
        decreases |all| - executed
      {
        var action := queue.Pop();
        if action.None? {
          return Ok, executed;
        }
        if paused[executed] {
          return Ok, executed;
        }
        ghost var before := world;
        r := ExecuteOne(action.value, envs[executed]);
        if r == Err {
          NextExecutes(start, all, envs, executed, before);
          return;
        }
        OneMoreExecuted(start, all, envs, executed, before, world);
        executed := executed + 1;
      }
    }
  }

  // ----- runs in parts -----

  /** A conflict starts with its copy, and goes on exactly if the Drive file is there. */
  lemma CopyOpsFirst(w: World, a: SyncAction, env: Env)
    requires a.state.Some? && a.driveFile.Some? && a.relativePath in w.tree.files
    ensures var copyOps := WriteAtomicOps(CopyPath(w, a, env), w.tree.files[a.relativePath].content, env.now);
      var plan := ConflictPlan(w, a, env);
      && |copyOps| <= |plan.ops| && plan.ops == copyOps + plan.ops[|copyOps|..]
      && (plan.ok <==> a.driveFile.value.id in w.drive)
      && (plan.ok ==>
            plan.ops == copyOps + (WriteAtomicOps(a.relativePath, w.drive[a.driveFile.value.id], env.now)
              + [UpsertRow(StateAfterDownload(env, a.relativePath, a.driveFile.value, a.state,
                  SyncStateKind.Conflict))]))
  {
    hide WriteAtomicOps, CopyPath, StateAfterDownload;
  }

  lemma {:induction false} ExecutesInTwoParts(w: World, a: seq<SyncAction>, b: seq<SyncAction>, ea: seq<Env>,
                                              eb: seq<Env>)
    requires |a| == |ea| && |b| == |eb|
    ensures ExecuteAll(w, a + b, ea + eb) ==
            match ExecuteAll(w, a, ea) case None => None case Some(mid) => ExecuteAll(mid, b, eb)
    decreases |a|
  {
    if a == [] {
      assert a + b == b && ea + eb == eb;
    } else {
      assert (a + b)[1..] == a[1..] + b && (ea + eb)[1..] == ea[1..] + eb;
      var next := Execute(w, a[0], ea[0]);
      if next.Some? { ExecutesInTwoParts(next.value, a[1..], b, ea[1..], eb); }
    }
  }

  /** In a run that goes through, the next action after any part of it goes through. */
  lemma NextExecutes(w: World, actions: seq<SyncAction>, envs: seq<Env>, k: nat, mid: World)
    requires k < |actions| == |envs| && ExecuteAll(w, actions[..k], envs[..k]) == Some(mid)
    ensures ExecuteAll(w, actions, envs).Some? ==> Execute(mid, actions[k], envs[k]).Some?
  {
    hide Execute;
    assert actions == actions[..k] + actions[k..] && envs == envs[..k] + envs[k..];
    ExecutesInTwoParts(w, actions[..k], actions[k..], envs[..k], envs[k..]);
  }

  lemma OneMoreExecuted(w: World, actions: seq<SyncAction>, envs: seq<Env>, k: nat, before: World, after: World)
    requires k < |actions| == |envs|
    requires ExecuteAll(w, actions[..k], envs[..k]) == Some(before)
    requires Execute(before, actions[k], envs[k]) == Some(after)
    ensures ExecuteAll(w, actions[..k + 1], envs[..k + 1]) == Some(after)
  {
    ExecutesInTwoParts(w, actions[..k], [actions[k]], envs[..k], [envs[k]]);
    assert actions[..k + 1] == actions[..k] + [actions[k]] && envs[..k + 1] == envs[..k] + [envs[k]];
    assert [actions[k]][1..] == [] && [envs[k]][1..] == [];
    var rest, restEnvs := [actions[k]], [envs[k]];
    assert ExecuteAll(after, rest[1..], restEnvs[1..]) == Some(after);
  }

  lemma {:induction false} AppliesInTwoParts(w: World, a: seq<Op>, b: seq<Op>)
    ensures ApplyOps(w, a + b) == match ApplyOps(w, a) case None => None case Some(mid) => ApplyOps(mid, b)
    decreases |a|
  {
    if a == [] {
      assert a + b == b;
    } else {
      assert (a + b)[1..] == a[1..] + b;
      if Apply(w, a[0]).Some? { AppliesInTwoParts(Apply(w, a[0]).value, a[1..], b); }
    }
  }

  lemma {:induction false} StopsEarlier(w: World, a: seq<Op>, b: seq<Op>, end: World)
    requires MayStop(w, a, end)
    ensures MayStop(w, a + b, end)
    decreases |a|
  {
    if a != [] {
      assert (a + b)[1..] == a[1..] + b;
      if Apply(w, a[0]).Some? && MayStop(Apply(w, a[0]).value, a[1..], end) {
        StopsEarlier(Apply(w, a[0]).value, a[1..], b, end);
      }
    }
  }

  lemma {:induction false} StopsLater(w: World, a: seq<Op>, b: seq<Op>, end: World)
    requires ApplyOps(w, a).Some? && MayStop(ApplyOps(w, a).value, b, end)
    ensures MayStop(w, a + b, end)
    decreases |a|
  {
    if a == [] {
      assert a + b == b;
    } else {
      assert (a + b)[1..] == a[1..] + b;
      StopsLater(Apply(w, a[0]).value, a[1..], b, end);
    }
  }

  predicate OnTree(op: Op) { op.MakeDirs? || op.WriteFile? || op.Rename? || op.RemoveFile? }

  /** Effects on the local tree leave Drive and the table alone. */
  lemma {:induction false} OnlyTreeChanges(w: World, ops: seq<Op>, end: World)
    requires forall i :: 0 <= i < |ops| ==> OnTree(ops[i])
    requires MayStop(w, ops, end) || ApplyOps(w, ops) == Some(end)
    ensures end.drive == w.drive && end.rows == w.rows
    decreases |ops|
  {
    if ops != [] && Apply(w, ops[0]).Some? {
      var next := Apply(w, ops[0]).value;
      if MayStop(next, ops[1..], end) || ApplyOps(next, ops[1..]) == Some(end) {
        OnlyTreeChanges(next, ops[1..], end);
      }
    }
  }
}
