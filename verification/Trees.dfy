/** What every cycle relies on and leaves behind, wherever it stops: a tree in which every entry lies in a directory,
    and a table whose rows stand at their own paths. */
module Trees {
  import opened Model
  import opened Paths
  import opened LocalFiles
  import opened Actions
  import opened FileStates
  import opened Executor
  import opened Safety
  import opened Effects
  import opened Convergence

  /** Every component of the path is a name. */
  predicate Proper(path: string)
    decreases |path|
  {
    Listable(path) && (Parent(path) == "" || Proper(Parent(path)))
  }

  ghost predicate Keyed(rows: States) { forall p :: p in rows ==> rows[p].relativePath == p }

  ghost predicate InOrder(w: World) { WellFormed(w.tree) && Keyed(w.rows) }

  /** What an effect asks of its paths. */
  predicate OpProper(op: Op) {
    match op
    case MakeDirs(dir) => dir == "" || Proper(dir)
    case WriteFile(path, _, _) => Proper(path)
    case Rename(source, target) => Proper(target) && Parent(source) == Parent(target)
    case _ => true
  }

  lemma {:induction false} AncestorsAreProper(dir: string)
    requires dir == "" || Proper(dir)
    ensures forall d :: d in Ancestors(dir) ==> Listable(d) && (Parent(d) == "" || Parent(d) in Ancestors(dir))
    decreases |dir|
  {
    hide NameAt;
    if dir != "" && Parent(dir) != "" {
      AncestorsAreProper(Parent(dir));
      ParentStands(Parent(dir));
    }
  }

  lemma ParentStands(dir: string)
    requires dir != ""
    ensures dir in Ancestors(dir)
  {
  }

  lemma ApplyKeepsOrder(w: World, op: Op)
    requires InOrder(w) && OpProper(op) && Apply(w, op).Some?
    ensures InOrder(Apply(w, op).value)
  {
    hide Stored, Parent, Listable, Ancestors;
    if op.MakeDirs? {
      AncestorsAreProper(op.dir);
    } else if op.WriteFile? {
      ProperIsListable(op.path);
    } else if op.Rename? {
      ProperIsListable(op.target);
    } else if op.UpsertRow? {
      StoredKeepsPath(op.state);
    }
  }

  lemma ProperIsListable(path: string)
    requires Proper(path)
    ensures Listable(path)
  {
  }

  lemma StoredKeepsPath(state: FileState)
    ensures Stored(state).relativePath == state.relativePath
  {
  }

  lemma TornKeepsOrder(w: World, op: Op, torn: World)
    requires InOrder(w) && OpProper(op) && TornWrite(w, op, torn)
    ensures InOrder(torn)
  {
    hide InOrder, Apply;
    var n :| 0 <= n <= |op.content|
        && Apply(w, WriteFile(op.path, op.content[..n], op.modified)) == Some(torn);
    ApplyKeepsOrder(w, WriteFile(op.path, op.content[..n], op.modified));
  }

  lemma {:induction false} StopKeepsOrder(w: World, ops: seq<Op>, end: World)
    requires InOrder(w) && MayStop(w, ops, end) && forall i :: 0 <= i < |ops| ==> OpProper(ops[i])
    ensures InOrder(end)
    decreases |ops|
  {
    hide InOrder, Apply, TornWrite, OpProper;
    if ops != [] {
      if TornWrite(w, ops[0], end) {
        TornKeepsOrder(w, ops[0], end);
      } else if Apply(w, ops[0]).Some? && MayStop(Apply(w, ops[0]).value, ops[1..], end) {
        ApplyKeepsOrder(w, ops[0]);
        StopKeepsOrder(Apply(w, ops[0]).value, ops[1..], end);
      }
    }
  }

  lemma SiblingIsProper(path: string, name: string)
    requires Proper(path) && name != "" && '/' !in name
    ensures Proper(Sibling(path, name)) && Parent(Sibling(path, name)) == Parent(path)
  {
    hide NameAt;
    SiblingName(path, name);
    SameParent(path, name);
    SiblingIsJoin(path, name);
  }

  lemma SiblingIsJoin(path: string, name: string)
    requires Listable(path)
    ensures Sibling(path, name) == Join(Parent(path), name)
  {
    var at := NameAt(path);
    if at > 0 {
      assert path == Join(Parent(path), FileName(path));
      assert path[..at] == path[..at - 1] + [path[at - 1]];
    } else {
      assert path[..0] == [];
    }
  }

  lemma WriteIsProper(path: string, content: Content, now: Time)
    requires Proper(path)
    ensures var ops := WriteAtomicOps(path, content, now); forall i :: 0 <= i < |ops| ==> OpProper(ops[i])
  {
    hide Sibling, NameAt, Proper, TempName, Parent;
    TempHasName(FileName(path));
    SiblingIsProper(path, TempName(FileName(path)));
    ParentIsProper(path);
  }

  lemma TempHasName(name: string)
    requires '/' !in name
    ensures TempName(name) != "" && '/' !in TempName(name)
  {
  }

  lemma ParentIsProper(path: string)
    requires Proper(path)
    ensures Parent(path) == "" || Proper(Parent(path))
  {
  }

  lemma CopyIsProper(w: World, a: SyncAction, env: Env)
    requires Proper(a.relativePath) && '/' !in env.stamp
    ensures Proper(CopyPath(w, a, env))
  {
    hide Proper, FirstFree, ConflictName, Sibling;
    var n := FirstFree(a.relativePath, env.stamp, w.tree.files.Keys + w.tree.dirs, 1);
    LongConflictName(FileName(a.relativePath), env.stamp, n);
    SiblingIsProper(a.relativePath, ConflictName(FileName(a.relativePath), env.stamp, n));
  }

  lemma PlanIsProper(w: World, a: SyncAction, env: Env)
    requires (Fetches(a) ==> Proper(a.relativePath)) && '/' !in env.stamp
    ensures forall i :: 0 <= i < |PlanOf(w, a, env).ops| ==> OpProper(PlanOf(w, a, env).ops[i])
  {
    hide Proper, WriteAtomicOps, CopyPath, StateAfterUpload, StateAfterDownload;
    if Fetches(a) {
      if a.driveFile.Some? && a.driveFile.value.id in w.drive {
        WriteIsProper(a.relativePath, w.drive[a.driveFile.value.id], env.now);
      }
      if a.kind == Kind.Conflict && a.relativePath in w.tree.files {
        CopyIsProper(w, a, env);
        WriteIsProper(CopyPath(w, a, env), w.tree.files[a.relativePath].content, env.now);
      }
    }
  }

  /** Wherever an action stops, or if it runs to its end, the next walk finds a well-formed tree, and the next
      comparison a table whose rows stand at their own paths. */
  lemma ActionKeepsOrder(w: World, a: SyncAction, env: Env, end: World)
    requires InOrder(w) && (Fetches(a) ==> Proper(a.relativePath)) && '/' !in env.stamp
    requires MayStop(w, PlanOf(w, a, env).ops, end) || Execute(w, a, env) == Some(end)
    ensures InOrder(end)
  {
    hide InOrder, MayStop, PlanOf, OpProper, Proper, ApplyOps;
    PlanIsProper(w, a, env);
    if Execute(w, a, env) == Some(end) { MayRunToTheEnd(w, PlanOf(w, a, env).ops, end); }
    StopKeepsOrder(w, PlanOf(w, a, env).ops, end);
  }

  /** Every path that is fetched is made of names, and stamps are stamps. */
  ghost predicate FetchesNames(queue: seq<SyncAction>, envs: seq<Env>) {
    && (forall i :: 0 <= i < |queue| && Fetches(queue[i]) ==> Proper(queue[i].relativePath))
    && (forall i :: 0 <= i < |envs| ==> '/' !in envs[i].stamp)
  }

  lemma {:induction false} RunKeepsOrder(w: World, queue: seq<SyncAction>, envs: seq<Env>, k: nat, mid: World)
    requires InOrder(w) && FetchesNames(queue, envs) && k <= |queue| == |envs|
    requires ExecuteAll(w, queue[..k], envs[..k]) == Some(mid)
    ensures InOrder(mid)
    decreases k
  {
    hide InOrder, Execute, Proper;
    if k > 0 {
      var next := Execute(w, queue[0], envs[0]).value;
      ActionKeepsOrder(w, queue[0], envs[0], next);
      assert queue[..k][1..] == queue[1..][..k - 1] && envs[..k][1..] == envs[1..][..k - 1];
      assert FetchesNames(queue[1..], envs[1..]) by {
        assert forall i :: 0 <= i < |queue[1..]| ==> queue[1..][i] == queue[i + 1];
        assert forall i :: 0 <= i < |envs[1..]| ==> envs[1..][i] == envs[i + 1];
      }
      RunKeepsOrder(next, queue[1..], envs[1..], k - 1, mid);
    }
  }
}
