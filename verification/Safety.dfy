/** What an interrupted action can leave behind: atomic writes, and conflicts that keep the local bytes. */
module Safety {
  import opened Model
  import opened Paths
  import opened LocalFiles
  import opened Actions
  import opened FileStates
  import opened Executor

  function FileAt(w: World, path: string): Option<LocalFile> {
    if path in w.tree.files then Some(w.tree.files[path]) else None
  }

  function ContentAt(w: World, path: string): Option<Content> {
    if path in w.tree.files then Some(w.tree.files[path].content) else None
  }

  // ----- runs that stop -----

  lemma {:induction false} StopsInOnePart(w: World, a: seq<Op>, b: seq<Op>, end: World)
    requires MayStop(w, a + b, end)
    ensures MayStop(w, a, end) || (ApplyOps(w, a).Some? && MayStop(ApplyOps(w, a).value, b, end))
    decreases |a|
  {
    hide Apply;
    if a == [] {
      assert a + b == b;
    } else {
      assert (a + b)[0] == a[0] && (a + b)[1..] == a[1..] + b;
      if Apply(w, a[0]).Some? && MayStop(Apply(w, a[0]).value, (a + b)[1..], end) {
        StopsInOnePart(Apply(w, a[0]).value, a[1..], b, end);
      }
    }
  }

  /** Running to the end is one way to stop. */
  lemma {:induction false} MayRunToTheEnd(w: World, ops: seq<Op>, end: World)
    requires ApplyOps(w, ops) == Some(end)
    ensures MayStop(w, ops, end)
    decreases |ops|
  {
    hide Apply;
    if ops != [] { MayRunToTheEnd(Apply(w, ops[0]).value, ops[1..], end); }
  }

  lemma NoOps(w: World, ops: seq<Op>, end: World)
    requires ops == []
    ensures ApplyOps(w, ops) == Some(w) && (MayStop(w, ops, end) <==> end == w)
  {
  }

  lemma OneOp(w: World, op: Op, end: World)
    ensures ApplyOps(w, [op]) == Apply(w, op)
    ensures MayStop(w, [op], end) ==> end == w || TornWrite(w, op, end) || Apply(w, op) == Some(end)
  {
    hide Apply, TornWrite;
    var ops := [op];
    assert ops[0] == op;
    match Apply(w, op) {
      case None =>
      case Some(next) => NoOps(next, ops[1..], end);
    }
  }

  // ----- atomic writes -----

  /** Where two effects in a row may stop. */
  lemma TwoOps(w: World, first: Op, second: Op, end: World)
    requires MayStop(w, [first] + [second], end)
    ensures || end == w
            || TornWrite(w, first, end)
            || (Apply(w, first).Some?
                && (end == Apply(w, first).value || TornWrite(Apply(w, first).value, second, end)
                    || Apply(Apply(w, first).value, second) == Some(end)))
  {
    hide MayStop, ApplyOps, Apply;
    StopsInOnePart(w, [first], [second], end);
    OneOp(w, first, end);
    if Apply(w, first).Some? { OneOp(Apply(w, first).value, second, end); }
  }

  /** Making directories and writing the temporary file, as far as it gets, changes no other file. */
  lemma TempStops(w: World, dir: string, temp: string, content: Content, now: Time, end: World)
    requires MayStop(w, [MakeDirs(dir)] + [WriteFile(temp, content, now)], end)
    ensures end.drive == w.drive && end.rows == w.rows
    ensures forall p :: p != temp ==> FileAt(end, p) == FileAt(w, p)
  {
    hide MayStop, ApplyOps;
    TwoOps(w, MakeDirs(dir), WriteFile(temp, content, now), end);
  }

  /** What is left when an atomic write stops anywhere: the target as it was, or whole. */
  lemma AtomicStops(w: World, path: string, content: Content, now: Time, end: World)
    requires MayStop(w, WriteAtomicOps(path, content, now), end)
    ensures end.drive == w.drive && end.rows == w.rows
    ensures forall p :: p != path && p != TempPath(path) ==> FileAt(end, p) == FileAt(w, p)
    ensures !OwnTemp(FileName(path)) ==> FileAt(end, path) == FileAt(w, path) || ContentAt(end, path) == Some(content)
  {
    hide MayStop, ApplyOps;
    var temp := TempPath(path);
    var start, rename := [MakeDirs(Parent(path))] + [WriteFile(temp, content, now)], Rename(temp, path);
    TempPathExactly(path);
    assert WriteAtomicOps(path, content, now) == start + [rename];
    StopsInOnePart(w, start, [rename], end);
    if MayStop(w, start, end) {
      TempStops(w, Parent(path), temp, content, now, end);
    } else {
      var mid := ApplyOps(w, start).value;
      MayRunToTheEnd(w, start, mid);
      TempStops(w, Parent(path), temp, content, now, mid);
      OneOp(mid, rename, end);
      WrittenTemp(w, Parent(path), temp, content, now, mid);
    }
  }

  lemma WrittenTemp(w: World, dir: string, temp: string, content: Content, now: Time, mid: World)
    requires ApplyOps(w, [MakeDirs(dir)] + [WriteFile(temp, content, now)]) == Some(mid)
    ensures mid == w.(tree := Tree(w.tree.files[temp := LocalFile(content, now)], w.tree.dirs + Ancestors(dir)))
  {
    hide MayStop, ApplyOps;
    AppliesInTwoParts(w, [MakeDirs(dir)], [WriteFile(temp, content, now)]);
    OneOp(w, MakeDirs(dir), w);
    OneOp(ApplyOps(w, [MakeDirs(dir)]).value, WriteFile(temp, content, now), w);
  }

  /** The world after an atomic write that ran to its end. */
  lemma AtomicCompletes(w: World, path: string, content: Content, now: Time, end: World)
    requires ApplyOps(w, WriteAtomicOps(path, content, now)) == Some(end)
    ensures end == w.(tree := Tree((w.tree.files - {TempPath(path)})[path := LocalFile(content, now)],
                                   w.tree.dirs + Ancestors(Parent(path))))
  {
    hide MayStop, ApplyOps;
    var temp := TempPath(path);
    var start, rename := [MakeDirs(Parent(path))] + [WriteFile(temp, content, now)], Rename(temp, path);
    assert WriteAtomicOps(path, content, now) == start + [rename];
    AppliesInTwoParts(w, start, [rename]);
    var mid := ApplyOps(w, start).value;
    WrittenTemp(w, Parent(path), temp, content, now, mid);
    OneOp(mid, rename, end);
    assert mid.tree.files - {temp} == w.tree.files - {temp};
  }

  /** A completed atomic write leaves another file alone exactly when the file does not have the name of the
      temporary file: one that has it is overwritten and then gone. */
  lemma AtomicSparesExactly(w: World, path: string, content: Content, now: Time, end: World, other: string)
    requires ApplyOps(w, WriteAtomicOps(path, content, now)) == Some(end)
    requires other in w.tree.files && other != path
    ensures FileAt(end, other) == FileAt(w, other) <==> other != TempPath(path)
    ensures other == TempPath(path) ==> other !in end.tree.files
  {
    hide ApplyOps, WriteAtomicOps, TempPath;
    AtomicCompletes(w, path, content, now, end);
  }

  /** Wherever the write stops, the target holds what it held before or the whole new content. */
  ghost predicate AllOrNothing(w: World, path: string, content: Content, now: Time) {
    forall end :: MayStop(w, WriteAtomicOps(path, content, now), end) ==>
                    ContentAt(end, path) == ContentAt(w, path) || ContentAt(end, path) == Some(content)
  }

  /** A part of the content that is neither what the target held nor the whole. */
  ghost predicate HasTornPart(w: World, path: string, content: Content) {
    exists n :: 0 <= n < |content| && Some(content[..n]) != ContentAt(w, path)
  }

  /** `write_atomic` is all or nothing exactly when the target does not have the extension `gds_tmp`,
      unless the content is so short that no part of it would be seen. */
  lemma AtomicExactly(w: World, path: string, content: Content, now: Time)
    requires ApplyOps(w, WriteAtomicOps(path, content, now)).Some?
    ensures AllOrNothing(w, path, content, now) <==> !OwnTemp(FileName(path)) || !HasTornPart(w, path, content)
  {
    if !OwnTemp(FileName(path)) {
      forall end | MayStop(w, WriteAtomicOps(path, content, now), end)
        ensures ContentAt(end, path) == ContentAt(w, path) || ContentAt(end, path) == Some(content)
      {
        AtomicStops(w, path, content, now, end);
      }
    } else {
      TempPathExactly(path);
      var dirs := MakeDirs(Parent(path));
      assert WriteAtomicOps(path, content, now)[0] == dirs;
      if HasTornPart(w, path, content) {
        var n :| 0 <= n < |content| && Some(content[..n]) != ContentAt(w, path);
        TornTarget(w, path, content, now, n);
      } else {
        forall end | MayStop(w, WriteAtomicOps(path, content, now), end)
          ensures ContentAt(end, path) == ContentAt(w, path) || ContentAt(end, path) == Some(content)
        {
          ShortTarget(w, path, content, now, end);
        }
      }
    }
  }

  /** A target that is its own temporary file can be left with any part of the content. */
  lemma TornTarget(w: World, path: string, content: Content, now: Time, n: nat)
    requires ApplyOps(w, WriteAtomicOps(path, content, now)).Some?
    requires OwnTemp(FileName(path)) && n <= |content|
    ensures exists end ::
              && MayStop(w, WriteAtomicOps(path, content, now), end)
              && ContentAt(end, path) == Some(content[..n])
  {
    TempPathExactly(path);
    var ops := WriteAtomicOps(path, content, now);
    var next := Apply(w, ops[0]).value;
    assert ops[1..][0] == ops[1] == WriteFile(path, content, now);
    assert Apply(next, WriteFile(path, content, now)).Some?;
    var end := Apply(next, WriteFile(path, content[..n], now)).value;
    assert TornWrite(next, ops[1..][0], end);
    assert MayStop(next, ops[1..], end);
    assert MayStop(w, ops, end);
    assert ContentAt(end, path) == Some(content[..n]);
  }

  /** A write over the target itself, whole or torn, when no part of the content would be seen. */
  lemma ShortWrite(w: World, path: string, content: Content, now: Time, end: World)
    requires !HasTornPart(w, path, content)
    requires TornWrite(w, WriteFile(path, content, now), end)
    ensures ContentAt(end, path) == ContentAt(w, path) || ContentAt(end, path) == Some(content)
  {
    var n :| 0 <= n <= |content| && Apply(w, WriteFile(path, content[..n], now)) == Some(end);
    assert content[..|content|] == content;
    assert ContentAt(end, path) == Some(content[..n]);
  }

  lemma ShortTarget(w: World, path: string, content: Content, now: Time, end: World)
    requires OwnTemp(FileName(path)) && !HasTornPart(w, path, content)
    requires MayStop(w, WriteAtomicOps(path, content, now), end)
    ensures ContentAt(end, path) == ContentAt(w, path) || ContentAt(end, path) == Some(content)
  {
    hide MayStop, ApplyOps, HasTornPart, Parent, TempPath;
    TempPathExactly(path);
    var dirs, write, rename := MakeDirs(Parent(path)), WriteFile(path, content, now), Rename(path, path);
    var start := [dirs] + [write];
    assert WriteAtomicOps(path, content, now) == start + [rename];
    StopsInOnePart(w, start, [rename], end);
    if MayStop(w, start, end) {
      TwoOps(w, dirs, write, end);
      if Apply(w, dirs).Some? { ShortWriteAfter(w, Apply(w, dirs).value, path, content, now, end); }
    } else {
      var mid := ApplyOps(w, start).value;
      WrittenTemp(w, Parent(path), path, content, now, mid);
      OneOp(mid, rename, end);
    }
  }

  lemma ShortWriteAfter(w: World, next: World, path: string, content: Content, now: Time, end: World)
    requires !HasTornPart(w, path, content) && next.tree.files == w.tree.files
    ensures TornWrite(next, WriteFile(path, content, now), end) ==>
              ContentAt(end, path) == ContentAt(w, path) || ContentAt(end, path) == Some(content)
  {
    if TornWrite(next, WriteFile(path, content, now), end) {
      assert ContentAt(next, path) == ContentAt(w, path);
      ShortWrite(next, path, content, now, end);
    }
  }

  // ----- conflicts -----

  /** Where the local bytes of a path are after a conflict on it. */
  ghost predicate BytesKept(end: World, path: string, copy: string, bytes: Content) {
    ContentAt(end, path) == Some(bytes) || ContentAt(end, copy) == Some(bytes)
  }

  lemma CopyIsFresh(w: World, a: SyncAction, env: Env)
    requires '/' !in env.stamp
    ensures var copy := CopyPath(w, a, env);
      && copy !in w.tree.files && copy !in w.tree.dirs
      && copy != a.relativePath && TempPath(copy) != a.relativePath && TempPath(a.relativePath) != copy
  {
    var existing := w.tree.files.Keys + w.tree.dirs;
    FirstFreeIsLeast(a.relativePath, env.stamp, existing, 1);
    ConflictPathIsApart(a.relativePath, env.stamp, FirstFree(a.relativePath, env.stamp, existing, 1));
  }

  /** The effects of a conflict: the copy, and when Drive still has the file, the server content and the row. */
  lemma ConflictOps(w: World, a: SyncAction, env: Env)
    requires a.kind == Kind.Conflict && a.relativePath in w.tree.files
    ensures var ops := PlanOf(w, a, env).ops;
      if a.state.None? || a.driveFile.None? then ops == []
      else
        var copyOps := WriteAtomicOps(CopyPath(w, a, env), w.tree.files[a.relativePath].content, env.now);
        if a.driveFile.value.id !in w.drive then ops == copyOps
        else ops == copyOps + WriteAtomicOps(a.relativePath, w.drive[a.driveFile.value.id], env.now)
                    + [UpsertRow(StateAfterDownload(env, a.relativePath, a.driveFile.value, a.state,
                        SyncStateKind.Conflict))]
  {
    hide WriteAtomicOps, CopyPath, StateAfterDownload;
  }

  lemma UpsertStops(w: World, state: FileState, end: World)
    requires MayStop(w, [UpsertRow(state)], end)
    ensures end.tree == w.tree && end.drive == w.drive
  {
    hide MayStop, ApplyOps;
    OneOp(w, UpsertRow(state), end);
  }

  /** Wherever a conflict action stops: the local bytes are at the path or at the copy, the path holds only
      the local or the server content, and no file changes but these two and their temporary files. The
      second part needs a path that is not its own temporary file. */
  lemma ConflictKeepsBytes(w: World, a: SyncAction, env: Env, end: World)
    requires a.kind == Kind.Conflict && a.relativePath in w.tree.files && '/' !in env.stamp
    requires MayStop(w, PlanOf(w, a, env).ops, end)
    ensures var path, copy := a.relativePath, CopyPath(w, a, env);
      && BytesKept(end, path, copy, w.tree.files[path].content)
      && (!OwnTemp(FileName(path)) ==>
            || FileAt(end, path) == FileAt(w, path)
            || (a.driveFile.Some? && a.driveFile.value.id in w.drive
                && ContentAt(end, path) == Some(w.drive[a.driveFile.value.id])))
      && (forall p :: p != path && p != copy && p != TempPath(path) && p != TempPath(copy) ==>
          FileAt(end, p) == FileAt(w, p))
      && end.drive == w.drive
  {
    hide MayStop, ApplyOps, Apply, PlanOf, ConflictPlan, CopyPath, WriteAtomicOps, OwnTemp, TempPath,
        StateAfterDownload;
    var path, copy, bytes := a.relativePath, CopyPath(w, a, env), w.tree.files[a.relativePath].content;
    CopyIsFresh(w, a, env);
    ConflictOps(w, a, env);
    if a.state.None? || a.driveFile.None? {
      NoOps(w, PlanOf(w, a, env).ops, end);
      return;
    }
    var copyOps := WriteAtomicOps(copy, bytes, env.now);
    if a.driveFile.value.id !in w.drive {
      AtomicStops(w, copy, bytes, env.now, end);
      assert FileAt(end, path) == FileAt(w, path);
      return;
    }
    var server := w.drive[a.driveFile.value.id];
    var serverOps := WriteAtomicOps(path, server, env.now);
    var state := StateAfterDownload(env, path, a.driveFile.value, a.state, SyncStateKind.Conflict);
    StopsInOnePart(w, copyOps + serverOps, [UpsertRow(state)], end);
    if MayStop(w, copyOps + serverOps, end) {
      WritesStop(w, path, copy, bytes, server, env.now, end);
    } else {
      var mid := ApplyOps(w, copyOps + serverOps).value;
      MayRunToTheEnd(w, copyOps + serverOps, mid);
      WritesStop(w, path, copy, bytes, server, env.now, mid);
      UpsertStops(mid, state, end);
    }
  }

  /** The two writes of a conflict, wherever they stop. */
  lemma WritesStop(w: World, path: string, copy: string, bytes: Content, server: Content, now: Time, end: World)
    requires path in w.tree.files && bytes == w.tree.files[path].content
    requires copy != path && TempPath(copy) != path && TempPath(path) != copy
    requires MayStop(w, WriteAtomicOps(copy, bytes, now) + WriteAtomicOps(path, server, now), end)
    ensures BytesKept(end, path, copy, bytes)
    ensures !OwnTemp(FileName(path)) ==> FileAt(end, path) == FileAt(w, path) || ContentAt(end, path) == Some(server)
    ensures forall p :: p != path && p != copy && p != TempPath(path) && p != TempPath(copy) ==>
        FileAt(end, p) == FileAt(w, p)
    ensures end.drive == w.drive && end.rows == w.rows
  {
    hide MayStop, ApplyOps, Apply;
    var copyOps := WriteAtomicOps(copy, bytes, now);
    StopsInOnePart(w, copyOps, WriteAtomicOps(path, server, now), end);
    if MayStop(w, copyOps, end) {
      AtomicStops(w, copy, bytes, now, end);
      assert FileAt(end, path) == FileAt(w, path);
    } else {
      var mid := ApplyOps(w, copyOps).value;
      AtomicCompletes(w, copy, bytes, now, mid);
      AtomicStops(mid, path, server, now, end);
      assert FileAt(end, copy) == FileAt(mid, copy);
    }
  }

  /** A conflict that runs to its end has the local bytes in the copy, the server's at the path, and leaves
      no temporary file that was not there before. */
  lemma ConflictCompletes(w: World, a: SyncAction, env: Env, end: World)
    requires a.kind == Kind.Conflict && '/' !in env.stamp && Execute(w, a, env) == Some(end)
    ensures var path, copy := a.relativePath, CopyPath(w, a, env);
      && path in w.tree.files && a.driveFile.Some? && a.driveFile.value.id in w.drive && copy !in w.tree.files
      && end.tree.files == (w.tree.files - {TempPath(copy), TempPath(path)})
                             [copy := LocalFile(w.tree.files[path].content, env.now)]
                             [path := LocalFile(w.drive[a.driveFile.value.id], env.now)]
      && end.drive == w.drive
      && end.rows == w.rows[path := Stored(StateAfterDownload(env, path, a.driveFile.value, a.state,
          SyncStateKind.Conflict))]
  {
    hide MayStop, ApplyOps, Apply, PlanOf, ConflictPlan, CopyPath, WriteAtomicOps, OwnTemp, TempPath;
    var path, copy := a.relativePath, CopyPath(w, a, env);
    ConflictRuns(w, a, env);
    CopyIsFresh(w, a, env);
    ConflictOps(w, a, env);
    var bytes, server := w.tree.files[path].content, w.drive[a.driveFile.value.id];
    var copyOps, serverOps := WriteAtomicOps(copy, bytes, env.now), WriteAtomicOps(path, server, env.now);
    var state := StateAfterDownload(env, path, a.driveFile.value, a.state, SyncStateKind.Conflict);
    AppliesInTwoParts(w, copyOps + serverOps, [UpsertRow(state)]);
    AppliesInTwoParts(w, copyOps, serverOps);
    var w1 := ApplyOps(w, copyOps).value;
    AtomicCompletes(w, copy, bytes, env.now, w1);
    var w2 := ApplyOps(w1, serverOps).value;
    AtomicCompletes(w1, path, server, env.now, w2);
    OneOp(w2, UpsertRow(state), end);
    UpsertApplies(w2, state, end);
    assert w2.tree.files == (w.tree.files - {TempPath(copy), TempPath(path)})
                              [copy := LocalFile(bytes, env.now)][path := LocalFile(server, env.now)];
  }

  lemma UpsertApplies(w: World, state: FileState, end: World)
    requires Apply(w, UpsertRow(state)) == Some(end)
    ensures end == w.(rows := w.rows[state.relativePath := Stored(state)])
    ensures forall p :: p in w.rows && p != state.relativePath ==> w.rows[p].id != state.id
  {
  }

  /** What a conflict needs to run to its end. */
  lemma ConflictRuns(w: World, a: SyncAction, env: Env)
    requires a.kind == Kind.Conflict && Execute(w, a, env).Some?
    ensures a.relativePath in w.tree.files && a.state.Some? && a.driveFile.Some? && a.driveFile.value.id in w.drive
    ensures Execute(w, a, env) == ApplyOps(w, PlanOf(w, a, env).ops)
  {
    hide WriteAtomicOps, CopyPath, StateAfterDownload, ApplyOps;
  }
}
