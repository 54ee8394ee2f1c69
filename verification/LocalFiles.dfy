/** The local tree below the sync root. Paths are relative to the root, with `/` between names. */
module LocalFiles {
  import opened Model
  import opened Paths

  datatype LocalFile = LocalFile(content: Content, modified: Time)

  datatype Tree = Tree(files: map<string, LocalFile>, dirs: set<string>)
  {
    predicate Exists(path: string) { path in files || path in dirs }
  }

  /** A path that an operating system can list: a name in a directory. */
  predicate Listable(path: string) { FileName(path) != "" && path == Join(Parent(path), FileName(path)) }

  /** Every entry lies in an existing directory, and nothing is both a file and a directory. */
  ghost predicate WellFormed(t: Tree) {
    && (forall p :: t.Exists(p) ==> Listable(p) && (Parent(p) == "" || Parent(p) in t.dirs))
    && (forall p :: p in t.files ==> p !in t.dirs)
  }

  datatype DirEntry = DirEntry(name: string, isDir: bool)

  function EntryPath(dir: string, e: DirEntry): string { Join(dir, e.name) }

  ghost predicate Listed(dir: string, entries: seq<DirEntry>, p: string) {
    exists i :: 0 <= i < |entries| && EntryPath(dir, entries[i]) == p
  }

  lemma ListedMore(dir: string, entries: seq<DirEntry>, e: DirEntry)
    ensures Listed(dir, entries + [e], EntryPath(dir, e))
    ensures forall p :: Listed(dir, entries, p) ==> Listed(dir, entries + [e], p)
  {
    var more := entries + [e];
    assert more[|entries|] == e;
    forall p | Listed(dir, entries, p) ensures Listed(dir, more, p) {
      var i :| 0 <= i < |entries| && EntryPath(dir, entries[i]) == p;
      assert more[i] == entries[i];
    }
  }

  ghost predicate NamesChild(t: Tree, dir: string, e: DirEntry) {
    var p := EntryPath(dir, e);
    e.name != "" && '/' !in e.name && t.Exists(p) && (e.isDir <==> p in t.dirs)
  }

  /** The listing names every child of the directory once, in an order chosen by the system. */
  ghost predicate Lists(t: Tree, dir: string, entries: seq<DirEntry>) {
    && (forall i :: 0 <= i < |entries| ==> NamesChild(t, dir, entries[i]))
    && (forall i, j :: 0 <= i < j < |entries| ==> EntryPath(dir, entries[i]) != EntryPath(dir, entries[j]))
    && (forall p :: t.Exists(p) && Parent(p) == dir ==> Listed(dir, entries, p))
  }

  /** The entries name exactly the paths of `done`, each once. */
  ghost predicate Gathered(t: Tree, dir: string, entries: seq<DirEntry>, done: set<string>) {
    && (forall i :: 0 <= i < |entries| ==> EntryPath(dir, entries[i]) in done && NamesChild(t, dir, entries[i]))
    && (forall i, j :: 0 <= i < j < |entries| ==> EntryPath(dir, entries[i]) != EntryPath(dir, entries[j]))
    && (forall p :: p in done ==> Listed(dir, entries, p))
  }

  lemma GatherOne(t: Tree, dir: string, entries: seq<DirEntry>, done: set<string>, e: DirEntry)
    requires Gathered(t, dir, entries, done) && EntryPath(dir, e) !in done && NamesChild(t, dir, e)
    ensures Gathered(t, dir, entries + [e], done + {EntryPath(dir, e)})
  {
    ListedMore(dir, entries, e);
  }

  lemma ChildEntry(t: Tree, p: string)
    requires WellFormed(t) && t.Exists(p)
    ensures var e := DirEntry(FileName(p), p in t.dirs);
      EntryPath(Parent(p), e) == p && NamesChild(t, Parent(p), e)
  {
  }

  function Children(t: Tree, dir: string): set<string> {
    set p | p in t.files.Keys + t.dirs && Parent(p) == dir
  }

  lemma GatheredAll(t: Tree, dir: string, entries: seq<DirEntry>)
    requires Gathered(t, dir, entries, Children(t, dir))
    ensures Lists(t, dir, entries)
  {
    assert forall p :: t.Exists(p) && Parent(p) == dir ==> p in Children(t, dir);
  }

  lemma TakeChild(t: Tree, dir: string, entries: seq<DirEntry>, done: set<string>, p: string)
    requires WellFormed(t) && Gathered(t, dir, entries, done) && p !in done && p in Children(t, dir)
    ensures Gathered(t, dir, entries + [DirEntry(FileName(p), p in t.dirs)], done + {p})
  {
    ChildEntry(t, p);
    GatherOne(t, dir, entries, done, DirEntry(FileName(p), p in t.dirs));
  }

  method ListDir(t: Tree, dir: string) returns (entries: seq<DirEntry>)
    requires WellFormed(t)
    ensures Lists(t, dir, entries)
  {
    entries := [];
    var left := Children(t, dir);
    ghost var all := left;
    ghost var done: set<string> := {};
    while left != {}
      invariant done + left == all && done !! left
      invariant Gathered(t, dir, entries, done)
    {
      var p :| p in left;
      TakeChild(t, dir, entries, done, p);
      entries := entries + [DirEntry(FileName(p), p in t.dirs)];
      left := left - {p};
      done := done + {p};
    }
    GatheredAll(t, dir, entries);
  }

  // ----- what the walk skips -----

  predicate SkippedName(name: string) { name == ".gds_tmp" || name == ".git" }

  /** Some component of the path is skipped by the walk. */
  predicate Ignored(path: string)
    decreases |path|
  {
    SkippedName(FileName(path)) || (Parent(path) != "" && Ignored(Parent(path)))
  }

  /** A path is ignored exactly when one of its components has one of the two names. */
  lemma {:induction false} IgnoredExactly(path: string)
    ensures Ignored(path) <==> ".gds_tmp" in SplitSlash(path) || ".git" in SplitSlash(path)
    decreases |path|
  {
    hide NameAt, SplitSlash;
    var parent, name := Parent(path), FileName(path);
    ComponentsOf(path);
    if parent != "" { IgnoredExactly(parent); }
    var tmp, git := ".gds_tmp", ".git";
    assert tmp in SplitSlash(path) <==> tmp == name || (parent != "" && tmp in SplitSlash(parent));
    assert git in SplitSlash(path) <==> git == name || (parent != "" && git in SplitSlash(parent));
  }

  /** The components of a path are those of its parent and its name. */
  lemma ComponentsOf(path: string)
    ensures var parent, name := Parent(path), FileName(path);
      && (parent != "" ==> |parent| < |path|)
      && forall seg :: seg != "" ==>
           (seg in SplitSlash(path) <==> seg == name || (parent != "" && seg in SplitSlash(parent)))
  {
    hide SplitSlash;
    var parent, name := Parent(path), FileName(path);
    if NameAt(path) == 0 {
      assert path[0..] == path;
      SplitOne(path, "");
    } else {
      assert path == parent + "/" + name;
      SplitBehind(parent, name);
      if parent == "" { SplitOne("", ""); }
    }
  }

  lemma {:induction false} SplitBehind(dir: string, name: string)
    requires '/' !in name
    ensures SplitSlash(dir + "/" + name) == SplitSlash(dir) + [name]
    decreases |dir|
  {
    var s := dir + "/" + name;
    SplitOne(name, "");
    if dir == [] {
      assert s[1..] == name;
    } else {
      assert s[1..] == dir[1..] + "/" + name;
      SplitBehind(dir[1..], name);
    }
  }

  predicate ContainsAt(s: string, part: string, i: nat) { i + |part| <= |s| && s[i..i + |part|] == part }

  predicate Contains(s: string, part: string) { exists i :: 0 <= i <= |s| && ContainsAt(s, part, i) }

  const GIT_PART: string := "/.git/"

  /** A path with `/.git/` inside has a skipped component, so testing for it finds nothing new. */
  lemma {:induction false} GitPartIsIgnored(path: string, i: nat)
    requires ContainsAt(path, GIT_PART, i)
    ensures Ignored(path)
    decreases |path|
  {
    var at := NameAt(path);
    assert path[i + 5] == GIT_PART[5] == '/' by { assert path[i..i + 6][5] == path[i + 5]; }
    assert forall j :: at <= j < |path| ==> path[j] == path[at..][j - at];
    assert at >= i + 6;
    var parent := Parent(path);
    assert parent == path[..at - 1];
    if at == i + 6 {
      assert forall k :: 0 <= k < 6 ==> path[i + k] == path[i..i + 6][k] == GIT_PART[k];
      assert path[i + 0] == GIT_PART[0] && path[i + 1] == GIT_PART[1] && path[i + 2] == GIT_PART[2];
      assert path[i + 3] == GIT_PART[3] && path[i + 4] == GIT_PART[4];
      assert parent[i + 1..] == [path[i + 1], path[i + 2], path[i + 3], path[i + 4]] == ".git";
      NameAtUnique(parent, i + 1);
      assert FileName(parent) == ".git";
    } else {
      assert parent[i..i + 6] == path[i..i + 6];
      GitPartIsIgnored(parent, i);
    }
  }
}
