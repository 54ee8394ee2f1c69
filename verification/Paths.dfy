/** Paths inside a sync folder: keeping them below its root, and naming temporary files and conflict copies. */
module Paths {
  import opened Model

  // ----- names -----

  /** The position of the last dot of a file name. */
  function LastDot(name: string): Option<nat> {
    if name == [] then None
    else if name[|name| - 1] == '.' then Some(|name| - 1)
    else LastDot(name[..|name| - 1])
  }

  lemma {:induction false} LastDotIsLast(name: string)
    ensures match LastDot(name)
            case None => '.' !in name
            case Some(i) => i < |name| && name[i] == '.' && forall j :: i < j < |name| ==> name[j] != '.'
  {
    if name != [] && name[|name| - 1] != '.' { LastDotIsLast(name[..|name| - 1]); }
  }

  /** Where the extension of a file name begins; a leading dot does not start one. */
  function ExtensionAt(name: string): (r: nat)
    ensures r <= |name|
    ensures name != [] ==> r > 0
  {
    LastDotIsLast(name);
    match LastDot(name)
    case None => |name|
    case Some(i) => if i == 0 || name == ".." then |name| else i
  }

  function FileStem(name: string): string { name[..ExtensionAt(name)] }

  /** The extension with its dot, or nothing. */
  function DotExtension(name: string): string { name[ExtensionAt(name)..] }

  const TMP_EXTENSION: string := ".gds_tmp"

  /** The name under which new content is written before it is renamed over `name`. */
  function TempName(name: string): string { FileStem(name) + TMP_EXTENSION }

  /** A name that is its own temporary name, so that writing it is not atomic. */
  predicate OwnTemp(name: string) { DotExtension(name) == TMP_EXTENSION }

  lemma OwnTempExactly(name: string)
    ensures TempName(name) == name <==> OwnTemp(name)
  {
    assert name == FileStem(name) + DotExtension(name);
    if TempName(name) == name {
      assert TempName(name)[|FileStem(name)|..] == TMP_EXTENSION;
    }
  }

  function Digit(d: nat): (c: char)
    requires d < 10
    ensures c != '.' && c != '/'
  {
    ('0' as nat + d) as char
  }

  function Decimal(n: nat): string {
    if n < 10 then [Digit(n)] else Decimal(n / 10) + [Digit(n % 10)]
  }

  lemma {:induction false} DecimalInjective(m: nat, n: nat)
    ensures Decimal(m) == Decimal(n) ==> m == n
    decreases m
  {
    if Decimal(m) == Decimal(n) {
      var dm, dn := Decimal(m), Decimal(n);
      assert dm[|dm| - 1] == dn[|dn| - 1] && m % 10 == n % 10;
      DecimalNonEmpty(m / 10);
      DecimalNonEmpty(n / 10);
      if m >= 10 && n >= 10 {
        assert dm[..|dm| - 1] == Decimal(m / 10) && dn[..|dn| - 1] == Decimal(n / 10);
        DecimalInjective(m / 10, n / 10);
      }
    }
  }

  lemma DecimalNonEmpty(n: nat)
    ensures |Decimal(n)| > 0
  {
  }

  /** The `n`-th name tried for the conflict copy of `name`. */
  function ConflictName(name: string, stamp: string, n: nat): string {
    name + ".conflict-" + stamp + (if n <= 1 then "" else "-" + Decimal(n)) + DotExtension(name)
  }

  lemma ConflictNamesDiffer(name: string, stamp: string, m: nat, n: nat)
    requires 1 <= m < n
    ensures ConflictName(name, stamp, m) != ConflictName(name, stamp, n)
  {
    var head, tail := name + ".conflict-" + stamp, DotExtension(name);
    if ConflictName(name, stamp, m) == ConflictName(name, stamp, n) {
      var sm := if m <= 1 then "" else "-" + Decimal(m);
      var sn := "-" + Decimal(n);
      assert ConflictName(name, stamp, m) == head + sm + tail && ConflictName(name, stamp, n) == head + sn + tail;
      assert |sm| == |sn|;
      assert sm == (head + sm + tail)[|head|..|head| + |sm|] == sn;
      assert Decimal(m) == sm[1..] == sn[1..] == Decimal(n);
      DecimalInjective(m, n);
    }
  }

  /** A conflict copy never shares its name, or the name of its temporary file, with the original, and
      never has the name of the original's temporary file. */
  lemma ConflictNameIsApart(name: string, stamp: string, n: nat)
    ensures var copy := ConflictName(name, stamp, n);
      copy != name && TempName(copy) != name && TempName(name) != copy
  {
    var copy := ConflictName(name, stamp, n);
    assert copy[|name|] == '.';
    LastDotIsLast(copy);
    assert ExtensionAt(copy) >= |name|;
  }

  // ----- paths -----

  /** The position just behind the last slash; zero when there is none. */
  function NameAt(path: string): (r: nat)
    ensures r <= |path|
    ensures '/' !in path[r..]
    ensures r == 0 || path[r - 1] == '/'
  {
    if path == [] then 0
    else if path[|path| - 1] == '/' then |path|
    else
      var r := NameAt(path[..|path| - 1]);
      assert path[r..] == path[..|path| - 1][r..] + [path[|path| - 1]];
      r
  }

  function FileName(path: string): string { path[NameAt(path)..] }

  function Parent(path: string): string {
    if NameAt(path) == 0 then "" else path[..NameAt(path) - 1]
  }

  function Join(dir: string, name: string): string {
    if dir == [] then name else dir + "/" + name
  }

  function Sibling(path: string, name: string): string { path[..NameAt(path)] + name }

  function TempPath(path: string): string { Sibling(path, TempName(FileName(path))) }

  function ConflictPath(path: string, stamp: string, n: nat): string {
    Sibling(path, ConflictName(FileName(path), stamp, n))
  }

  /** The name behind the last slash is determined by the path. */
  lemma NameAtUnique(path: string, r: nat)
    requires r <= |path| && '/' !in path[r..] && (r == 0 || path[r - 1] == '/')
    ensures NameAt(path) == r
  {
    hide NameAt;
    var s := NameAt(path);
    assert forall j :: s <= j < |path| ==> path[j] == path[s..][j - s];
    assert forall j :: r <= j < |path| ==> path[j] == path[r..][j - r];
  }

  lemma JoinSplits(dir: string, name: string)
    requires '/' !in name && name != []
    ensures FileName(Join(dir, name)) == name && Parent(Join(dir, name)) == dir
  {
    var path := Join(dir, name);
    var r := if dir == [] then 0 else |dir| + 1;
    assert path[r..] == name;
    NameAtUnique(path, r);
  }

  lemma SiblingsDiffer(path: string, a: string, b: string)
    ensures Sibling(path, a) == Sibling(path, b) <==> a == b
    ensures Sibling(path, FileName(path)) == path
  {
    var head := path[..NameAt(path)];
    assert (head + a)[|head|..] == a && (head + b)[|head|..] == b;
  }

  lemma SiblingName(path: string, name: string)
    requires '/' !in name
    ensures FileName(Sibling(path, name)) == name && NameAt(Sibling(path, name)) == NameAt(path)
    ensures forall other :: Sibling(Sibling(path, name), other) == Sibling(path, other)
  {
    var s := Sibling(path, name);
    assert s[NameAt(path)..] == name;
    NameAtUnique(s, NameAt(path));
  }

  lemma SameParent(path: string, name: string)
    requires '/' !in name
    ensures Parent(Sibling(path, name)) == Parent(path)
  {
    SiblingName(path, name);
    var at := NameAt(path);
    if at > 0 {
      assert Sibling(path, name)[..at - 1] == path[..at - 1];
    }
  }

  /** The temporary file of a path is another path, except when the extension is `gds_tmp` already. */
  lemma TempPathExactly(path: string)
    ensures TempPath(path) == path <==> OwnTemp(FileName(path))
  {
    SiblingsDiffer(path, TempName(FileName(path)), FileName(path));
    OwnTempExactly(FileName(path));
  }

  lemma ConflictPathIsApart(path: string, stamp: string, n: nat)
    requires '/' !in stamp
    ensures var copy := ConflictPath(path, stamp, n);
      copy != path && TempPath(copy) != path && TempPath(path) != copy
  {
    var name := FileName(path);
    var copyName := ConflictName(name, stamp, n);
    ConflictNameIsApart(name, stamp, n);
    DecimalHasNoSlash(n);
    assert '/' !in copyName;
    SiblingName(path, copyName);
    SiblingsDiffer(path, copyName, name);
    SiblingsDiffer(path, TempName(copyName), name);
    SiblingsDiffer(path, TempName(name), copyName);
  }

  lemma {:induction false} DecimalHasNoSlash(n: nat)
    ensures '/' !in Decimal(n)
    decreases n
  {
    if n >= 10 { DecimalHasNoSlash(n / 10); }
  }

  lemma LongConflictName(name: string, stamp: string, n: nat)
    requires '/' !in name && '/' !in stamp
    ensures '/' !in ConflictName(name, stamp, n) && |ConflictName(name, stamp, n)| > 8
  {
    DecimalHasNoSlash(n);
  }

  // ----- what the names look like -----

  predicate AllDigits(s: string) { forall i :: 0 <= i < |s| ==> '0' <= s[i] <= '9' }

  /** Reading decimal digits. */
  function DecimalValue(s: string): nat
    requires AllDigits(s)
  {
    if s == [] then 0 else 10 * DecimalValue(s[..|s| - 1]) + (s[|s| - 1] as nat - '0' as nat)
  }

  lemma {:induction false} DecimalReads(n: nat)
    ensures AllDigits(Decimal(n))
    ensures DecimalValue(Decimal(n)) == n
  {
    if n < 10 {
      var d := [Digit(n)];
      assert d[..0] == [] && Decimal(n) == d;
    } else {
      DecimalReads(n / 10);
      var head, last := Decimal(n / 10), Digit(n % 10);
      assert Decimal(n) == head + [last] && (head + [last])[..|head|] == head;
    }
  }

  /** A file name with an extension: a stem that is not empty, a dot, and letters without a dot. */
  predicate HasExtension(stem: string, ext: string) {
    stem != "" && '/' !in stem && '/' !in ext && '.' !in ext && !(stem == "." && ext == "")
  }

  lemma NameParts(stem: string, ext: string)
    requires HasExtension(stem, ext)
    ensures FileStem(stem + "." + ext) == stem && DotExtension(stem + "." + ext) == "." + ext
  {
    var name := stem + "." + ext;
    LastDotIsLast(name);
    assert name[|stem|] == '.' && name == stem + ("." + ext);
    assert forall j :: |stem| < j < |name| ==> name[j] == ext[j - |stem| - 1];
    assert |name| == 2 ==> ext == "" && stem == [name[0]];
  }

  lemma NoExtension(name: string)
    requires '.' !in name
    ensures FileStem(name) == name && DotExtension(name) == ""
  {
    LastDotIsLast(name);
  }

  lemma CopyNameWith(name: string, stamp: string, n: nat, ext: string)
    requires DotExtension(name) == ext
    ensures n <= 1 ==> ConflictName(name, stamp, n) == name + ".conflict-" + stamp + ext
    ensures n > 1 ==> ConflictName(name, stamp, n) == name + ".conflict-" + stamp + "-" + Decimal(n) + ext
  {
    hide DotExtension, Decimal;
    var head := name + ".conflict-" + stamp;
    assert head + "" == head;
    assert head + "-" + Decimal(n) == head + ("-" + Decimal(n));
  }

  /** The name of a conflict copy repeats the extension behind the stamp; the first copy has no counter, the n-th one
      has it behind the stamp. The temporary file has its own extension in the place of that of the file. */
  lemma CopyNames(dir: string, stem: string, ext: string, stamp: string, n: nat)
    requires HasExtension(stem, ext) && n > 1
    ensures var name := stem + "." + ext;
      && ConflictPath(Join(dir, name), stamp, 1) == Join(dir, name + ".conflict-" + stamp + ("." + ext))
      && ConflictPath(Join(dir, name), stamp, n)
         == Join(dir, name + ".conflict-" + stamp + "-" + Decimal(n) + ("." + ext))
      && TempPath(Join(dir, name)) == Join(dir, stem + ".gds_tmp")
    ensures '.' !in stem ==>
      && ConflictPath(Join(dir, stem), stamp, 1) == Join(dir, stem + ".conflict-" + stamp + "")
      && TempPath(Join(dir, stem)) == Join(dir, stem + ".gds_tmp")
  {
    hide FileStem, DotExtension, Decimal, Join, Sibling, FileName, ConflictName;
    var name := stem + "." + ext;
    NameParts(stem, ext);
    BesideJoin(dir, name);
    BesideJoin(dir, stem);
    CopyNameWith(name, stamp, 1, "." + ext);
    CopyNameWith(name, stamp, n, "." + ext);
    if '.' !in stem {
      NoExtension(stem);
      CopyNameWith(stem, stamp, 1, "");
    }
  }

  lemma BesideJoin(dir: string, name: string)
    requires name != "" && '/' !in name
    ensures FileName(Join(dir, name)) == name
    ensures forall other :: Sibling(Join(dir, name), other) == Join(dir, other)
  {
    JoinSplits(dir, name);
    var path := Join(dir, name);
    var r := if dir == [] then 0 else |dir| + 1;
    assert path[r..] == name;
    NameAtUnique(path, r);
    forall other ensures Sibling(path, other) == Join(dir, other) {
      if dir != [] { assert path[..r] == dir + "/"; }
    }
  }

  // ----- the search for a free conflict name -----

  /** The first counter from `n` on whose name is free. */
  function FirstFree(path: string, stamp: string, existing: set<string>, n: nat): nat
    requires n > 0
    decreases |existing|
  {
    if ConflictPath(path, stamp, n) in existing
    then FirstFree(path, stamp, existing - {ConflictPath(path, stamp, n)}, n + 1)
    else n
  }

  lemma ConflictPathsDiffer(path: string, stamp: string, m: nat, n: nat)
    requires 1 <= m < n
    ensures ConflictPath(path, stamp, m) != ConflictPath(path, stamp, n)
  {
    hide ConflictName, Sibling;
    ConflictNamesDiffer(FileName(path), stamp, m, n);
    SiblingsDiffer(path, ConflictName(FileName(path), stamp, m), ConflictName(FileName(path), stamp, n));
  }

  /** The search ends at the least counter whose name is free, after at most `|existing| + 1` names. */
  lemma {:induction false} FirstFreeIsLeast(path: string, stamp: string, existing: set<string>, n: nat)
    requires n > 0
    ensures var r := FirstFree(path, stamp, existing, n);
      && n <= r <= n + |existing|
      && ConflictPath(path, stamp, r) !in existing
      && forall m :: n <= m < r ==> ConflictPath(path, stamp, m) in existing
    decreases |existing|
  {
    hide ConflictPath;
    var taken := ConflictPath(path, stamp, n);
    if taken in existing {
      FirstFreeIsLeast(path, stamp, existing - {taken}, n + 1);
      var r := FirstFree(path, stamp, existing, n);
      ConflictPathsDiffer(path, stamp, n, r);
    }
  }

  function ConflictCopyOf(path: string, stamp: string, existing: set<string>): string {
    ConflictPath(path, stamp, FirstFree(path, stamp, existing, 1))
  }

  /** The name of a conflict copy. The counter is a `u32`: it cannot run out below 2^32 - 2 files. */
  method ConflictCopyPath(path: string, stamp: string, existing: set<string>) returns (candidate: string)
    requires |existing| < 0xFFFF_FFFE
    ensures candidate == ConflictCopyOf(path, stamp, existing) && candidate !in existing
  {
    hide FirstFree, ConflictPath, ConflictName, Sibling, Decimal;
    FirstFreeIsLeast(path, stamp, existing, 1);
    ghost var least := FirstFree(path, stamp, existing, 1);
    candidate := ConflictPath(path, stamp, 1);
    if candidate !in existing {
      return;
    }
    var n: nat := 2;
    while true
      invariant 2 <= n <= least <= 0xFFFF_FFFF
      decreases least - n
    {
      candidate := ConflictPath(path, stamp, n);
      if candidate !in existing {
        return;
      }
      n := n + 1;
    }
  }

  // ----- keeping a path below the root -----

  function SplitSlash(s: string): (r: seq<string>)
    ensures |r| > 0
    ensures forall seg :: seg in r ==> '/' !in seg
  {
    if s == [] then [[]]
    else
      var rest := SplitSlash(s[1..]);
      if s[0] == '/' then [[]] + rest else [[s[0]] + rest[0]] + rest[1..]
  }

  function JoinSlash(segments: seq<string>): string {
    if segments == [] then []
    else if |segments| == 1 then segments[0]
    else segments[0] + "/" + JoinSlash(segments[1..])
  }

  /** A name that can stand in a normalised path. */
  predicate PlainSegment(seg: string) { seg != "" && seg != "." && seg != ".." && '/' !in seg }

  ghost predicate AllPlain(segments: seq<string>) {
    forall i :: 0 <= i < |segments| ==> PlainSegment(segments[i])
  }

  /** One segment meets the stack: `..` takes the top away, empty and `.` change nothing. */
  function PushSegment(stack: seq<string>, seg: string): seq<string> {
    if seg == "" || seg == "." then stack
    else if seg == ".." then (if stack == [] then [] else stack[..|stack| - 1])
    else stack + [seg]
  }

  function Normalize(stack: seq<string>, segments: seq<string>): seq<string>
    decreases |segments|
  {
    if segments == [] then stack else Normalize(PushSegment(stack, segments[0]), segments[1..])
  }

  function Sanitize(relative: string): seq<string> { Normalize([], SplitSlash(relative)) }

  lemma {:induction false} NormalizeIsPlain(stack: seq<string>, segments: seq<string>)
    requires AllPlain(stack) && forall seg :: seg in segments ==> '/' !in seg
    ensures AllPlain(Normalize(stack, segments))
    decreases |segments|
  {
    if segments != [] { NormalizeIsPlain(PushSegment(stack, segments[0]), segments[1..]); }
  }

  lemma {:induction false} NormalizeKeepsPlain(stack: seq<string>, segments: seq<string>)
    requires AllPlain(segments)
    ensures Normalize(stack, segments) == stack + segments
    decreases |segments|
  {
    if segments != [] {
      NormalizeKeepsPlain(stack + [segments[0]], segments[1..]);
      assert stack + [segments[0]] + segments[1..] == stack + segments;
    }
  }

  lemma {:induction false} SplitOne(seg: string, rest: string)
    requires '/' !in seg
    ensures SplitSlash(seg) == [seg]
    ensures SplitSlash(seg + "/" + rest) == [seg] + SplitSlash(rest)
  {
    var s := seg + "/" + rest;
    if seg == [] {
      assert s[1..] == rest;
    } else {
      assert s[1..] == seg[1..] + "/" + rest;
      SplitOne(seg[1..], rest);
      assert [seg[0]] + seg[1..] == seg;
    }
  }

  lemma {:induction false} SplitUndoesJoin(segments: seq<string>)
    requires segments != [] && forall i :: 0 <= i < |segments| ==> '/' !in segments[i]
    ensures SplitSlash(JoinSlash(segments)) == segments
    decreases |segments|
  {
    var head, rest := segments[0], segments[1..];
    assert segments == [head] + rest;
    SplitOne(head, JoinSlash(rest));
    if rest != [] { SplitUndoesJoin(rest); }
  }

  /** Sanitising yields only plain names, so it never climbs above the root, and doing it again changes nothing. */
  lemma SanitizeIsIdempotent(relative: string)
    ensures AllPlain(Sanitize(relative))
    ensures Sanitize(JoinSlash(Sanitize(relative))) == Sanitize(relative)
  {
    NormalizeIsPlain([], SplitSlash(relative));
    var once := Sanitize(relative);
    if once == [] {
      assert SplitSlash(JoinSlash(once)) == [[]];
      assert Normalize([], [[]]) == Normalize([], []);
    } else {
      SplitUndoesJoin(once);
      NormalizeKeepsPlain([], once);
    }
  }

  // ----- what the segments of a path mean -----

  /** The laws of resolving a list of segments: empty segments and `.` can be dropped anywhere, a name takes a `..`
      behind it away and both can be dropped, `..` at the very front can be dropped, and a list of names stands for
      itself. */
  ghost predicate Resolves(f: seq<string> -> seq<string>) {
    && (forall x, y :: f(x + [""] + y) == f(x + y))
    && (forall x, y :: f(x + ["."] + y) == f(x + y))
    && (forall x, s, y :: s != "" && s != "." && s != ".." ==> f(x + [s, ".."] + y) == f(x + y))
    && (forall y :: f([".."] + y) == f(y))
    && (forall x :: AllPlain(x) ==> f(x) == x)
  }

  lemma {:induction false} NormalizeInTwoParts(stack: seq<string>, a: seq<string>, b: seq<string>)
    ensures Normalize(stack, a + b) == Normalize(Normalize(stack, a), b)
    decreases |a|
  {
    if a == [] {
      assert a + b == b;
    } else {
      assert (a + b)[1..] == a[1..] + b;
      NormalizeInTwoParts(PushSegment(stack, a[0]), a[1..], b);
    }
  }

  /** Segments in the middle that leave every stack alone can be dropped. */
  lemma DropInside(x: seq<string>, inside: seq<string>, y: seq<string>)
    requires Normalize(Normalize([], x), inside) == Normalize([], x)
    ensures Normalize([], x + inside + y) == Normalize([], x + y)
  {
    hide Normalize;
    NormalizeInTwoParts([], x + inside, y);
    NormalizeInTwoParts([], x, inside);
    NormalizeInTwoParts([], x, y);
  }

  lemma OneSegment(stack: seq<string>, seg: string)
    ensures Normalize(stack, [seg]) == PushSegment(stack, seg)
  {
    var one := [seg];
    assert one[1..] == [];
    assert Normalize(PushSegment(stack, seg), one[1..]) == PushSegment(stack, seg);
  }

  lemma NameAndBack(stack: seq<string>, s: string)
    requires s != "" && s != "." && s != ".."
    ensures Normalize(stack, [s, ".."]) == stack
  {
    hide Normalize;
    assert [s, ".."] == [s] + [".."];
    NormalizeInTwoParts(stack, [s], [".."]);
    OneSegment(stack, s);
    OneSegment(stack + [s], "..");
  }

  /** The segment stack obeys the laws, and nothing else does: they say what the result is. */
  lemma StackResolves()
    ensures Resolves(x => Normalize([], x))
  {
    hide Normalize;
    var f := x => Normalize([], x);
    forall x, y ensures f(x + [""] + y) == f(x + y) {
      OneSegment(Normalize([], x), "");
      DropInside(x, [""], y);
    }
    forall x, y ensures f(x + ["."] + y) == f(x + y) {
      OneSegment(Normalize([], x), ".");
      DropInside(x, ["."], y);
    }
    forall x, s, y | s != "" && s != "." && s != ".." ensures f(x + [s, ".."] + y) == f(x + y) {
      NameAndBack(Normalize([], x), s);
      DropInside(x, [s, ".."], y);
    }
    forall y ensures f([".."] + y) == f(y) {
      OneSegment([], "..");
      NormalizeInTwoParts([], [".."], y);
    }
    forall x | AllPlain(x) ensures f(x) == x {
      NormalizeKeepsPlain([], x);
    }
  }

  /** The first segment that is not a plain name. */
  lemma FirstOdd(x: seq<string>) returns (k: nat)
    requires !AllPlain(x)
    ensures k < |x| && !PlainSegment(x[k]) && AllPlain(x[..k])
  {
    k := 0;
    while PlainSegment(x[k])
      invariant k < |x| && AllPlain(x[..k]) && !AllPlain(x)
      decreases |x| - k
    {
      assert k + 1 == |x| ==> AllPlain(x);
      k := k + 1;
    }
  }

  lemma {:induction false} LawsDecide(f: seq<string> -> seq<string>, x: seq<string>)
    requires Resolves(f) && forall seg :: seg in x ==> '/' !in seg
    ensures f(x) == Normalize([], x)
    decreases |x|
  {
    hide Normalize;
    StackResolves();
    var g := z => Normalize([], z);
    if !AllPlain(x) {
      var k := FirstOdd(x);
      var before, after := x[..k], x[k + 1..];
      assert x[k] in x;
      if x[k] != ".." {
        assert x == before + [x[k]] + after;
        LawsDecide(f, before + after);
      } else if k == 0 {
        assert x == [".."] + after;
        LawsDecide(f, after);
      } else {
        var earlier, s := x[..k - 1], x[k - 1];
        assert s == before[k - 1] && x == earlier + [s, ".."] + after;
        LawsDecide(f, earlier + after);
      }
    }
  }

  /** Splitting loses nothing: the segments, joined again, are the path. */
  lemma {:induction false} JoinUndoesSplit(s: string)
    ensures JoinSlash(SplitSlash(s)) == s
  {
    if s != [] {
      var rest := SplitSlash(s[1..]);
      JoinUndoesSplit(s[1..]);
      assert s == [s[0]] + s[1..];
      if s[0] == '/' {
        assert SplitSlash(s)[1..] == rest;
      } else {
        assert SplitSlash(s)[1..] == rest[1..];
      }
    }
  }

  /** Whatever obeys the laws gives the sanitised path of a string. */
  lemma SanitizedByLaws(relative: string)
    ensures forall f :: Resolves(f) ==> f(SplitSlash(relative)) == Sanitize(relative)
  {
    hide Resolves, Normalize, SplitSlash;
    forall f | Resolves(f) ensures f(SplitSlash(relative)) == Sanitize(relative) {
      LawsDecide(f, SplitSlash(relative));
    }
  }

  /** The file system as `safe_local_path` sees it: which paths exist, and what they resolve to. */
  datatype FsView = FsView(existing: set<seq<string>>, canonical: map<seq<string>, seq<string>>)

  /** The nearest existing path from the candidate upwards, if it lies below the root, resolves inside the root. */
  ghost predicate ResolvesInside(root: seq<string>, candidate: seq<string>, fs: FsView)
    requires root in fs.canonical
  {
    forall k :: |root| < k <= |candidate| && candidate[..k] in fs.existing
                && (forall j :: k < j <= |candidate| ==> candidate[..j] !in fs.existing)
                ==> candidate[..k] in fs.canonical && fs.canonical[root] <= fs.canonical[candidate[..k]]
  }

  lemma NearestDecides(root: seq<string>, candidate: seq<string>, fs: FsView, k: nat)
    requires root in fs.canonical && |root| <= |candidate| && k <= |candidate|
    requires forall j :: k < j <= |candidate| ==> candidate[..j] !in fs.existing
    ensures |root| < k && candidate[..k] in fs.existing ==>
              (ResolvesInside(root, candidate, fs) <==>
               candidate[..k] in fs.canonical && fs.canonical[root] <= fs.canonical[candidate[..k]])
    ensures k <= |root| ==> ResolvesInside(root, candidate, fs)
  {
  }

  /** Builds the local path of a relative path; fails on a NUL character, and when the path, or the
      nearest part of it that exists below the root, leads outside. */
  method SafeLocalPath(root: seq<string>, relative: string, fs: FsView) returns (r: Option<seq<string>>)
    requires fs.canonical.Keys <= fs.existing
    ensures r.Some? <==>
        '\0' !in relative && root in fs.canonical && ResolvesInside(root, root + Sanitize(relative), fs)
    ensures r.Some? ==> root <= r.value && r.value[|root|..] == Sanitize(relative) && AllPlain(r.value[|root|..])
    ensures r.Some? ==> forall f :: Resolves(f) ==> r.value[|root|..] == f(SplitSlash(relative))
  {
    if '\0' in relative {
      return None;
    }
    var segments: seq<string> := [];
    var rest := SplitSlash(relative);
    while rest != []
      invariant Normalize(segments, rest) == Sanitize(relative)
      decreases |rest|
    {
      if rest[0] == ".." {
        segments := if segments == [] then [] else segments[..|segments| - 1];
      } else if rest[0] != "" && rest[0] != "." {
        segments := segments + [rest[0]];
      }
      rest := rest[1..];
    }
    SanitizeIsIdempotent(relative);
    SanitizedByLaws(relative);
    var candidate := root + segments;
    if root !in fs.canonical {
      return None;
    }
    assert candidate[..|candidate|] == candidate && candidate[..|root|] == root;
    NearestDecides(root, candidate, fs, |candidate|);
    if candidate in fs.existing {
      if candidate !in fs.canonical || !(fs.canonical[root] <= fs.canonical[candidate]) {
        return None;
      }
    } else {
      var k := |candidate|;
      while k > 0
        invariant |root| < k <= |candidate|
        invariant forall j :: k <= j <= |candidate| ==> candidate[..j] !in fs.existing
        decreases k
      {
        k := k - 1;
        var ancestor := candidate[..k];
        NearestDecides(root, candidate, fs, k);
        assert k > |root| ==> ancestor[k - 1] == segments[k - 1 - |root|] && PlainSegment(ancestor[k - 1]);
        if ancestor == root || ancestor == ["."] {
          break;
        }
        assert k == |root| ==> ancestor == root;
        if ancestor in fs.existing {
          if ancestor !in fs.canonical || !(fs.canonical[root] <= fs.canonical[ancestor]) {
            return None;
          }
          break;
        }
      }
    }
    r := Some(candidate);
  }
}
