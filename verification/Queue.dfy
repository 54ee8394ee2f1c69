/** The queue of sync actions: sorted when it is built, kept in priority order by later insertions. */
module Queue {
  import opened Model
  import opened Actions

  // ----- the order of strings -----

  /** Lexicographic order of characters; for UTF-8 text it is the order of the bytes. */
  predicate StringLe(a: string, b: string) {
    if a == [] then true
    else if b == [] then false
    else a[0] < b[0] || (a[0] == b[0] && StringLe(a[1..], b[1..]))
  }

  lemma {:induction false} StringLeTotal(a: string, b: string)
    ensures StringLe(a, b) || StringLe(b, a)
    ensures StringLe(a, b) && StringLe(b, a) ==> a == b
  {
    if a != [] && b != [] {
      StringLeTotal(a[1..], b[1..]);
      assert a == [a[0]] + a[1..] && b == [b[0]] + b[1..];
    }
  }

  lemma {:induction false} StringLeTransitive(a: string, b: string, c: string)
    requires StringLe(a, b) && StringLe(b, c)
    ensures StringLe(a, c)
  {
    if a != [] && c != [] && a[0] == b[0] == c[0] { StringLeTransitive(a[1..], b[1..], c[1..]); }
  }

  /** The order is the lexicographic one: a string comes before its continuations, and otherwise the first place where
      two strings differ decides. */
  lemma {:induction false} StringLeIsLexicographic(a: string, b: string)
    ensures StringLe(a, b) <==>
              a <= b || exists i :: 0 <= i < |a| && i < |b| && a[i] < b[i] && a[..i] == b[..i]
  {
    if a != [] && b != [] {
      var x, y := a[1..], b[1..];
      StringLeIsLexicographic(x, y);
      assert a == [a[0]] + x && b == [b[0]] + y;
      assert a[0] == b[0] ==> (a <= b <==> x <= y);
      if a[0] == b[0] {
        if i :| 0 <= i < |x| && i < |y| && x[i] < y[i] && x[..i] == y[..i] {
          assert a[i + 1] < b[i + 1] && a[..i + 1] == [a[0]] + x[..i] && b[..i + 1] == [b[0]] + y[..i];
        }
        if i :| 0 <= i < |a| && i < |b| && a[i] < b[i] && a[..i] == b[..i] {
          assert x[i - 1] < y[i - 1] && x[..i - 1] == a[..i][1..] && y[..i - 1] == b[..i][1..];
        }
      } else {
        assert a[0] < b[0] ==> a[..0] == b[..0];
        assert forall i :: 0 < i < |a| && i < |b| && a[..i] == b[..i] ==> a[..i][0] == b[..i][0];
      }
    }
  }

  // ----- stable sorting -----

  /** What the sort compares: the path alone, or the priority before the path. */
  datatype Key = ByPath | ByPriorityThenPath

  predicate Le(key: Key, a: SyncAction, b: SyncAction) {
    match key
    case ByPath => StringLe(a.relativePath, b.relativePath)
    case ByPriorityThenPath =>
      a.Priority() < b.Priority() || (a.Priority() == b.Priority() && StringLe(a.relativePath, b.relativePath))
  }

  lemma LeOrders(key: Key, a: SyncAction, b: SyncAction, c: SyncAction)
    ensures Le(key, a, b) || Le(key, b, a)
    ensures Le(key, a, b) && Le(key, b, c) ==> Le(key, a, c)
    ensures Le(key, a, b) && Le(key, b, a) ==> a.relativePath == b.relativePath
  {
    StringLeTotal(a.relativePath, b.relativePath);
    if StringLe(a.relativePath, b.relativePath) && StringLe(b.relativePath, c.relativePath) {
      StringLeTransitive(a.relativePath, b.relativePath, c.relativePath);
    }
  }

  /** Puts `a` in front of the first element that is not below it. */
  function InsertSorted(key: Key, a: SyncAction, s: seq<SyncAction>): seq<SyncAction> {
    if s == [] || Le(key, a, s[0]) then [a] + s else [s[0]] + InsertSorted(key, a, s[1..])
  }

  /** The stable sort of the standard library. */
  function StableSort(key: Key, s: seq<SyncAction>): seq<SyncAction> {
    if s == [] then [] else InsertSorted(key, s[0], StableSort(key, s[1..]))
  }

  ghost predicate Sorted(key: Key, s: seq<SyncAction>) {
    forall i, j :: 0 <= i < j < |s| ==> Le(key, s[i], s[j])
  }

  lemma {:induction false} InsertKeepsSorted(key: Key, a: SyncAction, s: seq<SyncAction>)
    requires Sorted(key, s)
    ensures Sorted(key, InsertSorted(key, a, s))
    ensures multiset(InsertSorted(key, a, s)) == multiset{a} + multiset(s)
  {
    if s != [] {
      LeOrders(key, a, s[0], s[0]);
      if Le(key, a, s[0]) {
        forall j | 0 <= j < |s| ensures Le(key, a, s[j]) { LeOrders(key, a, s[0], s[j]); }
      } else {
        InsertKeepsSorted(key, a, s[1..]);
        var tail := InsertSorted(key, a, s[1..]);
        assert s == [s[0]] + s[1..];
        forall j | 0 <= j < |tail| ensures Le(key, s[0], tail[j]) {
          assert tail[j] in multiset(tail);
          if tail[j] != a { assert tail[j] in s[1..]; }
        }
      }
    }
  }

  lemma {:induction false} SortSorts(key: Key, s: seq<SyncAction>)
    ensures Sorted(key, StableSort(key, s)) && multiset(StableSort(key, s)) == multiset(s)
  {
    if s != [] {
      SortSorts(key, s[1..]);
      InsertKeepsSorted(key, s[0], StableSort(key, s[1..]));
      assert s == [s[0]] + s[1..];
    }
  }

  lemma HeadIsLeast(key: Key, s: seq<SyncAction>, a: SyncAction)
    requires Sorted(key, s) && a in s
    ensures Le(key, s[0], a)
  {
    LeOrders(key, a, a, a);
    var i :| 0 <= i < |s| && s[i] == a;
  }

  /** The heads of two sorted arrangements of the same actions agree. */
  lemma SameHead(key: Key, s: seq<SyncAction>, t: seq<SyncAction>)
    requires Sorted(key, s) && Sorted(key, t) && multiset(s) == multiset(t) && DistinctPaths(s) && s != [] && t != []
    ensures s[0] == t[0]
  {
    assert s[0] in multiset(t) && t[0] in multiset(s);
    HeadIsLeast(key, s, t[0]);
    HeadIsLeast(key, t, s[0]);
    LeOrders(key, s[0], t[0], t[0]);
    var j :| 0 <= j < |s| && s[j] == t[0];
  }

  lemma TailMultiset(s: seq<SyncAction>)
    requires s != []
    ensures multiset(s[1..]) == multiset(s) - multiset{s[0]}
  {
    assert s == [s[0]] + s[1..];
  }

  /** Two sorted arrangements of the same actions with distinct paths are the same list. */
  lemma {:induction false} SortedIsUnique(key: Key, s: seq<SyncAction>, t: seq<SyncAction>)
    requires Sorted(key, s) && Sorted(key, t) && multiset(s) == multiset(t) && DistinctPaths(s)
    ensures s == t
    decreases |s|
  {
    assert |s| == |multiset(s)| == |multiset(t)| == |t|;
    if s != [] {
      SameHead(key, s, t);
      TailMultiset(s);
      TailMultiset(t);
      SortedIsUnique(key, s[1..], t[1..]);
      assert s == [s[0]] + s[1..] && t == [t[0]] + t[1..];
    }
  }

  /** Whatever order the merged actions come in, the queue built from them is the same. */
  lemma QueueIgnoresOrder(s: seq<SyncAction>, t: seq<SyncAction>)
    requires multiset(s) == multiset(t) && DistinctPaths(s)
    ensures StableSort(ByPriorityThenPath, s) == StableSort(ByPriorityThenPath, t)
  {
    SortSorts(ByPriorityThenPath, s);
    SortSorts(ByPriorityThenPath, t);
    var sorted := StableSort(ByPriorityThenPath, s);
    DistinctPathsOfMultiset(s, sorted);
    SortedIsUnique(ByPriorityThenPath, sorted, StableSort(ByPriorityThenPath, t));
  }

  lemma {:induction false} DistinctPathsOfMultiset(s: seq<SyncAction>, t: seq<SyncAction>)
    requires multiset(s) == multiset(t) && DistinctPaths(s)
    ensures DistinctPaths(t)
  {
    forall i, j | 0 <= i < j < |t| ensures t[i].relativePath != t[j].relativePath {
      assert t[i] in multiset(s) && t[j] in multiset(s);
      var a :| 0 <= a < |s| && s[a] == t[i];
      var b :| 0 <= b < |s| && s[b] == t[j];
      if a == b {
        TwiceInMultiset(t, i, j);
        OnceInMultiset(s, a);
      }
    }
  }

  lemma TwiceInMultiset(t: seq<SyncAction>, i: nat, j: nat)
    requires i < j < |t| && t[i] == t[j]
    ensures multiset(t)[t[i]] >= 2
  {
    assert t == t[..i] + [t[i]] + t[i + 1..j] + [t[j]] + t[j + 1..];
  }

  lemma OnceInMultiset(s: seq<SyncAction>, a: nat)
    requires a < |s| && DistinctPaths(s)
    ensures multiset(s)[s[a]] == 1
  {
    assert s == s[..a] + [s[a]] + s[a + 1..];
    assert s[a] !in s[..a] && s[a] !in s[a + 1..];
  }

  // ----- insertion by priority -----

  /** `push`: behind the elements of the same or a smaller priority that stand in front. */
  function PushInto(s: seq<SyncAction>, a: SyncAction): seq<SyncAction> {
    if s == [] || s[0].Priority() > a.Priority() then [a] + s else [s[0]] + PushInto(s[1..], a)
  }

  function PushAll(s: seq<SyncAction>, actions: seq<SyncAction>): seq<SyncAction>
    decreases |actions|
  {
    if actions == [] then s else PushAll(PushInto(s, actions[0]), actions[1..])
  }

  /** The elements of one priority, in order. */
  function Lane(s: seq<SyncAction>, p: nat): seq<SyncAction> {
    if s == [] then [] else (if s[0].Priority() == p then [s[0]] else []) + Lane(s[1..], p)
  }

  ghost predicate AllOf(s: seq<SyncAction>, p: nat) {
    forall i :: 0 <= i < |s| ==> s[i].Priority() == p
  }

  /** Four first-in-first-out lanes, the most urgent first: what the queue is meant to be. */
  datatype Lanes = Lanes(downloads: seq<SyncAction>, conflicts: seq<SyncAction>,
                         uploads: seq<SyncAction>, deletes: seq<SyncAction>)
  {
    function All(): seq<SyncAction> { downloads + (conflicts + (uploads + deletes)) }

    function Add(a: SyncAction): Lanes {
      match a.Priority()
      case 0 => this.(downloads := downloads + [a])
      case 1 => this.(conflicts := conflicts + [a])
      case 2 => this.(uploads := uploads + [a])
      case _ => this.(deletes := deletes + [a])
    }

    function Next(): (Option<SyncAction>, Lanes) {
      if downloads != [] then (Some(downloads[0]), this.(downloads := downloads[1..]))
      else if conflicts != [] then (Some(conflicts[0]), this.(conflicts := conflicts[1..]))
      else if uploads != [] then (Some(uploads[0]), this.(uploads := uploads[1..]))
      else if deletes != [] then (Some(deletes[0]), this.(deletes := deletes[1..]))
      else (None, this)
    }

    ghost predicate Valid() {
      AllOf(downloads, 0) && AllOf(conflicts, 1) && AllOf(uploads, 2) && AllOf(deletes, 3)
    }
  }

  ghost predicate AtMost(s: seq<SyncAction>, p: nat) {
    forall i :: 0 <= i < |s| ==> s[i].Priority() <= p
  }

  ghost predicate Above(s: seq<SyncAction>, p: nat) {
    forall i :: 0 <= i < |s| ==> s[i].Priority() > p
  }

  /** The lanes in front of and behind the end of lane `p`. */
  lemma LaneBounds(l: Lanes, p: nat) returns (front: seq<SyncAction>, back: seq<SyncAction>)
    requires l.Valid() && p <= 3
    ensures front + back == l.All() && AtMost(front, p) && Above(back, p)
    ensures p == 0 ==> front == l.downloads
    ensures p == 1 ==> front == l.downloads + l.conflicts
    ensures p == 2 ==> front == l.downloads + (l.conflicts + l.uploads)
    ensures p == 3 ==> front == l.All()
  {
    if p == 0 {
      front, back := l.downloads, l.conflicts + (l.uploads + l.deletes);
    } else if p == 1 {
      front, back := l.downloads + l.conflicts, l.uploads + l.deletes;
    } else if p == 2 {
      front, back := l.downloads + (l.conflicts + l.uploads), l.deletes;
    } else {
      front, back := l.All(), [];
    }
  }

  lemma {:induction false} PushSplits(front: seq<SyncAction>, back: seq<SyncAction>, a: SyncAction)
    requires AtMost(front, a.Priority()) && Above(back, a.Priority())
    ensures PushInto(front + back, a) == front + [a] + back
  {
    if front == [] {
      assert front + back == back;
    } else {
      assert (front + back)[1..] == front[1..] + back;
      PushSplits(front[1..], back, a);
    }
  }

  lemma AddIsSplit(l: Lanes, a: SyncAction, front: seq<SyncAction>, back: seq<SyncAction>)
    requires l.Valid() && front + back == l.All()
    requires match a.Priority()
             case 0 => front == l.downloads
             case 1 => front == l.downloads + l.conflicts
             case 2 => front == l.downloads + (l.conflicts + l.uploads)
             case _ => front == l.All()
    ensures l.Add(a).Valid() && front + [a] + back == l.Add(a).All()
  {
    assert back == l.All()[|front|..];
  }

  /** One push on the queue is one arrival in its lane. */
  lemma PushIsAdd(l: Lanes, a: SyncAction)
    requires l.Valid()
    ensures l.Add(a).Valid() && PushInto(l.All(), a) == l.Add(a).All()
  {
    var front, back := LaneBounds(l, a.Priority());
    PushSplits(front, back, a);
    AddIsSplit(l, a, front, back);
  }

  lemma HeadOfSum(a: seq<SyncAction>, b: seq<SyncAction>)
    requires a != []
    ensures (a + b)[0] == a[0] && (a + b)[1..] == a[1..] + b
  {
  }

  /** One pop of the queue takes the oldest action of the most urgent lane. */
  lemma PopIsNext(l: Lanes)
    requires l.Valid()
    ensures l.Next().1.Valid()
    ensures l.All() == [] ==> l.Next() == (None, l)
    ensures l.All() != [] ==> l.Next().0 == Some(l.All()[0]) && l.Next().1.All() == l.All()[1..]
  {
    if l.downloads != [] {
      HeadOfSum(l.downloads, l.conflicts + (l.uploads + l.deletes));
    } else if l.conflicts != [] {
      assert l.All() == l.conflicts + (l.uploads + l.deletes);
      HeadOfSum(l.conflicts, l.uploads + l.deletes);
    } else if l.uploads != [] {
      assert l.All() == l.uploads + l.deletes;
      HeadOfSum(l.uploads, l.deletes);
    } else {
      assert l.All() == l.deletes;
    }
  }

  datatype Op = Push(action: SyncAction) | Pop

  /** What a list of operations leaves in the queue, and what its pops returned. */
  function RunQueue(s: seq<SyncAction>, ops: seq<Op>): (seq<SyncAction>, seq<SyncAction>)
    decreases |ops|
  {
    if ops == [] then (s, [])
    else
      match ops[0]
      case Push(a) => RunQueue(PushInto(s, a), ops[1..])
      case Pop =>
        if s == [] then RunQueue(s, ops[1..])
        else var (end, popped) := RunQueue(s[1..], ops[1..]); (end, [s[0]] + popped)
  }

  function RunLanes(l: Lanes, ops: seq<Op>): (Lanes, seq<SyncAction>)
    decreases |ops|
  {
    if ops == [] then (l, [])
    else
      match ops[0]
      case Push(a) => RunLanes(l.Add(a), ops[1..])
      case Pop =>
        var (head, rest) := l.Next();
        var (end, popped) := RunLanes(rest, ops[1..]);
        (end, match head case Some(a) => [a] + popped case None => popped)
  }

  /** Under any interleaving of pushes and pops the queue behaves as the four lanes do. */
  lemma {:induction false} QueueRefinesLanes(l: Lanes, ops: seq<Op>)
    requires l.Valid()
    ensures var (end, popped) := RunLanes(l, ops);
      end.Valid() && RunQueue(l.All(), ops) == (end.All(), popped)
    decreases |ops|
  {
    if ops != [] {
      match ops[0]
      case Push(a) =>
        PushIsAdd(l, a);
        QueueRefinesLanes(l.Add(a), ops[1..]);
      case Pop =>
        PopIsNext(l);
        QueueRefinesLanes(l.Next().1, ops[1..]);
    }
  }

  function Pushed(ops: seq<Op>): seq<SyncAction> {
    if ops == [] then []
    else (match ops[0] case Push(a) => [a] case Pop => []) + Pushed(ops[1..])
  }

  lemma {:induction false} PushIntoConserves(s: seq<SyncAction>, a: SyncAction)
    ensures multiset(PushInto(s, a)) == multiset(s) + multiset{a}
  {
    if s != [] {
      PushIntoConserves(s[1..], a);
      assert s == [s[0]] + s[1..];
    }
  }

  lemma HeadMoves(s: seq<SyncAction>, end: seq<SyncAction>, popped: seq<SyncAction>, pushed: multiset<SyncAction>)
    requires s != [] && multiset(end) + multiset(popped) == multiset(s[1..]) + pushed
    ensures multiset(end) + multiset([s[0]] + popped) == multiset(s) + pushed
  {
    var head, tail, e, p := multiset{s[0]}, multiset(s[1..]), multiset(end), multiset(popped);
    assert s == [s[0]] + s[1..];
    assert multiset(s) == head + tail && multiset([s[0]] + popped) == head + p;
    assert e + (head + p) == head + (e + p) == head + (tail + pushed) == (head + tail) + pushed;
  }

  /** No action is lost or made up. */
  lemma {:induction false} QueueConserves(s: seq<SyncAction>, ops: seq<Op>)
    ensures multiset(RunQueue(s, ops).0) + multiset(RunQueue(s, ops).1) == multiset(s) + multiset(Pushed(ops))
    decreases |ops|
  {
    if ops != [] {
      var rest := ops[1..];
      match ops[0]
      case Push(a) =>
        PushIntoConserves(s, a);
        QueueConserves(PushInto(s, a), rest);
        assert multiset([a] + Pushed(rest)) == multiset{a} + multiset(Pushed(rest));
      case Pop =>
        assert Pushed(ops) == Pushed(rest);
        if s == [] {
          QueueConserves(s, rest);
        } else {
          QueueConserves(s[1..], rest);
          var (end, popped) := RunQueue(s[1..], rest);
          HeadMoves(s, end, popped, multiset(Pushed(rest)));
        }
    }
  }

  // ----- building the queue -----

  lemma {:induction false} LanePriority(s: seq<SyncAction>, p: nat)
    ensures forall i :: 0 <= i < |Lane(s, p)| ==> Lane(s, p)[i].Priority() == p && Lane(s, p)[i] in s
  {
    if s != [] { LanePriority(s[1..], p); }
  }

  function AddAll(l: Lanes, actions: seq<SyncAction>): Lanes
    decreases |actions|
  {
    if actions == [] then l else AddAll(l.Add(actions[0]), actions[1..])
  }

  lemma {:induction false} PushAllIsAddAll(l: Lanes, actions: seq<SyncAction>)
    requires l.Valid()
    ensures PushAll(l.All(), actions) == AddAll(l, actions).All()
    decreases |actions|
  {
    if actions != [] {
      PushIsAdd(l, actions[0]);
      PushAllIsAddAll(l.Add(actions[0]), actions[1..]);
    }
  }

  lemma {:induction false} AddAllFillsLanes(l: Lanes, actions: seq<SyncAction>)
    ensures AddAll(l, actions).downloads == l.downloads + Lane(actions, 0)
    ensures AddAll(l, actions).conflicts == l.conflicts + Lane(actions, 1)
    ensures AddAll(l, actions).uploads == l.uploads + Lane(actions, 2)
    ensures AddAll(l, actions).deletes == l.deletes + Lane(actions, 3)
    decreases |actions|
  {
    if actions != [] { AddAllFillsLanes(l.Add(actions[0]), actions[1..]); }
  }

  /** The lanes of a list, each sorted by path. */
  function SortedLanes(s: seq<SyncAction>): Lanes {
    Lanes(StableSort(ByPath, Lane(s, 0)), StableSort(ByPath, Lane(s, 1)),
          StableSort(ByPath, Lane(s, 2)), StableSort(ByPath, Lane(s, 3)))
  }

  lemma SortedLanePriority(s: seq<SyncAction>, p: nat)
    ensures AllOf(StableSort(ByPath, Lane(s, p)), p)
  {
    LanePriority(s, p);
    SortSorts(ByPath, Lane(s, p));
    var sorted := StableSort(ByPath, Lane(s, p));
    forall i | 0 <= i < |sorted| ensures sorted[i].Priority() == p {
      assert sorted[i] in multiset(Lane(s, p));
    }
  }

  lemma SortedLanesValid(s: seq<SyncAction>)
    ensures SortedLanes(s).Valid()
  {
    SortedLanePriority(s, 0);
    SortedLanePriority(s, 1);
    SortedLanePriority(s, 2);
    SortedLanePriority(s, 3);
  }

  lemma {:induction false} InsertBehind(a: SyncAction, front: seq<SyncAction>, rest: seq<SyncAction>)
    requires forall i :: 0 <= i < |front| ==> front[i].Priority() < a.Priority()
    ensures InsertSorted(ByPriorityThenPath, a, front + rest) == front + InsertSorted(ByPriorityThenPath, a, rest)
  {
    if front == [] {
      assert front + rest == rest;
    } else {
      HeadOfSum(front, rest);
      InsertBehind(a, front[1..], rest);
    }
  }

  lemma {:induction false} InsertInLane(a: SyncAction, lane: seq<SyncAction>, back: seq<SyncAction>)
    requires AllOf(lane, a.Priority()) && Above(back, a.Priority())
    ensures InsertSorted(ByPriorityThenPath, a, lane + back) == InsertSorted(ByPath, a, lane) + back
  {
    if lane == [] {
      assert lane + back == back;
    } else {
      HeadOfSum(lane, back);
      InsertInLane(a, lane[1..], back);
    }
  }

  lemma InsertIntoLane(a: SyncAction, front: seq<SyncAction>, lane: seq<SyncAction>, back: seq<SyncAction>)
    requires forall i :: 0 <= i < |front| ==> front[i].Priority() < a.Priority()
    requires AllOf(lane, a.Priority()) && Above(back, a.Priority())
    ensures InsertSorted(ByPriorityThenPath, a, front + (lane + back)) == front + (InsertSorted(ByPath, a, lane) + back)
  {
    InsertBehind(a, front, lane + back);
    InsertInLane(a, lane, back);
  }

  function InsertLane(l: Lanes, a: SyncAction): Lanes {
    match a.Priority()
    case 0 => l.(downloads := InsertSorted(ByPath, a, l.downloads))
    case 1 => l.(conflicts := InsertSorted(ByPath, a, l.conflicts))
    case 2 => l.(uploads := InsertSorted(ByPath, a, l.uploads))
    case _ => l.(deletes := InsertSorted(ByPath, a, l.deletes))
  }

  lemma InsertIsLane(l: Lanes, a: SyncAction)
    requires l.Valid()
    ensures InsertSorted(ByPriorityThenPath, a, l.All()) == InsertLane(l, a).All()
  {
    hide InsertSorted;
    match a.Priority()
    case 0 =>
      var back := l.conflicts + (l.uploads + l.deletes);
      InsertIntoLane(a, [], l.downloads, back);
      assert [] + (l.downloads + back) == l.All();
    case 1 =>
      InsertIntoLane(a, l.downloads, l.conflicts, l.uploads + l.deletes);
    case 2 =>
      var front := l.downloads + l.conflicts;
      InsertIntoLane(a, front, l.uploads, l.deletes);
      assert front + (l.uploads + l.deletes) == l.All();
      assert front + (InsertLane(l, a).uploads + l.deletes) == InsertLane(l, a).All();
    case _ =>
      var front := l.downloads + (l.conflicts + l.uploads);
      InsertIntoLane(a, front, l.deletes, []);
      assert front + (l.deletes + []) == l.All();
      assert front + (InsertLane(l, a).deletes + []) == InsertLane(l, a).All();
  }

  /** Sorting by priority before path puts the lanes, each sorted by path, one behind the other. */
  lemma {:induction false} SortIsLanes(s: seq<SyncAction>)
    ensures StableSort(ByPriorityThenPath, s) == SortedLanes(s).All()
  {
    if s != [] {
      SortIsLanes(s[1..]);
      SortedLanesValid(s[1..]);
      InsertIsLane(SortedLanes(s[1..]), s[0]);
      LanesOfCons(s[0], s[1..]);
      assert s == [s[0]] + s[1..];
    }
  }

  lemma LanesOfCons(a: SyncAction, s: seq<SyncAction>)
    ensures SortedLanes([a] + s) == InsertLane(SortedLanes(s), a)
  {
    LaneOfCons(a, s, 0);
    LaneOfCons(a, s, 1);
    LaneOfCons(a, s, 2);
    LaneOfCons(a, s, 3);
  }

  lemma LaneOfCons(a: SyncAction, s: seq<SyncAction>, p: nat)
    ensures StableSort(ByPath, Lane([a] + s, p))
         == if a.Priority() == p then InsertSorted(ByPath, a, StableSort(ByPath, Lane(s, p))) else StableSort(ByPath,
             Lane(s, p))
  {
    assert ([a] + s)[1..] == s;
    if a.Priority() == p {
      assert Lane([a] + s, p) == [a] + Lane(s, p);
      assert ([a] + Lane(s, p))[1..] == Lane(s, p);
    } else {
      assert Lane([a] + s, p) == Lane(s, p);
    }
  }

  lemma {:induction false} LaneOfInsert(a: SyncAction, s: seq<SyncAction>, p: nat)
    requires Sorted(ByPath, s)
    ensures Lane(InsertSorted(ByPath, a, s), p)
         == if a.Priority() == p then InsertSorted(ByPath, a, Lane(s, p)) else Lane(s, p)
  {
    if s == [] || Le(ByPath, a, s[0]) {
      assert InsertSorted(ByPath, a, s) == [a] + s && ([a] + s)[1..] == s;
      LanePriority(s, p);
      if Lane(s, p) != [] {
        var i :| 0 <= i < |s| && s[i] == Lane(s, p)[0];
        LeOrders(ByPath, a, s[0], s[i]);
      }
    } else {
      var tail := InsertSorted(ByPath, a, s[1..]);
      LaneOfInsert(a, s[1..], p);
      assert ([s[0]] + tail)[1..] == tail;
      if s[0].Priority() == p {
        assert Lane(s, p) == [s[0]] + Lane(s[1..], p) && Lane(s, p)[1..] == Lane(s[1..], p);
      } else {
        assert Lane(s, p) == Lane(s[1..], p);
      }
    }
  }

  lemma {:induction false} LaneOfSort(s: seq<SyncAction>, p: nat)
    ensures Lane(StableSort(ByPath, s), p) == StableSort(ByPath, Lane(s, p))
  {
    hide InsertSorted, Sorted;
    if s != [] {
      LaneOfSort(s[1..], p);
      SortSorts(ByPath, s[1..]);
      LaneOfInsert(s[0], StableSort(ByPath, s[1..]), p);
      LaneOfCons(s[0], s[1..], p);
      assert s == [s[0]] + s[1..];
    }
  }

  /** The sorted queue is what pushing the path-sorted list one element at a time would give. */
  lemma SortIsPushAll(actions: seq<SyncAction>)
    ensures StableSort(ByPriorityThenPath, actions) == PushAll([], StableSort(ByPath, actions))
  {
    var empty := Lanes([], [], [], []);
    var byPath := StableSort(ByPath, actions);
    SortIsLanes(actions);
    assert empty.All() == [];
    PushAllIsAddAll(empty, byPath);
    AddAllFillsLanes(empty, byPath);
    LaneOfSort(actions, 0);
    LaneOfSort(actions, 1);
    LaneOfSort(actions, 2);
    LaneOfSort(actions, 3);
    assert AddAll(empty, byPath) == SortedLanes(actions);
  }

  lemma PushPast(s: seq<SyncAction>, a: SyncAction)
    requires s != [] && s[0].Priority() <= a.Priority()
    ensures PushInto(s, a) == [s[0]] + PushInto(s[1..], a)
  {
  }

  lemma PushSkips(s: seq<SyncAction>, j: nat, a: SyncAction)
    requires j < |s| && s[j].Priority() <= a.Priority()
    requires PushInto(s, a) == s[..j] + PushInto(s[j..], a)
    ensures PushInto(s, a) == s[..j + 1] + PushInto(s[j + 1..], a)
  {
    hide PushInto;
    var tail, rest := s[j..], s[j + 1..];
    assert tail[1..] == rest;
    PushPast(tail, a);
    assert s[..j + 1] == s[..j] + [s[j]];
  }

  class SyncQueue {
    var inner: seq<SyncAction>

    constructor FromActions(actions: seq<SyncAction>)
      ensures inner == StableSort(ByPriorityThenPath, actions)
    {
      inner := StableSort(ByPriorityThenPath, actions);
    }

    method Push(action: SyncAction)
      modifies this
      ensures inner == PushInto(old(inner), action)
    {
      var p := action.Priority();
      var i := 0;
      var j := 0;
      while j < |inner|
        invariant i == j <= |inner|
        invariant inner == old(inner)
        invariant PushInto(inner, action) == inner[..i] + PushInto(inner[i..], action)
      {
        if inner[j].Priority() > p {
          i := j;
          break;
        }
        PushSkips(inner, j, action);
        i := j + 1;
        j := j + 1;
      }
      assert PushInto(inner[i..], action) == [action] + inner[i..];
      inner := inner[..i] + [action] + inner[i..];
    }

    method Pop() returns (r: Option<SyncAction>)
      modifies this
      ensures old(inner) == [] ==> r == None && inner == []
      ensures old(inner) != [] ==> r == Some(old(inner)[0]) && inner == old(inner)[1..]
    {
      if inner == [] {
        return None;
      }
      r := Some(inner[0]);
      inner := inner[1..];
    }
  }
}
