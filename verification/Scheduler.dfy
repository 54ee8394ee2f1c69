/** The scheduler's pending queue: which folder is synced next, and why a folder leaves the queue. */
module Scheduler {
  import opened Model

  datatype Folder = Folder(id: string, paused: bool)

  /** What happens to the folder just taken from the front of the queue. */
  datatype Attempt = SeenShutdown | RateLimited | Missing | Unreadable | FolderPaused | Synced | SyncFailed

  datatype Mode = Selecting | Draining | Stopped

  datatype Event =
    | Send(id: string)                            // a request enters the channel; possible at any time
    | TakeRequest                                 // `select!` receives the oldest request
    | PollTick(folders: Option<seq<Folder>>)      // `select!` wakes up to poll; None: the listing failed
    | ShutdownAtSelect
    | TryFront(attempt: Attempt)                  // one turn of the inner loop

  /** `accepted` and `departed` are history: what entered the queue, and what left it and why. */
  datatype State = State(
    pending: seq<string>,
    channel: seq<string>,
    mode: Mode,
    accepted: seq<string>,
    departed: seq<(string, Attempt)>)

  const INITIAL: State := State([], [], Selecting, [], [])

  function Enqueue(s: State, id: string): State {
    if id in s.pending then s else s.(pending := s.pending + [id], accepted := s.accepted + [id])
  }

  function EnqueueAll(s: State, folders: seq<Folder>): State
    decreases |folders|
  {
    if folders == [] then s
    else EnqueueAll(if folders[0].paused then s else Enqueue(s, folders[0].id), folders[1..])
  }

  /** The inner loop runs until the queue is empty. */
  function Drained(s: State): State {
    if s.pending == [] && s.mode == Draining then s.(mode := Selecting) else s
  }

  function Try(s: State, a: Attempt): State
    requires s.pending != []
  {
    var id, rest := s.pending[0], s.pending[1..];
    match a
    case RateLimited => s.(pending := [id] + rest)
    case SyncFailed => s.(pending := rest + [id])
    case SeenShutdown => s.(pending := rest, mode := Stopped, departed := s.departed + [(id, a)])
    case _ => s.(pending := rest, departed := s.departed + [(id, a)])
  }

  /** One event; an event that the current mode does not admit changes nothing. */
  function Next(s: State, e: Event): State {
    match e
    case Send(id) => s.(channel := s.channel + [id])
    case TakeRequest =>
      if s.mode == Selecting && s.channel != []
      then Drained(Enqueue(s.(channel := s.channel[1..], mode := Draining), s.channel[0]))
      else s
    case PollTick(folders) =>
      if s.mode == Selecting && folders.Some?
      then Drained(EnqueueAll(s.(mode := Draining), folders.value))
      else s
    case ShutdownAtSelect => if s.mode == Selecting then s.(mode := Stopped) else s
    case TryFront(a) => if s.mode == Draining && s.pending != [] then Drained(Try(s, a)) else s
  }

  function Run(s: State, events: seq<Event>): State
    decreases |events|
  {
    if events == [] then s else Run(Next(s, events[0]), events[1..])
  }

  // ----- invariants of every run -----

  ghost predicate Distinct(ids: seq<string>) {
    forall i, j :: 0 <= i < j < |ids| ==> ids[i] != ids[j]
  }

  ghost function Ids(departed: seq<(string, Attempt)>): seq<string> {
    seq(|departed|, i requires 0 <= i < |departed| => departed[i].0)
  }

  ghost predicate Leaves(a: Attempt) { !a.RateLimited? && !a.SyncFailed? }

  /** The queue holds no folder twice; it is empty whenever `select!` is reached; everything that
      entered it is either still there or left it for one of the admitted reasons. */
  ghost predicate Inv(s: State) {
    && Distinct(s.pending)
    && (s.mode == Selecting ==> s.pending == [])
    && (forall i :: 0 <= i < |s.departed| ==> Leaves(s.departed[i].1))
    && multiset(s.accepted) == multiset(s.pending) + multiset(Ids(s.departed))
  }

  lemma EnqueueKeepsInv(s: State, id: string)
    requires Inv(s) && s.mode == Draining
    ensures Inv(Enqueue(s, id)) && Enqueue(s, id).mode == Draining
  {
  }

  lemma {:induction false} EnqueueAllKeepsInv(s: State, folders: seq<Folder>)
    requires Inv(s) && s.mode == Draining
    ensures Inv(EnqueueAll(s, folders)) && EnqueueAll(s, folders).mode == Draining
    decreases |folders|
  {
    if folders != [] {
      EnqueueKeepsInv(s, folders[0].id);
      EnqueueAllKeepsInv(if folders[0].paused then s else Enqueue(s, folders[0].id), folders[1..]);
    }
  }

  lemma TryKeepsInv(s: State, a: Attempt)
    requires Inv(s) && s.mode == Draining && s.pending != []
    ensures Inv(Try(s, a))
  {
    var id, rest := s.pending[0], s.pending[1..];
    assert s.pending == [id] + rest;
    if Leaves(a) {
      assert Ids(s.departed + [(id, a)]) == Ids(s.departed) + [id];
    }
  }

  lemma StepKeepsInv(s: State, e: Event)
    requires Inv(s)
    ensures Inv(Next(s, e))
  {
    match e
    case TakeRequest =>
      if s.mode == Selecting && s.channel != [] {
        EnqueueKeepsInv(s.(channel := s.channel[1..], mode := Draining), s.channel[0]);
      }
    case PollTick(folders) =>
      if s.mode == Selecting && folders.Some? { EnqueueAllKeepsInv(s.(mode := Draining), folders.value); }
    case TryFront(a) =>
      if s.mode == Draining && s.pending != [] { TryKeepsInv(s, a); }
    case _ =>
  }

  lemma {:induction false} RunKeepsInv(s: State, events: seq<Event>)
    requires Inv(s)
    ensures Inv(Run(s, events))
    decreases |events|
  {
    if events != [] {
      StepKeepsInv(s, events[0]);
      RunKeepsInv(Next(s, events[0]), events[1..]);
    }
  }

  lemma EveryRunIsSound(events: seq<Event>)
    ensures Inv(Run(INITIAL, events))
  {
    RunKeepsInv(INITIAL, events);
  }

  /** Requests sent while the queue drains wait in the channel, so the duplicate test on a request
      never finds anything: a request taken from the channel always enters the queue. */
  lemma TakenRequestAlwaysEnters(events: seq<Event>)
    requires Run(INITIAL, events).mode == Selecting && Run(INITIAL, events).channel != []
    ensures var s := Run(INITIAL, events);
      Next(s, TakeRequest).pending == [s.channel[0]]
  {
    RunKeepsInv(INITIAL, events);
  }

  /** The folder is listed as unpaused before the other one is. */
  ghost predicate ListedBefore(folders: seq<Folder>, id: string, other: string) {
    exists i :: 0 <= i < |folders| && ListedFirstAt(folders, i, id, other)
  }

  ghost predicate ListedFirstAt(folders: seq<Folder>, i: nat, id: string, other: string)
    requires i < |folders|
  {
    folders[i] == Folder(id, false) && forall k :: 0 <= k <= i ==> folders[k] != Folder(other, false)
  }

  /** Behind `from` the folders stand as the listing has them. */
  ghost predicate InListedOrder(pending: seq<string>, from: nat, folders: seq<Folder>) {
    forall a, b :: from <= a < b < |pending| ==> ListedBefore(folders, pending[a], pending[b])
  }

  /** Whatever is pending, a listing adds the folders that it has as unpaused. */
  lemma {:induction false} EnqueuesListed(s: State, folders: seq<Folder>)
    ensures var after := EnqueueAll(s, folders);
      && s.pending <= after.pending
      && (forall id :: id in after.pending <==> id in s.pending || Folder(id, false) in folders)
      && after.channel == s.channel && after.mode == s.mode && after.departed == s.departed
    decreases |folders|
  {
    if folders != [] {
      EnqueuesListed(if folders[0].paused then s else Enqueue(s, folders[0].id), folders[1..]);
      assert forall g :: g in folders <==> g == folders[0] || g in folders[1..];
    }
  }

  /** Enqueueing a listing adds, behind what is there, every folder that is listed as unpaused and not yet there, once
      and in the order of the listing. */
  lemma {:induction false} EnqueuesExactly(s: State, folders: seq<Folder>)
    requires Distinct(s.pending)
    ensures var after := EnqueueAll(s, folders);
      && s.pending <= after.pending && Distinct(after.pending)
      && (forall id :: id in after.pending <==> id in s.pending || Folder(id, false) in folders)
      && InListedOrder(after.pending, |s.pending|, folders)
    decreases |folders|
  {
    EnqueuesListed(s, folders);
    if folders != [] {
      var f, rest := folders[0], folders[1..];
      var next := if f.paused then s else Enqueue(s, f.id);
      EnqueuesExactly(next, rest);
      EnqueuesListed(next, rest);
      var after := EnqueueAll(next, rest);
      forall a, b | |s.pending| <= a < b < |after.pending|
        ensures ListedBefore(folders, after.pending[a], after.pending[b])
      {
        ListedOneLater(folders, after.pending, s.pending, next.pending, a, b);
      }
    }
  }

  lemma ListedOneLater(folders: seq<Folder>, after: seq<string>, old': seq<string>, next: seq<string>, a: nat, b: nat)
    requires folders != [] && |old'| <= a < b < |after| && old' <= next <= after && Distinct(after)
    requires next == if folders[0].paused || folders[0].id in old' then old' else old' + [folders[0].id]
    requires InListedOrder(after, |next|, folders[1..])
    ensures ListedBefore(folders, after[a], after[b])
  {
    assert forall k :: 0 <= k < |next| ==> next[k] == after[k] && after[k] != after[b];
    assert after[b] !in next;
    assert folders[0] != Folder(after[b], false);
    if a < |next| {
      assert next[a] == folders[0].id == after[a];
      assert ListedFirstAt(folders, 0, after[a], after[b]);
    } else {
      var rest := folders[1..];
      assert ListedBefore(rest, after[a], after[b]);
      var i :| 0 <= i < |rest| && ListedFirstAt(rest, i, after[a], after[b]);
      assert forall k :: 0 < k <= i + 1 ==> folders[k] == rest[k - 1];
      assert ListedFirstAt(folders, i + 1, after[a], after[b]);
    }
  }

  /** A poll at the select: afterwards exactly the folders that are listed as unpaused are pending, each once, in the
      order of the listing; the scheduler goes on to drain the queue exactly if there is one. */
  lemma PollEnqueuesExactly(events: seq<Event>, folders: seq<Folder>)
    requires Run(INITIAL, events).mode == Selecting
    ensures var next := Next(Run(INITIAL, events), PollTick(Some(folders)));
      && (forall id :: id in next.pending <==> Folder(id, false) in folders)
      && Distinct(next.pending) && InListedOrder(next.pending, 0, folders)
      && (next.mode == if exists id :: Folder(id, false) in folders then Draining else Selecting)
  {
    RunKeepsInv(INITIAL, events);
    var s := Run(INITIAL, events);
    EnqueuesExactly(s.(mode := Draining), folders);
    EnqueuesListed(s.(mode := Draining), folders);
    var next := Next(s, PollTick(Some(folders)));
    if next.pending != [] { assert next.pending[0] in next.pending; }
  }

  /** A folder leaves the queue only from the front, and only because its sync succeeded, it is paused,
      missing or unreadable, or the scheduler is shutting down; after a failure it is at the back. */
  lemma LeavesOnlyForAReason(s: State, e: Event, id: string)
    requires Inv(s) && id in s.pending
    ensures id !in Next(s, e).pending ==>
              e.TryFront? && Leaves(e.attempt) && id == s.pending[0]
              && Next(s, e).departed == s.departed + [(id, e.attempt)]
    ensures e == TryFront(SyncFailed) && s.mode == Draining && id == s.pending[0] ==>
              Next(s, e).pending == s.pending[1..] + [id]
  {
    var rest := s.pending[1..];
    assert s.pending == [s.pending[0]] + rest;
  }

  /** Over a whole run: a folder that is no longer in the queue was at its front at some moment, and left it for
      one of the admitted reasons. */
  lemma {:induction false} EveryDepartureHasAReason(s: State, events: seq<Event>, id: string) returns (n: nat)
    requires Inv(s) && id in s.pending && id !in Run(s, events).pending
    ensures n < |events| && events[n].TryFront? && Leaves(events[n].attempt)
    ensures var reached := Run(s, events[..n]);
      && reached.mode == Draining && id in reached.pending && reached.pending[0] == id
      && id !in Next(reached, events[n]).pending
    decreases |events|
  {
    hide Next, Leaves;
    var next := Next(s, events[0]);
    StepKeepsInv(s, events[0]);
    if id !in next.pending {
      n := 0;
      LeavesOnlyForAReason(s, events[0], id);
      OnlyWhileDraining(s, events[0]);
      assert events[..n] == [];
    } else {
      var m := EveryDepartureHasAReason(next, events[1..], id);
      n := m + 1;
      assert events[..n][0] == events[0] && events[..n][1..] == events[1..][..m];
    }
  }

  /** The scheduler stops exactly at a shutdown that it sees at the select or when it takes the next folder, and then
      it serves nobody any more. */
  lemma StopsExactly(s: State, e: Event)
    ensures Next(s, e).mode == Stopped <==>
              || s.mode == Stopped
              || (s.mode == Selecting && e == ShutdownAtSelect)
              || (s.mode == Draining && s.pending != [] && e == TryFront(SeenShutdown))
    ensures s.mode == Stopped ==> Next(s, e).pending == s.pending && Next(s, e).departed == s.departed
  {
    if s.mode == Selecting && e.PollTick? && e.folders.Some? { EnqueuesListed(s.(mode := Draining), e.folders.value); }
  }

  /** What becomes of the folder at the front, by outcome: a limited one stays in front, a failed one goes to the back,
      every other one is out. */
  lemma TurnMeans(s: State, a: Attempt)
    requires s.mode == Draining && s.pending != []
    ensures var front, rest := s.pending[0], s.pending[1..];
      Next(s, TryFront(a)).pending ==
      match a
      case RateLimited => s.pending
      case SyncFailed => rest + [front]
      case _ => rest
  {
    assert s.pending == [s.pending[0]] + s.pending[1..];
  }

  lemma OnlyWhileDraining(s: State, e: Event)
    requires e.TryFront? && Next(s, e) != s
    ensures s.mode == Draining
  {
  }

  // ----- when the scheduler listens -----

  /** How many turns of the inner loop take a folder out of the queue. */
  function Leavings(events: seq<Event>): nat {
    if events == [] then 0
    else (if events[0].TryFront? && !events[0].attempt.RateLimited? && !events[0].attempt.SyncFailed? then 1 else 0)
         + Leavings(events[1..])
  }

  /** The requests sent, in order. */
  function Sent(events: seq<Event>): seq<string> {
    if events == [] then [] else (if events[0].Send? then [events[0].id] else []) + Sent(events[1..])
  }

  ghost predicate NoShutdown(events: seq<Event>) {
    forall i :: 0 <= i < |events| ==> events[i] != TryFront(SeenShutdown)
  }

  lemma DrainStep(s: State, e: Event)
    requires s.mode == Draining && s.pending != [] && e != TryFront(SeenShutdown)
    ensures var next := Next(s, e); var leaves := e.TryFront? && !e.attempt.RateLimited? && !e.attempt.SyncFailed?;
      && |next.pending| == |s.pending| - (if leaves then 1 else 0)
      && next.mode == (if next.pending == [] then Selecting else Draining)
      && next.channel == s.channel + (if e.Send? then [e.id] else [])
  {
  }

  /** While fewer folders have left than the queue held, the inner loop goes on: no request is taken from the
      channel, no poll is answered, and what is sent waits. */
  lemma {:induction false} StillDraining(s: State, events: seq<Event>)
    requires s.mode == Draining && NoShutdown(events) && Leavings(events) < |s.pending|
    ensures var after := Run(s, events);
      && after.mode == Draining && |after.pending| == |s.pending| - Leavings(events)
      && after.channel == s.channel + Sent(events)
    decreases |events|
  {
    hide Next;
    if events != [] {
      DrainStep(s, events[0]);
      StillDraining(Next(s, events[0]), events[1..]);
    }
  }

  /** As soon as as many have left, the scheduler listens again. */
  lemma {:induction false} ListensAfter(s: State, events: seq<Event>) returns (m: nat)
    requires s.mode == Draining && s.pending != [] && NoShutdown(events) && Leavings(events) >= |s.pending|
    ensures m <= |events| && Leavings(events[..m]) == |s.pending|
    ensures var reached := Run(s, events[..m]);
      reached.mode == Selecting && reached.pending == [] && reached.channel == s.channel + Sent(events[..m])
    decreases |events|
  {
    hide Next;
    var next := Next(s, events[0]);
    DrainStep(s, events[0]);
    if next.pending == [] {
      m := 1;
      assert events[..m] == [events[0]] && events[..m][1..] == [];
      assert Run(next, events[..m][1..]) == next;
    } else {
      var n := ListensAfter(next, events[1..]);
      m := n + 1;
      assert events[..m][0] == events[0] && events[..m][1..] == events[1..][..n];
    }
  }

  lemma {:induction false} LeavingsGrow(events: seq<Event>, m: nat)
    requires m <= |events|
    ensures Leavings(events[..m]) <= Leavings(events)
  {
    if m > 0 {
      LeavingsGrow(events[1..], m - 1);
      assert events[..m][1..] == events[1..][..m - 1];
    }
  }

  /** While the queue drains, a request or a poll is taken at some moment exactly when as many folders leave the
      queue as it held: one folder that keeps failing is enough to keep the scheduler from listening. */
  lemma ListensExactly(s: State, events: seq<Event>)
    requires s.mode == Draining && s.pending != [] && NoShutdown(events)
    ensures (exists m :: 0 <= m <= |events| && Run(s, events[..m]).mode == Selecting) <==>
        Leavings(events) >= |s.pending|
  {
    hide Next;
    if Leavings(events) >= |s.pending| {
      var m := ListensAfter(s, events);
    } else {
      forall m | 0 <= m <= |events| ensures Run(s, events[..m]).mode == Draining {
        LeavingsGrow(events, m);
        StillDraining(s, events[..m]);
      }
    }
  }

  // ----- first come, first served -----

  /** The folders that got past the rate limiter, in order. */
  function Served(s: State, attempts: seq<Attempt>): seq<string>
    decreases |attempts|
  {
    if attempts == [] || s.mode != Draining || s.pending == [] then []
    else
      (if attempts[0].RateLimited? || attempts[0].SeenShutdown? then [] else [s.pending[0]])
      + Served(Next(s, TryFront(attempts[0])), attempts[1..])
  }

  function TryAll(s: State, attempts: seq<Attempt>): State
    decreases |attempts|
  {
    if attempts == [] then s else TryAll(Next(s, TryFront(attempts[0])), attempts[1..])
  }

  lemma FrontServed(s: State, a: Attempt)
    requires s.mode == Draining && s.pending != [] && !a.SeenShutdown?
    ensures var next := Next(s, TryFront(a));
      if a.RateLimited? then next.mode == Draining && next.pending == s.pending
      else (|s.pending| > 1 ==> next.mode == Draining) && s.pending[1..] <= next.pending
  {
  }

  /** A folder at position `k` stays in the queue while at most `k` others are served, moves up by one
      with each of them, and is the next one after exactly `k`. */
  lemma {:induction false} ServedInOrder(s: State, attempts: seq<Attempt>, k: nat)
    requires s.mode == Draining && k < |s.pending|
    requires forall i :: 0 <= i < |attempts| ==> !attempts[i].SeenShutdown?
    requires |Served(s, attempts)| <= k
    ensures Served(s, attempts) == s.pending[..|Served(s, attempts)|]
    ensures var after := TryAll(s, attempts);
      && after.mode == Draining && k - |Served(s, attempts)| < |after.pending|
      && after.pending[k - |Served(s, attempts)|] == s.pending[k]
    decreases |attempts|
  {
    hide Next;
    if attempts != [] {
      var next := Next(s, TryFront(attempts[0]));
      FrontServed(s, attempts[0]);
      if attempts[0].RateLimited? {
        ServedInOrder(next, attempts[1..], k);
      } else {
        assert Served(s, attempts) == [s.pending[0]] + Served(next, attempts[1..]);
        assert s.pending[1..][k - 1] == s.pending[k];
        assert next.pending[k - 1] == s.pending[k];
        ServedInOrder(next, attempts[1..], k - 1);
        var n := |Served(next, attempts[1..])|;
        assert next.pending[..n] == s.pending[1..][..n];
      }
    }
  }

  // ----- the loop itself -----

  class Scheduler {
    var pending: seq<string>
    var channel: seq<string>
    var stopped: bool
    ghost var accepted: seq<string>
    ghost var departed: seq<(string, Attempt)>

    ghost function View(draining: bool): State
      reads this
    {
      State(pending, channel, if stopped then Stopped else if draining then Draining else Selecting, accepted, departed)
    }

    constructor ()
      ensures View(false) == INITIAL
    {
      pending, channel, stopped := [], [], false;
      accepted, departed := [], [];
    }

    method Push(id: string)
      modifies this
      ensures View(true) == Enqueue(old(View(true)), id)
    {
      if id !in pending {
        pending := pending + [id];
        accepted := accepted + [id];
      }
    }

    /** The `recv` branch of `select!`. */
    method OnRequest()
      requires !stopped && channel != []
      modifies this
      ensures Drained(View(true)) == Next(old(View(false)), TakeRequest)
    {
      var id := channel[0];
      channel := channel[1..];
      Push(id);
    }

    /** The `sleep_until` branch of `select!`. */
    method OnPoll(folders: Option<seq<Folder>>)
      requires !stopped
      modifies this
      ensures folders.None? ==> View(false) == old(View(false))
      ensures folders.Some? ==> Drained(View(true)) == Next(old(View(false)), PollTick(folders))
      ensures folders.Some? ==>
        && old(pending) <= pending
        && forall id :: id in pending <==> id in old(pending) || Folder(id, false) in folders.value
    {
      if folders.None? {
        return;
      }
      ghost var start := View(true);
      EnqueuesListed(start, folders.value);
      var rest := folders.value;
      while rest != []
        invariant EnqueueAll(View(true), rest) == EnqueueAll(start, folders.value)
        invariant stopped == old(stopped)
        decreases |rest|
      {
        if !rest[0].paused {
          Push(rest[0].id);
        }
        rest := rest[1..];
      }
    }

    /** The inner loop, over the outcomes of its first `|attempts|` turns. */
    method Drain(attempts: seq<Attempt>) returns (turns: nat)
      requires !stopped && pending != []
      modifies this
      ensures turns <= |attempts| && Drained(View(true)) == TryAll(old(View(true)), attempts[..turns])
      ensures turns == |attempts| || stopped || pending == []
    {
      turns := 0;
      ghost var start := View(true);
      assert attempts[..0] == [];
      while pending != [] && !stopped && turns < |attempts|
        invariant turns <= |attempts|
        invariant Drained(View(true)) == TryAll(start, attempts[..turns])
        decreases |attempts| - turns
      {
        ghost var before := View(true);
        var id := pending[0];
        pending := pending[1..];
        match attempts[turns] {
          case SeenShutdown => stopped := true; departed := departed + [(id, SeenShutdown)];
          case RateLimited => pending := [id] + pending;
          case SyncFailed => pending := pending + [id];
          case a => departed := departed + [(id, a)];
        }
        assert View(true) == Try(before, attempts[turns]);
        TryAllSnoc(start, attempts[..turns], attempts[turns]);
        assert attempts[..turns + 1] == attempts[..turns] + [attempts[turns]];
        turns := turns + 1;
      }
    }
  }

  lemma {:induction false} TryAllSnoc(s: State, attempts: seq<Attempt>, a: Attempt)
    ensures TryAll(s, attempts + [a]) == Next(TryAll(s, attempts), TryFront(a))
    decreases |attempts|
  {
    if attempts == [] {
      assert ([a])[1..] == [];
    } else {
      assert (attempts + [a])[1..] == attempts[1..] + [a];
      TryAllSnoc(Next(s, TryFront(attempts[0])), attempts[1..], a);
    }
  }
}
