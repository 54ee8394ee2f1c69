/** The lock-free token bucket that limits how often a sync may start.

    Every atomic access of `try_acquire` and `refill` is one step of one thread; a run is any
    interleaving of such steps, of clock ticks and of spurious failures of the weak compare-exchange.
    `granted` and `refills` are history: the number of calls that returned true, and the value of
    `lastRefill` at the start and after every winning compare-exchange. */
module RateLimit {

  const SECOND: nat := 1_000_000_000
  const U32_MAX: nat := 0xFFFF_FFFF
  const U64_SIZE: nat := 0x1_0000_0000_0000_0000

  /** Where a thread is, with the local variables it still needs. */
  datatype Pc =
    | Idle
    | ReadClock
    | LoadLast(now: nat)
    | CasLast(now: nat, last: nat)
    | AddTokens(toAdd: nat)
    | CapTokens
    | LoadTokens
    | CasTokens(expected: nat)

  datatype Bucket = Bucket(
    capacity: nat,
    clock: nat,
    lastRefill: nat,
    tokens: nat,
    threads: seq<Pc>,
    granted: nat,
    refills: seq<nat>)

  datatype Step =
    | Tick(nanos: nat)
    | Call(thread: nat)
    | Advance(thread: nat, spurious: bool)

  function Init(capacity: nat, threads: nat, clock: nat): Bucket {
    Bucket(capacity, clock, clock, capacity, seq(threads, _ => Idle), 0, [clock])
  }

  /** Seconds since the last refill; the subtraction saturates at zero. */
  function ElapsedSecs(now: nat, last: nat): real {
    (if now < last then 0 else now - last) as real / SECOND as real
  }

  function ToAdd(elapsedSecs: real, capacity: nat): nat
    requires elapsedSecs >= 0.0
  {
    var scaled := elapsedSecs * capacity as real;
    var capped := if scaled < capacity as real then scaled else capacity as real;
    capped.Floor
  }

  function Next(b: Bucket, step: Step): Bucket {
    match step
    case Tick(nanos) => b.(clock := b.clock + nanos)
    case Call(i) =>
      if i < |b.threads| && b.threads[i] == Idle then b.(threads := b.threads[i := ReadClock]) else b
    case Advance(i, spurious) =>
      if i < |b.threads| then NextThread(b, i, spurious) else b
  }

  function NextThread(b: Bucket, i: nat, spurious: bool): Bucket
    requires i < |b.threads|
  {
    match b.threads[i]
    case Idle => b
    case ReadClock => Goto(b, i, LoadLast(b.clock))
    case LoadLast(now) =>
      if ElapsedSecs(now, b.lastRefill) >= 1.0
      then Goto(b, i, CasLast(now, b.lastRefill))
      else Goto(b, i, CapTokens)
    case CasLast(now, last) =>
      if b.lastRefill != last then Goto(b, i, CapTokens)
      else
        var won := b.(lastRefill := now, refills := b.refills + [now]);
        var toAdd := ToAdd(ElapsedSecs(now, last), b.capacity);
        Goto(won, i, if toAdd > 0 then AddTokens(toAdd) else CapTokens)
    case AddTokens(toAdd) =>
      Goto(b.(tokens := (b.tokens + toAdd) % U64_SIZE), i, CapTokens)
    case CapTokens =>
      Goto(b.(tokens := if b.tokens < b.capacity then b.tokens else b.capacity), i, LoadTokens)
    case LoadTokens => Examine(b, i, b.tokens)
    case CasTokens(expected) =>
      if spurious || b.tokens != expected then Examine(b, i, b.tokens)
      else Goto(b.(tokens := (expected - 1) % U64_SIZE, granted := b.granted + 1), i, Idle)
  }

  /** The head of the acquire loop: give up on zero, otherwise try to take one token. */
  function Examine(b: Bucket, i: nat, seen: nat): Bucket
    requires i < |b.threads|
  {
    Goto(b, i, if seen == 0 then Idle else CasTokens(seen))
  }

  function Goto(b: Bucket, i: nat, pc: Pc): Bucket
    requires i < |b.threads|
  {
    b.(threads := b.threads[i := pc])
  }

  function Run(b: Bucket, steps: seq<Step>): Bucket
    decreases |steps|
  {
    if steps == [] then b else Run(Next(b, steps[0]), steps[1..])
  }

  // ----- sums over the threads -----

  function Weight(pc: Pc): nat { if pc.AddTokens? then pc.toAdd else 0 }

  /** Tokens won by a refill and not yet added. */
  function Pending(threads: seq<Pc>): nat {
    if threads == [] then 0 else Weight(threads[0]) + Pending(threads[1..])
  }

  /** Threads between `fetch_add` and `fetch_min`. */
  function Capping(threads: seq<Pc>): nat {
    if threads == [] then 0 else (if threads[0].CapTokens? then 1 else 0) + Capping(threads[1..])
  }

  lemma {:induction false} SumsAfterGoto(threads: seq<Pc>, i: nat, pc: Pc)
    requires i < |threads|
    ensures Pending(threads[i := pc]) + Weight(threads[i]) == Pending(threads) + Weight(pc)
    ensures Capping(threads[i := pc]) + (if threads[i].CapTokens? then 1 else 0)
         == Capping(threads) + (if pc.CapTokens? then 1 else 0)
  {
    if i == 0 {
      assert threads[i := pc][1..] == threads[1..];
    } else {
      assert threads[i := pc][1..] == threads[1..][i - 1 := pc];
      SumsAfterGoto(threads[1..], i - 1, pc);
    }
  }

  lemma {:induction false} SumsBounded(threads: seq<Pc>)
    ensures Capping(threads) <= |threads|
    ensures (forall i :: 0 <= i < |threads| ==> threads[i] == Idle) ==> Pending(threads) == 0 && Capping(threads) == 0
  {
    if threads != [] { SumsBounded(threads[1..]); }
  }

  // ----- the invariant -----

  ghost predicate Spaced(times: seq<nat>) {
    forall i :: 0 < i < |times| ==> times[i - 1] + SECOND <= times[i]
  }

  /** `pc` was reached by a thread that read the clock no earlier than `since`. */
  ghost predicate PcOk(capacity: nat, clock: nat, pc: Pc, since: nat) {
    match pc
    case LoadLast(now) => since <= now <= clock
    case CasLast(now, last) => since <= now <= clock && last + SECOND <= now
    case AddTokens(toAdd) => toAdd == capacity
    case CasTokens(expected) => expected > 0
    case _ => true
  }

  /** `capacity * n`, unfolded one refill at a time so that the step lemmas stay linear. */
  ghost function Times(capacity: nat, n: nat): nat {
    if n == 0 then 0 else Times(capacity, n - 1) + capacity
  }

  lemma {:induction false} TimesIsProduct(capacity: nat, n: nat)
    ensures Times(capacity, n) == capacity * n
  {
    if n > 0 { TimesIsProduct(capacity, n - 1); }
  }

  ghost predicate Sound(b: Bucket) {
    && b.capacity <= U32_MAX && |b.threads| < U32_MAX
    && |b.refills| > 0 && b.refills[|b.refills| - 1] == b.lastRefill <= b.clock
    && Spaced(b.refills)
    && b.tokens <= b.capacity + Times(b.capacity, Capping(b.threads))
  }

  /** Measured from a point where `mark` refills had happened, the clock showed `since`, and
      `budget` tokens were either handed out or available. */
  ghost predicate Inv(b: Bucket, budget: nat, mark: nat, since: nat) {
    && Sound(b)
    && 0 < mark <= |b.refills|
    && (forall i :: 0 <= i < |b.threads| ==> PcOk(b.capacity, b.clock, b.threads[i], since))
    && (forall i :: mark <= i < |b.refills| ==> since <= b.refills[i])
    && b.tokens + b.granted + Pending(b.threads) <= budget + Times(b.capacity, |b.refills| - mark)
  }

  lemma ToAddIsCapacity(elapsedSecs: real, capacity: nat)
    requires elapsedSecs >= 1.0
    ensures ToAdd(elapsedSecs, capacity) == capacity
  {
    assert elapsedSecs * capacity as real >= capacity as real;
  }

  lemma ElapsedAtLeastOne(now: nat, last: nat)
    ensures ElapsedSecs(now, last) >= 1.0 <==> last + SECOND <= now
  {
  }

  lemma NoWrap(b: Bucket)
    requires Sound(b)
    ensures b.tokens + b.capacity < U64_SIZE
    ensures b.capacity + b.capacity * Capping(b.threads) < U64_SIZE
  {
    SumsBounded(b.threads);
    TimesIsProduct(b.capacity, Capping(b.threads));
    MulMonotone(b.capacity, Capping(b.threads), U32_MAX - 1);
    assert b.capacity * (U32_MAX - 1) <= U32_MAX * (U32_MAX - 1);
  }

  /** Moving thread `i` to `pc`, with the shared words already updated in `base`. */
  lemma GotoKeepsInv(b: Bucket, base: Bucket, i: nat, pc: Pc, budget: nat, mark: nat, since: nat)
    requires Inv(b, budget, mark, since) && i < |b.threads|
    requires base.threads == b.threads && base.capacity == b.capacity && base.clock == b.clock
    requires b.refills <= base.refills && Spaced(base.refills)
    requires base.refills[|base.refills| - 1] == base.lastRefill <= b.clock
    requires base.refills == b.refills || (base.refills == b.refills + [base.lastRefill] && since <= base.lastRefill)
    requires PcOk(b.capacity, b.clock, pc, since)
    requires base.tokens <= b.capacity + Times(b.capacity, Capping(b.threads[i := pc]))
    requires base.tokens + base.granted + Pending(b.threads[i := pc]) <= budget + Times(b.capacity,
        |base.refills| - mark)
    ensures Inv(Goto(base, i, pc), budget, mark, since)
  {
    var after := Goto(base, i, pc);
    forall j | 0 <= j < |after.threads| ensures PcOk(b.capacity, b.clock, after.threads[j], since) {
      assert PcOk(b.capacity, b.clock, b.threads[j], since);
    }
  }

  lemma CasLastKeepsInv(b: Bucket, i: nat, budget: nat, mark: nat, since: nat)
    requires Inv(b, budget, mark, since) && i < |b.threads| && b.threads[i].CasLast?
    ensures Inv(NextThread(b, i, false), budget, mark, since)
  {
    var CasLast(now, last) := b.threads[i];
    assert PcOk(b.capacity, b.clock, b.threads[i], since);
    if b.lastRefill != last {
      SumsAfterGoto(b.threads, i, CapTokens);
      GotoKeepsInv(b, b, i, CapTokens, budget, mark, since);
    } else {
      ElapsedAtLeastOne(now, last);
      ToAddIsCapacity(ElapsedSecs(now, last), b.capacity);
      var won := b.(lastRefill := now, refills := b.refills + [now]);
      var pc := if b.capacity > 0 then AddTokens(b.capacity) else CapTokens;
      SumsAfterGoto(b.threads, i, pc);
      GotoKeepsInv(b, won, i, pc, budget, mark, since);
    }
  }

  lemma AddKeepsInv(b: Bucket, i: nat, budget: nat, mark: nat, since: nat)
    requires Inv(b, budget, mark, since) && i < |b.threads| && b.threads[i].AddTokens?
    ensures Inv(NextThread(b, i, false), budget, mark, since)
  {
    hide ElapsedSecs, ToAdd, Examine;
    assert PcOk(b.capacity, b.clock, b.threads[i], since);
    NoWrap(b);
    SumsAfterGoto(b.threads, i, CapTokens);
    GotoKeepsInv(b, b.(tokens := b.tokens + b.capacity), i, CapTokens, budget, mark, since);
  }

  lemma CapKeepsInv(b: Bucket, i: nat, budget: nat, mark: nat, since: nat)
    requires Inv(b, budget, mark, since) && i < |b.threads| && b.threads[i].CapTokens?
    ensures Inv(NextThread(b, i, false), budget, mark, since)
  {
    hide ElapsedSecs, ToAdd, Examine;
    SumsAfterGoto(b.threads, i, LoadTokens);
    var base := b.(tokens := if b.tokens < b.capacity then b.tokens else b.capacity);
    GotoKeepsInv(b, base, i, LoadTokens, budget, mark, since);
  }

  lemma TakeStepKeepsInv(b: Bucket, i: nat, spurious: bool, budget: nat, mark: nat, since: nat)
    requires Inv(b, budget, mark, since) && i < |b.threads| && (b.threads[i].LoadTokens? || b.threads[i].CasTokens?)
    ensures Inv(NextThread(b, i, spurious), budget, mark, since)
  {
    assert PcOk(b.capacity, b.clock, b.threads[i], since);
    NoWrap(b);
    if b.threads[i].LoadTokens? || spurious || b.tokens != b.threads[i].expected {
      var pc := if b.tokens == 0 then Idle else CasTokens(b.tokens);
      SumsAfterGoto(b.threads, i, pc);
      GotoKeepsInv(b, b, i, pc, budget, mark, since);
    } else {
      SumsAfterGoto(b.threads, i, Idle);
      GotoKeepsInv(b, b.(tokens := b.tokens - 1, granted := b.granted + 1), i, Idle, budget, mark, since);
    }
  }

  lemma ClockStepKeepsInv(b: Bucket, i: nat, budget: nat, mark: nat, since: nat)
    requires Inv(b, budget, mark, since) && i < |b.threads| && since <= b.clock
    requires b.threads[i].ReadClock? || b.threads[i].LoadLast?
    ensures Inv(NextThread(b, i, false), budget, mark, since)
  {
    assert PcOk(b.capacity, b.clock, b.threads[i], since);
    var pc := NextThread(b, i, false).threads[i];
    SumsAfterGoto(b.threads, i, pc);
    if b.threads[i].LoadLast? { ElapsedAtLeastOne(b.threads[i].now, b.lastRefill); }
    GotoKeepsInv(b, b, i, pc, budget, mark, since);
  }

  lemma ThreadStepKeepsInv(b: Bucket, i: nat, spurious: bool, budget: nat, mark: nat, since: nat)
    requires Inv(b, budget, mark, since) && i < |b.threads| && since <= b.clock
    ensures Inv(NextThread(b, i, spurious), budget, mark, since)
  {
    match b.threads[i]
    case Idle =>
    case CasLast(_, _) => CasLastKeepsInv(b, i, budget, mark, since);
    case AddTokens(_) => AddKeepsInv(b, i, budget, mark, since);
    case CapTokens => CapKeepsInv(b, i, budget, mark, since);
    case ReadClock => ClockStepKeepsInv(b, i, budget, mark, since);
    case LoadLast(_) => ClockStepKeepsInv(b, i, budget, mark, since);
    case _ => TakeStepKeepsInv(b, i, spurious, budget, mark, since);
  }

  lemma TickKeepsInv(b: Bucket, nanos: nat, budget: nat, mark: nat, since: nat)
    requires Inv(b, budget, mark, since)
    ensures Inv(Next(b, Tick(nanos)), budget, mark, since)
  {
    var after := b.(clock := b.clock + nanos);
    forall j | 0 <= j < |after.threads| ensures PcOk(after.capacity, after.clock, after.threads[j], since) {
      assert PcOk(b.capacity, b.clock, b.threads[j], since);
    }
  }

  lemma CallKeepsInv(b: Bucket, i: nat, budget: nat, mark: nat, since: nat)
    requires Inv(b, budget, mark, since)
    ensures Inv(Next(b, Call(i)), budget, mark, since)
  {
    if i < |b.threads| && b.threads[i] == Idle {
      SumsAfterGoto(b.threads, i, ReadClock);
      GotoKeepsInv(b, b, i, ReadClock, budget, mark, since);
    }
  }

  lemma StepFrame(b: Bucket, step: Step)
    ensures var after := Next(b, step);
      && b.clock <= after.clock && b.refills <= after.refills
      && after.capacity == b.capacity && |after.threads| == |b.threads|
  {
  }

  lemma StepKeepsInv(b: Bucket, step: Step, budget: nat, mark: nat, since: nat)
    requires Inv(b, budget, mark, since) && since <= b.clock
    ensures Inv(Next(b, step), budget, mark, since)
  {
    match step
    case Tick(nanos) => TickKeepsInv(b, nanos, budget, mark, since);
    case Call(i) => CallKeepsInv(b, i, budget, mark, since);
    case Advance(i, spurious) =>
      if i < |b.threads| { ThreadStepKeepsInv(b, i, spurious, budget, mark, since); }
  }

  lemma {:induction false} RunKeepsInv(b: Bucket, steps: seq<Step>, budget: nat, mark: nat, since: nat)
    requires Inv(b, budget, mark, since) && since <= b.clock
    ensures Inv(Run(b, steps), budget, mark, since) && b.clock <= Run(b, steps).clock
    ensures Run(b, steps).capacity == b.capacity && b.refills <= Run(b, steps).refills
    decreases |steps|
  {
    if steps != [] {
      StepFrame(b, steps[0]);
      StepKeepsInv(b, steps[0], budget, mark, since);
      RunKeepsInv(Next(b, steps[0]), steps[1..], budget, mark, since);
    }
  }

  /** Refills from index `mark` on, at least one second apart, all in `[since, clock]`. */
  lemma {:induction false} RefillsFitInWindow(times: seq<nat>, mark: nat, since: nat, k: nat)
    requires Spaced(times) && mark <= k < |times| && since <= times[mark]
    ensures since + (k - mark) * SECOND <= times[k]
  {
    if mark < k { RefillsFitInWindow(times, mark, since, k - 1); }
  }

  lemma InitIsSound(capacity: nat, threads: nat, clock: nat)
    requires capacity <= U32_MAX && threads < U32_MAX
    ensures Inv(Init(capacity, threads, clock), capacity, 1, clock)
  {
    SumsBounded(Init(capacity, threads, clock).threads);
  }

  /** Over any interleaving: winning refills are a second apart, the counter exceeds the capacity by
      at most one capacity per thread that has added and not yet capped, it never wraps, and the
      calls granted up to now fit the configured rate. */
  lemma RateBound(capacity: nat, threads: nat, start: nat, steps: seq<Step>)
    requires capacity <= U32_MAX && threads < U32_MAX
    ensures var b := Run(Init(capacity, threads, start), steps);
      && start <= b.clock
      && Spaced(b.refills) && [start] <= b.refills
      && b.tokens <= capacity + capacity * Capping(b.threads) < U64_SIZE
      && b.granted <= capacity * (1 + (b.clock - start) / SECOND)
  {
    var init := Init(capacity, threads, start);
    var b := Run(init, steps);
    InitIsSound(capacity, threads, start);
    RunKeepsInv(init, steps, capacity, 1, start);
    NoWrap(b);
    TimesIsProduct(capacity, Capping(b.threads));
    RefillsFitInWindow(b.refills, 0, start, |b.refills| - 1);
    QuotientBound(b.clock - start, |b.refills| - 1);
    GrantedBound(b, capacity, |b.refills|, 1 + (b.clock - start) / SECOND);
  }

  lemma GrantedBound(b: Bucket, capacity: nat, refills: nat, seconds: nat)
    requires 0 < refills <= seconds && b.granted <= capacity + Times(capacity, refills - 1)
    ensures b.granted <= capacity * seconds
  {
    TimesIsProduct(capacity, refills);
    MulMonotone(capacity, refills, seconds);
  }

  lemma QuotientBound(span: nat, k: nat)
    requires k * SECOND <= span
    ensures k <= span / SECOND
  {
  }

  lemma MulMonotone(c: nat, x: nat, y: nat)
    requires x <= y
    ensures c * x <= c * y
  {
  }

  // ----- what a call that ends has seen -----

  /** The thread has called `try_acquire`, and with this step its call is over. */
  predicate CallEnds(b: Bucket, step: Step, i: nat) {
    i < |b.threads| && b.threads[i] != Idle && i < |Next(b, step).threads| && Next(b, step).threads[i] == Idle
  }

  lemma EndOfCall(b: Bucket, step: Step, i: nat, budget: nat, mark: nat, since: nat)
    requires Inv(b, budget, mark, since) && CallEnds(b, step, i)
    ensures step.Advance? && step.thread == i
    ensures var next := Next(b, step);
      || (b.tokens > 0 && next.tokens == b.tokens - 1 && next.granted == b.granted + 1)
      || (b.tokens == 0 && next.tokens == 0 && next.granted == b.granted)
  {
    hide ElapsedSecs, ToAdd, Times;
    assert PcOk(b.capacity, b.clock, b.threads[i], since);
    NoWrap(b);
  }

  lemma CounterMoves(b: Bucket, step: Step, budget: nat, mark: nat, since: nat)
    requires Inv(b, budget, mark, since)
    ensures var next := Next(b, step);
      || (next.tokens == b.tokens && next.granted == b.granted)
      || (b.tokens > 0 && next.tokens == b.tokens - 1 && next.granted == b.granted + 1)
      || (next.tokens == b.capacity < b.tokens && next.granted == b.granted)
      || (next.tokens == b.tokens + b.capacity && next.granted == b.granted
          && step.Advance? && step.thread < |b.threads| && b.threads[step.thread].AddTokens?)
  {
    hide ElapsedSecs, ToAdd, Times;
    if step.Advance? && step.thread < |b.threads| {
      assert PcOk(b.capacity, b.clock, b.threads[step.thread], since);
      NoWrap(b);
      ThreadMoves(b, step.thread, step.spurious, since);
    }
  }

  lemma ThreadMoves(b: Bucket, i: nat, spurious: bool, since: nat)
    requires i < |b.threads| && b.tokens + b.capacity < U64_SIZE && PcOk(b.capacity, b.clock, b.threads[i], since)
    ensures var next := NextThread(b, i, spurious);
      || (next.tokens == b.tokens && next.granted == b.granted)
      || (b.tokens > 0 && next.tokens == b.tokens - 1 && next.granted == b.granted + 1)
      || (next.tokens == b.capacity < b.tokens && next.granted == b.granted)
      || (next.tokens == b.tokens + b.capacity && next.granted == b.granted && b.threads[i].AddTokens?)
  {
    hide ElapsedSecs, ToAdd;
  }

  /** Over any interleaving, spurious failures included: a call that ends has taken exactly one token if it
      succeeds, and if it is refused there is no token left at that very moment. */
  lemma RefusedOnlyWhenEmpty(capacity: nat, threads: nat, start: nat, steps: seq<Step>, step: Step, i: nat)
    requires capacity <= U32_MAX && threads < U32_MAX && CallEnds(Run(Init(capacity, threads, start), steps), step, i)
    ensures var b := Run(Init(capacity, threads, start), steps); var next := Next(b, step);
      if next.granted > b.granted then b.tokens > 0 && next.tokens == b.tokens - 1 && next.granted == b.granted + 1
      else b.tokens == 0 && next.tokens == 0 && next.granted == b.granted
  {
    hide Next, Inv, CallEnds;
    var init := Init(capacity, threads, start);
    InitIsSound(capacity, threads, start);
    RunKeepsInv(init, steps, capacity, 1, start);
    EndOfCall(Run(init, steps), step, i, capacity, 1, start);
  }

  /** Over any interleaving the counter never loses a token: it falls by one with a successful call or down to the
      capacity, and rises by the capacity when a thread adds what its refill has won. */
  lemma NoTokenIsLost(capacity: nat, threads: nat, start: nat, steps: seq<Step>, step: Step)
    requires capacity <= U32_MAX && threads < U32_MAX
    ensures var b := Run(Init(capacity, threads, start), steps); var next := Next(b, step);
      || (next.tokens == b.tokens && next.granted == b.granted)
      || (b.tokens > 0 && next.tokens == b.tokens - 1 && next.granted == b.granted + 1)
      || (next.tokens == capacity < b.tokens && next.granted == b.granted)
      || (next.tokens == b.tokens + capacity && next.granted == b.granted
          && step.Advance? && step.thread < |b.threads| && b.threads[step.thread].AddTokens?)
  {
    hide Next, Inv;
    var init := Init(capacity, threads, start);
    InitIsSound(capacity, threads, start);
    RunKeepsInv(init, steps, capacity, 1, start);
    CounterMoves(Run(init, steps), step, capacity, 1, start);
  }

  /** A call looks for a token only right after it has cut the counter to the capacity, whether it refilled or not. */
  lemma EveryCallCaps(b: Bucket, step: Step, i: nat)
    requires i < |b.threads| && i < |Next(b, step).threads|
    requires !b.threads[i].LoadTokens? && !b.threads[i].CasTokens?
    ensures Next(b, step).threads[i].LoadTokens? || Next(b, step).threads[i].CasTokens? ==>
              step.Advance? && step.thread == i && Next(b, step).tokens <= b.capacity
  {
    hide ElapsedSecs, ToAdd;
  }

  ghost predicate Quiescent(b: Bucket) {
    forall i :: 0 <= i < |b.threads| ==> b.threads[i] == Idle
  }

  /** No thread is between reading the clock and capping the counter. */
  ghost predicate Calm(b: Bucket) {
    forall i :: 0 <= i < |b.threads| ==>
      b.threads[i] == Idle || b.threads[i] == ReadClock || b.threads[i] == LoadTokens || b.threads[i].CasTokens?
  }

  lemma {:induction false} CalmSums(threads: seq<Pc>)
    requires forall i :: 0 <= i < |threads| ==>
               threads[i] == Idle || threads[i] == ReadClock || threads[i] == LoadTokens || threads[i].CasTokens?
    ensures Pending(threads) == 0 && Capping(threads) == 0
  {
    if threads != [] { CalmSums(threads[1..]); }
  }

  /** From a calm moment on. */
  lemma CalmWindow(open: Bucket, window: seq<Step>, k: nat, budget: nat, mark: nat, since: nat)
    requires Inv(open, budget, mark, since) && Calm(open)
    requires Run(open, window).clock < open.clock + k * SECOND
    ensures Run(open, window).granted <= open.granted + open.capacity * (k + 1)
  {
    hide Run, Next;
    CalmSums(open.threads);
    var refills := |open.refills|;
    assert Inv(open, open.tokens + open.granted, refills, open.clock);
    var close := Run(open, window);
    RunKeepsInv(open, window, open.tokens + open.granted, refills, open.clock);
    if refills < |close.refills| {
      RefillsFitInWindow(close.refills, refills, open.clock, |close.refills| - 1);
      CountBound(|close.refills| - 1 - refills, k, close.clock - open.clock);
    }
    TimesIsProduct(open.capacity, |close.refills| - refills);
    MulMonotone(open.capacity, |close.refills| - refills, k);
  }

  /** One thread grants nothing before it has capped the counter. */
  lemma NothingBeforeCap(b: Bucket, step: Step)
    requires |b.threads| <= 1 && !Calm(b)
    ensures Next(b, step).granted == b.granted && |Next(b, step).threads| == |b.threads|
    ensures b.clock <= Next(b, step).clock && Next(b, step).capacity == b.capacity
  {
  }

  /** Sequential use: from any moment, also inside a call, to the first calm one and on. */
  lemma {:induction false} SequentialWindow(open: Bucket, window: seq<Step>, k: nat, budget: nat, mark: nat, since: nat)
    requires Inv(open, budget, mark, since) && |open.threads| <= 1 && since <= open.clock
    requires Run(open, window).clock < open.clock + k * SECOND
    ensures Run(open, window).granted <= open.granted + open.capacity * (k + 1)
    decreases |window|
  {
    if Calm(open) {
      CalmWindow(open, window, k, budget, mark, since);
    } else if window != [] {
      var next := Next(open, window[0]);
      NothingBeforeCap(open, window[0]);
      StepFrame(open, window[0]);
      StepKeepsInv(open, window[0], budget, mark, since);
      SequentialWindow(next, window[1..], k, budget, mark, since);
    } else {
      MulMonotone(open.capacity, 0, k + 1);
    }
  }

  /** Every half-open window of `k` seconds grants at most `capacity * (k + 1)` calls: in sequential use wherever the
      window begins, and with any number of threads when at its beginning no thread is between reading the
      clock and capping the counter. */
  lemma WindowBound(capacity: nat, threads: nat, start: nat, before: seq<Step>, window: seq<Step>, k: nat)
    requires capacity <= U32_MAX && threads < U32_MAX
    requires threads <= 1 || Calm(Run(Init(capacity, threads, start), before))
    requires Run(Run(Init(capacity, threads, start), before), window).clock
           < Run(Init(capacity, threads, start), before).clock + k * SECOND
    ensures Run(Run(Init(capacity, threads, start), before), window).granted
         <= Run(Init(capacity, threads, start), before).granted + capacity * (k + 1)
  {
    hide Next, Inv, Calm;
    var init := Init(capacity, threads, start);
    InitIsSound(capacity, threads, start);
    RunKeepsInv(init, before, capacity, 1, start);
    RunKeepsThreads(init, before);
    var open := Run(init, before);
    if threads <= 1 {
      SequentialWindow(open, window, k, capacity, 1, start);
    } else {
      CalmWindow(open, window, k, capacity, 1, start);
    }
  }

  lemma {:induction false} RunKeepsThreads(b: Bucket, steps: seq<Step>)
    ensures |Run(b, steps).threads| == |b.threads|
    decreases |steps|
  {
    if steps != [] { RunKeepsThreads(Next(b, steps[0]), steps[1..]); }
  }

  lemma CountBound(m: nat, k: nat, span: nat)
    requires m * SECOND <= span < k * SECOND
    ensures m + 1 <= k
  {
  }

  // ----- sequential use -----

  /** One call of `try_acquire` by a thread that nobody interrupts: the call and `n` turns of the thread. */
  function SoloSteps(i: nat, n: nat): seq<Step> {
    [Call(i)] + seq(n, _ => Advance(i, false))
  }

  function Go(b: Bucket, i: nat, n: nat): Bucket
    decreases n
  {
    if n == 0 then b else Go(Next(b, Advance(i, false)), i, n - 1)
  }

  lemma {:induction false} RunIsGo(b: Bucket, i: nat, n: nat)
    ensures Run(b, seq(n, _ => Advance(i, false))) == Go(b, i, n)
    decreases n
  {
    if n > 0 {
      var steps := seq(n, _ => Advance(i, false));
      assert steps[1..] == seq(n - 1, _ => Advance(i, false));
      RunIsGo(Next(b, steps[0]), i, n - 1);
    }
  }

  lemma Unroll(b: Bucket, i: nat, pc: Pc, n: nat)
    requires i < |b.threads| && n > 0
    ensures Go(Goto(b, i, pc), i, n) == Go(NextThread(Goto(b, i, pc), i, false), i, n - 1)
    ensures forall pc': Pc :: Goto(Goto(b, i, pc), i, pc') == Goto(b, i, pc')
  {
    forall pc': Pc ensures Goto(Goto(b, i, pc), i, pc') == Goto(b, i, pc') {
      assert b.threads[i := pc][i := pc'] == b.threads[i := pc'];
    }
  }

  /** After the refill, the accesses of the acquire loop. */
  lemma SoloTake(b: Bucket, i: nat, n: nat)
    requires i < |b.threads| && n >= 3 && b.tokens < U64_SIZE
    ensures var left := if b.tokens < b.capacity then b.tokens else b.capacity;
      Go(Goto(b, i, CapTokens), i, n)
      == if left == 0 then Go(Goto(b.(tokens := 0), i, Idle), i, n - 2)
         else Go(Goto(b.(tokens := left - 1, granted := b.granted + 1), i, Idle), i, n - 3)
  {
    var left := if b.tokens < b.capacity then b.tokens else b.capacity;
    Unroll(b, i, CapTokens, n);
    var capped := b.(tokens := left);
    assert NextThread(Goto(b, i, CapTokens), i, false) == Goto(capped, i, LoadTokens);
    Unroll(capped, i, LoadTokens, n - 1);
    if left > 0 {
      Unroll(capped, i, CasTokens(left), n - 2);
      var taken := capped.(tokens := left - 1, granted := b.granted + 1);
      assert NextThread(Goto(capped, i, CasTokens(left)), i, false) == Goto(taken, i, Idle);
    }
  }

  /** The accesses up to the cap, and the bucket they leave. */
  lemma SoloRefill(b: Bucket, i: nat, n: nat) returns (ready: Bucket, left: nat)
    requires i < |b.threads| && n >= 7 && 0 < b.capacity && b.tokens + b.capacity < U64_SIZE
    ensures ready == if b.lastRefill + SECOND <= b.clock
                     then b.(lastRefill := b.clock, refills := b.refills + [b.clock], tokens := b.tokens + b.capacity)
                     else b
    ensures 3 <= left && Go(Goto(b, i, ReadClock), i, n) == Go(Goto(ready, i, CapTokens), i, left)
  {
    ElapsedAtLeastOne(b.clock, b.lastRefill);
    Unroll(b, i, ReadClock, n);
    Unroll(b, i, LoadLast(b.clock), n - 1);
    ready, left := b, n - 2;
    if b.lastRefill + SECOND <= b.clock {
      ToAddIsCapacity(ElapsedSecs(b.clock, b.lastRefill), b.capacity);
      Unroll(b, i, CasLast(b.clock, b.lastRefill), n - 2);
      var won := b.(lastRefill := b.clock, refills := b.refills + [b.clock]);
      assert NextThread(Goto(b, i, CasLast(b.clock, b.lastRefill)), i, false) == Goto(won, i,
          AddTokens(b.capacity)) by {
        assert b.threads[i := CasLast(b.clock,
            b.lastRefill)][i := AddTokens(b.capacity)] == b.threads[i := AddTokens(b.capacity)];
      }
      Unroll(won, i, AddTokens(b.capacity), n - 3);
      ready := won.(tokens := b.tokens + b.capacity);
      assert NextThread(Goto(won, i, AddTokens(b.capacity)), i, false) == Goto(ready, i, CapTokens) by {
        assert b.threads[i := AddTokens(b.capacity)][i := CapTokens] == b.threads[i := CapTokens];
      }
      left := n - 4;
    }
  }

  lemma {:induction false} IdleStays(b: Bucket, i: nat, n: nat)
    requires i < |b.threads| && b.threads[i] == Idle
    ensures Go(b, i, n) == b
    decreases n
  {
    if n > 0 { IdleStays(b, i, n - 1); }
  }

  lemma SoloIsGo(b: Bucket, i: nat, n: nat)
    requires i < |b.threads| && b.threads[i] == Idle
    ensures Run(b, SoloSteps(i, n)) == Go(Goto(b, i, ReadClock), i, n)
  {
    assert SoloSteps(i, n)[1..] == seq(n, _ => Advance(i, false));
    RunIsGo(Goto(b, i, ReadClock), i, n);
  }

  /** The bucket after the acquire loop of `SoloTake`. */
  function Taken(ready: Bucket, i: nat): Bucket
    requires i < |ready.threads|
  {
    var left := if ready.tokens < ready.capacity then ready.tokens else ready.capacity;
    if left == 0 then Goto(ready.(tokens := 0), i, Idle)
    else Goto(ready.(tokens := left - 1, granted := ready.granted + 1), i, Idle)
  }

  lemma SoloFinishes(b: Bucket, i: nat, n: nat) returns (ready: Bucket)
    requires i < |b.threads| && b.threads[i] == Idle && n >= 7 && 0 < b.capacity && b.tokens + b.capacity < U64_SIZE
    ensures ready == if b.lastRefill + SECOND <= b.clock
                     then b.(lastRefill := b.clock, refills := b.refills + [b.clock], tokens := b.tokens + b.capacity)
                     else b
    ensures Run(b, SoloSteps(i, n)) == Taken(ready, i)
  {
    SoloIsGo(b, i, n);
    var left;
    ready, left := SoloRefill(b, i, n);
    SoloTake(ready, i, left);
    var none := ready.tokens == 0;
    IdleStays(Taken(ready, i), i, if none then left - 2 else left - 3);
  }

  /** Used by one thread at a time (a call makes at most seven accesses), a call succeeds exactly when a token is
      left or a second has
      passed since the last refill; it takes one token and leaves every thread outside the bucket. */
  lemma SoloCallGrantsExactly(b: Bucket, i: nat, n: nat)
    requires Quiescent(b) && i < |b.threads| && n >= 7 && b.tokens <= b.capacity && 0 < b.capacity <= U32_MAX
    ensures var after := Run(b, SoloSteps(i, n));
      var due := b.lastRefill + SECOND <= b.clock;
      && after.granted == b.granted + (if b.tokens > 0 || due then 1 else 0)
      && after.tokens == (if due then b.capacity else b.tokens) - (after.granted - b.granted)
      && after.lastRefill == (if due then b.clock else b.lastRefill)
      && after.clock == b.clock && after.capacity == b.capacity && |after.threads| == |b.threads|
      && Quiescent(after)
  {
    var ready := SoloFinishes(b, i, n);
    assert forall j :: 0 <= j < |b.threads| ==> Taken(ready, i).threads[j] == Idle;
  }

  /** `k` calls one after the other, while the clock stands still. */
  function CallsInARow(b: Bucket, i: nat, k: nat): Bucket {
    if k == 0 then b else Run(CallsInARow(b, i, k - 1), SoloSteps(i, 7))
  }

  /** A new bucket grants its capacity at once and then nothing. */
  lemma {:induction false} NewBucketServes(capacity: nat, threads: nat, start: nat, i: nat, k: nat)
    requires 0 < capacity <= U32_MAX && i < threads
    ensures var b := CallsInARow(Init(capacity, threads, start), i, k);
      && b.granted == (if k < capacity then k else capacity) && b.tokens == capacity - b.granted
      && Quiescent(b) && |b.threads| == threads && b.clock == b.lastRefill == start && b.capacity == capacity
  {
    hide Run, Next;
    if k > 0 {
      NewBucketServes(capacity, threads, start, i, k - 1);
      SoloCallGrantsExactly(CallsInARow(Init(capacity, threads, start), i, k - 1), i, 7);
    }
  }
}
