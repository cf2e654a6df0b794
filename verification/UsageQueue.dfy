/** The in-memory usage queue: a slice with a head index, pruned by age and
    compacted lazily, against the queue of unexpired payloads it stands for. */
module UsageQueue {
  import opened Common
  import opened Resp

  /** Nanoseconds. */
  type Time = int

  const SECOND: Time := 1_000_000_000
  const DEFAULT_RETENTION: int := 60
  const MAX_RETENTION: int := 3600

  datatype Item = Item(enqueuedAt: Time, payload: bytes)

  datatype Fate = Popped | Expired | Cleared

  datatype Departure = Departure(payload: bytes, fate: Fate)

  /** The live items and settings, with everything ever accepted and everything that left. */
  datatype History = History(
    live: seq<Item>, enabled: bool, retention: int,
    accepted: seq<bytes>, departed: seq<Departure>)

  const START := History([], false, DEFAULT_RETENTION, [], [])

  function Payloads(items: seq<Item>): seq<bytes> {
    seq(|items|, i requires 0 <= i < |items| => items[i].payload)
  }

  function Left(items: seq<Item>, fate: Fate): seq<Departure> {
    seq(|items|, i requires 0 <= i < |items| => Departure(items[i].payload, fate))
  }

  function Cutoff(retention: int, now: Time): Time {
    now - (if retention <= 0 then DEFAULT_RETENTION else retention) * SECOND
  }

  /** How many items at the front are older than `cutoff`. */
  function Stale(items: seq<Item>, cutoff: Time): (n: nat)
    ensures n <= |items|
    ensures forall i :: 0 <= i < n ==> items[i].enqueuedAt < cutoff
    ensures n < |items| ==> items[n].enqueuedAt >= cutoff
  {
    if items == [] || items[0].enqueuedAt >= cutoff then 0 else 1 + Stale(items[1..], cutoff)
  }

  // ---------- the operations on the queue they stand for ----------

  /** Without the stale items at the front. */
  function Pruned(h: History, now: Time): History {
    var n := Stale(h.live, Cutoff(h.retention, now));
    h.(live := h.live[n..], departed := h.departed + Left(h.live[..n], Expired))
  }

  /** The locked part of an enqueue, after it found the queue enabled. */
  function Appended(h: History, payload: bytes, now: Time): History {
    var p := Pruned(h, now);
    p.(live := p.live + [Item(now, payload)], accepted := p.accepted + [payload])
  }

  function Enqueued(h: History, payload: bytes, now: Time): History {
    if !h.enabled || payload == [] then h else Appended(h, payload, now)
  }

  /** The unexpired items at `now`. */
  function Fresh(h: History, now: Time): seq<Item> {
    Pruned(h, now).live
  }

  /** How many items a pop of `count` takes. */
  function Taken(h: History, count: int, now: Time): (k: nat)
    ensures k <= |Fresh(h, now)|
  {
    if count <= 0 then 0 else Min(count, |Fresh(h, now)|)
  }

  /** What the locked part of a pop hands out. */
  function Front(h: History, count: int, now: Time): seq<bytes> {
    Payloads(Fresh(h, now)[..Taken(h, count, now)])
  }

  /** What a pop hands out. */
  function Oldest(h: History, count: int, now: Time): seq<bytes> {
    if !h.enabled then [] else Front(h, count, now)
  }

  /** Without the first `k` items, which are handed out. */
  function WithoutFront(h: History, k: nat): History
    requires k <= |h.live|
  {
    h.(live := h.live[k..], departed := h.departed + Left(h.live[..k], Popped))
  }

  /** The locked part of a pop, after it found the queue enabled. */
  function TakenOff(h: History, count: int, now: Time): History {
    WithoutFront(Pruned(h, now), Taken(h, count, now))
  }

  function PoppedOff(h: History, count: int, now: Time): History {
    if !h.enabled || count <= 0 then h else TakenOff(h, count, now)
  }

  function Emptied(h: History): History {
    h.(live := [], departed := h.departed + Left(h.live, Cleared))
  }

  function Enabling(h: History, value: bool): History {
    if value then h.(enabled := true) else Emptied(h.(enabled := false))
  }

  function Retaining(h: History, seconds: int): History {
    h.(retention := if seconds <= 0 then DEFAULT_RETENTION
                    else if seconds > MAX_RETENTION then MAX_RETENTION else seconds)
  }

  /** The public operations, and the pieces they fall into when goroutines race: the flag is checked and
      stored outside the mutex, so an append or a take may follow a disabling, and a clearing an enabling. */
  datatype Op =
    | Enqueue(payload: bytes, now: Time)
    | Pop(count: int, now: Time)
    | Enable(value: bool)
    | Retain(seconds: int)
    | Append(payload: bytes, now: Time)
    | Take(count: int, now: Time)
    | Flag(value: bool)
    | Clear

  function Applied(h: History, op: Op): History {
    match op
    case Enqueue(payload, now) => Enqueued(h, payload, now)
    case Pop(count, now) => PoppedOff(h, count, now)
    case Enable(value) => Enabling(h, value)
    case Retain(seconds) => Retaining(h, seconds)
    case Append(payload, now) => Appended(h, payload, now)
    case Take(count, now) => TakenOff(h, count, now)
    case Flag(value) => h.(enabled := value)
    case Clear => Emptied(h)
  }

  /** What an operation returns to its caller. */
  function Returned(h: History, op: Op): seq<bytes> {
    match op
    case Pop(count, now) => Oldest(h, count, now)
    case Take(count, now) => Front(h, count, now)
    case _ => []
  }

  // ---------- conservation ----------

  function Departed(ds: seq<Departure>): seq<bytes> {
    seq(|ds|, i requires 0 <= i < |ds| => ds[i].payload)
  }

  /** The departures that were handed out. */
  function HandedOut(ds: seq<Departure>): seq<bytes> {
    if ds == [] then [] else
    HandedOut(ds[..|ds| - 1]) + (if ds[|ds| - 1].fate == Popped then [ds[|ds| - 1].payload] else [])
  }

  /** What was accepted is what left, in order, followed by what is still there. */
  ghost predicate Conserved(h: History) {
    h.accepted == Departed(h.departed) + Payloads(h.live)
  }

  lemma PruneConserves(h: History, now: Time)
    requires Conserved(h)
    ensures Conserved(Pruned(h, now))
  {}

  lemma AppendConserves(h: History, payload: bytes, now: Time)
    requires Conserved(h)
    ensures Conserved(Appended(h, payload, now))
  {
    PruneConserves(h, now);
  }

  lemma TakeConserves(h: History, count: int, now: Time)
    requires Conserved(h)
    ensures Conserved(TakenOff(h, count, now))
  {
    PruneConserves(h, now);
    FrontConserves(Pruned(h, now), Taken(h, count, now));
  }

  lemma FrontConserves(h: History, k: nat)
    requires Conserved(h) && k <= |h.live|
    ensures Conserved(WithoutFront(h, k))
  {}

  lemma ClearConserves(h: History)
    requires Conserved(h)
    ensures Conserved(Emptied(h))
  {}

  lemma AppliedConserves(h: History, op: Op)
    requires Conserved(h)
    ensures Conserved(Applied(h, op))
  {
    match op
    case Enqueue(payload, now) => AppendConserves(h, payload, now);
    case Append(payload, now) => AppendConserves(h, payload, now);
    case Pop(count, now) => TakeConserves(h, count, now);
    case Take(count, now) => TakeConserves(h, count, now);
    case Enable(value) => ClearConserves(h.(enabled := false));
    case Clear => ClearConserves(h);
    case _ =>
  }

  function Run(h: History, ops: seq<Op>): History {
    if ops == [] then h else Applied(Run(h, ops[..|ops| - 1]), ops[|ops| - 1])
  }

  lemma {:induction false} RunConserves(h: History, ops: seq<Op>)
    requires Conserved(h)
    ensures Conserved(Run(h, ops))
  {
    if ops != [] {
      RunConserves(h, ops[..|ops| - 1]);
      AppliedConserves(Run(h, ops[..|ops| - 1]), ops[|ops| - 1]);
    }
  }

  lemma {:induction false} HandedOutAppend(a: seq<Departure>, b: seq<Departure>)
    ensures HandedOut(a + b) == HandedOut(a) + HandedOut(b)
    decreases |b|
  {
    if b == [] {
      assert a + b == a;
    } else {
      assert (a + b)[..|a + b| - 1] == a + b[..|b| - 1];
      HandedOutAppend(a, b[..|b| - 1]);
    }
  }

  lemma {:induction false} HandedOutLeft(items: seq<Item>, fate: Fate)
    ensures HandedOut(Left(items, fate)) == if fate == Popped then Payloads(items) else []
  {
    if items != [] {
      var n := |items| - 1;
      assert Left(items, fate)[..n] == Left(items[..n], fate);
      HandedOutLeft(items[..n], fate);
      assert Payloads(items) == Payloads(items[..n]) + [items[n].payload];
    }
  }

  lemma PruneHandsOutNothing(h: History, now: Time)
    ensures HandedOut(Pruned(h, now).departed) == HandedOut(h.departed)
  {
    var stale := h.live[..Stale(h.live, Cutoff(h.retention, now))];
    HandedOutAppend(h.departed, Left(stale, Expired));
    HandedOutLeft(stale, Expired);
  }

  lemma TakeHandsOutFront(h: History, count: int, now: Time)
    ensures HandedOut(TakenOff(h, count, now).departed) == HandedOut(h.departed) + Front(h, count, now)
  {
    PruneHandsOutNothing(h, now);
    var p, k := Pruned(h, now), Taken(h, count, now);
    HandedOutAppend(p.departed, Left(p.live[..k], Popped));
    HandedOutLeft(p.live[..k], Popped);
  }

  lemma ClearHandsOutNothing(h: History)
    ensures HandedOut(Emptied(h).departed) == HandedOut(h.departed)
  {
    HandedOutAppend(h.departed, Left(h.live, Cleared));
    HandedOutLeft(h.live, Cleared);
  }

  /** What an operation hands out is exactly what leaves as popped. */
  lemma HandsOutPopped(h: History, op: Op)
    ensures HandedOut(Applied(h, op).departed) == HandedOut(h.departed) + Returned(h, op)
  {
    match op
    case Enqueue(_, now) => PruneHandsOutNothing(h, now);
    case Append(_, now) => PruneHandsOutNothing(h, now);
    case Pop(count, now) => TakeHandsOutFront(h, count, now);
    case Take(count, now) => TakeHandsOutFront(h, count, now);
    case Enable(value) => ClearHandsOutNothing(h.(enabled := false));
    case Clear => ClearHandsOutNothing(h);
    case _ =>
  }

  // ---------- pruning is exact when enqueue times are sorted ----------

  ghost predicate Sorted(items: seq<Item>) {
    forall i, j :: 0 <= i <= j < |items| ==> items[i].enqueuedAt <= items[j].enqueuedAt
  }

  ghost predicate SortedUpTo(h: History, clock: Time) {
    Sorted(h.live) && forall i :: 0 <= i < |h.live| ==> h.live[i].enqueuedAt <= clock
  }

  ghost predicate ExpiredFirst(items: seq<Item>, cutoff: Time) {
    forall i, j :: 0 <= i < j < |items| && items[j].enqueuedAt < cutoff ==> items[i].enqueuedAt < cutoff
  }

  /** The items dropped as stale are all expired; no expired one is kept exactly if none stands behind an
      unexpired one. */
  lemma PruningIsExact(h: History, now: Time)
    ensures var cutoff := Cutoff(h.retention, now);
            var n := Stale(h.live, cutoff);
            && (forall i :: 0 <= i < n ==> h.live[i].enqueuedAt < cutoff)
            && ((forall i :: n <= i < |h.live| ==> h.live[i].enqueuedAt >= cutoff) <==> ExpiredFirst(h.live, cutoff))
  {
    var cutoff := Cutoff(h.retention, now);
    var n := Stale(h.live, cutoff);
    if ExpiredFirst(h.live, cutoff) {
      assert n < |h.live| ==> h.live[n].enqueuedAt >= cutoff;
    }
  }

  function TimeOf(op: Op, clock: Time): Time {
    match op
    case Enqueue(_, now) => now
    case Pop(_, now) => now
    case Append(_, now) => now
    case Take(_, now) => now
    case _ => clock
  }

  lemma SuffixSorted(items: seq<Item>, n: nat, clock: Time)
    requires Sorted(items) && n <= |items|
    requires forall i :: 0 <= i < |items| ==> items[i].enqueuedAt <= clock
    ensures Sorted(items[n..]) && forall i :: 0 <= i < |items[n..]| ==> items[n..][i].enqueuedAt <= clock
  {
    assert forall i :: 0 <= i < |items| - n ==> items[n..][i] == items[n + i];
  }

  lemma AppliedKeepsSorted(h: History, op: Op, clock: Time)
    requires SortedUpTo(h, clock) && clock <= TimeOf(op, clock)
    ensures SortedUpTo(Applied(h, op), TimeOf(op, clock))
  {
    match op
    case Enqueue(payload, now) => AppendKeepsSorted(h, payload, now, clock);
    case Append(payload, now) => AppendKeepsSorted(h, payload, now, clock);
    case Pop(count, now) => TakeKeepsSorted(h, count, now, clock);
    case Take(count, now) => TakeKeepsSorted(h, count, now, clock);
    case _ =>
  }

  lemma TakeKeepsSorted(h: History, count: int, now: Time, clock: Time)
    requires SortedUpTo(h, clock) && clock <= now
    ensures SortedUpTo(TakenOff(h, count, now), now)
  {
    var n := Stale(h.live, Cutoff(h.retention, now));
    SuffixSorted(h.live, n, clock);
    SuffixSorted(h.live[n..], Taken(h, count, now), clock);
  }

  lemma AppendKeepsSorted(h: History, payload: bytes, now: Time, clock: Time)
    requires SortedUpTo(h, clock) && clock <= now
    ensures SortedUpTo(Appended(h, payload, now), now)
  {
    SuffixSorted(h.live, Stale(h.live, Cutoff(h.retention, now)), clock);
  }

  /** The times of a run, on a clock that does not go back from `clock`. */
  ghost predicate Timed(ops: seq<Op>, clock: Time) {
    ops == [] ||
    (var before, last := ops[..|ops| - 1], ops[|ops| - 1];
     Timed(before, clock) && Clock(before, clock) <= TimeOf(last, Clock(before, clock)))
  }

  function Clock(ops: seq<Op>, clock: Time): Time {
    if ops == [] then clock else TimeOf(ops[|ops| - 1], Clock(ops[..|ops| - 1], clock))
  }

  /** Over every run on such a clock, what a pop may take are exactly the items inside the retention window. */
  lemma {:induction false} RunPrunesExactly(ops: seq<Op>, clock: Time, now: Time)
    requires Timed(ops, clock)
    ensures SortedUpTo(Run(START, ops), Clock(ops, clock))
    ensures var h := Run(START, ops);
            forall i :: 0 <= i < |h.live| ==>
              (i >= Stale(h.live, Cutoff(h.retention, now)) <==> h.live[i].enqueuedAt >= Cutoff(h.retention, now))
    decreases |ops|
  {
    if ops != [] {
      var before := ops[..|ops| - 1];
      RunPrunesExactly(before, clock, now);
      AppliedKeepsSorted(Run(START, before), ops[|ops| - 1], Clock(before, clock));
    }
    PruningIsExact(Run(START, ops), now);
  }

  // ---------- the slice ----------

  class Queue {
    var items: seq<Item>
    var head: nat
    var enabled: bool
    var retentionSeconds: int
    ghost var accepted: seq<bytes>
    ghost var departed: seq<Departure>

    /** The wasted prefix is gone, or short and less than half of the slice. */
    ghost predicate Tidy()
      reads this
    {
      head == 0 || (head < 1024 && 2 * head < |items|)
    }

    ghost predicate Valid()
      reads this
    {
      Tidy() && head <= |items| && Conserved(Contents())
    }

    ghost function Contents(): History
      requires head <= |items|
      reads this
    {
      History(items[head..], enabled, retentionSeconds, accepted, departed)
    }

    constructor ()
      ensures Valid() && Contents() == START
    {
      items, head, enabled, retentionSeconds := [], 0, false, DEFAULT_RETENTION;
      accepted, departed := [], [];
    }

    method PruneLocked(now: Time)
      requires head <= |items|
      modifies this`items, this`head, this`departed
      ensures head <= |items| && Contents() == Pruned(old(Contents()), now)
    {
      ghost var live := items[head..];
      if head >= |items| {
        items, head := [], 0;
        return;
      }
      var windowSeconds := retentionSeconds;
      if windowSeconds <= 0 { windowSeconds := DEFAULT_RETENTION; }
      var cutoff := now - windowSeconds * SECOND;
      SkipStale(cutoff);
      departed := departed + Left(live[..Stale(live, cutoff)], Expired);
    }

    /** The loop that moves the head past the stale items. */
    method SkipStale(cutoff: Time)
      requires head <= |items|
      modifies this`head
      ensures head <= |items| && items[head..] == old(items[head..])[Stale(old(items[head..]), cutoff)..]
    {
      ghost var live, start := items[head..], head;
      while head < |items| && items[head].enqueuedAt < cutoff
        modifies this`head
        invariant start <= head <= |items|
        invariant forall i :: 0 <= i < head - start ==> live[i].enqueuedAt < cutoff
      {
        assert items[head] == live[head - start];
        head := head + 1;
      }
      assert head < |items| ==> items[head] == live[head - start];
      StaleIs(live, cutoff, head - start);
    }

    /** Drop the wasted prefix when it is long; nothing else changes. */
    method MaybeCompactLocked()
      requires head <= |items|
      modifies this`items, this`head
      ensures head <= |items| && items[head..] == old(items[head..])
      ensures head == 0 || (head < 1024 && 2 * head < |items|)
    {
      if head == 0 { return; }
      if head >= |items| {
        items, head := [], 0;
        return;
      }
      if head < 1024 && head * 2 < |items| { return; }
      items := items[head..];
      head := 0;
    }

    method Enqueue(payload: bytes, now: Time)
      requires Valid()
      modifies this
      ensures Valid() && Contents() == Enqueued(old(Contents()), payload, now)
    {
      if !enabled || payload == [] { return; }
      EnqueueLocked(payload, now);
    }

    method EnqueueLocked(payload: bytes, now: Time)
      requires Valid()
      modifies this`items, this`head, this`accepted, this`departed
      ensures Valid() && Contents() == Appended(old(Contents()), payload, now)
    {
      AppendConserves(Contents(), payload, now);
      AppendToPruned(payload, now);
    }

    method AppendToPruned(payload: bytes, now: Time)
      requires head <= |items|
      modifies this`items, this`head, this`accepted, this`departed
      ensures Tidy() && head <= |items| && Contents() == Appended(old(Contents()), payload, now)
    {
      PruneLocked(now);
      ghost var pruned := items[head..];
      items := items + [Item(now, payload)];
      assert items[head..] == pruned + [Item(now, payload)];
      accepted := accepted + [payload];
      MaybeCompactLocked();
    }

    method PopOldest(count: int, now: Time) returns (out: seq<bytes>)
      requires Valid()
      modifies this
      ensures Valid() && Contents() == PoppedOff(old(Contents()), count, now)
      ensures out == Oldest(old(Contents()), count, now)
    {
      TakeConserves(Contents(), count, now);
      if !enabled || count <= 0 { return []; }
      out := PopLocked(count, now);
    }

    method PopLocked(count: int, now: Time) returns (out: seq<bytes>)
      requires head <= |items| && count > 0
      modifies this`items, this`head, this`departed
      ensures Tidy() && head <= |items| && Contents() == TakenOff(old(Contents()), count, now)
      ensures out == Front(old(Contents()), count, now)
    {
      ghost var h := Contents();
      PruneLocked(now);
      var available := |items| - head;
      if available <= 0 {
        items, head := [], 0;
        NothingToTake(h, count, now);
        return [];
      }
      var n := if count > available then available else count;
      TakenFront(h, count, now, Contents(), n);
      out := TakeFront(n);
      MaybeCompactLocked();
    }

    /** Hand out the first `n` live items. */
    method TakeFront(n: nat) returns (out: seq<bytes>)
      requires head + n <= |items|
      modifies this`head, this`departed
      ensures head <= |items| && Contents() == WithoutFront(old(Contents()), n)
      ensures out == Payloads(old(items[head..])[..n])
    {
      out := [];
      for i := 0 to n
        modifies {}
        invariant |out| == i && forall j :: 0 <= j < i ==> out[j] == items[head + j].payload
      {
        out := out + [items[head + i].payload];
      }
      departed := departed + Left(items[head..][..n], Popped);
      head := head + n;
    }

    method SetEnabled(value: bool)
      requires Valid()
      modifies this
      ensures Valid() && Contents() == Enabling(old(Contents()), value)
    {
      enabled := value;
      if !value { Clear(); }
    }

    method Clear()
      requires Valid()
      modifies this`items, this`head, this`departed
      ensures Valid() && Contents() == Emptied(old(Contents()))
    {
      ghost var h := Contents();
      departed := departed + Left(items[head..], Cleared);
      items, head := [], 0;
      ClearConserves(h);
    }

    method SetRetentionSeconds(value: int)
      requires Valid()
      modifies this`retentionSeconds
      ensures Valid() && Contents() == Retaining(old(Contents()), value)
    {
      var normalized := value;
      if normalized <= 0 {
        normalized := DEFAULT_RETENTION;
      } else if normalized > MAX_RETENTION {
        normalized := MAX_RETENTION;
      }
      retentionSeconds := normalized;
    }
  }

  lemma NothingToTake(h: History, count: int, now: Time)
    requires Fresh(h, now) == []
    ensures TakenOff(h, count, now) == Pruned(h, now) && Front(h, count, now) == []
  {
    assert Pruned(h, now).departed + Left([], Popped) == Pruned(h, now).departed;
  }

  lemma TakenFront(h: History, count: int, now: Time, pruned: History, n: nat)
    requires pruned == Pruned(h, now) && pruned.live != []
    requires n == if count > |pruned.live| then |pruned.live| else count
    ensures TakenOff(h, count, now) == WithoutFront(pruned, n)
    ensures Front(h, count, now) == Payloads(pruned.live[..n])
  {}

  lemma {:induction false} StaleIs(items: seq<Item>, cutoff: Time, n: nat)
    requires n <= |items| && (forall i :: 0 <= i < n ==> items[i].enqueuedAt < cutoff)
    requires n < |items| ==> items[n].enqueuedAt >= cutoff
    ensures Stale(items, cutoff) == n
  {
    if n > 0 { StaleIs(items[1..], cutoff, n - 1); }
  }
}
