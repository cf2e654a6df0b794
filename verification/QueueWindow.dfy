/** What the queue hands out over whole runs, said of the calls alone: their order, flags, retention and
    times. */
module QueueWindow {
  import opened Common
  import opened Resp
  import opened UsageQueue

  /** The items enqueued at `oldest` or later. */
  function Since(items: seq<Item>, oldest: Time): seq<Item> {
    if items == [] then [] else
    var n := |items| - 1;
    Since(items[..n], oldest) + (if items[n].enqueuedAt >= oldest then [items[n]] else [])
  }

  /** The value the queue was last enabled or disabled with. */
  function LastFlag(ops: seq<Op>): bool {
    if ops == [] then false
    else match ops[|ops| - 1]
      case Enable(value) => value
      case Flag(value) => value
      case _ => LastFlag(ops[..|ops| - 1])
  }

  /** The seconds last asked for, within an hour, or a minute by default. */
  function LastRetention(ops: seq<Op>): int {
    if ops == [] then 60
    else match ops[|ops| - 1]
      case Retain(seconds) => if 1 <= seconds <= 3600 then seconds else if seconds < 1 then 60 else 3600
      case _ => LastRetention(ops[..|ops| - 1])
  }

  lemma {:induction false} SettingsAreLast(ops: seq<Op>)
    ensures Run(START, ops).enabled == LastFlag(ops)
    ensures Run(START, ops).retention == LastRetention(ops)
    ensures 1 <= LastRetention(ops) <= 3600
  {
    if ops != [] { SettingsAreLast(ops[..|ops| - 1]); }
  }

  lemma RunOneMore(ops: seq<Op>, op: Op)
    ensures Run(START, ops + [op]) == Applied(Run(START, ops), op)
  {
    assert (ops + [op])[..|ops|] == ops;
  }

  // ---------- the unexpired items ----------

  lemma {:induction false} SinceIsSuffix(items: seq<Item>, oldest: Time, n: nat)
    requires n <= |items| && forall i :: 0 <= i < |items| ==> (i >= n <==> items[i].enqueuedAt >= oldest)
    ensures Since(items, oldest) == items[n..]
    decreases |items|
  {
    if items == [] { return; }
    var m := |items| - 1;
    if n <= m {
      SinceIsSuffix(items[..m], oldest, n);
      assert items[n..] == items[..m][n..] + [items[m]];
    } else {
      SinceIsSuffix(items[..m], oldest, m);
    }
  }

  lemma {:induction false} SinceTwice(items: seq<Item>, a: Time, b: Time)
    requires a <= b
    ensures Since(Since(items, a), b) == Since(items, b)
    decreases |items|
  {
    if items == [] { return; }
    var m := |items| - 1;
    SinceTwice(items[..m], a, b);
    SinceOneMore(Since(items[..m], a), items[m], b);
    assert Since(items[..m], a) + [] == Since(items[..m], a);
  }

  lemma SinceOneMore(items: seq<Item>, item: Item, oldest: Time)
    ensures Since(items + [item], oldest) == Since(items, oldest) + if item.enqueuedAt >= oldest then [item] else []
  {
    assert (items + [item])[..|items|] == items;
  }

  /** What pruning leaves of a queue whose items are in the order of their times. */
  lemma FreshIsSince(h: History, now: Time)
    requires Sorted(h.live) && h.retention > 0
    ensures Fresh(h, now) == Since(h.live, now - h.retention * 1_000_000_000)
  {
    PruningIsExact(h, now);
    SinceIsSuffix(h.live, now - h.retention * 1_000_000_000, Stale(h.live, Cutoff(h.retention, now)));
  }

  // ---------- popping ----------

  /** The first `n` elements, or all there are. */
  function UpTo<T>(s: seq<T>, n: nat): seq<T> {
    if n <= |s| then s[..n] else s
  }

  function Beyond<T>(s: seq<T>, n: nat): seq<T> {
    if n <= |s| then s[n..] else []
  }

  /** The payloads enqueued no longer ago than `retention` seconds. */
  function Unexpired(items: seq<Item>, retention: int, now: Time): seq<bytes> {
    Payloads(Since(items, now - retention * 1_000_000_000))
  }

  lemma PayloadsUpTo(items: seq<Item>, n: nat)
    ensures Payloads(UpTo(items, n)) == UpTo(Payloads(items), n)
    ensures Payloads(Beyond(items, n)) == Beyond(Payloads(items), n)
  {}

  lemma PopFrom(h: History, count: int, now: Time)
    requires Sorted(h.live) && h.retention > 0 && h.enabled && count > 0
    ensures var unexpired := Unexpired(h.live, h.retention, now);
            && Returned(h, Pop(count, now)) == UpTo(unexpired, count)
            && Payloads(Applied(h, Pop(count, now)).live) == Beyond(unexpired, count)
  {
    FreshIsSince(h, now);
    PayloadsUpTo(Fresh(h, now), count);
    assert Fresh(h, now)[..Taken(h, count, now)] == UpTo(Fresh(h, now), count);
    assert Fresh(h, now)[Taken(h, count, now)..] == Beyond(Fresh(h, now), count);
  }

  /** A pop from an enabled queue hands out the oldest payloads that are not expired, as many as asked for
      or as there are, and leaves the others; from a disabled queue, or of no items, it hands out nothing
      and changes nothing. */
  lemma PopTakesUnexpired(ops: seq<Op>, clock: Time, count: int, now: Time)
    requires Timed(ops, clock)
    ensures var h, h' := Run(START, ops), Run(START, ops + [Pop(count, now)]);
            var unexpired := Unexpired(h.live, LastRetention(ops), now);
            if LastFlag(ops) && count > 0
            then Returned(h, Pop(count, now)) == UpTo(unexpired, count) && Payloads(h'.live) == Beyond(unexpired, count)
            else Returned(h, Pop(count, now)) == [] && h' == h
  {
    var h := Run(START, ops);
    SettingsAreLast(ops);
    RunPrunesExactly(ops, clock, now);
    RunOneMore(ops, Pop(count, now));
    if count > 0 {
      if h.enabled { PopFrom(h, count, now); }
    } else {
      assert Fresh(h, now)[..0] == [];
    }
  }

  // ---------- enqueueing ----------

  lemma PayloadsAppend(a: seq<Item>, b: seq<Item>)
    ensures Payloads(a + b) == Payloads(a) + Payloads(b)
  {}

  /** The earlier payloads that are not expired, and the new one if it is not. */
  lemma SinceEnqueued(earlier: seq<Item>, item: Item, window: Time, now: Time)
    requires item.enqueuedAt <= now
    ensures Payloads(Since(Since(earlier, item.enqueuedAt - window) + [item], now - window))
            == Payloads(Since(earlier, now - window)) + if now <= item.enqueuedAt + window then [item.payload] else []
  {
    var t := item.enqueuedAt;
    SinceTwice(earlier, t - window, now - window);
    SinceOneMore(Since(earlier, t - window), item, now - window);
    PayloadsAppend(Since(earlier, now - window), if now <= t + window then [item] else []);
  }

  /** What a queue holds that `h` becomes when it is enabled and enqueued into. */
  lemma EnqueueInto(h: History, payload: bytes, t: Time)
    requires SortedUpTo(h, t) && h.retention > 0 && payload != []
    ensures var h' := Applied(Applied(h, Enable(true)), Enqueue(payload, t));
            && h'.enabled && h'.retention == h.retention && Sorted(h'.live)
            && h'.accepted == h.accepted + [payload]
            && h'.live == Since(h.live, t - h.retention * 1_000_000_000) + [Item(t, payload)]
  {
    FreshIsSince(h, t);
    AppendKeepsSorted(h.(enabled := true), payload, t, t);
  }

  /** What is unexpired then. */
  lemma UnexpiredAfter(h: History, h': History, payload: bytes, t: Time, now: Time)
    requires h'.live == Since(h.live, t - h.retention * 1_000_000_000) + [Item(t, payload)]
    requires h'.retention == h.retention && t <= now
    ensures Unexpired(h'.live, h'.retention, now)
            == Unexpired(h.live, h.retention, now) + if now <= t + h.retention * 1_000_000_000 then [payload] else []
  {
    SinceEnqueued(h.live, Item(t, payload), h.retention * 1_000_000_000, now);
  }

  /** A payload enqueued at `t` into an enabled queue is accepted, and popped for at `now` it comes out behind
      the earlier ones that are not expired, exactly if the retention has not passed. */
  lemma EnqueuedIsHandedOut(ops: seq<Op>, clock: Time, payload: bytes, t: Time, count: int, now: Time)
    requires Timed(ops, clock) && Clock(ops, clock) <= t <= now && payload != [] && count > 0
    ensures var h, h' := Run(START, ops), Run(START, ops + [Enable(true)] + [Enqueue(payload, t)]);
            var alive := now <= t + LastRetention(ops) * 1_000_000_000;
            && h'.accepted == h.accepted + [payload]
            && Returned(h', Pop(count, now))
               == UpTo(Unexpired(h.live, LastRetention(ops), now) + if alive then [payload] else [], count)
  {
    var h := Run(START, ops);
    SettingsAreLast(ops);
    RunPrunesExactly(ops, clock, t);
    RunOneMore(ops, Enable(true));
    RunOneMore(ops + [Enable(true)], Enqueue(payload, t));
    EnqueueThenPop(h, payload, t, count, now);
  }

  lemma EnqueueThenPop(h: History, payload: bytes, t: Time, count: int, now: Time)
    requires SortedUpTo(h, t) && h.retention > 0 && payload != [] && t <= now && count > 0
    ensures var h' := Applied(Applied(h, Enable(true)), Enqueue(payload, t));
            && h'.accepted == h.accepted + [payload]
            && Returned(h', Pop(count, now))
               == UpTo(Unexpired(h.live, h.retention, now)
                       + if now <= t + h.retention * 1_000_000_000 then [payload] else [], count)
  {
    var h' := Applied(Applied(h, Enable(true)), Enqueue(payload, t));
    EnqueueInto(h, payload, t);
    UnexpiredAfter(h, h', payload, t, now);
    PopFrom(h', count, now);
  }

  /** Enqueueing an empty payload, or into a disabled queue, makes no difference to anything later. */
  lemma {:induction false} IgnoredEnqueue(ops: seq<Op>, payload: bytes, t: Time, later: seq<Op>)
    requires payload == [] || !LastFlag(ops)
    ensures Run(START, ops + [Enqueue(payload, t)] + later) == Run(START, ops + later)
    decreases |later|
  {
    var op := Enqueue(payload, t);
    if later == [] {
      SettingsAreLast(ops);
      RunOneMore(ops, op);
      assert ops + [op] + later == ops + [op] && ops + later == ops;
    } else {
      var n := |later| - 1;
      IgnoredEnqueue(ops, payload, t, later[..n]);
      RunOneMore(ops + [op] + later[..n], later[n]);
      RunOneMore(ops + later[..n], later[n]);
      assert ops + [op] + later == ops + [op] + later[..n] + [later[n]];
      assert ops + later == ops + later[..n] + [later[n]];
    }
  }

  /** Disabling, or clearing, empties the queue; enabling or setting the retention changes no item. */
  lemma DisablingEmpties(ops: seq<Op>, op: Op)
    requires op.Enable? || op.Clear? || op.Flag? || op.Retain?
    ensures var h, h' := Run(START, ops), Run(START, ops + [op]);
            && h'.accepted == h.accepted
            && h'.live == if op == Enable(false) || op.Clear? then [] else h.live
  {
    RunOneMore(ops, op);
  }
}
