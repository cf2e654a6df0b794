/** Debounced configuration updates: triggers from any goroutine, one timer, and
    a mutex around each of the pieces that are atomic here. */
module Debounce {
  import opened Common

  /** Nanoseconds. */
  type Time = int

  const DEBOUNCE: Time := 1_000_000_000
  const MIN_DELAY: Time := 10_000_000

  /** The fields under the mutex. */
  datatype Core = Core(last: Option<Time>, timer: Option<nat>, pend: bool)

  /** A trigger that was called with a configuration and has read the clock, but has not yet the mutex. */
  datatype Capture = Capture(now: Time, config: nat)

  /** The watcher and the runtime around it: the clock, the armed timers and their due times, fired
      timers whose body has not taken the mutex (with the configuration it has read, if it has),
      configurations that callers picked up for triggers that have not read the clock, triggers that
      have, the configuration's version, the recorded update times in order, the version of the latest
      callback and the newest version asked for. */
  datatype World = World(
    core: Core, clock: Time, armed: map<nat, Time>, fired: map<nat, Option<nat>>, nextTimer: nat,
    picked: multiset<nat>, captures: multiset<Capture>, config: nat, stopped: bool,
    updates: seq<Time>, delivered: nat, wanted: nat)

  // ---------- what happens under the mutex ----------

  datatype Action = CallBack | Ignore | Arm(delay: Time)

  /** What a trigger does that read the clock at `now`. */
  function Decide(c: Core, now: Time): Action {
    if c.last.None? || now - c.last.value >= DEBOUNCE then CallBack
    else if c.pend then Ignore
    else Arm(if DEBOUNCE - (now - c.last.value) < MIN_DELAY then MIN_DELAY else DEBOUNCE - (now - c.last.value))
  }

  /** The fields after a trigger; `next` is the timer it would create. */
  function CoreTriggered(c: Core, now: Time, next: nat): Core {
    match Decide(c, now)
    case CallBack => Core(Some(now), None, false)
    case Ignore => c
    case Arm(_) => Core(c.last, Some(next), true)
  }

  function Disarmed(armed: map<nat, Time>, timer: Option<nat>): map<nat, Time> {
    if timer.Some? then armed - {timer.value} else armed
  }

  /** The locked part of a trigger. */
  function Triggered(w: World, t: Capture): World {
    var w1 := w.(captures := w.captures - multiset{t},
                 wanted := if w.wanted < t.config then t.config else w.wanted,
                 core := CoreTriggered(w.core, t.now, w.nextTimer));
    match Decide(w.core, t.now)
    case CallBack =>
      w1.(armed := Disarmed(w.armed, w.core.timer), updates := w.updates + [t.now], delivered := t.config)
    case Ignore => w1
    case Arm(delay) =>
      w1.(armed := Disarmed(w.armed, w.core.timer)[w.nextTimer := w.clock + delay], nextTimer := w.nextTimer + 1)
  }

  /** Is timer `id` the one the watcher is waiting for? */
  predicate IsCurrent(c: Core, id: nat) {
    c.timer == Some(id) && c.pend
  }

  /** The fields after the body of timer `id` ran at `now`. */
  function CoreElapsed(c: Core, id: nat, stopped: bool, now: Time): Core {
    if !IsCurrent(c, id) then c else Core(if stopped then c.last else Some(now), None, false)
  }

  /** The locked part of a timer's body that read configuration `version`. */
  function Elapsed(w: World, id: nat, version: nat): World {
    var w1 := w.(fired := w.fired - {id}, core := CoreElapsed(w.core, id, w.stopped, w.clock));
    if !IsCurrent(w.core, id) || w.stopped then w1
    else w1.(updates := w.updates + [w.clock], delivered := version)
  }

  function TimerStopped(w: World): World {
    w.(core := w.core.(timer := None, pend := false), armed := Disarmed(w.armed, w.core.timer))
  }

  /** The fields as the watcher keeps and updates them. */
  class UpdateTimer {
    var serverUpdateLast: Option<Time>
    var serverUpdateTimer: Option<nat>
    var serverUpdatePend: bool

    function Fields(): Core
      reads this
    {
      Core(serverUpdateLast, serverUpdateTimer, serverUpdatePend)
    }

    constructor ()
      ensures Fields() == Core(None, None, false)
    {
      serverUpdateLast, serverUpdateTimer, serverUpdatePend := None, None, false;
    }

    /** The locked part of a trigger; `next` names the timer that would be created. `disarm` is the
        timer whose Stop is called. */
    method TriggerServerUpdate(now: Time, next: nat) returns (action: Action, disarm: Option<nat>)
      modifies this
      ensures action == Decide(old(Fields()), now)
      ensures Fields() == CoreTriggered(old(Fields()), now, next)
      ensures disarm == if action.Ignore? then None else old(serverUpdateTimer)
    {
      disarm := None;
      if serverUpdateLast.None? || now - serverUpdateLast.value >= DEBOUNCE {
        serverUpdateLast := Some(now);
        if serverUpdateTimer.Some? {
          disarm := serverUpdateTimer;
          serverUpdateTimer := None;
        }
        serverUpdatePend := false;
        return CallBack, disarm;
      }
      if serverUpdatePend {
        return Ignore, disarm;
      }
      var delay := DEBOUNCE - (now - serverUpdateLast.value);
      if delay < MIN_DELAY {
        delay := MIN_DELAY;
      }
      serverUpdatePend := true;
      if serverUpdateTimer.Some? {
        disarm := serverUpdateTimer;
        serverUpdateTimer := None;
      }
      serverUpdateTimer := Some(next);
      return Arm(delay), disarm;
    }

    /** The locked part of timer `id`'s body: does it go on to the callback? */
    method TimerElapsed(id: nat, stopped: bool, now: Time) returns (calls: bool)
      modifies this
      ensures calls <==> IsCurrent(old(Fields()), id) && !stopped
      ensures Fields() == CoreElapsed(old(Fields()), id, stopped, now)
    {
      if serverUpdateTimer != Some(id) || !serverUpdatePend {
        return false;
      }
      serverUpdateTimer := None;
      serverUpdatePend := false;
      if stopped {
        return false;
      }
      serverUpdateLast := Some(now);
      return true;
    }

    method StopServerUpdateTimer() returns (disarm: Option<nat>)
      modifies this
      ensures disarm == old(serverUpdateTimer)
      ensures Fields() == old(Fields()).(timer := None, pend := false)
    {
      disarm := None;
      if serverUpdateTimer.Some? {
        disarm := serverUpdateTimer;
        serverUpdateTimer := None;
      }
      serverUpdatePend := false;
    }
  }

  // ---------- steps ----------

  datatype Step =
    | Tick(to: Time)
    | Configure
    | PickUp
    | ReadClock(version: nat)
    | Trigger(t: Capture)
    | Fire(id: nat)
    | ReadConfig(id: nat)
    | Body(id: nat)
    | GiveUp(id: nat)
    | Stop
    | StopTimer

  predicate Enabled(w: World, s: Step) {
    match s
    case Tick(to) => w.clock <= to
    case ReadClock(version) => version in w.picked && !w.stopped
    case Trigger(t) => t in w.captures
    case Fire(id) => id in w.armed && w.armed[id] <= w.clock
    case ReadConfig(id) => id in w.fired && w.fired[id].None?
    case Body(id) => id in w.fired && w.fired[id].Some?
    case GiveUp(id) => id in w.fired && w.stopped
    case _ => true
  }

  function Next(w: World, s: Step): World
    requires Enabled(w, s)
  {
    match s
    case Tick(to) => w.(clock := to)
    case Configure => w.(config := w.config + 1)
    case PickUp => w.(picked := w.picked + multiset{w.config})
    case ReadClock(version) =>
      w.(picked := w.picked - multiset{version}, captures := w.captures + multiset{Capture(w.clock, version)})
    case Trigger(t) => Triggered(w, t)
    case Fire(id) => w.(armed := w.armed - {id}, fired := w.fired[id := None])
    case ReadConfig(id) => w.(fired := w.fired[id := Some(w.config)])
    case Body(id) => Elapsed(w, id, w.fired[id].value)
    case GiveUp(id) => w.(fired := w.fired - {id})
    case Stop => w.(stopped := true)
    case StopTimer => TimerStopped(w)
  }

  predicate Allowed(w: World, steps: seq<Step>)
    decreases |steps|
  {
    steps == [] || (Enabled(w, steps[0]) && Allowed(Next(w, steps[0]), steps[1..]))
  }

  function Run(w: World, steps: seq<Step>): World
    requires Allowed(w, steps)
    decreases |steps|
  {
    if steps == [] then w else Run(Next(w, steps[0]), steps[1..])
  }

  function Start(clock: Time): World {
    World(Core(None, None, false), clock, map[], map[], 0, multiset{}, multiset{}, 0, false, [], 0, 0)
  }

  // ---------- spacing, in every interleaving ----------

  ghost predicate Spaced(updates: seq<Time>) {
    forall i :: 0 < i < |updates| ==> updates[i] - updates[i - 1] >= DEBOUNCE
  }

  /** The watcher's timer exists in the runtime. */
  predicate Alive(w: World) {
    w.core.timer.Some? && (w.core.timer.value in w.armed || w.core.timer.value in w.fired)
  }

  ghost predicate Inv(w: World) {
    var c := w.core;
    && Spaced(w.updates)
    && (c.last == if w.updates == [] then None else Some(w.updates[|w.updates| - 1]))
    && (c.timer.Some? <==> c.pend)
    // at most one timer is live, and it is the watcher's
    && (forall id :: id in w.armed ==> c.timer == Some(id) && id !in w.fired)
    && (forall id :: id in w.fired ==> id < w.nextTimer)
    && (c.timer.Some? ==> c.timer.value < w.nextTimer && c.last.Some? && (w.stopped || Alive(w)))
    // the watcher's timer does not fire before the debounce interval is over
    && (c.timer.Some? && c.timer.value in w.armed ==> w.armed[c.timer.value] >= c.last.value + DEBOUNCE)
    && (c.timer.Some? && c.timer.value in w.fired ==> w.clock >= c.last.value + DEBOUNCE)
    && (forall version :: version in w.picked ==> version <= w.config)
    && (forall t :: t in w.captures ==> t.now <= w.clock && t.config <= w.config)
  }

  lemma TriggerKeepsInv(w: World, t: Capture)
    requires Inv(w) && t in w.captures
    ensures Inv(Triggered(w, t))
  {
    match Decide(w.core, t.now)
    case CallBack => CallBackKeepsInv(w, t);
    case Ignore =>
    case Arm(_) => ArmKeepsInv(w, t);
  }

  lemma CallBackKeepsInv(w: World, t: Capture)
    requires Inv(w) && t in w.captures && Decide(w.core, t.now).CallBack?
    ensures Inv(Triggered(w, t))
  {}

  lemma ArmKeepsInv(w: World, t: Capture)
    requires Inv(w) && t in w.captures && Decide(w.core, t.now).Arm?
    ensures Inv(Triggered(w, t))
  {}

  lemma BodyKeepsInv(w: World, id: nat, version: nat)
    requires Inv(w) && id in w.fired
    ensures Inv(Elapsed(w, id, version))
  {}

  lemma StepKeepsInv(w: World, s: Step)
    requires Inv(w) && Enabled(w, s)
    ensures Inv(Next(w, s))
  {
    match s
    case Trigger(t) => TriggerKeepsInv(w, t);
    case Body(id) => BodyKeepsInv(w, id, w.fired[id].value);
    case _ =>
  }

  /** A timer that is superseded stays so, and its body, whenever it runs, changes nothing but itself. */
  lemma {:induction false} SupersededNeverCallsBack(w: World, steps: seq<Step>, id: nat)
    requires Allowed(w, steps) && id < w.nextTimer && w.core.timer != Some(id)
    ensures Run(w, steps).core.timer != Some(id)
    ensures Enabled(Run(w, steps), Body(id)) ==>
              Next(Run(w, steps), Body(id)) == Run(w, steps).(fired := Run(w, steps).fired - {id})
    decreases |steps|
  {
    if steps != [] {
      SupersededNeverCallsBack(Next(w, steps[0]), steps[1..], id);
    }
  }

  /** In every interleaving: update times are spaced, and at most one timer is armed. */
  lemma {:induction false} RunIsSpaced(w: World, steps: seq<Step>)
    requires Inv(w) && Allowed(w, steps)
    ensures Inv(Run(w, steps)) && Spaced(Run(w, steps).updates) && |Run(w, steps).armed.Keys| <= 1
    decreases |steps|
  {
    if steps == [] {
      if w.core.timer.Some? {
        assert w.armed.Keys <= {w.core.timer.value};
        SubsetSize(w.armed.Keys, w.core.timer.value);
      } else {
        assert w.armed.Keys == {};
      }
    } else {
      StepKeepsInv(w, steps[0]);
      RunIsSpaced(Next(w, steps[0]), steps[1..]);
    }
  }

  lemma SubsetSize(s: set<nat>, x: nat)
    requires s <= {x}
    ensures |s| <= 1
  {
    if x in s { assert s == {x}; } else { assert s == {}; }
  }

  lemma StartInv(clock: Time)
    ensures Inv(Start(clock)) && TimerFresh(Start(clock)) && Ordered(Start(clock)) && Answered(Start(clock))
  {}

  /** What a trigger comes to: more than a second after the last callback, or before the first, it calls back
      at once and stops the timer; within the second it leaves the matter to a pending timer, and otherwise
      arms one for the end of the second, though not for less than ten milliseconds. */
  lemma TriggerOutcome(w: World, t: Capture)
    requires Inv(w) && t in w.captures
    ensures var w', last := Triggered(w, t), w.core.last;
            if last.None? || t.now >= last.value + 1_000_000_000
            then w'.core == Core(Some(t.now), None, false) && w'.armed == map[] && w'.delivered == t.config
            else
              && w'.updates == w.updates && w'.delivered == w.delivered && w'.core.last == last
              && if w.core.timer.Some? then w'.core == w.core && w'.armed == w.armed
                 else && w'.core.timer == Some(w.nextTimer) && w'.armed.Keys == {w.nextTimer}
                      && w'.armed[w.nextTimer] - w.clock
                         == if last.value + 990_000_000 < t.now then 10_000_000 else last.value + 1_000_000_000 - t.now
  {
    assert w.core.timer.None? ==> w.armed == map[];
    if w.core.timer.Some? {
      assert w.armed - {w.core.timer.value} == map[];
    }
  }

  // ---------- every trigger is followed by a callback ----------

  /** The steps of a watcher that is not being stopped. */
  predicate Running(s: Step) {
    !s.Stop? && !s.StopTimer? && !s.GiveUp?
  }

  predicate AllRunning(steps: seq<Step>) {
    forall i :: 0 <= i < |steps| ==> Running(steps[i])
  }

  /** Every trigger calls back at once or leaves a live timer pending. */
  lemma TriggerIsAnswered(w: World, t: Capture)
    requires Inv(w) && !w.stopped && t in w.captures
    ensures Triggered(w, t).updates == w.updates + [t.now] || Alive(Triggered(w, t))
  {
    TriggerKeepsInv(w, t);
  }

  lemma PendingStays(w: World, s: Step)
    requires Inv(w) && Enabled(w, s) && Running(s) && !w.stopped && w.core.timer.Some?
    ensures |w.updates| < |Next(w, s).updates| ||
            (Next(w, s).core == w.core && Next(w, s).updates == w.updates)
  {}

  /** A pending timer stays the watcher's timer, and alive, until there is a callback. */
  lemma {:induction false} PendingUntilCallback(w: World, steps: seq<Step>)
    requires Inv(w) && !w.stopped && w.core.timer.Some? && Allowed(w, steps) && AllRunning(steps)
    ensures |w.updates| < |Run(w, steps).updates| ||
            (Run(w, steps).core == w.core && Alive(Run(w, steps)) && Run(w, steps).updates == w.updates)
    decreases |steps|
  {
    if steps != [] {
      StepKeepsInv(w, steps[0]);
      PendingStays(w, steps[0]);
      var next := Next(w, steps[0]);
      if next.core == w.core {
        PendingUntilCallback(next, steps[1..]);
      } else {
        UpdatesOnlyGrow(next, steps[1..]);
      }
    }
  }

  lemma {:induction false} UpdatesOnlyGrow(w: World, steps: seq<Step>)
    requires Allowed(w, steps)
    ensures w.updates <= Run(w, steps).updates
    decreases |steps|
  {
    if steps != [] {
      UpdatesOnlyGrow(Next(w, steps[0]), steps[1..]);
    }
  }

  // ---------- ... with the newest configuration asked for ----------

  /** Would this trigger call back at once? */
  predicate Due(c: Core, t: Capture) {
    c.last.None? || t.now - c.last.value >= DEBOUNCE
  }

  /** A configuration as new as any that was asked for or delivered. */
  predicate UpToDate(w: World, version: nat) {
    w.wanted <= version && w.delivered <= version
  }

  /** The body of the watcher's timer is on its way with this configuration. */
  predicate ReadByCurrent(w: World, version: nat) {
    w.core.timer.Some? && w.core.timer.value in w.fired && w.fired[w.core.timer.value] == Some(version)
  }

  /** What the current timer's body has read is up to date, and as new as what any trigger carries that
      would now leave the matter to this timer. */
  ghost predicate TimerFresh(w: World) {
    && UpToDate(w, w.config)
    && (forall version: nat :: ReadByCurrent(w, version) ==>
          && UpToDate(w, version) && version <= w.config
          && (forall t :: t in w.captures && !Due(w.core, t) ==> t.config <= version))
  }

  /** What the clock and the timers contribute to freshness. */
  ghost predicate Timely(w: World) {
    && (w.core.timer.Some? <==> w.core.pend)
    && (w.core.timer.Some? ==> w.core.last.Some?)
    && w.nextTimer !in w.fired
    && (forall id :: id in w.armed ==> id !in w.fired)
    && (w.core.timer.Some? && w.core.timer.value in w.fired ==> w.clock >= w.core.last.value + DEBOUNCE)
    && (forall version :: version in w.picked ==> version <= w.config)
    && (forall t :: t in w.captures ==> t.now <= w.clock && t.config <= w.config)
  }

  lemma TriggerKeepsTimerFresh(w: World, t: Capture)
    requires Timely(w) && TimerFresh(w) && t in w.captures
    ensures TimerFresh(Triggered(w, t))
  {
    var w' := Triggered(w, t);
    assert w'.fired == w.fired;
    assert forall o :: o in w'.captures ==> o in w.captures;
    assert forall v: nat :: ReadByCurrent(w', v) ==> ReadByCurrent(w, v) && w'.core == w.core && !Due(w.core, t);
  }

  lemma BodyKeepsTimerFresh(w: World, id: nat)
    requires Timely(w) && TimerFresh(w) && Enabled(w, Body(id))
    ensures TimerFresh(Next(w, Body(id)))
  {
    var version := w.fired[id].value;
    assert w.core.timer == Some(id) ==> ReadByCurrent(w, version);
    assert forall v: nat :: ReadByCurrent(Next(w, Body(id)), v) ==> ReadByCurrent(w, v);
  }

  lemma ReadConfigKeepsTimerFresh(w: World, id: nat)
    requires Timely(w) && TimerFresh(w) && Enabled(w, ReadConfig(id))
    ensures TimerFresh(Next(w, ReadConfig(id)))
  {
    var w' := Next(w, ReadConfig(id));
    forall version: nat | ReadByCurrent(w', version)
      ensures UpToDate(w', version) && version <= w'.config
      ensures forall t :: t in w'.captures && !Due(w'.core, t) ==> t.config <= version
    {
      assert w.core.timer != Some(id) ==> ReadByCurrent(w, version);
    }
  }

  /** A trigger that reads the clock while the current timer's body is on its way is due. */
  lemma ReadClockKeepsTimerFresh(w: World, version: nat)
    requires Timely(w) && TimerFresh(w) && Enabled(w, ReadClock(version))
    ensures TimerFresh(Next(w, ReadClock(version)))
  {
    var w', capture := Next(w, ReadClock(version)), Capture(w.clock, version);
    assert forall t :: t in w'.captures ==> t == capture || t in w.captures;
    assert forall v: nat :: ReadByCurrent(w', v) ==> ReadByCurrent(w, v) && Due(w.core, capture);
  }

  lemma OtherStepKeepsTimerFresh(w: World, s: Step)
    requires Timely(w) && TimerFresh(w) && Enabled(w, s)
    requires !s.Trigger? && !s.Body? && !s.ReadConfig? && !s.ReadClock?
    ensures TimerFresh(Next(w, s))
  {
    assert forall v: nat :: ReadByCurrent(Next(w, s), v) ==> ReadByCurrent(w, v);
  }

  lemma StepKeepsTimerFresh(w: World, s: Step)
    requires Inv(w) && TimerFresh(w) && Enabled(w, s)
    ensures TimerFresh(Next(w, s))
  {
    assert Timely(w);
    match s
    case Trigger(t) => TriggerKeepsTimerFresh(w, t);
    case Body(id) => BodyKeepsTimerFresh(w, id);
    case ReadConfig(id) => ReadConfigKeepsTimerFresh(w, id);
    case ReadClock(version) => ReadClockKeepsTimerFresh(w, version);
    case _ => OtherStepKeepsTimerFresh(w, s);
  }

  /** In every interleaving whatever: the pending timer's body delivers a configuration as new as any
      asked for so far, also if immediate callbacks have delivered older ones. */
  lemma {:induction false} TimerDelivers(w: World, steps: seq<Step>, id: nat)
    requires Inv(w) && TimerFresh(w) && Allowed(w, steps)
    requires var last := Run(w, steps); !last.stopped && Enabled(last, Body(id)) && last.core.timer == Some(id)
    ensures var last := Run(w, steps);
            && Next(last, Body(id)).delivered >= last.wanted
            && Next(last, Body(id)).updates == last.updates + [last.clock]
    decreases |steps|
  {
    if steps == [] {
      assert ReadByCurrent(w, w.fired[id].value);
    } else {
      StepKeepsInv(w, steps[0]);
      StepKeepsTimerFresh(w, steps[0]);
      TimerDelivers(Next(w, steps[0]), steps[1..], id);
    }
  }

  /** The newest configuration asked for has been delivered, or a live timer is pending. */
  predicate Answered(w: World) {
    w.wanted <= w.delivered || Alive(w)
  }

  /** The guard of the branch that can lose a configuration: a trigger calls back at once with one that
      is older than another that was asked for or delivered. */
  predicate StaleCallback(w: World, s: Step) {
    s.Trigger? && Due(w.core, s.t) && !UpToDate(w, s.t.config)
  }

  /** One step leaves the newest configuration answered, and goes back to no older one, exactly if it is
      not a stale immediate callback. */
  lemma AnsweredIffNotStale(w: World, s: Step)
    requires Inv(w) && TimerFresh(w) && Answered(w) && Enabled(w, s) && Running(s) && !w.stopped
    ensures Answered(Next(w, s)) && w.delivered <= Next(w, s).delivered <==> !StaleCallback(w, s)
  {
    match s
    case Trigger(t) => TriggerAnswers(w, t);
    case Body(id) =>
      if w.core.timer == Some(id) { assert ReadByCurrent(w, w.fired[id].value); }
    case _ =>
  }

  lemma TriggerAnswers(w: World, t: Capture)
    requires Inv(w) && TimerFresh(w) && Answered(w) && t in w.captures && !w.stopped
    ensures Answered(Triggered(w, t)) && w.delivered <= Triggered(w, t).delivered <==> !StaleCallback(w, Trigger(t))
  {
    var w' := Triggered(w, t);
    if Due(w.core, t) {
      assert w'.core.timer.None? && w'.delivered == t.config;
    } else {
      assert Alive(w') && w'.delivered == w.delivered;
    }
  }

  predicate AlwaysAnswered(w: World, steps: seq<Step>)
    requires Allowed(w, steps)
    decreases |steps|
  {
    steps == [] ||
    (var next := Next(w, steps[0]);
     Answered(next) && w.delivered <= next.delivered && AlwaysAnswered(next, steps[1..]))
  }

  predicate NeverStale(w: World, steps: seq<Step>)
    requires Allowed(w, steps)
    decreases |steps|
  {
    steps == [] || (!StaleCallback(w, steps[0]) && NeverStale(Next(w, steps[0]), steps[1..]))
  }

  /** Over every run of a running watcher: after each step the newest configuration asked for has been
      delivered or is pending, and no callback goes back to an older one, exactly if no immediate
      callback of the run carries a stale configuration. */
  lemma {:induction false} NothingIsForgotten(w: World, steps: seq<Step>)
    requires Inv(w) && TimerFresh(w) && Answered(w) && !w.stopped && Allowed(w, steps) && AllRunning(steps)
    ensures AlwaysAnswered(w, steps) <==> NeverStale(w, steps)
    decreases |steps|
  {
    if steps != [] {
      AnsweredIffNotStale(w, steps[0]);
      if !StaleCallback(w, steps[0]) {
        StepKeepsInv(w, steps[0]);
        StepKeepsTimerFresh(w, steps[0]);
        NothingIsForgotten(Next(w, steps[0]), steps[1..]);
      }
    }
  }

  // ---------- which callers are never stale ----------

  /** Every trigger that reads the clock carries the configuration of that moment. */
  predicate Prompt(w: World, steps: seq<Step>)
    requires Allowed(w, steps)
    decreases |steps|
  {
    steps == [] ||
    ((steps[0].ReadClock? ==> steps[0].version == w.config) && Prompt(Next(w, steps[0]), steps[1..]))
  }

  /** Later captures have later configurations, and those that are due have up-to-date ones. */
  ghost predicate Ordered(w: World) {
    && (forall a, b :: a in w.captures && b in w.captures && a.now < b.now ==> a.config <= b.config)
    && (forall t :: t in w.captures && Due(w.core, t) ==> UpToDate(w, t.config))
  }

  lemma CallBackKeepsOrdered(w: World, t: Capture)
    requires Ordered(w) && t in w.captures && Due(w.core, t)
    ensures Ordered(Triggered(w, t))
  {
    var w' := Triggered(w, t);
    assert w'.core.last == Some(t.now) && w'.delivered == t.config && w'.wanted == t.config;
    assert forall o :: o in w'.captures ==> o in w.captures;
    assert forall o :: o in w'.captures && Due(w'.core, o) ==> t.now < o.now;
  }

  lemma DeferredKeepsOrdered(w: World, t: Capture)
    requires Ordered(w) && t in w.captures && !Due(w.core, t)
    ensures Ordered(Triggered(w, t))
  {
    var w' := Triggered(w, t);
    assert w'.core.last == w.core.last && w'.delivered == w.delivered;
    assert forall o :: o in w'.captures ==> o in w.captures;
    assert forall o :: o in w'.captures && Due(w.core, o) ==> t.now < o.now;
  }

  /** After a callback at the present moment nothing captured is due. */
  lemma BodyKeepsOrdered(w: World, id: nat)
    requires Timely(w) && Ordered(w) && Enabled(w, Body(id))
    ensures Ordered(Next(w, Body(id)))
  {
    var w' := Next(w, Body(id));
    assert w'.captures == w.captures && w'.wanted == w.wanted;
    if w'.updates != w.updates {
      assert forall t :: t in w'.captures ==> !Due(w'.core, t);
    }
  }

  lemma ReadClockKeepsOrdered(w: World)
    requires Timely(w) && UpToDate(w, w.config) && Ordered(w) && Enabled(w, ReadClock(w.config))
    ensures Ordered(Next(w, ReadClock(w.config)))
  {
    var w', capture := Next(w, ReadClock(w.config)), Capture(w.clock, w.config);
    assert forall t :: t in w'.captures ==> t == capture || t in w.captures;
  }

  lemma OtherStepKeepsOrdered(w: World, s: Step)
    requires Ordered(w) && Enabled(w, s) && !s.Trigger? && !s.Body? && !s.ReadClock?
    ensures Ordered(Next(w, s))
  {
    assert Next(w, s).captures == w.captures && Next(w, s).core.last == w.core.last;
  }

  lemma PromptStepKeepsOrdered(w: World, s: Step)
    requires Inv(w) && TimerFresh(w) && Ordered(w) && Enabled(w, s)
    requires s.ReadClock? ==> s.version == w.config
    ensures Ordered(Next(w, s))
  {
    assert Timely(w);
    match s
    case Trigger(t) => if Due(w.core, t) { CallBackKeepsOrdered(w, t); } else { DeferredKeepsOrdered(w, t); }
    case Body(id) => BodyKeepsOrdered(w, id);
    case ReadClock(_) => ReadClockKeepsOrdered(w);
    case _ => OtherStepKeepsOrdered(w, s);
  }

  /** If triggers carry the configuration of the moment they read the clock, nothing is forgotten. */
  lemma {:induction false} PromptIsNeverStale(w: World, steps: seq<Step>)
    requires Inv(w) && TimerFresh(w) && Ordered(w) && Allowed(w, steps) && Prompt(w, steps)
    ensures NeverStale(w, steps)
    decreases |steps|
  {
    if steps != [] {
      StepKeepsInv(w, steps[0]);
      StepKeepsTimerFresh(w, steps[0]);
      PromptStepKeepsOrdered(w, steps[0]);
      PromptIsNeverStale(Next(w, steps[0]), steps[1..]);
    }
  }

  // ---------- ... and one that is ----------

  /** One goroutine picks up version 0 and is slow; another has version 1 delivered; an interval later the
      first reads the clock, calls back at once, and version 1 is gone. */
  function SlowStep(n: nat): Step {
    match n
    case 0 => PickUp
    case 1 => Configure
    case 2 => PickUp
    case 3 => ReadClock(1)
    case 4 => Trigger(Capture(0, 1))
    case 5 => Tick(DEBOUNCE)
    case 6 => ReadClock(0)
    case _ => Trigger(Capture(DEBOUNCE, 0))
  }

  function SlowCaller(): seq<Step> {
    seq(8, i requires 0 <= i => SlowStep(i))
  }

  /** A world without timers. */
  function Idle(last: Option<Time>, clock: Time, picked: multiset<nat>, captures: multiset<Capture>, config: nat,
                updates: seq<Time>, delivered: nat, wanted: nat): World
  {
    World(Core(last, None, false), clock, map[], map[], 0, picked, captures, config, false, updates, delivered, wanted)
  }

  /** The world before each step, and the last one. */
  function SlowWorld(n: nat): World {
    match n
    case 0 => Idle(None, 0, multiset{}, multiset{}, 0, [], 0, 0)
    case 1 => Idle(None, 0, multiset{0}, multiset{}, 0, [], 0, 0)
    case 2 => Idle(None, 0, multiset{0}, multiset{}, 1, [], 0, 0)
    case 3 => Idle(None, 0, multiset{0, 1}, multiset{}, 1, [], 0, 0)
    case 4 => Idle(None, 0, multiset{0}, multiset{Capture(0, 1)}, 1, [], 0, 0)
    case 5 => Idle(Some(0), 0, multiset{0}, multiset{}, 1, [0], 1, 1)
    case 6 => Idle(Some(0), DEBOUNCE, multiset{0}, multiset{}, 1, [0], 1, 1)
    case 7 => Idle(Some(0), DEBOUNCE, multiset{}, multiset{Capture(DEBOUNCE, 0)}, 1, [0], 1, 1)
    case _ => Idle(Some(DEBOUNCE), DEBOUNCE, multiset{}, multiset{}, 1, [0, DEBOUNCE], 0, 1)
  }

  /** A due trigger in a world without timers. */
  lemma IdleCallBack(w: World, t: Capture)
    requires w == Idle(w.core.last, w.clock, w.picked, multiset{t}, w.config, w.updates, w.delivered, w.wanted)
    requires Due(w.core, t)
    ensures Triggered(w, t)
            == Idle(Some(t.now), w.clock, w.picked, multiset{}, w.config, w.updates + [t.now], t.config,
                    if w.wanted < t.config then t.config else w.wanted)
  {
    assert multiset{t} - multiset{t} == multiset{};
  }

  predicate LeadsTo(w: World, s: Step, next: World) {
    Enabled(w, s) && Next(w, s) == next
  }

  lemma SlowStep0()
    ensures LeadsTo(SlowWorld(0), SlowStep(0), SlowWorld(1))
  {}

  lemma SlowStep1()
    ensures LeadsTo(SlowWorld(1), SlowStep(1), SlowWorld(2))
  {}

  lemma SlowStep2()
    ensures LeadsTo(SlowWorld(2), SlowStep(2), SlowWorld(3))
  {
    assert multiset{0} + multiset{1} == multiset{0, 1};
  }

  lemma SlowStep3()
    ensures LeadsTo(SlowWorld(3), SlowStep(3), SlowWorld(4))
  {
    assert multiset{0, 1} - multiset{1} == multiset{0};
  }

  lemma SlowStep4()
    ensures LeadsTo(SlowWorld(4), SlowStep(4), SlowWorld(5))
  {
    IdleCallBack(SlowWorld(4), Capture(0, 1));
  }

  lemma SlowStep5()
    ensures LeadsTo(SlowWorld(5), SlowStep(5), SlowWorld(6))
  {}

  lemma SlowStep6()
    ensures LeadsTo(SlowWorld(6), SlowStep(6), SlowWorld(7))
  {
    assert multiset{0} - multiset{0} == multiset{};
  }

  lemma SlowStep7()
    ensures LeadsTo(SlowWorld(7), SlowStep(7), SlowWorld(8))
  {
    IdleCallBack(SlowWorld(7), Capture(DEBOUNCE, 0));
  }

  lemma SlowStepLeads(n: nat)
    requires n < 8
    ensures LeadsTo(SlowWorld(n), SlowStep(n), SlowWorld(n + 1))
  {
    match n
    case 0 => SlowStep0();
    case 1 => SlowStep1();
    case 2 => SlowStep2();
    case 3 => SlowStep3();
    case 4 => SlowStep4();
    case 5 => SlowStep5();
    case 6 => SlowStep6();
    case _ => SlowStep7();
  }

  /** A sequence of worlds, each led to by a step, is a run. */
  lemma {:induction false} TraceRuns(worlds: seq<World>, steps: seq<Step>)
    requires |worlds| == |steps| + 1
    requires forall i :: 0 <= i < |steps| ==> LeadsTo(worlds[i], steps[i], worlds[i + 1])
    ensures Allowed(worlds[0], steps) && Run(worlds[0], steps) == worlds[|steps|]
    decreases |steps|
  {
    if steps != [] {
      TraceRuns(worlds[1..], steps[1..]);
      assert LeadsTo(worlds[0], steps[0], worlds[1]);
    }
  }

  lemma SlowCallerRuns()
    ensures Allowed(SlowWorld(0), SlowCaller()) && Run(SlowWorld(0), SlowCaller()) == SlowWorld(8)
  {
    var worlds := seq(9, i requires 0 <= i => SlowWorld(i));
    forall i | 0 <= i < 8 ensures LeadsTo(worlds[i], SlowCaller()[i], worlds[i + 1]) { SlowStepLeads(i); }
    TraceRuns(worlds, SlowCaller());
  }

  /** Version 1 was asked for last, version 0 was delivered last, and nothing is pending or on its way. */
  predicate Lost(w: World) {
    && w.wanted == 1 && w.delivered == 0 && !Answered(w)
    && w.armed == map[] && w.fired == map[] && w.captures == multiset{} && w.picked == multiset{}
  }

  /** A run of a running watcher, from its start, that loses a configuration. */
  lemma SlowCallerForgets()
    ensures Allowed(Start(0), SlowCaller()) && AllRunning(SlowCaller())
    ensures Lost(Run(Start(0), SlowCaller()))
  {
    SlowEnds();
    AllSlowRunning();
    SlowCallerRuns();
  }

  lemma SlowEnds()
    ensures SlowWorld(0) == Start(0) && Lost(SlowWorld(8))
  {}

  lemma AllSlowRunning()
    ensures AllRunning(SlowCaller())
  {
    forall i | 0 <= i < 8 ensures Running(SlowCaller()[i]) {
      assert SlowCaller()[i] == SlowStep(i);
    }
  }

  // ---------- callbacks happen after the mutex is released ----------

  /** The world, the configurations released for a callback that has not happened yet, in the order of
      their release, and the configuration of the latest callback that has. */
  datatype Calls = Calls(w: World, calling: seq<nat>, received: nat)

  /** A step as before, or the callback of the i-th configuration waiting for one. */
  datatype Move = Locked(step: Step) | Call(i: nat)

  predicate MoveEnabled(c: Calls, m: Move) {
    match m
    case Locked(s) => Enabled(c.w, s)
    case Call(i) => i < |c.calling|
  }

  function Moved(c: Calls, m: Move): Calls
    requires MoveEnabled(c, m)
  {
    match m
    case Locked(s) =>
      var next := Next(c.w, s);
      Calls(next, if |next.updates| > |c.w.updates| then c.calling + [next.delivered] else c.calling, c.received)
    case Call(i) => Calls(c.w, c.calling[..i] + c.calling[i + 1..], c.calling[i])
  }

  predicate MovesAllowed(c: Calls, moves: seq<Move>)
    decreases |moves|
  {
    moves == [] || (MoveEnabled(c, moves[0]) && MovesAllowed(Moved(c, moves[0]), moves[1..]))
  }

  function RunMoves(c: Calls, moves: seq<Move>): Calls
    requires MovesAllowed(c, moves)
    decreases |moves|
  {
    if moves == [] then c else RunMoves(Moved(c, moves[0]), moves[1..])
  }

  /** What the receiver has when all callbacks have happened in the order of their release. */
  function LastToCome(c: Calls): nat {
    if c.calling == [] then c.received else c.calling[|c.calling| - 1]
  }

  /** The receiver is going to end up with the configuration released last. */
  predicate Settled(c: Calls) {
    LastToCome(c) == c.w.delivered
  }

  /** The configuration released last is called back before another one that was released earlier. */
  predicate Overtakes(c: Calls, m: Move) {
    m.Call? && 0 < m.i == |c.calling| - 1 && c.calling[m.i - 1] != c.calling[m.i]
  }

  lemma MoveSettlesIff(c: Calls, m: Move)
    requires Settled(c) && MoveEnabled(c, m)
    ensures Settled(Moved(c, m)) <==> !Overtakes(c, m)
  {
    match m
    case Locked(s) => DeliversOnlyByUpdates(c.w, s);
    case Call(i) =>
      var rest := c.calling[..i] + c.calling[i + 1..];
      if rest != [] {
        assert rest[|rest| - 1] == if i == |c.calling| - 1 then c.calling[i - 1] else c.calling[|c.calling| - 1];
      }
  }

  lemma DeliversOnlyByUpdates(w: World, s: Step)
    requires Enabled(w, s)
    ensures Next(w, s).updates == w.updates ==> Next(w, s).delivered == w.delivered
    ensures |w.updates| <= |Next(w, s).updates|
    ensures |w.updates| == |Next(w, s).updates| ==> Next(w, s).updates == w.updates
  {}

  predicate AlwaysSettled(c: Calls, moves: seq<Move>)
    requires MovesAllowed(c, moves)
    decreases |moves|
  {
    moves == [] || (Settled(Moved(c, moves[0])) && AlwaysSettled(Moved(c, moves[0]), moves[1..]))
  }

  predicate NeverOvertakes(c: Calls, moves: seq<Move>)
    requires MovesAllowed(c, moves)
    decreases |moves|
  {
    moves == [] || (!Overtakes(c, moves[0]) && NeverOvertakes(Moved(c, moves[0]), moves[1..]))
  }

  /** Over every run the receiver is always going to end up with the configuration released last, exactly
      if no callback of the one released last overtakes another. */
  lemma {:induction false} CallbacksSettleIff(c: Calls, moves: seq<Move>)
    requires Settled(c) && MovesAllowed(c, moves)
    ensures AlwaysSettled(c, moves) <==> NeverOvertakes(c, moves)
    decreases |moves|
  {
    if moves != [] {
      MoveSettlesIff(c, moves[0]);
      if !Overtakes(c, moves[0]) {
        CallbacksSettleIff(Moved(c, moves[0]), moves[1..]);
      }
    }
  }

  /** How many callbacks happen in a run. */
  function CallCount(moves: seq<Move>): nat {
    if moves == [] then 0 else (if moves[0].Call? then 1 else 0) + CallCount(moves[1..])
  }

  lemma MoveCounts(c: Calls, m: Move)
    requires MoveEnabled(c, m)
    ensures |Moved(c, m).calling| + |c.w.updates| + (if m.Call? then 1 else 0) == |c.calling| + |Moved(c, m).w.updates|
  {
    if m.Locked? { OneUpdateAtATime(c.w, m.step); }
  }

  lemma OneUpdateAtATime(w: World, s: Step)
    requires Enabled(w, s)
    ensures |w.updates| <= |Next(w, s).updates| <= |w.updates| + 1
  {}

  /** Over every run each recorded update is called back once, or still going to be. */
  lemma {:induction false} EachUpdateCallsOnce(c: Calls, moves: seq<Move>)
    requires MovesAllowed(c, moves)
    ensures var last := RunMoves(c, moves);
            CallCount(moves) + |last.calling| + |c.w.updates| == |c.calling| + |last.w.updates|
    decreases |moves|
  {
    if moves != [] {
      MoveCounts(c, moves[0]);
      EachUpdateCallsOnce(Moved(c, moves[0]), moves[1..]);
    }
  }

  /** No stop, no immediate callback with a stale configuration, no overtaking callback. */
  predicate Orderly(c: Calls, m: Move) {
    && (m.Locked? ==> Running(m.step) && !StaleCallback(c.w, m.step))
    && !Overtakes(c, m)
  }

  predicate AllOrderly(c: Calls, moves: seq<Move>)
    requires MovesAllowed(c, moves)
    decreases |moves|
  {
    moves == [] || (Orderly(c, moves[0]) && AllOrderly(Moved(c, moves[0]), moves[1..]))
  }

  /** In an orderly run the receiver has the newest configuration asked for, or gets it from a callback
      that is on its way, or a live timer is pending. */
  lemma {:induction false} ReceiverIsNotForgotten(c: Calls, moves: seq<Move>)
    requires Inv(c.w) && TimerFresh(c.w) && Answered(c.w) && !c.w.stopped && Settled(c)
    requires MovesAllowed(c, moves) && AllOrderly(c, moves)
    ensures var last := RunMoves(c, moves); last.w.wanted <= LastToCome(last) || Alive(last.w)
    decreases |moves|
  {
    if moves != [] {
      MoveSettlesIff(c, moves[0]);
      if moves[0].Locked? {
        StepKeepsInv(c.w, moves[0].step);
        StepKeepsTimerFresh(c.w, moves[0].step);
        AnsweredIffNotStale(c.w, moves[0].step);
      }
      ReceiverIsNotForgotten(Moved(c, moves[0]), moves[1..]);
    }
  }

  // ---------- from the start ----------

  /** All of this from a new watcher: in every run the spacing and the one timer; in every run without a
      stop, that nothing is forgotten exactly if no callback is stale, which prompt callers never cause. */
  lemma FromTheStart(clock: Time, steps: seq<Step>)
    requires Allowed(Start(clock), steps)
    ensures Spaced(Run(Start(clock), steps).updates) && |Run(Start(clock), steps).armed.Keys| <= 1
    ensures AllRunning(steps) ==> (AlwaysAnswered(Start(clock), steps) <==> NeverStale(Start(clock), steps))
    ensures Prompt(Start(clock), steps) ==> NeverStale(Start(clock), steps)
  {
    var w := Start(clock);
    StartInv(clock);
    RunIsSpaced(w, steps);
    if AllRunning(steps) { NothingIsForgotten(w, steps); }
    if Prompt(w, steps) { PromptIsNeverStale(w, steps); }
  }

  /** ... and the receiver of a new watcher's callbacks is not forgotten in an orderly run. */
  lemma ReceiverFromTheStart(clock: Time, moves: seq<Move>)
    requires var c := Calls(Start(clock), [], 0); MovesAllowed(c, moves) && AllOrderly(c, moves)
    ensures var last := RunMoves(Calls(Start(clock), [], 0), moves);
            last.w.wanted <= LastToCome(last) || Alive(last.w)
  {
    StartInv(clock);
    ReceiverIsNotForgotten(Calls(Start(clock), [], 0), moves);
  }
}
