/** Availability over time: quota windows, suspensions, the per-handler
    snapshot cache, and whole runs of registry operations. */
module RegistryRuns {
  import opened Common
  import opened RegistryState
  import opened RegistryInvariant

  /** Five minutes in nanoseconds. */
  const QUOTA_WINDOW: Time := 300_000_000_000

  // ---------- availability of one model ----------

  function InWindow(r: Registration, now: Time): set<string> {
    set c | c in r.quota && now < r.quota[c] + QUOTA_WINDOW
  }

  predicate IsCooldown(reason: string) {
    EqualFold(reason, "quota")
  }

  function Cooling(r: Registration): set<string> {
    set c | c in r.suspended && IsCooldown(r.suspended[c])
  }

  function OtherSuspended(r: Registration): set<string> {
    set c | c in r.suspended && !IsCooldown(r.suspended[c])
  }

  predicate IsAvailable(count: int, expired: nat, cooling: nat, other: nat) {
    || count - expired - other > 0
    || (count > 0 && (expired > 0 || cooling > 0) && other == 0)
  }

  predicate Available(r: Registration, now: Time) {
    IsAvailable(r.count, |InWindow(r, now)|, |Cooling(r)|, |OtherSuspended(r)|)
  }

  /** The infos of the available models. */
  function Listed(models: map<string, Registration>, now: Time): set<ModelInfo> {
    set id | id in models && Available(models[id], now) :: models[id].info
  }

  function ModelCount(s: State, id: string, now: Time): nat {
    if id !in s.models then 0 else
    var r := s.models[id];
    var result := r.count - |InWindow(r, now)| - |r.suspended|;
    if result < 0 then 0 else result
  }

  // ---------- marks ----------

  function QuotaMarked(s: State, client: string, id: string, now: Time): State {
    if id !in s.models then s
    else s.(models := s.models[id := s.models[id].(quota := s.models[id].quota[client := now])])
  }

  function QuotaCleared(s: State, client: string, id: string): State {
    if id !in s.models then s
    else s.(models := s.models[id := s.models[id].(quota := s.models[id].quota - {client})])
  }

  /** A suspension is recorded only for named, registered and not yet suspended pairs. */
  predicate CanSuspend(s: State, client: string, id: string) {
    client != "" && id != "" && id in s.models && client !in s.models[id].suspended
  }

  function Suspended(s: State, client: string, id: string, reason: string): State {
    if !CanSuspend(s, client, id) then s
    else s.(models := s.models[id := s.models[id].(suspended := s.models[id].suspended[client := reason])])
  }

  predicate CanResume(s: State, client: string, id: string) {
    client != "" && id != "" && id in s.models && client in s.models[id].suspended
  }

  function Resumed(s: State, client: string, id: string): State {
    if !CanResume(s, client, id) then s
    else s.(models := s.models[id := s.models[id].(suspended := s.models[id].suspended - {client})])
  }

  /** The marks still inside their window. */
  function LiveQuota(r: Registration, now: Time): map<string, Time> {
    map c | c in InWindow(r, now) :: r.quota[c]
  }

  function CleanedUp(s: State, now: Time): State {
    s.(models := map id | id in s.models :: s.models[id].(quota := LiveQuota(s.models[id], now)))
  }

  // ---------- the snapshot cache ----------

  /** A cached list; without an expiry it is valid until invalidated. */
  datatype Snapshot = Snapshot(models: set<ModelInfo>, expiresAt: Option<Time>)

  datatype World = World(s: State, cache: map<string, Snapshot>, clock: Time)

  predicate Live(expiresAt: Option<Time>, now: Time) {
    expiresAt.None? || now < expiresAt.value
  }

  /** When the running quota windows of one registration end. */
  function Recoveries(r: Registration, now: Time): set<Time> {
    set c | c in InWindow(r, now) :: r.quota[c] + QUOTA_WINDOW
  }

  function AllRecoveries(models: map<string, Registration>, ids: set<string>, now: Time): set<Time> {
    set id, t | id in ids && id in models && t in Recoveries(models[id], now) :: t
  }

  ghost predicate Earliest(times: set<Time>, e: Option<Time>) {
    && (forall t :: t in times ==> e.Some? && e.value <= t)
    && (e.Some? ==> e.value in times)
  }

  /** `e` is the earliest moment after `now` at which a running quota window ends. */
  ghost predicate EarliestRecovery(models: map<string, Registration>, now: Time, e: Option<Time>) {
    Earliest(AllRecoveries(models, models.Keys, now), e)
  }

  /** Until the earliest recovery the available models cannot change by themselves. */
  lemma ListedUntilRecovery(models: map<string, Registration>, now: Time, e: Option<Time>, t: Time)
    requires EarliestRecovery(models, now, e) && now <= t && Live(e, t)
    ensures Listed(models, t) == Listed(models, now)
  {
    forall id | id in models ensures InWindow(models[id], t) == InWindow(models[id], now) {
      forall c | c in InWindow(models[id], now) ensures c in InWindow(models[id], t) {
        assert models[id].quota[c] + QUOTA_WINDOW in Recoveries(models[id], now);
        assert models[id].quota[c] + QUOTA_WINDOW in AllRecoveries(models, models.Keys, now);
      }
    }
    assert forall id :: id in models ==> (Available(models[id], t) <==> Available(models[id], now));
  }

  /** A snapshot shows the truth at every instant from `from` to its expiry. */
  ghost predicate Truthful(models: map<string, Registration>, snap: Snapshot, from: Time) {
    Live(snap.expiresAt, from) && forall t :: from <= t && Live(snap.expiresAt, t) ==> Listed(models, t) == snap.models
  }

  /** It does so from some instant that has come. */
  ghost predicate Sound(models: map<string, Registration>, snap: Snapshot, clock: Time) {
    exists from :: from <= clock && Truthful(models, snap, from)
  }

  // ---------- runs ----------

  datatype Op =
    | Register(client: string, provider: string, request: seq<Option<ModelInfo>>)
    | Unregister(client: string)
    | SetQuota(client: string, id: string)
    | ClearQuota(client: string, id: string)
    | Suspend(client: string, id: string, reason: string)
    | Resume(client: string, id: string)
    | Cleanup
    | GetAvailable(handler: string)

  /** The effect of an operation on everything but the cache. */
  function Applied(s: State, op: Op, now: Time): State {
    match op
    case Register(c, p, request) => Registered(s, c, p, request)
    case Unregister(c) => Unregistered(s, c)
    case SetQuota(c, id) => QuotaMarked(s, c, id, now)
    case ClearQuota(c, id) => QuotaCleared(s, c, id)
    case Suspend(c, id, reason) => Suspended(s, c, id, reason)
    case Resume(c, id) => Resumed(s, c, id)
    case Cleanup => CleanedUp(s, now)
    case GetAvailable(_) => s
  }

  /** Whether an operation throws the snapshots away. */
  predicate Invalidates(s: State, op: Op, now: Time) {
    match op
    case Register(_, _, _) => true
    case Unregister(_) => true
    case SetQuota(_, id) => id in s.models
    case ClearQuota(_, id) => id in s.models
    case Suspend(c, id, _) => CanSuspend(s, c, id)
    case Resume(c, id) => CanResume(s, c, id)
    case Cleanup => CleanedUp(s, now) != s
    case GetAvailable(_) => false
  }

  /** What `GetAvailableModels` answers: a live snapshot, or a rebuilt list. */
  function Served(w: World, handler: string, now: Time): set<ModelInfo> {
    if handler in w.cache && Live(w.cache[handler].expiresAt, now) then w.cache[handler].models
    else Listed(w.s.models, now)
  }

  function Later(a: Time, b: Time): Time {
    if a < b then b else a
  }

  /** A step of the cached registry that read the clock at `now`; a rebuild stores a snapshot with the
      earliest recovery as expiry. A request for the list reads the clock before it waits for the mutex,
      so `now` may be older than the latest reading. */
  ghost predicate Step(w: World, op: Op, now: Time, w': World) {
    && w'.s == Applied(w.s, op, now)
    && w'.clock == Later(w.clock, now)
    && if op.GetAvailable? then
         if op.handler in w.cache && Live(w.cache[op.handler].expiresAt, now) then w'.cache == w.cache
         else exists e :: EarliestRecovery(w.s.models, now, e)
                          && w'.cache == w.cache[op.handler := Snapshot(Listed(w.s.models, now), e)]
       else w'.cache == if Invalidates(w.s, op, now) then map[] else w.cache
  }

  ghost predicate WorldInv(w: World) {
    Inv(w.s) && forall h :: h in w.cache ==> Sound(w.s.models, w.cache[h], w.clock)
  }

  // ---------- every step keeps the invariant ----------

  /** Marks are not part of what the reference counts say. */
  lemma MarksKeepInv(s: State, t: State)
    requires Inv(s)
    requires t == s.(models := t.models) && t.models.Keys == s.models.Keys
    requires forall id :: id in s.models ==>
               t.models[id].(quota := s.models[id].quota, suspended := s.models[id].suspended) == s.models[id]
    ensures Inv(t)
  {
    forall id ensures ExactEntry(t, id) {
      assert ExactEntry(s, id);
      SlotsAgree(s, t, id, None, s.clientModels.Keys);
      forall p: string ensures TotalBy(t, id, p) == TotalBy(s, id, p) {
        SlotsAgree(s, t, id, Some(p), s.clientModels.Keys);
      }
    }
  }

  lemma AppliedKeepsInv(s: State, op: Op, now: Time)
    requires Inv(s)
    ensures Inv(Applied(s, op, now))
  {
    match op
    case Register(c, p, request) => RegisteredKeepsExact(s, c, p, request);
    case Unregister(c) => UnregisteredKeepsExact(s, c);
    case _ => MarksKeepInv(s, Applied(s, op, now));
  }

  /** An operation that keeps the snapshots has changed nothing. */
  lemma SilentMeansUnchanged(s: State, op: Op, now: Time)
    requires !Invalidates(s, op, now)
    ensures Applied(s, op, now) == s
  {}

  /** A rebuilt list is truthful from its reading of the clock on, however old that is. */
  lemma RebuiltIsTruthful(models: map<string, Registration>, now: Time, e: Option<Time>)
    requires EarliestRecovery(models, now, e)
    ensures Truthful(models, Snapshot(Listed(models, now), e), now)
  {
    forall t | now <= t && Live(e, t) ensures Listed(models, t) == Listed(models, now) {
      ListedUntilRecovery(models, now, e, t);
    }
  }

  lemma StepKeepsInv(w: World, op: Op, now: Time, w': World)
    requires WorldInv(w) && Step(w, op, now, w')
    ensures WorldInv(w')
  {
    AppliedKeepsInv(w.s, op, now);
    forall h | h in w'.cache ensures Sound(w'.s.models, w'.cache[h], w'.clock) {
      SilentMeansUnchanged(w.s, op, now);
      if h in w.cache && w'.cache[h] == w.cache[h] {
        var from :| from <= w.clock && Truthful(w.s.models, w.cache[h], from);
        assert from <= w'.clock;
      } else {
        var e :| EarliestRecovery(w.s.models, now, e)
            && w'.cache == w.cache[op.handler := Snapshot(Listed(w.s.models, now), e)];
        RebuiltIsTruthful(w.s.models, now, e);
      }
    }
  }

  /** Whatever is served, from a snapshot or not, is the list that a rebuild gives at the time of the
      reading; or, if the reading is older than a snapshot that is served, at the time of the snapshot. */
  lemma ServedIsFresh(w: World, handler: string, now: Time) returns (at: Time)
    requires WorldInv(w)
    ensures now <= at <= Later(w.clock, now)
    ensures Served(w, handler, now) == Listed(w.s.models, at)
    ensures w.clock <= now ==> at == now
  {
    at := now;
    if handler in w.cache && Live(w.cache[handler].expiresAt, now) {
      var from :| from <= w.clock && Truthful(w.s.models, w.cache[handler], from);
      at := Later(from, now);
    }
  }

  datatype Event = Event(op: Op, now: Time)

  /** `worlds` is a trace of `run`: one world before each event, and one at the end. */
  ghost predicate Trace(worlds: seq<World>, run: seq<Event>) {
    && |worlds| == |run| + 1
    && forall i :: 0 <= i < |run| ==> Step(worlds[i], run[i].op, run[i].now, worlds[i + 1])
  }

  /** The registry without any cache. */
  ghost function Plain(s: State, run: seq<Event>): State {
    if run == [] then s else Applied(Plain(s, run[..|run| - 1]), run[|run| - 1].op, run[|run| - 1].now)
  }

  /** Over every run, whatever the readings of the clock: reference counts stay exact, the cached registry
      holds what a registry without a cache would, and serves the list that this one would give now, or at
      an instant between an overtaken reading and the latest one. */
  lemma {:induction false} RunTheorem(worlds: seq<World>, run: seq<Event>, handler: string, now: Time)
      returns (at: Time)
    requires Trace(worlds, run) && worlds[0].s == EMPTY && worlds[0].cache == map[]
    ensures WorldInv(worlds[|run|])
    ensures worlds[|run|].s == Plain(EMPTY, run)
    ensures now <= at <= Later(worlds[|run|].clock, now) && (worlds[|run|].clock <= now ==> at == now)
    ensures Served(worlds[|run|], handler, now) == Listed(Plain(EMPTY, run).models, at)
    decreases |run|
  {
    if run == [] {
      EmptyIsExact();
    } else {
      var n := |run| - 1;
      var _ := RunTheorem(worlds[..n + 1], run[..n], handler, run[n].now);
      assert worlds[..n + 1][n] == worlds[n];
      assert Step(worlds[n], run[n].op, run[n].now, worlds[n + 1]);
      StepKeepsInv(worlds[n], run[n].op, run[n].now, worlds[n + 1]);
    }
    at := ServedIsFresh(worlds[|run|], handler, now);
  }

  /** The clock of a run is its latest reading. */
  lemma {:induction false} ClockIsLatest(worlds: seq<World>, run: seq<Event>, i: nat)
    requires Trace(worlds, run) && i < |run|
    ensures run[i].now <= worlds[|run|].clock
    decreases |run|
  {
    var n := |run| - 1;
    assert Step(worlds[n], run[n].op, run[n].now, worlds[n + 1]);
    if i < n {
      assert worlds[..n + 1][n] == worlds[n];
      ClockIsLatest(worlds[..n + 1], run[..n], i);
    }
  }
}
