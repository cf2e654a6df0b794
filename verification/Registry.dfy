/** The registry as the object it is: maps updated in place by loops over
    other maps, in whatever order those are visited. */
module Registry {
  import opened Common
  import opened RegistryState
  import opened RegistryInvariant
  import opened RegistryRuns
  import opened RegistryResults

  // ---------- the phases of a reconciliation, on one entry ----------

  function Put(models: map<string, Registration>, id: string, o: Option<Registration>): map<string, Registration> {
    if o.Some? then models[id := o.value] else models - {id}
  }

  function CountOf(counts: map<string, nat>, id: string): nat {
    if id in counts then counts[id] else 0
  }

  ghost predicate Counts(counts: map<string, nat>, ids: seq<string>) {
    forall id :: CountOf(counts, id) == multiset(ids)[id] && (id in counts <==> id in ids)
  }

  function Excess(a: nat, b: nat): nat {
    if a <= b then 0 else a - b
  }

  function MovedOff(o: Option<Registration>, provider: string, n: nat): Option<Registration> {
    if o.None? then None else Some(DebitProvider(o.value, provider, n))
  }

  /** The metadata refresh of a model that stays with the client, crediting `overlap` moved slots. */
  function Refreshed(o: Option<Registration>, client: string, provider: string, info: ModelInfo,
                     overlap: nat): Option<Registration> {
    if o.None? then None else
    Some(Unmarked(o.value.(info := info,
                           infoByProvider := WithInfo(o.value.infoByProvider, provider, info),
                           providers := Credit(o.value.providers, provider, overlap)), client))
  }

  /** The slots that change provider along with the client. */
  function Overlap(oldP: string, oldN: nat, newP: string, newN: nat): nat {
    if oldP != newP then Min(oldN, newN) else 0
  }

  lemma DropOnceMore(o: Option<Registration>, client: string, provider: string, n: nat)
    ensures DropEntry(DropEntry(o, client, provider, n), client, provider, 1) == DropEntry(o, client, provider, n + 1)
  {
    if o.Some? && o.value.count > n + 1 && n > 0 {
      var r := o.value;
      assert Debit(Debit(r.providers, provider, n), provider, 1) == Debit(r.providers, provider, n + 1);
      assert r.quota - {client} - {client} == r.quota - {client};
      assert r.suspended - {client} - {client} == r.suspended - {client};
      assert provider in r.providers ==> r.infoByProvider - {provider} - {provider} == r.infoByProvider - {provider};
    }
  }

  lemma FreshOnceMore(o: Option<Registration>, provider: string, n: nat, info: ModelInfo)
    ensures FreshEntry(FreshEntry(o, provider, n, info), provider, 1, info) == FreshEntry(o, provider, n + 1, info)
  {
    var r := if o.Some? then o.value else Blank(info);
    CreditTwice(r.providers, provider, n, 1);
    assert WithInfo(WithInfo(r.infoByProvider, provider, info), provider, info) ==
             WithInfo(r.infoByProvider, provider, info);
  }

  lemma CreditTwice(providers: map<string, int>, provider: string, a: nat, b: nat)
    ensures Credit(Credit(providers, provider, a), provider, b) == Credit(providers, provider, a + b)
  {}

  lemma DebitTwice(providers: map<string, int>, provider: string, a: nat, b: nat)
    ensures Debit(Debit(providers, provider, a), provider, b) == Debit(providers, provider, a + b)
  {}

  /** The counters of all the phases together. */
  lemma PhasesCount(providers: map<string, int>, oldP: string, oldN: nat, newP: string, newN: nat)
    requires NoIdleProvider(providers) && newN > 0
    requires oldP != "" ==> oldN <= At(providers, oldP)
    ensures var overlap := Overlap(oldP, oldN, newP, newN);
            var dropped := Debit(Debit(providers, oldP, overlap), oldP, Excess(oldN, newN));
            Credit(Credit(dropped, newP, Excess(newN, oldN)), newP, overlap)
            == Credit(Debit(providers, oldP, oldN), newP, newN)
  {
    var overlap := Overlap(oldP, oldN, newP, newN);
    DebitTwice(providers, oldP, overlap, Excess(oldN, newN));
    CreditTwice(Debit(providers, oldP, overlap + Excess(oldN, newN)), newP, Excess(newN, oldN), overlap);
  }

  /** The infos of all the phases together. */
  lemma PhasesInfos(r: Registration, oldP: string, oldN: nat, newP: string, newN: nat, info: ModelInfo)
    requires NoIdleProvider(r.providers) && newN > 0
    requires oldP != "" ==> oldN <= At(r.providers, oldP)
    ensures var moved := DebitProvider(r, oldP, Overlap(oldP, oldN, newP, newN));
            WithInfo(DebitInfos(moved, oldP, Excess(oldN, newN)), newP, info)
            == WithInfo(DebitInfos(r, oldP, oldN), newP, info)
  {
    DebitTwice(r.providers, oldP, Overlap(oldP, oldN, newP, newN), Excess(oldN, newN));
  }

  /** No phase is right by itself; one after the other they rebind the client's slots. */
  lemma PhasesRebind(o: Option<Registration>, client: string, oldP: string, oldN: nat, newP: string, newN: nat,
                     info: ModelInfo)
    requires newN > 0
    requires oldN > 0 ==> o.Some? && oldN <= o.value.count && (oldP != "" ==> oldN <= At(o.value.providers, oldP))
    requires o.Some? ==> NoIdleProvider(o.value.providers)
    ensures var moved := MovedOff(o, oldP, Overlap(oldP, oldN, newP, newN));
            var dropped := DropEntry(moved, client, oldP, Excess(oldN, newN));
            var grown := FreshEntry(dropped, newP, Excess(newN, oldN), info);
            Refreshed(grown, client, newP, info, Overlap(oldP, oldN, newP, newN))
            == RebindEntry(o, client, oldP, oldN, newP, newN, info)
  {
    if o.Some? {
      var r := o.value;
      PhasesCount(r.providers, oldP, oldN, newP, newN);
      PhasesInfos(r, oldP, oldN, newP, newN, info);
      var moved := DebitProvider(r, oldP, Overlap(oldP, oldN, newP, newN));
      PhasesFromMoved(moved, client, oldP, Excess(oldN, newN), newP, Excess(newN, oldN), info,
                      Overlap(oldP, oldN, newP, newN));
    } else {
      PhasesFromMoved(Blank(info), client, oldP, 0, newP, newN, info, 0);
    }
  }

  /** Dropping, growing and refreshing one entry, field by field. */
  lemma PhasesFromMoved(r: Registration, client: string, oldP: string, excess: nat, newP: string, growth: nat,
                        info: ModelInfo, overlap: nat)
    requires excess < r.count || excess == 0
    ensures Refreshed(FreshEntry(DropEntry(Some(r), client, oldP, excess), newP, growth, info), client, newP, info,
                      overlap)
      == Some(Unmarked(Registration(info, WithInfo(DebitInfos(r, oldP, excess), newP, info), r.count - excess + growth,
              Credit(Credit(Debit(r.providers, oldP, excess), newP, growth), newP, overlap),
              r.quota, r.suspended), client))
  {
    assert r.quota - {client} - {client} == r.quota - {client};
    assert r.suspended - {client} - {client} == r.suspended - {client};
    var ibp := DebitInfos(r, oldP, excess);
    assert WithInfo(WithInfo(ibp, newP, info), newP, info) == WithInfo(ibp, newP, info);
  }

  /** An entry after some of the client's slots, `done`, were added or dropped one by one. */
  ghost function FreshSoFar(s: State, provider: string, infos: map<string, ModelInfo>, done: seq<string>,
                            id: string): Option<Registration> {
    if id in infos then FreshEntry(Lookup(s.models, id), provider, multiset(done)[id], infos[id])
        else Lookup(s.models, id)
  }

  ghost function DroppedSoFar(s: State, client: string, provider: string, done: seq<string>,
                              id: string): Option<Registration> {
    DropEntry(Lookup(s.models, id), client, provider, multiset(done)[id])
  }

  lemma FreshOneMore(s: State, provider: string, infos: map<string, ModelInfo>, done: seq<string>, next: string,
                     id: string)
    requires next in infos
    ensures FreshSoFar(s, provider, infos, done + [next], id) ==
      if id == next then FreshEntry(FreshSoFar(s, provider, infos, done, id), provider, 1, infos[id])
      else FreshSoFar(s, provider, infos, done, id)
  {
    if id == next { FreshOnceMore(Lookup(s.models, id), provider, multiset(done)[id], infos[id]); }
  }

  lemma DroppedOneMore(s: State, client: string, provider: string, done: seq<string>, next: string, id: string)
    ensures DroppedSoFar(s, client, provider, done + [next], id) ==
      if id == next then DropEntry(DroppedSoFar(s, client, provider, done, id), client, provider, 1)
      else DroppedSoFar(s, client, provider, done, id)
  {
    if id == next { DropOnceMore(Lookup(s.models, id), client, provider, multiset(done)[id]); }
  }

  lemma IsFresh(models: map<string, Registration>, s: State, client: string, provider: string,
                raw: seq<string>, infos: map<string, ModelInfo>)
    requires client !in s.clientModels && forall i :: i in infos <==> i in raw
    requires forall id :: Lookup(models, id) == FreshSoFar(s, provider, infos, raw, id)
    ensures models == RegisteredModels(s, client, provider, raw, infos)
  {
    SameModels(models, RegisteredModels(s, client, provider, raw, infos));
  }

  lemma IsDropped(models: map<string, Registration>, s: State, client: string)
    requires forall id ::
      Lookup(models, id) == DropEntry(Lookup(s.models, id), client, ProviderOf(s.clientProviders, client),
                                      Multiplicity(s.clientModels, client, id))
    ensures models == DroppedModels(s, client)
  {
    SameModels(models, DroppedModels(s, client));
  }

  lemma IsRegistered(models: map<string, Registration>, s: State, client: string, provider: string,
                     raw: seq<string>, infos: map<string, ModelInfo>)
    requires forall i :: i in infos <==> i in raw
    requires forall id :: Lookup(models, id) == RegisteredEntry(s, client, provider, raw, infos, id)
    ensures models == RegisteredModels(s, client, provider, raw, infos)
  {
    SameModels(models, RegisteredModels(s, client, provider, raw, infos));
  }

  /** The phases reconcile a registered client's entry. */
  lemma PhasesReconcile(s: State, client: string, provider: string, raw: seq<string>, infos: map<string, ModelInfo>,
                        id: string, oldN: nat, newN: nat)
    requires Inv(s) && client in s.clientModels
    requires forall i :: i in infos <==> i in raw
    requires oldN == Multiplicity(s.clientModels, client, id) && newN == multiset(raw)[id]
    ensures var oldP := ProviderOf(s.clientProviders, client);
            var moved := MovedOff(Lookup(s.models, id), oldP, Overlap(oldP, oldN, provider, newN));
            var dropped := DropEntry(moved, client, oldP, Excess(oldN, newN));
            RegisteredEntry(s, client, provider, raw, infos, id) ==
              if id in infos
              then Refreshed(FreshEntry(dropped, provider, Excess(newN, oldN), infos[id]), client, provider, infos[id],
                             Overlap(oldP, oldN, provider, newN))
              else dropped
  {
    assert ExactEntry(s, id);
    ClientShare(s, client, id);
    if id in infos {
      PhasesRebind(Lookup(s.models, id), client, ProviderOf(s.clientProviders, client), oldN, provider, newN,
                   infos[id]);
    }
  }

  lemma SomethingUsableIsListed(s: State, infos: seq<ModelInfo>, now: Time)
    requires Inv(s) && SetOf(infos) == Listed(s.models, now)
    ensures (exists info :: info in infos && ModelCount(s, info.id, now) > 0)
       <==> (exists id :: id in s.models && ModelCount(s, id, now) > 0)
  {
    PositiveCountIsListed(s, now);
    assert forall info :: info in infos <==> info in SetOf(infos);
  }

  // ---------- the object ----------

  /** A stored list for one handler, in the order it was built. */
  datatype CacheEntry = CacheEntry(models: seq<ModelInfo>, expiresAt: Option<Time>)

  function SetOf(infos: seq<ModelInfo>): set<ModelInfo> {
    set info | info in infos
  }

  ghost predicate DistinctIds(infos: seq<ModelInfo>) {
    forall i, j :: 0 <= i < j < |infos| ==> infos[i].id != infos[j].id
  }

  /** Without expired marks, except on the models still to do. */
  function SweptBut(models: map<string, Registration>, todo: set<string>, now: Time): map<string, Registration> {
    map id | id in models :: if id in todo then models[id] else models[id].(quota := LiveQuota(models[id], now))
  }

  lemma SweptOneMore(models: map<string, Registration>, todo: set<string>, now: Time, id: string)
    requires id in todo && id in models
    ensures var was, next := SweptBut(models, todo, now), SweptBut(models, todo - {id}, now);
            && was[id] == models[id]
            && next == was[id := models[id].(quota := LiveQuota(models[id], now))]
            && (next != models <==> was != models || LiveQuota(models[id], now) != models[id].quota)
  {
    var was, next := SweptBut(models, todo, now), SweptBut(models, todo - {id}, now);
    if next == models {
      assert next[id] == models[id];
      forall k | k in models ensures was[k] == models[k] { assert next[k] == models[k]; }
    }
  }

  lemma CountsOneMore(counts: map<string, nat>, ids: seq<string>, id: string)
    requires Counts(counts, ids)
    ensures Counts(counts[id := CountOf(counts, id) + 1], ids + [id])
  {}

  lemma RequestOneMore(request: seq<Option<ModelInfo>>, i: nat)
    requires i < |request|
    ensures var (raw, infos) := (RawIds(request[..i]), FirstInfos(request[..i]));
            && RawIds(request[..i + 1]) == raw + (if Usable(request[i]) then [request[i].value.id] else [])
            && FirstInfos(request[..i + 1])
               == if Usable(request[i]) && request[i].value.id !in infos
                  then infos[request[i].value.id := request[i].value] else infos
  {
    assert request[..i + 1][..i] == request[..i];
  }

  class ModelRegistry {
    var models: map<string, Registration>
    var clientModels: map<string, seq<string>>
    var clientInfos: map<string, map<string, ModelInfo>>
    var clientProviders: map<string, string>
    var cache: map<string, CacheEntry>
    /** The latest instant at which an operation ran. */
    ghost var clock: Time

    ghost function Bookkeeping(): State
      reads this
    {
      State(models, clientModels, clientInfos, clientProviders)
    }

    ghost function Contents(): World
      reads this
    {
      World(Bookkeeping(), map h | h in cache :: Snapshot(SetOf(cache[h].models), cache[h].expiresAt), clock)
    }

    ghost predicate Valid()
      reads this
    {
      WorldInv(Contents()) && forall h :: h in cache ==> DistinctIds(cache[h].models)
    }

    constructor (ghost now: Time)
      ensures Valid() && Contents() == World(EMPTY, map[], now)
    {
      models, clientModels, clientInfos, clientProviders, cache := map[], map[], map[], map[], map[];
      clock := now;
      new;
      EmptyIsExact();
      assert Contents().s == EMPTY;
    }

    /** One more slot of `id` under `provider`. */
    method AddModelRegistration(id: string, provider: string, info: ModelInfo)
      modifies this`models
      ensures models == if id == "" then old(models)
                        else Put(old(models), id, FreshEntry(Lookup(old(models), id), provider, 1, info))
    {
      if id == "" { return; }
      if id in models {
        var existing := models[id];
        existing := existing.(count := existing.count + 1, info := info);
        if provider != "" {
          var held := if provider in existing.providers then existing.providers[provider] else 0;
          existing := existing.(providers := existing.providers[provider := held + 1],
                                infoByProvider := existing.infoByProvider[provider := info]);
        }
        models := models[id := existing];
        return;
      }
      var registration := Registration(info, map[], 1, map[], map[], map[]);
      if provider != "" {
        registration := registration.(providers := map[provider := 1], infoByProvider := map[provider := info]);
      }
      models := models[id := registration];
    }

    /** One slot of `id` less for `client`, and its marks on `id` gone. */
    method RemoveModelRegistration(client: string, id: string, provider: string)
      modifies this`models
      ensures models == Put(old(models), id, DropEntry(Lookup(old(models), id), client, provider, 1))
    {
      if id !in models { return; }
      var r := models[id];
      r := r.(count := r.count - 1, quota := r.quota - {client}, suspended := r.suspended - {client});
      if r.count < 0 { r := r.(count := 0); }
      if provider != "" && provider in r.providers {
        if r.providers[provider] <= 1 {
          r := r.(providers := r.providers - {provider}, infoByProvider := r.infoByProvider - {provider});
        } else {
          r := r.(providers := r.providers[provider := r.providers[provider] - 1]);
        }
      }
      if r.count <= 0 { models := models - {id}; } else { models := models[id := r]; }
    }

    method RemoveTimes(client: string, id: string, provider: string, n: nat)
      modifies this`models
      ensures models == Put(old(models), id, DropEntry(Lookup(old(models), id), client, provider, n))
    {
      for i := 0 to n
        invariant models == Put(old(models), id, DropEntry(Lookup(old(models), id), client, provider, i))
      {
        RemoveModelRegistration(client, id, provider);
        DropOnceMore(Lookup(old(models), id), client, provider, i);
      }
    }

    method AddTimes(id: string, provider: string, info: ModelInfo, n: nat)
      requires id != ""
      modifies this`models
      ensures models == Put(old(models), id, FreshEntry(Lookup(old(models), id), provider, n, info))
    {
      for i := 0 to n
        invariant models == Put(old(models), id, FreshEntry(Lookup(old(models), id), provider, i, info))
      {
        AddModelRegistration(id, provider, info);
        FreshOnceMore(Lookup(old(models), id), provider, i, info);
      }
    }

    // ---------- the phases of a reconciliation ----------

    /** Move the overlapping slots off the old provider. */
    method MoveOverlap(oldCounts: map<string, nat>, newCounts: map<string, nat>, oldP: string, newP: string)
      modifies this`models
      ensures forall id :: Lookup(models, id) == MovedOff(Lookup(old(models), id), oldP,
                             Overlap(oldP, CountOf(oldCounts, id), newP, CountOf(newCounts, id)))
    {
      if oldP == newP || oldP == "" { return; }
      var todo := newCounts.Keys;
      while todo != {}
        invariant todo <= newCounts.Keys
        invariant forall id :: id !in todo ==> Lookup(models, id) == MovedOff(Lookup(old(models), id), oldP,
                                 Overlap(oldP, CountOf(oldCounts, id), newP, CountOf(newCounts, id)))
        invariant forall id :: id in todo ==> Lookup(models, id) == Lookup(old(models), id)
        decreases todo
      {
        var id :| id in todo;
        todo := todo - {id};
        var toRemove := newCounts[id];
        if CountOf(oldCounts, id) < toRemove { toRemove := CountOf(oldCounts, id); }
        if toRemove > 0 && id in models && oldP in models[id].providers {
          var r := models[id];
          var held := r.providers[oldP];
          if held <= toRemove {
            r := r.(providers := r.providers - {oldP}, infoByProvider := r.infoByProvider - {oldP});
          } else {
            r := r.(providers := r.providers[oldP := held - toRemove]);
          }
          models := models[id := r];
        }
      }
    }

    /** Give up the slots that the new list no longer has: first whole models, then overage. */
    method DropExcess(client: string, oldCounts: map<string, nat>, newCounts: map<string, nat>, oldP: string)
      modifies this`models
      ensures forall id :: Lookup(models, id) == DropEntry(Lookup(old(models), id), client, oldP,
                             Excess(CountOf(oldCounts, id), CountOf(newCounts, id)))
    {
      var removed := DropRemoved(client, oldCounts, newCounts, oldP);
      DropOverage(client, oldCounts, newCounts, oldP, removed);
    }

    /** The models that the client no longer has at all. */
    method DropRemoved(client: string, oldCounts: map<string, nat>, newCounts: map<string, nat>, oldP: string)
      returns (removed: set<string>)
      modifies this`models
      ensures removed == set id | id in oldCounts && CountOf(newCounts, id) == 0
      ensures forall id ::
        Lookup(models, id) == (
          if id in removed then DropEntry(Lookup(old(models), id), client, oldP, oldCounts[id])
          else Lookup(old(models), id))
    {
      removed := set id | id in oldCounts && CountOf(newCounts, id) == 0;
      var todo := removed;
      while todo != {}
        invariant todo <= removed
        invariant forall id ::
          Lookup(models, id) == (
            if id in removed - todo then DropEntry(Lookup(old(models), id), client, oldP, oldCounts[id])
            else Lookup(old(models), id))
        decreases todo
      {
        var id :| id in todo;
        todo := todo - {id};
        RemoveTimes(client, id, oldP, oldCounts[id]);
      }
    }

    /** The slots that it has fewer of. */
    method DropOverage(client: string, oldCounts: map<string, nat>, newCounts: map<string, nat>, oldP: string,
                       ghost removed: set<string>)
      requires removed == set id | id in oldCounts && CountOf(newCounts, id) == 0
      modifies this`models
      ensures forall id ::
        Lookup(models, id) == (
          if id in oldCounts && id !in removed
          then DropEntry(Lookup(old(models), id), client, oldP, Excess(oldCounts[id], CountOf(newCounts, id)))
          else Lookup(old(models), id))
    {
      ghost var afterRemovals := models;
      var todo := oldCounts.Keys;
      while todo != {}
        invariant todo <= oldCounts.Keys
        invariant forall id ::
          Lookup(models, id) == (
            if id in oldCounts && id !in removed && id !in todo
            then DropEntry(Lookup(afterRemovals, id), client, oldP, Excess(oldCounts[id], CountOf(newCounts, id)))
            else Lookup(afterRemovals, id))
        decreases todo
      {
        var id :| id in todo;
        todo := todo - {id};
        var oldCount, newCount := oldCounts[id], CountOf(newCounts, id);
        if newCount == 0 || oldCount <= newCount { continue; }
        RemoveTimes(client, id, oldP, oldCount - newCount);
      }
    }

    /** Take the slots that only the new list has. */
    method AddSurplus(oldCounts: map<string, nat>, newCounts: map<string, nat>, newP: string,
                      infos: map<string, ModelInfo>)
      requires newCounts.Keys == infos.Keys && "" !in infos
      modifies this`models
      ensures forall id ::
        Lookup(models, id) == (
          if id in infos
          then FreshEntry(Lookup(old(models), id), newP, Excess(newCounts[id], CountOf(oldCounts, id)), infos[id])
          else Lookup(old(models), id))
    {
      var todo := newCounts.Keys;
      while todo != {}
        invariant todo <= newCounts.Keys
        invariant forall id ::
          Lookup(models, id) == (
            if id in infos && id !in todo
            then FreshEntry(Lookup(old(models), id), newP, Excess(newCounts[id], CountOf(oldCounts, id)), infos[id])
            else Lookup(old(models), id))
        decreases todo
      {
        var id :| id in todo;
        todo := todo - {id};
        if newCounts[id] <= CountOf(oldCounts, id) { continue; }
        AddTimes(id, newP, infos[id], newCounts[id] - CountOf(oldCounts, id));
      }
    }

    /** Refresh the metadata of the requested models and credit the moved slots. */
    method RefreshKept(client: string, oldCounts: map<string, nat>, newCounts: map<string, nat>,
                       oldP: string, newP: string, infos: map<string, ModelInfo>)
      requires newCounts.Keys == infos.Keys
      modifies this`models
      ensures forall id ::
        Lookup(models, id) == (
          if id in infos
          then Refreshed(Lookup(old(models), id), client, newP, infos[id],
                         Overlap(oldP, CountOf(oldCounts, id), newP, newCounts[id]))
          else Lookup(old(models), id))
    {
      var todo := infos.Keys;
      while todo != {}
        invariant todo <= infos.Keys
        invariant forall id ::
          Lookup(models, id) == (
            if id in infos && id !in todo
            then Refreshed(Lookup(old(models), id), client, newP, infos[id],
                           Overlap(oldP, CountOf(oldCounts, id), newP, newCounts[id]))
            else Lookup(old(models), id))
        decreases todo
      {
        var id :| id in todo;
        todo := todo - {id};
        if id !in models { continue; }
        var r := RefreshOne(models[id], client, CountOf(oldCounts, id), newCounts[id], oldP, newP, infos[id]);
        models := models[id := r];
      }
    }

    static method RefreshOne(entry: Registration, client: string, oldCount: nat, newCount: nat,
                             oldP: string, newP: string, info: ModelInfo) returns (r: Registration)
      ensures Some(r) == Refreshed(Some(entry), client, newP, info, Overlap(oldP, oldCount, newP, newCount))
    {
      r := entry.(info := info);
      if newP != "" { r := r.(infoByProvider := r.infoByProvider[newP := info]); }
      r := r.(quota := r.quota - {client}, suspended := r.suspended - {client});
      if oldP != newP && newP != "" {
        var overlapCount := newCount;
        if oldCount < overlapCount { overlapCount := oldCount; }
        if overlapCount > 0 {
          var slots := if newP in r.providers then r.providers[newP] else 0;
          r := r.(providers := r.providers[newP := slots + overlapCount]);
        }
      }
    }

    // ---------- registering and unregistering ----------

    /** The usable IDs of a request, the first info for each, and how often each occurs. */
    static method CollectRequest(request: seq<Option<ModelInfo>>)
      returns (raw: seq<string>, infos: map<string, ModelInfo>, counts: map<string, nat>)
      ensures raw == RawIds(request) && infos == FirstInfos(request) && Counts(counts, raw)
    {
      raw, infos, counts := [], map[], map[];
      for i := 0 to |request|
        invariant raw == RawIds(request[..i]) && infos == FirstInfos(request[..i]) && Counts(counts, raw)
      {
        RequestOneMore(request, i);
        if !Usable(request[i]) { continue; }
        var id := request[i].value.id;
        CountsOneMore(counts, raw, id);
        raw := raw + [id];
        counts := counts[id := CountOf(counts, id) + 1];
        if id in infos { continue; }
        infos := infos[id := request[i].value];
      }
      assert request[..|request|] == request;
    }

    static method CountIds(ids: seq<string>) returns (counts: map<string, nat>)
      ensures Counts(counts, ids)
    {
      counts := map[];
      for i := 0 to |ids|
        invariant Counts(counts, ids[..i])
      {
        assert ids[..i + 1] == ids[..i] + [ids[i]];
        CountsOneMore(counts, ids[..i], ids[i]);
        counts := counts[ids[i] := CountOf(counts, ids[i]) + 1];
      }
      assert ids[..|ids|] == ids;
    }

    method UnregisterInternal(client: string)
      requires clientInfos.Keys == clientModels.Keys
      modifies this`models, this`clientModels, this`clientInfos, this`clientProviders
      ensures Bookkeeping() == Unregistered(old(Bookkeeping()), client)
    {
      ghost var s := Bookkeeping();
      var provider := ProviderOf(clientProviders, client);
      if client !in clientModels {
        clientProviders := clientProviders - {client};
        IsDropped(models, s, client);
        assert clientModels == clientModels - {client} && clientInfos == clientInfos - {client};
        return;
      }
      var listed := clientModels[client];
      for i := 0 to |listed|
        modifies this`models
        invariant forall id :: Lookup(models, id) == DroppedSoFar(s, client, provider, listed[..i], id)
      {
        assert listed[..i + 1] == listed[..i] + [listed[i]];
        forall id { DroppedOneMore(s, client, provider, listed[..i], listed[i], id); }
        RemoveModelRegistration(client, listed[i], provider);
      }
      assert listed[..|listed|] == listed;
      IsDropped(models, s, client);
      assert models == Unregistered(s, client).models;
      clientModels, clientInfos := clientModels - {client}, clientInfos - {client};
      clientProviders := clientProviders - {client};
    }

    /** The path of a client that is not registered yet. */
    method RegisterFresh(client: string, provider: string, raw: seq<string>, infos: map<string, ModelInfo>)
      requires client !in clientModels && "" !in raw && forall id :: id in infos <==> id in raw
      modifies this`models
      ensures models == RegisteredModels(old(Bookkeeping()), client, provider, raw, infos)
    {
      ghost var s := Bookkeeping();
      for i := 0 to |raw|
        invariant forall id :: Lookup(models, id) == FreshSoFar(s, provider, infos, raw[..i], id)
      {
        assert raw[..i + 1] == raw[..i] + [raw[i]];
        forall id { FreshOneMore(s, provider, infos, raw[..i], raw[i], id); }
        AddModelRegistration(raw[i], provider, infos[raw[i]]);
      }
      assert raw[..|raw|] == raw;
      IsFresh(models, s, client, provider, raw, infos);
    }

    /** The path of a registered client: the phases, one after the other. */
    method Reconcile(client: string, provider: string, raw: seq<string>, infos: map<string, ModelInfo>,
                     newCounts: map<string, nat>)
      requires Inv(Bookkeeping()) && client in clientModels
      requires "" !in raw && forall id :: id in infos <==> id in raw
      requires Counts(newCounts, raw)
      modifies this`models
      ensures models == RegisteredModels(old(Bookkeeping()), client, provider, raw, infos)
    {
      ghost var s := Bookkeeping();
      var oldProvider := ProviderOf(clientProviders, client);
      var oldCounts := CountIds(clientModels[client]);
      MoveOverlap(oldCounts, newCounts, oldProvider, provider);
      DropExcess(client, oldCounts, newCounts, oldProvider);
      AddSurplus(oldCounts, newCounts, provider, infos);
      RefreshKept(client, oldCounts, newCounts, oldProvider, provider, infos);
      forall id ensures Lookup(models, id) == RegisteredEntry(s, client, provider, raw, infos, id) {
        assert CountOf(newCounts, id) == multiset(raw)[id];
        PhasesReconcile(s, client, provider, raw, infos, id, CountOf(oldCounts, id), CountOf(newCounts, id));
      }
      IsRegistered(models, s, client, provider, raw, infos);
    }

    /** The registration itself, without the cache. */
    method RegisterInternal(client: string, clientProvider: string, request: seq<Option<ModelInfo>>)
      requires Inv(Bookkeeping())
      modifies this`models, this`clientModels, this`clientInfos, this`clientProviders
      ensures Bookkeeping() == Registered(old(Bookkeeping()), client, clientProvider, request)
    {
      var provider := ToLower(clientProvider);
      var raw, infos, newCounts := CollectRequest(request);
      if raw == [] {
        UnregisterInternal(client);
        return;
      }
      if client !in clientModels {
        RegisterFresh(client, provider, raw, infos);
      } else {
        Reconcile(client, provider, raw, infos, newCounts);
      }
      clientModels, clientInfos := clientModels[client := raw], clientInfos[client := infos];
      clientProviders := if provider != "" then clientProviders[client := provider] else clientProviders - {client};
    }

    method RegisterClient(client: string, clientProvider: string, request: seq<Option<ModelInfo>>, ghost now: Time)
      requires Valid()
      modifies this
      ensures Valid() && Step(old(Contents()), Register(client, clientProvider, request), now, Contents())
    {
      ghost var w := Contents();
      RegisterInternal(client, clientProvider, request);
      cache := map[];
      clock := Later(clock, now);
      assert Contents().cache == map[];
      StepKeepsInv(w, Register(client, clientProvider, request), now, Contents());
    }

    method UnregisterClient(client: string, ghost now: Time)
      requires Valid()
      modifies this
      ensures Valid() && Step(old(Contents()), Unregister(client), now, Contents())
    {
      ghost var w := Contents();
      UnregisterInternal(client);
      cache := map[];
      clock := Later(clock, now);
      assert Contents().cache == map[];
      StepKeepsInv(w, Unregister(client), now, Contents());
    }

    // ---------- quota and suspension marks ----------

    method SetModelQuotaExceeded(client: string, id: string, now: Time)
      requires Valid()
      modifies this
      ensures Valid() && Step(old(Contents()), SetQuota(client, id), now, Contents())
    {
      ghost var w := Contents();
      if id in models {
        models := models[id := models[id].(quota := models[id].quota[client := now])];
        cache := map[];
      }
      clock := Later(clock, now);
      StepKeepsInv(w, SetQuota(client, id), now, Contents());
    }

    method ClearModelQuotaExceeded(client: string, id: string, ghost now: Time)
      requires Valid()
      modifies this
      ensures Valid() && Step(old(Contents()), ClearQuota(client, id), now, Contents())
    {
      ghost var w := Contents();
      if id in models {
        models := models[id := models[id].(quota := models[id].quota - {client})];
        cache := map[];
      }
      clock := Later(clock, now);
      StepKeepsInv(w, ClearQuota(client, id), now, Contents());
    }

    method SuspendClientModel(client: string, id: string, reason: string, ghost now: Time)
      requires Valid()
      modifies this
      ensures Valid() && Step(old(Contents()), Suspend(client, id, reason), now, Contents())
    {
      ghost var w := Contents();
      if client != "" && id != "" && id in models && client !in models[id].suspended {
        models := models[id := models[id].(suspended := models[id].suspended[client := reason])];
        cache := map[];
      }
      clock := Later(clock, now);
      StepKeepsInv(w, Suspend(client, id, reason), now, Contents());
    }

    method ResumeClientModel(client: string, id: string, ghost now: Time)
      requires Valid()
      modifies this
      ensures Valid() && Step(old(Contents()), Resume(client, id), now, Contents())
    {
      ghost var w := Contents();
      if client != "" && id != "" && id in models && client in models[id].suspended {
        models := models[id := models[id].(suspended := models[id].suspended - {client})];
        cache := map[];
      }
      clock := Later(clock, now);
      StepKeepsInv(w, Resume(client, id), now, Contents());
    }

    method CleanupExpiredQuotas(now: Time)
      requires Valid()
      modifies this
      ensures Valid() && Step(old(Contents()), Cleanup, now, Contents())
    {
      ghost var w := Contents();
      var invalidated := SweepModels(now);
      if invalidated { cache := map[]; }
      clock := Later(clock, now);
      StepKeepsInv(w, Cleanup, now, Contents());
    }

    /** Remove the expired marks of every model; reports whether there were any. */
    method SweepModels(now: Time) returns (invalidated: bool)
      modifies this`models
      ensures models == CleanedUp(old(Bookkeeping()), now).models
      ensures invalidated <==> models != old(models)
    {
      invalidated := false;
      ghost var before := models;
      var todo := models.Keys;
      while todo != {}
        invariant todo <= before.Keys && models == SweptBut(before, todo, now)
        invariant invalidated <==> models != before
        decreases todo
      {
        var id :| id in todo;
        SweptOneMore(before, todo, now, id);
        todo := todo - {id};
        var live := SweepQuota(models[id], now);
        if live != models[id].quota { invalidated := true; }
        models := models[id := models[id].(quota := live)];
      }
    }

    /** The quota marks left after removing the expired ones. */
    static method SweepQuota(r: Registration, now: Time) returns (quota: map<string, Time>)
      ensures quota == LiveQuota(r, now)
    {
      quota := r.quota;
      var todo := quota.Keys;
      while todo != {}
        invariant todo <= quota.Keys <= r.quota.Keys
        invariant forall c :: c in quota ==> quota[c] == r.quota[c]
        invariant forall c :: c in r.quota && c !in todo ==> (c in quota <==> c in InWindow(r, now))
        decreases todo
      {
        var c :| c in todo;
        todo := todo - {c};
        if now - quota[c] >= QUOTA_WINDOW { quota := quota - {c}; }
      }
    }

    // ---------- answers ----------

    /** The running quota windows of one registration, and the earliest end seen so far. */
    static method ScanQuota(r: Registration, now: Time, expiresAt: Option<Time>, ghost seen: set<Time>)
      returns (expired: nat, earliest: Option<Time>)
      requires Earliest(seen, expiresAt)
      ensures expired == |InWindow(r, now)|
      ensures Earliest(seen + Recoveries(r, now), earliest)
    {
      expired, earliest := 0, expiresAt;
      var todo := r.quota.Keys;
      ghost var counted: set<string> := {};
      while todo != {}
        invariant todo <= r.quota.Keys
        invariant forall c :: c in counted <==> c in r.quota && c !in todo && now < r.quota[c] + QUOTA_WINDOW
        invariant expired == |counted|
        invariant forall t :: t in seen ==> earliest.Some? && earliest.value <= t
        invariant forall c :: c in counted ==> earliest.Some? && earliest.value <= r.quota[c] + QUOTA_WINDOW
        invariant earliest.Some? ==>
                    earliest.value in seen || exists c :: c in counted && r.quota[c] + QUOTA_WINDOW == earliest.value
        decreases todo
      {
        var c :| c in todo;
        todo := todo - {c};
        var recoveryAt := r.quota[c] + QUOTA_WINDOW;
        if now < recoveryAt {
          expired := expired + 1;
          counted := counted + {c};
          if earliest.None? || recoveryAt < earliest.value { earliest := Some(recoveryAt); }
        }
      }
      assert counted == InWindow(r, now);
    }

    static method CountSuspended(r: Registration) returns (cooling: nat, other: nat)
      ensures cooling == |Cooling(r)| && other == |OtherSuspended(r)|
    {
      cooling, other := 0, 0;
      var todo := r.suspended.Keys;
      ghost var coolingSeen: set<string>, otherSeen: set<string> := {}, {};
      while todo != {}
        invariant todo <= r.suspended.Keys
        invariant forall c :: c in coolingSeen <==> c in r.suspended && c !in todo && IsCooldown(r.suspended[c])
        invariant forall c :: c in otherSeen <==> c in r.suspended && c !in todo && !IsCooldown(r.suspended[c])
        invariant cooling == |coolingSeen| && other == |otherSeen|
        decreases todo
      {
        var c :| c in todo;
        todo := todo - {c};
        if EqualFold(r.suspended[c], "quota") {
          coolingSeen := coolingSeen + {c};
          cooling := cooling + 1;
        } else {
          otherSeen := otherSeen + {c};
          other := other + 1;
        }
      }
      assert coolingSeen == Cooling(r) && otherSeen == OtherSuspended(r);
    }

    /** Whether one registration is listed, and the earliest recovery with its own. */
    static method DecideListing(r: Registration, now: Time, expiresAt: Option<Time>, ghost seen: set<Time>)
      returns (listed: bool, earliest: Option<Time>)
      requires Earliest(seen, expiresAt)
      ensures listed <==> Available(r, now)
      ensures Earliest(seen + Recoveries(r, now), earliest)
    {
      var expired: nat;
      expired, earliest := ScanQuota(r, now, expiresAt, seen);
      var cooling, other := CountSuspended(r);
      var effective := r.count - expired - other;
      if effective < 0 { effective := 0; }
      listed := effective > 0 || (r.count > 0 && (expired > 0 || cooling > 0) && other == 0);
    }

    method BuildAvailableModels(now: Time) returns (infos: seq<ModelInfo>, expiresAt: Option<Time>)
      requires Inv(Bookkeeping())
      ensures SetOf(infos) == Listed(models, now) && DistinctIds(infos)
      ensures EarliestRecovery(models, now, expiresAt)
    {
      infos, expiresAt := [], None;
      var todo := models.Keys;
      while todo != {}
        invariant todo <= models.Keys
        invariant forall info :: info in infos ==> info.id in models && info.id !in todo
                                                   && models[info.id].info == info && Available(models[info.id], now)
        invariant forall id :: id in models && id !in todo && Available(models[id], now) ==> models[id].info in infos
        invariant DistinctIds(infos)
        invariant Earliest(AllRecoveries(models, models.Keys - todo, now), expiresAt)
        decreases todo
      {
        var id :| id in todo;
        var r := models[id];
        ghost var seen := AllRecoveries(models, models.Keys - todo, now);
        assert AllRecoveries(models, models.Keys - (todo - {id}), now) == seen + Recoveries(r, now);
        todo := todo - {id};
        var listed: bool;
        listed, expiresAt := DecideListing(r, now, expiresAt, seen);
        assert r.info.id == id by { assert ExactEntry(Bookkeeping(), id); }
        if listed { infos := infos + [r.info]; }
      }
      assert models.Keys - {} == models.Keys;
      forall info | info in Listed(models, now) ensures info in infos {
        assert exists id :: id in models && Available(models[id], now) && models[id].info == info;
      }
    }

    /** A live stored list if there is one; otherwise a rebuilt list, stored with its expiry. `now` is read
        before the mutex is taken and may be overtaken; `at` is the instant whose list this is. */
    method GetAvailableModels(handler: string, now: Time) returns (infos: seq<ModelInfo>, ghost at: Time)
      requires Valid()
      modifies this
      ensures Valid() && Step(old(Contents()), GetAvailable(handler), now, Contents())
      ensures Bookkeeping() == old(Bookkeeping())
      ensures SetOf(infos) == Listed(models, at) && DistinctIds(infos)
      ensures now <= at <= Later(old(clock), now) && (old(clock) <= now ==> at == now)
    {
      ghost var w := Contents();
      at := ServedIsFresh(w, handler, now);
      if handler in cache && (cache[handler].expiresAt.None? || now < cache[handler].expiresAt.value) {
        infos := cache[handler].models;
        assert SetOf(infos) == Served(w, handler, now);
      } else {
        var expiresAt: Option<Time>;
        infos, expiresAt := BuildAvailableModels(now);
        cache := cache[handler := CacheEntry(infos, expiresAt)];
        assert Contents().cache == w.cache[handler := Snapshot(Listed(models, now), expiresAt)];
      }
      clock := Later(clock, now);
      StepKeepsInv(w, GetAvailable(handler), now, Contents());
    }

    method GetModelCount(id: string, now: Time) returns (n: nat)
      ensures n == ModelCount(Bookkeeping(), id, now)
    {
      if id !in models { return 0; }
      var r := models[id];
      var expired, _ := ScanQuota(r, now, None, {});
      var result := r.count - expired - |r.suspended|;
      return if result < 0 then 0 else result;
    }

    /** The first listed model with usable clients, in some order of the list. A Gemini-style
        listing carries no "id" and so never yields one. */
    method GetFirstAvailableModel(handler: string, now: Time) returns (found: Option<string>)
      requires Valid() && clock <= now
      modifies this
      ensures Valid() && Bookkeeping() == old(Bookkeeping())
      ensures found.Some? ==> ModelCount(Bookkeeping(), found.value, now) > 0
      ensures found.None? <==> handler == "gemini" || forall id :: id in models ==>
                ModelCount(Bookkeeping(), id, now) == 0
    {
      var infos, _ := GetAvailableModels(handler, now);
      SomethingUsableIsListed(Bookkeeping(), infos, now);
      found := FirstUsable(infos, handler, now);
    }

    method FirstUsable(infos: seq<ModelInfo>, handler: string, now: Time) returns (found: Option<string>)
      ensures found.Some? ==>
                && handler != "gemini"
                && exists info :: info in infos && info.id == found.value && ModelCount(Bookkeeping(), info.id, now) > 0
      ensures found.None? ==> handler == "gemini" || forall info :: info in infos ==>
                ModelCount(Bookkeeping(), info.id, now) == 0
    {
      for i := 0 to |infos|
        invariant handler == "gemini" || forall info :: info in infos[..i] ==>
                    ModelCount(Bookkeeping(), info.id, now) == 0
      {
        assert infos[..i + 1] == infos[..i] + [infos[i]];
        if handler != "gemini" {
          var count := GetModelCount(infos[i].id, now);
          if count > 0 { return Some(infos[i].id); }
        }
      }
      assert infos[..|infos|] == infos;
      return None;
    }
  }
}
