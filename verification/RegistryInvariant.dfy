/** Reference counts are exact: what ties the registrations to the clients'
    own lists, and that every operation keeps it. */
module RegistryInvariant {
  import opened Common
  import opened RegistryState

  // ---------- counting slots over all clients ----------

  /** The slots of model `id` held by `client`, under `provider` when one is named. */
  ghost function Weight(s: State, id: string, provider: Option<string>, client: string): nat {
    if provider.None? || ProviderOf(s.clientProviders, client) == provider.value
    then Multiplicity(s.clientModels, client, id)
    else 0
  }

  ghost function Slots(s: State, id: string, provider: Option<string>, clients: set<string>): nat {
    if clients == {} then 0
    else var c :| c in clients; Weight(s, id, provider, c) + Slots(s, id, provider, clients - {c})
  }

  ghost function Total(s: State, id: string): nat {
    Slots(s, id, None, s.clientModels.Keys)
  }

  ghost function TotalBy(s: State, id: string, provider: string): nat {
    Slots(s, id, Some(provider), s.clientModels.Keys)
  }

  lemma {:induction false} SlotsSplit(s: State, id: string, provider: Option<string>, clients: set<string>, c: string)
    requires c in clients
    ensures Slots(s, id, provider, clients) == Weight(s, id, provider, c) + Slots(s, id, provider, clients - {c})
    decreases clients
  {
    var d :| d in clients
      && Slots(s, id, provider, clients) == Weight(s, id, provider, d) + Slots(s, id, provider, clients - {d});
    if d != c {
      SlotsSplit(s, id, provider, clients - {d}, c);
      SlotsSplit(s, id, provider, clients - {c}, d);
      assert clients - {d} - {c} == clients - {c} - {d};
    }
  }

  lemma {:induction false} SlotsAgree(s: State, t: State, id: string, provider: Option<string>, clients: set<string>)
    requires forall c :: c in clients ==> Weight(s, id, provider, c) == Weight(t, id, provider, c)
    ensures Slots(s, id, provider, clients) == Slots(t, id, provider, clients)
    decreases clients
  {
    if clients != {} {
      var d :| d in clients;
      SlotsSplit(s, id, provider, clients, d);
      SlotsSplit(t, id, provider, clients, d);
      SlotsAgree(s, t, id, provider, clients - {d});
    }
  }

  /** Changing one client's list and provider moves each total by that client's weight. */
  lemma SlotsShift(s: State, t: State, id: string, provider: Option<string>, client: string)
    requires t.clientModels.Keys - {client} == s.clientModels.Keys - {client}
    requires forall c :: c in s.clientModels && c != client ==>
               Weight(s, id, provider, c) == Weight(t, id, provider, c)
    ensures Slots(t, id, provider, t.clientModels.Keys) + Weight(s, id, provider, client)
         == Slots(s, id, provider, s.clientModels.Keys) + Weight(t, id, provider, client)
  {
    var rest := s.clientModels.Keys - {client};
    SlotsAgree(s, t, id, provider, rest);
    if client in s.clientModels { SlotsSplit(s, id, provider, s.clientModels.Keys, client); }
    else { assert rest == s.clientModels.Keys; }
    if client in t.clientModels { SlotsSplit(t, id, provider, t.clientModels.Keys, client); }
    else { assert rest == t.clientModels.Keys; }
  }

  lemma {:induction false} SlotsPositive(s: State, id: string, clients: set<string>)
    ensures Slots(s, id, None, clients) > 0 <==> exists c :: c in clients && Multiplicity(s.clientModels, c, id) > 0
    decreases clients
  {
    if clients != {} {
      var d :| d in clients;
      SlotsSplit(s, id, None, clients, d);
      SlotsPositive(s, id, clients - {d});
    }
  }

  // ---------- the invariant ----------

  function At(providers: map<string, int>, provider: string): int {
    if provider in providers then providers[provider] else 0
  }

  ghost predicate NoIdleProvider(providers: map<string, int>) {
    "" !in providers && forall p :: p in providers ==> providers[p] > 0
  }

  ghost function Shares(s: State, id: string): string -> int {
    (p: string) => TotalBy(s, id, p)
  }

  /** An entry agrees with a total number of slots and the number by provider. */
  ghost predicate Matches(o: Option<Registration>, id: string, total: int, share: string -> int) {
    && (o.Some? <==> total > 0)
    && (o.Some? ==>
          && o.value.info.id == id
          && o.value.count == total
          && o.value.infoByProvider.Keys == o.value.providers.Keys
          && NoIdleProvider(o.value.providers)
          && (forall p :: p != "" ==> At(o.value.providers, p) == share(p)))
  }

  /** One registration agrees with the clients' lists. */
  ghost predicate ExactEntry(s: State, id: string) {
    Matches(Lookup(s.models, id), id, Total(s, id), Shares(s, id))
  }

  /** The client maps agree with each other. */
  ghost predicate ClientsConsistent(s: State) {
    && s.clientInfos.Keys == s.clientModels.Keys
    && s.clientProviders.Keys <= s.clientModels.Keys
    && (forall c :: c in s.clientProviders ==> s.clientProviders[c] != "")
    && (forall c :: c in s.clientModels ==>
          && s.clientModels[c] != []
          && "" !in s.clientModels[c]
          && s.clientInfos[c].Keys == Ids(s.clientModels[c]))
    && (forall c, id :: c in s.clientInfos && id in s.clientInfos[c] ==> s.clientInfos[c][id].id == id)
  }

  ghost predicate Inv(s: State) {
    ClientsConsistent(s) && forall id :: ExactEntry(s, id)
  }

  lemma EmptyIsExact()
    ensures Inv(EMPTY)
  {
    forall id ensures ExactEntry(EMPTY, id) {}
  }

  /** What exactness says about the entry of a model that a client lists. */
  lemma ClientShare(s: State, client: string, id: string)
    requires ExactEntry(s, id)
    ensures var n := Multiplicity(s.clientModels, client, id);
            var p := ProviderOf(s.clientProviders, client);
            && n <= Total(s, id)
            && (p != "" ==> n <= TotalBy(s, id, p))
            && (n > 0 ==>
                  && id in s.models && n <= s.models[id].count
                  && (p != "" ==> n <= At(s.models[id].providers, p)))
  {
    if client in s.clientModels {
      SlotsSplit(s, id, None, s.clientModels.Keys, client);
      SlotsSplit(s, id, Some(ProviderOf(s.clientProviders, client)), s.clientModels.Keys, client);
    }
  }

  /** Moving a client's slots between providers shifts exactly the counters of the two providers. */
  lemma MovedCounters(providers: map<string, int>, oldP: string, oldN: nat, newP: string, newN: nat)
    requires NoIdleProvider(providers)
    requires oldP != "" ==> oldN <= At(providers, oldP)
    ensures var moved := Credit(Debit(providers, oldP, oldN), newP, newN);
            && NoIdleProvider(moved)
            && forall p :: p != "" ==>
                 At(moved, p) == At(providers, p) - (if p == oldP then oldN else 0) + (if p == newP then newN else 0)
  {}

  /** Some provider's slots never exceed all slots. */
  lemma {:induction false} ProviderWithinTotal(s: State, id: string, provider: string, clients: set<string>)
    ensures Slots(s, id, Some(provider), clients) <= Slots(s, id, None, clients)
    decreases clients
  {
    if clients != {} {
      var d :| d in clients;
      SlotsSplit(s, id, Some(provider), clients, d);
      SlotsSplit(s, id, None, clients, d);
      ProviderWithinTotal(s, id, provider, clients - {d});
    }
  }

  /** `t` differs from `s` in the list and provider of `client` alone. */
  ghost predicate OnlyClientChanged(s: State, t: State, client: string) {
    && t.clientModels.Keys - {client} == s.clientModels.Keys - {client}
    && forall c :: c in s.clientModels && c != client ==>
         && c in t.clientModels && t.clientModels[c] == s.clientModels[c]
         && ProviderOf(s.clientProviders, c) == ProviderOf(t.clientProviders, c)
  }

  /** `share2` is `share1` with one client's slots moved from `oldP` to `newP`. */
  ghost predicate Moved(share1: string -> int, share2: string -> int, oldP: string, oldN: nat, newP: string,
                        newN: nat) {
    forall p: string :: p != "" ==>
             share2(p) == share1(p) - (if p == oldP then oldN else 0) + (if p == newP then newN else 0)
  }

  lemma TotalsShift(s: State, t: State, client: string, id: string)
    requires OnlyClientChanged(s, t, client)
    ensures var oldN, newN := Multiplicity(s.clientModels, client, id), Multiplicity(t.clientModels, client, id);
            && Total(t, id) == Total(s, id) - oldN + newN
            && Moved(Shares(s, id), Shares(t, id), ProviderOf(s.clientProviders, client), oldN,
                     ProviderOf(t.clientProviders, client), newN)
  {
    assert forall c :: c in s.clientModels && c != client ==>
      Multiplicity(s.clientModels, c, id) == Multiplicity(t.clientModels, c, id);
    SlotsShift(s, t, id, None, client);
    forall p: string | p != ""
      ensures TotalBy(t, id, p) + Weight(s, id, Some(p), client) == TotalBy(s, id, p) + Weight(t, id, Some(p), client)
    {
      SlotsShift(s, t, id, Some(p), client);
    }
  }

  lemma AbsentHasNoShares(s: State, id: string)
    requires Total(s, id) == 0
    ensures forall p: string :: Shares(s, id)(p) == 0
  {
    forall p: string ensures TotalBy(s, id, p) == 0 { ProviderWithinTotal(s, id, p, s.clientModels.Keys); }
  }

  lemma DropMatches(o: Option<Registration>, id: string, total: int, share1: string -> int, share2: string -> int,
                    client: string, oldP: string, oldN: nat)
    requires Matches(o, id, total, share1) && oldN <= total
    requires oldP != "" ==> oldN <= share1(oldP)
    requires Moved(share1, share2, oldP, oldN, "", 0)
    ensures Matches(DropEntry(o, client, oldP, oldN), id, total - oldN, share2)
  {
    if o.Some? { MovedCounters(o.value.providers, oldP, oldN, "", 0); }
  }

  lemma RebindMatches(o: Option<Registration>, id: string, total: int, share1: string -> int, share2: string -> int,
                      client: string, oldP: string, oldN: nat, newP: string, newN: nat, info: ModelInfo)
    requires Matches(o, id, total, share1) && oldN <= total && info.id == id && newN > 0
    requires oldP != "" ==> oldN <= share1(oldP)
    requires o.None? ==> total == 0 && forall p: string :: share1(p) == 0
    requires Moved(share1, share2, oldP, oldN, newP, newN)
    ensures Matches(RebindEntry(o, client, oldP, oldN, newP, newN, info), id, total - oldN + newN, share2)
  {
    MovedCounters(if o.Some? then o.value.providers else map[], oldP, oldN, newP, newN);
  }

  lemma FreshMatches(o: Option<Registration>, id: string, total: int, share1: string -> int, share2: string -> int,
                     newP: string, newN: nat, info: ModelInfo)
    requires Matches(o, id, total, share1) && info.id == id
    requires o.None? ==> total == 0 && forall p: string :: share1(p) == 0
    requires Moved(share1, share2, "", 0, newP, newN)
    ensures Matches(FreshEntry(o, newP, newN, info), id, total + newN, share2)
  {
    MovedCounters(if o.Some? then o.value.providers else map[], "", 0, newP, newN);
  }

  /** If an entry is the old one with `client`'s old slots replaced by its new ones, it is exact again. */
  lemma RebindExact(s: State, t: State, client: string, id: string, info: ModelInfo,
                    oldP: string, oldN: nat, newP: string, newN: nat)
    requires ExactEntry(s, id) && OnlyClientChanged(s, t, client) && info.id == id
    requires oldP == ProviderOf(s.clientProviders, client) && oldN == Multiplicity(s.clientModels, client, id)
    requires newP == ProviderOf(t.clientProviders, client) && newN == Multiplicity(t.clientModels, client, id)
    requires || Lookup(t.models, id) == RebindEntry(Lookup(s.models, id), client, oldP, oldN, newP, newN, info)
             || (oldN == 0 && Lookup(t.models, id) == FreshEntry(Lookup(s.models, id), newP, newN, info))
    ensures ExactEntry(t, id)
  {
    var o, total := Lookup(s.models, id), Total(s, id);
    ClientShare(s, client, id);
    TotalsShift(s, t, client, id);
    if total == 0 { AbsentHasNoShares(s, id); }
    if newN == 0 {
      DropMatches(o, id, total, Shares(s, id), Shares(t, id), client, oldP, oldN);
    } else if Lookup(t.models, id) == RebindEntry(o, client, oldP, oldN, newP, newN, info) {
      RebindMatches(o, id, total, Shares(s, id), Shares(t, id), client, oldP, oldN, newP, newN, info);
    } else {
      FreshMatches(o, id, total, Shares(s, id), Shares(t, id), newP, newN, info);
    }
  }

  lemma RegisteredLookup(s: State, client: string, provider: string, raw: seq<string>, infos: map<string, ModelInfo>,
                         id: string)
    requires forall i :: i in infos <==> i in raw
    ensures Lookup(RegisteredModels(s, client, provider, raw, infos), id) ==
              RegisteredEntry(s, client, provider, raw, infos, id)
  {}

  lemma UnregisteredKeepsExact(s: State, client: string)
    requires Inv(s)
    ensures Inv(Unregistered(s, client))
  {
    forall id ensures ExactEntry(Unregistered(s, client), id) {
      assert ExactEntry(s, id);
      UnregisteredEntryExact(s, client, id);
    }
  }

  lemma UnregisteredEntryExact(s: State, client: string, id: string)
    requires ExactEntry(s, id)
    ensures ExactEntry(Unregistered(s, client), id)
  {
    UnregisteredParts(s, client, id);
    RebindExact(s, Unregistered(s, client), client, id, ModelInfo(id, ""),
                ProviderOf(s.clientProviders, client), Multiplicity(s.clientModels, client, id), "", 0);
  }

  lemma UnregisteredParts(s: State, client: string, id: string)
    ensures var t := Unregistered(s, client);
            && OnlyClientChanged(s, t, client)
            && ProviderOf(t.clientProviders, client) == "" && Multiplicity(t.clientModels, client, id) == 0
            && Lookup(t.models, id) == DropEntry(Lookup(s.models, id), client, ProviderOf(s.clientProviders, client),
                                                 Multiplicity(s.clientModels, client, id))
  {}

  lemma RegisteredParts(s: State, client: string, clientProvider: string, request: seq<Option<ModelInfo>>)
    requires RawIds(request) != []
    ensures var t := Registered(s, client, clientProvider, request);
            && OnlyClientChanged(s, t, client)
            && ProviderOf(t.clientProviders, client) == ToLower(clientProvider)
            && t.clientModels[client] == RawIds(request)
  {}

  lemma RegisteredEntryExact(s: State, t: State, client: string, clientProvider: string,
                             request: seq<Option<ModelInfo>>, id: string)
    requires Inv(s) && RawIds(request) != [] && t == Registered(s, client, clientProvider, request)
    ensures ExactEntry(t, id)
  {
    var provider, raw, infos := ToLower(clientProvider), RawIds(request), FirstInfos(request);
    RegisteredParts(s, client, clientProvider, request);
    RegisteredLookup(s, client, provider, raw, infos, id);
    assert ExactEntry(s, id);
    RebindExact(s, t, client, id, if id in infos then infos[id] else ModelInfo(id, ""),
                ProviderOf(s.clientProviders, client), Multiplicity(s.clientModels, client, id),
                provider, multiset(raw)[id]);
  }

  lemma RegisteredKeepsExact(s: State, client: string, clientProvider: string, request: seq<Option<ModelInfo>>)
    requires Inv(s)
    ensures Inv(Registered(s, client, clientProvider, request))
  {
    var t := Registered(s, client, clientProvider, request);
    if RawIds(request) == [] {
      UnregisteredKeepsExact(s, client);
    } else {
      forall id ensures ExactEntry(t, id) {
        RegisteredEntryExact(s, t, client, clientProvider, request, id);
      }
    }
  }
}
