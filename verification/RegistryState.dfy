/** The model registry as values: what one registration holds, and the closed
    form of what registering and unregistering a client does to each of them. */
module RegistryState {
  import opened Common

  /** Nanoseconds. */
  type Time = int

  /** A model's metadata: its ID, and everything else as one opaque value. */
  datatype ModelInfo = ModelInfo(id: string, detail: string)

  datatype Registration = Registration(
    info: ModelInfo,
    infoByProvider: map<string, ModelInfo>,
    count: int,
    providers: map<string, int>,
    quota: map<string, Time>,
    suspended: map<string, string>)

  datatype State = State(
    models: map<string, Registration>,
    clientModels: map<string, seq<string>>,
    clientInfos: map<string, map<string, ModelInfo>>,
    clientProviders: map<string, string>)

  const EMPTY := State(map[], map[], map[], map[])

  function Lookup(models: map<string, Registration>, id: string): Option<Registration> {
    if id in models then Some(models[id]) else None
  }

  function ProviderOf(clientProviders: map<string, string>, client: string): string {
    if client in clientProviders then clientProviders[client] else ""
  }

  function Multiplicity(clientModels: map<string, seq<string>>, client: string, id: string): nat {
    if client in clientModels then multiset(clientModels[client])[id] else 0
  }

  // ---------- provider counters ----------

  /** Take `n` slots of `provider` off the counters; an exhausted provider disappears. */
  function Debit(providers: map<string, int>, provider: string, n: nat): map<string, int> {
    if provider == "" || n == 0 || provider !in providers then providers
    else if providers[provider] <= n then providers - {provider}
    else providers[provider := providers[provider] - n]
  }

  /** The per-provider infos that survive the same debit. */
  function DebitInfos(r: Registration, provider: string, n: nat): map<string, ModelInfo> {
    if provider in r.providers && provider !in Debit(r.providers, provider, n)
    then r.infoByProvider - {provider}
    else r.infoByProvider
  }

  function DebitProvider(r: Registration, provider: string, n: nat): Registration {
    r.(providers := Debit(r.providers, provider, n), infoByProvider := DebitInfos(r, provider, n))
  }

  function Credit(providers: map<string, int>, provider: string, n: nat): map<string, int> {
    if provider == "" || n == 0 then providers
    else providers[provider := (if provider in providers then providers[provider] else 0) + n]
  }

  function WithInfo(infos: map<string, ModelInfo>, provider: string, info: ModelInfo): map<string, ModelInfo> {
    if provider == "" then infos else infos[provider := info]
  }

  function Unmarked(r: Registration, client: string): Registration {
    r.(quota := r.quota - {client}, suspended := r.suspended - {client})
  }

  function Blank(info: ModelInfo): Registration {
    Registration(info, map[], 0, map[], map[], map[])
  }

  // ---------- what happens to one model's registration ----------

  /** `n` slots of a model that the client did not hold before. */
  function FreshEntry(o: Option<Registration>, provider: string, n: nat, info: ModelInfo): Option<Registration> {
    if n == 0 then o else
    var r := if o.Some? then o.value else Blank(info);
    Some(r.(info := info,
            count := r.count + n,
            providers := Credit(r.providers, provider, n),
            infoByProvider := WithInfo(r.infoByProvider, provider, info)))
  }

  /** `n` slots given up by a client, with its quota and suspension marks. */
  function DropEntry(o: Option<Registration>, client: string, provider: string, n: nat): Option<Registration> {
    if n == 0 || o.None? || o.value.count <= n then (if n == 0 then o else None)
    else Some(Unmarked(DebitProvider(o.value, provider, n).(count := o.value.count - n), client))
  }

  /** `oldN` slots under `oldProvider` replaced by `newN` slots under `newProvider`. */
  function RebindEntry(o: Option<Registration>, client: string, oldProvider: string, oldN: nat,
                       newProvider: string, newN: nat, info: ModelInfo): Option<Registration>
  {
    if newN == 0 then DropEntry(o, client, oldProvider, oldN) else
    var r := if o.Some? then o.value else Blank(info);
    Some(Unmarked(Registration(
      info,
      WithInfo(DebitInfos(r, oldProvider, oldN), newProvider, info),
      r.count - oldN + newN,
      Credit(Debit(r.providers, oldProvider, oldN), newProvider, newN),
      r.quota, r.suspended), client))
  }

  // ---------- the registration request ----------

  predicate Usable(entry: Option<ModelInfo>) {
    entry.Some? && entry.value.id != ""
  }

  /** The usable IDs of a request, in order and with repetitions. */
  function RawIds(request: seq<Option<ModelInfo>>): (ids: seq<string>)
    ensures "" !in ids
  {
    if request == [] then [] else
    var n := |request| - 1;
    RawIds(request[..n]) + if Usable(request[n]) then [request[n].value.id] else []
  }

  /** The first info given for each usable ID. */
  function FirstInfos(request: seq<Option<ModelInfo>>): (infos: map<string, ModelInfo>)
    ensures forall id :: id in infos ==> infos[id].id == id && id != ""
    ensures forall id :: id in infos <==> id in RawIds(request)
  {
    if request == [] then map[] else
    var n := |request| - 1;
    var infos := FirstInfos(request[..n]);
    if Usable(request[n]) && request[n].value.id !in infos then infos[request[n].value.id := request[n].value]
        else infos
  }

  function Ids(raw: seq<string>): set<string> {
    set id | id in raw
  }

  // ---------- whole operations ----------

  function SetProvider(clientProviders: map<string, string>, client: string, provider: string): map<string, string> {
    if provider == "" then clientProviders - {client} else clientProviders[client := provider]
  }

  /** The models after `client` gives up everything it lists. */
  function DroppedModels(s: State, client: string): map<string, Registration> {
    map id | id in s.models
             && DropEntry(Some(s.models[id]), client, ProviderOf(s.clientProviders, client),
                          Multiplicity(s.clientModels, client, id)).Some?
          :: DropEntry(Some(s.models[id]), client, ProviderOf(s.clientProviders, client),
                       Multiplicity(s.clientModels, client, id)).value
  }

  function Unregistered(s: State, client: string): State {
    State(DroppedModels(s, client),
          s.clientModels - {client}, s.clientInfos - {client}, s.clientProviders - {client})
  }

  /** What a registration request makes of one model's entry. */
  function RegisteredEntry(s: State, client: string, provider: string,
                           raw: seq<string>, infos: map<string, ModelInfo>, id: string): Option<Registration>
    requires forall i :: i in infos <==> i in raw
  {
    if client !in s.clientModels then
      if id in infos then FreshEntry(Lookup(s.models, id), provider, multiset(raw)[id], infos[id])
      else Lookup(s.models, id)
    else if id in infos then
      RebindEntry(Lookup(s.models, id), client,
                  ProviderOf(s.clientProviders, client), Multiplicity(s.clientModels, client, id),
                  provider, multiset(raw)[id], infos[id])
    else
      DropEntry(Lookup(s.models, id), client,
                ProviderOf(s.clientProviders, client), Multiplicity(s.clientModels, client, id))
  }

  function RegisteredModels(s: State, client: string, provider: string,
                            raw: seq<string>, infos: map<string, ModelInfo>): map<string, Registration>
    requires forall i :: i in infos <==> i in raw
  {
    map id | id in s.models.Keys + infos.Keys && RegisteredEntry(s, client, provider, raw, infos, id).Some?
          :: RegisteredEntry(s, client, provider, raw, infos, id).value
  }

  function Registered(s: State, client: string, clientProvider: string, request: seq<Option<ModelInfo>>): State {
    var provider, raw, infos := ToLower(clientProvider), RawIds(request), FirstInfos(request);
    if raw == [] then Unregistered(s, client)
    else State(RegisteredModels(s, client, provider, raw, infos),
               s.clientModels[client := raw], s.clientInfos[client := infos],
               SetProvider(s.clientProviders, client, provider))
  }
}
