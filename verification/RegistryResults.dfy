/** Results about the registry that relate several operations. */
module RegistryResults {
  import opened Common
  import opened RegistryState
  import opened RegistryInvariant
  import opened RegistryRuns

  // ---------- reconciling against unregistering and registering afresh ----------

  function Marks(r: Registration): set<string> {
    r.quota.Keys + r.suspended.Keys
  }

  /** Every quota or suspension mark names a client that lists the model. */
  ghost predicate MarksNameProviders(s: State) {
    forall id, c :: id in s.models && c in Marks(s.models[id]) ==> Multiplicity(s.clientModels, c, id) > 0
  }

  /** For each requested model: if the client is its only holder then nobody else is marked
      on it, and if the client does not hold it yet then it is not marked on it either. */
  predicate MarksSettled(s: State, client: string, raw: seq<string>) {
    forall id :: id in raw && id in s.models ==>
      var n := Multiplicity(s.clientModels, client, id);
      && (n > 0 && s.models[id].count == n ==> Marks(s.models[id]) <= {client})
      && (n == 0 ==> client !in Marks(s.models[id]))
  }

  /** The same, for one entry. */
  predicate EntrySettled(o: Option<Registration>, client: string, n: nat) {
    o.Some? ==>
      && (n > 0 && o.value.count == n ==> Marks(o.value) <= {client})
      && (n == 0 ==> client !in Marks(o.value))
  }

  /** On one entry: moving slots in place equals dropping them and adding them afresh,
      exactly when the entry's marks are settled. */
  lemma RebindIsDropThenFresh(o: Option<Registration>, id: string, total: int, share: string -> int,
                              client: string, oldP: string, oldN: nat, newP: string, newN: nat, info: ModelInfo)
    requires Matches(o, id, total, share) && oldN <= total && newN > 0
    requires oldP != "" ==> oldN <= share(oldP)
    requires o.Some? && o.value.count == oldN ==> forall p :: p in o.value.providers ==> p == oldP && share(p) == oldN
    ensures RebindEntry(o, client, oldP, oldN, newP, newN, info) ==
              FreshEntry(DropEntry(o, client, oldP, oldN), newP, newN, info)
            <==> EntrySettled(o, client, oldN)
  {
    var dropped := DropEntry(o, client, oldP, oldN);
    var rebound := RebindEntry(o, client, oldP, oldN, newP, newN, info).value;
    var anew := FreshEntry(dropped, newP, newN, info).value;
    if o.None? {
      assert rebound.quota == map[] && rebound.suspended == map[];
    } else {
      var r := o.value;
      if oldN == 0 {
        assert client !in r.quota <==> rebound.quota == anew.quota;
        assert client !in r.suspended <==> rebound.suspended == anew.suspended;
      } else if r.count == oldN {
        assert forall p :: p in r.providers ==> p == oldP && At(r.providers, p) == oldN;
        assert r.providers.Keys <= {oldP};
        assert Debit(r.providers, oldP, oldN) == map[];
        assert DebitInfos(r, oldP, oldN).Keys == {};
        assert DebitInfos(r, oldP, oldN) == map[];
        assert r.quota.Keys <= {client} <==> rebound.quota == anew.quota;
        assert r.suspended.Keys <= {client} <==> rebound.suspended == anew.suspended;
      }
      assert rebound == anew.(quota := rebound.quota, suspended := rebound.suspended);
    }
  }

  /** A sole holder's provider is the only provider. */
  lemma SoleHolder(s: State, client: string, id: string, p: string)
    requires ExactEntry(s, id) && id in s.models && client in s.clientModels
    requires s.models[id].count == Multiplicity(s.clientModels, client, id)
    requires p in s.models[id].providers
    ensures p == ProviderOf(s.clientProviders, client) && TotalBy(s, id, p) == s.models[id].count
  {
    var clients := s.clientModels.Keys;
    SlotsSplit(s, id, None, clients, client);
    SlotsSplit(s, id, Some(p), clients, client);
    ProviderWithinTotal(s, id, p, clients - {client});
    assert At(s.models[id].providers, p) == TotalBy(s, id, p);
  }

  lemma ReconciledEntry(s: State, client: string, provider: string, raw: seq<string>, infos: map<string, ModelInfo>,
                        id: string)
    requires Inv(s) && client in s.clientModels
    requires forall i :: i in infos <==> i in raw
    ensures id in raw ==>
      (RegisteredEntry(s, client, provider, raw, infos, id) ==
         RegisteredEntry(Unregistered(s, client), client, provider, raw, infos, id)
       <==> EntrySettled(Lookup(s.models, id), client, Multiplicity(s.clientModels, client, id)))
    ensures id !in raw ==>
      RegisteredEntry(s, client, provider, raw, infos, id) ==
          RegisteredEntry(Unregistered(s, client), client, provider, raw, infos, id)
  {
    var o, oldP := Lookup(s.models, id), ProviderOf(s.clientProviders, client);
    var oldN := Multiplicity(s.clientModels, client, id);
    assert Lookup(Unregistered(s, client).models, id) == DropEntry(o, client, oldP, oldN);
    if id in raw {
      assert ExactEntry(s, id);
      ClientShare(s, client, id);
      if o.Some? && o.value.count == oldN {
        forall p | p in o.value.providers ensures p == oldP && Shares(s, id)(p) == oldN {
          SoleHolder(s, client, id, p);
        }
      }
      RebindIsDropThenFresh(o, id, Total(s, id), Shares(s, id), client, oldP, oldN, provider, multiset(raw)[id],
                            infos[id]);
    }
  }

  /** Registering over an existing client does what unregistering it first would do,
      exactly when the marks on the requested models are settled. */
  lemma ReconcileRefinesNaive(s: State, client: string, clientProvider: string, request: seq<Option<ModelInfo>>)
    requires Inv(s) && client in s.clientModels
    ensures Registered(s, client, clientProvider, request)
            == Registered(Unregistered(s, client), client, clientProvider, request)
            <==> MarksSettled(s, client, RawIds(request))
  {
    if RawIds(request) == [] {
      UnregisterTwice(s, client);
    } else {
      ReconciledModels(s, client, ToLower(clientProvider), RawIds(request), FirstInfos(request));
      SameClientMaps(s, client, clientProvider, request);
    }
  }

  lemma SameClientMaps(s: State, client: string, clientProvider: string, request: seq<Option<ModelInfo>>)
    requires RawIds(request) != []
    ensures Registered(s, client, clientProvider, request)
            == Registered(Unregistered(s, client), client, clientProvider, request)
               .(models := Registered(s, client, clientProvider, request).models)
  {
    var u := Unregistered(s, client);
    assert u.clientModels[client := RawIds(request)] == s.clientModels[client := RawIds(request)];
    assert u.clientInfos[client := FirstInfos(request)] == s.clientInfos[client := FirstInfos(request)];
    var p := ToLower(clientProvider);
    assert SetProvider(u.clientProviders, client, p) == SetProvider(s.clientProviders, client, p);
  }

  lemma SameModels(a: map<string, Registration>, b: map<string, Registration>)
    ensures a == b <==> forall id :: Lookup(a, id) == Lookup(b, id)
  {
    if forall id :: Lookup(a, id) == Lookup(b, id) {
      forall id ensures id in a <==> id in b { assert Lookup(a, id) == Lookup(b, id); }
      forall id | id in a ensures a[id] == b[id] { assert Lookup(a, id) == Lookup(b, id); }
    }
  }

  lemma ReconciledModels(s: State, client: string, provider: string, raw: seq<string>, infos: map<string, ModelInfo>)
    requires Inv(s) && client in s.clientModels
    requires forall i :: i in infos <==> i in raw
    ensures RegisteredModels(s, client, provider, raw, infos) ==
              RegisteredModels(Unregistered(s, client), client, provider, raw, infos)
            <==> MarksSettled(s, client, raw)
  {
    var u := Unregistered(s, client);
    SameModels(RegisteredModels(s, client, provider, raw, infos), RegisteredModels(u, client, provider, raw, infos));
    forall id
      ensures (Lookup(RegisteredModels(s, client, provider, raw, infos), id) ==
                 Lookup(RegisteredModels(u, client, provider, raw, infos), id))
              <==> (id in raw ==>
                      EntrySettled(Lookup(s.models, id), client, Multiplicity(s.clientModels, client, id)))
    {
      ReconciledLookup(s, client, provider, raw, infos, id);
    }
    SettledByEntry(s, client, raw);
  }

  lemma ReconciledLookup(s: State, client: string, provider: string, raw: seq<string>, infos: map<string, ModelInfo>,
                         id: string)
    requires Inv(s) && client in s.clientModels
    requires forall i :: i in infos <==> i in raw
    ensures var u := Unregistered(s, client);
            Lookup(RegisteredModels(s, client, provider, raw, infos), id) ==
                Lookup(RegisteredModels(u, client, provider, raw, infos), id)
            <==> (id in raw ==> EntrySettled(Lookup(s.models, id), client, Multiplicity(s.clientModels, client, id)))
  {
    RegisteredLookup(s, client, provider, raw, infos, id);
    RegisteredLookup(Unregistered(s, client), client, provider, raw, infos, id);
    ReconciledEntry(s, client, provider, raw, infos, id);
  }

  lemma SettledByEntry(s: State, client: string, raw: seq<string>)
    ensures MarksSettled(s, client, raw) <==>
      forall id :: id in raw ==> EntrySettled(Lookup(s.models, id), client, Multiplicity(s.clientModels, client, id))
  {
    if forall id :: id in raw ==> EntrySettled(Lookup(s.models, id), client, Multiplicity(s.clientModels, client, id)) {
      forall id | id in raw && id in s.models
        ensures EntrySettled(Some(s.models[id]), client, Multiplicity(s.clientModels, client, id))
      {
        assert Lookup(s.models, id) == Some(s.models[id]);
      }
    }
  }

  lemma UnregisterTwice(s: State, client: string)
    ensures Unregistered(Unregistered(s, client), client) == Unregistered(s, client)
  {
    var u := Unregistered(s, client);
    assert Unregistered(u, client).models == u.models;
  }

  /** Marks that only name providing clients are always settled. */
  lemma ProvidersOnlyMarksAreSettled(s: State, client: string, request: seq<Option<ModelInfo>>)
    requires Inv(s) && client in s.clientModels && MarksNameProviders(s)
    ensures MarksSettled(s, client, RawIds(request))
  {
    forall id, c | id in s.models && c in Marks(s.models[id]) && c != client
      ensures Multiplicity(s.clientModels, client, id) < s.models[id].count
    {
      assert ExactEntry(s, id);
      SlotsSplit(s, id, None, s.clientModels.Keys, client);
      SlotsSplit(s, id, None, s.clientModels.Keys - {client}, c);
    }
  }

  /** One client `c` holds model `m`, and somebody else has a quota mark on it: what remains of a mark
      set in the name of a client that never held the model. */
  const STRANGER := State(
    map["m" := Registration(ModelInfo("m", ""), map["p" := ModelInfo("m", "")], 1, map["p" := 1], map["x" := 0],
                            map[])],
    map["c" := ["m"]], map["c" := map["m" := ModelInfo("m", "")]], map["c" := "p"])

  lemma StrangerIsReachable()
    ensures QuotaMarked(Registered(EMPTY, "c", "p", [Some(ModelInfo("m", ""))]), "x", "m", 0) == STRANGER
    ensures Inv(STRANGER)
  {
    StrangerIs();
    EmptyIsExact();
    MarkedKeepsInv(EMPTY, "c", "p", [Some(ModelInfo("m", ""))], "x", "m");
  }

  lemma StrangerIs()
    ensures QuotaMarked(Registered(EMPTY, "c", "p", [Some(ModelInfo("m", ""))]), "x", "m", 0) == STRANGER
  {
    assert ToLower("p") == "p";
    RegistersOne(EMPTY, "c", "p", ModelInfo("m", ""));
  }

  lemma MarkedKeepsInv(s: State, client: string, provider: string, request: seq<Option<ModelInfo>>,
                       marked: string, id: string)
    requires Inv(s)
    ensures Inv(QuotaMarked(Registered(s, client, provider, request), marked, id, 0))
  {
    AppliedKeepsInv(s, Register(client, provider, request), 0);
    AppliedKeepsInv(Applied(s, Register(client, provider, request), 0), SetQuota(marked, id), 0);
  }

  lemma OneRequest(info: ModelInfo)
    requires info.id != ""
    ensures RawIds([Some(info)]) == [info.id] && FirstInfos([Some(info)]) == map[info.id := info]
  {
    assert [Some(info)][..0] == [];
  }

  /** ... and then reconciling keeps the mark, where unregistering first would have dropped it. */
  lemma StrangersMarkIsKept()
    ensures var request := [Some(ModelInfo("m", ""))];
            Registered(STRANGER, "c", "p", request) != Registered(Unregistered(STRANGER, "c"), "c", "p", request)
  {
    var request := [Some(ModelInfo("m", ""))];
    StrangerIsReachable();
    OneRequest(ModelInfo("m", ""));
    assert "m" in RawIds(request) && "m" in STRANGER.models;
    assert "x" in Marks(STRANGER.models["m"]);
    assert multiset(STRANGER.clientModels["c"])["m"] == 1;
    ReconcileRefinesNaive(STRANGER, "c", "p", request);
  }

  // ---------- counting usable clients ----------

  function Holders(s: State, id: string): set<string> {
    set c | c in s.clientModels && id in s.clientModels[c]
  }

  function UsableClients(s: State, id: string, now: Time): set<string> {
    if id !in s.models then {}
    else Holders(s, id) - InWindow(s.models[id], now) - s.models[id].suspended.Keys
  }

  ghost predicate ListsDistinct(s: State) {
    forall c, id :: c in s.clientModels ==> multiset(s.clientModels[c])[id] <= 1
  }

  lemma HolderWeight(s: State, id: string, client: string)
    requires ListsDistinct(s) && client in s.clientModels
    ensures Weight(s, id, None, client) == if client in Holders(s, id) then 1 else 0
  {
    assert multiset(s.clientModels[client])[id] <= 1;
    assert id in s.clientModels[client] <==> id in multiset(s.clientModels[client]);
  }

  lemma WithoutOne(clients: set<string>, holders: set<string>, d: string)
    requires d in clients
    ensures |clients * holders| == |(clients - {d}) * holders| + if d in holders then 1 else 0
  {
    assert clients * holders == (clients - {d}) * holders + if d in holders then {d} else {};
  }

  lemma {:induction false} SlotsAreHolders(s: State, id: string, clients: set<string>)
    requires ListsDistinct(s) && clients <= s.clientModels.Keys
    ensures Slots(s, id, None, clients) == |clients * Holders(s, id)|
    decreases clients
  {
    if clients != {} {
      var d :| d in clients;
      SlotsSplit(s, id, None, clients, d);
      SlotsAreHolders(s, id, clients - {d});
      HolderWeight(s, id, d);
      WithoutOne(clients, Holders(s, id), d);
    }
  }

  lemma CountIsHolders(s: State, id: string)
    requires Inv(s) && ListsDistinct(s) && id in s.models
    ensures s.models[id].count == |Holders(s, id)|
  {
    assert ExactEntry(s, id);
    SlotsAreHolders(s, id, s.clientModels.Keys);
    assert s.clientModels.Keys * Holders(s, id) == Holders(s, id);
  }

  lemma UnionSize(a: set<string>, b: set<string>)
    ensures |a + b| == |a| + |b| - |a * b|
  {
    assert a + b == a + (b - a) && b == (b - a) + a * b;
    assert |b| == |b - a| + |a * b|;
  }

  lemma {:induction false} SubsetSize(a: set<string>, b: set<string>)
    requires a <= b
    ensures |a| <= |b|
    ensures |b - a| == |b| - |a|
  {
    assert b == a + (b - a);
  }

  /** A positive count means that some client holds the model, outside its quota window and not
      suspended; whatever the marks name. */
  lemma PositiveCountMeansUsable(s: State, id: string, now: Time)
    requires Inv(s) && ListsDistinct(s)
    requires ModelCount(s, id, now) > 0
    ensures exists c :: c in UsableClients(s, id, now)
  {
    var r := s.models[id];
    var bad := InWindow(r, now) + r.suspended.Keys;
    CountIsHolders(s, id);
    UnionSize(InWindow(r, now), r.suspended.Keys);
    assert |r.suspended| == |r.suspended.Keys|;
    if Holders(s, id) <= bad {
      SubsetSize(Holders(s, id), bad);
      assert false;
    }
    var c :| c in Holders(s, id) && c !in bad;
    assert c in UsableClients(s, id, now);
  }

  /** Nobody is marked twice, and nobody who does not hold the model is marked. */
  predicate MarksCountOnce(s: State, id: string, now: Time) {
    id in s.models ==>
      && InWindow(s.models[id], now) * s.models[id].suspended.Keys == {}
      && InWindow(s.models[id], now) + s.models[id].suspended.Keys <= Holders(s, id)
  }

  /** What subtracting two sets of marks by their sizes leaves out of account. */
  lemma CountArithmetic(holders: set<string>, w: set<string>, p: set<string>)
    ensures |holders - w - p| >= |holders| - |w| - |p|
    ensures |holders - w - p| == |holders| - |w| - |p| <==> w * p == {} && w + p <= holders
  {
    var bad := w + p;
    UnionSize(w, p);
    assert holders - w - p == holders - bad * holders;
    SubsetSize(bad * holders, holders);
    SubsetSize(bad * holders, bad);
    if bad <= holders {
      assert bad * holders == bad;
    } else {
      var c :| c in bad && c !in holders;
      assert c in bad - bad * holders;
    }
  }

  /** The count is the number of usable clients exactly if there are none, or no client is both over
      quota and suspended and no mark names a client that does not hold the model. */
  lemma CountIsUsable(s: State, id: string, now: Time)
    requires Inv(s) && ListsDistinct(s)
    ensures ModelCount(s, id, now) == |UsableClients(s, id, now)|
            <==> UsableClients(s, id, now) == {} || MarksCountOnce(s, id, now)
    ensures ModelCount(s, id, now) <= |UsableClients(s, id, now)|
  {
    if id in s.models {
      var r := s.models[id];
      CountIsHolders(s, id);
      assert |r.suspended| == |r.suspended.Keys|;
      CountArithmetic(Holders(s, id), InWindow(r, now), r.suspended.Keys);
    }
  }

  /** In a reachable registry a stranger's mark hides a usable client, although nobody is marked twice. */
  lemma StrangerHidesUsable()
    ensures Inv(STRANGER) && ListsDistinct(STRANGER)
    ensures InWindow(STRANGER.models["m"], 0) * STRANGER.models["m"].suspended.Keys == {}
    ensures ModelCount(STRANGER, "m", 0) == 0 && UsableClients(STRANGER, "m", 0) == {"c"}
  {
    StrangerIsReachable();
    SingletonsDistinct(STRANGER);
    assert InWindow(STRANGER.models["m"], 0) == {"x"};
    assert STRANGER.models["m"].suspended.Keys == {};
    assert Holders(STRANGER, "m") == {"c"};
  }

  lemma SingletonsDistinct(s: State)
    requires forall c :: c in s.clientModels ==> |s.clientModels[c]| == 1
    ensures ListsDistinct(s)
  {
    forall c, id | c in s.clientModels ensures multiset(s.clientModels[c])[id] <= 1 {
      assert s.clientModels[c] == [s.clientModels[c][0]];
    }
  }

  /** Clients `a` and `b` hold model `m`; `a` is over quota and suspended. */
  const TWICE_MARKED := State(
    map["m" := Registration(M_INFO, map["p" := M_INFO], 2, map["p" := 2], map["a" := 0], map["a" := "quota"])],
    map["a" := ["m"], "b" := ["m"]],
    map["a" := map["m" := M_INFO], "b" := map["m" := M_INFO]],
    map["a" := "p", "b" := "p"])

  const M_INFO := ModelInfo("m", "")

  /** A new client's request for one model adds one slot to one entry. */
  lemma RegistersOne(s: State, client: string, provider: string, info: ModelInfo)
    requires client !in s.clientModels && info.id != "" && provider != "" && ToLower(provider) == provider
    ensures Registered(s, client, provider, [Some(info)])
            == State(s.models[info.id := FreshEntry(Lookup(s.models, info.id), provider, 1, info).value],
                     s.clientModels[client := [info.id]],
                     s.clientInfos[client := map[info.id := info]],
                     s.clientProviders[client := provider])
  {
    OneRequest(info);
    OneModel(s, client, provider, info);
  }

  lemma OneModel(s: State, client: string, provider: string, info: ModelInfo)
    requires client !in s.clientModels
    ensures RegisteredModels(s, client, provider, [info.id], map[info.id := info])
            == s.models[info.id := FreshEntry(Lookup(s.models, info.id), provider, 1, info).value]
  {
    assert multiset([info.id])[info.id] == 1;
  }

  /** Four operations at time 0. */
  function After(s: State, o1: Op, o2: Op, o3: Op, o4: Op): State {
    Applied(Applied(Applied(Applied(s, o1, 0), o2, 0), o3, 0), o4, 0)
  }

  lemma AfterKeepsInv(s: State, o1: Op, o2: Op, o3: Op, o4: Op)
    requires Inv(s)
    ensures Inv(After(s, o1, o2, o3, o4))
  {
    AppliedKeepsInv(s, o1, 0);
    AppliedKeepsInv(Applied(s, o1, 0), o2, 0);
    AppliedKeepsInv(Applied(Applied(s, o1, 0), o2, 0), o3, 0);
    AppliedKeepsInv(Applied(Applied(Applied(s, o1, 0), o2, 0), o3, 0), o4, 0);
  }

  function SlotsOfM(n: nat): map<string, Registration> {
    map["m" := Registration(M_INFO, map["p" := M_INFO], n, map["p" := n], map[], map[])]
  }

  lemma TwoSlots()
    ensures Registered(Registered(EMPTY, "a", "p", [Some(M_INFO)]), "b", "p", [Some(M_INFO)])
            == TWICE_MARKED.(models := SlotsOfM(2))
  {
    OneSlot();
    NextSlot(Registered(EMPTY, "a", "p", [Some(M_INFO)]));
  }

  lemma NextSlot(s: State)
    requires s == State(SlotsOfM(1), map["a" := ["m"]], map["a" := map["m" := M_INFO]], map["a" := "p"])
    ensures Registered(s, "b", "p", [Some(M_INFO)]) == TWICE_MARKED.(models := SlotsOfM(2))
  {
    assert ToLower("p") == "p";
    RegistersOne(s, "b", "p", M_INFO);
    SlotAdded();
  }

  lemma SlotAdded()
    ensures SlotsOfM(1)["m" := FreshEntry(Lookup(SlotsOfM(1), "m"), "p", 1, M_INFO).value] == SlotsOfM(2)
  {
    assert FreshEntry(Some(SlotsOfM(1)["m"]), "p", 1, M_INFO).value == SlotsOfM(2)["m"];
  }

  lemma OneSlot()
    ensures Registered(EMPTY, "a", "p", [Some(M_INFO)])
            == State(SlotsOfM(1), map["a" := ["m"]], map["a" := map["m" := M_INFO]], map["a" := "p"])
  {
    assert ToLower("p") == "p";
    RegistersOne(EMPTY, "a", "p", M_INFO);
  }

  lemma MarkBoth()
    ensures Suspended(QuotaMarked(TWICE_MARKED.(models := SlotsOfM(2)), "a", "m", 0), "a", "m", "quota") == TWICE_MARKED
  {
    assert SlotsOfM(2)["m"].quota == map[] && SlotsOfM(2)["m"].suspended == map[];
  }

  /** Both clients register, `a` runs into its quota and is suspended. */
  function TwiceMarked(): State {
    var request := [Some(M_INFO)];
    After(EMPTY, Register("a", "p", request), Register("b", "p", request), SetQuota("a", "m"),
          Suspend("a", "m", "quota"))
  }

  lemma AfterIs(s: State, a: string, b: string, p: string, request: seq<Option<ModelInfo>>, id: string)
    ensures After(s, Register(a, p, request), Register(b, p, request), SetQuota(a, id), Suspend(a, id, "quota"))
            == Suspended(QuotaMarked(Registered(Registered(s, a, p, request), b, p, request), a, id, 0), a, id, "quota")
  {}

  lemma TwiceMarkedIs()
    ensures TwiceMarked() == TWICE_MARKED
  {
    AfterIs(EMPTY, "a", "b", "p", [Some(M_INFO)], "m");
    TwoSlots();
    MarkBoth();
  }

  /** In this reachable registry client `b` is usable, yet the count is zero: `a` is subtracted twice. */
  lemma TwiceMarkedIsSubtractedTwice()
    ensures Inv(TwiceMarked()) && ListsDistinct(TwiceMarked())
    ensures ModelCount(TwiceMarked(), "m", 0) == 0 && UsableClients(TwiceMarked(), "m", 0) == {"b"}
  {
    var request := [Some(M_INFO)];
    EmptyIsExact();
    AfterKeepsInv(EMPTY, Register("a", "p", request), Register("b", "p", request), SetQuota("a", "m"),
                  Suspend("a", "m", "quota"));
    TwiceMarkedIs();
    SingletonsDistinct(TWICE_MARKED);
    CountTwiceMarked();
  }

  lemma CountTwiceMarked()
    ensures ModelCount(TWICE_MARKED, "m", 0) == 0 && UsableClients(TWICE_MARKED, "m", 0) == {"b"}
  {
    var r := TWICE_MARKED.models["m"];
    assert r.quota == map["a" := 0] && r.suspended == map["a" := "quota"] && r.count == 2;
    assert InWindow(r, 0) == {"a"} && r.suspended.Keys == {"a"};
    assert Holders(TWICE_MARKED, "m") == {"a", "b"} by {
      assert TWICE_MARKED.clientModels.Keys == {"a", "b"};
      assert TWICE_MARKED.clientModels["a"] == ["m"] && TWICE_MARKED.clientModels["b"] == ["m"];
    }
  }

  // ---------- the first available model ----------

  /** At one instant a model with a positive count is always listed, so looking through the list
      finds one exactly when some registered model has one. */
  lemma PositiveCountIsListed(s: State, now: Time)
    requires Inv(s)
    ensures (exists info :: info in Listed(s.models, now) && ModelCount(s, info.id, now) > 0)
       <==> (exists id :: id in s.models && ModelCount(s, id, now) > 0)
  {
    forall id | id in s.models && ModelCount(s, id, now) > 0
      ensures s.models[id].info in Listed(s.models, now) && s.models[id].info.id == id
    {
      var r := s.models[id];
      assert ExactEntry(s, id);
      assert OtherSuspended(r) <= r.suspended.Keys;
      SubsetSize(OtherSuspended(r), r.suspended.Keys);
      assert Available(r, now);
    }
    forall info | info in Listed(s.models, now) ensures info.id in s.models {
      var id :| id in s.models && Available(s.models[id], now) && s.models[id].info == info;
      assert ExactEntry(s, id);
    }
  }

  lemma SweptWindow(r: Registration, now: Time, later: Time)
    requires now <= later
    ensures InWindow(r.(quota := LiveQuota(r, now)), later) == InWindow(r, later)
  {}

  /** Removing expired marks changes no later answer. */
  lemma CleanupIsInvisible(s: State, now: Time, later: Time, id: string)
    requires now <= later
    ensures Listed(CleanedUp(s, now).models, later) == Listed(s.models, later)
    ensures ModelCount(CleanedUp(s, now), id, later) == ModelCount(s, id, later)
  {
    var t := CleanedUp(s, now);
    forall i | i in s.models
      ensures InWindow(t.models[i], later) == InWindow(s.models[i], later)
      ensures Available(t.models[i], later) <==> Available(s.models[i], later)
    {
      SweptWindow(s.models[i], now, later);
    }
  }
}
