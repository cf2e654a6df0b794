/** Which models are listed, said of the clients that hold them and of the marks on them; and what becomes of
    a mark over a run. */
module RegistryListing {
  import opened Common
  import opened RegistryState
  import opened RegistryInvariant
  import opened RegistryRuns

  // ---------- which models are listed ----------

  /** The clients whose last five minutes saw a model's quota exceeded. */
  function Cooled(s: State, id: string, now: Time): set<string> {
    if id !in s.models then {}
    else set c | c in s.models[id].quota && now - s.models[id].quota[c] < 300_000_000_000
  }

  /** The clients suspended for anything but their quota. */
  function Blocked(s: State, id: string): set<string> {
    if id !in s.models then {}
    else set c | c in s.models[id].suspended && ToLower(s.models[id].suspended[c]) != "quota"
  }

  predicate IsListed(models: map<string, Registration>, id: string, now: Time) {
    exists info :: info in Listed(models, now) && info.id == id
  }

  /** A model is listed exactly if somebody holds it and, as soon as anybody is suspended for another reason
      than quota, the slots outnumber these suspensions and the clients over quota together. So over quota
      alone, for everybody, it stays listed. */
  lemma ListedIff(s: State, id: string, now: Time)
    requires Inv(s)
    ensures IsListed(s.models, id, now)
            <==> (exists c :: c in s.clientModels && id in s.clientModels[c])
                 && (Blocked(s, id) == {} || Total(s, id) > |Cooled(s, id, now)| + |Blocked(s, id)|)
  {
    assert ExactEntry(s, id);
    HeldIffCounted(s, id);
    OnlyItsOwnInfo(s, id, now);
    if id in s.models {
      var r := s.models[id];
      assert Cooled(s, id, now) == InWindow(r, now);
      assert Blocked(s, id) == OtherSuspended(r) by {
        assert ToLower("quota") == "quota";
      }
      assert |OtherSuspended(r)| == 0 <==> OtherSuspended(r) == {};
    }
  }

  lemma HeldIffCounted(s: State, id: string)
    ensures Total(s, id) > 0 <==> exists c :: c in s.clientModels && id in s.clientModels[c]
  {
    SlotsPositive(s, id, s.clientModels.Keys);
    if Total(s, id) > 0 {
      var c :| c in s.clientModels.Keys && Multiplicity(s.clientModels, c, id) > 0;
      assert id in s.clientModels[c];
    }
    if c :| c in s.clientModels && id in s.clientModels[c] {
      assert Multiplicity(s.clientModels, c, id) > 0;
    }
  }

  /** An entry lists the info of its own model. */
  lemma OnlyItsOwnInfo(s: State, id: string, now: Time)
    requires Inv(s)
    ensures IsListed(s.models, id, now) <==> id in s.models && Available(s.models[id], now)
  {
    assert ExactEntry(s, id);
    if IsListed(s.models, id, now) {
      var info :| info in Listed(s.models, now) && info.id == id;
      var i :| i in s.models && Available(s.models[i], now) && s.models[i].info == info;
      assert ExactEntry(s, i);
    }
    if id in s.models && Available(s.models[id], now) {
      assert s.models[id].info in Listed(s.models, now);
    }
  }

  /** The same of what a request for the list is answered, over every run; `at` is the time of the request,
      or later if its reading of the clock was overtaken. */
  lemma ServedIff(worlds: seq<World>, run: seq<Event>, handler: string, now: Time, id: string) returns (at: Time)
    requires Trace(worlds, run) && worlds[0].s == EMPTY && worlds[0].cache == map[]
    ensures now <= at && (worlds[|run|].clock <= now ==> at == now)
    ensures var s := worlds[|run|].s;
            (exists info :: info in Served(worlds[|run|], handler, now) && info.id == id)
            <==> (exists c :: c in s.clientModels && id in s.clientModels[c])
                 && (Blocked(s, id) == {} || Total(s, id) > |Cooled(s, id, at)| + |Blocked(s, id)|)
  {
    at := RunTheorem(worlds, run, handler, now);
    ListedIff(worlds[|run|].s, id, at);
  }

  // ---------- what becomes of a mark ----------

  function QuotaMark(s: State, client: string, id: string): Option<Time> {
    if id in s.models && client in s.models[id].quota then Some(s.models[id].quota[client]) else None
  }

  function Suspension(s: State, client: string, id: string): Option<string> {
    if id in s.models && client in s.models[id].suspended then Some(s.models[id].suspended[client]) else None
  }

  /** When a client's quota was last exceeded, unless it was cleared since. */
  function LastExceeded(run: seq<Event>, client: string, id: string, before: Option<Time>): Option<Time> {
    if run == [] then before else
    var e := run[|run| - 1];
    if e.op == SetQuota(client, id) then Some(e.now)
    else if e.op == ClearQuota(client, id) then None
    else LastExceeded(run[..|run| - 1], client, id, before)
  }

  /** Why a client was first suspended since it was last resumed. */
  function FirstReason(run: seq<Event>, client: string, id: string, before: Option<string>): Option<string> {
    if run == [] then before else
    var op, sofar := run[|run| - 1].op, FirstReason(run[..|run| - 1], client, id, before);
    if op.Suspend? && op.client == client && op.id == id && sofar.None? then Some(op.reason)
    else if op == Resume(client, id) then None
    else sofar
  }

  predicate Holds(s: State, client: string, id: string) {
    Multiplicity(s.clientModels, client, id) > 0
  }

  /** The client itself neither registers nor unregisters. */
  predicate LeavesAlone(op: Op, client: string) {
    !(op.Register? && op.client == client) && !(op.Unregister? && op.client == client)
  }

  lemma TwoShares(s: State, a: string, b: string, id: string)
    requires a != b && ExactEntry(s, id) && Holds(s, a, id)
    ensures id in s.models
    ensures Multiplicity(s.clientModels, b, id) < s.models[id].count
  {
    var clients := s.clientModels.Keys;
    SlotsSplit(s, id, None, clients, a);
    if b in clients { SlotsSplit(s, id, None, clients - {a}, b); }
  }

  /** One entry keeps a client's marks. */
  predicate SameMarks(a: Option<Registration>, b: Option<Registration>, client: string) {
    && a.Some? && b.Some?
    && (client in a.value.quota <==> client in b.value.quota)
    && (client in a.value.quota ==> a.value.quota[client] == b.value.quota[client])
    && (client in a.value.suspended <==> client in b.value.suspended)
    && (client in a.value.suspended ==> a.value.suspended[client] == b.value.suspended[client])
  }

  lemma EntryKeepsMarks(o: Option<Registration>, other: string, oldP: string, oldN: nat, newP: string, newN: nat,
                        info: ModelInfo, client: string)
    requires o.Some? && oldN < o.value.count && client != other
    ensures SameMarks(o, DropEntry(o, other, oldP, oldN), client)
    ensures SameMarks(o, FreshEntry(o, newP, newN, info), client)
    ensures SameMarks(o, RebindEntry(o, other, oldP, oldN, newP, newN, info), client)
  {}

  lemma LookupKeepsMarks(s: State, t: State, client: string, id: string)
    requires SameMarks(Lookup(s.models, id), Lookup(t.models, id), client)
    ensures QuotaMark(t, client, id) == QuotaMark(s, client, id)
    ensures Suspension(t, client, id) == Suspension(s, client, id)
  {}

  lemma UnregisteringKeepsMarks(s: State, other: string, client: string, id: string)
    requires Inv(s) && Holds(s, client, id) && client != other
    ensures Holds(Unregistered(s, other), client, id)
    ensures SameMarks(Lookup(s.models, id), Lookup(Unregistered(s, other).models, id), client)
  {
    assert ExactEntry(s, id);
    TwoShares(s, client, other, id);
    UnregisteredParts(s, other, id);
    EntryKeepsMarks(Lookup(s.models, id), other, ProviderOf(s.clientProviders, other),
                    Multiplicity(s.clientModels, other, id), "", 0, ModelInfo("", ""), client);
  }

  lemma RegisteringKeepsMarks(s: State, other: string, provider: string, raw: seq<string>,
                              infos: map<string, ModelInfo>, client: string, id: string)
    requires Inv(s) && Holds(s, client, id) && client != other
    requires forall i :: i in infos <==> i in raw
    ensures SameMarks(Lookup(s.models, id), RegisteredEntry(s, other, provider, raw, infos, id), client)
  {
    assert ExactEntry(s, id);
    TwoShares(s, client, other, id);
    EntryKeepsMarks(Lookup(s.models, id), other, ProviderOf(s.clientProviders, other),
                    Multiplicity(s.clientModels, other, id), provider, multiset(raw)[id],
                    if id in infos then infos[id] else ModelInfo("", ""), client);
  }

  /** Another client's registration leaves a holder's marks alone. */
  lemma OthersKeepMarks(s: State, op: Op, now: Time, client: string, id: string)
    requires Inv(s) && Holds(s, client, id) && LeavesAlone(op, client) && (op.Register? || op.Unregister?)
    ensures var t := Applied(s, op, now);
            && Holds(t, client, id)
            && QuotaMark(t, client, id) == QuotaMark(s, client, id)
            && Suspension(t, client, id) == Suspension(s, client, id)
  {
    var t := Applied(s, op, now);
    if op.Unregister? || RawIds(op.request) == [] {
      UnregisteringKeepsMarks(s, op.client, client, id);
    } else {
      var provider, raw, infos := ToLower(op.provider), RawIds(op.request), FirstInfos(op.request);
      RegisteringKeepsMarks(s, op.client, provider, raw, infos, client, id);
      RegisteredLookup(s, op.client, provider, raw, infos, id);
      RegisteredParts(s, op.client, op.provider, op.request);
    }
    LookupKeepsMarks(s, t, client, id);
  }

  ghost predicate AllLeaveAlone(run: seq<Event>, client: string) {
    forall i :: 0 <= i < |run| ==> LeavesAlone(run[i].op, client)
  }

  ghost predicate NoLaterThan(run: seq<Event>, t: Time) {
    forall i :: 0 <= i < |run| ==> run[i].now <= t
  }

  /** The mark of a holder is the last one set and not cleared, or expired and swept. */
  ghost predicate MarkIs(s: State, client: string, id: string, last: Option<Time>, clock: Time) {
    || QuotaMark(s, client, id) == last
    || (QuotaMark(s, client, id).None? && last.Some? && last.value + 300_000_000_000 <= clock)
  }

  lemma StepKeepsMark(s: State, op: Op, now: Time, client: string, id: string, last: Option<Time>, clock: Time)
    requires Inv(s) && Holds(s, client, id) && LeavesAlone(op, client) && now <= clock
    requires MarkIs(s, client, id, last, clock)
    ensures Holds(Applied(s, op, now), client, id)
    ensures MarkIs(Applied(s, op, now), client, id,
                   if op == SetQuota(client, id) then Some(now)
                   else if op == ClearQuota(client, id) then None else last,
                   clock)
  {
    assert ExactEntry(s, id);
    TwoShares(s, client, client + "x", id);
    if op.Register? || op.Unregister? { OthersKeepMarks(s, op, now, client, id); }
  }

  lemma StepKeepsSuspension(s: State, op: Op, now: Time, client: string, id: string)
    requires Inv(s) && Holds(s, client, id) && LeavesAlone(op, client) && client != ""
    ensures Suspension(Applied(s, op, now), client, id)
            == if op.Suspend? && op.client == client && op.id == id && Suspension(s, client, id).None?
               then Some(op.reason)
               else if op == Resume(client, id) then None else Suspension(s, client, id)
  {
    assert ExactEntry(s, id);
    TwoShares(s, client, client + "x", id);
    assert id != "" by { assert id in s.clientModels[client]; }
    if op.Register? || op.Unregister? { OthersKeepMarks(s, op, now, client, id); }
  }

  /** Over every run in which a holder of a model does not register anew: it is over quota at `t` exactly if
      its quota was last exceeded within five minutes before, and not cleared since; and it is suspended for
      the first reason given since it was last resumed. Nothing that others do changes that. */
  lemma {:induction false} MarksFollowTheCalls(s: State, run: seq<Event>, client: string, id: string, t: Time)
    requires Inv(s) && Holds(s, client, id) && client != "" && AllLeaveAlone(run, client) && NoLaterThan(run, t)
    ensures var end, last := Plain(s, run), LastExceeded(run, client, id, QuotaMark(s, client, id));
            && Inv(end) && Holds(end, client, id) && MarkIs(end, client, id, last, t)
            && (client in Cooled(end, id, t) <==> last.Some? && t - last.value < 300_000_000_000)
            && Suspension(end, client, id) == FirstReason(run, client, id, Suspension(s, client, id))
    decreases |run|
  {
    if run != [] {
      var n := |run| - 1;
      var mid := Plain(s, run[..n]);
      MarksFollowTheCalls(s, run[..n], client, id, t);
      AppliedKeepsInv(mid, run[n].op, run[n].now);
      StepKeepsMark(mid, run[n].op, run[n].now, client, id,
                    LastExceeded(run[..n], client, id, QuotaMark(s, client, id)), t);
      StepKeepsSuspension(mid, run[n].op, run[n].now, client, id);
    }
  }

  // ---------- what a registration shows ----------

  predicate NoMarks(o: Option<Registration>, client: string) {
    o.Some? ==> client !in o.value.quota && client !in o.value.suspended
  }

  lemma EntryLosesMarks(o: Option<Registration>, client: string, oldP: string, oldN: nat, newP: string, newN: nat,
                        info: ModelInfo)
    ensures oldN > 0 ==> NoMarks(DropEntry(o, client, oldP, oldN), client)
    ensures newN > 0 ==> NoMarks(RebindEntry(o, client, oldP, oldN, newP, newN, info), client)
  {}

  lemma NoMarksIn(t: State, client: string, id: string)
    requires NoMarks(Lookup(t.models, id), client)
    ensures QuotaMark(t, client, id).None? && Suspension(t, client, id).None?
  {}

  /** A client that registers or unregisters is not marked any more on what it held or asks for. */
  lemma OwnRegistrationClears(s: State, op: Op, now: Time, id: string)
    requires (op.Register? || op.Unregister?) && op.client in s.clientModels
    requires Holds(s, op.client, id) || (op.Register? && id in RawIds(op.request))
    ensures var t := Applied(s, op, now);
            QuotaMark(t, op.client, id).None? && Suspension(t, op.client, id).None?
  {
    var o, oldP := Lookup(s.models, id), ProviderOf(s.clientProviders, op.client);
    var oldN := Multiplicity(s.clientModels, op.client, id);
    if op.Register? && RawIds(op.request) != [] {
      var provider, raw, infos := ToLower(op.provider), RawIds(op.request), FirstInfos(op.request);
      RegisteredLookup(s, op.client, provider, raw, infos, id);
      EntryLosesMarks(o, op.client, oldP, oldN, provider, multiset(raw)[id],
                      if id in infos then infos[id] else ModelInfo("", ""));
    } else {
      UnregisteredParts(s, op.client, id);
      EntryLosesMarks(o, op.client, oldP, oldN, "", 0, ModelInfo("", ""));
    }
    NoMarksIn(Applied(s, op, now), op.client, id);
  }

  /** The first usable entry of a request for a model. */
  ghost predicate FirstFor(request: seq<Option<ModelInfo>>, id: string, k: nat) {
    && k < |request| && request[k].Some? && request[k].value.id == id
    && forall j :: 0 <= j < k ==> !(request[j].Some? && request[j].value.id == id)
  }

  lemma {:induction false} FirstInfoIs(request: seq<Option<ModelInfo>>, id: string, k: nat)
    requires FirstFor(request, id, k) && id != ""
    ensures id in FirstInfos(request) && FirstInfos(request)[id] == request[k].value
    decreases |request|
  {
    var n := |request| - 1;
    if k < n {
      FirstInfoIs(request[..n], id, k);
    } else {
      NotYetRequested(request[..n], id);
    }
  }

  lemma {:induction false} NotYetRequested(request: seq<Option<ModelInfo>>, id: string)
    requires forall j :: 0 <= j < |request| ==> !(request[j].Some? && request[j].value.id == id)
    ensures id !in FirstInfos(request)
    decreases |request|
  {
    if request != [] { NotYetRequested(request[..|request| - 1], id); }
  }

  /** A registered model shows the first info that the last registration of it gave, for all and for the
      provider, whose name is in lower case. */
  lemma ShowsFirstInfo(s: State, client: string, provider: string, request: seq<Option<ModelInfo>>, id: string, k: nat)
    requires Inv(s) && FirstFor(request, id, k) && id != ""
    ensures var t := Registered(s, client, provider, request);
            && id in t.models && t.models[id].info == request[k].value
            && (provider != "" ==> ToLower(provider) in t.models[id].infoByProvider
                                   && t.models[id].infoByProvider[ToLower(provider)] == request[k].value)
            && client in t.clientInfos && id in t.clientInfos[client] && t.clientInfos[client][id] == request[k].value
  {
    FirstInfoIs(request, id, k);
    RegisteredLookup(s, client, ToLower(provider), RawIds(request), FirstInfos(request), id);
    assert multiset(RawIds(request))[id] > 0;
  }

  /** A client's list is what it asked for, in order and with repetitions. */
  lemma {:induction false} ListIsTheRequest(request: seq<Option<ModelInfo>>)
    requires forall i :: 0 <= i < |request| ==> request[i].Some? && request[i].value.id != ""
    ensures RawIds(request) == seq(|request|, i requires 0 <= i < |request| => request[i].value.id)
  {
    if request != [] {
      ListIsTheRequest(request[..|request| - 1]);
    }
  }
}
