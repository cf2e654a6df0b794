/** How the watcher turns one changed credential file into updates of the
    current credentials, and what a consumer of the updates ends up with. */
module AuthDeltas {
  import opened Common

  /** A credential: what comparison looks at, and what it ignores (times, runtime state). */
  datatype Auth = Auth(identity: string, transient: string)

  predicate AuthEqual(a: Auth, b: Auth) {
    a.identity == b.identity
  }

  datatype Update = Add(id: string, auth: Auth) | Modify(id: string, auth: Auth) | Delete(id: string)

  type Auths = map<string, Auth>

  // ---------- one file ----------

  /** The update for one ID, if any: a new or changed entry of the file, or an entry it no longer has. */
  function UpdateFor(current: Auths, oldIds: set<string>, next: Auths, id: string): Option<Update> {
    if id in next then
      (if id !in current then Some(Add(id, next[id]))
       else if AuthEqual(current[id], next[id]) then None
       else Some(Modify(id, next[id])))
    else if id in oldIds then Some(Delete(id))
    else None
  }

  /** The current credentials afterwards; an entry that compares equal is left as it was. */
  function Updated(current: Auths, oldIds: set<string>, next: Auths): Auths {
    map id | id in (current.Keys - oldIds) + next.Keys ::
      if id in next && (id !in current || !AuthEqual(current[id], next[id])) then next[id] else current[id]
  }

  // ---------- what a consumer does with updates ----------

  function Consumed(auths: Auths, u: Update): Auths {
    match u
    case Add(id, auth) => auths[id := auth]
    case Modify(id, auth) => auths[id := auth]
    case Delete(id) => auths - {id}
  }

  function Replayed(auths: Auths, updates: seq<Update>): Auths {
    if updates == [] then auths
    else Consumed(Replayed(auths, updates[..|updates| - 1]), updates[|updates| - 1])
  }

  /** A list of updates is exact if it names every ID at most once, and with the update due to it. */
  ghost predicate Exact(updates: seq<Update>, current: Auths, oldIds: set<string>, next: Auths) {
    && (forall i, j :: 0 <= i < j < |updates| ==> updates[i].id != updates[j].id)
    && (forall u :: u in updates ==> UpdateFor(current, oldIds, next, u.id) == Some(u))
    && (forall id :: UpdateFor(current, oldIds, next, id).Some? ==>
          UpdateFor(current, oldIds, next, id).value in updates)
  }

  /** Replaying leaves an ID that no update names alone. */
  lemma {:induction false} ReplayedElsewhere(auths: Auths, updates: seq<Update>, id: string)
    requires forall i :: 0 <= i < |updates| ==> updates[i].id != id
    ensures id in Replayed(auths, updates) <==> id in auths
    ensures id in auths ==> Replayed(auths, updates)[id] == auths[id]
    decreases |updates|
  {
    if updates != [] {
      ReplayedElsewhere(auths, updates[..|updates| - 1], id);
    }
  }

  /** ... and one that one update names, as that update says. */
  lemma {:induction false} ReplayedAt(auths: Auths, updates: seq<Update>, k: nat)
    requires forall i, j :: 0 <= i < j < |updates| ==> updates[i].id != updates[j].id
    requires k < |updates|
    ensures var u, replayed := updates[k], Replayed(auths, updates);
            if u.Delete? then u.id !in replayed else u.id in replayed && replayed[u.id] == u.auth
    decreases |updates|
  {
    var n := |updates| - 1;
    if k < n {
      ReplayedAt(auths, updates[..n], k);
      assert updates[k].id != updates[n].id;
    }
  }

  /** Replaying an exact list, in whatever order it comes, turns a copy of the old credentials into the
      new ones, and touches only IDs of the file. */
  lemma ReplayIsExact(current: Auths, oldIds: set<string>, next: Auths, updates: seq<Update>)
    requires Exact(updates, current, oldIds, next)
    ensures Replayed(current, updates) == Updated(current, oldIds, next)
    ensures forall u :: u in updates ==> u.id in oldIds || u.id in next
  {
    var replayed, updated := Replayed(current, updates), Updated(current, oldIds, next);
    forall id ensures id in replayed <==> id in updated
              ensures id in replayed && id in updated ==> replayed[id] == updated[id]
    {
      var due := UpdateFor(current, oldIds, next, id);
      if due.Some? {
        var k :| 0 <= k < |updates| && updates[k] == due.value;
        ReplayedAt(current, updates, k);
      } else {
        assert forall k :: 0 <= k < |updates| ==> updates[k] in updates;
        ReplayedElsewhere(current, updates, id);
      }
    }
  }

  /** An exact list adds exactly the new IDs, modifies exactly those that differ, and deletes exactly those
      that the file had and has no longer. */
  lemma UpdatesAreDue(updates: seq<Update>, current: Auths, oldIds: set<string>, next: Auths, id: string, auth: Auth)
    requires Exact(updates, current, oldIds, next)
    ensures Add(id, auth) in updates <==> id in next && next[id] == auth && id !in current
    ensures Modify(id, auth) in updates
            <==> id in next && next[id] == auth && id in current && current[id].identity != auth.identity
    ensures Delete(id) in updates <==> id in oldIds && id !in next
  {
    var due := UpdateFor(current, oldIds, next, id);
    assert forall u :: u in updates && u.id == id ==> due == Some(u);
  }

  /** Any rearrangement of an exact list is exact. */
  lemma OrderDoesNotMatter(a: seq<Update>, b: seq<Update>, current: Auths, oldIds: set<string>, next: Auths)
    requires Exact(a, current, oldIds, next) && multiset(a) == multiset(b)
    ensures Exact(b, current, oldIds, next) && Replayed(current, b) == Updated(current, oldIds, next)
  {
    assert forall u :: u in a <==> u in b by {
      assert forall u :: u in a <==> u in multiset(a);
      assert forall u :: u in b <==> u in multiset(b);
    }
    forall i, j | 0 <= i < j < |b| ensures b[i].id != b[j].id {
      if b[i].id == b[j].id {
        assert b[i] in a && b[j] in a;
        assert b[i] == b[j];
        TwiceInMultiset(b, i, j);
        OnceInMultiset(a, b[i]);
        assert false;
      }
    }
    ReplayIsExact(current, oldIds, next, b);
  }

  lemma TwiceInMultiset(s: seq<Update>, i: nat, j: nat)
    requires i < j < |s| && s[i] == s[j]
    ensures multiset(s)[s[i]] >= 2
  {
    assert s == s[..i] + [s[i]] + s[i + 1..j] + [s[j]] + s[j + 1..];
  }

  lemma OnceInMultiset(s: seq<Update>, u: Update)
    requires forall i, j :: 0 <= i < j < |s| ==> s[i].id != s[j].id
    ensures multiset(s)[u] <= 1
  {
    if u in s {
      var i :| 0 <= i < |s| && s[i] == u;
      assert s == s[..i] + [u] + s[i + 1..];
      assert u !in s[..i] && u !in s[i + 1..];
      assert multiset(s[..i])[u] == 0 && multiset(s[i + 1..])[u] == 0;
    }
  }

  // ---------- runs over many files ----------

  /** Current credentials, the IDs each file gave, and the hash of each file's last content. */
  datatype State = State(current: Auths, byPath: map<string, set<string>>, hashes: map<string, string>)

  datatype Op =
    | Changed(path: string, hash: string, generated: Auths)
    | Removed(path: string)

  function OldIds(s: State, path: string): set<string> {
    if path in s.byPath then s.byPath[path] else {}
  }

  predicate Skipped(s: State, op: Op) {
    op.Changed? && op.path in s.hashes && s.hashes[op.path] == op.hash
  }

  function Next(op: Op): Auths {
    if op.Changed? then op.generated else map[]
  }

  function Applied(s: State, op: Op): State {
    if Skipped(s, op) then s
    else State(
      Updated(s.current, OldIds(s, op.path), Next(op)),
      if Next(op) == map[] then s.byPath - {op.path} else s.byPath[op.path := Next(op).Keys],
      if op.Changed? then s.hashes[op.path := op.hash] else s.hashes - {op.path})
  }

  function Run(s: State, ops: seq<Op>): State {
    if ops == [] then s else Applied(Run(s, ops[..|ops| - 1]), ops[|ops| - 1])
  }

  /** Each ID belongs to at most one file, and files only give IDs of their own. */
  ghost predicate Separate(owner: string -> Option<string>, ops: seq<Op>) {
    forall op, id :: op in ops && op.Changed? && id in op.generated ==> owner(id) == Some(op.path)
  }

  /** File-owned credentials are exactly those of the per-file ID sets; others are untouched. */
  ghost predicate Owned(owner: string -> Option<string>, s: State, start: Auths) {
    && (forall id :: owner(id).Some? ==> (id in s.current <==> id in OldIds(s, owner(id).value)))
    && (forall p, id :: p in s.byPath && id in s.byPath[p] ==> owner(id) == Some(p))
    && (forall p :: p in s.byPath ==> s.byPath[p] != {})
    && (forall id :: owner(id).None? ==>
          (id in s.current <==> id in start) && (id in start ==> s.current[id] == start[id]))
  }

  lemma AppliedKeepsOwned(owner: string -> Option<string>, s: State, op: Op, start: Auths)
    requires Owned(owner, s, start) && Separate(owner, [op])
    ensures Owned(owner, Applied(s, op), start)
  {
    if !Skipped(s, op) {
      assert op in [op];
      forall id | id in Next(op) || id in OldIds(s, op.path) ensures owner(id) == Some(op.path) {}
      UpdateKeepsOwned(owner, s, op, start);
    }
  }

  lemma UpdateKeepsOwned(owner: string -> Option<string>, s: State, op: Op, start: Auths)
    requires Owned(owner, s, start) && !Skipped(s, op)
    requires forall id :: id in Next(op) || id in OldIds(s, op.path) ==> owner(id) == Some(op.path)
    ensures Owned(owner, Applied(s, op), start)
  {
    var t := Applied(s, op);
    forall p ensures OldIds(t, p) == if p == op.path then Next(op).Keys else OldIds(s, p) {}
    forall id ensures id in t.current <==> (id in s.current && id !in OldIds(s, op.path)) || id in Next(op) {}
    forall id | owner(id).Some? ensures id in t.current <==> id in OldIds(t, owner(id).value) {
      assert id in s.current <==> id in OldIds(s, owner(id).value);
    }
  }

  /** Every run of file changes and removals keeps ownership exact. */
  lemma {:induction false} RunKeepsOwned(owner: string -> Option<string>, start: Auths, ops: seq<Op>)
    requires Separate(owner, ops) && forall id :: id in start ==> owner(id).None?
    ensures Owned(owner, Run(State(start, map[], map[]), ops), start)
    decreases |ops|
  {
    if ops != [] {
      var n := |ops| - 1;
      assert forall op :: op in ops[..n] ==> op in ops;
      RunKeepsOwned(owner, start, ops[..n]);
      assert ops[n] in ops;
      AppliedKeepsOwned(owner, Run(State(start, map[], map[]), ops[..n]), ops[n], start);
    }
  }

  /** What the last operation on a file says that it holds. */
  function Latest(ops: seq<Op>, path: string): Auths {
    if ops == [] then map[]
    else if ops[|ops| - 1].path != path then Latest(ops[..|ops| - 1], path)
    else if ops[|ops| - 1].Changed? then ops[|ops| - 1].generated else map[]
  }

  /** A change that gave this hash and these credentials is among the operations. */
  ghost predicate GaveHash(ops: seq<Op>, path: string, hash: string, generated: Auths) {
    Changed(path, hash, generated) in ops
  }

  /** The same hash of a file stands for the same credentials. */
  ghost predicate HashTells(ops: seq<Op>) {
    forall path, hash, a, b :: GaveHash(ops, path, hash, a) && GaveHash(ops, path, hash, b) ==> a == b
  }

  /** The current credentials have this file's, up to what comparison ignores. */
  ghost predicate Has(s: State, path: string, held: Auths) {
    && OldIds(s, path) == held.Keys
    && forall id :: id in held ==> id in s.current && s.current[id].identity == held[id].identity
  }

  lemma OwnStepHas(s: State, op: Op, held: Auths)
    requires Has(s, op.path, held) && (Skipped(s, op) ==> Next(op) == held)
    ensures Has(Applied(s, op), op.path, Next(op))
  {}

  lemma OtherStepHas(owner: string -> Option<string>, s: State, op: Op, start: Auths, path: string, held: Auths)
    requires Owned(owner, s, start) && Separate(owner, [op]) && op.path != path && Has(s, path, held)
    ensures Has(Applied(s, op), path, held)
  {
    assert op in [op];
    forall id | id in held ensures id !in Next(op) && id !in OldIds(s, op.path) {
      assert path in s.byPath && owner(id) == Some(path);
    }
  }

  /** Over every run in which equal hashes of a file mean equal credentials: the current credentials hold, for
      each file, what the last change of it gave, also where equal hashes made the watcher skip changes. */
  lemma {:induction false} SkippingIsInvisible(owner: string -> Option<string>, start: Auths, ops: seq<Op>,
                                               path: string)
    requires Separate(owner, ops) && (forall id :: id in start ==> owner(id).None?) && HashTells(ops)
    ensures var s := Run(State(start, map[], map[]), ops);
            && Has(s, path, Latest(ops, path))
            && (path in s.hashes ==> GaveHash(ops, path, s.hashes[path], Latest(ops, path)))
            && (forall id :: owner(id) == Some(path) ==> (id in s.current <==> id in Latest(ops, path)))
    decreases |ops|
  {
    RunKeepsOwned(owner, start, ops);
    if ops != [] {
      var n := |ops| - 1;
      var s, op := Run(State(start, map[], map[]), ops[..n]), ops[n];
      assert forall o :: o in ops[..n] ==> o in ops;
      assert op in ops && (op.Changed? ==> GaveHash(ops, op.path, op.hash, op.generated));
      assert forall p, h, g :: GaveHash(ops[..n], p, h, g) ==> GaveHash(ops, p, h, g);
      RunKeepsOwned(owner, start, ops[..n]);
      SkippingIsInvisible(owner, start, ops[..n], path);
      if op.path == path {
        OwnStepHas(s, op, Latest(ops[..n], path));
      } else {
        OtherStepHas(owner, s, op, start, path, Latest(ops[..n], path));
      }
    }
  }

  // ---------- the watcher ----------

  class Watcher {
    var currentAuths: Auths
    var fileAuthsByPath: map<string, set<string>>
    var lastAuthHashes: map<string, string>

    ghost function Contents(): State
      reads this
    {
      State(currentAuths, fileAuthsByPath, lastAuthHashes)
    }

    constructor (start: Auths)
      ensures Contents() == State(start, map[], map[])
    {
      currentAuths, fileAuthsByPath, lastAuthHashes := start, map[], map[];
    }

    method ComputePerPathUpdates(oldIds: set<string>, newById: Auths) returns (updates: seq<Update>)
      modifies this`currentAuths
      ensures currentAuths == Updated(old(currentAuths), oldIds, newById)
      ensures Exact(updates, old(currentAuths), oldIds, newById)
    {
      ghost var before := currentAuths;
      updates := StoreNew(oldIds, newById);
      updates := DropOld(oldIds, newById, updates, before);
      AllDone(updates, currentAuths, before, oldIds, newById);
    }

    method StoreNew(oldIds: set<string>, newById: Auths) returns (updates: seq<Update>)
      modifies this`currentAuths
      ensures Delta(updates, currentAuths, old(currentAuths), oldIds, newById, newById.Keys)
    {
      ghost var before, done: set<string> := currentAuths, {};
      updates := [];
      var todo := newById.Keys;
      assert currentAuths == UpdatedFor(before, oldIds, newById, {});
      while todo != {}
        invariant todo !! done && todo + done == newById.Keys
        invariant Delta(updates, currentAuths, before, oldIds, newById, done)
        decreases todo
      {
        var id :| id in todo;
        todo := todo - {id};
        DeltaOneMore(updates, currentAuths, before, oldIds, newById, done, id);
        done := done + {id};
        if id !in currentAuths {
          currentAuths := currentAuths[id := newById[id]];
          updates := updates + [Add(id, newById[id])];
        } else if !AuthEqual(currentAuths[id], newById[id]) {
          currentAuths := currentAuths[id := newById[id]];
          updates := updates + [Modify(id, newById[id])];
        }
      }
      assert done == newById.Keys;
    }

    method DropOld(oldIds: set<string>, newById: Auths, sofar: seq<Update>, ghost before: Auths)
      returns (updates: seq<Update>)
      requires Delta(sofar, currentAuths, before, oldIds, newById, newById.Keys)
      modifies this`currentAuths
      ensures Delta(updates, currentAuths, before, oldIds, newById, newById.Keys + oldIds)
    {
      updates := sofar;
      var todo := oldIds;
      ghost var done := newById.Keys;
      while todo != {}
        invariant newById.Keys <= done <= newById.Keys + oldIds
        invariant todo <= oldIds <= done + todo && todo * done <= newById.Keys
        invariant Delta(updates, currentAuths, before, oldIds, newById, done)
        decreases todo
      {
        var id :| id in todo;
        todo := todo - {id};
        if id in newById { continue; }
        DeltaOneMore(updates, currentAuths, before, oldIds, newById, done, id);
        done := done + {id};
        currentAuths := currentAuths - {id};
        updates := updates + [Delete(id)];
      }
      assert done == newById.Keys + oldIds;
    }

    method AddOrUpdateClient(path: string, hash: string, generated: Auths) returns (updates: seq<Update>)
      modifies this
      ensures Contents() == Applied(old(Contents()), Changed(path, hash, generated))
      ensures Replayed(old(currentAuths), updates) == currentAuths
    {
      if path in lastAuthHashes && lastAuthHashes[path] == hash { return []; }
      lastAuthHashes := lastAuthHashes[path := hash];
      var oldIds := if path in fileAuthsByPath then fileAuthsByPath[path] else {};
      if generated != map[] {
        fileAuthsByPath := fileAuthsByPath[path := generated.Keys];
      } else {
        fileAuthsByPath := fileAuthsByPath - {path};
      }
      ghost var before := currentAuths;
      updates := ComputePerPathUpdates(oldIds, generated);
      ReplayIsExact(before, oldIds, generated, updates);
    }

    method RemoveClient(path: string) returns (updates: seq<Update>)
      modifies this
      ensures Contents() == Applied(old(Contents()), Removed(path))
      ensures Replayed(old(currentAuths), updates) == currentAuths
    {
      var oldIds := if path in fileAuthsByPath then fileAuthsByPath[path] else {};
      lastAuthHashes := lastAuthHashes - {path};
      fileAuthsByPath := fileAuthsByPath - {path};
      ghost var before := currentAuths;
      updates := ComputePerPathUpdates(oldIds, map[]);
      ReplayIsExact(before, oldIds, map[], updates);
    }
  }

  /** The updates due to the IDs in `done`. */
  ghost predicate ExactFor(updates: seq<Update>, current: Auths, oldIds: set<string>, next: Auths, done: set<string>) {
    && (forall i, j :: 0 <= i < j < |updates| ==> updates[i].id != updates[j].id)
    && (forall u :: u in updates ==> u.id in done && UpdateFor(current, oldIds, next, u.id) == Some(u))
    && (forall id :: id in done && UpdateFor(current, oldIds, next, id).Some? ==>
          UpdateFor(current, oldIds, next, id).value in updates)
  }

  lemma ExactForOneMore(updates: seq<Update>, current: Auths, oldIds: set<string>, next: Auths, done: set<string>,
                        id: string)
    requires ExactFor(updates, current, oldIds, next, done) && id !in done
    ensures var due := UpdateFor(current, oldIds, next, id);
            ExactFor(if due.Some? then updates + [due.value] else updates, current, oldIds, next, done + {id})
  {
    var due := UpdateFor(current, oldIds, next, id);
    if due.Some? {
      var more := updates + [due.value];
      forall i, j | 0 <= i < j < |more| ensures more[i].id != more[j].id {
        if j == |updates| { assert more[i] in updates; }
      }
    }
  }

  /** The credentials when the IDs in `done` have been dealt with. */
  function UpdatedFor(current: Auths, oldIds: set<string>, next: Auths, done: set<string>): Auths {
    map id | id in (current.Keys - (oldIds - next.Keys) * done) + next.Keys * done ::
      if id in next && id in done && (id !in current || !AuthEqual(current[id], next[id])) then next[id]
          else current[id]
  }

  lemma UpdatedForOneMore(current: Auths, oldIds: set<string>, next: Auths, done: set<string>, id: string)
    requires id !in done && (id in next || id in oldIds)
    ensures var was := UpdatedFor(current, oldIds, next, done);
            && (id in was <==> id in current) && (id in current ==> was[id] == current[id])
            && UpdatedFor(current, oldIds, next, done + {id}) ==
                 match UpdateFor(current, oldIds, next, id)
                 case Some(u) => Consumed(was, u)
                 case None => was
  {}

  /** The updates and the credentials when the IDs in `done` have been dealt with. */
  ghost predicate Delta(updates: seq<Update>, auths: Auths, current: Auths, oldIds: set<string>, next: Auths,
                        done: set<string>) {
    ExactFor(updates, current, oldIds, next, done) && auths == UpdatedFor(current, oldIds, next, done)
  }

  lemma DeltaOneMore(updates: seq<Update>, auths: Auths, current: Auths, oldIds: set<string>, next: Auths,
                     done: set<string>, id: string)
    requires Delta(updates, auths, current, oldIds, next, done) && id !in done && (id in next || id in oldIds)
    ensures (id in auths <==> id in current) && (id in current ==> auths[id] == current[id])
    ensures match UpdateFor(current, oldIds, next, id)
            case Some(u) => Delta(updates + [u], Consumed(auths, u), current, oldIds, next, done + {id})
            case None => Delta(updates, auths, current, oldIds, next, done + {id})
  {
    ExactForOneMore(updates, current, oldIds, next, done, id);
    UpdatedForOneMore(current, oldIds, next, done, id);
  }

  lemma AllDone(updates: seq<Update>, auths: Auths, current: Auths, oldIds: set<string>, next: Auths)
    requires Delta(updates, auths, current, oldIds, next, next.Keys + oldIds)
    ensures Exact(updates, current, oldIds, next) && auths == Updated(current, oldIds, next)
  {
    assert (current.Keys - (oldIds - next.Keys) * (next.Keys + oldIds)) + next.Keys * (next.Keys + oldIds)
        == (current.Keys - oldIds) + next.Keys;
  }

  // ---------- updates waiting to be dispatched ----------

  /** Pending updates: the IDs in the order they first came, and the latest update of each. */
  datatype Pending = Pending(order: seq<string>, latest: map<string, Update>)

  function Enqueued(p: Pending, u: Update): (r: Pending)
    ensures Consistent(p) ==> Consistent(r)
  {
    Pending(if u.id in p.latest then p.order else p.order + [u.id], p.latest[u.id := u])
  }

  ghost predicate Consistent(p: Pending) {
    && (forall i, j :: 0 <= i < j < |p.order| ==> p.order[i] != p.order[j])
    && (forall id :: id in p.order <==> id in p.latest)
    && (forall id :: id in p.latest ==> p.latest[id].id == id)
  }

  function Batch(p: Pending): seq<Update>
    requires Consistent(p)
  {
    seq(|p.order|, i requires 0 <= i < |p.order| => assert p.order[i] in p.order; p.latest[p.order[i]])
  }

  function Lookup(auths: Auths, id: string): Option<Auth> {
    if id in auths then Some(auths[id]) else None
  }

  lemma SameAuths(a: Auths, b: Auths)
    requires forall id :: Lookup(a, id) == Lookup(b, id)
    ensures a == b
  {
    forall id ensures id in a <==> id in b { assert Lookup(a, id) == Lookup(b, id); }
    forall id | id in a ensures a[id] == b[id] { assert Lookup(a, id) == Lookup(b, id); }
  }

  /** Dispatching a batch leaves an ID as the one update held for it says, or alone. */
  lemma BatchAt(auths: Auths, p: Pending, id: string)
    requires Consistent(p)
    ensures Lookup(Replayed(auths, Batch(p)), id)
            == if id in p.latest then Lookup(Consumed(auths, p.latest[id]), id) else Lookup(auths, id)
  {
    var batch := Batch(p);
    if id in p.latest {
      var i :| 0 <= i < |p.order| && p.order[i] == id;
      ReplayedAt(auths, batch, i);
    } else {
      assert forall i :: 0 <= i < |batch| ==> p.order[i] in p.order;
      ReplayedElsewhere(auths, batch, id);
    }
  }

  /** Coalescing one more update has the effect of dispatching it after the batch. */
  lemma BatchOneMore(auths: Auths, p: Pending, u: Update)
    requires Consistent(p)
    ensures Consistent(Enqueued(p, u))
    ensures Replayed(auths, Batch(Enqueued(p, u))) == Consumed(Replayed(auths, Batch(p)), u)
  {
    forall id
      ensures Lookup(Replayed(auths, Batch(Enqueued(p, u))), id) == Lookup(Consumed(Replayed(auths, Batch(p)), u), id)
    {
      BatchAt(auths, p, id);
      BatchAt(auths, Enqueued(p, u), id);
    }
    SameAuths(Replayed(auths, Batch(Enqueued(p, u))), Consumed(Replayed(auths, Batch(p)), u));
  }

  /** Producers enqueue updates; the dispatching loop takes what is pending, whenever it comes around. */
  datatype Dispatch = Enqueue(update: Update) | Drain

  /** The updates sent to the consumer so far, in order, and those still pending. */
  datatype Dispatcher = Dispatcher(sent: seq<Update>, pending: Pending)

  function Dispatched(d: Dispatcher, event: Dispatch): Dispatcher
    requires Consistent(d.pending)
  {
    match event
    case Enqueue(u) => d.(pending := Enqueued(d.pending, u))
    case Drain => Dispatcher(d.sent + Batch(d.pending), Pending([], map[]))
  }

  function RunDispatch(events: seq<Dispatch>): (d: Dispatcher)
    ensures Consistent(d.pending)
  {
    if events == [] then Dispatcher([], Pending([], map[]))
    else
      Dispatched(RunDispatch(events[..|events| - 1]), events[|events| - 1])
  }

  /** All updates that were enqueued, in order. */
  function AllUpdates(events: seq<Dispatch>): seq<Update> {
    if events == [] then []
    else AllUpdates(events[..|events| - 1])
         + if events[|events| - 1].Enqueue? then [events[|events| - 1].update] else []
  }

  lemma {:induction false} ReplayedAppend(auths: Auths, a: seq<Update>, b: seq<Update>)
    ensures Replayed(auths, a + b) == Replayed(Replayed(auths, a), b)
    decreases |b|
  {
    if b == [] {
      assert a + b == a;
    } else {
      assert (a + b)[..|a + b| - 1] == a + b[..|b| - 1];
      ReplayedAppend(auths, a, b[..|b| - 1]);
    }
  }

  /** Coalescing is invisible in every interleaving of producers and the dispatching loop: what was sent,
      and what is pending after it, has the effect of all the updates. */
  lemma {:induction false} CoalescingIsInvisible(auths: Auths, events: seq<Dispatch>)
    ensures var d := RunDispatch(events);
            Replayed(Replayed(auths, d.sent), Batch(d.pending)) == Replayed(auths, AllUpdates(events))
    decreases |events|
  {
    if events != [] {
      var before, last := events[..|events| - 1], events[|events| - 1];
      var d := RunDispatch(before);
      CoalescingIsInvisible(auths, before);
      match last
      case Enqueue(u) =>
        BatchOneMore(Replayed(auths, d.sent), d.pending, u);
        ReplayedAppend(auths, AllUpdates(before), [u]);
        assert [u][..0] == [];
      case Drain =>
        ReplayedAppend(auths, d.sent, Batch(d.pending));
        assert AllUpdates(before) + [] == AllUpdates(before);
        assert Batch(Pending([], map[])) == [];
    }
  }

  /** The updates of the operations of a run, each exact for its operation. */
  ghost predicate ExactRun(s: State, ops: seq<Op>, updates: seq<seq<Update>>)
    decreases |ops|
  {
    |updates| == |ops| &&
    (ops == [] ||
     (var n := |ops| - 1;
      var before := Run(s, ops[..n]);
      && ExactRun(s, ops[..n], updates[..n])
      && if Skipped(before, ops[n]) then updates[n] == []
         else Exact(updates[n], before.current, OldIds(before, ops[n].path), Next(ops[n]))))
  }

  function Flat(updates: seq<seq<Update>>): seq<Update> {
    if updates == [] then [] else Flat(updates[..|updates| - 1]) + updates[|updates| - 1]
  }

  lemma {:induction false} ReplayFollowsFiles(s: State, ops: seq<Op>, updates: seq<seq<Update>>)
    requires ExactRun(s, ops, updates)
    ensures Replayed(s.current, Flat(updates)) == Run(s, ops).current
    decreases |ops|
  {
    if ops != [] {
      var n := |ops| - 1;
      var before := Run(s, ops[..n]);
      ReplayFollowsFiles(s, ops[..n], updates[..n]);
      ReplayedAppend(s.current, Flat(updates[..n]), updates[n]);
      if !Skipped(before, ops[n]) {
        ReplayIsExact(before.current, OldIds(before, ops[n].path), Next(ops[n]), updates[n]);
      }
    }
  }

  /** Over every run of file changes and removals whose updates are enqueued in order, with the dispatching
      loop coming in whenever it does: a consumer that starts from a copy of the credentials and has
      received what was sent is, after what is pending, at the watcher's current credentials. */
  lemma ConsumerFollowsFiles(s: State, ops: seq<Op>, updates: seq<seq<Update>>, events: seq<Dispatch>)
    requires ExactRun(s, ops, updates) && AllUpdates(events) == Flat(updates)
    ensures var d := RunDispatch(events);
            Replayed(Replayed(s.current, d.sent), Batch(d.pending)) == Run(s, ops).current
  {
    ReplayFollowsFiles(s, ops, updates);
    CoalescingIsInvisible(s.current, events);
  }

  /** The dispatcher's fields as the watcher keeps them. */
  class PendingUpdates {
    var pendingUpdates: map<string, Update>
    var pendingOrder: seq<string>

    ghost function Contents(): Pending
      reads this
    {
      Pending(pendingOrder, pendingUpdates)
    }

    constructor ()
      ensures Contents() == Pending([], map[])
    {
      pendingUpdates, pendingOrder := map[], [];
    }

    /** The locked part of handing over some updates. */
    method DispatchAuthUpdates(updates: seq<Update>)
      requires Consistent(Contents())
      modifies this
      ensures Consistent(Contents()) && Contents() == EnqueuedAll(old(Contents()), updates)
    {
      for i := 0 to |updates|
        invariant Consistent(Contents()) && Contents() == EnqueuedAll(old(Contents()), updates[..i])
      {
        var update := updates[i];
        assert updates[..i + 1][..i] == updates[..i];
        if update.id !in pendingUpdates {
          pendingOrder := pendingOrder + [update.id];
        }
        pendingUpdates := pendingUpdates[update.id := update];
      }
      assert updates[..|updates|] == updates;
    }

    /** The locked part of taking the next batch, once something is pending. */
    method NextPendingBatch() returns (batch: seq<Update>)
      requires Consistent(Contents())
      modifies this
      ensures batch == Batch(old(Contents())) && Contents() == Pending([], map[])
    {
      batch := [];
      ghost var was := Contents();
      for i := 0 to |pendingOrder|
        modifies this`pendingUpdates
        invariant batch == Batch(was)[..i]
        invariant pendingUpdates == was.latest - (set k | k in pendingOrder[..i])
      {
        var key := pendingOrder[i];
        assert key in was.order && key !in pendingOrder[..i];
        batch := batch + [pendingUpdates[key]];
        pendingUpdates := pendingUpdates - {key};
        assert pendingOrder[..i + 1] == pendingOrder[..i] + [key];
      }
      assert pendingOrder[..|pendingOrder|] == was.order;
      pendingOrder := [];
    }
  }

  function EnqueuedAll(p: Pending, updates: seq<Update>): Pending {
    if updates == [] then p else Enqueued(EnqueuedAll(p, updates[..|updates| - 1]), updates[|updates| - 1])
  }
}
