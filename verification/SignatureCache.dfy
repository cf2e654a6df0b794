/** The sliding-expiry cache of thinking signatures, in the pieces that are atomic: what it answers over
    whole runs, and exactly when purging it in the background cannot be noticed. */
module SignatureCache {
  import opened Common

  /** Nanoseconds. */
  type Time = int

  /** Three hours. */
  const TTL: Time := 10_800_000_000_000
  const MIN_VALID_SIGNATURE_LEN := 50
  const SENTINEL := "skip_thought_signature_validator"

  datatype Entry = Entry(signature: string, timestamp: Time)

  predicate Contains(s: string, part: string) {
    part <= s || (s != "" && Contains(s[1..], part))
  }

  function ModelGroup(name: string): string {
    if Contains(name, "gpt") then "gpt"
    else if Contains(name, "claude") then "claude"
    else if Contains(name, "gemini") then "gemini"
    else name
  }

  function Miss(group: string): string {
    if group == "gemini" then SENTINEL else ""
  }

  ghost predicate Within(part: string, s: string) {
    exists i :: 0 <= i <= |s| && part <= s[i..]
  }

  lemma {:induction false} ContainsIff(s: string, part: string)
    requires part != ""
    ensures Contains(s, part) <==> Within(part, s)
    decreases |s|
  {
    assert s[0..] == s;
    if s != "" {
      ContainsIff(s[1..], part);
      assert forall i :: 0 <= i < |s| ==> s[1..][i..] == s[i + 1..];
      assert forall i :: 0 < i <= |s| ==> s[i..] == s[1..][i - 1..];
    }
  }

  /** Two names share their signatures exactly if they are the same or speak of the same maker, the first of
      three that is looked for; only for the third there is an answer in place of a signature. */
  lemma NamesShareSignatures(a: string, b: string)
    ensures ModelGroup(a) == ModelGroup(b)
            <==> a == b
                 || (Within("gpt", a) && Within("gpt", b))
                 || (!Within("gpt", a) && !Within("gpt", b) && Within("claude", a) && Within("claude", b))
                 || (!Within("gpt", a) && !Within("gpt", b) && !Within("claude", a) && !Within("claude", b)
                     && Within("gemini", a) && Within("gemini", b))
    ensures Miss(ModelGroup(a))
            == if !Within("gpt", a) && !Within("claude", a) && Within("gemini", a)
               then "skip_thought_signature_validator" else ""
  {
    ContainsIff(a, "gpt");
    ContainsIff(a, "claude");
    ContainsIff(a, "gemini");
    ContainsIff(b, "gpt");
    ContainsIff(b, "claude");
    ContainsIff(b, "gemini");
    assert "gpt"[0] == 'g' && "claude"[0] == 'c' && "gemini"[1] == 'e' && "gpt"[1] == 'p';
  }

  // ---------- buckets ----------

  /** The time from one clearing of a group to the next; `epoch` counts the clearings of everything. */
  datatype Term = Term(group: string, epoch: nat, tenure: nat)

  /** A group's bucket: within a term, a purge that drops the bucket makes way for the next. Whoever has
      fetched a bucket keeps it, dropped or not. */
  datatype Bucket = Bucket(term: Term, life: nat)

  datatype Slot = Slot(bucket: Bucket, hash: string)

  /** All entries, those in dropped and cleared buckets included, and the counts that say which buckets
      are in use. A bucket without entries and one that does not exist are the same. */
  datatype Cache = Cache(entries: map<Slot, Entry>, epoch: nat, tenures: map<string, nat>, lives: map<Term, nat>)

  const EMPTY := Cache(map[], 0, map[], map[])

  function Tenure(c: Cache, group: string): nat {
    if group in c.tenures then c.tenures[group] else 0
  }

  function Life(c: Cache, term: Term): nat {
    if term in c.lives then c.lives[term] else 0
  }

  /** The bucket of a term that no purge has dropped. */
  function InUse(c: Cache, term: Term): Bucket {
    Bucket(term, Life(c, term))
  }

  function Present(c: Cache, group: string): Term {
    Term(group, c.epoch, Tenure(c, group))
  }

  /** The bucket that fetching a group gives now. */
  function Current(c: Cache, group: string): Bucket {
    InUse(c, Present(c, group))
  }

  function Find(c: Cache, bucket: Bucket, hash: string): Option<Entry> {
    if Slot(bucket, hash) in c.entries then Some(c.entries[Slot(bucket, hash)]) else None
  }

  predicate Expired(e: Entry, now: Time) {
    now - e.timestamp > TTL
  }

  function AliveAt(e: Option<Entry>, now: Time): Option<Entry> {
    if e.Some? && !Expired(e.value, now) then e else None
  }

  function Alive(c: Cache, bucket: Bucket, hash: string, now: Time): Option<Entry> {
    AliveAt(Find(c, bucket, hash), now)
  }

  // ---------- steps ----------

  /** Storing and looking up fetch a bucket first and take its lock later. A purge reads the clock once,
      sweeps each bucket under its lock, and drops a group it found empty after releasing the lock. */
  datatype Step =
    | Write(at: Bucket, hash: string, signature: string)
    | Read(at: Bucket, hash: string)
    | Sweep(at: Bucket, reading: Time)
    | Drop(group: string)
    | Clear(group: string)
    | ClearAll

  datatype Event = Event(step: Step, now: Time)

  /** This bucket may have been fetched before. */
  predicate Issued(c: Cache, b: Bucket) {
    && (b.term.epoch < c.epoch || (b.term.epoch == c.epoch && b.term.tenure <= Tenure(c, b.term.group)))
    && b.life <= Life(c, b.term)
  }

  predicate Possible(c: Cache, e: Event) {
    match e.step
    case Write(at, _, _) => Issued(c, at)
    case Read(at, _) => Issued(c, at)
    case Sweep(at, reading) => Issued(c, at) && reading <= e.now
    case _ => true
  }

  function SweptEntries(entries: map<Slot, Entry>, at: Bucket, reading: Time): map<Slot, Entry> {
    map s | s in entries && !(s.bucket == at && Expired(entries[s], reading)) :: entries[s]
  }

  function Stepped(c: Cache, e: Event): Cache {
    match e.step
    case Write(at, hash, signature) => c.(entries := c.entries[Slot(at, hash) := Entry(signature, e.now)])
    case Read(at, hash) =>
      var found := Find(c, at, hash);
      if found.None? then c
      else if Expired(found.value, e.now) then c.(entries := c.entries - {Slot(at, hash)})
      else c.(entries := c.entries[Slot(at, hash) := found.value.(timestamp := e.now)])
    case Sweep(at, reading) => c.(entries := SweptEntries(c.entries, at, reading))
    case Drop(group) => c.(lives := c.lives[Present(c, group) := Life(c, Present(c, group)) + 1])
    case Clear(group) => c.(tenures := c.tenures[group := Tenure(c, group) + 1])
    case ClearAll => c.(epoch := c.epoch + 1)
  }

  /** What a reading step finds. */
  function Answer(c: Cache, e: Event): Option<string> {
    if !e.step.Read? then None
    else
      var alive := Alive(c, e.step.at, e.step.hash, e.now);
      if alive.Some? then Some(alive.value.signature) else None
  }

  function Run(events: seq<Event>, start: Cache := EMPTY): Cache {
    if events == [] then start else Stepped(Run(events[..|events| - 1], start), events[|events| - 1])
  }

  ghost predicate AllPossible(events: seq<Event>)
    decreases |events|
  {
    events == [] ||
    (AllPossible(events[..|events| - 1]) && Possible(Run(events[..|events| - 1]), events[|events| - 1]))
  }

  ghost predicate Ordered(events: seq<Event>) {
    forall i, j :: 0 <= i <= j < |events| ==> events[i].now <= events[j].now
  }

  // ---------- the same run without purges ----------

  predicate Purging(s: Step) {
    s.Sweep? || s.Drop?
  }

  /** Without purges every term has one bucket. */
  function Unpurged(e: Event): Event {
    match e.step
    case Write(at, hash, signature) => e.(step := Write(at.(life := 0), hash, signature))
    case Read(at, hash) => e.(step := Read(at.(life := 0), hash))
    case _ => e
  }

  function UnpurgedStepped(r: Cache, e: Event): Cache {
    if Purging(e.step) then r else Stepped(r, Unpurged(e))
  }

  function UnpurgedRun(events: seq<Event>): Cache {
    if events == [] then EMPTY else UnpurgedStepped(UnpurgedRun(events[..|events| - 1]), events[|events| - 1])
  }

  /** No bucket holds anything before its life. */
  ghost predicate Born(c: Cache) {
    forall s :: s in c.entries ==> s.bucket.life <= Life(c, s.bucket.term)
  }

  /** What is common to the two runs whatever happens. */
  ghost predicate Aligned(c: Cache, r: Cache) {
    c.epoch == r.epoch && c.tenures == r.tenures && r.lives == map[] && Born(c)
  }

  /** Purging is invisible: the buckets in use hold the live entries that they would hold without it, and
      no live entry sits in a bucket that a purge has dropped. */
  ghost predicate Agree(c: Cache, r: Cache, now: Time) {
    && (forall term, h :: Alive(c, InUse(c, term), h, now) == Alive(r, Bucket(term, 0), h, now))
    && (forall b: Bucket, h :: b.life < Life(c, b.term) ==> Alive(c, b, h, now).None?)
  }

  // ---------- exactly which steps can be noticed ----------

  /** A purge has dropped this bucket since it was fetched. */
  predicate Overtaken(c: Cache, b: Bucket) {
    b.life != Life(c, b.term)
  }

  /** A store or a look-up that a purge overtook between its fetching the bucket and locking it (a look-up,
      if there is now something to be found), or a drop of a group that was stored in since its sweep. */
  ghost predicate Disturbs(c: Cache, e: Event) {
    match e.step
    case Write(at, _, _) => Overtaken(c, at)
    case Read(at, h) => Overtaken(c, at) && Alive(c, InUse(c, at.term), h, e.now).Some?
    case Drop(group) => exists h :: Alive(c, Current(c, group), h, e.now).Some?
    case _ => false
  }

  lemma StepKeepsBorn(c: Cache, e: Event)
    requires Born(c) && Possible(c, e)
    ensures Born(Stepped(c, e))
  {
    var c' := Stepped(c, e);
    forall term ensures Life(c, term) <= Life(c', term) {}
    forall s | s in c'.entries ensures s in c.entries || (e.step.Write? && s == Slot(e.step.at, e.step.hash)) {}
  }

  lemma StepKeepsAligned(c: Cache, r: Cache, e: Event)
    requires Aligned(c, r) && Possible(c, e)
    ensures Aligned(Stepped(c, e), UnpurgedStepped(r, e))
  {
    StepKeepsBorn(c, e);
  }

  /** Agreement does not end by time passing. */
  lemma AgreeLater(c: Cache, r: Cache, now: Time, later: Time)
    requires Agree(c, r, now) && now <= later
    ensures Agree(c, r, later)
  {
    forall term, h ensures Alive(c, InUse(c, term), h, later) == Alive(r, Bucket(term, 0), h, later) {
      assert Alive(c, InUse(c, term), h, now) == Alive(r, Bucket(term, 0), h, now);
    }
    forall b: Bucket, h | b.life < Life(c, b.term) ensures Alive(c, b, h, later).None? {
      assert Alive(c, b, h, now).None?;
    }
  }

  lemma WriteAgrees(c: Cache, r: Cache, e: Event)
    requires Aligned(c, r) && Agree(c, r, e.now) && Possible(c, e) && e.step.Write?
    ensures Agree(Stepped(c, e), UnpurgedStepped(r, e), e.now) <==> !Disturbs(c, e)
  {
    var at, h := e.step.at, e.step.hash;
    var c', r' := Stepped(c, e), UnpurgedStepped(r, e);
    forall b, k | b != at || k != h ensures Find(c', b, k) == Find(c, b, k) {}
    forall b, k | b != at.(life := 0) || k != h ensures Find(r', b, k) == Find(r, b, k) {}
    if Overtaken(c, at) {
      assert at.life < Life(c', at.term) && Alive(c', at, h, e.now).Some?;
    } else {
      forall term, k ensures Alive(c', InUse(c', term), k, e.now) == Alive(r', Bucket(term, 0), k, e.now) {
        assert Alive(c, InUse(c, term), k, e.now) == Alive(r, Bucket(term, 0), k, e.now);
      }
      forall b: Bucket, k | b.life < Life(c', b.term) ensures Alive(c', b, k, e.now).None? {
        assert Alive(c, b, k, e.now).None?;
      }
    }
  }

  lemma ReadAgrees(c: Cache, r: Cache, e: Event)
    requires Aligned(c, r) && Agree(c, r, e.now) && Possible(c, e) && e.step.Read?
    ensures (Agree(Stepped(c, e), UnpurgedStepped(r, e), e.now) && Answer(c, e) == Answer(r, Unpurged(e)))
            <==> !Disturbs(c, e)
  {
    var at, h := e.step.at, e.step.hash;
    assert Alive(c, InUse(c, at.term), h, e.now) == Alive(r, at.(life := 0), h, e.now);
    if Overtaken(c, at) { assert Alive(c, at, h, e.now).None?; }
    if !Disturbs(c, e) { UndisturbedReadAgrees(c, r, e); }
  }

  /** What a look-up leaves alive. */
  lemma ReadAlive(c: Cache, e: Event, b: Bucket, k: string)
    requires e.step.Read?
    ensures Alive(Stepped(c, e), b, k, e.now)
            == if b == e.step.at && k == e.step.hash && Alive(c, b, k, e.now).Some?
               then Some(Alive(c, b, k, e.now).value.(timestamp := e.now)) else Alive(c, b, k, e.now)
  {}

  lemma UndisturbedReadAgrees(c: Cache, r: Cache, e: Event)
    requires Aligned(c, r) && Agree(c, r, e.now) && Possible(c, e) && e.step.Read? && !Disturbs(c, e)
    ensures Agree(Stepped(c, e), UnpurgedStepped(r, e), e.now)
  {
    var c', r' := Stepped(c, e), UnpurgedStepped(r, e);
    forall term, k ensures Alive(c', InUse(c', term), k, e.now) == Alive(r', Bucket(term, 0), k, e.now) {
      assert Alive(c, InUse(c, term), k, e.now) == Alive(r, Bucket(term, 0), k, e.now);
      ReadAlive(c, e, InUse(c, term), k);
      ReadAlive(r, Unpurged(e), Bucket(term, 0), k);
    }
    forall b: Bucket, k | b.life < Life(c', b.term) ensures Alive(c', b, k, e.now).None? {
      assert Alive(c, b, k, e.now).None?;
      ReadAlive(c, e, b, k);
    }
  }

  lemma SweepAgrees(c: Cache, r: Cache, e: Event)
    requires Agree(c, r, e.now) && Possible(c, e) && e.step.Sweep?
    ensures Agree(Stepped(c, e), r, e.now)
  {
    var c' := Stepped(c, e);
    forall b, h ensures Alive(c', b, h, e.now) == Alive(c, b, h, e.now) {}
    forall term, h ensures Alive(c', InUse(c', term), h, e.now) == Alive(r, Bucket(term, 0), h, e.now) {
      assert Alive(c, InUse(c, term), h, e.now) == Alive(r, Bucket(term, 0), h, e.now);
    }
  }

  lemma DropAgrees(c: Cache, r: Cache, e: Event)
    requires Aligned(c, r) && Agree(c, r, e.now) && e.step.Drop?
    ensures Agree(Stepped(c, e), r, e.now) <==> !Disturbs(c, e)
  {
    var c', dropped := Stepped(c, e), Present(c, e.step.group);
    forall b, h ensures Alive(c', b, h, e.now) == Alive(c, b, h, e.now) {}
    forall h ensures Alive(c', InUse(c', dropped), h, e.now).None? {}
    forall term, h | term != dropped
      ensures Alive(c', InUse(c', term), h, e.now) == Alive(r, Bucket(term, 0), h, e.now)
    {
      assert Alive(c, InUse(c, term), h, e.now) == Alive(r, Bucket(term, 0), h, e.now);
    }
    forall h ensures Alive(c, InUse(c, dropped), h, e.now) == Alive(r, Bucket(dropped, 0), h, e.now) {}
    if !Disturbs(c, e) {
      forall b: Bucket, h | b.life < Life(c', b.term) ensures Alive(c', b, h, e.now).None? {
        assert b == Current(c, e.step.group) || b.life < Life(c, b.term);
        assert Alive(c, b, h, e.now).None?;
      }
    } else {
      var h :| Alive(c, InUse(c, dropped), h, e.now).Some?;
      assert Alive(c', InUse(c', dropped), h, e.now) != Alive(r, Bucket(dropped, 0), h, e.now);
    }
  }

  lemma ClearAgrees(c: Cache, r: Cache, e: Event)
    requires Agree(c, r, e.now) && (e.step.Clear? || e.step.ClearAll?)
    ensures Agree(Stepped(c, e), UnpurgedStepped(r, e), e.now)
  {
    var c', r' := Stepped(c, e), UnpurgedStepped(r, e);
    forall b, h ensures Alive(c', b, h, e.now) == Alive(c, b, h, e.now) {}
    forall b, h ensures Alive(r', b, h, e.now) == Alive(r, b, h, e.now) {}
    forall term, h ensures Alive(c', InUse(c', term), h, e.now) == Alive(r', Bucket(term, 0), h, e.now) {
      assert Alive(c, InUse(c, term), h, e.now) == Alive(r, Bucket(term, 0), h, e.now);
    }
  }

  /** One step keeps the agreement, and answers alike, exactly if it is not disturbed. */
  lemma StepAgreesIff(c: Cache, r: Cache, e: Event)
    requires Aligned(c, r) && Agree(c, r, e.now) && Possible(c, e)
    ensures Agree(Stepped(c, e), UnpurgedStepped(r, e), e.now) && Answer(c, e) == Answer(r, Unpurged(e))
            <==> !Disturbs(c, e)
  {
    match e.step
    case Write(_, _, _) => WriteAgrees(c, r, e);
    case Read(_, _) => ReadAgrees(c, r, e);
    case Sweep(_, _) => SweepAgrees(c, r, e);
    case Drop(_) => DropAgrees(c, r, e);
    case _ => ClearAgrees(c, r, e);
  }

  /** After every event of the run the caches with and without purges agree, and every look-up does. */
  ghost predicate AlwaysAgree(events: seq<Event>)
    decreases |events|
  {
    events == [] ||
    (var before, last := events[..|events| - 1], events[|events| - 1];
     && AlwaysAgree(before)
     && Agree(Run(events), UnpurgedRun(events), last.now)
     && Answer(Run(before), last) == Answer(UnpurgedRun(before), Unpurged(last)))
  }

  ghost predicate NeverDisturbed(events: seq<Event>, start: Cache := EMPTY)
    decreases |events|
  {
    events == [] ||
    (var before := events[..|events| - 1];
     NeverDisturbed(before, start) && !Disturbs(Run(before, start), events[|events| - 1]))
  }

  lemma {:induction false} RunAligned(events: seq<Event>)
    requires AllPossible(events)
    ensures Aligned(Run(events), UnpurgedRun(events))
    decreases |events|
  {
    if events != [] {
      RunAligned(events[..|events| - 1]);
      StepKeepsAligned(Run(events[..|events| - 1]), UnpurgedRun(events[..|events| - 1]), events[|events| - 1]);
    }
  }

  /** Over every interleaving on a clock that does not go back, purging is invisible exactly if no store,
      look-up or drop is disturbed. */
  lemma {:induction false} PurgingIsInvisible(events: seq<Event>)
    requires AllPossible(events) && Ordered(events)
    ensures AlwaysAgree(events) <==> NeverDisturbed(events)
    decreases |events|
  {
    if events != [] {
      var before, last := events[..|events| - 1], events[|events| - 1];
      PurgingIsInvisible(before);
      RunAligned(before);
      if AlwaysAgree(before) {
        if before != [] { AgreeLater(Run(before), UnpurgedRun(before), before[|before| - 1].now, last.now); }
        StepAgreesIff(Run(before), UnpurgedRun(before), last);
      }
    }
  }

  // ---------- the three ways to notice a purge ----------

  /** A store fetches its bucket, a purge finds it empty and drops it, the store writes into it: the
      signature is lost. */
  lemma OvertakenStoreIsLost(c: Cache, r: Cache, group: string, hash: string, signature: string, now: Time)
    requires Aligned(c, r) && forall h :: Alive(c, Current(c, group), h, now).None?
    ensures var fetched := Current(c, group);
            var dropped := Stepped(Stepped(c, Event(Sweep(fetched, now), now)), Event(Drop(group), now));
            var c' := Stepped(dropped, Event(Write(fetched, hash, signature), now));
            var r' := Stepped(r, Unpurged(Event(Write(fetched, hash, signature), now)));
            && Answer(c', Event(Read(Current(c', group), hash), now)).None?
            && Answer(r', Event(Read(Current(r', group), hash), now)) == Some(signature)
  {}

  /** A purge finds a bucket empty, a store writes into it, the purge drops it: the signature is lost. */
  lemma LateStoreIsLost(c: Cache, r: Cache, group: string, hash: string, signature: string, now: Time)
    requires Aligned(c, r) && forall h :: Alive(c, Current(c, group), h, now).None?
    ensures var fetched := Current(c, group);
            var swept := Stepped(c, Event(Sweep(fetched, now), now));
            var c' := Stepped(Stepped(swept, Event(Write(fetched, hash, signature), now)), Event(Drop(group), now));
            var r' := Stepped(r, Unpurged(Event(Write(fetched, hash, signature), now)));
            && Answer(c', Event(Read(Current(c', group), hash), now)).None?
            && Answer(r', Event(Read(Current(r', group), hash), now)) == Some(signature)
  {
    var fetched := Current(c, group);
    var swept := Stepped(c, Event(Sweep(fetched, now), now));
    var written := Stepped(swept, Event(Write(fetched, hash, signature), now));
    var c' := Stepped(written, Event(Drop(group), now));
    assert Current(c', group) == fetched.(life := fetched.life + 1);
    assert Slot(Current(c', group), hash) !in c.entries && Slot(Current(c', group), hash) !in swept.entries;
  }

  /** A look-up fetches a bucket, a purge drops it, a store writes into the next one: the look-up misses
      what was there before it took its lock. */
  lemma OvertakenLookUpMisses(c: Cache, r: Cache, group: string, hash: string, signature: string, now: Time)
    requires Aligned(c, r) && forall h :: Alive(c, Current(c, group), h, now).None?
    ensures var fetched := Current(c, group);
            var dropped := Stepped(Stepped(c, Event(Sweep(fetched, now), now)), Event(Drop(group), now));
            var write := Event(Write(Current(dropped, group), hash, signature), now);
            var c', r' := Stepped(dropped, write), Stepped(r, Unpurged(write));
            && Answer(c', Event(Read(fetched, hash), now)).None?
            && Answer(r', Unpurged(Event(Read(fetched, hash), now))) == Some(signature)
  {
    assert Alive(c, Current(c, group), hash, now).None?;
  }

  // ---------- an answer is the last signature stored, in time ----------

  predicate Touches(e: Event, b: Bucket, h: string) {
    (e.step.Write? || e.step.Read?) && e.step.at == b && e.step.hash == h
  }

  predicate Stores(e: Event, b: Bucket, h: string) {
    e.step.Write? && Touches(e, b, h)
  }

  /** The history of an entry that is there: it was stored by event `s` and not again since, and from the
      store on it was touched at least once every TTL, last at its timestamp. */
  ghost predicate Provenance(events: seq<Event>, b: Bucket, h: string, e: Entry, s: nat) {
    && s < |events| && Stores(events[s], b, h) && events[s].step.signature == e.signature
    && (forall i :: s < i < |events| ==> !Stores(events[i], b, h))
    && Linked(events, b, h, s, e.timestamp)
  }

  /** From event `s` on, the touches of an entry follow each other within three hours and end at `last`. */
  ghost predicate Linked(events: seq<Event>, b: Bucket, h: string, s: nat, last: Time)
    decreases |events|
  {
    s < |events| &&
    var n := |events| - 1;
    if n == s then last == events[n].now
    else if Touches(events[n], b, h) then
      && last == events[n].now
      && exists previous ::
           events[n].now - previous <= 10_800_000_000_000 && Linked(events[..n], b, h, s, previous)
    else Linked(events[..n], b, h, s, last)
  }

  /** One more event that does not store the entry. */
  lemma ProvenanceOneMore(events: seq<Event>, b: Bucket, h: string, was: Entry, e: Entry, s: nat)
    requires events != [] && Provenance(events[..|events| - 1], b, h, was, s) && e.signature == was.signature
    requires var last := events[|events| - 1];
             && !Stores(last, b, h)
             && if Touches(last, b, h) then e.timestamp == last.now && last.now - was.timestamp <= TTL else e == was
    ensures Provenance(events, b, h, e, s)
  {
    var before := events[..|events| - 1];
    assert forall i :: 0 <= i < |before| ==> events[i] == before[i];
  }

  /** An entry not just stored was there before, and a look-up that found it was in time. */
  lemma KeptFromBefore(c: Cache, e: Event, b: Bucket, h: string)
    requires Find(Stepped(c, e), b, h).Some? && !Stores(e, b, h)
    ensures Find(c, b, h).Some?
    ensures var before, after := Find(c, b, h).value, Find(Stepped(c, e), b, h).value;
            && after.signature == before.signature
            && if Touches(e, b, h) then after.timestamp == e.now && e.now - before.timestamp <= TTL
               else after == before
  {}

  /** Every entry has a provenance, in every interleaving. */
  lemma {:induction false} EntriesHaveProvenance(events: seq<Event>, b: Bucket, h: string) returns (s: nat)
    requires Find(Run(events), b, h).Some?
    ensures Provenance(events, b, h, Find(Run(events), b, h).value, s)
    decreases |events|
  {
    assert events != [];
    var before, last := events[..|events| - 1], events[|events| - 1];
    if Stores(last, b, h) {
      s := |before|;
    } else {
      KeptFromBefore(Run(before), last, b, h);
      s := EntriesHaveProvenance(before, b, h);
      ProvenanceOneMore(events, b, h, Find(Run(before), b, h).value, Find(Run(events), b, h).value, s);
    }
  }

  /** What a look-up finds is the last signature stored in its bucket, and no gap between the store, its
      successive readings and now is longer than the TTL. */
  lemma AnswerIsLastStored(events: seq<Event>, b: Bucket, h: string, now: Time) returns (s: nat, last: Time)
    requires Answer(Run(events), Event(Read(b, h), now)).Some?
    ensures s < |events| && Stores(events[s], b, h)
    ensures Answer(Run(events), Event(Read(b, h), now)) == Some(events[s].step.signature)
    ensures forall i :: s < i < |events| ==> !Stores(events[i], b, h)
    ensures Linked(events, b, h, s, last) && now - last <= 10_800_000_000_000
  {
    s := EntriesHaveProvenance(events, b, h);
    last := Find(Run(events), b, h).value.timestamp;
  }

  /** As long as its touches follow each other within three hours, nothing removes an entry. */
  lemma {:induction false} KeptInTime(events: seq<Event>, b: Bucket, h: string, s: nat, last: Time)
    requires AllPossible(events) && Ordered(events)
    requires s < |events| && Linked(events, b, h, s, last)
    requires Stores(events[s], b, h) && forall i :: s < i < |events| ==> !Stores(events[i], b, h)
    requires forall i :: 0 <= i < |events| ==> events[i].now <= last + 10_800_000_000_000
    ensures Find(Run(events), b, h) == Some(Entry(events[s].step.signature, last))
    decreases |events|
  {
    var n := |events| - 1;
    if s < n {
      var before, e := events[..n], events[n];
      if Touches(e, b, h) {
        var previous :| e.now - previous <= 10_800_000_000_000 && Linked(before, b, h, s, previous);
        KeptInTime(before, b, h, s, previous);
      } else {
        KeptInTime(before, b, h, s, last);
      }
    }
  }

  /** Stored by event `s` and not again since, touched at least every three hours, and last less than three
      hours ago. */
  ghost predicate InTime(events: seq<Event>, b: Bucket, h: string, now: Time, s: nat, last: Time) {
    && s < |events| && Stores(events[s], b, h) && (forall i :: s < i < |events| ==> !Stores(events[i], b, h))
    && Linked(events, b, h, s, last) && now - last <= 10_800_000_000_000
  }

  lemma InTimeIsFound(events: seq<Event>, b: Bucket, h: string, now: Time, s: nat, last: Time)
    requires AllPossible(events) && Ordered(events) && forall i :: 0 <= i < |events| ==> events[i].now <= now
    requires InTime(events, b, h, now, s, last)
    ensures Answer(Run(events), Event(Read(b, h), now)) == Some(events[s].step.signature)
  {
    KeptInTime(events, b, h, s, last);
  }

  /** On a clock that does not go back, a look-up finds a signature exactly if it is in time. */
  lemma FoundIffInTime(events: seq<Event>, b: Bucket, h: string, now: Time, signature: string)
    requires AllPossible(events) && Ordered(events) && forall i :: 0 <= i < |events| ==> events[i].now <= now
    ensures Answer(Run(events), Event(Read(b, h), now)) == Some(signature)
            <==> exists s: nat, last: Time ::
                   InTime(events, b, h, now, s, last) && events[s].step.signature == signature
  {
    if Answer(Run(events), Event(Read(b, h), now)) == Some(signature) {
      var s, last := AnswerIsLastStored(events, b, h, now);
      assert InTime(events, b, h, now, s, last);
    }
    forall s: nat, last: Time | InTime(events, b, h, now, s, last)
      ensures Answer(Run(events), Event(Read(b, h), now)) == Some(events[s].step.signature)
    {
      InTimeIsFound(events, b, h, now, s, last);
    }
  }

  /** Stores that write into the bucket in use. */
  ghost predicate Prompt(events: seq<Event>) {
    forall i :: 0 <= i < |events| && events[i].step.Write? ==>
      events[i].step.at == Current(Run(events[..i]), events[i].step.at.term.group)
  }

  /** `a` was in use no later than `b`. */
  predicate NoLater(a: Bucket, b: Bucket) {
    || a.term.epoch < b.term.epoch
    || (a.term.epoch == b.term.epoch &&
        (a.term.tenure < b.term.tenure || (a.term.tenure == b.term.tenure && a.life <= b.life)))
  }

  /** The bucket in use only moves on, and does whenever the group is dropped or cleared. */
  lemma CurrentMovesOn(c: Cache, e: Event, group: string)
    ensures NoLater(Current(c, group), Current(Stepped(c, e), group))
    ensures e.step == Drop(group) || e.step == Clear(group) || e.step.ClearAll? ==>
              Current(c, group) != Current(Stepped(c, e), group)
  {}

  lemma {:induction false} CurrentOnlyMovesOn(events: seq<Event>, i: nat, group: string)
    requires i <= |events|
    ensures NoLater(Current(Run(events[..i]), group), Current(Run(events), group))
    decreases |events| - i
  {
    if i == |events| {
      assert events[..i] == events;
    } else {
      assert events[..i + 1][..i] == events[..i];
      CurrentMovesOn(Run(events[..i]), events[i], group);
      CurrentOnlyMovesOn(events, i + 1, group);
    }
  }

  /** If stores and the look-up use the bucket in use, then what is found is the last signature stored for
      the group and hash at all, and the group has been neither cleared nor dropped since. */
  lemma PromptAnswerIsLastOfGroup(events: seq<Event>, group: string, h: string, now: Time) returns (s: nat)
    requires Prompt(events)
    requires Answer(Run(events), Event(Read(Current(Run(events), group), h), now)).Some?
    ensures s < |events| && Stores(events[s], Current(Run(events), group), h)
    ensures Answer(Run(events), Event(Read(Current(Run(events), group), h), now)) == Some(events[s].step.signature)
    ensures forall i :: s < i < |events| ==> !Renews(events[i].step, group, h)
  {
    var b := Current(Run(events), group);
    var last;
    s, last := AnswerIsLastStored(events, b, h, now);
    assert events[s].step.at == Current(Run(events[..s]), group);
    forall i | s < i < |events| ensures !Renews(events[i].step, group, h) {
      UnmovedBetween(events, s, i, group);
      UnmovedBetween(events, s, i + 1, group);
      RunOneMore(events, i);
      NotRenewing(Run(events[..i]), events[i], group, h);
    }
  }

  /** A store for the group and hash, or something that puts another bucket in use. */
  predicate Renews(e: Step, group: string, h: string) {
    (e.Write? && e.at.term.group == group && e.hash == h) || e == Drop(group) || e == Clear(group) || e.ClearAll?
  }

  lemma RunOneMore(events: seq<Event>, i: nat)
    requires i < |events|
    ensures Run(events[..i + 1]) == Stepped(Run(events[..i]), events[i])
  {
    assert events[..i + 1][..i] == events[..i];
  }

  lemma NotRenewing(c: Cache, e: Event, group: string, h: string)
    requires Current(c, group) == Current(Stepped(c, e), group) && !Stores(e, Current(c, group), h)
    requires e.step.Write? ==> e.step.at == Current(c, e.step.at.term.group)
    ensures !Renews(e.step, group, h)
  {
    CurrentMovesOn(c, e, group);
  }

  /** The bucket in use at the end was in use all the time since it first was. */
  lemma UnmovedBetween(events: seq<Event>, s: nat, i: nat, group: string)
    requires s <= i <= |events| && Current(Run(events[..s]), group) == Current(Run(events), group)
    ensures Current(Run(events[..i]), group) == Current(Run(events), group)
  {
    CurrentOnlyMovesOn(events, i, group);
    assert events[..i][..s] == events[..s];
    CurrentOnlyMovesOn(events[..i], s, group);
  }

  // ---------- the cache as objects ----------

  /** The same buckets are in use, and the same have been. */
  ghost predicate SameCounts(c: Cache, d: Cache) {
    && (forall g :: Current(c, g) == Current(d, g))
    && (forall b :: Issued(c, b) <==> Issued(d, b))
  }

  predicate OnBucket(s: Step) {
    s.Write? || s.Read? || s.Sweep?
  }

  /** What the steps on a bucket do to its entries. */
  function BucketStepped(entries: map<string, Entry>, e: Event): map<string, Entry> {
    match e.step
    case Write(_, hash, signature) => entries[hash := Entry(signature, e.now)]
    case Read(_, hash) =>
      if hash !in entries then entries
      else if Expired(entries[hash], e.now) then entries - {hash}
      else entries[hash := entries[hash].(timestamp := e.now)]
    case Sweep(_, reading) => map h | h in entries && !Expired(entries[h], reading) :: entries[h]
    case _ => entries
  }

  function At(entries: map<string, Entry>, hash: string): Option<Entry> {
    if hash in entries then Some(entries[hash]) else None
  }

  lemma BucketEffect(c: Cache, e: Event, b: Bucket, h: string, entries: map<string, Entry>)
    requires OnBucket(e.step)
    requires b == e.step.at ==> forall k :: Find(c, b, k) == At(entries, k)
    ensures SameCounts(c, Stepped(c, e))
    ensures Find(Stepped(c, e), b, h) == if b == e.step.at then At(BucketStepped(entries, e), h) else Find(c, b, h)
  {
    assert b == e.step.at ==> Find(c, b, h) == At(entries, h);
  }

  /** Dropping or clearing a group puts a bucket in use that has not been before. */
  lemma GroupEffect(c: Cache, e: Event, g: string)
    requires e.step.Drop? || e.step.Clear? || e.step.ClearAll?
    ensures Stepped(c, e).entries == c.entries
    ensures forall b :: Issued(c, b) ==> Issued(Stepped(c, e), b)
    ensures if e.step == Drop(g) || e.step == Clear(g) || e.step.ClearAll?
            then !Issued(c, Current(Stepped(c, e), g))
            else Current(Stepped(c, e), g) == Current(c, g)
  {}

  /** A bucket, with the name that the steps know it by. */
  class GroupCache {
    var entries: map<string, Entry>
    ghost const id: Bucket

    constructor (ghost id: Bucket)
      ensures entries == map[] && this.id == id
    {
      entries, this.id := map[], id;
    }
  }

  class SignatureStore {
    var groups: map<string, GroupCache>
    /** Every bucket there ever was, by its name, and the cache that they make up. */
    ghost var all: map<Bucket, GroupCache>
    ghost var model: Cache

    ghost function Repr(): set<object>
      reads this
    {
      {this} + set b | b in all :: all[b]
    }

    /** The buckets are those that were fetched, each under its own name, and a group's is the one in use. */
    ghost predicate Named()
      reads this, Repr()
    {
      && (forall b :: b in all ==> all[b].id == b && Issued(model, b))
      && (forall g :: g in groups ==> Current(model, g) in all && groups[g] == all[Current(model, g)])
      && (forall g :: g !in groups ==> Current(model, g) !in all)
    }

    ghost predicate Mirrored(b: Bucket, h: string)
      requires b in all
      reads this, Repr()
    {
      Find(model, b, h) == At(all[b].entries, h)
    }

    ghost predicate Valid()
      reads this, Repr()
    {
      && Named()
      && (forall b, h :: b in all ==> Mirrored(b, h))
      && (forall s :: s in model.entries ==> s.bucket in all)
    }

    /** A bucket that somebody fetched. */
    ghost predicate Holds(sc: GroupCache)
      reads this, Repr()
    {
      sc.id in all && all[sc.id] == sc
    }

    constructor ()
      ensures Valid() && model == EMPTY && fresh(Repr())
    {
      groups, all, model := map[], map[], EMPTY;
    }

    method GetOrCreateGroupCache(group: string) returns (sc: GroupCache)
      requires Valid()
      modifies this`groups, this`all
      ensures Valid() && fresh(Repr() - old(Repr())) && Holds(sc) && sc.id == Current(model, group)
      ensures forall b :: b in old(all) ==> b in all && all[b] == old(all[b])
    {
      if group in groups { return groups[group]; }
      ghost var b := Current(model, group);
      sc := new GroupCache(b);
      groups := groups[group := sc];
      all := all[b := sc];
      forall d, h | d in all ensures Mirrored(d, h) {
        if d == b { assert Slot(b, h).bucket !in old(all); } else { assert old(Mirrored(d, h)); }
      }
    }

    /** Give a bucket the entries that a step on it leads to. */
    method Rewrite(sc: GroupCache, entries: map<string, Entry>, ghost e: Event)
      requires Valid() && Holds(sc) && OnBucket(e.step) && e.step.at == sc.id
      requires entries == BucketStepped(sc.entries, e)
      modifies sc, this`model
      ensures Valid() && model == Stepped(old(model), e) && sc.entries == entries
    {
      ghost var before := sc.entries;
      forall k ensures Find(model, sc.id, k) == At(before, k) { assert Mirrored(sc.id, k); }
      sc.entries := entries;
      model := Stepped(model, e);
      BucketEffect(old(model), e, sc.id, "", before);
      assert Named();
      forall b, h | b in all ensures Mirrored(b, h) {
        BucketEffect(old(model), e, b, h, before);
        assert old(Mirrored(b, h));
      }
      forall s | s in model.entries ensures s.bucket in all {
        BucketEffect(old(model), e, s.bucket, s.hash, before);
      }
    }

    /** The locked part of storing. */
    method Store(sc: GroupCache, hash: string, signature: string, now: Time)
      requires Valid() && Holds(sc)
      modifies sc, this`model
      ensures Valid() && model == Stepped(old(model), Event(Write(sc.id, hash, signature), now))
    {
      Rewrite(sc, sc.entries[hash := Entry(signature, now)], Event(Write(sc.id, hash, signature), now));
    }

    method CacheSignature(hash: string -> string, name: string, text: string, signature: string, now: Time)
      requires Valid()
      modifies Repr()
      ensures Valid() && fresh(Repr() - old(Repr()))
      ensures var at := Current(old(model), ModelGroup(name));
              model == if text != "" && |signature| >= 50
                       then Stepped(old(model), Event(Write(at, hash(text), signature), now)) else old(model)
    {
      if text == "" || signature == "" { return; }
      if |signature| < MIN_VALID_SIGNATURE_LEN { return; }
      var sc := GetOrCreateGroupCache(ModelGroup(name));
      Store(sc, hash(text), signature, now);
    }

    /** The locked part of a look-up. */
    method LookUp(sc: GroupCache, hash: string, now: Time) returns (signature: Option<string>)
      requires Valid() && Holds(sc)
      modifies sc, this`model
      ensures Valid() && model == Stepped(old(model), Event(Read(sc.id, hash), now))
      ensures signature == Answer(old(model), Event(Read(sc.id, hash), now))
    {
      ghost var e := Event(Read(sc.id, hash), now);
      assert Mirrored(sc.id, hash);
      if hash !in sc.entries {
        Rewrite(sc, sc.entries, e);
        return None;
      }
      var entry := sc.entries[hash];
      if now - entry.timestamp > TTL {
        Rewrite(sc, sc.entries - {hash}, e);
        return None;
      }
      Rewrite(sc, sc.entries[hash := entry.(timestamp := now)], e);
      return Some(entry.signature);
    }

    method GetCachedSignature(hash: string -> string, name: string, text: string, now: Time)
      returns (signature: string)
      requires Valid()
      modifies Repr()
      ensures Valid() && Repr() == old(Repr())
      ensures var read := Event(Read(Current(old(model), ModelGroup(name)), hash(text)), now);
              && model == (if text == "" then old(model) else Stepped(old(model), read))
              && signature == match (if text == "" then None else Answer(old(model), read))
                              case Some(found) => found
                              case None => Miss(ModelGroup(name))
    {
      var group := ModelGroup(name);
      if text == "" || group !in groups { return Miss(group); }
      var found := LookUp(groups[group], hash(text), now);
      return if found.Some? then found.value else Miss(group);
    }

    /** What a purge does to a bucket under its lock. */
    method SweepGroup(sc: GroupCache, reading: Time, ghost now: Time) returns (isEmpty: bool)
      requires Valid() && Holds(sc)
      modifies sc, this`model
      ensures Valid() && model == Stepped(old(model), Event(Sweep(sc.id, reading), now))
      ensures isEmpty <==> sc.entries == map[]
      ensures forall h :: h in sc.entries ==> !Expired(sc.entries[h], reading)
    {
      var live, todo := sc.entries, sc.entries.Keys;
      while todo != {}
        invariant todo <= live.Keys <= sc.entries.Keys
        invariant forall h :: h in live ==> live[h] == sc.entries[h]
        invariant forall h :: h in sc.entries && h !in todo ==> (h in live <==> !Expired(sc.entries[h], reading))
        decreases todo
      {
        var h :| h in todo;
        todo := todo - {h};
        if reading - live[h].timestamp > TTL { live := live - {h}; }
      }
      Rewrite(sc, live, Event(Sweep(sc.id, reading), now));
      isEmpty := sc.entries == map[];
    }

    /** A purge that nobody interrupts: sweeps, and drops of what they left empty. None of its steps can be
        noticed, and it leaves neither expired entries nor empty buckets in use. */
    method PurgeExpiredCaches(now: Time) returns (ghost events: seq<Event>)
      requires Valid()
      modifies Repr()
      ensures Valid() && all == old(all)
      ensures PurgeLeads(old(model), events, now, model)
      ensures PurgedBut({}, now)
    {
      events := [];
      var todo := groups.Keys;
      while todo != {}
        invariant Valid() && all == old(all)
        invariant todo <= groups.Keys && PurgedBut(todo, now)
        invariant PurgeLeads(old(model), events, now, model)
        decreases todo
      {
        var g :| g in todo;
        ghost var mid, done := model, events;
        ghost var more := PurgeGroup(g, now, todo);
        todo := todo - {g};
        events := done + more;
        PurgeLeadsOn(old(model), done, mid, more, now, model);
      }
    }

    /** The groups, except for some, have buckets with unexpired entries and no others. */
    ghost predicate PurgedBut(todo: set<string>, now: Time)
      requires Named()
      reads this, Repr()
    {
      forall g :: g in groups && g !in todo ==> Purged(groups[g], now)
    }

    /** No two groups have the same bucket. */
    lemma OwnBuckets(g: string)
      requires Named() && g in groups
      ensures forall k :: k in groups && k != g ==> groups[k] != groups[g]
    {
      forall k | k in groups && k != g ensures groups[k] != groups[g] {
        assert groups[k].id == Current(model, k) && groups[g].id == Current(model, g);
      }
    }

    ghost predicate Purged(sc: GroupCache, now: Time)
      reads sc
    {
      sc.entries != map[] && forall h :: h in sc.entries ==> !Expired(sc.entries[h], now)
    }

    /** One turn of the purge. */
    method PurgeGroup(g: string, now: Time, ghost todo: set<string>) returns (ghost events: seq<Event>)
      requires Valid() && g in todo && todo <= groups.Keys && PurgedBut(todo, now)
      modifies this`groups, this`model, groups[g]
      ensures Valid() && todo - {g} <= groups.Keys && PurgedBut(todo - {g}, now)
      ensures PurgeLeads(old(model), events, now, model)
    {
      OwnBuckets(g);
      var sc := groups[g];
      ghost var sweep, drop := Event(Sweep(sc.id, now), now), Event(Drop(g), now);
      var isEmpty := SweepGroup(sc, now, now);
      SingleEvent(old(model), sweep);
      events := [sweep];
      if isEmpty {
        forall h ensures Alive(model, Current(model, g), h, now).None? { assert Mirrored(sc.id, h); }
        SingleEvent(model, drop);
        RunAppends(old(model), [sweep], [drop]);
        DropGroup(g, now);
        events := [sweep] + [drop];
      }
    }

    /** Take groups out of use, as a drop or a clearing does. */
    method Retire(kept: map<string, GroupCache>, ghost e: Event)
      requires Valid() && (e.step.Drop? || e.step.Clear? || e.step.ClearAll?)
      requires kept == match e.step
                       case Drop(g) => groups - {g}
                       case Clear(g) => groups - {g}
                       case _ => map[]
      modifies this`groups, this`model
      ensures Valid() && groups == kept && model == Stepped(old(model), e)
    {
      groups := kept;
      model := Stepped(model, e);
      forall g ensures g in groups ==> Current(model, g) in all && groups[g] == all[Current(model, g)]
               ensures g !in groups ==> Current(model, g) !in all
      {
        GroupEffect(old(model), e, g);
      }
      GroupEffect(old(model), e, "");
      forall b, h | b in all ensures Mirrored(b, h) {
        assert old(Mirrored(b, h));
      }
    }

    /** What a purge does afterwards to a group whose bucket it found empty. */
    method DropGroup(group: string, ghost now: Time)
      requires Valid()
      modifies this`groups, this`model
      ensures Valid() && groups == old(groups) - {group}
      ensures model == Stepped(old(model), Event(Drop(group), now))
    {
      Retire(groups - {group}, Event(Drop(group), now));
    }

    method ClearSignatureCache(name: string, ghost now: Time)
      requires Valid()
      modifies this`groups, this`model
      ensures Valid()
      ensures model == Stepped(old(model), Event(if name == "" then ClearAll else Clear(ModelGroup(name)), now))
    {
      if name == "" {
        Retire(map[], Event(ClearAll, now));
      } else {
        Retire(groups - {ModelGroup(name)}, Event(Clear(ModelGroup(name)), now));
      }
    }
  }

  /** The steps of a purge at `now`, none of which can be noticed, lead from `start` to `end`. */
  ghost predicate PurgeLeads(start: Cache, events: seq<Event>, now: Time, end: Cache) {
    && end == Run(events, start) && NeverDisturbed(events, start)
    && forall i :: 0 <= i < |events| ==> Purging(events[i].step) && events[i].now == now
  }

  lemma PurgeLeadsOn(start: Cache, a: seq<Event>, mid: Cache, b: seq<Event>, now: Time, end: Cache)
    requires PurgeLeads(start, a, now, mid) && PurgeLeads(mid, b, now, end)
    ensures PurgeLeads(start, a + b, now, end)
  {
    RunAppends(start, a, b);
  }

  lemma SingleEvent(start: Cache, e: Event)
    ensures Run([e], start) == Stepped(start, e) && (NeverDisturbed([e], start) <==> !Disturbs(start, e))
  {
    assert [e][..0] == [];
  }

  lemma {:induction false} RunAppends(start: Cache, a: seq<Event>, b: seq<Event>)
    ensures Run(a + b, start) == Run(b, Run(a, start))
    ensures NeverDisturbed(a, start) && NeverDisturbed(b, Run(a, start)) ==> NeverDisturbed(a + b, start)
    decreases |b|
  {
    if b == [] {
      assert a + b == a;
    } else {
      assert (a + b)[..|a + b| - 1] == a + b[..|b| - 1];
      RunAppends(start, a, b[..|b| - 1]);
    }
  }
}
