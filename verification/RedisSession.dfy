/** The authenticated session in front of the usage queue: one command after
    the other off the stream, one reply for each, while others use the queue. */
module RedisSession {
  import opened Common
  import opened Resp
  import opened UsageQueue

  // ---------- text ----------

  function Bytes(s: string): bytes {
    seq(|s|, i requires 0 <= i < |s| => (s[i] as int) % 256)
  }

  predicate IsSpaceByte(b: byte) {
    9 <= b <= 13 || b == 32
  }

  function TrimStart(s: bytes): bytes {
    if s != [] && IsSpaceByte(s[0]) then TrimStart(s[1..]) else s
  }

  function TrimEnd(s: bytes): bytes {
    if s != [] && IsSpaceByte(s[|s| - 1]) then TrimEnd(s[..|s| - 1]) else s
  }

  function Trim(s: bytes): bytes {
    TrimEnd(TrimStart(s))
  }

  function Upper(s: bytes): bytes {
    seq(|s|, i requires 0 <= i < |s| => if 97 <= s[i] <= 122 then s[i] - 32 else s[i])
  }

  function Lower(s: bytes): bytes {
    seq(|s|, i requires 0 <= i < |s| => if 65 <= s[i] <= 90 then s[i] + 32 else s[i])
  }

  // ---------- replies ----------

  datatype Refusal =
    | EmptyCommand
    | NoAuth
    | Denied(message: bytes)
    | AuthArity
    | RemoteDisabled
    | PopArity(command: bytes)
    | OutOfRange
    | UnknownCommand(command: bytes)

  datatype Reply =
    | ErrorReply(refusal: Refusal)
    | Accepted
    | NilBulk
    | Bulk(payload: bytes)
    | Array(payloads: seq<bytes>)

  function Present(payloads: seq<bytes>): seq<Option<bytes>> {
    if payloads == [] then [] else [Some(payloads[0])] + Present(payloads[1..])
  }

  function ErrorLine(text: bytes): bytes {
    [MINUS] + text + CRLF
  }

  function RefusalText(refusal: Refusal): bytes {
    match refusal
    case EmptyCommand => Bytes("ERR empty command")
    case NoAuth => Bytes("NOAUTH Authentication required.")
    case Denied(message) => Bytes("ERR ") + message
    case AuthArity => Bytes("ERR wrong number of arguments for 'auth' command")
    case RemoteDisabled => Bytes("ERR remote management disabled")
    case PopArity(command) => Bytes("ERR wrong number of arguments for '") + Lower(command) + Bytes("' command")
    case OutOfRange => Bytes("ERR value is not an integer or out of range")
    case UnknownCommand(command) => Bytes("ERR unknown command '") + Lower(command) + Bytes("'")
  }

  function Encode(reply: Reply): bytes {
    match reply
    case ErrorReply(refusal) => ErrorLine(RefusalText(refusal))
    case Accepted => Bytes("+OK\r\n")
    case NilBulk => NIL_BULK
    case Bulk(payload) => BulkString(Some(payload))
    case Array(payloads) => ArrayOfBulkStrings(Present(payloads))
  }

  // ---------- one command ----------

  datatype AuthResult = AuthResult(allowed: bool, banned: bool, message: bytes)

  /** What the surroundings do during one turn of the session loop: whether the management routes
      are on, the time, the management key check if there is one, and whether the flush succeeds. */
  datatype Tick = Tick(routesEnabled: bool, now: Time, mgmt: Option<bytes -> AuthResult>, flushed: bool)

  datatype Outcome = Outcome(authed: bool, h: History, reply: Reply)

  /** A banned client is told so instead. */
  function BannedOr(tick: Tick, refusal: Refusal): Reply {
    if tick.mgmt.Some? && tick.mgmt.value([]).banned then ErrorReply(Denied(tick.mgmt.value([]).message))
    else ErrorReply(refusal)
  }

  function ParseAuthPassword(args: seq<bytes>): Option<bytes> {
    if |args| == 2 then Some(args[1]) else if |args| == 3 then Some(args[2]) else None
  }

  datatype PopCount = PopCount(count: int, hasCount: bool)

  function ParsePopCount(args: seq<bytes>): Option<PopCount> {
    if |args| == 2 then Some(PopCount(1, false))
    else if |args| == 3 then
      var parsed := Atoi(Trim(args[2]));
      Some(PopCount(if parsed.None? then 0 else parsed.value, true))
    else None
  }

  function Command(args: seq<bytes>): bytes
    requires args != []
  {
    Upper(Trim(args[0]))
  }

  const AUTH: bytes := [65, 85, 84, 72]
  const LPOP: bytes := [76, 80, 79, 80]
  const RPOP: bytes := [82, 80, 79, 80]

  predicate IsAuth(args: seq<bytes>) {
    args != [] && Command(args) == AUTH
  }

  predicate IsPop(args: seq<bytes>) {
    args != [] && (Command(args) == LPOP || Command(args) == RPOP)
  }

  function Authenticate(authed: bool, h: History, args: seq<bytes>, tick: Tick): Outcome {
    var password := ParseAuthPassword(args);
    if password.None? then
      Outcome(authed, h, BannedOr(tick, AuthArity))
    else if tick.mgmt.None? then
      Outcome(authed, h, ErrorReply(RemoteDisabled))
    else
      var result := tick.mgmt.value(password.value);
      if !result.allowed then Outcome(authed, h, ErrorReply(Denied(result.message)))
      else Outcome(true, h, Accepted)
  }

  function PopCommand(h: History, args: seq<bytes>, tick: Tick): Outcome
    requires IsPop(args)
  {
    var parsed := ParsePopCount(args);
    if parsed.None? then
      Outcome(true, h, ErrorReply(PopArity(Command(args))))
    else if parsed.value.count <= 0 then
      Outcome(true, h, ErrorReply(OutOfRange))
    else
      var items := Oldest(h, parsed.value.count, tick.now);
      Outcome(true, PoppedOff(h, parsed.value.count, tick.now),
              if parsed.value.hasCount then Array(items)
              else if items == [] then NilBulk else Bulk(items[0]))
  }

  /** What one complete command does to the session and the queue, and what it is answered. */
  function Respond(authed: bool, h: History, args: seq<bytes>, tick: Tick): Outcome {
    if args == [] then Outcome(authed, h, ErrorReply(EmptyCommand))
    else if !IsAuth(args) && !authed then Outcome(authed, h, BannedOr(tick, NoAuth))
    else if IsAuth(args) then Authenticate(authed, h, args, tick)
    else if IsPop(args) then PopCommand(h, args, tick)
    else Outcome(authed, h, ErrorReply(UnknownCommand(Command(args))))
  }

  // ---------- the session among other users of the queue ----------

  /** A command, what it was answered, and the management key check at that time, if there was one. */
  datatype Exchange = Exchange(args: seq<bytes>, reply: Reply, check: Option<bytes -> AuthResult>)

  /** A connection, the queue behind it, the commands answered so far, the text sent
      when a read failed, and every payload that was handed to anybody. */
  datatype World = World(
    input: bytes, output: bytes, authed: bool, open: bool,
    h: History, log: seq<Exchange>, farewell: bytes, delivered: seq<bytes>)

  function ErrorText(e: ReadError): bytes {
    match e
    case UnexpectedEof => Bytes("ERR unexpected EOF")
    case Protocol => Bytes("ERR protocol error")
    case Eof => []
  }

  function Payload(reply: Reply): seq<bytes> {
    match reply
    case Bulk(p) => [p]
    case Array(ps) => ps
    case _ => []
  }

  /** The world after a command was answered. */
  function Answered(w: World, args: seq<bytes>, rest: bytes, o: Outcome, tick: Tick): World {
    w.(input := rest, output := w.output + Encode(o.reply), authed := o.authed, open := tick.flushed,
       h := o.h, log := w.log + [Exchange(args, o.reply, tick.mgmt)], delivered := w.delivered + Payload(o.reply))
  }

  /** One turn of the session loop. */
  function Turn(w: World, tick: Tick): World {
    if !w.open then w
    else if !tick.routesEnabled then w.(open := false)
    else match ReadArray(w.input)
      case Fail(Eof) => w.(open := false)
      case Fail(e) => 
        w.(open := false, output := w.output + ErrorLine(ErrorText(e)), farewell := ErrorLine(ErrorText(e)))
      case Ok(args, rest) =>
        Answered(w, args, rest, Respond(w.authed, w.h, args, tick), tick)
  }

  datatype Event = Serve(tick: Tick) | Other(op: Op)

  function Step(w: World, e: Event): World {
    match e
    case Serve(tick) => Turn(w, tick)
    case Other(op) => w.(h := Applied(w.h, op), delivered := w.delivered + Returned(w.h, op))
  }

  function Run(w: World, events: seq<Event>): World {
    if events == [] then w else Step(Run(w, events[..|events| - 1]), events[|events| - 1])
  }

  function Opened(input: bytes, h: History): World {
    World(input, [], false, true, h, [], [], HandedOut(h.departed))
  }

  // ---------- what every run keeps ----------

  function Replies(log: seq<Exchange>): bytes {
    if log == [] then [] else Replies(log[..|log| - 1]) + Encode(log[|log| - 1].reply)
  }

  /** The commands at the front of a stream, read one after the other, leave `rest`. */
  ghost predicate Commands(input: bytes, log: seq<Exchange>, rest: bytes) {
    if log == [] then rest == input
    else exists mid :: Commands(input, log[..|log| - 1], mid)
                       && ReadArray(mid) == Ok(log[|log| - 1].args, rest)
  }

  /** No reply carries queue data, or is a nil, before an accepted AUTH. */
  ghost predicate AuthFirst(log: seq<Exchange>) {
    forall i :: 0 <= i < |log| && !log[i].reply.ErrorReply? && !log[i].reply.Accepted? ==> AcceptedBefore(log, i)
  }

  /** The wire: what was read is answered one for one, in order. */
  ghost predicate WireInv(input: bytes, rest: bytes, output: bytes, log: seq<Exchange>, farewell: bytes) {
    Commands(input, log, rest) && output == Replies(log) + farewell
  }

  /** Apart from white space around it, `arg` is this upper-case word in any spelling. */
  ghost predicate IsWord(arg: bytes, word: bytes) {
    exists i, j :: 0 <= i <= j <= |arg| && Padded(arg, i, j) && Spells(arg[i..j], word)
  }

  ghost predicate Padded(arg: bytes, i: nat, j: nat) {
    forall k :: 0 <= k < |arg| && (k < i || j <= k) ==> 9 <= arg[k] <= 13 || arg[k] == 32
  }

  predicate Spells(text: bytes, word: bytes) {
    && |text| == |word|
    && forall k :: 0 <= k < |word| ==> var above := text[k] as int - word[k] as int; above == 0 || above == 32
  }

  /** "AUTH" with a password, or with a user name and a password. */
  ghost predicate AsksForAccess(args: seq<bytes>) {
    (|args| == 2 || |args| == 3) && IsWord(args[0], [65, 85, 84, 72])
  }

  function Key(args: seq<bytes>): bytes
    requires |args| == 2 || |args| == 3
  {
    if |args| == 2 then args[1] else args[2]
  }

  /** An AUTH whose key the management check allowed at that time. */
  ghost predicate KeyAllowed(x: Exchange) {
    AsksForAccess(x.args) && x.check.Some? && x.check.value(Key(x.args)).allowed
  }

  /** A refused AUTH is told why, and before authentication anything else is refused. */
  ghost predicate RefusalFits(x: Exchange, authed: bool) {
    var banned := x.check.Some? && x.check.value([]).banned;
    && (x.args == [] ==> x.reply == ErrorReply(EmptyCommand))
    && (AsksForAccess(x.args) && x.check.None? ==> x.reply == ErrorReply(RemoteDisabled))
    && (AsksForAccess(x.args) && x.check.Some? && !x.check.value(Key(x.args)).allowed ==>
          x.reply == ErrorReply(Denied(x.check.value(Key(x.args)).message)))
    && (x.args != [] && !AsksForAccess(x.args) && (!authed || IsWord(x.args[0], [65, 85, 84, 72])) ==>
          x.reply == ErrorReply(if banned then Denied(x.check.value([]).message)
                                else if IsWord(x.args[0], [65, 85, 84, 72]) then AuthArity else NoAuth))
  }

  ghost predicate AcceptedBefore(log: seq<Exchange>, i: nat) {
    exists j :: 0 <= j < i && j < |log| && log[j].reply.Accepted?
  }

  /** Authentication: exactly the AUTHs with an allowed key are accepted, they alone authenticate, queue
      data comes after one, and refusals are as they should be. */
  ghost predicate AuthInv(authed: bool, log: seq<Exchange>) {
    && (authed <==> AcceptedBefore(log, |log|))
    && AuthFirst(log)
    && (forall i :: 0 <= i < |log| ==> (log[i].reply.Accepted? <==> KeyAllowed(log[i])))
    && (forall i :: 0 <= i < |log| ==> RefusalFits(log[i], AcceptedBefore(log, i)))
  }

  /** The queue: nothing is lost or duplicated, and what was handed out is what left as popped. */
  ghost predicate QueueInv(h: History, delivered: seq<bytes>) {
    Conserved(h) && HandedOut(h.departed) == delivered
  }

  ghost predicate Inv(input: bytes, w: World) {
    && WireInv(input, w.input, w.output, w.log, w.farewell)
    && (w.farewell != [] ==> !w.open)
    && AuthInv(w.authed, w.log)
    && QueueInv(w.h, w.delivered)
  }

  // ---------- trimmed and upper-cased words ----------

  lemma {:induction false} TrimStartIs(s: bytes, i: nat)
    requires i <= |s| && (forall k :: 0 <= k < i ==> IsSpaceByte(s[k])) && (i < |s| ==> !IsSpaceByte(s[i]))
    ensures TrimStart(s) == s[i..]
  {
    if i > 0 {
      TrimStartIs(s[1..], i - 1);
      assert s[1..][i - 1..] == s[i..];
    }
  }

  lemma {:induction false} TrimEndIs(s: bytes, j: nat)
    requires j <= |s| && (forall k :: j <= k < |s| ==> IsSpaceByte(s[k])) && (j > 0 ==> !IsSpaceByte(s[j - 1]))
    ensures TrimEnd(s) == s[..j]
    decreases |s|
  {
    if j < |s| {
      TrimEndIs(s[..|s| - 1], j);
      assert s[..|s| - 1][..j] == s[..j];
    } else {
      assert s[..j] == s;
    }
  }

  lemma TrimIs(s: bytes, i: nat, j: nat)
    requires i < j <= |s| && Padded(s, i, j) && !IsSpaceByte(s[i]) && !IsSpaceByte(s[j - 1])
    ensures Trim(s) == s[i..j]
  {
    TrimStartIs(s, i);
    TrimEndIs(s[i..], j - i);
    assert s[i..][..j - i] == s[i..j];
  }

  lemma {:induction false} TrimStartAt(s: bytes) returns (i: nat)
    ensures i <= |s| && TrimStart(s) == s[i..] && forall k :: 0 <= k < i ==> IsSpaceByte(s[k])
  {
    if s != [] && IsSpaceByte(s[0]) {
      i := TrimStartAt(s[1..]);
      assert s[1..][i..] == s[i + 1..];
      i := i + 1;
    } else {
      i := 0;
    }
  }

  lemma {:induction false} TrimEndAt(s: bytes) returns (j: nat)
    ensures j <= |s| && TrimEnd(s) == s[..j] && forall k :: j <= k < |s| ==> IsSpaceByte(s[k])
    decreases |s|
  {
    if s != [] && IsSpaceByte(s[|s| - 1]) {
      j := TrimEndAt(s[..|s| - 1]);
      assert s[..|s| - 1][..j] == s[..j];
    } else {
      j := |s|;
    }
  }

  lemma TrimAt(s: bytes) returns (i: nat, j: nat)
    ensures i <= j <= |s| && Padded(s, i, j) && Trim(s) == s[i..j]
  {
    i := TrimStartAt(s);
    var n := TrimEndAt(s[i..]);
    j := i + n;
    assert s[i..][..n] == s[i..j];
    forall k | j <= k < |s| ensures IsSpaceByte(s[k]) { assert s[i..][k - i] == s[k]; }
  }

  lemma RecognisedIsWord(arg: bytes, word: bytes)
    requires Upper(Trim(arg)) == word
    requires forall k :: 0 <= k < |word| ==> 65 <= word[k] <= 90
    ensures IsWord(arg, word)
  {
    var i, j := TrimAt(arg);
    assert forall k :: 0 <= k < |word| ==> word[k] == Upper(arg[i..j])[k];
    assert Spells(arg[i..j], word);
  }

  lemma SpellingIsRecognised(text: bytes, word: bytes)
    requires Spells(text, word) && forall k :: 0 <= k < |word| ==> 65 <= word[k] <= 90
    ensures Upper(text) == word
  {}

  lemma WordIsRecognised(arg: bytes, word: bytes)
    requires IsWord(arg, word) && word != []
    requires forall k :: 0 <= k < |word| ==> 65 <= word[k] <= 90
    ensures Upper(Trim(arg)) == word
  {
    var i, j :| 0 <= i <= j <= |arg| && Padded(arg, i, j) && Spells(arg[i..j], word);
    assert arg[i] == arg[i..j][0] && arg[j - 1] == arg[i..j][|word| - 1];
    TrimIs(arg, i, j);
    SpellingIsRecognised(arg[i..j], word);
  }

  /** The session's way to recognise a command recognises exactly its spellings. */
  lemma CommandIsWord(arg: bytes, word: bytes)
    requires word != [] && forall k :: 0 <= k < |word| ==> 65 <= word[k] <= 90
    ensures Upper(Trim(arg)) == word <==> IsWord(arg, word)
  {
    if Upper(Trim(arg)) == word { RecognisedIsWord(arg, word); }
    if IsWord(arg, word) { WordIsRecognised(arg, word); }
  }

  lemma AuthIsWord(args: seq<bytes>)
    ensures IsAuth(args) <==> args != [] && IsWord(args[0], [65, 85, 84, 72])
  {
    if args != [] { CommandIsWord(args[0], AUTH); }
  }

  lemma PopCommandHandsOut(h: History, args: seq<bytes>, tick: Tick)
    requires IsPop(args)
    ensures var o := PopCommand(h, args, tick);
            && HandedOut(o.h.departed) == HandedOut(h.departed) + Payload(o.reply)
            && (Conserved(h) ==> Conserved(o.h))
  {
    var parsed := ParsePopCount(args);
    if parsed.Some? && parsed.value.count > 0 {
      var op := Pop(parsed.value.count, tick.now);
      HandsOutPopped(h, op);
      if Conserved(h) { AppliedConserves(h, op); }
      var items := Oldest(h, op.count, op.now);
      if !parsed.value.hasCount && items != [] { assert items == [items[0]]; }
    } else {
      assert HandedOut(h.departed) + [] == HandedOut(h.departed);
    }
  }

  lemma RespondHandsOut(authed: bool, h: History, args: seq<bytes>, tick: Tick)
    ensures var o := Respond(authed, h, args, tick);
            && HandedOut(o.h.departed) == HandedOut(h.departed) + Payload(o.reply)
            && (Conserved(h) ==> Conserved(o.h))
            && o.authed == (authed || o.reply.Accepted?)
            && (!authed ==> o.h == h && (o.reply.ErrorReply? || o.reply.Accepted?))
  {
    if authed && !IsAuth(args) && IsPop(args) {
      PopCommandHandsOut(h, args, tick);
    } else {
      assert HandedOut(h.departed) + [] == HandedOut(h.departed);
    }
  }

  lemma RespondFits(authed: bool, h: History, args: seq<bytes>, tick: Tick)
    ensures var x := Exchange(args, Respond(authed, h, args, tick).reply, tick.mgmt);
            (x.reply.Accepted? <==> KeyAllowed(x)) && RefusalFits(x, authed)
  {
    AuthIsWord(args);
  }

  lemma WireOneMore(input: bytes, mid: bytes, output: bytes, log: seq<Exchange>, x: Exchange, rest: bytes)
    requires WireInv(input, mid, output, log, []) && ReadArray(mid) == Ok(x.args, rest)
    ensures WireInv(input, rest, output + Encode(x.reply), log + [x], [])
  {
    assert (log + [x])[..|log|] == log;
    assert output == Replies(log);
    assert Replies(log) + Encode(x.reply) + [] == Replies(log) + Encode(x.reply);
  }

  lemma AcceptedEarlier(log: seq<Exchange>, x: Exchange, i: nat)
    requires i <= |log|
    ensures AcceptedBefore(log + [x], i) == AcceptedBefore(log, i)
    ensures AcceptedBefore(log + [x], |log| + 1) == (AcceptedBefore(log, |log|) || x.reply.Accepted?)
  {
    var more := log + [x];
    assert more[|log|] == x && forall j :: 0 <= j < |log| ==> more[j] == log[j];
    if AcceptedBefore(log, i) {
      var j :| 0 <= j < i && log[j].reply.Accepted?;
      assert more[j].reply.Accepted?;
    }
    if AcceptedBefore(log, |log|) {
      var j :| 0 <= j < |log| && log[j].reply.Accepted?;
      assert more[j].reply.Accepted?;
    }
  }

  lemma AuthOneMore(authed: bool, log: seq<Exchange>, x: Exchange)
    requires AuthInv(authed, log)
    requires !authed ==> x.reply.ErrorReply? || x.reply.Accepted?
    requires (x.reply.Accepted? <==> KeyAllowed(x)) && RefusalFits(x, authed)
    ensures AuthInv(authed || x.reply.Accepted?, log + [x])
  {
    var more := log + [x];
    AcceptedEarlier(log, x, |log|);
    forall i | 0 <= i < |more|
      ensures !more[i].reply.ErrorReply? && !more[i].reply.Accepted? ==> AcceptedBefore(more, i)
      ensures more[i].reply.Accepted? <==> KeyAllowed(more[i])
      ensures RefusalFits(more[i], AcceptedBefore(more, i))
    {
      AcceptedEarlier(log, x, i);
      if i < |log| { assert more[i] == log[i]; }
    }
  }

  lemma ParseFailureKeepsWire(input: bytes, rest: bytes, output: bytes, log: seq<Exchange>, text: bytes)
    ensures WireInv(input, rest, output, log, []) ==> WireInv(input, rest, output + text, log, text)
  {}

  lemma AnsweredKeepsInv(input: bytes, w: World, tick: Tick, args: seq<bytes>, rest: bytes, o: Outcome)
    requires Inv(input, w) && w.farewell == [] && ReadArray(w.input) == Ok(args, rest)
    requires o == Respond(w.authed, w.h, args, tick)
    ensures Inv(input, Answered(w, args, rest, o, tick))
  {
    var x := Exchange(args, o.reply, tick.mgmt);
    RespondHandsOut(w.authed, w.h, args, tick);
    RespondFits(w.authed, w.h, args, tick);
    WireOneMore(input, w.input, w.output, w.log, x, rest);
    AuthOneMore(w.authed, w.log, x);
  }

  lemma TurnKeepsInv(input: bytes, w: World, tick: Tick)
    requires Inv(input, w)
    ensures Inv(input, Turn(w, tick))
  {
    if w.open && tick.routesEnabled {
      match ReadArray(w.input)
      case Ok(args, rest) =>
        AnsweredKeepsInv(input, w, tick, args, rest, Respond(w.authed, w.h, args, tick));
      case Fail(e) =>
        ParseFailureKeepsWire(input, w.input, w.output, w.log, ErrorLine(ErrorText(e)));
    }
  }

  lemma StepKeepsInv(input: bytes, w: World, e: Event)
    requires Inv(input, w)
    ensures Inv(input, Step(w, e))
  {
    match e
    case Serve(tick) => TurnKeepsInv(input, w, tick);
    case Other(op) =>
      HandsOutPopped(w.h, op);
      AppliedConserves(w.h, op);
  }

  /** In every interleaving of session turns with other uses of the queue: the commands read are a
      prefix of the stream, each is answered once and in order, exactly the AUTHs with a key that the
      check of their turn allowed are accepted, queue data is sent only after one of them, and what was
      handed to anybody is what left the queue as popped. */
  lemma {:induction false} RunTheorem(input: bytes, h: History, events: seq<Event>)
    requires Conserved(h)
    ensures Inv(input, Run(Opened(input, h), events))
  {
    if events != [] {
      RunTheorem(input, h, events[..|events| - 1]);
      StepKeepsInv(input, Run(Opened(input, h), events[..|events| - 1]), events[|events| - 1]);
    }
  }

  /** Once authenticated, always authenticated; and no turn of an unauthenticated session touches the queue. */
  lemma AuthIsForever(w: World, e: Event)
    ensures w.authed ==> Step(w, e).authed
    ensures e.Serve? && !w.authed ==> Step(w, e).h == w.h
  {
    if e.Serve? && w.open && e.tick.routesEnabled && ReadArray(w.input).Ok? {
      RespondHandsOut(w.authed, w.h, ReadArray(w.input).value, e.tick);
    }
  }

  // ---------- what a client reads ----------

  lemma {:induction false} PresentReceived(payloads: seq<bytes>)
    ensures AllReceived(Present(payloads)) == payloads && |Present(payloads)| == |payloads|
    ensures forall p :: p in Present(payloads) <==> p.Some? && p.value in payloads
  {
    if payloads != [] {
      PresentReceived(payloads[1..]);
      assert payloads == [payloads[0]] + payloads[1..];
    }
  }

  /** The payloads and their number fit Go's `int`. */
  predicate Fits(payloads: seq<bytes>) {
    |payloads| <= MAX_INT && forall p :: p in payloads ==> |p| <= MAX_INT
  }

  /** What an array reply reads back as, and what a bulk reply does. */
  lemma ArrayReplyReads(items: seq<bytes>, more: bytes)
    requires Fits(items)
    ensures ReadArray(Encode(Array(items)) + more) == Ok(items, more)
  {
    PresentReceived(items);
    RoundTrip(Present(items), more);
  }

  lemma BulkReplyReads(item: bytes, more: bytes)
    requires |item| <= MAX_INT
    ensures ReadElement(Encode(Bulk(item)) + more) == Ok(item, more)
  {
    ReadBulkOfBulk(Some(item), more);
  }

  /** The payloads a pop may hand out: the unexpired ones of an enabled queue, oldest first. */
  function Poppable(h: History, now: Time): seq<bytes> {
    if h.enabled then Payloads(Fresh(h, now)) else []
  }

  lemma OldestArePrefix(h: History, count: int, now: Time)
    requires count > 0
    ensures Oldest(h, count, now) == Poppable(h, now)[..Min(count, |Poppable(h, now)|)]
  {}

  lemma PrefixFits(payloads: seq<bytes>, k: nat)
    requires Fits(payloads) && k <= |payloads|
    ensures Fits(payloads[..k])
  {}

  /** "LPOP" or "RPOP", in any spelling. */
  ghost predicate AsksToPop(args: seq<bytes>) {
    args != [] && (IsWord(args[0], [76, 80, 79, 80]) || IsWord(args[0], [82, 80, 79, 80]))
  }

  /** Apart from white space around it, `arg` is the decimal number `n`. */
  ghost predicate IsNumeral(arg: bytes, n: nat) {
    exists i, j :: 0 <= i <= j <= |arg| && Padded(arg, i, j) && arg[i..j] == Itoa(n)
  }

  lemma PopIsWord(args: seq<bytes>)
    ensures IsPop(args) <==> AsksToPop(args)
    ensures AsksToPop(args) ==> !IsAuth(args)
  {
    if args != [] {
      CommandIsWord(args[0], LPOP);
      CommandIsWord(args[0], RPOP);
      assert AUTH[0] != LPOP[0] && AUTH[0] != RPOP[0];
    }
  }

  lemma NumeralParses(arg: bytes, n: nat)
    requires IsNumeral(arg, n) && n <= MAX_INT
    ensures Atoi(Trim(arg)) == Some(n)
  {
    var i, j :| 0 <= i <= j <= |arg| && Padded(arg, i, j) && arg[i..j] == Itoa(n);
    assert IsDigit(arg[i..j][0]) && IsDigit(arg[i..j][j - i - 1]);
    assert arg[i] == arg[i..j][0] && arg[j - 1] == arg[i..j][j - i - 1];
    TrimIs(arg, i, j);
    AtoiOfItoa(n);
  }

  /** The reply to an authenticated pop of one item, or of `count` items, decodes, whatever follows it, to
      the oldest unexpired payloads, as many as asked for or as there are; a disabled queue has none.
      Without a count it is the oldest one, or nil. */
  lemma PopReplyDecodes(h: History, args: seq<bytes>, tick: Tick, more: bytes, count: int)
    requires AsksToPop(args) && 0 < count <= MAX_INT
    requires (|args| == 2 && count == 1) || (|args| == 3 && IsNumeral(args[2], count))
    requires Fits(Poppable(h, tick.now))
    ensures var o := Respond(true, h, args, tick);
            var oldest := Poppable(h, tick.now)[..Min(count, |Poppable(h, tick.now)|)];
            && o.h == Applied(h, Pop(count, tick.now))
            && (|args| == 3 ==> ReadArray(Encode(o.reply) + more) == Ok(oldest, more))
            && (|args| == 2 && oldest != [] ==> ReadElement(Encode(o.reply) + more) == Ok(oldest[0], more))
            && (|args| == 2 && oldest == [] ==> Encode(o.reply) == NIL_BULK)
  {
    var oldest := Oldest(h, count, tick.now);
    PopIsWord(args);
    if |args| == 3 { NumeralParses(args[2], count); }
    OldestArePrefix(h, count, tick.now);
    PrefixFits(Poppable(h, tick.now), Min(count, |Poppable(h, tick.now)|));
    if |args| == 3 {
      ArrayReplyReads(oldest, more);
    } else if oldest != [] {
      BulkReplyReads(oldest[0], more);
    }
  }

  /** What contains no digit is no number. */
  lemma NoNumber(arg: bytes)
    requires forall k :: 0 <= k < |arg| ==> !(48 <= arg[k] <= 57)
    ensures Atoi(Trim(arg)).None?
  {
    var i, j := TrimAt(arg);
    var text := Trim(arg);
    assert forall k :: 0 <= k < |text| ==> text[k] == arg[i + k];
  }

  /** An authenticated pop with too few or too many arguments, of no items or of no number of them is refused
      and takes nothing. */
  lemma PopIsRefused(h: History, args: seq<bytes>, tick: Tick)
    requires AsksToPop(args) && |args| != 2
    requires |args| == 3 ==> IsNumeral(args[2], 0) || (forall k :: 0 <= k < |args[2]| ==> !(48 <= args[2][k] <= 57))
    ensures Respond(true, h, args, tick)
            == Outcome(true, h, ErrorReply(if |args| == 3 then OutOfRange else PopArity(Command(args))))
  {
    PopIsWord(args);
    if |args| == 3 {
      if IsNumeral(args[2], 0) { NumeralParses(args[2], 0); } else { NoNumber(args[2]); }
    }
  }

  /** A command as clients send it: '*' and the number of arguments, then each as '$', its length and its
      bytes, every piece with its line ending. */
  function OnTheWire(args: seq<bytes>): bytes {
    [42] + Itoa(|args|) + [13, 10] + ArgumentsOnTheWire(args)
  }

  function ArgumentsOnTheWire(args: seq<bytes>): bytes {
    if args == [] then []
    else [36] + Itoa(|args[0]|) + [13, 10] + args[0] + [13, 10] + ArgumentsOnTheWire(args[1..])
  }

  lemma {:induction false} ArgumentsAreBulks(args: seq<bytes>)
    ensures ArgumentsOnTheWire(args) == BulkStrings(Present(args))
  {
    if args != [] {
      ArgumentsAreBulks(args[1..]);
      assert Present(args)[0] == Some(args[0]) && Present(args)[1..] == Present(args[1..]);
    }
  }

  /** Whatever a client sends this way is what the session reads, up to its last byte. */
  lemma CommandDecodes(args: seq<bytes>, more: bytes)
    requires Fits(args)
    ensures ReadArray(OnTheWire(args) + more) == Ok(args, more)
  {
    PresentReceived(args);
    ArgumentsAreBulks(args);
    RoundTrip(Present(args), more);
  }

  /** A client can tell the kind of a reply from its first byte, and the error that asks it to authenticate
      from the first letter of its text. */
  lemma FirstByteTells(reply: Reply)
    ensures Encode(reply) != []
    ensures Encode(reply)[0] == match reply
                                case ErrorReply(_) => 45
                                case Accepted => 43
                                case Array(_) => 42
                                case _ => 36
    ensures reply.ErrorReply? ==> |Encode(reply)| > 1 && Encode(reply)[1] == if reply.refusal.NoAuth? then 78 else 69
  {
    assert "+OK\r\n"[0] == '+';
    if reply.ErrorReply? { FirstLetter(reply.refusal); }
  }

  lemma FirstLetter(refusal: Refusal)
    ensures RefusalText(refusal) != [] && RefusalText(refusal)[0] == if refusal.NoAuth? then 78 else 69
  {
    match refusal
    case EmptyCommand => assert "ERR empty command"[0] == 'E';
    case NoAuth => assert "NOAUTH Authentication required."[0] == 'N';
    case Denied(_) => assert "ERR "[0] == 'E';
    case AuthArity => assert "ERR wrong number of arguments for 'auth' command"[0] == 'E';
    case RemoteDisabled => assert "ERR remote management disabled"[0] == 'E';
    case PopArity(_) => assert "ERR wrong number of arguments for '"[0] == 'E';
    case OutOfRange => assert "ERR value is not an integer or out of range"[0] == 'E';
    case UnknownCommand(_) => assert "ERR unknown command '"[0] == 'E';
  }

  // ---------- the session loop ----------

  function Turns(w: World, ticks: nat -> Tick, n: nat): World {
    if n == 0 then w else Turn(Turns(w, ticks, n - 1), ticks(n - 1))
  }

  method WriteReply(writer: Writer, reply: Reply)
    modifies writer
    ensures writer.out == old(writer.out) + Encode(reply)
  {
    match reply
    case NilBulk => writer.WriteRedisBulkString(None);
    case Bulk(payload) => writer.WriteRedisBulkString(Some(payload));
    case Array(payloads) => writer.WriteRedisArrayOfBulkStrings(Present(payloads));
    case _ => writer.Write(Encode(reply));
  }

  /** The checks and the command switch of one turn. */
  method HandleCommand(authed: bool, args: seq<bytes>, tick: Tick, writer: Writer, queue: Queue)
    returns (nowAuthed: bool)
    requires queue.Valid()
    modifies writer, queue
    ensures queue.Valid()
    ensures var o := Respond(authed, old(queue.Contents()), args, tick);
            nowAuthed == o.authed && queue.Contents() == o.h && writer.out == old(writer.out) + Encode(o.reply)
  {
    nowAuthed := authed;
    var reply: Reply;
    if args == [] {
      reply := ErrorReply(EmptyCommand);
    } else {
      var cmd := Upper(Trim(args[0]));
      if cmd != AUTH && !authed {
        reply := BannedOr(tick, NoAuth);
      } else if cmd == AUTH {
        var password := ParseAuthPassword(args);
        if password.None? {
          reply := BannedOr(tick, AuthArity);
        } else if tick.mgmt.None? {
          reply := ErrorReply(RemoteDisabled);
        } else {
          var result := tick.mgmt.value(password.value);
          if result.allowed {
            nowAuthed := true;
            reply := Accepted;
          } else {
            reply := ErrorReply(Denied(result.message));
          }
        }
      } else if cmd == LPOP || cmd == RPOP {
        var parsed := ParsePopCount(args);
        if parsed.None? {
          reply := ErrorReply(PopArity(cmd));
        } else if parsed.value.count <= 0 {
          reply := ErrorReply(OutOfRange);
        } else {
          var items := queue.PopOldest(parsed.value.count, tick.now);
          reply := if parsed.value.hasCount then Array(items)
                   else if |items| == 0 then NilBulk else Bulk(items[0]);
        }
      } else {
        reply := ErrorReply(UnknownCommand(cmd));
      }
    }
    WriteReply(writer, reply);
  }

  /** One connection from its first command to its end: the turns of the session, as many as it takes. */
  method HandleRedisConnection(reader: Reader, writer: Writer, queue: Queue, homeEnabled: bool, ticks: nat -> Tick)
    returns (ghost turns: nat)
    requires queue.Valid()
    modifies reader, writer, queue
    ensures queue.Valid()
    ensures homeEnabled ==> queue.Contents() == old(queue.Contents())
                            && writer.out == old(writer.out)
                                + ErrorLine(Bytes("ERR redis usage output disabled in home mode"))
    ensures !homeEnabled ==>
              var w := Turns(Opened(old(reader.rest), old(queue.Contents())), ticks, turns);
              !w.open && queue.Contents() == w.h && writer.out == old(writer.out) + w.output
  {
    turns := 0;
    if homeEnabled {
      writer.Write(ErrorLine(Bytes("ERR redis usage output disabled in home mode")));
      return;
    }
    ghost var first, before := Opened(reader.rest, queue.Contents()), writer.out;
    var authed, n := false, 0;
    assert before + [] == before;
    while true
      invariant queue.Valid()
      invariant var w := Turns(first, ticks, n);
                w.open && w.authed == authed && w.input == reader.rest && w.h == queue.Contents()
                    && writer.out == before + w.output
      decreases |reader.rest|
    {
      ghost var w := Turns(first, ticks, n);
      var tick := ticks(n);
      n, turns := n + 1, n + 1;
      if !tick.routesEnabled { return; }
      var args := reader.ReadRESPArray();
      if args.Failed? {
        if args.error != Eof {
          writer.Write(ErrorLine(ErrorText(args.error)));
          Regroup(before, w.output, ErrorLine(ErrorText(args.error)));
        }
        return;
      }
      ReadArrayPrefix(w.input, []);
      Regroup(before, w.output, Encode(Respond(authed, w.h, args.value, tick).reply));
      authed := HandleCommand(authed, args.value, tick, writer, queue);
      if !tick.flushed { return; }
    }
  }
}
