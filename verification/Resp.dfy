/** The Redis serialization protocol as the usage-queue endpoint speaks it:
    a reader over a byte stream, printers, and what they say to each other. */
module Resp {
  import opened Common

  type byte = x: int | 0 <= x < 256

  type bytes = seq<byte>

  const CR: byte := 13
  const LF: byte := 10
  const PLUS: byte := 43
  const MINUS: byte := 45
  const COLON: byte := 58
  const STAR: byte := 42
  const DOLLAR: byte := 36
  const CRLF: bytes := [13, 10]

  datatype ReadError = Eof | UnexpectedEof | Protocol

  /** A value read off the front of a stream, and what is left of it. */
  datatype Read<+T> = Ok(value: T, rest: bytes) | Fail(error: ReadError)

  // ---------- integers ----------

  /** `strconv.Itoa` on a non-negative number. */
  function Itoa(n: nat): (s: bytes)
    ensures s != [] && forall i :: 0 <= i < |s| ==> IsDigit(s[i])
  {
    if n < 10 then [48 + n] else Itoa(n / 10) + [48 + n % 10]
  }

  lemma {:induction false} DigitsOfItoa(n: nat)
    ensures Digits(Itoa(n)) == Some(n)
  {
    if n < 10 {
      assert Itoa(n)[..0] == [];
    } else {
      DigitsOfItoa(n / 10);
      assert Itoa(n)[..|Itoa(n)| - 1] == Itoa(n / 10);
    }
  }

  lemma AtoiOfItoa(n: nat)
    requires n <= MAX_INT
    ensures Atoi(Itoa(n)) == Some(n)
  {
    DigitsOfItoa(n);
    assert IsDigit(Itoa(n)[0]);
  }

  // ---------- reading ----------

  /** The position of the first line feed, or the length. */
  function LineFeed(s: bytes): (i: nat)
    ensures i <= |s|
    ensures i < |s| ==> s[i] == LF
    ensures forall k :: 0 <= k < i ==> s[k] != LF
  {
    if s == [] || s[0] == LF then 0 else 1 + LineFeed(s[1..])
  }

  function TrimCR(line: bytes): bytes {
    if line != [] && line[|line| - 1] == CR then line[..|line| - 1] else line
  }

  function ReadLine(s: bytes): Read<bytes> {
    var i := LineFeed(s);
    if i == |s| then Fail(Eof) else Ok(TrimCR(s[..i]), s[i + 1..])
  }

  function ReadBulk(s: bytes): Read<bytes> {
    match ReadLine(s)
    case Fail(e) => Fail(e)
    case Ok(line, rest) =>
      var length := Atoi(line);
      if length.None? then Fail(Protocol)
      else if length.value < 0 then Ok([], rest)
      else if |rest| < length.value + 2 then Fail(if rest == [] then Eof else UnexpectedEof)
      else if rest[length.value..length.value + 2] != CRLF then Fail(Protocol)
      else Ok(rest[..length.value], rest[length.value + 2..])
  }

  function ReadElement(s: bytes): Read<bytes> {
    if s == [] then Fail(Eof)
    else if s[0] == DOLLAR then ReadBulk(s[1..])
    else if s[0] == PLUS || s[0] == COLON then ReadLine(s[1..])
    else Fail(Protocol)
  }

  function ReadElements(s: bytes, count: nat): Read<seq<bytes>>
    decreases count, 0
  {
    if count == 0 then Ok([], s) else Continued(ReadElement(s), count - 1)
  }

  /** The elements after the first one was read. */
  function Continued(first: Read<bytes>, count: nat): Read<seq<bytes>>
    decreases count, 1
  {
    if first.Fail? then Fail(first.error) else
    var others := ReadElements(first.rest, count);
    if others.Fail? then others else Ok([first.value] + others.value, others.rest)
  }

  function ReadArray(s: bytes): Read<seq<bytes>> {
    if s == [] then Fail(Eof)
    else if s[0] != STAR then Fail(Protocol)
    else match ReadLine(s[1..])
      case Fail(e) => Fail(e)
      case Ok(line, rest) =>
        var count := Atoi(line);
        if count.None? || count.value < 0 then Fail(Protocol) else ReadElements(rest, count.value)
  }

  // ---------- writing ----------

  const NIL_BULK: bytes := [36, 45, 49, 13, 10]

  /** A payload as a bulk string; an absent one as the nil bulk string. */
  function BulkString(payload: Option<bytes>): bytes {
    if payload.None? then NIL_BULK else [DOLLAR] + Itoa(|payload.value|) + CRLF + payload.value + CRLF
  }

  function BulkStrings(items: seq<Option<bytes>>): bytes {
    if items == [] then [] else BulkString(items[0]) + BulkStrings(items[1..])
  }

  function ArrayOfBulkStrings(items: seq<Option<bytes>>): bytes {
    [STAR] + Itoa(|items|) + CRLF + BulkStrings(items)
  }

  // ---------- round trip ----------

  /** What a reader makes of a written payload. */
  function Received(payload: Option<bytes>): bytes {
    if payload.None? then [] else payload.value
  }

  function AllReceived(items: seq<Option<bytes>>): seq<bytes> {
    if items == [] then [] else [Received(items[0])] + AllReceived(items[1..])
  }

  /** Lengths that a Go `int` can hold. */
  predicate Representable(items: seq<Option<bytes>>) {
    |items| <= MAX_INT && forall payload :: payload in items ==> |Received(payload)| <= MAX_INT
  }

  lemma {:induction false} LineFeedAt(line: bytes, rest: bytes)
    requires LF !in line
    ensures LineFeed(line + [LF] + rest) == |line|
  {
    var s := line + [LF] + rest;
    assert s[|line|] == LF;
    forall k | 0 <= k < |line| ensures s[k] != LF { assert s[k] == line[k] && line[k] in line; }
  }

  lemma ReadTerminatedLine(line: bytes, rest: bytes)
    requires LF !in line
    ensures ReadLine(line + [LF] + rest) == Ok(TrimCR(line), rest)
  {
    LineFeedAt(line, rest);
    assert (line + [LF] + rest)[..|line|] == line && (line + [LF] + rest)[|line| + 1..] == rest;
  }

  lemma ReadNumberLine(n: nat, rest: bytes)
    ensures ReadLine(Itoa(n) + CRLF + rest) == Ok(Itoa(n), rest)
  {
    var line := Itoa(n) + [CR];
    assert LF !in line;
    assert Itoa(n) + CRLF + rest == line + [LF] + rest;
    ReadTerminatedLine(line, rest);
    assert TrimCR(line) == Itoa(n);
  }

  lemma ReadNilBulk(rest: bytes)
    ensures ReadElement(NIL_BULK + rest) == Ok([], rest)
  {
    var line: bytes := [MINUS, 49, CR];
    var s := NIL_BULK + rest;
    assert s[1..] == line + [LF] + rest;
    LineFeedAt(line, rest);
    assert s[1..][..3] == line && s[1..][4..] == rest;
    assert TrimCR(line) == [MINUS, 49];
    assert Digits([49]) == Some(1) by { assert [49][..0] == []; }
    assert [MINUS, 49] == [45, 49] && [45, 49][1..] == [49];
  }

  lemma BodySlices(p: bytes, rest: bytes)
    ensures var body := p + CRLF + rest;
            |body| >= |p| + 2 && body[|p|..|p| + 2] == CRLF && body[..|p|] == p && body[|p| + 2..] == rest
  {}

  lemma ReadSomeBulk(p: bytes, rest: bytes)
    requires |p| <= MAX_INT
    ensures ReadBulk(Itoa(|p|) + CRLF + (p + CRLF + rest)) == Ok(p, rest)
  {
    ReadNumberLine(|p|, p + CRLF + rest);
    AtoiOfItoa(|p|);
    BodySlices(p, rest);
  }

  lemma ReadBulkOfBulk(payload: Option<bytes>, rest: bytes)
    requires |Received(payload)| <= MAX_INT
    ensures ReadElement(BulkString(payload) + rest) == Ok(Received(payload), rest)
  {
    if payload.None? {
      ReadNilBulk(rest);
    } else {
      var p := payload.value;
      assert (BulkString(payload) + rest)[1..] == Itoa(|p|) + CRLF + (p + CRLF + rest);
      ReadSomeBulk(p, rest);
    }
  }

  /** One element ahead of others. */
  lemma ReadElementsOneMore(s: bytes, count: nat, first: bytes, rest: bytes, others: seq<bytes>, left: bytes)
    requires ReadElement(s) == Ok(first, rest) && ReadElements(rest, count) == Ok(others, left)
    ensures ReadElements(s, count + 1) == Ok([first] + others, left)
  {}

  lemma BulkStringsUnfold(items: seq<Option<bytes>>, rest: bytes)
    requires items != []
    ensures BulkStrings(items) + rest == BulkString(items[0]) + (BulkStrings(items[1..]) + rest)
  {}

  lemma {:induction false} ReadBulks(items: seq<Option<bytes>>, rest: bytes)
    requires Representable(items)
    ensures ReadElements(BulkStrings(items) + rest, |items|) == Ok(AllReceived(items), rest)
  {
    if items == [] {
      assert BulkStrings(items) + rest == rest;
    } else {
      var first, others := items[0], items[1..];
      var tail := BulkStrings(others) + rest;
      ReadBulks(others, rest);
      ReadBulkOfBulk(first, tail);
      BulkStringsUnfold(items, rest);
      ReadElementsOneMore(BulkString(first) + tail, |others|, Received(first), tail, AllReceived(others), rest);
    }
  }

  /** An array's header says how many elements to read after it. */
  lemma ReadHeader(n: nat, tail: bytes)
    requires n <= MAX_INT
    ensures ReadArray([STAR] + (Itoa(n) + CRLF + tail)) == ReadElements(tail, n)
  {
    var s := [STAR] + (Itoa(n) + CRLF + tail);
    assert s[1..] == Itoa(n) + CRLF + tail;
    ReadNumberLine(n, tail);
    AtoiOfItoa(n);
  }

  /** Reading back what was written yields the written list and leaves whatever follows untouched. */
  lemma RoundTrip(items: seq<Option<bytes>>, rest: bytes)
    requires Representable(items)
    ensures ReadArray(ArrayOfBulkStrings(items) + rest) == Ok(AllReceived(items), rest)
  {
    var tail := BulkStrings(items) + rest;
    assert ArrayOfBulkStrings(items) + rest == [STAR] + (Itoa(|items|) + CRLF + tail);
    ReadHeader(|items|, tail);
    ReadBulks(items, rest);
  }

  // ---------- pipelining: later bytes do not matter ----------

  lemma LineFeedPrefix(s: bytes, t: bytes)
    requires LineFeed(s) < |s|
    ensures LineFeed(s + t) == LineFeed(s)
  {
    var i := LineFeed(s);
    assert (s + t)[i] == LF;
    forall k | 0 <= k < i ensures (s + t)[k] != LF { assert (s + t)[k] == s[k]; }
  }

  /** The same read with `t` behind it. */
  function Followed<T>(r: Read<T>, t: bytes): Read<T> {
    if r.Ok? then Ok(r.value, r.rest + t) else r
  }

  lemma ReadLinePrefix(s: bytes, t: bytes)
    requires ReadLine(s).Ok?
    ensures ReadLine(s + t) == Followed(ReadLine(s), t) && |ReadLine(s).rest| < |s|
  {
    LineFeedPrefix(s, t);
    var i := LineFeed(s);
    assert (s + t)[..i] == s[..i] && (s + t)[i + 1..] == s[i + 1..] + t;
  }

  lemma ReadBulkPrefix(s: bytes, t: bytes)
    requires ReadBulk(s).Ok?
    ensures ReadBulk(s + t) == Followed(ReadBulk(s), t) && |ReadBulk(s).rest| < |s|
  {
    ReadLinePrefix(s, t);
    var line, rest := ReadLine(s).value, ReadLine(s).rest;
    var n := Atoi(line).value;
    if n >= 0 {
      assert (rest + t)[..n] == rest[..n];
      assert (rest + t)[n..n + 2] == rest[n..n + 2];
      assert (rest + t)[n + 2..] == rest[n + 2..] + t;
    }
  }

  lemma ReadElementPrefix(s: bytes, t: bytes)
    requires ReadElement(s).Ok?
    ensures ReadElement(s + t) == Followed(ReadElement(s), t) && |ReadElement(s).rest| < |s|
  {
    assert (s + t)[1..] == s[1..] + t;
    if s[0] == DOLLAR { ReadBulkPrefix(s[1..], t); } else { ReadLinePrefix(s[1..], t); }
  }

  lemma {:induction false} ReadElementsPrefix(s: bytes, count: nat, t: bytes)
    requires ReadElements(s, count).Ok?
    ensures ReadElements(s + t, count) == Followed(ReadElements(s, count), t)
    ensures |ReadElements(s, count).rest| <= |s|
    decreases count, 0
  {
    if count > 0 {
      ReadElementPrefix(s, t);
      ContinuedPrefix(ReadElement(s), count - 1, t);
    }
  }

  lemma {:induction false} ContinuedPrefix(first: Read<bytes>, count: nat, t: bytes)
    requires Continued(first, count).Ok?
    ensures Continued(Followed(first, t), count) == Followed(Continued(first, count), t)
    ensures |Continued(first, count).rest| <= |first.rest|
    decreases count, 1
  {
    ReadElementsPrefix(first.rest, count, t);
  }

  /** A complete command is read the same whatever follows it, and reading it makes progress. */
  lemma ReadArrayPrefix(s: bytes, t: bytes)
    requires ReadArray(s).Ok?
    ensures ReadArray(s + t) == Followed(ReadArray(s), t) && |ReadArray(s).rest| < |s|
  {
    assert (s + t)[1..] == s[1..] + t;
    ReadLinePrefix(s[1..], t);
    var line, rest := ReadLine(s[1..]).value, ReadLine(s[1..]).rest;
    ReadElementsPrefix(rest, Atoi(line).value, t);
  }

  // ---------- incomplete commands are no protocol errors ----------

  lemma BulkErrorIsFinal(s: bytes, t: bytes)
    requires ReadBulk(s) == Fail(Protocol)
    ensures ReadBulk(s + t) == Fail(Protocol)
  {
    ReadLinePrefix(s, t);
    var line, rest := ReadLine(s).value, ReadLine(s).rest;
    var length := Atoi(line);
    if length.Some? && length.value >= 0 {
      var n := length.value;
      assert (rest + t)[n..n + 2] == rest[n..n + 2];
    }
  }

  lemma ElementErrorIsFinal(s: bytes, t: bytes)
    requires ReadElement(s) == Fail(Protocol)
    ensures ReadElement(s + t) == Fail(Protocol)
  {
    assert (s + t)[1..] == s[1..] + t;
    if s[0] == DOLLAR { BulkErrorIsFinal(s[1..], t); }
  }

  lemma {:induction false} ElementsErrorIsFinal(s: bytes, count: nat, t: bytes)
    requires ReadElements(s, count) == Fail(Protocol)
    ensures ReadElements(s + t, count) == Fail(Protocol)
    decreases count
  {
    if ReadElement(s).Fail? {
      ElementErrorIsFinal(s, t);
    } else {
      ReadElementPrefix(s, t);
      ElementsErrorIsFinal(ReadElement(s).rest, count - 1, t);
    }
  }

  /** What is no command stays none whatever follows. */
  lemma ProtocolErrorIsFinal(s: bytes, t: bytes)
    requires ReadArray(s) == Fail(Protocol)
    ensures ReadArray(s + t) == Fail(Protocol)
  {
    assert (s + t)[1..] == s[1..] + t;
    if s[0] == STAR {
      ReadLinePrefix(s[1..], t);
      var line, rest := ReadLine(s[1..]).value, ReadLine(s[1..]).rest;
      var count := Atoi(line);
      if count.Some? && count.value >= 0 { ElementsErrorIsFinal(rest, count.value, t); }
    }
  }

  /** A stream that ends inside a command is reported as ended, neither as a command nor as an error of it. */
  lemma TruncatedIsEof(s: bytes, n: nat)
    requires ReadArray(s).Ok? && n < |s| - |ReadArray(s).rest|
    ensures ReadArray(s[..n]) == Fail(Eof) || ReadArray(s[..n]) == Fail(UnexpectedEof)
  {
    assert s[..n] + s[n..] == s;
    match ReadArray(s[..n])
    case Ok(_, _) => ReadArrayPrefix(s[..n], s[n..]);
    case Fail(Protocol) => ProtocolErrorIsFinal(s[..n], s[n..]);
    case _ =>
  }

  /** A bulk string whose data is cut off: nothing of it is a stream that ends, something of it one that
      ends unexpectedly. */
  lemma CutBulk(p: bytes, k: nat)
    requires |p| <= MAX_INT && k < |p| + 2
    ensures ReadElement([36] + (Itoa(|p|) + [13, 10] + (p + [13, 10])[..k]))
            == Fail(if k == 0 then Eof else UnexpectedEof)
  {
    var data := (p + CRLF)[..k];
    assert ([36] + (Itoa(|p|) + CRLF + data))[1..] == Itoa(|p|) + CRLF + data;
    ReadNumberLine(|p|, data);
    AtoiOfItoa(|p|);
  }

  /** A simple string or an integer counts as an argument too; whatever starts otherwise does not. */
  lemma SimpleElements(first: byte, text: bytes, rest: bytes)
    requires 10 !in text && first != 36
    ensures ReadElement([first] + (text + [13, 10] + rest)) == if first == 43 || first == 58 then Ok(text, rest)
                                                              else Fail(Protocol)
  {
    assert ([first] + (text + [13, 10] + rest))[1..] == (text + [CR]) + [LF] + rest;
    ReadTerminatedLine(text + [CR], rest);
    assert TrimCR(text + [CR]) == text;
  }

  // ---------- the reader and writer as objects ----------

  datatype Got<+T> = Got(value: T) | Failed(error: ReadError)

  /** What a read off `before` must return and leave, according to `spec`. */
  ghost predicate Performed<T>(spec: Read<T>, got: Got<T>, left: bytes) {
    match spec
    case Ok(v, rest) => got == Got(v) && left == rest
    case Fail(e) => got == Failed(e)
  }

  class Reader {
    var rest: bytes

    constructor (input: bytes)
      ensures rest == input
    {
      rest := input;
    }

    method ReadByte() returns (got: Got<byte>)
      modifies this
      ensures Performed(if old(rest) == [] then Fail(Eof) else Ok(old(rest)[0], old(rest)[1..]), got, rest)
    {
      if rest == [] { return Failed(Eof); }
      got := Got(rest[0]);
      rest := rest[1..];
    }

    method ReadRESPLine() returns (got: Got<bytes>)
      modifies this
      ensures Performed(ReadLine(old(rest)), got, rest)
    {
      var i := LineFeed(rest);
      if i == |rest| { rest := []; return Failed(Eof); }
      var line := rest[..i];
      rest := rest[i + 1..];
      if line != [] && line[|line| - 1] == CR { line := line[..|line| - 1]; }
      return Got(line);
    }

    method ReadFull(n: nat) returns (got: Got<bytes>)
      modifies this
      ensures Performed(if |old(rest)| >= n then Ok(old(rest)[..n], old(rest)[n..])
                        else Fail(if old(rest) == [] then Eof else UnexpectedEof), got, rest)
    {
      if |rest| < n {
        got := Failed(if rest == [] then Eof else UnexpectedEof);
        rest := [];
        return;
      }
      got := Got(rest[..n]);
      rest := rest[n..];
    }

    method ReadRESPBulkString() returns (got: Got<bytes>)
      modifies this
      ensures Performed(ReadBulk(old(rest)), got, rest)
    {
      var line := ReadRESPLine();
      if line.Failed? { return Failed(line.error); }
      var length := Atoi(line.value);
      if length.None? { return Failed(Protocol); }
      if length.value < 0 { return Got([]); }
      var n := length.value;
      ghost var tail := rest;
      var buf := ReadFull(n + 2);
      if buf.Failed? { return Failed(buf.error); }
      assert buf.value[n..] == tail[n..n + 2];
      if buf.value[n] != CR || buf.value[n + 1] != LF {
        assert tail[n..n + 2] != CRLF by {
          assert tail[n..n + 2][0] == buf.value[n] && tail[n..n + 2][1] == buf.value[n + 1];
        }
        return Failed(Protocol);
      }
      assert tail[n..n + 2] == CRLF;
      assert buf.value[..n] == tail[..n];
      return Got(buf.value[..n]);
    }

    method ReadRESPString() returns (got: Got<bytes>)
      modifies this
      ensures Performed(ReadElement(old(rest)), got, rest)
    {
      var prefix := ReadByte();
      if prefix.Failed? { return Failed(prefix.error); }
      if prefix.value == DOLLAR {
        got := ReadRESPBulkString();
      } else if prefix.value == PLUS || prefix.value == COLON {
        got := ReadRESPLine();
      } else {
        got := Failed(Protocol);
      }
    }

    method ReadRESPArray() returns (got: Got<seq<bytes>>)
      modifies this
      ensures Performed(ReadArray(old(rest)), got, rest)
    {
      var prefix := ReadByte();
      if prefix.Failed? { return Failed(prefix.error); }
      if prefix.value != STAR { return Failed(Protocol); }
      var line := ReadRESPLine();
      if line.Failed? { return Failed(line.error); }
      var count := Atoi(line.value);
      if count.None? || count.value < 0 { return Failed(Protocol); }
      got := ReadRESPStrings(count.value);
    }

    method ReadRESPStrings(count: nat) returns (got: Got<seq<bytes>>)
      modifies this
      ensures Performed(ReadElements(old(rest), count), got, rest)
    {
      ghost var whole := ReadElements(rest, count);
      var args: seq<bytes> := [];
      AfterNothing(whole);
      for i := 0 to count
        modifies this
        invariant whole == After(args, ReadElements(rest, count - i))
      {
        ghost var ahead := rest;
        var value := ReadRESPString();
        if value.Failed? { return Failed(value.error); }
        AfterOneMore(args, ahead, count - i - 1, value.value, rest);
        args := args + [value.value];
      }
      assert args + [] == args;
      return Got(args);
    }
  }

  /** What was read already, ahead of what is still to be read. */
  ghost function After(done: seq<bytes>, ahead: Read<seq<bytes>>): Read<seq<bytes>> {
    if ahead.Ok? then Ok(done + ahead.value, ahead.rest) else ahead
  }

  lemma AfterNothing(ahead: Read<seq<bytes>>)
    ensures After([], ahead) == ahead
  {
    if ahead.Ok? { assert [] + ahead.value == ahead.value; }
  }

  lemma AfterOneMore(done: seq<bytes>, s: bytes, count: nat, first: bytes, rest: bytes)
    requires ReadElement(s) == Ok(first, rest)
    ensures After(done, ReadElements(s, count + 1)) == After(done + [first], ReadElements(rest, count))
  {
    var ahead := ReadElements(rest, count);
    if ahead.Ok? {
      ReadElementsOneMore(s, count, first, rest, ahead.value, ahead.rest);
      assert done + ([first] + ahead.value) == done + [first] + ahead.value;
    }
  }

  lemma Regroup(a: bytes, b: bytes, c: bytes)
    ensures a + b + c == a + (b + c)
  {}

  lemma BulkStringsCons(item: Option<bytes>, rest: seq<Option<bytes>>)
    ensures BulkStrings([item] + rest) == BulkString(item) + BulkStrings(rest)
  {
    assert ([item] + rest)[1..] == rest;
  }

  lemma {:induction false} BulkStringsOneMore(items: seq<Option<bytes>>, item: Option<bytes>)
    ensures BulkStrings(items + [item]) == BulkStrings(items) + BulkString(item)
  {
    if items == [] {
      assert items + [item] == [item];
      assert [item][1..] == [];
    } else {
      var rest := items[1..];
      BulkStringsCons(items[0], rest + [item]);
      assert items + [item] == [items[0]] + (rest + [item]);
      BulkStringsOneMore(rest, item);
      Regroup(BulkString(items[0]), BulkStrings(rest), BulkString(item));
    }
  }

  class Writer {
    var out: bytes

    constructor ()
      ensures out == []
    {
      out := [];
    }

    method Write(data: bytes)
      modifies this
      ensures out == old(out) + data
    {
      out := out + data;
    }

    method WriteRedisBulkString(payload: Option<bytes>)
      modifies this
      ensures out == old(out) + BulkString(payload)
    {
      if payload.None? {
        Write(NIL_BULK);
        return;
      }
      Write([DOLLAR] + Itoa(|payload.value|) + CRLF);
      Write(payload.value);
      Write(CRLF);
    }

    method WriteRedisArrayOfBulkStrings(items: seq<Option<bytes>>)
      modifies this
      ensures out == old(out) + ArrayOfBulkStrings(items)
    {
      Write([STAR] + Itoa(|items|) + CRLF);
      WriteBulkStrings(items);
      Regroup(old(out), [STAR] + Itoa(|items|) + CRLF, BulkStrings(items));
    }

    method WriteBulkStrings(items: seq<Option<bytes>>)
      modifies this
      ensures out == old(out) + BulkStrings(items)
    {
      ghost var done := [];
      for i := 0 to |items|
        invariant done == items[..i] && out == old(out) + BulkStrings(done)
      {
        WriteRedisBulkString(items[i]);
        Regroup(old(out), BulkStrings(done), BulkString(items[i]));
        BulkStringsOneMore(done, items[i]);
        done := done + [items[i]];
      }
      assert done == items;
    }
  }
}
