/** Turning single-quoted strings into JSON strings: the character machine,
    the loop that runs it with a look-ahead, and what the result means. */
module FixJson {
  import opened Common

  datatype Mode = Outside | InDouble(escaped: bool) | InSingle(escaped: bool)

  function Next(mode: Mode, r: char): Mode {
    match mode
    case Outside => if r == '"' then InDouble(false) else if r == '\'' then InSingle(false) else Outside
    case InDouble(escaped) =>
      if escaped then InDouble(false)
      else if r == '\\' then InDouble(true)
      else if r == '"' then Outside else InDouble(false)
    case InSingle(escaped) =>
      if escaped then InSingle(false)
      else if r == '\\' then InSingle(true)
      else if r == '\'' then Outside else InSingle(false)
  }

  /** What one character contributes to the output. */
  function Emit(mode: Mode, r: char): string {
    match mode
    case Outside => if r == '\'' then "\"" else [r]
    case InDouble(_) => [r]
    case InSingle(escaped) =>
      if escaped then (if r == '\'' then "'" else ['\\', r])
      else if r == '\\' then ""
      else if r == '\'' then "\""
      else if r == '"' then "\\\"" else [r]
  }

  function After(mode: Mode, s: string): Mode
    decreases |s|
  {
    if s == "" then mode else After(Next(mode, s[0]), s[1..])
  }

  function Output(mode: Mode, s: string): string
    decreases |s|
  {
    if s == "" then "" else Emit(mode, s[0]) + Output(Next(mode, s[0]), s[1..])
  }

  /** An unterminated single-quoted string is closed. */
  function Closing(mode: Mode): string {
    if mode.InSingle? then "\"" else ""
  }

  function Fixed(s: string): string {
    Output(Outside, s) + Closing(After(Outside, s))
  }

  lemma {:induction false} RunAppend(mode: Mode, a: string, b: string)
    ensures After(mode, a + b) == After(After(mode, a), b)
    ensures Output(mode, a + b) == Output(mode, a) + Output(After(mode, a), b)
    decreases |a|
  {
    if a == "" {
      assert a + b == b;
    } else {
      assert (a + b)[1..] == a[1..] + b;
      RunAppend(Next(mode, a[0]), a[1..], b);
    }
  }

  lemma RunOne(mode: Mode, s: string, r: char)
    ensures After(mode, s + [r]) == Next(After(mode, s), r)
    ensures Output(mode, s + [r]) == Output(mode, s) + Emit(After(mode, s), r)
  {
    RunAppend(mode, s, [r]);
  }

  // ---------- the loop ----------

  predicate IsHex(c: char) {
    '0' <= c <= '9' || 'a' <= c <= 'f' || 'A' <= c <= 'F'
  }

  /** The function itself: flags, and an index that an inner loop advances over the digits of a \u escape. */
  method FixJSON(input: string) returns (out: string)
    ensures out == Fixed(input)
  {
    out := "";
    var inDouble, inSingle, escaped := false, false, false;
    var i := 0;
    while i < |input|
      invariant 0 <= i <= |input|
      invariant !(inDouble && inSingle) && (escaped ==> inDouble || inSingle)
      invariant After(Outside, input[..i]) == ModeOf(inDouble, inSingle, escaped)
      invariant out == Output(Outside, input[..i])
      decreases |input| - i
    {
      var r := input[i];
      Advance(input, i);
      i := i + 1;
      if inDouble {
        out := out + [r];
        if escaped { escaped := false; continue; }
        if r == '\\' { escaped := true; continue; }
        if r == '"' { inDouble := false; }
        continue;
      }
      if inSingle {
        if escaped {
          escaped := false;
          if r in "nrtbf/\"" {
            out := out + ['\\', r];
          } else if r == '\\' {
            out := out + "\\\\";
          } else if r == '\'' {
            out := out + "'";
          } else if r == 'u' {
            out := out + "\\u";
            var k := 0;
            ghost var start := i;
            while k < 4 && i < |input| && IsHex(input[i])
              invariant start <= i <= |input| && k <= 4
              invariant After(Outside, input[..i]) == InSingle(false)
              invariant out == Output(Outside, input[..i])
            {
              Advance(input, i);
              out := out + [input[i]];
              i := i + 1;
              k := k + 1;
            }
          } else {
            out := out + ['\\', r];
          }
          continue;
        }
        if r == '\\' { escaped := true; continue; }
        if r == '\'' { out := out + "\""; inSingle := false; continue; }
        if r == '"' { out := out + "\\\""; } else { out := out + [r]; }
        continue;
      }
      if r == '"' { inDouble := true; out := out + [r]; continue; }
      if r == '\'' { inSingle := true; out := out + "\""; continue; }
      out := out + [r];
    }
    assert input[..i] == input;
    if inSingle { out := out + "\""; }
  }

  function ModeOf(inDouble: bool, inSingle: bool, escaped: bool): Mode {
    if inDouble then InDouble(escaped) else if inSingle then InSingle(escaped) else Outside
  }

  lemma Advance(input: string, i: nat)
    requires i < |input|
    ensures After(Outside, input[..i + 1]) == Next(After(Outside, input[..i]), input[i])
    ensures Output(Outside, input[..i + 1]) == Output(Outside, input[..i]) + Emit(After(Outside, input[..i]), input[i])
  {
    assert input[..i + 1] == input[..i] + [input[i]];
    RunOne(Outside, input[..i], input[i]);
  }

  // ---------- a second run copies the output of the first ----------

  /** The mode of a second run while the first is in `mode`. */
  function Shadow(mode: Mode): Mode {
    if mode.InSingle? then InDouble(false) else mode
  }

  /** One character of the first run: the second run copies its output and keeps in step. */
  lemma ShadowStep(mode: Mode, r: char)
    ensures After(Shadow(mode), Emit(mode, r)) == Shadow(Next(mode, r))
    ensures Output(Shadow(mode), Emit(mode, r)) == Emit(mode, r)
  {
    var e := Emit(mode, r);
    if |e| == 1 {
      assert e[1..] == "";
      assert Output(Shadow(mode), e) == Emit(Shadow(mode), e[0]) + "";
    } else if |e| == 2 {
      assert e == [e[0]] + [e[1]];
      RunAppend(Shadow(mode), [e[0]], [e[1]]);
      RunOne(Shadow(mode), "", e[0]);
      RunOne(Next(Shadow(mode), e[0]), "", e[1]);
      assert "" + [e[0]] == [e[0]] && "" + [e[1]] == [e[1]];
    }
  }

  lemma {:induction false} ShadowRun(mode: Mode, s: string)
    ensures After(Shadow(mode), Output(mode, s)) == Shadow(After(mode, s))
    ensures Output(Shadow(mode), Output(mode, s)) == Output(mode, s)
    decreases |s|
  {
    if s != "" {
      ShadowStep(mode, s[0]);
      ShadowRun(Next(mode, s[0]), s[1..]);
      RunAppend(Shadow(mode), Emit(mode, s[0]), Output(Next(mode, s[0]), s[1..]));
    }
  }

  /** The output leaves no single-quoted string open and a further run changes nothing. */
  lemma FixedRun(s: string)
    ensures Output(Outside, Fixed(s)) == Fixed(s)
    ensures !After(Outside, Fixed(s)).InSingle?
  {
    var out, mode := Output(Outside, s), After(Outside, s);
    ShadowRun(Outside, s);
    RunAppend(Outside, out, Closing(mode));
    if mode.InSingle? {
      RunOne(Outside, out, '"');
      assert Closing(mode) == ['"'];
    } else {
      assert out + Closing(mode) == out;
    }
  }

  lemma Idempotent(s: string)
    ensures Fixed(Fixed(s)) == Fixed(s)
  {
    FixedRun(s);
  }

  // ---------- exactly the texts without single-quoted strings are left alone ----------

  /** No position of `s` is a single quote outside a double-quoted string. */
  ghost predicate NoSingleQuoted(s: string) {
    forall i :: 0 <= i < |s| ==> !(After(Outside, s[..i]) == Outside && s[i] == '\'')
  }

  /** While no single-quoted string starts, the text is copied. */
  lemma {:induction false} CopiedWhilePlain(s: string, n: nat)
    requires n <= |s|
    requires forall i :: 0 <= i < n ==> !(After(Outside, s[..i]) == Outside && s[i] == '\'')
    ensures Output(Outside, s[..n]) == s[..n] && !After(Outside, s[..n]).InSingle?
  {
    if n > 0 {
      CopiedWhilePlain(s, n - 1);
      Advance(s, n - 1);
      assert s[..n] == s[..n - 1] + [s[n - 1]];
    }
  }

  /** The first single-quoted string to start changes the character at its place. */
  lemma FirstQuoteChanges(s: string, n: nat)
    requires n < |s| && After(Outside, s[..n]) == Outside && s[n] == '\''
    requires forall i :: 0 <= i < n ==> !(After(Outside, s[..i]) == Outside && s[i] == '\'')
    ensures |Output(Outside, s)| > n && Output(Outside, s)[n] == '"'
  {
    CopiedWhilePlain(s, n);
    Advance(s, n);
    assert s == s[..n + 1] + s[n + 1..];
    RunAppend(Outside, s[..n + 1], s[n + 1..]);
    assert Output(Outside, s[..n + 1]) == s[..n] + ['"'];
  }

  lemma {:induction false} FirstQuote(s: string, i: nat) returns (n: nat)
    requires i < |s| && After(Outside, s[..i]) == Outside && s[i] == '\''
    ensures n < |s| && After(Outside, s[..n]) == Outside && s[n] == '\''
    ensures forall k :: 0 <= k < n ==> !(After(Outside, s[..k]) == Outside && s[k] == '\'')
    decreases i
  {
    if k :| 0 <= k < i && After(Outside, s[..k]) == Outside && s[k] == '\'' {
      n := FirstQuote(s, k);
    } else {
      n := i;
    }
  }

  /** The identity exactly on text with no single quote outside double-quoted strings. */
  lemma UnchangedIffNoSingleQuoted(s: string)
    ensures Fixed(s) == s <==> NoSingleQuoted(s)
  {
    if NoSingleQuoted(s) {
      CopiedWhilePlain(s, |s|);
      assert s[..|s|] == s;
    } else {
      var i :| 0 <= i < |s| && After(Outside, s[..i]) == Outside && s[i] == '\'';
      var n := FirstQuote(s, i);
      FirstQuoteChanges(s, n);
      assert Fixed(s)[n] == '"';
    }
  }

  /** The output contains no single-quoted string. */
  lemma OutputHasNoSingleQuoted(s: string)
    ensures NoSingleQuoted(Fixed(s))
  {
    Idempotent(s);
    UnchangedIffNoSingleQuoted(Fixed(s));
  }

  // ---------- a converted literal means what the source literal means ----------

  function HexDigit(c: char): nat
    requires IsHex(c)
  {
    if c <= '9' then c as int - '0' as int
    else if c <= 'F' then c as int - 'A' as int + 10
    else c as int - 'a' as int + 10
  }

  predicate LeadingHex(s: string, n: nat) {
    n == 0 || (s != "" && IsHex(s[0]) && LeadingHex(s[1..], n - 1))
  }

  /** The value of the first `n` hexadecimal digits, after `acc`. */
  function HexValue(s: string, n: nat, acc: nat): nat
    requires LeadingHex(s, n)
  {
    if n == 0 then acc else HexValue(s[1..], n - 1, 16 * acc + HexDigit(s[0]))
  }

  /** The two-character escapes of RFC 8259, section 7. */
  function SimpleEscape(c: char): Option<int> {
    match c
    case '"' => Some(0x22)
    case '\\' => Some(0x5C)
    case '/' => Some(0x2F)
    case 'b' => Some(0x8)
    case 'f' => Some(0xC)
    case 'n' => Some(0xA)
    case 'r' => Some(0xD)
    case 't' => Some(0x9)
    case _ => None
  }

  /** The two-character escapes of a single-quoted literal: the same, and the quote itself. */
  function SingleEscape(c: char): Option<int> {
    if c == '\'' then Some(0x27) else SimpleEscape(c)
  }

  function Prepend(c: int, rest: Option<seq<int>>): Option<seq<int>> {
    if rest.None? then None else Some([c] + rest.value)
  }

  /** The code values of a literal's body: a character stands for itself unless it is the delimiter,
      a backslash or a control character; \uXXXX stands for a UTF-16 code unit. */
  function Decode(quote: char, body: string): Option<seq<int>>
    decreases |body|
  {
    if body == "" then Some([])
    else if body[0] == quote || (body[0] as int) < 0x20 then None
    else if body[0] != '\\' then Prepend(body[0] as int, Decode(quote, body[1..]))
    else if |body| == 1 then None
    else if body[1] == 'u' then
      if !LeadingHex(body[2..], 4) then None
      else
        HexLength(body[2..], 4);
        Prepend(HexValue(body[2..], 4, 0), Decode(quote, body[2..][4..]))
    else
      var e := if quote == '\'' then SingleEscape(body[1]) else SimpleEscape(body[1]);
      if e.None? then None else Prepend(e.value, Decode(quote, body[2..]))
  }

  lemma {:induction false} HexLength(s: string, n: nat)
    requires LeadingHex(s, n)
    ensures n <= |s|
  {
    if n > 0 { HexLength(s[1..], n - 1); }
  }

  const DIGITS := "0123456789abcdef"

  /** The XXXX of \uXXXX. */
  function Hex4(code: nat): (hex: string)
    requires code < 65536
    ensures |hex| == 4
  {
    [DIGITS[code / 4096], DIGITS[code / 256 % 16], DIGITS[code / 16 % 16], DIGITS[code % 16]]
  }

  function Escapes(codes: seq<nat>): string
    requires forall i :: 0 <= i < |codes| ==> codes[i] < 65536
  {
    if codes == [] then "" else ['\\', 'u'] + (Hex4(codes[0]) + Escapes(codes[1..]))
  }

  lemma DigitMeans(d: nat)
    requires d < 16
    ensures IsHex(DIGITS[d]) && HexDigit(DIGITS[d]) == d
    ensures IsHex("0123456789ABCDEF"[d]) && HexDigit("0123456789ABCDEF"[d]) == d
  {}

  /** A bare quote or control character is not allowed, nor is an escaped single quote in JSON. */
  lemma DecodeRefuses(quote: char, c: char, rest: string)
    ensures c == quote || (c as int) < 0x20 ==> Decode(quote, [c] + rest) == None
    ensures Decode('"', ['\\', '\''] + rest) == None
  {
    assert (['\\', '\''] + rest)[1] == '\'';
  }

  lemma HexCons(c: char, s: string, n: nat, acc: nat)
    requires IsHex(c) && LeadingHex(s, n)
    ensures LeadingHex([c] + s, n + 1)
    ensures HexValue([c] + s, n + 1, acc) == HexValue(s, n, 16 * acc + HexDigit(c))
  {
    assert ([c] + s)[1..] == s;
  }

  lemma FourHex(a: char, b: char, c: char, d: char, rest: string)
    requires IsHex(a) && IsHex(b) && IsHex(c) && IsHex(d)
    ensures LeadingHex([a] + ([b] + ([c] + ([d] + rest))), 4)
    ensures HexValue([a] + ([b] + ([c] + ([d] + rest))), 4, 0)
            == 4096 * HexDigit(a) + 256 * HexDigit(b) + 16 * HexDigit(c) + HexDigit(d)
  {
    var x := HexDigit(a);
    var y := 16 * x + HexDigit(b);
    var z := 16 * y + HexDigit(c);
    HexCons(d, rest, 0, z);
    HexCons(c, [d] + rest, 1, y);
    HexCons(b, [c] + ([d] + rest), 2, x);
    HexCons(a, [b] + ([c] + ([d] + rest)), 3, 0);
  }

  lemma InHex(code: nat)
    requires code < 65536
    ensures code / 4096 < 16
    ensures 4096 * (code / 4096) + 256 * (code / 256 % 16) + 16 * (code / 16 % 16) + code % 16 == code
  {
    assert code / 16 / 16 == code / 256 && code / 256 / 16 == code / 4096;
    assert code == 16 * (code / 16) + code % 16;
    assert code / 16 == 16 * (code / 256) + code / 16 % 16;
    assert code / 256 == 16 * (code / 4096) + code / 256 % 16;
  }

  lemma EscapeMeans(code: nat, rest: string)
    requires code < 65536
    ensures LeadingHex(Hex4(code) + rest, 4) && HexValue(Hex4(code) + rest, 4, 0) == code
  {
    var a, b, c, d := code / 4096, code / 256 % 16, code / 16 % 16, code % 16;
    InHex(code);
    DigitMeans(a);
    DigitMeans(b);
    DigitMeans(c);
    DigitMeans(d);
    FourHex(DIGITS[a], DIGITS[b], DIGITS[c], DIGITS[d], rest);
    assert Hex4(code) + rest == [DIGITS[a]] + ([DIGITS[b]] + ([DIGITS[c]] + ([DIGITS[d]] + rest)));
  }

  lemma DecodeUnit(quote: char, hex: string, rest: string)
    requires (quote == '"' || quote == '\'') && |hex| == 4 && LeadingHex(hex + rest, 4)
    ensures Decode(quote, ['\\', 'u'] + (hex + rest)) == Prepend(HexValue(hex + rest, 4, 0), Decode(quote, rest))
  {
    var body := ['\\', 'u'] + (hex + rest);
    assert body[2..] == hex + rest && body[2..][4..] == rest;
  }

  /** Decoding inverts writing every code unit as an escape, between either kind of quote. */
  lemma {:induction false} DecodeInvertsEscapes(quote: char, codes: seq<nat>)
    requires quote == '"' || quote == '\''
    requires forall i :: 0 <= i < |codes| ==> codes[i] < 65536
    ensures Decode(quote, Escapes(codes)) == Some(codes)
    decreases |codes|
  {
    if codes != [] {
      EscapeMeans(codes[0], Escapes(codes[1..]));
      DecodeOneMore(quote, Hex4(codes[0]), Escapes(codes[1..]), codes);
      DecodeInvertsEscapes(quote, codes[1..]);
    }
  }

  lemma DecodeOneMore(quote: char, hex: string, rest: string, codes: seq<nat>)
    requires (quote == '"' || quote == '\'') && |hex| == 4 && LeadingHex(hex + rest, 4) && codes != []
    requires HexValue(hex + rest, 4, 0) == codes[0]
    ensures Decode(quote, rest) == Some(codes[1..]) ==> Decode(quote, ['\\', 'u'] + (hex + rest)) == Some(codes)
  {
    DecodeUnit(quote, hex, rest);
    assert [codes[0]] + codes[1..] == codes;
  }

  /** Text without quotes, backslashes and control characters stands for itself. */
  lemma {:induction false} PlainDecodes(quote: char, text: string)
    requires forall i :: 0 <= i < |text| ==> text[i] >= ' ' && text[i] != '\\' && text[i] != quote
    ensures var d := Decode(quote, text);
            d.Some? && |d.value| == |text| && forall i :: 0 <= i < |text| ==> d.value[i] == text[i] as int
    decreases |text|
  {
    if text != "" {
      var tail := text[1..];
      PlainDecodes(quote, tail);
      assert Decode(quote, text) == Prepend(text[0] as int, Decode(quote, tail));
      forall i | 0 <= i < |text| ensures Decode(quote, text).value[i] == text[i] as int {
        if i > 0 { assert text[i] == tail[i - 1]; }
      }
    }
  }

  /** `body` is what stands between two single quotes: none in it is bare, and it ends no escape early. */
  predicate SingleBody(body: string)
    decreases |body|
  {
    body == "" || (body[0] != '\'' &&
                   if body[0] == '\\' then |body| > 1 && SingleBody(body[2..]) else SingleBody(body[1..]))
  }

  function Converted(body: string): string {
    Output(InSingle(false), body)
  }

  /** An unescaped character of a body is converted by itself; an escape, by its two characters. */
  lemma ConvertedStep(body: string)
    requires body != "" && SingleBody(body)
    ensures body[0] != '\\' ==> Converted(body) == Emit(InSingle(false), body[0]) + Converted(body[1..])
    ensures body[0] == '\\' ==> Converted(body) == Emit(InSingle(true), body[1]) + Converted(body[2..])
  {
    if body[0] == '\\' {
      assert body[1..][1..] == body[2..] && body[1..][0] == body[1];
      assert Converted(body) == "" + Output(InSingle(true), body[1..]);
    }
  }

  lemma {:induction false} BodyEnds(body: string)
    requires SingleBody(body)
    ensures After(InSingle(false), body) == InSingle(false)
    decreases |body|
  {
    if body != "" {
      if body[0] == '\\' {
        assert body[1..][1..] == body[2..] && body[1..][0] == body[1];
        BodyEnds(body[2..]);
      } else {
        BodyEnds(body[1..]);
      }
    }
  }

  /** Conversion neither adds nor removes leading hexadecimal digits. */
  lemma {:induction false} HexKept(body: string, n: nat, acc: nat)
    requires SingleBody(body)
    ensures LeadingHex(Converted(body), n) == LeadingHex(body, n)
    ensures LeadingHex(body, n) ==>
              n <= |body| && n <= |Converted(body)|
              && HexValue(Converted(body), n, acc) == HexValue(body, n, acc)
              && SingleBody(body[n..]) && Converted(body)[n..] == Converted(body[n..])
    decreases n
  {
    if n == 0 {
      assert body[0..] == body && Converted(body)[0..] == Converted(body);
    } else if body != "" {
      ConvertedStep(body);
      if IsHex(body[0]) {
        HexKept(body[1..], n - 1, 16 * acc + HexDigit(body[0]));
        assert Converted(body)[1..] == Converted(body[1..]);
        if LeadingHex(body, n) {
          assert body[1..][n - 1..] == body[n..];
          assert Converted(body)[1..][n - 1..] == Converted(body)[n..];
        }
      }
    }
  }

  /** The converted body decodes, as a JSON string, to what the body decodes to; an
      undecodable body stays undecodable. */
  lemma {:induction false} ConvertedMeansTheSame(body: string)
    requires SingleBody(body)
    ensures Decode('"', Converted(body)) == Decode('\'', body)
    decreases |body|
  {
    if body == "" { return; }
    ConvertedStep(body);
    var out := Converted(body);
    if body[0] != '\\' {
      ConvertedMeansTheSame(body[1..]);
      if body[0] == '"' {
        assert out[2..] == Converted(body[1..]);
      } else {
        assert out[1..] == Converted(body[1..]);
      }
    } else {
      var rest := body[2..];
      if body[1] == '\'' {
        assert out[1..] == Converted(rest);
        ConvertedMeansTheSame(rest);
      } else {
        assert out[2..] == Converted(rest);
        if body[1] == 'u' {
          HexKept(rest, 4, 0);
          if LeadingHex(rest, 4) { ConvertedMeansTheSame(rest[4..]); }
        } else {
          ConvertedMeansTheSame(rest);
        }
      }
    }
  }

  /** A single-quoted literal anywhere outside strings becomes a JSON string with the same meaning. */
  lemma LiteralConverted(before: string, body: string, after: string)
    requires After(Outside, before) == Outside && SingleBody(body)
    ensures Fixed(before + "'" + body + "'" + after)
            == Output(Outside, before) + "\"" + Converted(body) + "\"" + Fixed(after)
    ensures Decode('"', Converted(body)) == Decode('\'', body)
  {
    ConvertedMeansTheSame(body);
    LiteralRuns(before, body);
    RunAppend(Outside, before + "'" + body + "'", after);
  }

  /** A single-quoted literal that the text ends in is closed, and means what it would mean if it were; a
      last lone backslash is dropped. */
  lemma UnterminatedIsClosed(before: string, body: string)
    requires After(Outside, before) == Outside && SingleBody(body)
    ensures Fixed(before + "'" + body) == Fixed(before + "'" + body + "'")
    ensures Fixed(before + "'" + body + "\\") == Fixed(before + "'" + body + "'")
    ensures Fixed(before + "'" + body) == Output(Outside, before) + "\"" + Converted(body) + "\""
  {
    var s := before + "'" + body;
    BodyEnds(body);
    RunOne(Outside, before, '\'');
    RunAppend(Outside, before + "'", body);
    LiteralRuns(before, body);
    RunOne(Outside, s, '\'');
    RunOne(Outside, s, '\\');
    assert Output(Outside, s + "\\") == Output(Outside, s) + "";
  }

  /** The run up to the end of the literal. */
  lemma LiteralRuns(before: string, body: string)
    requires After(Outside, before) == Outside && SingleBody(body)
    ensures var s := before + "'" + body + "'";
            && After(Outside, s) == Outside
            && Output(Outside, s) == Output(Outside, before) + "\"" + Converted(body) + "\""
  {
    BodyEnds(body);
    RunOne(Outside, before, '\'');
    RunAppend(Outside, before + "'", body);
    RunOne(Outside, before + "'" + body, '\'');
  }
}
