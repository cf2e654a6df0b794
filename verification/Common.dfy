/** Small helpers shared by the models: optional values and the string
    operations of Go's `strings` package that the modelled code relies on.
    Case mapping covers the ASCII letters. */
module Common {

  datatype Option<+T> = None | Some(value: T)

  function Min(a: int, b: int): int {
    if a <= b then a else b
  }

  function LowerChar(c: char): char {
    if 'A' <= c <= 'Z' then ((c as int) + 32) as char else c
  }

  function ToLower(s: string): (r: string)
    ensures |r| == |s|
  {
    seq(|s|, i requires 0 <= i < |s| => LowerChar(s[i]))
  }

  /** The capital letters get their small ones, and nothing else changes. */
  lemma LowerIsAscii(c: char)
    ensures var capital, small := "ABCDEFGHIJKLMNOPQRSTUVWXYZ", "abcdefghijklmnopqrstuvwxyz";
            && (forall i :: 0 <= i < 26 ==> LowerChar(capital[i]) == small[i])
            && (c !in capital ==> LowerChar(c) == c)
  {
    var capital := "ABCDEFGHIJKLMNOPQRSTUVWXYZ";
    if 'A' <= c <= 'Z' { assert capital[c as int - 65] == c; }
  }

  predicate EqualFold(a: string, b: string) {
    ToLower(a) == ToLower(b)
  }

  /** The code points for which `unicode.IsSpace` holds. */
  predicate IsSpace(c: char) {
    var n := c as int;
    || 0x9 <= n <= 0xD || n == 0x20 || n == 0x85 || n == 0xA0 || n == 0x1680
    || 0x2000 <= n <= 0x200A || n == 0x2028 || n == 0x2029 || n == 0x202F
    || n == 0x205F || n == 0x3000
  }

  /** Below 128 these are the white space of ASCII. */
  lemma AsciiSpace(c: char)
    ensures c < '\U{80}' ==> (IsSpace(c) <==> '\t' <= c <= '\r' || c == ' ')
  {}

  function TrimLeft(s: string): string {
    if s != "" && IsSpace(s[0]) then TrimLeft(s[1..]) else s
  }

  function TrimRight(s: string): string {
    if s != "" && IsSpace(s[|s| - 1]) then TrimRight(s[..|s| - 1]) else s
  }

  function TrimSpace(s: string): string {
    TrimRight(TrimLeft(s))
  }

  /** The largest value of Go's 64-bit `int`. */
  const MAX_INT: int := 0x7FFF_FFFF_FFFF_FFFF

  predicate IsDigit(code: int) {
    48 <= code <= 57
  }

  /** The decimal value of a string of digit codes, most significant first. */
  function Digits(codes: seq<int>): Option<nat> {
    if codes == [] then Some(0)
    else if !IsDigit(codes[|codes| - 1]) then None
    else
      var leading := Digits(codes[..|codes| - 1]);
      if leading.None? then None else Some(10 * leading.value + (codes[|codes| - 1] - 48))
  }

  /** `strconv.Atoi` on character codes: an optional sign, then digits, within 64 bits. */
  function Atoi(codes: seq<int>): Option<int> {
    var signed := codes != [] && (codes[0] == 43 || codes[0] == 45);
    var digits := if signed then codes[1..] else codes;
    if digits == [] || Digits(digits).None? then None
    else
      var n: int := Digits(digits).value;
      if signed && codes[0] == 45 then (if n <= MAX_INT + 1 then Some(-n) else None)
      else if n <= MAX_INT then Some(n) else None
  }
}
