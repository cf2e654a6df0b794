/** YAML nodes as values, and the merge of a generated tree into a hand-written one. */
module YamlTree {
  import opened Common

  datatype Kind = NoKind | Document | Sequence | Mapping | Scalar | Alias

  /** A node: what it says, and a `layout` standing for its comments, style and anchor.
      A mapping's content alternates keys and values; `target` is what an alias points to. */
  datatype Node = Node(kind: Kind, tag: string, value: string, content: seq<Node>, target: Option<Node>, layout: string)

  type Path = seq<string>

  const PPROF_ADDR := "127.0.0.1:8316"
  const PANEL_REPOSITORY := "https://github.com/router-for-me/Cli-Proxy-API-Management-Center"

  // ---------- mappings ----------

  /** The index of the first key with this value in alternating content, or -1. */
  function FindKey(content: seq<Node>, key: string): (i: int)
    ensures -1 <= i && (i >= 0 ==> i % 2 == 0 && i + 1 < |content| && content[i].value == key)
  {
    if |content| < 2 then -1
    else if content[0].value == key then 0
    else
      var i := FindKey(content[2..], key);
      if i < 0 then -1 else i + 2
  }

  function Get(content: seq<Node>, key: string): Option<Node> {
    var i := FindKey(content, key);
    if i < 0 then None else Some(content[i + 1])
  }

  function Keys(content: seq<Node>): seq<string> {
    if |content| < 2 then [] else [content[0].value] + Keys(content[2..])
  }

  // ---------- defaults ----------

  /** Whether a node is a zero value, looking through collections. */
  predicate IsZeroValue(node: Node) {
    match node.kind
    case Scalar =>
      if node.tag == "!!bool" then node.value == "false"
      else if node.tag == "!!int" || node.tag == "!!float" then node.value == "0" || node.value == "0.0"
      else if node.tag == "!!str" then node.value == ""
      else node.tag == "!!null"
    case Sequence => forall i :: 0 <= i < |node.content| ==> IsZeroValue(node.content[i])
    case Mapping => forall i :: 0 <= i < |node.content| && i % 2 == 1 ==> IsZeroValue(node.content[i])
    case _ => false
  }

  /** `strings.Join(path, ".")`. */
  function Joined(path: Path): string {
    if path == [] then "" else if |path| == 1 then path[0] else path[0] + "." + Joined(path[1..])
  }

  /** The known non-zero defaults, by dotted path. */
  predicate IsDefaultText(path: Path, tag: string, value: string) {
    var fullPath := Joined(path);
    if tag == "!!str" then
      if fullPath == "pprof.addr" then value == PPROF_ADDR
      else if fullPath == "remote-management.panel-github-repository" then value == PANEL_REPOSITORY
      else fullPath == "routing.strategy" && value == "round-robin"
    else tag == "!!int" && fullPath == "error-logs-max-files" && value == "10"
  }

  predicate IsKnownDefault(path: Path, node: Node) {
    IsZeroValue(node) || (node.kind == Scalar && IsDefaultText(path, node.tag, node.value))
  }

  predicate IsEmptyCollection(node: Node) {
    (node.kind == Mapping || node.kind == Sequence) && node.content == []
  }

  /** A new node without its default-valued descendants. */
  function Pruned(path: Path, node: Node): (p: Node)
    ensures p.kind == node.kind && p.tag == node.tag && p.value == node.value && p.layout == node.layout
    decreases node, 1
  {
    match node.kind
    case Mapping => node.(content := PrunedPairs(path, node.content))
    case Sequence => node.(content := PrunedItems(path, node.content))
    case _ => node
  }

  function PrunedPairs(path: Path, content: seq<Node>): seq<Node>
    decreases content, 0
  {
    if |content| < 2 then [] else
    var childPath := path + [content[0].value];
    var rest := PrunedPairs(path, content[2..]);
    if IsKnownDefault(childPath, content[1]) || IsEmptyCollection(Pruned(childPath, content[1])) then rest
    else [content[0], Pruned(childPath, content[1])] + rest
  }

  function PrunedItems(path: Path, content: seq<Node>): (p: seq<Node>)
    ensures |p| == |content|
    decreases content, 0
  {
    if content == [] then [] else [Pruned(path, content[0])] + PrunedItems(path, content[1..])
  }

  // ---------- matching sequence elements ----------

  const IDENTITY_KEYS: seq<string> := ["id", "name", "alias", "api-key", "api_key", "apikey", "key", "provider",
                                       "model"]

  /** The trimmed value of the first scalar entry whose key, trimmed and lower-cased, is `key`. */
  function ScalarEntry(content: seq<Node>, key: string): string {
    if |content| < 2 then ""
    else if content[1].kind == Scalar && ToLower(TrimSpace(content[0].value)) == ToLower(key)
        then TrimSpace(content[1].value)
    else ScalarEntry(content[2..], key)
  }

  function IdentityByKey(content: seq<Node>, keys: seq<string>): string {
    if keys == [] then ""
    else
      var v := ScalarEntry(content, keys[0]);
      if v != "" then keys[0] + "=" + v else IdentityByKey(content, keys[1..])
  }

  /** The first entry with a non-blank scalar value. */
  function IdentityByFirst(content: seq<Node>): string {
    if |content| < 2 then ""
    else if content[1].kind == Scalar && TrimSpace(content[1].value) != "" then
      ToLower(TrimSpace(content[0].value)) + "=" + TrimSpace(content[1].value)
    else IdentityByFirst(content[2..])
  }

  function IdentityOf(content: seq<Node>, keys: seq<string>): string {
    var id := IdentityByKey(content, keys);
    if id != "" then id else IdentityByFirst(content)
  }

  function Identity(node: Node): string {
    if node.kind != Mapping then "" else IdentityOf(node.content, IDENTITY_KEYS)
  }

  predicate StructurallyEqual(a: Node, b: Node)
    decreases a, 1
  {
    && a.kind == b.kind
    && match a.kind
       case Mapping => |a.content| == |b.content| && PairsEqual(a.content, b.content)
       case Sequence => |a.content| == |b.content| && ItemsEqual(a.content, b.content)
       case Alias =>
         (a.target.None? && b.target.None?)
         || (a.target.Some? && b.target.Some? && StructurallyEqual(a.target.value, b.target.value))
       case _ => TrimSpace(a.value) == TrimSpace(b.value)
  }

  predicate PairsEqual(a: seq<Node>, b: seq<Node>)
    requires |a| == |b|
    decreases a, 0
  {
    |a| < 2 || (StructurallyEqual(a[0], b[0]) && StructurallyEqual(a[1], b[1]) && PairsEqual(a[2..], b[2..]))
  }

  predicate ItemsEqual(a: seq<Node>, b: seq<Node>)
    requires |a| == |b|
    decreases a, 0
  {
    a == [] || (StructurallyEqual(a[0], b[0]) && ItemsEqual(a[1..], b[1..]))
  }

  /** The first element at or after `from` that is not used and satisfies `ok`, or -1. */
  function First(original: seq<Node>, used: set<int>, from: nat, ok: Node -> bool): (i: int)
    requires from <= |original|
    ensures i == -1 || (from <= i < |original| && i !in used && ok(original[i]))
    ensures forall k :: from <= k < |original| && (i == -1 || k < i) && k !in used ==> !ok(original[k])
    decreases |original| - from
  {
    if from == |original| then -1
    else if from !in used && ok(original[from]) then from
    else First(original, used, from + 1, ok)
  }

  /** The kind of identity by which an element is looked for first. */
  predicate SameIdentity(target: Node, o: Node) {
    match target.kind
    case Mapping => o.kind == Mapping && Identity(o) == Identity(target)
    case Scalar => o.kind == Scalar && TrimSpace(o.value) == TrimSpace(target.value)
    case _ => false
  }

  predicate HasIdentity(target: Node) {
    match target.kind
    case Mapping => Identity(target) != ""
    case Scalar => TrimSpace(target.value) != ""
    case _ => false
  }

  function MatchElement(original: seq<Node>, used: set<int>, target: Node): (i: int)
    ensures i == -1 || (0 <= i < |original| && i !in used)
  {
    var i := if HasIdentity(target) then First(original, used, 0, o => SameIdentity(target, o)) else -1;
    if i >= 0 then i else First(original, used, 0, o => StructurallyEqual(o, target))
  }

  /** For each element of `src`, the old element that becomes it, or -1. */
  function Assigned(original: seq<Node>, used: set<int>, src: seq<Node>): (idx: seq<int>)
    ensures |idx| == |src|
    ensures forall i :: 0 <= i < |idx| ==> idx[i] == -1 || (0 <= idx[i] < |original| && idx[i] !in used)
    decreases |src|
  {
    if src == [] then [] else
    var i := MatchElement(original, used, src[0]);
    [i] + Assigned(original, if i >= 0 then used + {i} else used, src[1..])
  }

  // ---------- merging ----------

  /** Take over what `src` says, keeping the layout of `dst`. */
  function CopiedShallow(dst: Node, src: Node): Node {
    dst.(kind := src.kind, tag := src.tag, value := src.value, content := src.content)
  }

  /** Drop the entries of a mapping whose trimmed key is not a trimmed, non-empty key of `keep`. */
  function KeptPairs(content: seq<Node>, keep: seq<string>): seq<Node> {
    if |content| < 2 then content
    else if TrimSpace(content[0].value) in keep then content[..2] + KeptPairs(content[2..], keep)
    else KeptPairs(content[2..], keep)
  }

  function TrimmedKeys(content: seq<Node>): seq<string> {
    if |content| < 2 then []
    else
      var key := TrimSpace(content[0].value);
      (if key == "" then [] else [key]) + TrimmedKeys(content[2..])
  }

  function WithoutMissing(dst: Node, src: Node): Node {
    if dst.kind != Mapping || src.kind != Mapping then dst
    else dst.(content := KeptPairs(dst.content, TrimmedKeys(src.content)))
  }

  function Merged(dst: Node, src: Node, path: Path): Node
    decreases src, 2
  {
    match src.kind
    case Mapping =>
      var d := if dst.kind != Mapping then CopiedShallow(dst, src) else dst;
      d.(content := MergedPairs(d.content, src.content, path))
    case Sequence =>
      if dst.kind == Scalar && dst.tag == "!!null" && src.content == [] then dst
      else
        var d := if dst.kind != Sequence then dst.(kind := Sequence, tag := "!!seq", content := []) else dst;
        d.(content := MergedItems(d.content, Assigned(d.content, {}, src.content), src.content, path))
    case Scalar => dst.(kind := Scalar, tag := src.tag, value := src.value)
    case Alias => dst.(kind := Alias, tag := src.tag, value := src.value)
    case NoKind => dst
    case Document => CopiedShallow(dst, src)
  }

  function MergedPairs(dst: seq<Node>, src: seq<Node>, path: Path): seq<Node>
    decreases src, 1
  {
    if |src| < 2 then dst else
    MergedPairs(MergedPair(dst, src, path), src[2..], path)
  }

  /** The first entry of `src` merged into `dst`. */
  function MergedPair(dst: seq<Node>, src: seq<Node>, path: Path): seq<Node>
    requires |src| >= 2
    decreases src, 0
  {
    var i := FindKey(dst, src[0].value);
    var childPath := path + [src[0].value];
    if i >= 0 then dst[i + 1 := Merged(dst[i + 1], src[1], childPath)]
    else
      var candidate := Pruned(childPath, src[1]);
      if IsKnownDefault(childPath, candidate) then dst else dst + [src[0], candidate]
  }

  function MergedItems(original: seq<Node>, idx: seq<int>, src: seq<Node>, path: Path): (r: seq<Node>)
    requires |idx| == |src| && forall i :: 0 <= i < |idx| ==> idx[i] == -1 || 0 <= idx[i] < |original|
    ensures |r| == |src|
    decreases src, 0
  {
    if src == [] then [] else
    [if idx[0] == -1 then src[0] else WithoutMissing(Merged(original[idx[0]], src[0], path), src[0])]
    + MergedItems(original, idx[1..], src[1..], path)
  }
}
