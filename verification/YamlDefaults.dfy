/** Which new keys a merge adds: those that hold something else than a zero value or a known default. */
module YamlDefaults {
  import opened Common
  import opened YamlTree
  import opened YamlMerge
  import opened YamlLayout

  // ---------- what is left out ----------

  /** The scalars that say nothing. */
  predicate IsZero(tag: string, value: string) {
    || (tag == "!!bool" && value == "false")
    || ((tag == "!!int" || tag == "!!float") && value in {"0", "0.0"})
    || (tag == "!!str" && value == "")
    || tag == "!!null"
  }

  /** `path` spells `name`, which has a dot at position `dot`: as one segment, or as the two around the dot. */
  predicate Spells(path: Path, name: string, dot: nat) {
    path == [name] || (dot < |name| && path == [name[..dot], name[dot + 1..]])
  }

  /** The scalars that say what holds anyway. */
  predicate IsPreset(path: Path, tag: string, value: string) {
    || (tag == "!!str" && Spells(path, "pprof.addr", 5) && value == "127.0.0.1:8316")
    || (tag == "!!str" && Spells(path, "remote-management.panel-github-repository", 17)
        && value == "https://github.com/router-for-me/Cli-Proxy-API-Management-Center")
    || (tag == "!!str" && Spells(path, "routing.strategy", 7) && value == "round-robin")
    || (tag == "!!int" && path == ["error-logs-max-files"] && value == "10")
  }

  /** Something in the node is worth writing. Presets count only as entries of mappings. */
  predicate Matters(path: Path, node: Node, entry: bool)
    decreases node, 1
  {
    match node.kind
    case Scalar => !IsZero(node.tag, node.value) && !(entry && IsPreset(path, node.tag, node.value))
    case Mapping => SomePairMatters(path, node.content)
    case Sequence => SomeItemMatters(path, node.content)
    case _ => true
  }

  predicate SomePairMatters(path: Path, content: seq<Node>)
    decreases content, 0
  {
    |content| >= 2 && (Matters(path + [content[0].value], content[1], true) || SomePairMatters(path, content[2..]))
  }

  predicate SomeItemMatters(path: Path, content: seq<Node>)
    decreases content, 0
  {
    content != [] && (Matters(path, content[0], false) || SomeItemMatters(path, content[1..]))
  }

  // ---------- dotted paths ----------

  predicate OneDot(name: string, dot: nat) {
    dot < |name| && forall k :: 0 <= k < |name| ==> (name[k] == '.' <==> k == dot)
  }

  lemma TwoDots(path: Path) returns (i: nat, j: nat)
    requires |path| >= 3
    ensures i < j < |Joined(path)| && Joined(path)[i] == '.' && Joined(path)[j] == '.'
  {
    var tail := Joined(path[1..]);
    assert tail == path[1] + "." + Joined(path[2..]) by { assert path[1..][1..] == path[2..]; }
    i, j := |path[0]|, |path[0]| + 1 + |path[1]|;
    assert Joined(path) == path[0] + "." + tail;
    assert Joined(path)[j] == tail[|path[1]|];
  }

  /** A joined path has a dot between any two segments. */
  lemma JoinedIs(path: Path, name: string, dot: nat)
    requires name != "" && (OneDot(name, dot) || (dot == |name| && '.' !in name))
    ensures Joined(path) == name <==> Spells(path, name, dot)
  {
    if |path| == 2 {
      var joined := path[0] + "." + path[1];
      assert Joined(path) == joined && joined[|path[0]|] == '.';
      if joined == name {
        assert name[|path[0]|] in name;
        assert path[0] == name[..dot] && path[1] == name[dot + 1..];
      }
      assert dot < |name| ==> name == name[..dot] + "." + name[dot + 1..];
    } else if |path| >= 3 {
      var i, j := TwoDots(path);
      assert Joined(path)[i] in Joined(path);
    }
  }

  lemma PresetPaths(path: Path)
    ensures Joined(path) == "pprof.addr" <==> Spells(path, "pprof.addr", 5)
    ensures Joined(path) == "routing.strategy" <==> Spells(path, "routing.strategy", 7)
    ensures Joined(path) == "error-logs-max-files" <==> path == ["error-logs-max-files"]
  {
    JoinedIs(path, "pprof.addr", 5);
    JoinedIs(path, "routing.strategy", 7);
    JoinedIs(path, "error-logs-max-files", 20);
  }

  lemma RepositoryPath(path: Path)
    ensures Joined(path) == "remote-management.panel-github-repository"
            <==> Spells(path, "remote-management.panel-github-repository", 17)
  {
    JoinedIs(path, "remote-management.panel-github-repository", 17);
  }

  lemma PresetIsDefault(path: Path, tag: string, value: string)
    ensures IsDefaultText(path, tag, value) <==> IsPreset(path, tag, value)
  {
    PresetPaths(path);
    RepositoryPath(path);
  }

  lemma SpellsShort(path: Path, name: string, dot: nat)
    requires |path| >= 3
    ensures !Spells(path, name, dot)
  {}

  // ---------- pruning keeps exactly what matters ----------

  /** All values of a mapping are zero values. */
  predicate ZeroValues(content: seq<Node>) {
    forall i :: 0 <= i < |content| && i % 2 == 1 ==> IsZeroValue(content[i])
  }

  lemma ZeroValuesSplit(content: seq<Node>)
    requires |content| >= 2
    ensures ZeroValues(content) <==> IsZeroValue(content[1]) && ZeroValues(content[2..])
  {
    var tail := content[2..];
    forall i | 0 <= i < |tail| && i % 2 == 1 ensures tail[i] == content[i + 2] && (i + 2) % 2 == 1 {}
    if IsZeroValue(content[1]) && ZeroValues(tail) {
      forall i | 0 <= i < |content| && i % 2 == 1 ensures IsZeroValue(content[i]) {
        if i > 1 { assert content[i] == tail[i - 2]; }
      }
    }
  }

  /** Below two segments no path has a preset. */
  lemma {:induction false} DeepZero(path: Path, node: Node)
    requires |path| >= 2 && WellFormed(node)
    ensures IsZeroValue(node) <==> !Matters(path, node, false)
    decreases node, 1
  {
    match node.kind
    case Mapping => DeepZeroPairs(path, node.content);
    case Sequence => DeepZeroItems(path, node.content);
    case _ =>
  }

  lemma {:induction false} DeepZeroPairs(path: Path, content: seq<Node>)
    requires |path| >= 2 && PairsWellFormed(content) && |content| % 2 == 0
    ensures ZeroValues(content) <==> !SomePairMatters(path, content)
    decreases content, 0
  {
    if |content| >= 2 {
      DeepEntry(path + [content[0].value], content[1]);
      DeepZero(path + [content[0].value], content[1]);
      DeepZeroPairs(path, content[2..]);
      ZeroValuesSplit(content);
    }
  }

  lemma DeepEntry(path: Path, node: Node)
    requires |path| >= 3
    ensures Matters(path, node, true) == Matters(path, node, false)
  {
    SpellsShort(path, "pprof.addr", 5);
    SpellsShort(path, "remote-management.panel-github-repository", 17);
    SpellsShort(path, "routing.strategy", 7);
    assert !IsPreset(path, node.tag, node.value);
  }

  /** All elements of a sequence are zero values. */
  predicate ZeroElements(content: seq<Node>) {
    forall i :: 0 <= i < |content| ==> IsZeroValue(content[i])
  }

  lemma ZeroElementsSplit(content: seq<Node>)
    requires content != []
    ensures ZeroElements(content) <==> IsZeroValue(content[0]) && ZeroElements(content[1..])
  {
    assert forall i :: 0 <= i < |content[1..]| ==> content[1..][i] == content[i + 1];
    if IsZeroValue(content[0]) && ZeroElements(content[1..]) {
      forall i | 0 <= i < |content| ensures IsZeroValue(content[i]) {
        if i > 0 { assert content[i] == content[1..][i - 1]; }
      }
    }
  }

  lemma {:induction false} DeepZeroItems(path: Path, content: seq<Node>)
    requires |path| >= 2 && ItemsWellFormed(content)
    ensures ZeroElements(content) <==> !SomeItemMatters(path, content)
    decreases content, 0
  {
    if content != [] {
      DeepZero(path, content[0]);
      DeepZeroItems(path, content[1..]);
      ZeroElementsSplit(content);
    }
  }

  /** What is left of a node after pruning is a zero value exactly if nothing in it mattered. */
  lemma {:induction false} PrunedZero(path: Path, node: Node)
    requires path != [] && WellFormed(node)
    ensures IsZeroValue(Pruned(path, node)) <==> !Matters(path, node, false)
    ensures node.kind == Mapping ==> (Pruned(path, node).content == [] <==> !Matters(path, node, false))
    decreases node, 1
  {
    match node.kind
    case Mapping => PrunedZeroPairs(path, node.content);
    case Sequence => PrunedZeroItems(path, node.content);
    case _ =>
  }

  /** Whether an entry survives the pruning of its mapping. */
  lemma {:induction false} EntrySurvives(path: Path, key: Node, value: Node)
    requires path != [] && WellFormed(value)
    ensures var childPath := path + [key.value];
            (IsKnownDefault(childPath, value) || IsEmptyCollection(Pruned(childPath, value)))
            <==> !Matters(childPath, value, true)
    ensures Matters(path + [key.value], value, true) ==> !IsZeroValue(Pruned(path + [key.value], value))
    decreases value, 2
  {
    var childPath := path + [key.value];
    PrunedZero(childPath, value);
    match value.kind
    case Scalar => PresetIsDefault(childPath, value.tag, value.value);
    case Sequence => DeepZero(childPath, value);
    case Mapping => if IsZeroValue(value) { ZeroStaysZero(childPath, value); }
    case _ =>
  }

  /** Nothing in a zero value matters. */
  lemma {:induction false} ZeroStaysZero(path: Path, node: Node)
    requires IsZeroValue(node)
    ensures !Matters(path, node, false)
    decreases node, 1
  {
    match node.kind
    case Mapping => ZeroPairs(path, node.content);
    case Sequence => ZeroItems(path, node.content);
    case _ =>
  }

  lemma {:induction false} ZeroPairs(path: Path, content: seq<Node>)
    requires ZeroValues(content)
    ensures !SomePairMatters(path, content)
    decreases content, 0
  {
    if |content| >= 2 {
      ZeroValuesSplit(content);
      ZeroStaysZero(path + [content[0].value], content[1]);
      ZeroPairs(path, content[2..]);
    }
  }

  lemma {:induction false} ZeroItems(path: Path, content: seq<Node>)
    requires ZeroElements(content)
    ensures !SomeItemMatters(path, content)
    decreases content, 0
  {
    if content != [] {
      ZeroElementsSplit(content);
      ZeroStaysZero(path, content[0]);
      ZeroItems(path, content[1..]);
    }
  }

  lemma {:induction false} PrunedZeroPairs(path: Path, content: seq<Node>)
    requires path != [] && PairsWellFormed(content) && |content| % 2 == 0
    ensures PrunedPairs(path, content) == [] <==> !SomePairMatters(path, content)
    ensures var p := PrunedPairs(path, content);
            ZeroValues(p) <==> p == []
    decreases content, 0
  {
    if |content| >= 2 {
      var p, rest := PrunedPairs(path, content), PrunedPairs(path, content[2..]);
      EntrySurvives(path, content[0], content[1]);
      PrunedZeroPairs(path, content[2..]);
      if p != rest { ZeroValuesSplit(p); }
    }
  }

  lemma {:induction false} PrunedZeroItems(path: Path, content: seq<Node>)
    requires path != [] && ItemsWellFormed(content)
    ensures ZeroElements(PrunedItems(path, content)) <==> !SomeItemMatters(path, content)
    decreases content, 0
  {
    if content != [] {
      PrunedZero(path, content[0]);
      PrunedZeroItems(path, content[1..]);
      ZeroElementsSplit(PrunedItems(path, content));
    }
  }

  // ---------- new keys ----------

  /** A node without the entries, all the way down, in which nothing matters. */
  function Worthwhile(path: Path, node: Node): Node
    decreases node, 1
  {
    match node.kind
    case Mapping => node.(content := WorthwhilePairs(path, node.content))
    case Sequence => node.(content := WorthwhileItems(path, node.content))
    case _ => node
  }

  function WorthwhilePairs(path: Path, content: seq<Node>): seq<Node>
    decreases content, 0
  {
    if |content| < 2 then [] else
    var childPath := path + [content[0].value];
    (if Matters(childPath, content[1], true) then [content[0], Worthwhile(childPath, content[1])] else [])
    + WorthwhilePairs(path, content[2..])
  }

  function WorthwhileItems(path: Path, content: seq<Node>): seq<Node>
    decreases content, 0
  {
    if content == [] then [] else [Worthwhile(path, content[0])] + WorthwhileItems(path, content[1..])
  }

  lemma {:induction false} PrunedIsWorthwhile(path: Path, node: Node)
    requires path != [] && WellFormed(node)
    ensures Pruned(path, node) == Worthwhile(path, node)
    decreases node, 1
  {
    match node.kind
    case Mapping => PairsAreWorthwhile(path, node.content);
    case Sequence => ItemsAreWorthwhile(path, node.content);
    case _ =>
  }

  lemma {:induction false} PairsAreWorthwhile(path: Path, content: seq<Node>)
    requires path != [] && PairsWellFormed(content)
    ensures PrunedPairs(path, content) == WorthwhilePairs(path, content)
    decreases content, 0
  {
    if |content| >= 2 {
      EntrySurvives(path, content[0], content[1]);
      PrunedIsWorthwhile(path + [content[0].value], content[1]);
      PairsAreWorthwhile(path, content[2..]);
      PairOneMore(path, content);
    }
  }

  lemma PairOneMore(path: Path, content: seq<Node>)
    requires |content| >= 2 && PrunedPairs(path, content[2..]) == WorthwhilePairs(path, content[2..])
    requires var childPath := path + [content[0].value];
             && (IsKnownDefault(childPath, content[1]) || IsEmptyCollection(Pruned(childPath, content[1]))
                 <==> !Matters(childPath, content[1], true))
             && Pruned(childPath, content[1]) == Worthwhile(childPath, content[1])
    ensures PrunedPairs(path, content) == WorthwhilePairs(path, content)
  {}

  lemma {:induction false} ItemsAreWorthwhile(path: Path, content: seq<Node>)
    requires path != [] && ItemsWellFormed(content)
    ensures PrunedItems(path, content) == WorthwhileItems(path, content)
    decreases content, 0
  {
    if content != [] {
      PrunedIsWorthwhile(path, content[0]);
      ItemsAreWorthwhile(path, content[1..]);
    }
  }

  /** Whether a new value is added as a whole. */
  lemma CandidateMatters(path: Path, value: Node)
    requires path != [] && WellFormed(value)
    ensures IsKnownDefault(path, Pruned(path, value)) <==> !Matters(path, value, true)
  {
    PrunedZero(path, value);
    PresetIsDefault(path, value.tag, value.value);
  }

  /** What becomes of a new key. */
  ghost predicate AddedAsItShould(childPath: Path, value: Node, added: Option<Node>) {
    && added == (if Matters(childPath, value, true) then Some(Worthwhile(childPath, value)) else None)
    && (value.kind == Scalar && added.Some? ==> added.value == value)
  }

  lemma FirstKeyIsAdded(dst: seq<Node>, src: seq<Node>, path: Path)
    requires |dst| % 2 == 0 && |src| >= 2 && WellFormed(src[1]) && Get(dst, src[0].value).None?
    ensures AddedAsItShould(path + [src[0].value], src[1], Get(MergedPair(dst, src, path), src[0].value))
  {
    MergedPairGet(dst, src, path, src[0].value);
    CandidateMatters(path + [src[0].value], src[1]);
    PrunedIsWorthwhile(path + [src[0].value], src[1]);
  }

  /** A new key is added exactly if something in its value matters, and with what matters of it; a scalar
      with its tag and value. */
  lemma {:induction false} NewKeyIsAdded(dst: seq<Node>, src: seq<Node>, path: Path, key: string)
    requires |dst| % 2 == 0 && PairsWellFormed(src) && key in Keys(src) && Get(dst, key).None?
    ensures Get(src, key).Some?
    ensures AddedAsItShould(path + [key], Get(src, key).value, Get(MergedPairs(dst, src, path), key))
    decreases |src|
  {
    var next := MergedPair(dst, src, path);
    MergedPairGet(dst, src, path, key);
    if key == src[0].value {
      FirstKeyIsAdded(dst, src, path);
      MergedPairsKeep(next, src[2..], path, key);
    } else {
      NewKeyIsAdded(next, src[2..], path, key);
    }
  }
}
