/** What the merge leaves of the hand-written tree: key order, layouts, and
    which old element each element of a sequence is. */
module YamlLayout {
  import opened Common
  import opened YamlTree
  import opened YamlMerge

  // ---------- mappings keep their order ----------

  /** A merged node is the old node in a new state: its comments and style stay with it. */
  lemma MergedKeepsLayout(dst: Node, src: Node, path: Path)
    ensures Merged(dst, src, path).layout == dst.layout
    ensures WithoutMissing(dst, src).layout == dst.layout
  {}

  /** The keys of `src` that a merge appends. */
  function NewKeys(dst: seq<Node>, src: seq<Node>, path: Path): seq<string> {
    if |src| < 2 then [] else
    var childPath := path + [src[0].value];
    (if FindKey(dst, src[0].value) >= 0 || IsKnownDefault(childPath, Pruned(childPath, src[1])) then []
       else [src[0].value])
    + NewKeys(dst, src[2..], path)
  }

  lemma {:induction false} KeysAppend(content: seq<Node>, k: Node, v: Node)
    requires |content| % 2 == 0
    ensures Keys(content + [k, v]) == Keys(content) + [k.value]
    decreases |content|
  {
    if content == [] {
      assert content + [k, v] == [k, v];
    } else {
      assert (content + [k, v])[2..] == content[2..] + [k, v];
      KeysAppend(content[2..], k, v);
    }
  }

  lemma {:induction false} KeysUpdate(content: seq<Node>, i: nat, v: Node)
    requires i < |content| && i % 2 == 1
    ensures Keys(content[i := v]) == Keys(content)
    decreases |content|
  {
    if i > 1 {
      assert content[i := v][2..] == content[2..][i - 2 := v];
      KeysUpdate(content[2..], i - 2, v);
    } else {
      assert content[i := v][2..] == content[2..];
    }
  }

  /** The old key nodes are where they were, and so are the layouts of their values. */
  predicate SamePlaces(old_: seq<Node>, new_: seq<Node>) {
    |old_| <= |new_| && forall i :: 0 <= i < |old_| ==>
        if i % 2 == 0 then new_[i] == old_[i] else new_[i].layout == old_[i].layout
  }

  /** What is new depends only on which keys are old. */
  lemma {:induction false} NewKeysAgree(a: seq<Node>, b: seq<Node>, src: seq<Node>, path: Path)
    requires forall key :: key in Keys(src) ==> (FindKey(a, key) >= 0 <==> FindKey(b, key) >= 0)
    ensures NewKeys(a, src, path) == NewKeys(b, src, path)
    decreases |src|
  {
    if |src| >= 2 {
      assert src[0].value in Keys(src);
      NewKeysAgree(a, b, src[2..], path);
    }
  }

  /** One merged entry keeps everything in its place, appending at most its own key. */
  lemma MergedPairKeepsOrder(dst: seq<Node>, src: seq<Node>, path: Path)
    requires |dst| % 2 == 0 && |src| >= 2
    ensures var next := MergedPair(dst, src, path);
            && |next| % 2 == 0 && SamePlaces(dst, next)
            && Keys(next) == Keys(dst) + NewKeys(dst, src[..2], path)
  {
    var i, childPath := FindKey(dst, src[0].value), path + [src[0].value];
    assert src[..2][2..] == [];
    if i >= 0 {
      MergedKeepsLayout(dst[i + 1], src[1], childPath);
      KeysUpdate(dst, i + 1, Merged(dst[i + 1], src[1], childPath));
    } else {
      KeysAppend(dst, src[0], Pruned(childPath, src[1]));
    }
  }

  lemma NewKeysAfter(dst: seq<Node>, src: seq<Node>, path: Path)
    requires |dst| % 2 == 0 && |src| >= 2 && src[0].value !in Keys(src[2..])
    ensures NewKeys(dst, src, path) ==
              NewKeys(dst, src[..2], path) + NewKeys(MergedPair(dst, src, path), src[2..], path)
  {
    var next := MergedPair(dst, src, path);
    forall key | key in Keys(src[2..]) ensures FindKey(dst, key) >= 0 <==> FindKey(next, key) >= 0 {
      MergedPairGet(dst, src, path, key);
    }
    NewKeysSplit(dst, next, src, path);
  }

  lemma NewKeysSplit(dst: seq<Node>, next: seq<Node>, src: seq<Node>, path: Path)
    requires |src| >= 2
    requires forall key :: key in Keys(src[2..]) ==> (FindKey(dst, key) >= 0 <==> FindKey(next, key) >= 0)
    ensures NewKeys(dst, src, path) == NewKeys(dst, src[..2], path) + NewKeys(next, src[2..], path)
  {
    assert src[..2][2..] == [];
    NewKeysAgree(dst, next, src[2..], path);
  }

  lemma SamePlacesTransitive(a: seq<Node>, b: seq<Node>, c: seq<Node>)
    requires SamePlaces(a, b) && SamePlaces(b, c)
    ensures SamePlaces(a, c)
  {}

  /** A merged mapping has the old keys in their old order and then the new ones. */
  lemma {:induction false} MergedKeepsOrder(dst: seq<Node>, src: seq<Node>, path: Path)
    requires |dst| % 2 == 0 && PairsWellFormed(src)
    ensures SamePlaces(dst, MergedPairs(dst, src, path))
    ensures Keys(MergedPairs(dst, src, path)) == Keys(dst) + NewKeys(dst, src, path)
    decreases |src|
  {
    if |src| >= 2 {
      var next := MergedPair(dst, src, path);
      MergedPairKeepsOrder(dst, src, path);
      NewKeysAfter(dst, src, path);
      MergedKeepsOrder(next, src[2..], path);
      SamePlacesTransitive(dst, next, MergedPairs(next, src[2..], path));
    }
  }

  // ---------- structural equality implies equal identity ----------

  predicate KeysScalar(content: seq<Node>) {
    forall i :: 0 <= i < |content| && i % 2 == 0 ==> content[i].kind == Scalar
  }

  /** The keys of a mapping are scalars, as in every tree generated from a struct. */
  predicate ScalarKeys(n: Node) {
    n.kind == Mapping ==> KeysScalar(n.content)
  }

  lemma KeysScalarTail(content: seq<Node>)
    requires KeysScalar(content) && |content| >= 2
    ensures KeysScalar(content[2..])
  {
    forall i | 0 <= i < |content[2..]| && i % 2 == 0 ensures content[2..][i].kind == Scalar {
      assert content[2..][i] == content[i + 2];
    }
  }

  lemma {:induction false} EqualPairsSameEntry(a: seq<Node>, b: seq<Node>, key: string)
    requires |a| == |b| && PairsEqual(a, b) && KeysScalar(b)
    ensures ScalarEntry(a, key) == ScalarEntry(b, key)
    ensures IdentityByFirst(a) == IdentityByFirst(b)
    decreases |a|
  {
    if |a| >= 2 {
      KeysScalarTail(b);
      EqualPairsSameEntry(a[2..], b[2..], key);
    }
  }

  lemma {:induction false} EqualPairsSameIdentity(a: seq<Node>, b: seq<Node>, keys: seq<string>)
    requires |a| == |b| && PairsEqual(a, b) && KeysScalar(b)
    ensures IdentityByKey(a, keys) == IdentityByKey(b, keys)
    ensures IdentityOf(a, keys) == IdentityOf(b, keys)
    decreases |keys|
  {
    EqualPairsSameEntry(a, b, if keys == [] then "" else keys[0]);
    if keys != [] { EqualPairsSameIdentity(a, b, keys[1..]); }
  }

  /** The fallback by structure never picks a node of another identity, whatever keys the old node has. */
  lemma EqualMeansSameIdentity(o: Node, target: Node)
    requires StructurallyEqual(o, target) && ScalarKeys(target) && HasIdentity(target)
    ensures SameIdentity(target, o)
  {
    match o.kind
    case Mapping => EqualPairsSameIdentity(o.content, target.content, IDENTITY_KEYS);
    case _ =>
  }

  // ---------- sequences keep their elements ----------

  predicate Injective(idx: seq<int>) {
    forall i, k :: 0 <= i < k < |idx| && idx[i] >= 0 ==> idx[i] != idx[k]
  }

  /** No old element becomes two elements. */
  lemma {:induction false} AssignedInjective(original: seq<Node>, used: set<int>, src: seq<Node>)
    ensures Injective(Assigned(original, used, src))
    decreases |src|
  {
    if src != [] {
      var m := MatchElement(original, used, src[0]);
      var now := if m >= 0 then used + {m} else used;
      AssignedInjective(original, now, src[1..]);
      var rest := Assigned(original, now, src[1..]);
      assert forall k :: 0 <= k < |rest| ==> rest[k] == -1 || rest[k] !in now;
      assert Assigned(original, used, src) == [m] + rest;
    }
  }

  /** No two nodes share an identity. */
  ghost predicate DistinctIdentities(nodes: seq<Node>) {
    forall i, k :: 0 <= i < k < |nodes| && HasIdentity(nodes[i]) ==> !SameIdentity(nodes[i], nodes[k])
  }

  ghost predicate AllIdentified(nodes: seq<Node>) {
    forall i :: 0 <= i < |nodes| ==> HasIdentity(nodes[i])
  }

  ghost predicate AllScalarKeys(nodes: seq<Node>) {
    forall i :: 0 <= i < |nodes| ==> ScalarKeys(nodes[i])
  }

  /** With an identity, the match is by identity or not at all. */
  lemma MatchIsByIdentity(original: seq<Node>, used: set<int>, target: Node)
    requires HasIdentity(target) && ScalarKeys(target)
    ensures var i := MatchElement(original, used, target);
            if i >= 0 then SameIdentity(target, original[i])
            else forall j :: 0 <= j < |original| && j !in used ==> !SameIdentity(target, original[j])
  {
    var i := MatchElement(original, used, target);
    var first := First(original, used, 0, o => SameIdentity(target, o));
    if first < 0 && i >= 0 {
      EqualMeansSameIdentity(original[i], target);
    }
  }

  /** Each element of the new list is the old element of the same identity, or new if there is none. */
  lemma {:induction false} AssignedByIdentity(original: seq<Node>, used: set<int>, src: seq<Node>)
    requires AllScalarKeys(src) && AllIdentified(src) && DistinctIdentities(src)
    requires forall j, i :: j in used && 0 <= j < |original| && 0 <= i < |src| ==> !SameIdentity(src[i], original[j])
    ensures var idx := Assigned(original, used, src);
            forall i :: 0 <= i < |src| ==>
              if idx[i] >= 0 then SameIdentity(src[i], original[idx[i]])
              else forall j :: 0 <= j < |original| ==> !SameIdentity(src[i], original[j])
    decreases |src|
  {
    if src != [] {
      var m := MatchElement(original, used, src[0]);
      assert HasIdentity(src[0]) && ScalarKeys(src[0]);
      MatchIsByIdentity(original, used, src[0]);
      var now := if m >= 0 then used + {m} else used;
      var rest := src[1..];
      assert forall i :: 0 <= i < |rest| ==> rest[i] == src[i + 1];
      forall j, i | j in now && 0 <= j < |original| && 0 <= i < |rest| ensures !SameIdentity(rest[i], original[j]) {
        assert !SameIdentity(src[0], src[i + 1]);
      }
      AssignedByIdentity(original, now, rest);
    }
  }

  lemma {:induction false} MergedItemAt(original: seq<Node>, idx: seq<int>, src: seq<Node>, path: Path, i: nat)
    requires |idx| == |src| && forall i :: 0 <= i < |idx| ==> idx[i] == -1 || 0 <= idx[i] < |original|
    requires i < |src|
    ensures MergedItems(original, idx, src, path)[i] ==
      if idx[i] == -1 then src[i] else WithoutMissing(Merged(original[idx[i]], src[i], path), src[i])
    decreases |src|
  {
    if i > 0 { MergedItemAt(original, idx[1..], src[1..], path, i - 1); }
  }

  /** In a merged sequence whose elements have distinct identities, element i is the old element that
      carries the identity of the new element i, in its own layout; without one it is the new element. */
  lemma MergedSequenceKeepsElements(dst: Node, src: Node, path: Path, i: nat)
    requires dst.kind == Sequence && src.kind == Sequence && i < |src.content|
    requires DistinctIdentities(dst.content)
    requires AllScalarKeys(src.content) && AllIdentified(src.content) && DistinctIdentities(src.content)
    ensures var m := Merged(dst, src, path);
            && |m.content| == |src.content|
            && (forall j :: 0 <= j < |dst.content| && SameIdentity(src.content[i], dst.content[j]) ==>
                  && m.content[i] == WithoutMissing(Merged(dst.content[j], src.content[i], path), src.content[i])
                  && m.content[i].layout == dst.content[j].layout)
            && ((forall j :: 0 <= j < |dst.content| ==> !SameIdentity(src.content[i], dst.content[j])) ==>
                  m.content[i] == src.content[i])
  {
    var idx := Assigned(dst.content, {}, src.content);
    AssignedByIdentity(dst.content, {}, src.content);
    MergedItemAt(dst.content, idx, src.content, path, i);
    forall j | 0 <= j < |dst.content| && SameIdentity(src.content[i], dst.content[j]) ensures idx[i] == j {
      SharedIdentity(src.content[i], dst.content[j], dst.content[idx[i]]);
      SharedIdentity(src.content[i], dst.content[idx[i]], dst.content[j]);
    }
    if idx[i] >= 0 {
      MergedKeepsLayout(dst.content[idx[i]], src.content[i], path);
      MergedKeepsLayout(Merged(dst.content[idx[i]], src.content[i], path), src.content[i], path);
    }
  }

  lemma SharedIdentity(target: Node, a: Node, b: Node)
    requires HasIdentity(target) && SameIdentity(target, a) && SameIdentity(target, b)
    ensures HasIdentity(a) && SameIdentity(a, b)
  {}

  lemma {:induction false} KeptKeysAreWanted(content: seq<Node>, keep: seq<string>, key: string)
    requires key in Keys(KeptPairs(content, keep))
    ensures TrimSpace(key) in keep && key in Keys(content)
    decreases |content|
  {
    if |content| >= 2 {
      if TrimSpace(content[0].value) in keep {
        assert (content[..2] + KeptPairs(content[2..], keep))[2..] == KeptPairs(content[2..], keep);
        if key != content[0].value { KeptKeysAreWanted(content[2..], keep, key); }
      } else {
        KeptKeysAreWanted(content[2..], keep, key);
      }
    }
  }

  lemma {:induction false} TrimmedKeysAreKeys(content: seq<Node>, key: string)
    requires PairsWellFormed(content) && key in TrimmedKeys(content)
    ensures key in Keys(content)
    decreases |content|
  {
    if key != content[0].value { TrimmedKeysAreKeys(content[2..], key); }
  }

  /** A merged mapping element keeps exactly the keys that the new element has too, with their values; other
      elements are not touched. */
  lemma NoStaleKeys(dst: Node, src: Node, key: string)
    requires WellFormed(src)
    ensures dst.kind != Mapping || src.kind != Mapping ==> WithoutMissing(dst, src) == dst
    ensures dst.kind == Mapping && src.kind == Mapping ==>
              var left := WithoutMissing(dst, src).content;
              && (key in Keys(left) ==> TrimSpace(key) in Keys(src.content) && key in Keys(dst.content))
              && (key in Keys(src.content) ==> Get(left, key) == Get(dst.content, key))
  {
    if dst.kind == Mapping && src.kind == Mapping {
      var keep := TrimmedKeys(src.content);
      if key in Keys(KeptPairs(dst.content, keep)) {
        KeptKeysAreWanted(dst.content, keep, key);
        TrimmedKeysAreKeys(src.content, TrimSpace(key));
      }
      if key in Keys(src.content) {
        KeysAreTrimmed(src.content, key);
        GetKept(dst.content, keep, key);
      }
    }
  }

  // ---------- an unchanged tree stays as it is ----------

  lemma {:induction false} GetTail(content: seq<Node>, key: string)
    requires |content| >= 2 && content[0].value !in Keys(content[2..]) && key in Keys(content[2..])
    ensures Get(content, key) == Get(content[2..], key)
  {
    GetPrepend(content[0], content[1], content[2..], key);
    assert [content[0], content[1]] + content[2..] == content;
  }

  /** Merging a tree into itself changes nothing: what is not different is written back as it was. */
  lemma {:induction false} MergedWithItself(n: Node, path: Path)
    requires WellFormed(n)
    ensures Merged(n, n, path) == n && WithoutMissing(n, n) == n
    decreases n, 1
  {
    match n.kind
    case Mapping =>
      PairsWithThemselves(n.content, n.content, path);
      forall key | key in Keys(n.content) ensures TrimSpace(key) in TrimmedKeys(n.content) {
        KeysAreTrimmed(n.content, key);
      }
      AllKept(n.content, TrimmedKeys(n.content));
    case Sequence => ItemsWithThemselves(n.content, path);
    case _ =>
  }

  lemma {:induction false} PairsWithThemselves(dst: seq<Node>, src: seq<Node>, path: Path)
    requires PairsWellFormed(src) && forall key :: key in Keys(src) ==> Get(dst, key) == Get(src, key)
    ensures MergedPairs(dst, src, path) == dst
    decreases src, 0
  {
    if |src| >= 2 {
      var i := FindKey(dst, src[0].value);
      assert src[0].value in Keys(src);
      assert Get(dst, src[0].value) == Some(src[1]) && dst[i + 1] == src[1];
      MergedWithItself(src[1], path + [src[0].value]);
      assert MergedPair(dst, src, path) == dst;
      forall key | key in Keys(src[2..]) ensures Get(dst, key) == Get(src[2..], key) {
        assert key in Keys(src);
        GetTail(src, key);
      }
      PairsWithThemselves(dst, src[2..], path);
    }
  }

  lemma {:induction false} AllKept(content: seq<Node>, keep: seq<string>)
    requires forall key :: key in Keys(content) ==> TrimSpace(key) in keep
    ensures KeptPairs(content, keep) == content
    decreases |content|
  {
    if |content| >= 2 {
      assert content[0].value in Keys(content);
      forall key | key in Keys(content[2..]) ensures TrimSpace(key) in keep { assert key in Keys(content); }
      AllKept(content[2..], keep);
      assert content == content[..2] + content[2..];
    }
  }

  lemma {:induction false} ItemsWithThemselves(content: seq<Node>, path: Path)
    requires ItemsWellFormed(content)
    ensures MergedItems(content, Assigned(content, {}, content), content, path) == content
    decreases content, 0
  {
    var idx := Assigned(content, {}, content);
    EachIsItsOwn(content, 0);
    assert content[0..] == content && Below(0) == {};
    assert forall i :: 0 <= i < |content| ==> idx[i] == i;
    forall i | 0 <= i < |content| ensures MergedItems(content, idx, content, path)[i] == content[i] {
      MergedItemAt(content, idx, content, path, i);
      ItemWellFormed(content, i);
      MergedWithItself(content[i], path);
    }
  }

  function Below(n: nat): (s: set<int>)
    ensures forall i :: i in s <==> 0 <= i < n
  {
    if n == 0 then {} else Below(n - 1) + {n - 1}
  }

  lemma OwnMatch(content: seq<Node>, n: nat)
    requires n < |content|
    ensures MatchElement(content, Below(n), content[n]) == n
  {
    var target := content[n];
    EqualIffSameShape(target, target);
    assert First(content, Below(n), 0, o => SameIdentity(target, o)) == n || !HasIdentity(target);
    assert First(content, Below(n), 0, o => StructurallyEqual(o, target)) == n;
  }

  /** Matching a list with itself takes every element for itself, also among equal ones. */
  lemma {:induction false} EachIsItsOwn(content: seq<Node>, n: nat)
    requires n <= |content|
    ensures forall i :: 0 <= i < |content| - n ==> Assigned(content, Below(n), content[n..])[i] == n + i
    decreases |content| - n
  {
    if n < |content| {
      OwnMatch(content, n);
      assert Below(n) + {n} == Below(n + 1) && content[n..][1..] == content[n + 1..];
      EachIsItsOwn(content, n + 1);
      assert Assigned(content, Below(n), content[n..]) == [n] + Assigned(content, Below(n + 1), content[n + 1..]);
    }
  }

  /** A node of another kind is replaced by the whole generated collection, defaults included; but a null
      stays a null where the generated list is empty. */
  lemma OtherKindIsReplaced(dst: Node, src: Node, path: Path)
    requires WellFormed(src) && dst.kind != src.kind && (src.kind == Mapping || src.kind == Sequence)
    ensures Merged(dst, src, path)
            == if src.kind == Mapping
               then dst.(kind := Mapping, tag := src.tag, value := src.value, content := src.content)
               else if src.content == [] && dst.kind == Scalar && dst.tag == "!!null" then dst
               else dst.(kind := Sequence, tag := "!!seq", content := src.content)
  {
    if src.kind == Mapping {
      PairsWithThemselves(src.content, src.content, path);
    } else {
      var idx := Assigned([], {}, src.content);
      forall i | 0 <= i < |src.content| ensures MergedItems([], idx, src.content, path)[i] == src.content[i] {
        MergedItemAt([], idx, src.content, path, i);
      }
    }
  }

  // ---------- which old element becomes which new one ----------

  /** A node stripped of everything that the comparison by structure ignores. */
  function Shape(n: Node): Node
    decreases n, 1
  {
    match n.kind
    case Mapping => Node(Mapping, "", "", PairShapes(n.content), None, "")
    case Sequence => Node(Sequence, "", "", ItemShapes(n.content), None, "")
    case Alias => Node(Alias, "", "", [], if n.target.None? then None else Some(Shape(n.target.value)), "")
    case kind => Node(kind, "", TrimSpace(n.value), [], None, "")
  }

  function PairShapes(content: seq<Node>): (shapes: seq<Node>)
    ensures |shapes| == |content|
    decreases content, 0
  {
    if content == [] then []
    else if |content| == 1 then [Node(NoKind, "", "", [], None, "")]
    else [Shape(content[0]), Shape(content[1])] + PairShapes(content[2..])
  }

  function ItemShapes(content: seq<Node>): (shapes: seq<Node>)
    ensures |shapes| == |content|
    decreases content, 0
  {
    if content == [] then [] else [Shape(content[0])] + ItemShapes(content[1..])
  }

  /** Comparing by structure is comparing kinds, trimmed values and arrangement, and nothing else. */
  lemma {:induction false} EqualIffSameShape(a: Node, b: Node)
    ensures StructurallyEqual(a, b) <==> Shape(a) == Shape(b)
    decreases a, 1
  {
    if a.kind == b.kind {
      match a.kind
      case Mapping => if |a.content| == |b.content| { PairsEqualIffSameShapes(a.content, b.content); }
      case Sequence => if |a.content| == |b.content| { ItemsEqualIffSameShapes(a.content, b.content); }
      case Alias => if a.target.Some? && b.target.Some? { EqualIffSameShape(a.target.value, b.target.value); }
      case _ =>
    }
  }

  lemma {:induction false} PairsEqualIffSameShapes(a: seq<Node>, b: seq<Node>)
    requires |a| == |b|
    ensures PairsEqual(a, b) <==> PairShapes(a) == PairShapes(b)
    decreases a, 0
  {
    if |a| >= 2 {
      EqualIffSameShape(a[0], b[0]);
      EqualIffSameShape(a[1], b[1]);
      PairsEqualIffSameShapes(a[2..], b[2..]);
      SameConcatenation([Shape(a[0]), Shape(a[1])], [Shape(b[0]), Shape(b[1])], PairShapes(a[2..]), PairShapes(b[2..]));
    }
  }

  lemma {:induction false} ItemsEqualIffSameShapes(a: seq<Node>, b: seq<Node>)
    requires |a| == |b|
    ensures ItemsEqual(a, b) <==> ItemShapes(a) == ItemShapes(b)
    decreases a, 0
  {
    if a != [] {
      EqualIffSameShape(a[0], b[0]);
      ItemsEqualIffSameShapes(a[1..], b[1..]);
      SameConcatenation([Shape(a[0])], [Shape(b[0])], ItemShapes(a[1..]), ItemShapes(b[1..]));
    }
  }

  lemma SameConcatenation(a1: seq<Node>, b1: seq<Node>, a2: seq<Node>, b2: seq<Node>)
    requires |a1| == |b1|
    ensures a1 + a2 == b1 + b2 <==> a1 == b1 && a2 == b2
  {
    if a1 + a2 == b1 + b2 {
      assert a1 == (a1 + a2)[..|a1|] && b1 == (b1 + b2)[..|a1|];
      assert a2 == (a1 + a2)[|a1|..] && b2 == (b1 + b2)[|a1|..];
    }
  }

  /** Old element j has not been given to one of the first `i` new ones. */
  ghost predicate Free(original: seq<Node>, used: set<int>, idx: seq<int>, i: nat, j: int) {
    0 <= j < |original| && j !in used && j !in idx[..Min(i, |idx|)]
  }

  /** Two elements go by the same name: mappings by their identity, scalars by their value. */
  predicate SameName(a: Node, b: Node) {
    || (a.kind == Mapping && b.kind == Mapping && Identity(a) != "" && Identity(a) == Identity(b))
    || (a.kind == Scalar && b.kind == Scalar && TrimSpace(a.value) != "" && TrimSpace(a.value) == TrimSpace(b.value))
  }

  /** Each new element gets the first free old element of its name; if it has none, or there is none, the
      first free one of its shape; and otherwise no old element. */
  lemma {:induction false} AssignedIsFirst(original: seq<Node>, used: set<int>, src: seq<Node>, i: nat, j: int)
    requires i < |src|
    ensures FirstChoice(original, used, src, Assigned(original, used, src), i, j)
    decreases |src|
  {
    var m := MatchElement(original, used, src[0]);
    var now := if m >= 0 then used + {m} else used;
    var rest := Assigned(original, now, src[1..]);
    assert Assigned(original, used, src) == [m] + rest;
    if i == 0 {
      FirstMatch(original, used, src[0], j);
    } else {
      AssignedIsFirst(original, now, src[1..], i - 1, j);
      FreeShift(original, used, m, rest, i, j);
      FreeShift(original, used, m, rest, i, rest[i - 1]);
      ChoiceShift(original, used, now, m, src, rest, i, j);
    }
  }

  /** The choice for new element i, compared with old element j. */
  ghost predicate FirstChoice(original: seq<Node>, used: set<int>, src: seq<Node>, idx: seq<int>, i: nat, j: int)
    requires |idx| == |src| && i < |src| && forall k :: 0 <= k < |idx| ==> idx[k] < |original|
  {
    var byName := idx[i] >= 0 && SameName(src[i], original[idx[i]]);
    && (idx[i] >= 0 ==> Free(original, used, idx, i, idx[i]))
    && (idx[i] >= 0 ==> byName || Shape(original[idx[i]]) == Shape(src[i]))
    && (Free(original, used, idx, i, j) && SameName(src[i], original[j]) ==> byName && idx[i] <= j)
    && (Free(original, used, idx, i, j) && Shape(original[j]) == Shape(src[i]) ==>
          idx[i] >= 0 && (byName || idx[i] <= j))
  }

  lemma FreeShift(original: seq<Node>, used: set<int>, m: int, rest: seq<int>, i: nat, j: int)
    requires 0 < i <= |rest| + 1
    ensures Free(original, used, [m] + rest, i, j)
            <==> Free(original, if m >= 0 then used + {m} else used, rest, i - 1, j)
  {
    assert ([m] + rest)[..i] == [m] + rest[..i - 1];
  }

  lemma ChoiceShift(original: seq<Node>, used: set<int>, now: set<int>, m: int, src: seq<Node>, rest: seq<int>, i: nat,
                    j: int)
    requires 0 < i < |src| == |rest| + 1 && m < |original| && forall k :: 0 <= k < |rest| ==> rest[k] < |original|
    requires FirstChoice(original, now, src[1..], rest, i - 1, j)
    requires Free(original, used, [m] + rest, i, j) <==> Free(original, now, rest, i - 1, j)
    requires Free(original, used, [m] + rest, i, rest[i - 1]) <==> Free(original, now, rest, i - 1, rest[i - 1])
    ensures FirstChoice(original, used, src, [m] + rest, i, j)
  {}

  lemma FirstMatch(original: seq<Node>, used: set<int>, target: Node, j: int)
    ensures var m := MatchElement(original, used, target);
            var byName := m >= 0 && SameName(target, original[m]);
            && (m >= 0 ==> byName || Shape(original[m]) == Shape(target))
            && (0 <= j < |original| && j !in used && SameName(target, original[j]) ==> byName && m <= j)
            && (0 <= j < |original| && j !in used && Shape(original[j]) == Shape(target) ==>
                  m >= 0 && (byName || m <= j))
  {
    var m := MatchElement(original, used, target);
    if m >= 0 { EqualIffSameShape(original[m], target); }
    if 0 <= j < |original| { EqualIffSameShape(original[j], target); }
  }

  // ---------- identities ----------

  /** The entry at `p` is a scalar under this key, up to spelling and white space. */
  predicate EntryAt(content: seq<Node>, p: nat, key: string) {
    p % 2 == 0 && p + 1 < |content| && content[p + 1].kind == Scalar && ToLower(TrimSpace(content[p].value)) == key
  }

  lemma {:induction false} ScalarEntryAt(content: seq<Node>, p: nat, key: string)
    requires ToLower(key) == key && EntryAt(content, p, key) && forall q: nat :: q < p ==> !EntryAt(content, q, key)
    ensures ScalarEntry(content, key) == TrimSpace(content[p + 1].value)
    decreases |content|
  {
    assert !EntryAt(content, 0, key) || p == 0;
    if p > 0 {
      forall q: nat | q < p - 2 ensures !EntryAt(content[2..], q, key) { assert !EntryAt(content, q + 2, key); }
      ScalarEntryAt(content[2..], p - 2, key);
    }
  }

  lemma {:induction false} NoScalarEntry(content: seq<Node>, key: string)
    requires ToLower(key) == key && forall q: nat :: !EntryAt(content, q, key)
    ensures ScalarEntry(content, key) == ""
    decreases |content|
  {
    if |content| >= 2 {
      assert !EntryAt(content, 0, key);
      forall q: nat ensures !EntryAt(content[2..], q, key) { assert !EntryAt(content, q + 2, key); }
      NoScalarEntry(content[2..], key);
    }
  }

  lemma {:induction false} IdentityAt(content: seq<Node>, keys: seq<string>, k: nat, p: nat)
    requires k < |keys| && forall i :: 0 <= i < |keys| ==> ToLower(keys[i]) == keys[i]
    requires forall i, q: nat :: 0 <= i < k ==> !EntryAt(content, q, keys[i])
    requires EntryAt(content, p, keys[k]) && forall q: nat :: q < p ==> !EntryAt(content, q, keys[k])
    requires TrimSpace(content[p + 1].value) != ""
    ensures IdentityByKey(content, keys) == keys[k] + "=" + TrimSpace(content[p + 1].value)
    decreases k
  {
    if k == 0 {
      ScalarEntryAt(content, p, keys[0]);
    } else {
      NoScalarEntry(content, keys[0]);
      IdentityAt(content, keys[1..], k - 1, p);
    }
  }

  lemma {:induction false} NoIdentityKey(content: seq<Node>, keys: seq<string>)
    requires forall i :: 0 <= i < |keys| ==> ToLower(keys[i]) == keys[i]
    requires forall i, q: nat :: 0 <= i < |keys| ==> !EntryAt(content, q, keys[i])
    ensures IdentityByKey(content, keys) == ""
    decreases |keys|
  {
    if keys != [] {
      NoScalarEntry(content, keys[0]);
      NoIdentityKey(content, keys[1..]);
    }
  }

  /** The entry at `p` is a scalar that is not blank. */
  predicate SpeaksAt(content: seq<Node>, p: nat) {
    p % 2 == 0 && p + 1 < |content| && content[p + 1].kind == Scalar && TrimSpace(content[p + 1].value) != ""
  }

  lemma {:induction false} FirstThatSpeaks(content: seq<Node>, p: nat)
    requires SpeaksAt(content, p) && forall q: nat :: q < p ==> !SpeaksAt(content, q)
    ensures IdentityByFirst(content) == ToLower(TrimSpace(content[p].value)) + "=" + TrimSpace(content[p + 1].value)
    decreases |content|
  {
    assert !SpeaksAt(content, 0) || p == 0;
    if p > 0 {
      forall q: nat | q < p - 2 ensures !SpeaksAt(content[2..], q) { assert !SpeaksAt(content, q + 2); }
      FirstThatSpeaks(content[2..], p - 2);
    }
  }

  /** A mapping without any of these keys is known by its first scalar that is not blank. */
  lemma IdentityIsFirstScalar(n: Node, p: nat)
    requires n.kind == Mapping && SpeaksAt(n.content, p) && forall q: nat :: q < p ==> !SpeaksAt(n.content, q)
    requires var keys := ["id", "name", "alias", "api-key", "api_key", "apikey", "key", "provider", "model"];
             forall i, q: nat :: 0 <= i < 9 ==> !EntryAt(n.content, q, keys[i])
    ensures Identity(n) == ToLower(TrimSpace(n.content[p].value)) + "=" + TrimSpace(n.content[p + 1].value)
  {
    assert forall i :: 0 <= i < 9 ==> ToLower(IDENTITY_KEYS[i]) == IDENTITY_KEYS[i];
    NoIdentityKey(n.content, IDENTITY_KEYS);
    FirstThatSpeaks(n.content, p);
  }

  /** A mapping is known by the first of these keys that it has. */
  lemma IdentityIsFirstKey(n: Node, k: nat, p: nat)
    requires n.kind == Mapping && k < 9
    requires var keys := ["id", "name", "alias", "api-key", "api_key", "apikey", "key", "provider", "model"];
             && (forall i, q: nat :: 0 <= i < k ==> !EntryAt(n.content, q, keys[i]))
             && EntryAt(n.content, p, keys[k]) && (forall q: nat :: q < p ==> !EntryAt(n.content, q, keys[k]))
    requires TrimSpace(n.content[p + 1].value) != ""
    ensures Identity(n) == ["id", "name", "alias", "api-key", "api_key", "apikey", "key", "provider", "model"][k]
                           + "=" + TrimSpace(n.content[p + 1].value)
  {
    assert forall i :: 0 <= i < 9 ==> ToLower(IDENTITY_KEYS[i]) == IDENTITY_KEYS[i];
    IdentityAt(n.content, IDENTITY_KEYS, k, p);
  }
}
