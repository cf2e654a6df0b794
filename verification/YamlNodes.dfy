/** The merge as it runs: nodes on the heap, rewritten in place. */
module YamlNodes {
  import opened Common
  import opened YamlTree
  import opened YamlLayout

  class YamlNode {
    var kind: Kind
    var tag: string
    var value: string
    var content: seq<YamlNode>
    const target: Option<Node>
    const layout: string
    /** The tree this node stands for, and the nodes that make it up. */
    ghost var model: Node
    ghost var Repr: set<object>

    /** A tree: children do not share nodes with each other or with their parent. */
    ghost predicate Valid()
      reads this, Repr
      decreases Repr
    {
      && this in Repr
      && model == Node(kind, tag, value, model.content, target, layout)
      && |model.content| == |content|
      && (forall i :: 0 <= i < |content| ==>
            && content[i] in Repr && content[i].Repr < Repr && this !in content[i].Repr
            && content[i].Valid() && content[i].model == model.content[i])
      && (forall i, j :: 0 <= i < j < |content| ==> content[i].Repr !! content[j].Repr)
    }

    constructor (kind: Kind, tag: string, value: string, target: Option<Node>, layout: string)
      ensures Valid() && fresh(Repr) && model == Node(kind, tag, value, [], target, layout)
    {
      this.kind, this.tag, this.value, this.target, this.layout := kind, tag, value, target, layout;
      content, model := [], Node(kind, tag, value, [], target, layout);
      Repr := {this};
    }

    /** The value of a tree, read off its nodes. */
    function Snapshot(): (v: Node)
      requires Valid()
      reads this, Repr
      ensures v == model
      decreases Repr, 0
    {
      Node(kind, tag, value, Snapshots(content, Repr - {this}), target, layout)
    }

    static function Snapshots(nodes: seq<YamlNode>, ghost bound: set<object>): (vs: seq<Node>)
      requires forall i :: 0 <= i < |nodes| ==> nodes[i] in bound && nodes[i].Repr <= bound && nodes[i].Valid()
      reads bound
      ensures |vs| == |nodes| && forall i :: 0 <= i < |nodes| ==> vs[i] == nodes[i].model
      decreases bound, |nodes|
    {
      if nodes == [] then [] else [nodes[0].Snapshot()] + Snapshots(nodes[1..], bound)
    }

    /** Become a node without children. */
    method Reset(kind: Kind, tag: string, value: string)
      requires Valid()
      modifies this
      ensures Valid() && Repr == {this} && content == []
      ensures model == old(model).(kind := kind, tag := tag, value := value, content := [])
    {
      this.kind, this.tag, this.value, content := kind, tag, value, [];
      Repr, model := {this}, model.(kind := kind, tag := tag, value := value, content := []);
    }

    /** Take over kind, tag and value, and leave the children where they are. */
    method TakeOver(kind: Kind, tag: string, value: string)
      requires Valid()
      modifies this`kind, this`tag, this`value, this`model
      ensures Valid() && model == old(model).(kind := kind, tag := tag, value := value)
    {
      this.kind, this.tag, this.value := kind, tag, value;
      model := model.(kind := kind, tag := tag, value := value);
    }

    /** Remove the entry at `i`. */
    method RemovePair(i: nat)
      requires Valid() && i + 1 < |content|
      modifies this`content, this`model
      ensures Valid() && content == old(content[..i] + content[i + 2..])
      ensures model == old(model).(content := old(model.content[..i] + model.content[i + 2..]))
    {
      content := content[..i] + content[i + 2..];
      model := model.(content := model.content[..i] + model.content[i + 2..]);
    }

    /** Keep only `chosen`, the children at the positions `at`. */
    method Select(chosen: seq<YamlNode>, ghost at: seq<nat>)
      requires Valid() && Selects(content, chosen, at, |content|)
      modifies this`content, this`model
      ensures Valid() && content == chosen && model == old(model).(content := Values(old(model.content), at))
    {
      model := model.(content := Values(model.content, at));
      content := chosen;
    }

    /** Become the parent of `elements`: own children at different positions `at`, and new trees at -1. */
    method Rebuild(elements: seq<YamlNode>, ghost at: seq<int>)
      requires Valid() && Assembled(elements, at) && Injective(at)
      modifies this
      ensures Valid() && content == elements && Repr == old(Repr + Nodes(elements))
      ensures model == old(model.(content := Models(elements)))
    {
      AssembledDisjoint(elements, at);
      Adopt(elements, Repr + Nodes(elements), Models(elements));
    }

    /** Become the parent of disjoint trees. */
    method Adopt(elements: seq<YamlNode>, ghost nodes: set<object>, ghost values: seq<Node>)
      requires model == Node(kind, tag, value, model.content, target, layout) && this in nodes && |values| == |elements|
      requires forall k :: 0 <= k < |elements| ==>
                 elements[k].Valid() && this !in elements[k].Repr && elements[k] in elements[k].Repr
                 && elements[k].Repr <= nodes && elements[k].model == values[k]
      requires forall j, k :: 0 <= j < k < |elements| ==> elements[j].Repr !! elements[k].Repr
      modifies this
      ensures Valid() && content == elements && Repr == nodes
      ensures model == old(model).(content := values)
    {
      content := elements;
      model := model.(content := values);
      Repr := nodes;
    }

    lemma AssembledDisjoint(elements: seq<YamlNode>, at: seq<int>)
      requires Valid() && Assembled(elements, at) && Injective(at)
      ensures forall k :: 0 <= k < |elements| ==>
                elements[k].Valid() && this !in elements[k].Repr && elements[k] in elements[k].Repr
      ensures forall j, k :: 0 <= j < k < |elements| ==> elements[j].Repr !! elements[k].Repr
    {
      forall j, k | 0 <= j < k < |elements| ensures elements[j].Repr !! elements[k].Repr {
        if at[j] >= 0 && at[k] >= 0 {
          assert at[j] != at[k];
        } else if at[j] >= 0 {
          assert content[at[j]].Repr <= Repr && elements[k].Repr !! Repr;
        } else if at[k] >= 0 {
          assert content[at[k]].Repr <= Repr && elements[j].Repr !! Repr;
        }
      }
    }

    ghost predicate Assembled(elements: seq<YamlNode>, at: seq<int>)
      requires Valid()
      reads this, Repr, elements, Nodes(elements)
    {
      && |elements| == |at|
      && (forall k :: 0 <= k < |at| && at[k] >= 0 ==> at[k] < |content| && elements[k] == content[at[k]])
      && (forall k :: 0 <= k < |at| && at[k] < 0 ==> elements[k].Valid() && elements[k].Repr !! Repr)
      && (forall j, k :: 0 <= j < k < |at| && at[j] < 0 && at[k] < 0 ==> elements[j].Repr !! elements[k].Repr)
    }

    /** Account for a child that was rewritten in place. */
    ghost method Settle(i: nat)
      requires i < |content| && |model.content| == |content| && this in Repr
      requires model == Node(kind, tag, value, model.content, target, layout)
      requires forall j :: 0 <= j < |content| ==> content[j] in Repr && this !in content[j].Repr && content[j].Valid()
      requires forall j :: 0 <= j < |content| && j != i ==>
                 content[j].Repr < Repr && content[j].model == model.content[j]
      requires forall j, k :: 0 <= j < k < |content| ==> content[j].Repr !! content[k].Repr
      modifies this`Repr, this`model
      ensures Valid() && Repr == old(Repr) + content[i].Repr
      ensures model == old(model).(content := old(model.content)[i := content[i].model])
    {
      Repr := Repr + content[i].Repr;
      model := model.(content := model.content[i := content[i].model]);
    }

    /** Append two trees of its own. */
    method AppendPair(key: YamlNode, value: YamlNode)
      requires Valid() && key.Valid() && value.Valid()
      requires key.Repr !! Repr && value.Repr !! Repr && key.Repr !! value.Repr
      modifies this
      ensures Valid() && Repr == old(Repr) + key.Repr + value.Repr
      ensures model == old(model).(content := old(model.content) + [key.model, value.model])
    {
      ghost var c := model.content;
      Append(key);
      Append(value);
      assert c + [key.model] + [value.model] == c + [key.model, value.model];
    }

    /** Append a tree of its own. */
    method Append(child: YamlNode)
      requires Valid() && child.Valid() && child.Repr !! Repr
      modifies this
      ensures Valid() && Repr == old(Repr) + child.Repr && content == old(content) + [child]
      ensures model == old(model).(content := old(model.content) + [child.model])
    {
      content := content + [child];
      Repr := Repr + child.Repr;
      model := model.(content := model.content + [child.model]);
    }
  }

  /** A copy that shares no node with the original. */
  method DeepCopy(n: YamlNode) returns (c: YamlNode)
    requires n.Valid()
    ensures c.Valid() && fresh(c.Repr) && c.model == n.model
    decreases n.Repr, 1
  {
    c := new YamlNode(n.kind, n.tag, n.value, n.target, n.layout);
    AppendCopies(c, n);
  }

  /** Give a node without content copies of the children of `n`. */
  method AppendCopies(c: YamlNode, n: YamlNode)
    requires c.Valid() && n.Valid() && c !in n.Repr && c.content == []
    modifies c
    ensures c.Valid() && fresh(c.Repr - old(c.Repr))
    ensures c.model == old(c.model).(content := n.model.content)
    decreases n.Repr, 0
  {
    for i := 0 to |n.content|
      invariant c.Valid() && fresh(c.Repr - old(c.Repr)) && n.Valid()
      invariant c.model == old(c.model).(content := n.model.content[..i])
    {
      var child := DeepCopy(n.content[i]);
      c.Append(child);
    }
  }

  /** Take over what `src` says, with copies of its children, keeping the layout. */
  method CopyNodeShallow(dst: YamlNode, src: YamlNode)
    requires dst.Valid() && src.Valid() && dst.Repr !! src.Repr
    modifies dst
    ensures dst.Valid() && fresh(dst.Repr - old(dst.Repr))
    ensures dst.model == CopiedShallow(old(dst.model), src.model)
  {
    dst.Reset(src.kind, src.tag, src.value);
    AppendCopies(dst, src);
  }

  method FindMapKeyIndex(n: YamlNode, key: string) returns (i: int)
    requires n.Valid()
    ensures i == FindKey(n.model.content, key)
  {
    i := 0;
    ghost var all := n.model.content;
    while i + 1 < |n.content|
      invariant 0 <= i && i % 2 == 0
      invariant i <= |all| + 1
      invariant FindKey(all, key) == if i <= |all| && FindKey(all[i..], key) >= 0 then i + FindKey(all[i..], key)
                  else -1
    {
      assert all[i..][2..] == all[i + 2..];
      if n.content[i].value == key { return; }
      i := i + 2;
    }
    i := -1;
  }

  /** Merge `src` into `dst`, reusing the nodes of `dst`. */
  method MergeNodePreserve(dst: YamlNode, src: YamlNode, path: Path)
    requires dst.Valid() && src.Valid() && dst.Repr !! src.Repr
    modifies dst.Repr
    ensures dst.Valid() && fresh(dst.Repr - old(dst.Repr))
    ensures dst.model == Merged(old(dst.model), src.model, path)
    decreases src.Repr, 3
  {
    match src.kind
    case Mapping =>
      if dst.kind != Mapping { CopyNodeShallow(dst, src); }
      MergeMappingPreserve(dst, src, path);
    case Sequence =>
      if dst.kind == Scalar && dst.tag == "!!null" && |src.content| == 0 { return; }
      MergeSequencePreserve(dst, src, path);
    case Scalar => dst.TakeOver(Scalar, src.tag, src.value);
    case Alias => dst.TakeOver(Alias, src.tag, src.value);
    case NoKind =>
    case Document =>
      CopyNodeShallow(dst, src);
  }

  method MergeMappingPreserve(dst: YamlNode, src: YamlNode, path: Path)
    requires dst.Valid() && src.Valid() && dst.Repr !! src.Repr
    modifies dst.Repr
    ensures dst.Valid() && fresh(dst.Repr - old(dst.Repr))
    ensures dst.model == old(dst.model).(content := MergedPairs(old(dst.model.content), src.model.content, path))
    decreases src.Repr, 1
  {
    ghost var old_ := dst.model;
    ghost var pairs := src.model.content;
    var i := 0;
    while i + 1 < |src.content|
      invariant 0 <= i <= |pairs| + 1
      invariant dst.Valid() && fresh(dst.Repr - old(dst.Repr)) && src.Valid() && src.model.content == pairs
                  && dst.Repr !! src.Repr
      invariant dst.model == old_.(content := dst.model.content)
      invariant i <= |pairs| ==>
                  MergedPairs(dst.model.content, pairs[i..], path) == MergedPairs(old_.content, pairs, path)
      invariant i > |pairs| ==> dst.model.content == MergedPairs(old_.content, pairs, path)
    {
      assert pairs[i..][2..] == pairs[i + 2..];
      PairAt(dst.model.content, pairs, i, path);
      MergeEntry(dst, src.content[i], src.content[i + 1], path);
      i := i + 2;
    }
  }

  /** What one entry of the generated mapping does, in terms of its two nodes. */
  ghost function PairMerged(c: seq<Node>, k: Node, v: Node, path: Path): seq<Node> {
    var idx, childPath := FindKey(c, k.value), path + [k.value];
    if idx >= 0 then c[idx + 1 := Merged(c[idx + 1], v, childPath)]
    else if IsKnownDefault(childPath, Pruned(childPath, v)) then c
    else c + [k, Pruned(childPath, v)]
  }

  lemma PairAt(c: seq<Node>, src: seq<Node>, i: nat, path: Path)
    requires i + 1 < |src|
    ensures MergedPair(c, src[i..], path) == PairMerged(c, src[i], src[i + 1], path)
  {}

  /** Merge one entry into the mapping `dst`. */
  method MergeEntry(dst: YamlNode, sk: YamlNode, sv: YamlNode, path: Path)
    requires dst.Valid() && sk.Valid() && sv.Valid() && dst.Repr !! sk.Repr && dst.Repr !! sv.Repr
    modifies dst.Repr
    ensures dst.Valid() && fresh(dst.Repr - old(dst.Repr))
    ensures dst.model == old(dst.model).(content := PairMerged(old(dst.model.content), sk.model, sv.model, path))
    decreases sv.Repr, 5
  {
    var childPath := path + [sk.value];
    var idx := FindMapKeyIndex(dst, sk.value);
    if idx >= 0 {
      MergeChild(dst, idx + 1, sv, childPath);
    } else {
      AppendNewEntry(dst, sk, sv, childPath);
    }
  }

  /** Merge `sv` into the child of `dst` at `i`. */
  method MergeChild(dst: YamlNode, i: nat, sv: YamlNode, path: Path)
    requires dst.Valid() && sv.Valid() && dst.Repr !! sv.Repr && i < |dst.content|
    modifies dst.Repr
    ensures dst.Valid() && fresh(dst.Repr - old(dst.Repr)) && dst.content == old(dst.content)
    ensures var c := old(dst.model.content);
            dst.model == old(dst.model).(content := c[i := Merged(c[i], sv.model, path)])
    decreases sv.Repr, 4
  {
    MergeNodePreserve(dst.content[i], sv, path);
    dst.Settle(i);
  }

  /** A copy of `sv` without its default-valued descendants. */
  method NewCandidate(sv: YamlNode, path: Path) returns (candidate: YamlNode)
    requires sv.Valid()
    ensures candidate.Valid() && fresh(candidate.Repr) && candidate.model == Pruned(path, sv.model)
  {
    candidate := DeepCopy(sv);
    PruneKnownDefaultsInNewNode(path, candidate);
  }

  /** Append a copy of an entry that `dst` does not have, unless it is only defaults. */
  method AppendNewEntry(dst: YamlNode, sk: YamlNode, sv: YamlNode, childPath: Path)
    requires dst.Valid() && sk.Valid() && sv.Valid() && dst !in sk.Repr && dst !in sv.Repr
    modifies dst
    ensures dst.Valid() && fresh(dst.Repr - old(dst.Repr))
    ensures var candidate := Pruned(childPath, sv.model);
            dst.model == if IsKnownDefault(childPath, candidate) then old(dst.model)
                         else old(dst.model).(content := old(dst.model.content) + [sk.model, candidate])
  {
    var candidate := NewCandidate(sv, childPath);
    if IsKnownDefault(childPath, candidate.Snapshot()) { return; }
    var key := DeepCopy(sk);
    dst.AppendPair(key, candidate);
  }

  // ---------- pruning a new node ----------

  lemma {:induction false} PrunedItemsAt(path: Path, content: seq<Node>, i: nat)
    requires i < |content|
    ensures PrunedItems(path, content)[i] == Pruned(path, content[i])
    decreases |content|
  {
    if i > 0 { PrunedItemsAt(path, content[1..], i - 1); }
  }

  /** Remove default-valued descendants, in place. */
  method PruneKnownDefaultsInNewNode(path: Path, n: YamlNode)
    requires n.Valid()
    modifies n.Repr
    ensures n.Valid() && n.Repr == old(n.Repr)
    ensures n.model == Pruned(path, old(n.model))
    decreases n.Repr, 2
  {
    if n.kind == Mapping {
      PrunePairs(path, n);
    } else if n.kind == Sequence {
      ghost var before := n.model;
      for i := 0 to |n.content|
        invariant n.Valid() && n.Repr == old(n.Repr) && n.content == old(n.content)
        invariant n.model == before.(content := n.model.content)
        invariant ItemsPrunedTo(path, before.content, n.model.content, i)
      {
        PruneItem(path, n, i);
      }
      AllItemsPruned(path, before.content, n.model.content);
    }
  }

  ghost predicate ItemsPrunedTo(path: Path, before: seq<Node>, now: seq<Node>, n: nat) {
    && |now| == |before| >= n
    && (forall j :: 0 <= j < n ==> now[j] == Pruned(path, before[j]))
    && (forall j :: n <= j < |now| ==> now[j] == before[j])
  }

  lemma AllItemsPruned(path: Path, before: seq<Node>, now: seq<Node>)
    requires ItemsPrunedTo(path, before, now, |before|)
    ensures now == PrunedItems(path, before)
  {
    forall i | 0 <= i < |before| { PrunedItemsAt(path, before, i); }
  }

  method PruneItem(path: Path, n: YamlNode, i: nat)
    requires n.Valid() && i < |n.content|
    modifies n.Repr
    ensures n.Valid() && n.Repr == old(n.Repr) && n.content == old(n.content)
    ensures var c := old(n.model.content); n.model == old(n.model).(content := c[i := Pruned(path, c[i])])
    decreases n.Repr, 0
  {
    PruneKnownDefaultsInNewNode(path, n.content[i]);
    n.Settle(i);
  }

  method PrunePairs(path: Path, n: YamlNode)
    requires n.Valid()
    modifies n.Repr
    ensures n.Valid() && n.Repr == old(n.Repr)
    ensures n.model == old(n.model).(content := PrunedPairs(path, old(n.model.content)))
    decreases n.Repr, 1
  {
    ghost var before := n.model;
    var filtered: seq<YamlNode> := [];
    ghost var at: seq<nat> := [];
    var i := 0;
    while i + 1 < |n.content|
      invariant 0 <= i <= |n.content| + 1
      invariant n.Valid() && n.Repr == old(n.Repr) && n.content == old(n.content)
      invariant n.model == before.(content := n.model.content)
      invariant Filtered(path, before.content, n.content, n.model.content, filtered, at, i)
    {
      ghost var was := n.model.content;
      var keep := PruneValue(path, n, i);
      FilteredOneMore(path, before.content, was, n.content, n.model.content, filtered, at, i);
      if keep {
        filtered := filtered + [n.content[i], n.content[i + 1]];
        at := at + [i, i + 1];
      }
      i := i + 2;
    }
    AllFiltered(path, before.content, n.content, n.model.content, filtered, at, i);
    n.Select(filtered, at);
  }

  /** The filtering loop before the entry at `i`. */
  ghost predicate Filtered(path: Path, before: seq<Node>, nodes: seq<YamlNode>, now: seq<Node>,
                           filtered: seq<YamlNode>, at: seq<nat>, i: nat)
  {
    |nodes| == |now| && Selects(nodes, filtered, at, i) && PrunedUpTo(path, before, now, at, i)
  }

  lemma FilteredOneMore(path: Path, before: seq<Node>, was: seq<Node>, nodes: seq<YamlNode>, now: seq<Node>,
                        filtered: seq<YamlNode>, at: seq<nat>, i: nat)
    requires Filtered(path, before, nodes, was, filtered, at, i) && i + 1 < |now| == |was|
    requires forall j :: 0 <= j < |now| && j != i + 1 ==> now[j] == was[j]
    requires WorthKeeping(path, was, i) ==> now[i + 1] == Pruned(path + [was[i].value], was[i + 1])
    ensures if WorthKeeping(path, was, i)
            then Filtered(path, before, nodes, now, filtered + [nodes[i], nodes[i + 1]], at + [i, i + 1], i + 2)
            else Filtered(path, before, nodes, now, filtered, at, i + 2)
  {
    PrunedOneMore(path, before, was, now, at, i);
    SelectsMore(nodes, filtered, at, i);
  }

  lemma AllFiltered(path: Path, before: seq<Node>, nodes: seq<YamlNode>, now: seq<Node>,
                    filtered: seq<YamlNode>, at: seq<nat>, i: nat)
    requires Filtered(path, before, nodes, now, filtered, at, i) && i + 1 >= |nodes|
    ensures Selects(nodes, filtered, at, |nodes|) && Values(now, at) == PrunedPairs(path, before)
  {
    assert PrunedRest(path, before, i) == [];
  }

  /** The positions `at` hold the pruned entries before `i`; what follows is as it was. */
  ghost predicate PrunedUpTo(path: Path, before: seq<Node>, now: seq<Node>, at: seq<nat>, i: nat) {
    && |now| == |before|
    && (forall j :: i <= j < |now| ==> now[j] == before[j])
    && (forall a :: 0 <= a < |at| ==> at[a] < i && at[a] < |now|)
    && Values(now, at) + PrunedRest(path, before, i) == PrunedPairs(path, before)
  }

  lemma PrunedOneMore(path: Path, before: seq<Node>, was: seq<Node>, now: seq<Node>, at: seq<nat>, i: nat)
    requires PrunedUpTo(path, before, was, at, i) && i + 1 < |now| == |was|
    requires forall j :: 0 <= j < |now| && j != i + 1 ==> now[j] == was[j]
    requires WorthKeeping(path, was, i) ==> now[i + 1] == Pruned(path + [was[i].value], was[i + 1])
    ensures PrunedUpTo(path, before, now, if WorthKeeping(path, was, i) then at + [i, i + 1] else at, i + 2)
  {
    ValuesAgree(was, now, at);
    PrunedStep(path, before, i, Values(was, at), PrunedPairs(path, before));
    ValuesMore(now, at, i);
  }

  /** `chosen` are the children at the positions `at`, in order and before `upTo`. */
  ghost predicate Selects(content: seq<YamlNode>, chosen: seq<YamlNode>, at: seq<nat>, upTo: nat) {
    && |chosen| == |at|
    && (forall a :: 0 <= a < |at| ==> at[a] < upTo && at[a] < |content| && chosen[a] == content[at[a]])
    && (forall a, b :: 0 <= a < b < |at| ==> at[a] < at[b])
  }

  lemma SelectsMore(content: seq<YamlNode>, chosen: seq<YamlNode>, at: seq<nat>, i: nat)
    requires Selects(content, chosen, at, i) && i + 1 < |content|
    ensures Selects(content, chosen + [content[i], content[i + 1]], at + [i, i + 1], i + 2)
  {}

  lemma ValuesMore(content: seq<Node>, at: seq<nat>, i: nat)
    requires i + 1 < |content| && forall a :: 0 <= a < |at| ==> at[a] < |content|
    ensures Values(content, at + [i, i + 1]) == Values(content, at) + [content[i], content[i + 1]]
  {}

  /** Whether the entry at `i` is worth keeping; if so, its value has been pruned. */
  method PruneValue(path: Path, n: YamlNode, i: nat) returns (keep: bool)
    requires n.Valid() && i + 1 < |n.content|
    modifies n.Repr
    ensures n.Valid() && n.Repr == old(n.Repr) && n.content == old(n.content)
    ensures n.model == old(n.model).(content := n.model.content)
    ensures forall j :: 0 <= j < |n.content| && j != i + 1 ==> n.model.content[j] == old(n.model.content)[j]
    ensures keep == WorthKeeping(path, old(n.model.content), i)
    ensures keep ==>
              n.model.content[i + 1] == Pruned(path + [old(n.model.content)[i].value], old(n.model.content)[i + 1])
    decreases n.Repr, 0
  {
    var valueNode := n.content[i + 1];
    var childPath := path + [n.content[i].value];
    if IsKnownDefault(childPath, valueNode.Snapshot()) { return false; }
    PruneKnownDefaultsInNewNode(childPath, valueNode);
    n.Settle(i + 1);
    return !((valueNode.kind == Mapping || valueNode.kind == Sequence) && |valueNode.content| == 0);
  }

  ghost predicate WorthKeeping(path: Path, content: seq<Node>, i: nat)
    requires i + 1 < |content|
  {
    var childPath := path + [content[i].value];
    !IsKnownDefault(childPath, content[i + 1]) && !IsEmptyCollection(Pruned(childPath, content[i + 1]))
  }

  lemma PrunedStep(path: Path, content: seq<Node>, i: nat, done: seq<Node>, all: seq<Node>)
    requires i + 1 < |content| && done + PrunedRest(path, content, i) == all
    ensures if WorthKeeping(path, content, i)
            then done + [content[i], Pruned(path + [content[i].value], content[i + 1])]
                + PrunedRest(path, content, i + 2) == all
            else done + PrunedRest(path, content, i + 2) == all
  {
    assert content[i..][2..] == content[i + 2..];
  }

  /** The values at some positions. */
  ghost function Values(content: seq<Node>, at: seq<nat>): seq<Node>
    requires forall a :: 0 <= a < |at| ==> at[a] < |content|
  {
    seq(|at|, a requires 0 <= a < |at| => content[at[a]])
  }

  ghost function PrunedRest(path: Path, content: seq<Node>, i: nat): seq<Node> {
    if i <= |content| then PrunedPairs(path, content[i..]) else []
  }

  lemma ValuesAgree(a: seq<Node>, b: seq<Node>, at: seq<nat>)
    requires |a| == |b| && forall k :: 0 <= k < |at| ==> at[k] < |a| && a[at[k]] == b[at[k]]
    ensures Values(a, at) == Values(b, at)
  {}

  // ---------- merging sequences ----------

  /** Drop the entries of `d` whose key `s` does not have. */
  method PruneMissingMapKeys(d: YamlNode, s: YamlNode)
    requires d.Valid() && s.Valid() && d.Repr !! s.Repr
    modifies d
    ensures d.Valid() && d.Repr == old(d.Repr)
    ensures d.model == WithoutMissing(old(d.model), s.model)
  {
    if d.kind != Mapping || s.kind != Mapping { return; }
    RemoveOtherKeys(d, TrimmedKeys(s.Snapshot().content));
  }

  /** Drop the entries whose key is not in `keep`. */
  method RemoveOtherKeys(d: YamlNode, keep: seq<string>)
    requires d.Valid()
    modifies d
    ensures d.Valid() && d.Repr == old(d.Repr)
    ensures d.model == old(d.model).(content := KeptPairs(old(d.model.content), keep))
  {
    ghost var all := KeptPairs(d.model.content, keep);
    var i := 0;
    while i + 1 < |d.content|
      invariant 0 <= i <= |d.content|
      invariant d.Valid() && d.Repr == old(d.Repr) && d.model == old(d.model).(content := d.model.content)
      invariant d.model.content[..i] + KeptPairs(d.model.content[i..], keep) == all
      decreases |d.content| - i
    {
      KeptStep(d.model.content, i, keep);
      assert d.model.content[i].value == d.content[i].value;
      if TrimSpace(d.content[i].value) !in keep {
        d.RemovePair(i);
        continue;
      }
      i := i + 2;
    }
    assert d.model.content == d.model.content[..i] + d.model.content[i..];
  }

  lemma KeptStep(c: seq<Node>, i: nat, keep: seq<string>)
    requires i + 1 < |c|
    ensures TrimSpace(c[i].value) !in keep ==>
              var less := c[..i] + c[i + 2..];
              less[..i] + KeptPairs(less[i..], keep) == c[..i] + KeptPairs(c[i..], keep)
    ensures TrimSpace(c[i].value) in keep ==>
              c[..i + 2] + KeptPairs(c[i + 2..], keep) == c[..i] + KeptPairs(c[i..], keep)
  {
    var less := c[..i] + c[i + 2..];
    assert less[..i] == c[..i] && less[i..] == c[i + 2..] && c[i..][2..] == c[i + 2..];
    assert c[..i + 2] == c[..i] + c[i..][..2];
  }

  /** For each element of `src`, the position of the old element that becomes it, or -1. */
  method OrderForMerge(dst: YamlNode, src: YamlNode) returns (ordered: seq<int>)
    requires dst.Valid() && src.Valid()
    ensures ordered == Assigned(dst.model.content, {}, src.model.content)
  {
    var values := YamlNode.Snapshots(dst.content, dst.Repr - {dst});
    var news := YamlNode.Snapshots(src.content, src.Repr - {src});
    assert values == dst.model.content && news == src.model.content;
    ordered := MatchAll(values, news);
  }

  method MatchAll(original: seq<Node>, news: seq<Node>) returns (ordered: seq<int>)
    ensures ordered == Assigned(original, {}, news)
  {
    var used: set<int> := {};
    ordered := [];
    for i := 0 to |news|
      invariant ordered + Assigned(original, used, news[i..]) == Assigned(original, {}, news)
    {
      var idx := MatchElement(original, used, news[i]);
      AssignedStep(original, used, news, i);
      ordered := ordered + [idx];
      if idx >= 0 { used := used + {idx}; }
    }
  }

  lemma AssignedStep(values: seq<Node>, used: set<int>, src: seq<Node>, i: nat)
    requires i < |src|
    ensures var idx := MatchElement(values, used, src[i]);
            Assigned(values, used, src[i..]) ==
                [idx] + Assigned(values, if idx >= 0 then used + {idx} else used, src[i + 1..])
  {
    assert src[i..][1..] == src[i + 1..];
  }

  ghost function Nodes(trees: seq<YamlNode>): (r: set<object>)
    reads trees
    ensures forall k :: 0 <= k < |trees| ==> trees[k].Repr <= r
  {
    set tree, o | tree in trees && o in tree.Repr :: o
  }

  ghost function Models(trees: seq<YamlNode>): (r: seq<Node>)
    reads trees
    ensures |r| == |trees| && forall k :: 0 <= k < |trees| ==> r[k] == trees[k].model
  {
    if trees == [] then [] else Models(trees[..|trees| - 1]) + [trees[|trees| - 1].model]
  }

  /** Merge `s` into the child of `dst` at `j`, leaving it no keys that `s` lacks. */
  method MergeElement(dst: YamlNode, j: nat, s: YamlNode, path: Path)
    requires dst.Valid() && s.Valid() && dst.Repr !! s.Repr && j < |dst.content|
    modifies dst.Repr
    ensures dst.Valid() && fresh(dst.Repr - old(dst.Repr)) && dst.content == old(dst.content)
    ensures dst.model == old(dst.model).(content := old(dst.model.content)[j :=
              WithoutMissing(Merged(old(dst.model.content)[j], s.model, path), s.model)])
    decreases s.Repr, 5
  {
    MergeChild(dst, j, s, path);
    PruneMissingMapKeys(dst.content[j], s);
    dst.Settle(j);
  }

  /** What element k of the merged sequence is. */
  ghost function Element(original: seq<Node>, ordered: seq<int>, src: seq<Node>, path: Path, k: nat): Node
    requires k < |ordered| == |src| && (ordered[k] == -1 || 0 <= ordered[k] < |original|)
  {
    if ordered[k] == -1 then src[k] else WithoutMissing(Merged(original[ordered[k]], src[k], path), src[k])
  }

  method MergeSequencePreserve(dst: YamlNode, src: YamlNode, path: Path)
    requires dst.Valid() && src.Valid() && dst.Repr !! src.Repr
    modifies dst.Repr
    ensures dst.Valid() && fresh(dst.Repr - old(dst.Repr))
    ensures var d := if old(dst.model).kind == Sequence then old(dst.model)
                     else old(dst.model).(kind := Sequence, tag := "!!seq", content := []);
            dst.model == d.(content := MergedItems(d.content, Assigned(d.content, {}, src.model.content),
                                                   src.model.content, path))
    decreases src.Repr, 2
  {
    if dst.kind != Sequence { dst.Reset(Sequence, "!!seq", dst.value); }
    var ordered := OrderForMerge(dst, src);
    AssignedInjective(dst.model.content, {}, src.model.content);
    MergeElements(dst, src, ordered, path);
  }

  method MergeElements(dst: YamlNode, src: YamlNode, ordered: seq<int>, path: Path)
    requires dst.Valid() && src.Valid() && dst.Repr !! src.Repr
    requires |ordered| == |src.content| && Injective(ordered)
    requires forall k :: 0 <= k < |ordered| ==> ordered[k] == -1 || 0 <= ordered[k] < |dst.content|
    modifies dst.Repr
    ensures dst.Valid() && fresh(dst.Repr - old(dst.Repr))
    ensures dst.model.content == MergedItems(old(dst.model.content), ordered, src.model.content, path)
    ensures dst.model == old(dst.model).(content := dst.model.content)
    decreases src.Repr, 1
  {
    ghost var before, news := dst.model.content, src.model.content;
    var elements, copies := MergeAll(dst, src, ordered, path);
    ElementsAreMerged(before, ordered, news, path, Models(elements));
    dst.Rebuild(elements, ordered);
  }

  lemma ElementsAreMerged(original: seq<Node>, ordered: seq<int>, news: seq<Node>, path: Path, r: seq<Node>)
    requires |r| == |ordered| == |news|
    requires forall k :: 0 <= k < |ordered| ==> ordered[k] == -1 || 0 <= ordered[k] < |original|
    requires forall k :: 0 <= k < |r| ==> r[k] == Element(original, ordered, news, path, k)
    ensures r == MergedItems(original, ordered, news, path)
  {
    forall k | 0 <= k < |r| { MergedItemAt(original, ordered, news, path, k); }
  }

  /** The elements of the merged sequence, one after the other. */
  method MergeAll(dst: YamlNode, src: YamlNode, ordered: seq<int>, path: Path)
    returns (elements: seq<YamlNode>, ghost copies: set<object>)
    requires dst.Valid() && src.Valid() && dst.Repr !! src.Repr
    requires |ordered| == |src.content| && Injective(ordered)
    requires forall k :: 0 <= k < |ordered| ==> ordered[k] == -1 || 0 <= ordered[k] < |dst.content|
    modifies dst.Repr
    ensures dst.Valid() && fresh(dst.Repr - old(dst.Repr)) && fresh(copies) && Nodes(elements) <= dst.Repr + copies
    ensures dst.content == old(dst.content) && dst.model == old(dst.model).(content := dst.model.content)
    ensures |elements| == |ordered| && dst.Assembled(elements, ordered)
    ensures forall k :: 0 <= k < |elements| ==>
              elements[k].model == Element(old(dst.model.content), ordered, old(src.model.content), path, k)
    decreases src.Repr, 0
  {
    ghost var before, news := dst.model, src.model.content;
    elements, copies := [], {};
    for i := 0 to |src.content|
      invariant dst.Valid() && fresh(dst.Repr - old(dst.Repr)) && dst.content == old(dst.content)
      invariant src.Valid() && src.model.content == news && dst.Repr !! src.Repr
      invariant dst.model == before.(content := dst.model.content)
      invariant |elements| == i && fresh(copies) && copies !! dst.Repr
      invariant Underway(dst, elements, ordered, before.content, news, path, copies)
    {
      var element: YamlNode;
      element, copies := MergeNext(dst, src.content[i], elements, ordered, path, before.content, news, copies);
      elements := elements + [element];
    }
    assert ordered[..|ordered|] == ordered;
    forall k | 0 <= k < |elements| ensures elements[k].Repr <= dst.Repr + copies {
      assert ordered[k] >= 0 ==> elements[k] == dst.content[ordered[k]];
    }
  }

  /** The first elements are done: old children merged in place, copies where there was none; the
      children that no element took yet are as they were. */
  ghost predicate Underway(dst: YamlNode, elements: seq<YamlNode>, ordered: seq<int>,
                           original: seq<Node>, news: seq<Node>, path: Path, copies: set<object>)
    requires dst.Valid() && |elements| <= |ordered| == |news| && |original| == |dst.content|
    requires forall k :: 0 <= k < |ordered| ==> ordered[k] == -1 || 0 <= ordered[k] < |original|
    reads dst, dst.Repr, elements, Nodes(elements)
  {
    var n := |elements|;
    && dst.Assembled(elements, ordered[..n])
    && (forall j :: 0 <= j < |original| && j !in ordered[..n] ==> dst.model.content[j] == original[j])
    && (forall k :: 0 <= k < n && ordered[k] >= 0 ==>
          dst.model.content[ordered[k]] == Element(original, ordered, news, path, k))
    && (forall k :: 0 <= k < n && ordered[k] < 0 ==>
          elements[k].model == Element(original, ordered, news, path, k) && elements[k].Repr <= copies)
  }

  /** The next element of the merged sequence. */
  method MergeNext(dst: YamlNode, s: YamlNode, elements: seq<YamlNode>, ordered: seq<int>, path: Path,
                   ghost original: seq<Node>, ghost news: seq<Node>, ghost copies: set<object>)
    returns (element: YamlNode, ghost copies': set<object>)
    requires dst.Valid() && s.Valid() && dst.Repr !! s.Repr
    requires |elements| < |ordered| == |news| && |original| == |dst.content| && s.model == news[|elements|]
    requires Injective(ordered) && forall k :: 0 <= k < |ordered| ==> ordered[k] == -1 || 0 <= ordered[k] < |original|
    requires Underway(dst, elements, ordered, original, news, path, copies) && copies !! dst.Repr
    modifies dst.Repr
    ensures dst.Valid() && fresh(dst.Repr - old(dst.Repr)) && dst.content == old(dst.content)
    ensures dst.model == old(dst.model).(content := dst.model.content)
    ensures Underway(dst, elements + [element], ordered, original, news, path, copies')
    ensures copies' !! dst.Repr && fresh(copies' - copies)
    decreases s.Repr, 7
  {
    if ordered[|elements|] == -1 {
      element := DeepCopy(s);
      copies' := copies + element.Repr;
      UnderwayOneMore(dst, elements, ordered, original, news, path, element, copies');
    } else {
      element := MergeOld(dst, s, elements, ordered, path, original, news, copies);
      copies' := copies;
    }
  }

  /** ... when an old element becomes it. */
  method MergeOld(dst: YamlNode, s: YamlNode, elements: seq<YamlNode>, ordered: seq<int>, path: Path,
                  ghost original: seq<Node>, ghost news: seq<Node>, ghost copies: set<object>)
    returns (element: YamlNode)
    requires dst.Valid() && s.Valid() && dst.Repr !! s.Repr
    requires |elements| < |ordered| == |news| && |original| == |dst.content| && s.model == news[|elements|]
    requires Injective(ordered) && forall k :: 0 <= k < |ordered| ==> ordered[k] == -1 || 0 <= ordered[k] < |original|
    requires Underway(dst, elements, ordered, original, news, path, copies) && copies !! dst.Repr
               && ordered[|elements|] >= 0
    modifies dst.Repr
    ensures dst.Valid() && fresh(dst.Repr - old(dst.Repr)) && dst.content == old(dst.content)
    ensures dst.model == old(dst.model).(content := dst.model.content)
    ensures Underway(dst, elements + [element], ordered, original, news, path, copies) && copies !! dst.Repr
    decreases s.Repr, 6
  {
    MergeElement(dst, ordered[|elements|], s, path);
    element := dst.content[ordered[|elements|]];
    UnderwayOneMore(dst, elements, ordered, original, news, path, element, copies);
  }

  lemma UnderwayOneMore(dst: YamlNode, elements: seq<YamlNode>, ordered: seq<int>,
                        original: seq<Node>, news: seq<Node>, path: Path, element: YamlNode, copies: set<object>)
    requires dst.Valid() && |elements| < |ordered| == |news| && |original| == |dst.content|
    requires Injective(ordered) && forall k :: 0 <= k < |ordered| ==> ordered[k] == -1 || 0 <= ordered[k] < |original|
    requires var n := |elements|;
             && dst.Assembled(elements, ordered[..n])
             && (forall j :: 0 <= j < |original| && j !in ordered[..n] && j != ordered[n] ==>
                   dst.model.content[j] == original[j])
             && (forall k :: 0 <= k < n && ordered[k] >= 0 ==>
                   dst.model.content[ordered[k]] == Element(original, ordered, news, path, k))
             && (forall k :: 0 <= k < n && ordered[k] < 0 ==>
                   elements[k].model == Element(original, ordered, news, path, k) && elements[k].Repr <= copies)
             && (if ordered[n] >= 0 then
                   element == dst.content[ordered[n]]
                       && dst.model.content[ordered[n]] == Element(original, ordered, news, path, n)
                 else
                   element.Valid() && element.Repr !! dst.Repr && element.model == news[n] && element.Repr <= copies
                   && forall k :: 0 <= k < n && ordered[k] < 0 ==> elements[k].Repr !! element.Repr)
    ensures Underway(dst, elements + [element], ordered, original, news, path, copies)
  {
    var n := |elements|;
    assert ordered[..n + 1] == ordered[..n] + [ordered[n]];
    AssembledOneMore(dst, elements, ordered[..n], element, ordered[n]);
    forall k | 0 <= k < n + 1 && ordered[k] >= 0
      ensures dst.model.content[ordered[k]] == Element(original, ordered, news, path, k) {}
    forall k | 0 <= k < n + 1 && ordered[k] < 0
      ensures (elements + [element])[k].model == Element(original, ordered, news, path, k)
      ensures (elements + [element])[k].Repr <= copies {}
  }

  lemma AssembledOneMore(dst: YamlNode, elements: seq<YamlNode>, at: seq<int>, element: YamlNode, p: int)
    requires dst.Valid() && dst.Assembled(elements, at)
    requires if p >= 0 then p < |dst.content| && element == dst.content[p]
             else element.Valid() && element.Repr !! dst.Repr
                  && forall k :: 0 <= k < |at| && at[k] < 0 ==> elements[k].Repr !! element.Repr
    ensures dst.Assembled(elements + [element], at + [p])
  {}
}
