/** What the merge promises: the result says what the generated tree says, and
    looks like the hand-written one. */
module YamlMerge {
  import opened Common
  import opened YamlTree

  // ---------- trees as the YAML library makes them ----------

  /** Keys are trimmed, not empty and pairwise different, all the way down. */
  ghost predicate WellFormed(n: Node)
    decreases n, 1
  {
    match n.kind
    case Mapping => |n.content| % 2 == 0 && PairsWellFormed(n.content)
    case Sequence => ItemsWellFormed(n.content)
    case _ => true
  }

  ghost predicate PairsWellFormed(content: seq<Node>)
    decreases content, 0
  {
    |content| < 2 ||
    (&& content[0].value != "" && TrimSpace(content[0].value) == content[0].value
     && content[0].value !in Keys(content[2..])
     && WellFormed(content[1]) && PairsWellFormed(content[2..]))
  }

  ghost predicate ItemsWellFormed(content: seq<Node>)
    decreases content, 0
  {
    content == [] || (WellFormed(content[0]) && ItemsWellFormed(content[1..]))
  }

  /** Every key has a value, all the way down. */
  ghost predicate Paired(n: Node) {
    match n.kind
    case Mapping => |n.content| % 2 == 0 && forall i :: 0 <= i < |n.content| && i % 2 == 1 ==> Paired(n.content[i])
    case Sequence => forall i :: 0 <= i < |n.content| ==> Paired(n.content[i])
    case _ => true
  }

  // ---------- what it means to say what another tree says ----------

  /** A key may be missing if its value, or what is left of it without defaults, is a known default. */
  ghost predicate Suppressed(path: Path, v: Node) {
    IsKnownDefault(path, v) || IsKnownDefault(path, Pruned(path, v))
  }

  ghost predicate Covers(d: Node, s: Node, path: Path)
    decreases s, 1
  {
    match s.kind
    case Mapping => d.kind == Mapping && CoversPairs(d.content, s.content, path)
    case Sequence =>
      || (d.kind == Scalar && d.tag == "!!null" && s.content == [])
      || (d.kind == Sequence && |d.content| == |s.content| && CoversItems(d.content, s.content, path))
    case NoKind => true
    case Document => d.kind == Document && d.tag == s.tag && d.value == s.value && d.content == s.content
    case _ => d.kind == s.kind && d.tag == s.tag && d.value == s.value
  }

  ghost predicate CoversPairs(d: seq<Node>, s: seq<Node>, path: Path)
    decreases s, 0
  {
    |s| < 2 ||
    (&& (var childPath, v := path + [s[0].value], Get(d, s[0].value);
         if v.Some? then Covers(v.value, s[1], childPath) else Suppressed(childPath, s[1]))
     && CoversPairs(d, s[2..], path))
  }

  ghost predicate CoversItems(d: seq<Node>, s: seq<Node>, path: Path)
    requires |d| == |s|
    decreases s, 0
  {
    s == [] || (Covers(d[0], s[0], path) && CoversItems(d[1..], s[1..], path))
  }

  // ---------- looking up keys ----------

  lemma {:induction false} GetIffKey(content: seq<Node>, key: string)
    ensures Get(content, key).Some? <==> key in Keys(content)
    decreases |content|
  {
    if |content| >= 2 { GetIffKey(content[2..], key); }
  }

  lemma GetPrepend(k: Node, v: Node, rest: seq<Node>, key: string)
    ensures Get([k, v] + rest, key) == if k.value == key then Some(v) else Get(rest, key)
  {
    assert ([k, v] + rest)[2..] == rest;
  }

  lemma {:induction false} GetAppend(content: seq<Node>, k: Node, v: Node, key: string)
    requires |content| % 2 == 0
    ensures Get(content + [k, v], key) ==
      if Get(content, key).Some? then Get(content, key) else if k.value == key then Some(v) else None
    decreases |content|
  {
    if content == [] {
      assert content + [k, v] == [k, v] && [k, v][2..] == [];
    } else {
      assert (content + [k, v])[2..] == content[2..] + [k, v];
      GetAppend(content[2..], k, v, key);
    }
  }

  lemma {:induction false} GetUpdate(content: seq<Node>, at: string, v: Node, key: string)
    requires FindKey(content, at) >= 0
    ensures Get(content[FindKey(content, at) + 1 := v], key) == if key == at then Some(v) else Get(content, key)
    decreases |content|
  {
    var i := FindKey(content, at);
    var updated := content[i + 1 := v];
    if i > 0 {
      assert updated[2..] == content[2..][i - 2 + 1 := v];
      GetUpdate(content[2..], at, v, key);
    } else {
      assert updated[2..] == content[2..];
    }
  }

  lemma {:induction false} GetKept(content: seq<Node>, keep: seq<string>, key: string)
    requires TrimSpace(key) == key && key in keep
    ensures Get(KeptPairs(content, keep), key) == Get(content, key)
    decreases |content|
  {
    if |content| >= 2 {
      GetKept(content[2..], keep, key);
      if TrimSpace(content[0].value) in keep {
        assert content[..2] == [content[0], content[1]];
        GetPrepend(content[0], content[1], KeptPairs(content[2..], keep), key);
      }
    }
  }

  lemma {:induction false} KeysAreTrimmed(content: seq<Node>, key: string)
    requires PairsWellFormed(content) && key in Keys(content)
    ensures TrimSpace(key) == key && key in TrimmedKeys(content)
    decreases |content|
  {
    if key != content[0].value { KeysAreTrimmed(content[2..], key); }
  }

  /** Coverage of pairs depends only on what the keys look up. */
  lemma {:induction false} CoversPairsAgree(a: seq<Node>, b: seq<Node>, s: seq<Node>, path: Path)
    requires CoversPairs(a, s, path) && forall key :: key in Keys(s) ==> Get(a, key) == Get(b, key)
    ensures CoversPairs(b, s, path)
    decreases |s|
  {
    if |s| >= 2 {
      assert s[0].value in Keys(s);
      CoversPairsAgree(a, b, s[2..], path);
    }
  }

  // ---------- copies and pruned copies cover ----------

  lemma {:induction false} SelfCovers(s: Node, path: Path)
    requires WellFormed(s)
    ensures Covers(s, s, path)
    decreases s, 1
  {
    match s.kind
    case Mapping => SelfCoversPairs(s.content, path);
    case Sequence => SelfCoversItems(s.content, path);
    case _ =>
  }

  lemma {:induction false} SelfCoversPairs(s: seq<Node>, path: Path)
    requires PairsWellFormed(s)
    ensures CoversPairs(s, s, path)
    decreases s, 0
  {
    if |s| >= 2 {
      SelfCovers(s[1], path + [s[0].value]);
      SelfCoversPairs(s[2..], path);
      CoversPairsAgree(s[2..], s, s[2..], path);
    }
  }

  lemma {:induction false} SelfCoversItems(s: seq<Node>, path: Path)
    requires ItemsWellFormed(s)
    ensures CoversItems(s, s, path)
    decreases s, 0
  {
    if s != [] {
      SelfCovers(s[0], path);
      SelfCoversItems(s[1..], path);
    }
  }

  lemma {:induction false} PrunedKeys(path: Path, s: seq<Node>, key: string)
    requires key in Keys(PrunedPairs(path, s))
    ensures key in Keys(s)
    decreases |s|
  {
    if |s| >= 2 {
      var rest := PrunedPairs(path, s[2..]);
      if PrunedPairs(path, s) != rest {
        assert ([s[0], Pruned(path + [s[0].value], s[1])] + rest)[2..] == rest;
      }
      if key in Keys(rest) { PrunedKeys(path, s[2..], key); }
    }
  }

  lemma {:induction false} PrunedCovers(s: Node, path: Path)
    requires WellFormed(s)
    ensures Covers(Pruned(path, s), s, path)
    decreases s, 1
  {
    match s.kind
    case Mapping => PrunedCoversPairs(s.content, path);
    case Sequence => PrunedCoversItems(s.content, path);
    case _ =>
  }

  lemma {:induction false} PrunedCoversPairs(s: seq<Node>, path: Path)
    requires PairsWellFormed(s)
    ensures CoversPairs(PrunedPairs(path, s), s, path)
    decreases s, 0
  {
    if |s| >= 2 {
      var key, childPath := s[0].value, path + [s[0].value];
      var all, rest := PrunedPairs(path, s), PrunedPairs(path, s[2..]);
      PrunedCovers(s[1], childPath);
      PrunedCoversPairs(s[2..], path);
      GetIffKey(rest, key);
      if key in Keys(rest) { PrunedKeys(path, s[2..], key); }
      if all != rest {
        forall k ensures Get(all, k) == if k == key then Some(Pruned(childPath, s[1])) else Get(rest, k) {
          GetPrepend(s[0], Pruned(childPath, s[1]), rest, k);
        }
        CoversPairsAgree(rest, all, s[2..], path);
      }
    }
  }

  lemma {:induction false} PrunedCoversItems(s: seq<Node>, path: Path)
    requires ItemsWellFormed(s)
    ensures CoversItems(PrunedItems(path, s), s, path)
    decreases s, 0
  {
    if s != [] {
      PrunedCovers(s[0], path);
      PrunedCoversItems(s[1..], path);
    }
  }

  // ---------- merging ----------

  /** What one merged entry does to the look-ups. */
  lemma MergedPairGet(dst: seq<Node>, src: seq<Node>, path: Path, key: string)
    requires |dst| % 2 == 0 && |src| >= 2
    ensures |MergedPair(dst, src, path)| % 2 == 0
    ensures key != src[0].value ==> Get(MergedPair(dst, src, path), key) == Get(dst, key)
    ensures var childPath, before := path + [src[0].value], Get(dst, src[0].value);
            Get(MergedPair(dst, src, path), src[0].value) ==
              if before.Some? then Some(Merged(before.value, src[1], childPath))
              else if IsKnownDefault(childPath, Pruned(childPath, src[1])) then None
              else Some(Pruned(childPath, src[1]))
  {
    var i, childPath := FindKey(dst, src[0].value), path + [src[0].value];
    if i >= 0 {
      GetUpdate(dst, src[0].value, Merged(dst[i + 1], src[1], childPath), key);
      GetUpdate(dst, src[0].value, Merged(dst[i + 1], src[1], childPath), src[0].value);
    } else {
      GetAppend(dst, src[0], Pruned(childPath, src[1]), key);
      GetAppend(dst, src[0], Pruned(childPath, src[1]), src[0].value);
    }
  }

  /** Entries that `src` does not mention keep their values. */
  lemma {:induction false} MergedPairsKeep(dst: seq<Node>, src: seq<Node>, path: Path, key: string)
    requires |dst| % 2 == 0 && key !in Keys(src)
    ensures Get(MergedPairs(dst, src, path), key) == Get(dst, key)
    decreases |src|
  {
    if |src| >= 2 {
      MergedPairGet(dst, src, path, key);
      MergedPairsKeep(MergedPair(dst, src, path), src[2..], path, key);
    }
  }

  /** The values that a mapping's merge will reach have all their pairs. */
  ghost predicate PairedAt(dst: seq<Node>, src: seq<Node>) {
    forall key :: key in Keys(src) && Get(dst, key).Some? ==> Paired(Get(dst, key).value)
  }

  /** After a merge, the result says what the merged-in tree says. */
  lemma {:induction false} MergedCovers(dst: Node, src: Node, path: Path)
    requires Paired(dst) && WellFormed(src)
    ensures Covers(Merged(dst, src, path), src, path)
    decreases src, 2
  {
    match src.kind
    case Mapping =>
      WellFormedIsPaired(src);
      var d := if dst.kind != Mapping then CopiedShallow(dst, src) else dst;
      forall key | key in Keys(src.content) && Get(d.content, key).Some? ensures Paired(Get(d.content, key).value) {
        assert Get(d.content, key).value == d.content[FindKey(d.content, key) + 1];
      }
      MergedPairsCover(d.content, src.content, path);
    case Sequence =>
      if !(dst.kind == Scalar && dst.tag == "!!null" && src.content == []) {
        var original := if dst.kind != Sequence then [] else dst.content;
        MergedItemsCover(original, Assigned(original, {}, src.content), src.content, path);
      }
    case _ =>
  }

  lemma {:induction false} MergedPairsCover(dst: seq<Node>, src: seq<Node>, path: Path)
    requires |dst| % 2 == 0 && PairsWellFormed(src) && PairedAt(dst, src)
    ensures CoversPairs(MergedPairs(dst, src, path), src, path)
    decreases src, 1
  {
    if |src| >= 2 {
      var key, childPath := src[0].value, path + [src[0].value];
      var next := MergedPair(dst, src, path);
      forall k ensures k != key ==> Get(next, k) == Get(dst, k) { MergedPairGet(dst, src, path, k); }
      MergedPairGet(dst, src, path, key);
      MergedPairsKeep(next, src[2..], path, key);
      assert key in Keys(src);
      if Get(dst, key).Some? {
        MergedCovers(Get(dst, key).value, src[1], childPath);
      } else {
        PrunedCovers(src[1], childPath);
      }
      MergedPairsCover(next, src[2..], path);
    }
  }

  /** Dropping the keys that `src` lacks keeps the coverage. */
  lemma WithoutMissingCovers(d: Node, s: Node, path: Path)
    requires WellFormed(s) && Covers(d, s, path)
    ensures Covers(WithoutMissing(d, s), s, path)
  {
    if d.kind == Mapping && s.kind == Mapping {
      var keep := TrimmedKeys(s.content);
      forall key | key in Keys(s.content) ensures Get(d.content, key) == Get(KeptPairs(d.content, keep), key) {
        KeysAreTrimmed(s.content, key);
        GetKept(d.content, keep, key);
      }
      CoversPairsAgree(d.content, KeptPairs(d.content, keep), s.content, path);
    }
  }

  lemma {:induction false} MergedItemsCover(original: seq<Node>, idx: seq<int>, src: seq<Node>, path: Path)
    requires |idx| == |src| && forall i :: 0 <= i < |idx| ==> idx[i] == -1 || 0 <= idx[i] < |original|
    requires ItemsWellFormed(src) && forall o :: o in original ==> Paired(o)
    ensures CoversItems(MergedItems(original, idx, src, path), src, path)
    decreases src, 1
  {
    if src != [] {
      if idx[0] == -1 {
        SelfCovers(src[0], path);
      } else {
        MergedCovers(original[idx[0]], src[0], path);
        WithoutMissingCovers(Merged(original[idx[0]], src[0], path), src[0], path);
      }
      MergedItemsCover(original, idx[1..], src[1..], path);
    }
  }

  lemma {:induction false} WellFormedIsPaired(n: Node)
    requires WellFormed(n)
    ensures Paired(n)
    decreases n
  {
    match n.kind
    case Mapping =>
      forall i | 0 <= i < |n.content| && i % 2 == 1 ensures Paired(n.content[i]) {
        PairWellFormed(n.content, i);
        WellFormedIsPaired(n.content[i]);
      }
    case Sequence =>
      forall i | 0 <= i < |n.content| ensures Paired(n.content[i]) {
        ItemWellFormed(n.content, i);
        WellFormedIsPaired(n.content[i]);
      }
    case _ =>
  }

  lemma {:induction false} PairWellFormed(content: seq<Node>, i: nat)
    requires PairsWellFormed(content) && i < |content| && i % 2 == 1
    ensures WellFormed(content[i])
    decreases |content|
  {
    if i > 1 { PairWellFormed(content[2..], i - 2); }
  }

  lemma {:induction false} ItemWellFormed(content: seq<Node>, i: nat)
    requires ItemsWellFormed(content) && i < |content|
    ensures WellFormed(content[i])
    decreases |content|
  {
    if i > 0 { ItemWellFormed(content[1..], i - 1); }
  }
}
