/** Keeping a log directory under its size limit by deleting its oldest files. */
module LogCleaner {

  /** A regular log file of the directory. Modification times are opaque ordered values. */
  datatype Entry = Entry(path: string, size: nat, modTime: int)

  function Total(files: seq<Entry>): (total: nat) {
    if files == [] then 0 else Total(files[..|files| - 1]) + files[|files| - 1].size
  }

  /** Ordered by age, files of the same age in any order. */
  ghost predicate OldestFirst(files: seq<Entry>) {
    forall i, j :: 0 <= i < j < |files| ==> files[i].modTime <= files[j].modTime
  }

  /** May this file go? It is not the protected one, and the operating system lets us remove it. */
  predicate Removable(e: Entry, protected: string, stuck: set<string>) {
    !(protected != "" && e.path == protected) && e.path !in stuck
  }

  /** The removable ones among these files, or the others. */
  function Select(files: seq<Entry>, protected: string, stuck: set<string>, removable: bool): seq<Entry> {
    if files == [] then []
    else
      var e := files[|files| - 1];
      Select(files[..|files| - 1], protected, stuck, removable)
      + (if Removable(e, protected, stuck) == removable then [e] else [])
  }

  /** What a pass over the first `n` files deletes, and what is then in the directory. */
  function Gone(files: seq<Entry>, protected: string, stuck: set<string>, n: nat): seq<Entry>
    requires n <= |files|
  {
    Select(files[..n], protected, stuck, true)
  }

  function Left(files: seq<Entry>, protected: string, stuck: set<string>, n: nat): seq<Entry>
    requires n <= |files|
  {
    Select(files[..n], protected, stuck, false) + files[n..]
  }

  predicate Exceeds(files: seq<Entry>, limit: int, protected: string, stuck: set<string>, n: nat)
    requires n <= |files|
  {
    Total(Left(files, protected, stuck, n)) > limit
  }

  /** The pass stops at `n`: before the first file at which what is left keeps the limit, or at the end. */
  ghost predicate StopsAt(files: seq<Entry>, limit: int, protected: string, stuck: set<string>, n: nat) {
    && n <= |files|
    && (n < |files| ==> !Exceeds(files, limit, protected, stuck, n))
    && (forall m: nat :: m < n ==> Exceeds(files, limit, protected, stuck, m))
  }

  // ---------- sums ----------

  lemma {:induction false} TotalAdds(a: seq<Entry>, b: seq<Entry>)
    ensures Total(a + b) == Total(a) + Total(b)
  {
    if b == [] {
      assert a + b == a;
    } else {
      TotalAdds(a, b[..|b| - 1]);
      assert (a + b)[..|a + b| - 1] == a + b[..|b| - 1];
    }
  }

  lemma TakeOut(a: seq<Entry>, e: Entry, b: seq<Entry>)
    ensures multiset(a + [e] + b) == multiset(a + b) + multiset{e}
    ensures Total(a + [e] + b) == Total(a + b) + e.size
  {
    TotalAdds(a, b);
    TotalAdds(a + [e], b);
    assert (a + [e])[..|a|] == a;
  }

  lemma SplitAt(files: seq<Entry>, e: Entry) returns (a: seq<Entry>, b: seq<Entry>)
    requires e in files
    ensures files == a + [e] + b
  {
    var i :| 0 <= i < |files| && files[i] == e;
    a, b := files[..i], files[i + 1..];
  }

  lemma {:induction false} TotalOfPermutation(a: seq<Entry>, b: seq<Entry>)
    requires multiset(a) == multiset(b)
    ensures Total(a) == Total(b)
    decreases |a|
  {
    if a == [] {
      assert |multiset(b)| == |b|;
    } else {
      var e := a[0];
      assert e in multiset(b);
      var a1, a2 := SplitAt(a, e);
      var b1, b2 := SplitAt(b, e);
      TakeOut(a1, e, a2);
      TakeOut(b1, e, b2);
      SamePermutation(multiset(a1 + a2), multiset(b1 + b2), e);
      TotalOfPermutation(a1 + a2, b1 + b2);
    }
  }

  lemma TakeAway(a: multiset<Entry>, e: Entry)
    ensures (a + multiset{e}) - multiset{e} == a
  {}

  lemma SamePermutation(a: multiset<Entry>, b: multiset<Entry>, e: Entry)
    requires a + multiset{e} == b + multiset{e}
    ensures a == b
  {
    TakeAway(a, e);
    TakeAway(b, e);
  }

  lemma {:induction false} Selected(files: seq<Entry>, protected: string, stuck: set<string>, removable: bool, e: Entry)
    requires e in Select(files, protected, stuck, removable)
    ensures e in files && Removable(e, protected, stuck) == removable
  {
    var last := files[|files| - 1];
    if e != last || Removable(last, protected, stuck) != removable {
      Selected(files[..|files| - 1], protected, stuck, removable, e);
    }
  }

  lemma {:induction false} SelectSplits(files: seq<Entry>, protected: string, stuck: set<string>)
    ensures var no, yes := Select(files, protected, stuck, false), Select(files, protected, stuck, true);
            multiset(no) + multiset(yes) == multiset(files)
  {
    if files != [] {
      var front, e := files[..|files| - 1], files[|files| - 1];
      SelectSplits(front, protected, stuck);
      assert files == front + [e];
    }
  }

  lemma Regroup(no: seq<Entry>, yes: seq<Entry>, files: seq<Entry>, n: nat)
    requires n <= |files| && multiset(no) + multiset(yes) == multiset(files[..n])
    ensures multiset(no + files[n..]) + multiset(yes) == multiset(files)
    ensures multiset(no + files[n..] + yes) == multiset(files)
  {
    assert files == files[..n] + files[n..];
    calc {
      multiset(no + files[n..] + yes);
      multiset(no) + multiset(files[n..]) + multiset(yes);
      multiset(no) + multiset(yes) + multiset(files[n..]);
      multiset(files[..n]) + multiset(files[n..]);
    }
  }

  /** Nothing is lost or invented: what is left and what is gone are the files, and the sizes add up. */
  lemma PassPartitions(files: seq<Entry>, protected: string, stuck: set<string>, n: nat)
    requires n <= |files|
    ensures multiset(Left(files, protected, stuck, n)) + multiset(Gone(files, protected, stuck, n)) == multiset(files)
    ensures Total(Left(files, protected, stuck, n)) + Total(Gone(files, protected, stuck, n)) == Total(files)
  {
    var no, yes := Select(files[..n], protected, stuck, false), Select(files[..n], protected, stuck, true);
    SelectSplits(files[..n], protected, stuck);
    Regroup(no, yes, files, n);
    TotalAdds(no + files[n..], yes);
    TotalOfPermutation(no + files[n..] + yes, files);
  }

  lemma GoneNext(files: seq<Entry>, protected: string, stuck: set<string>, n: nat)
    requires n < |files|
    ensures Gone(files, protected, stuck, n + 1) ==
            Gone(files, protected, stuck, n) + (if Removable(files[n], protected, stuck) then [files[n]] else [])
  {
    assert files[..n + 1][..n] == files[..n];
  }

  lemma LeftParts(files: seq<Entry>, protected: string, stuck: set<string>, n: nat)
    requires n < |files|
    ensures var kept, e, rest := Select(files[..n], protected, stuck, false), files[n], files[n + 1..];
            && Left(files, protected, stuck, n) == kept + [e] + rest
            && Left(files, protected, stuck, n + 1)
               == if Removable(e, protected, stuck) then kept + rest else kept + [e] + rest
  {
    var kept := Select(files[..n], protected, stuck, false);
    assert files[..n + 1][..n] == files[..n];
    assert files[n..] == [files[n]] + files[n + 1..];
    assert kept + [] == kept;
  }

  /** One file further: a removable file leaves the directory and takes its size along. */
  lemma LeftNext(files: seq<Entry>, protected: string, stuck: set<string>, n: nat)
    requires n < |files|
    ensures var now, next := Left(files, protected, stuck, n), Left(files, protected, stuck, n + 1);
            if Removable(files[n], protected, stuck)
            then multiset(next) == multiset(now) - multiset{files[n]} && Total(next) == Total(now) - files[n].size
            else now == next
  {
    LeftParts(files, protected, stuck, n);
    TakeOut(Select(files[..n], protected, stuck, false), files[n], files[n + 1..]);
    if Removable(files[n], protected, stuck) {
      TakeAway(multiset(Left(files, protected, stuck, n + 1)), files[n]);
    }
  }

  /** The state of a pass that has dealt with the first `n` files and has had to go on so far. */
  ghost predicate Reached(files: seq<Entry>, limit: int, protected: string, stuck: set<string>, n: nat,
      present: multiset<Entry>, removed: seq<Entry>, total: int)
  {
    && n <= |files|
    && present == multiset(Left(files, protected, stuck, n))
    && removed == Gone(files, protected, stuck, n)
    && total == Total(Left(files, protected, stuck, n))
    && (forall m: nat :: m < n ==> Exceeds(files, limit, protected, stuck, m))
  }

  lemma ReachedNext(files: seq<Entry>, limit: int, protected: string, stuck: set<string>, n: nat,
      present: multiset<Entry>, removed: seq<Entry>, total: int)
    requires Reached(files, limit, protected, stuck, n, present, removed, total)
    requires n < |files| && total > limit
    ensures var e := files[n];
            if Removable(e, protected, stuck)
            then Reached(files, limit, protected, stuck, n + 1, present - multiset{e}, removed + [e], total - e.size)
            else Reached(files, limit, protected, stuck, n + 1, present, removed, total)
  {
    LeftNext(files, protected, stuck, n);
    GoneNext(files, protected, stuck, n);
    assert Exceeds(files, limit, protected, stuck, n);
  }

  // ---------- what a whole pass achieves ----------

  /** Afterwards the limit is kept, or only files are left that cannot be removed. */
  lemma LimitOrNothingRemovable(files: seq<Entry>, limit: int, protected: string, stuck: set<string>, n: nat)
    requires StopsAt(files, limit, protected, stuck, n)
    ensures var left := Left(files, protected, stuck, n);
            Total(left) <= limit ||
            (forall e :: e in left ==> (protected != "" && e.path == protected) || e.path in stuck)
  {
    var kept := Select(files[..n], protected, stuck, false);
    forall e | n == |files| && e in Left(files, protected, stuck, n)
      ensures !Removable(e, protected, stuck)
    {
      assert files[n..] == [] && e in kept;
      Selected(files[..n], protected, stuck, false, e);
    }
  }

  /** The protected file and the stuck ones survive, in the directory as often as before. */
  lemma UnremovableSurvive(files: seq<Entry>, protected: string, stuck: set<string>, n: nat, e: Entry)
    requires n <= |files| && ((protected != "" && e.path == protected) || e.path in stuck)
    ensures multiset(Left(files, protected, stuck, n))[e] == multiset(files)[e]
    ensures e !in Gone(files, protected, stuck, n)
  {
    PassPartitions(files, protected, stuck, n);
    if e in Gone(files, protected, stuck, n) {
      Selected(files[..n], protected, stuck, true, e);
    }
  }

  /** Deletions are in order of age, and no removable file that is left is older than a deleted one. */
  lemma {:induction false} DeletesOldest(files: seq<Entry>, protected: string, stuck: set<string>, n: nat)
    requires n <= |files| && OldestFirst(files)
    ensures OldestFirst(Gone(files, protected, stuck, n))
    ensures forall g, e :: g in Gone(files, protected, stuck, n) && e in files[n..] ==> g.modTime <= e.modTime
  {
    if n > 0 {
      DeletesOldest(files, protected, stuck, n - 1);
      GoneNext(files, protected, stuck, n - 1);
      assert files[n - 1] in files[n - 1..];
      assert forall e :: e in files[n..] ==> e in files[n - 1..] && files[n - 1].modTime <= e.modTime;
    }
  }

  lemma SurvivorsAreNewer(files: seq<Entry>, protected: string, stuck: set<string>, n: nat, g: Entry, e: Entry)
    requires n <= |files| && OldestFirst(files)
    requires g in Gone(files, protected, stuck, n)
    requires e in Left(files, protected, stuck, n)
    requires (protected == "" || e.path != protected) && e.path !in stuck
    ensures g.modTime <= e.modTime
  {
    DeletesOldest(files, protected, stuck, n);
    if e in Select(files[..n], protected, stuck, false) {
      Selected(files[..n], protected, stuck, false, e);
    }
  }

  /** No deletion is in vain: without the last one the limit would still be exceeded. */
  lemma NoneTooMany(files: seq<Entry>, limit: int, protected: string, stuck: set<string>, n: nat)
    requires StopsAt(files, limit, protected, stuck, n) && Gone(files, protected, stuck, n) != []
    ensures var gone := Gone(files, protected, stuck, n);
            Total(files) - Total(gone[..|gone| - 1]) > limit
  {
    var k := LastGone(files, protected, stuck, n);
    assert Exceeds(files, limit, protected, stuck, k);
    PassPartitions(files, protected, stuck, k);
  }

  lemma {:induction false} LastGone(files: seq<Entry>, protected: string, stuck: set<string>, n: nat)
      returns (k: nat)
    requires n <= |files| && Gone(files, protected, stuck, n) != []
    ensures k < n
    ensures var gone := Gone(files, protected, stuck, n); Gone(files, protected, stuck, k) == gone[..|gone| - 1]
  {
    GoneNext(files, protected, stuck, n - 1);
    if Removable(files[n - 1], protected, stuck) {
      k := n - 1;
    } else {
      k := LastGone(files, protected, stuck, n - 1);
    }
  }

  /** Where a pass stops is determined by the files, their order and the limit. */
  lemma StopIsUnique(files: seq<Entry>, limit: int, protected: string, stuck: set<string>, m: nat, n: nat)
    requires StopsAt(files, limit, protected, stuck, m) && StopsAt(files, limit, protected, stuck, n)
    ensures m == n
  {}

  // ---------- the cleaner ----------

  /** The log directory; the files in `stuck` cannot be removed. */
  class Directory {
    var present: multiset<Entry>
    ghost var removed: seq<Entry>
    const stuck: set<string>

    constructor (files: seq<Entry>, stuck: set<string>)
      ensures present == multiset(files) && removed == [] && this.stuck == stuck
    {
      present, removed, this.stuck := multiset(files), [], stuck;
    }

    method Remove(e: Entry) returns (ok: bool)
      modifies this
      ensures ok <==> e.path !in stuck
      ensures present == if ok then old(present) - multiset{e} else old(present)
      ensures removed == if ok then old(removed) + [e] else old(removed)
    {
      ok := e.path !in stuck;
      if ok {
        present := present - multiset{e};
        removed := removed + [e];
      }
    }

    /** One turn of the deleting loop: `freed` bytes are gone, if any file is. */
    method DeleteNext(order: seq<Entry>, i: nat, maxBytes: int, protected: string, total: int)
        returns (deleted: nat, freed: nat)
      requires Reached(order, maxBytes, protected, stuck, i, present, removed, total)
      requires i < |order| && total > maxBytes
      modifies this
      ensures Reached(order, maxBytes, protected, stuck, i + 1, present, removed, total - freed)
      ensures |removed| == |old(removed)| + deleted
    {
      ReachedNext(order, maxBytes, protected, stuck, i, present, removed, total);
      var file := order[i];
      if protected != "" && file.path == protected {
        return 0, 0;
      }
      var ok := Remove(file);
      if !ok {
        return 0, 0;
      }
      return 1, file.size;
    }

    /** The deleting loop over the files in order of age. */
    method DeleteOldest(order: seq<Entry>, size: nat, maxBytes: int, protected: string)
        returns (deleted: nat, ghost n: nat)
      requires present == multiset(order) && removed == [] && size == Total(order)
      modifies this
      ensures StopsAt(order, maxBytes, protected, stuck, n)
      ensures deleted == |removed| && removed == Gone(order, protected, stuck, n)
      ensures present == multiset(Left(order, protected, stuck, n))
    {
      var total: int, i := size, 0;
      deleted := 0;
      assert Left(order, protected, stuck, 0) == order;
      while i < |order|
        invariant deleted == |removed|
        invariant Reached(order, maxBytes, protected, stuck, i, present, removed, total)
      {
        if total <= maxBytes {
          break;
        }
        var count, freed := DeleteNext(order, i, maxBytes, protected, total);
        deleted, total, i := deleted + count, total - freed, i + 1;
      }
      n := i;
    }

    /** Keep the directory within `maxBytes`. `files` are its log files in the order of the listing and
        `order` is how the sorting routine arranges them. */
    method EnforceLogDirSizeLimit(files: seq<Entry>, order: seq<Entry>, maxBytes: int, protected: string)
        returns (deleted: nat, ghost n: nat)
      requires present == multiset(files) && removed == []
      requires multiset(order) == multiset(files) && OldestFirst(order)
      modifies this
      ensures n <= |order| && deleted == |removed| && OldestFirst(removed)
      ensures if maxBytes <= 0 || Total(files) <= maxBytes then n == 0
              else StopsAt(order, maxBytes, protected, stuck, n)
      ensures removed == Gone(order, protected, stuck, n)
      ensures present == multiset(Left(order, protected, stuck, n))
    {
      deleted, n := 0, 0;
      assert Left(order, protected, stuck, 0) == order;
      if maxBytes <= 0 {
        return;
      }
      var total := SumSizes(files);
      if total <= maxBytes {
        return;
      }
      TotalOfPermutation(order, files);
      deleted, n := DeleteOldest(order, total, maxBytes, protected);
      DeletesOldest(order, protected, stuck, n);
    }
  }

  /** The loop over the listing that adds up the sizes. */
  method SumSizes(files: seq<Entry>) returns (total: nat)
    ensures total == Total(files)
  {
    total := 0;
    var k := 0;
    while k < |files|
      invariant k <= |files| && total == Total(files[..k])
    {
      assert files[..k + 1][..k] == files[..k];
      total := total + files[k].size;
      k := k + 1;
    }
    assert files[..k] == files;
  }
}
