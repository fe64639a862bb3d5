/** Reading and changing a tree, on values: what every lazily loaded operation
    is held to, and what it does to the records. */
module TreeOps {
  import opened Data
  import opened Keys
  import opened Tree

  // ---- A sorted listing, and where a key falls in it ----

  ghost predicate AllBelow(s: seq<Leaf>, k: Key) {
    forall i :: 0 <= i < |s| ==> Lt(s[i].key, k)
  }

  ghost predicate NoneBelow(s: seq<Leaf>, k: Key) {
    forall i :: 0 <= i < |s| ==> !Lt(s[i].key, k)
  }

  /** How many leaves come before a key. */
  function Rank(s: seq<Leaf>, k: Key): (r: nat)
    ensures r <= |s|
  {
    if s == [] || !Lt(s[0].key, k) then 0 else 1 + Rank(s[1..], k)
  }

  lemma {:induction false} RankSpec(s: seq<Leaf>, k: Key)
    ensures forall i :: 0 <= i < Rank(s, k) ==> Lt(s[i].key, k)
    ensures Rank(s, k) < |s| ==> !Lt(s[Rank(s, k)].key, k)
  {
    if s != [] && Lt(s[0].key, k) { RankSpec(s[1..], k); }
  }

  function With(s: seq<Leaf>, k: Key, v: Cid): seq<Leaf> {
    s[..Rank(s, k)] + [Leaf(k, v)] + s[Rank(s, k)..]
  }

  function Changed(s: seq<Leaf>, k: Key, v: Cid): seq<Leaf>
    requires Rank(s, k) < |s|
  {
    s[Rank(s, k) := Leaf(k, v)]
  }

  function Without(s: seq<Leaf>, k: Key): seq<Leaf>
    requires Rank(s, k) < |s|
  {
    s[..Rank(s, k)] + s[Rank(s, k) + 1..]
  }

  predicate Has(s: seq<Leaf>, k: Key) {
    Rank(s, k) < |s| && s[Rank(s, k)].key == k
  }

  lemma RankIs(s: seq<Leaf>, k: Key, r: nat)
    requires r <= |s| && (forall i :: 0 <= i < r ==> Lt(s[i].key, k)) && (r < |s| ==> !Lt(s[r].key, k))
    ensures Rank(s, k) == r
  {
    RankSpec(s, k);
  }

  /** Leaves wholly below and wholly not below a key leave the rank to what is
      between them. */
  lemma RankMiddle(a: seq<Leaf>, m: seq<Leaf>, c: seq<Leaf>, k: Key)
    requires AllBelow(a, k) && NoneBelow(c, k)
    ensures Rank(a + m + c, k) == |a| + Rank(m, k)
    ensures Has(m, k) ==> Has(a + m + c, k)
  {
    RankSpec(m, k);
    hide Lt;
    var s, r := a + m + c, |a| + Rank(m, k);
    forall i | 0 <= i < r ensures Lt(s[i].key, k) {
      if i >= |a| { assert s[i] == m[i - |a|]; }
    }
    if r < |s| {
      assert s[r] == if Rank(m, k) < |m| then m[Rank(m, k)] else c[0];
    }
    RankIs(s, k, r);
  }

  lemma HasIsHeld(s: seq<Leaf>, k: Key)
    requires Sorted(s)
    ensures Has(s, k) <==> k in Held(s)
  {
    RankSpec(s, k);
    LtIrreflexive(k);
  }

  /** Past the rank of a key nothing is below it, and past a key itself
      everything is above. */
  lemma RankParts(s: seq<Leaf>, k: Key)
    requires Sorted(s)
    ensures forall i :: Rank(s, k) <= i < |s| ==> !Lt(s[i].key, k)
    ensures forall i :: Rank(s, k) <= i < |s| ==> s[i].key == k || Lt(k, s[i].key)
  {
    var r := Rank(s, k);
    RankSpec(s, k);
    hide Lt;
    forall i | r <= i < |s| ensures !Lt(s[i].key, k) && (s[i].key == k || Lt(k, s[i].key)) {
      LtTotal(s[i].key, k);
      if Lt(s[i].key, k) && r < i { LtTransitive(s[r].key, s[i].key, k); }
    }
  }

  lemma WithSorted(s: seq<Leaf>, k: Key, v: Cid)
    requires Sorted(s) && !Has(s, k)
    ensures Sorted(With(s, k, v))
  {
    var r, w := Rank(s, k), With(s, k, v);
    RankSpec(s, k);
    RankParts(s, k);
    HasIsHeld(s, k);
    hide Lt;
    forall i, j | 0 <= i < j < |w| ensures Lt(w[i].key, w[j].key) {
      if j > r {
        assert w[j] == s[j - 1];
        assert s[j - 1].key in Held(s);
      }
      if i > r { assert w[i] == s[i - 1]; }
    }
  }

  lemma {:induction false} WithContents(s: seq<Leaf>, k: Key, v: Cid)
    requires !Has(s, k)
    ensures Contents(With(s, k, v)) == Contents(s)[k := v]
  {
    var w := With(s, k, v);
    if Rank(s, k) == 0 {
      assert w == [Leaf(k, v)] + s && w[1..] == s;
    } else {
      assert w[1..] == With(s[1..], k, v);
      WithContents(s[1..], k, v);
      LtIrreflexive(k);
    }
  }

  lemma ChangedSorted(s: seq<Leaf>, k: Key, v: Cid)
    requires Sorted(s) && Has(s, k)
    ensures Sorted(Changed(s, k, v))
  {
    assert forall i :: 0 <= i < |s| ==> Changed(s, k, v)[i].key == s[i].key;
  }

  lemma {:induction false} ChangedContents(s: seq<Leaf>, k: Key, v: Cid)
    requires Has(s, k)
    ensures Contents(Changed(s, k, v)) == Contents(s)[k := v]
  {
    var w := Changed(s, k, v);
    if Rank(s, k) == 0 {
      assert w[1..] == s[1..];
    } else {
      assert w[1..] == Changed(s[1..], k, v);
      ChangedContents(s[1..], k, v);
      LtIrreflexive(k);
    }
  }

  lemma WithoutSorted(s: seq<Leaf>, k: Key)
    requires Sorted(s) && Has(s, k)
    ensures Sorted(Without(s, k))
  {
    var r, w := Rank(s, k), Without(s, k);
    assert forall i :: 0 <= i < r ==> w[i] == s[i];
    assert forall i :: r <= i < |w| ==> w[i] == s[i + 1];
  }

  lemma FirstAbsent(s: seq<Leaf>)
    requires Sorted(s) && s != []
    ensures s[0].key !in Contents(s[1..])
  {
    hide Lt, Contents;
    ContentsKeys(s[1..]);
    LtIrreflexive(s[0].key);
    forall i | 0 <= i < |s[1..]| ensures s[1..][i].key != s[0].key {
      assert s[1..][i] == s[i + 1] && Lt(s[0].key, s[i + 1].key);
    }
  }

  lemma HeadContents(s: seq<Leaf>)
    requires Sorted(s) && s != []
    ensures Contents(s[1..]) == Contents(s) - {s[0].key}
  {
    hide Sorted;
    FirstAbsent(s);
    var t := Contents(s[1..]);
    assert Contents(s) == t[s[0].key := s[0].value];
    hide Contents;
  }

  lemma RankTail(s: seq<Leaf>, k: Key)
    requires Rank(s, k) > 0
    ensures s != [] && Lt(s[0].key, k) && Rank(s[1..], k) == Rank(s, k) - 1
  {
  }

  lemma CutTail(s: seq<Leaf>, r: nat)
    requires 0 < r < |s|
    ensures s[..r] + s[r + 1..] == [s[0]] + (s[1..][..r - 1] + s[1..][r..])
  {
  }

  lemma WithoutTail(s: seq<Leaf>, k: Key)
    requires Has(s, k) && Rank(s, k) > 0
    ensures Has(s[1..], k) && s[0].key != k
    ensures Without(s, k) == [s[0]] + Without(s[1..], k)
  {
    hide Lt, Rank;
    RankTail(s, k);
    LtIrreflexive(k);
    CutTail(s, Rank(s, k));
  }

  lemma {:induction false} WithoutContents(s: seq<Leaf>, k: Key)
    requires Sorted(s) && Has(s, k)
    ensures Contents(Without(s, k)) == Contents(s) - {k}
  {
    hide Lt, Contents;
    if Rank(s, k) == 0 {
      assert Without(s, k) == s[1..];
      HeadContents(s);
    } else {
      WithoutTail(s, k);
      WithoutContents(s[1..], k);
      hide Without;
      ContentsOn(s[0], Without(s[1..], k));
      ContentsOn(s[0], s[1..]);
      assert [s[0]] + s[1..] == s;
    }
  }

  lemma ContentsOn(x: Leaf, s: seq<Leaf>)
    ensures Contents([x] + s) == Contents(s)[x.key := x.value]
  {
    assert ([x] + s)[1..] == s;
  }

  // ---- Finding a key ----

  /** The index of the first leaf whose key is not below `k`, or the length. */
  function IndexOf(es: seq<Entry>, k: Key): (i: nat)
    ensures i <= |es|
    ensures i < |es| ==> es[i].L?
  {
    if es == [] || (es[0].L? && !Lt(es[0].leaf.key, k)) then 0
    else 1 + IndexOf(es[1..], k)
  }

  lemma {:induction false} IndexSpec(es: seq<Entry>, k: Key)
    ensures IndexOf(es, k) < |es| ==> !Lt(es[IndexOf(es, k)].leaf.key, k)
    ensures forall j :: 0 <= j < IndexOf(es, k) ==> es[j].T? || Lt(es[j].leaf.key, k)
  {
    if es != [] && !(es[0].L? && !Lt(es[0].leaf.key, k)) { IndexSpec(es[1..], k); }
  }

  /** Whether a subtree sits just left of an index, where a key the node does
      not hold itself would be. */
  predicate Under(es: seq<Entry>, i: nat)
    requires i <= |es|
  {
    i > 0 && es[i - 1].T?
  }

  /** How far the entries wholly below the key run. */
  function Low(es: seq<Entry>, k: Key): (i: nat)
    ensures i <= IndexOf(es, k) <= |es|
    ensures i == IndexOf(es, k) || (i == IndexOf(es, k) - 1 && es[i].T?)
  {
    var i := IndexOf(es, k);
    if Under(es, i) then i - 1 else i
  }

  /** What the entries either side of the index hold, against the key. */
  lemma AroundIndex(es: seq<Entry>, k: Key)
    requires NoneAdjacent(es) && Sorted(Leaves(es))
    ensures AllBelow(Leaves(es[..Low(es, k)]), k)
    ensures NoneBelow(Leaves(es[IndexOf(es, k)..]), k)
    ensures Leaves(es) == Leaves(es[..Low(es, k)]) + Leaves(es[Low(es, k)..IndexOf(es, k)])
                          + Leaves(es[IndexOf(es, k)..])
  {
    var i, lo := IndexOf(es, k), Low(es, k);
    IndexSpec(es, k);
    Three(es, lo, i);
    hide Lt, Sorted, Leaves;
    if lo > 0 {
      assert forall j :: 0 <= j < |es| - 1 ==> es[j].L? || es[j + 1].L?;
      LastBelow(es[..lo], k);
    }
    if i < |es| {
      assert es[i..][0] == es[i];
      FirstAbove(es[i..], k);
    }
  }

  lemma LeavesSplit(es: seq<Entry>, i: nat)
    requires i <= |es|
    ensures Leaves(es) == Leaves(es[..i]) + Leaves(es[i..])
  {
    hide Leaves;
    LeavesConcat(es[..i], es[i..]);
    assert es == es[..i] + es[i..];
  }

  lemma Three(es: seq<Entry>, lo: nat, hi: nat)
    requires lo <= hi <= |es|
    ensures Leaves(es) == Leaves(es[..lo]) + Leaves(es[lo..hi]) + Leaves(es[hi..])
    ensures Sorted(Leaves(es)) ==>
              Sorted(Leaves(es[..lo])) && Sorted(Leaves(es[lo..hi])) && Sorted(Leaves(es[hi..]))
  {
    hide Leaves, Sorted;
    LeavesSplit(es, hi);
    LeavesSplit(es[..hi], lo);
    assert es[..hi][..lo] == es[..lo] && es[..hi][lo..] == es[lo..hi];
    SortedParts(Leaves(es[..lo]), Leaves(es[lo..hi]), Leaves(es[hi..]));
  }

  lemma SortedParts(a: seq<Leaf>, b: seq<Leaf>, c: seq<Leaf>)
    ensures Sorted(a + b + c) ==> Sorted(a) && Sorted(b) && Sorted(c)
  {
    var s := a + b + c;
    if Sorted(s) {
      assert s[..|a|] == a && s[|a|..|a| + |b|] == b && s[|a| + |b|..] == c;
    }
  }

  lemma LastBelow(es: seq<Entry>, k: Key)
    requires es != [] && es[|es| - 1].L? && Lt(es[|es| - 1].leaf.key, k)
    requires Sorted(Leaves(es))
    ensures AllBelow(Leaves(es), k)
  {
    LeavesAround(es, |es| - 1);
    var s := Leaves(es);
    hide Lt;
    assert s[|s| - 1] == es[|es| - 1].leaf;
    forall i | 0 <= i < |s| - 1 ensures Lt(s[i].key, k) {
      LtTransitive(s[i].key, s[|s| - 1].key, k);
    }
  }

  lemma FirstAbove(es: seq<Entry>, k: Key)
    requires es != [] && es[0].L? && !Lt(es[0].leaf.key, k)
    requires Sorted(Leaves(es))
    ensures NoneBelow(Leaves(es), k)
  {
    var s := Leaves(es);
    assert EntryLeaves(es[0]) == [es[0].leaf];
    forall i | 0 < i < |s| ensures !Lt(s[i].key, k) {
      if Lt(s[i].key, k) { LtTransitive(s[0].key, s[i].key, k); }
    }
  }

  /** The record at a key, or nothing. */
  function Lookup(es: seq<Entry>, k: Key): Option<Cid>
    decreases Node(es)
  {
    var i := IndexOf(es, k);
    if i < |es| && es[i].leaf.key == k then Some(es[i].leaf.value)
    else if Under(es, i) then Lookup(es[i - 1].sub.entries, k)
    else None
  }

  /** What the node holds in the subtree a key falls under, if any. */
  function Inner(es: seq<Entry>, k: Key): seq<Entry> {
    if Under(es, IndexOf(es, k)) then es[IndexOf(es, k) - 1].sub.entries else []
  }

  /** Whether the node itself is where the key is. */
  predicate Here(es: seq<Entry>, k: Key) {
    IndexOf(es, k) < |es| && es[IndexOf(es, k)].leaf.key == k
  }

  /** A node about a key: what is wholly below it, what the key falls inside,
      and what is at or above it. */
  lemma About(es: seq<Entry>, n: nat, k: Key) returns (a: seq<Leaf>, m: seq<Leaf>, c: seq<Leaf>)
    requires Fits(es, n) && Sorted(Leaves(es))
    ensures a == Leaves(es[..Low(es, k)]) && m == Leaves(Inner(es, k)) && c == Leaves(es[IndexOf(es, k)..])
    ensures Leaves(es) == a + m + c && AllBelow(a, k) && NoneBelow(c, k) && Sorted(m)
    ensures Fits(es[..Low(es, k)], n) && Fits(es[IndexOf(es, k)..], n)
    ensures Low(es, k) == 0 || es[Low(es, k) - 1].L?
    ensures Under(es, IndexOf(es, k)) ==> n > 0 && Inner(es, k) != [] && Fits(Inner(es, k), n - 1)
  {
    var i, lo := IndexOf(es, k), Low(es, k);
    assert forall j :: 0 <= j < |es| - 1 ==> es[j].L? || es[j + 1].L?;
    FitsSlice(es, n, 0, lo);
    FitsSlice(es, n, i, |es|);
    if Under(es, i) { assert FitsEntry(es[i - 1], n); }
    hide Fits, FitsEntry, Lt, IndexOf;
    AroundIndex(es, k);
    MiddleLeaves(es, k);
    Three(es, lo, i);
    a, m, c := Leaves(es[..lo]), Leaves(Inner(es, k)), Leaves(es[i..]);
  }

  lemma BelowIndex(es: seq<Entry>, k: Key)
    ensures Leaves(es[..IndexOf(es, k)]) == Leaves(es[..Low(es, k)]) + Leaves(Inner(es, k))
  {
    var i, lo := IndexOf(es, k), Low(es, k);
    MiddleLeaves(es, k);
    assert es[..i] == es[..lo] + es[lo..i];
    LeavesConcat(es[..lo], es[lo..i]);
  }

  lemma MiddleLeaves(es: seq<Entry>, k: Key)
    ensures Leaves(es[Low(es, k)..IndexOf(es, k)]) == Leaves(Inner(es, k))
  {
    var i := IndexOf(es, k);
    if Under(es, i) {
      assert es[i - 1..i] == [es[i - 1]];
      LeavesOne(es[i - 1]);
    }
  }

  /** Where the key ranks, from those three. */
  lemma RankAbout(es: seq<Entry>, n: nat, k: Key, a: seq<Leaf>, m: seq<Leaf>, c: seq<Leaf>)
    requires Sorted(Leaves(es))
    requires c == Leaves(es[IndexOf(es, k)..]) && Leaves(es) == a + m + c
    requires AllBelow(a, k) && NoneBelow(c, k)
    ensures var s := Leaves(es);
            if Here(es, k) then
              Rank(s, k) == |a + m| && Has(s, k) && s[Rank(s, k)] == es[IndexOf(es, k)].leaf
            else
              && Rank(s, k) == |a| + Rank(m, k)
              && (Has(s, k) <==> Has(m, k))
              && (Has(s, k) ==> s[Rank(s, k)] == m[Rank(m, k)])
  {
    var i := IndexOf(es, k);
    RankMiddle(a, m, c, k);
    LtIrreflexive(k);
    hide Lt, IndexOf, AllBelow, NoneBelow;
    if i < |es| {
      assert es[i..][0] == es[i];
      assert EntryLeaves(es[i]) == [es[i].leaf];
      assert Leaves(es)[|a| + |m|] == c[0] == es[i].leaf;
      if Here(es, k) { RankIs(Leaves(es), k, |a| + |m|); }
    } else {
      assert c == [];
    }
  }

  /** Map refinement for reading: on a well-formed tree a lookup answers what
      the records say. */
  lemma LookupIsContents(es: seq<Entry>, n: nat, k: Key)
    requires Fits(es, n) && Sorted(Leaves(es))
    ensures Lookup(es, k).Some? <==> k in Contents(Leaves(es))
    ensures Lookup(es, k).Some? ==> Lookup(es, k).value == Contents(Leaves(es))[k]
  {
    LookupAtRank(es, n, k);
    HasIsHeld(Leaves(es), k);
    ContentsKeys(Leaves(es));
    if Has(Leaves(es), k) { ContentsAt(Leaves(es), Rank(Leaves(es), k)); }
  }

  lemma {:induction false} LookupAtRank(es: seq<Entry>, n: nat, k: Key)
    requires Fits(es, n) && Sorted(Leaves(es))
    ensures var s := Leaves(es);
            Lookup(es, k) == if Has(s, k) then Some(s[Rank(s, k)].value) else None
    decreases n
  {
    var a, m, c := About(es, n, k);
    RankAbout(es, n, k, a, m, c);
    hide Fits, Sorted, Rank, Leaves, Lt, IndexOf, AllBelow, NoneBelow;
    LeavesEmpty();
    assert Rank([], k) <= 0;
    if !Here(es, k) && Under(es, IndexOf(es, k)) {
      LookupAtRank(Inner(es, k), n - 1, k);
    }
  }

  // ---- Splitting and joining ----

  /** A subtree entry, where there is anything to put in one. */
  function Opt(es: seq<Entry>): seq<Entry> {
    if es == [] then [] else [T(Node(es))]
  }

  /** The two halves of a node about a key it does not hold, recurring where
      the cut is inside a subtree. */
  function Split(es: seq<Entry>, k: Key): (seq<Entry>, seq<Entry>)
    decreases Node(es)
  {
    var i := IndexOf(es, k);
    if Under(es, i) then
      var (below, above) := Split(es[i - 1].sub.entries, k);
      (es[..i - 1] + Opt(below), Opt(above) + es[i..])
    else (es[..i], es[i..])
  }

  lemma OptFits(es: seq<Entry>, n: nat)
    requires Fits(es, n)
    ensures Fits(Opt(es), n + 1) && Leaves(Opt(es)) == Leaves(es) && |Opt(es)| == (if es == [] then 0 else 1)
  {
    if es != [] {
      assert FitsEntry(T(Node(es)), n + 1);
      LeavesOne(T(Node(es)));
    }
  }

  /** Two fitting runs joined hold what both held. */
  lemma Joined(a: seq<Entry>, b: seq<Entry>, n: nat)
    requires Fits(a, n) && Fits(b, n)
    requires a == [] || b == [] || a[|a| - 1].L? || b[0].L?
    ensures Fits(a + b, n) && Leaves(a + b) == Leaves(a) + Leaves(b)
  {
    FitsJoin(a, b, n);
    LeavesConcat(a, b);
  }

  /** What a cut should leave either side, from the records. */
  ghost predicate Cuts(s: seq<Leaf>, n: nat, k: Key, halves: (seq<Entry>, seq<Entry>)) {
    && Fits(halves.0, n) && Fits(halves.1, n)
    && Leaves(halves.0) == s[..Rank(s, k)] && Leaves(halves.1) == s[Rank(s, k)..]
  }

  /** A cut keeps every record, on the side its key says, and leaves both
      halves in shape. */
  lemma {:induction false} SplitCuts(es: seq<Entry>, n: nat, k: Key)
    requires Fits(es, n) && Sorted(Leaves(es)) && !Has(Leaves(es), k)
    ensures Cuts(Leaves(es), n, k, Split(es, k))
    decreases n
  {
    hide Fits, Sorted, Leaves, Split, Cuts, IndexOf, Inner, Under, AllBelow, NoneBelow, Has, Rank, Lt;
    var a, m, c := About(es, n, k);
    RankAbout(es, n, k, a, m, c);
    if Under(es, IndexOf(es, k)) {
      SplitCuts(Inner(es, k), n - 1, k);
      SplitUnder(es, n, k, a, m, c);
    } else {
      SplitBetween(es, n, k, a, m, c);
    }
  }

  lemma SplitBetween(es: seq<Entry>, n: nat, k: Key, a: seq<Leaf>, m: seq<Leaf>, c: seq<Leaf>)
    requires !Under(es, IndexOf(es, k)) && Fits(es[..Low(es, k)], n) && Fits(es[IndexOf(es, k)..], n)
    requires a == Leaves(es[..Low(es, k)]) && m == Leaves(Inner(es, k)) && c == Leaves(es[IndexOf(es, k)..])
    requires Leaves(es) == a + m + c && Rank(Leaves(es), k) == |a| + Rank(m, k)
    ensures Cuts(Leaves(es), n, k, Split(es, k))
  {
    assert Split(es, k) == (es[..IndexOf(es, k)], es[IndexOf(es, k)..]);
    LeavesEmpty();
    hide Fits, Leaves, IndexOf, Split;
    CutMiddle(a, m, c, Rank(m, k));
  }

  lemma SplitIs(es: seq<Entry>, k: Key)
    requires Under(es, IndexOf(es, k))
    ensures var (below, above) := Split(Inner(es, k), k);
            Split(es, k) == (es[..Low(es, k)] + Opt(below), Opt(above) + es[IndexOf(es, k)..])
  {
  }

  lemma SplitUnder(es: seq<Entry>, n: nat, k: Key, a: seq<Leaf>, m: seq<Leaf>, c: seq<Leaf>)
    requires Under(es, IndexOf(es, k)) && n > 0 && Fits(es[..Low(es, k)], n) && Fits(es[IndexOf(es, k)..], n)
    requires Low(es, k) == 0 || es[Low(es, k) - 1].L?
    requires a == Leaves(es[..Low(es, k)]) && m == Leaves(Inner(es, k)) && c == Leaves(es[IndexOf(es, k)..])
    requires Leaves(es) == a + m + c && Rank(Leaves(es), k) == |a| + Rank(m, k)
    requires Cuts(m, n - 1, k, Split(Inner(es, k), k))
    ensures Cuts(Leaves(es), n, k, Split(es, k))
  {
    hide Fits, Leaves, IndexOf, Split, Low, Inner, Opt, Under, Rank;
    var i, lo := IndexOf(es, k), Low(es, k);
    var (below, above) := Split(Inner(es, k), k);
    SplitIs(es, k);
    OptFits(below, n - 1);
    OptFits(above, n - 1);
    Joined(es[..lo], Opt(below), n);
    Joined(Opt(above), es[i..], n);
    CutMiddle(a, m, c, Rank(m, k));
  }

  /** A cut inside the middle of three runs. */
  lemma CutMiddle(a: seq<Leaf>, m: seq<Leaf>, c: seq<Leaf>, r: nat)
    requires r <= |m|
    ensures (a + m + c)[..|a| + r] == a + m[..r]
    ensures (a + m + c)[|a| + r..] == m[r..] + c
  {
  }

  /** Raises a node by wrapping it in lone pointers. */
  function Lift(es: seq<Entry>, levels: nat): seq<Entry> {
    if levels == 0 then es else Opt(Lift(es, levels - 1))
  }

  lemma {:induction false} LiftFits(es: seq<Entry>, n: nat, levels: nat)
    requires Fits(es, n)
    ensures Fits(Lift(es, levels), n + levels) && Leaves(Lift(es, levels)) == Leaves(es)
    ensures Lift(es, levels) == [] <==> es == []
  {
    if levels > 0 {
      LiftFits(es, n, levels - 1);
      OptFits(Lift(es, levels - 1), n + levels - 1);
    }
  }

  /** Joins two nodes of one layer, merging the subtrees that meet. */
  function Merge(a: seq<Entry>, b: seq<Entry>): seq<Entry>
    decreases Node(a)
  {
    if a != [] && b != [] && a[|a| - 1].T? && b[0].T? then
      a[..|a| - 1] + [T(Node(Merge(a[|a| - 1].sub.entries, b[0].sub.entries)))] + b[1..]
    else a + b
  }

  lemma LeafBefore(es: seq<Entry>, i: nat)
    requires NoneAdjacent(es) && i + 1 < |es| && es[i + 1].T?
    ensures es[i].L?
  {
  }

  lemma LastEntry(a: seq<Entry>, n: nat)
    requires Fits(a, n) && a != [] && a[|a| - 1].T?
    ensures var sub := a[|a| - 1].sub.entries; var front := a[..|a| - 1];
            && n > 0 && sub != [] && Fits(sub, n - 1) && Fits(front, n)
            && (front == [] || front[|front| - 1].L?)
            && Leaves(a) == Leaves(front) + Leaves(sub)
  {
    var last := |a| - 1;
    assert FitsEntry(a[last], n);
    FitsSlice(a, n, 0, last);
    if last > 0 { LeafBefore(a, last - 1); }
    LeavesAround(a, last);
    assert Leaves(a[last + 1..]) == [];
  }

  lemma FirstEntry(b: seq<Entry>, n: nat)
    requires Fits(b, n) && b != [] && b[0].T?
    ensures var sub := b[0].sub.entries; var rest := b[1..];
            && n > 0 && sub != [] && Fits(sub, n - 1) && Fits(rest, n)
            && (rest == [] || rest[0].L?)
            && Leaves(b) == Leaves(sub) + Leaves(rest)
  {
    assert FitsEntry(b[0], n);
    FitsSlice(b, n, 1, |b|);
    assert |b| > 1 ==> b[0].L? || b[1].L?;
  }

  predicate Meet(a: seq<Entry>, b: seq<Entry>) {
    a != [] && b != [] && a[|a| - 1].T? && b[0].T?
  }

  lemma MergeIs(a: seq<Entry>, b: seq<Entry>)
    ensures !Meet(a, b) ==> Merge(a, b) == a + b
    ensures Meet(a, b) ==>
              var inner := Merge(a[|a| - 1].sub.entries, b[0].sub.entries);
              inner != [] ==> Merge(a, b) == (a[..|a| - 1] + Opt(inner)) + b[1..]
  {
  }

  lemma {:induction false} MergeJoins(a: seq<Entry>, b: seq<Entry>, n: nat)
    requires Fits(a, n) && Fits(b, n)
    ensures Fits(Merge(a, b), n) && Leaves(Merge(a, b)) == Leaves(a) + Leaves(b)
    ensures a != [] || b != [] ==> Merge(a, b) != []
    decreases n
  {
    hide Fits, FitsEntry, Leaves, Merge, Opt;
    MergeIs(a, b);
    if Meet(a, b) {
      LastEntry(a, n);
      FirstEntry(b, n);
      var x, y := a[|a| - 1].sub.entries, b[0].sub.entries;
      MergeJoins(x, y, n - 1);
      OptFits(Merge(x, y), n - 1);
      MeetingJoin(a[..|a| - 1], Opt(Merge(x, y)), b[1..], n);
    } else {
      Joined(a, b, n);
    }
  }

  lemma MeetingJoin(a: seq<Entry>, m: seq<Entry>, c: seq<Entry>, n: nat)
    requires Fits(a, n) && Fits(m, n) && Fits(c, n) && |m| == 1
    requires (a == [] || a[|a| - 1].L?) && (c == [] || c[0].L?)
    ensures Fits(a + m + c, n) && Leaves(a + m + c) == Leaves(a) + (Leaves(m) + Leaves(c)) && a + m + c != []
  {
    hide Fits, Leaves;
    Joined(a, m, n);
    Joined(a + m, c, n);
  }

  // ---- Adding ----

  function Max(a: nat, b: nat): (m: nat)
    ensures m >= a && m >= b && (m == a || m == b)
  {
    if a < b then b else a
  }

  /** Adds a key whose hash puts it on layer `z` to a node taken to be on layer
      `n`. */
  function Insert(es: seq<Entry>, n: nat, k: Key, v: Cid, z: nat): Result<seq<Entry>>
    decreases n
  {
    if z > n then
      var (l, r) := Split(es, k);
      Ok(Opt(Lift(l, z - n - 1)) + [L(Leaf(k, v))] + Opt(Lift(r, z - n - 1)))
    else if z < n then
      match Insert(Inner(es, k), n - 1, k, v, z)
      case Ok(grown) => Ok(es[..Low(es, k)] + [T(Node(grown))] + es[IndexOf(es, k)..])
      case Err(e) => Err(e)
    else if Here(es, k) then Err(KeyExists(k))
    else
      var (l, r) := Split(Inner(es, k), k);
      Ok(es[..Low(es, k)] + (Opt(l) + [L(Leaf(k, v))] + Opt(r)) + es[IndexOf(es, k)..])
  }

  /** Three runs about a key, put back with the middle changed. */
  lemma Spliced(es: seq<Entry>, n: nat, k: Key, mid: seq<Entry>)
    requires Fits(es[..Low(es, k)], n) && Fits(es[IndexOf(es, k)..], n) && Fits(mid, n)
    requires Low(es, k) == 0 || es[Low(es, k) - 1].L?
    ensures Fits(es[..Low(es, k)] + mid + es[IndexOf(es, k)..], n)
    ensures Leaves(es[..Low(es, k)] + mid + es[IndexOf(es, k)..]) ==
            Leaves(es[..Low(es, k)]) + Leaves(mid) + Leaves(es[IndexOf(es, k)..])
  {
    hide Fits, Leaves;
    Joined(es[..Low(es, k)], mid, n);
    Joined(es[..Low(es, k)] + mid, es[IndexOf(es, k)..], n);
  }

  lemma WithMiddle(a: seq<Leaf>, m: seq<Leaf>, c: seq<Leaf>, k: Key, v: Cid)
    requires AllBelow(a, k) && NoneBelow(c, k)
    ensures With(a + m + c, k, v) == a + With(m, k, v) + c
  {
    hide Rank, AllBelow, NoneBelow, Lt, Has;
    RankMiddle(a, m, c, k);
    CutMiddle(a, m, c, Rank(m, k));
    Regroup(a, m[..Rank(m, k)], [Leaf(k, v)], m[Rank(m, k)..], c);
  }

  lemma Regroup(a: seq<Leaf>, p: seq<Leaf>, x: seq<Leaf>, q: seq<Leaf>, c: seq<Leaf>)
    ensures (a + p) + x + (q + c) == a + (p + x + q) + c
  {
  }

  lemma NotHeldAbove(es: seq<Entry>, n: nat, k: Key)
    requires Fits(es, n) && LayerOf(k) > n
    ensures !Has(Leaves(es), k)
  {
    FittingLeaves(es, n);
  }

  lemma Beside(a: seq<Entry>, c: seq<Entry>, n: nat, k: Key, v: Cid)
    requires Fits(a, n) && Fits(c, n) && LayerOf(k) == n
    ensures Fits(a + [L(Leaf(k, v))] + c, n)
    ensures Leaves(a + [L(Leaf(k, v))] + c) == Leaves(a) + [Leaf(k, v)] + Leaves(c)
  {
    var e := L(Leaf(k, v));
    assert FitsEntry(e, n);
    LeavesOne(e);
    assert EntryLeaves(e) == [Leaf(k, v)];
    hide Leaves;
    Joined(a, [e], n);
    Joined(a + [e], c, n);
  }

  /** The halves of a node either side of a key that outranks it. */
  lemma Halves(es: seq<Entry>, n: nat, k: Key, v: Cid, z: nat)
    requires Fits(es, n) && Sorted(Leaves(es)) && z == LayerOf(k) > n
    ensures !Has(Leaves(es), k)
    ensures var (l, r) := Split(es, k);
            var node := Opt(Lift(l, z - n - 1)) + [L(Leaf(k, v))] + Opt(Lift(r, z - n - 1));
            Fits(node, z) && Leaves(node) == With(Leaves(es), k, v)
  {
    hide Fits, Leaves, Sorted, Rank, Split, LayerOf, Lift, Opt;
    NotHeldAbove(es, n, k);
    SplitCuts(es, n, k);
    var (l, r) := Split(es, k);
    LiftFits(l, n, z - n - 1);
    LiftFits(r, n, z - n - 1);
    OptFits(Lift(l, z - n - 1), z - 1);
    OptFits(Lift(r, z - n - 1), z - 1);
    Beside(Opt(Lift(l, z - n - 1)), Opt(Lift(r, z - n - 1)), z, k, v);
  }

  /** What adding should answer, from the records. */
  ghost predicate Adds(s: seq<Leaf>, n: nat, k: Key, v: Cid, r: Result<seq<Entry>>) {
    match r
    case Err(e) => e == KeyExists(k) && Has(s, k)
    case Ok(es) => !Has(s, k) && Fits(es, Max(n, LayerOf(k))) && Leaves(es) == With(s, k, v)
  }

  /** Adding fails exactly where the key is held, and otherwise puts the record
      in its place, in shape, whatever has to be split on the way. */
  lemma {:induction false} InsertAdds(es: seq<Entry>, n: nat, k: Key, v: Cid)
    requires Fits(es, n) && Sorted(Leaves(es))
    ensures Adds(Leaves(es), n, k, v, Insert(es, n, k, v, LayerOf(k)))
    decreases n
  {
    hide Fits, Sorted, Leaves, Insert, Adds, LayerOf, Inner, IndexOf, Under;
    if LayerOf(k) > n {
      InsertOver(es, n, k, v);
    } else if LayerOf(k) < n {
      InnerFits(es, n, k);
      InsertAdds(Inner(es, k), n - 1, k, v);
      InsertUnder(es, n, k, v);
    } else {
      InsertLevel(es, n, k, v);
    }
  }

  lemma InnerFits(es: seq<Entry>, n: nat, k: Key)
    requires Fits(es, n) && Sorted(Leaves(es)) && n > 0
    ensures Fits(Inner(es, k), n - 1) && Sorted(Leaves(Inner(es, k)))
    ensures Here(es, k) ==> LayerOf(k) == n
  {
    var a, m, c := About(es, n, k);
    if Here(es, k) { assert FitsEntry(es[IndexOf(es, k)], n); }
  }

  lemma InsertOver(es: seq<Entry>, n: nat, k: Key, v: Cid)
    requires Fits(es, n) && Sorted(Leaves(es)) && LayerOf(k) > n
    ensures Adds(Leaves(es), n, k, v, Insert(es, n, k, v, LayerOf(k)))
  {
    Halves(es, n, k, v, LayerOf(k));
    hide Fits, Sorted, Leaves, LayerOf, Split, Lift, Opt, With, Has;
  }

  lemma InsertUnder(es: seq<Entry>, n: nat, k: Key, v: Cid)
    requires Fits(es, n) && Sorted(Leaves(es)) && LayerOf(k) < n
    requires Adds(Leaves(Inner(es, k)), n - 1, k, v, Insert(Inner(es, k), n - 1, k, v, LayerOf(k)))
    ensures Adds(Leaves(es), n, k, v, Insert(es, n, k, v, LayerOf(k)))
  {
    hide Fits, Sorted, Leaves, LayerOf, Inner, IndexOf, Under, Low, Here, Has, With, Rank, AllBelow, NoneBelow, Opt;
    var a, m, c := About(es, n, k);
    RankAbout(es, n, k, a, m, c);
    WithMiddle(a, m, c, k, v);
    InnerFits(es, n, k);
    InsertIs(es, n, k, v);
    var inner := Insert(Inner(es, k), n - 1, k, v, LayerOf(k));
    hide Insert;
    if inner.Ok? {
      WithHolds(m, k, v);
      LeavesEmpty();
      OptFits(inner.value, n - 1);
      Spliced(es, n, k, Opt(inner.value));
    }
  }

  lemma WithHolds(s: seq<Leaf>, k: Key, v: Cid)
    ensures With(s, k, v) != []
  {
  }

  lemma InsertIs(es: seq<Entry>, n: nat, k: Key, v: Cid)
    requires LayerOf(k) < n
    ensures var inner := Insert(Inner(es, k), n - 1, k, v, LayerOf(k)); var r := Insert(es, n, k, v, LayerOf(k));
            && (inner.Err? ==> r == Err(inner.error))
            && (inner.Ok? && inner.value != [] ==> r == Ok(es[..Low(es, k)] + Opt(inner.value) + es[IndexOf(es, k)..]))
  {
  }

  lemma InsertLevel(es: seq<Entry>, n: nat, k: Key, v: Cid)
    requires Fits(es, n) && Sorted(Leaves(es)) && LayerOf(k) == n
    ensures Adds(Leaves(es), n, k, v, Insert(es, n, k, v, LayerOf(k)))
  {
    var r := Insert(es, n, k, v, n);
    assert if Here(es, k) then r == Err(KeyExists(k))
           else r == Ok(es[..Low(es, k)] + Middle(es, k, v) + es[IndexOf(es, k)..]);
    hide Insert, Fits, Sorted, Leaves, LayerOf, Inner, IndexOf, Under, Low, Here, Has, With, Rank, AllBelow,
         NoneBelow, Middle;
    var a, m, c := About(es, n, k);
    RankAbout(es, n, k, a, m, c);
    if !Here(es, k) {
      WithMiddle(a, m, c, k, v);
      InsertHere(es, n, k, v);
      Spliced(es, n, k, Middle(es, k, v));
    }
  }

  /** What goes between the entries below a key and those above it. */
  function Middle(es: seq<Entry>, k: Key, v: Cid): seq<Entry> {
    var (l, r) := Split(Inner(es, k), k);
    Opt(l) + [L(Leaf(k, v))] + Opt(r)
  }

  lemma InsertHere(es: seq<Entry>, n: nat, k: Key, v: Cid)
    requires LayerOf(k) == n && Sorted(Leaves(Inner(es, k)))
    requires Under(es, IndexOf(es, k)) ==> n > 0 && Fits(Inner(es, k), n - 1)
    ensures !Has(Leaves(Inner(es, k)), k)
    ensures Fits(Middle(es, k, v), n) && Leaves(Middle(es, k, v)) == With(Leaves(Inner(es, k)), k, v)
  {
    var inner := Inner(es, k);
    var (l, r) := Split(inner, k);
    hide IndexOf, Lt, Sorted;
    if Under(es, IndexOf(es, k)) {
      NotHeldAbove(inner, n - 1, k);
      SplitCuts(inner, n - 1, k);
      OptFits(l, n - 1);
      OptFits(r, n - 1);
    }
    Beside(Opt(l), Opt(r), n, k, v);
  }

  // ---- Changing and taking out ----

  /** The tree with one record's CID changed. */
  function Update(es: seq<Entry>, k: Key, v: Cid): Result<seq<Entry>>
    decreases Node(es)
  {
    var i := IndexOf(es, k);
    if i < |es| && es[i].leaf.key == k then Ok(es[i := L(Leaf(k, v))])
    else if Under(es, i) then
      match Update(es[i - 1].sub.entries, k, v)
      case Ok(inner) => Ok(es[..i - 1] + [T(Node(inner))] + es[i..])
      case Err(e) => Err(e)
    else Err(KeyMissing(k))
  }

  lemma ChangedMiddle(a: seq<Leaf>, m: seq<Leaf>, c: seq<Leaf>, k: Key, v: Cid)
    requires AllBelow(a, k) && NoneBelow(c, k) && Has(m, k)
    ensures Has(a + m + c, k)
    ensures Changed(a + m + c, k, v) == a + Changed(m, k, v) + c
  {
    RankMiddle(a, m, c, k);
  }

  /** What changing should answer, from the records. */
  ghost predicate Changes(s: seq<Leaf>, n: nat, k: Key, v: Cid, r: Result<seq<Entry>>) {
    match r
    case Err(e) => e == KeyMissing(k) && !Has(s, k)
    case Ok(es) => Has(s, k) && Fits(es, n) && Leaves(es) == Changed(s, k, v)
  }

  /** Changing fails exactly where the key is not held, and otherwise moves
      nothing but the one record. */
  lemma {:induction false} UpdateChanges(es: seq<Entry>, n: nat, k: Key, v: Cid)
    requires Fits(es, n) && Sorted(Leaves(es))
    ensures Changes(Leaves(es), n, k, v, Update(es, k, v))
    decreases n
  {
    hide Fits, Sorted, Leaves, Update, Changes, IndexOf, Inner, Here, Under, AllBelow, NoneBelow;
    var a, m, c := About(es, n, k);
    if Here(es, k) {
      UpdateFound(es, n, k, v, a, m, c);
    } else if Under(es, IndexOf(es, k)) {
      UpdateChanges(Inner(es, k), n - 1, k, v);
      UpdateUnder(es, n, k, v, a, m, c);
    } else {
      UpdateMissing(es, n, k, v, a, m, c);
    }
  }

  lemma UpdateFound(es: seq<Entry>, n: nat, k: Key, v: Cid, a: seq<Leaf>, m: seq<Leaf>, c: seq<Leaf>)
    requires Fits(es, n) && Sorted(Leaves(es)) && Here(es, k)
    requires a == Leaves(es[..Low(es, k)]) && m == Leaves(Inner(es, k)) && c == Leaves(es[IndexOf(es, k)..])
    requires Leaves(es) == a + m + c && AllBelow(a, k) && NoneBelow(c, k)
    ensures Changes(Leaves(es), n, k, v, Update(es, k, v))
  {
    var i := IndexOf(es, k);
    assert Update(es, k, v) == Ok(es[i := L(Leaf(k, v))]);
    hide Update, Fits, Sorted, Rank, IndexOf, Lt, AllBelow, NoneBelow, Leaves;
    RankAbout(es, n, k, a, m, c);
    BelowIndex(es, k);
    UpdateHere(es, n, i, v);
  }

  lemma UpdateMissing(es: seq<Entry>, n: nat, k: Key, v: Cid, a: seq<Leaf>, m: seq<Leaf>, c: seq<Leaf>)
    requires Sorted(Leaves(es)) && !Here(es, k) && !Under(es, IndexOf(es, k))
    requires m == Leaves(Inner(es, k)) && c == Leaves(es[IndexOf(es, k)..])
    requires Leaves(es) == a + m + c && AllBelow(a, k) && NoneBelow(c, k)
    ensures Changes(Leaves(es), n, k, v, Update(es, k, v))
  {
    assert Update(es, k, v) == Err(KeyMissing(k));
    hide Update, Sorted, Rank, IndexOf, Lt, AllBelow, NoneBelow, Leaves;
    RankAbout(es, n, k, a, m, c);
    LeavesEmpty();
  }

  lemma UpdateUnder(es: seq<Entry>, n: nat, k: Key, v: Cid, a: seq<Leaf>, m: seq<Leaf>, c: seq<Leaf>)
    requires Sorted(Leaves(es)) && !Here(es, k) && Under(es, IndexOf(es, k)) && n > 0
    requires Fits(es[..Low(es, k)], n) && Fits(es[IndexOf(es, k)..], n)
    requires Low(es, k) == 0 || es[Low(es, k) - 1].L?
    requires a == Leaves(es[..Low(es, k)]) && m == Leaves(Inner(es, k)) && c == Leaves(es[IndexOf(es, k)..])
    requires Leaves(es) == a + m + c && AllBelow(a, k) && NoneBelow(c, k)
    requires Changes(m, n - 1, k, v, Update(Inner(es, k), k, v))
    ensures Changes(Leaves(es), n, k, v, Update(es, k, v))
  {
    UpdateIs(es, k, v);
    hide Update, Fits, Sorted, Rank, IndexOf, Lt, AllBelow, NoneBelow, Leaves, Low, Opt, Inner, Here, Under;
    RankAbout(es, n, k, a, m, c);
    var inner := Update(Inner(es, k), k, v);
    if inner.Ok? {
      LeavesEmpty();
      OptFits(inner.value, n - 1);
      Spliced(es, n, k, Opt(inner.value));
      ChangedMiddle(a, m, c, k, v);
    }
  }

  lemma UpdateIs(es: seq<Entry>, k: Key, v: Cid)
    requires !Here(es, k) && Under(es, IndexOf(es, k))
    ensures var inner := Update(Inner(es, k), k, v); var r := Update(es, k, v);
            && (inner.Err? ==> r == Err(inner.error))
            && (inner.Ok? && inner.value != [] ==> r == Ok(es[..Low(es, k)] + Opt(inner.value) + es[IndexOf(es, k)..]))
  {
  }

  lemma UpdateHere(es: seq<Entry>, n: nat, i: nat, v: Cid)
    requires Fits(es, n) && i < |es| && es[i].L?
    ensures var es' := es[i := L(Leaf(es[i].leaf.key, v))]; var at := |Leaves(es[..i])|;
            && Fits(es', n) && at < |Leaves(es)|
            && Leaves(es') == Leaves(es)[at := Leaf(es[i].leaf.key, v)]
  {
    var e := L(Leaf(es[i].leaf.key, v));
    var es' := es[i := e];
    assert FitsEntry(es[i], n) && FitsEntry(e, n);
    assert forall j :: 0 <= j < |es| ==> es'[j].L? == es[j].L?;
    assert NoneAdjacent(es');
    LeavesAround(es, i);
    LeavesAround(es', i);
    assert es'[..i] == es[..i] && es'[i + 1..] == es[i + 1..];
    assert EntryLeaves(e) == [e.leaf] && EntryLeaves(es[i]) == [es[i].leaf];
  }

  /** Takes a record out. Where it stood between two subtrees they become one,
      and a subtree left with nothing in it goes. */
  function Delete(es: seq<Entry>, k: Key): Result<seq<Entry>>
    decreases Node(es)
  {
    var i := IndexOf(es, k);
    if i < |es| && es[i].leaf.key == k then Ok(Merge(es[..i], es[i + 1..]))
    else if Under(es, i) then
      match Delete(es[i - 1].sub.entries, k)
      case Ok(shrunk) => Ok(es[..i - 1] + Opt(shrunk) + es[i..])
      case Err(e) => Err(e)
    else Err(KeyMissing(k))
  }

  lemma WithoutMiddle(a: seq<Leaf>, m: seq<Leaf>, c: seq<Leaf>, k: Key)
    requires AllBelow(a, k) && NoneBelow(c, k) && Has(m, k)
    ensures Has(a + m + c, k)
    ensures Without(a + m + c, k) == a + Without(m, k) + c
  {
    hide Rank, AllBelow, NoneBelow, Lt;
    RankMiddle(a, m, c, k);
    CutMiddle(a, m, c, Rank(m, k));
    CutMiddle(a, m, c, Rank(m, k) + 1);
    Regroup(a, m[..Rank(m, k)], [], m[Rank(m, k) + 1..], c);
    NoLeaf(a + m[..Rank(m, k)]);
    NoLeaf(m[..Rank(m, k)]);
  }

  lemma NoLeaf(s: seq<Leaf>)
    ensures s + [] == s
  {
  }

  /** What taking out should answer, from the records. */
  ghost predicate Removes(s: seq<Leaf>, n: nat, k: Key, r: Result<seq<Entry>>) {
    match r
    case Err(e) => e == KeyMissing(k) && !Has(s, k)
    case Ok(es) => Has(s, k) && Fits(es, n) && Leaves(es) == Without(s, k)
  }

  /** Taking out fails exactly where the key is not held, and otherwise leaves
      every other record, in shape, through every merge. */
  lemma {:induction false} DeleteRemoves(es: seq<Entry>, n: nat, k: Key)
    requires Fits(es, n) && Sorted(Leaves(es))
    ensures Removes(Leaves(es), n, k, Delete(es, k))
    decreases n
  {
    hide Fits, Sorted, Leaves, Delete, Removes, IndexOf, Inner, Here, Under, AllBelow, NoneBelow;
    var a, m, c := About(es, n, k);
    if Here(es, k) {
      DeleteFound(es, n, k, a, m, c);
    } else if Under(es, IndexOf(es, k)) {
      DeleteRemoves(Inner(es, k), n - 1, k);
      DeleteUnder(es, n, k, a, m, c);
    } else {
      DeleteMissing(es, n, k, a, m, c);
    }
  }

  lemma DeleteFound(es: seq<Entry>, n: nat, k: Key, a: seq<Leaf>, m: seq<Leaf>, c: seq<Leaf>)
    requires Fits(es, n) && Sorted(Leaves(es)) && Here(es, k)
    requires a == Leaves(es[..Low(es, k)]) && m == Leaves(Inner(es, k)) && c == Leaves(es[IndexOf(es, k)..])
    requires Leaves(es) == a + m + c && AllBelow(a, k) && NoneBelow(c, k)
    ensures Removes(Leaves(es), n, k, Delete(es, k))
  {
    hide Delete, Fits, Sorted, Rank, IndexOf, Lt, AllBelow, NoneBelow, Leaves, Merge;
    FoundIs(es, k);
    RankAbout(es, n, k, a, m, c);
    BelowIndex(es, k);
    DeleteHere(es, n, IndexOf(es, k));
  }

  lemma FoundIs(es: seq<Entry>, k: Key)
    requires Here(es, k)
    ensures Delete(es, k) == Ok(Merge(es[..IndexOf(es, k)], es[IndexOf(es, k) + 1..]))
  {
    hide Merge, IndexOf;
  }

  lemma DeleteMissing(es: seq<Entry>, n: nat, k: Key, a: seq<Leaf>, m: seq<Leaf>, c: seq<Leaf>)
    requires Sorted(Leaves(es)) && !Here(es, k) && !Under(es, IndexOf(es, k))
    requires m == Leaves(Inner(es, k)) && c == Leaves(es[IndexOf(es, k)..])
    requires Leaves(es) == a + m + c && AllBelow(a, k) && NoneBelow(c, k)
    ensures Removes(Leaves(es), n, k, Delete(es, k))
  {
    assert Delete(es, k) == Err(KeyMissing(k));
    hide Delete, Sorted, Rank, IndexOf, Lt, AllBelow, NoneBelow, Leaves;
    RankAbout(es, n, k, a, m, c);
    LeavesEmpty();
  }

  lemma DeleteUnder(es: seq<Entry>, n: nat, k: Key, a: seq<Leaf>, m: seq<Leaf>, c: seq<Leaf>)
    requires Sorted(Leaves(es)) && !Here(es, k) && Under(es, IndexOf(es, k)) && n > 0
    requires Fits(es[..Low(es, k)], n) && Fits(es[IndexOf(es, k)..], n)
    requires Low(es, k) == 0 || es[Low(es, k) - 1].L?
    requires a == Leaves(es[..Low(es, k)]) && m == Leaves(Inner(es, k)) && c == Leaves(es[IndexOf(es, k)..])
    requires Leaves(es) == a + m + c && AllBelow(a, k) && NoneBelow(c, k)
    requires Removes(m, n - 1, k, Delete(Inner(es, k), k))
    ensures Removes(Leaves(es), n, k, Delete(es, k))
  {
    DeleteIs(es, k);
    hide Delete, Fits, Sorted, Rank, IndexOf, Lt, AllBelow, NoneBelow, Leaves, Low, Opt, Inner, Here, Under;
    RankAbout(es, n, k, a, m, c);
    var inner := Delete(Inner(es, k), k);
    if inner.Ok? {
      OptFits(inner.value, n - 1);
      Spliced(es, n, k, Opt(inner.value));
      WithoutMiddle(a, m, c, k);
    }
  }

  lemma DeleteIs(es: seq<Entry>, k: Key)
    requires !Here(es, k) && Under(es, IndexOf(es, k))
    ensures var inner := Delete(Inner(es, k), k); var r := Delete(es, k);
            && (inner.Err? ==> r == Err(inner.error))
            && (inner.Ok? ==> r == Ok(es[..Low(es, k)] + Opt(inner.value) + es[IndexOf(es, k)..]))
  {
  }

  lemma DeleteHere(es: seq<Entry>, n: nat, i: nat)
    requires Fits(es, n) && i < |es| && es[i].L?
    ensures Fits(Merge(es[..i], es[i + 1..]), n)
    ensures var at := |Leaves(es[..i])|;
            && at < |Leaves(es)| && Leaves(es)[..at] == Leaves(es[..i])
            && Leaves(Merge(es[..i], es[i + 1..])) == Leaves(es)[..at] + Leaves(es)[at + 1..]
  {
    FitsSlice(es, n, 0, i);
    FitsSlice(es, n, i + 1, |es|);
    MergeJoins(es[..i], es[i + 1..], n);
    LeavesAround(es, i);
    assert EntryLeaves(es[i]) == [es[i].leaf];
  }

  /** A tree without the tops that hold only one subtree. */
  function Trim(es: seq<Entry>): seq<Entry>
    decreases Node(es)
  {
    if |es| == 1 && es[0].T? then Trim(es[0].sub.entries) else es
  }

  /** Trimming keeps the records and leaves nothing above the highest leaf. */
  lemma {:induction false} TrimTops(es: seq<Entry>, n: nat) returns (top: nat)
    requires Fits(es, n)
    ensures top <= n && Fits(Trim(es), top) && Leaves(Trim(es)) == Leaves(es)
    ensures Trim(es) == [] || HoldsLeaf(Trim(es))
    ensures Trim(es) == [] <==> es == []
    decreases n
  {
    if |es| == 1 && es[0].T? {
      assert FitsEntry(es[0], n);
      assert es == [es[0]];
      LeavesOne(es[0]);
      top := TrimTops(es[0].sub.entries, n - 1);
    } else {
      top := n;
      if es != [] { assert es[0].L? || (|es| > 1 && es[1].L?); }
    }
  }
}
