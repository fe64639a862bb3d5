/** The Merkle search tree as a value: what a node holds, what makes it well
    formed, and why a set of records has only one tree. */
module Tree {
  import opened Data
  import opened Keys

  /** A key and the CID of its record. */
  datatype Leaf = Leaf(key: Key, value: Cid)

  datatype Entry = L(leaf: Leaf) | T(sub: Node)

  datatype Node = Node(entries: seq<Entry>)

  // ---- Leaves ----

  /** Every record under some entries, left to right. */
  function Leaves(es: seq<Entry>): seq<Leaf> {
    if es == [] then [] else EntryLeaves(es[0]) + Leaves(es[1..])
  }

  function EntryLeaves(e: Entry): seq<Leaf> {
    match e
    case L(leaf) => [leaf]
    case T(sub) => Leaves(sub.entries)
  }

  lemma {:induction false} LeavesConcat(a: seq<Entry>, b: seq<Entry>)
    ensures Leaves(a + b) == Leaves(a) + Leaves(b)
  {
    if a == [] {
      assert a + b == b;
    } else {
      assert (a + b)[0] == a[0] && (a + b)[1..] == a[1..] + b;
      LeavesConcat(a[1..], b);
    }
  }

  lemma LeavesEmpty()
    ensures Leaves([]) == []
  {
  }

  lemma LeavesOne(e: Entry)
    ensures Leaves([e]) == EntryLeaves(e)
  {
    assert [e][1..] == [];
  }

  lemma LeavesFrom(es: seq<Entry>, i: nat)
    requires i < |es|
    ensures Leaves(es[i..]) == EntryLeaves(es[i]) + Leaves(es[i + 1..])
  {
    assert es[i..][0] == es[i] && es[i..][1..] == es[i + 1..];
  }

  /** The leaves of a node cut into what is before an entry, the entry, and
      what is after it. */
  lemma LeavesAround(es: seq<Entry>, i: nat)
    requires i < |es|
    ensures Leaves(es) == Leaves(es[..i]) + EntryLeaves(es[i]) + Leaves(es[i + 1..])
  {
    hide Leaves, EntryLeaves;
    LeavesFrom(es, i);
    LeavesConcat(es[..i], es[i..]);
    assert es == es[..i] + es[i..];
  }

  /** Strictly increasing keys. */
  ghost predicate Sorted(s: seq<Leaf>) {
    forall i, j :: 0 <= i < j < |s| ==> Lt(s[i].key, s[j].key)
  }

  ghost predicate ValidKeys(s: seq<Leaf>) {
    forall i :: 0 <= i < |s| ==> ValidKey(s[i].key)
  }

  ghost function Held(s: seq<Leaf>): set<Key> {
    set i | 0 <= i < |s| :: s[i].key
  }

  // ---- Shape ----

  ghost predicate NoneAdjacent(es: seq<Entry>) {
    forall i :: 0 <= i < |es| - 1 ==> es[i].L? || es[i + 1].L?
  }

  /** Every leaf at the layer its key gives, every child one layer down and
      holding something, and no two children side by side. */
  ghost predicate Fits(es: seq<Entry>, n: nat)
    decreases n
  {
    && NoneAdjacent(es)
    && (forall i :: 0 <= i < |es| ==> FitsEntry(es[i], n))
  }

  ghost predicate FitsEntry(e: Entry, n: nat)
    decreases n, 0
  {
    match e
    case L(leaf) => LayerOf(leaf.key) == n
    case T(sub) => n > 0 && sub.entries != [] && Fits(sub.entries, n - 1)
  }

  lemma {:induction false} FittingLeaves(es: seq<Entry>, n: nat)
    requires Fits(es, n)
    ensures es != [] ==> Leaves(es) != []
    ensures forall i :: 0 <= i < |Leaves(es)| ==> LayerOf(Leaves(es)[i].key) <= n
    decreases n, |es|
  {
    if es != [] {
      assert FitsEntry(es[0], n);
      if es[0].T? { FittingLeaves(es[0].sub.entries, n - 1); }
      FittingLeaves(es[1..], n);
    }
  }

  lemma FitsSlice(es: seq<Entry>, n: nat, lo: nat, hi: nat)
    requires Fits(es, n) && lo <= hi <= |es|
    ensures Fits(es[lo..hi], n)
  {
    var s := es[lo..hi];
    forall i | 0 <= i < |s| - 1 ensures s[i].L? || s[i + 1].L? {
      assert s[i] == es[lo + i] && s[i + 1] == es[lo + i + 1];
    }
  }

  /** Two fitting runs join where the seam does not put two subtrees together. */
  lemma FitsJoin(a: seq<Entry>, b: seq<Entry>, n: nat)
    requires Fits(a, n) && Fits(b, n)
    requires a == [] || b == [] || a[|a| - 1].L? || b[0].L?
    ensures Fits(a + b, n)
  {
    var s := a + b;
    forall i | 0 <= i < |s| - 1 ensures s[i].L? || s[i + 1].L? {
      if i + 1 < |a| {
        assert a[i].L? || a[i + 1].L?;
      } else if i >= |a| {
        assert s[i] == b[i - |a|] && s[i + 1] == b[i + 1 - |a|];
      }
    }
  }

  // ---- One tree for one set of records ----

  /** Where a child opens a node, its leaves run exactly up to the first leaf
      that sits on the node's own layer. */
  lemma OpeningRun(es: seq<Entry>, n: nat)
    requires Fits(es, n) && es != [] && es[0].T?
    ensures var run := Leaves(es[0].sub.entries);
            && 0 < |run| <= |Leaves(es)|
            && Leaves(es)[..|run|] == run
            && Leaves(es)[|run|..] == Leaves(es[1..])
            && (forall i :: 0 <= i < |run| ==> LayerOf(Leaves(es)[i].key) < n)
            && (|run| < |Leaves(es)| ==> LayerOf(Leaves(es)[|run|].key) == n)
  {
    assert FitsEntry(es[0], n);
    FittingLeaves(es[0].sub.entries, n - 1);
    if 1 < |es| { assert es[0].L? || es[1].L?; assert FitsEntry(es[1], n); }
  }

  /** Records and layer leave no choice: whatever order the records arrived in,
      a node over them at that layer is this node. */
  lemma {:induction false} OneShape(a: seq<Entry>, b: seq<Entry>, n: nat)
    requires Fits(a, n) && Fits(b, n) && Leaves(a) == Leaves(b)
    ensures a == b
    decreases n, |a|
  {
    hide Fits, Leaves, LayerOf;
    FittingLeaves(a, n);
    FittingLeaves(b, n);
    LeavesEmpty();
    if a != [] {
      SameOpening(a, b, n);
      if a[0].T? { OneShape(a[0].sub.entries, b[0].sub.entries, n - 1); }
      OneShape(a[1..], b[1..], n);
      assert a == [a[0]] + a[1..] && b == [b[0]] + b[1..];
    }
  }

  /** A leaf that opens a node is its first record. */
  lemma OpeningLeaf(es: seq<Entry>, n: nat)
    requires Fits(es, n) && es != [] && es[0].L?
    ensures Leaves(es) == [es[0].leaf] + Leaves(es[1..]) && LayerOf(es[0].leaf.key) == n
  {
    assert FitsEntry(es[0], n);
  }

  /** Two nodes over the same records open alike, and go on over the same. */
  lemma SameOpening(a: seq<Entry>, b: seq<Entry>, n: nat)
    requires Fits(a, n) && Fits(b, n) && Leaves(a) == Leaves(b) && a != [] && b != []
    ensures a[0].L? == b[0].L? && (a[0].L? ==> a[0] == b[0])
    ensures a[0].T? ==>
              && n > 0 && Fits(a[0].sub.entries, n - 1) && Fits(b[0].sub.entries, n - 1)
              && Leaves(a[0].sub.entries) == Leaves(b[0].sub.entries)
    ensures Fits(a[1..], n) && Fits(b[1..], n) && Leaves(a[1..]) == Leaves(b[1..])
  {
    hide Fits, Leaves, LayerOf;
    FitsSlice(a, n, 1, |a|);
    FitsSlice(b, n, 1, |b|);
    assert a[1..|a|] == a[1..] && b[1..|b|] == b[1..];
    OpeningLayer(a, n);
    OpeningLayer(b, n);
    var s := Leaves(a);
    if a[0].L? {
      OpeningLeaf(a, n);
      OpeningLeaf(b, n);
      assert s[1..] == Leaves(a[1..]) && s[1..] == Leaves(b[1..]);
    } else {
      OpeningRun(a, n);
      OpeningRun(b, n);
      FirstAt(s, n, |Leaves(a[0].sub.entries)|, |Leaves(b[0].sub.entries)|);
    }
  }

  /** What opens a node shows in the layer of its first record. */
  lemma OpeningLayer(es: seq<Entry>, n: nat)
    requires Fits(es, n) && es != []
    ensures Leaves(es) != [] && (es[0].L? <==> LayerOf(Leaves(es)[0].key) == n)
    ensures es[0].T? ==> n > 0 && Fits(es[0].sub.entries, n - 1)
  {
    assert FitsEntry(es[0], n);
    hide LayerOf;
    if es[0].L? { OpeningLeaf(es, n); } else { OpeningRun(es, n); }
  }

  /** There is one first record on a layer. */
  lemma FirstAt(s: seq<Leaf>, n: nat, p: nat, q: nat)
    requires p <= |s| && q <= |s|
    requires forall i :: 0 <= i < p || 0 <= i < q ==> LayerOf(s[i].key) < n
    requires (p < |s| ==> LayerOf(s[p].key) == n) && (q < |s| ==> LayerOf(s[q].key) == n)
    ensures p == q
  {
    hide LayerOf;
  }

  /** A tree as a revision leaves it: it fits at layer `n` and its keys ascend. */
  ghost predicate WellFormed(es: seq<Entry>, n: nat) {
    && n <= MAX_LAYER
    && Fits(es, n)
    && Sorted(Leaves(es))
  }

  ghost predicate HoldsLeaf(es: seq<Entry>) {
    exists i :: 0 <= i < |es| && es[i].L?
  }

  /** The tree the specification pins: nothing above the highest leaf. */
  ghost predicate Canonical(es: seq<Entry>) {
    es == [] || (HoldsLeaf(es) && exists n :: WellFormed(es, n))
  }

  /** The records as a map, which is all a caller sees. */
  ghost function Contents(s: seq<Leaf>): map<Key, Cid> {
    if s == [] then map[] else Contents(s[1..])[s[0].key := s[0].value]
  }

  lemma SortedKeysDiffer(s: seq<Leaf>, i: nat, j: nat)
    requires Sorted(s) && i < |s| && j < |s| && s[i].key == s[j].key
    ensures i == j
  {
    LtIrreflexive(s[i].key);
  }

  lemma {:induction false} ContentsKeys(s: seq<Leaf>)
    ensures Contents(s).Keys == Held(s)
  {
    if s != [] {
      var t := s[1..];
      ContentsKeys(t);
      assert Held(s) == Held(t) + {s[0].key} by {
        assert forall i :: 0 <= i < |t| ==> t[i] == s[i + 1];
        assert forall i :: 0 < i < |s| ==> s[i] == t[i - 1];
      }
    }
  }

  lemma {:induction false} ContentsAt(s: seq<Leaf>, i: nat)
    requires Sorted(s) && i < |s|
    ensures s[i].key in Contents(s) && Contents(s)[s[i].key] == s[i].value
  {
    if i > 0 {
      ContentsAt(s[1..], i - 1);
      LtIrreflexive(s[0].key);
    }
  }

  /** Ascending leaves with one map are one sequence. */
  lemma {:induction false} OneListing(a: seq<Leaf>, b: seq<Leaf>)
    requires Sorted(a) && Sorted(b) && Contents(a) == Contents(b)
    ensures a == b
  {
    SameHolding(a, b);
    SameHolding(b, a);
    OneAscent(a, b);
  }

  ghost predicate Within(a: seq<Leaf>, b: seq<Leaf>) {
    forall i :: 0 <= i < |a| ==> a[i] in b
  }

  lemma SameHolding(a: seq<Leaf>, b: seq<Leaf>)
    requires Sorted(a) && Sorted(b) && Contents(a) == Contents(b)
    ensures Within(a, b)
  {
    forall i | 0 <= i < |a| ensures a[i] in b {
      ContentsAt(a, i);
      ContentsKeys(b);
      assert a[i].key in Held(b);
      var j :| 0 <= j < |b| && b[j].key == a[i].key;
      ContentsAt(b, j);
      assert a[i] == b[j];
    }
  }

  lemma {:induction false} OneAscent(a: seq<Leaf>, b: seq<Leaf>)
    requires Sorted(a) && Sorted(b) && Within(a, b) && Within(b, a)
    ensures a == b
  {
    hide Lt;
    assert a != [] ==> a[0] in b;
    assert b != [] ==> b[0] in a;
    if a != [] && b != [] {
      SameFirst(a, b);
      WithoutFirst(a, b);
      WithoutFirst(b, a);
      OneAscent(a[1..], b[1..]);
      assert a == [a[0]] + a[1..] && b == [b[0]] + b[1..];
    }
  }

  lemma SameFirst(a: seq<Leaf>, b: seq<Leaf>)
    requires Sorted(a) && Sorted(b) && a != [] && b != [] && a[0] in b && b[0] in a
    ensures a[0] == b[0]
  {
    hide Lt;
    FirstIsFirst(a, b);
    FirstIsFirst(b, a);
    LtTotal(a[0].key, b[0].key);
    var j :| 0 <= j < |b| && b[j] == a[0];
    SortedKeysDiffer(b, 0, j);
  }

  lemma FirstIsFirst(a: seq<Leaf>, b: seq<Leaf>)
    requires Sorted(a) && a != [] && b != [] && b[0] in a
    ensures !Lt(b[0].key, a[0].key)
  {
    var i :| 0 <= i < |a| && a[i] == b[0];
    if i > 0 { LtAsymmetric(a[0].key, a[i].key); } else { LtIrreflexive(a[0].key); }
  }

  lemma WithoutFirst(a: seq<Leaf>, b: seq<Leaf>)
    requires Sorted(a) && Within(a, b) && a != [] && b != [] && a[0] == b[0]
    ensures Within(a[1..], b[1..])
  {
    forall i | 0 <= i < |a[1..]| ensures a[1..][i] in b[1..] {
      var j :| 0 <= j < |b| && b[j] == a[i + 1];
      if j == 0 { SortedKeysDiffer(a, 0, i + 1); }
      assert b[1..][j - 1] == b[j];
    }
  }

  /** A canonical tree's layer is the highest its keys reach. */
  lemma TopLayer(es: seq<Entry>, n: nat)
    requires Fits(es, n) && HoldsLeaf(es)
    ensures exists i :: 0 <= i < |Leaves(es)| && LayerOf(Leaves(es)[i].key) == n
    ensures forall i :: 0 <= i < |Leaves(es)| ==> LayerOf(Leaves(es)[i].key) <= n
  {
    FittingLeaves(es, n);
    var i :| 0 <= i < |es| && es[i].L?;
    LeavesAround(es, i);
    assert FitsEntry(es[i], n);
    assert Leaves(es)[|Leaves(es[..i])|] == es[i].leaf;
  }

  /** History independence, in its static half: two canonical trees over the
      same records are the same tree. */
  lemma CanonicalIsUnique(a: seq<Entry>, b: seq<Entry>)
    requires Canonical(a) && Canonical(b)
    requires Contents(Leaves(a)) == Contents(Leaves(b))
    ensures a == b
  {
    assert Sorted(Leaves(a)) && Sorted(Leaves(b));
    OneListing(Leaves(a), Leaves(b));
    if a != [] {
      var n :| WellFormed(a, n);
      FittingLeaves(a, n);
    }
    if b != [] {
      var m :| WellFormed(b, m);
      FittingLeaves(b, m);
    }
    if a != [] && b != [] {
      var n :| WellFormed(a, n);
      var m :| WellFormed(b, m);
      TopLayer(a, n);
      TopLayer(b, m);
      assert n == m;
      OneShape(a, b, n);
    }
  }
}
