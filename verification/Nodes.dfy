/** The blocks a tree reaches: its nodes, each of them once, and its records. */
module Nodes {
  import opened Data
  import opened Keys
  import opened Tree
  import opened TreeOps
  import opened Codec
  import opened History

  /** The CIDs of a node and everything under it. */
  ghost function NodesOf(es: seq<Entry>): set<Cid>
    decreases Node(es), 1
  {
    {CidOf(es)} + NodesUnder(es)
  }

  ghost function NodesUnder(es: seq<Entry>): set<Cid>
    decreases Node(es), 0
  {
    set i, c | 0 <= i < |es| && es[i].T? && c in NodesOf(es[i].sub.entries) :: c
  }

  lemma SubNodes(es: seq<Entry>, i: nat)
    requires i < |es| && es[i].T?
    ensures NodesOf(es[i].sub.entries) <= NodesUnder(es) <= NodesOf(es)
  {
  }

  lemma SubProper(es: seq<Entry>, n: nat, i: nat)
    requires Proper(es, n) && i < |es| && es[i].T?
    ensures n > 0 && es[i].sub.entries != [] && Proper(es[i].sub.entries, n - 1)
  {
    assert FitsEntry(es[i], n);
    SubValid(es, i);
    SubSorted(es, i);
  }

  lemma SubSorted(es: seq<Entry>, i: nat)
    requires Sorted(Leaves(es)) && i < |es| && es[i].T?
    ensures Sorted(Leaves(es[i].sub.entries))
  {
    LeavesAround(es, i);
    SortedParts(Leaves(es[..i]), Leaves(es[i].sub.entries), Leaves(es[i + 1..]));
  }

  /** What a CID under a node is the CID of. */
  lemma {:induction false} NodeIs(es: seq<Entry>, n: nat, c: Cid) returns (x: seq<Entry>, m: nat)
    requires Proper(es, n) && c in NodesOf(es)
    ensures c == CidOf(x) && Proper(x, m) && m <= n
    ensures (x == es && m == n) || (x != [] && m < n && c in NodesUnder(es))
    ensures Within(Leaves(x), Leaves(es)) && NodesOf(x) <= NodesOf(es)
    decreases n
  {
    if c == CidOf(es) {
      x, m := es, n;
    } else {
      var i :| 0 <= i < |es| && es[i].T? && c in NodesOf(es[i].sub.entries);
      SubProper(es, n, i);
      x, m := NodeIs(es[i].sub.entries, n - 1, c);
      LeavesAround(es, i);
      SubNodes(es, i);
      assert Within(Leaves(es[i].sub.entries), Leaves(es));
    }
  }

  /** A node is not under itself: what is under it sits on a lower layer. */
  lemma NotUnderItself(es: seq<Entry>, n: nat)
    requires Proper(es, n)
    ensures CidOf(es) !in NodesUnder(es)
  {
    if CidOf(es) in NodesUnder(es) {
      var i :| 0 <= i < |es| && es[i].T? && CidOf(es) in NodesOf(es[i].sub.entries);
      SubProper(es, n, i);
      var x, m := NodeIs(es[i].sub.entries, n - 1, CidOf(es));
      CidInjective(es, n, x, m);
      FindsLayer(es, n);
      FindsLayer(x, m);
    }
  }

  /** Two subtrees of one node share no node: they share no key. */
  lemma SiblingsApart(es: seq<Entry>, n: nat, i: nat, j: nat)
    requires Proper(es, n) && i < j < |es| && es[i].T? && es[j].T?
    ensures NodesOf(es[i].sub.entries) !! NodesOf(es[j].sub.entries)
  {
    var a, b := es[i].sub.entries, es[j].sub.entries;
    SubProper(es, n, i);
    SubProper(es, n, j);
    forall c | c in NodesOf(a) && c in NodesOf(b) ensures false {
      var x, m := NodeIs(a, n - 1, c);
      var y, k := NodeIs(b, n - 1, c);
      CidInjective(x, m, y, k);
      FittingLeaves(x, m);
      var leaf := Leaves(x)[0];
      KeysApart(es, i, j, leaf);
    }
  }

  lemma KeysApart(es: seq<Entry>, i: nat, j: nat, leaf: Leaf)
    requires Sorted(Leaves(es)) && i < j < |es| && leaf in EntryLeaves(es[i])
    ensures leaf !in EntryLeaves(es[j])
  {
    hide Leaves, EntryLeaves, Sorted;
    LeavesAround(es, j);
    assert leaf in Leaves(es[..j]) by {
      LeavesAround(es[..j], i);
      assert es[..j][i] == es[i];
    }
    NotTwice(Leaves(es[..j]), EntryLeaves(es[j]), Leaves(es[j + 1..]), leaf);
  }

  lemma NotTwice(a: seq<Leaf>, b: seq<Leaf>, c: seq<Leaf>, leaf: Leaf)
    requires Sorted(a + b + c) && leaf in a
    ensures leaf !in b
  {
    hide Lt;
    var p :| 0 <= p < |a| && a[p] == leaf;
    assert (a + b + c)[p] == leaf;
    LtIrreflexive(leaf.key);
    forall q | 0 <= q < |b| ensures b[q] != leaf {
      assert (a + b + c)[|a| + q] == b[q];
    }
  }

  // ---- Records ----

  ghost function ValuesOf(es: seq<Entry>): set<Cid> {
    set i | 0 <= i < |Leaves(es)| :: Leaves(es)[i].value
  }

  lemma ValuesAre(es: seq<Entry>)
    requires Sorted(Leaves(es))
    ensures ValuesOf(es) == Contents(Leaves(es)).Values
  {
    var s := Leaves(es);
    var m := Contents(s);
    ContentsKeys(s);
    hide Contents, Sorted, Leaves;
    forall i | 0 <= i < |s| ensures s[i].value in m.Values {
      ContentsAt(s, i);
    }
    forall k | k in m ensures m[k] in ValuesOf(es) {
      var i :| 0 <= i < |s| && s[i].key == k;
      ContentsAt(s, i);
    }
  }

  /** Every block a tree reaches. */
  ghost function Reach(es: seq<Entry>): set<Cid> {
    NodesOf(es) + ValuesOf(es)
  }
}
