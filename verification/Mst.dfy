/** A tree as the program holds it: nodes read on demand, with a layer and a
    CID remembered where they are known, and what such a tree stands for. */
module Mst {
  import opened Data
  import opened Tree
  import opened Codec
  import opened Nodes

  /** A node with three caches, each of which may be empty: its entries, its
      layer and its CID. `Rep` says what makes them agree. */
  datatype Mst = Mst(entries: Entries, layer: Option<nat>, pointer: Option<Cid>)

  datatype Entries = Unread | Read(list: seq<MEntry>)

  datatype MEntry = ML(leaf: Leaf) | MT(sub: Mst)

  function Empty(): Mst {
    Mst(Read([]), None, None)
  }

  function Load(root: Cid): Mst {
    Mst(Unread, None, Some(root))
  }

  function FromEntries(ms: seq<MEntry>, layer: Option<nat>): Mst {
    Mst(Read(ms), layer, None)
  }

  // ---- How much of it is loaded ----

  function Size(m: Mst): nat {
    if m.entries.Read? then SizeAll(m.entries.list) else 0
  }

  function SizeAll(ms: seq<MEntry>): nat {
    if ms == [] then 0
    else 1 + SizeOf(ms[0]) + SizeAll(ms[1..])
  }

  function SizeOf(e: MEntry): nat {
    match e
    case ML(_) => 0
    case MT(sub) => Size(sub)
  }

  lemma {:induction false} ChildSmaller(ms: seq<MEntry>, i: nat)
    requires i < |ms| && ms[i].MT?
    ensures Size(ms[i].sub) < SizeAll(ms)
  {
    assert SizeOf(ms[i]) == Size(ms[i].sub);
    if i > 0 { ChildSmaller(ms[1..], i - 1); }
  }

  lemma EmptySize(ms: seq<MEntry>)
    ensures SizeAll(ms) == 0 <==> ms == []
  {
  }

  lemma {:induction false} SameSize(ms: seq<MEntry>, i: nat, sub: Mst)
    requires i < |ms| && ms[i].MT? && Size(sub) == Size(ms[i].sub)
    ensures SizeAll(ms[i := MT(sub)]) == SizeAll(ms)
  {
    var out := ms[i := MT(sub)];
    assert SizeOf(ms[i]) == SizeOf(out[i]);
    if i == 0 {
      assert out[1..] == ms[1..];
    } else {
      SameSize(ms[1..], i - 1, sub);
      assert out[1..] == ms[1..][i - 1 := MT(sub)];
    }
  }

  // ---- What it stands for ----

  /** A loaded or unloaded node standing for some entries at layer `n`: every
      field that is filled in agrees with them. */
  ghost predicate Rep(m: Mst, es: seq<Entry>, n: nat)
    decreases n, 2
  {
    && (m.pointer.Some? ==> m.pointer.value == CidOf(es))
    && (m.layer.Some? ==> m.layer.value == n)
    && (m.entries.Unread? ==> m.pointer.Some?)
    && (m.entries.Read? ==> RepAll(m.entries.list, es, n))
  }

  ghost predicate RepAll(ms: seq<MEntry>, es: seq<Entry>, n: nat)
    decreases n, 1
  {
    |ms| == |es| && forall i :: 0 <= i < |es| ==> RepEntry(ms[i], es[i], n)
  }

  ghost predicate RepEntry(me: MEntry, e: Entry, n: nat)
    decreases n, 0
  {
    if me.ML? then e.L? && me.leaf == e.leaf
    else e.T? && n > 0 && Rep(me.sub, e.sub.entries, n - 1)
  }

  /** The nodes under it that are still to be read. */
  ghost function Pending(m: Mst, es: seq<Entry>): set<Cid>
    decreases Node(es), 1
  {
    if m.entries.Read? then PendingAll(m.entries.list, es) else NodesOf(es)
  }

  ghost function PendingAll(ms: seq<MEntry>, es: seq<Entry>): set<Cid>
    decreases Node(es), 0
  {
    set i, c | 0 <= i < |ms| && i < |es| && ms[i].MT? && es[i].T?
               && c in Pending(ms[i].sub, es[i].sub.entries) :: c
  }

  lemma {:induction false} PendingIsUnder(m: Mst, es: seq<Entry>)
    ensures Pending(m, es) <= NodesOf(es)
    ensures m.entries.Read? ==> PendingAll(m.entries.list, es) <= NodesUnder(es)
    decreases Node(es)
  {
    if m.entries.Read? {
      var ms := m.entries.list;
      forall i, c | 0 <= i < |ms| && i < |es| && ms[i].MT? && es[i].T? && c in Pending(ms[i].sub, es[i].sub.entries)
        ensures c in NodesUnder(es)
      {
        PendingIsUnder(ms[i].sub, es[i].sub.entries);
      }
    }
  }

  lemma ChildPending(ms: seq<MEntry>, es: seq<Entry>, i: nat)
    requires i < |ms| && i < |es| && ms[i].MT? && es[i].T?
    ensures Pending(ms[i].sub, es[i].sub.entries) <= PendingAll(ms, es)
  {
  }

  lemma RepSlice(ms: seq<MEntry>, es: seq<Entry>, n: nat, lo: nat, hi: nat)
    requires RepAll(ms, es, n) && lo <= hi <= |es|
    ensures RepAll(ms[lo..hi], es[lo..hi], n)
    ensures PendingAll(ms[lo..hi], es[lo..hi]) <= PendingAll(ms, es)
  {
    hide RepEntry, Pending;
    var a, x := ms[lo..hi], es[lo..hi];
    forall i | 0 <= i < |x| ensures RepEntry(a[i], x[i], n) {
      assert RepEntry(ms[lo + i], es[lo + i], n);
    }
    forall i, c | 0 <= i < |a| && i < |x| && a[i].MT? && x[i].T? && c in Pending(a[i].sub, x[i].sub.entries)
      ensures c in PendingAll(ms, es)
    {
      assert ms[lo + i] == a[i] && es[lo + i] == x[i];
    }
  }

  lemma RepConcat(a: seq<MEntry>, x: seq<Entry>, b: seq<MEntry>, y: seq<Entry>, n: nat)
    requires RepAll(a, x, n) && RepAll(b, y, n)
    ensures RepAll(a + b, x + y, n)
    ensures PendingAll(a + b, x + y) <= PendingAll(a, x) + PendingAll(b, y)
  {
    hide RepEntry, Pending;
    var ms, es := a + b, x + y;
    forall i | 0 <= i < |es| ensures RepEntry(ms[i], es[i], n) {
      if i < |x| { assert RepEntry(a[i], x[i], n); } else { assert RepEntry(b[i - |x|], y[i - |x|], n); }
    }
    forall i, c | 0 <= i < |ms| && i < |es| && ms[i].MT? && es[i].T? && c in Pending(ms[i].sub, es[i].sub.entries)
      ensures c in PendingAll(a, x) + PendingAll(b, y)
    {
      if i < |x| { assert ms[i] == a[i] && es[i] == x[i]; }
      else { assert ms[i] == b[i - |x|] && es[i] == y[i - |x|]; }
    }
  }

  lemma RepThree(a: seq<MEntry>, x: seq<Entry>, b: seq<MEntry>, y: seq<Entry>,
                 c: seq<MEntry>, z: seq<Entry>, n: nat)
    requires RepAll(a, x, n) && RepAll(b, y, n) && RepAll(c, z, n)
    ensures RepAll(a + b + c, x + y + z, n)
    ensures PendingAll(a + b + c, x + y + z) <= PendingAll(a, x) + PendingAll(b, y) + PendingAll(c, z)
  {
    hide RepAll, PendingAll;
    RepConcat(a, x, b, y, n);
    RepConcat(a + b, x + y, c, z, n);
  }

  lemma RepOne(sub: Mst, x: seq<Entry>, n: nat)
    requires Rep(sub, x, n)
    ensures RepAll([MT(sub)], [T(Node(x))], n + 1)
    ensures PendingAll([MT(sub)], [T(Node(x))]) == Pending(sub, x)
  {
    assert RepEntry(MT(sub), T(Node(x)), n + 1);
    hide Pending;
    var ms, es := [MT(sub)], [T(Node(x))];
    assert ms[0].sub == sub && es[0].sub.entries == x;
  }

  // ---- Reading a tree from a store ----

  /** What an operation may rely on: the node stands for a proper tree, nothing
      it has still to read has been read before, and whatever the store holds
      under those CIDs is theirs. The store need not hold all of them. */
  ghost predicate Legible(m: Mst, es: seq<Entry>, n: nat, store: Store, seen: set<Cid>) {
    Rep(m, es, n) && Proper(es, n) && Fresh(Pending(m, es), store, seen)
  }

  ghost predicate Fresh(pending: set<Cid>, store: Store, seen: set<Cid>) {
    pending !! seen && forall c :: c in pending && c in store ==> store[c] == BlockOf(c)
  }

  /** What an operation leaves: a node standing for the entries it should, and
      nothing read but what was pending. */
  ghost predicate Kept(pending: set<Cid>, seen: set<Cid>, m': Mst, es': seq<Entry>, n': nat, seen': set<Cid>) {
    && Rep(m', es', n')
    && Pending(m', es') <= pending
    && Pending(m', es') !! seen'
    && seen <= seen' <= seen + pending
  }

  /** A read that failed because the block is not there. */
  ghost predicate Absent(e: Error, pending: set<Cid>, store: Store) {
    e.MissingBlock? && e.cid in pending && e.cid !in store
  }

  lemma ChildLegible(ms: seq<MEntry>, es: seq<Entry>, n: nat, i: nat, store: Store, seen: set<Cid>)
    requires RepAll(ms, es, n) && Proper(es, n) && Fresh(PendingAll(ms, es), store, seen)
    requires i < |es| && es[i].T?
    ensures ms[i].MT? && n > 0 && es[i].sub.entries != []
    ensures Legible(ms[i].sub, es[i].sub.entries, n - 1, store, seen)
    ensures Pending(ms[i].sub, es[i].sub.entries) <= PendingAll(ms, es)
  {
    assert RepEntry(ms[i], es[i], n);
    SubProper(es, n, i);
    ChildPending(ms, es, i);
  }

  /** What lies outside one subtree is untouched by reading inside it. */
  lemma Outside(ms: seq<MEntry>, es: seq<Entry>, n: nat, i: nat, lo: nat, hi: nat, seen: set<Cid>, seen': set<Cid>)
    requires RepAll(ms, es, n) && Proper(es, n) && PendingAll(ms, es) !! seen
    requires i < |es| && es[i].T? && lo <= hi <= |es| && (hi <= i || i < lo)
    requires ms[i].MT? && seen' <= seen + Pending(ms[i].sub, es[i].sub.entries)
    ensures PendingAll(ms[lo..hi], es[lo..hi]) !! seen'
  {
    var a, x := ms[lo..hi], es[lo..hi];
    forall j, c | 0 <= j < |a| && j < |x| && a[j].MT? && x[j].T? && c in Pending(a[j].sub, x[j].sub.entries)
      ensures c !in seen'
    {
      var k := lo + j;
      assert ms[k] == a[j] && es[k] == x[j];
      ChildPending(ms, es, k);
      PendingIsUnder(ms[i].sub, es[i].sub.entries);
      PendingIsUnder(ms[k].sub, es[k].sub.entries);
      if k < i { SiblingsApart(es, n, k, i); } else { SiblingsApart(es, n, i, k); }
    }
  }

  lemma SameKinds(ms: seq<MEntry>, es: seq<Entry>, n: nat)
    requires RepAll(ms, es, n)
    ensures |ms| == |es|
    ensures forall i :: 0 <= i < |es| ==> (ms[i].MT? <==> es[i].T?)
    ensures forall i :: 0 <= i < |es| ==> ms[i].ML? ==> ms[i].leaf == es[i].leaf
  {
    forall i | 0 <= i < |es|
      ensures (ms[i].MT? <==> es[i].T?) && (ms[i].ML? ==> ms[i].leaf == es[i].leaf)
    {
      assert RepEntry(ms[i], es[i], n);
    }
  }

  /** One subtree put back as an operation left it. */
  lemma Replaced(ms: seq<MEntry>, es: seq<Entry>, n: nat, i: nat, sub: Mst, x: seq<Entry>,
                 seen: set<Cid>, seen': set<Cid>)
    requires RepAll(ms, es, n) && Proper(es, n) && PendingAll(ms, es) !! seen
    requires i < |es| && es[i].T? && ms[i].MT? && n > 0
    requires Kept(Pending(ms[i].sub, es[i].sub.entries), seen, sub, x, n - 1, seen')
    ensures var ms', es' := ms[..i] + [MT(sub)] + ms[i + 1..], es[..i] + [T(Node(x))] + es[i + 1..];
            && RepAll(ms', es', n) && PendingAll(ms', es') <= PendingAll(ms, es)
            && PendingAll(ms', es') !! seen' && seen <= seen' <= seen + PendingAll(ms, es)
  {
    hide RepAll, PendingAll, Pending, Rep, Proper;
    SameKinds(ms, es, n);
    assert ms[0..i] == ms[..i] && es[0..i] == es[..i];
    assert ms[i + 1..|es|] == ms[i + 1..] && es[i + 1..|es|] == es[i + 1..];
    RepSlice(ms, es, n, 0, i);
    RepSlice(ms, es, n, i + 1, |es|);
    Outside(ms, es, n, i, 0, i, seen, seen');
    Outside(ms, es, n, i, i + 1, |es|, seen, seen');
    ChildPending(ms, es, i);
    RepOne(sub, x, n - 1);
    RepThree(ms[..i], es[..i], [MT(sub)], [T(Node(x))], ms[i + 1..], es[i + 1..], n);
    StillPending(PendingAll(ms[..i] + [MT(sub)] + ms[i + 1..], es[..i] + [T(Node(x))] + es[i + 1..]),
                 PendingAll(ms[..i], es[..i]), Pending(sub, x), PendingAll(ms[i + 1..], es[i + 1..]),
                 PendingAll(ms, es), Pending(ms[i].sub, es[i].sub.entries), seen, seen');
  }

  lemma StillPending(p': set<Cid>, a: set<Cid>, b: set<Cid>, c: set<Cid>,
                     p: set<Cid>, q: set<Cid>, seen: set<Cid>, seen': set<Cid>)
    requires p' <= a + b + c && a <= p && c <= p && b <= q <= p
    requires a !! seen' && b !! seen' && c !! seen' && seen' <= seen + q
    ensures p' <= p && p' !! seen' && seen' <= seen + p
  {
  }

  // ---- Stubs ----

  /** A node's entries as a read leaves them, every subtree a CID. */
  function Stubs(fs: seq<Flat>, under: Option<nat>): (ms: seq<MEntry>)
    ensures |ms| == |fs|
  {
    seq(|fs|, i requires 0 <= i < |fs| =>
      if fs[i].FL? then ML(fs[i].leaf) else MT(Mst(Unread, under, Some(fs[i].cid))))
  }

  lemma StubsRep(es: seq<Entry>, n: nat, under: Option<nat>)
    requires Fits(es, n) && (under.None? || (n > 0 && under.value == n - 1))
    ensures RepAll(Stubs(FlatOf(es), under), es, n)
    ensures PendingAll(Stubs(FlatOf(es), under), es) == NodesUnder(es)
  {
    var ms := Stubs(FlatOf(es), under);
    forall i | 0 <= i < |es| ensures RepEntry(ms[i], es[i], n) {
      assert FitsEntry(es[i], n);
    }
    forall i, c | 0 <= i < |es| && es[i].T? && c in NodesOf(es[i].sub.entries)
      ensures c in PendingAll(ms, es)
    {
      assert c in Pending(ms[i].sub, es[i].sub.entries);
    }
  }
}
