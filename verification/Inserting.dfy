/** Adding a record to a tree that is read on demand. */
module Inserting {
  import opened Data
  import opened Tree
  import opened TreeOps
  import opened Codec
  import opened Nodes
  import opened Mst
  import opened Reading
  import opened Writing

  /** Raises a half of a split node to just under the layer of the key that
      split it. */
  method Raise(o: Option<Mst>, levels: nat, ghost xs: seq<Entry>, ghost n: nat,
               ghost pending: set<Cid>, ghost seen: set<Cid>, ghost seen': set<Cid>)
    returns (r: Result<Option<Mst>>)
    ensures (o.Some? ==> o.value.layer == Some(n)) && KeptOpt(pending, seen, o, xs, n, seen') ==>
              r.Ok? && KeptOpt(pending, seen, r.value, Lift(xs, levels), n + levels, seen')
  {
    ghost var good := (o.Some? ==> o.value.layer == Some(n)) && KeptOpt(pending, seen, o, xs, n, seen');
    var raised := o;
    var i := 0;
    while i < levels
      invariant 0 <= i <= levels
      invariant good ==> KeptOpt(pending, seen, raised, Lift(xs, i), n + i, seen')
      invariant good ==> (raised.Some? ==> raised.value.layer == Some(n + i))
    {
      if raised.Some? {
        if raised.value.layer.None? {
          return Err(MalformedNode("raised a node of unknown layer"));
        }
        if good { RunOpt(pending, seen, raised, Lift(xs, i), n + i, seen'); }
        raised := Some(FromEntries([MT(raised.value)], Some(raised.value.layer.value + 1)));
      }
      i := i + 1;
    }
    r := Ok(raised);
  }

  /** The case where the key's layer is higher than the tree's: both halves of
      the split are raised to just under it. */
  method InsertAbove(m: Mst, rd: Reader, depth: nat, key: Key, value: Cid, zeros: nat, layer: nat,
                     ghost es: seq<Entry>, ghost n: nat)
    returns (r: Result<Mst>)
    requires zeros > layer
    modifies rd
    ensures old(rd.seen) <= rd.seen
    ensures r.Ok? ==> r.value.layer == Some(zeros)
    ensures Legible(m, es, n, rd.store, old(rd.seen)) && layer == n && m.layer == Some(n) && depth + n < MAX_DEPTH ==>
              if r.Ok? then
                && Insert(es, n, key, value, zeros).Ok?
                && Kept(Pending(m, es), old(rd.seen), r.value, Insert(es, n, key, value, zeros).value, zeros, rd.seen)
              else Absent(r.error, Pending(m, es), rd.store)
  {
    hide Proper, CidOf, RepAll, PendingAll, Pending, Split;
    ghost var good := Legible(m, es, n, rd.store, rd.seen) && layer == n && m.layer == Some(n) && depth + n < MAX_DEPTH;
    ghost var p, s0 := Pending(m, es), rd.seen;
    var halves := SplitAround(m, rd, depth, key, es, n);
    if halves.Err? { return Err(halves.error); }
    ghost var x, y := Split(es, key).0, Split(es, key).1;
    var levels := zeros - layer - 1;
    var left := Raise(halves.value.0, levels, x, n, p, s0, rd.seen);
    if left.Err? { return Err(left.error); }
    var right := Raise(halves.value.1, levels, y, n, p, s0, rd.seen);
    if right.Err? { return Err(right.error); }
    var ms := OptNode(left.value) + [ML(Leaf(key, value))] + OptNode(right.value);
    if good {
      AboveRun(p, s0, left.value, Lift(x, levels), right.value, Lift(y, levels), Leaf(key, value), zeros, rd.seen);
    }
    r := Ok(FromEntries(ms, Some(zeros)));
  }

  lemma AboveRun(p: set<Cid>, s0: set<Cid>, a: Option<Mst>, x: seq<Entry>, b: Option<Mst>, y: seq<Entry>,
                 leaf: Leaf, z: nat, seen': set<Cid>)
    requires z > 0 && KeptOpt(p, s0, a, x, z - 1, seen') && KeptOpt(p, s0, b, y, z - 1, seen')
    ensures Kept(p, s0, FromEntries(OptNode(a) + [ML(leaf)] + OptNode(b), Some(z)), Opt(x) + [L(leaf)] + Opt(y), z,
                 seen')
  {
    RunOpt(p, s0, a, x, z - 1, seen');
    RunOpt(p, s0, b, y, z - 1, seen');
    RunLeaf(p, seen', leaf, z);
    hide KeptRun;
    RunJoin3(p, seen', OptNode(a), Opt(x), [ML(leaf)], [L(leaf)], OptNode(b), Opt(y), z);
    RunNode(p, s0, seen', OptNode(a) + [ML(leaf)] + OptNode(b), Opt(x) + [L(leaf)] + Opt(y), z, Some(z));
  }

  /** Adds a record, working the node's layer out first. */
  method InsertIn(m: Mst, rd: Reader, depth: nat, key: Key, value: Cid, zeros: nat,
                  ghost es: seq<Entry>, ghost n: nat)
    returns (r: Result<Mst>)
    modifies rd
    ensures depth >= 256 ==> r == Err(TOO_DEEP) && rd.seen == old(rd.seen)
    ensures old(rd.seen) <= rd.seen
    ensures Legible(m, es, n, rd.store, old(rd.seen)) && (es == [] ==> n == m.layer.GetOr(0))
            && depth + n + 1 < MAX_DEPTH ==>
              Answered(m, es, n, rd.store, old(rd.seen), Insert(es, n, key, value, zeros), Max(n, zeros), r, rd.seen)
    ensures Legible(m, es, n, rd.store, old(rd.seen)) && (es == [] ==> n == m.layer.GetOr(0))
            && depth + n + 1 < MAX_DEPTH ==>
              (r.Ok? ==> r.value.layer == Some(Max(n, zeros)))
    decreases rd.store.Keys - rd.seen, Size(m), if m.entries == Read([]) then m.layer.GetOr(0) else 0, 2
  {
    hide Proper, CidOf, Rep, RepAll, Pending, PendingAll, NodesOf, Insert, SizeAll;
    if depth >= MAX_DEPTH {
      return Err(TOO_DEEP);
    }
    var m1, layer := LayerIn(m, rd, depth + 1, es, n);
    if layer.Err? { return Err(layer.error); }
    if zeros > layer.value {
      r := InsertAbove(m1, rd, depth + 1, key, value, zeros, layer.value, es, n);
    } else {
      if m.entries.Read? { EmptySize(m.entries.list); }
      if m1.entries.Read? { EmptySize(m1.entries.list); }
      r := InsertPlaced(m1, rd, depth + 1, key, value, zeros, layer.value, es, n);
    }
  }

  /** Adds a record no higher than a node whose layer is known. */
  method InsertPlaced(m: Mst, rd: Reader, depth: nat, key: Key, value: Cid, zeros: nat, layer: nat,
                      ghost es: seq<Entry>, ghost n: nat)
    returns (r: Result<Mst>)
    requires zeros <= layer
    modifies rd
    ensures old(rd.seen) <= rd.seen
    ensures r.Ok? ==> r.value.layer == Some(layer)
    ensures Legible(m, es, n, rd.store, old(rd.seen)) && layer == n && depth + n < MAX_DEPTH ==>
              Answered(m, es, n, rd.store, old(rd.seen), Insert(es, n, key, value, zeros), n, r, rd.seen)
    decreases rd.store.Keys - rd.seen, Size(m), if m.entries == Read([]) then layer else 0, 1
  {
    hide Proper, CidOf, RepAll, PendingAll, Position, IndexOf, NodesOf, Insert;
    ghost var good := Legible(m, es, n, rd.store, rd.seen) && layer == n && depth + n < MAX_DEPTH;
    ghost var p, s0 := Pending(m, es), rd.seen;
    var m2, o := Fill(m, rd, es, n);
    if o.Err? {
      if good { UnreadPending(m, es); }
      return Err(o.error);
    }
    var ms := m2.entries.list;
    var i := Position(ms, key);
    if good { PositionIs(ms, es, n, key); }
    ghost var s2 := rd.seen;
    EmptySize(ms);
    if zeros < layer {
      r := InsertUnder(ms, i, rd, depth, key, value, zeros, layer, es, n);
    } else if i < |ms| && ms[i].leaf.key == key {
      if good { FoundIs(es, n, key, value); }
      return Err(KeyExists(key));
    } else {
      r := InsertBeside(ms, i, rd, depth, key, value, layer, es, n);
    }
    if good && r.Ok? {
      WiderPending(PendingAll(ms, es), p, s0, s2, r.value, Insert(es, n, key, value, zeros).value, n, rd.seen);
    }
  }

  /** The case where the key's layer is lower: the insert recurs on the left
      neighbour if that is a subtree, and on an empty node otherwise. */
  method InsertUnder(ms: seq<MEntry>, i: nat, rd: Reader, depth: nat, key: Key, value: Cid, zeros: nat, layer: nat,
                     ghost es: seq<Entry>, ghost n: nat)
    returns (r: Result<Mst>)
    requires i <= |ms| && zeros < layer
    modifies rd
    ensures old(rd.seen) <= rd.seen
    ensures r.Ok? ==> r.value.layer == Some(layer)
    ensures RepAll(ms, es, n) && Proper(es, n) && Fresh(PendingAll(ms, es), rd.store, old(rd.seen))
            && i == IndexOf(es, key) && layer == n && depth + n < MAX_DEPTH ==>
              if r.Ok? then
                && Insert(es, n, key, value, zeros).Ok?
                && Kept(PendingAll(ms, es), old(rd.seen), r.value, Insert(es, n, key, value, zeros).value, n, rd.seen)
              else Absent(r.error, PendingAll(ms, es), rd.store) || Insert(es, n, key, value, zeros) == Err(r.error)
    decreases rd.store.Keys - rd.seen, SizeAll(ms), if ms == [] then layer else 0, 0
  {
    hide Proper, CidOf, RepAll, PendingAll, IndexOf, Pending, Rep, SizeAll;
    ghost var good := && RepAll(ms, es, n) && Proper(es, n) && Fresh(PendingAll(ms, es), rd.store, rd.seen)
                      && i == IndexOf(es, key) && layer == n && depth + n < MAX_DEPTH;
    if good { SameKinds(ms, es, n); }
    EmptySize(ms);
    EmptySize([]);
    ghost var p, s0 := PendingAll(ms, es), rd.seen;
    if i > 0 && ms[i - 1].MT? {
      ChildSmaller(ms, i - 1);
      if good { ChildLegible(ms, es, n, i - 1, rd.store, s0); }
      var grown := InsertIn(ms[i - 1].sub, rd, depth, key, value, zeros, SubOf(es, i - 1), Down(n));
      if grown.Err? { return Err(grown.error); }
      if good {
        GrownUnder(ms, es, n, i - 1, grown.value, Insert(SubOf(es, i - 1), n - 1, key, value, zeros).value,
                   p, s0, s0, rd.seen);
      }
      r := Ok(FromEntries(ms[..i - 1] + [MT(grown.value)] + ms[i..], Some(layer)));
    } else {
      if good { EmptyLegible(es, n, rd.store, s0); }
      var grown := InsertIn(FromEntries([], Some(layer - 1)), rd, depth, key, value, zeros, [], Down(n));
      if grown.Err? { return Err(grown.error); }
      if good {
        GrownNew(ms, es, n, i, grown.value, Insert([], n - 1, key, value, zeros).value, p, s0, s0, rd.seen);
      }
      r := Ok(FromEntries(ms[..i] + [MT(grown.value)] + ms[i..], Some(layer)));
    }
  }

  /** What a write answers, against what the same write on values does. */
  ghost predicate Answered(m: Mst, es: seq<Entry>, n: nat, store: Store, seen: set<Cid>,
                           spec: Result<seq<Entry>>, n': nat, r: Result<Mst>, seen': set<Cid>) {
    if r.Ok? then spec.Ok? && Kept(Pending(m, es), seen, r.value, spec.value, n', seen')
    else Absent(r.error, Pending(m, es), store) || spec == Err(r.error)
  }

  lemma EmptyLegible(es: seq<Entry>, n: nat, store: Store, seen: set<Cid>)
    requires Proper(es, n) && n > 0
    ensures Legible(FromEntries([], Some(n - 1)), [], n - 1, store, seen)
    ensures Pending(FromEntries([], Some(n - 1)), []) == {}
  {
    LeavesEmpty();
  }

  lemma GrownUnder(ms: seq<MEntry>, es: seq<Entry>, n: nat, i: nat, sub: Mst, x: seq<Entry>,
                   p: set<Cid>, s0: set<Cid>, seen: set<Cid>, seen': set<Cid>)
    requires RepAll(ms, es, n) && Proper(es, n) && PendingAll(ms, es) !! seen && PendingAll(ms, es) <= p
    requires i < |es| && es[i].T? && |ms| == |es| && ms[i].MT? && n > 0 && s0 <= seen <= s0 + p
    requires Kept(Pending(ms[i].sub, es[i].sub.entries), seen, sub, x, n - 1, seen')
    ensures Kept(p, s0, FromEntries(ms[..i] + [MT(sub)] + ms[i + 1..], Some(n)),
                 es[..i] + [T(Node(x))] + es[i + 1..], n, seen')
  {
    Replaced(ms, es, n, i, sub, x, seen, seen');
    hide RepAll, PendingAll, Proper;
  }

  lemma GrownNew(ms: seq<MEntry>, es: seq<Entry>, n: nat, i: nat, sub: Mst, x: seq<Entry>,
                 p: set<Cid>, s0: set<Cid>, seen: set<Cid>, seen': set<Cid>)
    requires RepAll(ms, es, n) && PendingAll(ms, es) !! seen && PendingAll(ms, es) <= p
    requires i <= |es| && |ms| == |es| && n > 0 && s0 <= seen <= s0 + p
    requires Kept({}, seen, sub, x, n - 1, seen')
    ensures Kept(p, s0, FromEntries(ms[..i] + [MT(sub)] + ms[i..], Some(n)),
                 es[..i] + [T(Node(x))] + es[i..], n, seen')
  {
    assert ms[0..i] == ms[..i] && es[0..i] == es[..i] && ms[i..|es|] == ms[i..] && es[i..|es|] == es[i..];
    RepSlice(ms, es, n, 0, i);
    RepSlice(ms, es, n, i, |es|);
    RepOne(sub, x, n - 1);
    hide RepAll, PendingAll, Pending, Rep;
    assert seen' == seen;
    assert KeptRun(p, seen', ms[..i], es[..i], n) && KeptRun(p, seen', ms[i..], es[i..], n);
    assert KeptRun(p, seen', [MT(sub)], [T(Node(x))], n);
    hide KeptRun;
    RunJoin3(p, seen', ms[..i], es[..i], [MT(sub)], [T(Node(x))], ms[i..], es[i..], n);
    RunNode(p, s0, seen', ms[..i] + [MT(sub)] + ms[i..], es[..i] + [T(Node(x))] + es[i..], n, Some(n));
  }

  /** The case where the layers agree and the key is new: the leaf goes in at
      its index, splitting a left neighbour that is a subtree. */
  method InsertBeside(ms: seq<MEntry>, i: nat, rd: Reader, depth: nat, key: Key, value: Cid, layer: nat,
                      ghost es: seq<Entry>, ghost n: nat)
    returns (r: Result<Mst>)
    requires i <= |ms|
    modifies rd
    ensures old(rd.seen) <= rd.seen
    ensures r.Ok? ==> r.value.layer == Some(layer)
    ensures RepAll(ms, es, n) && Proper(es, n) && Fresh(PendingAll(ms, es), rd.store, old(rd.seen))
            && i == IndexOf(es, key) && !Here(es, key) && layer == n && depth + n <= MAX_DEPTH ==>
              if r.Ok? then
                && Insert(es, n, key, value, n).Ok?
                && Kept(PendingAll(ms, es), old(rd.seen), r.value, Insert(es, n, key, value, n).value, n, rd.seen)
              else Absent(r.error, PendingAll(ms, es), rd.store)
  {
    hide Proper, CidOf, RepAll, PendingAll, IndexOf;
    ghost var good := && RepAll(ms, es, n) && Proper(es, n) && Fresh(PendingAll(ms, es), rd.store, rd.seen)
                      && i == IndexOf(es, key) && !Here(es, key) && layer == n && depth + n <= MAX_DEPTH;
    if good { SameKinds(ms, es, n); }
    ghost var s0 := rd.seen;
    if i > 0 && ms[i - 1].MT? {
      if good { ChildLegible(ms, es, n, i - 1, rd.store, s0); }
      var halves := SplitAround(ms[i - 1].sub, rd, depth, key, SubOf(es, i - 1), Down(n));
      if halves.Err? { return Err(halves.error); }
      if good {
        BesideRun(ms, es, n, i - 1, key, value, halves.value.0, halves.value.1, s0, rd.seen);
      }
      var middle := OptNode(halves.value.0) + [ML(Leaf(key, value))] + OptNode(halves.value.1);
      r := Ok(FromEntries(ms[..i - 1] + middle + ms[i..], Some(layer)));
    } else {
      if good { AloneRun(ms, es, n, i, key, value, s0); }
      r := Ok(FromEntries(ms[..i] + [ML(Leaf(key, value))] + ms[i..], Some(layer)));
    }
  }

  lemma AloneRun(ms: seq<MEntry>, es: seq<Entry>, n: nat, i: nat, k: Key, v: Cid, seen: set<Cid>)
    requires RepAll(ms, es, n) && PendingAll(ms, es) !! seen && i == IndexOf(es, k) && !Under(es, i) && !Here(es, k)
    ensures |ms| == |es|
    ensures Insert(es, n, k, v, n).Ok?
    ensures Kept(PendingAll(ms, es), seen, FromEntries(ms[..i] + [ML(Leaf(k, v))] + ms[i..], Some(n)),
                 Insert(es, n, k, v, n).value, n, seen)
  {
    var p, leaf := PendingAll(ms, es), Leaf(k, v);
    assert ms[0..i] == ms[..i] && es[0..i] == es[..i] && ms[i..|es|] == ms[i..] && es[i..|es|] == es[i..];
    RunSlice(ms, es, n, 0, i, seen);
    RunSlice(ms, es, n, i, |es|, seen);
    RunLeaf(p, seen, leaf, n);
    assert Split([], k) == ([], []);
    assert [] + [L(leaf)] + [] == [L(leaf)];
    hide KeptRun, RepAll, PendingAll;
    RunJoin3(p, seen, ms[..i], es[..i], [ML(leaf)], [L(leaf)], ms[i..], es[i..], n);
    RunNode(p, seen, seen, ms[..i] + [ML(leaf)] + ms[i..], es[..i] + [L(leaf)] + es[i..], n, Some(n));
  }

  lemma BesideIs(es: seq<Entry>, n: nat, i: nat, k: Key, v: Cid)
    requires i + 1 == IndexOf(es, k) && es[i].T? && !Here(es, k)
    ensures var (x, y) := Split(es[i].sub.entries, k);
            Insert(es, n, k, v, n) == Ok(es[..i] + (Opt(x) + [L(Leaf(k, v))] + Opt(y)) + es[i + 1..])
  {
  }

  lemma FoundIs(es: seq<Entry>, n: nat, k: Key, v: Cid)
    requires Here(es, k)
    ensures Insert(es, n, k, v, n) == Err(KeyExists(k))
  {
  }

  lemma BesideRun(ms: seq<MEntry>, es: seq<Entry>, n: nat, i: nat, k: Key, v: Cid, a: Option<Mst>, b: Option<Mst>,
                  seen: set<Cid>, seen': set<Cid>)
    requires RepAll(ms, es, n) && Proper(es, n) && PendingAll(ms, es) !! seen
    requires i + 1 == IndexOf(es, k) && es[i].T? && |ms| == |es| && ms[i].MT? && n > 0 && !Here(es, k)
    requires KeptOpt(Pending(ms[i].sub, es[i].sub.entries), seen, a, Split(es[i].sub.entries, k).0, n - 1, seen')
    requires KeptOpt(Pending(ms[i].sub, es[i].sub.entries), seen, b, Split(es[i].sub.entries, k).1, n - 1, seen')
    ensures Insert(es, n, k, v, n).Ok?
    ensures Kept(PendingAll(ms, es), seen,
                 FromEntries(ms[..i] + (OptNode(a) + [ML(Leaf(k, v))] + OptNode(b)) + ms[i + 1..], Some(n)),
                 Insert(es, n, k, v, n).value, n, seen')
  {
    hide RepAll, PendingAll, Pending, Proper, IndexOf, Split, Insert, Here, Rep, Opt, OptNode;
    var p, leaf, inner := PendingAll(ms, es), Leaf(k, v), Pending(ms[i].sub, es[i].sub.entries);
    var (x, y) := Split(es[i].sub.entries, k);
    BesideIs(es, n, i, k, v);
    RunsAround(ms, es, n, i, seen, seen');
    RunOpt(inner, seen, a, x, n - 1, seen');
    RunOpt(inner, seen, b, y, n - 1, seen');
    RunWider(inner, p, seen', OptNode(a), Opt(x), n);
    RunWider(inner, p, seen', OptNode(b), Opt(y), n);
    RunLeaf(p, seen', leaf, n);
    assert seen <= seen' <= seen + p;
    hide KeptRun, KeptOpt;
    var mid, mid' := OptNode(a) + [ML(leaf)] + OptNode(b), Opt(x) + [L(leaf)] + Opt(y);
    RunJoin3(p, seen', OptNode(a), Opt(x), [ML(leaf)], [L(leaf)], OptNode(b), Opt(y), n);
    RunJoin3(p, seen', ms[..i], es[..i], mid, mid', ms[i + 1..], es[i + 1..], n);
    RunNode(p, seen, seen', ms[..i] + mid + ms[i + 1..], es[..i] + mid' + es[i + 1..], n, Some(n));
  }
}
