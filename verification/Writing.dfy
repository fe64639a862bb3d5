/** Changing a tree that is read on demand: each method does to the program's
    nodes what the operation on values does to the entries they stand for. */
module Writing {
  import opened Data
  import opened Tree
  import opened TreeOps
  import opened Codec
  import opened Nodes
  import opened Mst
  import opened Reading

  // ---- Optional nodes ----

  function OptNode(o: Option<Mst>): seq<MEntry> {
    if o.None? then [] else [MT(o.value)]
  }

  /** The node some entries come to, where there are any. */
  function NodeIfAny(ms: seq<MEntry>, layer: Option<nat>): Option<Mst> {
    if ms == [] then None else Some(FromEntries(ms, layer))
  }

  ghost predicate KeptOpt(pending: set<Cid>, seen: set<Cid>, o: Option<Mst>, xs: seq<Entry>, n: nat, seen': set<Cid>) {
    && (o.None? <==> xs == [])
    && (o.Some? ==> Kept(pending, seen, o.value, xs, n, seen'))
    && seen <= seen' <= seen + pending
  }

  /** A run of entries an operation may leave. */
  ghost predicate KeptRun(pending: set<Cid>, seen': set<Cid>, ms: seq<MEntry>, es: seq<Entry>, n: nat) {
    RepAll(ms, es, n) && PendingAll(ms, es) <= pending && PendingAll(ms, es) !! seen'
  }

  lemma RunOpt(pending: set<Cid>, seen: set<Cid>, o: Option<Mst>, xs: seq<Entry>, n: nat, seen': set<Cid>)
    requires KeptOpt(pending, seen, o, xs, n, seen')
    ensures KeptRun(pending, seen', OptNode(o), Opt(xs), n + 1)
  {
    if o.Some? { RepOne(o.value, xs, n); }
  }

  lemma RunLeaf(pending: set<Cid>, seen': set<Cid>, leaf: Leaf, n: nat)
    ensures KeptRun(pending, seen', [ML(leaf)], [L(leaf)], n)
  {
    assert RepEntry(ML(leaf), L(leaf), n);
  }

  lemma RunJoin(pending: set<Cid>, seen': set<Cid>, a: seq<MEntry>, x: seq<Entry>, b: seq<MEntry>, y: seq<Entry>,
                n: nat)
    requires KeptRun(pending, seen', a, x, n) && KeptRun(pending, seen', b, y, n)
    ensures KeptRun(pending, seen', a + b, x + y, n)
  {
    hide RepAll, PendingAll;
    RepConcat(a, x, b, y, n);
  }

  lemma RunJoin3(pending: set<Cid>, seen': set<Cid>, a: seq<MEntry>, x: seq<Entry>,
                 b: seq<MEntry>, y: seq<Entry>, c: seq<MEntry>, z: seq<Entry>, n: nat)
    requires KeptRun(pending, seen', a, x, n) && KeptRun(pending, seen', b, y, n) && KeptRun(pending, seen', c, z, n)
    ensures KeptRun(pending, seen', a + b + c, x + y + z, n)
  {
    hide KeptRun;
    RunJoin(pending, seen', a, x, b, y, n);
    RunJoin(pending, seen', a + b, x + y, c, z, n);
  }

  lemma RunWider(pending: set<Cid>, wider: set<Cid>, seen': set<Cid>, ms: seq<MEntry>, es: seq<Entry>, n: nat)
    requires KeptRun(pending, seen', ms, es, n) && pending <= wider
    ensures KeptRun(wider, seen', ms, es, n)
  {
  }

  lemma RunSlice(ms: seq<MEntry>, es: seq<Entry>, n: nat, lo: nat, hi: nat, seen: set<Cid>)
    requires RepAll(ms, es, n) && lo <= hi <= |es| && PendingAll(ms, es) !! seen
    ensures KeptRun(PendingAll(ms, es), seen, ms[lo..hi], es[lo..hi], n)
  {
    RepSlice(ms, es, n, lo, hi);
  }

  /** The entries either side of one subtree, whatever was read inside it. */
  lemma RunsAround(ms: seq<MEntry>, es: seq<Entry>, n: nat, i: nat, seen: set<Cid>, seen': set<Cid>)
    requires RepAll(ms, es, n) && Proper(es, n) && PendingAll(ms, es) !! seen
    requires i < |es| && es[i].T? && ms[i].MT?
    requires seen' <= seen + Pending(ms[i].sub, es[i].sub.entries)
    ensures KeptRun(PendingAll(ms, es), seen', ms[..i], es[..i], n)
    ensures KeptRun(PendingAll(ms, es), seen', ms[i + 1..], es[i + 1..], n)
    ensures Pending(ms[i].sub, es[i].sub.entries) <= PendingAll(ms, es)
  {
    assert ms[0..i] == ms[..i] && es[0..i] == es[..i];
    assert ms[i + 1..|es|] == ms[i + 1..] && es[i + 1..|es|] == es[i + 1..];
    RepSlice(ms, es, n, 0, i);
    RepSlice(ms, es, n, i + 1, |es|);
    Outside(ms, es, n, i, 0, i, seen, seen');
    Outside(ms, es, n, i, i + 1, |es|, seen, seen');
    ChildPending(ms, es, i);
  }

  /** A node made of a run that was kept. */
  lemma RunNode(pending: set<Cid>, seen: set<Cid>, seen': set<Cid>, ms: seq<MEntry>, es: seq<Entry>, n: nat,
                layer: Option<nat>)
    requires KeptRun(pending, seen', ms, es, n) && (layer.Some? ==> layer.value == n)
    requires seen <= seen' <= seen + pending
    ensures Kept(pending, seen, FromEntries(ms, layer), es, n, seen')
    ensures KeptOpt(pending, seen, NodeIfAny(ms, layer), es, n, seen')
  {
  }

  // ---- Splitting ----

  /** The lazy `Split`. */
  method SplitAround(m: Mst, rd: Reader, depth: nat, key: Key, ghost es: seq<Entry>, ghost n: nat)
    returns (r: Result<(Option<Mst>, Option<Mst>)>)
    modifies rd
    ensures depth >= 256 ==> r == Err(TOO_DEEP) && rd.seen == old(rd.seen)
    ensures old(rd.seen) <= rd.seen
    ensures r.Ok? ==>
              && (r.value.0.Some? ==> r.value.0.value.layer == m.layer)
              && (r.value.1.Some? ==> r.value.1.value.layer == m.layer)
    ensures Legible(m, es, n, rd.store, old(rd.seen)) && depth + n < MAX_DEPTH ==>
              if r.Ok? then
                && KeptOpt(Pending(m, es), old(rd.seen), r.value.0, Split(es, key).0, n, rd.seen)
                && KeptOpt(Pending(m, es), old(rd.seen), r.value.1, Split(es, key).1, n, rd.seen)
              else Absent(r.error, Pending(m, es), rd.store)
    decreases rd.store.Keys - rd.seen, Size(m)
  {
    hide Proper, CidOf, Position, IndexOf, RepAll, PendingAll, Split;
    if depth >= MAX_DEPTH {
      return Err(TOO_DEEP);
    }
    ghost var good := Legible(m, es, n, rd.store, rd.seen) && depth + n < MAX_DEPTH;
    var m', o := Fill(m, rd, es, n);
    if o.Err? {
      return Err(o.error);
    }
    var ms := m'.entries.list;
    var i := Position(ms, key);
    if good { PositionIs(ms, es, n, key); }
    ghost var mid := rd.seen;
    var left, right := ms[..i], ms[i..];
    if i > 0 && ms[i - 1].MT? {
      ChildSmaller(ms, i - 1);
      if good { ChildLegible(ms, es, n, i - 1, rd.store, mid); }
      var halves := SplitAround(ms[i - 1].sub, rd, depth + 1, key, SubOf(es, i - 1), Down(n));
      if halves.Err? {
        return Err(halves.error);
      }
      left, right := ms[..i - 1] + OptNode(halves.value.0), OptNode(halves.value.1) + right;
      if good { SplitRuns(ms, es, n, key, i - 1, halves.value.0, halves.value.1, mid, rd.seen); }
    } else if good {
      SplitFlat(ms, es, n, key, i, mid);
    }
    if good {
      RunsWider(PendingAll(ms, es), Pending(m, es), rd.seen, left, Split(es, key).0, right, Split(es, key).1, n);
      RunNode(Pending(m, es), old(rd.seen), rd.seen, left, Split(es, key).0, n, m.layer);
      RunNode(Pending(m, es), old(rd.seen), rd.seen, right, Split(es, key).1, n, m.layer);
    }
    r := Ok((NodeIfAny(left, m.layer), NodeIfAny(right, m.layer)));
  }

  lemma RunsWider(pending: set<Cid>, wider: set<Cid>, seen': set<Cid>, a: seq<MEntry>, x: seq<Entry>,
                  b: seq<MEntry>, y: seq<Entry>, n: nat)
    requires KeptRun(pending, seen', a, x, n) && KeptRun(pending, seen', b, y, n) && pending <= wider
    ensures KeptRun(wider, seen', a, x, n) && KeptRun(wider, seen', b, y, n)
  {
  }

  lemma SplitFlat(ms: seq<MEntry>, es: seq<Entry>, n: nat, k: Key, i: nat, seen: set<Cid>)
    requires RepAll(ms, es, n) && PendingAll(ms, es) !! seen && i == IndexOf(es, k) && !Under(es, i) && |ms| == |es|
    ensures KeptRun(PendingAll(ms, es), seen, ms[..i], Split(es, k).0, n)
    ensures KeptRun(PendingAll(ms, es), seen, ms[i..], Split(es, k).1, n)
  {
    assert Split(es, k) == (es[..i], es[i..]);
    hide RepAll, PendingAll, IndexOf, Split;
    RunSlice(ms, es, n, 0, i, seen);
    RunSlice(ms, es, n, i, |es|, seen);
    assert ms[0..i] == ms[..i] && es[0..i] == es[..i] && ms[i..|es|] == ms[i..] && es[i..|es|] == es[i..];
  }

  lemma SplitRuns(ms: seq<MEntry>, es: seq<Entry>, n: nat, k: Key, i: nat, b: Option<Mst>, a: Option<Mst>,
                  seen: set<Cid>, seen': set<Cid>)
    requires RepAll(ms, es, n) && Proper(es, n) && PendingAll(ms, es) !! seen
    requires i + 1 == IndexOf(es, k) && es[i].T? && ms[i].MT? && n > 0
    requires KeptOpt(Pending(ms[i].sub, es[i].sub.entries), seen, b, Split(es[i].sub.entries, k).0, n - 1, seen')
    requires KeptOpt(Pending(ms[i].sub, es[i].sub.entries), seen, a, Split(es[i].sub.entries, k).1, n - 1, seen')
    ensures KeptRun(PendingAll(ms, es), seen', ms[..i] + OptNode(b), Split(es, k).0, n)
    ensures KeptRun(PendingAll(ms, es), seen', OptNode(a) + ms[i + 1..], Split(es, k).1, n)
  {
    assert |ms| == |es|;
    hide RepAll, PendingAll, Pending, Proper, IndexOf;
    var inner := Pending(ms[i].sub, es[i].sub.entries);
    var (x, y) := Split(es[i].sub.entries, k);
    RunsAround(ms, es, n, i, seen, seen');
    RunOpt(inner, seen, b, x, n - 1, seen');
    RunOpt(inner, seen, a, y, n - 1, seen');
    RunWider(inner, PendingAll(ms, es), seen', OptNode(b), Opt(x), n);
    RunWider(inner, PendingAll(ms, es), seen', OptNode(a), Opt(y), n);
    hide KeptRun, KeptOpt;
    RunJoin(PendingAll(ms, es), seen', ms[..i], es[..i], OptNode(b), Opt(x), n);
    RunJoin(PendingAll(ms, es), seen', OptNode(a), Opt(y), ms[i + 1..], es[i + 1..], n);
  }

  // ---- Joining ----

  /** Reading elsewhere leaves a node as legible as it was. */
  lemma Later(m: Mst, es: seq<Entry>, n: nat, store: Store, seen: set<Cid>, seen': set<Cid>, other: set<Cid>)
    requires Legible(m, es, n, store, seen) && Pending(m, es) !! other && seen' <= seen + other
    ensures Legible(m, es, n, store, seen')
  {
  }

  /** The lazy `Merge`. That the keys are in order is the caller's. */
  method AppendMerge(l: Mst, r: Mst, rd: Reader, depth: nat,
                     ghost x: seq<Entry>, ghost y: seq<Entry>, ghost n: nat)
    returns (merged: Result<Mst>)
    modifies rd
    ensures depth >= 256 ==> merged == Err(TOO_DEEP) && rd.seen == old(rd.seen)
    ensures old(rd.seen) <= rd.seen
    ensures Legible(l, x, n, rd.store, old(rd.seen)) && Legible(r, y, n, rd.store, old(rd.seen))
            && x != [] && y != [] && Pending(l, x) !! Pending(r, y) && depth + n + 1 < MAX_DEPTH ==>
              if merged.Ok? then
                Kept(Pending(l, x) + Pending(r, y), old(rd.seen), merged.value, Merge(x, y), n, rd.seen)
              else Absent(merged.error, Pending(l, x) + Pending(r, y), rd.store)
    decreases rd.store.Keys - rd.seen, Size(l) + Size(r), 2
  {
    hide Proper, CidOf, RepAll, PendingAll, NodesOf;
    if depth >= MAX_DEPTH {
      return Err(TOO_DEEP);
    }
    ghost var good := && Legible(l, x, n, rd.store, rd.seen) && Legible(r, y, n, rd.store, rd.seen)
                      && x != [] && y != [] && Pending(l, x) !! Pending(r, y) && depth + n + 1 < MAX_DEPTH;
    ghost var p, q, s0 := Pending(l, x), Pending(r, y), rd.seen;
    var l1, a := LayerIn(l, rd, depth + 1, x, n);
    if a.Err? { return Err(a.error); }
    ghost var s1 := rd.seen;
    if good { Later(r, y, n, rd.store, s0, s1, p); }
    var r1, b := LayerIn(r, rd, depth + 1, y, n);
    if b.Err? { return Err(b.error); }
    if a.value != b.value {
      return Err(MalformedNode("merged two nodes from different layers"));
    }
    merged := MergeRead(l1, r1, Some(a.value), rd, depth, x, y, n);
  }

  /** The same once both layers are known. */
  method MergeRead(l: Mst, r: Mst, layer: Option<nat>, rd: Reader, depth: nat,
                   ghost x: seq<Entry>, ghost y: seq<Entry>, ghost n: nat)
    returns (merged: Result<Mst>)
    modifies rd
    ensures old(rd.seen) <= rd.seen
    ensures Legible(l, x, n, rd.store, old(rd.seen)) && Legible(r, y, n, rd.store, old(rd.seen))
            && layer == Some(n) && Pending(l, x) !! Pending(r, y) && depth + n + 1 < MAX_DEPTH ==>
              if merged.Ok? then
                Kept(Pending(l, x) + Pending(r, y), old(rd.seen), merged.value, Merge(x, y), n, rd.seen)
              else Absent(merged.error, Pending(l, x) + Pending(r, y), rd.store)
    decreases rd.store.Keys - rd.seen, Size(l) + Size(r), 1
  {
    hide Proper, CidOf, RepAll, PendingAll, Merge;
    ghost var good := && Legible(l, x, n, rd.store, rd.seen) && Legible(r, y, n, rd.store, rd.seen)
                      && layer == Some(n) && Pending(l, x) !! Pending(r, y) && depth + n + 1 < MAX_DEPTH;
    ghost var p, q, s0 := Pending(l, x), Pending(r, y), rd.seen;
    var l', a := Fill(l, rd, x, n);
    if a.Err? { return Err(a.error); }
    ghost var s1 := rd.seen;
    if good { Later(r, y, n, rd.store, s0, s1, p); }
    var r', b := Fill(r, rd, y, n);
    if b.Err? { return Err(b.error); }
    ghost var s2 := rd.seen;
    merged := MergeLists(l'.entries.list, r'.entries.list, layer, rd, depth, x, y, n);
    if good && merged.Ok? {
      WiderPending(PendingAll(l'.entries.list, x) + PendingAll(r'.entries.list, y), p + q, s0, s2, merged.value,
                   Merge(x, y), n, rd.seen);
    }
  }

  lemma WiderPending(q: set<Cid>, p: set<Cid>, s0: set<Cid>, s1: set<Cid>, m: Mst, es: seq<Entry>, n: nat, s2: set<Cid>)
    requires Kept(q, s1, m, es, n, s2) && q <= p && s0 <= s1 <= s0 + p
    ensures Kept(p, s0, m, es, n, s2)
  {
    hide Rep, Pending;
  }

  /** The same once both are read. */
  method MergeLists(left: seq<MEntry>, right: seq<MEntry>, layer: Option<nat>, rd: Reader, depth: nat,
                    ghost x: seq<Entry>, ghost y: seq<Entry>, ghost n: nat)
    returns (merged: Result<Mst>)
    modifies rd
    ensures old(rd.seen) <= rd.seen
    ensures RepAll(left, x, n) && Proper(x, n) && Fresh(PendingAll(left, x), rd.store, old(rd.seen))
            && RepAll(right, y, n) && Proper(y, n) && Fresh(PendingAll(right, y), rd.store, old(rd.seen))
            && layer == Some(n) && PendingAll(left, x) !! PendingAll(right, y) && depth + n + 1 < MAX_DEPTH ==>
              if merged.Ok? then
                Kept(PendingAll(left, x) + PendingAll(right, y), old(rd.seen), merged.value, Merge(x, y), n, rd.seen)
              else Absent(merged.error, PendingAll(left, x) + PendingAll(right, y), rd.store)
    decreases rd.store.Keys - rd.seen, SizeAll(left) + SizeAll(right), 0
  {
    hide Proper, CidOf, RepAll, PendingAll, Pending, Rep, Merge, SizeAll;
    ghost var good := && RepAll(left, x, n) && Proper(x, n) && Fresh(PendingAll(left, x), rd.store, rd.seen)
                      && RepAll(right, y, n) && Proper(y, n) && Fresh(PendingAll(right, y), rd.store, rd.seen)
                      && layer == Some(n) && PendingAll(left, x) !! PendingAll(right, y) && depth + n + 1 < MAX_DEPTH;
    ghost var p, s := PendingAll(left, x) + PendingAll(right, y), rd.seen;
    if good { SameKinds(left, x, n); SameKinds(right, y, n); }
    if left != [] && right != [] && left[|left| - 1].MT? && right[0].MT? {
      var last := |left| - 1;
      ChildSmaller(left, last);
      ChildSmaller(right, 0);
      if good {
        ChildLegible(left, x, n, last, rd.store, s);
        ChildLegible(right, y, n, 0, rd.store, s);
      }
      var inner := AppendMerge(left[last].sub, right[0].sub, rd, depth + 1, SubOf(x, |x| - 1), SubOf(y, 0), Down(n));
      if inner.Err? { return Err(inner.error); }
      if good { MergedMeeting(left, x, right, y, n, inner.value, s, s, rd.seen, p); }
      merged := Ok(FromEntries(left[..last] + [MT(inner.value)] + right[1..], layer));
    } else {
      if good { MergedApart(left, x, right, y, n, s, s, p); }
      merged := Ok(FromEntries(left + right, layer));
    }
  }

  lemma MeetingIs(x: seq<Entry>, y: seq<Entry>)
    requires x != [] && y != [] && x[|x| - 1].T? && y[0].T?
    ensures Merge(x, y) ==
            x[..|x| - 1] + [T(Node(Merge(x[|x| - 1].sub.entries, y[0].sub.entries)))] + y[1..]
  {
  }

  lemma ApartIs(x: seq<Entry>, y: seq<Entry>)
    requires x == [] || y == [] || x[|x| - 1].L? || y[0].L?
    ensures Merge(x, y) == x + y
  {
  }

  lemma MergedApart(left: seq<MEntry>, x: seq<Entry>, right: seq<MEntry>, y: seq<Entry>, n: nat,
                    s0: set<Cid>, seen: set<Cid>, pending: set<Cid>)
    requires RepAll(left, x, n) && RepAll(right, y, n)
    requires PendingAll(left, x) <= pending && PendingAll(right, y) <= pending
    requires PendingAll(left, x) !! seen && PendingAll(right, y) !! seen && s0 <= seen <= s0 + pending
    requires x == [] || y == [] || x[|x| - 1].L? || y[0].L?
    ensures Kept(pending, s0, FromEntries(left + right, Some(n)), Merge(x, y), n, seen)
  {
    hide RepAll, PendingAll, Merge, Rep, Pending, Kept;
    ApartIs(x, y);
    RunJoin(pending, seen, left, x, right, y, n);
    hide KeptRun;
    RunNode(pending, s0, seen, left + right, Merge(x, y), n, Some(n));
  }

  lemma MergedMeeting(left: seq<MEntry>, x: seq<Entry>, right: seq<MEntry>, y: seq<Entry>, n: nat,
                      inner: Mst, s0: set<Cid>, seen: set<Cid>, seen': set<Cid>, pending: set<Cid>)
    requires RepAll(left, x, n) && Proper(x, n) && RepAll(right, y, n) && Proper(y, n)
    requires PendingAll(left, x) !! seen && PendingAll(right, y) !! seen && PendingAll(left, x) !! PendingAll(right, y)
    requires PendingAll(left, x) + PendingAll(right, y) <= pending && s0 <= seen <= s0 + pending
    requires x != [] && y != [] && x[|x| - 1].T? && y[0].T? && n > 0
    requires |left| == |x| && |right| == |y| && left[|x| - 1].MT? && right[0].MT?
    requires Kept(Pending(left[|x| - 1].sub, x[|x| - 1].sub.entries) + Pending(right[0].sub, y[0].sub.entries),
                  seen, inner, Merge(x[|x| - 1].sub.entries, y[0].sub.entries), n - 1, seen')
    ensures Kept(pending, s0, FromEntries(left[..|x| - 1] + [MT(inner)] + right[1..], Some(n)), Merge(x, y), n, seen')
  {
    hide RepAll, PendingAll, Merge, Rep, Pending, Proper;
    MeetingRuns(left, x, right, y, n, inner, seen, seen', pending);
    hide KeptRun;
    RunNode(pending, s0, seen', left[..|x| - 1] + [MT(inner)] + right[1..], Merge(x, y), n, Some(n));
  }

  lemma MeetingRuns(left: seq<MEntry>, x: seq<Entry>, right: seq<MEntry>, y: seq<Entry>, n: nat,
                    inner: Mst, seen: set<Cid>, seen': set<Cid>, pending: set<Cid>)
    requires RepAll(left, x, n) && Proper(x, n) && RepAll(right, y, n) && Proper(y, n)
    requires PendingAll(left, x) !! seen && PendingAll(right, y) !! seen && PendingAll(left, x) !! PendingAll(right, y)
    requires PendingAll(left, x) + PendingAll(right, y) <= pending
    requires x != [] && y != [] && x[|x| - 1].T? && y[0].T? && n > 0
    requires |left| == |x| && |right| == |y| && left[|x| - 1].MT? && right[0].MT?
    requires Kept(Pending(left[|x| - 1].sub, x[|x| - 1].sub.entries) + Pending(right[0].sub, y[0].sub.entries),
                  seen, inner, Merge(x[|x| - 1].sub.entries, y[0].sub.entries), n - 1, seen')
    ensures KeptRun(pending, seen', left[..|x| - 1] + [MT(inner)] + right[1..], Merge(x, y), n)
    ensures seen <= seen' <= seen + pending
  {
    hide Proper, CidOf, RepAll, PendingAll, Pending, Rep, Merge;
    SameKinds(left, x, n);
    SameKinds(right, y, n);
    var last := |x| - 1;
    var a, b := Pending(left[last].sub, x[last].sub.entries), Pending(right[0].sub, y[0].sub.entries);
    var both := Merge(x[last].sub.entries, y[0].sub.entries);
    MeetingIs(x, y);
    ChildPending(left, x, last);
    ChildPending(right, y, 0);
    RunsAround(left, x, n, last, seen + b, seen');
    RunsAround(right, y, n, 0, seen + a, seen');
    RunWider(PendingAll(left, x), pending, seen', left[..last], x[..last], n);
    RunWider(PendingAll(right, y), pending, seen', right[1..], y[1..], n);
    RepOne(inner, both, n - 1);
    assert KeptRun(pending, seen', [MT(inner)], [T(Node(both))], n);
    hide KeptRun;
    RunJoin3(pending, seen', left[..last], x[..last], [MT(inner)], [T(Node(both))], right[1..], y[1..], n);
  }
}
