/** Reading a tree on demand. Every method here ends on any store whatever: a
    node is read at most once by one reader, and a call that reads nothing goes
    on to something smaller. On a store that tells the truth, each answers what
    the tree it stands for says, or names a block that is missing. */
module Reading {
  import opened Data
  import opened Keys
  import opened Tree
  import opened TreeOps
  import opened Codec
  import opened History
  import opened Nodes
  import opened Mst

  /** The refusal at `MAX_DEPTH` nested calls. */
  const MAX_DEPTH := 256

  const TOO_DEEP := MalformedNode("a tree deeper than its keys allow")

  /** A store with a record of what one traversal has read from it. How deep
      calls are nested is passed down as a parameter and not kept here. */
  class Reader {
    const store: Store
    var seen: set<Cid>

    constructor (store: Store)
      ensures this.store == store && seen == {}
    {
      this.store := store;
      seen := {};
    }

    /** One block from the store as a node. A CID is only ever read once. */
    method ReadNode(cid: Cid) returns (r: Result<NodeData>)
      modifies this
      ensures seen == old(seen) + {cid}
      ensures r.Ok? ==> cid !in old(seen) && cid in store && store[cid] == NodeBlock(r.value)
      ensures cid in old(seen) ==> r == Err(MalformedNode("a node under itself"))
      ensures cid !in old(seen) && cid !in store ==> r == Err(MissingBlock(cid))
      ensures cid !in old(seen) && cid in store ==>
                r == if store[cid].NodeBlock? then Ok(store[cid].data) else Err(Decode)
    {
      if cid in seen {
        r := Err(MalformedNode("a node under itself"));
        return;
      }
      seen := seen + {cid};
      if cid !in store {
        r := Err(MissingBlock(cid));
      } else if store[cid].NodeBlock? {
        r := Ok(store[cid].data);
      } else {
        r := Err(Decode);
      }
    }
  }

  /** What filling a node costs: nothing where it is loaded, and otherwise one
      block of the store that had not been read. */
  ghost predicate Cost(m: Mst, store: Store, seen: set<Cid>, seen': set<Cid>) {
    if m.entries.Read? then seen' == seen
    else m.pointer.Some? && m.pointer.value in store && m.pointer.value !in seen
         && seen' == seen + {m.pointer.value}
  }

  /** Some block of the store has been read that had not been. */
  ghost predicate Spent(store: Store, seen: set<Cid>, seen': set<Cid>) {
    store.Keys - seen' < store.Keys - seen
  }

  /** Loads a node's entries, where they are not loaded. */
  method Fill(m: Mst, rd: Reader, ghost es: seq<Entry>, ghost n: nat) returns (m': Mst, o: Result<()>)
    modifies rd
    ensures old(rd.seen) <= rd.seen
    ensures o.Ok? ==> Cost(m, rd.store, old(rd.seen), rd.seen) && m'.entries.Read?
    ensures o.Ok? && m.entries.Read? ==> m' == m
    ensures m'.layer == m.layer && m'.pointer == m.pointer
    ensures Legible(m, es, n, rd.store, old(rd.seen)) ==>
              if o.Err? then m.entries.Unread? && o.error == MissingBlock(CidOf(es)) && CidOf(es) !in rd.store
              else Kept(Pending(m, es), old(rd.seen), m', es, n, rd.seen)
  {
    if m.entries.Read? {
      return m, Ok(());
    }
    if m.pointer.None? {
      return m, Err(MalformedNode("a node with neither contents nor CID"));
    }
    var data := rd.ReadNode(m.pointer.value);
    if data.Err? {
      return m, Err(data.error);
    }
    // `FirstKeyIsWhole`.
    var under: Option<nat> := None;
    if data.value.e != [] {
      var layer := LeadingZeros(data.value.e[0].k);
      if layer > 0 { under := Some(layer - 1); }
    }
    var flat := Deserialize(data.value);
    if Legible(m, es, n, rd.store, old(rd.seen)) {
      FillRep(m, es, n, under, data.value);
    }
    if flat.Err? {
      return m, Err(flat.error);
    }
    m' := m.(entries := Read(Stubs(flat.value, under)));
    o := Ok(());
  }

  lemma FillRep(m: Mst, es: seq<Entry>, n: nat, under: Option<nat>, data: NodeData)
    requires Rep(m, es, n) && Proper(es, n) && m.entries.Unread?
    requires data == Encode(FlatOf(es))
    requires under == if data.e != [] && LayerOf(data.e[0].k) > 0 then Some(LayerOf(data.e[0].k) - 1) else None
    ensures Codec.Decode(data) == Ok(FlatOf(es))
    ensures var m' := m.(entries := Read(Stubs(FlatOf(es), under)));
            && Rep(m', es, n) && Pending(m', es) == NodesUnder(es)
            && CidOf(es) !in NodesUnder(es)
  {
    FlatWritable(es);
    RoundTrip(FlatOf(es));
    FirstKeyIsWhole(FlatOf(es));
    if data.e != [] {
      var i := if es[0].T? then 1 else 0;
      assert FitsEntry(es[i], n);
    }
    StubsRep(es, n, under);
    NotUnderItself(es, n);
  }

  lemma UnreadPending(m: Mst, es: seq<Entry>)
    requires m.entries.Unread?
    ensures CidOf(es) in Pending(m, es)
  {
  }

  /** `IndexOf` on loaded entries. */
  function Position(ms: seq<MEntry>, k: Key): (i: nat)
    ensures i <= |ms| && (i < |ms| ==> ms[i].ML?)
  {
    if ms == [] || (ms[0].ML? && !Lt(ms[0].leaf.key, k)) then 0 else 1 + Position(ms[1..], k)
  }

  lemma {:induction false} PositionIs(ms: seq<MEntry>, es: seq<Entry>, n: nat, k: Key)
    requires RepAll(ms, es, n)
    ensures Position(ms, k) == IndexOf(es, k) && |ms| == |es|
    ensures forall i :: 0 <= i < |es| ==> (ms[i].MT? <==> es[i].T?) && (ms[i].ML? ==> ms[i].leaf == es[i].leaf)
  {
    forall i | 0 <= i < |es| ensures (ms[i].MT? <==> es[i].T?) && (ms[i].ML? ==> ms[i].leaf == es[i].leaf) {
      assert RepEntry(ms[i], es[i], n);
    }
    if es != [] {
      RepSlice(ms, es, n, 1, |es|);
      PositionIs(ms[1..], es[1..], n, k);
    }
  }

  /** The entries of a child, for a proof to pass along. */
  ghost function SubOf(es: seq<Entry>, i: int): seq<Entry> {
    if 0 <= i < |es| && es[i].T? then es[i].sub.entries else []
  }

  ghost function Down(n: nat): nat {
    if n == 0 then 0 else n - 1
  }

  /** The blocks a walk down to a key goes through, and the record there. */
  function PathOf(es: seq<Entry>, k: Key): seq<Cid>
    decreases Node(es)
  {
    var i := IndexOf(es, k);
    [CidOf(es)] +
    if i < |es| && es[i].leaf.key == k then [es[i].leaf.value]
    else if Under(es, i) then PathOf(es[i - 1].sub.entries, k)
    else []
  }

  /** One subtree put back where it was, read further. */
  lemma PutBack(ms: seq<MEntry>, es: seq<Entry>, n: nat, i: nat, sub: Mst, seen: set<Cid>, seen': set<Cid>)
    requires RepAll(ms, es, n) && Proper(es, n) && PendingAll(ms, es) !! seen
    requires i < |es| && es[i].T? && ms[i].MT? && n > 0
    requires Kept(Pending(ms[i].sub, es[i].sub.entries), seen, sub, es[i].sub.entries, n - 1, seen')
    ensures RepAll(ms[i := MT(sub)], es, n) && PendingAll(ms[i := MT(sub)], es) <= PendingAll(ms, es)
    ensures PendingAll(ms[i := MT(sub)], es) !! seen' && seen <= seen' <= seen + PendingAll(ms, es)
  {
    Replaced(ms, es, n, i, sub, es[i].sub.entries, seen, seen');
    hide RepAll, PendingAll, Pending, Rep, Proper;
    assert ms[i := MT(sub)] == ms[..i] + [MT(sub)] + ms[i + 1..];
    assert es == es[..i] + [T(Node(es[i].sub.entries))] + es[i + 1..];
  }

  /** A path is the node, and then the record or the path on down. */
  lemma PathStarts(es: seq<Entry>, k: Key)
    ensures CidOf(es) in NodesOf(es) && |PathOf(es, k)| > 0 && PathOf(es, k)[0] == CidOf(es)
    ensures Here(es, k) ==> PathOf(es, k) == [CidOf(es), es[IndexOf(es, k)].leaf.value]
    ensures !Here(es, k) && !Under(es, IndexOf(es, k)) ==> PathOf(es, k) == [CidOf(es)]
    ensures !Here(es, k) && Under(es, IndexOf(es, k)) ==>
              PathOf(es, k) == [CidOf(es)] + PathOf(SubOf(es, IndexOf(es, k) - 1), k)
  {
    hide CidOf, IndexOf;
  }

  lemma LookupStarts(es: seq<Entry>, k: Key)
    ensures Here(es, k) ==> Lookup(es, k) == Some(es[IndexOf(es, k)].leaf.value)
    ensures !Here(es, k) && !Under(es, IndexOf(es, k)) ==> Lookup(es, k) == None
    ensures !Here(es, k) && Under(es, IndexOf(es, k)) ==> Lookup(es, k) == Lookup(SubOf(es, IndexOf(es, k) - 1), k)
  {
    hide IndexOf;
  }

  /** A subtree a key falls in: past the leaf before it and short of the one
      after. */
  ghost predicate Spans(es: seq<Entry>, j: int, k: Key, sub: seq<Entry>) {
    && 0 <= j < |es| && es[j] == T(Node(sub))
    && (j > 0 ==> es[j - 1].L? && Lt(es[j - 1].leaf.key, k))
    && (j + 1 < |es| ==> es[j + 1].L? && Lt(k, es[j + 1].leaf.key))
  }

  /** The nodes a walk to a key goes down through, each in the one before. */
  ghost predicate Descends(es: seq<Entry>, k: Key, trail: seq<seq<Entry>>) {
    trail != [] && trail[0] == es && forall i :: 0 <= i < |trail| - 1 ==> Enters(trail[i], k, trail[i + 1])
  }

  ghost predicate Enters(es: seq<Entry>, k: Key, sub: seq<Entry>) {
    exists j :: Spans(es, j, k, sub)
  }

  /** A path is the CIDs of the nodes gone down through and then, where the
      tree holds the key, its record. */
  lemma PathDescends(es: seq<Entry>, n: nat, k: Key) returns (trail: seq<seq<Entry>>)
    requires Fits(es, n) && Sorted(Leaves(es))
    ensures Descends(es, k, trail)
    ensures var m := Contents(Leaves(es));
            PathOf(es, k) == seq(|trail|, i requires 0 <= i < |trail| => CidOf(trail[i]))
                             + if k in m then [m[k]] else []
  {
    hide Fits, Sorted, Leaves, Contents, Descends, CidOf;
    trail := TrailTo(es, n, k);
    LookupIsContents(es, n, k);
  }

  lemma {:induction false} TrailTo(es: seq<Entry>, n: nat, k: Key) returns (trail: seq<seq<Entry>>)
    requires Fits(es, n)
    ensures Descends(es, k, trail)
    ensures PathOf(es, k) == seq(|trail|, i requires 0 <= i < |trail| => CidOf(trail[i]))
                             + if Lookup(es, k).Some? then [Lookup(es, k).value] else []
    decreases n
  {
    hide Fits, CidOf, IndexOf, Here, Lookup, PathOf, Spans, SubOf;
    trail := [es];
    PathStarts(es, k);
    LookupStarts(es, k);
    var i := IndexOf(es, k);
    if !Here(es, k) && Under(es, i) {
      UnderSpans(es, n, k);
      var rest := TrailTo(SubOf(es, i - 1), n - 1, k);
      trail := trail + rest;
      OneDeeper(es, k, i - 1, rest);
      assert forall j :: 1 <= j < |trail| ==> trail[j] == rest[j - 1];
    }
  }

  lemma UnderSpans(es: seq<Entry>, n: nat, k: Key)
    requires Fits(es, n) && !Here(es, k) && Under(es, IndexOf(es, k))
    ensures n > 0 && Fits(SubOf(es, IndexOf(es, k) - 1), n - 1)
    ensures Spans(es, IndexOf(es, k) - 1, k, SubOf(es, IndexOf(es, k) - 1))
  {
    var i := IndexOf(es, k);
    IndexSpec(es, k);
    hide IndexOf, Lt;
    assert FitsEntry(es[i - 1], n);
    if i > 1 { OneIsLeaf(es, n, i - 2); }
    if i < |es| { LtTotal(es[i].leaf.key, k); }
  }

  lemma OneIsLeaf(es: seq<Entry>, n: nat, i: nat)
    requires Fits(es, n) && i + 1 < |es|
    ensures es[i].L? || es[i + 1].L?
  {
  }

  lemma OneDeeper(es: seq<Entry>, k: Key, j: nat, rest: seq<seq<Entry>>)
    requires Descends(SubOf(es, j), k, rest) && Spans(es, j, k, SubOf(es, j))
    ensures Descends(es, k, [es] + rest)
  {
    hide Spans, SubOf;
    var trail := [es] + rest;
    assert Enters(es, k, SubOf(es, j));
    hide Enters;
    forall i | 0 <= i < |trail| - 1 ensures Enters(trail[i], k, trail[i + 1]) {
      if i > 0 { assert Enters(rest[i - 1], k, rest[i - 1 + 1]); }
    }
  }

  /** Where a key falls among entries just loaded, and the subtree it is under. */
  lemma Opened(m: Mst, es: seq<Entry>, n: nat, k: Key, store: Store, seen: set<Cid>, m': Mst, seen': set<Cid>)
    requires Legible(m, es, n, store, seen) && Kept(Pending(m, es), seen, m', es, n, seen') && m'.entries.Read?
    ensures var ms, i := m'.entries.list, Position(m'.entries.list, k);
            && i == IndexOf(es, k) && |ms| == |es|
            && (i < |es| ==> es[i].L? && ms[i].leaf == es[i].leaf)
            && (Here(es, k) <==> i < |es| && ms[i].leaf.key == k)
            && (Under(es, i) <==> i > 0 && ms[i - 1].MT?)
            && (Under(es, i) ==> n > 0 && Legible(ms[i - 1].sub, SubOf(es, i - 1), n - 1, store, seen'))
  {
    var ms, i := m'.entries.list, Position(m'.entries.list, k);
    PositionIs(ms, es, n, k);
    hide Proper, CidOf, Position, IndexOf, RepAll, PendingAll;
    if Under(es, i) { ChildLegible(ms, es, n, i - 1, store, seen'); }
  }

  /** A subtree read further leaves the node it is in kept. */
  lemma PutUnder(m: Mst, es: seq<Entry>, n: nat, store: Store, seen: set<Cid>, m': Mst, mid: set<Cid>, i: nat,
                 sub: Mst, seen': set<Cid>)
    requires Legible(m, es, n, store, seen) && Kept(Pending(m, es), seen, m', es, n, mid) && m'.entries.Read?
    requires 0 < i <= |es| && Under(es, i) && n > 0 && |m'.entries.list| == |es| && m'.entries.list[i - 1].MT?
    requires Kept(Pending(m'.entries.list[i - 1].sub, SubOf(es, i - 1)), mid, sub, SubOf(es, i - 1), n - 1, seen')
    ensures Kept(Pending(m, es), seen, m'.(entries := Read(m'.entries.list[i - 1 := MT(sub)])), es, n, seen')
  {
    hide Proper, CidOf, RepAll, PendingAll;
    PutBack(m'.entries.list, es, n, i - 1, sub, mid, seen');
  }

  lemma AbsentUnder(m: Mst, es: seq<Entry>, n: nat, seen: set<Cid>, m': Mst, mid: set<Cid>, i: nat,
                    e: Error, store: Store)
    requires Kept(Pending(m, es), seen, m', es, n, mid) && m'.entries.Read?
    requires 0 < i <= |es| && Under(es, i) && |m'.entries.list| == |es| && m'.entries.list[i - 1].MT?
    requires Absent(e, Pending(m'.entries.list[i - 1].sub, SubOf(es, i - 1)), store)
    ensures Absent(e, Pending(m, es), store)
  {
    hide CidOf, RepAll, PendingAll;
    ChildPending(m'.entries.list, es, i - 1);
  }

  /** A node not loaded is the first block a path asks for. */
  lemma AbsentHere(m: Mst, es: seq<Entry>, k: Key, store: Store)
    requires m.entries.Unread? && CidOf(es) !in store
    ensures Absent(MissingBlock(CidOf(es)), Pending(m, es), store) && CidOf(es) in PathOf(es, k)
  {
    PathStarts(es, k);
    hide PathOf, CidOf;
  }

  /** The lazy `Lookup`. */
  method GetIn(m: Mst, rd: Reader, depth: nat, key: Key, ghost es: seq<Entry>, ghost n: nat)
    returns (m': Mst, r: Result<Option<Cid>>)
    modifies rd
    ensures depth >= 256 ==> r == Err(TOO_DEEP) && rd.seen == old(rd.seen)
    ensures old(rd.seen) <= rd.seen
    ensures Legible(m, es, n, rd.store, old(rd.seen)) && depth + n < MAX_DEPTH ==>
              if r.Ok? then r.value == Lookup(es, key) && Kept(Pending(m, es), old(rd.seen), m', es, n, rd.seen)
              else Absent(r.error, Pending(m, es), rd.store) && r.error.cid in PathOf(es, key)
    ensures m'.layer == m.layer && m'.pointer == m.pointer
    decreases rd.store.Keys - rd.seen, Size(m)
  {
    hide Legible, Kept, Pending, CidOf, Position, IndexOf, Here, Lookup, PathOf, SubOf, SizeAll;
    if depth >= MAX_DEPTH {
      return m, Err(TOO_DEEP);
    }
    ghost var good := Legible(m, es, n, rd.store, rd.seen) && depth + n < MAX_DEPTH;
    ghost var seen := rd.seen;
    var o;
    m', o := Fill(m, rd, es, n);
    if o.Err? {
      if good { AbsentHere(m, es, key, rd.store); }
      return m', Err(o.error);
    }
    var ms := m'.entries.list;
    var i := Position(ms, key);
    ghost var mid := rd.seen;
    if good {
      Opened(m, es, n, key, rd.store, seen, m', mid);
      LookupStarts(es, key);
    }
    if i < |ms| && ms[i].leaf.key == key {
      return m', Ok(Some(ms[i].leaf.value));
    }
    if i > 0 && ms[i - 1].MT? {
      ChildSmaller(ms, i - 1);
      var sub, got := GetIn(ms[i - 1].sub, rd, depth + 1, key, SubOf(es, i - 1), Down(n));
      if good {
        PathStarts(es, key);
        if got.Ok? { PutUnder(m, es, n, rd.store, seen, m', mid, i, sub, rd.seen); }
        else { AbsentUnder(m, es, n, seen, m', mid, i, got.error, rd.store); }
      }
      m', r := m'.(entries := Read(ms[i - 1 := MT(sub)])), got;
    } else {
      r := Ok(None);
    }
  }

  // ---- Hashing ----

  /** A subtree given back with nothing more read of it. */
  lemma SameChild(ms: seq<MEntry>, es: seq<Entry>, n: nat, i: nat, sub: Mst)
    requires RepAll(ms, es, n) && i < |es| && es[i].T? && ms[i].MT? && n > 0
    requires Rep(sub, es[i].sub.entries, n - 1)
    requires Pending(sub, es[i].sub.entries) == Pending(ms[i].sub, es[i].sub.entries)
    ensures RepAll(ms[i := MT(sub)], es, n) && PendingAll(ms[i := MT(sub)], es) == PendingAll(ms, es)
  {
    var out := ms[i := MT(sub)];
    forall j | 0 <= j < |es| ensures RepEntry(out[j], es[j], n) {
      assert RepEntry(ms[j], es[j], n);
    }
    hide Pending;
    forall j, c | 0 <= j < |es| && es[j].T? && ms[j].MT?
      ensures c in Pending(out[j].sub, es[j].sub.entries) <==> c in Pending(ms[j].sub, es[j].sub.entries)
    {
    }
  }

  /** `CidOf`, for a node that may be loaded or not. It reads no block, since
      whatever is not loaded still has its CID. */
  method RootIn(m: Mst, depth: nat, ghost es: seq<Entry>, ghost n: nat) returns (m': Mst, r: Result<Cid>)
    ensures depth >= 256 ==> r == Err(TOO_DEEP)
    ensures m'.layer == m.layer && m'.entries.Read? == m.entries.Read? && Size(m') == Size(m)
    ensures Rep(m, es, n) && Proper(es, n) && depth + n < MAX_DEPTH ==>
              && r == Ok(CidOf(es)) && Rep(m', es, n) && m'.pointer == Some(CidOf(es))
              && Pending(m', es) == Pending(m, es)
    decreases Size(m), 1
  {
    if depth >= MAX_DEPTH {
      return m, Err(TOO_DEEP);
    }
    if m.pointer.Some? {
      return m, Ok(m.pointer.value);
    }
    if m.entries.Unread? {
      return m, Err(MalformedNode("a node with neither contents nor CID"));
    }
    var ms, data := NodeDataIn(m.entries.list, depth + 1, es, n);
    m' := m.(entries := Read(ms));
    if data.Err? {
      return m', Err(data.error);
    }
    m' := m'.(pointer := Some(NodeCid(data.value)));
    r := Ok(NodeCid(data.value));
  }

  /** `Encode` on loaded entries, once `RootIn` has given every subtree a CID. */
  method NodeDataIn(ms: seq<MEntry>, depth: nat, ghost es: seq<Entry>, ghost n: nat)
    returns (ms': seq<MEntry>, r: Result<NodeData>)
    ensures |ms'| == |ms| && SizeAll(ms') == SizeAll(ms)
    ensures RepAll(ms, es, n) && Proper(es, n) && depth + n <= MAX_DEPTH ==>
              && r == Ok(Encode(FlatOf(es))) && RepAll(ms', es, n)
              && PendingAll(ms', es) == PendingAll(ms, es)
    decreases SizeAll(ms), 0
  {
    ghost var good := RepAll(ms, es, n) && Proper(es, n) && depth + n <= MAX_DEPTH;
    ms' := ms;
    var flat: seq<Flat> := [];
    var i := 0;
    while i < |ms|
      invariant 0 <= i <= |ms| == |ms'| && |flat| == i
      invariant forall j :: i <= j < |ms| ==> ms'[j] == ms[j]
      invariant SizeAll(ms') == SizeAll(ms)
      invariant good ==> RepAll(ms', es, n) && PendingAll(ms', es) == PendingAll(ms, es)
      invariant good ==> forall j :: 0 <= j < i ==> flat[j] == FlatOf(es)[j]
    {
      if good { assert RepEntry(ms'[i], es[i], n); }
      if ms[i].ML? {
        flat := flat + [FL(ms[i].leaf)];
      } else {
        ChildSmaller(ms, i);
        if good { SubProper(es, n, i); }
        var settled, cid := RootIn(ms[i].sub, depth, SubOf(es, i), Down(n));
        if good { SameChild(ms', es, n, i, settled); }
        SameSize(ms', i, settled);
        ms' := ms'[i := MT(settled)];
        if cid.Err? {
          return ms', Err(cid.error);
        }
        flat := flat + [FT(cid.value)];
      }
      i := i + 1;
    }
    r := Serialize(flat);
    if good {
      assert flat == FlatOf(es);
      FlatWritable(es);
    }
  }

  // ---- Finding the layer ----

  /** `FoundLayer`, read on demand, level by level. */
  method FindLayer(m: Mst, rd: Reader, depth: nat, ghost es: seq<Entry>, ghost n: nat)
    returns (m': Mst, r: Result<Option<nat>>)
    modifies rd
    ensures depth >= 256 ==> r == Err(TOO_DEEP) && rd.seen == old(rd.seen)
    ensures old(rd.seen) <= rd.seen
    ensures r.Ok? ==> m'.layer == r.value
    ensures m'.pointer == m.pointer
    ensures r.Ok? ==>
              || Spent(rd.store, old(rd.seen), rd.seen)
              || (Size(m') == Size(m) && m'.entries.Read? == m.entries.Read?)
    ensures r.Ok? && m.layer.Some? ==> r.value == m.layer && m' == m
    ensures r.Ok? && m.layer.None? && m.entries == Read([]) ==> r.value == None
    ensures Legible(m, es, n, rd.store, old(rd.seen)) && depth + n < MAX_DEPTH ==>
              if r.Ok? then
                && r.value == (if m.layer.Some? then m.layer else if es == [] then None else Some(n))
                && Kept(Pending(m, es), old(rd.seen), m', es, n, rd.seen)
              else Absent(r.error, Pending(m, es), rd.store)
    decreases rd.store.Keys - rd.seen, Size(m), 1
  {
    hide Proper, CidOf, PendingAll, SizeAll;
    if depth >= MAX_DEPTH {
      return m, Err(TOO_DEEP);
    }
    if m.layer.Some? {
      return m, Ok(m.layer);
    }
    ghost var good := Legible(m, es, n, rd.store, rd.seen) && depth + n < MAX_DEPTH;
    ghost var pending := Pending(m, es);
    var o;
    m', o := Fill(m, rd, es, n);
    if o.Err? {
      return m', Err(o.error);
    }
    var ms := m'.entries.list;
    var layer := FirstLeafLayer(ms);
    if good { FirstLeaf(ms, es, n); }
    if layer.None? {
      var under;
      ms, under := LayerBelow(ms, rd, depth + 1, es, n);
      m' := m'.(entries := Read(ms));
      if under.Err? {
        return m', Err(under.error);
      }
      layer := under.value;
    }
    m' := m'.(layer := layer);
    r := Ok(layer);
  }

  /** The same from the subtrees, for a node with no key of its own. */
  method LayerBelow(ms: seq<MEntry>, rd: Reader, depth: nat, ghost es: seq<Entry>, ghost n: nat)
    returns (ms': seq<MEntry>, r: Result<Option<nat>>)
    modifies rd
    ensures old(rd.seen) <= rd.seen
    ensures r.Ok? ==> Spent(rd.store, old(rd.seen), rd.seen) || SizeAll(ms') == SizeAll(ms)
    ensures r.Ok? && ms == [] ==> ms' == [] && r.value == None
    ensures RepAll(ms, es, n) && Proper(es, n) && Fresh(PendingAll(ms, es), rd.store, old(rd.seen))
            && (es != [] ==> es[0].T?) && depth + n <= MAX_DEPTH ==>
              if r.Ok? then
                && r.value == (if es == [] then None else Some(n))
                && RepAll(ms', es, n) && PendingAll(ms', es) <= PendingAll(ms, es)
                && PendingAll(ms', es) !! rd.seen && rd.seen <= old(rd.seen) + PendingAll(ms, es)
              else Absent(r.error, PendingAll(ms, es), rd.store)
    decreases rd.store.Keys - rd.seen, SizeAll(ms), 0
  {
    hide Proper, PendingAll, SizeAll;
    ghost var good := RepAll(ms, es, n) && Proper(es, n) && Fresh(PendingAll(ms, es), rd.store, rd.seen)
                      && (es != [] ==> es[0].T?) && depth + n <= MAX_DEPTH;
    var layer: Option<nat>, j := None, 0;
    ms' := ms;
    ghost var first := rd.seen;
    while j < |ms| && layer.None?
      invariant 0 <= j <= |ms| == |ms'| && first <= rd.seen
      invariant forall i :: j <= i < |ms| ==> ms'[i] == ms[i]
      invariant Spent(rd.store, first, rd.seen) || SizeAll(ms') == SizeAll(ms)
      invariant |ms| == 0 ==> layer.None?
      invariant good ==>
        if layer.None? then j == 0 && ms' == ms && rd.seen == first
        else layer == Some(n) && es != [] && RepAll(ms', es, n) && PendingAll(ms', es) <= PendingAll(ms, es)
             && PendingAll(ms', es) !! rd.seen && rd.seen <= first + PendingAll(ms, es)
    {
      if good { assert RepEntry(ms[j], es[j], n); }
      if ms[j].MT? {
        ChildSmaller(ms, j);
        if good { ChildLegible(ms, es, n, j, rd.store, first); }
        var sub, under := FindLayer(ms[j].sub, rd, depth, SubOf(es, j), Down(n));
        if under.Err? {
          return ms'[j := MT(sub)], Err(under.error);
        }
        if good { PutBack(ms, es, n, j, sub, first, rd.seen); }
        if Size(sub) == Size(ms[j].sub) { SameSize(ms', j, sub); }
        ms' := ms'[j := MT(sub)];
        if under.value.Some? { layer := Some(under.value.value + 1); }
      }
      j := j + 1;
    }
    r := Ok(layer);
  }

  function FirstLeafLayer(ms: seq<MEntry>): Option<nat> {
    if ms == [] then None
    else if ms[0].ML? then Some(LayerOf(ms[0].leaf.key))
    else FirstLeafLayer(ms[1..])
  }

  lemma FirstLeaf(ms: seq<MEntry>, es: seq<Entry>, n: nat)
    requires RepAll(ms, es, n) && Proper(es, n)
    ensures FirstLeafLayer(ms) == if HoldsLeaf(es) then Some(n) else None
    ensures es != [] && !HoldsLeaf(es) ==> es[0].T?
  {
    OwnLayerIs(es, n);
    SameFirstLeaf(ms, es, n);
    assert es != [] && es[0].L? ==> HoldsLeaf(es);
  }

  lemma {:induction false} SameFirstLeaf(ms: seq<MEntry>, es: seq<Entry>, n: nat)
    requires RepAll(ms, es, n)
    ensures FirstLeafLayer(ms) == OwnLayer(es)
  {
    if es != [] {
      assert RepEntry(ms[0], es[0], n);
      RepSlice(ms, es, n, 1, |es|);
      SameFirstLeaf(ms[1..], es[1..], n);
    }
  }

  /** The layer a node is taken to be on: an empty one with none remembered is
      on layer 0. */
  method LayerIn(m: Mst, rd: Reader, depth: nat, ghost es: seq<Entry>, ghost n: nat)
    returns (m': Mst, r: Result<nat>)
    modifies rd
    ensures old(rd.seen) <= rd.seen
    ensures r.Ok? ==> m'.layer == Some(r.value)
    ensures r.Ok? ==>
              || Spent(rd.store, old(rd.seen), rd.seen)
              || (Size(m') == Size(m) && m'.entries.Read? == m.entries.Read?)
    ensures r.Ok? && (m.layer.Some? || m.entries == Read([])) ==> r.value == m.layer.GetOr(0)
    ensures Legible(m, es, n, rd.store, old(rd.seen)) && depth + n < MAX_DEPTH
            && (es == [] ==> n == m.layer.GetOr(0)) ==>
              if r.Ok? then r.value == n && Kept(Pending(m, es), old(rd.seen), m', es, n, rd.seen)
              else Absent(r.error, Pending(m, es), rd.store)
  {
    var found;
    m', found := FindLayer(m, rd, depth, es, n);
    if found.Err? {
      return m', Err(found.error);
    }
    var layer := found.value.GetOr(0);
    m' := m'.(layer := Some(layer));
    r := Ok(layer);
  }

  // ---- Proofs and listings ----

  lemma RootKeeps(m: Mst, es: seq<Entry>, n: nat, store: Store, seen: set<Cid>)
    requires Legible(m, es, n, store, seen)
    ensures Rep(m, es, n) && Proper(es, n)
    ensures forall m' :: Rep(m', es, n) && Pending(m', es) == Pending(m, es) ==> Legible(m', es, n, store, seen)
  {
  }

  /** The lazy `PathOf`. */
  method CidsForPathIn(m: Mst, rd: Reader, depth: nat, key: Key, ghost es: seq<Entry>, ghost n: nat)
    returns (m': Mst, r: Result<seq<Cid>>)
    modifies rd
    ensures depth >= 256 ==> r == Err(TOO_DEEP) && rd.seen == old(rd.seen)
    ensures old(rd.seen) <= rd.seen
    ensures Legible(m, es, n, rd.store, old(rd.seen)) && depth + n + 1 < MAX_DEPTH ==>
              if r.Ok? then r.value == PathOf(es, key) && Kept(Pending(m, es), old(rd.seen), m', es, n, rd.seen)
              else Absent(r.error, Pending(m, es), rd.store) && r.error.cid in PathOf(es, key)
    decreases rd.store.Keys - rd.seen, Size(m)
  {
    hide Legible, Kept, Pending, CidOf, Position, IndexOf, Here, PathOf, SubOf, SizeAll, Rep, Proper;
    if depth >= MAX_DEPTH {
      return m, Err(TOO_DEEP);
    }
    ghost var good := Legible(m, es, n, rd.store, rd.seen) && depth + n + 1 < MAX_DEPTH;
    ghost var seen := rd.seen;
    if good { RootKeeps(m, es, n, rd.store, seen); }
    var m1, root := RootIn(m, depth + 1, es, n);
    if root.Err? {
      return m1, Err(root.error);
    }
    var o;
    m', o := Fill(m1, rd, es, n);
    if o.Err? {
      if good { AbsentHere(m1, es, key, rd.store); }
      return m', Err(o.error);
    }
    var ms := m'.entries.list;
    var i := Position(ms, key);
    ghost var mid := rd.seen;
    if good {
      Opened(m1, es, n, key, rd.store, seen, m', mid);
      PathStarts(es, key);
    }
    if i < |ms| && ms[i].leaf.key == key {
      return m', Ok([root.value, ms[i].leaf.value]);
    }
    if i > 0 && ms[i - 1].MT? {
      ChildSmaller(ms, i - 1);
      var sub, rest := CidsForPathIn(ms[i - 1].sub, rd, depth + 1, key, SubOf(es, i - 1), Down(n));
      m' := m'.(entries := Read(ms[i - 1 := MT(sub)]));
      if rest.Err? {
        if good { AbsentUnder(m1, es, n, seen, m'.(entries := Read(ms)), mid, i, rest.error, rd.store); }
        return m', Err(rest.error);
      }
      if good { PutUnder(m1, es, n, rd.store, seen, m'.(entries := Read(ms)), mid, i, sub, rd.seen); }
      r := Ok([root.value] + rest.value);
    } else {
      r := Ok([root.value]);
    }
  }
}
