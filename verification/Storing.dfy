/** The two traversals of a whole tree: one lists records, the other collects
    what a store lacks. */
module Storing {
  import opened Data
  import opened Tree
  import opened Codec
  import opened Mst
  import opened Reading

  /** The lazy `Leaves`. */
  method CollectLeaves(m: Mst, rd: Reader, depth: nat, ghost es: seq<Entry>, ghost n: nat)
    returns (m': Mst, r: Result<seq<Leaf>>)
    modifies rd
    ensures depth >= 256 ==> r == Err(TOO_DEEP) && rd.seen == old(rd.seen)
    ensures old(rd.seen) <= rd.seen
    ensures Legible(m, es, n, rd.store, old(rd.seen)) && depth + n < MAX_DEPTH ==>
              if r.Ok? then r.value == Leaves(es) && Kept(Pending(m, es), old(rd.seen), m', es, n, rd.seen)
              else Absent(r.error, Pending(m, es), rd.store)
    decreases rd.store.Keys - rd.seen, Size(m)
  {
    hide Proper, CidOf, PendingAll;
    if depth >= MAX_DEPTH {
      return m, Err(TOO_DEEP);
    }
    ghost var good := Legible(m, es, n, rd.store, rd.seen) && depth + n < MAX_DEPTH;
    var o;
    m', o := Fill(m, rd, es, n);
    if o.Err? {
      return m', Err(o.error);
    }
    var ms := m'.entries.list;
    var out, found, i := ms, [], 0;
    ghost var mid, pending := rd.seen, PendingAll(ms, es);
    while i < |ms|
      invariant 0 <= i <= |ms| == |out| && mid <= rd.seen
      invariant forall j :: i <= j < |ms| ==> out[j] == ms[j]
      invariant good ==>
        && RepAll(out, es, n) && PendingAll(out, es) <= pending && PendingAll(out, es) !! rd.seen
        && rd.seen <= mid + pending && found == Leaves(es[..i])
    {
      if good {
        assert RepEntry(out[i], es[i], n);
        NextLeaves(es, i);
      }
      if ms[i].ML? {
        found := found + [ms[i].leaf];
      } else {
        ChildSmaller(ms, i);
        ghost var before := rd.seen;
        if good { ChildLegible(out, es, n, i, rd.store, before); }
        var sub, held := CollectLeaves(ms[i].sub, rd, depth + 1, SubOf(es, i), Down(n));
        if held.Err? {
          m' := m'.(entries := Read(out[i := MT(sub)]));
          return m', Err(held.error);
        }
        if good { PutBack(out, es, n, i, sub, before, rd.seen); }
        out := out[i := MT(sub)];
        found := found + held.value;
      }
      i := i + 1;
    }
    if good { assert es[..i] == es; }
    m' := m'.(entries := Read(out));
    r := Ok(found);
  }

  lemma NextLeaves(es: seq<Entry>, i: nat)
    requires i < |es|
    ensures Leaves(es[..i + 1]) == Leaves(es[..i]) + EntryLeaves(es[i])
  {
    assert es[..i + 1] == es[..i] + [es[i]];
    LeavesConcat(es[..i], [es[i]]);
    LeavesOne(es[i]);
  }

  // ---- Blocks to write ----

  /** The nodes met on the way down from here, stopping at any already held. */
  ghost function UnstoredOf(es: seq<Entry>, have: set<Cid>): set<Cid>
    decreases Node(es), 1
  {
    if CidOf(es) in have then {} else {CidOf(es)} + UnstoredUnder(es, have, |es|)
  }

  ghost function UnstoredUnder(es: seq<Entry>, have: set<Cid>, to: nat): set<Cid>
    decreases Node(es), 0
  {
    set i, c | 0 <= i < to && i < |es| && es[i].T? && c in UnstoredOf(es[i].sub.entries, have) :: c
  }

  lemma NextUnstored(es: seq<Entry>, have: set<Cid>, i: nat)
    requires i < |es|
    ensures UnstoredUnder(es, have, i + 1) ==
            UnstoredUnder(es, have, i) + if es[i].T? then UnstoredOf(es[i].sub.entries, have) else {}
  {
    hide UnstoredOf;
  }

  ghost predicate Holds(blocks: Store, cids: set<Cid>) {
    blocks.Keys == cids && forall c :: c in blocks ==> blocks[c] == BlockOf(c)
  }

  /** The lazy `UnstoredOf`, with the root. */
  method UnstoredIn(m: Mst, rd: Reader, depth: nat, ghost es: seq<Entry>, ghost n: nat)
    returns (m': Mst, r: Result<(Cid, Store)>)
    modifies rd
    ensures depth >= 256 ==> r == Err(TOO_DEEP) && rd.seen == old(rd.seen)
    ensures old(rd.seen) <= rd.seen
    ensures m'.layer == m.layer
    ensures Legible(m, es, n, rd.store, old(rd.seen)) && depth + n + 1 < MAX_DEPTH ==>
              if r.Ok? then
                && r.value.0 == CidOf(es) && Holds(r.value.1, UnstoredOf(es, rd.store.Keys))
                && Kept(Pending(m, es), old(rd.seen), m', es, n, rd.seen)
              else Absent(r.error, Pending(m, es), rd.store)
    decreases rd.store.Keys - rd.seen, Size(m), 1
  {
    hide Proper, CidOf, PendingAll, Encode, RepAll;
    if depth >= MAX_DEPTH {
      return m, Err(TOO_DEEP);
    }
    ghost var good := Legible(m, es, n, rd.store, rd.seen) && depth + n + 1 < MAX_DEPTH;
    var root;
    m', root := RootIn(m, depth + 1, es, n);
    if root.Err? {
      return m', Err(root.error);
    }
    if root.value in rd.store {
      return m', Ok((root.value, map[]));
    }
    var o;
    m', o := Fill(m', rd, es, n);
    if o.Err? {
      return m', Err(o.error);
    }
    var ms, data := NodeDataIn(m'.entries.list, depth + 1, es, n);
    m' := m'.(entries := Read(ms));
    if data.Err? {
      return m', Err(data.error);
    }
    var more;
    ghost var mid := rd.seen;
    ms, more := UnstoredBelow(ms, rd, depth + 1, es, n);
    m' := m'.(entries := Read(ms));
    if more.Err? {
      return m', Err(more.error);
    }
    if good { RootData(es); }
    r := Ok((root.value, map[NodeCid(data.value) := NodeBlock(data.value)] + more.value));
  }

  /** The same for every subtree of a node that has been read. */
  method UnstoredBelow(ms: seq<MEntry>, rd: Reader, depth: nat, ghost es: seq<Entry>, ghost n: nat)
    returns (ms': seq<MEntry>, r: Result<Store>)
    modifies rd
    ensures old(rd.seen) <= rd.seen
    ensures RepAll(ms, es, n) && Proper(es, n) && Fresh(PendingAll(ms, es), rd.store, old(rd.seen))
            && depth + n < MAX_DEPTH ==>
              if r.Ok? then
                && Holds(r.value, UnstoredUnder(es, rd.store.Keys, |es|))
                && RepAll(ms', es, n) && PendingAll(ms', es) <= PendingAll(ms, es)
                && PendingAll(ms', es) !! rd.seen && rd.seen <= old(rd.seen) + PendingAll(ms, es)
              else Absent(r.error, PendingAll(ms, es), rd.store)
    decreases rd.store.Keys - rd.seen, SizeAll(ms), 0
  {
    hide Proper, CidOf, PendingAll, Pending, UnstoredOf, UnstoredUnder, Rep, RepAll, SizeAll;
    ghost var good := RepAll(ms, es, n) && Proper(es, n) && Fresh(PendingAll(ms, es), rd.store, rd.seen)
                      && depth + n < MAX_DEPTH;
    if good { SameKinds(ms, es, n); }
    NoneUnstored(es, rd.store.Keys);
    var blocks: Store, i := map[], 0;
    ms' := ms;
    ghost var first, pending := rd.seen, PendingAll(ms, es);
    while i < |ms|
      invariant 0 <= i <= |ms| == |ms'| && first <= rd.seen
      invariant forall j :: i <= j < |ms| ==> ms'[j] == ms[j]
      invariant good ==>
        && RepAll(ms', es, n) && PendingAll(ms', es) <= pending && PendingAll(ms', es) !! rd.seen
        && rd.seen <= first + pending && Holds(blocks, UnstoredUnder(es, rd.store.Keys, i))
    {
      if good {
        SameKinds(ms', es, n);
        NextUnstored(es, rd.store.Keys, i);
      }
      if ms[i].MT? {
        ChildSmaller(ms, i);
        ghost var before := rd.seen;
        if good { ChildLegible(ms', es, n, i, rd.store, before); }
        var sub, more := UnstoredIn(ms[i].sub, rd, depth, SubOf(es, i), Down(n));
        if more.Err? {
          return ms'[i := MT(sub)], Err(more.error);
        }
        if good { PutBack(ms', es, n, i, sub, before, rd.seen); }
        ms' := ms'[i := MT(sub)];
        blocks := blocks + more.value.1;
      }
      i := i + 1;
    }
    r := Ok(blocks);
  }

  lemma RootData(es: seq<Entry>)
    ensures CidOf(es) == NodeCid(Encode(FlatOf(es)))
  {
  }

  lemma NoneUnstored(es: seq<Entry>, have: set<Cid>)
    ensures UnstoredUnder(es, have, 0) == {}
  {
  }
}
