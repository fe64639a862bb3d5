/** The tree's operations as a caller meets them: each opens a reader of its
    own on a store, and a tree standing for one set of records is taken to one
    standing for the records the same operation leaves of a map. */
module Operations {
  import opened Data
  import opened Keys
  import opened Tree
  import opened TreeOps
  import opened Codec
  import opened History
  import opened Nodes
  import opened Mst
  import opened Reading
  import opened Storing
  import opened Inserting
  import opened Deleting

  /** A tree in memory as a value: its entries and the layer its top caches. */
  ghost function LiveOf(m: Mst, es: seq<Entry>): Live {
    Live(es, m.layer)
  }

  /** A tree in memory standing for some entries, over a store that tells the
      truth about whatever it holds of what is still to be read. */
  ghost predicate Stands(m: Mst, es: seq<Entry>, store: Store) {
    && LiveOf(m, es).Sound()
    && Rep(m, es, LiveOf(m, es).At())
    && Fresh(Pending(m, es), store, {})
  }

  /** The same, with nothing missing. */
  ghost predicate Whole(m: Mst, es: seq<Entry>, store: Store) {
    Stands(m, es, store) && Pending(m, es) <= store.Keys
  }

  lemma StandsLegible(m: Mst, es: seq<Entry>, store: Store)
    requires Stands(m, es, store)
    ensures var n := LiveOf(m, es).At();
            && Legible(m, es, n, store, {}) && n <= MAX_LAYER
            && (es == [] ==> n == m.layer.GetOr(0))
  {
    assert FoundLayer([]) == None;
  }

  /** A kept node is a tree a caller can go on with. */
  lemma KeptStands(m: Mst, es: seq<Entry>, n: nat, store: Store, pending: set<Cid>, seen: set<Cid>)
    requires Kept(pending, {}, m, es, n, seen) && Fresh(pending, store, {}) && pending <= store.Keys
    requires Proper(es, n) && (es == [] ==> n == m.layer.GetOr(0))
    ensures Whole(m, es, store) && LiveOf(m, es).At() == n
  {
    FindsLayer(es, n);
    hide Fits, Sorted, ValidKey, Leaves, RepAll, PendingAll, CidOf, FoundLayer;
  }

  /** The record at a key. On any store that tells the truth the answer is the
      tree's own, or the name of a block on the way to the key that the store
      does not hold. */
  method Get(m: Mst, store: Store, key: Key, ghost es: seq<Entry>) returns (m': Mst, r: Result<Option<Cid>>)
    ensures Stands(m, es, store) ==>
              if r.Ok? then r.value == Lookup(es, key)
              else
                && r.error.MissingBlock? && r.error.cid in PathOf(es, key)
                && r.error.cid in NodesOf(es) && r.error.cid !in store
    ensures Whole(m, es, store) ==>
              && r.Ok? && Whole(m', es, store) && Pending(m', es) <= Pending(m, es)
              && m'.layer == m.layer
  {
    ghost var n := LiveOf(m, es).At();
    if Stands(m, es, store) { StandsLegible(m, es, store); }
    var rd := new Reader(store);
    m', r := GetIn(m, rd, 0, key, es, n);
    PendingIsUnder(m, es);
    if Whole(m, es, store) { KeptStands(m', es, n, store, Pending(m, es), rd.seen); }
  }

  /** The CIDs of `PathOf`, read on demand, or one of them that the store does
      not hold. */
  method CidsForPath(m: Mst, store: Store, key: Key, ghost es: seq<Entry>) returns (r: Result<seq<Cid>>)
    ensures Stands(m, es, store) ==>
              if r.Ok? then r.value == PathOf(es, key)
              else r.error.MissingBlock? && r.error.cid in PathOf(es, key) && r.error.cid !in store
    ensures Whole(m, es, store) ==> r == Ok(PathOf(es, key))
  {
    ghost var n := LiveOf(m, es).At();
    if Stands(m, es, store) { StandsLegible(m, es, store); }
    var rd := new Reader(store);
    var _, cids := CidsForPathIn(m, rd, 0, key, es, n);
    r := cids;
  }

  /** Every record, in key order. */
  method ListLeaves(m: Mst, store: Store, ghost es: seq<Entry>) returns (r: Result<seq<Leaf>>)
    ensures Whole(m, es, store) ==> r == Ok(Leaves(es))
  {
    ghost var n := LiveOf(m, es).At();
    if Stands(m, es, store) { StandsLegible(m, es, store); }
    var rd := new Reader(store);
    var _, found := CollectLeaves(m, rd, 0, es, n);
    r := found;
  }

  /** Exactly the blocks a store lacks of a tree, and its root. */
  method UnstoredBlocks(m: Mst, store: Store, ghost es: seq<Entry>) returns (m': Mst, r: Result<(Cid, Store)>)
    ensures Whole(m, es, store) ==>
              && r.Ok? && r.value.0 == CidOf(es) && Holds(r.value.1, UnstoredOf(es, store.Keys))
              && Whole(m', es, store)
  {
    ghost var n := LiveOf(m, es).At();
    if Stands(m, es, store) { StandsLegible(m, es, store); }
    var rd := new Reader(store);
    m', r := UnstoredIn(m, rd, 0, es, n);
    if Whole(m, es, store) { KeptStands(m', es, n, store, Pending(m, es), rd.seen); }
  }

  // ---- Writes ----

  /** What a write answers, as a value. */
  ghost function LeftBy(r: Result<Mst>, es: seq<Entry>): Result<Live> {
    match r
    case Ok(m) => Ok(LiveOf(m, es))
    case Err(e) => Err(e)
  }

  /** A write on a tree in memory is the same write on the tree as a value, and
      what it leaves can be written to again. */
  ghost predicate Wrote(m: Mst, es: seq<Entry>, store: Store, op: Op, r: Result<Mst>, es': seq<Entry>) {
    && Steps(LiveOf(m, es), op, LeftBy(r, es'))
    && (r.Ok? ==> Whole(r.value, es', store) && Pending(r.value, es') <= Pending(m, es))
  }

  method Add(m: Mst, store: Store, key: Key, value: Cid, ghost es: seq<Entry>)
    returns (r: Result<Mst>, ghost es': seq<Entry>)
    ensures Whole(m, es, store) ==> Wrote(m, es, store, Op.Add(key, value), r, es')
  {
    es' := es;
    if !ValidKey(key) {
      return Err(InvalidKey(key)), es';
    }
    ghost var n := LiveOf(m, es).At();
    if Stands(m, es, store) { StandsLegible(m, es, store); }
    var zeros := LeadingZeros(key);
    var rd := new Reader(store);
    r := InsertIn(m, rd, 0, key, value, zeros, es, n);
    if Whole(m, es, store) && r.Ok? {
      es' := Insert(es, n, key, value, zeros).value;
      assert Steps(LiveOf(m, es), Op.Add(key, value), Ok(LiveOf(r.value, es')));
      AddStep(LiveOf(m, es), key, value, Ok(LiveOf(r.value, es')));
      KeptStands(r.value, es', Max(n, zeros), store, Pending(m, es), rd.seen);
    }
  }

  method Change(m: Mst, store: Store, key: Key, value: Cid, ghost es: seq<Entry>)
    returns (r: Result<Mst>, ghost es': seq<Entry>)
    ensures Whole(m, es, store) ==> Wrote(m, es, store, Op.Change(key, value), r, es')
  {
    es' := es;
    ghost var n := LiveOf(m, es).At();
    if Stands(m, es, store) { StandsLegible(m, es, store); }
    var rd := new Reader(store);
    r := UpdateIn(m, rd, 0, key, value, es, n);
    if Whole(m, es, store) && r.Ok? {
      es' := Update(es, key, value).value;
      assert Steps(LiveOf(m, es), Op.Change(key, value), Ok(LiveOf(r.value, es')));
      ChangeKept(m, es, n, key, value, r.value, es', store, rd.seen);
    }
  }

  lemma ChangeKept(m: Mst, es: seq<Entry>, n: nat, key: Key, value: Cid,
                   m': Mst, es': seq<Entry>, store: Store, seen: set<Cid>)
    requires Whole(m, es, store) && n == LiveOf(m, es).At() && m'.layer == m.layer
    requires Steps(LiveOf(m, es), Op.Change(key, value), Ok(LiveOf(m', es')))
    requires Kept(Pending(m, es), {}, m', es', n, seen)
    ensures Whole(m', es', store)
  {
    StandsLegible(m, es, store);
    ChangeStep(LiveOf(m, es), key, value, Ok(LiveOf(m', es')));
    UpdateChanges(es, n, key, value);
    FindsLayer(es, n);
    FindsLayer(es', n);
    hide Fits, Sorted, RepAll, PendingAll, CidOf, FoundLayer, Update, LayerOf;
    LeavesEmpty();
    KeptStands(m', es', n, store, Pending(m, es), seen);
  }

  method Remove(m: Mst, store: Store, key: Key, ghost es: seq<Entry>)
    returns (r: Result<Mst>, ghost es': seq<Entry>)
    ensures Whole(m, es, store) ==> Wrote(m, es, store, Op.Remove(key), r, es')
  {
    es' := es;
    ghost var n := LiveOf(m, es).At();
    ghost var good := Whole(m, es, store);
    if good { StandsLegible(m, es, store); }
    var rd := new Reader(store);
    var shrunk := DeleteRecurse(m, rd, 0, key, es, n);
    if shrunk.Err? {
      return Err(shrunk.error), es';
    }
    ghost var es1 := if Delete(es, key).Ok? then Delete(es, key).value else es;
    if good { ShrunkLegible(m, es, n, key, shrunk.value, es1, store, rd.seen); }
    ghost var n';
    r, es', n' := TrimTop(shrunk.value, rd, 0, es1, n);
    if good { TrimmedStands(m, es, n, key, shrunk.value, es1, r, es', n', store); }
  }

  lemma ShrunkLegible(m: Mst, es: seq<Entry>, n: nat, key: Key, m1: Mst, es1: seq<Entry>, store: Store, seen: set<Cid>)
    requires Whole(m, es, store) && n == LiveOf(m, es).At()
    requires Delete(es, key) == Ok(es1) && Kept(Pending(m, es), {}, m1, es1, n, seen)
    ensures Legible(m1, es1, n, store, seen)
  {
    hide Fits, Sorted, Rep, RepAll, Pending, PendingAll, CidOf, Delete, ValidKey, Lt, Without, Has, Leaves,
         FoundLayer, Fresh;
    StandsLegible(m, es, store);
    DeletedProper(es, n, key, es1);
    LegibleFewer(m, es, n, m1, es1, store, seen);
  }

  lemma DeletedProper(es: seq<Entry>, n: nat, key: Key, es1: seq<Entry>)
    requires Proper(es, n) && Delete(es, key) == Ok(es1)
    ensures Proper(es1, n)
  {
    hide Fits, Sorted, Delete, ValidKey, Lt, Leaves, Rank;
    var s := Leaves(es);
    DeleteRemoves(es, n, key);
    WithoutSorted(s, key);
    assert forall i :: 0 <= i < |Without(s, key)| ==>
      Without(s, key)[i] == if i < Rank(s, key) then s[i] else s[i + 1];
  }

  lemma LegibleFewer(m: Mst, es: seq<Entry>, n: nat, m1: Mst, es1: seq<Entry>, store: Store, seen: set<Cid>)
    requires Legible(m, es, n, store, {}) && Proper(es1, n) && Kept(Pending(m, es), {}, m1, es1, n, seen)
    ensures Legible(m1, es1, n, store, seen)
  {
    hide Proper, Rep, Pending;
  }

  lemma TrimmedStands(m: Mst, es: seq<Entry>, n: nat, key: Key, m1: Mst, es1: seq<Entry>,
                      r: Result<Mst>, es': seq<Entry>, n': nat, store: Store)
    requires Whole(m, es, store) && n == LiveOf(m, es).At() && r.Ok?
    requires Delete(es, key) == Ok(es1) && Pending(m1, es1) <= Pending(m, es) && m1.layer == m.layer && Fits(es1, n)
    requires n' <= n && Proper(es', n') && Rep(r.value, es', n') && Pending(r.value, es') <= Pending(m1, es1)
    requires es' == Trim(es1) && (Trim(es1) == es1 ==> n' == n && r.value.layer == m1.layer)
    ensures Wrote(m, es, store, Op.Remove(key), r, es')
  {
    hide Fits, Sorted, Rep, Pending, PendingAll, CidOf, Delete, ValidKey, FoundLayer, Trim, Leaves, Steps, Lt,
         Canonical, Asked, Contents, Fresh;
    TrimEmpty(es1, n);
    TrimmedSteps(m, es, n, key, es1, r.value, es', n');
    RemoveStep(LiveOf(m, es), key, Ok(LiveOf(r.value, es')));
    TrimmedAt(r.value, es', n');
    FewerFresh(Pending(m, es), Pending(r.value, es'), store);
  }

  lemma FewerFresh(a: set<Cid>, b: set<Cid>, store: Store)
    requires Fresh(a, store, {}) && b <= a
    ensures Fresh(b, store, {})
  {
  }

  lemma TrimEmpty(es: seq<Entry>, n: nat)
    requires Fits(es, n)
    ensures Trim(es) == [] <==> es == []
  {
    var top := TrimTops(es, n);
  }

  lemma TrimmedSteps(m: Mst, es: seq<Entry>, n: nat, key: Key, es1: seq<Entry>, m': Mst, es': seq<Entry>, n': nat)
    requires Delete(es, key) == Ok(es1) && n == LiveOf(m, es).At()
    requires Fits(es', n') && Rep(m', es', n') && es' == Trim(es1) && (es' == [] ==> es1 == [])
    requires Trim(es1) == es1 ==> m'.layer == m.layer
    ensures Steps(LiveOf(m, es), Op.Remove(key), Ok(LiveOf(m', es')))
  {
    FindsLayer(es', n');
    hide Fits, FoundLayer, Trim, Delete, RepAll, CidOf;
  }

  lemma TrimmedAt(m: Mst, es: seq<Entry>, n: nat)
    requires Fits(es, n) && Rep(m, es, n)
    ensures Rep(m, es, LiveOf(m, es).At())
  {
    FindsLayer(es, n);
    hide Fits, FoundLayer, CidOf;
    assert FoundLayer([]) == None;
  }
}
