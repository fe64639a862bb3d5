/** Trees that travel: proofs of what one key holds, and trees read back from
    what was written of them. */
module Proofs {
  import opened Data
  import opened Tree
  import opened TreeOps
  import opened Codec
  import opened History
  import opened Nodes
  import opened Mst
  import opened Reading
  import opened Storing
  import opened Operations

  /** A tree as a revision names it: by its root, over blocks that are theirs. */
  ghost predicate Rooted(root: Cid, es: seq<Entry>, n: nat, store: Store) {
    root == CidOf(es) && Proper(es, n) && forall c :: c in NodesOf(es) && c in store ==> store[c] == BlockOf(c)
  }

  lemma LoadStands(root: Cid, es: seq<Entry>, n: nat, store: Store)
    requires Rooted(root, es, n, store)
    ensures Stands(Load(root), es, store)
    ensures NodesOf(es) <= store.Keys ==> Whole(Load(root), es, store)
  {
    FindsLayer(es, n);
  }

  // ---- Proofs ----

  /** The commit under a CID. */
  function CommitIn(store: Store, cid: Cid): Result<Commit> {
    if cid !in store then Err(MissingBlock(cid))
    else if store[cid].CommitBlock? then Ok(store[cid].commit)
    else Err(Decode)
  }

  /** A repository as its commit names it: a tree it is over, and blocks that
      are the tree's where a store holds them. The store need not hold all. */
  ghost predicate Committed(cid: Cid, es: seq<Entry>, n: nat, store: Store) {
    CommitIn(store, cid).Ok? && Rooted(CommitIn(store, cid).value.data, es, n, store)
  }

  /** A proof of what a repository holds at a key, if anything: its commit, the
      nodes on the way down, and the record. There is one exactly where the
      store holds all of those, and where it does not one it lacks is named. */
  method Prove(cid: Cid, store: Store, key: Key, ghost es: seq<Entry>, ghost n: nat) returns (r: Result<Store>)
    ensures CommitIn(store, cid).Err? ==> r == Err(CommitIn(store, cid).error)
    ensures cid !in store ==> r == Err(MissingBlock(cid))
    ensures cid in store && !store[cid].CommitBlock? ==> r == Err(Decode)
    ensures Committed(cid, es, n, store) ==>
              && (r.Ok? <==> forall c :: c in PathOf(es, key) ==> c in store)
              && if r.Ok? then Holds'(r.value, store, [cid] + PathOf(es, key))
                 else r.error.MissingBlock? && r.error.cid in PathOf(es, key) && r.error.cid !in store
  {
    var commit := CommitIn(store, cid);
    if commit.Err? { return Err(commit.error); }
    ghost var good := Committed(cid, es, n, store);
    var root := commit.value.data;
    if good { LoadStands(root, es, n, store); }
    hide Stands, Whole, Committed, PathOf;
    var path := CidsForPath(Load(root), store, key, es);
    if path.Err? { return Err(path.error); }
    r := Gather(store, [cid] + path.value);
    CommitHeld(store, cid, path.value);
  }

  lemma CommitHeld(store: Store, cid: Cid, path: seq<Cid>)
    requires CommitIn(store, cid).Ok?
    ensures forall c :: c in [cid] + path <==> c == cid || c in path
    ensures cid in store
  {
  }

  /** The blocks under some CIDs, or the first of them there is none under. */
  method Gather(store: Store, cids: seq<Cid>) returns (r: Result<Store>)
    ensures r.Ok? <==> forall c :: c in cids ==> c in store
    ensures if r.Ok? then Holds'(r.value, store, cids)
            else r.error.MissingBlock? && r.error.cid in cids && r.error.cid !in store
  {
    var blocks: Store, i := map[], 0;
    while i < |cids|
      invariant 0 <= i <= |cids|
      invariant forall c :: c in blocks <==> c in cids[..i]
      invariant forall c :: c in blocks ==> c in store && blocks[c] == store[c]
    {
      var c := cids[i];
      if c !in store {
        return Err(MissingBlock(c));
      }
      blocks := blocks[c := store[c]];
      i := i + 1;
    }
    assert cids[..i] == cids;
    r := Ok(blocks);
  }

  /** Exactly the blocks a store holds under some CIDs. */
  ghost predicate Holds'(blocks: Store, store: Store, cids: seq<Cid>) {
    && (forall c :: c in blocks <==> c in cids)
    && (forall c :: c in blocks ==> c in store && blocks[c] == store[c])
  }

  /** Reading a proof, from the commit a reader already trusts. Sound: whatever
      blocks arrive, if they are the ones their CIDs name then an answer is the
      tree's own. Complete: the commit and the nodes on the way to the key are
      enough to give one, for a key the tree holds and for one it does not. */
  method CheckProof(cid: Cid, blocks: Store, key: Key, ghost commit: Commit, ghost es: seq<Entry>, ghost n: nat)
    returns (r: Result<Option<Cid>>)
    ensures cid == CommitCid(commit) && commit.data == CidOf(es) && Proper(es, n) && Honest(blocks) ==>
              && (r.Ok? ==> (r.value.Some? <==> key in Contents(Leaves(es))))
              && (r.Ok? && r.value.Some? ==> r.value.value == Contents(Leaves(es))[key])
              && (cid in blocks && (forall c :: c in PathOf(es, key) && c.NodeCid? ==> c in blocks) ==> r.Ok?)
  {
    var read := CommitIn(blocks, cid);
    if read.Err? {
      return Err(read.error);
    }
    var root := read.value.data;
    if cid == CommitCid(commit) && commit.data == CidOf(es) && Proper(es, n) && Honest(blocks) {
      assert blocks[cid] == BlockOf(cid);
      LoadStands(root, es, n, blocks);
      LookupIsContents(es, n, key);
      NodesAreNodes(es, n);
    }
    var _, got := Get(Load(root), blocks, key, es);
    r := got;
  }

  lemma NodesAreNodes(es: seq<Entry>, n: nat)
    requires Proper(es, n)
    ensures forall c :: c in NodesOf(es) ==> c.NodeCid?
  {
    forall c | c in NodesOf(es) ensures c.NodeCid? {
      var x, m := NodeIs(es, n, c);
    }
  }

  // ---- Trees read back ----

  /** A store that holds everything under any node of a tree it holds. */
  ghost predicate Closed(es: seq<Entry>, have: set<Cid>)
    decreases Node(es)
  {
    && (CidOf(es) in have ==> NodesOf(es) <= have)
    && (forall i :: 0 <= i < |es| && es[i].T? ==> Closed(es[i].sub.entries, have))
  }

  /** Stopping at the first stored node leaves nothing out. */
  lemma {:induction false} UnstoredCompletes(es: seq<Entry>, n: nat, have: set<Cid>)
    requires Proper(es, n) && Closed(es, have)
    ensures NodesOf(es) <= have + UnstoredOf(es, have)
    ensures UnstoredOf(es, have) <= NodesOf(es) && UnstoredOf(es, have) !! have
    decreases n
  {
    if CidOf(es) !in have {
      forall i | 0 <= i < |es| && es[i].T?
        ensures NodesOf(es[i].sub.entries) <= have + UnstoredOf(es[i].sub.entries, have)
        ensures UnstoredOf(es[i].sub.entries, have) <= NodesOf(es[i].sub.entries)
        ensures UnstoredOf(es[i].sub.entries, have) !! have
      {
        SubProper(es, n, i);
        UnstoredCompletes(es[i].sub.entries, n - 1, have);
      }
    }
  }

  /** A store whose nodes are those of one tree is closed for any other: a node
      both have is one node, and everything under it is in the first. */
  lemma {:induction false} ClosedByTree(es: seq<Entry>, n: nat, old': seq<Entry>, m: nat, have: set<Cid>)
    requires Proper(es, n) && Proper(old', m) && NodesOf(old') <= have
    requires forall c :: c in have && c.NodeCid? ==> c in NodesOf(old')
    ensures Closed(es, have)
    decreases n
  {
    if CidOf(es) in have {
      var x, k := NodeIs(old', m, CidOf(es));
      CidInjective(es, n, x, k);
    }
    forall i | 0 <= i < |es| && es[i].T? ensures Closed(es[i].sub.entries, have) {
      SubProper(es, n, i);
      ClosedByTree(es[i].sub.entries, n - 1, old', m, have);
    }
  }

  /** A stored tree reads back: written over a store that is closed for it, its
      root loads to a tree standing for the same entries with nothing missing,
      so every read of it answers as the tree in memory would. */
  lemma ReadsBack(es: seq<Entry>, n: nat, store: Store, written: Store)
    requires Proper(es, n) && Honest(store) && Closed(es, store.Keys)
    requires Holds(written, UnstoredOf(es, store.Keys))
    ensures Whole(Load(CidOf(es)), es, store + written)
    ensures LiveOf(Load(CidOf(es)), es).At() == if es == [] then 0 else n
  {
    UnstoredCompletes(es, n, store.Keys);
    LoadStands(CidOf(es), es, n, store + written);
    FindsLayer(es, n);
  }
}
