/** One account's storage: its blocks, its root, its tables and the blobs it
    serves, and the steps that move them. */
module Actors {
  import opened Data
  import opened Keys
  import opened Tree
  import opened Codec
  import opened Nodes
  import opened Repo
  import opened Index
  import opened Planning
  import Tid

  datatype Root = Root(cid: Cid, rev: Key)

  /** A block, and the revision that wrote it. */
  datatype Stored = Stored(rev: Key, block: Block)

  function StoreOf(blocks: map<Cid, Stored>): Store {
    map c | c in blocks :: blocks[c].block
  }

  /** A repository at one revision: its root, its records and every block it
      reaches. */
  datatype Snap = Snap(root: Root, records: map<Key, Cid>, keys: set<Cid>)

  // ---- What always holds ----

  /** A root whose commit is over the tree some entries make. */
  ghost predicate CommitsTo(root: Root, es: seq<Entry>, n: nat) {
    && root.cid.CommitCid? && root.cid.commit.rev == root.rev && root.cid.commit.data == CidOf(es)
    && Tid.IsTid(root.rev) && Proper(es, n) && Recorded(Contents(Leaves(es)))
  }

  /** Blocks and record table are exactly what the root reaches. */
  ghost predicate Stocked(root: Option<Root>, blocks: map<Cid, Stored>, records: map<Key, Row>,
                          es: seq<Entry>, n: nat) {
    if root.None? then blocks == map[] && records == map[]
    else
      && CommitsTo(root.value, es, n) && Exactly(StoreOf(blocks), root.value.cid, es)
      && RowMap(records) == Contents(Leaves(es))
  }

  /** A blob some record names is served. */
  ghost predicate Serves(t: Tables, served: set<Cid>) {
    forall b :: b in t.blobs && t.blobs[b].temp.None? ==> b in served
  }

  /** Nothing is served but what some record names. */
  ghost predicate Tidy(t: Tables, served: set<Cid>) {
    forall b :: b in served ==> b in t.blobs && t.blobs[b].temp.None?
  }

  /** Every upload a row names has its file, and no two rows name one. */
  ghost predicate Filed(t: Tables, uploads: set<Key>) {
    && (forall b, k :: Uploaded(t, b, k) ==> k in uploads)
    && (forall b, c, k :: Uploaded(t, b, k) && Uploaded(t, c, k) ==> b == c)
  }

  /** No row names any of some uploads, so their files can go. */
  ghost predicate Loose(t: Tables, keys: seq<Key>) {
    forall b, k :: Uploaded(t, b, k) ==> k !in keys
  }

  /** Claiming a blob leaves its file to go and every other upload's in place. */
  lemma StaysFiled(t: Tables, t': Tables, named: set<Cid>, taken: seq<Key>, uploads: set<Key>)
    requires Filed(t, uploads) && Took(t, t', named, [], taken)
    ensures Filed(t', uploads) && Loose(t', taken)
  {
    forall b, k | Uploaded(t', b, k) ensures Uploaded(t, b, k) && k !in taken {
      assert Uploaded(t, b, k) && b !in named;
      assert forall c :: c in named ==> !Uploaded(t, c, k);
    }
  }

  /** Revisions that only go up, each carried by its own commit. */
  ghost predicate Rising(roots: seq<Root>) {
    && (forall i :: 0 <= i < |roots| ==> roots[i].cid.CommitCid? && roots[i].cid.commit.rev == roots[i].rev)
    && (forall i, j :: 0 <= i < j < |roots| ==> Lt(roots[i].rev, roots[j].rev))
  }

  ghost function Roots(past: seq<Snap>): (roots: seq<Root>)
    ensures |roots| == |past| && forall i :: 0 <= i < |past| ==> roots[i] == past[i].root
  {
    seq(|past|, i requires 0 <= i < |past| => past[i].root)
  }

  /** A block has been held since the revision its row names: every revision
      from that one on reached it. */
  ghost predicate HeldSince(blocks: map<Cid, Stored>, past: seq<Snap>) {
    forall c, i :: c in blocks && 0 <= i < |past| && !Lt(past[i].root.rev, blocks[c].rev) ==> c in past[i].keys
  }

  /** The revisions so far, ending at the one there now. */
  ghost predicate Told(past: seq<Snap>, root: Option<Root>, blocks: map<Cid, Stored>, records: map<Key, Row>) {
    && Rising(Roots(past)) && HeldSince(blocks, past) && (past == [] <==> root.None?)
    && (root.Some? ==> past[|past| - 1] == Snap(root.value, RowMap(records), blocks.Keys))
  }

  /** No commit comes up twice, so where a root reads as it did it has not moved. */
  lemma NoneRecurs(roots: seq<Root>, i: int, j: int)
    requires Rising(roots) && 0 <= i < |roots| && 0 <= j < |roots| && roots[i].cid == roots[j].cid
    ensures i == j
  {
    LtIrreflexive(roots[i].rev);
  }

  lemma RisingNext(roots: seq<Root>, to: Root)
    requires Rising(roots) && (roots != [] ==> Lt(roots[|roots| - 1].rev, to.rev))
    requires to.cid.CommitCid? && to.cid.commit.rev == to.rev
    ensures Rising(roots + [to])
  {
    hide Lt;
    forall i | 0 <= i < |roots| ensures Lt(roots[i].rev, to.rev) {
      if i < |roots| - 1 { LtTransitive(roots[i].rev, roots[|roots| - 1].rev, to.rev); }
    }
  }

  /** What a revision wrote since one a reader already has is all the reader is
      missing of the repository now. */
  lemma SinceSuffices(past: seq<Snap>, root: Option<Root>, blocks: map<Cid, Stored>, records: map<Key, Row>, i: nat)
    requires Told(past, root, blocks, records) && i < |past|
    ensures blocks.Keys <= past[i].keys + (set c | c in blocks && Lt(past[i].root.rev, blocks[c].rev))
  {
  }

  // ---- A revision on its way in ----

  /** A revision worked out from what is stored: the blocks it writes and
      drops, and what it indexes, lead to the tree its root commits to. */
  ghost predicate Built(blocks: map<Cid, Stored>, records: map<Key, Row>, to: Root, rev: Revision,
                        items: seq<Indexed>, es: seq<Entry>, n: nat) {
    && CommitsTo(to, es, n)
    && Settles(rev, StoreOf(blocks), to.cid, es, blocks.Keys)
    && RowMap(RowsAfter(records, items, to.rev)) == Contents(Leaves(es))
  }

  /** Adds rows to a table one at a time, each left out where its key is
      already taken. */
  method InsertOrIgnore<K, V>(table: map<K, V>, rows: map<K, V>) returns (table': map<K, V>)
    ensures table' == rows + table
  {
    table' := table;
    var todo := rows.Keys;
    while todo != {}
      invariant todo <= rows.Keys && table' == rows - todo + table
      decreases |todo|
    {
      var k :| k in todo;
      if k !in table' { table' := table'[k := rows[k]]; }
      todo := todo - {k};
    }
  }

  /** Stores what a revision writes, leaving what is already there under the
      revision that wrote it. */
  method InsertBlocks(blocks: map<Cid, Stored>, written: Store, rev: Key) returns (blocks': map<Cid, Stored>)
    ensures blocks'.Keys == blocks.Keys + written.Keys
    ensures forall c :: c in blocks' ==> blocks'[c] == if c in blocks then blocks[c] else Stored(rev, written[c])
  {
    var rows := map c | c in written :: Stored(rev, written[c]);
    blocks' := InsertOrIgnore(blocks, rows);
  }

  /** Forgets what a revision drops, short of a block some record still is. */
  method Forget(blocks: map<Cid, Stored>, dropped: set<Cid>, records: map<Key, Row>) returns (blocks': map<Cid, Stored>)
    ensures blocks'.Keys == blocks.Keys - (dropped - RowMap(records).Values)
    ensures forall c :: c in blocks' ==> blocks'[c] == blocks[c]
  {
    blocks' := blocks;
    var todo := dropped;
    while todo != {}
      invariant todo <= dropped && blocks'.Keys == blocks.Keys - (dropped - todo - RowMap(records).Values)
      invariant forall c :: c in blocks' ==> blocks'[c] == blocks[c]
      decreases |todo|
    {
      var c :| c in todo;
      var held := exists k | k in records :: records[k].cid == c;
      assert held <==> c in RowMap(records).Values by {
        if held { var k :| k in records && records[k].cid == c; assert RowMap(records)[k] == c; }
        if c in RowMap(records).Values {
          var k :| k in RowMap(records) && RowMap(records)[k] == c;
          assert records[k].cid == c;
        }
      }
      if !held { blocks' := blocks' - {c}; }
      todo := todo - {c};
    }
  }

  /** Stored and forgotten, the blocks are exactly the next revision's. */
  lemma MovedExactly(blocks: map<Cid, Stored>, mid: map<Cid, Stored>, blocks': map<Cid, Stored>, records: map<Key, Row>,
                     records': map<Key, Row>, to: Root, rev: Revision, items: seq<Indexed>, es: seq<Entry>, n: nat)
    requires Built(blocks, records, to, rev, items, es, n) && records' == RowsAfter(records, items, to.rev)
    requires Honest(StoreOf(blocks))
    requires mid.Keys == blocks.Keys + rev.blocks.Keys
    requires forall c :: c in mid ==> mid[c] == if c in blocks then blocks[c] else Stored(to.rev, rev.blocks[c])
    requires blocks'.Keys == mid.Keys - (rev.dropped - RowMap(records').Values)
    requires forall c :: c in blocks' ==> blocks'[c] == mid[c]
    ensures Exactly(StoreOf(blocks'), to.cid, es)
  {
    hide RowMap, RowsAfter, Contents, Leaves, ValuesOf, AllOf, NodesOf, Honest, Settles, Proper, Recorded, CidOf;
    StoredKeys(blocks);
    StoredKeys(blocks');
    KeysMoved(StoreOf(blocks), rev, to.cid, es, n, mid.Keys, blocks'.Keys, RowMap(records').Values);
    HonestMoved(blocks, mid, blocks', rev, to);
  }

  lemma StoredKeys(blocks: map<Cid, Stored>)
    ensures StoreOf(blocks).Keys == blocks.Keys
  {
  }

  lemma KeysMoved(store: Store, rev: Revision, cid: Cid, es: seq<Entry>, n: nat,
                  mid: set<Cid>, left: set<Cid>, values: set<Cid>)
    requires Settles(rev, store, cid, es, store.Keys) && Proper(es, n) && values == Contents(Leaves(es)).Values
    requires mid == store.Keys + rev.blocks.Keys && left == mid - (rev.dropped - values)
    ensures left == AllOf(cid, es) && Honest(rev.blocks)
  {
    ValuesAre(es);
    hide Contents, Leaves, ValuesOf, NodesOf, AllOf, Honest, Proper;
  }

  lemma HonestMoved(blocks: map<Cid, Stored>, mid: map<Cid, Stored>, left: map<Cid, Stored>, rev: Revision, to: Root)
    requires Honest(StoreOf(blocks)) && Honest(rev.blocks) && mid.Keys == blocks.Keys + rev.blocks.Keys
    requires forall c :: c in mid ==> mid[c] == if c in blocks then blocks[c] else Stored(to.rev, rev.blocks[c])
    requires left.Keys <= mid.Keys && forall c :: c in left ==> left[c] == mid[c]
    ensures Honest(StoreOf(left))
  {
    forall c | c in left ensures left[c].block == BlockOf(c) {
      if c in blocks { assert StoreOf(blocks)[c] == BlockOf(c); }
    }
  }

  /** A landed revision is told after every one before it. */
  lemma ToldNext(past: seq<Snap>, root: Option<Root>, blocks: map<Cid, Stored>, records: map<Key, Row>,
                 to: Root, blocks': map<Cid, Stored>, records': map<Key, Row>)
    requires Told(past, root, blocks, records)
    requires root.Some? ==> Lt(root.value.rev, to.rev)
    requires to.cid.CommitCid? && to.cid.commit.rev == to.rev
    requires forall c :: c in blocks' ==> if c in blocks then blocks'[c] == blocks[c] else blocks'[c].rev == to.rev
    ensures Told(past + [Snap(to, RowMap(records'), blocks'.Keys)], Some(to), blocks', records')
  {
    var past' := past + [Snap(to, RowMap(records'), blocks'.Keys)];
    hide RowMap, Rising, Lt;
    RisingNext(Roots(past), to);
    assert Roots(past') == Roots(past) + [to];
    RisingAbove(Roots(past'));
    forall c, i | c in blocks' && 0 <= i < |past'| && !Lt(past'[i].root.rev, blocks'[c].rev)
      ensures c in past'[i].keys
    {
      if i < |past| { assert c in blocks; }
    }
  }

  lemma RisingAbove(roots: seq<Root>)
    requires Rising(roots)
    ensures forall i :: 0 <= i < |roots| - 1 ==> Lt(roots[i].rev, roots[|roots| - 1].rev)
  {
  }

  /** After a commit lands, a served blob is one some record names or one the
      commit says nothing holds any more. */
  lemma StaysServed(t: Tables, t': Tables, served: set<Cid>, out: Leaving, orphaned: seq<Cid>, kept: set<Cid>)
    requires Agree(t) && Agree(t') && Serves(t, served) && served <= out.served && out.served - out.linked == served
    requires out.linked <= kept
    requires forall b :: b in orphaned <==> (InUse(t.refs, b) || b in kept) && !InUse(t'.refs, b)
    requires t'.blobs.Keys == t.blobs.Keys - (set b | b in orphaned)
    requires forall b :: b in t'.blobs && t'.blobs[b].temp.None? ==> t.blobs[b].temp.None? || b in out.served
    ensures Serves(t', out.served)
    ensures Tidy(t, served) ==> Tidy(t', out.served - (set b | b in orphaned))
    ensures forall b :: b in orphaned ==> b !in t'.blobs
  {
    forall b | Tidy(t, served) && b in out.served && b !in orphaned ensures b in t'.blobs && t'.blobs[b].temp.None? {
      if b in served { assert b in t.blobs && InUse(t.refs, b); }
      assert InUse(t'.refs, b);
    }
  }

  /** Where an account stands, a revision at a time. */
  datatype Standing = Standing(root: Option<Root>, blocks: map<Cid, Stored>, tables: Tables, served: set<Cid>,
                               uploads: set<Key>, es: seq<Entry>, n: nat, past: seq<Snap>) {
    ghost predicate Sound() {
      && Stocked(root, blocks, tables.records, es, n) && Agree(tables) && Serves(tables, served)
      && Told(past, root, blocks, tables.records) && Filed(tables, uploads)
    }
  }

  /** Everything a revision moves, worked out in one transaction. What comes of
      it stands where the account is to stand, unless a blob is objected to;
      `out` says which names were put on disk on the way. */
  method TakeIn(blocks: map<Cid, Stored>, t: Tables, served: set<Cid>, to: Root, rev: Revision, items: seq<Indexed>,
                ghost now: Standing, ghost es: seq<Entry>, ghost n: nat)
    returns (left: map<Cid, Stored>, t': Tables, out: Leaving, orphaned: seq<Cid>, error: Option<BlobError>)
    requires Agree(t) && forall i :: 0 <= i < |items| ==> items[i].Faithful()
    requires now.Sound() && now.blocks == blocks && now.tables == t && now.served == served
    ensures error == FirstObjection(t.blobs, {}, AllBlobs(items)) && out.served - out.linked == served
    ensures error.None? ==>
              && t'.records == RowsAfter(t.records, items, to.rev) && Took(t, t', Spared(items), [], out.taken)
              && (forall b :: b in orphaned <==> (InUse(t.refs, b) || b in Spared(items)) && !InUse(t'.refs, b))
              && Distinct(orphaned)
    ensures error.None? && Built(blocks, t.records, to, rev, items, es, n)
            && (now.root.Some? ==> Lt(now.root.value.rev, to.rev)) ==>
              && Standing(Some(to), left, t', out.served, now.uploads, es, n,
                          now.past + [Snap(to, Contents(Leaves(es)), left.Keys)]).Sound()
              && (Tidy(t, served) ==> Tidy(t', out.served - (set b | b in orphaned)))
              && (forall b :: b in orphaned ==> b !in t'.blobs) && Loose(t', out.taken)
  {
    hide Stocked, Agree, Serves, Told, Built, RowsAfter, Spared, Contents, Leaves, Distinct, Tidy, Took, Filed, Loose,
         InUse, Lt;
    var stored := InsertBlocks(blocks, rev.blocks, to.rev);
    t', out, orphaned, error := IndexAll(t, items, to.rev, served);
    left := Forget(stored, rev.dropped, t'.records);
    if error.None? && Built(blocks, t.records, to, rev, items, es, n)
       && (now.root.Some? ==> Lt(now.root.value.rev, to.rev)) {
      CommitKeeps(now.root, blocks, t, served, now.uploads, now.es, now.n, now.past, to, rev, items, stored, left, t',
                  out, orphaned, es, n);
    }
  }

  datatype CommitError = Blobs(error: BlobError) | RootTaken

  datatype Landing =
    | Landed(orphaned: seq<Cid>, taken: seq<Key>)
    | Lost
    | Refused(error: CommitError)

  class Actor {
    var root: Option<Root>
    var blocks: map<Cid, Stored>
    var tables: Tables
    var served: set<Cid>
    /** The files uploads are held in, by name. */
    var uploads: set<Key>
    /** The tree the root is over, every revision so far, and whether each of
        them came of a calm batch. */
    ghost var es: seq<Entry>
    ghost var n: nat
    ghost var past: seq<Snap>
    ghost var calm: bool

    ghost predicate Valid()
      reads this
    {
      && Stocked(root, blocks, tables.records, es, n) && Agree(tables) && Serves(tables, served)
      && Told(past, root, blocks, tables.records) && Filed(tables, uploads) && (calm ==> Canonical(es))
    }

    constructor ()
      ensures Valid() && root.None? && past == [] && served == {} && tables == Tables(map[], map[], map[], {})
      ensures uploads == {} && calm
    {
      root, blocks, tables, served, uploads := None, map[], Tables(map[], map[], map[], {}), {}, {};
      es, n, past, calm := [], 0, [], true;
    }

    /** The one way an account's repository moves. A revision built on `from`
        is taken in with its blocks, its index and its root all at once, if
        `from` is what the root still is; in any other case nothing is
        different afterwards, the names served included. */
    method Commit(from: Option<Root>, to: Root, rev: Revision, items: seq<Indexed>,
                  ghost es': seq<Entry>, ghost n': nat, ghost settled: bool) returns (r: Landing)
      requires Valid() && forall i :: 0 <= i < |items| ==> items[i].Faithful()
      requires (if root.None? then from.None? else from.Some? && from.value.cid == root.value.cid) ==>
                 Built(blocks, tables.records, to, rev, items, es', n')
                 && (root.Some? ==> Lt(root.value.rev, to.rev))
                 && (calm && settled ==> Canonical(es'))
      modifies this
      ensures Valid()
      ensures r.Landed? ==>
                && (if old(root).None? then from.None? else from.Some? && from.value.cid == old(root).value.cid)
                && root == Some(to) && es == es' && n == n'
                && tables.records == RowsAfter(old(tables.records), items, to.rev)
                && past == old(past) + [Snap(to, Contents(Leaves(es)), blocks.Keys)]
                && (forall b :: b in r.orphaned <==>
                      (InUse(old(tables.refs), b) || b in Spared(items)) && !InUse(tables.refs, b))
                && Distinct(r.orphaned)
                && (Tidy(old(tables), old(served)) ==> Tidy(tables, served - (set b | b in r.orphaned)))
                && (forall b :: b in r.orphaned ==> b !in tables.blobs)
                && Took(old(tables), tables, Spared(items), [], r.taken) && Loose(tables, r.taken)
                && uploads == old(uploads) && (calm <==> old(calm) && settled)
      ensures var objection := FirstObjection(old(tables).blobs, {}, AllBlobs(items));
              if objection.Some? then r == Refused(Blobs(objection.value))
              else if from.Some? && (old(root).None? || from.value.cid != old(root).value.cid) then r == Lost
              else if from.None? && old(root).Some? then r == Refused(RootTaken)
              else r.Landed?
      ensures !r.Landed? ==> unchanged(this)
    {
      hide Stocked, Agree, Serves, Told, Built, RowsAfter, Spared, Contents, Leaves, Distinct, Tidy, Took, Filed,
           Loose, Canonical, InUse;
      ghost var now := Standing(root, blocks, tables, served, uploads, es, n, past);
      var left, t, out, orphaned, error := TakeIn(blocks, tables, served, to, rev, items, now, es', n');
      // Links are not part of the transaction.
      served := out.served;
      if error.Some? {
        r := Refused(Blobs(error.value));
      } else if from.Some? && (root.None? || root.value.cid != from.value.cid) {
        r := Lost;
      } else if from.None? && root.Some? {
        r := Refused(RootTaken);
      } else {
        past := past + [Snap(to, Contents(Leaves(es')), left.Keys)];
        root, blocks, tables, es, n, calm := Some(to), left, t, es', n', calm && settled;
        r := Landed(orphaned, out.taken);
        return;
      }
      served := served - out.linked;
    }

    /** Gives an account its first revision, over the empty tree. */
    method Create(did: Key, clock: Tid.Clock, now: nat) returns (r: Landing)
      requires Valid()
      modifies this, clock
      ensures Valid()
      ensures r.Landed? <==> old(root).None?
      ensures r.Landed? ==> root.Some? && es == [] && root.value.cid.commit.did == did
      ensures r.Landed? ==>
                && Tid.ToParts(root.value.rev) == (clock.last, clock.clockId % Tid.CLOCK_IDS)
                && clock.last == Tid.Min(if now > old(clock.last) + 1 then now else old(clock.last) + 1, Tid.MICROS - 1)
      ensures !r.Landed? ==> unchanged(this)
    {
      var rev := clock.Mint(now);
      var c := Data.Commit.Commit(did, CidOf([]), rev);
      var blocks0: Store := map[CidOf([]) := BlockOf(CidOf([])), CommitCid(c) := CommitBlock(c)];
      FirstBuilt(blocks, tables.records, c, blocks0);
      r := Commit(None, Root(CommitCid(c), rev), Revision(blocks0, {}), [], [], 0, true);
    }

    /** An upload: its file under a name nothing has, and a row for it. One made
        again starts its window over; where a record already holds the blob the
        row is left alone. */
    method AddBlob(blob: Blob, key: Key, now: nat)
      requires Valid() && key !in uploads
      modifies this`tables, this`uploads
      ensures Valid() && uploads == old(uploads) + {key}
      ensures tables == old(tables).(blobs := tables.blobs)
      ensures blob.cid in tables.blobs && tables.blobs - {blob.cid} == old(tables.blobs) - {blob.cid}
      ensures if InUse(tables.refs, blob.cid) then tables == old(tables)
              else Uploaded(tables, blob.cid, key) && tables.blobs[blob.cid].created == now
      ensures blob.cid !in old(tables.blobs) ==>
                tables.blobs[blob.cid] == BlobRow(blob.mime, blob.size, Some(key), now)
      ensures blob.cid in old(tables.blobs) ==>
                && tables.blobs[blob.cid].mime == old(tables.blobs)[blob.cid].mime
                && tables.blobs[blob.cid].size == old(tables.blobs)[blob.cid].size
      ensures Tidy(old(tables), served) ==> Tidy(tables, served)
    {
      hide Stocked, Told, Canonical, Filed;
      ghost var t := tables;
      uploads := uploads + {key};
      if blob.cid !in tables.blobs {
        tables := tables.(blobs := tables.blobs[blob.cid := BlobRow(blob.mime, blob.size, Some(key), now)]);
      } else if tables.blobs[blob.cid].temp.Some? {
        var row := tables.blobs[blob.cid].(temp := Some(key), created := now);
        tables := tables.(blobs := tables.blobs[blob.cid := row]);
      }
      FiledUpload(t, tables, blob.cid, key, uploads - {key});
    }

    /** Takes out one stale upload, unless it was uploaded again or claimed
        since it was read. */
    method SweepRow(cid: Cid, key: Key) returns (gone: bool)
      requires Valid()
      modifies this`tables
      ensures Valid()
      ensures gone <==> cid in old(tables.blobs) && old(tables.blobs)[cid].temp == Some(key)
      ensures tables == old(tables).(blobs := if gone then old(tables.blobs) - {cid} else old(tables.blobs))
      ensures Tidy(old(tables), served) ==> Tidy(tables, served)
    {
      hide Stocked, Told, Canonical, Filed;
      ghost var t := tables;
      gone := cid in tables.blobs && tables.blobs[cid].temp == Some(key);
      if gone { tables := tables.(blobs := tables.blobs - {cid}); }
      FewerFiled(t, tables, uploads);
    }

    /** Takes the files a commit or a sweep has no more use for: those of blobs
        without a row, and of uploads no row names. A blob uploaded again in the
        meantime has a row, and keeps its file. */
    method Cleared(orphaned: seq<Cid>, taken: seq<Key>)
      requires Valid() && Loose(tables, taken)
      modifies this`served, this`uploads
      ensures Valid()
      ensures served == old(served) - (set b | b in orphaned && b !in tables.blobs)
      ensures uploads == old(uploads) - (set k | k in taken)
    {
      hide Stocked, Told, Agree, Canonical, Filed, Loose;
      var i := 0;
      while i < |orphaned|
        invariant 0 <= i <= |orphaned| && uploads == old(uploads)
        invariant Valid() && served == old(served) - (set b | b in orphaned[..i] && b !in tables.blobs)
      {
        if orphaned[i] !in tables.blobs { served := served - {orphaned[i]}; }
        i := i + 1;
      }
      assert orphaned[..i] == orphaned;
      var left := uploads;
      i := 0;
      while i < |taken|
        invariant 0 <= i <= |taken| && left == uploads - (set k | k in taken[..i])
      {
        left := left - {taken[i]};
        i := i + 1;
      }
      assert taken[..i] == taken;
      FiledWithout(tables, uploads, taken);
      uploads := left;
    }
  }

  lemma FiledUpload(t: Tables, t': Tables, b: Cid, key: Key, uploads: set<Key>)
    requires Filed(t, uploads) && key !in uploads
    requires forall c :: c in t'.blobs && c != b ==> c in t.blobs && t'.blobs[c] == t.blobs[c]
    requires b in t'.blobs ==> t'.blobs[b].temp == Some(key) || t'.blobs[b].temp.None?
    ensures Filed(t', uploads + {key})
  {
    forall c, k | Uploaded(t', c, k) ensures k in uploads + {key} && (c != b ==> Uploaded(t, c, k)) {
      if c != b { assert Uploaded(t, c, k); }
    }
  }

  lemma FewerFiled(t: Tables, t': Tables, uploads: set<Key>)
    requires Filed(t, uploads) && forall b :: b in t'.blobs ==> b in t.blobs && t'.blobs[b] == t.blobs[b]
    ensures Filed(t', uploads)
  {
    assert forall b, k :: Uploaded(t', b, k) ==> Uploaded(t, b, k);
  }

  lemma FiledWithout(t: Tables, uploads: set<Key>, taken: seq<Key>)
    requires Filed(t, uploads) && Loose(t, taken)
    ensures Filed(t, uploads - (set k | k in taken))
  {
  }

  /** Every upload left unclaimed since before a cutoff loses its row, and
      nothing a record names does. What comes back are those uploads' names,
      which no row is left under. */
  method SweepUnclaimed(actor: Actor, cutoff: nat) returns (swept: seq<Key>)
    requires actor.Valid()
    modifies actor`tables
    ensures actor.Valid() && actor.tables == old(actor.tables).(blobs := actor.tables.blobs)
    ensures actor.tables.blobs == old(actor.tables.blobs) - Stale(old(actor.tables.blobs), cutoff)
    ensures forall b :: b in old(actor.tables.blobs) ==>
              var row := old(actor.tables.blobs)[b];
              && (b !in actor.tables.blobs <==> row.temp.Some? && row.created < cutoff)
              && (b !in actor.tables.blobs ==> row.temp.value in swept)
    ensures forall k :: k in swept <==> GivenUp(old(actor.tables), Stale(old(actor.tables.blobs), cutoff), k)
    ensures Loose(actor.tables, swept)
    ensures Tidy(old(actor.tables), actor.served) ==> Tidy(actor.tables, actor.served)
  {
    hide Stocked, Told, Agree, Serves, Tidy, Filed, Loose, Canonical;
    swept := [];
    var blobs := actor.tables.blobs;
    var stale := Stale(blobs, cutoff);
    var todo := stale;
    assert blobs - (stale - todo) == blobs;
    while todo != {}
      invariant todo <= stale && actor.Valid() && actor.tables == old(actor.tables).(blobs := blobs - (stale - todo))
      invariant Tidy(old(actor.tables), actor.served) ==> Tidy(actor.tables, actor.served)
      invariant forall k :: k in swept <==> GivenUp(old(actor.tables), stale - todo, k)
      decreases |todo|
    {
      var b :| b in todo;
      var key := blobs[b].temp.value;
      var gone := actor.SweepRow(b, key);
      if gone { swept := swept + [key]; }
      assert blobs - (stale - todo) - {b} == blobs - (stale - (todo - {b}));
      SweptNext(old(actor.tables), stale, todo, b, swept[..|swept| - 1], swept);
      todo := todo - {b};
    }
    assert stale - todo == stale;
    SweptLoose(old(actor.tables), actor.tables, stale, actor.uploads, swept);
    SweptNames(old(actor.tables), stale, swept);
  }

  lemma SweptNames(t: Tables, stale: set<Cid>, swept: seq<Key>)
    requires forall k :: k in swept <==> GivenUp(t, stale, k)
    ensures forall b :: b in stale && b in t.blobs && t.blobs[b].temp.Some? ==> t.blobs[b].temp.value in swept
  {
    forall b | b in stale && b in t.blobs && t.blobs[b].temp.Some? ensures t.blobs[b].temp.value in swept {
      assert Uploaded(t, b, t.blobs[b].temp.value);
    }
  }

  lemma SweptNext(t: Tables, stale: set<Cid>, todo: set<Cid>, b: Cid, before: seq<Key>, swept: seq<Key>)
    requires b in todo && todo <= stale && b in t.blobs && t.blobs[b].temp.Some?
    requires swept == before + [t.blobs[b].temp.value]
    requires forall k :: k in before <==> GivenUp(t, stale - todo, k)
    ensures forall k :: k in swept <==> GivenUp(t, stale - (todo - {b}), k)
  {
    forall k ensures k in swept <==> GivenUp(t, stale - (todo - {b}), k) {
      if k in before { var c :| c in stale - todo && Uploaded(t, c, k); assert c in stale - (todo - {b}); }
      if k == t.blobs[b].temp.value { assert Uploaded(t, b, k) && b in stale - (todo - {b}); }
      if GivenUp(t, stale - (todo - {b}), k) {
        var c :| c in stale - (todo - {b}) && Uploaded(t, c, k);
        assert c == b || c in stale - todo;
      }
    }
  }

  lemma SweptLoose(t: Tables, t': Tables, stale: set<Cid>, uploads: set<Key>, swept: seq<Key>)
    requires Filed(t, uploads) && t'.blobs == t.blobs - stale
    requires forall k :: k in swept <==> GivenUp(t, stale, k)
    ensures Loose(t', swept)
  {
    forall b, k | Uploaded(t', b, k) ensures k !in swept {
      assert Uploaded(t, b, k) && b !in stale;
      assert forall c :: c in stale ==> !Uploaded(t, c, k);
    }
  }

  function Stale(blobs: map<Cid, BlobRow>, cutoff: nat): set<Cid> {
    set b | b in blobs && blobs[b].temp.Some? && blobs[b].created < cutoff
  }

  /** One tree for one set of records, account to account and revision to
      revision: two accounts whose every batch was calm and whose records are
      the same are over the same root, whatever either did to get there. */
  lemma SameRecordsSameRoot(a: Actor, b: Actor)
    requires a.Valid() && b.Valid() && a.calm && b.calm && a.root.Some? && b.root.Some?
    requires RowMap(a.tables.records) == RowMap(b.tables.records)
    ensures a.root.value.cid.commit.data == b.root.value.cid.commit.data
  {
    hide Agree, Serves, Told, Filed, RowMap, Contents, Leaves, Canonical, CidOf, Exactly, Proper, Recorded;
    CanonicalIsUnique(a.es, b.es);
  }

  lemma FirstBuilt(blocks: map<Cid, Stored>, records: map<Key, Row>, c: Commit, written: Store)
    requires c.data == CidOf([]) && Tid.IsTid(c.rev)
    requires written == map[CidOf([]) := BlockOf(CidOf([])), CommitCid(c) := CommitBlock(c)]
    ensures blocks == map[] && records == map[] ==>
              Built(blocks, records, Root(CommitCid(c), c.rev), Revision(written, {}), [], [], 0)
  {
    assert NodesOf([]) == {CidOf([])} && ValuesOf([]) == {};
  }

  /** What every part of an account's invariant is once a revision has landed. */
  lemma CommitKeeps(root: Option<Root>, blocks: map<Cid, Stored>, t: Tables, served: set<Cid>, uploads: set<Key>,
                    es: seq<Entry>, n: nat, past: seq<Snap>, to: Root, rev: Revision, items: seq<Indexed>,
                    stored: map<Cid, Stored>, left: map<Cid, Stored>, t': Tables, out: Leaving, orphaned: seq<Cid>,
                    es': seq<Entry>, n': nat)
    requires Stocked(root, blocks, t.records, es, n) && Built(blocks, t.records, to, rev, items, es', n')
    requires Agree(t) && Agree(t') && Serves(t, served) && Told(past, root, blocks, t.records) && Filed(t, uploads)
    requires t'.records == RowsAfter(t.records, items, to.rev) && (root.Some? ==> Lt(root.value.rev, to.rev))
    requires stored.Keys == blocks.Keys + rev.blocks.Keys
    requires forall c :: c in stored ==> stored[c] == if c in blocks then blocks[c] else Stored(to.rev, rev.blocks[c])
    requires left.Keys == stored.Keys - (rev.dropped - RowMap(t'.records).Values)
    requires forall c :: c in left ==> left[c] == stored[c]
    requires served <= out.served && out.served - out.linked == served && out.linked <= Spared(items)
    requires forall b :: b in orphaned <==> (InUse(t.refs, b) || b in Spared(items)) && !InUse(t'.refs, b)
    requires t'.blobs.Keys == t.blobs.Keys - (set b | b in orphaned)
    requires forall b :: b in t'.blobs && t'.blobs[b].temp.None? ==> t.blobs[b].temp.None? || b in out.served
    requires Took(t, t', Spared(items), [], out.taken)
    ensures Stocked(Some(to), left, t'.records, es', n') && Serves(t', out.served) && Filed(t', uploads)
    ensures Told(past + [Snap(to, Contents(Leaves(es')), left.Keys)], Some(to), left, t'.records)
    ensures Tidy(t, served) ==> Tidy(t', out.served - (set b | b in orphaned))
    ensures (forall b :: b in orphaned ==> b !in t'.blobs) && Loose(t', out.taken)
  {
    hide Stocked, Agree, Serves, Told, Built, RowsAfter, Spared, Contents, Leaves, InUse, Tidy, Took, Filed, Loose,
         RowMap, Honest, Lt;
    StockedHonest(root, blocks, t.records, es, n);
    Lands(blocks, t.records, to, rev, items, stored, left, t'.records, es', n');
    ToldNext(past, root, blocks, t.records, to, left, t'.records);
    StaysServed(t, t', served, out, orphaned, Spared(items));
    StaysFiled(t, t', Spared(items), out.taken, uploads);
  }

  lemma Lands(blocks: map<Cid, Stored>, records: map<Key, Row>, to: Root, rev: Revision, items: seq<Indexed>,
              stored: map<Cid, Stored>, left: map<Cid, Stored>, records': map<Key, Row>, es: seq<Entry>, n: nat)
    requires Honest(StoreOf(blocks)) && Built(blocks, records, to, rev, items, es, n)
    requires records' == RowsAfter(records, items, to.rev)
    requires stored.Keys == blocks.Keys + rev.blocks.Keys
    requires forall c :: c in stored ==> stored[c] == if c in blocks then blocks[c] else Stored(to.rev, rev.blocks[c])
    requires left.Keys == stored.Keys - (rev.dropped - RowMap(records').Values)
    requires forall c :: c in left ==> left[c] == stored[c]
    ensures Stocked(Some(to), left, records', es, n) && RowMap(records') == Contents(Leaves(es))
    ensures to.cid.CommitCid? && to.cid.commit.rev == to.rev
  {
    hide Settles, Exactly, RowMap, RowsAfter, Contents, Leaves, Proper, Recorded, CidOf, Honest;
    MovedExactly(blocks, stored, left, records, records', to, rev, items, es, n);
  }

  lemma StockedHonest(root: Option<Root>, blocks: map<Cid, Stored>, records: map<Key, Row>, es: seq<Entry>, n: nat)
    requires Stocked(root, blocks, records, es, n)
    ensures Honest(StoreOf(blocks))
  {
    hide CommitsTo, RowMap, Contents, Leaves, AllOf;
  }
}
