/** What a set of requested writes comes to, worked out against the repository
    and the index before any of it lands. */
module Planning {
  import opened Data
  import opened Keys
  import opened Tree
  import opened TreeOps
  import opened Mst
  import opened Operations
  import opened Repo
  import opened Index

  /** What a caller says is at a key. */
  datatype Wanted = Anything | Nothing | Holding(cid: Cid)

  /** A write, what it expects to find, whether a missing key is passed over,
      and whether records it would duplicate make way for it. */
  datatype Requested = Requested(write: Write, wants: Wanted, skip: bool, supersede: bool)

  /** Collections where a new record may supersede old ones. */
  predicate HeldToOne(collection: Key) {
    || collection == Ascii("app.bsky.graph.follow") || collection == Ascii("app.bsky.graph.block")
    || collection == Ascii("app.bsky.feed.like") || collection == Ascii("app.bsky.feed.repost")
  }

  // ---- The index and the tree ----

  /** The record table as the map the tree should hold. */
  ghost function RowMap(records: map<Key, Row>): map<Key, Cid> {
    map k | k in records :: records[k].cid
  }

  /** What is indexed of a write. */
  ghost predicate Pair(w: Write, item: Indexed) {
    && item.collection == w.collection && item.rkey == w.rkey && (w.Delete? <==> item.Empty?)
    && (item.Place? ==> item.cid == RecordCid(w.record))
    && item.Faithful()
  }

  ghost predicate Paired(ws: seq<Write>, items: seq<Indexed>) {
    |ws| == |items| && forall i :: 0 <= i < |ws| ==> Pair(ws[i], items[i])
  }

  /** The index moves as the tree does: a batch the tree takes leaves the record
      table holding the tree's own map. */
  lemma {:induction false} IndexFollowsTree(records: map<Key, Row>, ws: seq<Write>, items: seq<Indexed>, rev: Key)
    requires Paired(ws, items) && AppliedAll(RowMap(records), ws).Ok?
    ensures RowMap(RowsAfter(records, items, rev)) == AppliedAll(RowMap(records), ws).value
  {
    if ws != [] {
      var n := |ws| - 1;
      IndexFollowsTree(records, ws[..n], items[..n], rev);
      hide RowMap, Applied, Pair;
      RowFollows(RowsAfter(records, items[..n], rev), ws[n], items[n], rev);
      assert items == items[..n] + [items[n]];
    }
  }

  lemma RowFollows(records: map<Key, Row>, w: Write, item: Indexed, rev: Key)
    requires Pair(w, item) && Applied(RowMap(records), w).Ok?
    ensures RowMap(if item.Place? then records[item.At() := Row(item.cid, item.collection, item.rkey, rev)]
                   else records - {item.At()})
            == Applied(RowMap(records), w).value
  {
    assert item.At() == w.Target();
    hide Pair;
  }

  // ---- What is said of a batch ----

  datatype Action = Creates | Updates | Deletes

  /** What the log says one write did: where the record landed, and what stood
      at its key before the batch. */
  datatype Logged = Logged(action: Action, path: Key, cid: Option<Cid>, prev: Option<Cid>)

  /** Where one requested write landed, and under what. */
  datatype Spot = Spot(path: Key, cid: Option<Cid>)

  /** What requests come to: the writes, what is indexed and logged of each, and
      what the caller is told of its own. */
  datatype Worked = Worked(writes: seq<Write>, index: seq<Indexed>, ops: seq<Logged>, spots: seq<Spot>)

  function Joined(p: Worked, q: Worked): Worked {
    Worked(p.writes + q.writes, p.index + q.index, p.ops + q.ops, p.spots + q.spots)
  }

  function Lookups(m: map<Key, Cid>, k: Key): Option<Cid> {
    if k in m then Some(m[k]) else None
  }

  /** The block a write puts at its key. */
  function Puts(w: Write): Option<Cid> {
    if w.Delete? then None else Some(RecordCid(w.record))
  }

  /** Whether an operation says what one write of a batch over `m` was. */
  ghost predicate Logs(m: map<Key, Cid>, w: Write, op: Logged) {
    && op.path == w.Target() && op.cid == Puts(w) && op.prev == Lookups(m, w.Target())
    && (op.action.Deletes? <==> w.Delete?)
    && (op.action.Updates? <==> w.Replace? || (w.Put? && w.Target() in m))
  }

  ghost predicate AllLogged(m: map<Key, Cid>, ws: seq<Write>, ops: seq<Logged>) {
    |ws| == |ops| && forall i :: 0 <= i < |ws| ==> Logs(m, ws[i], ops[i])
  }

  /** The index and the log keep step with the writes. */
  ghost predicate InStep(m: map<Key, Cid>, p: Worked) {
    Paired(p.writes, p.index) && AllLogged(m, p.writes, p.ops)
  }

  lemma InStepJoined(m: map<Key, Cid>, p: Worked, q: Worked)
    requires InStep(m, p) && InStep(m, q)
    ensures InStep(m, Joined(p, q))
  {
    hide Pair, Logs;
  }

  lemma InStepOne(m: map<Key, Cid>, w: Write, item: Indexed, op: Logged, spots: seq<Spot>)
    requires Pair(w, item) && Logs(m, w, op)
    ensures InStep(m, Worked([w], [item], [op], spots))
  {
    hide Pair, Logs;
  }

  /** A key set to a block, or emptied. */
  function Set(m: map<Key, Cid>, k: Key, c: Option<Cid>): map<Key, Cid> {
    if c.Some? then m[k := c.value] else m - {k}
  }

  /** What a reader of the log who does as it says comes to. */
  function Replayed(m: map<Key, Cid>, ops: seq<Logged>): map<Key, Cid> {
    if ops == [] then m
    else
      var op := ops[|ops| - 1];
      Set(Replayed(m, ops[..|ops| - 1]), op.path, op.cid)
  }

  /** What one who puts back what each operation replaced comes to. */
  function Undone(m: map<Key, Cid>, ops: seq<Logged>): map<Key, Cid>
    decreases |ops|
  {
    if ops == [] then m
    else
      var op := ops[|ops| - 1];
      Undone(Set(m, op.path, op.prev), ops[..|ops| - 1])
  }

  lemma AppliedSets(m: map<Key, Cid>, w: Write)
    requires Repo.Applied(m, w).Ok?
    ensures Repo.Applied(m, w).value == Set(m, w.Target(), Puts(w))
  {
    hide ValidKey;
  }

  /** The log is enough to follow an account by: its operations take the records
      before a batch to those after. */
  lemma {:induction false} LogReplays(m: map<Key, Cid>, ws: seq<Write>, ops: seq<Logged>)
    requires AllLogged(m, ws, ops) && AppliedAll(m, ws).Ok?
    ensures Replayed(m, ops) == AppliedAll(m, ws).value
  {
    if ws != [] {
      var n := |ws| - 1;
      hide Repo.Applied, Set;
      LogReplays(m, ws[..n], ops[..n]);
      assert Logs(m, ws[n], ops[n]);
      AppliedSets(AppliedAll(m, ws[..n]).value, ws[n]);
    }
  }

  /** And enough to go back by, even where a batch writes one key twice: what
      each operation says it replaced is what the batch as a whole did. */
  lemma LogUndoes(m: map<Key, Cid>, ws: seq<Write>, ops: seq<Logged>)
    requires AllLogged(m, ws, ops) && AppliedAll(m, ws).Ok?
    ensures Undone(AppliedAll(m, ws).value, ops) == m
  {
    hide Undone, Replayed;
    LogReplays(m, ws, ops);
    forall i | 0 <= i < |ops| ensures ops[i].prev == Lookups(m, ops[i].path) { assert Logs(m, ws[i], ops[i]); }
    forall k ensures Lookups(Undone(Replayed(m, ops), ops), k) == Lookups(m, k) {
      UndoneAt(m, Replayed(m, ops), ops, k);
      if forall i :: 0 <= i < |ops| ==> ops[i].path != k { ReplayedElsewhere(m, ops, k); }
    }
    SameLookups(Undone(Replayed(m, ops), ops), m);
  }

  lemma SameLookups(m: map<Key, Cid>, m': map<Key, Cid>)
    requires forall k :: Lookups(m, k) == Lookups(m', k)
    ensures m == m'
  {
    forall k | k in m || k in m' ensures k in m && k in m' && m[k] == m'[k] {
      assert Lookups(m, k) == Lookups(m', k);
    }
  }

  lemma {:induction false} UndoneAt(m: map<Key, Cid>, now: map<Key, Cid>, ops: seq<Logged>, k: Key)
    requires forall i :: 0 <= i < |ops| ==> ops[i].prev == Lookups(m, ops[i].path)
    ensures Lookups(Undone(now, ops), k) ==
            if Lookups(now, k) == Lookups(m, k) || exists i :: 0 <= i < |ops| && ops[i].path == k then Lookups(m, k)
            else Lookups(now, k)
    decreases |ops|
  {
    if ops != [] {
      var n := |ops| - 1;
      UndoneAt(m, Set(now, ops[n].path, ops[n].prev), ops[..n], k);
      assert (exists i :: 0 <= i < n && ops[..n][i].path == k) ==> exists i :: 0 <= i < |ops| && ops[i].path == k;
    }
  }

  lemma {:induction false} ReplayedElsewhere(m: map<Key, Cid>, ops: seq<Logged>, k: Key)
    requires forall i :: 0 <= i < |ops| ==> ops[i].path != k
    ensures Lookups(Replayed(m, ops), k) == Lookups(m, k)
  {
    if ops != [] { ReplayedElsewhere(m, ops[..|ops| - 1], k); }
  }

  /** A batch that writes no key twice. */
  ghost predicate Once(ws: seq<Write>) {
    forall i, j :: 0 <= i < j < |ws| ==> ws[i].Target() != ws[j].Target()
  }

  lemma {:induction false} OnceApplied(m: map<Key, Cid>, ws: seq<Write>, k: Key)
    requires AppliedAll(m, ws).Ok? && forall i :: 0 <= i < |ws| ==> ws[i].Target() != k
    ensures Lookups(AppliedAll(m, ws).value, k) == Lookups(m, k)
  {
    if ws != [] {
      var n := |ws| - 1;
      hide Repo.Applied;
      OnceApplied(m, ws[..n], k);
      AppliedSets(AppliedAll(m, ws[..n]).value, ws[n]);
    }
  }

  /** Where no key is written twice, the log is the difference a batch made, one
      operation for each key it wrote: what stood there, what stands there now,
      and which of the three it was. */
  lemma {:induction false} LogIsDifference(m: map<Key, Cid>, ws: seq<Write>, ops: seq<Logged>, i: nat)
    requires AllLogged(m, ws, ops) && AppliedAll(m, ws).Ok? && Once(ws) && i < |ws|
    ensures ops[i].prev == Lookups(m, ops[i].path) && ops[i].cid == Lookups(AppliedAll(m, ws).value, ops[i].path)
    ensures ops[i].action == (if ops[i].cid.None? then Deletes else if ops[i].prev.None? then Creates else Updates)
    ensures ops[i].action.Deletes? ==> ops[i].prev.Some?
  {
    hide Repo.Applied, Logs, Set;
    var n := |ws| - 1;
    assert Logs(m, ws[i], ops[i]);
    var before := AppliedAll(m, ws[..n]).value;
    if i < n {
      LogIsDifference(m, ws[..n], ops[..n], i);
      assert ws[i].Target() != ws[n].Target();
      LogStays(m, before, ws[i], ws[n], ops[i]);
    } else {
      OnceApplied(m, ws[..n], ws[n].Target());
      LoggedLast(m, before, ws[n], ops[n]);
    }
  }

  lemma LogStays(m: map<Key, Cid>, before: map<Key, Cid>, w: Write, last: Write, op: Logged)
    requires Logs(m, w, op) && Repo.Applied(before, last).Ok? && w.Target() != last.Target()
    ensures Lookups(Repo.Applied(before, last).value, op.path) == Lookups(before, op.path)
  {
    hide Repo.Applied;
    AppliedSets(before, last);
  }

  lemma LoggedLast(m: map<Key, Cid>, before: map<Key, Cid>, w: Write, op: Logged)
    requires Logs(m, w, op) && Repo.Applied(before, w).Ok?
    requires Lookups(before, w.Target()) == Lookups(m, w.Target())
    ensures op.prev == Lookups(m, op.path) && op.cid == Lookups(Repo.Applied(before, w).value, op.path)
    ensures op.action == (if op.cid.None? then Deletes else if op.prev.None? then Creates else Updates)
    ensures op.action.Deletes? ==> op.prev.Some?
  {
    hide Repo.Applied;
    AppliedSets(before, w);
    WriteFinds(before, w);
  }

  lemma WriteFinds(m: map<Key, Cid>, w: Write)
    requires Repo.Applied(m, w).Ok?
    ensures w.Create? ==> w.Target() !in m
    ensures w.Replace? || w.Delete? ==> w.Target() in m
  {
    hide ValidKey;
  }

  // ---- Making way ----

  /** The records of a collection that point at one thing. */
  function Pointing(t: Tables, collection: Key, link: Backlink): set<Key> {
    set k | k in t.records && k in t.links && t.links[k] == link && t.records[k].collection == collection
  }

  /** The keys a write takes the place of. */
  function Superseding(t: Tables, w: Write): set<Key> {
    if w.Delete? || !HeldToOne(w.collection) || LinkOf(w.record).None? then {}
    else Pointing(t, w.collection, LinkOf(w.record).value)
  }

  /** Whether a record makes way for a new one, told from the two records and
      nothing kept beside them: it is in the same collection, one of the four
      that hold one record of a thing, and about the same thing. */
  ghost predicate MakesWay(records: map<Key, Row>, k: Key, w: Write) {
    && !w.Delete? && k in records && records[k].collection == w.collection
    && (|| w.collection == Ascii("app.bsky.graph.follow") || w.collection == Ascii("app.bsky.graph.block")
        || w.collection == Ascii("app.bsky.feed.like") || w.collection == Ascii("app.bsky.feed.repost"))
    && LinkOf(w.record).Some? && LinkIn(records[k].cid) == LinkOf(w.record)
  }

  lemma SupersedingIs(t: Tables, w: Write)
    requires Agree(t)
    ensures forall k :: k in Superseding(t, w) <==> MakesWay(t.records, k, w)
  {
    hide RefsAre, Accounted, Ascii;
  }

  /** Writes that take out exactly some keys, each once. */
  ghost predicate TakesOut(ws: seq<Write>, keys: set<Key>) {
    && (forall i :: 0 <= i < |ws| ==> ws[i].Delete? && ws[i].Target() in keys)
    && (forall i, j :: 0 <= i < j < |ws| ==> ws[i].Target() != ws[j].Target())
    && (forall k :: k in keys ==> exists i :: 0 <= i < |ws| && ws[i].Target() == k)
  }

  /** What the repository holds at a key. */
  method Held(data: Mst, store: Store, k: Key, ghost es: seq<Entry>) returns (data': Mst, r: Result<Option<Cid>>)
    ensures Whole(data, es, store) ==>
              && Whole(data', es, store) && data'.layer == data.layer
              && r == Ok(Lookups(Contents(Leaves(es)), k))
  {
    data', r := Get(data, store, k, es);
    if Whole(data, es, store) { LookupIsContents(es, LiveOf(data, es).At(), k); }
  }

  /** Deletes for exactly the keys of `Superseding`, and what is indexed and
      logged of them. */
  method Superseded(data: Mst, store: Store, t: Tables, w: Write, ghost es: seq<Entry>)
    returns (data': Mst, r: Result<Worked>)
    requires Agree(t)
    ensures r.Ok? ==>
              && TakesOut(r.value.writes, Superseding(t, w)) && Paired(r.value.writes, r.value.index)
              && (forall k :: (exists i :: 0 <= i < |r.value.writes| && r.value.writes[i].Target() == k)
                              <==> MakesWay(t.records, k, w))
              && r.value.spots == []
    ensures Whole(data, es, store) ==>
              && Whole(data', es, store) && data'.layer == data.layer
              && r.Ok? && AllLogged(Contents(Leaves(es)), r.value.writes, r.value.ops)
  {
    hide Whole, Agree, TakesOut, Paired, AllLogged, Contents, Leaves, Superseding, Pair, Logs, KeyOf, Lookups,
         MakesWay;
    data' := data;
    var p := Worked([], [], [], []);
    ghost var m := Contents(Leaves(es));
    var keys := Superseding(t, w);
    var todo := keys;
    TakesOutNone(m);
    assert keys - todo == {};
    while todo != {}
      invariant todo <= keys && p.spots == []
      invariant TakesOut(p.writes, keys - todo) && Paired(p.writes, p.index)
      invariant Whole(data, es, store) ==>
                  Whole(data', es, store) && data'.layer == data.layer && AllLogged(m, p.writes, p.ops)
      decreases |todo|
    {
      var k :| k in todo;
      RowKeyed(t, w, k);
      var row := t.records[k];
      var got;
      data', got := Held(data', store, k, es);
      if got.Err? { return data', Err(got.error); }
      var out := Delete(row.collection, row.rkey);
      TakesOutNext(p.writes, keys - todo, out);
      PairedNext(p.writes, p.index, out, Empty(row.collection, row.rkey));
      var op := Logged(Deletes, k, None, got.value);
      if Whole(data, es, store) {
        LogsDelete(m, out, k);
        LoggedNext(m, p.writes, p.ops, out, op);
      }
      p := Worked(p.writes + [out], p.index + [Empty(row.collection, row.rkey)], p.ops + [op], []);
      assert keys - todo + {k} == keys - (todo - {k});
      todo := todo - {k};
    }
    assert keys - todo == keys;
    TakesOutIs(p.writes, keys);
    SupersedingIs(t, w);
    r := Ok(p);
  }

  lemma TakesOutIs(ws: seq<Write>, keys: set<Key>)
    requires TakesOut(ws, keys)
    ensures forall k :: (exists i :: 0 <= i < |ws| && ws[i].Target() == k) <==> k in keys
  {
  }

  lemma RowKeyed(t: Tables, w: Write, k: Key)
    requires Agree(t) && k in Superseding(t, w)
    ensures k in t.records
    ensures var row := t.records[k];
            var out := Delete(row.collection, row.rkey);
            out.Target() == k && Pair(out, Empty(row.collection, row.rkey))
  {
  }

  lemma LogsDelete(m: map<Key, Cid>, w: Write, k: Key)
    requires w.Delete? && w.Target() == k
    ensures Logs(m, w, Logged(Deletes, k, None, Lookups(m, k)))
  {
  }

  lemma TakesOutNone(m: map<Key, Cid>)
    ensures TakesOut([], {}) && Paired([], []) && AllLogged(m, [], [])
  {
  }

  lemma LoggedNext(m: map<Key, Cid>, ws: seq<Write>, ops: seq<Logged>, w: Write, op: Logged)
    requires AllLogged(m, ws, ops) && Logs(m, w, op)
    ensures AllLogged(m, ws + [w], ops + [op])
  {
    hide Logs;
  }

  lemma PairedNext(ws: seq<Write>, items: seq<Indexed>, w: Write, item: Indexed)
    requires Paired(ws, items) && Pair(w, item)
    ensures Paired(ws + [w], items + [item])
  {
  }

  lemma TakesOutNext(ws: seq<Write>, keys: set<Key>, w: Write)
    requires TakesOut(ws, keys) && w.Delete? && w.Target() !in keys
    ensures TakesOut(ws + [w], keys + {w.Target()})
  {
    var ws' := ws + [w];
    forall k | k in keys + {w.Target()} ensures exists i :: 0 <= i < |ws'| && ws'[i].Target() == k {
      if k in keys {
        var i :| 0 <= i < |ws| && ws[i].Target() == k;
        assert ws'[i].Target() == k;
      } else {
        assert ws'[|ws|].Target() == k;
      }
    }
  }

  // ---- The plan ----

  /** Whether a write finds what it expects. */
  predicate Meets(wants: Wanted, held: Option<Cid>) {
    match wants
    case Anything => true
    case Nothing => held.None?
    case Holding(cid) => held == Some(cid)
  }

  predicate PassedOver(m: map<Key, Cid>, asked: Requested) {
    asked.skip && asked.write.Target() !in m
  }

  /** Why one request is refused, if it is. */
  function Refusal(m: map<Key, Cid>, asked: Requested): Option<Error> {
    var held := Lookups(m, asked.write.Target());
    if PassedOver(m, asked) then None
    else if !Meets(asked.wants, held) then Some(SwapRecord(held))
    else if !asked.write.Delete? && BlobsOf(asked.write.record).Err? then Some(BlobsOf(asked.write.record).error)
    else None
  }

  /** Why the first request refused is. */
  function FirstRefusal(m: map<Key, Cid>, requested: seq<Requested>): Option<Error> {
    if requested == [] then None
    else
      var before := FirstRefusal(m, requested[..|requested| - 1]);
      if before.Some? then before else Refusal(m, requested[|requested| - 1])
  }

  /** What a caller says is at a key is there. */
  ghost predicate Finds(m: map<Key, Cid>, asked: Requested) {
    var k := asked.write.Target();
    && (asked.wants.Nothing? ==> k !in m)
    && (asked.wants.Holding? ==> k in m && m[k] == asked.wants.cid)
  }

  /** Nothing stands in one request's way: it may be passed over and there is
      nothing there, or it finds what its caller expects and names its blobs
      properly. */
  ghost predicate Granted(m: map<Key, Cid>, asked: Requested) {
    || (asked.skip && asked.write.Target() !in m)
    || (Finds(m, asked) && (asked.write.Delete? || BlobsOf(asked.write.record).Ok?))
  }

  /** What a request not granted is told: what is really there, where that is
      not what it expects, and else what is wrong with how it names a blob. */
  ghost predicate ToldWhy(m: map<Key, Cid>, asked: Requested, e: Error) {
    var k := asked.write.Target();
    if !Finds(m, asked) then e == SwapRecord(if k in m then Some(m[k]) else None)
    else !asked.write.Delete? && BlobsOf(asked.write.record) == Err(e)
  }

  lemma RefusalIs(m: map<Key, Cid>, asked: Requested)
    ensures Refusal(m, asked).None? <==> Granted(m, asked)
    ensures Refusal(m, asked).Some? ==> ToldWhy(m, asked, Refusal(m, asked).value)
  {
  }

  /** Nothing is refused exactly where every request is granted, and what is
      answered is the first one's that is not. */
  lemma {:induction false} FirstRefusalIs(m: map<Key, Cid>, requested: seq<Requested>)
    ensures FirstRefusal(m, requested).None? <==> forall i :: 0 <= i < |requested| ==> Granted(m, requested[i])
    ensures FirstRefusal(m, requested).Some? ==>
              exists i :: 0 <= i < |requested| && FirstNot(m, requested, i)
                          && ToldWhy(m, requested[i], FirstRefusal(m, requested).value)
  {
    hide Refusal, Granted, ToldWhy, FirstNot;
    if requested != [] {
      var n := |requested| - 1;
      FirstRefusalIs(m, requested[..n]);
      RefusalIs(m, requested[n]);
      if FirstRefusal(m, requested[..n]).Some? {
        var i :| 0 <= i < n && FirstNot(m, requested[..n], i)
                 && ToldWhy(m, requested[..n][i], FirstRefusal(m, requested[..n]).value);
        FirstNotNext(m, requested, i);
      } else {
        assert forall i :: 0 <= i < n ==> requested[..n][i] == requested[i];
        if !Granted(m, requested[n]) { FirstNotLast(m, requested); }
      }
    }
  }

  lemma FirstNotNext(m: map<Key, Cid>, requested: seq<Requested>, i: int)
    requires requested != [] && FirstNot(m, requested[..|requested| - 1], i)
    ensures FirstNot(m, requested, i) && requested[..|requested| - 1][i] == requested[i]
    ensures 0 <= i < |requested| && !Granted(m, requested[i])
  {
    hide Granted;
  }

  lemma FirstNotLast(m: map<Key, Cid>, requested: seq<Requested>)
    requires requested != [] && !Granted(m, requested[|requested| - 1])
    requires forall i :: 0 <= i < |requested| - 1 ==> Granted(m, requested[i])
    ensures FirstNot(m, requested, |requested| - 1)
  {
    hide Granted;
  }

  /** The first request not granted. */
  ghost predicate FirstNot(m: map<Key, Cid>, requested: seq<Requested>, i: int) {
    && 0 <= i < |requested| && !Granted(m, requested[i])
    && forall j :: 0 <= j < i ==> Granted(m, requested[j])
  }

  lemma RefusalNext(m: map<Key, Cid>, requested: seq<Requested>, i: nat)
    requires i < |requested|
    ensures FirstRefusal(m, requested[..i + 1]) ==
            var before := FirstRefusal(m, requested[..i]);
            if before.Some? then before else Refusal(m, requested[i])
  {
    assert requested[..i + 1][..i] == requested[..i];
  }

  lemma {:induction false} RefusesAll(m: map<Key, Cid>, requested: seq<Requested>, i: nat)
    requires i <= |requested| && FirstRefusal(m, requested[..i]).Some?
    ensures FirstRefusal(m, requested) == FirstRefusal(m, requested[..i])
    decreases |requested| - i
  {
    if i < |requested| {
      RefusalNext(m, requested, i);
      RefusesAll(m, requested, i + 1);
    } else {
      assert requested[..i] == requested;
    }
  }

  /** What the caller is told: where each of its own writes landed, short of
      those passed over. */
  function Spots(m: map<Key, Cid>, requested: seq<Requested>): seq<Spot> {
    if requested == [] then []
    else
      var w := requested[|requested| - 1];
      Spots(m, requested[..|requested| - 1])
      + if PassedOver(m, w) then [] else [Spot(w.write.Target(), Puts(w.write))]
  }

  /** The requests not passed over, in order: the caller is told of each. */
  ghost predicate Chosen(m: map<Key, Cid>, requested: seq<Requested>, at: seq<int>) {
    && (forall i :: 0 <= i < |at| ==> 0 <= at[i] < |requested|)
    && (forall i, j :: 0 <= i < j < |at| ==> at[i] < at[j])
    && (forall i :: 0 <= i < |requested| ==>
          ((requested[i].skip && requested[i].write.Target() !in m) <==> i !in at))
  }

  lemma {:induction false} SpotsInOrder(m: map<Key, Cid>, requested: seq<Requested>) returns (at: seq<int>)
    ensures Chosen(m, requested, at) && |Spots(m, requested)| == |at|
    ensures forall i :: 0 <= i < |at| ==>
              var w := requested[at[i]].write;
              Spots(m, requested)[i] == Spot(KeyOf(w.collection, w.rkey),
                                             if w.Delete? then None else Some(RecordCid(w.record)))
  {
    hide Chosen, PassedOver, KeyOf;
    at := [];
    if requested == [] {
      NoneChosen(m);
    } else {
      var n := |requested| - 1;
      var before := SpotsInOrder(m, requested[..n]);
      at := before + if PassedOver(m, requested[n]) then [] else [n];
      ChosenNext(m, requested, before);
      ChosenIn(m, requested[..n], before);
      ChosenIn(m, requested, at);
      assert forall i :: 0 <= i < |before| ==> requested[..n][before[i]] == requested[before[i]];
    }
  }

  lemma NoneChosen(m: map<Key, Cid>)
    ensures Chosen(m, [], [])
  {
  }

  lemma ChosenIn(m: map<Key, Cid>, requested: seq<Requested>, at: seq<int>)
    requires Chosen(m, requested, at)
    ensures forall i :: 0 <= i < |at| ==> 0 <= at[i] < |requested|
  {
  }

  lemma ChosenNext(m: map<Key, Cid>, requested: seq<Requested>, at: seq<int>)
    requires requested != [] && Chosen(m, requested[..|requested| - 1], at)
    ensures Chosen(m, requested, at + if PassedOver(m, requested[|requested| - 1]) then [] else [|requested| - 1])
  {
    var n := |requested| - 1;
    assert forall i :: 0 <= i < n ==> requested[..n][i] == requested[i];
  }

  lemma SpotsNext(m: map<Key, Cid>, requested: seq<Requested>, i: nat)
    requires i < |requested|
    ensures Spots(m, requested[..i + 1]) == Spots(m, requested[..i]) + Spots(m, [requested[i]])
  {
    assert requested[..i + 1][..i] == requested[..i];
    assert [requested[i]][..0] == [];
  }

  /** The writes one request comes to: none, or those that make way for it and
      then its own. */
  ghost predicate PlannedOne(m: map<Key, Cid>, t: Tables, asked: Requested, ws: seq<Write>) {
    if PassedOver(m, asked) then ws == []
    else
      && |ws| > 0 && ws[|ws| - 1] == asked.write
      && TakesOut(ws[..|ws| - 1], if asked.supersede then Superseding(t, asked.write) else {})
  }

  ghost predicate Planned(m: map<Key, Cid>, t: Tables, requested: seq<Requested>, ws: seq<Write>)
    decreases |requested|
  {
    if requested == [] then ws == []
    else
      var n := |requested| - 1;
      exists j :: 0 <= j <= |ws| && Planned(m, t, requested[..n], ws[..j]) && PlannedOne(m, t, requested[n], ws[j..])
  }

  lemma PlannedNext(m: map<Key, Cid>, t: Tables, requested: seq<Requested>, i: nat, ws: seq<Write>, more: seq<Write>)
    requires i < |requested| && Planned(m, t, requested[..i], ws) && PlannedOne(m, t, requested[i], more)
    ensures Planned(m, t, requested[..i + 1], ws + more)
  {
    var all := ws + more;
    assert requested[..i + 1][..i] == requested[..i];
    assert all[..|ws|] == ws && all[|ws|..] == more;
  }

  lemma PlannedOwn(m: map<Key, Cid>, t: Tables, asked: Requested, way: seq<Write>)
    requires !PassedOver(m, asked)
    requires TakesOut(way, if asked.supersede then Superseding(t, asked.write) else {})
    ensures PlannedOne(m, t, asked, way + [asked.write])
    ensures Spots(m, [asked]) == [Spot(asked.write.Target(), Puts(asked.write))]
  {
    hide TakesOut;
    assert (way + [asked.write])[..|way|] == way;
    assert Spots(m, [asked][..0]) == [];
  }

  lemma PlannedPast(m: map<Key, Cid>, t: Tables, asked: Requested)
    requires PassedOver(m, asked)
    ensures PlannedOne(m, t, asked, []) && Spots(m, [asked]) == [] && InStep(m, Worked([], [], [], []))
  {
    assert [asked][..0] == [];
  }

  /** One request: what it comes to, or why it is refused. */
  method PlanOne(data: Mst, store: Store, t: Tables, asked: Requested, ghost es: seq<Entry>)
    returns (data': Mst, r: Result<Worked>)
    requires Agree(t) && Whole(data, es, store)
    ensures Whole(data', es, store) && data'.layer == data.layer
    ensures Refusal(Contents(Leaves(es)), asked) == Failure(r)
    ensures r.Ok? ==>
              && PlannedOne(Contents(Leaves(es)), t, asked, r.value.writes) && InStep(Contents(Leaves(es)), r.value)
              && r.value.spots == Spots(Contents(Leaves(es)), [asked])
  {
    hide Whole, Agree, Contents, Leaves, Lookup, Superseding, TakesOut, PlannedOne, Paired, AllLogged, Spots, InStep;
    var w := asked.write;
    ghost var m := Contents(Leaves(es));
    var prev;
    data', prev := Held(data, store, w.Target(), es);
    if prev.value.None? && asked.skip {
      PlannedPast(m, t, asked);
      return data', Ok(Worked([], [], [], []));
    }
    if !Meets(asked.wants, prev.value) {
      return data', Err(SwapRecord(prev.value));
    }
    // Deletes come first, so a create may reuse one of their keys.
    var way := Worked([], [], [], []);
    NoneInWay(m);
    if asked.supersede {
      var taken;
      data', taken := Superseded(data', store, t, w, es);
      way := taken.value;
      StepsOf(m, way);
    }
    PlannedOwn(m, t, asked, way.writes);
    var own := PlanOwn(w, prev.value, m);
    if own.Err? { return data', Err(own.error); }
    InStepJoined(m, way, own.value);
    r := Ok(Joined(way, own.value));
  }

  lemma NoneInWay(m: map<Key, Cid>)
    ensures TakesOut([], {}) && InStep(m, Worked([], [], [], []))
  {
  }

  lemma StepsOf(m: map<Key, Cid>, p: Worked)
    requires Paired(p.writes, p.index) && AllLogged(m, p.writes, p.ops)
    ensures InStep(m, p)
  {
  }

  /** A request's own write, with what is indexed, logged and told of it. */
  method PlanOwn(w: Write, prev: Option<Cid>, ghost m: map<Key, Cid>) returns (r: Result<Worked>)
    requires prev == Lookups(m, w.Target())
    ensures Failure(r) == if w.Delete? then None else Failure(BlobsOf(w.record))
    ensures r.Ok? ==>
              && r.value.writes == [w] && r.value.spots == [Spot(w.Target(), Puts(w))] && InStep(m, r.value)
  {
    hide InStep;
    var item, action, cid := Empty(w.collection, w.rkey), Deletes, None;
    if !w.Delete? {
      var blobs := BlobsOf(w.record);
      if blobs.Err? { return Err(blobs.error); }
      cid := Some(RecordCid(w.record));
      item := Place(w.collection, w.rkey, cid.value, LinkOf(w.record), blobs.value);
      // A put is an update where the key holds something.
      action := if w.Replace? || (w.Put? && prev.Some?) then Updates else Creates;
    }
    var op := Logged(action, w.Target(), cid, prev);
    InStepOne(m, w, item, op, [Spot(w.Target(), cid)]);
    r := Ok(Worked([w], [item], [op], [Spot(w.Target(), cid)]));
  }

  /** Every request in turn. What is indexed and logged keeps step with the
      writes, the caller is told of its own, and the first request refused
      refuses them all. */
  method Plan(data: Mst, store: Store, t: Tables, requested: seq<Requested>, ghost es: seq<Entry>)
    returns (data': Mst, r: Result<Worked>)
    requires Agree(t) && Whole(data, es, store)
    ensures Whole(data', es, store) && data'.layer == data.layer
    ensures FirstRefusal(Contents(Leaves(es)), requested) == Failure(r)
    ensures r.Ok? ==>
              && Planned(Contents(Leaves(es)), t, requested, r.value.writes) && InStep(Contents(Leaves(es)), r.value)
              && r.value.spots == Spots(Contents(Leaves(es)), requested)
  {
    hide Whole, Agree, Contents, Leaves, PlannedOne, Refusal, FirstRefusal, Planned, InStep, Spots;
    data' := data;
    var p := Worked([], [], [], []);
    ghost var m := Contents(Leaves(es));
    PlannedNone(m, t, requested);
    var i := 0;
    while i < |requested|
      invariant 0 <= i <= |requested|
      invariant Whole(data', es, store) && data'.layer == data.layer && InStep(m, p)
      invariant Planned(m, t, requested[..i], p.writes) && p.spots == Spots(m, requested[..i])
      invariant FirstRefusal(m, requested[..i]).None?
    {
      var one;
      data', one := PlanOne(data', store, t, requested[i], es);
      RefusalNext(m, requested, i);
      if one.Err? {
        RefusesAll(m, requested, i + 1);
        return data', Err(one.error);
      }
      PlannedNext(m, t, requested, i, p.writes, one.value.writes);
      InStepJoined(m, p, one.value);
      SpotsNext(m, requested, i);
      p := Joined(p, one.value);
      i := i + 1;
    }
    assert requested[..i] == requested;
    r := Ok(p);
  }

  lemma PlannedNone(m: map<Key, Cid>, t: Tables, requested: seq<Requested>)
    ensures Planned(m, t, requested[..0], []) && Spots(m, requested[..0]) == []
    ensures FirstRefusal(m, requested[..0]).None? && InStep(m, Worked([], [], [], []))
  {
  }

  /** What the caller is told is so: where no key is written twice, each of its
      writes is found where it is said to have landed. */
  lemma {:induction false} SpotsHold(m: map<Key, Cid>, t: Tables, requested: seq<Requested>, ws: seq<Write>, i: nat)
    requires Planned(m, t, requested, ws) && Once(ws) && AppliedAll(m, ws).Ok? && i < |Spots(m, requested)|
    ensures Lookups(AppliedAll(m, ws).value, Spots(m, requested)[i].path) == Spots(m, requested)[i].cid
  {
    hide AppliedAll, Planned, PassedOver;
    var j := SpotIsWritten(m, t, requested, ws, i);
    OnceHolds(m, ws, j);
  }

  lemma {:induction false} OnceHolds(m: map<Key, Cid>, ws: seq<Write>, j: nat)
    requires AppliedAll(m, ws).Ok? && Once(ws) && j < |ws|
    ensures Lookups(AppliedAll(m, ws).value, ws[j].Target()) == Puts(ws[j])
  {
    var n := |ws| - 1;
    hide Repo.Applied;
    AppliedSets(AppliedAll(m, ws[..n]).value, ws[n]);
    if j < n {
      assert ws[j].Target() != ws[n].Target();
      OnceHolds(m, ws[..n], j);
    }
  }

  lemma {:induction false} SpotIsWritten(m: map<Key, Cid>, t: Tables, requested: seq<Requested>, ws: seq<Write>, i: nat)
    returns (j: nat)
    requires Planned(m, t, requested, ws) && i < |Spots(m, requested)|
    ensures j < |ws| && Spots(m, requested)[i] == Spot(ws[j].Target(), Puts(ws[j]))
    decreases |requested|
  {
    hide PassedOver, TakesOut;
    var n := |requested| - 1;
    var at := LastPlanned(m, t, requested, ws);
    if i < |Spots(m, requested[..n])| {
      j := SpotIsWritten(m, t, requested[..n], ws[..at], i);
    } else {
      j := |ws| - 1;
    }
  }

  lemma LastPlanned(m: map<Key, Cid>, t: Tables, requested: seq<Requested>, ws: seq<Write>) returns (j: nat)
    requires Planned(m, t, requested, ws) && requested != []
    ensures j <= |ws| && Planned(m, t, requested[..|requested| - 1], ws[..j])
    ensures PlannedOne(m, t, requested[|requested| - 1], ws[j..])
  {
    var n := |requested| - 1;
    j :| 0 <= j <= |ws| && Planned(m, t, requested[..n], ws[..j]) && PlannedOne(m, t, requested[n], ws[j..]);
  }

  // ---- What superseding leaves ----

  lemma {:induction false} RowsTakenOut(records: map<Key, Row>, ws: seq<Write>, items: seq<Indexed>, rev: Key)
    requires Paired(ws, items) && forall i :: 0 <= i < |ws| ==> ws[i].Delete?
    ensures RowsAfter(records, items, rev) == records - (set w | w in ws :: w.Target())
  {
    if ws != [] {
      var n := |ws| - 1;
      RowsTakenOut(records, ws[..n], items[..n], rev);
      assert ws == ws[..n] + [ws[n]];
      assert Pair(ws[n], items[n]) && items[n].At() == ws[n].Target();
      assert (set w | w in ws :: w.Target()) == (set w | w in ws[..n] :: w.Target()) + {ws[n].Target()};
    }
  }

  /** A single superseding write leaves its record the only one in its
      collection pointing where it does, and every record it did not take the
      place of where it was. */
  lemma SupersedingLeavesOne(m: map<Key, Cid>, t: Tables, asked: Requested, ws: seq<Write>, items: seq<Indexed>,
                             rev: Key, t': Tables)
    requires Planned(m, t, [asked], ws) && Paired(ws, items) && !PassedOver(m, asked)
    requires asked.supersede && !asked.write.Delete? && HeldToOne(asked.write.collection)
    requires LinkOf(asked.write.record).Some?
    requires Agree(t) && Agree(t') && t'.records == RowsAfter(t.records, items, rev)
    ensures Pointing(t', asked.write.collection, LinkOf(asked.write.record).value) == {asked.write.Target()}
    ensures forall k :: k in t.records && k != asked.write.Target()
                        && (t.records[k].collection != asked.write.collection
                            || LinkIn(t.records[k].cid) != LinkOf(asked.write.record)) ==>
              k in t'.records && t'.records[k] == t.records[k]
    ensures forall k :: k in t'.records && k != asked.write.Target() ==>
              && k in t.records && t'.records[k] == t.records[k]
              && (t'.records[k].collection != asked.write.collection
                  || LinkIn(t'.records[k].cid) != LinkOf(asked.write.record))
    ensures var w := asked.write;
            w.Target() in t'.records && t'.records[w.Target()] == Row(RecordCid(w.record), w.collection, w.rkey, rev)
  {
    hide Paired, TakesOut, RowsAfter, RefsAre, Accounted, PlannedOne, Planned, Pointing;
    var w := asked.write;
    var link, taken := LinkOf(w.record).value, Superseding(t, w);
    OnePlanned(m, t, asked, ws);
    PlannedIs(m, t, asked, ws);
    SupersededRows(t.records, ws, items, taken, rev);
    assert t'.records == (t.records - taken)[w.Target() := Row(RecordCid(w.record), w.collection, w.rkey, rev)];
    LeftPointing(t, w, link, rev, t');
    SupersedingIs(t, w);
  }

  /** Whatever is asked, a record none of the writes is about and that makes way
      for none of them is where it was, and nothing else is new. */
  lemma RestStays(m: map<Key, Cid>, t: Tables, requested: seq<Requested>, ws: seq<Write>, items: seq<Indexed>,
                  rev: Key, t': Tables, k: Key)
    requires Planned(m, t, requested, ws) && Paired(ws, items) && Agree(t)
    requires t'.records == RowsAfter(t.records, items, rev)
    requires forall i :: 0 <= i < |requested| ==>
               && requested[i].write.Target() != k
               && !(requested[i].supersede && MakesWay(t.records, k, requested[i].write))
    ensures k in t'.records <==> k in t.records
    ensures k in t.records ==> t'.records[k] == t.records[k]
  {
    hide Planned, Agree, Paired, MakesWay, RowsAfter;
    PlannedSpares(m, t, requested, ws, k);
    ItemsSpare(ws, items, k);
    RowsSpare(t.records, items, rev, k);
  }

  lemma {:induction false} PlannedSpares(m: map<Key, Cid>, t: Tables, requested: seq<Requested>, ws: seq<Write>, k: Key)
    requires Planned(m, t, requested, ws) && Agree(t)
    requires forall i :: 0 <= i < |requested| ==>
               && requested[i].write.Target() != k
               && !(requested[i].supersede && MakesWay(t.records, k, requested[i].write))
    ensures forall i :: 0 <= i < |ws| ==> ws[i].Target() != k
    decreases |requested|
  {
    hide PlannedOne, Agree, MakesWay;
    if requested != [] {
      var n := |requested| - 1;
      var j := LastPlanned(m, t, requested, ws);
      PlannedSpares(m, t, requested[..n], ws[..j], k);
      OneSpares(m, t, requested[n], ws[j..], k);
      forall i | 0 <= i < |ws| ensures ws[i].Target() != k {
        if i < j { assert ws[i] == ws[..j][i]; } else { assert ws[i] == ws[j..][i - j]; }
      }
    }
  }

  lemma OneSpares(m: map<Key, Cid>, t: Tables, asked: Requested, ws: seq<Write>, k: Key)
    requires PlannedOne(m, t, asked, ws) && Agree(t) && asked.write.Target() != k
    requires !(asked.supersede && MakesWay(t.records, k, asked.write))
    ensures forall i :: 0 <= i < |ws| ==> ws[i].Target() != k
  {
    hide Agree, MakesWay, Superseding, PassedOver;
    SupersedingIs(t, asked.write);
    forall i | 0 <= i < |ws| ensures ws[i].Target() != k {
      if i < |ws| - 1 { assert ws[i] == ws[..|ws| - 1][i]; }
    }
  }

  lemma ItemsSpare(ws: seq<Write>, items: seq<Indexed>, k: Key)
    requires Paired(ws, items) && forall i :: 0 <= i < |ws| ==> ws[i].Target() != k
    ensures forall i :: 0 <= i < |items| ==> items[i].At() != k
  {
    forall i | 0 <= i < |items| ensures items[i].At() != k { assert Pair(ws[i], items[i]); }
  }

  lemma PlannedIs(m: map<Key, Cid>, t: Tables, asked: Requested, ws: seq<Write>)
    requires PlannedOne(m, t, asked, ws) && !PassedOver(m, asked) && asked.supersede
    ensures |ws| > 0 && ws[|ws| - 1] == asked.write && TakesOut(ws[..|ws| - 1], Superseding(t, asked.write))
  {
    hide TakesOut, Superseding;
  }

  lemma LeftPointing(t: Tables, w: Write, link: Backlink, rev: Key, t': Tables)
    requires Agree(t) && Agree(t') && !w.Delete? && HeldToOne(w.collection) && LinkOf(w.record) == Some(link)
    requires t'.records ==
             (t.records - Superseding(t, w))[w.Target() := Row(RecordCid(w.record), w.collection, w.rkey, rev)]
    ensures Pointing(t', w.collection, link) == {w.Target()}
  {
    hide RefsAre, Accounted, KeyOf;
    var records := t'.records;
    assert LinkIn(RecordCid(w.record)) == Some(link);
    forall k | k in Pointing(t', w.collection, link) ensures k == w.Target() {
      assert k in LinksFor(records) && (k in t.records ==> LinkIn(t.records[k].cid) != Some(link) || k in t.links);
    }
  }

  lemma SupersededRows(records: map<Key, Row>, ws: seq<Write>, items: seq<Indexed>, taken: set<Key>, rev: Key)
    requires Paired(ws, items) && |ws| > 0 && !ws[|ws| - 1].Delete? && TakesOut(ws[..|ws| - 1], taken)
    ensures var w := ws[|ws| - 1];
            RowsAfter(records, items, rev) ==
            (records - taken)[w.Target() := Row(RecordCid(w.record), w.collection, w.rkey, rev)]
  {
    var n := |ws| - 1;
    var outs := ws[..n];
    RowsTakenOut(records, outs, items[..n], rev);
    forall k | k in taken ensures k in (set x | x in outs :: x.Target()) {
      var i :| 0 <= i < |outs| && outs[i].Target() == k;
      assert outs[i] in outs;
    }
    assert (set x | x in outs :: x.Target()) == taken;
    assert Pair(ws[n], items[n]);
  }

  lemma OnePlanned(m: map<Key, Cid>, t: Tables, asked: Requested, ws: seq<Write>)
    requires Planned(m, t, [asked], ws)
    ensures PlannedOne(m, t, asked, ws)
  {
    assert [asked][..0] == [];
    var j :| 0 <= j <= |ws| && Planned(m, t, [], ws[..j]) && PlannedOne(m, t, asked, ws[j..]);
    assert ws[j..] == ws;
  }
}
