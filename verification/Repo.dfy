/** A repository at one revision, and the writes that move it to the next. */
module Repo {
  import opened Data
  import opened Keys
  import opened Tree
  import opened TreeOps
  import opened Codec
  import opened History
  import opened Nodes
  import opened Mst
  import opened Storing
  import opened Operations
  import opened Proofs
  import opened Dropping
  import Tid

  // ---- Records and nodes ----

  /** A link to a subtree, or nothing. */
  function LinkOr(c: Option<Cid>): Ipld {
    if c.Some? then Link(c.value) else Null
  }

  /** A node and a commit in the data model they are encoded from. */
  function NodeIpld(d: NodeData): Ipld {
    Map(map[Ascii("l") := LinkOr(d.l), Ascii("e") := List(seq(|d.e|, i requires 0 <= i < |d.e| => EntryIpld(d.e[i])))])
  }

  function EntryIpld(e: TreeEntry): Ipld {
    Map(map[Ascii("p") := Integer(e.p), Ascii("k") := Bytes(e.k), Ascii("v") := Link(e.v), Ascii("t") := LinkOr(e.t)])
  }

  function CommitIpld(c: Commit, sig: seq<byte>): Ipld {
    Map(map[Ascii("did") := Text(c.did), Ascii("version") := Integer(3), Ascii("data") := Link(c.data),
            Ascii("rev") := Text(c.rev), Ascii("prev") := Null, Ascii("sig") := Bytes(sig)])
  }

  const TYPE: Key := Ascii("$type")

  /** What a write checks of a record: a map has to name its collection. */
  predicate NamesCollection(record: Ipld, collection: Key) {
    record.Map? ==> TYPE in record.fields && record.fields[TYPE] == Text(collection)
  }

  /** Records are no nodes and no commits: so a block dropped as one kind is
      never still reached as another. */
  lemma RecordIsNoNode(record: Ipld, collection: Key, d: NodeData, c: Commit, sig: seq<byte>)
    requires NamesCollection(record, collection)
    ensures record != NodeIpld(d) && record != CommitIpld(c, sig)
  {
    assert |TYPE| == 5;
    assert TYPE !in NodeIpld(d).fields;
    assert TYPE !in CommitIpld(c, sig).fields;
  }

  // ---- Writes ----

  datatype Write =
    | Create(collection: Key, rkey: Key, record: Ipld)
    | Replace(collection: Key, rkey: Key, record: Ipld)
    | Put(collection: Key, rkey: Key, record: Ipld)
    | Delete(collection: Key, rkey: Key)
  {
    /** The write's key in the tree. */
    function Target(): Key {
      KeyOf(collection, rkey)
    }
  }

  /** One write against the records as a map: what it leaves, or why not. */
  ghost function Applied(m: map<Key, Cid>, w: Write): Result<map<Key, Cid>> {
    var k := w.Target();
    match w
    case Create(_, _, record) => Asked(m, Op.Add(k, RecordCid(record)))
    case Replace(_, _, record) => Asked(m, Op.Change(k, RecordCid(record)))
    case Put(_, _, record) =>
      if k in m then Asked(m, Op.Change(k, RecordCid(record))) else Asked(m, Op.Add(k, RecordCid(record)))
    case Delete(_, _) => Asked(m, Op.Remove(k))
  }

  /** A batch, each write against what the one before left. */
  ghost function AppliedAll(m: map<Key, Cid>, ws: seq<Write>): Result<map<Key, Cid>> {
    if ws == [] then Ok(m)
    else
      match AppliedAll(m, ws[..|ws| - 1])
      case Err(e) => Err(e)
      case Ok(m') => Applied(m', ws[|ws| - 1])
  }

  lemma AppliedNext(m: map<Key, Cid>, ws: seq<Write>, i: nat)
    requires i < |ws|
    ensures AppliedAll(m, ws[..i + 1]) ==
            match AppliedAll(m, ws[..i]) case Err(e) => Err(e) case Ok(m') => Applied(m', ws[i])
  {
    assert ws[..i + 1][..i] == ws[..i];
  }

  lemma {:induction false} AppliedFails(m: map<Key, Cid>, ws: seq<Write>, i: nat)
    requires i <= |ws| && AppliedAll(m, ws[..i]).Err?
    ensures AppliedAll(m, ws) == AppliedAll(m, ws[..i])
    decreases |ws| - i
  {
    if i < |ws| {
      AppliedNext(m, ws, i);
      AppliedFails(m, ws, i + 1);
    } else {
      assert ws[..i] == ws;
    }
  }

  const NAMELESS: Error := NotRecordData("a record that names no collection")

  /** A batch with a record that does not name its collection. */
  ghost predicate Nameless(ws: seq<Write>) {
    exists w :: w in ws && !w.Delete? && !NamesCollection(w.record, w.collection)
  }

  /** The same from the record: a map whose `$type` is missing, is no text, or
      is another collection than the one it is written to. */
  ghost predicate Misnamed(w: Write) {
    && !w.Delete? && w.record.Map?
    && forall t :: t == Ascii("$type") && t in w.record.fields ==> w.record.fields[t] != Text(w.collection)
  }

  lemma NamelessIs(ws: seq<Write>)
    ensures Nameless(ws) <==> exists w :: w in ws && Misnamed(w)
  {
    forall w: Write ensures Misnamed(w) <==> !w.Delete? && !NamesCollection(w.record, w.collection) {
      assert TYPE == Ascii("$type");
    }
  }

  /** What one write does to the records, kind by kind: a create takes a key
      that is free, a replacement and a delete one that is held, and a put
      either; and no write touches any other key. */
  lemma WriteIs(m: map<Key, Cid>, w: Write)
    ensures var k := KeyOf(w.collection, w.rkey);
            && (Applied(m, w).Ok? <==>
                  && (w.Create? ==> k !in m) && (w.Replace? || w.Delete? ==> k in m)
                  && (!w.Delete? ==> ValidKey(k)))
            && (Applied(m, w).Ok? ==>
                  && (if w.Delete? then k !in Applied(m, w).value
                      else k in Applied(m, w).value && Applied(m, w).value[k] == RecordCid(w.record))
                  && forall j :: j != k ==>
                       && (j in Applied(m, w).value <==> j in m)
                       && (j in m ==> Applied(m, w).value[j] == m[j]))
            && (Applied(m, w).Err? ==>
                  Applied(m, w).error ==
                  if !w.Delete? && !ValidKey(k) then InvalidKey(k)
                  else if w.Create? then KeyExists(k)
                  else KeyMissing(k))
  {
    hide ValidKey;
  }

  lemma {:induction false} BatchError(m: map<Key, Cid>, ws: seq<Write>)
    ensures AppliedAll(m, ws).Err? ==> KeyError(AppliedAll(m, ws).error)
  {
    hide Applied;
    if ws != [] {
      BatchError(m, ws[..|ws| - 1]);
      if AppliedAll(m, ws[..|ws| - 1]).Ok? { WriteIs(AppliedAll(m, ws[..|ws| - 1]).value, ws[|ws| - 1]); }
    }
  }

  /** The errors a write against the records may meet. */
  predicate KeyError(e: Error) {
    e.InvalidKey? || e.KeyExists? || e.KeyMissing?
  }

  /** A batch that comes to a later revision, said outright. */
  ghost predicate Goes(m: map<Key, Cid>, ws: seq<Write>, last: nat, rev: Key) {
    && (forall w :: w in ws ==> !Misnamed(w)) && AppliedAll(m, ws).Ok? && !Tid.Spent(last, rev)
  }

  /** What one that does not is told. */
  ghost predicate StopsAs(m: map<Key, Cid>, ws: seq<Write>, last: nat, rev: Key, e: Error) {
    var named := forall w :: w in ws ==> !Misnamed(w);
    && (e == NotRecordData("a record that names no collection") <==> !named)
    && (KeyError(e) <==> named && AppliedAll(m, ws).Err?)
    && (KeyError(e) ==> AppliedAll(m, ws) == Err(e))
    && (e == NoRevisionAfter(rev) <==> named && AppliedAll(m, ws).Ok? && Tid.Spent(last, rev))
  }

  lemma StopsExactly(m: map<Key, Cid>, ws: seq<Write>, last: nat, rev: Key)
    ensures Stops(m, ws, last, rev).None? <==> Goes(m, ws, last, rev)
    ensures Stops(m, ws, last, rev).Some? ==> StopsAs(m, ws, last, rev, Stops(m, ws, last, rev).value)
  {
    hide Misnamed, AppliedAll;
    NamelessIs(ws);
    BatchError(m, ws);
    Tid.AtEndIsSpent(last, rev);
  }

  /** Why a batch comes to no revision, if it does not: a nameless record, the
      first write the records refuse, or no later revision for the clock to
      mint. */
  ghost function Stops(m: map<Key, Cid>, ws: seq<Write>, last: nat, rev: Key): Option<Error> {
    if Nameless(ws) then Some(NAMELESS)
    else if AppliedAll(m, ws).Err? then Some(AppliedAll(m, ws).error)
    else if Tid.AtEnd(last, rev) then Some(NoRevisionAfter(rev))
    else None
  }

  /** One write against the tree in memory. */
  method Perform(data: Mst, store: Store, w: Write, ghost es: seq<Entry>)
    returns (r: Result<Mst>, ghost es': seq<Entry>)
    ensures Whole(data, es, store) ==>
              if r.Ok? then
                && Whole(r.value, es', store) && Pending(r.value, es') <= Pending(data, es)
                && Applied(Contents(Leaves(es)), w) == Ok(Contents(Leaves(es')))
                && Settling(LiveOf(data, es), w, LiveOf(r.value, es'))
              else Applied(Contents(Leaves(es)), w) == Err(r.error)
  {
    es' := es;
    ghost var good := Whole(data, es, store);
    var key := w.Target();
    if w.Create? {
      r, es' := Operations.Add(data, store, key, RecordCid(w.record), es);
      if good { Refined(data, es, Op.Add(key, RecordCid(w.record)), r, es', store); }
    } else if w.Replace? {
      r, es' := Operations.Change(data, store, key, RecordCid(w.record), es);
      if good { Refined(data, es, Op.Change(key, RecordCid(w.record)), r, es', store); }
    } else if w.Put? {
      // An update or a create, whichever applies.
      var read, held := Get(data, store, key, es);
      if held.Err? { return Err(held.error), es'; }
      if good { LookupIsContents(es, LiveOf(data, es).At(), key); }
      if held.value.Some? {
        r, es' := Operations.Change(read, store, key, RecordCid(w.record), es);
        if good { Refined(read, es, Op.Change(key, RecordCid(w.record)), r, es', store); }
      } else {
        r, es' := Operations.Add(read, store, key, RecordCid(w.record), es);
        if good { Refined(read, es, Op.Add(key, RecordCid(w.record)), r, es', store); }
      }
    } else {
      r, es' := Operations.Remove(data, store, key, es);
      if good { Refined(data, es, Op.Remove(key), r, es', store); }
    }
  }

  /** What a write does to the form: it leaves a canonical tree canonical where
      it is settled, and an emptied one no higher than the record that went. */
  ghost predicate Settling(st: Live, w: Write, st': Live) {
    Canonical(st.es) ==>
      && ((!w.Delete? && st.es == [] ==> LayerOf(w.Target()) >= st.At()) ==> Canonical(st'.es))
      && (st'.es == [] ==> st'.At() <= if st.cached.None? then 0 else LayerOf(w.Target()))
  }

  lemma Refined(data: Mst, es: seq<Entry>, op: Op, r: Result<Mst>, es': seq<Entry>, store: Store)
    requires Whole(data, es, store) && Wrote(data, es, store, op, r, es')
    ensures r.Ok? ==> Asked(Contents(Leaves(es)), op) == Ok(Contents(Leaves(es')))
    ensures r.Err? ==> Asked(Contents(Leaves(es)), op) == Err(r.error)
    ensures r.Ok? && Canonical(es) ==>
              && (Settled(LiveOf(data, es), op) ==> Canonical(es'))
              && (es' == [] ==> LiveOf(r.value, es').At() <= if data.layer.None? then 0 else LayerOf(op.key))
  {
    hide Steps, Canonical, Contents, Leaves, LayerOf, FoundLayer, WellFormed, Rep, Pending, Fresh;
    var st, answer := LiveOf(data, es), LeftBy(r, es');
    StepRefines(st, op, answer);
    if r.Ok? && Canonical(es) {
      if Settled(st, op) { StepCanonical(st, op, answer.value); }
      if es' == [] {
        NothingHeld();
        OnlyRemovesEmpty(Contents(Leaves(es)), op);
        EmptiedAt(st, op.key, answer.value);
      }
    }
  }


  // ---- A revision ----

  /** Every record is one, and so never a node or a commit. */
  ghost predicate Recorded(m: map<Key, Cid>) {
    forall k :: k in m ==> m[k].RecordCid?
  }

  lemma OnlyRemovesEmpty(m: map<Key, Cid>, op: Op)
    ensures !op.Remove? ==> Asked(m, op) != Ok(map[])
  {
    hide ValidKey;
    if !op.Remove? { assert op.key in m[op.key := op.value]; }
  }

  /** What a batch leaves against what it found: a key it ended by writing is
      the block it wrote there, and any other key is as it was. */
  ghost predicate Traced(m: map<Key, Cid>, m': map<Key, Cid>, leaves: map<Key, Cid>) {
    && (forall k :: k in leaves ==> k in m' && m'[k] == leaves[k])
    && (forall k :: k in m' && k !in leaves ==> k in m && m'[k] == m[k])
  }

  lemma AppliedRecorded(m: map<Key, Cid>, w: Write)
    requires Recorded(m) && Applied(m, w).Ok?
    ensures Recorded(Applied(m, w).value)
  {
  }

  lemma TracedStart(m: map<Key, Cid>)
    ensures Traced(m, m, map[])
  {
  }

  lemma TracedNext(m: map<Key, Cid>, now: map<Key, Cid>, next: map<Key, Cid>, leaves: map<Key, Cid>, w: Write)
    requires Traced(m, now, leaves) && Applied(now, w) == Ok(next)
    ensures Traced(m, next, if w.Delete? then leaves - {w.Target()} else leaves[w.Target() := RecordCid(w.record)])
  {
  }

  /** What a batch has encoded so far, and the block each key it wrote ended
      at. */
  datatype Batch = Batch(data: Mst, encoded: Store, leaves: map<Key, Cid>)

  ghost predicate Encoded(b: Batch) {
    && (forall k :: k in b.leaves ==> b.leaves[k] in b.encoded)
    && (forall c :: c in b.encoded ==> b.encoded[c] == BlockOf(c))
  }

  /** A batch no write of which adds a record to a tree the same batch emptied,
      but one at least as high as the record that went, or right after the
      batch's first write. It can be told from the records beforehand. */
  ghost predicate Calm(m: map<Key, Cid>, ws: seq<Write>) {
    forall i :: 2 <= i < |ws| && AppliedAll(m, ws[..i]) == Ok(map[]) ==>
      LayerOf(ws[i].Target()) >= LayerOf(ws[i - 1].Target())
  }

  /** One or two writes always are, and so is any batch that deletes nothing
      between its first write and its last. */
  lemma ShortIsCalm(m: map<Key, Cid>, ws: seq<Write>)
    requires |ws| <= 2 || forall i :: 0 < i < |ws| - 1 ==> !ws[i].Delete?
    ensures Calm(m, ws)
  {
    hide LayerOf, AppliedAll, Applied;
    forall i | 2 <= i < |ws| ensures AppliedAll(m, ws[..i]) != Ok(map[]) {
      AppliedNext(m, ws, i - 1);
      if AppliedAll(m, ws[..i - 1]).Ok? { WroteHolds(AppliedAll(m, ws[..i - 1]).value, ws[i - 1]); }
    }
  }

  lemma WroteHolds(m: map<Key, Cid>, w: Write)
    requires !w.Delete?
    ensures Applied(m, w) != Ok(map[])
  {
    hide ValidKey;
    var k := w.Target();
    assert k in m[k := RecordCid(w.record)];
  }

  /** How high the tree is taken to be after `i` writes, once it is empty. */
  ghost function EmptyBound(ws: seq<Write>, i: nat): nat
    requires i <= |ws|
  {
    if i < 2 then 0 else LayerOf(ws[i - 1].Target())
  }

  ghost predicate CalmSoFar(m: map<Key, Cid>, ws: seq<Write>, i: nat, st: Live)
    requires i <= |ws|
  {
    Canonical(st.es) && (st.es == [] ==> st.At() <= EmptyBound(ws, i)) && (i == 0 ==> st.cached.None?)
  }

  lemma CalmNext(m: map<Key, Cid>, ws: seq<Write>, i: nat, st: Live, st': Live)
    requires Calm(m, ws) && i < |ws| && CalmSoFar(m, ws, i, st) && Settling(st, ws[i], st')
    requires AppliedAll(m, ws[..i]) == Ok(Contents(Leaves(st.es)))
    ensures CalmSoFar(m, ws, i + 1, st')
  {
    hide LayerOf, Canonical, AppliedAll, Contents, Leaves, FoundLayer;
    NothingHeld();
  }

  /** Runs every write of a batch against the tree in memory, keeping the block
      each key ends at and none it passed on the way. */
  method RunBatch(data: Mst, store: Store, writes: seq<Write>, ghost es: seq<Entry>)
    returns (r: Result<Batch>, ghost es': seq<Entry>)
    ensures r.Ok? ==> Encoded(r.value)
    ensures Whole(data, es, store) && Recorded(Contents(Leaves(es))) ==>
              if r.Err? then AppliedAll(Contents(Leaves(es)), writes) == Err(r.error)
              else
                && AppliedAll(Contents(Leaves(es)), writes) == Ok(Contents(Leaves(es')))
                && Whole(r.value.data, es', store) && Recorded(Contents(Leaves(es')))
                && Traced(Contents(Leaves(es)), Contents(Leaves(es')), r.value.leaves)
                && (Canonical(es) && data.layer.None? && Calm(Contents(Leaves(es)), writes) ==> Canonical(es'))
  {
    hide Whole, Pending, Contents, Leaves, Traced, Recorded, Canonical, Calm, CalmSoFar, Settling, LiveOf, AppliedAll,
         Applied;
    ghost var good := Whole(data, es, store) && Recorded(Contents(Leaves(es)));
    var b := Batch(data, map[], map[]);
    es' := es;
    ghost var m := Contents(Leaves(es));
    ghost var calm := Canonical(es) && data.layer.None? && Calm(m, writes);
    var i := 0;
    BatchStarts(data, writes, es);
    TracedStart(m);
    while i < |writes|
      invariant 0 <= i <= |writes| && Encoded(b)
      invariant good ==> AppliedAll(m, writes[..i]) == Ok(Contents(Leaves(es')))
      invariant good ==> Whole(b.data, es', store) && Recorded(Contents(Leaves(es')))
      invariant good ==> Traced(m, Contents(Leaves(es')), b.leaves)
      invariant good && calm ==> CalmSoFar(m, writes, i, LiveOf(b.data, es'))
    {
      var w := writes[i];
      var key := w.Target();
      AppliedNext(m, writes, i);
      var done, next := Perform(b.data, store, w, es');
      if done.Err? {
        if good { AppliedFails(m, writes, i + 1); }
        return Err(done.error), es';
      }
      if good {
        AppliedRecorded(Contents(Leaves(es')), w);
        TracedNext(m, Contents(Leaves(es')), Contents(Leaves(next)), b.leaves, w);
        if calm { CalmBatch(m, writes, i, b.data, es', done.value, next); }
      }
      if w.Delete? {
        b := Batch(done.value, b.encoded, b.leaves - {key});
      } else {
        var c := RecordCid(w.record);
        b := Batch(done.value, b.encoded[c := RecordBlock(w.record)], b.leaves[key := c]);
      }
      es' := next;
      i := i + 1;
    }
    assert writes[..i] == writes;
    if good && calm { CalmEnds(m, writes, LiveOf(b.data, es'), b.data, es'); }
    r := Ok(b);
  }

  lemma BatchStarts(data: Mst, ws: seq<Write>, es: seq<Entry>)
    ensures AppliedAll(Contents(Leaves(es)), ws[..0]) == Ok(Contents(Leaves(es)))
    ensures Canonical(es) && data.layer.None? ==> CalmSoFar(Contents(Leaves(es)), ws, 0, LiveOf(data, es))
  {
    hide Canonical;
    assert ws[..0] == [];
    assert FoundLayer([]) == None;
  }

  lemma CalmBatch(m: map<Key, Cid>, ws: seq<Write>, i: nat, data: Mst, es: seq<Entry>, data': Mst, es': seq<Entry>)
    requires Calm(m, ws) && i < |ws| && CalmSoFar(m, ws, i, LiveOf(data, es))
    requires Settling(LiveOf(data, es), ws[i], LiveOf(data', es'))
    requires AppliedAll(m, ws[..i]) == Ok(Contents(Leaves(es)))
    ensures CalmSoFar(m, ws, i + 1, LiveOf(data', es'))
  {
    hide Calm, CalmSoFar, Settling, AppliedAll, Contents, Leaves;
    CalmNext(m, ws, i, LiveOf(data, es), LiveOf(data', es'));
  }

  lemma CalmEnds(m: map<Key, Cid>, ws: seq<Write>, st: Live, data: Mst, es: seq<Entry>)
    requires CalmSoFar(m, ws, |ws|, st) && st == LiveOf(data, es)
    ensures Canonical(es)
  {
    hide Canonical;
  }

  function Failure<T>(r: Result<T>): Option<Error> {
    if r.Err? then Some(r.error) else None
  }

  /** What a revision gives its caller to store and to forget. */
  datatype Revision = Revision(blocks: Store, dropped: set<Cid>)

  /** The blocks a repository at one revision is made of. */
  ghost function AllOf(cid: Cid, es: seq<Entry>): set<Cid> {
    {cid} + Reach(es)
  }

  /** A store holding exactly the repository at one revision. */
  ghost predicate Exactly(store: Store, cid: Cid, es: seq<Entry>) {
    store.Keys == AllOf(cid, es) && Honest(store)
  }

  /** A revision that turns a store of exactly one revision into a store of
      exactly the next: store everything it writes, then forget everything it
      drops that no record still is. It writes nothing the next revision does
      not reach, and drops nothing the one before did not. */
  ghost predicate Settles(rev: Revision, store: Store, cid: Cid, es: seq<Entry>, was: set<Cid>) {
    && Honest(rev.blocks) && rev.blocks.Keys <= AllOf(cid, es)
    && rev.dropped <= was && rev.dropped !! ({cid} + NodesOf(es))
    && store.Keys + rev.blocks.Keys - (rev.dropped - ValuesOf(es)) == AllOf(cid, es)
  }

  lemma KindsApart(es: seq<Entry>, n: nat)
    requires Proper(es, n) && Recorded(Contents(Leaves(es)))
    ensures forall c :: c in NodesOf(es) ==> c.NodeCid?
    ensures forall c :: c in ValuesOf(es) ==> c.RecordCid?
  {
    NodesAreNodes(es, n);
    ValuesAre(es);
  }

  /** What the tree after holds, from what the batch wrote and the tree before. */
  lemma TracedValues(es: seq<Entry>, n: nat, es': seq<Entry>, n': nat, leaves: map<Key, Cid>)
    requires Proper(es, n) && Proper(es', n')
    requires Traced(Contents(Leaves(es)), Contents(Leaves(es')), leaves)
    ensures leaves.Values <= ValuesOf(es') <= ValuesOf(es) + leaves.Values
  {
    ValuesAre(es);
    ValuesAre(es');
    var m, m' := Contents(Leaves(es)), Contents(Leaves(es'));
    hide Contents, Leaves, ValuesOf;
    forall k | k in m' ensures m'[k] in m.Values + leaves.Values {
      if k in leaves { assert leaves[k] in leaves.Values; } else { assert m[k] in m.Values; }
    }
    forall k | k in leaves ensures leaves[k] in m'.Values {
      assert m'[k] in m'.Values;
    }
  }

  /** Exact storage, one revision on. `dropped` over-reports shared records and
      the tree's blocks stop at the first stored node, and neither shows. */
  lemma SettlesExactly(store: Store, cid: Cid, es: seq<Entry>, n: nat, cid': Cid, es': seq<Entry>, n': nat,
                       leaves: set<Cid>, gone: set<Cid>)
    requires Exactly(store, cid, es) && Proper(es, n) && Proper(es', n') && cid.CommitCid? && cid'.CommitCid?
    requires Recorded(Contents(Leaves(es))) && Recorded(Contents(Leaves(es')))
    requires leaves <= ValuesOf(es') <= ValuesOf(es) + leaves
    requires NodesOf(es) - NodesOf(es') <= gone && gone !! NodesOf(es')
    requires ValuesOf(es) - ValuesOf(es') <= gone <= Reach(es)
    ensures var written := leaves + UnstoredOf(es', store.Keys) + {cid'};
            var dropped := gone + if cid' != cid then {cid} else {};
            && written <= AllOf(cid', es') && dropped <= AllOf(cid, es) && dropped !! ({cid'} + NodesOf(es'))
            && store.Keys + written - (dropped - ValuesOf(es')) == AllOf(cid', es')
  {
    KindsApart(es, n);
    KindsApart(es', n');
    ClosedByTree(es', n', es, n, store.Keys);
    UnstoredCompletes(es', n', store.Keys);
    hide Proper, NodesOf, ValuesOf, UnstoredOf, Contents, Leaves, Closed, Recorded;
    Exchange(store.Keys, cid, NodesOf(es), ValuesOf(es), cid', NodesOf(es'), ValuesOf(es'),
             leaves, UnstoredOf(es', store.Keys), gone);
  }

  /** The same over sets: commits, nodes and records never meet, so what is
      stored and what is forgotten exchange one revision for the next. */
  lemma Exchange(have: set<Cid>, c: Cid, ns: set<Cid>, vs: set<Cid>, c': Cid, ns': set<Cid>, vs': set<Cid>,
                 leaves: set<Cid>, unstored: set<Cid>, gone: set<Cid>)
    requires have == {c} + (ns + vs) && c.CommitCid? && c'.CommitCid?
    requires (forall x :: x in ns || x in ns' ==> x.NodeCid?) && (forall x :: x in vs || x in vs' ==> x.RecordCid?)
    requires leaves <= vs' <= vs + leaves
    requires ns' <= have + unstored && unstored <= ns'
    requires ns - ns' <= gone && gone !! ns' && vs - vs' <= gone <= ns + vs
    ensures var written := leaves + unstored + {c'}; var dropped := gone + if c' != c then {c} else {};
            && written <= {c'} + (ns' + vs') && dropped <= have && dropped !! ({c'} + ns')
            && have + written - (dropped - vs') == {c'} + (ns' + vs')
  {
    var written, dropped := leaves + unstored + {c'}, gone + if c' != c then {c} else {};
    forall x ensures x in have + written - (dropped - vs') <==> x in {c'} + (ns' + vs') {
    }
  }

  lemma WholeProper(m: Mst, es: seq<Entry>, store: Store)
    requires Whole(m, es, store)
    ensures Proper(es, LiveOf(m, es).At())
  {
  }

  lemma EncodedLeaves(b: Batch)
    requires Encoded(b)
    ensures b.leaves.Values <= b.encoded.Keys
  {
  }

  /** A revision minted for now: the first microsecond past the clock and the
      revision before that is not before now, or the last there is. */
  ghost predicate SignedAt(rev: Key, clock: Tid.Clock, last: nat, previous: Key, now: nat)
    reads clock
  {
    && Tid.IsTid(rev) && Tid.IsTid(previous) && Tid.ToParts(rev) == (clock.last, clock.clockId % Tid.CLOCK_IDS)
    && Tid.Earliest(clock.last, last, Tid.ToParts(previous).0, now)
  }

  class Repository {
    var cid: Cid
    var commit: Commit
    var data: Mst
    /** The entries the tree stands for, and the layer they fit at. */
    ghost var es: seq<Entry>
    ghost var n: nat

    /** What the fields say of each other: the commit is the one the CID names,
        over the tree the entries make, and every record is a record. */
    ghost predicate Valid()
      reads this
    {
      && cid == CommitCid(commit) && Tid.IsTid(commit.rev)
      && commit.data == CidOf(es) && Proper(es, n) && Recorded(Contents(Leaves(es)))
    }

    /** A repository whose blocks, and no others, a store holds. */
    ghost predicate Stored(store: Store)
      reads this
    {
      Valid() && Exactly(store, cid, es) && Whole(data, es, store)
    }

    /** A repository at the revision a commit gives, its tree unread. */
    constructor Loaded(cid: Cid, c: Commit, ghost es: seq<Entry>, ghost n: nat)
      ensures this.cid == cid && commit == c && data == Load(c.data) && this.es == es && this.n == n
    {
      this.cid, commit, data := cid, c, Load(c.data);
      this.es, this.n := es, n;
    }

    /** Moves to the next revision. On any store and any tree it either fails
        and changes nothing, or comes to a later revision of the same account.
        Where the store holds exactly this repository it fails exactly where
        the batch is one that stops, and with that error; what changes is what
        the same batch does to a map, and the form stays canonical through a
        calm batch. */
    method Apply(store: Store, writes: seq<Write>, clock: Tid.Clock, now: nat) returns (r: Result<Revision>)
      requires Tid.IsTid(commit.rev)
      modifies this, clock
      ensures Tid.IsTid(commit.rev)
      ensures r.Err? ==> cid == old(cid) && commit == old(commit) && data == old(data) && es == old(es) && n == old(n)
      ensures r.Ok? ==>
                && cid == CommitCid(commit) && commit.did == old(commit.did) && Lt(old(commit.rev), commit.rev)
                && !Nameless(writes) && !Tid.AtEnd(old(clock.last), old(commit.rev))
                && SignedAt(commit.rev, clock, old(clock.last), old(commit.rev), now)
      ensures Nameless(writes) ==> r == Err(NAMELESS)
      ensures old(Stored(store)) ==>
                && Valid()
                && Stops(Contents(Leaves(old(es))), writes, old(clock.last), old(commit.rev)) == Failure(r)
                && (r.Ok? <==> Goes(Contents(Leaves(old(es))), writes, old(clock.last), old(commit.rev)))
                && (r.Err? ==>
                      StopsAs(Contents(Leaves(old(es))), writes, old(clock.last), old(commit.rev), r.error))
                && (r.Ok? ==>
                      && AppliedAll(Contents(Leaves(old(es))), writes) == Ok(Contents(Leaves(es)))
                      && Whole(data, es, store)
                      && Settles(r.value, store, cid, es, old(AllOf(cid, es)))
                      && (Canonical(old(es)) && old(data).layer.None? && Calm(Contents(Leaves(old(es))), writes) ==>
                            Canonical(es)))
    {
      hide Contents, Leaves, CidOf, Whole, Traced, Recorded, Settles, Proper, Exactly, AppliedAll, Calm, Canonical,
           Tid.AtEnd, Tid.Spent, Misnamed, SignedAt, Goes, StopsAs;
      StopsExactly(Contents(Leaves(es)), writes, clock.last, commit.rev);
      var i := 0;
      while i < |writes|
        invariant 0 <= i <= |writes|
        invariant forall j :: 0 <= j < i && !writes[j].Delete? ==>
                    NamesCollection(writes[j].record, writes[j].collection)
      {
        if !writes[i].Delete? && !NamesCollection(writes[i].record, writes[i].collection) {
          assert writes[i] in writes;
          return Err(NAMELESS);
        }
        i := i + 1;
      }
      assert !Nameless(writes);
      var batch, es' := RunBatch(data, store, writes, es);
      if batch.Err? { return Err(batch.error); }
      r := Sign(store, batch.value, clock, now, es');
    }

    /** Signs the tree a batch left, and works out what it writes and drops. */
    method Sign(store: Store, batch: Batch, clock: Tid.Clock, now: nat, ghost es': seq<Entry>)
      returns (r: Result<Revision>)
      requires Tid.IsTid(commit.rev) && Encoded(batch)
      modifies this, clock
      ensures Tid.IsTid(commit.rev)
      ensures r.Err? ==> cid == old(cid) && commit == old(commit) && data == old(data) && es == old(es) && n == old(n)
      ensures r.Ok? ==> cid == CommitCid(commit) && commit.did == old(commit.did) && Lt(old(commit.rev), commit.rev)
      ensures r.Ok? ==>
                && !Tid.AtEnd(old(clock.last), old(commit.rev))
                && SignedAt(commit.rev, clock, old(clock.last), old(commit.rev), now)
      ensures old(Stored(store)) && BatchFits(batch, store, Contents(Leaves(old(es))), es') ==>
                && Valid()
                && (r.Err? <==> Tid.AtEnd(old(clock.last), old(commit.rev)))
                && (r.Err? <==> Tid.Spent(old(clock.last), old(commit.rev)))
                && if r.Err? then r.error == NoRevisionAfter(commit.rev)
                   else es == es' && Whole(data, es, store) && Settles(r.value, store, cid, es, old(AllOf(cid, es)))
    {
      hide Contents, Leaves, CidOf, Whole, Traced, Recorded, Encoded, Settles, Proper, Exactly, Honest, TreeSettles,
           Tid.AtEnd, Tid.Spent;
      Tid.AtEndIsSpent(clock.last, commit.rev);
      ghost var good := Stored(store) && BatchFits(batch, store, Contents(Leaves(es)), es');
      var shift := Outcome(store, batch, data, cid, es, n, es');
      if shift.Err? { return Err(shift.error); }
      var rev := clock.MintAfter(commit.rev, now);
      if rev.None? { return Err(NoRevisionAfter(commit.rev)); }
      var s, next := shift.value, Commit(commit.did, shift.value.root, rev.value);
      if good {
        WholeProper(batch.data, es', store);
        SettledBy(store, cid, es, s.blocks, s.gone, next, es');
      }
      // The commit before this one is reached by nothing now.
      r := Ok(Revision(s.blocks + map[CommitCid(next) := CommitBlock(next)],
                       s.gone + if CommitCid(next) != cid then {cid} else {}));
      cid, commit, data := CommitCid(next), next, s.tree;
      es, n := es', LiveOf(batch.data, es').At();
    }
  }

  /** Opens the repository under a commit's CID, whatever the store has there. */
  method LoadRepository(store: Store, cid: Cid, ghost es: seq<Entry>, ghost n: nat) returns (r: Result<Repository>)
    ensures CommitIn(store, cid).Err? ==> r == Err(CommitIn(store, cid).error)
    ensures CommitIn(store, cid).Ok? ==>
              && r.Ok? && fresh(r.value) && r.value.cid == cid && r.value.commit == CommitIn(store, cid).value
              && r.value.data == Load(r.value.commit.data) && r.value.es == es && r.value.n == n
    ensures cid !in store ==> r == Err(MissingBlock(cid))
    ensures cid in store ==>
              if store[cid].CommitBlock? then r.Ok? && r.value.commit == store[cid].commit else r == Err(Decode)
  {
    var commit := CommitIn(store, cid);
    if commit.Err? { return Err(commit.error); }
    var repo := new Repository.Loaded(cid, commit.value, es, n);
    r := Ok(repo);
  }

  /** A batch that took a tree over these records to one over those. */
  ghost predicate BatchFits(batch: Batch, store: Store, m: map<Key, Cid>, es: seq<Entry>) {
    && Whole(batch.data, es, store) && Recorded(Contents(Leaves(es)))
    && Traced(m, Contents(Leaves(es)), batch.leaves)
  }

  /** The blocks that turn the tree before into the tree after, short of the
      commit: what is written is new to the store or a record, and what goes is
      what the tree before alone reached, with records the tree after holds. */
  ghost predicate TreeSettles(store: Store, cid: Cid, es: seq<Entry>, blocks: Store, gone: set<Cid>, es': seq<Entry>) {
    && Honest(blocks)
    && forall c: Cid :: c.CommitCid? ==>
         var written := blocks.Keys + {c};
         var dropped := gone + if c != cid then {cid} else {};
         && written <= AllOf(c, es') && dropped <= AllOf(cid, es) && dropped !! ({c} + NodesOf(es'))
         && store.Keys + written - (dropped - ValuesOf(es')) == AllOf(c, es')
  }

  lemma SettledBy(store: Store, cid: Cid, es: seq<Entry>, blocks: Store, gone: set<Cid>, next: Commit, es': seq<Entry>)
    requires TreeSettles(store, cid, es, blocks, gone, es')
    ensures Settles(Revision(blocks + map[CommitCid(next) := CommitBlock(next)],
                             gone + if CommitCid(next) != cid then {cid} else {}),
                    store, CommitCid(next), es', AllOf(cid, es))
  {
    var c := CommitCid(next);
    assert c.CommitCid?;
    hide AllOf, NodesOf, ValuesOf;
    assert (blocks + map[c := CommitBlock(next)]).Keys == blocks.Keys + {c};
  }

  /** A tree with its root, the blocks it adds to a store and those it leaves
      behind. */
  datatype Shift = Shift(tree: Mst, root: Cid, blocks: Store, gone: set<Cid>)

  /** What a batch writes and drops, against the tree it started from. */
  method Outcome(store: Store, batch: Batch, data: Mst, ghost cid: Cid, ghost es: seq<Entry>, ghost n: nat,
                 ghost es': seq<Entry>)
    returns (r: Result<Shift>)
    requires Encoded(batch)
    ensures Exactly(store, cid, es) && Whole(data, es, store) && Proper(es, n) && cid.CommitCid?
            && Recorded(Contents(Leaves(es))) && BatchFits(batch, store, Contents(Leaves(es)), es') ==>
              && r.Ok? && r.value.root == CidOf(es') && Whole(r.value.tree, es', store)
              && TreeSettles(store, cid, es, r.value.blocks, r.value.gone, es')
  {
    hide Contents, Leaves, Pending, NodesOf, ValuesOf, CidOf, UnstoredOf, Traced, Rep, Recorded, TreeSettles, Whole,
         Proper, Exactly, Stands;
    ghost var good := && Exactly(store, cid, es) && Whole(data, es, store) && Proper(es, n) && cid.CommitCid?
                      && Recorded(Contents(Leaves(es))) && BatchFits(batch, store, Contents(Leaves(es)), es');
    EncodedLeaves(batch);
    var kept := map c | c in batch.leaves.Values :: batch.encoded[c];
    var tree, unstored := UnstoredBlocks(batch.data, store, es');
    if unstored.Err? { return Err(unstored.error); }
    var blocks := kept + unstored.value.1;
    var gone := Dropped(store, tree, data, es', es);
    if good { Drops(tree, data, cid, es, n, batch.data, es', store, gone); }
    if gone.Err? { return Err(gone.error); }
    if good { Shifted(store, batch, kept, unstored.value.1, data, cid, es, n, es', gone.value); }
    r := Ok(Shift(tree, unstored.value.0, blocks, gone.value));
  }

  /** Two whole trees of one account are compared without fail. */
  lemma Drops(tree: Mst, data: Mst, cid: Cid, es: seq<Entry>, n: nat, batched: Mst, es': seq<Entry>, store: Store,
              gone: Result<set<Cid>>)
    requires Whole(tree, es', store) && Whole(data, es, store) && Proper(es, n) && Whole(batched, es', store)
    requires Recorded(Contents(Leaves(es))) && Recorded(Contents(Leaves(es')))
    requires Stands(tree, es', store) && Stands(data, es, store)
             && (NodesOf(es) + NodesOf(es')) !! (ValuesOf(es) + ValuesOf(es')) ==>
               if gone.Ok? then
                 && NodesOf(es) - NodesOf(es') <= gone.value && gone.value !! NodesOf(es')
                 && ValuesOf(es) - ValuesOf(es') <= gone.value <= Reach(es)
               else
                 && gone.error.MissingBlock? && gone.error.cid !in store
                 && gone.error.cid in Pending(data, es) + Pending(tree, es')
    ensures gone.Ok?
    ensures NodesOf(es) - NodesOf(es') <= gone.value && gone.value !! NodesOf(es')
    ensures ValuesOf(es) - ValuesOf(es') <= gone.value <= Reach(es)
  {
    hide Contents, Leaves, NodesOf, ValuesOf, Recorded, Proper, Pending, Stands;
    WholeProper(batched, es', store);
    KindsApart(es, n);
    KindsApart(es', LiveOf(batched, es').At());
  }

  lemma Shifted(store: Store, batch: Batch, kept: Store, unstored: Store, data: Mst, cid: Cid, es: seq<Entry>, n: nat,
                es': seq<Entry>, gone: set<Cid>)
    requires Exactly(store, cid, es) && Proper(es, n) && cid.CommitCid? && Encoded(batch)
    requires Recorded(Contents(Leaves(es))) && BatchFits(batch, store, Contents(Leaves(es)), es')
    requires kept.Keys == batch.leaves.Values
    requires forall c :: c in kept ==> c in batch.encoded && kept[c] == batch.encoded[c]
    requires Holds(unstored, UnstoredOf(es', store.Keys))
    requires NodesOf(es) - NodesOf(es') <= gone && gone !! NodesOf(es')
    requires ValuesOf(es) - ValuesOf(es') <= gone <= Reach(es)
    ensures TreeSettles(store, cid, es, kept + unstored, gone, es')
  {
    hide Contents, Leaves, NodesOf, ValuesOf, UnstoredOf, Traced, Recorded, Whole, Proper, Exactly;
    var n', blocks := LiveOf(batch.data, es').At(), kept + unstored;
    WholeProper(batch.data, es', store);
    TracedValues(es, n, es', n', batch.leaves);
    assert blocks.Keys == batch.leaves.Values + UnstoredOf(es', store.Keys);
    forall c: Cid | c.CommitCid?
      ensures var written := blocks.Keys + {c};
              var dropped := gone + if c != cid then {cid} else {};
              && written <= AllOf(c, es') && dropped <= AllOf(cid, es) && dropped !! ({c} + NodesOf(es'))
              && store.Keys + written - (dropped - ValuesOf(es')) == AllOf(c, es')
    {
      SettlesExactly(store, cid, es, n, c, es', n', batch.leaves.Values, gone);
    }
  }
}
