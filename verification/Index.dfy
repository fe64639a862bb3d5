/** An account's tables: the record index, what records link to, and the blobs
    they name, moved together by each commit. */
module Index {
  import opened Data
  import opened Keys

  /** The one thing a record of a held-to-one collection is about. */
  datatype Backlink = Backlink(path: Key, linkTo: Key)

  datatype Blob = Blob(cid: Cid, mime: Key, size: nat)

  /** What a record points at and which blobs it names, left arbitrary: nothing
      below depends on how they are read out of one. */
  const LinkOf: Ipld -> Option<Backlink>
  const BlobsOf: Ipld -> BlobsRead

  type BlobsRead = r: Result<seq<Blob>> | r.Err? ==> r.error.NotBlob? witness Ok([])

  datatype Row = Row(cid: Cid, collection: Key, rkey: Key, rev: Key)

  /** A stored blob. `temp` names its upload, and is gone once it is claimed. */
  datatype BlobRow = BlobRow(mime: Key, size: nat, temp: Option<Key>, created: nat)

  datatype Tables = Tables(
    records: map<Key, Row>,
    links: map<Key, Backlink>,
    blobs: map<Cid, BlobRow>,
    refs: set<(Cid, Key)>)

  /** One step of a commit's index: a record placed, or its key emptied. */
  datatype Indexed =
    | Place(collection: Key, rkey: Key, cid: Cid, link: Option<Backlink>, blobs: seq<Blob>)
    | Empty(collection: Key, rkey: Key)
  {
    function At(): Key {
      KeyOf(collection, rkey)
    }

    /** Whether what is indexed of a record is what the record says. */
    ghost predicate Faithful() {
      Place? ==> cid.RecordCid? && link == LinkOf(cid.record) && BlobsOf(cid.record) == Ok(blobs)
    }
  }

  // ---- What the tables should say ----

  ghost function Names(c: Cid): seq<Blob> {
    if c.RecordCid? && BlobsOf(c.record).Ok? then BlobsOf(c.record).value else []
  }

  ghost function LinkIn(c: Cid): Option<Backlink> {
    if c.RecordCid? then LinkOf(c.record) else None
  }

  /** The links of current records, and the blobs they name. */
  ghost function LinksFor(records: map<Key, Row>): map<Key, Backlink> {
    map k | k in records && LinkIn(records[k].cid).Some? :: LinkIn(records[k].cid).value
  }

  /** The blobs some namings name. */
  function NamedSet(blobs: seq<Blob>): set<Cid> {
    set i | 0 <= i < |blobs| :: blobs[i].cid
  }

  ghost predicate Named(records: map<Key, Row>, b: Cid, k: Key) {
    k in records && b in NamedSet(Names(records[k].cid))
  }

  ghost predicate RefsAre(refs: set<(Cid, Key)>, records: map<Key, Row>) {
    forall b, k :: (b, k) in refs <==> Named(records, b, k)
  }

  ghost predicate InUse(refs: set<(Cid, Key)>, b: Cid) {
    exists k :: (b, k) in refs
  }

  ghost predicate Claimed(t: Tables) {
    forall b, k :: (b, k) in t.refs ==> b in t.blobs && t.blobs[b].temp.None?
  }

  /** A blob has no upload key exactly where a record names it. */
  ghost predicate Accounted(t: Tables) {
    Claimed(t) && forall b :: b in t.blobs ==> (t.blobs[b].temp.None? <==> InUse(t.refs, b))
  }

  /** The tables are what they would be if worked out from the records. */
  ghost predicate Agree(t: Tables) {
    && t.links == LinksFor(t.records) && RefsAre(t.refs, t.records) && Accounted(t)
    && (forall k :: k in t.records ==> k == KeyOf(t.records[k].collection, t.records[k].rkey))
  }

  ghost function RowsAfter(records: map<Key, Row>, items: seq<Indexed>, rev: Key): map<Key, Row> {
    if items == [] then records
    else
      var before := RowsAfter(records, items[..|items| - 1], rev);
      var item := items[|items| - 1];
      if item.Place? then before[item.At() := Row(item.cid, item.collection, item.rkey, rev)]
      else before - {item.At()}
  }

  /** A key a commit indexes ends where its last item puts it, under the
      commit's revision, and any other key stays where it was. */
  lemma {:induction false} RowIsLast(records: map<Key, Row>, items: seq<Indexed>, rev: Key, i: nat)
    requires i < |items| && forall j :: i < j < |items| ==> items[j].At() != items[i].At()
    ensures var k, after := items[i].At(), RowsAfter(records, items, rev);
            if items[i].Place? then
              k in after && after[k] == Row(items[i].cid, items[i].collection, items[i].rkey, rev)
            else k !in after
  {
    var n := |items| - 1;
    if i < n { RowIsLast(records, items[..n], rev, i); }
  }

  lemma {:induction false} RowsSpare(records: map<Key, Row>, items: seq<Indexed>, rev: Key, k: Key)
    requires forall i :: 0 <= i < |items| ==> items[i].At() != k
    ensures k in RowsAfter(records, items, rev) <==> k in records
    ensures k in records ==> RowsAfter(records, items, rev)[k] == records[k]
  {
    if items != [] { RowsSpare(records, items[..|items| - 1], rev, k); }
  }

  // ---- Letting go ----

  ghost predicate Distinct(s: seq<Cid>) {
    forall i, j :: 0 <= i < j < |s| ==> s[i] != s[j]
  }

  /** Removes all of one key's references, and with them the row of each blob
      that is left without any, unless it is in `kept`; those are listed once
      each. */
  method Dereference(t: Tables, k: Key, kept: set<Cid>) returns (t': Tables, orphaned: seq<Cid>)
    ensures t'.records == t.records && t'.links == t.links
    ensures t'.refs == set p | p in t.refs && p.1 != k
    ensures Distinct(orphaned)
    ensures forall b :: b in orphaned <==> (b, k) in t.refs && b !in kept && !InUse(t'.refs, b)
    ensures t'.blobs == t.blobs - (set b | b in orphaned)
  {
    var held := set p | p in t.refs && p.1 == k :: p.0;
    var refs := set p | p in t.refs && p.1 != k;
    assert forall b :: b in held <==> (b, k) in t.refs by {
      forall b | (b, k) in t.refs ensures b in held { assert (b, k).1 == k; }
    }
    orphaned := [];
    var todo := held;
    while todo != {}
      invariant todo <= held && Distinct(orphaned)
      invariant forall b :: b in orphaned <==> b in held && b !in todo && b !in kept && !InUse(refs, b)
      decreases |todo|
    {
      var b :| b in todo;
      // In `refs` the record's own rows are gone already.
      var other := exists p | p in refs :: p.0 == b;
      assert other <==> InUse(refs, b) by {
        if other { var p :| p in refs && p.0 == b; assert (b, p.1) in refs; }
        if InUse(refs, b) { var x :| (b, x) in refs; assert (b, x).0 == b; }
      }
      if b !in kept && !other { orphaned := orphaned + [b]; }
      todo := todo - {b};
    }
    t' := t.(refs := refs, blobs := t.blobs - (set b | b in orphaned));
  }

  // ---- Claiming ----

  /** Effects outside the transaction while it is open: names now served,
      those among them this commit linked, and uploads it claimed. */
  datatype Leaving = Leaving(served: set<Cid>, linked: set<Cid>, taken: seq<Key>)

  /** A blob held under an upload's name. */
  ghost predicate Uploaded(t: Tables, b: Cid, k: Key) {
    b in t.blobs && t.blobs[b].temp == Some(k)
  }

  ghost predicate GivenUp(t: Tables, named: set<Cid>, k: Key) {
    exists b :: b in named && Uploaded(t, b, k)
  }

  /** Some blobs claimed: none of them is an upload any longer, every other row
      still there is as it was, and the names given up are exactly the ones they
      had. */
  ghost predicate Took(t: Tables, t': Tables, named: set<Cid>, before: seq<Key>, taken: seq<Key>) {
    && (forall b :: b in t'.blobs ==>
          b in t.blobs && t'.blobs[b] == if b in named then t.blobs[b].(temp := None) else t.blobs[b])
    && (forall k :: k in taken <==> k in before || GivenUp(t, named, k))
  }

  lemma TookOne(t: Tables, t': Tables, named: set<Cid>, before: seq<Key>, taken: seq<Key>, b: Cid,
                t'': Tables, taken': seq<Key>)
    requires Took(t, t', named, before, taken) && b in t'.blobs
    requires t''.blobs.Keys == t'.blobs.Keys && t''.blobs[b] == t'.blobs[b].(temp := None)
    requires forall c :: c in t'.blobs && c != b ==> t''.blobs[c] == t'.blobs[c]
    requires if t'.blobs[b].temp.Some? then taken' == taken + [t'.blobs[b].temp.value] else taken' == taken
    ensures Took(t, t'', named + {b}, before, taken')
  {
    forall k ensures k in taken' <==> k in before || GivenUp(t, named + {b}, k) {
      if t'.blobs[b].temp == Some(k) { assert Uploaded(t, b, k); }
      if GivenUp(t, named, k) { var c :| c in named && Uploaded(t, c, k); assert c in named + {b}; }
      if GivenUp(t, named + {b}, k) {
        var c :| c in named + {b} && Uploaded(t, c, k);
        assert c in named || t'.blobs[b].temp == Some(k);
      }
    }
  }

  /** A second lot claimed after a first. */
  lemma TookMore(t: Tables, t': Tables, t'': Tables, named: set<Cid>, more: set<Cid>, taken: seq<Key>, taken': seq<Key>)
    requires Took(t, t', named, [], taken) && Took(t', t'', more, taken, taken') && more <= t'.blobs.Keys
    ensures Took(t, t'', named + more, [], taken')
  {
    forall k ensures k in taken' <==> GivenUp(t, named + more, k) {
      if GivenUp(t', more, k) {
        var c :| c in more && Uploaded(t', c, k);
        assert c in named + more && Uploaded(t, c, k);
      }
      if GivenUp(t, named, k) { var c :| c in named && Uploaded(t, c, k); assert c in named + more; }
      if GivenUp(t, named + more, k) {
        var c :| c in named + more && Uploaded(t, c, k);
        assert c in named || Uploaded(t', c, k);
      }
    }
  }

  /** Rows let go of first, so long as none of them is one to be claimed. */
  lemma TookAfter(t: Tables, t1: Tables, t': Tables, named: set<Cid>, before: seq<Key>, taken: seq<Key>)
    requires Took(t1, t', named, before, taken)
    requires forall b :: b in t1.blobs ==> b in t.blobs && t1.blobs[b] == t.blobs[b]
    requires forall b :: b in named && b in t.blobs ==> b in t1.blobs
    ensures Took(t, t', named, before, taken)
  {
    forall k ensures GivenUp(t, named, k) <==> GivenUp(t1, named, k) {
      if GivenUp(t, named, k) { var b :| b in named && Uploaded(t, b, k); assert Uploaded(t1, b, k); }
      if GivenUp(t1, named, k) { var b :| b in named && Uploaded(t1, b, k); assert Uploaded(t, b, k); }
    }
  }

  datatype BlobError =
    | BlobMissing(cid: Cid)
    | MimeMismatch(held: Key, named: Key)
    | SizeMismatch(size: nat, said: nat)

  /** What is wrong with naming a blob, once those in `named` have been claimed:
      nothing uploaded it, or it is an upload still and of another type or size
      than the record says. */
  function Objected(rows: map<Cid, BlobRow>, named: set<Cid>, blob: Blob): Option<BlobError> {
    if blob.cid !in rows then Some(BlobMissing(blob.cid))
    else
      var row := rows[blob.cid];
      if blob.cid in named || row.temp.None? then None
      else if row.mime != blob.mime then Some(MimeMismatch(row.mime, blob.mime))
      else if row.size != blob.size then Some(SizeMismatch(row.size, blob.size))
      else None
  }

  /** The first thing wrong with naming some blobs in order. */
  ghost function FirstObjection(rows: map<Cid, BlobRow>, named: set<Cid>, blobs: seq<Blob>): Option<BlobError> {
    if blobs == [] then None
    else
      var n := |blobs| - 1;
      var before := FirstObjection(rows, named, blobs[..n]);
      if before.Some? then before else Objected(rows, named + NamedSet(blobs[..n]), blobs[n])
  }

  /** Nothing is wrong exactly where every blob named has a row, and each that is
      an upload is what its first naming says. A later naming is not compared. */
  lemma NoObjection(rows: map<Cid, BlobRow>, blobs: seq<Blob>)
    ensures FirstObjection(rows, {}, blobs).None? <==>
              forall i :: 0 <= i < |blobs| ==>
                && blobs[i].cid in rows
                && (rows[blobs[i].cid].temp.Some? && blobs[i].cid !in NamedSet(blobs[..i]) ==>
                      rows[blobs[i].cid].mime == blobs[i].mime && rows[blobs[i].cid].size == blobs[i].size)
    ensures FirstObjection(rows, {}, blobs).Some? && FirstObjection(rows, {}, blobs).value.BlobMissing? ==>
              FirstObjection(rows, {}, blobs).value.cid in NamedSet(blobs) - rows.Keys
  {
    ObjectionIs(rows, blobs);
    hide FirstObjection;
    forall i | 0 <= i < |blobs| ensures
      (exists e :: Wrong(rows, blobs, i, e)) <==>
      !(&& blobs[i].cid in rows
        && (rows[blobs[i].cid].temp.Some? && blobs[i].cid !in NamedSet(blobs[..i]) ==>
              rows[blobs[i].cid].mime == blobs[i].mime && rows[blobs[i].cid].size == blobs[i].size))
    {
      WrongWhere(rows, blobs, i);
    }
    if FirstObjection(rows, {}, blobs).Some? {
      var i :| Wrong(rows, blobs, i, FirstObjection(rows, {}, blobs).value);
    }
  }

  lemma WrongWhere(rows: map<Cid, BlobRow>, blobs: seq<Blob>, i: nat)
    requires i < |blobs|
    ensures (exists e :: Wrong(rows, blobs, i, e)) <==>
            !(&& blobs[i].cid in rows
              && (rows[blobs[i].cid].temp.Some? && blobs[i].cid !in NamedSet(blobs[..i]) ==>
                    rows[blobs[i].cid].mime == blobs[i].mime && rows[blobs[i].cid].size == blobs[i].size))
  {
    var blob := blobs[i];
    assert blob.cid in NamedSet(blobs[..i]) <==> exists j :: 0 <= j < i && blobs[j].cid == blob.cid by {
      if j :| 0 <= j < i && blobs[j].cid == blob.cid { assert blobs[..i][j].cid == blob.cid; }
    }
    if blob.cid !in rows {
      assert Wrong(rows, blobs, i, BlobMissing(blob.cid));
    } else if rows[blob.cid].temp.Some? && blob.cid !in NamedSet(blobs[..i]) {
      var row := rows[blob.cid];
      if row.mime != blob.mime { assert Wrong(rows, blobs, i, MimeMismatch(row.mime, blob.mime)); }
      else if row.size != blob.size { assert Wrong(rows, blobs, i, SizeMismatch(row.size, blob.size)); }
    }
  }

  /** A naming no row bears out: of a blob nothing uploaded, or the first of an
      upload of another type or, if not that, another size. */
  ghost predicate Wrong(rows: map<Cid, BlobRow>, blobs: seq<Blob>, i: int, e: BlobError) {
    && 0 <= i < |blobs|
    && var blob := blobs[i];
       if blob.cid !in rows then e == BlobMissing(blob.cid)
       else
         var row := rows[blob.cid];
         && row.temp.Some? && (forall j :: 0 <= j < i ==> blobs[j].cid != blob.cid)
         && if row.mime != blob.mime then e == MimeMismatch(row.mime, blob.mime)
            else row.size != blob.size && e == SizeMismatch(row.size, blob.size)
  }

  /** What is objected to is the first such naming. */
  lemma {:induction false} ObjectionIs(rows: map<Cid, BlobRow>, blobs: seq<Blob>)
    ensures FirstObjection(rows, {}, blobs).None? <==> forall i, e :: !Wrong(rows, blobs, i, e)
    ensures FirstObjection(rows, {}, blobs).Some? ==>
              exists i :: Wrong(rows, blobs, i, FirstObjection(rows, {}, blobs).value)
                          && forall j, e :: j < i ==> !Wrong(rows, blobs, j, e)
  {
    if blobs != [] {
      var n := |blobs| - 1;
      ObjectionIs(rows, blobs[..n]);
      WrongBefore(rows, blobs, n);
      WrongLast(rows, blobs);
      hide Wrong, Objected, NamedSet;
      if FirstObjection(rows, {}, blobs[..n]).Some? {
        var i :| Wrong(rows, blobs[..n], i, FirstObjection(rows, {}, blobs[..n]).value)
                 && forall j, e :: j < i ==> !Wrong(rows, blobs[..n], j, e);
        assert i < n by { WrongIn(rows, blobs[..n], i, FirstObjection(rows, {}, blobs[..n]).value); }
        assert Wrong(rows, blobs, i, FirstObjection(rows, {}, blobs).value);
      } else {
        forall i, e | Wrong(rows, blobs, i, e) ensures i == n { WrongIn(rows, blobs, i, e); }
        if Objected(rows, {} + NamedSet(blobs[..n]), blobs[n]).Some? {
          assert Wrong(rows, blobs, n, FirstObjection(rows, {}, blobs).value);
        }
      }
    }
  }

  lemma WrongIn(rows: map<Cid, BlobRow>, blobs: seq<Blob>, i: int, e: BlobError)
    requires Wrong(rows, blobs, i, e)
    ensures 0 <= i < |blobs|
  {
  }

  lemma WrongBefore(rows: map<Cid, BlobRow>, blobs: seq<Blob>, n: nat)
    requires n <= |blobs|
    ensures forall i, e :: i < n ==> Wrong(rows, blobs[..n], i, e) == Wrong(rows, blobs, i, e)
  {
    assert forall i :: 0 <= i < n ==> blobs[..n][i] == blobs[i];
  }

  lemma WrongLast(rows: map<Cid, BlobRow>, blobs: seq<Blob>)
    requires blobs != []
    ensures var n := |blobs| - 1;
            var o := Objected(rows, {} + NamedSet(blobs[..n]), blobs[n]);
            forall e :: Wrong(rows, blobs, n, e) <==> o == Some(e)
  {
    var n := |blobs| - 1;
    assert blobs[n].cid in NamedSet(blobs[..n]) <==> exists j :: 0 <= j < n && blobs[j].cid == blobs[n].cid by {
      if blobs[n].cid in NamedSet(blobs[..n]) {
        var j :| 0 <= j < n && blobs[..n][j].cid == blobs[n].cid;
        assert blobs[j].cid == blobs[n].cid;
      }
      if j :| 0 <= j < n && blobs[j].cid == blobs[n].cid { assert blobs[..n][j].cid == blobs[n].cid; }
    }
  }

  lemma {:induction false} ObjectionStays(rows: map<Cid, BlobRow>, named: set<Cid>, blobs: seq<Blob>, i: nat)
    requires i <= |blobs| && FirstObjection(rows, named, blobs[..i]).Some?
    ensures FirstObjection(rows, named, blobs) == FirstObjection(rows, named, blobs[..i])
  {
    hide Objected, NamedSet;
    if i < |blobs| {
      var n := |blobs| - 1;
      assert blobs[..n][..i] == blobs[..i];
      ObjectionStays(rows, named, blobs[..n], i);
    } else {
      assert blobs[..i] == blobs;
    }
  }

  lemma ObjectionNext(rows: map<Cid, BlobRow>, named: set<Cid>, blobs: seq<Blob>, i: nat)
    requires i < |blobs| && FirstObjection(rows, named, blobs[..i]).None?
    ensures FirstObjection(rows, named, blobs[..i + 1]) == Objected(rows, named + NamedSet(blobs[..i]), blobs[i])
  {
    hide Objected, NamedSet;
    assert blobs[..i + 1][..i] == blobs[..i];
  }

  /** One lot of namings after another. */
  lemma {:induction false} ObjectionJoin(rows: map<Cid, BlobRow>, a: seq<Blob>, b: seq<Blob>)
    ensures FirstObjection(rows, {}, a + b) ==
            if FirstObjection(rows, {}, a).Some? then FirstObjection(rows, {}, a)
            else FirstObjection(rows, NamedSet(a), b)
  {
    hide Objected, NamedSet;
    if b == [] {
      assert a + b == a;
    } else {
      var n := |b| - 1;
      ObjectionJoin(rows, a, b[..n]);
      assert (a + b)[..|a + b| - 1] == a + b[..n];
      NamedJoin(a, b[..n]);
    }
  }

  lemma NamedJoin(a: seq<Blob>, b: seq<Blob>)
    ensures NamedSet(a + b) == NamedSet(a) + NamedSet(b) && {} + NamedSet(a + b) == NamedSet(a + b)
  {
    forall i | 0 <= i < |a| ensures a[i].cid in NamedSet(a + b) { assert (a + b)[i] == a[i]; }
    forall i | 0 <= i < |b| ensures b[i].cid in NamedSet(a + b) { assert (a + b)[|a| + i] == b[i]; }
  }

  /** Claims made so far are what earlier namings come to, on rows that are still
      there. */
  lemma {:induction false} SameObjection(t: Tables, t': Tables, named: set<Cid>, before: seq<Key>, taken: seq<Key>,
                                         blobs: seq<Blob>)
    requires Took(t, t', named, before, taken)
    requires forall b :: b in NamedSet(blobs) ==> (b in t'.blobs <==> b in t.blobs)
    ensures FirstObjection(t'.blobs, {}, blobs) == FirstObjection(t.blobs, named, blobs)
  {
    if blobs != [] {
      var n := |blobs| - 1;
      NextNamed(blobs, n);
      assert blobs[..n + 1] == blobs;
      SameObjection(t, t', named, before, taken, blobs[..n]);
      hide NamedSet;
      assert {} + NamedSet(blobs[..n]) == NamedSet(blobs[..n]);
    }
  }

  /** References one record's blobs and ends their time as uploads. Fails on a
      blob with no row, or on an upload of another type or size than the
      record says. */
  method Claim(t: Tables, k: Key, blobs: seq<Blob>, out: Leaving)
    returns (t': Tables, out': Leaving, error: Option<BlobError>)
    requires Claimed(t)
    ensures error == FirstObjection(t.blobs, {}, blobs)
    ensures t'.records == t.records && t'.links == t.links
    ensures error.None? ==>
              && Claimed(t') && t'.blobs.Keys == t.blobs.Keys && NamedSet(blobs) <= t.blobs.Keys
              && (forall b, x :: (b, x) in t'.refs <==> (b, x) in t.refs || (x == k && b in NamedSet(blobs)))
              && (forall b :: b in NamedSet(blobs) && t.blobs[b].temp.Some? ==> b in out'.served)
              && Took(t, t', NamedSet(blobs), out.taken, out'.taken)
    ensures Linking(out, out', NamedSet(blobs))
  {
    hide Took, NamedSet, FirstObjection, Claimed;
    t', out', error := t, out, None;
    var i := 0;
    NoneNamed(t, blobs, out.taken);
    while i < |blobs|
      invariant 0 <= i <= |blobs| && Took(t, t', NamedSet(blobs[..i]), out.taken, out'.taken)
      invariant FirstObjection(t.blobs, {}, blobs[..i]).None?
      invariant t'.records == t.records && t'.links == t.links && t'.blobs.Keys == t.blobs.Keys
      invariant Claimed(t') && NamedSet(blobs[..i]) <= t.blobs.Keys
      invariant forall b, x :: (b, x) in t'.refs <==> (b, x) in t.refs || (x == k && b in NamedSet(blobs[..i]))
      invariant forall b :: b in NamedSet(blobs[..i]) && t.blobs[b].temp.Some? ==> b in out'.served
      invariant Linking(out, out', NamedSet(blobs[..i]))
    {
      var blob := blobs[i];
      ObjectionNext(t.blobs, {}, blobs, i);
      assert {} + NamedSet(blobs[..i]) == NamedSet(blobs[..i]);
      NextNamed(blobs, i);
      NamedWithin(blobs, i);
      if blob.cid !in t'.blobs {
        ObjectionStays(t.blobs, {}, blobs, i + 1);
        return t', out', Some(BlobMissing(blob.cid));
      }
      var row := t'.blobs[blob.cid];
      TookRow(t, t', NamedSet(blobs[..i]), out.taken, out'.taken, blob.cid);
      ghost var before := out'.taken;
      if row.temp.Some? {
        if row.mime != blob.mime {
          ObjectionStays(t.blobs, {}, blobs, i + 1);
          return t', out', Some(MimeMismatch(row.mime, blob.mime));
        }
        if row.size != blob.size {
          ObjectionStays(t.blobs, {}, blobs, i + 1);
          return t', out', Some(SizeMismatch(row.size, blob.size));
        }
        // Only a link this commit made is one it may have to undo.
        out' := Leaving(out'.served + {blob.cid},
                        if blob.cid in out'.served then out'.linked else out'.linked + {blob.cid},
                        out'.taken + [row.temp.value]);
      }
      ghost var was := t';
      t' := t'.(refs := t'.refs + {(blob.cid, k)}, blobs := t'.blobs[blob.cid := row.(temp := None)]);
      StillClaimed(was, t', blob.cid, k);
      TookOne(t, was, NamedSet(blobs[..i]), out.taken, before, blob.cid, t', out'.taken);
      i := i + 1;
    }
    assert blobs[..i] == blobs;
  }

  /** Links made under the transaction: what was served stays served, and what is
      new is on record to be undone. */
  ghost predicate Linking(out: Leaving, out': Leaving, named: set<Cid>) {
    && out.served <= out'.served && out.linked <= out'.linked <= out.linked + named
    && out'.served - out'.linked == out.served - out.linked
    && (out.linked <= out.served ==> out'.linked <= out'.served)
  }

  lemma TookRow(t: Tables, t': Tables, named: set<Cid>, before: seq<Key>, taken: seq<Key>, b: Cid)
    requires Took(t, t', named, before, taken) && b in t'.blobs
    ensures b in t.blobs && t'.blobs[b] == if b in named then t.blobs[b].(temp := None) else t.blobs[b]
  {
  }

  lemma StillClaimed(t: Tables, t': Tables, b: Cid, k: Key)
    requires Claimed(t) && b in t.blobs && t'.refs == t.refs + {(b, k)}
    requires t'.blobs == t.blobs[b := t.blobs[b].(temp := None)]
    ensures Claimed(t')
  {
  }

  /** A prefix of some namings names no more. */
  lemma NamedWithin(blobs: seq<Blob>, i: nat)
    requires i < |blobs|
    ensures NamedSet(blobs[..i]) <= NamedSet(blobs) && NamedSet(blobs[..i + 1]) <= NamedSet(blobs)
  {
    forall n: nat | n <= |blobs| ensures NamedSet(blobs[..n]) <= NamedSet(blobs) {
      forall j | 0 <= j < n ensures blobs[..n][j].cid in NamedSet(blobs) { assert blobs[..n][j] == blobs[j]; }
    }
  }

  lemma NoneNamed(t: Tables, blobs: seq<Blob>, taken: seq<Key>)
    ensures NamedSet(blobs[..0]) == {} && Took(t, t, NamedSet(blobs[..0]), taken, taken)
    ensures FirstObjection(t.blobs, {}, blobs[..0]).None?
  {
  }

  lemma NextNamed(blobs: seq<Blob>, i: nat)
    requires i < |blobs|
    ensures NamedSet(blobs[..i + 1]) == NamedSet(blobs[..i]) + {blobs[i].cid}
  {
    forall b | b in NamedSet(blobs[..i + 1]) ensures b in NamedSet(blobs[..i]) + {blobs[i].cid} {
      var j :| 0 <= j < i + 1 && blobs[..i + 1][j].cid == b;
      if j < i { assert blobs[..i][j].cid == b; }
    }
    forall b | b in NamedSet(blobs[..i]) + {blobs[i].cid} ensures b in NamedSet(blobs[..i + 1]) {
      if b == blobs[i].cid {
        assert blobs[..i + 1][i].cid == b;
      } else {
        var j :| 0 <= j < i && blobs[..i][j].cid == b;
        assert blobs[..i + 1][j].cid == b;
      }
    }
  }

  // ---- One commit's worth ----

  /** The namings of one item, and of a whole commit in order. */
  function BlobsIn(item: Indexed): seq<Blob> {
    if item.Place? then item.blobs else []
  }

  function AllBlobs(items: seq<Indexed>): seq<Blob> {
    if items == [] then [] else AllBlobs(items[..|items| - 1]) + BlobsIn(items[|items| - 1])
  }

  /** Every blob some item of a commit names. */
  function Spared(items: seq<Indexed>): set<Cid> {
    NamedSet(AllBlobs(items))
  }

  lemma AllBlobsNext(items: seq<Indexed>, i: nat)
    requires i < |items|
    ensures AllBlobs(items[..i + 1]) == AllBlobs(items[..i]) + BlobsIn(items[i])
    ensures Spared(items[..i + 1]) == Spared(items[..i]) + NamedSet(BlobsIn(items[i]))
  {
    hide NamedSet;
    assert items[..i + 1][..i] == items[..i];
    NamedJoin(AllBlobs(items[..i]), BlobsIn(items[i]));
  }

  lemma {:induction false} SparedOver(items: seq<Indexed>, i: nat)
    requires i <= |items|
    ensures Spared(items[..i]) <= Spared(items)
    decreases |items| - i
  {
    hide Spared, NamedSet;
    if i < |items| {
      AllBlobsNext(items, i);
      SparedOver(items, i + 1);
    } else {
      assert items[..i] == items;
    }
  }

  /** The invariant between items. Links, references and records agree at
      every point; blobs do but for those in `kept`, which keep their rows
      until all items are through. */
  ghost predicate Midway(t: Tables, t0: Tables, kept: set<Cid>, orphaned: seq<Cid>) {
    && t.links == LinksFor(t.records) && RefsAre(t.refs, t.records) && Claimed(t)
    && (forall k :: k in t.records ==> k == KeyOf(t.records[k].collection, t.records[k].rkey))
    && (forall b :: b in t.blobs && t.blobs[b].temp.None? && b !in kept ==> InUse(t.refs, b))
    && (forall b :: b in orphaned <==> InUse(t0.refs, b) && b !in kept && !InUse(t.refs, b))
    && Distinct(orphaned) && t.blobs.Keys == t0.blobs.Keys - (set b | b in orphaned)
    && (forall b :: InUse(t.refs, b) ==> InUse(t0.refs, b) || b in kept)
    && (forall b :: b in t.blobs && t0.blobs[b].temp.None? ==> t.blobs[b].temp.None?)
  }

  lemma MidwayStart(t: Tables, kept: set<Cid>)
    requires Agree(t)
    ensures Midway(t, t, kept, [])
  {
  }

  /** A record let go of: its link, its references, and what they alone held. */
  lemma LetGo(t: Tables, t0: Tables, kept: set<Cid>, orphaned: seq<Cid>, k: Key, t1: Tables, more: seq<Cid>)
    requires Midway(t, t0, kept, orphaned)
    requires t1.records == t.records && t1.links == t.links
    requires t1.refs == set p | p in t.refs && p.1 != k
    requires Distinct(more) && (forall b :: b in more <==> (b, k) in t.refs && b !in kept && !InUse(t1.refs, b))
    requires t1.blobs == t.blobs - (set b | b in more)
    ensures Midway(t1.(records := t.records - {k}, links := t.links - {k}), t0, kept, orphaned + more)
  {
    hide Distinct, Names, LinkIn, NamedSet;
    var t2 := t1.(records := t.records - {k}, links := t.links - {k});
    RefsGone(t, t1, k, t2.records);
    LinksGone(t.records, k);
    ClaimedGone(t, t1, k, more);
    hide RefsAre, LinksFor, Claimed;
    forall b | b in more ensures b !in orphaned && InUse(t.refs, b) { assert (b, k) in t.refs; }
    hide InUse;
    DistinctJoin(orphaned, more);
  }

  lemma RefsGone(t: Tables, t1: Tables, k: Key, records: map<Key, Row>)
    requires RefsAre(t.refs, t.records) && t1.refs == (set p | p in t.refs && p.1 != k) && records == t.records - {k}
    ensures RefsAre(t1.refs, records)
    ensures forall b :: InUse(t1.refs, b) ==> InUse(t.refs, b)
    ensures forall b :: InUse(t.refs, b) && !InUse(t1.refs, b) ==> (b, k) in t.refs
  {
    hide NamedSet, Names;
    assert forall b, x :: (b, x) in t1.refs <==> (b, x) in t.refs && x != k;
    assert forall b, x :: Named(records, b, x) <==> Named(t.records, b, x) && x != k;
    forall b
      ensures (InUse(t1.refs, b) ==> InUse(t.refs, b)) && (InUse(t.refs, b) && !InUse(t1.refs, b) ==> (b, k) in t.refs)
    {
      StillInUse(t.refs, t1.refs, k, b);
    }
  }

  lemma LinksGone(records: map<Key, Row>, k: Key)
    ensures LinksFor(records) - {k} == LinksFor(records - {k})
  {
  }

  lemma ClaimedGone(t: Tables, t1: Tables, k: Key, more: seq<Cid>)
    requires Claimed(t) && t1.refs == (set p | p in t.refs && p.1 != k) && t1.blobs == t.blobs - (set b | b in more)
    requires forall b :: b in more ==> !InUse(t1.refs, b)
    ensures Claimed(t1)
  {
    forall b, x | (b, x) in t1.refs ensures b in t1.blobs && t1.blobs[b].temp.None? {
      assert (b, x) in t.refs && InUse(t1.refs, b);
    }
  }

  lemma DistinctJoin(a: seq<Cid>, b: seq<Cid>)
    requires Distinct(a) && Distinct(b) && forall c :: c in b ==> c !in a
    ensures Distinct(a + b)
  {
    var s := a + b;
    forall i, j | 0 <= i < j < |s| ensures s[i] != s[j] {
      if i < |a| <= j { assert b[j - |a|] in b && a[i] in a; }
    }
  }

  lemma StillInUse(refs: set<(Cid, Key)>, refs': set<(Cid, Key)>, k: Key, b: Cid)
    requires refs' == set p | p in refs && p.1 != k
    ensures InUse(refs', b) ==> InUse(refs, b)
    ensures InUse(refs, b) && !InUse(refs', b) ==> (b, k) in refs
  {
    if InUse(refs', b) { var x :| (b, x) in refs'; assert (b, x) in refs; }
    if InUse(refs, b) { var x :| (b, x) in refs; if x != k { assert (b, x) in refs'; } }
  }

  /** A record put where nothing is: its link, and the blobs it names. */
  lemma PutThere(g: Tables, t0: Tables, kept: set<Cid>, orphaned: seq<Cid>, item: Indexed, rev: Key, t2: Tables)
    requires Midway(g, t0, kept, orphaned) && item.Place? && item.Faithful() && item.At() !in g.records
    requires NamedSet(item.blobs) <= kept && Claimed(t2) && t2.blobs.Keys == g.blobs.Keys
    requires forall b, x :: (b, x) in t2.refs <==> (b, x) in g.refs || (x == item.At() && b in NamedSet(item.blobs))
    requires forall b :: b in g.blobs ==>
               t2.blobs[b] == if b in NamedSet(item.blobs) then g.blobs[b].(temp := None) else g.blobs[b]
    ensures Midway(Placed(g, item, rev, t2), t0, kept, orphaned)
  {
    hide NamedSet, Distinct;
    var t3 := Placed(g, item, rev, t2);
    PlacedRefs(g, item, rev, t2);
    PlacedLinks(g, item, rev, t2);
    hide LinksFor, RefsAre, Claimed;
    forall b ensures InUse(t3.refs, b) <==> InUse(g.refs, b) || b in NamedSet(item.blobs) {
      if InUse(t3.refs, b) { var x :| (b, x) in t3.refs; }
      if InUse(g.refs, b) { var x :| (b, x) in g.refs; assert (b, x) in t3.refs; }
      if b in NamedSet(item.blobs) { assert (b, item.At()) in t3.refs; }
    }
    hide InUse;
  }

  /** The tables with one record's row and link written over them. */
  function Placed(g: Tables, item: Indexed, rev: Key, t2: Tables): Tables
    requires item.Place?
  {
    t2.(records := g.records[item.At() := Row(item.cid, item.collection, item.rkey, rev)],
        links := if item.link.Some? then g.links[item.At() := item.link.value] else g.links)
  }

  lemma PlacedRefs(g: Tables, item: Indexed, rev: Key, t2: Tables)
    requires RefsAre(g.refs, g.records) && item.Place? && item.Faithful() && item.At() !in g.records
    requires forall b, x :: (b, x) in t2.refs <==> (b, x) in g.refs || (x == item.At() && b in NamedSet(item.blobs))
    ensures RefsAre(t2.refs, Placed(g, item, rev, t2).records)
  {
    hide NamedSet;
    assert Names(item.cid) == item.blobs;
    var records := Placed(g, item, rev, t2).records;
    assert forall b, x ::
        Named(records, b, x) <==> (Named(g.records, b, x) || (x == item.At() && b in NamedSet(item.blobs)));
  }

  lemma PlacedLinks(g: Tables, item: Indexed, rev: Key, t2: Tables)
    requires g.links == LinksFor(g.records) && item.Place? && item.Faithful() && item.At() !in g.records
    ensures Placed(g, item, rev, t2).links == LinksFor(Placed(g, item, rev, t2).records)
  {
  }

  /** One item of a commit: a record indexed where it was written, or taken out
      of the index where it was deleted. */
  method IndexItem(t: Tables, item: Indexed, rev: Key, kept: set<Cid>, out: Leaving,
                   ghost t0: Tables, ghost orphaned: seq<Cid>)
    returns (t': Tables, more: seq<Cid>, out': Leaving, error: Option<BlobError>)
    requires Midway(t, t0, kept, orphaned) && item.Faithful() && NamedSet(BlobsIn(item)) <= kept
    ensures error == FirstObjection(t.blobs, {}, BlobsIn(item))
    ensures error.None? ==>
              && Midway(t', t0, kept, orphaned + more)
              && t'.records == RowsAfter(t.records, [item], rev)
              && Took(t, t', NamedSet(BlobsIn(item)), out.taken, out'.taken) && NamedSet(BlobsIn(item)) <= t.blobs.Keys
              && (forall b :: b in NamedSet(BlobsIn(item)) && t.blobs[b].temp.Some? ==> b in out'.served)
    ensures Linking(out, out', NamedSet(BlobsIn(item)))
  {
    hide Midway, Distinct, Claimed, InUse, Took, NamedSet, FirstObjection;
    var k := item.At();
    RowsOne(t.records, item, rev);
    var t1;
    t1, more := Dereference(t, k, kept);
    LetGo(t, t0, kept, orphaned, k, t1, more);
    var gone := t1.(records := t1.records - {k}, links := t1.links - {k});
    LetGoTook(t, gone, out.taken);
    SameObjection(t, gone, {}, out.taken, out.taken, BlobsIn(item));
    if item.Empty? {
      NothingNamed(gone.blobs);
      t', out', error := gone, out, None;
    } else {
      t', out', error := PlaceItem(gone, item, rev, kept, out, t0, orphaned + more);
      if error.None? {
        PutBack(t.records, gone.records, k, Row(item.cid, item.collection, item.rkey, rev));
        TookAfter(t, gone, t', NamedSet(BlobsIn(item)), out.taken, out'.taken);
      }
    }
  }

  lemma NothingNamed(rows: map<Cid, BlobRow>)
    ensures NamedSet([]) == {} && FirstObjection(rows, {}, []).None?
  {
  }

  lemma PutBack(records: map<Key, Row>, gone: map<Key, Row>, k: Key, row: Row)
    requires gone == records - {k}
    ensures gone[k := row] == records[k := row]
  {
  }

  lemma LetGoTook(t: Tables, t': Tables, taken: seq<Key>)
    requires forall b :: b in t'.blobs ==> b in t.blobs && t'.blobs[b] == t.blobs[b]
    ensures Took(t, t', {}, taken, taken)
  {
  }

  /** A record put where the one before it was let go of. */
  method PlaceItem(g: Tables, item: Indexed, rev: Key, ghost kept: set<Cid>, out: Leaving,
                   ghost t0: Tables, ghost orphaned: seq<Cid>)
    returns (t: Tables, out': Leaving, error: Option<BlobError>)
    requires Midway(g, t0, kept, orphaned) && item.Place? && item.Faithful() && item.At() !in g.records
    requires item.At() !in g.links && NamedSet(item.blobs) <= kept
    ensures error == FirstObjection(g.blobs, {}, item.blobs)
    ensures error.None? ==>
              && Midway(t, t0, kept, orphaned)
              && t.records == g.records[item.At() := Row(item.cid, item.collection, item.rkey, rev)]
              && Took(g, t, NamedSet(item.blobs), out.taken, out'.taken) && NamedSet(item.blobs) <= g.blobs.Keys
              && (forall b :: b in NamedSet(item.blobs) && g.blobs[b].temp.Some? ==> b in out'.served)
    ensures Linking(out, out', NamedSet(item.blobs))
  {
    hide Midway, Took, NamedSet, FirstObjection, Claimed;
    var k := item.At();
    MidwayClaimed(g, t0, kept, orphaned);
    var linked := g.(links := if item.link.Some? then g.links[k := item.link.value] else g.links);
    SameClaimed(g, linked);
    var t2;
    t2, out', error := Claim(linked, k, item.blobs, out);
    t := t2.(records := t2.records[k := Row(item.cid, item.collection, item.rkey, rev)]);
    if error.None? {
      TookRows(linked, t2, NamedSet(item.blobs), out.taken, out'.taken);
      SameUploads(linked, g, t2, t, NamedSet(item.blobs), out.taken, out'.taken);
      PutThere(g, t0, kept, orphaned, item, rev, t2);
    }
  }

  lemma SameClaimed(t: Tables, t': Tables)
    requires Claimed(t) && t'.refs == t.refs && t'.blobs == t.blobs
    ensures Claimed(t')
  {
  }

  lemma TookRows(t: Tables, t': Tables, named: set<Cid>, before: seq<Key>, taken: seq<Key>)
    requires Took(t, t', named, before, taken)
    ensures forall b :: b in t'.blobs ==>
              b in t.blobs && t'.blobs[b] == if b in named then t.blobs[b].(temp := None) else t.blobs[b]
  {
  }

  /** Claims say nothing of records, links or references. */
  lemma SameUploads(t: Tables, t1: Tables, t': Tables, t1': Tables, named: set<Cid>, before: seq<Key>, taken: seq<Key>)
    requires Took(t, t', named, before, taken) && t1.blobs == t.blobs && t1'.blobs == t'.blobs
    ensures Took(t1, t1', named, before, taken)
  {
    assert forall b, k :: Uploaded(t1, b, k) <==> Uploaded(t, b, k);
    assert forall k :: GivenUp(t1, named, k) <==> GivenUp(t, named, k);
  }

  lemma MidwayClaimed(t: Tables, t0: Tables, kept: set<Cid>, orphaned: seq<Cid>)
    requires Midway(t, t0, kept, orphaned)
    ensures Claimed(t) && t.blobs.Keys <= t0.blobs.Keys
    ensures forall b :: b in kept ==> (b in t0.blobs <==> b in t.blobs)
  {
    hide Distinct, RefsAre, LinksFor;
  }

  lemma RowsOne(records: map<Key, Row>, item: Indexed, rev: Key)
    ensures RowsAfter(records, [item], rev) ==
            if item.Place? then records[item.At() := Row(item.cid, item.collection, item.rkey, rev)]
            else records - {item.At()}
  {
    assert [item][..0] == [];
  }

  lemma RowsNext(records: map<Key, Row>, items: seq<Indexed>, i: nat, rev: Key)
    requires i < |items|
    ensures RowsAfter(records, items[..i + 1], rev) == RowsAfter(RowsAfter(records, items[..i], rev), [items[i]], rev)
  {
    assert items[..i + 1][..i] == items[..i];
    assert [items[i]][..0] == [];
  }

  /** A commit's items in order, from tables that agree to tables that agree.
      `orphaned` names each blob whose last reference went, once, however
      often the batch wrote a key, and `out.taken` exactly the uploads it
      claimed. */
  method IndexAll(t0: Tables, items: seq<Indexed>, rev: Key, served: set<Cid>)
    returns (t: Tables, out: Leaving, orphaned: seq<Cid>, error: Option<BlobError>)
    requires Agree(t0) && forall i :: 0 <= i < |items| ==> items[i].Faithful()
    ensures error == FirstObjection(t0.blobs, {}, AllBlobs(items))
    ensures out.served - out.linked == served && out.linked <= out.served && out.linked !! served
    ensures out.linked <= Spared(items)
    ensures error.None? ==>
              && Agree(t) && t.records == RowsAfter(t0.records, items, rev)
              && Distinct(orphaned)
              && (forall b :: b in orphaned <==> (InUse(t0.refs, b) || b in Spared(items)) && !InUse(t.refs, b))
              && t.blobs.Keys == t0.blobs.Keys - (set b | b in orphaned)
              && (forall b :: b in t.blobs && t.blobs[b].temp.None? ==> t0.blobs[b].temp.None? || b in out.served)
              && Took(t0, t, Spared(items), [], out.taken) && Spared(items) <= t0.blobs.Keys
  {
    hide Midway, Took, Spared, NamedSet, FirstObjection, AllBlobs, Distinct, InUse;
    t, out, orphaned, error := t0, Leaving(served, {}, []), [], None;
    ghost var out0 := out;
    var kept := Spared(items);
    MidwayStart(t0, kept);
    NothingSpared(t0, items);
    var i := 0;
    assert items[..0] == [];
    while i < |items|
      invariant 0 <= i <= |items| && error.None?
      invariant FirstObjection(t0.blobs, {}, AllBlobs(items[..i])).None?
      invariant Midway(t, t0, kept, orphaned)
      invariant t.records == RowsAfter(t0.records, items[..i], rev)
      invariant Linking(out0, out, Spared(items[..i])) && Claims(t0, Spared(items[..i]), out.served)
      invariant Took(t0, t, Spared(items[..i]), [], out.taken) && Spared(items[..i]) <= t0.blobs.Keys
    {
      var before, had, was := t, out.taken, out;
      ghost var named := NamedSet(BlobsIn(items[i]));
      AllBlobsNext(items, i);
      SparedOver(items, i + 1);
      MidwayClaimed(t, t0, kept, orphaned);
      ObjectionJoin(t0.blobs, AllBlobs(items[..i]), BlobsIn(items[i]));
      SameObjection(t0, t, Spared(items[..i]), [], out.taken, BlobsIn(items[i]));
      assert Spared(items[..i]) == NamedSet(AllBlobs(items[..i])) by { SparedIs(items[..i]); }
      var more;
      t, more, out, error := IndexItem(t, items[i], rev, kept, out, t0, orphaned);
      LinksOn(out0, was, out, Spared(items[..i]), named);
      if error.Some? {
        SparedOver(items, i + 1);
        AllObjected(t0.blobs, items, i + 1);
        return;
      }
      RowsNext(t0.records, items, i, rev);
      ClaimsOn(t0, before, Spared(items[..i]), named, had, was.served, out.served);
      TookMore(t0, before, t, Spared(items[..i]), named, had, out.taken);
      orphaned := orphaned + more;
      i := i + 1;
    }
    assert items[..i] == items;
    ghost var all := t;
    MidwayClaimed(t, t0, kept, orphaned);
    t, orphaned := Spare(t, t0, kept, orphaned);
    TookFewer(t0, all, t, kept, out.taken);
    ClaimsAt(t0, t, kept, out.taken, out.served);
  }

  lemma SparedIs(items: seq<Indexed>)
    ensures Spared(items) == NamedSet(AllBlobs(items))
  {
  }

  lemma NothingSpared(t: Tables, items: seq<Indexed>)
    ensures Spared(items[..0]) == {} && Took(t, t, Spared(items[..0]), [], [])
    ensures FirstObjection(t.blobs, {}, AllBlobs(items[..0])).None?
  {
  }

  /** An objection to some of a commit's items is the commit's. */
  lemma {:induction false} AllObjected(rows: map<Cid, BlobRow>, items: seq<Indexed>, i: nat)
    requires i <= |items| && FirstObjection(rows, {}, AllBlobs(items[..i])).Some?
    ensures FirstObjection(rows, {}, AllBlobs(items)) == FirstObjection(rows, {}, AllBlobs(items[..i]))
    decreases |items| - i
  {
    hide FirstObjection, NamedSet, AllBlobs;
    if i < |items| {
      AllBlobsNext(items, i);
      ObjectionJoin(rows, AllBlobs(items[..i]), BlobsIn(items[i]));
      AllObjected(rows, items, i + 1);
    } else {
      assert items[..i] == items;
    }
  }

  lemma LinksOn(a: Leaving, b: Leaving, c: Leaving, named: set<Cid>, more: set<Cid>)
    requires Linking(a, b, named) && Linking(b, c, more)
    ensures Linking(a, c, named + more)
  {
  }

  lemma TookFewer(t: Tables, t': Tables, t'': Tables, named: set<Cid>, taken: seq<Key>)
    requires Took(t, t', named, [], taken)
    requires forall b :: b in t''.blobs ==> b in t'.blobs && t''.blobs[b] == t'.blobs[b]
    ensures Took(t, t'', named, [], taken)
  {
  }

  /** Every upload claimed is served. */
  ghost predicate Claims(t0: Tables, named: set<Cid>, served: set<Cid>) {
    forall b :: b in named && b in t0.blobs && t0.blobs[b].temp.Some? ==> b in served
  }

  lemma ClaimsOn(t0: Tables, t: Tables, named: set<Cid>, more: set<Cid>, taken: seq<Key>,
                 served: set<Cid>, served': set<Cid>)
    requires Claims(t0, named, served) && Took(t0, t, named, [], taken) && served <= served' && more <= t.blobs.Keys
    requires forall b :: b in more && t.blobs[b].temp.Some? ==> b in served'
    ensures Claims(t0, named + more, served')
  {
  }

  lemma ClaimsAt(t0: Tables, t: Tables, named: set<Cid>, taken: seq<Key>, served: set<Cid>)
    requires Claims(t0, named, served) && Took(t0, t, named, [], taken)
    ensures forall b :: b in t.blobs && t.blobs[b].temp.None? ==>
              b in t0.blobs && (t0.blobs[b].temp.None? || b in served)
  {
  }

  /** Asks of each blob the batch spared whether some record was left holding
      it. */
  method Spare(t: Tables, ghost t0: Tables, kept: set<Cid>, o: seq<Cid>) returns (t': Tables, orphaned: seq<Cid>)
    requires Midway(t, t0, kept, o) && kept <= t.blobs.Keys
    ensures Agree(t') && t'.records == t.records && t'.refs == t.refs && Distinct(orphaned)
    ensures forall b :: b in orphaned <==> (InUse(t0.refs, b) || b in kept) && !InUse(t.refs, b)
    ensures t'.blobs.Keys == t0.blobs.Keys - (set b | b in orphaned)
    ensures forall b :: b in t'.blobs ==> b in t.blobs && t'.blobs[b] == t.blobs[b]
  {
    t', orphaned := t, o;
    var todo := kept;
    while todo != {}
      invariant todo <= kept && Distinct(orphaned)
      invariant t' == t.(blobs := t'.blobs)
      invariant forall b :: b in orphaned <==> (InUse(t0.refs, b) || b in kept) && b !in todo && !InUse(t.refs, b)
      invariant forall b :: b in t'.blobs <==> b in t.blobs && (b in kept && b !in todo ==> InUse(t.refs, b))
      invariant forall b :: b in t'.blobs ==> t'.blobs[b] == t.blobs[b]
      decreases |todo|
    {
      var b :| b in todo;
      var held := exists p | p in t.refs :: p.0 == b;
      assert held <==> InUse(t.refs, b) by {
        if held { var p :| p in t.refs && p.0 == b; assert (b, p.1) in t.refs; }
        if InUse(t.refs, b) { var x :| (b, x) in t.refs; assert (b, x).0 == b; }
      }
      if !held {
        DistinctJoin(orphaned, [b]);
        t', orphaned := t'.(blobs := t'.blobs - {b}), orphaned + [b];
      }
      todo := todo - {b};
    }
    SparedAgree(t, t', t0, kept, o);
  }

  lemma SparedAgree(t: Tables, t': Tables, t0: Tables, kept: set<Cid>, o: seq<Cid>)
    requires Midway(t, t0, kept, o) && t' == t.(blobs := t'.blobs)
    requires forall b :: b in t'.blobs <==> b in t.blobs && (b in kept ==> InUse(t.refs, b))
    requires forall b :: b in t'.blobs ==> t'.blobs[b] == t.blobs[b]
    ensures Agree(t')
  {
    forall b | b in t'.blobs ensures t'.blobs[b].temp.None? <==> InUse(t'.refs, b) {
      if InUse(t.refs, b) { var k :| (b, k) in t.refs; }
    }
    forall b, k | (b, k) in t'.refs ensures b in t'.blobs { assert InUse(t.refs, b); }
  }
}
