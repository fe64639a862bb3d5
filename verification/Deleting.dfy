/** Changing and taking out a record of a tree that is read on demand. */
module Deleting {
  import opened Data
  import opened Keys
  import opened Tree
  import opened TreeOps
  import opened Codec
  import opened Nodes
  import opened Mst
  import opened Reading
  import opened Writing
  import opened Inserting

  // ---- Changing ----

  /** What changing a record comes to, the key checked first. */
  function Updated(es: seq<Entry>, k: Key, v: Cid): Result<seq<Entry>> {
    if ValidKey(k) then Update(es, k, v) else Err(InvalidKey(k))
  }

  method UpdateIn(m: Mst, rd: Reader, depth: nat, key: Key, value: Cid, ghost es: seq<Entry>, ghost n: nat)
    returns (r: Result<Mst>)
    modifies rd
    ensures depth >= 256 ==> r == Err(TOO_DEEP) && rd.seen == old(rd.seen)
    ensures old(rd.seen) <= rd.seen
    ensures r.Ok? ==> r.value.layer == m.layer
    ensures Legible(m, es, n, rd.store, old(rd.seen)) && depth + n < MAX_DEPTH ==>
              Answered(m, es, n, rd.store, old(rd.seen), Updated(es, key, value), n, r, rd.seen)
    decreases rd.store.Keys - rd.seen, Size(m)
  {
    hide Legible, Kept, Pending, CidOf, Position, IndexOf, Here, SubOf, SizeAll, Update, ValidKey;
    if depth >= MAX_DEPTH {
      return Err(TOO_DEEP);
    }
    ghost var good := Legible(m, es, n, rd.store, rd.seen) && depth + n < MAX_DEPTH;
    ghost var seen := rd.seen;
    if !ValidKey(key) {
      return Err(InvalidKey(key));
    }
    var m', o := Fill(m, rd, es, n);
    if o.Err? {
      if good { AbsentHere(m, es, key, rd.store); }
      return Err(o.error);
    }
    var ms := m'.entries.list;
    var i := Position(ms, key);
    ghost var mid := rd.seen;
    if good {
      Opened(m, es, n, key, rd.store, seen, m', mid);
      UpdateStarts(es, key, value);
    }
    if i < |ms| && ms[i].leaf.key == key {
      if good { LeafPut(m, es, n, rd.store, seen, m', mid, i, Leaf(key, value)); }
      r := Ok(FromEntries(ms[i := ML(Leaf(key, value))], m.layer));
    } else if i > 0 && ms[i - 1].MT? {
      ChildSmaller(ms, i - 1);
      var inner := UpdateIn(ms[i - 1].sub, rd, depth + 1, key, value, SubOf(es, i - 1), Down(n));
      if inner.Err? {
        if good && Absent(inner.error, Pending(ms[i - 1].sub, SubOf(es, i - 1)), rd.store) {
          AbsentUnder(m, es, n, seen, m', mid, i, inner.error, rd.store);
        }
        return Err(inner.error);
      }
      if good {
        SubPut(m, es, n, rd.store, seen, m', mid, i, inner.value, Update(SubOf(es, i - 1), key, value).value, rd.seen);
      }
      r := Ok(FromEntries(ms[..i - 1] + [MT(inner.value)] + ms[i..], m.layer));
    } else {
      r := Err(KeyMissing(key));
    }
  }

  lemma UpdateStarts(es: seq<Entry>, k: Key, v: Cid)
    ensures Here(es, k) ==> Update(es, k, v) == Ok(es[IndexOf(es, k) := L(Leaf(k, v))])
    ensures !Here(es, k) && !Under(es, IndexOf(es, k)) ==> Update(es, k, v) == Err(KeyMissing(k))
    ensures !Here(es, k) && Under(es, IndexOf(es, k)) ==>
              var i := IndexOf(es, k);
              Update(es, k, v) ==
              match Update(SubOf(es, i - 1), k, v)
              case Ok(inner) => Ok(es[..i - 1] + [T(Node(inner))] + es[i..])
              case Err(e) => Err(e)
  {
    hide IndexOf;
  }

  /** A leaf put where one of its key was. */
  lemma LeafPut(m: Mst, es: seq<Entry>, n: nat, store: Store, seen: set<Cid>, m': Mst, mid: set<Cid>, i: nat,
                leaf: Leaf)
    requires Legible(m, es, n, store, seen) && Kept(Pending(m, es), seen, m', es, n, mid) && m'.entries.Read?
    requires i < |es| && es[i].L? && |m'.entries.list| == |es|
    ensures Kept(Pending(m, es), seen, FromEntries(m'.entries.list[i := ML(leaf)], m.layer), es[i := L(leaf)], n, mid)
  {
    hide Proper, CidOf, RepAll, PendingAll;
    var ms := m'.entries.list;
    LeafChanged(ms, es, n, i, leaf, mid);
    RunNode(Pending(m, es), seen, mid, ms[i := ML(leaf)], es[i := L(leaf)], n, m.layer);
  }

  /** A subtree changed inside, put back where it was. */
  lemma SubPut(m: Mst, es: seq<Entry>, n: nat, store: Store, seen: set<Cid>, m': Mst, mid: set<Cid>, i: nat,
               sub: Mst, x: seq<Entry>, seen': set<Cid>)
    requires Legible(m, es, n, store, seen) && Kept(Pending(m, es), seen, m', es, n, mid) && m'.entries.Read?
    requires 0 < i <= |es| && Under(es, i) && n > 0 && |m'.entries.list| == |es| && m'.entries.list[i - 1].MT?
    requires Kept(Pending(m'.entries.list[i - 1].sub, SubOf(es, i - 1)), mid, sub, x, n - 1, seen')
    ensures var ms := m'.entries.list;
            Kept(Pending(m, es), seen, FromEntries(ms[..i - 1] + [MT(sub)] + ms[i..], m.layer),
                 es[..i - 1] + [T(Node(x))] + es[i..], n, seen')
  {
    hide Proper, CidOf, RepAll, PendingAll;
    Replaced(m'.entries.list, es, n, i - 1, sub, x, mid, seen');
  }

  lemma LeafChanged(ms: seq<MEntry>, es: seq<Entry>, n: nat, i: nat, leaf: Leaf, seen: set<Cid>)
    requires RepAll(ms, es, n) && i < |es| && es[i].L? && PendingAll(ms, es) !! seen
    ensures |ms| == |es| && KeptRun(PendingAll(ms, es), seen, ms[i := ML(leaf)], es[i := L(leaf)], n)
  {
    var ms', es' := ms[i := ML(leaf)], es[i := L(leaf)];
    forall j | 0 <= j < |es| ensures RepEntry(ms'[j], es'[j], n) {
      assert RepEntry(ms[j], es[j], n);
    }
    hide Pending;
    forall j, c | 0 <= j < |es| && ms'[j].MT? && es'[j].T? && c in Pending(ms'[j].sub, es'[j].sub.entries)
      ensures c in PendingAll(ms, es)
    {
      assert ms'[j] == ms[j] && es'[j] == es[j];
    }
  }

  // ---- Taking out ----

  method DeleteRecurse(m: Mst, rd: Reader, depth: nat, key: Key, ghost es: seq<Entry>, ghost n: nat)
    returns (r: Result<Mst>)
    modifies rd
    ensures depth >= 256 ==> r == Err(TOO_DEEP) && rd.seen == old(rd.seen)
    ensures old(rd.seen) <= rd.seen
    ensures r.Ok? ==> r.value.layer == m.layer && r.value.entries.Read? && r.value.pointer.None?
    ensures Legible(m, es, n, rd.store, old(rd.seen)) && depth + n + 1 < MAX_DEPTH ==>
              Answered(m, es, n, rd.store, old(rd.seen), Delete(es, key), n, r, rd.seen)
    decreases rd.store.Keys - rd.seen, Size(m)
  {
    hide Legible, Kept, Pending, CidOf, Position, IndexOf, Here, SubOf, SizeAll, Delete, Merge;
    if depth >= MAX_DEPTH {
      return Err(TOO_DEEP);
    }
    ghost var good := Legible(m, es, n, rd.store, rd.seen) && depth + n + 1 < MAX_DEPTH;
    ghost var seen := rd.seen;
    var m', o := Fill(m, rd, es, n);
    if o.Err? {
      if good { AbsentHere(m, es, key, rd.store); }
      return Err(o.error);
    }
    var ms := m'.entries.list;
    var i := Position(ms, key);
    ghost var mid := rd.seen;
    if good {
      Opened(m, es, n, key, rd.store, seen, m', mid);
      DeleteStarts(es, key);
    }
    if i < |ms| && ms[i].leaf.key == key {
      if good { ListLegible(m, es, n, rd.store, seen, m', mid); }
      r := RemoveAt(ms, i, m.layer, rd, depth + 1, es, n);
      if good { Removed(m, es, n, seen, m', mid, i, r, rd.seen, rd.store); }
    } else if i > 0 && ms[i - 1].MT? {
      ChildSmaller(ms, i - 1);
      var shrunk := DeleteRecurse(ms[i - 1].sub, rd, depth + 1, key, SubOf(es, i - 1), Down(n));
      if shrunk.Err? {
        if good && Absent(shrunk.error, Pending(ms[i - 1].sub, SubOf(es, i - 1)), rd.store) {
          AbsentUnder(m, es, n, seen, m', mid, i, shrunk.error, rd.store);
        }
        return Err(shrunk.error);
      }
      var kept := if shrunk.value.entries.list != [] then Some(shrunk.value) else None;
      if good {
        ShrunkPut(m, es, n, rd.store, seen, m', mid, i, shrunk.value, kept,
                  Delete(SubOf(es, i - 1), key).value, rd.seen);
      }
      r := Ok(FromEntries(ms[..i - 1] + OptNode(kept) + ms[i..], m.layer));
    } else {
      r := Err(KeyMissing(key));
    }
  }

  lemma DeleteStarts(es: seq<Entry>, k: Key)
    ensures Here(es, k) ==> Delete(es, k) == Ok(Merge(es[..IndexOf(es, k)], es[IndexOf(es, k) + 1..]))
    ensures !Here(es, k) && !Under(es, IndexOf(es, k)) ==> Delete(es, k) == Err(KeyMissing(k))
    ensures !Here(es, k) && Under(es, IndexOf(es, k)) ==>
              var i := IndexOf(es, k);
              Delete(es, k) ==
              match Delete(SubOf(es, i - 1), k)
              case Ok(inner) => Ok(es[..i - 1] + Opt(inner) + es[i..])
              case Err(e) => Err(e)
  {
    hide IndexOf, Merge;
  }

  /** The entries just loaded, as an operation on them may rely on them. */
  lemma ListLegible(m: Mst, es: seq<Entry>, n: nat, store: Store, seen: set<Cid>, m': Mst, mid: set<Cid>)
    requires Legible(m, es, n, store, seen) && Kept(Pending(m, es), seen, m', es, n, mid) && m'.entries.Read?
    ensures RepAll(m'.entries.list, es, n) && Proper(es, n) && Fresh(PendingAll(m'.entries.list, es), store, mid)
    ensures m.layer.Some? ==> m.layer.value == n
  {
    hide Proper, CidOf, RepAll, PendingAll;
  }

  lemma Removed(m: Mst, es: seq<Entry>, n: nat, seen: set<Cid>, m': Mst, mid: set<Cid>, i: nat,
                r: Result<Mst>, seen': set<Cid>, store: Store)
    requires Kept(Pending(m, es), seen, m', es, n, mid) && m'.entries.Read? && i < |es|
    requires var pending := PendingAll(m'.entries.list, es);
             if r.Ok? then Kept(pending, mid, r.value, Merge(es[..i], es[i + 1..]), n, seen')
             else Absent(r.error, pending, store)
    ensures if r.Ok? then Kept(Pending(m, es), seen, r.value, Merge(es[..i], es[i + 1..]), n, seen')
            else Absent(r.error, Pending(m, es), store)
  {
    hide Merge, CidOf, RepAll, PendingAll;
  }

  lemma ShrunkPut(m: Mst, es: seq<Entry>, n: nat, store: Store, was: set<Cid>, m': Mst, mid: set<Cid>, i: nat,
                  sub: Mst, kept: Option<Mst>, x: seq<Entry>, seen': set<Cid>)
    requires Legible(m, es, n, store, was) && Kept(Pending(m, es), was, m', es, n, mid) && m'.entries.Read?
    requires 0 < i <= |es| && Under(es, i) && n > 0 && |m'.entries.list| == |es| && m'.entries.list[i - 1].MT?
    requires Kept(Pending(m'.entries.list[i - 1].sub, SubOf(es, i - 1)), mid, sub, x, n - 1, seen')
    requires sub.entries.Read? && kept == if sub.entries.list != [] then Some(sub) else None
    ensures var ms := m'.entries.list;
            Kept(Pending(m, es), was, FromEntries(ms[..i - 1] + OptNode(kept) + ms[i..], m.layer),
                 es[..i - 1] + Opt(x) + es[i..], n, seen')
  {
    var ms, j, p := m'.entries.list, i - 1, Pending(m, es);
    var inner := Pending(ms[j].sub, es[j].sub.entries);
    ListLegible(m, es, n, store, was, m', mid);
    assert RepAll(sub.entries.list, x, n - 1);
    assert KeptOpt(inner, mid, kept, x, n - 1, seen');
    assert PendingAll(ms, es) <= p && was <= mid <= was + p;
    hide RepAll, PendingAll, Proper, Pending, Rep, Kept, Legible;
    RunsAround(ms, es, n, j, mid, seen');
    RunOpt(inner, mid, kept, x, n - 1, seen');
    RunsWider(PendingAll(ms, es), p, seen', ms[..j], es[..j], ms[i..], es[i..], n);
    RunWider(inner, p, seen', OptNode(kept), Opt(x), n);
    assert was <= seen' <= was + p;
    hide KeptRun, KeptOpt;
    RunJoin3(p, seen', ms[..j], es[..j], OptNode(kept), Opt(x), ms[i..], es[i..], n);
    RunNode(p, was, seen', ms[..j] + OptNode(kept) + ms[i..], es[..j] + Opt(x) + es[i..], n, m.layer);
  }

  /** Takes a leaf out of a node, joining the subtrees it stood between. */
  method RemoveAt(ms: seq<MEntry>, i: nat, layer: Option<nat>, rd: Reader, depth: nat,
                  ghost es: seq<Entry>, ghost n: nat)
    returns (r: Result<Mst>)
    requires i < |ms|
    modifies rd
    ensures old(rd.seen) <= rd.seen
    ensures r.Ok? ==> r.value.layer == layer && r.value.entries.Read? && r.value.pointer.None?
    ensures RepAll(ms, es, n) && Proper(es, n) && Fresh(PendingAll(ms, es), rd.store, old(rd.seen))
            && (layer.Some? ==> layer.value == n) && depth + n < MAX_DEPTH ==>
              && |es| == |ms|
              && if r.Ok? then
                   Kept(PendingAll(ms, es), old(rd.seen), r.value, Merge(es[..i], es[i + 1..]), n, rd.seen)
                 else Absent(r.error, PendingAll(ms, es), rd.store)
  {
    hide Proper, CidOf, RepAll, PendingAll, Pending, Rep;
    ghost var good := && RepAll(ms, es, n) && Proper(es, n) && Fresh(PendingAll(ms, es), rd.store, rd.seen)
                      && (layer.Some? ==> layer.value == n) && depth + n < MAX_DEPTH;
    ghost var p, s0 := PendingAll(ms, es), rd.seen;
    if good {
      SameKinds(ms, es, n);
      SlicesAround(ms, es, n, i, s0);
    }
    if i > 0 && ms[i - 1].MT? && i + 1 < |ms| && ms[i + 1].MT? {
      if good {
        ChildLegible(ms, es, n, i - 1, rd.store, s0);
        ChildLegible(ms, es, n, i + 1, rd.store, s0);
        ChildrenApart(ms, es, n, i - 1, i + 1);
      }
      var merged := AppendMerge(ms[i - 1].sub, ms[i + 1].sub, rd, depth, SubOf(es, i - 1), SubOf(es, i + 1), Down(n));
      if merged.Err? { return Err(merged.error); }
      if good {
        MeetingRuns(ms[..i], es[..i], ms[i + 1..], es[i + 1..], n, merged.value, s0, rd.seen, p);
        assert ms[..i][..i - 1] == ms[..i - 1] && ms[i + 1..][1..] == ms[i + 2..];
        RunNode(p, s0, rd.seen, ms[..i - 1] + [MT(merged.value)] + ms[i + 2..], Merge(es[..i], es[i + 1..]), n, layer);
      }
      r := Ok(FromEntries(ms[..i - 1] + [MT(merged.value)] + ms[i + 2..], layer));
    } else {
      if good {
        RunJoin(p, s0, ms[..i], es[..i], ms[i + 1..], es[i + 1..], n);
        RunNode(p, s0, s0, ms[..i] + ms[i + 1..], Merge(es[..i], es[i + 1..]), n, layer);
      }
      r := Ok(FromEntries(ms[..i] + ms[i + 1..], layer));
    }
  }

  lemma ChildrenApart(ms: seq<MEntry>, es: seq<Entry>, n: nat, i: nat, j: nat)
    requires Proper(es, n) && i < j < |es| && |ms| == |es| && es[i].T? && es[j].T? && ms[i].MT? && ms[j].MT?
    ensures Pending(ms[i].sub, es[i].sub.entries) !! Pending(ms[j].sub, es[j].sub.entries)
  {
    SiblingsApart(es, n, i, j);
    PendingIsUnder(ms[i].sub, es[i].sub.entries);
    PendingIsUnder(ms[j].sub, es[j].sub.entries);
  }

  /** What is either side of an entry, as nodes of their own. */
  lemma SlicesAround(ms: seq<MEntry>, es: seq<Entry>, n: nat, i: nat, seen: set<Cid>)
    requires RepAll(ms, es, n) && Proper(es, n) && PendingAll(ms, es) !! seen && i < |es|
    ensures |ms| == |es|
    ensures KeptRun(PendingAll(ms, es), seen, ms[..i], es[..i], n) && Proper(es[..i], n)
    ensures KeptRun(PendingAll(ms, es), seen, ms[i + 1..], es[i + 1..], n) && Proper(es[i + 1..], n)
    ensures PendingAll(ms[..i], es[..i]) !! PendingAll(ms[i + 1..], es[i + 1..])
  {
    assert ms[0..i] == ms[..i] && es[0..i] == es[..i];
    assert ms[i + 1..|es|] == ms[i + 1..] && es[i + 1..|es|] == es[i + 1..];
    RunSlice(ms, es, n, 0, i, seen);
    RunSlice(ms, es, n, i + 1, |es|, seen);
    ProperSides(es, n, i);
    hide KeptRun, RepAll;
    var a, x, b, y := ms[..i], es[..i], ms[i + 1..], es[i + 1..];
    forall j, k, c | 0 <= j < |x| && 0 <= k < |y| && a[j].MT? && x[j].T? && b[k].MT? && y[k].T?
                     && c in Pending(a[j].sub, x[j].sub.entries) && c in Pending(b[k].sub, y[k].sub.entries)
      ensures false
    {
      assert ms[j] == a[j] && es[j] == x[j] && ms[i + 1 + k] == b[k] && es[i + 1 + k] == y[k];
      ChildrenApart(ms, es, n, j, i + 1 + k);
    }
  }

  lemma ProperSides(es: seq<Entry>, n: nat, i: nat)
    requires Proper(es, n) && i < |es|
    ensures Proper(es[..i], n) && Proper(es[i + 1..], n)
  {
    FitsSlice(es, n, 0, i);
    FitsSlice(es, n, i + 1, |es|);
    LeavesAround(es, i);
    SortedParts(Leaves(es[..i]), EntryLeaves(es[i]), Leaves(es[i + 1..]));
    ValidMiddle(Leaves(es[..i]), EntryLeaves(es[i]), Leaves(es[i + 1..]));
  }

  /** The lazy `Trim`, stopping short where a block is missing. */
  method TrimTop(m: Mst, rd: Reader, depth: nat, ghost es: seq<Entry>, ghost n: nat)
    returns (r: Result<Mst>, ghost es': seq<Entry>, ghost n': nat)
    modifies rd
    ensures depth >= 256 ==> r == Err(TOO_DEEP) && rd.seen == old(rd.seen)
    ensures old(rd.seen) <= rd.seen
    ensures Legible(m, es, n, rd.store, old(rd.seen)) && depth + n < MAX_DEPTH ==>
              && r.Ok? && n' <= n && Proper(es', n') && Rep(r.value, es', n') && Pending(r.value, es') <= Pending(m, es)
              && Trim(es') == Trim(es)
              && (es' == Trim(es) || (CidOf(es') in Pending(m, es) && CidOf(es') !in rd.store))
              && (Trim(es) == es ==> es' == es && n' == n && r.value.layer == m.layer)
    decreases rd.store.Keys - rd.seen, Size(m)
  {
    hide Proper, CidOf, PendingAll;
    es', n' := es, n;
    if depth >= MAX_DEPTH {
      return Err(TOO_DEEP), es', n';
    }
    ghost var good := Legible(m, es, n, rd.store, rd.seen) && depth + n < MAX_DEPTH;
    var m', o := Fill(m, rd, es, n);
    if o.Err? {
      if good { UnreadPending(m, es); }
      if o.error.MissingBlock? {
        return Ok(m), es', n';
      }
      return Err(o.error), es', n';
    }
    var ms := m'.entries.list;
    if good { SameKinds(ms, es, n); }
    if |ms| == 1 && ms[0].MT? {
      ChildSmaller(ms, 0);
      if good { ChildLegible(ms, es, n, 0, rd.store, rd.seen); }
      r, es', n' := TrimTop(ms[0].sub, rd, depth + 1, SubOf(es, 0), Down(n));
      if good { TrimIsNotLone(SubOf(es, 0)); }
    } else {
      r := Ok(m');
    }
  }

  lemma {:induction false} TrimIsNotLone(es: seq<Entry>)
    ensures !(|Trim(es)| == 1 && Trim(es)[0].T?)
    decreases Node(es)
  {
    if |es| == 1 && es[0].T? { TrimIsNotLone(es[0].sub.entries); }
  }
}
