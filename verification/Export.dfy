/** A repository streamed out a page at a time, newest revision first. */
module Exporting {
  import opened Data
  import opened Keys
  import opened Index
  import opened Actors
  import opened CarFiles

  /** A row's place in the order of a download, used as a cursor. */
  datatype Mark = Mark(rev: Key, cid: Cid)

  /** A CID as it is written in a table, which is what orders blocks of one
      revision. */
  const CidText: Cid -> Key

  ghost predicate Spelled() {
    forall a, b :: CidText(a) == CidText(b) ==> a == b
  }

  predicate Before(a: Mark, b: Mark) {
    Lt(a.rev, b.rev) || (a.rev == b.rev && Lt(CidText(a.cid), CidText(b.cid)))
  }

  lemma BeforeTotal(a: Mark, b: Mark)
    requires Spelled()
    ensures Before(a, b) || a == b || Before(b, a)
  {
    LtTotal(a.rev, b.rev);
    LtTotal(CidText(a.cid), CidText(b.cid));
  }

  lemma BeforeTransitive(a: Mark, b: Mark, c: Mark)
    requires Before(a, b) && Before(b, c)
    ensures Before(a, c)
  {
    LtIrreflexive(a.rev);
    if Lt(a.rev, b.rev) && Lt(b.rev, c.rev) { LtTransitive(a.rev, b.rev, c.rev); }
    if a.rev == b.rev == c.rev { LtTransitive(CidText(a.cid), CidText(b.cid), CidText(c.cid)); }
  }

  lemma BeforeIrreflexive(a: Mark)
    ensures !Before(a, a)
  {
    LtIrreflexive(a.rev);
    LtIrreflexive(CidText(a.cid));
  }

  type Rows = map<Cid, Stored>

  function At(rows: Rows, c: Cid): Mark
    requires c in rows
  {
    Mark(rows[c].rev, c)
  }

  /** The blocks a revision after `since` wrote that come after a mark. */
  function Eligible(rows: Rows, since: Option<Key>, from: Option<Mark>): set<Cid> {
    set c | c in rows && (since.Some? ==> Lt(since.value, rows[c].rev))
            && (from.Some? ==> Before(At(rows, c), from.value))
  }

  /** Every one of some blocks comes before every one of others. */
  ghost predicate Above(rows: Rows, page: seq<Cid>, rest: set<Cid>) {
    && (forall c :: c in page ==> c in rows) && rest <= rows.Keys
    && forall i, d :: 0 <= i < |page| && d in rest ==> Before(At(rows, d), At(rows, page[i]))
  }

  /** Newest first, and none twice. */
  ghost predicate Descending(rows: Rows, page: seq<Cid>) {
    && (forall i :: 0 <= i < |page| ==> page[i] in rows)
    && forall i, j :: 0 <= i < j < |page| ==> Before(At(rows, page[j]), At(rows, page[i]))
  }

  /** The first of some blocks, newest first. */
  ghost predicate Greatest(rows: Rows, s: set<Cid>, c: Cid) {
    c in s && s <= rows.Keys && forall d :: d in s && d != c ==> Before(At(rows, d), At(rows, c))
  }

  lemma {:induction false} HasGreatest(rows: Rows, s: set<Cid>) returns (c: Cid)
    requires Spelled() && s != {} && s <= rows.Keys
    ensures Greatest(rows, s, c)
    decreases |s|
  {
    hide Before, Spelled, Greatest;
    var x :| x in s;
    if s == {x} {
      c := x;
      OnlyGreatest(rows, x);
    } else {
      var g := HasGreatest(rows, s - {x});
      c := GreaterOf(rows, s, x, g);
    }
  }

  lemma OnlyGreatest(rows: Rows, x: Cid)
    requires x in rows
    ensures Greatest(rows, {x}, x)
  {
  }

  lemma GreaterOf(rows: Rows, s: set<Cid>, x: Cid, g: Cid) returns (c: Cid)
    requires Spelled() && x in s && x in rows && Greatest(rows, s - {x}, g)
    ensures Greatest(rows, s, c)
  {
    hide Before, Spelled;
    BeforeTotal(At(rows, x), At(rows, g));
    if Before(At(rows, g), At(rows, x)) {
      c := x;
      forall d | d in s && d != c ensures Before(At(rows, d), At(rows, c)) {
        if d != g { BeforeTransitive(At(rows, d), At(rows, g), At(rows, c)); }
      }
    } else {
      c := g;
    }
  }

  ghost function SetOf(page: seq<Cid>): set<Cid> {
    set c | c in page
  }

  /** Some blocks taken, newest first and none twice, and the rest all after
      them. */
  ghost predicate Taken(rows: Rows, page: seq<Cid>, all: set<Cid>, left: set<Cid>) {
    && Descending(rows, page) && Above(rows, page, left)
    && left <= all && SetOf(page) == all - left
  }

  lemma TakeNext(rows: Rows, page: seq<Cid>, all: set<Cid>, left: set<Cid>, c: Cid)
    requires Taken(rows, page, all, left) && Greatest(rows, left, c)
    ensures Taken(rows, page + [c], all, left - {c}) && c in left
  {
    assert Descending(rows, page + [c]) && Above(rows, page + [c], left - {c});
    assert SetOf(page + [c]) == SetOf(page) + {c};
  }

  /** One page: the greatest `limit` of what is left, in order, and where the
      next starts if this one was full. */
  method BlocksSince(rows: Rows, since: Option<Key>, from: Option<Mark>, limit: nat)
    returns (page: seq<Cid>, next: Option<Mark>)
    requires Spelled()
    ensures Descending(rows, page) && SetOf(page) <= Eligible(rows, since, from)
    ensures Above(rows, page, Eligible(rows, since, from) - SetOf(page))
    ensures |page| <= limit && (|page| < limit ==> SetOf(page) == Eligible(rows, since, from))
    ensures next == if |page| == limit && |page| > 0 then Some(At(rows, page[|page| - 1])) else None
  {
    hide Before, Spelled, Above, Descending, SetOf, Greatest, Eligible, Taken;
    var all := Eligible(rows, since, from);
    var left := all;
    page := [];
    NoneTaken(rows, since, from);
    while |page| < limit && left != {}
      invariant Taken(rows, page, all, left) && left <= rows.Keys && |page| <= limit
      decreases |left|
    {
      var c := FirstOf(rows, left);
      TakeNext(rows, page, all, left, c);
      page, left := page + [c], left - {c};
    }
    TakenIs(rows, page, all, left);
    next := None;
    if |page| == limit && |page| > 0 {
      LastIn(rows, page);
      next := Some(At(rows, page[|page| - 1]));
    }
  }

  lemma TakenIs(rows: Rows, page: seq<Cid>, all: set<Cid>, left: set<Cid>)
    requires Taken(rows, page, all, left)
    ensures Descending(rows, page) && SetOf(page) <= all && Above(rows, page, all - SetOf(page))
    ensures left == {} ==> SetOf(page) == all
  {
    assert all - SetOf(page) == left;
  }

  method FirstOf(rows: Rows, s: set<Cid>) returns (c: Cid)
    requires Spelled() && s != {} && s <= rows.Keys
    ensures Greatest(rows, s, c)
  {
    ghost var g := HasGreatest(rows, s);
    c :| c in s && forall d :: d in s && d != c ==> Before(At(rows, d), At(rows, c));
  }

  lemma NoneTaken(rows: Rows, since: Option<Key>, from: Option<Mark>)
    ensures var all := Eligible(rows, since, from); all <= rows.Keys && Taken(rows, [], all, all)
  {
  }

  lemma LastIn(rows: Rows, page: seq<Cid>)
    requires Descending(rows, page) && |page| > 0
    ensures page[|page| - 1] in rows && page[|page| - 1] in SetOf(page)
  {
  }

  /** What a full page leaves for the next is what it did not take. */
  lemma MarkLeaves(rows: Rows, since: Option<Key>, from: Option<Mark>, page: seq<Cid>)
    requires Descending(rows, page) && |page| > 0 && SetOf(page) <= Eligible(rows, since, from)
    requires Above(rows, page, Eligible(rows, since, from) - SetOf(page))
    ensures Eligible(rows, since, Some(At(rows, page[|page| - 1]))) == Eligible(rows, since, from) - SetOf(page)
  {
    var last := page[|page| - 1];
    var all, left := Eligible(rows, since, from), Eligible(rows, since, Some(At(rows, last)));
    assert last in SetOf(page) && last in all;
    hide Before;
    forall c | c in left ensures c in all && c !in page {
      if from.Some? { BeforeTransitive(At(rows, c), At(rows, last), from.value); }
      if c in page {
        var i :| 0 <= i < |page| && page[i] == c;
        BeforeIrreflexive(At(rows, c));
        if i < |page| - 1 {
          BeforeTransitive(At(rows, c), At(rows, last), At(rows, c));
        }
      }
    }
  }

  /** A page on the end of those before it. */
  lemma PagesJoin(rows: Rows, out: seq<Cid>, page: seq<Cid>, all: set<Cid>, left: set<Cid>)
    requires Taken(rows, out, all, left) && Descending(rows, page) && SetOf(page) <= left
    requires Above(rows, page, left - SetOf(page))
    ensures Taken(rows, out + page, all, left - SetOf(page))
  {
    hide Before, At;
    assert forall i :: 0 <= i < |page| ==> page[i] in SetOf(page);
    forall i, j | 0 <= i < j < |out + page|
      ensures Before(At(rows, (out + page)[j]), At(rows, (out + page)[i]))
    {
      if i < |out| <= j {
        assert Before(At(rows, page[j - |out|]), At(rows, out[i]));
      } else if i >= |out| {
        assert Before(At(rows, page[j - |out|]), At(rows, page[i - |out|]));
      }
    }
    assert SetOf(out + page) == SetOf(out) + SetOf(page);
  }

  const PAGE: nat := 500

  ghost function Frames(rows: Rows, out: seq<Cid>): seq<Framed>
    requires forall c :: c in out ==> c in rows
  {
    seq(|out|, i requires 0 <= i < |out| => assert out[i] in out; Framed(out[i], BytesOf(rows[out[i]].block)))
  }

  /** Pushes one page onto a file. */
  method PushPage(rows: Rows, car: seq<byte>, page: seq<Cid>, ghost root: Cid, ghost out: seq<Cid>)
    returns (car': seq<byte>)
    requires (forall c :: c in out ==> c in rows) && (forall c :: c in page ==> c in rows)
    requires car == HeaderOf([root]) + FramesOf(Frames(rows, out))
    ensures car' == HeaderOf([root]) + FramesOf(Frames(rows, out + page))
  {
    hide HeaderOf, FramesOf;
    car' := car;
    var i := 0;
    assert out + page[..0] == out;
    while i < |page|
      invariant 0 <= i <= |page|
      invariant car' == HeaderOf([root]) + FramesOf(Frames(rows, out + page[..i]))
    {
      var c := page[i];
      car' := Push(car', c, BytesOf(rows[c].block), [root], Frames(rows, out + page[..i]));
      assert Frames(rows, out + page[..i + 1]) == Frames(rows, out + page[..i]) + [Framed(c, BytesOf(rows[c].block))];
      i := i + 1;
    }
    assert page[..i] == page;
  }

  lemma InRows(rows: Rows, out: seq<Cid>)
    requires Descending(rows, out)
    ensures forall c :: c in out ==> c in rows
  {
  }

  /** The whole download: from the first page to one that names no next, every
      block written since is in it exactly once, newest first. */
  method Export(rows: Rows, root: Cid, since: Option<Key>) returns (car: seq<byte>, ghost out: seq<Cid>)
    requires Spelled()
    ensures Descending(rows, out) && SetOf(out) == Eligible(rows, since, None)
    ensures forall c :: c in out <==> c in rows && (since.Some? ==> Lt(since.value, rows[c].rev))
    ensures NewestFirst(rows, out)
    ensures (forall c :: c in out ==> c in rows) && car == HeaderOf([root]) + FramesOf(Frames(rows, out))
    ensures since.None? && Faithful() && Carries([root], BytesIn(rows)) ==> Opened(car) == Ok(([root], BytesIn(rows)))
  {
    hide Opened, Faithful, Carries, BytesIn, Before, Spelled, Above, Descending, SetOf, Eligible, Frames, HeaderOf,
         FramesOf, Taken, NewestFirst;
    ghost var all := Eligible(rows, since, None);
    SinceIs(rows, since);
    car, out := HeaderOf([root]), [];
    NoneTaken(rows, since, None);
    NoneFramed(rows, root);
    var from := None;
    while true
      invariant Taken(rows, out, all, Eligible(rows, since, from)) && forall c :: c in out ==> c in rows
      invariant car == HeaderOf([root]) + FramesOf(Frames(rows, out))
      decreases |Eligible(rows, since, from)|
    {
      ghost var left := Eligible(rows, since, from);
      var page, next := BlocksSince(rows, since, from, PAGE);
      PagesJoin(rows, out, page, all, left);
      InRows(rows, page);
      car := PushPage(rows, car, page, root, out);
      out := out + page;
      if next.None? {
        assert left - SetOf(page) == {};
        TakenIs(rows, out, all, {});
        InOrder(rows, out);
        SetIs(out);
        if since.None? && Faithful() && Carries([root], BytesIn(rows)) { FullExportReadsBack(rows, root, out); }
        return;
      }
      MarkLeaves(rows, since, from, page);
      LastIn(rows, page);
      Shrinks(left, SetOf(page), page[|page| - 1]);
      from := next;
    }
  }

  /** By revision, the latest first, and by the text of its CID within one; and
      no block twice. */
  ghost predicate NewestFirst(rows: Rows, out: seq<Cid>) {
    forall i, j :: 0 <= i < j < |out| ==>
      && out[i] in rows && out[j] in rows && out[i] != out[j]
      && (Lt(rows[out[j]].rev, rows[out[i]].rev)
          || (rows[out[j]].rev == rows[out[i]].rev && Lt(CidText(out[j]), CidText(out[i]))))
  }

  lemma InOrder(rows: Rows, out: seq<Cid>)
    requires Descending(rows, out)
    ensures NewestFirst(rows, out)
  {
    forall i, j | 0 <= i < j < |out| ensures out[i] != out[j] { BeforeIrreflexive(At(rows, out[j])); }
  }

  lemma SinceIs(rows: Rows, since: Option<Key>)
    ensures forall c :: c in Eligible(rows, since, None) <==>
              c in rows && (since.Some? ==> Lt(since.value, rows[c].rev))
  {
  }

  lemma SetIs(out: seq<Cid>)
    ensures forall c :: c in SetOf(out) <==> c in out
  {
  }

  lemma NoneFramed(rows: Rows, root: Cid)
    ensures HeaderOf([root]) == HeaderOf([root]) + FramesOf(Frames(rows, []))
  {
    assert FramesOf([]) == [];
  }

  lemma Shrinks(s: set<Cid>, gone: set<Cid>, c: Cid)
    requires c in gone && gone <= s
    ensures |s - gone| < |s|
  {
    assert s == (s - gone) + gone;
    assert |s| == |s - gone| + |gone|;
    assert |gone| > 0;
  }

  // ---- What a download is worth ----

  lemma {:induction false} FramesMap(rows: Rows, out: seq<Cid>)
    requires forall c :: c in out ==> c in rows
    ensures MapOf(Frames(rows, out)) == map c | c in SetOf(out) :: BytesOf(rows[c].block)
  {
    if out != [] {
      var n := |out| - 1;
      FramesMap(rows, out[..n]);
      assert Frames(rows, out)[..n] == Frames(rows, out[..n]);
      assert out[n] in out;
      assert SetOf(out) == SetOf(out[..n]) + {out[n]} by { assert out == out[..n] + [out[n]]; }
    }
  }

  ghost function BytesIn(rows: Rows): BlockMap {
    map c | c in rows :: BytesOf(rows[c].block)
  }

  /** A full download reads back to the repository: its root, and every stored
      block under its own CID. */
  lemma FullExportReadsBack(rows: Rows, root: Cid, out: seq<Cid>)
    requires Faithful() && Carries([root], BytesIn(rows)) && (forall c :: c in out ==> c in rows)
    requires SetOf(out) == Eligible(rows, None, None)
    ensures Opened(HeaderOf([root]) + FramesOf(Frames(rows, out))) == Ok(([root], BytesIn(rows)))
  {
    hide FramesOf, Faithful, Carries, HeaderOf, Opened, MapOf;
    FramesMap(rows, out);
    assert Eligible(rows, None, None) == rows.Keys;
    forall i | 0 <= i < |out| ensures out[i] in rows { assert out[i] in out; }
    OpensMap([root], BytesIn(rows), Frames(rows, out));
  }

  /** Stored blocks that tell the truth are blocks a file can carry. */
  lemma StoredCarries(rows: Rows, root: Cid)
    requires Honest(StoreOf(rows)) && |HeaderBytes([root])| < U64
    requires forall c :: c in rows ==> |Framed(c, BytesOf(rows[c].block)).Bytes()| < U64
    ensures Carries([root], BytesIn(rows))
  {
    forall c | c in rows ensures HashesTo(c, BytesIn(rows)[c]) {
      assert StoreOf(rows)[c] == BlockOf(c);
    }
  }

  /** A download since a revision is everything its reader is missing: with the
      blocks of that revision it makes up the repository as it is now. */
  lemma ExportSinceCompletes(past: seq<Snap>, root: Option<Root>, rows: Rows, records: map<Key, Row>, i: nat)
    requires Told(past, root, rows, records) && i < |past|
    ensures rows.Keys <= past[i].keys + Eligible(rows, Some(past[i].root.rev), None)
  {
    SinceSuffices(past, root, rows, records, i);
  }
}
