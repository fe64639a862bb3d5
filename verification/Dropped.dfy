/** The lockstep comparison of two trees, and what it comes to. */
module Dropping {
  import opened Data
  import opened Keys
  import opened Tree
  import opened Codec
  import opened Nodes
  import opened Mst
  import opened Operations
  import opened Diff

  /** Two disjoint sets of CIDs, where adding to one what the other holds
      cancels both. */
  datatype Changes = Changes(added: set<Cid>, removed: set<Cid>) {
    function Add(c: Cid): Changes {
      if c in removed then Changes(added, removed - {c}) else Changes(added + {c}, removed)
    }

    function Remove(c: Cid): Changes {
      if c in added then Changes(added - {c}, removed) else Changes(added, removed + {c})
    }
  }

  /** The blocks one tree reaches, by kind, or those still ahead of a walk. */
  datatype Blocks = Blocks(nodes: set<Cid>, values: set<Cid>)

  ghost function BlocksOf(es: seq<Entry>): Blocks {
    Blocks(NodesOf(es), ValuesOf(es))
  }

  ghost function BlocksAhead(cs: seq<Cell>): Blocks {
    Blocks(NodesAhead(cs), ValuesAhead(cs))
  }

  /** What holds between two walks of `a` and `b` with `l` and `r` still ahead.
      A node is in the tally exactly while it is behind one walk and not the
      other; a record may be cancelled by a twin, but only by one in `b`. */
  ghost predicate Tally(a: Blocks, b: Blocks, l: Blocks, r: Blocks, d: Changes) {
    && (a.nodes + b.nodes) !! (a.values + b.values)
    && l.nodes <= a.nodes && l.values <= a.values && r.nodes <= b.nodes && r.values <= b.values
    && d.removed <= a.nodes + a.values && d.added <= b.nodes + b.values
    && (forall c :: c in a.nodes && c in b.nodes ==>
          && (c in d.removed <==> c !in l.nodes && c in r.nodes)
          && (c in d.added <==> c in l.nodes && c !in r.nodes))
    && (forall c :: c in a.nodes && c !in b.nodes ==> (c in d.removed <==> c !in l.nodes))
    && (forall c :: c in a.values && c !in b.values ==> c in d.removed || c in l.values)
  }

  /** One block passed by a walk. */
  ghost predicate Passed(l: Blocks, c: Cid, l': Blocks) {
    || (l.nodes == {c} + l'.nodes && c !in l'.nodes && l'.values == l.values)
    || (l.values == {c} + l'.values && l'.nodes == l.nodes)
  }

  lemma PassedLeft(a: Blocks, b: Blocks, l: Blocks, r: Blocks, d: Changes, c: Cid, l': Blocks)
    requires Tally(a, b, l, r, d) && Passed(l, c, l')
    ensures Tally(a, b, l', r, d.Remove(c))
  {
  }

  lemma PassedRight(a: Blocks, b: Blocks, l: Blocks, r: Blocks, d: Changes, c: Cid, r': Blocks)
    requires Tally(a, b, l, r, d) && Passed(r, c, r')
    ensures Tally(a, b, l, r', d.Add(c))
  {
  }

  /** The same blocks passed by both walks at once, unread. */
  lemma PassedBoth(a: Blocks, b: Blocks, l: Blocks, r: Blocks, d: Changes, same: Blocks, l': Blocks, r': Blocks)
    requires Tally(a, b, l, r, d)
    requires l.nodes == same.nodes + l'.nodes && same.nodes !! l'.nodes && l.values == same.values + l'.values
    requires r.nodes == same.nodes + r'.nodes && same.nodes !! r'.nodes && r.values == same.values + r'.values
    ensures Tally(a, b, l', r', d)
  {
  }

  /** Passes what a walker is on, and says what block it was. */
  method Take(w: Walker) returns (r: Result<Cid>)
    requires w.Valid() && w.Where().Some?
    modifies w, w.reader
    ensures old(w.reader.seen) <= w.reader.seen
    ensures r.Ok? ==> w.Valid() && Nearer(old(w.Unread()), old(w.Load()), w.Unread(), w.Load())
    ensures w.good ==>
              if r.Err? then Absent(r.error, w.within, w.reader.store)
              else Passed(old(BlocksAhead(w.Ahead())), r.value, BlocksAhead(w.Ahead()))
  {
    hide Clear, Shaped, FromTop, TopLoad, RestLoad, CellOk, CellPending, NodesAhead, ValuesAhead;
    r := w.Current();
    if r.Err? { return; }
    if w.good {
      w.Facing();
      Over(w.Ahead(), w.reader.store, w.reader.seen, w.within);
    }
    var error := w.Advance();
    if error.Some? { r := Err(error.value); }
  }

  /** What a cell under one CID holds is what any cell under it holds. */
  lemma SameCell(c: Cell, d: Cell)
    requires CellOk(c) && CellOk(d) && CellCid(c) == CellCid(d) && c.e.T? == d.e.T?
    ensures CellNodes(c) == CellNodes(d) && CellValues(c) == CellValues(d)
  {
    if c.e.T? {
      CidInjective(c.e.sub.entries, c.layer - 1, d.e.sub.entries, d.layer - 1);
    }
  }

  /** Two walkers that share nothing. */
  ghost predicate Apart(left: Walker, right: Walker) {
    left != right && left.reader != right.reader
  }

  /** Passes what both walkers are on, which is under one CID. */
  method Skip(left: Walker, right: Walker, ghost a: Blocks, ghost b: Blocks, ghost d: Changes)
    requires left.Valid() && right.Valid() && Apart(left, right)
    requires left.Where().Some? && left.Where() == right.Where()
    modifies left, right
    ensures left.Valid() && right.Valid()
    ensures left.Unread() == old(left.Unread()) && left.Load() < old(left.Load())
    ensures right.Unread() == old(right.Unread()) && right.Load() < old(right.Load())
    ensures old(Level(left, right, a, b, d)) && CellCid(old(left.Ahead())[0]) == CellCid(old(right.Ahead())[0]) ==>
              Level(left, right, a, b, d)
  {
    hide Tally, NodesAhead, ValuesAhead, Clear, CellNodes, CellValues, CellOk, CellPending, Shaped, FromTop, TopLoad,
         RestLoad;
    ghost var good := Level(left, right, a, b, d) && CellCid(left.Ahead()[0]) == CellCid(right.Ahead()[0]);
    ghost var x, y := left.Ahead(), right.Ahead();
    if good {
      left.Facing();
      right.Facing();
      SameCell(x[0], y[0]);
      Over(x, left.reader.store, left.reader.seen, left.within);
      Over(y, right.reader.store, right.reader.seen, right.within);
    }
    left.StepOver();
    right.StepOver();
    if good {
      PassedBoth(a, b, BlocksAhead(x), BlocksAhead(y), d, Blocks(CellNodes(x[0]), CellValues(x[0])),
                 BlocksAhead(left.Ahead()), BlocksAhead(right.Ahead()));
    }
  }

  /** Two walks of trees that stand for something, with the tally right. */
  ghost predicate Level(left: Walker, right: Walker, a: Blocks, b: Blocks, d: Changes)
    reads left, right, left.reader, right.reader
    requires left.Valid() && right.Valid()
  {
    left.good && right.good && Tally(a, b, BlocksAhead(left.Ahead()), BlocksAhead(right.Ahead()), d)
  }

  /** Whether either walk is nearer its end, and neither further from it. */
  ghost predicate Closer(lu: set<Cid>, ru: set<Cid>, load: nat, lu': set<Cid>, ru': set<Cid>, load': nat) {
    lu' < lu || (lu' == lu && (ru' < ru || (ru' == ru && load' < load)))
  }

  /** One turn of the loop. */
  method Turn(left: Walker, right: Walker, d: Changes, ghost a: Blocks, ghost b: Blocks) returns (r: Result<Changes>)
    requires left.Valid() && right.Valid() && Apart(left, right)
    requires left.Where().Some? || right.Where().Some?
    modifies left, right, left.reader, right.reader
    ensures r.Ok? ==>
              && left.Valid() && right.Valid()
              && Closer(old(left.Unread()), old(right.Unread()), old(left.Load() + right.Load()),
                        left.Unread(), right.Unread(), left.Load() + right.Load())
    ensures old(Level(left, right, a, b, d)) ==>
              if r.Ok? then Level(left, right, a, b, r.value)
              else Absent(r.error, left.within, left.reader.store) || Absent(r.error, right.within, right.reader.store)
  {
    hide Tally, Passed, NodesAhead, ValuesAhead, CellCid, CellOk, CellPending, Clear, Shaped, FromTop, TopLoad,
         RestLoad;
    var side := Choose(left, right);
    if side == Both {
      var x := left.Current();
      if x.Err? { return Err(x.error); }
      var y := right.Current();
      if y.Err? { return Err(y.error); }
      if x.value == y.value {
        Skip(left, right, a, b, d);
        return Ok(d);
      }
    }
    r := Pass(left, right, side, d, a, b);
  }

  /** Passes what one walker is on, or what each of them is on. */
  method Pass(left: Walker, right: Walker, side: Side, d: Changes, ghost a: Blocks, ghost b: Blocks)
    returns (r: Result<Changes>)
    requires left.Valid() && right.Valid() && Apart(left, right)
    requires (side != Right ==> left.Where().Some?) && (side != Left ==> right.Where().Some?)
    modifies left, right, left.reader, right.reader
    ensures r.Ok? ==>
              && left.Valid() && right.Valid()
              && Closer(old(left.Unread()), old(right.Unread()), old(left.Load() + right.Load()),
                        left.Unread(), right.Unread(), left.Load() + right.Load())
    ensures old(Level(left, right, a, b, d)) ==>
              if r.Ok? then Level(left, right, a, b, r.value)
              else Absent(r.error, left.within, left.reader.store) || Absent(r.error, right.within, right.reader.store)
  {
    hide Tally, Passed, NodesAhead, ValuesAhead, CellCid, CellOk, CellPending, Clear, Shaped, FromTop, TopLoad,
         RestLoad;
    ghost var good := Level(left, right, a, b, d);
    var d' := d;
    ghost var l, p := BlocksAhead(left.Ahead()), BlocksAhead(right.Ahead());
    if side != Right {
      var c := Take(left);
      if c.Err? { return Err(c.error); }
      if good { PassedLeft(a, b, l, p, d', c.value, BlocksAhead(left.Ahead())); }
      d' := d'.Remove(c.value);
    }
    l := BlocksAhead(left.Ahead());
    if side != Left {
      var c := Take(right);
      if c.Err? { return Err(c.error); }
      if good { PassedRight(a, b, l, p, d', c.value, BlocksAhead(right.Ahead())); }
      d' := d'.Add(c.value);
    }
    r := Ok(d');
  }

  /** Compares two trees. The walk ends on any store and any trees. Where both
      stand for something, every node in the answer is one the tree after does
      not reach, and any record in it that the tree after does reach is one it
      still holds; the only way not to answer is for a block to be missing. */
  method Dropped(store: Store, m: Mst, prev: Mst, ghost es: seq<Entry>, ghost before: seq<Entry>)
    returns (r: Result<set<Cid>>)
    ensures Stands(m, es, store) && Stands(prev, before, store)
            && (NodesOf(before) + NodesOf(es)) !! (ValuesOf(before) + ValuesOf(es)) ==>
              if r.Ok? then
                && NodesOf(before) - NodesOf(es) <= r.value && r.value !! NodesOf(es)
                && ValuesOf(before) - ValuesOf(es) <= r.value <= Reach(before)
              else
                r.error.MissingBlock? && r.error.cid !in store && r.error.cid in Pending(prev, before) + Pending(m, es)
  {
    hide Tally, NodesAhead, ValuesAhead, NodesOf, ValuesOf, Pending, Clear, Shaped, FromTop, TopLoad, RestLoad;
    ghost var a, b := BlocksOf(before), BlocksOf(es);
    ghost var good := && Stands(m, es, store) && Stands(prev, before, store)
                      && (a.nodes + b.nodes) !! (a.values + b.values);
    var d := Changes({}, {});
    var one := Walk(store, prev, before);
    if one.Err? { return Err(one.error); }
    var two := Walk(store, m, es);
    if two.Err? { return Err(two.error); }
    var left, right := one.value, two.value;
    if good { TallyStart(a, b); }
    while left.Where().Some? || right.Where().Some?
      invariant left.Valid() && right.Valid() && Apart(left, right)
      invariant fresh(left) && fresh(right) && fresh(left.reader) && fresh(right.reader)
      invariant good ==> Level(left, right, a, b, d)
      decreases left.Unread(), right.Unread(), left.Load() + right.Load()
    {
      var turn := Turn(left, right, d, a, b);
      if turn.Err? { return Err(turn.error); }
      d := turn.value;
    }
    if good { TallyEnd(before, es, d); }
    r := Ok(d.removed);
  }

  /** Which walker a turn moves on. */
  datatype Side = Left | Right | Both

  /** Decides the turn by kind, key and layer alone; all the tally needs of it
      is that a walker it moves is on something, and that both moved are on
      the same kind of thing. */
  method Choose(left: Walker, right: Walker) returns (side: Side)
    requires left.Valid() && right.Valid()
    requires left.Where().Some? || right.Where().Some?
    ensures side != Right ==> left.Where().Some?
    ensures side != Left ==> right.Where().Some?
    ensures side == Both ==> left.Where() == right.Where()
  {
    var here, there := left.Where(), right.Where();
    if there.None? { return Left; }
    if here.None? { return Right; }
    if here.value.OnLeaf? && there.value.OnLeaf? {
      var x, y := left.LeafKey(), right.LeafKey();
      if x == y { return Both; }
      return if Lt(x, y) then Left else Right;
    }
    if left.Layer() > right.Layer() {
      return if here.value.OnLeaf? then Right else Left;
    }
    if left.Layer() < right.Layer() {
      return if there.value.OnLeaf? then Left else Right;
    }
    if here.value.OnTree? && there.value.OnTree? { return Both; }
    return if here.value.OnTree? then Left else Right;
  }

  lemma TallyStart(a: Blocks, b: Blocks)
    requires (a.nodes + b.nodes) !! (a.values + b.values)
    ensures Tally(a, b, a, b, Changes({}, {}))
  {
  }

  lemma TallyEnd(before: seq<Entry>, es: seq<Entry>, d: Changes)
    requires Tally(BlocksOf(before), BlocksOf(es), BlocksAhead([]), BlocksAhead([]), d)
    ensures NodesOf(before) - NodesOf(es) <= d.removed && d.removed !! NodesOf(es)
    ensures ValuesOf(before) - ValuesOf(es) <= d.removed <= Reach(before)
  {
    assert NodesAhead([]) == {} && ValuesAhead([]) == {};
  }
}
