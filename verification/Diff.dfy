/** Two trees walked in step: the blocks the one before reached and the one
    after does not, found without reading what they share. */
module Diff {
  import opened Data
  import opened Keys
  import opened Tree
  import opened Codec
  import opened Nodes
  import opened Mst
  import opened Reading
  import opened Operations

  // ---- What is ahead of a walk ----

  /** An entry a walk has still to meet, as it is loaded and as it is, and the
      layer of the node it is in. */
  datatype Cell = Cell(me: MEntry, e: Entry, layer: nat)

  ghost function CellNodes(c: Cell): set<Cid> {
    if c.e.T? then NodesOf(c.e.sub.entries) else {}
  }

  ghost function CellValues(c: Cell): set<Cid> {
    if c.e.T? then ValuesOf(c.e.sub.entries) else {c.e.leaf.value}
  }

  ghost function CellPending(c: Cell): set<Cid> {
    if c.me.MT? && c.e.T? then Pending(c.me.sub, c.e.sub.entries) else {}
  }

  ghost function CellCid(c: Cell): Cid {
    if c.e.T? then CidOf(c.e.sub.entries) else c.e.leaf.value
  }

  ghost function NodesAhead(cs: seq<Cell>): set<Cid> {
    set i, c | 0 <= i < |cs| && c in CellNodes(cs[i]) :: c
  }

  ghost function ValuesAhead(cs: seq<Cell>): set<Cid> {
    set i, c | 0 <= i < |cs| && c in CellValues(cs[i]) :: c
  }

  ghost predicate CellOk(c: Cell) {
    && RepEntry(c.me, c.e, c.layer)
    && (c.e.T? ==> c.layer > 0 && Proper(c.e.sub.entries, c.layer - 1))
    && (c.e.T? && c.e.sub.entries == [] ==> c.me.sub.layer == Some(c.layer - 1))
  }

  /** Everything ahead is loaded or within what is still to be read, and no
      node is ahead twice. */
  ghost predicate Clear(cs: seq<Cell>, store: Store, seen: set<Cid>, within: set<Cid>) {
    && (forall i :: 0 <= i < |cs| ==> CellOk(cs[i]))
    && (forall i :: 0 <= i < |cs| ==> Fresh(CellPending(cs[i]), store, seen) && CellPending(cs[i]) <= within)
    && (forall i, j :: 0 <= i < j < |cs| ==> CellNodes(cs[i]) !! CellNodes(cs[j]))
  }

  ghost function CellsOf(ms: seq<MEntry>, es: seq<Entry>, n: nat): (cs: seq<Cell>)
    requires |ms| == |es|
    ensures |cs| == |es|
  {
    seq(|es|, i requires 0 <= i < |es| => Cell(ms[i], es[i], n))
  }

  // ---- Stepping ----

  /** Passing the first entry over. */
  lemma Over(cs: seq<Cell>, store: Store, seen: set<Cid>, within: set<Cid>)
    requires cs != [] && Clear(cs, store, seen, within)
    ensures Clear(cs[1..], store, seen, within)
    ensures NodesAhead(cs) == CellNodes(cs[0]) + NodesAhead(cs[1..])
    ensures CellNodes(cs[0]) !! NodesAhead(cs[1..])
    ensures ValuesAhead(cs) == CellValues(cs[0]) + ValuesAhead(cs[1..])
  {
    hide CellOk, CellPending, CellNodes, CellValues;
    var t := cs[1..];
    assert forall i :: 0 <= i < |t| ==> t[i] == cs[i + 1];
    forall c | c in NodesAhead(cs) ensures c in CellNodes(cs[0]) + NodesAhead(t) {
      var i :| 0 <= i < |cs| && c in CellNodes(cs[i]);
      if i > 0 { assert c in CellNodes(t[i - 1]); }
    }
    forall c | c in NodesAhead(t) ensures c in NodesAhead(cs) && c !in CellNodes(cs[0]) {
      var i :| 0 <= i < |t| && c in CellNodes(t[i]);
      assert t[i] == cs[i + 1];
    }
    forall c | c in ValuesAhead(cs) ensures c in CellValues(cs[0]) + ValuesAhead(t) {
      var i :| 0 <= i < |cs| && c in CellValues(cs[i]);
      if i > 0 { assert c in CellValues(t[i - 1]); }
    }
    forall c | c in ValuesAhead(t) ensures c in ValuesAhead(cs) {
      var i :| 0 <= i < |t| && c in CellValues(t[i]);
      assert t[i] == cs[i + 1];
    }
  }

  ghost function ValuesIn(s: seq<Leaf>): set<Cid> {
    set i | 0 <= i < |s| :: s[i].value
  }

  lemma ValuesConcat(a: seq<Leaf>, b: seq<Leaf>)
    ensures ValuesIn(a + b) == ValuesIn(a) + ValuesIn(b)
  {
    var s := a + b;
    forall i | 0 <= i < |s| ensures s[i].value in ValuesIn(a) + ValuesIn(b) {
      if i < |a| { assert s[i] == a[i]; } else { assert s[i] == b[i - |a|]; }
    }
    forall i | 0 <= i < |a| ensures a[i].value in ValuesIn(s) { assert s[i] == a[i]; }
    forall i | 0 <= i < |b| ensures b[i].value in ValuesIn(s) { assert s[|a| + i] == b[i]; }
  }

  lemma AheadConcat(a: seq<Cell>, b: seq<Cell>)
    ensures NodesAhead(a + b) == NodesAhead(a) + NodesAhead(b)
    ensures ValuesAhead(a + b) == ValuesAhead(a) + ValuesAhead(b)
  {
    hide CellNodes, CellValues;
    var s := a + b;
    assert forall i :: 0 <= i < |a| ==> s[i] == a[i];
    assert forall i :: 0 <= i < |b| ==> s[|a| + i] == b[i];
    forall i, c | 0 <= i < |s| ensures c in CellNodes(s[i]) ==> c in NodesAhead(a) + NodesAhead(b) {
      assert s[i] == if i < |a| then a[i] else b[i - |a|];
    }
    forall i, c | 0 <= i < |s| ensures c in CellValues(s[i]) ==> c in ValuesAhead(a) + ValuesAhead(b) {
      assert s[i] == if i < |a| then a[i] else b[i - |a|];
    }
    forall i, c | 0 <= i < |b| ensures c in CellNodes(b[i]) ==> c in NodesAhead(s) {
      assert s[|a| + i] == b[i];
    }
    forall i, c | 0 <= i < |b| ensures c in CellValues(b[i]) ==> c in ValuesAhead(s) {
      assert s[|a| + i] == b[i];
    }
  }

  lemma {:induction false} CellsHold(ms: seq<MEntry>, es: seq<Entry>, n: nat)
    requires |ms| == |es|
    ensures NodesAhead(CellsOf(ms, es, n)) == NodesUnder(es)
    ensures ValuesAhead(CellsOf(ms, es, n)) == ValuesIn(Leaves(es))
  {
    var cs := CellsOf(ms, es, n);
    assert NodesAhead(cs) == NodesUnder(es) by {
      forall i, c | 0 <= i < |es| && es[i].T? && c in NodesOf(es[i].sub.entries) ensures c in NodesAhead(cs) {
        assert c in CellNodes(cs[i]);
      }
    }
    if es != [] {
      CellsHold(ms[1..], es[1..], n);
      var t := CellsOf(ms[1..], es[1..], n);
      assert cs == [cs[0]] + t;
      AheadConcat([cs[0]], t);
      ValuesConcat(EntryLeaves(es[0]), Leaves(es[1..]));
      assert ValuesAhead([cs[0]]) == ValuesIn(EntryLeaves(es[0])) by {
        assert [cs[0]][0].e == es[0];
        if es[0].L? { assert EntryLeaves(es[0]) == [es[0].leaf]; assert [es[0].leaf][0] == es[0].leaf; }
        OneAhead(cs[0]);
      }
    }
  }

  lemma OneAhead(c: Cell)
    ensures ValuesAhead([c]) == CellValues(c)
  {
    assert [c][0] == c;
  }

  lemma ChildrenClear(ms: seq<MEntry>, es: seq<Entry>, n: nat, store: Store, seen: set<Cid>, within: set<Cid>)
    requires RepAll(ms, es, n) && Proper(es, n)
    requires Fresh(PendingAll(ms, es), store, seen) && PendingAll(ms, es) <= within
    ensures Clear(CellsOf(ms, es, n), store, seen, within)
  {
    var cs := CellsOf(ms, es, n);
    forall i | 0 <= i < |cs|
      ensures CellOk(cs[i]) && Fresh(CellPending(cs[i]), store, seen) && CellPending(cs[i]) <= within
    {
      assert RepEntry(ms[i], es[i], n);
      if es[i].T? { SubProper(es, n, i); ChildPending(ms, es, i); }
    }
    forall i, j | 0 <= i < j < |cs| ensures CellNodes(cs[i]) !! CellNodes(cs[j]) {
      if es[i].T? && es[j].T? { SiblingsApart(es, n, i, j); }
    }
  }

  lemma ClearConcat(a: seq<Cell>, b: seq<Cell>, store: Store, seen: set<Cid>, within: set<Cid>)
    requires Clear(a, store, seen, within) && Clear(b, store, seen, within) && NodesAhead(a) !! NodesAhead(b)
    ensures Clear(a + b, store, seen, within)
  {
    hide CellOk, CellPending, CellNodes;
    var s := a + b;
    forall i | 0 <= i < |s|
      ensures CellOk(s[i]) && Fresh(CellPending(s[i]), store, seen) && CellPending(s[i]) <= within
    {
      assert s[i] == if i < |a| then a[i] else b[i - |a|];
    }
    forall i, j | 0 <= i < j < |s| ensures CellNodes(s[i]) !! CellNodes(s[j]) {
      assert s[i] == if i < |a| then a[i] else b[i - |a|];
      assert s[j] == if j < |a| then a[j] else b[j - |a|];
      if i < |a| <= j {
        assert CellNodes(a[i]) <= NodesAhead(a) && CellNodes(b[j - |a|]) <= NodesAhead(b);
      }
    }
  }

  /** What is ahead stays clear when something elsewhere is read. */
  lemma StillClear(cs: seq<Cell>, store: Store, seen: set<Cid>, seen': set<Cid>, within: set<Cid>, other: set<Cid>)
    requires Clear(cs, store, seen, within) && seen' <= seen + other && NodesAhead(cs) !! other
    ensures Clear(cs, store, seen', within)
  {
    forall i | 0 <= i < |cs| ensures Fresh(CellPending(cs[i]), store, seen') {
      assert CellNodes(cs[i]) <= NodesAhead(cs);
      if cs[i].me.MT? && cs[i].e.T? { PendingIsUnder(cs[i].me.sub, cs[i].e.sub.entries); }
    }
  }

  lemma FirstClear(cs: seq<Cell>, store: Store, seen: set<Cid>, within: set<Cid>)
    requires cs != [] && Clear(cs, store, seen, within)
    ensures CellOk(cs[0]) && Fresh(CellPending(cs[0]), store, seen) && CellPending(cs[0]) <= within
  {
  }

  /** A subtree as a cell. */
  lemma FirstIs(c: Cell)
    requires CellOk(c) && c.e.T?
    ensures c.layer > 0 && Proper(c.e.sub.entries, c.layer - 1)
    ensures CellPending(c) <= NodesOf(c.e.sub.entries) == CellNodes(c)
    ensures CellValues(c) == ValuesIn(Leaves(c.e.sub.entries))
  {
    hide Proper, RepEntry;
    if c.me.MT? { PendingIsUnder(c.me.sub, c.e.sub.entries); }
  }

  /** Stepping into the first entry, a subtree: its own block is behind, and
      what it holds is ahead in its place. */
  lemma Into(cs: seq<Cell>, ms: seq<MEntry>, store: Store, seen: set<Cid>, seen': set<Cid>, within: set<Cid>)
    requires cs != [] && cs[0].e.T? && Clear(cs, store, seen, within) && cs[0].layer > 0
    requires RepAll(ms, cs[0].e.sub.entries, cs[0].layer - 1)
    requires PendingAll(ms, cs[0].e.sub.entries) <= CellPending(cs[0])
    requires PendingAll(ms, cs[0].e.sub.entries) !! seen' && seen <= seen' <= seen + CellPending(cs[0])
    ensures |ms| == |cs[0].e.sub.entries|
    ensures var es := cs[0].e.sub.entries; var cs' := CellsOf(ms, es, cs[0].layer - 1) + cs[1..];
            && Clear(cs', store, seen', within)
            && NodesAhead(cs) == {CidOf(es)} + NodesAhead(cs') && CidOf(es) !in NodesAhead(cs')
            && ValuesAhead(cs) == ValuesAhead(cs')
  {
    hide CellOk, CellPending, CellNodes, CellValues, RepAll, Clear, NodesAhead, ValuesAhead, Proper, PendingAll;
    var es, n, t := cs[0].e.sub.entries, cs[0].layer - 1, cs[1..];
    SameKinds(ms, es, n);
    var mine := CellsOf(ms, es, n);
    FirstClear(cs, store, seen, within);
    FirstIs(cs[0]);
    NotUnderItself(es, n);
    Over(cs, store, seen, within);
    ChildrenClear(ms, es, n, store, seen', within);
    CellsHold(ms, es, n);
    StillClear(t, store, seen, seen', within, NodesOf(es));
    ClearConcat(mine, t, store, seen', within);
    AheadConcat(mine, t);
  }

  // ---- The walk ----

  /** What a walker is on. */
  datatype At = OnLeaf | OnTree

  /** A frame of the walk: an open node's entries, the position in them, and
      the node's layer. */
  datatype Level = Level(entries: seq<MEntry>, index: nat, layer: nat)

  /** Which of three states a walk is in. */
  datatype Cursor = OnRoot(root: Mst) | Inside | Done

  ghost function LevelCells(level: Level, es: seq<Entry>, from: nat): seq<Cell> {
    if |level.entries| == |es| && from <= |es| then CellsOf(level.entries, es, level.layer)[from..] else []
  }

  /** What is ahead once the entry under the cursor of each level is past. */
  ghost function Rest(stack: seq<Level>, nodes: seq<seq<Entry>>): seq<Cell>
    requires |stack| == |nodes|
  {
    if stack == [] then []
    else
      var top := |stack| - 1;
      LevelCells(stack[top], nodes[top], stack[top].index + 1) + Rest(stack[..top], nodes[..top])
  }

  ghost function FromTop(stack: seq<Level>, nodes: seq<seq<Entry>>): seq<Cell>
    requires |stack| == |nodes| && stack != []
  {
    var top := |stack| - 1;
    LevelCells(stack[top], nodes[top], stack[top].index) + Rest(stack[..top], nodes[..top])
  }

  /** Each level stands for a node one layer below the level it is in. */
  ghost predicate Shaped(stack: seq<Level>, nodes: seq<seq<Entry>>, above: nat) {
    && |stack| == |nodes| && above <= MAX_LAYER + 1
    && (forall k :: 0 <= k < |stack| ==> |stack[k].entries| == |nodes[k]| && stack[k].layer + k + 1 == above)
  }

  ghost predicate OnEntry(stack: seq<Level>) {
    stack != [] ==> stack[|stack| - 1].index < |stack[|stack| - 1].entries|
  }

  lemma FromTopRest(stack: seq<Level>, nodes: seq<seq<Entry>>, above: nat)
    requires Shaped(stack, nodes, above) && stack != [] && OnEntry(stack)
    ensures var top := |stack| - 1; var i := stack[top].index;
            && FromTop(stack, nodes) != []
            && FromTop(stack, nodes)[0] == Cell(stack[top].entries[i], nodes[top][i], stack[top].layer)
            && FromTop(stack, nodes)[1..] == Rest(stack, nodes)
  {
    hide Rest;
    var top := |stack| - 1;
    var i, cells := stack[top].index, CellsOf(stack[top].entries, nodes[top], stack[top].layer);
    RestIs(stack, nodes);
    FirstOf(cells, i, Rest(stack[..top], nodes[..top]));
  }

  lemma RestIs(stack: seq<Level>, nodes: seq<seq<Entry>>)
    requires |stack| == |nodes| && stack != []
    ensures var top := |stack| - 1;
            Rest(stack, nodes) ==
            LevelCells(stack[top], nodes[top], stack[top].index + 1) + Rest(stack[..top], nodes[..top])
  {
  }

  lemma FirstOf(cells: seq<Cell>, i: nat, rest: seq<Cell>)
    requires i < |cells|
    ensures cells[i..] + rest != [] && (cells[i..] + rest)[0] == cells[i]
    ensures (cells[i..] + rest)[1..] == cells[i + 1..] + rest
  {
  }

  // ---- How much of a walk is loaded ----

  /** The loaded structure of one level from an entry on. */
  ghost function LevelLoad(level: Level, from: nat): nat {
    if from <= |level.entries| then SizeAll(level.entries[from..]) else 0
  }

  ghost function RestLoad(stack: seq<Level>): nat {
    if stack == [] then 0
    else
      var top := |stack| - 1;
      LevelLoad(stack[top], stack[top].index + 1) + RestLoad(stack[..top])
  }

  ghost function TopLoad(stack: seq<Level>): nat
    requires stack != []
  {
    var top := |stack| - 1;
    LevelLoad(stack[top], stack[top].index) + RestLoad(stack[..top])
  }

  /** The entry under the cursor is some of what is loaded ahead of it. */
  lemma LoadUnder(stack: seq<Level>)
    requires stack != [] && OnEntry(stack)
    ensures var level := stack[|stack| - 1];
            TopLoad(stack) == 1 + SizeOf(level.entries[level.index]) + RestLoad(stack)
  {
    hide RestLoad;
    RestLoadIs(stack);
    var level := stack[|stack| - 1];
    var ms := level.entries[level.index..];
    assert ms[0] == level.entries[level.index] && ms[1..] == level.entries[level.index + 1..];
  }

  lemma RestLoadIs(stack: seq<Level>)
    ensures RestLoad([]) == 0
    ensures stack != [] ==>
              var top := |stack| - 1;
              RestLoad(stack) == LevelLoad(stack[top], stack[top].index + 1) + RestLoad(stack[..top])
  {
  }

  lemma LoadBumped(stack: seq<Level>)
    requires stack != []
    ensures var top := |stack| - 1; var stack' := stack[top := stack[top].(index := stack[top].index + 1)];
            TopLoad(stack') == RestLoad(stack)
  {
    hide RestLoad;
    var top := |stack| - 1;
    RestLoadIs(stack);
    assert stack[top := stack[top].(index := stack[top].index + 1)][..top] == stack[..top];
  }

  lemma LoadPopped(stack: seq<Level>)
    requires stack != [] && stack[|stack| - 1].index + 1 >= |stack[|stack| - 1].entries|
    ensures RestLoad(stack[..|stack| - 1]) == RestLoad(stack)
  {
    hide RestLoad;
    RestLoadIs(stack);
    var level := stack[|stack| - 1];
    if level.index + 1 <= |level.entries| { assert level.entries[level.index + 1..] == []; }
  }

  lemma LoadPushed(stack: seq<Level>, level: Level)
    requires level.index == 0
    ensures TopLoad(stack + [level]) == SizeAll(level.entries) + RestLoad(stack)
    ensures level.entries == [] ==> RestLoad(stack + [level]) == RestLoad(stack)
  {
    hide RestLoad;
    var s := stack + [level];
    assert s[..|stack|] == stack && level.entries[0..] == level.entries;
    if level.entries == [] { LoadPopped(s); }
  }

  /** Moves the top of a stack on, and up past every level that ends there. */
  method Climb(stack: seq<Level>, ghost nodes: seq<seq<Entry>>, ghost above: nat)
    returns (stack': seq<Level>, ghost nodes': seq<seq<Entry>>)
    requires |stack| == |nodes|
    ensures |stack'| == |nodes'| <= |nodes| && OnEntry(stack')
    ensures stack' != [] ==> TopLoad(stack') == RestLoad(stack)
    ensures Shaped(stack, nodes, above) ==>
              && Shaped(stack', nodes', above)
              && if stack' == [] then Rest(stack, nodes) == [] else FromTop(stack', nodes') == Rest(stack, nodes)
  {
    stack', nodes' := stack, nodes;
    ghost var good := Shaped(stack, nodes, above);
    hide Rest, FromTop, LevelCells, Shaped, RestLoad, TopLoad;
    while stack' != []
      invariant |stack'| == |nodes'| <= |nodes| && RestLoad(stack') == RestLoad(stack)
      invariant good ==> Shaped(stack', nodes', above) && Rest(stack', nodes') == Rest(stack, nodes)
      decreases |stack'|
    {
      var top := |stack'| - 1;
      var level := stack'[top].(index := stack'[top].index + 1);
      if level.index < |level.entries| {
        if good { Bumped(stack', nodes', above); }
        LoadBumped(stack');
        stack' := stack'[top := level];
        return;
      }
      if good { Popped(stack', nodes', above); }
      LoadPopped(stack');
      stack', nodes' := stack'[..top], nodes'[..top];
    }
    NothingLeft();
  }

  lemma NoCells(ms: seq<MEntry>, es: seq<Entry>, n: nat, rest: seq<Cell>)
    requires |ms| == |es| == 0
    ensures CellsOf(ms, es, n) + rest == rest
  {
  }

  lemma NothingLeft()
    ensures Rest([], []) == []
  {
  }

  lemma Bumped(stack: seq<Level>, nodes: seq<seq<Entry>>, above: nat)
    requires Shaped(stack, nodes, above) && stack != []
    requires stack[|stack| - 1].index + 1 < |stack[|stack| - 1].entries|
    ensures var top := |stack| - 1; var stack' := stack[top := stack[top].(index := stack[top].index + 1)];
            Shaped(stack', nodes, above) && FromTop(stack', nodes) == Rest(stack, nodes)
  {
    var top := |stack| - 1;
    var stack' := stack[top := stack[top].(index := stack[top].index + 1)];
    assert stack'[..top] == stack[..top];
    hide CellsOf;
  }

  lemma Popped(stack: seq<Level>, nodes: seq<seq<Entry>>, above: nat)
    requires Shaped(stack, nodes, above) && stack != []
    requires stack[|stack| - 1].index + 1 >= |stack[|stack| - 1].entries|
    ensures var top := |stack| - 1;
            Shaped(stack[..top], nodes[..top], above) && Rest(stack[..top], nodes[..top]) == Rest(stack, nodes)
  {
    var top := |stack| - 1;
    assert LevelCells(stack[top], nodes[top], stack[top].index + 1) == [];
    hide CellsOf, LevelCells;
  }

  /** A level put on top of a stack. */
  lemma Pushed(stack: seq<Level>, nodes: seq<seq<Entry>>, above: nat, level: Level, es: seq<Entry>)
    requires Shaped(stack, nodes, above) && |level.entries| == |es| && level.index == 0
    requires level.layer + |stack| + 1 == above
    ensures Shaped(stack + [level], nodes + [es], above)
    ensures FromTop(stack + [level], nodes + [es]) == CellsOf(level.entries, es, level.layer) + Rest(stack, nodes)
    ensures es == [] ==> Rest(stack + [level], nodes + [es]) == Rest(stack, nodes)
  {
    var s, t := stack + [level], nodes + [es];
    assert s[..|stack|] == stack && t[..|stack|] == nodes && s[|stack|] == level && t[|stack|] == es;
    hide Shaped;
    LevelStarts(level, es);
    hide CellsOf, LevelCells;
  }

  lemma LevelStarts(level: Level, es: seq<Entry>)
    requires |level.entries| == |es| && level.index == 0
    ensures LevelCells(level, es, 0) == CellsOf(level.entries, es, level.layer)
    ensures es == [] ==> LevelCells(level, es, 1) == []
  {
  }

  /** A node opened to be walked. Whatever it is, opening it reads a block that
      had not been read or finds no more than was loaded. */
  method LevelOf(node: Mst, rd: Reader, ghost c: Cell, ghost within: set<Cid>) returns (r: Result<Level>)
    modifies rd
    ensures old(rd.seen) <= rd.seen
    ensures r.Ok? ==>
              && r.value.index == 0
              && (Spent(rd.store, old(rd.seen), rd.seen) || SizeAll(r.value.entries) <= Size(node))
    ensures Opens(c, node, rd.store, old(rd.seen), within) ==>
              if r.Err? then Absent(r.error, within, rd.store)
              else
                && r.value.layer + 1 == c.layer
                && RepAll(r.value.entries, c.e.sub.entries, c.layer - 1)
                && PendingAll(r.value.entries, c.e.sub.entries) <= CellPending(c)
                && PendingAll(r.value.entries, c.e.sub.entries) !! rd.seen
                && old(rd.seen) <= rd.seen <= old(rd.seen) + CellPending(c)
  {
    hide Proper, CidOf, RepAll, PendingAll, NodesOf;
    ghost var good := Opens(c, node, rd.store, rd.seen, within);
    ghost var es, n := if c.e.T? then c.e.sub.entries else [], if c.layer > 0 then c.layer - 1 else 0;
    if good { assert Legible(node, es, n, rd.store, rd.seen); }
    var named, layer := LayerIn(node, rd, 0, es, n);
    if layer.Err? { return Err(layer.error); }
    var full, o := Fill(named, rd, es, n);
    if o.Err? {
      if good { UnreadPending(named, es); }
      return Err(o.error);
    }
    r := Ok(Level(full.entries.list, 0, layer.value));
  }

  /** A cell under a cursor whose node can be opened. */
  ghost predicate Opens(c: Cell, node: Mst, store: Store, seen: set<Cid>, within: set<Cid>) {
    && c.e.T? && c.me == MT(node) && CellOk(c) && c.layer <= MAX_LAYER + 1
    && Fresh(CellPending(c), store, seen) && CellPending(c) <= within
  }

  /** A step brought a walk nearer its end: it read a block, or what is loaded
      ahead of it is less. */
  ghost predicate Nearer(unread: set<Cid>, load: nat, unread': set<Cid>, load': nat) {
    unread' < unread || (unread' == unread && load' < load)
  }

  /** A cursor over one tree. It can pass a subtree unread or go down into it,
      and has a reader to itself, since two trees walked side by side may well
      hold the same node. */
  class Walker {
    const reader: Reader
    var stack: seq<Level>
    var cursor: Cursor
    /** One more than the layer of the root's own entries. */
    const above: nat
    ghost var nodes: seq<seq<Entry>>
    ghost const whole: seq<Entry>
    /** Whether the tree walked stood for some entries, and what of it was to
        be read. Any other walk ends too, and promises nothing else. */
    ghost const good: bool
    ghost const within: set<Cid>

    ghost function Ahead(): seq<Cell>
      reads this
      requires |stack| == |nodes|
    {
      match cursor
      case OnRoot(m) => [Cell(MT(m), T(Node(whole)), above)]
      case Inside => if stack == [] then [] else FromTop(stack, nodes)
      case Done => []
    }

    ghost function Unread(): set<Cid>
      reads this, reader
    {
      reader.store.Keys - reader.seen
    }

    ghost function Load(): nat
      reads this
    {
      match cursor
      case OnRoot(m) => 1 + Size(m)
      case Inside => if stack == [] then 0 else TopLoad(stack)
      case Done => 0
    }

    ghost predicate Valid()
      reads this, reader
    {
      && |stack| == |nodes| && OnEntry(stack) && (cursor.Inside? <==> stack != [])
      && (good ==> Shaped(stack, nodes, above) && Clear(Ahead(), reader.store, reader.seen, within))
    }

    constructor (rd: Reader, root: Mst, layer: nat, ghost es: seq<Entry>, ghost within: set<Cid>, ghost good: bool)
      requires good ==>
                 && layer <= MAX_LAYER && Opens(Cell(MT(root), T(Node(es)), layer + 1), root, rd.store, rd.seen, within)
      ensures Valid() && reader == rd && this.good == good && this.within == within && cursor.OnRoot?
      ensures good ==> NodesAhead(Ahead()) == NodesOf(es) && ValuesAhead(Ahead()) == ValuesOf(es)
    {
      reader, above := rd, layer + 1;
      stack, cursor := [], OnRoot(root);
      nodes, whole, this.good, this.within := [], es, good, within;
      new;
      ghost var c := Cell(MT(root), T(Node(es)), above);
      assert Ahead() == [c];
      if good { OneCell(c, rd.store, rd.seen, within); }
    }

    /** What the cursor is on, if the walk is not over. */
    function Where(): (at: Option<At>)
      reads this, reader
      requires Valid()
      ensures at.None? <==> cursor.Done?
      ensures good ==> (at.None? <==> Ahead() == []) && (at.Some? ==> (at.value.OnLeaf? <==> Ahead()[0].e.L?))
    {
      assert good ==> Faces();
      if cursor.Inside? then
        var level := stack[|stack| - 1];
        if level.entries[level.index].ML? then Some(OnLeaf) else Some(OnTree)
      else if cursor.OnRoot? then Some(OnTree)
      else None
    }

    /** What is under the cursor is the first of what is ahead. */
    ghost predicate Faces()
      reads this, reader
      requires Valid() && good
      ensures Faces()
    {
      if stack != [] then
        FromTopRest(stack, nodes, above);
        FirstClear(Ahead(), reader.store, reader.seen, within);
        var level := stack[|stack| - 1];
        && Ahead() != [] && Ahead()[0].me == level.entries[level.index] && Ahead()[0].layer == level.layer
        && CellOk(Ahead()[0])
      else true
    }

    /** The key the cursor is on, when it is on a leaf. */
    function LeafKey(): (key: Key)
      reads this, reader
      requires Valid() && Where() == Some(OnLeaf)
      ensures good ==> key == Ahead()[0].e.leaf.key
    {
      assert good ==> Faces();
      stack[|stack| - 1].entries[stack[|stack| - 1].index].leaf.key
    }

    /** The layer of the node the cursor is in. */
    function Layer(): (layer: nat)
      reads this, reader
      requires Valid()
      ensures good && Ahead() != [] ==> layer == Ahead()[0].layer
    {
      assert good ==> Faces();
      if stack == [] then above else stack[|stack| - 1].layer
    }

    /** The node the cursor is on, when it is on a subtree. */
    function Subtree(): (m: Mst)
      reads this, reader
      requires Valid() && Where() == Some(OnTree)
      ensures good ==> Ahead()[0].me == MT(m)
      ensures cursor.OnRoot? ==> m == cursor.root
      ensures cursor.Inside? ==> stack[|stack| - 1].entries[stack[|stack| - 1].index] == MT(m)
    {
      assert good ==> Faces();
      if cursor.OnRoot? then cursor.root else stack[|stack| - 1].entries[stack[|stack| - 1].index].sub
    }

    /** The CID under the cursor. */
    method Current() returns (r: Result<Cid>)
      requires Valid()
      ensures Where().None? ==> r.Err?
      ensures good && Where().Some? ==> r == Ok(CellCid(Ahead()[0]))
    {
      hide Shaped, FromTop, Clear;
      if Where().None? { return Err(MalformedNode("a walk past its last entry")); }
      ghost var c := if good then Ahead()[0] else Cell(MT(Empty()), T(Node([])), 1);
      if good { Facing(); }
      if Where() == Some(OnLeaf) {
        assert good ==> Faces();
        var level := stack[|stack| - 1];
        r := Ok(level.entries[level.index].leaf.value);
      } else {
        var _, cid := RootIn(Subtree(), 0, if c.e.T? then c.e.sub.entries else [],
                             if c.layer > 0 then c.layer - 1 else 0);
        r := cid;
      }
    }

    /** The entry under the cursor, and what is ahead of it. */
    lemma Facing()
      requires Valid() && good && Ahead() != []
      ensures Shaped(stack, nodes, above) && Ahead()[1..] == Rest(stack, nodes)
      ensures Ahead()[0].layer + |stack| == above <= MAX_LAYER + 1
      ensures CellOk(Ahead()[0])
      ensures Fresh(CellPending(Ahead()[0]), reader.store, reader.seen)
      ensures CellPending(Ahead()[0]) <= within
    {
      if stack != [] { FromTopRest(stack, nodes, above); }
    }

    /** Passes what the cursor is on, whole. */
    method StepOver()
      requires Valid()
      modifies this
      ensures Valid() && Unread() == old(Unread())
      ensures old(cursor).Done? ==> cursor.Done?
      ensures !old(cursor).Done? ==> Load() < old(Load())
      ensures good && old(Ahead()) != [] ==> Ahead() == old(Ahead())[1..]
    {
      hide Clear, Shaped, FromTop, Rest, TopLoad, RestLoad, Faces, CellOk, CellPending, CellNodes, CellValues,
           NodesAhead, ValuesAhead, SizeOf;
      if cursor.Done? { return; }
      ghost var before := Ahead();
      if good {
        assert Where().Some?;
        Facing();
        Over(before, reader.store, reader.seen, within);
      }
      if cursor.OnRoot? {
        cursor := Done;
      } else {
        LoadUnder(stack);
        ghost var up;
        stack, up := Climb(stack, nodes, above);
        nodes := up;
        cursor := if stack == [] then Done else Inside;
      }
      assert good ==> Ahead() == before[1..];
    }

    /** Opens the subtree under the cursor, in place of passing it. */
    method StepInto() returns (error: Option<Error>)
      requires Valid()
      modifies this, reader
      ensures reader.seen >= old(reader.seen)
      ensures error.None? && !old(cursor).Done? ==>
                Valid() && Nearer(old(Unread()), old(Load()), Unread(), Load())
      ensures old(Where()) == Some(OnLeaf) ==> error.Some?
      ensures |old(stack)| >= 256 ==> error == Some(TOO_DEEP) && reader.seen == old(reader.seen)
      ensures good && old(Where()) == Some(OnTree) ==>
                if error.Some? then Absent(error.value, within, reader.store)
                else
                  var es := old(Ahead())[0].e.sub.entries;
                  && old(NodesAhead(Ahead())) == {CidOf(es)} + NodesAhead(Ahead())
                  && CidOf(es) !in NodesAhead(Ahead())
                  && ValuesAhead(Ahead()) == old(ValuesAhead(Ahead()))
    {
      hide Clear, CellOk, CellPending, RepAll, PendingAll, Shaped, FromTop, Rest, CellsOf, NodesAhead, ValuesAhead,
           TopLoad, RestLoad;
      if |stack| >= MAX_DEPTH {
        if good { ShapedDepth(stack, nodes, above); }
        return Some(TOO_DEEP);
      }
      if cursor.Done? { return None; }
      if Where() == Some(OnLeaf) { return Some(MalformedNode("a walk stepping into a leaf")); }
      ghost var before := Ahead();
      ghost var c := if good then before[0] else Cell(MT(Empty()), T(Node([])), 1);
      ghost var seen := reader.seen;
      if good { Facing(); }
      var node := Subtree();
      if cursor.Inside? { LoadUnder(stack); }
      RestLoadIs(stack);
      var level := LevelOf(node, reader, c, within);
      if level.Err? { return Some(level.error); }
      if good { Into(before, level.value.entries, reader.store, seen, reader.seen, within); }
      Descend(level.value, if good then c.e.sub.entries else []);
      error := None;
    }

    /** Puts a node on the stack, and moves on at once where it holds nothing. */
    method Descend(level: Level, ghost es: seq<Entry>)
      requires |stack| == |nodes| && level.index == 0
      modifies this
      ensures |stack| == |nodes| && OnEntry(stack) && (cursor.Inside? <==> stack != [])
      ensures Load() <= SizeAll(level.entries) + old(RestLoad(stack))
      ensures old(Shaped(stack, nodes, above)) && |level.entries| == |es| && level.layer + old(|stack|) + 1 == above ==>
                && Shaped(stack, nodes, above)
                && Ahead() == CellsOf(level.entries, es, level.layer) + old(Rest(stack, nodes))
    {
      hide Shaped, FromTop, Rest, CellsOf, Clear, TopLoad, RestLoad;
      ghost var fits := Shaped(stack, nodes, above) && |level.entries| == |es| && level.layer + |stack| + 1 == above;
      ghost var rest := Rest(stack, nodes);
      if fits { Pushed(stack, nodes, above, level, es); }
      LoadPushed(stack, level);
      stack, nodes, cursor := stack + [level], nodes + [es], Inside;
      if level.entries == [] {
        if fits { NoCells(level.entries, es, level.layer, rest); }
        ghost var up;
        stack, up := Climb(stack, nodes, above);
        nodes := up;
        cursor := if stack == [] then Done else Inside;
      }
    }

    /** Moves on by one block: past a leaf, or into a subtree. */
    method Advance() returns (error: Option<Error>)
      requires Valid() && Where().Some?
      modifies this, reader
      ensures reader.seen >= old(reader.seen)
      ensures error.None? ==> Valid() && Nearer(old(Unread()), old(Load()), Unread(), Load())
      ensures good && error.Some? ==> Absent(error.value, within, reader.store)
      ensures good && error.None? && old(Ahead())[0].e.L? ==> Ahead() == old(Ahead())[1..]
      ensures good && error.None? && old(Ahead())[0].e.T? ==>
                && old(NodesAhead(Ahead())) == {old(CellCid(Ahead()[0]))} + NodesAhead(Ahead())
                && old(CellCid(Ahead()[0])) !in NodesAhead(Ahead())
                && ValuesAhead(Ahead()) == old(ValuesAhead(Ahead()))
    {
      hide Clear, CellOk, CellPending, Shaped, FromTop, Rest, NodesAhead, ValuesAhead, TopLoad, RestLoad;
      if Where() == Some(OnLeaf) {
        StepOver();
        error := None;
      } else {
        error := StepInto();
      }
    }
  }

  lemma ShapedDepth(stack: seq<Level>, nodes: seq<seq<Entry>>, above: nat)
    requires Shaped(stack, nodes, above)
    ensures |stack| <= MAX_LAYER + 1
  {
    if stack != [] { assert stack[|stack| - 1].layer + (|stack| - 1) + 1 == above; }
  }

  /** Opens a walk of a tree. */
  method Walk(store: Store, m: Mst, ghost es: seq<Entry>) returns (r: Result<Walker>)
    ensures r.Ok? ==> fresh(r.value) && fresh(r.value.reader) && r.value.Valid() && r.value.reader.store == store
    ensures r.Ok? ==> r.value.good == Stands(m, es, store)
    ensures Stands(m, es, store) ==>
              if r.Err? then Absent(r.error, Pending(m, es), store)
              else
                && r.value.within == Pending(m, es)
                && NodesAhead(r.value.Ahead()) == NodesOf(es) && ValuesAhead(r.value.Ahead()) == ValuesOf(es)
  {
    hide Clear, Shaped, FromTop, Rest, NodesAhead, ValuesAhead, Pending;
    ghost var n := LiveOf(m, es).At();
    ghost var good := Stands(m, es, store);
    if good { StandsLegible(m, es, store); }
    var rd := new Reader(store);
    var root, layer := LayerIn(m, rd, 0, es, n);
    if layer.Err? { return Err(layer.error); }
    if good { RootOpens(root, es, n, store, rd.seen, Pending(m, es)); }
    var w := new Walker(rd, root, layer.value, es, Pending(m, es), good);
    r := Ok(w);
  }

  lemma RootOpens(root: Mst, es: seq<Entry>, n: nat, store: Store, seen: set<Cid>, within: set<Cid>)
    requires Proper(es, n) && n <= MAX_LAYER && Kept(within, {}, root, es, n, seen) && Fresh(within, store, {})
    requires root.layer == Some(n)
    ensures Opens(Cell(MT(root), T(Node(es)), n + 1), root, store, seen, within)
  {
    hide Proper;
  }

  lemma OneCell(c: Cell, store: Store, seen: set<Cid>, within: set<Cid>)
    requires CellOk(c) && Fresh(CellPending(c), store, seen) && CellPending(c) <= within
    ensures Clear([c], store, seen, within) && NodesAhead([c]) == CellNodes(c) && ValuesAhead([c]) == CellValues(c)
  {
    assert [c][0] == c;
  }
}
