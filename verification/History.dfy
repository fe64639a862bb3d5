/** Runs of writes against a tree held in memory: what every step keeps, and
    why the order of the steps does not show in the tree they leave. */
module History {
  import opened Data
  import opened Keys
  import opened Tree
  import opened TreeOps

  // ---- The layer a tree is taken to be on ----

  /** What searching a tree for its layer finds: a leaf of its own, or one
      further down plus the levels between. */
  function FoundLayer(es: seq<Entry>): Option<nat>
    decreases Node(es), 1
  {
    if OwnLayer(es).Some? then OwnLayer(es) else LayerUnder(es, 0)
  }

  function OwnLayer(es: seq<Entry>): Option<nat> {
    if es == [] then None
    else if es[0].L? then Some(LayerOf(es[0].leaf.key))
    else OwnLayer(es[1..])
  }

  function LayerUnder(es: seq<Entry>, i: nat): Option<nat>
    decreases Node(es), 0, if i <= |es| then |es| - i else 0
  {
    if i >= |es| then None
    else if es[i].T? && FoundLayer(es[i].sub.entries).Some?
    then Some(FoundLayer(es[i].sub.entries).value + 1)
    else LayerUnder(es, i + 1)
  }

  lemma {:induction false} OwnLayerIs(es: seq<Entry>, n: nat)
    requires forall i :: 0 <= i < |es| && es[i].L? ==> FitsEntry(es[i], n)
    ensures OwnLayer(es) == if HoldsLeaf(es) then Some(n) else None
  {
    if es != [] {
      assert es[0].L? ==> FitsEntry(es[0], n);
      OwnLayerIs(es[1..], n);
      assert HoldsLeaf(es[1..]) ==> HoldsLeaf(es) by {
        if HoldsLeaf(es[1..]) {
          var i :| 0 <= i < |es[1..]| && es[1..][i].L?;
          assert es[i + 1].L?;
        }
      }
      if HoldsLeaf(es) && es[0].T? {
        var i :| 0 <= i < |es| && es[i].L?;
        assert es[1..][i - 1].L?;
      }
    }
  }

  /** Looking for it finds the layer a tree that holds anything fits at. */
  lemma {:induction false} FindsLayer(es: seq<Entry>, n: nat)
    requires Fits(es, n)
    ensures FoundLayer(es) == if es == [] then None else Some(n)
    decreases n
  {
    OwnLayerIs(es, n);
    if es != [] && !HoldsLeaf(es) {
      assert es[0].T? && FitsEntry(es[0], n);
      FindsLayer(es[0].sub.entries, n - 1);
    }
  }

  // ---- Writes ----

  /** A tree between two writes. `cached` is the layer its top remembers, which
      outlives the entries it was worked out from. */
  datatype Live = Live(es: seq<Entry>, cached: Option<nat>) {

    /** The layer the next write takes the tree to be on. */
    function At(): nat {
      if cached.Some? then cached.value else FoundLayer(es).GetOr(0)
    }

    ghost function Map(): map<Key, Cid> {
      Contents(Leaves(es))
    }

    /** What every write keeps. */
    ghost predicate Sound() {
      && WellFormed(es, At())
      && ValidKeys(Leaves(es))
    }
  }

  datatype Op = Add(key: Key, value: Cid) | Change(key: Key, value: Cid) | Remove(key: Key)

  /** One write. Whether a trimmed tree remembers its layer depends on how far
      it had been read, so that is left open. */
  ghost predicate Steps(st: Live, op: Op, r: Result<Live>) {
    match op
    case Add(k, v) =>
      if !ValidKey(k) then r == Err(InvalidKey(k))
      else (match Insert(st.es, st.At(), k, v, LayerOf(k))
            case Err(e) => r == Err(e)
            case Ok(es) => r == Ok(Live(es, Some(Max(st.At(), LayerOf(k))))))
    case Change(k, v) =>
      if !ValidKey(k) then r == Err(InvalidKey(k))
      else (match Update(st.es, k, v)
            case Err(e) => r == Err(e)
            case Ok(es) => r == Ok(Live(es, st.cached)))
    case Remove(k) =>
      match Delete(st.es, k)
      case Err(e) => r == Err(e)
      case Ok(es) =>
        && r.Ok? && r.value.es == Trim(es)
        && (Trim(es) == es ==> r.value.cached == st.cached)
        && (Trim(es) != es ==> r.value.cached == None || r.value.cached == FoundLayer(Trim(es)))
  }

  /** The records a write leaves, or why it is refused. */
  ghost function Asked(m: map<Key, Cid>, op: Op): Result<map<Key, Cid>> {
    match op
    case Add(k, v) =>
      if !ValidKey(k) then Err(InvalidKey(k)) else if k in m then Err(KeyExists(k)) else Ok(m[k := v])
    case Change(k, v) =>
      if !ValidKey(k) then Err(InvalidKey(k)) else if k !in m then Err(KeyMissing(k)) else Ok(m[k := v])
    case Remove(k) =>
      if k !in m then Err(KeyMissing(k)) else Ok(m - {k})
  }

  lemma HasIsInMap(es: seq<Entry>, k: Key)
    requires Sorted(Leaves(es))
    ensures Has(Leaves(es), k) <==> k in Contents(Leaves(es))
  {
    HasIsHeld(Leaves(es), k);
    ContentsKeys(Leaves(es));
  }

  lemma WithValid(s: seq<Leaf>, k: Key, v: Cid)
    requires ValidKeys(s) && ValidKey(k)
    ensures ValidKeys(With(s, k, v))
  {
    hide ValidKey, Lt;
    var r, w := Rank(s, k), With(s, k, v);
    assert w == s[..r] + [Leaf(k, v)] + s[r..];
    forall i | 0 <= i < |w| ensures ValidKey(w[i].key) {
      assert w[i] == (if i < r then s[i] else if i == r then Leaf(k, v) else s[i - 1]);
    }
  }

  lemma WithoutValid(s: seq<Leaf>, k: Key)
    requires ValidKeys(s) && Has(s, k)
    ensures ValidKeys(Without(s, k))
  {
    hide ValidKey, Lt;
    var r, w := Rank(s, k), Without(s, k);
    assert w == s[..r] + s[r + 1..];
    forall i | 0 <= i < |w| ensures ValidKey(w[i].key) {
      assert w[i] == if i < r then s[i] else s[i + 1];
    }
  }

  lemma AddStep(st: Live, k: Key, v: Cid, r: Result<Live>)
    requires st.Sound() && Steps(st, Add(k, v), r)
    ensures r.Ok? ==> r.value.Sound() && r.value.es != [] && Ok(r.value.Map()) == Asked(st.Map(), Add(k, v))
    ensures r.Err? ==> Asked(st.Map(), Add(k, v)) == Err(r.error)
  {
    hide Fits, Sorted, Leaves, Insert, LayerOf, ValidKey, With, Has, Contents, Lt, FoundLayer;
    if ValidKey(k) {
      HasIsInMap(st.es, k);
      InsertAdds(st.es, st.At(), k, v);
      if r.Ok? {
        var s := Leaves(st.es);
        assert ValidKeys(s);
        WithSorted(s, k, v);
        WithContents(s, k, v);
        WithValid(s, k, v);
        WithHolds(s, k, v);
        LeavesEmpty();
      }
    }
  }

  lemma ChangeStep(st: Live, k: Key, v: Cid, r: Result<Live>)
    requires st.Sound() && Steps(st, Change(k, v), r)
    ensures r.Ok? ==> r.value.Sound() && Ok(r.value.Map()) == Asked(st.Map(), Change(k, v))
    ensures r.Err? ==> Asked(st.Map(), Change(k, v)) == Err(r.error)
  {
    if ValidKey(k) {
      HasIsInMap(st.es, k);
      UpdateChanges(st.es, st.At(), k, v);
      if r.Ok? {
        var s := Leaves(st.es);
        ChangedSorted(s, k, v);
        ChangedContents(s, k, v);
        FindsLayer(st.es, st.At());
        FindsLayer(r.value.es, st.At());
        hide Fits, Sorted, Rank, Lt, ValidKey, Update, LayerOf;
        LeavesEmpty();
      }
    }
  }

  lemma RemoveStep(st: Live, k: Key, r: Result<Live>)
    requires st.Sound() && Steps(st, Remove(k), r)
    ensures r.Ok? ==>
              && r.value.Sound() && Canonical(r.value.es)
              && Ok(r.value.Map()) == Asked(st.Map(), Remove(k))
    ensures r.Err? ==> Asked(st.Map(), Remove(k)) == Err(r.error)
  {
    hide Fits, Sorted, Leaves, Delete, LayerOf, ValidKey, Without, Has, Contents, Lt, FoundLayer, Trim, HoldsLeaf;
    HasIsInMap(st.es, k);
    DeleteRemoves(st.es, st.At(), k);
    if r.Ok? {
      var s, es := Leaves(st.es), Delete(st.es, k).value;
      assert ValidKeys(s);
      WithoutSorted(s, k);
      WithoutContents(s, k);
      WithoutValid(s, k);
      var top := TrimTops(es, st.At());
      assert WellFormed(r.value.es, top);
      RemovedAt(st, es, top, r.value);
    }
  }

  /** The layer a trimmed tree is taken to be on is one it fits at. */
  lemma RemovedAt(st: Live, es: seq<Entry>, top: nat, r: Live)
    requires WellFormed(es, st.At()) && WellFormed(r.es, top) && r.es == Trim(es) && (Trim(es) == [] <==> es == [])
    requires Trim(es) == es ==> r.cached == st.cached
    requires Trim(es) != es ==> r.cached == None || r.cached == FoundLayer(Trim(es))
    ensures WellFormed(r.es, r.At())
  {
    FindsLayer(es, st.At());
    FindsLayer(r.es, top);
    hide Sorted, Lt, FoundLayer, Trim, Leaves, LayerOf;
  }

  /** Map refinement for writing: every write answers what the same write on a
      map would, error for error, and keeps the tree well formed. */
  lemma StepRefines(st: Live, op: Op, r: Result<Live>)
    requires st.Sound() && Steps(st, op, r)
    ensures r.Ok? ==> r.value.Sound() && Ok(r.value.Map()) == Asked(st.Map(), op)
    ensures r.Err? ==> Asked(st.Map(), op) == Err(r.error)
  {
    match op
    case Add(k, v) => AddStep(st, k, v, r);
    case Change(k, v) => ChangeStep(st, k, v, r);
    case Remove(k) => RemoveStep(st, k, r);
  }

  // ---- The canonical form ----

  /** Whether a write is one that leaves a canonical tree canonical: anything
      but an add to an emptied tree that still remembers a layer above the
      key's own. A caller can check it before the write. */
  predicate Settled(st: Live, op: Op) {
    op.Add? && st.es == [] ==> LayerOf(op.key) >= st.At()
  }

  lemma LeafStays(es: seq<Entry>, k: Key, mid: seq<Entry>)
    requires HoldsLeaf(es)
    ensures HoldsLeaf(es[..Low(es, k)] + mid + es[IndexOf(es, k)..])
  {
    var j :| 0 <= j < |es| && es[j].L?;
    var i, lo := IndexOf(es, k), Low(es, k);
    var es' := es[..lo] + mid + es[i..];
    if j < lo { assert es'[j] == es[j]; } else { assert es'[lo + |mid| + (j - i)] == es[j]; }
  }

  /** Where an add puts a leaf in the top node, and where it does not. */
  lemma InsertTops(es: seq<Entry>, n: nat, k: Key, v: Cid, z: nat)
    requires Insert(es, n, k, v, z).Ok?
    ensures z >= n || HoldsLeaf(es) ==> HoldsLeaf(Insert(es, n, k, v, z).value)
    ensures z < n && es == [] ==> !HoldsLeaf(Insert(es, n, k, v, z).value)
  {
    var es' := Insert(es, n, k, v, z).value;
    hide Split, Lift, Opt, IndexOf;
    if z > n {
      var (l, h) := Split(es, k);
      assert es'[|Opt(Lift(l, z - n - 1))|].L?;
    } else if z < n {
      if HoldsLeaf(es) { LeafStays(es, k, [T(Node(Insert(Inner(es, k), n - 1, k, v, z).value))]); }
    } else {
      var (l, h) := Split(Inner(es, k), k);
      assert es'[Low(es, k) + |Opt(l)|].L?;
    }
  }

  /** An add keeps the canonical form exactly where it is settled. */
  lemma AddCanonical(st: Live, k: Key, v: Cid, r: Live)
    requires st.Sound() && Canonical(st.es) && Steps(st, Add(k, v), Ok(r))
    ensures Canonical(r.es) <==> Settled(st, Add(k, v))
  {
    hide Fits, Sorted, Leaves, Insert, LayerOf, ValidKey, Contents, Lt, FoundLayer, HoldsLeaf;
    AddStep(st, k, v, Ok(r));
    assert WellFormed(r.es, r.At());
    InsertTops(st.es, st.At(), k, v, LayerOf(k));
  }

  lemma ChangeCanonical(st: Live, k: Key, v: Cid, r: Live)
    requires st.Sound() && Canonical(st.es) && Steps(st, Change(k, v), Ok(r))
    ensures Canonical(r.es)
  {
    var es, i := st.es, IndexOf(st.es, k);
    ChangeStep(st, k, v, Ok(r));
    assert WellFormed(r.es, r.At());
    hide Fits, Sorted, Lt, LayerOf, ValidKey, Leaves;
    if es != [] {
      if Here(es, k) {
        assert r.es[i].L?;
      } else {
        LeafStays(es, k, [T(Node(Update(Inner(es, k), k, v).value))]);
      }
    }
  }

  /** Every settled write takes a canonical tree to a canonical tree. */
  lemma StepCanonical(st: Live, op: Op, r: Live)
    requires st.Sound() && Canonical(st.es) && Steps(st, op, Ok(r)) && Settled(st, op)
    ensures Canonical(r.es)
  {
    match op
    case Add(k, v) => AddCanonical(st, k, v, r);
    case Change(k, v) => ChangeCanonical(st, k, v, r);
    case Remove(k) => RemoveStep(st, k, Ok(r));
  }

  /** An emptied tree that was canonical is taken to be no higher than the
      record that went, and on the bottom layer where none was remembered. */
  lemma EmptiedAt(st: Live, k: Key, r: Live)
    requires st.Sound() && Canonical(st.es) && Steps(st, Remove(k), Ok(r)) && r.es == []
    ensures r.At() <= if st.cached.None? then 0 else LayerOf(k)
  {
    hide Fits, Sorted, Contents, LayerOf, Delete, Trim, ValidKey, Leaves;
    assert FoundLayer([]) == None;
    hide FoundLayer;
    RemoveStep(st, k, Ok(r));
    NothingHeld();
    OnlyKey(st, k);
    EmptiedBy(st, k);
  }

  lemma NothingHeld()
    ensures Contents(Leaves([])) == map[]
  {
  }

  lemma EmptiedBy(st: Live, k: Key)
    requires st.Sound() && Delete(st.es, k).Ok? && Trim(Delete(st.es, k).value) == []
    ensures Trim(Delete(st.es, k).value) == Delete(st.es, k).value
  {
    hide Delete, Leaves, Sorted, ValidKey, LayerOf;
    DeleteRemoves(st.es, st.At(), k);
    var top := TrimTops(Delete(st.es, k).value, st.At());
  }

  /** A canonical tree over one record is on that record's layer. */
  lemma OnlyKey(st: Live, k: Key)
    requires st.Sound() && Canonical(st.es) && k in st.Map() && st.Map() - {k} == map[]
    ensures st.At() == LayerOf(k)
  {
    LeavesEmpty();
    assert st.es != [];
    TopLayer(st.es, st.At());
    ContentsKeys(Leaves(st.es));
    hide Contents, Leaves, Fits, Sorted, LayerOf, FoundLayer, ValidKey;
    var s := Leaves(st.es);
    var i :| 0 <= i < |s| && LayerOf(s[i].key) == st.At();
    var x := s[i].key;
    assert x in st.Map().Keys;
    assert x !in st.Map() - {k};
  }

  // ---- Whole runs ----

  /** One thing done to a tree: a write, or reading it afresh from its root,
      which forgets whatever layer its top remembered. */
  datatype Move = Do(op: Op) | Reload

  ghost predicate Moves(st: Live, move: Move, st': Live) {
    match move
    case Do(op) => Steps(st, op, Ok(st'))
    case Reload => st' == Live(st.es, None)
  }

  /** Reading a tree afresh changes nothing it holds. */
  lemma ReloadKeeps(st: Live)
    requires st.Sound()
    ensures Live(st.es, None).Sound() && Live(st.es, None).Map() == st.Map()
  {
    LeavesEmpty();
    FindsLayer(st.es, st.At());
  }

  /** A run's states, starting from the empty tree, each a move on from the
      last. */
  ghost predicate Run(sts: seq<Live>, moves: seq<Move>) {
    && |sts| == |moves| + 1
    && sts[0] == Live([], None)
    && (forall i :: 0 <= i < |moves| ==> Moves(sts[i], moves[i], sts[i + 1]))
  }

  /** Reading afresh is always settled. */
  ghost predicate AllSettled(sts: seq<Live>, moves: seq<Move>)
    requires |sts| == |moves| + 1
  {
    forall i :: 0 <= i < |moves| && moves[i].Do? ==> Settled(sts[i], moves[i].op)
  }

  /** What the same writes leave of an empty map. */
  ghost function Replay(moves: seq<Move>): Result<map<Key, Cid>> {
    if moves == [] then Ok(map[])
    else
      match Replay(moves[..|moves| - 1])
      case Ok(m) => (match moves[|moves| - 1] case Do(op) => Asked(m, op) case Reload => Ok(m))
      case Err(e) => Err(e)
  }

  lemma {:induction false} RunRefines(sts: seq<Live>, moves: seq<Move>)
    requires Run(sts, moves)
    ensures var last := sts[|moves|];
            && last.Sound() && Replay(moves) == Ok(last.Map())
            && (AllSettled(sts, moves) ==> Canonical(last.es))
    decreases |moves|
  {
    hide Steps, Asked, Contents, Leaves, Canonical;
    if moves == [] {
      NothingRun();
    } else {
      var n := |moves| - 1;
      assert sts[..n + 1][n] == sts[n] && Moves(sts[n], moves[n], sts[n + 1]);
      assert Run(sts[..n + 1], moves[..n]);
      RunRefines(sts[..n + 1], moves[..n]);
      assert AllSettled(sts, moves) ==> AllSettled(sts[..n + 1], moves[..n]);
      MoveRefines(sts[n], moves[n], sts[n + 1]);
    }
  }

  lemma MoveRefines(st: Live, move: Move, st': Live)
    requires st.Sound() && Moves(st, move, st')
    ensures st'.Sound()
    ensures Ok(st'.Map()) == match move case Do(op) => Asked(st.Map(), op) case Reload => Ok(st.Map())
    ensures Canonical(st.es) && (move.Do? ==> Settled(st, move.op)) ==> Canonical(st'.es)
  {
    hide Steps, Asked, Contents, Leaves, Canonical, Fits, FoundLayer, WellFormed;
    if move.Do? {
      StepRefines(st, move.op, Ok(st'));
      if Canonical(st.es) && Settled(st, move.op) { StepCanonical(st, move.op, st'); }
    } else {
      ReloadKeeps(st);
    }
  }

  lemma NothingRun()
    ensures Live([], None).Sound() && Live([], None).Map() == map[] && Canonical([])
  {
    LeavesEmpty();
    assert FoundLayer([]) == None;
  }

  /** History independence: two settled runs whose writes come to the same
      records leave the same tree, whatever they did on the way and however
      often it was read afresh between. */
  lemma HistoryIndependence(sts: seq<Live>, moves: seq<Move>, sts': seq<Live>, moves': seq<Move>)
    requires Run(sts, moves) && Run(sts', moves')
    requires AllSettled(sts, moves) && AllSettled(sts', moves')
    requires Replay(moves) == Replay(moves')
    ensures sts[|moves|].es == sts'[|moves'|].es
  {
    hide Moves, AllSettled, Replay, Canonical, Contents, Leaves, WellFormed, FoundLayer;
    RunRefines(sts, moves);
    RunRefines(sts', moves');
    CanonicalIsUnique(sts[|moves|].es, sts'[|moves'|].es);
  }

  /** A run that reads the tree afresh before every write is settled, so every
      history of commits of one write each is. */
  lemma ReloadedIsSettled(sts: seq<Live>, moves: seq<Move>)
    requires Run(sts, moves) && forall i :: 0 < i < |moves| && moves[i].Do? ==> moves[i - 1].Reload?
    ensures AllSettled(sts, moves)
  {
    assert FoundLayer([]) == None;
    hide Steps, FoundLayer, LayerOf;
    forall i | 0 <= i < |moves| && moves[i].Do? ensures Settled(sts[i], moves[i].op) {
      if i > 0 { assert Moves(sts[i - 1], moves[i - 1], sts[i - 1 + 1]); }
    }
  }

  /** The exception is real: adding and removing one record and then adding a
      lower one, all before the tree is read again, is a run, and it leaves a
      chain of lone pointers where adding the second record alone leaves a
      leaf. */
  lemma StaleLayer(a: Key, b: Key, v: Cid) returns (sts: seq<Live>, moves: seq<Move>)
    requires ValidKey(a) && ValidKey(b) && LayerOf(a) > LayerOf(b)
    ensures Run(sts, moves) && Replay(moves) == Ok(map[b := v])
    ensures moves == [Do(Add(a, v)), Do(Remove(a)), Do(Add(b, v))]
    ensures !Canonical(sts[3].es)
  {
    hide ValidKey, LayerOf, Steps, Insert, Delete, Canonical, Asked, Split, Merge, Trim, FoundLayer, Leaves, Contents;
    var x := LayerOf(a);
    moves := [Do(Add(a, v)), Do(Remove(a)), Do(Add(b, v))];
    var s0, s1, s2 := Live([], None), Live([L(Leaf(a, v))], Some(x)), Live([], Some(x));
    FirstLeaf(a, v);
    LastLeaf(a, v);
    AddToStart(s0, a, v, s1);
    RemoveStep(s1, a, Ok(s2));
    var s3 := AddToEmpty(s2, b, v);
    AddCanonical(s2, b, v, s3);
    AddStep(s2, b, v, Ok(s3));
    sts := [s0, s1, s2, s3];
    assert Moves(s0, moves[0], s1) && Moves(s1, moves[1], s2) && Moves(s2, moves[2], s3);
    assert Run(sts, moves);
    RunRefines(sts, moves);
    OnlyOne(s3, s2, b, v);
  }

  lemma FirstLeaf(a: Key, v: Cid)
    requires ValidKey(a) && LayerOf(a) > 0
    ensures Steps(Live([], None), Add(a, v), Ok(Live([L(Leaf(a, v))], Some(LayerOf(a)))))
  {
    hide ValidKey, LayerOf;
    assert FoundLayer([]) == None;
    assert Split([], a) == ([], []);
    LiftEmpty(LayerOf(a) - 1);
    assert [] + [L(Leaf(a, v))] + [] == [L(Leaf(a, v))];
    assert Insert([], 0, a, v, LayerOf(a)) == Ok([L(Leaf(a, v))]);
  }

  lemma LastLeaf(a: Key, v: Cid)
    ensures Steps(Live([L(Leaf(a, v))], Some(LayerOf(a))), Remove(a), Ok(Live([], Some(LayerOf(a)))))
  {
    hide LayerOf;
    var es := [L(Leaf(a, v))];
    LtIrreflexive(a);
    assert Here(es, a);
    assert es[..0] == [] && es[1..] == [] && Merge([], []) == [] + [] == [];
    assert Delete(es, a) == Ok([]);
  }

  lemma AddToEmpty(st: Live, b: Key, v: Cid) returns (r: Live)
    requires st.Sound() && st.es == [] && ValidKey(b)
    ensures Steps(st, Add(b, v), Ok(r))
  {
    hide ValidKey, LayerOf, Insert, FoundLayer;
    InsertAdds([], st.At(), b, v);
    HasIsInMap([], b);
    LeavesEmpty();
    r := Live(Insert([], st.At(), b, v, LayerOf(b)).value, Some(Max(st.At(), LayerOf(b))));
  }

  lemma OnlyOne(r: Live, st: Live, b: Key, v: Cid)
    requires st.es == [] && ValidKey(b) && Ok(r.Map()) == Asked(st.Map(), Add(b, v))
    ensures r.Map() == map[b := v]
  {
    LeavesEmpty();
  }

  lemma LiftEmpty(levels: nat)
    ensures Lift([], levels) == []
  {
  }

  lemma AddToStart(s0: Live, a: Key, v: Cid, s1: Live)
    requires s0 == Live([], None) && Steps(s0, Add(a, v), Ok(s1))
    ensures s1.Sound()
  {
    LeavesEmpty();
    assert FoundLayer([]) == None;
    AddStep(s0, a, v, Ok(s1));
  }

  // ---- The tree as a function of the records ----

  /** No leaf is above layer `n`. */
  ghost predicate Capped(s: seq<Leaf>, n: nat) {
    forall i :: 0 <= i < |s| ==> LayerOf(s[i].key) <= n
  }

  /** How many leaves run below layer `n` before the first on it. */
  function LowRun(s: seq<Leaf>, n: nat): (r: nat)
    ensures r <= |s|
  {
    if s == [] || LayerOf(s[0].key) == n then 0 else 1 + LowRun(s[1..], n)
  }

  lemma {:induction false} LowRunCuts(s: seq<Leaf>, n: nat)
    requires Capped(s, n)
    ensures var r := LowRun(s, n);
            && (r > 0 ==> n > 0 && Capped(s[..r], n - 1)) && Capped(s[r..], n)
            && (r < |s| ==> LayerOf(s[r].key) == n)
  {
    hide LayerOf;
    if s != [] && LayerOf(s[0].key) != n {
      assert s[1..] != [] ==> s[1..][0] == s[1];
      assert Capped(s[1..], n);
      LowRunCuts(s[1..], n);
      var r := LowRun(s, n);
      var low := s[..r];
      forall i | 0 <= i < |low| ensures LayerOf(low[i].key) <= n - 1 {
        if i > 0 { assert low[i] == s[1..][..r - 1][i - 1]; }
      }
    }
  }

  /** The node over some leaves at a layer none of them is above. */
  ghost function Build(s: seq<Leaf>, n: nat): seq<Entry>
    requires Capped(s, n)
    decreases n, |s|
  {
    LowRunCuts(s, n);
    var r := LowRun(s, n);
    if s == [] then []
    else if r == 0 then [L(s[0])] + Build(s[1..], n)
    else [T(Node(Build(s[..r], n - 1)))] + Build(s[r..], n)
  }

  /** It is that node: so by `OneShape` the only one. */
  lemma {:induction false} BuildFits(s: seq<Leaf>, n: nat)
    requires Capped(s, n)
    ensures Fits(Build(s, n), n) && Leaves(Build(s, n)) == s
    ensures s != [] && LayerOf(s[0].key) == n ==> Build(s, n)[0].L?
    ensures Build(s, n) == [] <==> s == []
    decreases n, |s|
  {
    hide LayerOf, Fits, Leaves, LowRun, Capped, Build;
    LowRunCuts(s, n);
    BuildIs(s, n);
    var r := LowRun(s, n);
    if s == [] {
      NothingFits(n);
    } else if r == 0 {
      BuildFits(s[1..], n);
      LeafFirst(s[0], Build(s[1..], n), n);
      assert [s[0]] + s[1..] == s;
    } else {
      var inner, rest := Build(s[..r], n - 1), Build(s[r..], n);
      BuildFits(s[..r], n - 1);
      BuildFits(s[r..], n);
      assert |s[..r]| == r;
      RunFirst(inner, rest, n);
      assert s[..r] + s[r..] == s;
    }
  }

  lemma BuildIs(s: seq<Leaf>, n: nat)
    requires Capped(s, n)
    ensures var r := LowRun(s, n);
            if s == [] then Build(s, n) == []
            else if r == 0 then
              LayerOf(s[0].key) == n && Capped(s[1..], n) && Build(s, n) == [L(s[0])] + Build(s[1..], n)
            else
              && n > 0 && Capped(s[..r], n - 1) && Capped(s[r..], n) && LayerOf(s[0].key) != n
              && Build(s, n) == [T(Node(Build(s[..r], n - 1)))] + Build(s[r..], n)
  {
    LowRunCuts(s, n);
  }

  lemma NothingFits(n: nat)
    ensures Fits([], n) && Leaves([]) == []
  {
  }

  lemma RunFirst(inner: seq<Entry>, rest: seq<Entry>, n: nat)
    requires n > 0 && inner != [] && Fits(inner, n - 1) && Fits(rest, n) && (rest == [] || rest[0].L?)
    ensures Fits([T(Node(inner))] + rest, n) && Leaves([T(Node(inner))] + rest) == Leaves(inner) + Leaves(rest)
  {
    hide Fits, Leaves;
    OptFits(inner, n - 1);
    Joined(Opt(inner), rest, n);
  }

  lemma LeafFirst(leaf: Leaf, rest: seq<Entry>, n: nat)
    requires Fits(rest, n) && LayerOf(leaf.key) == n
    ensures Fits([L(leaf)] + rest, n) && Leaves([L(leaf)] + rest) == [leaf] + Leaves(rest)
  {
    assert FitsEntry(L(leaf), n);
    LeavesOne(L(leaf));
    assert EntryLeaves(L(leaf)) == [leaf];
    Joined([L(leaf)], rest, n);
  }

  /** Nothing but the records decides where one sits: a well-formed tree is
      rebuilt from its listing and its layer. */
  lemma CanonicalIsBuilt(es: seq<Entry>, n: nat)
    requires WellFormed(es, n)
    ensures Capped(Leaves(es), n) && es == Build(Leaves(es), n)
  {
    FittingLeaves(es, n);
    BuildFits(Leaves(es), n);
    OneShape(es, Build(Leaves(es), n), n);
  }
}
