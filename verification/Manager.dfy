/** One account's writes from request to landed revision: read the root, plan
    against it, apply, and move the root if it is still the one read. */
module Managing {
  import opened Data
  import opened Keys
  import opened Tree
  import opened Codec
  import opened Nodes
  import opened Mst
  import opened Operations
  import opened Proofs
  import opened Repo
  import opened Index
  import opened Planning
  import opened Actors
  import Tid

  datatype Answer =
    | Written(root: Root, ops: seq<Logged>, spots: seq<Spot>, orphaned: seq<Cid>, taken: seq<Key>)
    | NothingToDo
    | Failed(error: Error)
    | Unlanded(why: Landing)

  /** What a writer can see of an account that only a revision moves. */
  datatype State = State(root: Root, rows: map<Key, Row>, links: map<Key, Backlink>)

  /** One revision following another: a later commit, over what the writes a
      request was planned as leave of the records. */
  ghost predicate Runs(a: State, requested: seq<Requested>, b: State) {
    && Lt(a.root.rev, b.root.rev) && b.root.cid.CommitCid? && b.root.cid.commit.rev == b.root.rev
    && exists ws ::
         && Planned(RowMap(a.rows), Tables(a.rows, a.links, map[], {}), requested, ws)
         && AppliedAll(RowMap(a.rows), ws) == Ok(RowMap(b.rows))
  }

  lemma RunsBy(a: Root, t: Tables, b: Root, t': Tables, requested: seq<Requested>, ws: seq<Write>)
    requires Lt(a.rev, b.rev) && b.cid.CommitCid? && b.cid.commit.rev == b.rev
    requires Planned(RowMap(t.records), t, requested, ws)
    requires AppliedAll(RowMap(t.records), ws) == Ok(RowMap(t'.records))
    ensures Runs(State(a, t.records, t.links), requested, State(b, t'.records, t'.links))
  {
    hide Planned, AppliedAll, RowMap, Lt;
    SamePlan(RowMap(t.records), t, Tables(t.records, t.links, map[], {}), requested, ws);
  }

  /** What being stocked says of the rows, the blocks and the root. */
  lemma StockedIs(root: Root, blocks: map<Cid, Stored>, records: map<Key, Row>, es: seq<Entry>, n: nat)
    requires Stocked(Some(root), blocks, records, es, n)
    ensures RowMap(records) == Contents(Leaves(es)) && AllOf(root.cid, es) == blocks.Keys
    ensures root.cid.CommitCid? && root.cid.commit.rev == root.rev
  {
    hide Contents, Leaves, RowMap, AllOf, Proper, Recorded, CidOf;
    assert StoreOf(blocks).Keys == blocks.Keys;
  }

  /** Planning reads the records and the links, and nothing else. */
  lemma {:induction false} SamePlan(m: map<Key, Cid>, t: Tables, t': Tables, requested: seq<Requested>, ws: seq<Write>)
    requires t.records == t'.records && t.links == t'.links && Planned(m, t, requested, ws)
    ensures Planned(m, t', requested, ws)
    decreases |requested|
  {
    hide PlannedOne;
    if requested != [] {
      var n := |requested| - 1;
      var j := LastPlanned(m, t, requested, ws);
      SamePlan(m, t, t', requested[..n], ws[..j]);
      SameOne(m, t, t', requested[n], ws[j..]);
    }
  }

  lemma SameOne(m: map<Key, Cid>, t: Tables, t': Tables, asked: Requested, ws: seq<Write>)
    requires t.records == t'.records && t.links == t'.links && PlannedOne(m, t, asked, ws)
    ensures PlannedOne(m, t', asked, ws)
  {
    assert Superseding(t, asked.write) == Superseding(t', asked.write);
  }

  /** A loaded repository reads whole from the blocks its account stores. */
  lemma LoadsWhole(root: Root, blocks: map<Cid, Stored>, records: map<Key, Row>, es: seq<Entry>, n: nat)
    requires Stocked(Some(root), blocks, records, es, n)
    ensures root.cid in blocks && blocks[root.cid].block == CommitBlock(root.cid.commit)
    ensures Whole(Load(root.cid.commit.data), es, StoreOf(blocks))
    ensures Exactly(StoreOf(blocks), root.cid, es) && CommitsTo(root, es, n)
  {
    hide Contents, Leaves, NodesOf, ValuesOf, RowMap, Recorded;
    var store := StoreOf(blocks);
    assert root.cid in store.Keys;
    assert store[root.cid] == BlockOf(root.cid);
    LoadStands(root.cid.commit.data, es, n, store);
  }

  /** A revision the repository signed is one built from what is stored. */
  lemma SignedIsBuilt(blocks: map<Cid, Stored>, records: map<Key, Row>, c: Data.Commit, rev: Revision,
                      ws: seq<Write>, items: seq<Indexed>, es: seq<Entry>, n: nat)
    requires CommitsTo(Root(CommitCid(c), c.rev), es, n) && Settles(rev, StoreOf(blocks), CommitCid(c), es, blocks.Keys)
    requires AppliedAll(RowMap(records), ws) == Ok(Contents(Leaves(es))) && Paired(ws, items)
    ensures Built(blocks, records, Root(CommitCid(c), c.rev), rev, items, es, n)
  {
    hide Contents, Leaves, CommitsTo, Paired, AppliedAll, Settles;
    IndexFollowsTree(records, ws, items, c.rev);
  }

  lemma PairedFaithful(ws: seq<Write>, items: seq<Indexed>)
    requires Paired(ws, items)
    ensures forall i :: 0 <= i < |items| ==> items[i].Faithful()
  {
    forall i | 0 <= i < |items| ensures items[i].Faithful() { assert Pair(ws[i], items[i]); }
  }

  /** Nothing left to write is every request passed over. */
  lemma {:induction false} NothingPlanned(m: map<Key, Cid>, t: Tables, requested: seq<Requested>, ws: seq<Write>)
    requires Planned(m, t, requested, ws)
    ensures |ws| == 0 <==> forall i :: 0 <= i < |requested| ==> PassedOver(m, requested[i])
    decreases |requested|
  {
    hide PassedOver, PlannedOne, Planned;
    if requested == [] {
      NonePlanned(m, t, ws);
    } else {
      var n := |requested| - 1;
      var j := LastPlanned(m, t, requested, ws);
      NothingPlanned(m, t, requested[..n], ws[..j]);
      OnePassedOver(m, t, requested[n], ws[j..]);
    }
  }

  lemma NonePlanned(m: map<Key, Cid>, t: Tables, ws: seq<Write>)
    requires Planned(m, t, [], ws)
    ensures |ws| == 0
  {
  }

  lemma OnePassedOver(m: map<Key, Cid>, t: Tables, asked: Requested, ws: seq<Write>)
    requires PlannedOne(m, t, asked, ws)
    ensures |ws| == 0 <==> PassedOver(m, asked)
  {
  }

  ghost function StateOf(actor: Actor): State
    requires actor.root.Some?
    reads actor
  {
    State(actor.root.value, actor.tables.records, actor.tables.links)
  }

  /** What answers a request before anything of it is stored, if anything
      does, in the order it is asked. `ws` is what the request was planned as,
      and `last` where the clock stood. */
  ghost function Halts(root: Option<Root>, m: map<Key, Cid>, requested: seq<Requested>, swap: Option<Cid>,
                       ws: seq<Write>, last: nat): Option<Answer> {
    if root.None? then Some(Failed(NoRepo))
    else if FirstRefusal(m, requested).Some? then Some(Failed(FirstRefusal(m, requested).value))
    else if forall i :: 0 <= i < |requested| ==> PassedOver(m, requested[i]) then Some(NothingToDo)
    else if swap.Some? && swap.value != root.value.cid then Some(Failed(Swap(root.value.cid)))
    else if Stops(m, ws, last, root.value.rev).Some? then Some(Failed(Stops(m, ws, last, root.value.rev).value))
    else None
  }

  /** Every request is passed over. */
  ghost predicate Idle(m: map<Key, Cid>, requested: seq<Requested>) {
    forall i :: 0 <= i < |requested| ==> requested[i].skip && requested[i].write.Target() !in m
  }

  /** There is a repository, no request is refused and something is left to
      write. */
  ghost predicate Asks(root: Option<Root>, m: map<Key, Cid>, requested: seq<Requested>) {
    root.Some? && !Idle(m, requested) && forall i :: 0 <= i < |requested| ==> Granted(m, requested[i])
  }

  /** What a request is answered, kind by kind: `NoRepo` where there is no
      root, nothing where nothing is left to write, the first request's reason
      where one is refused, the root where the caller named another, and what
      stops the batch where something does. */
  ghost predicate AnsweredAs(root: Option<Root>, m: map<Key, Cid>, requested: seq<Requested>, swap: Option<Cid>,
                             ws: seq<Write>, last: nat, r: Answer) {
    var asks := Asks(root, m, requested);
    var stale := root.Some? && swap.Some? && swap.value != root.value.cid;
    && (r == Failed(NoRepo) <==> root.None?)
    && (r.NothingToDo? <==> root.Some? && Idle(m, requested))
    && (root.Some? && (exists i :: FirstNot(m, requested, i)) ==>
          r.Failed? && exists i :: FirstNot(m, requested, i) && ToldWhy(m, requested[i], r.error))
    && ((exists c :: r == Failed(Swap(c))) <==> asks && stale)
    && (asks && stale ==> r == Failed(Swap(root.value.cid)))
    && (r.Written? || r.Unlanded? <==> asks && !stale && Goes(m, ws, last, root.value.rev))
    && (asks && !stale && r.Failed? ==> StopsAs(m, ws, last, root.value.rev, r.error))
  }

  /** What halts a request is what it is answered, and where nothing does
      nothing is in its way. */
  ghost predicate HaltedAs(root: Option<Root>, m: map<Key, Cid>, requested: seq<Requested>, swap: Option<Cid>,
                           ws: seq<Write>, last: nat, halt: Option<Answer>) {
    if halt.Some? then
      && !halt.value.Written? && !halt.value.Unlanded?
      && AnsweredAs(root, m, requested, swap, ws, last, halt.value)
    else
      && Asks(root, m, requested) && (swap.Some? ==> swap.value == root.value.cid)
      && Goes(m, ws, last, root.value.rev)
  }

  lemma HaltsAs(root: Option<Root>, m: map<Key, Cid>, requested: seq<Requested>, swap: Option<Cid>,
                ws: seq<Write>, last: nat)
    ensures HaltedAs(root, m, requested, swap, ws, last, Halts(root, m, requested, swap, ws, last))
  {
    hide FirstRefusal, Granted, ToldWhy, FirstNot, Goes, Stops, StopsAs, PassedOver, Idle;
    IdleIsGranted(m, requested);
    RefusedIs(m, requested);
    if root.Some? {
      StopsExactly(m, ws, last, root.value.rev);
      StopsApart(m, ws, last, root.value.rev);
    }
  }

  lemma LandsAs(root: Option<Root>, m: map<Key, Cid>, requested: seq<Requested>, swap: Option<Cid>,
                ws: seq<Write>, last: nat, r: Answer)
    requires HaltedAs(root, m, requested, swap, ws, last, None) && (r.Written? || r.Unlanded?)
    ensures AnsweredAs(root, m, requested, swap, ws, last, r)
  {
    hide Granted, ToldWhy, Goes, StopsAs, Idle;
    RefusedIs(m, requested);
  }

  /** A request is refused exactly where one is not granted, with an error no
      other answer has. */
  lemma RefusedIs(m: map<Key, Cid>, requested: seq<Requested>)
    ensures FirstRefusal(m, requested).None? <==> forall i :: 0 <= i < |requested| ==> Granted(m, requested[i])
    ensures FirstRefusal(m, requested).Some? <==> exists i :: FirstNot(m, requested, i)
    ensures FirstRefusal(m, requested).Some? ==>
              var e := FirstRefusal(m, requested).value;
              && (e.SwapRecord? || e.NotBlob?)
              && exists i :: FirstNot(m, requested, i) && ToldWhy(m, requested[i], e)
  {
    hide FirstRefusal, Granted;
    FirstRefusalIs(m, requested);
    if FirstRefusal(m, requested).Some? {
      var i :| FirstNot(m, requested, i) && ToldWhy(m, requested[i], FirstRefusal(m, requested).value);
    }
  }

  lemma IdleIsGranted(m: map<Key, Cid>, requested: seq<Requested>)
    ensures Idle(m, requested) <==> forall i :: 0 <= i < |requested| ==> PassedOver(m, requested[i])
    ensures Idle(m, requested) ==> forall i :: 0 <= i < |requested| ==> Granted(m, requested[i])
  {
  }

  lemma StopsApart(m: map<Key, Cid>, ws: seq<Write>, last: nat, rev: Key)
    ensures var e := Stops(m, ws, last, rev);
            e.Some? ==> KeyError(e.value) || e.value.NotRecordData? || e.value.NoRevisionAfter?
  {
    BatchError(m, ws);
  }

  /** Which of the four answers an attempt gives. Nothing but these reasons
      keeps it from landing. */
  twostate predicate Decided(actor: Actor, requested: seq<Requested>, swap: Option<Cid>, last: nat, r: Answer,
                             ws: seq<Write>, items: seq<Indexed>)
    reads actor
  {
    var m := Contents(Leaves(old(actor.es)));
    var halt := Halts(old(actor.root), m, requested, swap, ws, last);
    var objection := FirstObjection(old(actor.tables).blobs, {}, AllBlobs(items));
    && (old(actor.root).Some? && FirstRefusal(m, requested).None? ==> Planned(m, old(actor.tables), requested, ws))
    && if halt.Some? then r == halt.value
       else
         && Paired(ws, items)
         && if objection.Some? then r == Unlanded(Refused(Blobs(objection.value))) else r.Written?
  }

  /** What an attempt that lands leaves. */
  twostate predicate Moved(actor: Actor, requested: seq<Requested>, r: Answer, ws: seq<Write>, items: seq<Indexed>)
    requires r.Written?
    reads actor
  {
    var m := Contents(Leaves(old(actor.es)));
    && old(actor.root).Some? && actor.root == Some(r.root) && Lt(old(actor.root).value.rev, r.root.rev)
    && AppliedAll(m, ws) == Ok(Contents(Leaves(actor.es))) && ws != []
    && actor.tables.records == RowsAfter(old(actor.tables).records, items, r.root.rev)
    && actor.past == old(actor.past) + [Snap(r.root, Contents(Leaves(actor.es)), actor.blocks.Keys)]
    && AllLogged(m, ws, r.ops) && r.spots == Spots(m, requested)
    && Took(old(actor.tables), actor.tables, Spared(items), [], r.taken)
    && (forall b :: b in r.orphaned <==>
          (InUse(old(actor.tables).refs, b) || b in Spared(items)) && !InUse(actor.tables.refs, b))
  }

  twostate predicate Untouched(actor: Actor)
    reads actor
  {
    && actor.root == old(actor.root) && actor.blocks == old(actor.blocks) && actor.tables == old(actor.tables)
    && actor.served == old(actor.served) && actor.uploads == old(actor.uploads)
    && actor.es == old(actor.es) && actor.n == old(actor.n) && actor.past == old(actor.past)
    && actor.calm == old(actor.calm)
  }

  /** A revision ready to be moved to, or the answer where there is none. */
  datatype Prepared =
    | Go(repo: Repository, rev: Revision, plan: Worked)
    | Stop(answer: Answer)

  /** Reads the root, plans the writes and applies them. Nothing stored moves. */
  method Prepare(actor: Actor, requested: seq<Requested>, swap: Option<Cid>, clock: Tid.Clock, now: nat)
    returns (p: Prepared, ghost ws: seq<Write>)
    requires actor.Valid()
    modifies clock
    ensures Halts(actor.root, Contents(Leaves(actor.es)), requested, swap, ws, old(clock.last)) ==
            if p.Stop? then Some(p.answer) else None
    ensures HaltedAs(actor.root, Contents(Leaves(actor.es)), requested, swap, ws, old(clock.last),
                     if p.Stop? then Some(p.answer) else None)
    ensures actor.root.Some? && FirstRefusal(Contents(Leaves(actor.es)), requested).None? ==>
              Planned(Contents(Leaves(actor.es)), actor.tables, requested, ws)
    ensures p.Go? ==>
              && actor.root.Some? && fresh(p.repo) && p.repo.Valid() && Lt(actor.root.value.rev, p.repo.commit.rev)
              && SignedAt(p.repo.commit.rev, clock, old(clock.last), actor.root.value.rev, now)
              && ws == p.plan.writes && ws != [] && InStep(Contents(Leaves(actor.es)), p.plan)
              && p.plan.spots == Spots(Contents(Leaves(actor.es)), requested)
              && AppliedAll(Contents(Leaves(actor.es)), ws) == Ok(Contents(Leaves(p.repo.es)))
              && Settles(p.rev, StoreOf(actor.blocks), p.repo.cid, p.repo.es, AllOf(actor.root.value.cid, actor.es))
              && (Canonical(actor.es) && Calm(Contents(Leaves(actor.es)), ws) ==> Canonical(p.repo.es))
  {
    hide Stocked, Whole, Agree, Serves, Told, Planned, Contents, Leaves, AllOf, Settles, CidOf, Proper, InStep, Spots,
         Recorded, RowMap, FirstRefusal, AppliedAll, PassedOver, Exactly, Canonical, Calm, Filed, Stops, HaltedAs,
         Goes, StopsAs, SignedAt;
    forall ws' {
      HaltsAs(actor.root, Contents(Leaves(actor.es)), requested, swap, ws', clock.last);
    }
    ws := [];
    if actor.root.None? { return Stop(Failed(NoRepo)), ws; }
    var from := actor.root.value;
    LoadsWhole(from, actor.blocks, actor.tables.records, actor.es, actor.n);
    var store := StoreOf(actor.blocks);
    var loaded := LoadRepository(store, from.cid, actor.es, actor.n);
    var repo := loaded.value;
    var data, planned := Plan(repo.data, store, actor.tables, requested, actor.es);
    repo.data := data;
    if planned.Err? { return Stop(Failed(planned.error)), ws; }
    ws := planned.value.writes;
    NothingPlanned(Contents(Leaves(actor.es)), actor.tables, requested, ws);
    if planned.value.writes == [] { return Stop(NothingToDo), ws; }
    if swap.Some? && swap.value != from.cid { return Stop(Failed(Swap(from.cid))), ws; }
    var rev := repo.Apply(store, planned.value.writes, clock, now);
    if rev.Err? { return Stop(Failed(rev.error)), ws; }
    p := Go(repo, rev.value, planned.value);
  }

  /** One attempt at a set of writes, with nothing landing between its reads and
      its move. It lands, or nothing changes, and which it is follows from the
      request, the records, the clock and the blob rows. */
  method Attempt(actor: Actor, requested: seq<Requested>, swap: Option<Cid>, clock: Tid.Clock, now: nat)
    returns (r: Answer, ghost ws: seq<Write>, ghost items: seq<Indexed>)
    requires actor.Valid()
    modifies actor, clock
    ensures actor.Valid() && Decided(actor, requested, swap, old(clock.last), r, ws, items)
    ensures AnsweredAs(old(actor.root), Contents(Leaves(old(actor.es))), requested, swap, ws, old(clock.last), r)
    ensures if r.Written? then Moved(actor, requested, r, ws, items) else Untouched(actor)
    ensures r.Written? ==> SignedAt(r.root.rev, clock, old(clock.last), old(actor.root).value.rev, now)
    ensures r.Written? ==> actor.uploads == old(actor.uploads)
    ensures r.Written? && Tidy(old(actor.tables), old(actor.served)) ==>
              Tidy(actor.tables, actor.served - (set b | b in r.orphaned))
    ensures r.Written? ==> (forall b :: b in r.orphaned ==> b !in actor.tables.blobs) && Loose(actor.tables, r.taken)
    ensures r.Written? ==> (actor.calm <==> old(actor.calm) && Calm(Contents(Leaves(old(actor.es))), ws))
    ensures r.Written? ==> Runs(old(StateOf(actor)), requested, StateOf(actor))
  {
    hide Runs, Stocked, Agree, Serves, Told, Planned, Paired, Contents, Leaves, AllOf, Settles, CidOf, Proper, InStep,
         Recorded, RowMap, AppliedAll, PassedOver, Tidy, RowsAfter, Lt, StoreOf, Canonical, Calm, Filed, Loose, Spots,
         Halts, FirstRefusal, FirstObjection, AllBlobs, AllLogged, HaltedAs, AnsweredAs, SignedAt, Took, InUse, Spared;
    ghost var t, blocks, es, n := actor.tables, actor.blocks, actor.es, actor.n;
    var p;
    p, ws := Prepare(actor, requested, swap, clock, now);
    items := [];
    if p.Stop? {
      r := p.answer;
      StoppedAs(actor.root, Contents(Leaves(actor.es)), requested, swap, ws, old(clock.last), r);
    } else {
      var from := actor.root.value;
      items := p.plan.index;
      KeepsStep(Contents(Leaves(es)), p.plan);
      NeverHaltsHere(actor.root, Contents(Leaves(actor.es)), requested, swap, ws, old(clock.last));
      ghost var m := Contents(Leaves(actor.es));
      r := Land(actor, from, p.repo, p.rev, p.plan, Calm(m, ws));
      LandsAs(old(actor.root), m, requested, swap, ws, old(clock.last), r);
      if r.Written? {
        StockedIs(from, blocks, t.records, es, n);
        StockedIs(r.root, actor.blocks, actor.tables.records, actor.es, actor.n);
        RunsBy(from, t, r.root, actor.tables, requested, ws);
      }
    }
  }

  lemma StoppedAs(root: Option<Root>, m: map<Key, Cid>, requested: seq<Requested>, swap: Option<Cid>,
                  ws: seq<Write>, last: nat, r: Answer)
    requires HaltedAs(root, m, requested, swap, ws, last, Some(r))
    ensures AnsweredAs(root, m, requested, swap, ws, last, r) && !r.Written? && !r.Unlanded?
  {
    hide AnsweredAs;
  }

  lemma NeverHaltsHere(root: Option<Root>, m: map<Key, Cid>, requested: seq<Requested>, swap: Option<Cid>,
                       ws: seq<Write>, last: nat)
    requires Halts(root, m, requested, swap, ws, last).None?
    ensures root.Some? && FirstRefusal(m, requested).None?
  {
    hide FirstRefusal, PassedOver, Stops;
  }

  lemma KeepsStep(m: map<Key, Cid>, p: Worked)
    requires InStep(m, p)
    ensures Paired(p.writes, p.index) && AllLogged(m, p.writes, p.ops)
  {
  }

  /** The move itself, of a revision the repository signed over what is there.
      Only its blobs can keep it from landing. */
  method Land(actor: Actor, from: Root, repo: Repository, rev: Revision, plan: Worked, ghost settled: bool)
    returns (r: Answer)
    requires actor.Valid() && repo.Valid() && actor.root == Some(from) && Lt(from.rev, repo.commit.rev)
    requires Settles(rev, StoreOf(actor.blocks), repo.cid, repo.es, AllOf(from.cid, actor.es))
    requires AppliedAll(Contents(Leaves(actor.es)), plan.writes) == Ok(Contents(Leaves(repo.es)))
    requires Paired(plan.writes, plan.index) && (Canonical(actor.es) && settled ==> Canonical(repo.es))
    modifies actor
    ensures actor.Valid()
    ensures var objection := FirstObjection(old(actor.tables).blobs, {}, AllBlobs(plan.index));
            if objection.Some? then r == Unlanded(Refused(Blobs(objection.value))) else r.Written?
    ensures r.Written? ==>
              && r.root == Root(repo.cid, repo.commit.rev) && actor.root == Some(r.root) && actor.es == repo.es
              && r.ops == plan.ops && r.spots == plan.spots
              && actor.tables.records == RowsAfter(old(actor.tables).records, plan.index, r.root.rev)
              && actor.past == old(actor.past) + [Snap(r.root, Contents(Leaves(actor.es)), actor.blocks.Keys)]
              && (Tidy(old(actor.tables), old(actor.served)) ==>
                    Tidy(actor.tables, actor.served - (set b | b in r.orphaned)))
              && (forall b :: b in r.orphaned ==> b !in actor.tables.blobs) && Loose(actor.tables, r.taken)
              && Took(old(actor.tables), actor.tables, Spared(plan.index), [], r.taken)
              && (forall b :: b in r.orphaned <==>
                    (InUse(old(actor.tables).refs, b) || b in Spared(plan.index)) && !InUse(actor.tables.refs, b))
              && actor.uploads == old(actor.uploads)
              && (actor.calm <==> old(actor.calm) && settled)
    ensures !r.Written? ==> unchanged(actor)
  {
    hide Agree, Serves, Told, Stocked, Paired, Contents, Leaves, AllOf, Settles, CidOf, Proper, Recorded, Tidy,
         RowMap, AppliedAll, Built, InUse, Spared, RowsAfter, Distinct, Canonical, Filed, Loose, Took, FirstObjection,
         AllBlobs;
    PairedFaithful(plan.writes, plan.index);
    StockedIs(from, actor.blocks, actor.tables.records, actor.es, actor.n);
    SignedIsBuilt(actor.blocks, actor.tables.records, repo.commit, rev, plan.writes, plan.index, repo.es, repo.n);
    var to := Root(repo.cid, repo.commit.rev);
    var landing := actor.Commit(Some(from), to, rev, plan.index, repo.es, repo.n, settled);
    if landing.Landed? {
      r := Written(to, plan.ops, plan.spots, landing.orphaned, landing.taken);
    } else {
      r := Unlanded(landing);
    }
  }

  /** A write, and the disk cleared behind it. Over every run of these, of
      uploads and of sweeps, what is served stays exactly what records name. */
  method Write(actor: Actor, requested: seq<Requested>, swap: Option<Cid>, clock: Tid.Clock, now: nat)
    returns (r: Answer, ghost ws: seq<Repo.Write>, ghost items: seq<Indexed>)
    requires actor.Valid()
    modifies actor, clock
    ensures actor.Valid() && Decided(actor, requested, swap, old(clock.last), r, ws, items)
    ensures AnsweredAs(old(actor.root), Contents(Leaves(old(actor.es))), requested, swap, ws, old(clock.last), r)
    ensures if r.Written? then Moved(actor, requested, r, ws, items) else Untouched(actor)
    ensures r.Written? ==> SignedAt(r.root.rev, clock, old(clock.last), old(actor.root).value.rev, now)
    ensures Tidy(old(actor.tables), old(actor.served)) ==> Tidy(actor.tables, actor.served)
    ensures r.Written? ==> actor.uploads == old(actor.uploads) - (set k | k in r.taken)
    ensures r.Written? ==> (actor.calm <==> old(actor.calm) && Calm(Contents(Leaves(old(actor.es))), ws))
    ensures r.Written? ==> Runs(old(StateOf(actor)), requested, StateOf(actor))
  {
    hide Agree, Serves, Told, Stocked, Planned, Paired, Tidy, RowsAfter, AppliedAll, Contents, Leaves, Halts, Runs,
         RowMap, Lt, StoreOf, Canonical, Calm, Filed, Loose, FirstRefusal, FirstObjection, AllBlobs, AllLogged, Spots,
         AnsweredAs, SignedAt, Took, InUse, Spared;
    r, ws, items := Attempt(actor, requested, swap, clock, now);
    if r.Written? {
      ghost var served := actor.served;
      actor.Cleared(r.orphaned, r.taken);
      assert actor.served == served - (set b | b in r.orphaned);
    }
  }
}
