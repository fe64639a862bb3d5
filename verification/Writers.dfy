/** Writers of one account, interleaved in any way. Each reads the root, then
    whatever it needs, at moments of its own; works out a revision from what it
    saw; and moves the root only if it is still the one it read. */
module Writers {
  import opened Keys
  import opened Planning
  import opened Actors
  import opened Managing

  const ATTEMPTS: nat := 8

  datatype Writer =
    | Idle
      /** Reading, and every state it has read from so far, the root's first. */
    | Reading(requested: seq<Requested>, views: seq<State>, tries: nat)
      /** Holding a revision it worked out from those. */
    | Ready(requested: seq<Requested>, views: seq<State>, tries: nat, to: State)

  /** Every state the account has been in, the last of them now, the batch that
      moved it from each to the next, and the writers at work. */
  datatype System = System(past: seq<State>, landed: seq<seq<Requested>>, writers: map<nat, Writer>) {
    function Now(): State
      requires past != []
    {
      past[|past| - 1]
    }
  }

  datatype Step =
    | Begin(w: nat, requested: seq<Requested>)
    | Look(w: nat)
    | Work(w: nat, to: State)
    | Give(w: nat)
    | Swap(w: nat)

  /** A revision worked out from reads that all saw one state is that state's
      next. Anything at all may come of reads that did not. */
  ghost predicate WorkedOut(views: seq<State>, requested: seq<Requested>, to: State) {
    |views| > 0 && ((forall i :: 0 <= i < |views| ==> views[i] == views[0]) ==> Runs(views[0], requested, to))
  }

  /** What each step does, where it can be taken. */
  ghost predicate Next(s: System, step: Step, s': System) {
    && s.past != [] && step.w in s.writers
    && var w := s.writers[step.w];
       match step
       case Begin(i, requested) =>
         w.Idle? && s' == s.(writers := s.writers[i := Reading(requested, [s.Now()], 1)])
       case Look(i) =>
         w.Reading? && s' == s.(writers := s.writers[i := Reading(w.requested, w.views + [s.Now()], w.tries)])
       case Work(i, to) =>
         && w.Reading? && WorkedOut(w.views, w.requested, to)
         && s' == s.(writers := s.writers[i := Ready(w.requested, w.views, w.tries, to)])
       case Give(i) =>
         // Refused, failed, or found nothing to do.
         s' == s.(writers := s.writers[i := Idle])
       case Swap(i) =>
         && w.Ready? && w.views != []
         && if s.Now().root.cid == w.views[0].root.cid then
              s' == System(s.past + [w.to], s.landed + [w.requested], s.writers[i := Idle])
            else if w.tries < ATTEMPTS then
              // Read again from the start.
              s' == s.(writers := s.writers[i := Reading(w.requested, [s.Now()], w.tries + 1)])
            else s' == s.(writers := s.writers[i := Idle])
  }

  // ---- What holds at every moment ----

  ghost function RootsOf(past: seq<State>): (roots: seq<Root>)
    ensures |roots| == |past| && forall i :: 0 <= i < |past| ==> roots[i] == past[i].root
  {
    seq(|past|, i requires 0 <= i < |past| => past[i].root)
  }

  /** The landed batches, one at a time, are what happened. */
  ghost predicate Serial(past: seq<State>, landed: seq<seq<Requested>>) {
    |past| == |landed| + 1 && forall i :: 0 <= i < |landed| ==> Runs(past[i], landed[i], past[i + 1])
  }

  /** Reads see states the account was in, in the order it was in them. */
  ghost predicate Saw(views: seq<State>, past: seq<State>) {
    exists at: seq<int> :: SawAt(views, past, at)
  }

  ghost predicate SawAt(views: seq<State>, past: seq<State>, at: seq<int>) {
    && |at| == |views| > 0
    && (forall i :: 0 <= i < |at| ==> 0 <= at[i] < |past| && views[i] == past[at[i]])
    && (forall i, j :: 0 <= i < j < |at| ==> at[i] <= at[j])
  }

  ghost predicate Orderly(w: Writer, past: seq<State>) {
    && (!w.Idle? ==> Saw(w.views, past) && 1 <= w.tries <= ATTEMPTS)
    && (w.Ready? ==> WorkedOut(w.views, w.requested, w.to))
  }

  ghost predicate Good(s: System) {
    && Rising(RootsOf(s.past)) && Serial(s.past, s.landed)
    && forall i :: i in s.writers ==> Orderly(s.writers[i], s.past)
  }

  /** The swap has no way to be fooled: a root that reads the same never moved
      in between, so everything read since was of the state there now. */
  lemma SwapSaw(views: seq<State>, past: seq<State>)
    requires Rising(RootsOf(past)) && Saw(views, past) && |past| > 0 && |views| > 0
    requires views[0].root.cid == past[|past| - 1].root.cid
    ensures forall i :: 0 <= i < |views| ==> views[i] == past[|past| - 1]
  {
    var at: seq<int> :| SawAt(views, past, at);
    NoneRecurs(RootsOf(past), at[0], |past| - 1);
  }

  lemma SawFirst(past: seq<State>)
    requires |past| > 0
    ensures Saw([past[|past| - 1]], past)
  {
    assert SawAt([past[|past| - 1]], past, [|past| - 1]);
  }

  lemma SawMore(views: seq<State>, past: seq<State>)
    requires Saw(views, past) && |past| > 0
    ensures Saw(views + [past[|past| - 1]], past)
  {
    var at: seq<int> :| SawAt(views, past, at);
    assert SawAt(views + [past[|past| - 1]], past, at + [|past| - 1]);
  }

  lemma SawStill(views: seq<State>, past: seq<State>, next: State)
    requires Saw(views, past)
    ensures Saw(views, past + [next])
  {
    var at: seq<int> :| SawAt(views, past, at);
    assert SawAt(views, past + [next], at);
  }

  lemma SerialNext(past: seq<State>, landed: seq<seq<Requested>>, requested: seq<Requested>, next: State)
    requires Rising(RootsOf(past)) && Serial(past, landed) && Runs(past[|past| - 1], requested, next)
    ensures Rising(RootsOf(past + [next])) && Serial(past + [next], landed + [requested])
  {
    hide Lt;
    RunsLater(past[|past| - 1], requested, next);
    hide Runs, Rising;
    Actors.RisingNext(RootsOf(past), next.root);
    assert RootsOf(past + [next]) == RootsOf(past) + [next.root];
  }

  lemma RunsLater(a: State, requested: seq<Requested>, b: State)
    requires Runs(a, requested, b)
    ensures Lt(a.root.rev, b.root.rev) && b.root.cid.CommitCid? && b.root.cid.commit.rev == b.root.rev
  {
  }

  /** Whatever step is taken, by whichever writer. */
  lemma StepKeeps(s: System, step: Step, s': System)
    requires Good(s) && Next(s, step, s')
    ensures Good(s') && s.past <= s'.past && s.landed <= s'.landed
    ensures var w := s.writers[step.w];
            || s'.past == s.past
            || (step.Swap? && s' == System(s.past + [w.to], s.landed + [w.requested], s.writers[step.w := Idle]))
  {
    hide Rising, Serial, Saw, WorkedOut, Runs;
    SawFirst(s.past);
    var w := s.writers[step.w];
    assert Orderly(w, s.past);
    if step.Look? {
      SawMore(w.views, s.past);
    } else if step.Swap? && s.Now().root.cid == w.views[0].root.cid {
      SwapSaw(w.views, s.past);
      WorkedFrom(w.views, w.requested, w.to);
      SerialNext(s.past, s.landed, w.requested, w.to);
      forall i | i in s'.writers ensures Orderly(s'.writers[i], s'.past) {
        assert Orderly(s.writers[i], s.past);
        if !s.writers[i].Idle? { SawStill(s.writers[i].views, s.past, w.to); }
      }
    }
  }

  lemma WorkedFrom(views: seq<State>, requested: seq<Requested>, to: State)
    requires WorkedOut(views, requested, to) && forall i :: 0 <= i < |views| ==> views[i] == views[0]
    ensures Runs(views[0], requested, to)
  {
  }

  // ---- Whole runs ----

  ghost predicate Run(run: seq<System>, steps: seq<Step>) {
    |run| == |steps| + 1 && forall i :: 0 <= i < |steps| ==> Next(run[i], steps[i], run[i + 1])
  }

  /** An account with one revision, and writers with nothing begun. */
  ghost predicate Start(s: System) {
    && |s.past| == 1 && s.landed == [] && Rising(RootsOf(s.past))
    && forall i :: i in s.writers ==> s.writers[i].Idle?
  }

  /** Over every interleaving: the landed commits are one chain of rising
      revisions in which no commit recurs, what has landed stays landed, and the
      account is where its landed batches, one at a time, would have put it. */
  lemma {:induction false} LinearHistory(run: seq<System>, steps: seq<Step>, i: nat)
    requires Run(run, steps) && Start(run[0]) && i < |run|
    ensures Good(run[i])
    ensures Rising(RootsOf(run[i].past)) && Serial(run[i].past, run[i].landed)
    ensures forall j :: 0 <= j <= i ==> run[j].past <= run[i].past
    ensures forall a, b :: 0 <= a < |run[i].past| && 0 <= b < |run[i].past| && a != b ==>
              run[i].past[a].root.cid != run[i].past[b].root.cid
  {
    if i == 0 {
      hide Saw, Runs, WorkedOut;
      assert Good(run[0]);
    } else {
      LinearHistory(run, steps, i - 1);
      hide Good, Saw, Runs, WorkedOut;
      assert Next(run[i - 1], steps[i - 1], run[i]);
      StepKeeps(run[i - 1], steps[i - 1], run[i]);
    }
    GoodRises(run[i]);
    forall a, b | 0 <= a < |run[i].past| && 0 <= b < |run[i].past| && a != b
      ensures run[i].past[a].root.cid != run[i].past[b].root.cid
    {
      if run[i].past[a].root.cid == run[i].past[b].root.cid { NoneRecurs(RootsOf(run[i].past), a, b); }
    }
  }

  lemma GoodRises(s: System)
    requires Good(s)
    ensures Rising(RootsOf(s.past)) && Serial(s.past, s.landed)
  {
  }
}
