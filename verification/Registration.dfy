/** Registering an identifier with a directory that may answer late or not at
    all, and taking a half-made account back out. */
module Registration {

  datatype PlcError = Encode | Unreachable | Uncertain | Refused

  datatype Tried = Fine | Failed(error: PlcError)

  /** What a read back says is under the identifier. */
  datatype Held = Yes | No | Unknown

  // ---- The directory ----

  /** A directory, as far as one identifier goes: whether the operation is in,
      whether a tombstone followed it, and whether an operation is out that may
      still go in. */
  datatype World = World(filed: bool, retired: bool, loose: bool) {
    predicate Holds() {
      filed && !retired
    }

    /** Nothing is held, and nothing sent so far can change that. */
    predicate Free() {
      retired || (!filed && !loose)
    }

    predicate Untouched() {
      !filed && !retired && !loose
    }

    /** Where an operation still out goes in, or does not yet. */
    function Drift(lands: bool): World {
      this.(filed := filed || (loose && lands))
    }
  }

  /** One exchange as the world decides it: whether anything out goes in before
      it, what is said, and whether what was said nothing of goes in after. */
  datatype Reply = Reply(before: bool, says: Tried, after: bool)

  /** An operation sent. Only an exchange that broke off once it was connected,
      or ended in a server error, leaves it open. */
  function Attempted(w: World, reply: Reply): World {
    var w1 := w.Drift(reply.before);
    match reply.says
    case Fine => w1.(filed := true)
    case Failed(Uncertain) => w1.(loose := true).Drift(reply.after)
    case Failed(_) => w1
  }

  /** A tombstone sent. It names the operation it follows, so it is only taken
      where that is in. */
  function Buried(w: World, reply: Reply): (World, Tried) {
    var w1 := w.Drift(reply.before);
    match reply.says
    case Fine => if w1.filed then (w1.(retired := true), Fine) else (w1, Failed(Refused))
    case Failed(Uncertain) => (w1.(retired := w1.retired || (w1.filed && reply.after)), reply.says)
    case Failed(_) => (w1, reply.says)
  }

  /** A read back: whether anything out goes in before it, and whether it says. */
  datatype Glance = Glance(before: bool, answers: bool)

  /** What an answer says is true when it is given, and an operation not in by
      then never goes in. */
  function Glanced(w: World, glance: Glance): (World, Held) {
    var w1 := w.Drift(glance.before);
    if !glance.answers then (w1, Unknown)
    else (w1.(loose := false), if w1.Holds() then Yes else No)
  }

  /** One exchange with a directory: an operation sent, or a read back. */
  datatype Exchange = Sends(reply: Reply) | Asks(glance: Glance)

  function After(w: World, xs: seq<Exchange>): World {
    if xs == [] then w
    else
      var before := After(w, xs[..|xs| - 1]);
      match xs[|xs| - 1]
      case Sends(reply) => Attempted(before, reply)
      case Asks(glance) => Glanced(before, glance).0
  }

  /** An operation that was answered so. */
  ghost predicate Said(xs: seq<Exchange>, says: Tried) {
    exists i :: 0 <= i < |xs| && xs[i].Sends? && xs[i].reply.says == says
  }

  /** Nothing read back said anything from one exchange on. */
  ghost predicate Unanswered(xs: seq<Exchange>, i: nat) {
    forall j :: i < j < |xs| ==> !(xs[j].Asks? && xs[j].glance.answers)
  }

  /** An operation whose fate its caller could not tell, and has not been told
      since. */
  ghost predicate StillOut(xs: seq<Exchange>) {
    exists i :: 0 <= i < |xs| && xs[i].Sends? && xs[i].reply.says == Failed(Uncertain) && Unanswered(xs, i)
  }

  /** What a caller may conclude from what it was told, over any exchanges with
      a directory that began with nothing in it: something is held once any
      operation was said to be in; nothing is unless one was, or was left
      uncertain; and something may still go in exactly where an operation was
      left uncertain and nothing has answered since. */
  lemma {:induction false} ToldSoFar(w: World, xs: seq<Exchange>)
    requires w.Untouched()
    ensures !After(w, xs).retired
    ensures Said(xs, Fine) ==> After(w, xs).Holds()
    ensures After(w, xs).filed ==> Said(xs, Fine) || Said(xs, Failed(Uncertain))
    ensures After(w, xs).loose <==> StillOut(xs)
  {
    hide Said, StillOut;
    if xs == [] {
      NothingSaid();
    } else {
      ToldSoFar(w, xs[..|xs| - 1]);
      SaidNext(xs, Fine);
      SaidNext(xs, Failed(Uncertain));
      StillOutNext(xs);
      OutWasSaid(xs[..|xs| - 1]);
    }
  }

  lemma NothingSaid()
    ensures !Said([], Fine) && !Said([], Failed(Uncertain)) && !StillOut([])
  {
  }

  lemma OutWasSaid(xs: seq<Exchange>)
    ensures StillOut(xs) ==> Said(xs, Failed(Uncertain))
  {
  }

  lemma SaidNext(xs: seq<Exchange>, says: Tried)
    requires xs != []
    ensures var x := xs[|xs| - 1];
            Said(xs, says) <==> Said(xs[..|xs| - 1], says) || (x.Sends? && x.reply.says == says)
  {
    var n, before := |xs| - 1, xs[..|xs| - 1];
    if Said(before, says) {
      var i :| 0 <= i < n && before[i].Sends? && before[i].reply.says == says;
      assert xs[i] == before[i];
    }
    if Said(xs, says) {
      var i :| 0 <= i < |xs| && xs[i].Sends? && xs[i].reply.says == says;
      if i < n { assert before[i] == xs[i]; }
    }
  }

  lemma StillOutNext(xs: seq<Exchange>)
    requires xs != []
    ensures var x := xs[|xs| - 1];
            StillOut(xs)
            <==> if x.Sends? then x.reply.says == Failed(Uncertain) || StillOut(xs[..|xs| - 1])
                 else !x.glance.answers && StillOut(xs[..|xs| - 1])
  {
    var n, before := |xs| - 1, xs[..|xs| - 1];
    if StillOut(before) && !(xs[n].Asks? && xs[n].glance.answers) {
      var i :| 0 <= i < n && before[i].Sends? && before[i].reply.says == Failed(Uncertain) && Unanswered(before, i);
      assert xs[i] == before[i];
      forall j | i < j < |xs| ensures !(xs[j].Asks? && xs[j].glance.answers) {
        if j < n { assert before[j] == xs[j]; }
      }
      assert Unanswered(xs, i);
    }
    if xs[n].Sends? && xs[n].reply.says == Failed(Uncertain) { assert Unanswered(xs, n); }
    if StillOut(xs) {
      var i :| 0 <= i < |xs| && xs[i].Sends? && xs[i].reply.says == Failed(Uncertain) && Unanswered(xs, i);
      if i < n { assert before[i] == xs[i] && Unanswered(before, i); }
    }
  }

  /** What one reply tells: an operation said to be in is, one refused or never
      carried changed nothing but what was already out, and nothing that was
      held is let go of. */
  lemma ReplyIsTrue(w: World, reply: Reply)
    ensures var w' := Attempted(w, reply);
            && w'.retired == w.retired && (w.filed ==> w'.filed)
            && (reply.says == Fine ==> w'.filed)
            && (reply.says.Failed? && !reply.says.error.Uncertain? ==> w'.loose == w.loose)
            && (reply.says.Failed? && !reply.says.error.Uncertain? && w'.filed ==> w.filed || w.loose)
            && (w.Free() && reply.says.Failed? && !reply.says.error.Uncertain? ==> w'.Free())
  {
  }

  /** What an answer read back tells: it is so, and stays so until something
      more is sent. */
  lemma AnswerIsTrue(w: World, glance: Glance, lands: bool)
    ensures var (w', held) := Glanced(w, glance);
            && w'.retired == w.retired && (w.filed ==> w'.filed) && (w'.filed ==> w.filed || w.loose)
            && (held == Yes ==> w'.Holds() && w'.Drift(lands).Holds()) && (held == No ==> w'.Free())
            && (held == Unknown <==> !glance.answers)
            && (held != Unknown ==> w'.Drift(lands) == w')
  {
  }

  /** Everything a directory may do in the course of one signup, and wherever an
      exchange had got to when its caller went away. */
  datatype Script = Script(first: Reply, back: Glance, again: Reply, last: Glance, tomb: Reply, after: Glance,
                           broken: World)

  // ---- Registering ----

  /** The second half of a registration, after a first attempt that settled
      nothing: a read back, another attempt, another read back. */
  function Confirmed(w: World, sent: bool, s: Script): (World, Tried) {
    var (w1, held) := Glanced(w, s.back);
    if held == Yes then (w1, Fine)
    else
      var w2 := Attempted(w1, s.again);
      if s.again.says == Fine then (w2, Fine)
      else
        var (w3, held') := Glanced(w2, s.last);
        match held'
        case Yes => (w3, Fine)
        case No => (w3, s.again.says)
        case Unknown => (w3, if !sent && s.again.says != Failed(Uncertain) then s.again.says else Failed(Uncertain))
  }

  function Sent(w: World, s: Script): (World, Tried) {
    var w1 := Attempted(w, s.first);
    match s.first.says
    case Failed(Unreachable) => Confirmed(w1, false, s)
    case Failed(Uncertain) => Confirmed(w1, true, s)
    case says => (w1, says)
  }

  function Retired(w: World, s: Script): (World, bool) {
    var (w1, taken) := Buried(w, s.tomb);
    if taken != Fine then (w1, false)
    else
      var (w2, held) := Glanced(w1, s.after);
      (w2, held == No)
  }

  /** Whatever the directory does, an operation said to be in is; refused in any
      way but one, it is not and will not be. */
  lemma SendIsTrue(w: World, s: Script)
    requires w.Untouched()
    ensures var (w', r) := Sent(w, s);
            && !w'.retired && (r == Fine ==> w'.Holds())
            && (r.Failed? && !r.error.Uncertain? ==> w'.Free())
  {
    hide Confirmed;
    var w1 := Attempted(w, s.first);
    if s.first.says == Failed(Unreachable) { ConfirmIsTrue(w1, false, s); }
    if s.first.says == Failed(Uncertain) { ConfirmIsTrue(w1, true, s); }
  }

  lemma ConfirmIsTrue(w: World, sent: bool, s: Script)
    requires !w.retired && (!sent ==> w.Untouched())
    ensures var (w', r) := Confirmed(w, sent, s);
            && !w'.retired && (r == Fine ==> w'.Holds())
            && (r.Failed? && !r.error.Uncertain? ==> w'.Free())
  {
  }

  /** A first attempt that settled nothing, and no read back to settle it: the
      operation is sent again. */
  ghost predicate SentAgain(w: World, s: Script) {
    && (s.first.says == Failed(Unreachable) || s.first.says == Failed(Uncertain))
    && Glanced(Attempted(w, s.first), s.back).1 != Yes
  }

  /** What the second read back says. */
  ghost function LastSaid(w: World, s: Script): Held {
    Glanced(Attempted(Glanced(Attempted(w, s.first), s.back).0, s.again), s.last).1
  }

  /** The directory said the operation was in, or that it holds it. */
  ghost predicate HeardIn(w: World, s: Script) {
    || s.first.says == Fine
    || (s.first.says.Failed? && s.first.says.error in {Unreachable, Uncertain} && !SentAgain(w, s))
    || (SentAgain(w, s) && (s.again.says == Fine || LastSaid(w, s) == Yes))
  }

  /** The caller is left not knowing: no answer says the operation is in, and
      the last attempt was left open, or the first was and nothing read back
      says it is not. */
  ghost predicate LeftOpen(w: World, s: Script) {
    && SentAgain(w, s) && !HeardIn(w, s)
    && (s.again.says == Failed(Uncertain) || (s.first.says == Failed(Uncertain) && LastSaid(w, s) == Unknown))
  }

  /** What a registration answers, for whatever it was told. */
  ghost predicate Owed(w: World, s: Script, r: Tried) {
    && (r == Fine <==> HeardIn(w, s)) && (r == Failed(Uncertain) <==> LeftOpen(w, s))
    && (r.Failed? && !r.error.Uncertain? ==> r == if SentAgain(w, s) then s.again.says else s.first.says)
  }

  /** A registration answers Ok wherever it was told the operation is in, and is
      uncertain exactly where it was left not knowing. */
  lemma SendAnswers(w: World, s: Script)
    ensures Owed(w, s, Sent(w, s).1)
  {
  }

  /** Where both read backs are answered a registration that took says so. */
  lemma AnsweredIsKnown(w: World, s: Script)
    requires w.Untouched() && s.back.answers && s.last.answers
    ensures Sent(w, s).1 == Fine <==> Sent(w, s).0.Holds()
  {
  }

  /** Retiring works exactly where a tombstone is taken of something that is in
      and the read back answers. */
  lemma RetiresExactly(w: World, s: Script)
    ensures Retired(w, s).1 <==> s.tomb.says == Fine && w.Drift(s.tomb.before).filed && s.after.answers
    ensures Retired(w, s).1 ==> Retired(w, s).0.retired
    ensures Retired(w, s).0.retired && !w.retired && s.tomb.says == Fine ==> w.Drift(s.tomb.before).filed
  {
  }

  /** An identifier said to be retired is nobody's for good. */
  lemma RetireIsTrue(w: World, s: Script)
    ensures Retired(w, s).1 ==> Retired(w, s).0.Free()
  {
  }

  // ---- Signing up ----

  /** What is to be done about an account when its guard goes. */
  datatype Rollback = Discard | Keep | Nothing

  /** The awaits a request can be dropped at. */
  datatype Await = Settling | Sending | Retiring | Releasing | Logging

  datatype Outcome = Created | NotSettled | Unregistered(error: PlcError) | Dropped(at: Await)

  /** How a signup ended. */
  datatype Ending = Ending(world: World, outcome: Outcome, rollback: Rollback) {
    /** Whether the account is still there. */
    predicate Standing() {
      rollback != Discard
    }
  }

  /** A signup from where its guard is armed: `settles` is whether everything
      local was written, and `drops` the awaits its caller would hang up at. */
  function Signup(w: World, settles: bool, drops: set<Await>, s: Script): Ending {
    if Settling in drops then Ending(w, Dropped(Settling), Discard)
    else if !settles then Ending(w, NotSettled, Discard)
    else if Sending in drops then Ending(s.broken, Dropped(Sending), Keep)
    else
      var (w1, sent) := Sent(w, s);
      if sent == Failed(Uncertain) then
        if Retiring in drops then Ending(s.broken, Dropped(Retiring), Keep)
        else
          var (w2, gone) := Retired(w1, s);
          Answered(w2, sent, if gone then Discard else Keep, drops)
      else Answered(w1, sent, Discard, drops)
  }

  /** The rest of it, once the directory has been asked all it will be. */
  function Answered(w: World, sent: Tried, rollback: Rollback, drops: set<Await>): Ending {
    if Releasing in drops then Ending(w, Dropped(Releasing), rollback)
    else if sent != Fine then Ending(w, Unregistered(sent.error), rollback)
    else if Logging in drops then Ending(w, Dropped(Logging), Nothing)
    else Ending(w, Created, Nothing)
  }

  /** How a signup ends, for whatever it was told and wherever its caller would
      hang up: it is created exactly where all that is local was written, the
      directory was heard to hold it and nobody hung up on the way. The account
      is left standing then, wherever nobody can say what the directory did, and
      where an uncertain registration could not be shown to be retired. */
  ghost predicate EndsAs(w: World, settles: bool, drops: set<Await>, s: Script, outcome: Outcome, standing: bool,
                         retired: bool) {
    var asked := settles && Settling !in drops && Sending !in drops;
    && (outcome == Created <==> asked && HeardIn(w, s) && Releasing !in drops && Logging !in drops)
    && (outcome == NotSettled <==> !settles && Settling !in drops)
    && (outcome.Unregistered? <==>
          && asked && !HeardIn(w, s) && Releasing !in drops && !(LeftOpen(w, s) && Retiring in drops))
    && (outcome.Unregistered? ==> Owed(w, s, Failed(outcome.error)))
    && (outcome == Unregistered(Uncertain) <==>
          && asked && LeftOpen(w, s) && Releasing !in drops && Retiring !in drops)
    && (outcome == Dropped(Settling) <==> Settling in drops)
    && (outcome == Dropped(Sending) <==> settles && Settling !in drops && Sending in drops)
    && (outcome == Dropped(Retiring) <==> asked && LeftOpen(w, s) && Retiring in drops)
    && (outcome == Dropped(Logging) <==> asked && HeardIn(w, s) && Releasing !in drops && Logging in drops)
    && (standing <==>
          || outcome == Created || outcome == Dropped(Sending) || outcome == Dropped(Retiring)
          || outcome == Dropped(Logging)
          || (LeftOpen(w, s) && (outcome == Unregistered(Uncertain) || outcome == Dropped(Releasing))
              && !(s.tomb.says == Fine && retired && s.after.answers)))
  }

  lemma SignupEnds(w: World, settles: bool, drops: set<Await>, s: Script)
    requires w.Untouched()
    ensures var e := Signup(w, settles, drops, s);
            EndsAs(w, settles, drops, s, e.outcome, e.Standing(), e.world.retired)
  {
    hide Sent, Retired, HeardIn, LeftOpen, Attempted, Glanced, Buried, Owed;
    SentIs(w, s);
    RetiredIs(Sent(w, s).0, s);
  }

  lemma SentIs(w: World, s: Script)
    requires w.Untouched()
    ensures Sent(w, s).1 == Fine <==> HeardIn(w, s)
    ensures Sent(w, s).1 == Failed(Uncertain) <==> LeftOpen(w, s)
    ensures !(HeardIn(w, s) && LeftOpen(w, s)) && !Sent(w, s).0.retired && Owed(w, s, Sent(w, s).1)
  {
    SendAnswers(w, s);
    SendIsTrue(w, s);
    hide Sent;
  }

  lemma RetiredIs(w: World, s: Script)
    requires !w.retired
    ensures Retired(w, s).1 <==> s.tomb.says == Fine && Retired(w, s).0.retired && s.after.answers
  {
    RetiresExactly(w, s);
    hide Retired;
  }

  /** A signup that returns takes its account back out only when nothing is held
      under its identifier, and leaves it in whenever something is. */
  lemma ReturningIsSafe(w: World, settles: bool, drops: set<Await>, s: Script)
    requires w.Untouched()
    ensures var e := Signup(w, settles, drops, s);
            && (e.outcome == Created ==> e.world.Holds() && e.Standing())
            && (!e.outcome.Dropped? && !e.Standing() ==> e.world.Free())
            && (!e.outcome.Dropped? && e.world.Holds() ==> e.Standing())
            && (e.outcome.Unregistered? && !e.outcome.error.Uncertain? ==> !e.Standing())
            && (e.outcome == NotSettled ==> !e.Standing())
            && (e.outcome.Dropped? ==> e.outcome.at in drops)
  {
    hide Sent, Retired;
    SendIsTrue(w, s);
    RetireIsTrue(Sent(w, s).0, s);
  }

  /** A caller that hangs up too: the account of a held identifier is taken out
      in exactly one window, which is there to be fallen into. A signup whose
      caller would hang up while the reserved key is released may discard what
      the directory holds, and one whose caller would not never does. */
  lemma OneWindow(settles: bool, drops: set<Await>)
    ensures (exists w: World, s :: w.Untouched() && Discards(Signup(w, settles, drops, s)))
            <==> settles && Releasing in drops && Settling !in drops && Sending !in drops
  {
    hide Sent, Retired;
    forall w: World, s | w.Untouched() && Discards(Signup(w, settles, drops, s))
      ensures settles && Releasing in drops && Settling !in drops && Sending !in drops
    {
      SendIsTrue(w, s);
      RetireIsTrue(Sent(w, s).0, s);
    }
    if settles && Releasing in drops && Settling !in drops && Sending !in drops {
      FallsIn(drops);
    }
  }

  /** An account gone whose identifier is held, or may come to be. */
  ghost predicate Discards(e: Ending) {
    !e.Standing() && !e.world.Free()
  }

  lemma FallsIn(drops: set<Await>)
    requires Releasing in drops && Settling !in drops && Sending !in drops
    ensures exists w: World, s ::
              w.Untouched() && Discards(Signup(w, true, drops, s)) && Signup(w, true, drops, s).world.Holds()
  {
    var yes, glance := Reply(false, Fine, false), Glance(false, true);
    var w := World(false, false, false);
    var s := Script(yes, glance, yes, glance, yes, glance, w);
    assert Sent(w, s) == (World(true, false, false), Fine);
    assert Discards(Signup(w, true, drops, s)) && Signup(w, true, drops, s).world.Holds();
  }

  // ---- The same, step by step ----

  /** A directory acting as it will. */
  class Directory {
    var world: World

    constructor ()
      ensures world.Untouched()
    {
      world := World(false, false, false);
    }

    /** One operation, sent. */
    method Attempt() returns (r: Tried, ghost reply: Reply)
      modifies this
      ensures world == Attempted(old(world), reply) && r == reply.says
      ensures world.retired == old(world).retired && (old(world).filed || r == Fine ==> world.filed)
      ensures old(world).Free() && r.Failed? && !r.error.Uncertain? ==> world.Free()
    {
      var choice: Reply := *;
      world, r, reply := Attempted(world, choice), choice.says, choice;
    }

    /** A tombstone, sent. */
    method Bury() returns (r: Tried, ghost reply: Reply)
      modifies this
      ensures (world, r) == Buried(old(world), reply)
      ensures r == Fine ==> world.Free() && old(world).Drift(reply.before).filed
      ensures r.Failed? && !r.error.Uncertain? ==> world.retired == old(world).retired
    {
      var choice: Reply := *;
      var (w, said) := Buried(world, choice);
      world, r, reply := w, said, choice;
    }

    /** What it says is under the identifier. */
    method Ask() returns (held: Held, ghost glance: Glance)
      modifies this
      ensures (world, held) == Glanced(old(world), glance)
      ensures (held == Yes ==> world.Holds()) && (held == No ==> world.Free())
    {
      var choice: Glance := *;
      var (w, said) := Glanced(world, choice);
      world, held, glance := w, said, choice;
    }

    /** An exchange cut off at any point. */
    method BreakOff()
      modifies this
    {
      world := *;
    }
  }

  method Confirm(dir: Directory, sent: bool, ghost s: Script) returns (r: Tried, ghost s': Script)
    modifies dir
    ensures (dir.world, r) == Confirmed(old(dir.world), sent, s') && s'.first == s.first
  {
    var held, back := dir.Ask();
    s' := s.(back := back);
    if held == Yes { return Fine, s'; }
    var again, reply := dir.Attempt();
    s' := s'.(again := reply);
    if again == Fine { return Fine, s'; }
    var held', last := dir.Ask();
    s' := s'.(last := last);
    match held' {
      case Yes => r := Fine;
      case No => r := again;
      case Unknown => r := if !sent && again != Failed(Uncertain) then again else Failed(Uncertain);
    }
  }

  method Send(dir: Directory, ghost s: Script) returns (r: Tried, ghost s': Script)
    modifies dir
    ensures (dir.world, r) == Sent(old(dir.world), s') && Owed(old(dir.world), s', r)
  {
    ghost var was := dir.world;
    ghost var first;
    r, first := dir.Attempt();
    s' := s.(first := first);
    if r == Failed(Unreachable) {
      r, s' := Confirm(dir, false, s');
    } else if r == Failed(Uncertain) {
      r, s' := Confirm(dir, true, s');
    }
    SendAnswers(was, s');
  }

  method Retire(dir: Directory, ghost s: Script) returns (gone: bool, ghost s': Script)
    modifies dir
    ensures (dir.world, gone) == Retired(old(dir.world), s')
    ensures gone <==> s'.tomb.says == Fine && old(dir.world).Drift(s'.tomb.before).filed && s'.after.answers
    ensures s' == s.(tomb := s'.tomb, after := s'.after)
  {
    var taken, tomb := dir.Bury();
    s' := s.(tomb := tomb);
    if taken != Fine { return false, s'; }
    var held, after := dir.Ask();
    s' := s'.(after := after);
    gone := held == No;
  }

  /** What is sent does not turn on what is read later. */
  lemma SentBefore(w: World, s: Script, s': Script)
    requires s' == s.(tomb := s'.tomb, after := s'.after, broken := s'.broken)
    ensures Sent(w, s') == Sent(w, s)
  {
  }

  /** A signup, with what its guard does as it goes. */
  method Create(dir: Directory, settles: bool, drops: set<Await>)
    returns (outcome: Outcome, standing: bool, ghost s: Script)
    modifies dir
    ensures var e := Signup(old(dir.world), settles, drops, s);
            dir.world == e.world && outcome == e.outcome && standing == e.Standing()
    ensures old(dir.world).Untouched() ==>
              EndsAs(old(dir.world), settles, drops, s, outcome, standing, dir.world.retired)
    ensures old(dir.world).Untouched() ==>
              && (!standing && !outcome.Dropped? ==> dir.world.Free())
              && (Releasing !in drops && !standing ==> dir.world.Free())
  {
    s := *;
    var rollback := Discard;
    ghost var was := dir.world;
    if dir.world.Untouched() {
      forall s'
        ensures var e := Signup(was, settles, drops, s'); Discards(e) ==> Releasing in drops && e.outcome.Dropped?
      {
        ReturningIsSafe(was, settles, drops, s');
        OneWindow(settles, drops);
      }
      forall s'
        ensures var e := Signup(was, settles, drops, s');
                EndsAs(was, settles, drops, s', e.outcome, e.Standing(), e.world.retired)
      {
        SignupEnds(was, settles, drops, s');
      }
    }
    hide Sent, Retired, EndsAs, Owed;
    if Settling in drops { return Dropped(Settling), false, s; }
    if !settles { return NotSettled, false, s; }

    // From here the directory may know, so only its answer can say.
    rollback := Keep;
    if Sending in drops {
      dir.BreakOff();
      s := s.(broken := dir.world);
      return Dropped(Sending), rollback != Discard, s;
    }
    var sent;
    sent, s := Send(dir, s);
    var settled := true;
    if sent == Failed(Uncertain) {
      if Retiring in drops {
        dir.BreakOff();
        SentBefore(was, s, s.(broken := dir.world));
        s := s.(broken := dir.world);
        return Dropped(Retiring), rollback != Discard, s;
      }
      ghost var before := s;
      settled, s := Retire(dir, s);
      SentBefore(was, before, s);
    }
    if settled { rollback := Discard; }
    if Releasing in drops { return Dropped(Releasing), rollback != Discard, s; }
    if sent != Fine { return Unregistered(sent.error), rollback != Discard, s; }

    // Registered, and no longer to be undone.
    rollback := Nothing;
    if Logging in drops { return Dropped(Logging), rollback != Discard, s; }
    outcome, standing := Created, rollback != Discard;
  }
}
