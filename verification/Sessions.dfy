/** Session rows, their rotation, and rotations interleaved. */
module Sessions {
  import opened Data

  /** Seconds: a token exchanged lives this much longer, and a new one this. */
  const GRACE: int := 2 * 3600
  const LIFETIME: int := 90 * 24 * 3600

  /** An account, with the name of an app password for sessions under one. */
  datatype Owner = Owner(did: Key, password: Option<Key>)

  /** A row. `born` tells one writing of an id's row from another. */
  datatype Row = Row(owner: Owner, expires: int, next: Option<Key>, born: nat)

  type Rows = map<Key, Row>

  // ---- The table ----

  /** Insert, unless the id has a row. */
  function Stored(rows: Rows, id: Key, row: Row): Rows {
    if id in rows then rows else rows[id := row]
  }

  predicate Rotates(rows: Rows, id: Key, next: Key) {
    id in rows && (rows[id].next.None? || rows[id].next.value == next)
  }

  /** A rotation of one row: it ends at `until`, and `next` is its successor
      and has a row. A row with another successor is a rotation that does not
      happen. */
  function Rotated(rows: Rows, id: Key, until: int, next: Key, row: Row): Rows {
    if Rotates(rows, id, next) then Stored(rows[id := rows[id].(expires := until, next := Some(next))], next, row)
    else rows
  }

  function Min(a: int, b: int): (m: int)
    ensures m <= a && m <= b && (m == a || m == b)
  {
    if a < b then a else b
  }

  class Accounts {
    var rows: Rows
    var passwords: set<(Key, Key)>

    constructor ()
      ensures rows == map[] && passwords == {}
    {
      rows, passwords := map[], {};
    }

    method StoreSession(id: Key, row: Row)
      modifies this`rows
      ensures rows == Stored(old(rows), id, row)
    {
      if id !in rows { rows := rows[id := row]; }
    }

    /** Afterwards every row an account has is live, and the rows that were live
        or another account's are where they were, so no exchange that would have
        been answered is refused for it. */
    method ExpireSessions(did: Key, now: int)
      modifies this`rows
      ensures forall id :: id in rows && rows[id].owner.did == did ==> rows[id].expires > now
      ensures forall id :: id in rows ==> id in old(rows) && rows[id] == old(rows)[id]
      ensures forall id ::
                id in old(rows) && (old(rows)[id].owner.did != did || old(rows)[id].expires > now) ==> id in rows
    {
      rows := map id | id in rows && !(rows[id].owner.did == did && rows[id].expires <= now) :: rows[id];
    }

    method Rotate(id: Key, until: int, next: Key, row: Row) returns (held: bool)
      modifies this`rows
      ensures held == Rotates(old(rows), id, next) && rows == Rotated(old(rows), id, until, next, row)
    {
      held := id in rows && (rows[id].next.None? || rows[id].next.value == next);
      if held {
        rows := rows[id := rows[id].(expires := until, next := Some(next))];
        StoreSession(next, row);
      }
    }

    /** Ends an app password and all of its sessions at once. */
    method RevokeAppPassword(did: Key, name: Key) returns (deleted: bool)
      modifies this
      ensures passwords == old(passwords) - {(did, name)} && deleted == ((did, name) in old(passwords))
      ensures forall id :: id in rows <==> id in old(rows) && old(rows)[id].owner != Owner(did, Some(name))
      ensures forall id :: id in rows ==> rows[id] == old(rows)[id]
    {
      deleted := (did, name) in passwords;
      passwords := passwords - {(did, name)};
      rows := map id | id in rows && rows[id].owner != Owner(did, Some(name)) :: rows[id];
    }

    /** Exchanges a refresh token with nothing else at work: it is refused
        exactly where there is no row or its time is up, and otherwise answered
        with the one session its row names, which is there, its own, and no
        longer to live for it. Of every other row, only those of the same
        account whose time was up are gone, and none is different. */
    method Exchange(id: Key, now: int, drawn: Key, born: nat) returns (r: Option<Key>)
      requires drawn !in rows && drawn != id
      modifies this`rows
      ensures r.Some? <==> id in old(rows) && old(rows)[id].expires > now
      ensures r.Some? ==>
                && r.value == old(rows)[id].next.GetOr(drawn)
                && id in rows && rows[id].next == r && r.value in rows
                && rows[id].expires == Min(old(rows)[id].expires, now + GRACE)
                && rows[id].owner == old(rows)[id].owner
      ensures r.Some? && (r.value !in old(rows) || Over(old(rows), old(rows)[id].owner.did, r.value, now)) ==>
                rows[r.value] == Row(old(rows)[id].owner, now + LIFETIME, None, born)
      ensures id !in old(rows) ==> rows == old(rows)
      ensures id in old(rows) ==>
                forall k :: k in old(rows) && k != id && r != Some(k) ==>
                  (k in rows <==> !Over(old(rows), old(rows)[id].owner.did, k, now))
      ensures forall k :: k in rows && k != id && !(r == Some(k) && k !in old(rows))
                          && !(id in old(rows) && Over(old(rows), old(rows)[id].owner.did, k, now)) ==>
                k in old(rows) && rows[k] == old(rows)[k]
      ensures id in old(rows) && r.None? ==> id !in rows
    {
      if id !in rows { return None; }
      var session := rows[id];
      ExpireSessions(session.owner.did, now);
      var until := Min(session.expires, now + GRACE);
      if until <= now { return None; }
      var next := if session.next.Some? then session.next.value else drawn;
      var held := Rotate(id, until, next, Row(session.owner, now + LIFETIME, None, born));
      r := Some(next);
    }
  }

  /** A row of one account whose time is up. */
  predicate Over(rows: Rows, did: Key, id: Key, now: int) {
    id in rows && rows[id].owner.did == did && rows[id].expires <= now
  }

  // ---- Exchanges, interleaved ----

  /** One exchange: what it read, then what it means to write. */
  datatype Flight =
    | Grounded
    | Seen(id: Key, row: Row)
    | Aimed(id: Key, row: Row, until: int, next: Key, expires: int)

  /** The table; whose every id ever handed out is; when a token named each
      successor is to end; exchanges under way; how many rows have been written;
      and the time. */
  datatype System = System(rows: Rows, owners: map<Key, Owner>, terms: map<Key, int>, flights: map<nat, Flight>,
                           births: nat, clock: int)

  datatype Step =
    | Open(id: Key, owner: Owner, expires: int)
    | Read(f: nat, id: Key)
    | Aim(f: nat, now: int, drawn: Key)
    | Rotate(f: nat)
    | Quit(f: nat)
      /** Revoked one by one, by account or by app password, or run out. */
    | Delete(gone: set<Key>)

  ghost predicate Opens(s: System, id: Key, owner: Owner, expires: int, s': System) {
    && id !in s.owners
    && s' == s.(rows := s.rows[id := Row(owner, expires, None, s.births)], owners := s.owners[id := owner],
                births := s.births + 1)
  }

  ghost predicate Reads(s: System, f: nat, id: Key, s': System) {
    f in s.flights && id in s.rows && s' == s.(flights := s.flights[f := Seen(id, s.rows[id])])
  }

  /** Works out what to write: the successor the row names, or an id nothing has
      used, and whichever of the token's own end and the grace period is first. */
  ghost predicate Aims(s: System, f: nat, now: int, drawn: Key, s': System) {
    && f in s.flights && s.flights[f].Seen? && now >= s.clock
    && var t := s.flights[f];
       var until := Min(t.row.expires, now + GRACE);
       && until > now
       && if t.row.next.Some? then
            s' == s.(flights := s.flights[f := Aimed(t.id, t.row, until, t.row.next.value, now + LIFETIME)],
                     clock := now)
          else
            && drawn !in s.owners
            && s' == s.(flights := s.flights[f := Aimed(t.id, t.row, until, drawn, now + LIFETIME)],
                        owners := s.owners[drawn := t.row.owner], terms := s.terms[drawn := until], clock := now)
  }

  ghost predicate Writes(s: System, f: nat, s': System) {
    && f in s.flights && s.flights[f].Aimed?
    && var t := s.flights[f];
       s' == s.(rows := Rotated(s.rows, t.id, t.until, t.next, Row(t.row.owner, t.expires, None, s.births)),
                flights := s.flights[f := Grounded], births := s.births + 1)
  }

  ghost predicate Next(s: System, step: Step, s': System) {
    match step
    case Open(id, owner, expires) => Opens(s, id, owner, expires, s')
    case Read(f, id) => Reads(s, f, id, s')
    case Aim(f, now, drawn) => Aims(s, f, now, drawn, s')
    case Rotate(f) => Writes(s, f, s')
    case Quit(f) => f in s.flights && s' == s.(flights := s.flights[f := Grounded])
    case Delete(gone) => s' == s.(rows := s.rows - gone)
  }

  // ---- What always holds ----

  /** One account and one app password all down the chain, and one end for any
      token that names a successor. */
  ghost predicate Names(s: System, owner: Owner, next: Key, until: int) {
    && next in s.owners && s.owners[next] == owner
    && next in s.terms && s.terms[next] == until <= s.clock + GRACE
  }

  ghost predicate RowSound(s: System, id: Key, row: Row) {
    && id in s.owners && row.owner == s.owners[id] && row.born < s.births
    && (row.next.Some? ==> Names(s, row.owner, row.next.value, row.expires))
  }

  /** What an exchange read is what its row still says, or its row has been named
      a successor since, or is gone, or is a row written after. */
  ghost predicate Current(s: System, id: Key, row: Row) {
    && RowSound(s, id, row)
    && (id in s.rows && s.rows[id].born == row.born ==>
          s.rows[id] == row || (row.next.None? && s.rows[id].next.Some?))
  }

  /** An id drawn and not yet written is in no row and no snapshot. */
  ghost predicate Unwritten(s: System, next: Key) {
    && next !in s.rows && (forall id :: id in s.rows ==> s.rows[id].next != Some(next))
    && (forall g :: g in s.flights && !s.flights[g].Grounded? ==> s.flights[g].row.next != Some(next))
  }

  ghost predicate FlightSound(s: System, t: Flight) {
    && (!t.Grounded? ==> Current(s, t.id, t.row))
    && (t.Aimed? ==>
          && Names(s, t.row.owner, t.next, t.until) && t.until <= t.row.expires
          && (t.row.next.Some? ==> t.next == t.row.next.value)
          && (t.row.next.None? ==> Unwritten(s, t.next)))
  }

  /** No other exchange means to write an id one drew. */
  ghost predicate Apart(s: System) {
    forall f, g :: f in s.flights && g in s.flights && f != g && s.flights[f].Aimed? && s.flights[g].Aimed?
                   && s.flights[f].row.next.None? ==>
      s.flights[f].next != s.flights[g].next
  }

  ghost predicate Good(s: System) {
    && (forall id :: id in s.rows ==> RowSound(s, id, s.rows[id])) && Apart(s)
    && (forall next :: next in s.terms ==> next in s.owners)
    && (forall f :: f in s.flights ==> FlightSound(s, s.flights[f]))
  }

  lemma OpenKeeps(s: System, id: Key, owner: Owner, expires: int, s': System)
    requires Good(s) && Opens(s, id, owner, expires, s')
    ensures Good(s')
  {
    forall f | f in s'.flights ensures FlightSound(s', s'.flights[f]) {
      assert FlightSound(s, s.flights[f]);
    }
  }

  lemma ReadKeeps(s: System, f: nat, id: Key, s': System)
    requires Good(s) && Reads(s, f, id, s')
    ensures Good(s')
  {
    assert RowSound(s, id, s.rows[id]);
    forall g | g in s'.flights ensures FlightSound(s', s'.flights[g]) {
      assert FlightSound(s, s.flights[g]);
    }
  }

  lemma AimKeeps(s: System, f: nat, now: int, drawn: Key, s': System)
    requires Good(s) && Aims(s, f, now, drawn, s')
    ensures Good(s')
  {
    assert FlightSound(s, s.flights[f]);
    forall id | id in s'.rows ensures RowSound(s', id, s'.rows[id]) {
      assert RowSound(s, id, s.rows[id]);
    }
    forall g | g in s'.flights ensures FlightSound(s', s'.flights[g]) {
      assert FlightSound(s, s.flights[g]);
      if g == f { AimSound(s, f, now, drawn, s'); } else { AimSpares(s, f, now, drawn, s', g); }
    }
    hide FlightSound, RowSound, Names, Unwritten, Current;
    assert Apart(s') by {
      forall g | g in s.flights && g != f && s.flights[g].Aimed?
        ensures s.flights[g].next != s'.flights[f].next || (s.flights[g].row.next.Some? && s.flights[f].row.next.Some?)
      {
        AimApart(s, f, now, drawn, s', g);
      }
    }
  }

  lemma AimSound(s: System, f: nat, now: int, drawn: Key, s': System)
    requires Good(s) && Aims(s, f, now, drawn, s') && FlightSound(s, s.flights[f])
    ensures FlightSound(s', s'.flights[f])
  {
    var row := s.flights[f].row;
    if row.next.None? {
      forall id | id in s.rows ensures id != drawn && s.rows[id].next != Some(drawn) {
        assert RowSound(s, id, s.rows[id]);
      }
      forall g | g in s'.flights && !s'.flights[g].Grounded? ensures s'.flights[g].row.next != Some(drawn) {
        assert FlightSound(s, s.flights[g]);
      }
    }
  }

  lemma AimSpares(s: System, f: nat, now: int, drawn: Key, s': System, g: nat)
    requires Aims(s, f, now, drawn, s') && g in s.flights && g != f && FlightSound(s, s.flights[g])
    requires forall next :: next in s.terms ==> next in s.owners
    ensures FlightSound(s', s'.flights[g])
  {
  }

  lemma AimApart(s: System, f: nat, now: int, drawn: Key, s': System, g: nat)
    requires Good(s) && Aims(s, f, now, drawn, s') && g in s.flights && g != f && s.flights[g].Aimed?
    ensures s.flights[g].next != s'.flights[f].next || (s.flights[g].row.next.Some? && s.flights[f].row.next.Some?)
  {
    assert FlightSound(s, s.flights[g]) && FlightSound(s, s.flights[f]);
  }

  lemma DeleteKeeps(s: System, gone: set<Key>, s': System)
    requires Good(s) && s' == s.(rows := s.rows - gone)
    ensures Good(s')
  {
    forall g | g in s'.flights ensures FlightSound(s', s'.flights[g]) {
      assert FlightSound(s, s.flights[g]);
    }
  }

  lemma WriteKeeps(s: System, f: nat, s': System)
    requires Good(s) && Writes(s, f, s')
    ensures Good(s')
  {
    var t := s.flights[f];
    assert FlightSound(s, t);
    forall id | id in s'.rows ensures RowSound(s', id, s'.rows[id]) {
      if id in s.rows { assert RowSound(s, id, s.rows[id]); }
    }
    forall g | g in s'.flights ensures FlightSound(s', s'.flights[g]) {
      WriteSpares(s, f, s', g);
    }
  }

  lemma WriteSpares(s: System, f: nat, s': System, g: nat)
    requires Good(s) && Writes(s, f, s') && g in s.flights
    ensures FlightSound(s', s'.flights[g])
  {
    assert FlightSound(s, s.flights[g]) && FlightSound(s, s.flights[f]);
  }

  lemma QuitKeeps(s: System, f: nat, s': System)
    requires Good(s) && f in s.flights && s' == s.(flights := s.flights[f := Grounded])
    ensures Good(s')
  {
    forall g | g in s'.flights ensures FlightSound(s', s'.flights[g]) {
      assert FlightSound(s, s.flights[g]);
    }
  }

  /** Every step keeps it, whoever takes it. */
  lemma StepKeeps(s: System, step: Step, s': System)
    requires Good(s) && Next(s, step, s')
    ensures Good(s')
  {
    hide Good, Opens, Reads, Aims, Writes;
    match step
    case Open(id, owner, expires) => OpenKeeps(s, id, owner, expires, s');
    case Read(f, id) => ReadKeeps(s, f, id, s');
    case Aim(f, now, drawn) => AimKeeps(s, f, now, drawn, s');
    case Rotate(f) => WriteKeeps(s, f, s');
    case Quit(f) => QuitKeeps(s, f, s');
    case Delete(gone) => DeleteKeeps(s, gone, s');
  }

  // ---- What an exchange gives ----

  /** An exchange that lands answers with the successor its row names, which is
      there and is its own; and the token it read is never the longer for it. */
  lemma ExchangeAnswers(s: System, f: nat, s': System)
    requires Good(s) && Writes(s, f, s') && Rotates(s.rows, s.flights[f].id, s.flights[f].next)
    ensures var t := s.flights[f];
            && t.id in s'.rows && s'.rows[t.id].next == Some(t.next) && s'.rows[t.id].born == s.rows[t.id].born
            && t.next in s'.rows && s'.rows[t.next].owner == s'.rows[t.id].owner == t.row.owner
            && (s.rows[t.id].born == t.row.born || s.rows[t.id].next.Some? ==>
                  s'.rows[t.id].expires <= s.rows[t.id].expires)
  {
    var t := s.flights[f];
    assert FlightSound(s, t) && RowSound(s, t.id, s.rows[t.id]);
    if t.next in s.rows { assert RowSound(s, t.next, s.rows[t.next]); }
  }

  /** A token is lengthened exactly where its row was deleted and written again,
      to end sooner, since it was read: one unnamed row in place of another. */
  lemma LengthensExactly(s: System, f: nat, s': System)
    requires Good(s) && Writes(s, f, s') && Rotates(s.rows, s.flights[f].id, s.flights[f].next)
    ensures var t := s.flights[f];
            s'.rows[t.id].expires > s.rows[t.id].expires
            <==> && s.rows[t.id].born != t.row.born && s.rows[t.id].next.None?
                 && t.until > s.rows[t.id].expires
  {
    ExchangeAnswers(s, f, s');
    hide Good;
  }

  /** While a row lives its successor, once named, never changes, nor does its
      end; and a row that was not there before is a new one. */
  lemma SuccessorStays(s: System, step: Step, s': System, id: Key)
    requires Good(s) && Next(s, step, s') && id in s'.rows
    ensures s.births <= s'.births
    ensures id in s.rows && s.rows[id].born == s'.rows[id].born && s.rows[id].next.Some? ==>
              s'.rows[id].next == s.rows[id].next && s'.rows[id].expires == s.rows[id].expires
    ensures id !in s.rows || s.rows[id].born != s'.rows[id].born ==> s'.rows[id].born >= s.births
  {
    if step.Rotate? {
      var t := s.flights[step.f];
      assert FlightSound(s, t);
      if id in s.rows { assert RowSound(s, id, s.rows[id]); }
    }
  }

  // ---- Whole runs ----

  ghost predicate Run(run: seq<System>, steps: seq<Step>) {
    |run| == |steps| + 1 && forall i :: 0 <= i < |steps| ==> Next(run[i], steps[i], run[i + 1])
  }

  ghost predicate Start(s: System) {
    s.rows == map[] && s.owners == map[] && s.terms == map[] && forall f :: f in s.flights ==> s.flights[f].Grounded?
  }

  lemma {:induction false} AlwaysGood(run: seq<System>, steps: seq<Step>, i: nat)
    requires Run(run, steps) && Start(run[0]) && i < |run|
    ensures Good(run[i])
  {
    if i > 0 {
      AlwaysGood(run, steps, i - 1);
      hide Good;
      assert Next(run[i - 1], steps[i - 1], run[i]);
      StepKeeps(run[i - 1], steps[i - 1], run[i]);
    }
  }

  /** A successor, once named, is the row's for as long as the row lives. */
  lemma {:induction false} OneSuccessor(run: seq<System>, steps: seq<Step>, i: nat, j: nat, id: Key)
    requires Run(run, steps) && Start(run[0]) && i <= j < |run|
    requires id in run[i].rows && run[i].rows[id].next.Some?
    ensures run[i].births <= run[j].births
    ensures id in run[j].rows && run[j].rows[id].born == run[i].rows[id].born ==>
              run[j].rows[id].next == run[i].rows[id].next && run[j].rows[id].expires == run[i].rows[id].expires
    decreases j - i
  {
    if i < j {
      OneSuccessor(run, steps, i, j - 1, id);
      AlwaysGood(run, steps, j - 1);
      AlwaysGood(run, steps, i);
      BornBefore(run[i], id);
      hide Good;
      assert Next(run[j - 1], steps[j - 1], run[j]);
      BirthsRise(run[j - 1], steps[j - 1], run[j]);
      if id in run[j].rows { SuccessorStays(run[j - 1], steps[j - 1], run[j], id); }
    }
  }

  lemma BornBefore(s: System, id: Key)
    requires Good(s) && id in s.rows
    ensures s.rows[id].born < s.births
  {
    assert RowSound(s, id, s.rows[id]);
  }

  lemma BirthsRise(s: System, step: Step, s': System)
    requires Next(s, step, s')
    ensures s.births <= s'.births
  {
  }

  /** The exchanges of one token, however they interleave, all answer with one
      session for as long as its row lives. */
  lemma AllAnswerOne(run: seq<System>, steps: seq<Step>, i: nat, j: nat, id: Key, x: Key, y: Key)
    requires Run(run, steps) && Start(run[0]) && i < j < |steps|
    requires steps[i].Rotate? && Lands(run[i], steps[i].f, id, x)
    requires steps[j].Rotate? && Lands(run[j], steps[j].f, id, y)
    requires run[i].rows[id].born == run[j].rows[id].born
    ensures x == y
  {
    AlwaysGood(run, steps, i);
    assert Next(run[i], steps[i], run[i + 1]);
    hide Good;
    ExchangeAnswers(run[i], steps[i].f, run[i + 1]);
    OneSuccessor(run, steps, i + 1, j, id);
  }

  /** An exchange about to land on a token, answering with a successor. */
  ghost predicate Lands(s: System, f: nat, id: Key, next: Key) {
    && f in s.flights && s.flights[f].Aimed? && s.flights[f].id == id && s.flights[f].next == next
    && Rotates(s.rows, id, next)
  }

  // ---- Revoked app passwords ----

  ghost predicate NoneUnder(s: System, owner: Owner) {
    forall id :: id in s.rows ==> s.rows[id].owner != owner
  }

  lemma RevokedStep(s: System, step: Step, s': System, owner: Owner)
    requires Good(s) && Next(s, step, s') && NoneUnder(s, owner) && !(step.Open? && step.owner == owner)
    ensures NoneUnder(s', owner)
    ensures step.Rotate? && Rotates(s.rows, s.flights[step.f].id, s.flights[step.f].next) ==>
              s.flights[step.f].row.owner != owner
  {
    if step.Rotate? {
      var t := s.flights[step.f];
      assert FlightSound(s, t);
      if t.id in s.rows { assert RowSound(s, t.id, s.rows[t.id]); }
    }
  }

  /** Once an app password's sessions are gone, no exchange brings one back:
      not one that had read its row before, nor one that had drawn its
      successor. Only a login under it could. */
  lemma {:induction false} RevokedStays(run: seq<System>, steps: seq<Step>, i: nat, j: nat, owner: Owner)
    requires Run(run, steps) && Start(run[0]) && i <= j < |run| && NoneUnder(run[i], owner)
    requires forall k :: i <= k < j && steps[k].Open? ==> steps[k].owner != owner
    ensures NoneUnder(run[j], owner)
    decreases j - i
  {
    hide Run, Start, Good, Next, NoneUnder;
    if i < j {
      RevokedStays(run, steps, i, j - 1, owner);
      AlwaysGood(run, steps, j - 1);
      StepAt(run, steps, j - 1);
      RevokedStep(run[j - 1], steps[j - 1], run[j], owner);
    }
  }

  lemma StepAt(run: seq<System>, steps: seq<Step>, i: nat)
    requires Run(run, steps) && i + 1 < |run|
    ensures i < |steps| && Next(run[i], steps[i], run[i + 1])
  {
  }
}
