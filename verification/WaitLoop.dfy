/**
 * A waiting trigger's loop: watch for the claim to free, read the playbook again if its directory
 * changed, ask for the claim, and check once more that nothing changed meanwhile. The directory
 * moves on its own timeline, one reading of it an instant.
 */
module WaitLoop {
  import opened Common

  datatype Book = Book(name: string, body: string)

  /** The directory at an instant: its stamp, unless it cannot be read, and what the load gate makes of it. */
  datatype Directory = Directory(stamp: Option<nat>, loads: Option<Book>)

  type Timeline = nat -> Directory

  datatype Watch = Freed | WatchEnded | WatchFailed

  datatype Asked = Takes(token: nat) | StillHeld | AskFailed

  /** What one round meets: how long each of its steps takes, and what each answers. */
  datatype Round = Round(
    watched: nat, watch: Watch, stopping: bool, minted: bool,
    stamping: nat, loading: nat, asking: nat, asked: Asked, checking: nat)

  datatype Why = Expired | Changed | Errored

  datatype Result = Admitted(token: nat, book: Book) | Again | Ends(why: Why) | Stops

  /** What the loop did, in order. */
  datatype Event = Saw(remaining: int) | Asks | Took(token: nat) | GaveBack(token: nat)

  /** What a trigger was accepted with. */
  datatype Accepted = Accepted(name: string, at: nat, expiry: int)

  datatype State = State(now: nat, edited: Option<Book>, stamp: Option<nat>, log: seq<Event>)

  function Remaining(c: Accepted, now: nat): int { c.expiry - (now - c.at) }

  // ---- What a round comes to ----

  function Note(s: State, e: Event): State { s.(log := s.log + [e]) }

  /** An error ends the wait, unless this process is stopping: then the row stays as it is. */
  function Fails(r: Round, why: Why): Result { if r.stopping then Stops else Ends(why) }

  /** Reads the file again, unless the directory's stamp is the one the last reading went by. */
  function Reread(tl: Timeline, c: Accepted, s: State, r: Round): (State, bool)
  {
    var at := s.(now := s.now + r.stamping);
    var stamp := tl(at.now).stamp;
    if stamp.None? then (at, false)
    else if s.edited.Some? && stamp == s.stamp then (at, true)
    else
      var after := at.(now := at.now + r.loading);
      var loads := tl(after.now).loads;
      if loads.None? || loads.value.name != c.name then (after, false)
      else (after.(edited := loads, stamp := stamp), true)
  }

  /** The claim asked for, and the directory checked again while it is held. */
  function Claim(tl: Timeline, s: State, r: Round): (State, Result)
    requires s.edited.Some?
  {
    var asked := Note(s, Asks).(now := s.now + r.asking);
    match r.asked
    case StillHeld => (asked, Again)
    case AskFailed => (asked, Fails(r, Errored))
    case Takes(token) =>
      var checked := Note(asked, Took(token)).(now := asked.now + r.checking);
      if tl(checked.now).stamp.None? || tl(checked.now).stamp != s.stamp then (Note(checked, GaveBack(token)), Again)
      else (checked, Admitted(token, s.edited.value))
  }

  lemma RereadHolds(tl: Timeline, c: Accepted, s: State, r: Round)
    ensures Reread(tl, c, s, r).1 ==> Reread(tl, c, s, r).0.edited.Some?
    ensures Reread(tl, c, s, r).0.log == s.log && Reread(tl, c, s, r).0.now >= s.now
  {}

  function Try(tl: Timeline, c: Accepted, s: State, r: Round): (State, Result) {
    var left := Remaining(c, s.now);
    var seen := Note(s, Saw(left));
    if left <= 0 then (seen, Fails(r, Expired))
    else
      var woke := seen.(now := seen.now + r.watched);
      var still := Remaining(c, woke.now);
      var looked := Note(woke, Saw(still));
      if still <= 0 || (r.watch.WatchEnded? && !r.stopping) then (looked, Again)
      else if !r.watch.Freed? then (looked, Fails(r, Errored))
      else if !r.minted then (looked, Fails(r, Errored))
      else
        RereadHolds(tl, c, looked, r);
        var (read, ok) := Reread(tl, c, looked, r);
        if !ok then (read, Fails(r, Changed)) else Claim(tl, read, r)
  }

  /** Rounds until one admits or ends the wait; a process that stops leaves it there. */
  function Await(tl: Timeline, c: Accepted, s: State, rounds: seq<Round>): (State, Result)
    decreases |rounds|
  {
    if rounds == [] then (s, Stops)
    else
      var (s', result) := Try(tl, c, s, rounds[0]);
      if result.Again? then Await(tl, c, s', rounds[1..]) else (s', result)
  }

  // ---- The loop itself ----

  class WaitingTrigger {
    const c: Accepted
    var now: nat
    var edited: Option<Book>
    var stamp: Option<nat>
    var log: seq<Event>

    ghost function Value(): State
      reads this
    {
      State(now, edited, stamp, log)
    }

    constructor (accepted: Accepted)
      ensures c == accepted && Value() == State(accepted.at, None, None, [])
    {
      c, now, edited, stamp, log := accepted, accepted.at, None, None, [];
    }

    method RereadBook(tl: Timeline, r: Round) returns (ok: bool)
      modifies this
      ensures (Value(), ok) == Reread(tl, c, old(Value()), r)
    {
      now := now + r.stamping;
      var seen := tl(now).stamp;
      if seen.None? { return false; }
      if edited.Some? && seen == stamp { return true; }
      now := now + r.loading;
      var loads := tl(now).loads;
      if loads.None? || loads.value.name != c.name { return false; }
      edited, stamp := loads, seen;
      return true;
    }

    method TryOnce(tl: Timeline, r: Round) returns (result: Result)
      modifies this
      ensures (Value(), result) == Try(tl, c, old(Value()), r)
    {
      var left := c.expiry - (now - c.at);
      log := log + [Saw(left)];
      if left <= 0 { return Fails(r, Expired); }
      now := now + r.watched;
      left := c.expiry - (now - c.at);
      log := log + [Saw(left)];
      if left <= 0 || (r.watch.WatchEnded? && !r.stopping) { return Again; }
      if !r.watch.Freed? || !r.minted { return Fails(r, Errored); }
      ghost var looked := Value();
      RereadHolds(tl, c, looked, r);
      var ok := RereadBook(tl, r);
      if !ok { return Fails(r, Changed); }
      result := AskOnce(tl, r);
    }

    method AskOnce(tl: Timeline, r: Round) returns (result: Result)
      requires edited.Some?
      modifies this
      ensures (Value(), result) == Claim(tl, old(Value()), r)
    {
      log := log + [Asks];
      now := now + r.asking;
      match r.asked
      case StillHeld => return Again;
      case AskFailed => return Fails(r, Errored);
      case Takes(token) =>
        log := log + [Took(token)];
        now := now + r.checking;
        if tl(now).stamp.None? || tl(now).stamp != stamp {
          log := log + [GaveBack(token)];
          return Again;
        }
        return Admitted(token, edited.value);
    }

    method AwaitClaim(tl: Timeline, rounds: seq<Round>) returns (result: Result)
      modifies this
      ensures (Value(), result) == Await(tl, c, old(Value()), rounds)
    {
      ghost var start := Value();
      for k := 0 to |rounds|
        invariant Await(tl, c, start, rounds) == Await(tl, c, Value(), rounds[k..])
      {
        result := TryOnce(tl, rounds[k]);
        assert rounds[k..][1..] == rounds[k + 1..];
        if !result.Again? { return; }
      }
      return Stops;
    }
  }

  // ---- The playbook admitted ----

  /** What the trigger holds was read between an instant of its stamp and now. */
  ghost predicate Held(tl: Timeline, s: State) {
    s.edited.Some? ==>
      s.stamp.Some? && exists t1: nat, t2: nat :: ReadBetween(tl, s, t1, t2)
  }

  predicate ReadBetween(tl: Timeline, s: State, t1: nat, t2: nat) {
    t1 <= t2 <= s.now && tl(t1).stamp == s.stamp && tl(t2).loads == s.edited
  }

  /** What loads between two instants of one stamp is what the directory holds at the later one. */
  ghost predicate Settled(tl: Timeline) {
    forall t1: nat, t2: nat, t3: nat :: Spans(tl, t1, t2, t3) && tl(t2).loads.Some? ==> tl(t2).loads == tl(t3).loads
  }

  predicate Spans(tl: Timeline, t1: nat, t2: nat, t3: nat) {
    t1 <= t2 <= t3 && tl(t1).stamp.Some? && tl(t1).stamp == tl(t3).stamp
  }

  /** A stamp the directory has left never comes back. */
  ghost predicate NeverReturns(tl: Timeline) {
    forall t1: nat, t2: nat, t3: nat :: Spans(tl, t1, t2, t3) ==> tl(t2).stamp == tl(t1).stamp
  }

  ghost predicate StampTells(tl: Timeline) {
    forall t1: nat, t2: nat :: tl(t1).stamp.Some? && tl(t1).stamp == tl(t2).stamp ==> tl(t1).loads == tl(t2).loads
  }

  lemma ReturnlessSettles(tl: Timeline)
    requires NeverReturns(tl) && StampTells(tl)
    ensures Settled(tl)
  {}

  lemma RereadKeeps(tl: Timeline, c: Accepted, s: State, r: Round)
    requires Held(tl, s)
    ensures Held(tl, Reread(tl, c, s, r).0)
  {
    var s' := Reread(tl, c, s, r).0;
    if s'.edited.Some? && s'.edited == s.edited && s'.stamp == s.stamp {
      var t1: nat, t2: nat :| ReadBetween(tl, s, t1, t2);
      assert ReadBetween(tl, s', t1, t2);
    } else if s'.edited.Some? {
      assert ReadBetween(tl, s', s.now + r.stamping, s'.now);
    }
  }

  /** Time passing and events noted change nothing of what is held. */
  lemma LaterKeeps(tl: Timeline, s: State, s': State)
    requires Held(tl, s) && s'.edited == s.edited && s'.stamp == s.stamp && s'.now >= s.now
    ensures Held(tl, s')
  {
    if s.edited.Some? {
      var t1: nat, t2: nat :| ReadBetween(tl, s, t1, t2);
      assert ReadBetween(tl, s', t1, t2);
    }
  }

  lemma TryKeeps(tl: Timeline, c: Accepted, s: State, r: Round)
    requires Held(tl, s)
    ensures Held(tl, Try(tl, c, s, r).0)
  {
    var left := Remaining(c, s.now);
    var looked := Note(Note(s, Saw(left)).(now := s.now + r.watched), Saw(Remaining(c, s.now + r.watched)));
    LaterKeeps(tl, s, Note(s, Saw(left)));
    LaterKeeps(tl, s, looked);
    RereadKeeps(tl, c, looked, r);
    RereadHolds(tl, c, looked, r);
    var (read, ok) := Reread(tl, c, looked, r);
    if ok {
      LaterKeeps(tl, read, Claim(tl, read, r).0);
    }
  }

  /** An admission's last instant is a check, the claim held, that found the stamp unchanged. */
  lemma TryAdmits(tl: Timeline, c: Accepted, s: State, r: Round)
    requires Try(tl, c, s, r).1.Admitted?
    ensures
      var (s', result) := Try(tl, c, s, r);
      && s'.edited == Some(result.book) && s'.stamp.Some? && tl(s'.now).stamp == s'.stamp
      && |s'.log| > |s.log| && Last(s'.log) == Took(result.token)
  {}

  lemma {:induction false} AwaitKeeps(tl: Timeline, c: Accepted, s: State, rounds: seq<Round>)
    requires Held(tl, s)
    ensures Held(tl, Await(tl, c, s, rounds).0)
    ensures
      var (s', result) := Await(tl, c, s, rounds);
      result.Admitted? ==> s'.edited == Some(result.book) && s'.stamp.Some? && tl(s'.now).stamp == s'.stamp
                           && s'.log != [] && Last(s'.log) == Took(result.token)
    decreases |rounds|
  {
    if rounds != [] {
      TryKeeps(tl, c, s, rounds[0]);
      var (s', result) := Try(tl, c, s, rounds[0]);
      if result.Again? {
        AwaitKeeps(tl, c, s', rounds[1..]);
      } else if result.Admitted? {
        TryAdmits(tl, c, s, rounds[0]);
      }
    }
  }

  function Begun(c: Accepted): State { State(c.at, None, None, []) }

  /** Every admission of every wait matches the directory as it is checked, the claim held. */
  ghost predicate AdmitsCurrent(tl: Timeline) {
    forall c: Accepted, rounds: seq<Round> ::
      var (s, result) := Await(tl, c, Begun(c), rounds);
      result.Admitted? ==> tl(s.now).loads == Some(result.book)
  }

  lemma SettledAdmits(tl: Timeline, c: Accepted, rounds: seq<Round>)
    requires Settled(tl)
    ensures
      var (s, result) := Await(tl, c, Begun(c), rounds);
      result.Admitted? ==> tl(s.now).loads == Some(result.book) && s.log != [] && Last(s.log) == Took(result.token)
  {
    AwaitKeeps(tl, c, Begun(c), rounds);
    var (s, result) := Await(tl, c, Begun(c), rounds);
    if result.Admitted? {
      var t1: nat, t2: nat :| ReadBetween(tl, s, t1, t2);
      assert Spans(tl, t1, t2, s.now);
    }
  }

  /** One round that stamps at one instant, reads at another and checks at a third. */
  lemma OneRoundAdmits(tl: Timeline, t1: nat, t2: nat, t3: nat)
    requires Spans(tl, t1, t2, t3) && tl(t2).loads.Some?
    ensures
      var c := Accepted(tl(t2).loads.value.name, t1, 1);
      var r := Round(0, Freed, false, true, 0, t2 - t1, 0, Takes(0), t3 - t2);
      var (s, result) := Await(tl, c, Begun(c), [r]);
      result.Admitted? && result.book == tl(t2).loads.value && s.now == t3
  {
    var c := Accepted(tl(t2).loads.value.name, t1, 1);
    var r := Round(0, Freed, false, true, 0, t2 - t1, 0, Takes(0), t3 - t2);
    var (s, result) := Try(tl, c, Begun(c), r);
    assert result.Admitted? && s.now == t3;
  }

  /**
   * A waiting trigger is always admitted with the directory's content at an instant its claim was
   * already held, exactly over timelines where nothing else was there between two equal stamps.
   */
  lemma AdmitsCurrentExactly(tl: Timeline)
    ensures AdmitsCurrent(tl) <==> Settled(tl)
  {
    if Settled(tl) {
      forall c: Accepted, rounds: seq<Round>
        ensures var (s, result) := Await(tl, c, Begun(c), rounds); result.Admitted? ==> tl(s.now).loads == Some(result.book)
      {
        SettledAdmits(tl, c, rounds);
      }
    } else {
      var t1: nat, t2: nat, t3: nat :| Spans(tl, t1, t2, t3) && tl(t2).loads.Some? && tl(t2).loads != tl(t3).loads;
      OneRoundAdmits(tl, t1, t2, t3);
    }
  }

  /** An edit, undone before the check: equal stamps tell equal contents, and the trigger is still admitted with neither. */
  lemma UndoneEditAdmitted()
    ensures
      var there, between := Book("deploy", "first"), Book("deploy", "second");
      var tl: Timeline := t => if t == 1 then Directory(Some(2), Some(between)) else Directory(Some(1), Some(there));
      && StampTells(tl) && !AdmitsCurrent(tl)
  {
    var there, between := Book("deploy", "first"), Book("deploy", "second");
    var tl: Timeline := t => if t == 1 then Directory(Some(2), Some(between)) else Directory(Some(1), Some(there));
    assert Spans(tl, 0, 1, 2);
    OneRoundAdmits(tl, 0, 1, 2);
  }

  // ---- Claims taken and given back ----

  function Taken(log: seq<Event>): nat {
    if log == [] then 0 else Taken(log[..|log| - 1]) + if Last(log).Took? then 1 else 0
  }

  function GivenBack(log: seq<Event>): nat {
    if log == [] then 0 else GivenBack(log[..|log| - 1]) + if Last(log).GaveBack? then 1 else 0
  }

  lemma Noted(log: seq<Event>, e: Event)
    ensures Taken(log + [e]) == Taken(log) + if e.Took? then 1 else 0
    ensures GivenBack(log + [e]) == GivenBack(log) + if e.GaveBack? then 1 else 0
  {
    assert (log + [e])[..|log|] == log;
  }

  lemma ClaimBalances(tl: Timeline, s: State, r: Round)
    requires s.edited.Some?
    ensures
      var (s', result) := Claim(tl, s, r);
      Taken(s'.log) - GivenBack(s'.log) == Taken(s.log) - GivenBack(s.log) + if result.Admitted? then 1 else 0
  {
    Noted(s.log, Asks);
    if r.asked.Takes? {
      Noted(s.log + [Asks], Took(r.asked.token));
      Noted(s.log + [Asks] + [Took(r.asked.token)], GaveBack(r.asked.token));
    }
  }

  /** What a round sees before it reads anything. */
  function Looked(c: Accepted, s: State, r: Round): State {
    Note(Note(s, Saw(Remaining(c, s.now))).(now := s.now + r.watched), Saw(Remaining(c, s.now + r.watched)))
  }

  /** A round stops at its first reading, at its second, at the read, or goes on to ask. */
  lemma TryCases(tl: Timeline, c: Accepted, s: State, r: Round)
    ensures
      var (s', result) := Try(tl, c, s, r);
      var looked := Looked(c, s, r);
      var (read, ok) := Reread(tl, c, looked, r);
      || (s' == Note(s, Saw(Remaining(c, s.now))) && !result.Admitted? && (result.Again? ==> Remaining(c, s.now) > 0))
      || (s' == looked && !result.Admitted?)
      || (s' == read && !result.Admitted? && !result.Again?)
      || (ok && read.edited.Some? && (s', result) == Claim(tl, read, r)
          && Remaining(c, looked.now) > 0)
  {
    RereadHolds(tl, c, Looked(c, s, r), r);
  }

  /** A round takes nothing it does not give back, except what it is admitted with. */
  lemma TryBalances(tl: Timeline, c: Accepted, s: State, r: Round)
    ensures
      var (s', result) := Try(tl, c, s, r);
      Taken(s'.log) - GivenBack(s'.log) == Taken(s.log) - GivenBack(s.log) + if result.Admitted? then 1 else 0
  {
    var left := Saw(Remaining(c, s.now));
    var looked := Looked(c, s, r);
    Noted(s.log, left);
    Noted(s.log + [left], Saw(Remaining(c, s.now + r.watched)));
    TryCases(tl, c, s, r);
    RereadHolds(tl, c, looked, r);
    var (read, ok) := Reread(tl, c, looked, r);
    if ok {
      ClaimBalances(tl, read, r);
    }
  }

  /** Every claim taken along the way is the one admitted or is given back. */
  lemma {:induction false} ClaimsBalance(tl: Timeline, c: Accepted, s: State, rounds: seq<Round>)
    ensures
      var (s', result) := Await(tl, c, s, rounds);
      Taken(s'.log) - GivenBack(s'.log) == Taken(s.log) - GivenBack(s.log) + if result.Admitted? then 1 else 0
    decreases |rounds|
  {
    if rounds != [] {
      TryBalances(tl, c, s, rounds[0]);
      var (s', result) := Try(tl, c, s, rounds[0]);
      if result.Again? {
        ClaimsBalance(tl, c, s', rounds[1..]);
      }
    }
  }

  /** No claim is asked for after an expiry was seen to have passed. */
  ghost predicate NoneAfterExpiry(log: seq<Event>) {
    forall i, j :: 0 <= i < j < |log| && log[i].Saw? && log[i].remaining <= 0 ==> log[j] != Asks
  }

  /** What was last seen is no better than any reading before it, and no worse than the present one. */
  ghost predicate Seen(c: Accepted, s: State) {
    forall i :: 0 <= i < |s.log| && s.log[i].Saw? ==> s.log[i].remaining >= Remaining(c, s.now)
  }

  lemma SawKeeps(c: Accepted, s: State, d: nat)
    requires Seen(c, s) && NoneAfterExpiry(s.log)
    ensures Seen(c, Note(s.(now := s.now + d), Saw(Remaining(c, s.now + d))))
    ensures NoneAfterExpiry(s.log + [Saw(Remaining(c, s.now + d))])
  {}

  /** While nothing seen has passed, asking is no breach. */
  lemma ClaimStopsAtExpiry(tl: Timeline, c: Accepted, s: State, r: Round)
    requires s.edited.Some? && Seen(c, s) && forall i :: 0 <= i < |s.log| && s.log[i].Saw? ==> s.log[i].remaining > 0
    ensures Seen(c, Claim(tl, s, r).0) && NoneAfterExpiry(Claim(tl, s, r).0.log)
  {
    var s' := Claim(tl, s, r).0;
    assert forall i :: 0 <= i < |s'.log| && s'.log[i].Saw? ==> i < |s.log| && s'.log[i] == s.log[i];
  }

  lemma TryStopsAtExpiry(tl: Timeline, c: Accepted, s: State, r: Round)
    requires Seen(c, s) && NoneAfterExpiry(s.log)
    ensures Seen(c, Try(tl, c, s, r).0) && NoneAfterExpiry(Try(tl, c, s, r).0.log)
  {
    var looked := Looked(c, s, r);
    SawKeeps(c, s, 0);
    SawKeeps(c, Note(s, Saw(Remaining(c, s.now))), r.watched);
    TryCases(tl, c, s, r);
    RereadHolds(tl, c, looked, r);
    var (read, ok) := Reread(tl, c, looked, r);
    if ok && Remaining(c, looked.now) > 0 {
      ClaimStopsAtExpiry(tl, c, read, r);
    }
  }

  lemma {:induction false} NoneAskedAfterExpiry(tl: Timeline, c: Accepted, s: State, rounds: seq<Round>)
    requires Seen(c, s) && NoneAfterExpiry(s.log)
    ensures NoneAfterExpiry(Await(tl, c, s, rounds).0.log)
    decreases |rounds|
  {
    if rounds != [] {
      TryStopsAtExpiry(tl, c, s, rounds[0]);
      var (s', result) := Try(tl, c, s, rounds[0]);
      if result.Again? {
        NoneAskedAfterExpiry(tl, c, s', rounds[1..]);
      }
    }
  }
}
