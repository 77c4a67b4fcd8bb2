/**
 * A claim as its holder keeps it: the durations a deployment declares, the deadline at
 * which a run that cannot prove its claim is stopped, and the renewal loop that keeps it.
 */
module Renewal {
  import opened Common
  import opened Coordination

  /** The one term no deployment can configure away. */
  const MARGIN_FLOOR: int := 2 * SECOND

  datatype Config = Config(claimExpiry: int, renewEvery: int, renewBound: int, stopBound: int, decisionBound: int)

  const DEFAULT_CONFIG := Config(30 * SECOND, 5 * SECOND, 4 * SECOND, 10 * SECOND, 5 * SECOND)

  /** A declared duration is refused unless it is above zero. */
  predicate Positive(c: Config) {
    c.claimExpiry > 0 && c.renewEvery > 0 && c.renewBound > 0 && c.stopBound > 0 && c.decisionBound > 0
  }

  /** The inequalities a deployment's durations must satisfy. */
  predicate Check(c: Config) {
    && c.renewEvery + c.renewBound + c.stopBound + MARGIN_FLOOR <= c.claimExpiry
    && c.renewBound < c.renewEvery
    && c.claimExpiry % SECOND == 0
  }

  predicate Accepted(c: Config) { Positive(c) && Check(c) }

  /** The instant past which a claim proven by a renewal sent at `sent` is no longer trusted. */
  function StopDeadline(c: Config, sent: int, expiry: int): int {
    sent + expiry - c.stopBound - MARGIN_FLOOR
  }

  /** What the head of the loop does: decide, or sleep until the next attempt or the deadline, whichever is first. */
  datatype Head = Decides | Sleeps(until: int)

  function AtHead(c: Config, expiry: int, sent: int, attempt: int, now: int): Head {
    var deadline := StopDeadline(c, sent, expiry);
    if now >= deadline then Decides
    else Sleeps(now + Max(0, Min(attempt + c.renewEvery - now, deadline - now)))
  }

  datatype Answer = Renewed | Lost | Failed

  /** One turn of the loop as its surroundings decide it: how late its timer fires, how long the attempt takes, what comes back. */
  datatype Turn = Turn(late: nat, took: nat, answer: Answer)

  /** No timer is later than `late`, so no attempt outlasts its bound by more. */
  predicate Punctual(c: Config, late: nat, turns: seq<Turn>) {
    forall k :: 0 <= k < |turns| ==> turns[k].late <= late && turns[k].took <= c.renewBound + late
  }

  /** Where the loop stands: what it last proved, when it last tried, the time, and when it decided to stop if it did. */
  datatype Loop = Loop(sent: int, attempt: int, now: int, stopped: Option<int>)

  function Turned(c: Config, expiry: int, l: Loop, turn: Turn): Loop {
    match AtHead(c, expiry, l.sent, l.attempt, l.now)
    case Decides => l.(stopped := Some(l.now))
    case Sleeps(until) =>
      var at := until + turn.late;
      var back := at + turn.took;
      match turn.answer
      case Renewed => Loop(at, at, back, None)
      case Failed => Loop(l.sent, at, back, None)
      case Lost => Loop(l.sent, at, back, Some(back))
  }

  /** The loop over any number of turns; it takes no more once it has decided. */
  function Turns(c: Config, expiry: int, l: Loop, turns: seq<Turn>): Loop
    decreases |turns|
  {
    if l.stopped.Some? || turns == [] then l else Turns(c, expiry, Turned(c, expiry, l, turns[0]), turns[1..])
  }

  class Hold {
    const c: Config
    const expiry: int
    var sent: int
    /** What the loop last tried, and its clock. */
    var attempt: int
    var now: int
    var stopped: bool
    var stoppedAt: int
    /** How many times the one stop decision called `stop`. */
    var stops: nat

    constructor (c: Config, expiry: int, sent: int, now: int)
      ensures this.c == c && this.expiry == expiry && State() == Loop(sent, sent, now, None) && stops == 0
    {
      this.c, this.expiry := c, expiry;
      this.sent, this.attempt, this.now := sent, sent, now;
      stopped, stoppedAt, stops := false, 0, 0;
    }

    function State(): Loop
      reads this
    {
      Loop(sent, attempt, now, if stopped then Some(stoppedAt) else None)
    }

    /** Takes effect the first time only. */
    method DecideToStop()
      modifies this`stopped, this`stoppedAt, this`stops
      ensures stopped && (old(stopped) ==> stoppedAt == old(stoppedAt)) && (!old(stopped) ==> stoppedAt == now)
      ensures stops == old(stops) + if old(stopped) then 0 else 1
    {
      if !stopped {
        stopped, stoppedAt, stops := true, now, stops + 1;
      }
    }

    /** The loop, for as many turns as are observed. */
    method Renew(turns: seq<Turn>)
      requires !stopped && stops == 0
      modifies this
      ensures State() == Turns(c, expiry, old(State()), turns)
      ensures stops == if stopped then 1 else 0
    {
      var k := 0;
      while k < |turns|
        invariant 0 <= k <= |turns| && !stopped && stops == 0
        invariant Turns(c, expiry, State(), turns[k..]) == Turns(c, expiry, old(State()), turns)
      {
        var deadline := StopDeadline(c, sent, expiry);
        assert turns[k..][1..] == turns[k + 1..];
        if now >= deadline {
          DecideToStop();
          return;
        }
        var wait := Min(attempt + c.renewEvery - now, deadline - now);
        now := now + Max(0, wait) + turns[k].late;
        attempt := now;
        now := now + turns[k].took;
        match turns[k].answer {
          case Renewed => sent := attempt;
          case Failed =>
          case Lost =>
            DecideToStop();
            return;
        }
        k := k + 1;
      }
    }
  }

  /**
   * However late the timers fire and whatever comes back, the loop decides no later than one bounded
   * attempt after the deadline of what it last proved, unless it started later than that.
   */
  lemma {:induction false} DecidesInTime(c: Config, expiry: int, late: nat, l: Loop, turns: seq<Turn>)
    requires Accepted(c) && expiry >= c.claimExpiry && Punctual(c, late, turns)
    requires l.stopped.None? && l.sent <= l.attempt <= l.now
    ensures
      var end := Turns(c, expiry, l, turns);
      && end.sent >= l.sent
      && end.now <= Max(StopDeadline(c, end.sent, expiry) + c.renewBound + 2 * late, l.now)
      && (end.stopped.Some? ==> end.stopped.value == end.now)
    decreases |turns|
  {
    if turns != [] {
      var l' := Turned(c, expiry, l, turns[0]);
      if l'.stopped.None? {
        DecidesInTime(c, expiry, late, l', turns[1..]);
      }
    }
  }

  // ---- Why the loop stops ----

  /** When a loop that is not to decide yet tries again: once its next attempt is due, and at the deadline at the latest. */
  function Wakes(c: Config, expiry: int, l: Loop): int {
    Max(l.now, Min(l.attempt + c.renewEvery, StopDeadline(c, l.sent, expiry)))
  }

  /** A turn that leaves the loop to go on: the deadline has not come, and the answer is not that the claim is lost. */
  predicate GoesOn(c: Config, expiry: int, l: Loop, turn: Turn, l': Loop) {
    && l.now < StopDeadline(c, l.sent, expiry) && !turn.answer.Lost? && l'.stopped.None?
    && l'.attempt == Wakes(c, expiry, l) + turn.late && l'.now == l'.attempt + turn.took
    && l'.sent == if turn.answer.Renewed? then l'.attempt else l.sent
  }

  /**
   * The loop decides to stop exactly at the first head it comes to at or past the deadline of what it last
   * proved, or as the first answer that the claim is lost comes back; a renewal that fails stops nothing.
   */
  lemma {:induction false} StopsExactly(c: Config, expiry: int, l: Loop, turns: seq<Turn>) returns (heads: seq<Loop>)
    requires l.stopped.None?
    ensures 1 <= |heads| <= |turns| + 1 && heads[0] == l
    ensures forall k :: 0 <= k < |heads| - 1 ==> GoesOn(c, expiry, heads[k], turns[k], heads[k + 1])
    ensures
      var end, k := Turns(c, expiry, l, turns), |heads| - 1;
      var h := heads[k];
      if k == |turns| then end == h
      else if h.now >= StopDeadline(c, h.sent, expiry) then end == h.(stopped := Some(h.now))
      else turns[k].answer.Lost? && end.sent == h.sent && end.stopped == Some(Wakes(c, expiry, h) + turns[k].late + turns[k].took)
    decreases |turns|
  {
    heads := [l];
    if turns != [] {
      var l' := Turned(c, expiry, l, turns[0]);
      if l'.stopped.None? {
        var rest := StopsExactly(c, expiry, l', turns[1..]);
        heads := [l] + rest;
        forall k | 0 <= k < |heads| - 1 ensures GoesOn(c, expiry, heads[k], turns[k], heads[k + 1]) {
          if k > 0 { assert turns[1..][k - 1] == turns[k] && rest[k - 1] == heads[k]; }
        }
      } else {
        assert Turns(c, expiry, l', turns[1..]) == l';
      }
    }
  }
}
