/** How a wait ends: each ending of a round, and of a whole wait, read off what the round met and when. */
module WaitEndings {
  import opened Common
  import opened WaitLoop

  // ---- The instants of a round ----

  function Woke(s: State, r: Round): nat { s.now + r.watched }

  function Stamping(s: State, r: Round): nat { Woke(s, r) + r.stamping }

  function Loading(s: State, r: Round): nat { Stamping(s, r) + r.loading }

  /** What is held is of the stamp the directory has as the round looks. */
  predicate Current(tl: Timeline, s: State, r: Round) {
    s.edited.Some? && tl(Stamping(s, r)).stamp == s.stamp
  }

  /** The wait's time has not run out as the round begins, nor as its watch returns. */
  predicate InTime(c: Accepted, s: State, r: Round) {
    s.now - c.at < c.expiry && Woke(s, r) - c.at < c.expiry
  }

  /** The directory cannot be read; or it changed, and loads nothing, or another playbook. */
  predicate FileLost(tl: Timeline, c: Accepted, s: State, r: Round) {
    || tl(Stamping(s, r)).stamp.None?
    || (!Current(tl, s, r) && (tl(Loading(s, r)).loads.None? || tl(Loading(s, r)).loads.value.name != c.name))
  }

  /** The playbook the round asks with. */
  function BookOf(tl: Timeline, s: State, r: Round): Option<Book> {
    if Current(tl, s, r) then s.edited else tl(Loading(s, r)).loads
  }

  function Asking(tl: Timeline, s: State, r: Round): nat {
    (if Current(tl, s, r) then Stamping(s, r) else Loading(s, r)) + r.asking
  }

  function Checking(tl: Timeline, s: State, r: Round): nat { Asking(tl, s, r) + r.checking }

  /** The watch says the claim may be free, a run has its identifier, and the file is there. */
  predicate Asks(tl: Timeline, c: Accepted, s: State, r: Round) {
    InTime(c, s, r) && r.watch.Freed? && r.minted && !FileLost(tl, c, s, r)
  }

  /** The stamp the claim was asked for under is still the directory's once the claim is held. */
  predicate Unmoved(tl: Timeline, s: State, r: Round) {
    tl(Checking(tl, s, r)).stamp.Some? && tl(Checking(tl, s, r)).stamp == tl(Stamping(s, r)).stamp
  }

  // ---- How a round ends ----

  /** The watch, the identifier or the claim's request failed. */
  predicate CallFails(tl: Timeline, c: Accepted, s: State, r: Round) {
    && InTime(c, s, r)
    && (r.watch.WatchFailed? || (r.watch.Freed? && !r.minted) || (Asks(tl, c, s, r) && r.asked.AskFailed?))
  }

  predicate FileFails(tl: Timeline, c: Accepted, s: State, r: Round) {
    InTime(c, s, r) && r.watch.Freed? && r.minted && FileLost(tl, c, s, r)
  }

  predicate Decides(tl: Timeline, c: Accepted, s: State, r: Round, result: Result) {
    match result
    case Ends(Expired) => !r.stopping && s.now - c.at >= c.expiry
    case Ends(Changed) => !r.stopping && FileFails(tl, c, s, r)
    case Ends(Errored) => !r.stopping && CallFails(tl, c, s, r)
    case Stops =>
      && r.stopping
      && (s.now - c.at >= c.expiry || FileFails(tl, c, s, r) || CallFails(tl, c, s, r) || (InTime(c, s, r) && r.watch.WatchEnded?))
    case Admitted(token, book) =>
      Asks(tl, c, s, r) && r.asked == Takes(token) && Unmoved(tl, s, r) && BookOf(tl, s, r) == Some(book)
    case Again =>
      && s.now - c.at < c.expiry
      && (|| Woke(s, r) - c.at >= c.expiry || (r.watch.WatchEnded? && !r.stopping)
          || (Asks(tl, c, s, r) && (r.asked.StillHeld? || (r.asked.Takes? && !Unmoved(tl, s, r)))))
  }

  /** A round ends in exactly one way: the one its instants and its answers decide. */
  lemma TryDecides(tl: Timeline, c: Accepted, s: State, r: Round, result: Result)
    requires s.edited.Some? ==> s.stamp.Some?
    ensures Decides(tl, c, s, r, result) <==> Try(tl, c, s, r).1 == result
  {
    var looked := Looked(c, s, r);
    RereadHolds(tl, c, looked, r);
  }

  /** What the next round starts with: when it starts, and what is held and of which stamp. */
  predicate Leaves(tl: Timeline, c: Accepted, s: State, r: Round, s': State) {
    if Asks(tl, c, s, r) then
      && s'.edited == BookOf(tl, s, r) && s'.stamp == tl(Stamping(s, r)).stamp
      && s'.now == if r.asked.Takes? then Checking(tl, s, r) else Asking(tl, s, r)
    else s'.edited == s.edited && s'.stamp == s.stamp && s'.now == Woke(s, r)
  }

  lemma TryLeaves(tl: Timeline, c: Accepted, s: State, r: Round)
    requires (s.edited.Some? ==> s.stamp.Some?) && Try(tl, c, s, r).1.Again?
    ensures Leaves(tl, c, s, r, Try(tl, c, s, r).0)
    ensures Try(tl, c, s, r).0.edited.Some? ==> Try(tl, c, s, r).0.stamp.Some?
  {
    RereadHolds(tl, c, Looked(c, s, r), r);
  }

  // ---- How a wait ends ----

  /** The rounds so far each went round again, from one start to the next. */
  ghost predicate WentRound(tl: Timeline, c: Accepted, s: State, rounds: seq<Round>, starts: seq<State>) {
    && 1 <= |starts| <= |rounds| + 1 && starts[0] == s
    && forall k :: 0 <= k < |starts| - 1 ==> Decides(tl, c, starts[k], rounds[k], Again) && Leaves(tl, c, starts[k], rounds[k], starts[k + 1])
  }

  /**
   * A wait ends as its first round that does not go round again decides: it is admitted, or the time ran
   * out, the file was lost, or a call failed, and only in a process that is not stopping; in one that is,
   * and when no round decides, the row is left as it is.
   */
  lemma {:induction false} WaitEnds(tl: Timeline, c: Accepted, s: State, rounds: seq<Round>) returns (starts: seq<State>)
    requires s.edited.Some? ==> s.stamp.Some?
    ensures WentRound(tl, c, s, rounds, starts)
    ensures
      var result, k := Await(tl, c, s, rounds).1, |starts| - 1;
      !result.Again? && if k == |rounds| then result.Stops? else Decides(tl, c, starts[k], rounds[k], result)
    decreases |rounds|
  {
    starts := [s];
    if rounds != [] {
      var (s', result) := Try(tl, c, s, rounds[0]);
      TryDecides(tl, c, s, rounds[0], result);
      if result.Again? {
        TryLeaves(tl, c, s, rounds[0]);
        var rest := WaitEnds(tl, c, s', rounds[1..]);
        starts := [s] + rest;
        forall k | 0 <= k < |starts| - 1
          ensures Decides(tl, c, starts[k], rounds[k], Again) && Leaves(tl, c, starts[k], rounds[k], starts[k + 1])
        {
          if k > 0 { assert rounds[1..][k - 1] == rounds[k] && rest[k - 1] == starts[k]; }
        }
      }
    }
  }

  /** The last thing the loop did was read a clock that had run out. */
  predicate SawExpiry(log: seq<Event>) {
    log != [] && Last(log).Saw? && Last(log).remaining <= 0
  }

  /** A round that ends the wait ended it as expired exactly if that is the last thing it did. */
  lemma TryExpires(tl: Timeline, c: Accepted, s: State, r: Round)
    requires Try(tl, c, s, r).1.Ends?
    ensures Try(tl, c, s, r).1.why.Expired? <==> SawExpiry(Try(tl, c, s, r).0.log)
  {
    RereadHolds(tl, c, Looked(c, s, r), r);
  }

  /** An ended wait expired exactly if the last thing it did was read a clock that had run out: nothing was asked after it. */
  lemma {:induction false} ExpiresExactly(tl: Timeline, c: Accepted, s: State, rounds: seq<Round>)
    ensures
      var (s', result) := Await(tl, c, s, rounds);
      result.Ends? ==> (result.why.Expired? <==> SawExpiry(s'.log))
    decreases |rounds|
  {
    if rounds != [] {
      var (s', result) := Try(tl, c, s, rounds[0]);
      if result.Again? {
        ExpiresExactly(tl, c, s', rounds[1..]);
      } else if result.Ends? {
        TryExpires(tl, c, s, rounds[0]);
      }
    }
  }
}
