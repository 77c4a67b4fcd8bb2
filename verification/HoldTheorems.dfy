/** What the stop deadline, the renewal loop and the backend's lease promise together. */
module HoldTheorems {
  import opened Common
  import opened Renewal
  import opened HoldWorld

  /** The durations that leave a late stop no room past the lease. */
  predicate Fits(m: Terms) {
    && m.c.renewBound + 3 * m.late <= MARGIN_FLOOR
    && m.c.decisionBound + m.c.stopBound + 2 * m.late <= m.c.claimExpiry
  }

  /**
   * A run whose last successful renewal was sent at `sent` is over, or its process has exited, one
   * bounded attempt and three late timers past its deadline's margin, or, admitted late, one stop
   * bound past its decision.
   */
  lemma OverInTime(m: Terms, w: World, i: nat)
    requires Accepted(m.c) && Reachable(m, w) && i < |w.tenures| && Live(w.tenures[i])
    ensures
      var t := w.tenures[i];
      w.now <= Max(t.sent + t.granted + m.c.renewBound - MARGIN_FLOOR + 3 * m.late,
                   t.asked + m.c.decisionBound + m.c.stopBound + 2 * m.late)
  {
    ReachableInv(m, w);
    assert TenureOk(m, w, i);
  }

  /** Two runs of the name have both been going for some time. */
  ghost predicate Together(w: World, i: nat, j: nat)
    requires i < |w.tenures| && j < |w.tenures|
  {
    && i != j
    && Live(w.tenures[i]) && Live(w.tenures[j])
    && w.tenures[i].began < w.now && w.tenures[j].began < w.now
  }

  ghost predicate Overlap(w: World) {
    exists i: nat, j: nat :: i < |w.tenures| && j < |w.tenures| && Together(w, i, j)
  }

  lemma NeverTogether(m: Terms, w: World, i: nat, j: nat)
    requires Accepted(m.c) && Fits(m) && Reachable(m, w)
    requires i < |w.tenures| && j < |w.tenures|
    ensures !Together(w, i, j)
  {
    ReachableInv(m, w);
    assert TenureOk(m, w, i) && TenureOk(m, w, j);
    if i != j && Live(w.tenures[i]) && Live(w.tenures[j]) {
      assert Apart(w, i, j);
      OverInTime(m, w, i);
      OverInTime(m, w, j);
    }
  }

  lemma NoOverlap(m: Terms, w: World)
    requires Accepted(m.c) && Fits(m) && Reachable(m, w)
    ensures !Overlap(w)
  {
    forall i: nat, j: nat | i < |w.tenures| && j < |w.tenures| ensures !Together(w, i, j) {
      NeverTogether(m, w, i, j);
    }
  }

  // ---- When the durations do not fit ----

  lemma ReachStep(m: Terms, w: World, a: Action)
    requires Reachable(m, w)
    ensures Reachable(m, Step(m, w, a))
  {
    var now: int, actions: seq<Action> :| w == Run(m, Start(now), actions);
    RunAppends(m, Start(now), actions, a);
  }

  lemma {:induction false} RunAppends(m: Terms, w: World, actions: seq<Action>, a: Action)
    ensures Run(m, w, actions + [a]) == Step(m, Run(m, w, actions), a)
    decreases |actions|
  {
    if actions == [] {
      assert Run(m, w, [a]) == Step(m, w, a);
    } else {
      assert (actions + [a])[1..] == actions[1..] + [a];
      RunAppends(m, Step(m, w, actions[0]), actions[1..], a);
    }
  }

  /** The one tenure of a world with a single trigger, asked for at the origin. */
  function Sole(m: Terms, now: int, attempt: int, began: int, phase: Phase): World {
    World(now, Some(0), [Tenure(0, m.c.claimExpiry, 0, attempt, began, Some(m.c.claimExpiry), phase)])
  }

  function Deadline(m: Terms): int { StopDeadline(m.c, 0, m.c.claimExpiry) }

  lemma Admits(m: Terms, delay: nat)
    requires Accepted(m.c) && delay <= m.c.decisionBound + m.late
    ensures Reachable(m, Sole(m, delay, 0, delay, AtTop))
  {
    assert Run(m, Start(0), []) == Start(0);
    assert Reachable(m, Start(0));
    var w1 := Step(m, Start(0), Ask);
    ReachStep(m, Start(0), Ask);
    var w2 := Step(m, w1, Lease(0, m.c.claimExpiry));
    ReachStep(m, w1, Lease(0, m.c.claimExpiry));
    var w3 := Step(m, w2, Commit(0));
    ReachStep(m, w2, Commit(0));
    var w4 := Step(m, w3, Pass(delay));
    ReachStep(m, w3, Pass(delay));
    ReachStep(m, w4, Admit(0));
    assert Step(m, w4, Admit(0)) == Sole(m, delay, 0, delay, AtTop);
  }

  lemma SolePasses(m: Terms, now: int, attempt: int, began: int, phase: Phase, d: nat)
    requires Reachable(m, Sole(m, now, attempt, began, phase)) && !phase.AtTop?
    requires Limit(m, Sole(m, now, attempt, began, phase).tenures[0]).Some?
    requires now + d <= Limit(m, Sole(m, now, attempt, began, phase).tenures[0]).value
    ensures Step(m, Sole(m, now, attempt, began, phase), Pass(d)) == Sole(m, now + d, attempt, began, phase)
    ensures Reachable(m, Sole(m, now + d, attempt, began, phase))
  {
    ReachStep(m, Sole(m, now, attempt, began, phase), Pass(d));
  }

  lemma SoleFires(m: Terms, now: int, attempt: int, began: int, until: int)
    requires Reachable(m, Sole(m, now, attempt, began, Asleep(until))) && now >= until
    ensures Reachable(m, Sole(m, now, now, began, Renewing(false)))
  {
    ReachStep(m, Sole(m, now, attempt, began, Asleep(until)), Fire(0));
    assert Step(m, Sole(m, now, attempt, began, Asleep(until)), Fire(0)) == Sole(m, now, now, began, Renewing(false));
  }

  lemma SoleFails(m: Terms, now: int, attempt: int, began: int)
    requires Reachable(m, Sole(m, now, attempt, began, Renewing(false)))
    ensures Reachable(m, Sole(m, now, attempt, began, AtTop))
  {
    ReachStep(m, Sole(m, now, attempt, began, Renewing(false)), Answered(0, Failed));
    assert Step(m, Sole(m, now, attempt, began, Renewing(false)), Answered(0, Failed)) == Sole(m, now, attempt, began, AtTop);
  }

  lemma SoleArms(m: Terms, now: int, attempt: int, began: int)
    requires Reachable(m, Sole(m, now, attempt, began, AtTop))
    ensures
      match AtHead(m.c, m.c.claimExpiry, 0, attempt, now)
      case Decides => Reachable(m, Sole(m, now, attempt, began, Stopping(now)))
      case Sleeps(until) => Reachable(m, Sole(m, now, attempt, began, Asleep(until)))
  {
    var w := Sole(m, now, attempt, began, AtTop);
    ReachStep(m, w, Arm(0));
    match AtHead(m.c, m.c.claimExpiry, 0, attempt, now)
    case Decides => assert Step(m, w, Arm(0)) == Sole(m, now, attempt, began, Stopping(now));
    case Sleeps(until) => assert Step(m, w, Arm(0)) == Sole(m, now, attempt, began, Asleep(until));
  }

  /** With every attempt failing at once, the loop tries once an interval until it sleeps to the deadline itself. */
  lemma {:induction false} SleepsToDeadline(m: Terms, at: int)
    requires Accepted(m.c) && 0 <= at < Deadline(m)
    requires Reachable(m, Sole(m, at, at, 0, Asleep(Min(at + m.c.renewEvery, Deadline(m)))))
    ensures exists last :: at <= last < Deadline(m) && Reachable(m, Sole(m, last, last, 0, Asleep(Deadline(m))))
    decreases Deadline(m) - at
  {
    var next := at + m.c.renewEvery;
    if next < Deadline(m) {
      SolePasses(m, at, at, 0, Asleep(next), m.c.renewEvery);
      SoleFires(m, next, at, 0, next);
      SoleFails(m, next, next, 0);
      SoleArms(m, next, next, 0);
      SleepsToDeadline(m, next);
    }
  }

  /** The decision can fall one late timer and one late bounded attempt after the deadline. */
  lemma DecidesLate(m: Terms, decided: int)
    requires Accepted(m.c) && Deadline(m) <= decided <= Deadline(m) + m.c.renewBound + 2 * m.late
    ensures exists at :: 0 <= at <= decided && Reachable(m, Sole(m, decided, at, 0, Stopping(decided)))
  {
    Admits(m, 0);
    SoleArms(m, 0, 0, 0);
    SleepsToDeadline(m, 0);
    var last :| 0 <= last < Deadline(m) && Reachable(m, Sole(m, last, last, 0, Asleep(Deadline(m))));
    var at := Deadline(m) + Min(decided - Deadline(m), m.late);
    SolePasses(m, last, last, 0, Asleep(Deadline(m)), at - last);
    SoleFires(m, at, last, 0, Deadline(m));
    SolePasses(m, at, at, 0, Renewing(false), decided - at);
    SoleFails(m, decided, at, 0);
    SoleArms(m, decided, at, 0);
  }

  /** A second trigger takes a free claim and its run begins at once. */
  lemma SecondBegins(m: Terms, now: int, first: Tenure)
    requires Accepted(m.c) && Reachable(m, World(now, None, [first])) && !first.phase.AtTop?
    ensures Reachable(m, World(now, Some(1), [first, Tenure(now, m.c.claimExpiry, now, now, now, Some(now + m.c.claimExpiry), AtTop)]))
  {
    var e := m.c.claimExpiry;
    var w := World(now, None, [first]);
    var u := Tenure(now, 0, now, now, 0, None, Asking);
    var w1 := World(now, None, [first, u]);
    assert Step(m, w, Ask) == w1;
    ReachStep(m, w, Ask);
    var u2 := u.(granted := e, lease := Some(now + e), phase := Leased);
    var w2 := World(now, None, [first, u2]);
    assert Step(m, w1, Lease(1, e)) == w2;
    ReachStep(m, w1, Lease(1, e));
    var u3 := u2.(phase := Claimed);
    var w3 := World(now, Some(1), [first, u3]);
    assert Step(m, w2, Commit(1)) == w3;
    ReachStep(m, w2, Commit(1));
    var u4 := u3.(phase := AtTop, began := now);
    assert Step(m, w3, Admit(1)) == World(now, Some(1), [first, u4]);
    ReachStep(m, w3, Admit(1));
  }

  /** The second run sleeps, a moment passes, and both have been going. */
  lemma SecondGoesOn(m: Terms, e: int, first: Tenure, second: Tenure)
    requires Accepted(m.c) && e == m.c.claimExpiry && second == Tenure(e, e, e, e, e, Some(e + e), AtTop)
    requires Reachable(m, World(e, Some(1), [first, second]))
    requires first.phase.Stopping? && first.began <= first.phase.decided <= e && e < first.phase.decided + m.c.stopBound + m.late
    ensures exists w :: Reachable(m, w) && Overlap(w)
  {
    var asleep := second.(phase := Asleep(e + Min(m.c.renewEvery, StopDeadline(m.c, 0, e))));
    var w1 := World(e, Some(1), [first, second]);
    var w2 := World(e, Some(1), [first, asleep]);
    assert Step(m, w1, Arm(1)) == w2;
    ReachStep(m, w1, Arm(1));
    var w3 := World(e + 1, Some(1), [first, asleep]);
    assert Step(m, w2, Pass(1)) == w3;
    ReachStep(m, w2, Pass(1));
    assert Together(w3, 0, 1);
  }

  /** A run whose stop can outlast its lease is joined by the next one. */
  lemma Joined(m: Terms, at: int, began: int, decided: int)
    requires Accepted(m.c) && Reachable(m, Sole(m, decided, at, began, Stopping(decided)))
    requires began <= decided <= m.c.claimExpiry && decided + m.c.stopBound + m.late > m.c.claimExpiry
    ensures exists w :: Reachable(m, w) && Overlap(w)
  {
    var e := m.c.claimExpiry;
    SolePasses(m, decided, at, began, Stopping(decided), e - decided);
    var w1 := Sole(m, e, at, began, Stopping(decided));
    var first := Tenure(0, e, 0, at, began, None, Stopping(decided));
    assert Step(m, w1, Lapse(0)) == World(e, None, [first]);
    ReachStep(m, w1, Lapse(0));
    SecondBegins(m, e, first);
    SecondGoesOn(m, e, first, Tenure(e, e, e, e, e, Some(e + e), AtTop));
  }

  lemma OverlapReachable(m: Terms)
    requires Accepted(m.c) && !Fits(m)
    ensures exists w :: Reachable(m, w) && Overlap(w)
  {
    var e := m.c.claimExpiry;
    if m.c.renewBound + 3 * m.late > MARGIN_FLOOR {
      var decided := Min(Deadline(m) + m.c.renewBound + 2 * m.late, e);
      DecidesLate(m, decided);
      var at :| 0 <= at <= decided && Reachable(m, Sole(m, decided, at, 0, Stopping(decided)));
      Joined(m, at, 0, decided);
    } else {
      var decided := Min(m.c.decisionBound + m.late, e);
      Admits(m, decided);
      SoleArms(m, decided, 0, decided);
      Joined(m, 0, decided, decided);
    }
  }

  /** Runs of one name never overlap, in any interleaving, exactly when the durations fit. */
  lemma ApartExactlyWhenFits(m: Terms)
    requires Accepted(m.c)
    ensures (forall w :: Reachable(m, w) ==> !Overlap(w)) <==> Fits(m)
  {
    if Fits(m) {
      forall w | Reachable(m, w) ensures !Overlap(w) { NoOverlap(m, w); }
    } else {
      OverlapReachable(m);
    }
  }

  /** The durations a deployment gets when it declares none pass the check and still let two runs overlap, timers never late. */
  lemma DefaultsOverlap()
    ensures Accepted(DEFAULT_CONFIG)
    ensures exists w :: Reachable(Terms(DEFAULT_CONFIG, 0), w) && Overlap(w)
  {
    OverlapReachable(Terms(DEFAULT_CONFIG, 0));
  }

  // ---- The loop's turns are steps ----

  /** Nothing but tenure `i` needs to move by an instant. */
  predicate OthersIdle(m: Terms, w: World, i: nat, until: int) {
    forall j :: 0 <= j < |w.tenures| && j != i ==>
      !w.tenures[j].phase.AtTop? && (Limit(m, w.tenures[j]).Some? ==> until <= Limit(m, w.tenures[j]).value)
  }

  /** Where a tenure's loop stands, at its head or after its decision. */
  predicate Stands(w: World, i: nat, granted: int, l: Loop) {
    && i < |w.tenures| && w.tenures[i].granted == granted && w.now == l.now && w.tenures[i].sent == l.sent && w.tenures[i].attempt == l.attempt
    && w.tenures[i].phase == match l.stopped { case None => AtTop case Some(at) => Stopping(at) }
  }

  /** What an attempt can be answered: renewed while the lease lasts, lost when it is gone. */
  predicate Answerable(t: Tenure, answer: Answer) {
    (answer.Renewed? ==> t.lease.Some?) && (answer.Lost? ==> t.lease.None?)
  }

  /** The steps one turn of the loop is. */
  function TurnSteps(m: Terms, w: World, i: nat, turn: Turn): seq<Action>
    requires i < |w.tenures|
  {
    match AtHead(m.c, w.tenures[i].granted, w.tenures[i].sent, w.tenures[i].attempt, w.now)
    case Decides => [Arm(i)]
    case Sleeps(until) =>
      [Arm(i), Pass(Max(0, until + turn.late - w.now)), Fire(i)] + AttemptSteps(i, turn)
  }

  function AttemptSteps(i: nat, turn: Turn): seq<Action> { [Reach(i), Pass(turn.took), Answered(i, turn.answer)] }

  /** What the loop makes of a turn taken where tenure `i` stands. */
  function LoopAfter(m: Terms, w: World, i: nat, turn: Turn): Loop
    requires i < |w.tenures|
  {
    var t := w.tenures[i];
    Turned(m.c, t.granted, Loop(t.sent, t.attempt, w.now, None), turn)
  }

  lemma RunNext(m: Terms, w: World, a: Action, rest: seq<Action>)
    ensures Run(m, w, [a] + rest) == Run(m, Step(m, w, a), rest)
  {
    assert ([a] + rest)[1..] == rest;
  }

  lemma RunTwo(m: Terms, w: World, a: Action, b: Action, rest: seq<Action>)
    ensures Run(m, w, [a, b] + rest) == Run(m, Step(m, Step(m, w, a), b), rest)
  {
    assert [a, b] + rest == [a] + ([b] + rest);
    RunNext(m, w, a, [b] + rest);
    RunNext(m, Step(m, w, a), b, rest);
  }

  lemma RunThree(m: Terms, w: World, a: Action, b: Action, c: Action, rest: seq<Action>)
    ensures Run(m, w, [a, b, c] + rest) == Run(m, Step(m, Step(m, Step(m, w, a), b), c), rest)
  {
    assert [a, b, c] + rest == [a] + ([b, c] + rest);
    RunNext(m, w, a, [b, c] + rest);
    RunTwo(m, Step(m, w, a), b, c, rest);
  }

  lemma Sleeping(m: Terms, w: World, i: nat, waits: nat, rest: seq<Action>)
    requires i < |w.tenures| && w.tenures[i].phase.AtTop?
    requires AtHead(m.c, w.tenures[i].granted, w.tenures[i].sent, w.tenures[i].attempt, w.now).Sleeps?
    requires var until := AtHead(m.c, w.tenures[i].granted, w.tenures[i].sent, w.tenures[i].attempt, w.now).until;
             until <= w.now + waits <= until + m.late
    requires OthersIdle(m, w, i, w.now + waits)
    ensures Run(m, w, [Arm(i), Pass(waits), Fire(i)] + rest) ==
            Run(m, Set(w, i, w.tenures[i].(attempt := w.now + waits, phase := Renewing(false))).(now := w.now + waits), rest)
  {
    var until := AtHead(m.c, w.tenures[i].granted, w.tenures[i].sent, w.tenures[i].attempt, w.now).until;
    var w1 := Set(w, i, w.tenures[i].(phase := Asleep(until)));
    assert Step(m, w, Arm(i)) == w1;
    var w2 := w1.(now := w.now + waits);
    assert Step(m, w1, Pass(waits)) == w2;
    var trying := w.tenures[i].(attempt := w.now + waits, phase := Renewing(false));
    assert Step(m, w2, Fire(i)) == Set(w2, i, trying);
    assert w1.tenures[i := trying] == w.tenures[i := trying];
    RunThree(m, w, Arm(i), Pass(waits), Fire(i), rest);
  }

  lemma Attempting(m: Terms, w: World, i: nat, turn: Turn)
    requires i < |w.tenures| && w.tenures[i].phase == Renewing(false) && w.tenures[i].attempt == w.now
    requires turn.took <= m.c.renewBound + m.late && Answerable(w.tenures[i], turn.answer)
    requires OthersIdle(m, w, i, w.now + turn.took)
    ensures Stands(Run(m, w, AttemptSteps(i, turn)), i, w.tenures[i].granted, LoopOf(w.tenures[i].sent, w.now, turn.took, turn.answer))
  {
    var t := w.tenures[i];
    var t1 := if t.lease.Some? then t.(lease := Some(w.now + t.granted), phase := Renewing(true)) else t;
    var w1 := Set(w, i, t1);
    assert Step(m, w, Reach(i)) == w1;
    assert Step(m, w1, Pass(turn.took)) == w1.(now := w.now + turn.took);
    assert AttemptSteps(i, turn) == [Reach(i), Pass(turn.took), Answered(i, turn.answer)] + [];
    RunThree(m, w, Reach(i), Pass(turn.took), Answered(i, turn.answer), []);
  }

  /** The loop after an attempt sent at `at` that took `took`. */
  function LoopOf(sent: int, at: int, took: nat, answer: Answer): Loop {
    match answer
    case Renewed => Loop(at, at, at + took, None)
    case Failed => Loop(sent, at, at + took, None)
    case Lost => Loop(sent, at, at + took, Some(at + took))
  }

  lemma SleptLoop(m: Terms, w: World, i: nat, turn: Turn)
    requires i < |w.tenures|
    requires AtHead(m.c, w.tenures[i].granted, w.tenures[i].sent, w.tenures[i].attempt, w.now).Sleeps?
    ensures
      var t := w.tenures[i];
      var until := AtHead(m.c, t.granted, t.sent, t.attempt, w.now).until;
      && until >= w.now && LoopAfter(m, w, i, turn) == LoopOf(t.sent, until + turn.late, turn.took, turn.answer)
  {}

  lemma SleptTurn(m: Terms, w: World, i: nat, turn: Turn)
    requires i < |w.tenures| && w.tenures[i].phase.AtTop?
    requires AtHead(m.c, w.tenures[i].granted, w.tenures[i].sent, w.tenures[i].attempt, w.now).Sleeps?
    requires turn.late <= m.late && turn.took <= m.c.renewBound + m.late && Answerable(w.tenures[i], turn.answer)
    requires OthersIdle(m, w, i, LoopAfter(m, w, i, turn).now)
    ensures Stands(Run(m, w, TurnSteps(m, w, i, turn)), i, w.tenures[i].granted, LoopAfter(m, w, i, turn))
  {
    var t := w.tenures[i];
    SleptLoop(m, w, i, turn);
    var waits: nat := AtHead(m.c, t.granted, t.sent, t.attempt, w.now).until + turn.late - w.now;
    Sleeping(m, w, i, waits, AttemptSteps(i, turn));
    Attempting(m, Set(w, i, t.(attempt := w.now + waits, phase := Renewing(false))).(now := w.now + waits), i, turn);
  }

  /** Any turn the loop can take, a tenure takes in steps of the timed world, and stands where the loop then stands. */
  lemma TurnIsSteps(m: Terms, w: World, i: nat, turn: Turn)
    requires i < |w.tenures| && w.tenures[i].phase.AtTop?
    requires turn.late <= m.late && turn.took <= m.c.renewBound + m.late && Answerable(w.tenures[i], turn.answer)
    requires OthersIdle(m, w, i, LoopAfter(m, w, i, turn).now)
    ensures Stands(Run(m, w, TurnSteps(m, w, i, turn)), i, w.tenures[i].granted, LoopAfter(m, w, i, turn))
  {
    var t := w.tenures[i];
    if AtHead(m.c, t.granted, t.sent, t.attempt, w.now).Sleeps? {
      SleptTurn(m, w, i, turn);
    } else {
      assert Run(m, w, [Arm(i)]) == Step(m, w, Arm(i));
    }
  }

  /** A turn the timed world can take: no timer or attempt too late, an answer the lease allows, and nobody else due before it ends. */
  predicate TurnOk(m: Terms, w: World, i: nat, turn: Turn)
    requires i < |w.tenures|
  {
    && turn.late <= m.late && turn.took <= m.c.renewBound + m.late
    && Answerable(w.tenures[i], turn.answer) && OthersIdle(m, w, i, LoopAfter(m, w, i, turn).now)
  }

  /** Every turn until the loop decides, each from where the one before it left the world. */
  predicate TurnsOk(m: Terms, w: World, i: nat, turns: seq<Turn>)
    decreases |turns|
  {
    i < |w.tenures| && w.tenures[i].phase.AtTop? &&
    (turns == [] ||
     (&& TurnOk(m, w, i, turns[0])
      && (LoopAfter(m, w, i, turns[0]).stopped.None? ==>
            TurnsOk(m, Run(m, w, TurnSteps(m, w, i, turns[0])), i, turns[1..]))))
  }

  function AllSteps(m: Terms, w: World, i: nat, turns: seq<Turn>): seq<Action>
    requires TurnsOk(m, w, i, turns)
    decreases |turns|
  {
    if turns == [] then []
    else
      var first := TurnSteps(m, w, i, turns[0]);
      if LoopAfter(m, w, i, turns[0]).stopped.Some? then first else first + AllSteps(m, Run(m, w, first), i, turns[1..])
  }

  lemma {:induction false} RunJoins(m: Terms, w: World, a: seq<Action>, b: seq<Action>)
    ensures Run(m, w, a + b) == Run(m, Run(m, w, a), b)
    decreases |a|
  {
    if a == [] {
      assert a + b == b;
    } else {
      assert (a + b)[1..] == a[1..] + b;
      RunJoins(m, Step(m, w, a[0]), a[1..], b);
    }
  }

  /** The whole renewal loop, over any turns the timed world can take, is a run of it, and ends where that run leaves the tenure. */
  lemma {:induction false} TurnsAreSteps(m: Terms, w: World, i: nat, turns: seq<Turn>)
    requires TurnsOk(m, w, i, turns)
    ensures
      var t := w.tenures[i];
      Stands(Run(m, w, AllSteps(m, w, i, turns)), i, t.granted, Turns(m.c, t.granted, Loop(t.sent, t.attempt, w.now, None), turns))
    decreases |turns|
  {
    if turns != [] {
      var first := TurnSteps(m, w, i, turns[0]);
      var w1 := Run(m, w, first);
      TurnIsSteps(m, w, i, turns[0]);
      if LoopAfter(m, w, i, turns[0]).stopped.None? {
        TurnsAreSteps(m, w1, i, turns[1..]);
        RunJoins(m, w, first, AllSteps(m, w1, i, turns[1..]));
      }
    }
  }

  // ---- A hold whose renewals succeed ----

  /** Of tenure `i`: every attempt reaches the backend and is answered within its bound, and no fence fails. */
  predicate HealthyStep(m: Terms, w: World, a: Action, i: nat) {
    && a != FenceFails(i)
    && (a.Answered? && a.i == i ==> a.answer.Renewed?)
    && (a.Pass? && i < |w.tenures| && w.tenures[i].phase.Renewing? ==> w.now + a.d <= w.tenures[i].attempt + m.c.renewBound)
  }

  predicate Healthy(m: Terms, w: World, actions: seq<Action>, i: nat)
    decreases |actions|
  {
    actions == [] || (HealthyStep(m, w, actions[0], i) && Healthy(m, Step(m, w, actions[0]), actions[1..], i))
  }

  /** Never decided to stop, and while the run is on, the lease and the claim are still its own. */
  predicate Survives(w: World, i: nat) {
    && i < |w.tenures|
    && !w.tenures[i].phase.Stopping? && !w.tenures[i].phase.Exited?
    && (Live(w.tenures[i]) ==> w.tenures[i].lease.Some? && w.claim == Some(i))
  }

  /** The lease outlasts the next attempt, however late its timer and however slow its call. */
  predicate Steady(m: Terms, w: World, i: nat) {
    && i < |w.tenures|
    && var t := w.tenures[i];
    && (t.phase.Ended? || t.phase.Gone? ||
         (&& t.lease.Some? && w.claim == Some(i)
          && t.granted >= m.c.claimExpiry && t.sent <= t.attempt <= w.now
          && t.lease.value <= w.now + t.granted
          && match t.phase
             case AtTop =>
               && w.now < StopDeadline(m.c, t.sent, t.granted)
               && Max(w.now, Min(t.attempt + m.c.renewEvery, StopDeadline(m.c, t.sent, t.granted))) + m.late + m.c.renewBound < t.lease.value
             case Asleep(until) => w.now <= until + m.late && until + m.late + m.c.renewBound < t.lease.value
             case Renewing(reached) =>
               && w.now <= t.attempt + m.c.renewBound
               && if reached then t.lease.value >= t.attempt + t.granted else t.attempt + m.c.renewBound < t.lease.value
             case _ => false))
  }

  /** A step of another tenure, or of the clock. */
  lemma SteadyAside(m: Terms, w: World, a: Action, i: nat)
    requires Accepted(m.c) && m.late <= MARGIN_FLOOR && ClaimNamed(w)
    requires Steady(m, w, i) && HealthyStep(m, w, a, i)
    requires a.Ask? || a.Pass? || a.i != i
    ensures Steady(m, Step(m, w, a), i)
  {
    if !a.Ask? && !a.Pass? && a.i < |w.tenures| {
      StepOfFrame(m, w, a);
    }
  }

  lemma SteadyOwn(m: Terms, w: World, a: Action, i: nat)
    requires Accepted(m.c) && m.late <= MARGIN_FLOOR && ClaimNamed(w)
    requires Steady(m, w, i) && HealthyStep(m, w, a, i)
    requires !a.Ask? && !a.Pass? && a.i == i
    ensures Steady(m, Step(m, w, a), i)
  {}

  predicate ClaimNamed(w: World) {
    w.claim.Some? ==> w.claim.value < |w.tenures|
  }

  lemma SteadyStep(m: Terms, w: World, a: Action, i: nat)
    requires Accepted(m.c) && m.late <= MARGIN_FLOOR && ClaimNamed(w)
    requires Steady(m, w, i) && HealthyStep(m, w, a, i)
    ensures Steady(m, Step(m, w, a), i) && ClaimNamed(Step(m, w, a))
  {
    if a.Ask? || a.Pass? || a.i != i {
      SteadyAside(m, w, a, i);
    } else {
      SteadyOwn(m, w, a, i);
    }
    if !a.Ask? && !a.Pass? && a.i < |w.tenures| {
      StepOfFrame(m, w, a);
    }
  }

  lemma {:induction false} SteadyRun(m: Terms, w: World, actions: seq<Action>, i: nat)
    requires Accepted(m.c) && m.late <= MARGIN_FLOOR && ClaimNamed(w)
    requires Steady(m, w, i) && Healthy(m, w, actions, i)
    ensures Steady(m, Run(m, w, actions), i)
    decreases |actions|
  {
    if actions != [] {
      SteadyStep(m, w, actions[0], i);
      SteadyRun(m, Step(m, w, actions[0]), actions[1..], i);
    }
  }

  /** No lease ends later than a renewal this very instant would make it. */
  predicate LeasesShort(w: World) {
    forall i :: 0 <= i < |w.tenures| && w.tenures[i].lease.Some? ==> w.tenures[i].lease.value <= w.now + w.tenures[i].granted
  }

  lemma {:induction false} LeasesStayShort(m: Terms, w: World, actions: seq<Action>)
    requires LeasesShort(w)
    ensures LeasesShort(Run(m, w, actions))
    decreases |actions|
  {
    if actions != [] {
      LeasesStayShort(m, Step(m, w, actions[0]), actions[1..]);
    }
  }

  /** Tenure `i` was admitted this instant, `delay` after its grant was asked for and before its first stop deadline. */
  predicate JustAdmitted(m: Terms, w: World, i: nat, delay: nat) {
    && i < |w.tenures|
    && var t := w.tenures[i];
    && t.phase.AtTop? && t.asked == t.sent == t.attempt
    && w.now == t.began == t.asked + delay
    && w.now < StopDeadline(m.c, t.sent, t.granted)
  }

  /** However the run of tenure `i` goes on, its renewals succeeding, it keeps its claim. */
  ghost predicate Outlives(m: Terms, w: World, i: nat) {
    forall actions :: Healthy(m, w, actions, i) ==> Survives(Run(m, w, actions), i)
  }

  lemma AdmittedOutlives(m: Terms, w: World, i: nat, delay: nat)
    requires Accepted(m.c) && m.late <= MARGIN_FLOOR && Reachable(m, w) && JustAdmitted(m, w, i, delay)
    requires delay + m.late + m.c.renewBound < m.c.claimExpiry
    ensures Outlives(m, w, i)
  {
    ReachableInv(m, w);
    var now: int, before: seq<Action> :| w == Run(m, Start(now), before);
    LeasesStayShort(m, Start(now), before);
    assert TenureOk(m, w, i);
    forall actions | Healthy(m, w, actions, i) ensures Survives(Run(m, w, actions), i) {
      SteadyRun(m, w, actions, i);
    }
  }

  /**
   * Every hold admitted `delay` after its grant was asked for, before its first stop deadline,
   * outlives every run in which its renewals succeed within their bound, however many other
   * triggers there are, exactly when the first attempt, as late as its timer and its bound allow,
   * still reaches the backend inside the lease.
   */
  lemma SurvivesExactly(m: Terms, delay: nat)
    requires Accepted(m.c) && m.late <= MARGIN_FLOOR
    requires delay < Deadline(m) && delay <= m.c.decisionBound + m.late
    ensures (forall w, i :: Reachable(m, w) && JustAdmitted(m, w, i, delay) ==> Outlives(m, w, i))
       <==> delay + m.late + m.c.renewBound < m.c.claimExpiry
  {
    if delay + m.late + m.c.renewBound < m.c.claimExpiry {
      forall w, i | Reachable(m, w) && JustAdmitted(m, w, i, delay) ensures Outlives(m, w, i) {
        AdmittedOutlives(m, w, i, delay);
      }
    } else {
      var w := Sole(m, delay, 0, delay, AtTop);
      Admits(m, delay);
      LapsesFirst(m, delay);
      assert JustAdmitted(m, w, 0, delay) && !Outlives(m, w, 0);
    }
  }

  /** The lease can lapse under the first attempt of a hold admitted too near its deadline. */
  lemma LapsesFirst(m: Terms, delay: nat)
    requires Accepted(m.c) && m.late <= MARGIN_FLOOR
    requires delay < Deadline(m) && delay + m.late + m.c.renewBound >= m.c.claimExpiry
    ensures exists actions :: Healthy(m, Sole(m, delay, 0, delay, AtTop), actions, 0)
                              && !Survives(Run(m, Sole(m, delay, 0, delay, AtTop), actions), 0)
  {
    var e := m.c.claimExpiry;
    var fired := Min(delay + m.late, e);
    var w0 := Sole(m, delay, 0, delay, AtTop);
    var w1 := Sole(m, delay, 0, delay, Asleep(delay));
    assert Step(m, w0, Arm(0)) == w1;
    var w2 := Sole(m, fired, 0, delay, Asleep(delay));
    assert Step(m, w1, Pass(fired - delay)) == w2;
    var w3 := Sole(m, fired, fired, delay, Renewing(false));
    assert Step(m, w2, Fire(0)) == w3;
    var w4 := Sole(m, e, fired, delay, Renewing(false));
    assert Step(m, w3, Pass(e - fired)) == w4;
    var w5 := Step(m, w4, Lapse(0));
    assert !Survives(w5, 0);
    var tail := [Lapse(0)];
    assert Run(m, w4, tail) == Run(m, w5, []) == w5 && Healthy(m, w4, tail, 0);
    Prepends(m, w3, Pass(e - fired), tail);
    Prepends(m, w2, Fire(0), [Pass(e - fired)] + tail);
    Prepends(m, w1, Pass(fired - delay), [Fire(0)] + ([Pass(e - fired)] + tail));
    Prepends(m, w0, Arm(0), [Pass(fired - delay)] + ([Fire(0)] + ([Pass(e - fired)] + tail)));
  }

  lemma Prepends(m: Terms, w: World, a: Action, actions: seq<Action>)
    ensures Run(m, w, [a] + actions) == Run(m, Step(m, w, a), actions)
    ensures Healthy(m, w, [a] + actions, 0) <==> HealthyStep(m, w, a, 0) && Healthy(m, Step(m, w, a), actions, 0)
  {
    assert ([a] + actions)[1..] == actions;
  }
}
