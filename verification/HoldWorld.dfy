/**
 * Claims of one name over time: any number of runs, on any number of hosts, each with its own
 * renewal loop and stop deadline, against one backend that times the leases. All clocks run at
 * one rate; every timer fires up to `late` after it is due.
 */
module HoldWorld {
  import opened Common
  import opened Renewal

  /** What is fixed for a run: the deployment's durations and how late a timer can be. */
  datatype Terms = Terms(c: Config, late: nat)

  datatype Phase =
    | Asking
    | Leased
    | Claimed
    | AtTop
    | Asleep(until: int)
    | Renewing(reached: bool)
    | Stopping(decided: int)
    | Ended
    | Exited
    | Gone

  /**
   * One trigger's tenure: when its grant was asked for and what was granted, what it last proved
   * and last tried, when its run began, and the end of its lease while the backend has one.
   */
  datatype Tenure = Tenure(asked: int, granted: int, sent: int, attempt: int, began: int, lease: Option<int>, phase: Phase)

  datatype World = World(now: int, claim: Option<nat>, tenures: seq<Tenure>)

  datatype Action =
    | Ask
    | Lease(i: nat, granted: int)
    | Commit(i: nat)
    | CommitLate(i: nat)
    | Abandon(i: nat)
    | Admit(i: nat)
    | Arm(i: nat)
    | Fire(i: nat)
    | Reach(i: nat)
    | Answered(i: nat, answer: Answer)
    | FenceFails(i: nat)
    | End(i: nat)
    | Exit(i: nat)
    | Release(i: nat)
    | Lapse(i: nat)
    | Pass(d: nat)

  /** A run is live from its admission until it is over or its process has exited. */
  predicate Live(t: Tenure) {
    t.phase.AtTop? || t.phase.Asleep? || t.phase.Renewing? || t.phase.Stopping?
  }

  /** A renewal of the run may still be on its way. */
  predicate MayReach(t: Tenure) {
    Live(t) || t.phase.Ended? || t.phase.Exited?
  }

  /** The instant by which a tenure must have moved, if it must move at all. */
  function Limit(m: Terms, t: Tenure): Option<int> {
    match t.phase
    case Asking => Some(t.asked + m.c.decisionBound + m.late)
    case Leased => Some(t.asked + m.c.decisionBound + m.late)
    case Claimed => Some(t.asked + m.c.decisionBound + m.late)
    case Asleep(until) => Some(until + m.late)
    case Renewing(_) => Some(t.attempt + m.c.renewBound + m.late)
    case Stopping(decided) => Some(decided + m.c.stopBound + m.late)
    case _ => None
  }

  /** Time may pass up to every limit, and not at all while a loop is at its head. */
  predicate MayPass(m: Terms, w: World, d: nat) {
    d > 0 ==> forall i :: 0 <= i < |w.tenures| ==>
      && !w.tenures[i].phase.AtTop?
      && (Limit(m, w.tenures[i]).Some? ==> w.now + d <= Limit(m, w.tenures[i]).value)
  }

  function Set(w: World, i: nat, t: Tenure): World
    requires i < |w.tenures|
  {
    w.(tenures := w.tenures[i := t])
  }

  function Start(now: int): World { World(now, None, []) }

  /** The lease of `i` ends, and the claim with it if the claim is its own. */
  function EndLease(w: World, i: nat): World
    requires i < |w.tenures|
  {
    Set(w, i, w.tenures[i].(lease := None)).(claim := if w.claim == Some(i) then None else w.claim)
  }

  function Step(m: Terms, w: World, a: Action): World {
    match a
    case Ask => w.(tenures := w.tenures + [Tenure(w.now, 0, w.now, w.now, 0, None, Asking)])
    case Pass(d) => if MayPass(m, w, d) then w.(now := w.now + d) else w
    case _ => if a.i < |w.tenures| then StepOf(m, w, a) else w
  }

  function StepOf(m: Terms, w: World, a: Action): World
    requires !a.Ask? && !a.Pass? && a.i < |w.tenures|
  {
    var i, t := a.i, w.tenures[a.i];
    match a
    case Lease(_, granted) =>
      if t.phase.Asking? && granted >= m.c.claimExpiry then
        Set(w, i, t.(granted := granted, lease := Some(w.now + granted), phase := Leased))
      else w
    case Commit(_) =>
      if t.phase.Leased? && w.claim.None? && t.lease.Some? then Set(w, i, t.(phase := Claimed)).(claim := Some(i)) else w
    case CommitLate(_) =>
      // A transaction can commit after its client stopped listening.
      if t.phase.Gone? && w.claim.None? && t.lease.Some? then w.(claim := Some(i)) else w
    case Abandon(_) =>
      if t.phase.Asking? || t.phase.Leased? || t.phase.Claimed? then Set(w, i, t.(phase := Gone)) else w
    case Admit(_) =>
      if t.phase.Claimed? then Set(w, i, t.(phase := AtTop, began := w.now)) else w
    case Arm(_) =>
      if t.phase.AtTop? then
        match AtHead(m.c, t.granted, t.sent, t.attempt, w.now)
        case Decides => Set(w, i, t.(phase := Stopping(w.now)))
        case Sleeps(until) => Set(w, i, t.(phase := Asleep(until)))
      else w
    case Fire(_) =>
      if t.phase.Asleep? && w.now >= t.phase.until then Set(w, i, t.(attempt := w.now, phase := Renewing(false))) else w
    case Reach(_) =>
      // A renewal can also reach the backend after its attempt was given up on, or its run is over.
      if MayReach(t) && t.lease.Some? then
        Set(w, i, t.(lease := Some(w.now + t.granted), phase := if t.phase.Renewing? then Renewing(true) else t.phase))
      else w
    case Answered(_, answer) =>
      if t.phase.Renewing? then
        match answer
        case Renewed => if t.phase.reached then Set(w, i, t.(sent := t.attempt, phase := AtTop)) else w
        case Failed => Set(w, i, t.(phase := AtTop))
        case Lost => if t.lease.None? then Set(w, i, t.(phase := Stopping(w.now))) else w
      else w
    case FenceFails(_) =>
      if Live(t) && !t.phase.Stopping? then Set(w, i, t.(phase := Stopping(w.now))) else w
    case End(_) => if Live(t) then Set(w, i, t.(phase := Ended)) else w
    case Exit(_) =>
      if t.phase.Stopping? && w.now >= t.phase.decided + m.c.stopBound then Set(w, i, t.(phase := Exited)) else w
    case Release(_) =>
      if t.phase.Ended? || t.phase.Gone? then EndLease(w, i).(tenures := EndLease(w, i).tenures[i := t.(lease := None, phase := Gone)]) else w
    case Lapse(_) =>
      if t.lease.Some? && w.now >= t.lease.value then EndLease(w, i) else w
  }

  function Run(m: Terms, w: World, actions: seq<Action>): World
    decreases |actions|
  {
    if actions == [] then w else Run(m, Step(m, w, actions[0]), actions[1..])
  }

  /** A world some interleaving leads to from no claim at all. */
  ghost predicate Reachable(m: Terms, w: World) {
    exists now: int, actions: seq<Action> :: w == Run(m, Start(now), actions)
  }

  // ---- What every step keeps ----

  /** The send the backend has honoured last. */
  function Proven(t: Tenure): int {
    if t.phase == Renewing(true) then t.attempt else t.sent
  }

  /** The latest instant at which a tenure's loop can decide to stop. */
  function DecidesBy(m: Terms, t: Tenure): int {
    Max(StopDeadline(m.c, t.sent, t.granted) + m.c.renewBound + 2 * m.late, t.asked + m.c.decisionBound + m.late)
  }

  ghost predicate TenureOk(m: Terms, w: World, i: nat)
    requires i < |w.tenures|
  {
    var t := w.tenures[i];
    && t.asked <= t.sent <= t.attempt <= w.now
    && (Limit(m, t).Some? ==> w.now <= Limit(m, t).value)
    && (!t.phase.Asking? ==> t.phase.Gone? || t.granted >= m.c.claimExpiry)
    && (t.lease.Some? ==> t.granted >= m.c.claimExpiry && t.lease.value >= Proven(t) + t.granted)
    && (w.claim == Some(i) ==> t.lease.Some?)
    && (t.phase.AtTop? ==> w.now <= DecidesBy(m, t))
    && (t.phase.Asleep? ==> t.phase.until <= StopDeadline(m.c, t.sent, t.granted))
    && (t.phase.Renewing? ==> t.attempt <= StopDeadline(m.c, t.sent, t.granted) + m.late)
    && (t.phase.Stopping? ==> t.phase.decided <= DecidesBy(m, t))
    && (Holding(t) ==> w.claim == Some(i) || (t.lease.None? && w.now >= Proven(t) + t.granted))
    && (Live(t) ==> t.began <= w.now)
  }

  /** A tenure that took the claim and may still run on it. */
  predicate Holding(t: Tenure) {
    t.phase.Claimed? || Live(t)
  }

  /** When a run began; a tenure not yet admitted begins no earlier than now. */
  function Begins(w: World, t: Tenure): int {
    if Live(t) then t.began else w.now
  }

  /** Of two tenures, the run of one begins only after what the other had proven ran out. */
  ghost predicate Apart(w: World, i: nat, j: nat)
    requires i < |w.tenures| && j < |w.tenures|
  {
    var t, u := w.tenures[i], w.tenures[j];
    || (t.lease.None? && Begins(w, u) >= Proven(t) + t.granted)
    || (u.lease.None? && Begins(w, t) >= Proven(u) + u.granted)
  }

  ghost predicate Inv(m: Terms, w: World) {
    && (w.claim.Some? ==> w.claim.value < |w.tenures|)
    && (forall i :: 0 <= i < |w.tenures| ==> TenureOk(m, w, i))
    && (forall i, j :: 0 <= i < |w.tenures| && 0 <= j < |w.tenures| && i != j ==>
          (Holding(w.tenures[i]) && Holding(w.tenures[j]) ==> Apart(w, i, j)))
  }

  /** A step that touches one tenure, and at most its own hold on the claim, keeps the rest. */
  lemma Touches(m: Terms, w: World, w': World, i: nat)
    requires Inv(m, w) && i < |w.tenures| && |w'.tenures| == |w.tenures| && w'.now == w.now
    requires forall j :: 0 <= j < |w.tenures| && j != i ==> w'.tenures[j] == w.tenures[j]
    requires w'.claim == w.claim || (w'.claim.None? && w.claim == Some(i)) || (w'.claim == Some(i) && w.claim.None?)
    requires TenureOk(m, w', i)
    requires forall j :: 0 <= j < |w.tenures| && j != i && Holding(w'.tenures[i]) && Holding(w.tenures[j]) ==> Apart(w', i, j)
    ensures Inv(m, w')
  {
    forall j | 0 <= j < |w'.tenures| ensures TenureOk(m, w', j) {
      assert TenureOk(m, w, j);
    }
    forall j, k | 0 <= j < |w'.tenures| && 0 <= k < |w'.tenures| && j != k && Holding(w'.tenures[j]) && Holding(w'.tenures[k])
      ensures Apart(w', j, k)
    {
      if j != i && k != i {
        assert Apart(w, j, k);
      } else if j == i {
        assert Apart(w', i, k);
      } else {
        assert Apart(w', i, j);
      }
    }
  }

  /** Before the run is admitted, and when its lease ends. */
  lemma OwnTenureBefore(m: Terms, w: World, a: Action)
    requires Accepted(m.c) && Inv(m, w) && !a.Ask? && !a.Pass? && a.i < |w.tenures|
    requires a.Lease? || a.Commit? || a.CommitLate? || a.Abandon? || a.Admit? || a.Release? || a.Lapse? || a.End? || a.Exit?
    ensures TenureOk(m, StepOf(m, w, a), a.i)
  {
    assert TenureOk(m, w, a.i);
  }

  lemma OwnTenureArms(m: Terms, w: World, a: Action)
    requires Accepted(m.c) && Inv(m, w) && !a.Ask? && !a.Pass? && a.i < |w.tenures|
    requires a.Arm? || a.FenceFails?
    ensures TenureOk(m, StepOf(m, w, a), a.i)
  {
    assert TenureOk(m, w, a.i);
  }

  lemma OwnTenureRenews(m: Terms, w: World, a: Action)
    requires Accepted(m.c) && Inv(m, w) && !a.Ask? && !a.Pass? && a.i < |w.tenures|
    requires a.Fire? || a.Reach?
    ensures TenureOk(m, StepOf(m, w, a), a.i)
  {
    assert TenureOk(m, w, a.i);
  }

  lemma OwnTenureAnswered(m: Terms, w: World, a: Action)
    requires Accepted(m.c) && Inv(m, w) && !a.Ask? && !a.Pass? && a.i < |w.tenures|
    requires a.Answered?
    ensures TenureOk(m, StepOf(m, w, a), a.i)
  {
    assert TenureOk(m, w, a.i);
  }

  /** A step of one tenure leaves the clock and the other tenures, and moves the claim only to or from its own. */
  lemma StepOfFrame(m: Terms, w: World, a: Action)
    requires !a.Ask? && !a.Pass? && a.i < |w.tenures|
    ensures
      var w' := StepOf(m, w, a);
      && |w'.tenures| == |w.tenures| && w'.now == w.now
      && (forall j :: 0 <= j < |w.tenures| && j != a.i ==> w'.tenures[j] == w.tenures[j])
      && (w'.claim == w.claim || (w'.claim.None? && w.claim == Some(a.i)) || (w'.claim == Some(a.i) && w.claim.None?))
  {}

  /** A tenure that goes on holding keeps when it began, and a lease it has lost stays lost with nothing more proven. */
  lemma StepOfContinues(m: Terms, w: World, a: Action)
    requires !a.Ask? && !a.Pass? && a.i < |w.tenures|
    requires w.tenures[a.i].sent <= w.tenures[a.i].attempt
    requires Holding(w.tenures[a.i]) && Holding(StepOf(m, w, a).tenures[a.i])
    ensures
      var t, t' := w.tenures[a.i], StepOf(m, w, a).tenures[a.i];
      && t'.granted == t.granted && Begins(w, t') == Begins(w, t)
      && (t.lease.None? ==> t'.lease.None? && Proven(t') <= Proven(t))
  {}

  lemma OwnApart(m: Terms, w: World, a: Action, j: nat)
    requires Accepted(m.c) && Inv(m, w) && !a.Ask? && !a.Pass? && a.i < |w.tenures|
    requires j < |w.tenures| && j != a.i && Holding(w.tenures[j])
    requires Holding(StepOf(m, w, a).tenures[a.i])
    ensures |StepOf(m, w, a).tenures| == |w.tenures| && Apart(StepOf(m, w, a), a.i, j)
  {
    StepOfFrame(m, w, a);
    assert TenureOk(m, w, a.i) && TenureOk(m, w, j);
    if Holding(w.tenures[a.i]) {
      StepOfContinues(m, w, a);
      assert Apart(w, a.i, j);
    } else {
      assert a.Commit?;
    }
  }

  lemma StepOfKeeps(m: Terms, w: World, a: Action)
    requires Accepted(m.c) && Inv(m, w) && !a.Ask? && !a.Pass? && a.i < |w.tenures|
    ensures Inv(m, StepOf(m, w, a))
  {
    var w' := StepOf(m, w, a);
    StepOfFrame(m, w, a);
    assert TenureOk(m, w', a.i) by {
      if a.Arm? || a.FenceFails? {
        OwnTenureArms(m, w, a);
      } else if a.Fire? || a.Reach? {
        OwnTenureRenews(m, w, a);
      } else if a.Answered? {
        OwnTenureAnswered(m, w, a);
      } else {
        OwnTenureBefore(m, w, a);
      }
    }
    forall j | 0 <= j < |w.tenures| && j != a.i && Holding(w'.tenures[a.i]) && Holding(w.tenures[j]) ensures Apart(w', a.i, j) {
      OwnApart(m, w, a, j);
    }
    Touches(m, w, w', a.i);
  }

  lemma AskKeeps(m: Terms, w: World)
    requires Accepted(m.c) && Inv(m, w)
    ensures Inv(m, Step(m, w, Ask))
  {
    var w' := Step(m, w, Ask);
    forall i | 0 <= i < |w'.tenures| ensures TenureOk(m, w', i) {
      if i < |w.tenures| { assert TenureOk(m, w, i); }
    }
    forall i, j | 0 <= i < |w'.tenures| && 0 <= j < |w'.tenures| && i != j && Holding(w'.tenures[i]) && Holding(w'.tenures[j])
      ensures Apart(w', i, j)
    {
      assert Apart(w, i, j);
    }
  }

  lemma PassKeeps(m: Terms, w: World, d: nat)
    requires Accepted(m.c) && Inv(m, w)
    ensures Inv(m, Step(m, w, Pass(d)))
  {
    var w' := Step(m, w, Pass(d));
    forall i | 0 <= i < |w'.tenures| ensures TenureOk(m, w', i) {
      assert TenureOk(m, w, i);
    }
    forall i, j | 0 <= i < |w'.tenures| && 0 <= j < |w'.tenures| && i != j && Holding(w'.tenures[i]) && Holding(w'.tenures[j])
      ensures Apart(w', i, j)
    {
      assert Apart(w, i, j);
    }
  }

  lemma StepKeeps(m: Terms, w: World, a: Action)
    requires Accepted(m.c) && Inv(m, w)
    ensures Inv(m, Step(m, w, a))
  {
    match a
    case Ask => AskKeeps(m, w);
    case Pass(d) => PassKeeps(m, w, d);
    case _ => if a.i < |w.tenures| { StepOfKeeps(m, w, a); }
  }

  lemma {:induction false} RunKeeps(m: Terms, w: World, actions: seq<Action>)
    requires Accepted(m.c) && Inv(m, w)
    ensures Inv(m, Run(m, w, actions))
    decreases |actions|
  {
    if actions != [] {
      StepKeeps(m, w, actions[0]);
      RunKeeps(m, Step(m, w, actions[0]), actions[1..]);
    }
  }

  lemma ReachableInv(m: Terms, w: World)
    requires Accepted(m.c) && Reachable(m, w)
    ensures Inv(m, w)
  {
    var now: int, actions: seq<Action> :| w == Run(m, Start(now), actions);
    RunKeeps(m, Start(now), actions);
  }
}
