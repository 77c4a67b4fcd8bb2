/**
 * The single-host coordinator: one exclusive lock a name, and a record store holding the last
 * tick and the starts of rated runs. Each step below is one call to the kernel or the store;
 * any number of processes interleave theirs, each on its own reading of the wall clock.
 */
module FileLock {
  import opened Common
  import opened Coordination

  datatype Tick = Tick(due: int, holder: Holder)

  /** A recorded start of a rated run, with the limit it was checked against. */
  datatype Start = Start(run: string, limit: Rate, at: int)

  /** The lock excludes; the holder written in its file is only what a refusal can name. */
  datatype Why =
    | Invalid
    | Busy(named: Option<Holder>)
    | LockFailed
    | Ran(tick: Tick)
    | TickFailed
    | Limited(limit: Rate)
    | RateFailed

  /** `past` says whether a process that died was past its tick's turn. */
  datatype Phase = Asked | Locked | Signed | Ticked | Holding | Refused(why: Why) | Released | Dead(past: bool)

  datatype Attempt = Attempt(req: Request, phase: Phase)

  datatype World = World(
    locks: map<Name, nat>,
    files: map<Name, Holder>,
    ticks: map<Name, Tick>,
    starts: map<Name, seq<Start>>,
    attempts: seq<Attempt>)

  datatype Action =
    | Begin(req: Request)
    | Lock(i: nat)
    | Sign(i: nat, written: bool)
    | TickTurn(i: nat)
    | RateTurn(i: nat, wall: int)
    | Fail(i: nat)
    | Release(i: nat)
    | Die(i: nat)

  function Idle(): World { World(map[], map[], map[], map[], []) }

  function StartsOf(w: World, name: Name): seq<Start> {
    if name in w.starts then w.starts[name] else []
  }

  /** Starts at or after an instant. */
  function CountSince(starts: seq<Start>, since: int): (n: nat)
    ensures n <= |starts|
  {
    if starts == [] then 0
    else CountSince(starts[..|starts| - 1], since) + if Last(starts).at >= since then 1 else 0
  }

  /** Which starts were recorded at or after an instant. */
  function InWindow(starts: seq<Start>, since: int): set<nat> {
    set k: nat | k < |starts| && starts[k].at >= since
  }

  lemma {:induction false} CountExactly(starts: seq<Start>, since: int)
    ensures CountSince(starts, since) == |InWindow(starts, since)|
  {
    if starts != [] {
      var n := |starts| - 1;
      CountExactly(starts[..n], since);
      assert InWindow(starts, since) == InWindow(starts[..n], since) + if starts[n].at >= since then {n} else {};
    } else {
      assert InWindow(starts, since) == {};
    }
  }

  /** From the lock's taking to its giving back. */
  predicate HasLock(phase: Phase) {
    phase.Locked? || phase.Signed? || phase.Ticked? || phase.Holding?
  }

  /** Past the tick's turn, and not refused by it. */
  predicate Past(phase: Phase) {
    match phase
    case Ticked => true
    case Holding => true
    case Released => true
    case Refused(why) => why.Limited? || why.RateFailed?
    case Dead(past) => past
    case _ => false
  }

  function Move(w: World, i: nat, phase: Phase): World
    requires i < |w.attempts|
  {
    w.(attempts := w.attempts[i := w.attempts[i].(phase := phase)])
  }

  /** Gives the lock back on the way out. */
  function Leave(w: World, i: nat, phase: Phase): World
    requires i < |w.attempts|
  {
    Move(w, i, phase).(locks := w.locks - {w.attempts[i].req.name})
  }

  function LockStep(w: World, i: nat): World
    requires i < |w.attempts|
  {
    var name := w.attempts[i].req.name;
    if name in w.locks then Move(w, i, Refused(Busy(if name in w.files then Some(w.files[name]) else None)))
    else Move(w, i, Locked).(locks := w.locks[name := i])
  }

  function SignStep(w: World, i: nat, written: bool): World
    requires i < |w.attempts|
  {
    var req := w.attempts[i].req;
    Move(w, i, if req.trigger.Scheduled? then Signed else Ticked).(
    files := if written then w.files[req.name := req.holder] else w.files)
  }

  function TickStep(w: World, i: nat): World
    requires i < |w.attempts| && w.attempts[i].req.trigger.Scheduled?
  {
    var req := w.attempts[i].req;
    if req.name in w.ticks && req.trigger.due <= w.ticks[req.name].due then Leave(w, i, Refused(Ran(w.ticks[req.name])))
    else Move(w, i, Ticked).(ticks := w.ticks[req.name := Tick(req.trigger.due, req.holder)])
  }

  function RateStep(w: World, i: nat, wall: int): World
    requires i < |w.attempts|
  {
    var req := w.attempts[i].req;
    if req.rate.None? then Move(w, i, Holding)
    else
      var limit, starts := req.rate.value, StartsOf(w, req.name);
      if CountSince(starts, wall - limit.per) >= limit.runs then Leave(w, i, Refused(Limited(limit)))
      else Move(w, i, Holding).(starts := w.starts[req.name := starts + [Start(req.holder.run, limit, wall)]])
  }

  /** The lock, the store at the tick's turn, or the store at the rate's: a request with no limit asks it nothing there. */
  function FailStep(w: World, i: nat): World
    requires i < |w.attempts|
  {
    var me := w.attempts[i];
    match me.phase
    case Asked => Move(w, i, Refused(LockFailed))
    case Signed => Leave(w, i, Refused(TickFailed))
    case Ticked => if me.req.rate.Some? then Leave(w, i, Refused(RateFailed)) else w
    case _ => w
  }

  function DieStep(w: World, i: nat): World
    requires i < |w.attempts|
  {
    var phase := w.attempts[i].phase;
    if HasLock(phase) then Leave(w, i, Dead(Past(phase))) else Move(w, i, Dead(Past(phase)))
  }

  function Step(w: World, a: Action): World {
    if a.Begin? then w.(attempts := w.attempts + [Attempt(a.req, if Checks(a.req) then Asked else Refused(Invalid))])
    else if a.i < |w.attempts| then StepOf(w, a)
    else w
  }

  function StepOf(w: World, a: Action): World
    requires !a.Begin? && a.i < |w.attempts|
  {
    var me := w.attempts[a.i];
    match a
    case Lock(i) => if me.phase.Asked? then LockStep(w, i) else w
    case Sign(i, written) => if me.phase.Locked? then SignStep(w, i, written) else w
    case TickTurn(i) => if me.phase.Signed? && me.req.trigger.Scheduled? then TickStep(w, i) else w
    case RateTurn(i, wall) => if me.phase.Ticked? then RateStep(w, i, wall) else w
    case Fail(i) => FailStep(w, i)
    case Release(i) => if me.phase.Holding? then Leave(w, i, Released) else w
    case Die(i) => DieStep(w, i)
  }

  function Run(w: World, actions: seq<Action>): World
    decreases |actions|
  {
    if actions == [] then w else Run(Step(w, actions[0]), actions[1..])
  }

  lemma {:induction false} RunAppends(w: World, a: seq<Action>, b: seq<Action>)
    ensures Run(w, a + b) == Run(Run(w, a), b)
    decreases |a|
  {
    if a == [] {
      assert a + b == b;
    } else {
      assert (a + b)[1..] == a[1..] + b;
      RunAppends(Step(w, a[0]), a[1..], b);
    }
  }

  // ---- Exclusion ----

  /** The lock of a name is held by exactly the attempt that took it and has not left. */
  ghost predicate Exclusive(w: World) {
    && (forall n :: n in w.locks ==> LockOk(w, n))
    && (forall i :: 0 <= i < |w.attempts| && HasLock(w.attempts[i].phase) ==> Owns(w, i))
  }

  predicate LockOk(w: World, n: Name)
    requires n in w.locks
  {
    var i := w.locks[n];
    i < |w.attempts| && w.attempts[i].req.name == n && HasLock(w.attempts[i].phase)
  }

  predicate Owns(w: World, i: nat)
    requires i < |w.attempts|
  {
    w.attempts[i].req.name in w.locks && w.locks[w.attempts[i].req.name] == i
  }

  /** One attempt moves; its lock is taken, given back or left alone, and no other's. */
  ghost predicate Moves(w: World, w': World, i: nat) {
    && i < |w.attempts| == |w'.attempts|
    && (forall j :: 0 <= j < |w.attempts| && j != i ==> w'.attempts[j] == w.attempts[j])
    && w'.attempts[i].req == w.attempts[i].req
    && var name, held, holds := w.attempts[i].req.name, HasLock(w.attempts[i].phase), HasLock(w'.attempts[i].phase);
       || (w'.locks == w.locks && held == holds)
       || (w'.locks == w.locks - {name} && held && !holds)
       || (name !in w.locks && w'.locks == w.locks[name := i] && holds)
  }

  lemma TickMoves(w: World, i: nat)
    requires i < |w.attempts| && w.attempts[i].phase.Signed? && w.attempts[i].req.trigger.Scheduled?
    ensures Moves(w, TickStep(w, i), i)
  {}

  lemma RateMoves(w: World, i: nat, wall: int)
    requires i < |w.attempts| && w.attempts[i].phase.Ticked?
    ensures Moves(w, RateStep(w, i, wall), i)
  {}

  lemma StepMoves(w: World, a: Action)
    requires !a.Begin? && a.i < |w.attempts|
    ensures Moves(w, Step(w, a), a.i)
  {
    var me := w.attempts[a.i];
    if a.TickTurn? {
      if me.phase.Signed? && me.req.trigger.Scheduled? { TickMoves(w, a.i); }
    } else if a.RateTurn? {
      if me.phase.Ticked? { RateMoves(w, a.i, a.wall); }
    } else if a.Lock? {
      assert me.phase.Asked? ==> Step(w, a) == LockStep(w, a.i);
    } else if a.Sign? {
      assert me.phase.Locked? ==> Step(w, a) == SignStep(w, a.i, a.written);
    } else {
      LeaveMoves(w, a);
    }
  }

  lemma FailMoves(w: World, i: nat)
    requires i < |w.attempts|
    ensures Moves(w, FailStep(w, i), i)
  {}

  lemma DieMoves(w: World, i: nat)
    requires i < |w.attempts|
    ensures Moves(w, DieStep(w, i), i)
  {}

  lemma LeaveMoves(w: World, a: Action)
    requires (a.Fail? || a.Release? || a.Die?) && a.i < |w.attempts|
    ensures Moves(w, Step(w, a), a.i)
  {
    match a
    case Fail(i) => FailMoves(w, i);
    case Die(i) => DieMoves(w, i);
    case _ =>
  }

  lemma MovesExclude(w: World, w': World, i: nat)
    requires Exclusive(w) && Moves(w, w', i)
    ensures Exclusive(w')
  {
    forall n | n in w'.locks ensures LockOk(w', n) {
      if n in w.locks {
        assert LockOk(w, n);
      }
      if HasLock(w.attempts[i].phase) {
        assert Owns(w, i);
      }
    }
    forall j | 0 <= j < |w'.attempts| && HasLock(w'.attempts[j].phase) ensures Owns(w', j) {
      if HasLock(w.attempts[j].phase) {
        assert Owns(w, j);
      }
    }
  }

  lemma StepExcludes(w: World, a: Action)
    requires Exclusive(w)
    ensures Exclusive(Step(w, a))
  {
    if !a.Begin? && a.i < |w.attempts| {
      StepMoves(w, a);
      MovesExclude(w, Step(w, a), a.i);
    } else {
      var w' := Step(w, a);
      forall n | n in w'.locks ensures LockOk(w', n) {
        assert LockOk(w, n);
      }
      forall j | 0 <= j < |w'.attempts| && HasLock(w'.attempts[j].phase) ensures Owns(w', j) {
        assert Owns(w, j);
      }
    }
  }

  lemma {:induction false} RunExcludes(w: World, actions: seq<Action>)
    requires Exclusive(w)
    ensures Exclusive(Run(w, actions))
    decreases |actions|
  {
    if actions != [] {
      StepExcludes(w, actions[0]);
      RunExcludes(Step(w, actions[0]), actions[1..]);
    }
  }

  ghost predicate Reachable(w: World) {
    exists actions: seq<Action> :: w == Run(Idle(), actions)
  }

  /** However the processes interleave, at most one attempt on a name is between its lock's taking and its giving back. */
  lemma OneHolder(w: World, i: nat, j: nat)
    requires Reachable(w) && i < |w.attempts| && j < |w.attempts|
    requires HasLock(w.attempts[i].phase) && HasLock(w.attempts[j].phase) && w.attempts[i].req.name == w.attempts[j].req.name
    ensures i == j
  {
    var actions: seq<Action> :| w == Run(Idle(), actions);
    RunExcludes(Idle(), actions);
  }

  /** Releasing a claim frees it once: done again, or by a claim since replaced, it frees nobody's. */
  lemma ReleaseFreesOwn(w: World, i: nat, n: Name)
    requires Reachable(w) && n in w.locks && w.locks[n] != i
    ensures n in Step(w, Release(i)).locks && Step(w, Release(i)).locks[n] == w.locks[n]
    ensures Step(Step(w, Release(i)), Release(i)) == Step(w, Release(i))
  {
    var actions: seq<Action> :| w == Run(Idle(), actions);
    RunExcludes(Idle(), actions);
  }

  // ---- Ticks ----

  /** The recorded tick of every name only moves later. */
  ghost predicate TicksRise(w: World, w': World) {
    forall n :: n in w.ticks ==> n in w'.ticks && w.ticks[n].due <= w'.ticks[n].due
  }

  lemma StepRises(w: World, a: Action)
    ensures TicksRise(w, Step(w, a))
    ensures forall n :: n in Step(w, a).ticks && (n !in w.ticks || Step(w, a).ticks[n] != w.ticks[n]) ==>
              a.TickTurn? && a.i < |w.attempts| && w.attempts[a.i].req.name == n && w.attempts[a.i].req.trigger.Scheduled?
              && Step(w, a).ticks[n].due == w.attempts[a.i].req.trigger.due
              && (n in w.ticks ==> w.ticks[n].due < Step(w, a).ticks[n].due)
  {}

  lemma {:induction false} RunRises(w: World, actions: seq<Action>)
    ensures TicksRise(w, Run(w, actions))
    decreases |actions|
  {
    if actions != [] {
      StepRises(w, actions[0]);
      RunRises(Step(w, actions[0]), actions[1..]);
    }
  }

  /** The occurrence of a name has been taken up. */
  predicate Spent(w: World, name: Name, due: int) {
    name in w.ticks && due <= w.ticks[name].due
  }

  /**
   * A scheduled attempt at its turn passes exactly if its occurrence is unspent; either way the
   * occurrence is spent from then on, in every continuation, so it passes at most once.
   */
  lemma OccurrencePassesOnce(w: World, i: nat, later: seq<Action>)
    requires i < |w.attempts| && w.attempts[i].phase.Signed? && w.attempts[i].req.trigger.Scheduled?
    ensures
      var req, w' := w.attempts[i].req, Step(w, TickTurn(i));
      && (w'.attempts[i].phase.Ticked? <==> !Spent(w, req.name, req.trigger.due))
      && Spent(Run(w', later), req.name, req.trigger.due)
  {
    RunRises(Step(w, TickTurn(i)), later);
  }

  /** Whatever got past its tick has spent its occurrence. */
  ghost predicate SpentOnceTicked(w: World) {
    forall i :: 0 <= i < |w.attempts| && PastTick(w.attempts[i]) ==> Spent(w, w.attempts[i].req.name, w.attempts[i].req.trigger.due)
  }

  /** A scheduled attempt whose tick had its turn and passed. */
  predicate PastTick(me: Attempt) {
    me.req.trigger.Scheduled? && Past(me.phase)
  }

  /** What the store holds, besides names: the ticks and the starts. */
  predicate StoreMoved(w: World, w': World) {
    w'.ticks != w.ticks || w'.starts != w.starts
  }

  /** A step takes a scheduled attempt past its tick exactly by moving what the store holds. */
  ghost predicate PassesByWriting(w: World, w': World, i: nat)
    requires i < |w.attempts|
  {
    var req := w.attempts[i].req;
    && i < |w'.attempts| && w'.attempts[i].req == req
    && (PastTick(w'.attempts[i]) <==> PastTick(w.attempts[i]) || StoreMoved(w, w'))
    && (w'.ticks != w.ticks ==> Spent(w', req.name, req.trigger.due))
    && (w'.starts != w.starts ==> PastTick(w.attempts[i]))
  }

  lemma TickPasses(w: World, i: nat)
    requires i < |w.attempts| && w.attempts[i].phase.Signed? && w.attempts[i].req.trigger.Scheduled?
    ensures PassesByWriting(w, TickStep(w, i), i)
  {
    var req := w.attempts[i].req;
    if !Spent(w, req.name, req.trigger.due) {
      assert TickStep(w, i).ticks[req.name] == Tick(req.trigger.due, req.holder);
    }
  }

  lemma RatePasses(w: World, i: nat, wall: int)
    requires i < |w.attempts| && w.attempts[i].phase.Ticked? && w.attempts[i].req.trigger.Scheduled?
    ensures PassesByWriting(w, RateStep(w, i, wall), i)
  {}

  lemma LeavePasses(w: World, i: nat)
    requires i < |w.attempts| && w.attempts[i].req.trigger.Scheduled?
    ensures PassesByWriting(w, FailStep(w, i), i) && PassesByWriting(w, DieStep(w, i), i)
  {}

  lemma StepPasses(w: World, a: Action)
    requires !a.Begin? && a.i < |w.attempts| && w.attempts[a.i].req.trigger.Scheduled?
    ensures PassesByWriting(w, Step(w, a), a.i)
  {
    if a.TickTurn? && w.attempts[a.i].phase.Signed? {
      TickPasses(w, a.i);
    } else if a.RateTurn? && w.attempts[a.i].phase.Ticked? {
      RatePasses(w, a.i, a.wall);
    } else if a.Fail? || a.Die? {
      LeavePasses(w, a.i);
    } else {
      assert a.Lock? || a.Sign? || a.Release? || Step(w, a) == w;
    }
  }

  /** Another's step leaves an attempt; one begun is not past anything. */
  lemma StepAside(w: World, a: Action, i: nat)
    requires a.Begin? || a.i != i
    ensures i < |w.attempts| ==> i < |Step(w, a).attempts| && Step(w, a).attempts[i] == w.attempts[i]
    ensures |w.attempts| <= i < |Step(w, a).attempts| ==> !Past(Step(w, a).attempts[i].phase)
  {
    if !a.Begin? && a.i < |w.attempts| {
      StepMoves(w, a);
    }
  }

  lemma StaysSpent(w: World, a: Action, name: Name, due: int)
    ensures Spent(w, name, due) ==> Spent(Step(w, a), name, due)
  {
    StepRises(w, a);
  }

  lemma StepSpendsOne(w: World, a: Action, j: nat)
    requires SpentOnceTicked(w) && j < |Step(w, a).attempts| && PastTick(Step(w, a).attempts[j])
    ensures Spent(Step(w, a), Step(w, a).attempts[j].req.name, Step(w, a).attempts[j].req.trigger.due)
  {
    var req := Step(w, a).attempts[j].req;
    StaysSpent(w, a, req.name, req.trigger.due);
    if a.Begin? || a.i != j {
      StepAside(w, a, j);
    } else if j < |w.attempts| {
      StepMoves(w, a);
      StepPasses(w, a);
    }
  }

  lemma StepSpends(w: World, a: Action)
    requires SpentOnceTicked(w)
    ensures SpentOnceTicked(Step(w, a))
  {
    var w' := Step(w, a);
    forall j | 0 <= j < |w'.attempts| && PastTick(w'.attempts[j])
      ensures Spent(w', w'.attempts[j].req.name, w'.attempts[j].req.trigger.due)
    {
      StepSpendsOne(w, a, j);
    }
  }

  lemma {:induction false} RunSpends(w: World, actions: seq<Action>)
    requires SpentOnceTicked(w)
    ensures SpentOnceTicked(Run(w, actions))
    decreases |actions|
  {
    if actions != [] {
      StepSpends(w, actions[0]);
      RunSpends(Step(w, actions[0]), actions[1..]);
    }
  }

  /** Along a run, some step of attempt `i` moved what the store holds. */
  predicate Wrote(w: World, actions: seq<Action>, i: nat)
    decreases |actions|
  {
    actions != [] &&
    (|| (!actions[0].Begin? && actions[0].i == i && StoreMoved(w, Step(w, actions[0])))
     || Wrote(Step(w, actions[0]), actions[1..], i))
  }

  /** Whatever a scheduled attempt came to, it wrote to the store exactly if it came past its tick's turn. */
  lemma {:induction false} WrittenExactly(w: World, actions: seq<Action>, i: nat)
    requires i < |Run(w, actions).attempts| && Run(w, actions).attempts[i].req.trigger.Scheduled?
    ensures i < |w.attempts| ==> w.attempts[i].req == Run(w, actions).attempts[i].req
    ensures PastTick(Run(w, actions).attempts[i]) <==> (i < |w.attempts| && PastTick(w.attempts[i])) || Wrote(w, actions, i)
    decreases |actions|
  {
    if actions != [] {
      var a := actions[0];
      WrittenExactly(Step(w, a), actions[1..], i);
      if a.Begin? || a.i != i {
        StepAside(w, a, i);
      } else if i < |w.attempts| {
        StepMoves(w, a);
        StepPasses(w, a);
      }
    }
  }

  /**
   * A scheduled attempt that is refused has written nothing, unless, and only unless, it was its limit
   * that refused it or the store that failed while its window was counted or taken; the occurrence is
   * then spent in every continuation, and nothing later runs it.
   */
  lemma RefusedButSpent(actions: seq<Action>, i: nat, later: seq<Action>)
    requires i < |Run(Idle(), actions).attempts| && Run(Idle(), actions).attempts[i].req.trigger.Scheduled?
    requires Run(Idle(), actions).attempts[i].phase.Refused?
    ensures
      var w := Run(Idle(), actions);
      var me := w.attempts[i];
      && (Wrote(Idle(), actions, i) <==> me.phase.why.Limited? || me.phase.why.RateFailed?)
      && (Wrote(Idle(), actions, i) ==> Spent(Run(w, later), me.req.name, me.req.trigger.due))
  {
    WrittenExactly(Idle(), actions, i);
    RunSpends(Idle(), actions);
    RunRises(Run(Idle(), actions), later);
  }

  /** A scheduled attempt refused at its rate's turn has spent its occurrence: nothing later runs it. */
  lemma RateRefusalSpends(w: World, i: nat, later: seq<Action>)
    requires Reachable(w) && i < |w.attempts| && w.attempts[i].req.trigger.Scheduled?
    requires w.attempts[i].phase.Refused? && (w.attempts[i].phase.why.Limited? || w.attempts[i].phase.why.RateFailed?)
    ensures Spent(Run(w, later), w.attempts[i].req.name, w.attempts[i].req.trigger.due)
  {
    var actions: seq<Action> :| w == Run(Idle(), actions);
    RefusedButSpent(actions, i, later);
  }

  /** An attempt whose process dies has written exactly if it died past its tick's turn. */
  lemma DeadButSpent(actions: seq<Action>, i: nat)
    requires i < |Run(Idle(), actions).attempts| && Run(Idle(), actions).attempts[i].req.trigger.Scheduled?
    ensures
      var w, w' := Run(Idle(), actions), Run(Idle(), actions + [Die(i)]);
      && i < |w'.attempts| && w'.attempts[i].phase.Dead?
      && (Wrote(Idle(), actions + [Die(i)], i) <==> Past(w.attempts[i].phase))
      && w'.ticks == w.ticks
  {
    var w := Run(Idle(), actions);
    RunAppends(Idle(), actions, [Die(i)]);
    assert Run(w, [Die(i)]) == Step(w, Die(i)) == DieStep(w, i);
    WrittenExactly(Idle(), actions + [Die(i)], i);
  }

  // ---- From the moment the lock is held ----

  /** A name's tick and starts, the same in both. */
  predicate SameRecord(w: World, w': World, name: Name) {
    && (name in w.ticks <==> name in w'.ticks) && (name in w.ticks ==> w'.ticks[name] == w.ticks[name])
    && StartsOf(w', name) == StartsOf(w, name)
  }

  lemma TickRecordsOwn(w: World, i: nat, name: Name)
    requires i < |w.attempts| && w.attempts[i].req.trigger.Scheduled? && w.attempts[i].req.name != name
    ensures SameRecord(w, TickStep(w, i), name)
  {}

  lemma RateRecordsOwn(w: World, i: nat, wall: int, name: Name)
    requires i < |w.attempts| && w.attempts[i].req.name != name
    ensures SameRecord(w, RateStep(w, i, wall), name)
  {}

  /** What a step records, it records of the name its own attempt has locked. */
  lemma RecordsOwn(w: World, a: Action, name: Name)
    requires a.Begin? || a.i >= |w.attempts| || w.attempts[a.i].req.name != name || !HasLock(w.attempts[a.i].phase)
    ensures SameRecord(w, Step(w, a), name)
  {
    if a.RateTurn? && a.i < |w.attempts| && w.attempts[a.i].phase.Ticked? {
      RateRecordsOwn(w, a.i, a.wall, name);
    } else if a.TickTurn? && a.i < |w.attempts| && w.attempts[a.i].phase.Signed? && w.attempts[a.i].req.trigger.Scheduled? {
      TickRecordsOwn(w, a.i, name);
    } else {
      assert !StoreMoved(w, Step(w, a));
    }
  }

  /** While an attempt is in the lock, whatever the others do leaves it, its name's tick and its name's starts. */
  lemma {:induction false} OthersKeepOff(w: World, others: seq<Action>, i: nat)
    requires Exclusive(w) && i < |w.attempts| && HasLock(w.attempts[i].phase) && Others(others, i)
    ensures Exclusive(Run(w, others))
    ensures i < |Run(w, others).attempts| && Run(w, others).attempts[i] == w.attempts[i]
    ensures SameRecord(w, Run(w, others), w.attempts[i].req.name)
    decreases |others|
  {
    if others != [] {
      var a := others[0];
      StepExcludes(w, a);
      StepAside(w, a, i);
      assert Owns(w, i);
      assert !a.Begin? && a.i < |w.attempts| && HasLock(w.attempts[a.i].phase) ==> Owns(w, a.i);
      RecordsOwn(w, a, w.attempts[i].req.name);
      OthersKeepOff(Step(w, a), others[1..], i);
    }
  }

  /** How the tick's turn ends, from what is recorded while the lock is held. */
  function TickEnds(w: World, req: Request, fails: bool): Phase
    requires req.trigger.Scheduled?
  {
    if fails then Refused(TickFailed)
    else if Spent(w, req.name, req.trigger.due) then Refused(Ran(w.ticks[req.name]))
    else Ticked
  }

  /** As many starts as the limit allows lie in the window before an instant. */
  predicate WindowFull(w: World, req: Request, wall: int)
    requires req.rate.Some?
  {
    |InWindow(StartsOf(w, req.name), wall - req.rate.value.per)| >= req.rate.value.runs
  }

  /**
   * At the rate's turn an attempt is refused by its limit exactly if as many recorded starts as the
   * limit allows lie at or after the window's beginning; otherwise its own start is the next record.
   */
  lemma LimitedExactly(w: World, i: nat, wall: int)
    requires i < |w.attempts| && w.attempts[i].phase.Ticked? && w.attempts[i].req.rate.Some?
    ensures
      var req, w' := w.attempts[i].req, Step(w, RateTurn(i, wall));
      && i < |w'.attempts|
      && w'.attempts[i].phase == (if WindowFull(w, req, wall) then Refused(Limited(req.rate.value)) else Holding)
      && StartsOf(w', req.name) == StartsOf(w, req.name) +
                                   if WindowFull(w, req, wall) then [] else [Start(req.holder.run, req.rate.value, wall)]
  {
    var req := w.attempts[i].req;
    CountExactly(StartsOf(w, req.name), wall - req.rate.value.per);
    assert Step(w, RateTurn(i, wall)) == RateStep(w, i, wall);
  }

  /** How the rate's turn ends. */
  function RateEnds(w: World, req: Request, wall: int, fails: bool): Phase {
    if req.rate.None? then Holding
    else if fails then Refused(RateFailed)
    else if WindowFull(w, req, wall) then Refused(Limited(req.rate.value))
    else Holding
  }

  /** How a scheduled attempt in the lock ends, the store failing at its turns or not. */
  function EndsAs(w: World, req: Request, wall: int, tickFails: bool, rateFails: bool): Phase
    requires req.trigger.Scheduled?
  {
    if TickEnds(w, req, tickFails).Ticked? then RateEnds(w, req, wall, rateFails) else TickEnds(w, req, tickFails)
  }

  /** What a call answers, from the world it asks for the lock in and the calls that fail. */
  function Answered(w: World, req: Request, wall: int, fails: set<nat>): Phase {
    if !Checks(req) then Refused(Invalid)
    else if 0 in fails then Refused(LockFailed)
    else if req.name in w.locks then Refused(Busy(if req.name in w.files then Some(w.files[req.name]) else None))
    else if req.trigger.Scheduled? then EndsAs(w, req, wall, 2 in fails, 3 in fails)
    else RateEnds(w, req, wall, 3 in fails)
  }

  /** The claim must be taken: nobody has the lock, nothing fails, the occurrence is unspent and the window has room. */
  predicate MustTake(w: World, req: Request, wall: int, fails: set<nat>) {
    && Checks(req) && 0 !in fails && req.name !in w.locks
    && (req.trigger.Scheduled? ==> 2 !in fails && !Spent(w, req.name, req.trigger.due))
    && (req.rate.Some? ==> 3 !in fails && !WindowFull(w, req, wall))
  }

  /** Where the record of a name is the same, its turns end the same. */
  lemma SameEnds(w: World, w': World, req: Request, wall: int, tickFails: bool, rateFails: bool)
    requires SameRecord(w, w', req.name)
    ensures RateEnds(w', req, wall, rateFails) == RateEnds(w, req, wall, rateFails)
    ensures req.trigger.Scheduled? ==> EndsAs(w', req, wall, tickFails, rateFails) == EndsAs(w, req, wall, tickFails, rateFails)
  {}

  /** Asking for the lock and signing it move neither ticks nor starts. */
  lemma LockNow(w: World, i: nat, fails: bool)
    requires i < |w.attempts| && w.attempts[i].phase.Asked?
    ensures
      var w', name := Step(w, if fails then Fail(i) else Lock(i)), w.attempts[i].req.name;
      && i < |w'.attempts| && w'.ticks == w.ticks && w'.starts == w.starts
      && w'.attempts[i].phase == if fails then Refused(LockFailed)
                                 else if name in w.locks then Refused(Busy(if name in w.files then Some(w.files[name]) else None))
                                 else Locked
  {}

  lemma SignNow(w: World, i: nat, written: bool)
    requires i < |w.attempts|
    ensures Step(w, Sign(i, written)).ticks == w.ticks && Step(w, Sign(i, written)).starts == w.starts
  {}

  /** From the lock's taking to its signing, others between. */
  lemma EnterKeepsRecord(w: World, others: seq<Action>, i: nat, written: bool)
    requires Exclusive(w) && i < |w.attempts| && w.attempts[i].phase.Asked?
    requires w.attempts[i].req.name !in w.locks && Others(others, i)
    ensures SameRecord(w, Step(Run(Step(w, Lock(i)), others), Sign(i, written)), w.attempts[i].req.name)
  {
    LockNow(w, i, false);
    StepExcludes(w, Lock(i));
    StepMoves(w, Lock(i));
    OthersKeepOff(Step(w, Lock(i)), others, i);
    SignNow(Run(Step(w, Lock(i)), others), i, written);
  }

  function TickAction(i: nat, fails: bool): Action { if fails then Fail(i) else TickTurn(i) }

  /** With no limit the store is not asked. */
  function RateAction(req: Request, i: nat, wall: int, fails: bool): Action {
    if fails && req.rate.Some? then Fail(i) else RateTurn(i, wall)
  }

  /** The turn itself, from the world it is taken in. */
  lemma TickNow(w: World, i: nat, fails: bool)
    requires i < |w.attempts| && w.attempts[i].phase.Signed? && w.attempts[i].req.trigger.Scheduled?
    ensures Step(w, TickAction(i, fails)).attempts == w.attempts[i := w.attempts[i].(phase := TickEnds(w, w.attempts[i].req, fails))]
    ensures Step(w, TickAction(i, fails)).starts == w.starts
  {}

  lemma RateNow(w: World, i: nat, wall: int)
    requires i < |w.attempts|
    ensures RateStep(w, i, wall).attempts == w.attempts[i := w.attempts[i].(phase := RateEnds(w, w.attempts[i].req, wall, false))]
  {
    var req := w.attempts[i].req;
    if req.rate.Some? {
      CountExactly(StartsOf(w, req.name), wall - req.rate.value.per);
    }
  }

  lemma RateFailsNow(w: World, i: nat)
    requires i < |w.attempts| && w.attempts[i].phase.Ticked? && w.attempts[i].req.rate.Some?
    ensures Step(w, Fail(i)).attempts == w.attempts[i := w.attempts[i].(phase := Refused(RateFailed))]
  {}

  /** A turn after whatever the others did goes as it would have gone before. */
  lemma TickHalf(w: World, others: seq<Action>, i: nat, fails: bool)
    requires Exclusive(w) && i < |w.attempts| && Others(others, i)
    requires w.attempts[i].phase.Signed? && w.attempts[i].req.trigger.Scheduled?
    ensures
      var req, w' := w.attempts[i].req, Step(Run(w, others), TickAction(i, fails));
      && Exclusive(w') && i < |w'.attempts| && w'.attempts[i] == Attempt(req, TickEnds(w, req, fails))
      && StartsOf(w', req.name) == StartsOf(w, req.name)
  {
    OthersKeepOff(w, others, i);
    StepExcludes(Run(w, others), TickAction(i, fails));
    TickNow(Run(w, others), i, fails);
  }

  lemma RateHalf(w: World, others: seq<Action>, i: nat, wall: int, fails: bool)
    requires Exclusive(w) && i < |w.attempts| && Others(others, i) && w.attempts[i].phase.Ticked?
    ensures
      var req := w.attempts[i].req;
      var w' := Step(Run(w, others), RateAction(req, i, wall, fails));
      i < |w'.attempts| && w'.attempts[i] == Attempt(req, RateEnds(w, req, wall, fails))
  {
    OthersKeepOff(w, others, i);
    if fails && w.attempts[i].req.rate.Some? {
      RateFailsNow(Run(w, others), i);
    } else {
      RateNow(Run(w, others), i, wall);
    }
  }

  lemma RefusedStays(w: World, i: nat, a: Action)
    requires i < |w.attempts| && w.attempts[i].phase.Refused? && (a == Fail(i) || (a.RateTurn? && a.i == i))
    ensures Step(w, a) == w
  {}

  /** A run ending in a step, and one of two such runs. */
  lemma RunTurn(w: World, others: seq<Action>, a: Action)
    ensures Run(w, others + [a]) == Step(Run(w, others), a)
  {
    RunAppends(w, others, [a]);
    assert Run(Run(w, others), [a]) == Step(Run(w, others), a);
  }

  lemma RunTurns(w: World, before: seq<Action>, a: Action, between: seq<Action>, b: Action)
    ensures Run(w, before + [a] + between + [b]) == Step(Run(Step(Run(w, before), a), between), b)
  {
    RunTurn(w, before, a);
    RunAppends(w, before + [a], between);
    RunTurn(w, before + [a] + between, b);
  }

  /** The two turns of a scheduled attempt, others between; a refused one's second is no step. */
  lemma TurnsEnd(w: World, before: seq<Action>, between: seq<Action>, i: nat, wall: int, tickFails: bool, rateFails: bool)
    requires Exclusive(w) && i < |w.attempts| && Others(before, i) && Others(between, i)
    requires w.attempts[i].phase.Signed? && w.attempts[i].req.trigger.Scheduled?
    ensures
      var req := w.attempts[i].req;
      var w' := Run(w, before + [TickAction(i, tickFails)] + between + [RateAction(req, i, wall, rateFails)]);
      i < |w'.attempts| && w'.attempts[i] == Attempt(req, EndsAs(w, req, wall, tickFails, rateFails))
  {
    var a, b := TickAction(i, tickFails), RateAction(w.attempts[i].req, i, wall, rateFails);
    var w1 := Step(Run(w, before), a);
    RunTurns(w, before, a, between, b);
    TickHalf(w, before, i, tickFails);
    if w1.attempts[i].phase.Ticked? {
      RateHalf(w1, between, i, wall, rateFails);
    } else {
      OthersLeaveMe(w1, between, i);
      RefusedStays(Run(w1, between), i, b);
    }
  }

  /** The guard: an unspent occurrence goes past its tick to a limit that is full, or to a store that fails. */
  predicate SpendsUnrun(w: World, req: Request, wall: int, tickFails: bool, rateFails: bool)
    requires req.trigger.Scheduled?
  {
    !tickFails && !Spent(w, req.name, req.trigger.due) && req.rate.Some? && (rateFails || WindowFull(w, req, wall))
  }

  /**
   * From the moment a scheduled attempt holds the lock: it ends refused with its occurrence spent by
   * itself exactly if the occurrence was unspent, the store does not fail at the tick's turn, and the
   * request has a limit that is full or meets the store failing at the rate's turn.
   */
  lemma RefusedPastExactly(w: World, before: seq<Action>, between: seq<Action>, i: nat, wall: int, tickFails: bool, rateFails: bool)
    requires Reachable(w) && i < |w.attempts| && Others(before, i) && Others(between, i)
    requires w.attempts[i].phase.Signed? && w.attempts[i].req.trigger.Scheduled?
    ensures
      var req := w.attempts[i].req;
      var actions := before + [TickAction(i, tickFails)] + between + [RateAction(req, i, wall, rateFails)];
      var w' := Run(w, actions);
      && i < |w'.attempts|
      && (w'.attempts[i].phase.Refused? && Wrote(w, actions, i) <==> SpendsUnrun(w, req, wall, tickFails, rateFails))
  {
    var actions: seq<Action> :| w == Run(Idle(), actions);
    RunExcludes(Idle(), actions);
    TurnsEnd(w, before, between, i, wall, tickFails, rateFails);
    WrittenExactly(w, before + [TickAction(i, tickFails)] + between + [RateAction(w.attempts[i].req, i, wall, rateFails)], i);
  }

  /**
   * The refusing step itself writes nothing and gives the lock back. A refusal under the lock comes
   * after the tick's turn exactly if it is the limit's or the store's at the rate's turn.
   */
  lemma RefusalLeaves(w: World, a: Action)
    requires !a.Begin? && a.i < |w.attempts| && HasLock(w.attempts[a.i].phase)
    requires a.i < |Step(w, a).attempts| && Step(w, a).attempts[a.i].phase.Refused?
    ensures Step(w, a).ticks == w.ticks && Step(w, a).starts == w.starts
    ensures Step(w, a).locks == w.locks - {w.attempts[a.i].req.name}
    ensures var why := Step(w, a).attempts[a.i].phase.why;
            (why.Limited? || why.RateFailed? <==> w.attempts[a.i].phase.Ticked?) && (why.RateFailed? ==> w.attempts[a.i].req.rate.Some?)
  {}

  const HOLDER := Holder("host", "instance", "run")
  const LIMIT := Rate(1, SECOND)
  const DUE := Request("deploy", HOLDER, SECOND, Some(LIMIT), Scheduled(7))
  const BY_HAND := Request("deploy", HOLDER, SECOND, Some(LIMIT), Manual)

  /** One attempt is in the lock, over a record of starts. */
  function InLock(before: seq<Attempt>, req: Request, phase: Phase, ticks: map<Name, Tick>, starts: map<Name, seq<Start>>): World {
    World(map["deploy" := |before|], map["deploy" := HOLDER], ticks, starts, before + [Attempt(req, phase)])
  }

  function NoLock(attempts: seq<Attempt>, ticks: map<Name, Tick>, starts: map<Name, seq<Start>>): World {
    World(map[], map["deploy" := HOLDER], ticks, starts, attempts)
  }

  /** A run begun on a held-by-nobody lock gets as far as its tick, or past it. */
  lemma Signs(w: World, req: Request)
    requires w.locks == map[] && (w.files == map[] || w.files == map["deploy" := HOLDER]) && req in {DUE, BY_HAND}
    ensures Run(w, [Begin(req), Lock(|w.attempts|), Sign(|w.attempts|, true)]) ==
            InLock(w.attempts, req, if req == DUE then Signed else Ticked, w.ticks, w.starts)
  {
    var i := |w.attempts|;
    var w1 := w.(attempts := w.attempts + [Attempt(req, Asked)]);
    assert Step(w, Begin(req)) == w1;
    var w2 := w1.(locks := map["deploy" := i], attempts := w.attempts + [Attempt(req, Locked)]);
    assert Step(w1, Lock(i)) == LockStep(w1, i) == w2;
    var w3 := InLock(w.attempts, req, if req == DUE then Signed else Ticked, w.ticks, w.starts);
    assert Step(w2, Sign(i, true)) == SignStep(w2, i, true) == w3;
    RunThree(w, Begin(req), Lock(i), Sign(i, true));
  }

  lemma RunThree(w: World, a: Action, b: Action, c: Action)
    ensures Run(w, [a, b, c]) == Step(Step(Step(w, a), b), c)
  {
    assert [a, b, c][1..] == [b, c] && [b, c][1..] == [c];
    assert Run(Step(Step(w, a), b), [c]) == Step(Step(Step(w, a), b), c);
  }

  lemma RunTwo(w: World, a: Action, b: Action)
    ensures Run(w, [a, b]) == Step(Step(w, a), b)
  {
    assert [a, b][1..] == [b];
    assert Run(Step(w, a), [b]) == Step(Step(w, a), b);
  }

  /** A run that ends refused with its occurrence spent: the store fails at the rate's turn. */
  lemma FailedButSpent()
    ensures
      var actions := [Begin(DUE), Lock(0), Sign(0, true)] + [TickTurn(0), Fail(0)];
      && Run(Idle(), actions) == NoLock([Attempt(DUE, Refused(RateFailed))], map["deploy" := Tick(7, HOLDER)], map[])
      && Wrote(Idle(), actions, 0)
  {
    var ticks := map["deploy" := Tick(7, HOLDER)];
    Signs(Idle(), DUE);
    var w3 := InLock([], DUE, Signed, map[], map[]);
    assert Step(w3, TickTurn(0)) == TickStep(w3, 0) == InLock([], DUE, Ticked, ticks, map[]);
    var w4 := InLock([], DUE, Ticked, ticks, map[]);
    assert Step(w4, Fail(0)) == FailStep(w4, 0) == NoLock([Attempt(DUE, Refused(RateFailed))], ticks, map[]);
    RunTwo(w3, TickTurn(0), Fail(0));
    RunAppends(Idle(), [Begin(DUE), Lock(0), Sign(0, true)], [TickTurn(0), Fail(0)]);
    WrittenExactly(Idle(), [Begin(DUE), Lock(0), Sign(0, true)] + [TickTurn(0), Fail(0)], 0);
  }

  /** Another: a run by hand has filled the window. */
  lemma LimitedButSpent()
    ensures
      var byHand := [Begin(BY_HAND), Lock(0), Sign(0, true)] + [RateTurn(0, 5), Release(0)];
      var actions := byHand + ([Begin(DUE), Lock(1), Sign(1, true)] + [TickTurn(1), RateTurn(1, 6)]);
      && Run(Idle(), actions) ==
         NoLock([Attempt(BY_HAND, Released), Attempt(DUE, Refused(Limited(LIMIT)))], map["deploy" := Tick(7, HOLDER)],
                map["deploy" := [Start("run", LIMIT, 5)]])
      && Wrote(Idle(), actions, 1)
  {
    var ticks, starts := map["deploy" := Tick(7, HOLDER)], map["deploy" := [Start("run", LIMIT, 5)]];
    var byHand := [Begin(BY_HAND), Lock(0), Sign(0, true)] + [RateTurn(0, 5), Release(0)];
    ByHand();
    var before := [Attempt(BY_HAND, Released)];
    var h := NoLock(before, map[], starts);
    Signs(h, DUE);
    var s3, s4 := InLock(before, DUE, Signed, map[], starts), InLock(before, DUE, Ticked, ticks, starts);
    assert Step(s3, TickTurn(1)) == TickStep(s3, 1) == s4;
    assert CountSince([Start("run", LIMIT, 5)], 6 - SECOND) == 1;
    var end := NoLock(before + [Attempt(DUE, Refused(Limited(LIMIT)))], ticks, starts);
    assert Step(s4, RateTurn(1, 6)) == RateStep(s4, 1, 6) == end;
    RunTwo(s3, TickTurn(1), RateTurn(1, 6));
    RunAppends(h, [Begin(DUE), Lock(1), Sign(1, true)], [TickTurn(1), RateTurn(1, 6)]);
    RunAppends(Idle(), byHand, [Begin(DUE), Lock(1), Sign(1, true)] + [TickTurn(1), RateTurn(1, 6)]);
    WrittenExactly(Idle(), byHand + ([Begin(DUE), Lock(1), Sign(1, true)] + [TickTurn(1), RateTurn(1, 6)]), 1);
  }

  lemma ByHand()
    ensures Run(Idle(), [Begin(BY_HAND), Lock(0), Sign(0, true)] + [RateTurn(0, 5), Release(0)]) ==
            NoLock([Attempt(BY_HAND, Released)], map[], map["deploy" := [Start("run", LIMIT, 5)]])
  {
    var starts := map["deploy" := [Start("run", LIMIT, 5)]];
    Signs(Idle(), BY_HAND);
    var w3, w4 := InLock([], BY_HAND, Ticked, map[], map[]), InLock([], BY_HAND, Holding, map[], starts);
    assert StartsOf(w3, "deploy") + [Start("run", LIMIT, 5)] == [Start("run", LIMIT, 5)];
    assert Step(w3, RateTurn(0, 5)) == RateStep(w3, 0, 5) == w4;
    assert Step(w4, Release(0)) == NoLock([Attempt(BY_HAND, Released)], map[], starts);
    RunTwo(w3, RateTurn(0, 5), Release(0));
    RunAppends(Idle(), [Begin(BY_HAND), Lock(0), Sign(0, true)], [RateTurn(0, 5), Release(0)]);
  }

  // ---- The rate window ----

  /** Every start was recorded with fewer than its limit's starts in the window before it. */
  ghost predicate WindowOk(starts: seq<Start>) {
    forall k :: 0 <= k < |starts| ==> RoomFor(starts[..k], starts[k])
  }

  predicate RoomFor(starts: seq<Start>, start: Start) {
    CountSince(starts, start.at - start.limit.per) < start.limit.runs
  }

  lemma AppendKeepsWindow(starts: seq<Start>, start: Start)
    requires WindowOk(starts) && RoomFor(starts, start)
    ensures WindowOk(starts + [start])
  {
    var all := starts + [start];
    forall k | 0 <= k < |all| ensures RoomFor(all[..k], all[k]) {
      if k < |starts| { assert all[..k] == starts[..k]; } else { assert all[..k] == starts; }
    }
  }

  /** What a step does to a name's starts: at most one more, with room in its window. */
  lemma StepStarts(w: World, a: Action, n: Name)
    ensures
      var starts, starts' := StartsOf(w, n), StartsOf(Step(w, a), n);
      || starts' == starts
      || exists start :: starts' == starts + [start] && RoomFor(starts, start)
  {
    if a.RateTurn? && a.i < |w.attempts| && w.attempts[a.i].phase.Ticked? && w.attempts[a.i].req.rate.Some? {
      var req := w.attempts[a.i].req;
      var start := Start(req.holder.run, req.rate.value, a.wall);
      assert Step(w, a) == RateStep(w, a.i, a.wall);
      if RoomFor(StartsOf(w, req.name), start) && n == req.name {
        assert StartsOf(Step(w, a), n) == StartsOf(w, n) + [start];
      }
    } else {
      assert Step(w, a).starts == w.starts;
    }
  }

  lemma StepKeepsWindow(w: World, a: Action, n: Name)
    requires WindowOk(StartsOf(w, n))
    ensures WindowOk(StartsOf(Step(w, a), n)) && StartsOf(w, n) <= StartsOf(Step(w, a), n)
  {
    StepStarts(w, a, n);
    var starts, starts' := StartsOf(w, n), StartsOf(Step(w, a), n);
    if starts' != starts {
      var start :| starts' == starts + [start] && RoomFor(starts, start);
      AppendKeepsWindow(starts, start);
    }
  }

  lemma {:induction false} RunKeepsWindow(w: World, actions: seq<Action>, n: Name)
    requires WindowOk(StartsOf(w, n))
    ensures WindowOk(StartsOf(Run(w, actions), n)) && StartsOf(w, n) <= StartsOf(Run(w, actions), n)
    decreases |actions|
  {
    if actions != [] {
      StepKeepsWindow(w, actions[0], n);
      RunKeepsWindow(Step(w, actions[0]), actions[1..], n);
    }
  }

  lemma {:induction false} CountsAll(starts: seq<Start>, since: int, from: nat)
    requires from <= |starts| && forall x :: from <= x < |starts| ==> starts[x].at >= since
    ensures CountSince(starts, since) >= |starts| - from
  {
    if from < |starts| {
      CountsAll(starts[..|starts| - 1], since, from);
    }
  }

  /** Room in a window leaves one of as many starts as the limit allows outside it. */
  lemma RoomLeavesOne(starts: seq<Start>, k: nat)
    requires k < |starts| && RoomFor(starts[..k], starts[k]) && starts[k].limit.runs <= k
    ensures exists x :: k - starts[k].limit.runs <= x < k && starts[x].at < starts[k].at - starts[k].limit.per
  {
    var front, since, from := starts[..k], starts[k].at - starts[k].limit.per, k - starts[k].limit.runs;
    if forall x :: from <= x < k ==> front[x].at >= since {
      CountsAll(front, since, from);
    } else {
      var x :| from <= x < k && front[x].at < since;
      assert starts[x].at < since;
    }
  }

  /**
   * Of any `runs` starts recorded before one, in whatever order the walls read, one lies outside its
   * window; and a start recorded stays recorded, whatever is released.
   */
  lemma WindowHolds(w: World, n: Name, k: nat)
    requires Reachable(w) && k < |StartsOf(w, n)| && StartsOf(w, n)[k].limit.runs <= k
    ensures
      var starts := StartsOf(w, n);
      var limit := starts[k].limit;
      exists x :: k - limit.runs <= x < k && starts[x].at < starts[k].at - limit.per
  {
    ReachableWindow(w, n);
    assert RoomFor(StartsOf(w, n)[..k], StartsOf(w, n)[k]);
    RoomLeavesOne(StartsOf(w, n), k);
  }

  lemma ReachableWindow(w: World, n: Name)
    requires Reachable(w)
    ensures WindowOk(StartsOf(w, n))
  {
    var actions: seq<Action> :| w == Run(Idle(), actions);
    RunKeepsWindow(Idle(), actions, n);
  }

  // ---- The coordinator itself ----

  predicate Others(actions: seq<Action>, me: nat) {
    forall k :: 0 <= k < |actions| ==> actions[k].Begin? || actions[k].i != me
  }

  lemma {:induction false} OthersLeaveMe(w: World, actions: seq<Action>, me: nat)
    requires me < |w.attempts| && Others(actions, me)
    ensures me < |Run(w, actions).attempts| && Run(w, actions).attempts[me] == w.attempts[me]
    decreases |actions|
  {
    if actions != [] {
      assert Others(actions[1..], me);
      if !actions[0].Begin? && actions[0].i < |w.attempts| {
        StepMoves(w, actions[0]);
      }
      OthersLeaveMe(Step(w, actions[0]), actions[1..], me);
    }
  }

  /** What each of an attempt's own steps can leave it as. */
  predicate Turned(a: Action, req: Request, was: Phase, now: Phase) {
    match a
    case Lock(_) => was.Asked? ==> now.Locked? || (now.Refused? && !Past(now))
    case Sign(_, _) => was.Locked? ==> now == if req.trigger.Scheduled? then Signed else Ticked
    case TickTurn(_) => was.Signed? && req.trigger.Scheduled? ==> now.Ticked? || (now.Refused? && !Past(now))
    case RateTurn(_, _) => was.Ticked? ==> now.Holding? || (now.Refused? && now.why.Limited?)
    case Fail(_) =>
      && (was.Asked? || was.Signed? ==> now.Refused? && !Past(now))
      && (was.Ticked? && req.rate.Some? ==> now == Refused(RateFailed))
    case _ => true
  }

  lemma OwnSteps(w: World, a: Action)
    requires !a.Begin? && a.i < |w.attempts|
    ensures a.i < |Step(w, a).attempts| && Step(w, a).attempts[a.i].req == w.attempts[a.i].req
    ensures Turned(a, w.attempts[a.i].req, w.attempts[a.i].phase, Step(w, a).attempts[a.i].phase)
  {
    var me := w.attempts[a.i];
    StepMoves(w, a);
    if a.TickTurn? && me.phase.Signed? && me.req.trigger.Scheduled? {
      assert Step(w, a) == TickStep(w, a.i);
    } else if a.RateTurn? && me.phase.Ticked? {
      assert Step(w, a) == RateStep(w, a.i, a.wall);
    } else if a.Lock? && me.phase.Asked? {
      assert Step(w, a) == LockStep(w, a.i);
    } else if a.Sign? && me.phase.Locked? {
      assert Step(w, a) == SignStep(w, a.i, a.written);
    }
  }

  /** What an attempt of this run alone came to, against what it wrote. */
  lemma Settles(from: World, trace: seq<Action>, me: nat)
    requires |from.attempts| <= me < |Run(from, trace).attempts|
    ensures Run(from, trace).attempts[me].req.trigger.Scheduled? ==>
              (Wrote(from, trace, me) <==> Past(Run(from, trace).attempts[me].phase))
  {
    if Run(from, trace).attempts[me].req.trigger.Scheduled? {
      WrittenExactly(from, trace, me);
    }
  }

  lemma RunExcludesIf(w: World, actions: seq<Action>)
    ensures Exclusive(w) ==> Exclusive(Run(w, actions))
  {
    if Exclusive(w) {
      RunExcludes(w, actions);
    }
  }

  class Coordinator {
    var locks: map<Name, nat>
    var files: map<Name, Holder>
    var ticks: map<Name, Tick>
    var starts: map<Name, seq<Start>>
    var attempts: seq<Attempt>

    ghost function Value(): World
      reads this
    {
      World(locks, files, ticks, starts, attempts)
    }

    constructor ()
      ensures Value() == Idle()
    {
      locks, files, ticks, starts, attempts := map[], map[], map[], map[], [];
    }

    /** A non-blocking exclusive lock; refused, the file says who has it, when it says anything. */
    method Claim(me: nat) returns (taken: bool)
      requires me < |attempts| && attempts[me].phase.Asked?
      modifies this
      ensures Value() == LockStep(old(Value()), me)
      ensures taken <==> attempts[me].phase.Locked?
    {
      var name := attempts[me].req.name;
      taken := name !in locks;
      if taken {
        locks := locks[name := me];
        attempts := attempts[me := attempts[me].(phase := Locked)];
      } else {
        var named := if name in files then Some(files[name]) else None;
        attempts := attempts[me := attempts[me].(phase := Refused(Busy(named)))];
      }
    }

    method Record(me: nat, written: bool)
      requires me < |attempts|
      modifies this
      ensures Value() == SignStep(old(Value()), me, written)
    {
      var req := attempts[me].req;
      if written {
        files := files[req.name := req.holder];
      }
      attempts := attempts[me := attempts[me].(phase := if req.trigger.Scheduled? then Signed else Ticked)];
    }

    method Unclaim(me: nat, phase: Phase)
      requires me < |attempts|
      modifies this
      ensures Value() == Leave(old(Value()), me, phase)
    {
      locks := locks - {attempts[me].req.name};
      attempts := attempts[me := attempts[me].(phase := phase)];
    }

    /** Compares the recorded tick with the one asked for, and moves it. */
    method TickOf(me: nat) returns (passed: bool)
      requires me < |attempts| && attempts[me].req.trigger.Scheduled?
      modifies this
      ensures Value() == TickStep(old(Value()), me)
      ensures passed <==> attempts[me].phase.Ticked?
    {
      var req := attempts[me].req;
      if req.name in ticks && req.trigger.due <= ticks[req.name].due {
        Unclaim(me, Refused(Ran(ticks[req.name])));
        return false;
      }
      ticks := ticks[req.name := Tick(req.trigger.due, req.holder)];
      attempts := attempts[me := attempts[me].(phase := Ticked)];
      return true;
    }

    method CountStarts(name: Name, since: int) returns (count: nat)
      ensures count == CountSince(StartsOf(Value(), name), since)
      ensures count == |InWindow(StartsOf(Value(), name), since)|
    {
      var all := if name in starts then starts[name] else [];
      assert all == StartsOf(Value(), name);
      count := 0;
      for k := 0 to |all|
        invariant count == CountSince(all[..k], since)
      {
        assert all[..k + 1][..k] == all[..k];
        if all[k].at >= since { count := count + 1; }
      }
      assert all[..|all|] == all;
      CountExactly(all, since);
    }

    /** The window, counted and taken while the lock is held. */
    method RateOf(me: nat, wall: int) returns (passed: bool)
      requires me < |attempts|
      modifies this
      ensures Value() == RateStep(old(Value()), me, wall)
      ensures passed <==> attempts[me].phase.Holding?
      ensures passed <==> attempts[me].req.rate.None? || !WindowFull(old(Value()), attempts[me].req, wall)
    {
      var req := attempts[me].req;
      if req.rate.Some? {
        var count := CountStarts(req.name, wall - req.rate.value.per);
        if count >= req.rate.value.runs {
          Unclaim(me, Refused(Limited(req.rate.value)));
          return false;
        }
        var all := if req.name in starts then starts[req.name] else [];
        starts := starts[req.name := all + [Start(req.holder.run, req.rate.value, wall)]];
      }
      attempts := attempts[me := attempts[me].(phase := Holding)];
      return true;
    }

    method Do(a: Action)
      modifies this
      ensures Value() == Step(old(Value()), a)
    {
      if a.Begin? {
        attempts := attempts + [Attempt(a.req, if Checks(a.req) then Asked else Refused(Invalid))];
        return;
      }
      if a.i >= |attempts| { return; }
      var me := attempts[a.i];
      match a
      case Lock(i) => if me.phase.Asked? { var _ := Claim(i); }
      case Sign(i, written) => if me.phase.Locked? { Record(i, written); }
      case TickTurn(i) => if me.phase.Signed? && me.req.trigger.Scheduled? { var _ := TickOf(i); }
      case RateTurn(i, wall) => if me.phase.Ticked? { var _ := RateOf(i, wall); }
      case Fail(i) =>
        if me.phase.Asked? {
          attempts := attempts[i := me.(phase := Refused(LockFailed))];
        } else if me.phase.Signed? {
          Unclaim(i, Refused(TickFailed));
        } else if me.phase.Ticked? && me.req.rate.Some? {
          Unclaim(i, Refused(RateFailed));
        }
      case Release(i) => if me.phase.Holding? { Unclaim(i, Released); }
      case Die(i) =>
        if HasLock(me.phase) {
          Unclaim(i, Dead(Past(me.phase)));
        } else {
          attempts := attempts[i := me.(phase := Dead(Past(me.phase)))];
        }
    }

    method Meanwhile(ghost from: World, ghost trace: seq<Action>, me: nat, others: seq<Action>)
      requires Value() == Run(from, trace)
      requires me < |attempts| && Others(others, me)
      modifies this
      ensures Value() == Run(from, trace + others) && Value() == Run(old(Value()), others)
      ensures me < |attempts| && attempts[me] == old(attempts[me])
    {
      ghost var entry := Value();
      for k := 0 to |others|
        invariant Value() == Run(entry, others[..k])
      {
        Do(others[k]);
        RunAppends(entry, others[..k], [others[k]]);
        assert others[..k] + [others[k]] == others[..k + 1];
        assert Run(Run(entry, others[..k]), [others[k]]) == Step(Run(entry, others[..k]), others[k]);
      }
      assert others[..|others|] == others;
      OthersLeaveMe(entry, others, me);
      RunAppends(from, trace, others);
    }

    method Act(ghost from: World, ghost trace: seq<Action>, a: Action)
      requires Value() == Run(from, trace)
      modifies this
      ensures Value() == Run(from, trace + [a]) && Value() == Step(old(Value()), a)
    {
      Do(a);
      RunAppends(from, trace, [a]);
      assert Run(Run(from, trace), [a]) == Step(Run(from, trace), a);
    }

    /** One of the attempt's own steps, after whatever everyone else does first. */
    method Turn(ghost from: World, ghost trace: seq<Action>, others: seq<Action>, a: Action)
      requires Value() == Run(from, trace)
      requires !a.Begin? && a.i < |attempts| && Others(others, a.i)
      modifies this
      ensures Value() == Run(from, trace + others + [a]) && Value() == Step(Run(old(Value()), others), a)
      ensures a.i < |attempts| && attempts[a.i].req == old(attempts[a.i].req)
      ensures Turned(a, attempts[a.i].req, old(attempts[a.i].phase), attempts[a.i].phase)
    {
      Meanwhile(from, trace, a.i, others);
      OwnSteps(Value(), a);
      Act(from, trace + others, a);
    }

    /** The tick's turn, the store failing at it or not. */
    method TickPart(ghost from: World, ghost trace: seq<Action>, others: seq<Action>, me: nat, fails: bool)
      requires Value() == Run(from, trace) && me < |attempts| && Others(others, me)
      requires attempts[me].phase.Signed? && attempts[me].req.trigger.Scheduled?
      modifies this
      ensures Value() == Run(from, trace + others + [TickAction(me, fails)])
      ensures me < |attempts| && attempts[me].req == old(attempts[me].req)
      ensures attempts[me].phase.Ticked? || (attempts[me].phase.Refused? && !Past(attempts[me].phase))
      ensures Exclusive(old(Value())) ==>
                && Exclusive(Value()) && attempts[me].phase == TickEnds(old(Value()), attempts[me].req, fails)
                && StartsOf(Value(), attempts[me].req.name) == StartsOf(old(Value()), attempts[me].req.name)
    {
      ghost var w := Value();
      Turn(from, trace, others, TickAction(me, fails));
      if Exclusive(w) {
        TickHalf(w, others, me, fails);
      }
    }

    /** The rate's turn: with no limit the store is not asked. */
    method RatePart(ghost from: World, ghost trace: seq<Action>, others: seq<Action>, me: nat, wall: int, fails: bool)
      requires Value() == Run(from, trace) && me < |attempts| && Others(others, me) && attempts[me].phase.Ticked?
      modifies this
      ensures Value() == Run(from, trace + others + [RateAction(old(attempts[me].req), me, wall, fails)])
      ensures me < |attempts| && attempts[me].req == old(attempts[me].req)
      ensures
        var failed := fails && attempts[me].req.rate.Some?;
        if failed then attempts[me].phase == Refused(RateFailed)
        else attempts[me].phase.Holding? || (attempts[me].phase.Refused? && attempts[me].phase.why.Limited?)
      ensures Exclusive(old(Value())) ==> attempts[me].phase == RateEnds(old(Value()), attempts[me].req, wall, fails)
    {
      ghost var w := Value();
      Turn(from, trace, others, RateAction(attempts[me].req, me, wall, fails));
      if Exclusive(w) {
        RateHalf(w, others, me, wall, fails);
      }
    }

    /** Into the lock, or refused on the way. */
    method Enter(req: Request, written: bool, beforeLock: seq<Action>, beforeSign: seq<Action>, fails: bool)
      returns (entered: bool, me: nat, ghost trace: seq<Action>)
      requires Others(beforeLock, |attempts|) && Others(beforeSign, |attempts|)
      modifies this
      ensures me == |old(attempts)| < |attempts| && attempts[me].req == req
      ensures Value() == Run(old(Value()), trace)
      ensures entered ==> attempts[me].phase == if req.trigger.Scheduled? then Signed else Ticked
      ensures !entered ==> attempts[me].phase.Refused? && !Past(attempts[me].phase)
      ensures
        var w := Run(old(Value()), [Begin(req)] + beforeLock);
        && (entered <==> Checks(req) && !fails && req.name !in w.locks)
        && (!entered ==> attempts[me].phase == Answered(w, req, 0, if fails then {0} else {}))
        && (entered && Exclusive(old(Value())) ==> SameRecord(w, Value(), req.name))
    {
      ghost var from := Value();
      me, trace := |attempts|, [];
      Act(from, trace, Begin(req));
      trace := [Begin(req)];
      if !Checks(req) {
        return false, me, trace;
      }
      RunAppends(from, trace, beforeLock);
      ghost var asked := Run(from, trace + beforeLock);
      OthersLeaveMe(Value(), beforeLock, me);
      RunExcludesIf(from, trace + beforeLock);
      LockNow(asked, me, fails);
      var a := if fails then Fail(me) else Lock(me);
      Turn(from, trace, beforeLock, a);
      trace := trace + beforeLock + [a];
      if attempts[me].phase.Refused? {
        return false, me, trace;
      }
      Turn(from, trace, beforeSign, Sign(me, written));
      if Exclusive(asked) {
        EnterKeepsRecord(asked, beforeSign, me, written);
      }
      return true, me, trace + beforeSign + [Sign(me, written)];
    }

    /** The two turns in the lock. Every way out gives the lock back, but the last. */
    method TakeTurns(ghost from: World, ghost trace: seq<Action>, me: nat, wall: int, gaps: seq<seq<Action>>, tickFails: bool, rateFails: bool)
      returns (ghost rest: seq<Action>)
      requires Value() == Run(from, trace) && me < |attempts| && |gaps| == 2 && Others(gaps[0], me) && Others(gaps[1], me)
      requires attempts[me].phase == if attempts[me].req.trigger.Scheduled? then Signed else Ticked
      modifies this
      ensures Value() == Run(from, trace + rest)
      ensures me < |attempts| && attempts[me].req == old(attempts[me].req)
      ensures attempts[me].phase.Holding? || attempts[me].phase.Refused?
      ensures Past(attempts[me].phase) && rateFails && attempts[me].req.rate.Some? ==> attempts[me].phase == Refused(RateFailed)
      ensures attempts[me].phase == Refused(RateFailed) ==> rateFails && attempts[me].req.rate.Some?
      ensures Exclusive(old(Value())) ==>
                attempts[me].phase == if attempts[me].req.trigger.Scheduled? then EndsAs(old(Value()), attempts[me].req, wall, tickFails, rateFails)
                                      else RateEnds(old(Value()), attempts[me].req, wall, rateFails)
    {
      rest := [];
      assert trace + rest == trace;
      if attempts[me].req.trigger.Scheduled? {
        TickPart(from, trace, gaps[0], me, tickFails);
        rest := gaps[0] + [TickAction(me, tickFails)];
        assert trace + rest == trace + gaps[0] + [TickAction(me, tickFails)];
        if attempts[me].phase.Refused? {
          return;
        }
      }
      ghost var b := RateAction(attempts[me].req, me, wall, rateFails);
      RatePart(from, trace + rest, gaps[1], me, wall, rateFails);
      assert trace + rest + gaps[1] + [b] == trace + (rest + gaps[1] + [b]);
      rest := rest + gaps[1] + [b];
    }

    /**
     * Lock, then tick, then rate. `gaps` is what every other process does before each of these
     * steps, and `fails` the steps at which the record store fails. `held` is how many steps of the
     * trace it took to hold the lock, all of them if it was refused before.
     */
    method Acquire(req: Request, wall: int, written: bool, gaps: seq<seq<Action>>, fails: set<nat>)
      returns (taken: bool, me: nat, ghost trace: seq<Action>, ghost held: nat)
      requires |gaps| == 4 && forall k :: 0 <= k < |gaps| ==> Others(gaps[k], |attempts|)
      modifies this
      ensures me == |old(attempts)| < |attempts| && attempts[me].req == req
      ensures Value() == Run(old(Value()), trace)
      ensures taken <==> attempts[me].phase.Holding?
      ensures !taken ==> attempts[me].phase.Refused?
      ensures !taken && req.trigger.Scheduled? ==>
                (Wrote(old(Value()), trace, me) <==> attempts[me].phase.why.Limited? || attempts[me].phase.why.RateFailed?)
      ensures req.trigger.Scheduled? && Wrote(old(Value()), trace, me) && 3 in fails && req.rate.Some? ==>
                !taken && attempts[me].phase.why.RateFailed?
      ensures !taken && attempts[me].phase.why.RateFailed? ==> 3 in fails && req.rate.Some?
      ensures held <= |trace| && me < |Run(old(Value()), trace[..held]).attempts|
      ensures req.trigger.Scheduled? && Exclusive(old(Value())) ==>
                var w := Run(old(Value()), trace[..held]);
                (!taken && Wrote(old(Value()), trace, me) <==>
                   w.attempts[me].phase.Signed? && SpendsUnrun(w, req, wall, 2 in fails, 3 in fails))
      ensures Exclusive(old(Value())) ==>
                var w := Run(old(Value()), [Begin(req)] + gaps[0]);
                (taken <==> MustTake(w, req, wall, fails)) && attempts[me].phase == Answered(w, req, wall, fails)
    {
      ghost var from := Value();
      taken, me, trace := Enter(req, written, gaps[0], gaps[1], 0 in fails);
      held := |trace|;
      ghost var entry := trace;
      if taken {
        RunExcludesIf(from, trace);
        if Exclusive(from) {
          SameEnds(Run(from, [Begin(req)] + gaps[0]), Value(), req, wall, 2 in fails, 3 in fails);
        }
        ghost var rest := TakeTurns(from, trace, me, wall, gaps[2..], 2 in fails, 3 in fails);
        trace := trace + rest;
        taken := attempts[me].phase.Holding?;
      }
      assert trace[..held] == entry;
      Settles(from, trace, me);
    }
  }
}
