/**
 * The loops of a process over the shared store: handing a delivery to its playbooks, and marking
 * dropped the waits whose process is gone. Between any two of their transactions everyone else
 * may do anything, and the process itself may die.
 */
module LedgerProcesses {
  import opened Ledger
  import opened LedgerWorld
  import opened LedgerWaits
  import opened LedgerChains
  import LedgerCrashes

  /** What comes of one playbook: a value refused, or what its dispatch does. */
  datatype Decision = BadValue | Starts | Refuses(written: Written, mechanism: Mechanism) | Queues(naming: bool)

  /** The call to the store that fails: a refused value's record, or the column. The dispatcher answers for its own. */
  datatype Fault = NoFault | AtRecord | AtColumn

  /** One playbook's turn: its decision, and what everyone else does before its record and before its column. */
  datatype Play = Play(decision: Decision, before: seq<Action>, after: seq<Action>, fault: Fault)

  /** No call of the loop's own fails in the turn of a playbook still pending. */
  predicate FaultFree(play: Play) {
    !play.fault.AtColumn? && !(play.fault.AtRecord? && play.decision.BadValue?)
  }

  /** How a hand-off's loop is left, or that it is not: its process died, or it returned a store's error. */
  datatype Way = Going | Died | Broke

  predicate PlayOk(play: Play, d: nat) {
    && Others(play.before, d) && Others(play.after, d)
    && (play.decision.Refuses? ==> !play.decision.mechanism.ProcessGone?)
  }

  function ActionOf(d: nat, decision: Decision): Action {
    match decision
    case BadValue => RefuseValue(d)
    case Starts => StartRun(d)
    case Refuses(written, mechanism) => GuardRefuses(d, written, mechanism)
    case Queues(naming) => GuardWaits(d, naming)
  }

  function GapAt(gaps: seq<seq<Action>>, k: nat): seq<Action> {
    if k < |gaps| then gaps[k] else []
  }

  lemma OtherLeavesWorker(w: World, a: Action, d: nat)
    requires Sound(w) && d < |w.workers| && !(OfDelivery(a) && a.d == d)
    ensures d < |Step(w, a).workers| && Step(w, a).workers[d] == w.workers[d]
  {
    if a.Offer? && OfferOk(w, a) {
      assert Step(w, a) == Offered(w, a);
    } else if OfDelivery(a) {
      if Lives(w, a.d) { assert Step(w, a) == HandOffStep(w, a); }
    }
  }

  lemma {:induction false} OthersLeaveWorker(w: World, actions: seq<Action>, d: nat)
    requires Sound(w) && d < |w.workers| && Others(actions, d)
    ensures d < |Run(w, actions).workers| && Run(w, actions).workers[d] == w.workers[d]
    decreases |actions|
  {
    if actions != [] {
      StepSound(w, actions[0]);
      OtherLeavesWorker(w, actions[0], d);
      OthersLeaveWorker(Step(w, actions[0]), actions[1..], d);
    }
  }

  /** What the hand-off's own step leaves its loop at. */
  lemma DispatchStage(w: World, d: nat, decision: Decision)
    requires Sound(w) && Lives(w, d) && AtBook(w, d)
    requires decision.Refuses? ==> !decision.mechanism.ProcessGone?
    ensures
      var w' := Step(w, ActionOf(d, decision));
      && Lives(w', d) && w'.workers[d] == w.workers[d].(stage := w'.workers[d].stage)
      && w'.workers[d].stage.Wrote? && w'.workers[d].stage.next == w.workers[d].stage.next
      && w'.workers[d].stage.state == match decision
         case BadValue => Refused
         case Refuses(_, _) => Refused
         case Starts => HandedOff
         case Queues(_) => if Occupant(w.t.waits, BookOf(w, d)).Some? then Refused else Waits
  {}

  lemma ReadStage(w: World, d: nat)
    requires Sound(w) && Lives(w, d) && w.workers[d].stage.Unread?
    ensures
      var w', handoffs := Step(w, Read(d)), w.t.deliveries[d].handoffs;
      Lives(w', d) && w'.workers[d] == w.workers[d].(pending := PendingIn(handoffs), states := handoffs, stage := At(0))
  {}

  lemma SkipStage(w: World, d: nat)
    requires Sound(w) && Lives(w, d) && w.workers[d].stage.At? && w.workers[d].stage.next < |w.workers[d].loaded| && !AtBook(w, d)
    ensures
      var w' := Step(w, Skip(d));
      Lives(w', d) && w'.workers[d] == w.workers[d].(stage := At(w.workers[d].stage.next + 1))
  {}

  lemma WriteStage(w: World, d: nat)
    requires Sound(w) && Lives(w, d) && w.workers[d].stage.Wrote? && w.workers[d].stage.next < |w.workers[d].loaded|
    ensures
      var w', worker := Step(w, Write(d)), w.workers[d];
      && Lives(w', d)
      && w'.workers[d] == worker.(states := worker.states[worker.loaded[worker.stage.next] := worker.stage.state],
                                  stage := At(worker.stage.next + 1))
  {}

  lemma FinishStage(w: World, d: nat)
    requires Sound(w) && Lives(w, d) && w.workers[d].stage.At? && w.workers[d].stage.next >= |w.workers[d].loaded|
    ensures
      var t := Step(w, Finish(d)).t;
      && d < |t.deliveries| && t.deliveries[d].handoffs == w.t.deliveries[d].handoffs
      && t.deliveries[d].state == SummaryOf(w.workers[d].states)
  {}

  /** Of the playbooks gone through, and of those never pending, none is pending. */
  ghost predicate Settles(loaded: seq<Playbook>, pending: set<Playbook>, states: map<Playbook, HandOffState>, next: nat) {
    forall k :: 0 <= k < |loaded| && loaded[k] in states && (k < next || loaded[k] !in pending) ==> !states[loaded[k]].Pending?
  }

  lemma SettlesOne(loaded: seq<Playbook>, pending: set<Playbook>, states: map<Playbook, HandOffState>, next: nat, state: HandOffState)
    requires Settles(loaded, pending, states, next) && next < |loaded| && !state.Pending?
    ensures Settles(loaded, pending, states[loaded[next] := state], next + 1)
  {}

  lemma SettlesSkip(loaded: seq<Playbook>, pending: set<Playbook>, states: map<Playbook, HandOffState>, next: nat)
    requires Settles(loaded, pending, states, next) && next < |loaded| && loaded[next] !in pending
    ensures Settles(loaded, pending, states, next + 1)
  {}

  /** The waits of the first `k` rows read whose process was gone have ended. */
  ghost predicate Reaped(from: World, w: World, seenAlive: set<Instance>, k: nat) {
    forall j :: 0 <= j < k && j < |from.t.waits| && j < |w.t.waits| && from.t.waits[j].instance in from.dead - seenAlive ==>
                  !w.t.waits[j].outcome.Waiting?
  }

  /** The waits this call itself ended, among the first `k` rows read. */
  ghost predicate EndedHere(from: World, w: World, mine: set<nat>, k: nat) {
    forall j :: j in mine ==>
      j < k && j < |from.t.waits| && j < |w.t.waits| && from.t.waits[j].outcome.Waiting? && w.t.waits[j].outcome == Ended(ProcessGone)
  }

  /** What was so of ended waits stays so. */
  lemma EndedStay(from: World, w: World, w': World, seenAlive: set<Instance>, mine: set<nat>, k: nat)
    requires LedgerWaits.Onward(w.t, w'.t) && |from.t.waits| <= |w.t.waits|
    requires Reaped(from, w, seenAlive, k) && EndedHere(from, w, mine, k)
    ensures Reaped(from, w', seenAlive, k) && EndedHere(from, w', mine, k)
  {}

  /** One row's turn: reaped if its process is gone and it still waits, and by this call exactly then. */
  lemma ReapOne(from: World, w: World, seenAlive: set<Instance>, mine: set<nat>, k: nat)
    requires Sound(w) && k < |from.t.waits| <= |w.t.waits| && from.dead <= w.dead
    requires forall j :: 0 <= j < |from.t.waits| ==> w.t.waits[j].instance == from.t.waits[j].instance
    requires LedgerWaits.Onward(from.t, w.t) && LedgerWaits.Onward(w.t, Step(w, Reap(k)).t)
    requires Reaped(from, w, seenAlive, k) && EndedHere(from, w, mine, k)
    ensures
      var due := from.t.waits[k].outcome.Waiting? && from.t.waits[k].instance !in seenAlive && from.t.waits[k].instance in w.dead;
      var w' := if due then Step(w, Reap(k)) else w;
      var mine' := if due && w.t.waits[k].outcome.Waiting? then mine + {k} else mine;
      Reaped(from, w', seenAlive, k + 1) && EndedHere(from, w', mine', k + 1)
  {}

  /** Where a run has got to, and where it gets to from there. */
  lemma Later(from: World, trace: seq<Action>, more: seq<Action>)
    requires Reachable(from) && Sound(from)
    ensures
      var w, w' := Run(from, trace), Run(from, trace + more);
      && LedgerWaits.Onward(w.t, w'.t) && w.dead <= w'.dead
      && forall j :: 0 <= j < |w.t.waits| ==> w'.t.waits[j].instance == w.t.waits[j].instance
  {
    ReachableWaits(from);
    RunMoves(from, trace);
    RunMoves(Run(from, trace), more);
    RunBuries(Run(from, trace), more);
    RunAppends(from, trace, more);
  }

  lemma LaterFromStart(from: World, trace: seq<Action>)
    requires Reachable(from) && Sound(from)
    ensures
      var w := Run(from, trace);
      && LedgerWaits.Onward(from.t, w.t) && from.dead <= w.dead
      && forall j :: 0 <= j < |from.t.waits| ==> w.t.waits[j].instance == from.t.waits[j].instance
  {
    Later(from, [], trace);
    assert [] + trace == trace;
  }

  lemma ReapLater(from: World, trace: seq<Action>, k: nat)
    requires Reachable(from) && Sound(from)
    ensures LedgerWaits.Onward(Run(from, trace).t, Step(Run(from, trace), Reap(k)).t)
  {
    Later(from, trace, [Reap(k)]);
    RunAppends(from, trace, [Reap(k)]);
    assert Run(Run(from, trace), [Reap(k)]) == Step(Run(from, trace), Reap(k));
  }

  lemma TrueStates(from: World, trace: seq<Action>, d: nat)
    requires Reachable(from) && Sound(from) && Lives(Run(from, trace), d)
    ensures !Run(from, trace).workers[d].stage.Unread? ==>
              Run(from, trace).workers[d].states == Run(from, trace).t.deliveries[d].handoffs
  {
    ReachableInv(from);
    RunKeeps(from, trace);
    assert WorkerOk(Run(from, trace), d);
  }

  /** A living hand-off that has not finished has its delivery open. */
  lemma StillOpen(from: World, trace: seq<Action>, d: nat)
    requires Reachable(from) && Sound(from)
    ensures
      var w := Run(from, trace);
      Lives(w, d) && !w.workers[d].stage.Finished? ==> w.t.deliveries[d].state.DAccepted?
  {
    var actions: seq<Action> :| from == Run(Start(), actions);
    RunAppends(Start(), actions, trace);
    LedgerCrashes.RunFresh(Start(), actions + trace, d, "");
  }

  /** The dead stay dead, and a wait stays its process's. */
  lemma StepBuries(w: World, a: Action)
    requires Sound(w)
    ensures w.dead <= Step(w, a).dead
    ensures |w.t.waits| <= |Step(w, a).t.waits|
    ensures forall k :: 0 <= k < |w.t.waits| ==> Step(w, a).t.waits[k].instance == w.t.waits[k].instance
  {
    if a.Offer? && OfferOk(w, a) {
      var judged := Judged(w.t, a.params, a.alive, a.rows);
      AcceptCases(w.t, a.params, a.alive, a.rows);
      if judged != w.t {
        var id := w.t.identities[a.params.key].id;
        RowsBury(w.t, id, UndecidedRows(w.t.deliveries[id].handoffs, a.rows));
      }
    }
  }

  lemma {:induction false} RowsBury(t: Tables, d: nat, rows: seq<Playbook>)
    requires d < |t.deliveries|
    ensures |ReconcileRows(t, d, rows).waits| == |t.waits|
    ensures forall k :: 0 <= k < |t.waits| ==> ReconcileRows(t, d, rows).waits[k].instance == t.waits[k].instance
  {
    if rows != [] {
      RowsBury(t, d, rows[..|rows| - 1]);
    }
  }

  lemma {:induction false} RunBuries(w: World, actions: seq<Action>)
    requires Sound(w)
    ensures w.dead <= Run(w, actions).dead
    ensures |w.t.waits| <= |Run(w, actions).t.waits|
    ensures forall k :: 0 <= k < |w.t.waits| ==> Run(w, actions).t.waits[k].instance == w.t.waits[k].instance
    decreases |actions|
  {
    if actions != [] {
      StepSound(w, actions[0]);
      StepBuries(w, actions[0]);
      RunBuries(Step(w, actions[0]), actions[1..]);
    }
  }

  predicate SomeFaulty(script: seq<Play>) {
    exists k :: 0 <= k < |script| && !FaultFree(script[k])
  }

  /** Of the playbooks gone through, the turn of none still pending had a call fail. */
  predicate NoneFaulty(loaded: seq<Playbook>, pending: set<Playbook>, script: seq<Play>, next: nat)
    requires next <= |script| == |loaded|
  {
    forall k :: 0 <= k < next && loaded[k] in pending ==> FaultFree(script[k])
  }

  lemma OneMoreSound(loaded: seq<Playbook>, pending: set<Playbook>, script: seq<Play>, next: nat)
    requires next < |script| == |loaded| && NoneFaulty(loaded, pending, script, next)
    ensures (loaded[next] in pending ==> FaultFree(script[next])) ==> NoneFaulty(loaded, pending, script, next + 1)
  {}

  /** How a way out shows: a loop that broke off is left where it was, in a process that lives. */
  predicate Shows(w: World, d: nat, way: Way)
    requires Sound(w)
  {
    match way
    case Going => Lives(w, d)
    case Died => !Lives(w, d)
    case Broke => Lives(w, d) && !w.workers[d].stage.Finished?
  }

  class Process {
    var world: World

    constructor (w: World)
      ensures world == w
    {
      world := w;
    }

    method Do(ghost from: World, ghost trace: seq<Action>, a: Action)
      requires Sound(from) && world == Run(from, trace)
      modifies this
      ensures world == Step(old(world), a) && world == Run(from, trace + [a])
    {
      RunAppends(from, trace, [a]);
      assert Run(world, [a]) == Step(world, a);
      world := Step(world, a);
    }

    method Meanwhile(ghost from: World, ghost trace: seq<Action>, d: nat, others: seq<Action>)
      requires Sound(from) && world == Run(from, trace)
      requires d < |world.workers| && Others(others, d)
      modifies this
      ensures world == Run(old(world), others) && world == Run(from, trace + others)
      ensures d < |world.workers| && world.workers[d] == old(world.workers[d])
    {
      RunAppends(from, trace, others);
      OthersLeaveWorker(world, others, d);
      world := Run(world, others);
    }

    /** One playbook: its decision's record, then the column. */
    method OneBook(ghost from: World, ghost trace: seq<Action>, d: nat, play: Play)
      returns (way: Way, state: HandOffState, ghost longer: seq<Action>)
      requires Sound(from) && world == Run(from, trace)
      requires Lives(world, d) && AtBook(world, d) && PlayOk(play, d)
      modifies this
      ensures world == Run(from, longer)
      ensures Shows(world, d, way) && (way.Broke? ==> !FaultFree(play))
      ensures way.Going? ==>
                && FaultFree(play) && !state.Pending?
                && world.workers[d] == old(world.workers[d]).(
                                       states := old(world.workers[d]).states[BookOf(old(world), d) := state],
                                       stage := At(old(world.workers[d]).stage.next + 1))
    {
      Meanwhile(from, trace, d, play.before);
      longer, state := trace + play.before, Pending;
      if !Lives(world, d) { return Died, state, longer; }
      if play.fault.AtRecord? && play.decision.BadValue? { return Broke, state, longer; }
      DispatchStage(world, d, play.decision);
      Do(from, longer, ActionOf(d, play.decision));
      longer := longer + [ActionOf(d, play.decision)];
      state := world.workers[d].stage.state;
      Meanwhile(from, longer, d, play.after);
      longer := longer + play.after;
      if !Lives(world, d) { return Died, state, longer; }
      if play.fault.AtColumn? { return Broke, state, longer; }
      WriteStage(world, d);
      Do(from, longer, Write(d));
      return Going, state, longer + [Write(d)];
    }

    /** Reads the rows the loop will go by. */
    method Open(ghost from: World, d: nat, before: seq<Action>, fails: bool)
      returns (way: Way, states: map<Playbook, HandOffState>, pending: set<Playbook>, ghost trace: seq<Action>)
      requires Sound(from) && world == from && Lives(world, d) && world.workers[d].stage.Unread? && Others(before, d)
      modifies this
      ensures world == Run(from, trace) && Shows(world, d, way) && (way.Broke? ==> fails)
      ensures way.Going? ==> !fails && d < |Run(from, before).t.deliveries| && pending == PendingIn(Run(from, before).t.deliveries[d].handoffs)
      ensures way.Going? ==> world.workers[d] == Worker(from.workers[d].loaded, pending, states, At(0))
      ensures Settles(from.workers[d].loaded, pending, states, 0)
    {
      assert Run(from, []) == from;
      Meanwhile(from, [], d, before);
      trace := [] + before;
      if !Lives(world, d) { return Died, map[], {}, trace; }
      if fails { return Broke, map[], {}, trace; }
      ReadStage(world, d);
      states := world.t.deliveries[d].handoffs;
      pending := PendingIn(states);
      Do(from, trace, Read(d));
      return Going, states, pending, trace + [Read(d)];
    }

    /** The loop's turn at a playbook: decided if its hand-off is pending, passed over if not. */
    method Turn(ghost from: World, ghost trace: seq<Action>, d: nat, worker: Worker, play: Play)
      returns (way: Way, states: map<Playbook, HandOffState>, ghost longer: seq<Action>)
      requires Sound(from) && world == Run(from, trace)
      requires Lives(world, d) && world.workers[d] == worker && worker.stage.At? && worker.stage.next < |worker.loaded|
      requires PlayOk(play, d)
      requires Settles(worker.loaded, worker.pending, worker.states, worker.stage.next)
      modifies this
      ensures world == Run(from, longer) && Shows(world, d, way) && (way.Broke? ==> !FaultFree(play))
      ensures way.Going? && worker.loaded[worker.stage.next] in worker.pending ==> FaultFree(play)
      ensures way.Going? ==>
                && world.workers[d] == worker.(states := states, stage := At(worker.stage.next + 1))
                && Settles(worker.loaded, worker.pending, states, worker.stage.next + 1)
    {
      var p := worker.loaded[worker.stage.next];
      if p !in worker.pending {
        SkipStage(world, d);
        SettlesSkip(worker.loaded, worker.pending, worker.states, worker.stage.next);
        Do(from, trace, Skip(d));
        return Going, worker.states, trace + [Skip(d)];
      }
      var state;
      way, state, longer := OneBook(from, trace, d, play);
      states := worker.states[p := state];
      if way.Going? {
        SettlesOne(worker.loaded, worker.pending, worker.states, worker.stage.next, state);
      }
    }

    /** Sums the delivery up from what its loop decided. */
    method Sum(ghost from: World, ghost trace: seq<Action>, d: nat, states: map<Playbook, HandOffState>, before: seq<Action>, fails: bool)
      returns (way: Way, ghost longer: seq<Action>)
      requires Reachable(from) && Sound(from) && world == Run(from, trace)
      requires Lives(world, d) && Others(before, d)
      requires world.workers[d].stage.At? && world.workers[d].stage.next >= |world.workers[d].loaded| && world.workers[d].states == states
      modifies this
      ensures world == Run(from, longer)
      ensures !way.Going? ==> Shows(world, d, way)
      ensures way.Broke? ==> fails
      ensures way.Going? ==> !fails
      ensures way.Going? ==> d < |world.t.deliveries| && world.t.deliveries[d].handoffs == states && Summary(states, world.t.deliveries[d].state)
    {
      Meanwhile(from, trace, d, before);
      longer := trace + before;
      if !Lives(world, d) { return Died, longer; }
      if fails { return Broke, longer; }
      TrueStates(from, longer, d);
      var state := FinishDelivery(states);
      SummaryIsOne(states, state, SummaryOf(states));
      FinishStage(world, d);
      Do(from, longer, Finish(d));
      return Going, longer + [Finish(d)];
    }

    /** Goes through the playbooks in order. */
    method Books(ghost from: World, ghost trace: seq<Action>, d: nat, worker: Worker, script: seq<Play>)
      returns (way: Way, states: map<Playbook, HandOffState>, ghost longer: seq<Action>)
      requires Sound(from) && world == Run(from, trace)
      requires Lives(world, d) && world.workers[d] == worker && worker.stage == At(0)
      requires |script| == |worker.loaded| && forall k :: 0 <= k < |script| ==> PlayOk(script[k], d)
      requires Settles(worker.loaded, worker.pending, worker.states, 0)
      modifies this
      ensures world == Run(from, longer) && Shows(world, d, way)
      ensures way.Broke? ==> SomeFaulty(script)
      ensures way.Going? ==> NoneFaulty(worker.loaded, worker.pending, script, |script|)
      ensures way.Going? ==>
                && world.workers[d] == worker.(states := states, stage := At(|worker.loaded|))
                && Settles(worker.loaded, worker.pending, states, |worker.loaded|)
    {
      way, states, longer := Going, worker.states, trace;
      for next := 0 to |worker.loaded|
        invariant world == Run(from, longer) && Lives(world, d) && way.Going?
        invariant world.workers[d] == worker.(states := states, stage := At(next))
        invariant Settles(worker.loaded, worker.pending, states, next)
        invariant NoneFaulty(worker.loaded, worker.pending, script, next)
      {
        OneMoreSound(worker.loaded, worker.pending, script, next);
        way, states, longer := Turn(from, longer, d, worker.(states := states, stage := At(next)), script[next]);
        if !way.Going? { return; }
      }
    }

    /**
     * Reads the delivery's rows, decides each playbook still pending, and sums the delivery up. An error
     * of the store's ends it where it is; `readFails` and `sumFails` are those at its ends.
     */
    method HandOff(d: nat, script: seq<Play>, first: seq<Action>, last: seq<Action>, readFails: bool, sumFails: bool)
      returns (way: Way, ghost trace: seq<Action>)
      requires Reachable(world) && d < |world.workers| && Lives(world, d) && world.workers[d].stage.Unread?
      requires Others(first, d) && Others(last, d)
      requires |script| == |world.workers[d].loaded| && forall k :: 0 <= k < |script| ==> PlayOk(script[k], d)
      modifies this
      ensures Sound(old(world)) && world == Run(old(world), trace)
      ensures way.Died? ==> !Lives(world, d)
      ensures way.Broke? ==>
                && Lives(world, d) && world.t.deliveries[d].state.DAccepted?
                && (readFails || sumFails || SomeFaulty(script))
      ensures way.Going? ==>
                && !readFails && !sumFails && Sound(old(world)) && d < |Run(old(world), first).t.deliveries|
                && NoneFaulty(old(world.workers[d].loaded), PendingIn(Run(old(world), first).t.deliveries[d].handoffs), script, |script|)
      ensures way.Going? ==> d < |world.t.deliveries| && Summary(world.t.deliveries[d].handoffs, world.t.deliveries[d].state)
      ensures way.Going? ==> forall p :: p in old(world.workers[d].loaded) && p in world.t.deliveries[d].handoffs ==>
                                           !world.t.deliveries[d].handoffs[p].Pending?
    {
      ghost var from := world;
      var loaded := world.workers[d].loaded;
      var states, pending;
      way, states, pending, trace := Open(from, d, first, readFails);
      if way.Going? {
        way, states, trace := Books(from, trace, d, Worker(loaded, pending, states, At(0)), script);
      }
      if way.Going? {
        way, trace := Sum(from, trace, d, states, last, sumFails);
      }
      StillOpen(from, trace, d);
    }

    /** One row's turn, after whatever everyone else does first. */
    method ReapTurn(ghost from: World, ghost trace: seq<Action>, k: nat, row: WaitRow, seenAlive: set<Instance>, ghost mine: set<nat>, others: seq<Action>)
      returns (ended: bool, ghost longer: seq<Action>)
      requires Reachable(from) && Sound(from) && world == Run(from, trace)
      requires k < |from.t.waits| && row == from.t.waits[k]
      requires LedgerWaits.Onward(from.t, world.t) && Reaped(from, world, seenAlive, k) && EndedHere(from, world, mine, k)
      modifies this
      ensures world == Run(from, longer) && LedgerWaits.Onward(from.t, world.t)
      ensures Reaped(from, world, seenAlive, k + 1) && EndedHere(from, world, if ended then mine + {k} else mine, k + 1)
    {
      Later(from, trace, others);
      EndedStay(from, world, Run(from, trace + others), seenAlive, mine, k);
      Pause(from, trace, others);
      longer := trace + others;
      ended := false;
      LaterFromStart(from, longer);
      ReapLater(from, longer, k);
      ReapOne(from, world, seenAlive, mine, k);
      if row.outcome.Waiting? && row.instance !in seenAlive && row.instance in world.dead {
        ended := world.t.waits[k].outcome.Waiting?;
        Do(from, longer, Reap(k));
        longer := longer + [Reap(k)];
        LaterFromStart(from, longer);
      }
    }

    /**
     * Marks dropped every wait whose process is gone, as the rows stood when they were read: a wait
     * someone else ends first stays as they ended it, and one whose process lives is left.
     */
    method Reconcile(seenAlive: set<Instance>, gaps: seq<seq<Action>>) returns (dropped: nat, ghost mine: set<nat>, ghost trace: seq<Action>)
      requires Reachable(world) && Sound(world)
      modifies this
      ensures world == Run(old(world), trace)
      ensures LedgerWaits.Onward(old(world).t, world.t)
      ensures forall k :: 0 <= k < |old(world).t.waits| && old(world).t.waits[k].instance in old(world).dead - seenAlive ==>
                            !world.t.waits[k].outcome.Waiting?
      ensures dropped == |mine| && forall k :: k in mine ==>
                k < |old(world).t.waits| && old(world).t.waits[k].outcome.Waiting? && world.t.waits[k].outcome == Ended(ProcessGone)
    {
      ghost var from := world;
      trace, dropped, mine := [], 0, {};
      var waiting := world.t.waits;
      Later(from, [], []);
      for k := 0 to |waiting|
        invariant world == Run(from, trace) && dropped == |mine|
        invariant LedgerWaits.Onward(from.t, world.t)
        invariant Reaped(from, world, seenAlive, k) && EndedHere(from, world, mine, k)
      {
        var ended;
        ended, trace := ReapTurn(from, trace, k, waiting[k], seenAlive, mine, GapAt(gaps, k));
        if ended { dropped, mine := dropped + 1, mine + {k}; }
      }
    }

    method Pause(ghost from: World, ghost trace: seq<Action>, others: seq<Action>)
      requires Sound(from) && world == Run(from, trace)
      modifies this
      ensures world == Run(from, trace + others)
    {
      RunAppends(from, trace, others);
      world := Run(world, others);
    }
  }
}
