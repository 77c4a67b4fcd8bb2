/** The runs behind the ledger's columns and waits: what is handed off has one, and a living waiter's run is recorded. */
module LedgerRuns {
  import opened Common
  import opened Ledger
  import opened LedgerWorld
  import opened LedgerChains

  // ---- What is handed off has a run ----

  /** A hand-off recorded as handed off is named by a run. */
  ghost predicate Backed(t: Tables, d: nat, p: Playbook) {
    d < |t.deliveries| && p in t.deliveries[d].handoffs && t.deliveries[d].handoffs[p].HandedOff? ==> HasRun(t, d, p)
  }

  /** So is one a hand-off's loop is about to record so. */
  ghost predicate ToBack(w: World, d: nat) {
    d < |w.workers| && w.workers[d].stage.Wrote? && w.workers[d].stage.state.HandedOff? && w.workers[d].stage.next < |w.workers[d].loaded| ==>
      HasRun(w.t, d, w.workers[d].loaded[w.workers[d].stage.next])
  }

  lemma RunsStay(t: Tables, t': Tables, d: nat, p: Playbook)
    requires t.runs <= t'.runs
    ensures HasRun(t, d, p) ==> HasRun(t', d, p)
  {
    if k :| 0 <= k < |t.runs| && RunNames(t.runs[k], d, p) {
      assert RunNames(t'.runs[k], d, p);
    }
  }

  lemma OfferRuns(w: World, a: Action)
    requires Sound(w) && a.Offer? && OfferOk(w, a)
    ensures Offered(w, a).t.runs == w.t.runs
  {
    AcceptCases(w.t, a.params, a.alive, a.rows);
    if Judged(w.t, a.params, a.alive, a.rows) != w.t {
      var id := w.t.identities[a.params.key].id;
      SameDecisions(w.t, id, UndecidedRows(w.t.deliveries[id].handoffs, a.rows), id, "");
    }
  }

  lemma OfferBacks(w: World, a: Action, d: nat, p: Playbook)
    requires Sound(w) && a.Offer? && OfferOk(w, a) && Backed(w.t, d, p) && ToBack(w, d)
    ensures Backed(Offered(w, a).t, d, p) && ToBack(Offered(w, a), d)
  {
    OfferRuns(w, a);
    JudgedColumns(w, a, d, p);
    OfferWorkers(w, a, d);
    if d < |w.workers| && w.workers[d].stage.Wrote? && w.workers[d].stage.next < |w.workers[d].loaded| {
      RunsStay(w.t, Offered(w, a).t, d, w.workers[d].loaded[w.workers[d].stage.next]);
    }
    OfferColumns(w, a, d, p);
  }

  lemma OfferWorkers(w: World, a: Action, d: nat)
    requires Sound(w) && a.Offer? && OfferOk(w, a)
    ensures w.workers <= Offered(w, a).workers
    ensures |w.workers| <= d < |Offered(w, a).workers| ==> Offered(w, a).workers[d].stage.Unread?
  {}

  lemma JudgedColumns(w: World, a: Action, d: nat, p: Playbook)
    requires Sound(w) && a.Offer? && OfferOk(w, a) && Backed(w.t, d, p)
    ensures Backed(Judged(w.t, a.params, a.alive, a.rows), d, p)
    ensures Judged(w.t, a.params, a.alive, a.rows).runs == w.t.runs
  {
    if Judged(w.t, a.params, a.alive, a.rows) != w.t {
      var id := w.t.identities[a.params.key].id;
      ReconcileSettles(w.t, id, a.rows);
      SameDecisions(w.t, id, UndecidedRows(w.t.deliveries[id].handoffs, a.rows), id, "");
    }
  }

  /** An acceptance leaves the columns as judged, and a new delivery's pending. */
  lemma OfferColumns(w: World, a: Action, d: nat, p: Playbook)
    requires Sound(w) && a.Offer? && OfferOk(w, a) && Backed(w.t, d, p) && Backed(Judged(w.t, a.params, a.alive, a.rows), d, p)
    requires Judged(w.t, a.params, a.alive, a.rows).runs == w.t.runs == Offered(w, a).t.runs
    ensures Backed(Offered(w, a).t, d, p)
  {
    AcceptCases(w.t, a.params, a.alive, a.rows);
  }

  // ---- Every step ----

  lemma OfStepBacks(w: World, a: Action, d: nat, p: Playbook)
    requires Inv(w) && OfDelivery(a) && Lives(w, a.d) && Backed(w.t, d, p) && ToBack(w, d)
    ensures Backed(HandOffStep(w, a).t, d, p) && ToBack(HandOffStep(w, a), d)
  {
    RunsStay(w.t, HandOffStep(w, a).t, d, p);
    if d < |w.workers| && w.workers[d].stage.Wrote? && w.workers[d].stage.next < |w.workers[d].loaded| {
      RunsStay(w.t, HandOffStep(w, a).t, d, w.workers[d].loaded[w.workers[d].stage.next]);
    }
    if a.StartRun? && AtBook(w, a.d) {
      var t' := HandOffStep(w, a).t;
      assert RunNames(t'.runs[|w.t.runs|], a.d, BookOf(w, a.d));
    }
  }

  lemma ElseBacks(w: World, a: Action, d: nat, p: Playbook)
    requires Sound(w) && !a.Offer? && !OfDelivery(a) && Backed(w.t, d, p) && ToBack(w, d)
    ensures Backed(Step(w, a).t, d, p) && ToBack(Step(w, a), d)
  {
    RunsStay(w.t, Step(w, a).t, d, p);
    if d < |w.workers| && w.workers[d].stage.Wrote? && w.workers[d].stage.next < |w.workers[d].loaded| {
      RunsStay(w.t, Step(w, a).t, d, w.workers[d].loaded[w.workers[d].stage.next]);
    }
  }

  lemma StepBacks(w: World, a: Action, d: nat, p: Playbook)
    requires Inv(w) && Backed(w.t, d, p) && ToBack(w, d)
    ensures Backed(Step(w, a).t, d, p) && ToBack(Step(w, a), d)
  {
    if a.Offer? {
      if OfferOk(w, a) { OfferBacks(w, a, d, p); }
    } else if OfDelivery(a) {
      if Lives(w, a.d) { OfStepBacks(w, a, d, p); }
    } else {
      ElseBacks(w, a, d, p);
    }
  }

  lemma {:induction false} RunBacks(w: World, actions: seq<Action>, d: nat, p: Playbook)
    requires Inv(w) && Backed(w.t, d, p) && ToBack(w, d)
    ensures Backed(Run(w, actions).t, d, p)
    decreases |actions|
  {
    if actions != [] {
      StepBacks(w, actions[0], d, p);
      StepKeeps(w, actions[0]);
      RunBacks(Step(w, actions[0]), actions[1..], d, p);
    }
  }

  /** In every reachable world, crashes included, a hand-off recorded as handed off has a run that names it. */
  lemma HandedOffHasRun(w: World, d: nat, p: Playbook)
    requires Reachable(w) && d < |w.t.deliveries| && p in w.t.deliveries[d].handoffs && w.t.deliveries[d].handoffs[p].HandedOff?
    ensures HasRun(w.t, d, p)
  {
    var actions: seq<Action> :| w == Run(Start(), actions);
    RunBacks(Start(), actions, d, p);
  }

  // ---- A living waiter's wait is its own to end ----

  /** Until it ends it, a living waiter's wait is waiting, under its own playbook, process and hand-off. */
  predicate Owned(w: World, x: nat) {
    StillWaits(w, x) ==>
      var me := w.waiters[x];
      && CanEnd(w.t, me.wait)
      && var row := w.t.waits[me.wait];
         row.playbook == me.playbook && row.instance == me.instance && (row.delivery.Some? ==> row.delivery == me.origin)
  }

  /** Waiters wait on waits of their own, in the order they came. */
  ghost predicate WaitersRise(w: World) {
    && (forall x :: 0 <= x < |w.waiters| ==> w.waiters[x].wait < |w.t.waits|)
    && (forall x, y :: 0 <= x < y < |w.waiters| ==> w.waiters[x].wait < w.waiters[y].wait)
  }

  lemma {:induction false} ReconcileWaits(t: Tables, d: nat, rows: seq<Playbook>, k: nat)
    requires d < |t.deliveries| && k < |t.waits| && t.waits[k].delivery != Some(d)
    ensures |ReconcileRows(t, d, rows).waits| == |t.waits| && ReconcileRows(t, d, rows).waits[k] == t.waits[k]
  {
    if rows != [] {
      ReconcileWaits(t, d, rows[..|rows| - 1], k);
    }
  }

  lemma {:induction false} ReconcileCounts(t: Tables, d: nat, rows: seq<Playbook>)
    requires d < |t.deliveries|
    ensures |ReconcileRows(t, d, rows).waits| == |t.waits|
  {
    if rows != [] {
      ReconcileCounts(t, d, rows[..|rows| - 1]);
    }
  }

  lemma OfferWaits(w: World, a: Action)
    requires Sound(w) && a.Offer? && OfferOk(w, a)
    ensures |Offered(w, a).t.waits| == |w.t.waits| && Offered(w, a).waiters == w.waiters && Offered(w, a).dead == w.dead
    ensures Offered(w, a).t.waits == w.t.waits || Offered(w, a).t.waits == Judged(w.t, a.params, a.alive, a.rows).waits
  {
    AcceptCases(w.t, a.params, a.alive, a.rows);
    if Judged(w.t, a.params, a.alive, a.rows) != w.t {
      var id := w.t.identities[a.params.key].id;
      ReconcileCounts(w.t, id, UndecidedRows(w.t.deliveries[id].handoffs, a.rows));
    }
  }

  /** An acceptance that reconciles ends only waits of a process that is gone. */
  lemma OfferOwned(w: World, a: Action, x: nat)
    requires Inv(w) && a.Offer? && OfferOk(w, a) && Owned(w, x)
    ensures Owned(Offered(w, a), x)
  {
    OfferWaits(w, a);
    if StillWaits(w, x) && Judged(w.t, a.params, a.alive, a.rows) != w.t {
      var id := w.t.identities[a.params.key].id;
      assert WaiterOk(w, x);
      ReconcileWaits(w.t, id, UndecidedRows(w.t.deliveries[id].handoffs, a.rows), w.waiters[x].wait);
    }
  }

  lemma QueueOwned(w: World, a: Action, x: nat)
    requires Sound(w) && (a.GuardWaits? || a.TriggerWaits?) && WaitersRise(w) && Owned(w, x)
    ensures Owned(Step(w, a), x) && WaitersRise(Step(w, a))
  {}

  lemma RunsOwned(w: World, y: nat, x: nat)
    requires Sound(w) && WaitersRise(w) && Owned(w, x)
    ensures Owned(Step(w, WaiterRuns(y)), x) && WaitersRise(Step(w, WaiterRuns(y)))
  {}

  lemma RefusedOwned(w: World, a: Action, x: nat)
    requires Sound(w) && (a.WaiterRefused? || a.WaiterLeaves?) && WaitersRise(w) && Owned(w, x)
    ensures Owned(Step(w, a), x) && WaitersRise(Step(w, a))
  {}

  lemma ElseOwned(w: World, a: Action, x: nat)
    requires Sound(w) && (a.Trigger? || a.Refuse? || a.Reap? || a.Die?) && WaitersRise(w) && Owned(w, x)
    ensures Owned(Step(w, a), x) && WaitersRise(Step(w, a))
  {}

  lemma LoopOwned(w: World, a: Action, x: nat)
    requires Sound(w) && OfDelivery(a) && !a.GuardWaits? && Lives(w, a.d) && WaitersRise(w) && Owned(w, x)
    ensures Owned(HandOffStep(w, a), x) && WaitersRise(HandOffStep(w, a))
  {}

  lemma StepOwned(w: World, a: Action, x: nat)
    requires Inv(w) && WaitersRise(w) && Owned(w, x)
    ensures Owned(Step(w, a), x) && WaitersRise(Step(w, a))
  {
    if a.Offer? {
      if OfferOk(w, a) {
        OfferWaits(w, a);
        OfferOwned(w, a, x);
      }
    } else if a.GuardWaits? || a.TriggerWaits? {
      QueueOwned(w, a, x);
    } else if a.WaiterRuns? {
      RunsOwned(w, a.x, x);
    } else if a.WaiterRefused? || a.WaiterLeaves? {
      RefusedOwned(w, a, x);
    } else if OfDelivery(a) {
      if Lives(w, a.d) { LoopOwned(w, a, x); }
    } else {
      ElseOwned(w, a, x);
    }
  }

  lemma {:induction false} RunOwned(w: World, actions: seq<Action>, x: nat)
    requires Inv(w) && WaitersRise(w) && Owned(w, x)
    ensures Owned(Run(w, actions), x)
    decreases |actions|
  {
    if actions != [] {
      StepOwned(w, actions[0], x);
      StepKeeps(w, actions[0]);
      RunOwned(Step(w, actions[0]), actions[1..], x);
    }
  }

  lemma ReachableOwned(w: World, x: nat)
    requires Reachable(w)
    ensures Owned(w, x)
  {
    var actions: seq<Action> :| w == Run(Start(), actions);
    RunOwned(Start(), actions, x);
  }

  /** In every reachable world a trigger that waits in a living process runs under its own hand-off, whoever races, and its wait ends with that run. */
  lemma WaiterRunsOnce(w: World, x: nat)
    requires Reachable(w) && Sound(w) && StillWaits(w, x)
    ensures
      var me, t := w.waiters[x], Step(w, WaiterRuns(x)).t;
      && t.runs == w.t.runs + [RunRow(me.playbook, me.origin, Some(me.wait))]
      && me.wait < |t.waits| && t.waits[me.wait].outcome == Ran(|w.t.runs|)
  {
    ReachableOwned(w, x);
  }

  /** Refused, its wait ends with that refusal. */
  lemma WaiterRefusedOnce(w: World, x: nat, mechanism: Mechanism, naming: bool)
    requires Reachable(w) && Sound(w) && StillWaits(w, x) && !mechanism.ProcessGone?
    ensures
      var me, t := w.waiters[x], Step(w, WaiterRefused(x, mechanism, naming)).t;
      && t.refusals == w.t.refusals + [RefusalRow(me.playbook, if naming then me.origin else None, Some(me.wait), mechanism)]
      && me.wait < |t.waits| && t.waits[me.wait].outcome == Ended(mechanism)
  {
    ReachableOwned(w, x);
  }
}
