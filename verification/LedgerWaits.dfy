/** One waiting row a playbook, and one ending a wait, whoever races to end it. */
module LedgerWaits {
  import opened Common
  import opened Ledger
  import opened LedgerWorld

  /** How many runs name a wait. */
  function RunsOf(runs: seq<RunRow>, k: nat): nat {
    if runs == [] then 0 else RunsOf(runs[..|runs| - 1], k) + if Last(runs).wait == Some(k) then 1 else 0
  }

  /** How many refusals name a wait. */
  function RefusalsOf(refusals: seq<RefusalRow>, k: nat): nat {
    if refusals == [] then 0
    else RefusalsOf(refusals[..|refusals| - 1], k) + if Last(refusals).wait == Some(k) then 1 else 0
  }

  /** A wait still waiting is named by nothing; one that ran by that run alone; one refused by that refusal alone. */
  ghost predicate EndingOk(t: Tables, k: nat)
    requires k < |t.waits|
  {
    match t.waits[k].outcome
    case Waiting => RunsOf(t.runs, k) == 0 && RefusalsOf(t.refusals, k) == 0
    case Ran(run) => RunsOf(t.runs, k) == 1 && RefusalsOf(t.refusals, k) == 0 && run < |t.runs| && t.runs[run].wait == Some(k)
    case Ended(mechanism) =>
      && RunsOf(t.runs, k) == 0 && RefusalsOf(t.refusals, k) == 1
      && exists j :: 0 <= j < |t.refusals| && t.refusals[j].wait == Some(k) && t.refusals[j].mechanism == mechanism
  }

  ghost predicate OneWaiting(waits: seq<WaitRow>) {
    forall i, j :: 0 <= i < j < |waits| && waits[i].outcome.Waiting? && waits[j].outcome.Waiting? ==>
                     waits[i].playbook != waits[j].playbook
  }

  /** No row names a wait that is not there. */
  ghost predicate NamesKnown(t: Tables) {
    && (forall r :: 0 <= r < |t.runs| && t.runs[r].wait.Some? ==> t.runs[r].wait.value < |t.waits|)
    && (forall r :: 0 <= r < |t.refusals| && t.refusals[r].wait.Some? ==> t.refusals[r].wait.value < |t.waits|)
  }

  ghost predicate WaitsOk(t: Tables) {
    && OneWaiting(t.waits) && NamesKnown(t)
    && (forall k :: 0 <= k < |t.waits| ==> EndingOk(t, k))
  }

  /** Waits are only ever added, and one that ended keeps its ending. */
  ghost predicate Onward(t: Tables, t': Tables) {
    && |t.waits| <= |t'.waits|
    && (forall k :: 0 <= k < |t.waits| ==>
          t'.waits[k].playbook == t.waits[k].playbook && (!t.waits[k].outcome.Waiting? ==> t'.waits[k] == t.waits[k]))
  }

  lemma AppendRun(runs: seq<RunRow>, run: RunRow, k: nat)
    ensures RunsOf(runs + [run], k) == RunsOf(runs, k) + if run.wait == Some(k) then 1 else 0
  {
    assert (runs + [run])[..|runs|] == runs;
  }

  lemma AppendRefusal(refusals: seq<RefusalRow>, refusal: RefusalRow, k: nat)
    ensures RefusalsOf(refusals + [refusal], k) == RefusalsOf(refusals, k) + if refusal.wait == Some(k) then 1 else 0
  {
    assert (refusals + [refusal])[..|refusals|] == refusals;
  }

  lemma {:induction false} NoneNames(runs: seq<RunRow>, refusals: seq<RefusalRow>, k: nat)
    requires forall r :: 0 <= r < |runs| ==> runs[r].wait != Some(k)
    requires forall r :: 0 <= r < |refusals| ==> refusals[r].wait != Some(k)
    ensures RunsOf(runs, k) == 0 && RefusalsOf(refusals, k) == 0
    decreases |runs| + |refusals|
  {
    if runs != [] {
      NoneNames(runs[..|runs| - 1], refusals, k);
    } else if refusals != [] {
      NoneNames(runs, refusals[..|refusals| - 1], k);
    }
  }

  lemma CreateRunMoves(t: Tables, run: RunRow)
    requires WaitsOk(t)
    ensures WaitsOk(CreateRun(t, run)) && Onward(t, CreateRun(t, run))
  {
    var t' := CreateRun(t, run);
    if t' != t {
      forall k | 0 <= k < |t'.waits| ensures EndingOk(t', k) {
        assert EndingOk(t, k);
        AppendRun(t.runs, run, k);
      }
    }
  }

  lemma EndWaitMoves(t: Tables, w: nat, refusal: RefusalRow)
    requires WaitsOk(t) && refusal.wait == Some(w)
    ensures WaitsOk(EndWait(t, w, refusal)) && Onward(t, EndWait(t, w, refusal))
  {
    var t' := EndWait(t, w, refusal);
    if CanEnd(t, w) {
      forall k | 0 <= k < |t'.waits| ensures EndingOk(t', k) {
        EndWaitEnding(t, w, refusal, k);
      }
    }
  }

  lemma EndWaitEnding(t: Tables, w: nat, refusal: RefusalRow, k: nat)
    requires WaitsOk(t) && refusal.wait == Some(w) && CanEnd(t, w) && k < |t.waits|
    ensures EndingOk(EndWait(t, w, refusal), k)
  {
    var t' := EndWait(t, w, refusal);
    assert EndingOk(t, k);
    AppendRefusal(t.refusals, refusal, k);
    if k == w {
      assert t'.refusals[|t.refusals|] == refusal;
    } else if t.waits[k].outcome.Ended? {
      var j :| 0 <= j < |t.refusals| && t.refusals[j].wait == Some(k) && t.refusals[j].mechanism == t.waits[k].outcome.mechanism;
      assert t'.refusals[j] == t.refusals[j];
    }
  }

  lemma AddRefusalMoves(t: Tables, refusal: RefusalRow)
    requires WaitsOk(t) && refusal.wait.None?
    ensures WaitsOk(t.(refusals := t.refusals + [refusal]))
  {
    var t' := t.(refusals := t.refusals + [refusal]);
    forall k | 0 <= k < |t'.waits| ensures EndingOk(t', k) {
      assert EndingOk(t, k);
      AppendRefusal(t.refusals, refusal, k);
      if t.waits[k].outcome.Ended? {
        var j :| 0 <= j < |t.refusals| && t.refusals[j].wait == Some(k) && t.refusals[j].mechanism == t.waits[k].outcome.mechanism;
        assert t'.refusals[j] == t.refusals[j];
      }
    }
  }

  lemma AcceptWaitMoves(t: Tables, row: WaitRow)
    requires WaitsOk(t) && row.outcome.Waiting?
    ensures WaitsOk(AcceptWait(t, row)) && Onward(t, AcceptWait(t, row))
  {
    var t' := AcceptWait(t, row);
    if t' != t {
      NoneNames(t.runs, t.refusals, |t.waits|);
      forall k | 0 <= k < |t'.waits| ensures EndingOk(t', k) {
        if k < |t.waits| { assert EndingOk(t, k); }
      }
    }
  }

  /** Rows of other tables do not matter. */
  ghost predicate SameWaits(t: Tables, t': Tables) {
    t'.runs == t.runs && t'.refusals == t.refusals && t'.waits == t.waits
  }

  lemma SameWaitsMoves(t: Tables, t': Tables)
    requires WaitsOk(t) && SameWaits(t, t')
    ensures WaitsOk(t') && Onward(t, t')
  {
    forall k | 0 <= k < |t'.waits| ensures EndingOk(t', k) {
      assert EndingOk(t, k);
    }
  }

  lemma ReconcileRowMoves(t: Tables, d: nat, p: Playbook)
    requires WaitsOk(t) && d < |t.deliveries|
    ensures WaitsOk(ReconcileRow(t, d, p)) && Onward(t, ReconcileRow(t, d, p))
  {
    var mid := if DecidedElsewhere(t, d, p).None? then DropWait(t, d, p) else t;
    if mid != t {
      var w := WaitOfHandOff(t.waits, d, p).value;
      EndWaitMoves(t, w, RefusalRow(p, Some(d), Some(w), ProcessGone));
    }
    SameWaitsMoves(mid, ReconcileRow(t, d, p));
  }

  lemma {:induction false} ReconcileRowsMoves(t: Tables, d: nat, rows: seq<Playbook>)
    requires WaitsOk(t) && d < |t.deliveries|
    ensures WaitsOk(ReconcileRows(t, d, rows)) && Onward(t, ReconcileRows(t, d, rows))
  {
    if rows != [] {
      ReconcileRowsMoves(t, d, rows[..|rows| - 1]);
      ReconcileRowMoves(ReconcileRows(t, d, rows[..|rows| - 1]), d, Last(rows));
    }
  }

  lemma AcceptMoves(t: Tables, params: Params, alive: bool, rows: seq<Playbook>)
    requires WaitsOk(t) && Linked(t)
    requires params.key in t.identities ==> RowsOf(t.deliveries[t.identities[params.key].id].handoffs, rows)
    ensures WaitsOk(Accept(t, params, alive, rows).0) && Onward(t, Accept(t, params, alive, rows).0)
  {
    var t' := Accept(t, params, alive, rows).0;
    var judged := Judged(t, params, alive, rows);
    SameWaitsMoves(t, t);
    if judged != t {
      var id := t.identities[params.key].id;
      var pending := UndecidedRows(t.deliveries[id].handoffs, rows);
      ReconcileRowsMoves(t, id, pending);
      SameWaitsMoves(ReconcileRows(t, id, pending), judged);
    }
    AcceptCases(t, params, alive, rows);
    if t' != t {
      SameWaitsMoves(judged, t');
    }
  }

  lemma HandOffStepMoves(w: World, a: Action)
    requires Sound(w) && WaitsOk(w.t) && OfDelivery(a) && Lives(w, a.d)
    ensures WaitsOk(HandOffStep(w, a).t) && Onward(w.t, HandOffStep(w, a).t)
  {
    var t' := HandOffStep(w, a).t;
    if SameWaits(w.t, t') {
      SameWaitsMoves(w.t, t');
    } else {
      var p := BookOf(w, a.d);
      if a.StartRun? {
        CreateRunMoves(w.t, RunRow(p, Some(a.d), None));
      } else if a.GuardRefuses? {
        AddRefusalMoves(w.t, RefusalRow(p, NamedBy(a.d, a.written.Naming?), None, a.mechanism));
      } else if Occupant(w.t.waits, p).Some? {
        AddRefusalMoves(w.t, RefusalRow(p, NamedBy(a.d, a.naming), None, WaitingSlotFull));
      } else {
        AcceptWaitMoves(w.t, WaitRow(p, NamedBy(a.d, a.naming), w.t.deliveries[a.d].instance, Waiting));
      }
    }
  }

  lemma StepMoves(w: World, a: Action)
    requires Sound(w) && WaitsOk(w.t)
    ensures WaitsOk(Step(w, a).t) && Onward(w.t, Step(w, a).t)
  {
    SameWaitsMoves(w.t, w.t);
    match a
    case Offer(_, _, _, _) => if OfferOk(w, a) { AcceptMoves(w.t, a.params, a.alive, a.rows); }
    case Trigger(p) => CreateRunMoves(w.t, RunRow(p, None, None));
    case Refuse(p, mechanism) => AddRefusalMoves(w.t, RefusalRow(p, None, None, mechanism));
    case TriggerWaits(p, instance) =>
      AddRefusalMoves(w.t, RefusalRow(p, None, None, WaitingSlotFull));
      AcceptWaitMoves(w.t, WaitRow(p, None, instance, Waiting));
    case WaiterRuns(x) =>
      if StillWaits(w, x) { CreateRunMoves(w.t, RunRow(w.waiters[x].playbook, w.waiters[x].origin, Some(w.waiters[x].wait))); }
    case WaiterRefused(x, mechanism, naming) =>
      if StillWaits(w, x) {
        var me := w.waiters[x];
        EndWaitMoves(w.t, me.wait, RefusalRow(me.playbook, if naming then me.origin else None, Some(me.wait), mechanism));
      }
    case WaiterLeaves(_) =>
    case Reap(k) => if k < |w.t.waits| { EndWaitMoves(w.t, k, RefusalRow(w.t.waits[k].playbook, None, Some(k), ProcessGone)); }
    case Die(_) =>
    case _ => if Lives(w, a.d) { HandOffStepMoves(w, a); }
  }

  lemma {:induction false} RunMoves(w: World, actions: seq<Action>)
    requires Sound(w) && WaitsOk(w.t)
    ensures WaitsOk(Run(w, actions).t) && Onward(w.t, Run(w, actions).t)
    decreases |actions|
  {
    if actions == [] {
      SameWaitsMoves(w.t, w.t);
    } else {
      StepSound(w, actions[0]);
      StepMoves(w, actions[0]);
      RunMoves(Step(w, actions[0]), actions[1..]);
    }
  }

  // ---- What it comes to ----

  lemma ReachableWaits(w: World)
    requires Reachable(w)
    ensures Sound(w) && WaitsOk(w.t)
  {
    var actions: seq<Action> :| w == Run(Start(), actions);
    RunMoves(Start(), actions);
  }

  /** At most one row of a playbook is waiting, whoever raced for the slot. */
  lemma OneSlot(w: World, i: nat, j: nat)
    requires Reachable(w) && i < |w.t.waits| && j < |w.t.waits|
    requires w.t.waits[i].outcome.Waiting? && w.t.waits[j].outcome.Waiting? && w.t.waits[i].playbook == w.t.waits[j].playbook
    ensures i == j
  {
    ReachableWaits(w);
  }

  /** A wait is over exactly when one run or one refusal names it: never both, never two, and never neither. */
  lemma OneEnding(w: World, k: nat)
    requires Reachable(w) && k < |w.t.waits|
    ensures RunsOf(w.t.runs, k) + RefusalsOf(w.t.refusals, k) == (if w.t.waits[k].outcome.Waiting? then 0 else 1)
    ensures w.t.waits[k].outcome.Ran? <==> RunsOf(w.t.runs, k) == 1
    ensures w.t.waits[k].outcome.Ended? <==> RefusalsOf(w.t.refusals, k) == 1
  {
    ReachableWaits(w);
    assert EndingOk(w.t, k);
  }

  /** A wait that ended stays ended as it did, however the run goes on. */
  lemma EndedForGood(w: World, k: nat, actions: seq<Action>)
    requires Reachable(w) && k < |w.t.waits| && !w.t.waits[k].outcome.Waiting?
    ensures k < |Run(w, actions).t.waits| && Run(w, actions).t.waits[k] == w.t.waits[k]
  {
    ReachableWaits(w);
    RunMoves(w, actions);
  }

  /** No run names a row that still waits, so a reconciliation never finds one to record as ran. */
  lemma {:induction false} NamedIsCounted(runs: seq<RunRow>, r: nat, k: nat)
    requires r < |runs| && runs[r].wait == Some(k)
    ensures RunsOf(runs, k) >= 1
  {
    if r < |runs| - 1 {
      NamedIsCounted(runs[..|runs| - 1], r, k);
    }
  }

  lemma StillWaitingHasNoRun(w: World, k: nat)
    requires Reachable(w) && k < |w.t.waits| && w.t.waits[k].outcome.Waiting?
    ensures forall r :: 0 <= r < |w.t.runs| ==> w.t.runs[r].wait != Some(k)
  {
    ReachableWaits(w);
    assert EndingOk(w.t, k);
    forall r | 0 <= r < |w.t.runs| ensures w.t.runs[r].wait != Some(k) {
      if w.t.runs[r].wait == Some(k) {
        NamedIsCounted(w.t.runs, r, k);
      }
    }
  }
}
