/** A process that dies between the record of a refusal and the column it decides, and the retry after it. */
module LedgerCrashes {
  import opened Common
  import opened Ledger
  import opened LedgerWorld
  import opened LedgerChains
  import LedgerAnswers

  // ---- A playbook still to be dispatched ----

  /** The hand-off's loop has the playbook still before it. */
  predicate Awaits(w: World, d: nat, p: Playbook)
    requires Sound(w) && d < |w.workers|
  {
    var worker := w.workers[d];
    match worker.stage
    case Unread => p in w.t.deliveries[d].handoffs && w.t.deliveries[d].handoffs[p].Pending?
    case At(next) => next < |worker.loaded| && p in worker.loaded[next..] && p in worker.pending
    case Wrote(next, _) => next < |worker.loaded| && p in worker.loaded[next + 1..] && p in worker.pending
    case Finished => false
  }

  ghost predicate NoWaiter(waiters: seq<Waiter>, d: nat, p: Playbook) {
    forall x :: 0 <= x < |waiters| ==> !(waiters[x].origin == Some(d) && waiters[x].playbook == p)
  }

  /** Nothing has been recorded of a playbook a living hand-off has still before it. */
  ghost predicate Fresh(w: World, d: nat, p: Playbook)
    requires Sound(w)
  {
    d < |w.workers| && Lives(w, d) ==>
      && (!w.workers[d].stage.Finished? ==> w.t.deliveries[d].state.DAccepted?)
      && (Awaits(w, d, p) ==>
            && p in w.t.deliveries[d].handoffs && w.t.deliveries[d].handoffs[p].Pending?
            && !Named(w.t, d, p) && NoWaiter(w.waiters, d, p))
  }

  /** A step that leaves a hand-off's row and loop, and names it no further. */
  lemma Aside(w: World, w': World, d: nat, p: Playbook)
    requires Sound(w) && Sound(w') && Fresh(w, d, p) && d < |w.workers| && d < |w'.workers|
    requires Lives(w', d) ==> Lives(w, d)
    requires w'.workers[d] == w.workers[d]
    requires w'.t.deliveries[d].handoffs == w.t.deliveries[d].handoffs && w'.t.deliveries[d].state == w.t.deliveries[d].state
    requires Lives(w', d) && Awaits(w, d, p) && Named(w'.t, d, p) ==> Named(w.t, d, p)
    requires Lives(w', d) && Awaits(w, d, p) && NoWaiter(w.waiters, d, p) ==> NoWaiter(w'.waiters, d, p)
    ensures Fresh(w', d, p)
  {}

  /** Accepting leaves every other delivery's row, but for a count of repeats, and names no hand-off. */
  lemma Accepts(w: World, a: Action, d: nat, p: Playbook)
    requires Inv(w) && a.Offer? && OfferOk(w, a) && d < |w.t.deliveries| && Lives(w, d)
    ensures
      var w' := Offered(w, a);
      && w.workers <= w'.workers && w'.waiters == w.waiters && w'.dead == w.dead
      && |w.t.deliveries| <= |w'.t.deliveries|
      && w'.t.deliveries[d].handoffs == w.t.deliveries[d].handoffs && w'.t.deliveries[d].state == w.t.deliveries[d].state
      && w'.t.deliveries[d].instance == w.t.deliveries[d].instance
      && (Named(w'.t, d, p) ==> Named(w.t, d, p))
  {
    var judged := Judged(w.t, a.params, a.alive, a.rows);
    AcceptCases(w.t, a.params, a.alive, a.rows);
    if judged != w.t {
      ReconcileSettles(w.t, w.t.identities[a.params.key].id, a.rows);
    }
    assert Named(Offered(w, a).t, d, p) ==> Named(judged, d, p);
  }

  lemma Begins(w: World, a: Action, p: Playbook)
    requires Inv(w) && a.Offer? && OfferOk(w, a)
    ensures Sound(Offered(w, a)) && Fresh(Offered(w, a), |w.t.deliveries|, p)
  {
    OfferKeeps(w, a);
    AcceptCases(w.t, a.params, a.alive, a.rows);
    var d := |w.t.deliveries|;
    if |Offered(w, a).workers| > d {
      var judged := Judged(w.t, a.params, a.alive, a.rows);
      JudgedKeeps(w, a);
      assert Named(Offered(w, a).t, d, p) == Named(judged, d, p);
      forall x | 0 <= x < |w.waiters| ensures w.waiters[x].origin != Some(d) {
        assert WaiterOk(w, x);
      }
    }
  }

  lemma OfferFresh(w: World, a: Action, d: nat, p: Playbook)
    requires Inv(w) && a.Offer? && OfferOk(w, a) && Fresh(w, d, p)
    ensures Sound(Offered(w, a)) && Fresh(Offered(w, a), d, p)
  {
    OfferKeeps(w, a);
    if d < |w.t.deliveries| {
      OfferOnward(w, a, d);
      if Lives(w, d) {
        Accepts(w, a, d, p);
        Aside(w, Offered(w, a), d, p);
      }
    } else if d == |w.t.deliveries| {
      Begins(w, a, p);
    } else {
      AcceptLinks(w.t, a.params, a.alive, a.rows);
    }
  }

  lemma OfferOnward(w: World, a: Action, d: nat)
    requires Inv(w) && a.Offer? && OfferOk(w, a) && d < |w.t.deliveries|
    ensures d < |Offered(w, a).t.deliveries| && Offered(w, a).dead == w.dead
    ensures Offered(w, a).t.deliveries[d].instance == w.t.deliveries[d].instance
  {
    var judged := Judged(w.t, a.params, a.alive, a.rows);
    AcceptCases(w.t, a.params, a.alive, a.rows);
    if judged != w.t {
      ReconcileSettles(w.t, w.t.identities[a.params.key].id, a.rows);
    }
  }

  /** One step of the loop itself, for the playbooks it has still before it after. */
  lemma OwnFresh(w: World, a: Action, p: Playbook)
    requires Inv(w) && OfDelivery(a) && Lives(w, a.d) && Fresh(w, a.d, p)
    ensures Sound(HandOffStep(w, a)) && Fresh(HandOffStep(w, a), a.d, p)
  {
    HandOffStepSound(w, a);
    assert WorkerOk(w, a.d);
    if a.RefuseValue? || a.StartRun? || a.GuardRefuses? || a.GuardWaits? {
      if AtBook(w, a.d) { DispatchFresh(w, a, p); }
    } else if a.Read? || a.Skip? {
      ReadsOn(w, a, p);
    } else {
      ColumnFresh(w, a, p);
    }
  }

  lemma ReadsOn(w: World, a: Action, p: Playbook)
    requires Inv(w) && (a.Read? || a.Skip?) && Lives(w, a.d) && Fresh(w, a.d, p)
    ensures Sound(HandOffStep(w, a)) && Fresh(HandOffStep(w, a), a.d, p)
  {
    var worker := w.workers[a.d];
    var w' := HandOffStep(w, a);
    assert w'.t == w.t && w'.waiters == w.waiters && w'.dead == w.dead && |w'.workers| == |w.workers|;
    if Awaits(w', a.d, p) && a.Skip? && worker.stage.At? && worker.stage.next + 1 < |worker.loaded| {
      assert worker.loaded[worker.stage.next..] == [worker.loaded[worker.stage.next]] + worker.loaded[worker.stage.next + 1..];
    }
    assert Awaits(w', a.d, p) ==> Awaits(w, a.d, p);
  }

  /** A dispatch records at most the playbook the loop is at. */
  lemma DispatchNames(w: World, a: Action, d: nat, p: Playbook)
    requires Inv(w) && (a.RefuseValue? || a.StartRun? || a.GuardRefuses? || a.GuardWaits?)
    requires Lives(w, a.d) && AtBook(w, a.d) && (d != a.d || p != BookOf(w, a.d))
    ensures Named(HandOffStep(w, a).t, d, p) ==> Named(w.t, d, p)
    ensures NoWaiter(w.waiters, d, p) ==> NoWaiter(HandOffStep(w, a).waiters, d, p)
    ensures HandOffStep(w, a).t.deliveries == w.t.deliveries && HandOffStep(w, a).dead == w.dead
  {
    var t' := HandOffStep(w, a).t;
    var q := BookOf(w, a.d);
    match a
    case StartRun(_) => AddedRun(w.t, RunRow(q, Some(a.d), None));
    case RefuseValue(_) =>
      assert HasRun(t', d, p) == HasRun(w.t, d, p) && HasRefusal(t', d, p) == HasRefusal(w.t, d, p);
    case GuardRefuses(_, written, mechanism) =>
      AddedRefusal(w.t, t', RefusalRow(q, NamedBy(a.d, written.Naming?), None, mechanism));
    case GuardWaits(_, naming) =>
      AddedRefusal(w.t, t', RefusalRow(q, NamedBy(a.d, naming), None, WaitingSlotFull));
  }

  lemma DispatchFresh(w: World, a: Action, p: Playbook)
    requires Inv(w) && (a.RefuseValue? || a.StartRun? || a.GuardRefuses? || a.GuardWaits?)
    requires Lives(w, a.d) && AtBook(w, a.d) && Fresh(w, a.d, p)
    ensures Sound(HandOffStep(w, a)) && Fresh(HandOffStep(w, a), a.d, p)
  {
    var d := a.d;
    var w' := HandOffStep(w, a);
    HandOffStepSound(w, a);
    assert WorkerOk(w, d);
    var n, loaded := w.workers[d].stage.next, w.workers[d].loaded;
    assert loaded[n..] == [loaded[n]] + loaded[n + 1..];
    if p != BookOf(w, d) {
      DispatchNames(w, a, d, p);
    }
    assert w'.t.deliveries == w.t.deliveries && w'.dead == w.dead;
  }

  lemma ColumnFresh(w: World, a: Action, p: Playbook)
    requires Inv(w) && (a.Write? || a.Finish?) && Lives(w, a.d) && Fresh(w, a.d, p)
    ensures Sound(HandOffStep(w, a)) && Fresh(HandOffStep(w, a), a.d, p)
  {
    var d := a.d;
    var w' := HandOffStep(w, a);
    HandOffStepSound(w, a);
    assert WorkerOk(w, d);
    assert Named(w'.t, d, p) ==> Named(w.t, d, p);
    if a.Write? && w.workers[d].stage.Wrote? && w.workers[d].stage.next + 1 < |w.workers[d].loaded| {
      var n, loaded := w.workers[d].stage.next, w.workers[d].loaded;
      assert p in loaded[n + 1..] ==> p != loaded[n];
    }
  }

  /** A step of another hand-off's loop. */
  lemma OtherFresh(w: World, a: Action, d: nat, p: Playbook)
    requires Inv(w) && OfDelivery(a) && Lives(w, a.d) && a.d != d && d < |w.workers| && Fresh(w, d, p)
    ensures Sound(HandOffStep(w, a)) && Fresh(HandOffStep(w, a), d, p)
  {
    HandOffStepSound(w, a);
    var w' := HandOffStep(w, a);
    if (a.RefuseValue? || a.StartRun? || a.GuardRefuses? || a.GuardWaits?) && AtBook(w, a.d) {
      DispatchNames(w, a, d, p);
    } else {
      assert Named(w'.t, d, p) ==> Named(w.t, d, p);
      assert w'.waiters == w.waiters;
    }
    Aside(w, w', d, p);
  }

  /** A waiter's end is named by its own origin alone. */
  lemma WaiterFresh(w: World, a: Action, d: nat, p: Playbook)
    requires Inv(w) && (a.WaiterRuns? || a.WaiterRefused? || a.WaiterLeaves?) && StillWaits(w, a.x)
    requires Fresh(w, d, p) && d < |w.workers|
    ensures Sound(Step(w, a)) && Fresh(Step(w, a), d, p)
  {
    StepSound(w, a);
    var w' := Step(w, a);
    var me := w.waiters[a.x];
    if a.WaiterRuns? {
      AddedRun(w.t, RunRow(me.playbook, me.origin, Some(me.wait)));
    } else if a.WaiterRefused? {
      AddedRefusal(w.t, w'.t, RefusalRow(me.playbook, if a.naming then me.origin else None, Some(me.wait), a.mechanism));
    }
    assert NoWaiter(w.waiters, d, p) ==> NoWaiter(w'.waiters, d, p);
    Aside(w, w', d, p);
  }

  lemma ElseFresh(w: World, a: Action, d: nat, p: Playbook)
    requires Inv(w) && (a.Trigger? || a.Refuse? || a.TriggerWaits? || a.Reap? || a.Die?)
    requires Fresh(w, d, p) && d < |w.workers|
    ensures Sound(Step(w, a)) && Fresh(Step(w, a), d, p)
  {
    StepSound(w, a);
    var w' := Step(w, a);
    match a
    case Trigger(q) => AddedRun(w.t, RunRow(q, None, None));
    case Refuse(q, mechanism) => AddedRefusal(w.t, w'.t, RefusalRow(q, None, None, mechanism));
    case TriggerWaits(q, _) => AddedRefusal(w.t, w'.t, RefusalRow(q, None, None, WaitingSlotFull));
    case Reap(k) =>
      if k < |w.t.waits| { AddedRefusal(w.t, w'.t, RefusalRow(w.t.waits[k].playbook, None, Some(k), ProcessGone)); }
    case Die(_) =>
    Aside(w, w', d, p);
  }

  lemma StepFresh(w: World, a: Action, d: nat, p: Playbook)
    requires Inv(w) && Fresh(w, d, p)
    ensures Sound(Step(w, a)) && Fresh(Step(w, a), d, p)
  {
    StepSound(w, a);
    if a.Offer? {
      if OfferOk(w, a) { OfferFresh(w, a, d, p); }
    } else if OfDelivery(a) {
      if Lives(w, a.d) && a.d == d {
        OwnFresh(w, a, p);
      } else if Lives(w, a.d) && d < |w.workers| {
        OtherFresh(w, a, d, p);
      }
    } else if a.WaiterRuns? || a.WaiterRefused? || a.WaiterLeaves? {
      if StillWaits(w, a.x) && d < |w.workers| { WaiterFresh(w, a, d, p); }
    } else if d < |w.workers| {
      ElseFresh(w, a, d, p);
    }
  }

  lemma {:induction false} RunFresh(w: World, actions: seq<Action>, d: nat, p: Playbook)
    requires Inv(w) && Fresh(w, d, p)
    ensures Fresh(Run(w, actions), d, p)
    decreases |actions|
  {
    if actions != [] {
      StepFresh(w, actions[0], d, p);
      StepKeeps(w, actions[0]);
      RunFresh(Step(w, actions[0]), actions[1..], d, p);
    }
  }

  /** A living hand-off at a playbook: its row is pending, no record names it, and its delivery is open. */
  lemma AtIsFresh(w: World, d: nat)
    requires Reachable(w) && Lives(w, d) && AtBook(w, d)
    ensures Inv(w)
    ensures w.t.deliveries[d].state.DAccepted?
    ensures var p := BookOf(w, d);
            && p in w.t.deliveries[d].handoffs && w.t.deliveries[d].handoffs[p].Pending?
            && !Named(w.t, d, p) && NoWaiter(w.waiters, d, p)
  {
    var actions: seq<Action> :| w == Run(Start(), actions);
    RunKeeps(Start(), actions);
    RunFresh(Start(), actions, d, BookOf(w, d));
    var worker := w.workers[d];
    assert worker.loaded[worker.stage.next..][0] == BookOf(w, d);
  }

  // ---- The crash ----

  /**
   * A process that dies between the guard's refusal and the column it decides: the refusal decides
   * the hand-off exactly if its row names the delivery. Otherwise reconciling drops the hand-off.
   */
  lemma CrashBeforeColumn(w: World, d: nat, written: Written, mechanism: Mechanism, rows: seq<Playbook>)
    requires Reachable(w) && Lives(w, d) && AtBook(w, d) && !mechanism.ProcessGone?
    requires RowsOf(w.t.deliveries[d].handoffs, rows)
    ensures
      var t := Step(w, GuardRefuses(d, written, mechanism)).t;
      && t.deliveries == w.t.deliveries && t.identities == w.t.identities
      && BookOf(w, d) in ReconcileDelivery(t, d, rows).deliveries[d].handoffs
      && ReconcileDelivery(t, d, rows).deliveries[d].handoffs[BookOf(w, d)] == (if written.Naming? then Refused else Dropped)
      && (!written.Naming? ==> ReconcileDelivery(t, d, rows).deliveries[d].state.DDropped?)
  {
    AtIsFresh(w, d);
    var p := BookOf(w, d);
    var t := Step(w, GuardRefuses(d, written, mechanism)).t;
    ReconcileSettles(t, d, rows);
    AddedRefusal(w.t, t, RefusalRow(p, NamedBy(d, written.Naming?), None, mechanism));
    if written.Naming? {
      assert RefusalNames(t.refusals[|w.t.refusals|], d, p);
      assert !HasRun(w.t, d, p) && t.runs == w.t.runs;
    } else {
      assert !Named(t, d, p);
    }
  }

  // ---- Between the refusal and the retry ----

  /** The delivery is still the one its identity points at. */
  predicate Newest(t: Tables, d: nat)
    requires d < |t.deliveries|
  {
    t.deliveries[d].key in t.identities && t.identities[t.deliveries[d].key].id == d
  }

  /** Open with the playbook pending, or reconciled by a repeat since, which takes a record that names the delivery. */
  predicate AsLeft(row: Delivery, p: Playbook, naming: bool)
    requires p in row.handoffs
  {
    || (row.state.DAccepted? && row.handoffs[p].Pending?)
    || (naming && row.state.DHandedOff? && row.handoffs[p].Refused?)
  }

  /** What stays of a hand-off whose own loop goes no further. */
  ghost predicate Kept(w: World, d: nat, p: Playbook, naming: bool)
    requires Sound(w)
  {
    && d < |w.t.deliveries| && p in w.t.deliveries[d].handoffs
    && DecidedElsewhere(w.t, d, p) == (if naming then Some(Refused) else None)
    && NoWaiter(w.waiters, d, p)
    && (Newest(w.t, d) ==> AsLeft(w.t.deliveries[d], p, naming))
  }

  /** Rows that do not name a hand-off decide it no further. */
  lemma NamesNoFurther(t: Tables, t': Tables, d: nat, p: Playbook)
    requires t.runs <= t'.runs && forall k :: |t.runs| <= k < |t'.runs| ==> !RunNames(t'.runs[k], d, p)
    requires t.refusals <= t'.refusals && forall k :: |t.refusals| <= k < |t'.refusals| ==> !RefusalNames(t'.refusals[k], d, p)
    requires HasValueRefusal(t', d, p) == HasValueRefusal(t, d, p)
    ensures DecidedElsewhere(t', d, p) == DecidedElsewhere(t, d, p)
  {
    if k :| 0 <= k < |t.runs| && RunNames(t.runs[k], d, p) {
      assert RunNames(t'.runs[k], d, p);
    }
    if k :| 0 <= k < |t.refusals| && RefusalNames(t.refusals[k], d, p) {
      assert RefusalNames(t'.refusals[k], d, p);
    }
  }

  /** The hand-off's row, its identity, its records and the waits it has left. */
  lemma StaysKept(w: World, w': World, d: nat, p: Playbook, naming: bool)
    requires Sound(w) && Sound(w') && Kept(w, d, p, naming)
    requires d < |w'.t.deliveries| && w'.t.deliveries[d] == w.t.deliveries[d] && w'.t.identities == w.t.identities
    requires DecidedElsewhere(w'.t, d, p) == DecidedElsewhere(w.t, d, p) && NoWaiter(w'.waiters, d, p)
    ensures Kept(w', d, p, naming)
  {}

  /** Another hand-off's step names that one alone, and writes to its row alone. */
  lemma OthersNames(w: World, a: Action, d: nat, p: Playbook)
    requires Sound(w) && OfDelivery(a) && a.d != d && Lives(w, a.d)
    ensures DecidedElsewhere(HandOffStep(w, a).t, d, p) == DecidedElsewhere(w.t, d, p)
  {
    NamesNoFurther(w.t, HandOffStep(w, a).t, d, p);
  }

  lemma OthersKept(w: World, a: Action, d: nat, p: Playbook, naming: bool)
    requires Sound(w) && OfDelivery(a) && a.d != d && Lives(w, a.d) && Kept(w, d, p, naming)
    ensures Sound(HandOffStep(w, a)) && Kept(HandOffStep(w, a), d, p, naming)
  {
    HandOffStepSound(w, a);
    OthersNames(w, a, d, p);
    StaysKept(w, HandOffStep(w, a), d, p, naming);
  }

  lemma WaiterKept(w: World, a: Action, d: nat, p: Playbook, naming: bool)
    requires Sound(w) && (a.WaiterRuns? || a.WaiterRefused? || a.WaiterLeaves?) && StillWaits(w, a.x) && Kept(w, d, p, naming)
    ensures Sound(Step(w, a)) && Kept(Step(w, a), d, p, naming)
  {
    StepSound(w, a);
    NamesNoFurther(w.t, Step(w, a).t, d, p);
    StaysKept(w, Step(w, a), d, p, naming);
  }

  lemma ElseKept(w: World, a: Action, d: nat, p: Playbook, naming: bool)
    requires Sound(w) && (a.Trigger? || a.Refuse? || a.TriggerWaits? || a.Reap? || a.Die?) && Kept(w, d, p, naming)
    ensures Sound(Step(w, a)) && Kept(Step(w, a), d, p, naming)
  {
    StepSound(w, a);
    NamesNoFurther(w.t, Step(w, a).t, d, p);
    StaysKept(w, Step(w, a), d, p, naming);
  }

  lemma ReconcileDecides(t: Tables, id: nat, rows: seq<Playbook>, d: nat, p: Playbook)
    requires id < |t.deliveries| && RowsOf(t.deliveries[id].handoffs, rows)
    ensures DecidedElsewhere(ReconcileDelivery(t, id, rows), d, p) == DecidedElsewhere(t, d, p)
  {
    var pending := UndecidedRows(t.deliveries[id].handoffs, rows);
    SameDecisions(t, id, pending, d, p);
    NamesNoFurther(ReconcileRows(t, id, pending), ReconcileDelivery(t, id, rows), d, p);
  }

  lemma OfferRecords(w: World, a: Action)
    requires Sound(w) && a.Offer? && OfferOk(w, a)
    ensures
      var t', judged := Offered(w, a).t, Judged(w.t, a.params, a.alive, a.rows);
      t' == w.t || (t'.runs == judged.runs && t'.refusals == judged.refusals && t'.valueRefusals == judged.valueRefusals)
  {
    AcceptCases(w.t, a.params, a.alive, a.rows);
  }

  /** An acceptance adds no record that decides. */
  lemma OfferDecides(w: World, a: Action, d: nat, p: Playbook)
    requires Sound(w) && a.Offer? && OfferOk(w, a)
    ensures DecidedElsewhere(Offered(w, a).t, d, p) == DecidedElsewhere(w.t, d, p)
  {
    var t', judged := Offered(w, a).t, Judged(w.t, a.params, a.alive, a.rows);
    OfferRecords(w, a);
    if t' != w.t {
      if judged != w.t {
        ReconcileDecides(w.t, w.t.identities[a.params.key].id, a.rows, d, p);
      }
      NamesNoFurther(judged, t', d, p);
    }
  }

  /** A repeat leaves what it judged but for the count, and that is not dropped unless it was. */
  lemma RepeatCounts(w: World, a: Action)
    requires Sound(w) && a.Offer? && OfferOk(w, a) && a.params.key in w.t.identities
    requires Accept(w.t, a.params, a.alive, a.rows).1.RepeatOf?
    ensures
      var d := w.t.identities[a.params.key].id;
      var judged := Judged(w.t, a.params, a.alive, a.rows);
      var row := Offered(w, a).t.deliveries[d];
      && row.handoffs == judged.deliveries[d].handoffs && row.state == judged.deliveries[d].state && (judged != w.t ==> !row.state.DDropped?)
  {
    AcceptCases(w.t, a.params, a.alive, a.rows);
  }

  /** A repeat reconciles an open delivery only to what its records decided. */
  lemma RepeatLeaves(w: World, a: Action, p: Playbook, naming: bool)
    requires Inv(w) && a.Offer? && OfferOk(w, a) && a.params.key in w.t.identities
    requires Kept(w, w.t.identities[a.params.key].id, p, naming)
    requires Accept(w.t, a.params, a.alive, a.rows).1.RepeatOf?
    ensures
      var d := w.t.identities[a.params.key].id;
      var row := Offered(w, a).t.deliveries[d];
      p in row.handoffs && AsLeft(row, p, naming)
  {
    var d := w.t.identities[a.params.key].id;
    assert IdentityOk(w.t, a.params.key);
    RepeatCounts(w, a);
    if Judged(w.t, a.params, a.alive, a.rows) != w.t {
      ReconcileSettles(w.t, d, a.rows);
    }
  }

  /** What an acceptance leaves of every delivery but the one it judges. */
  lemma OfferLeaves(w: World, a: Action, d: nat)
    requires Inv(w) && a.Offer? && OfferOk(w, a) && d < |w.t.deliveries|
    ensures
      var t' := Offered(w, a).t;
      && d < |t'.deliveries| && t'.deliveries[d].key == w.t.deliveries[d].key
      && t'.deliveries[d].handoffs.Keys == w.t.deliveries[d].handoffs.Keys
      && (!(a.params.key in w.t.identities && w.t.identities[a.params.key].id == d) ==> t'.deliveries[d] == w.t.deliveries[d])
  {
    AcceptCases(w.t, a.params, a.alive, a.rows);
    if Judged(w.t, a.params, a.alive, a.rows) != w.t {
      ReconcileSettles(w.t, w.t.identities[a.params.key].id, a.rows);
    }
  }

  /** Only a new delivery moves an identity, and to itself. */
  lemma OfferPoints(w: World, a: Action)
    requires Inv(w) && a.Offer? && OfferOk(w, a)
    ensures Offered(w, a).t.identities ==
            if Accept(w.t, a.params, a.alive, a.rows).1.New?
            then w.t.identities[a.params.key := Identity(|w.t.deliveries|, a.params.receivedAt)] else w.t.identities
  {
    AcceptCases(w.t, a.params, a.alive, a.rows);
    if Judged(w.t, a.params, a.alive, a.rows) != w.t {
      ReconcileSettles(w.t, w.t.identities[a.params.key].id, a.rows);
    }
  }

  lemma OfferKept(w: World, a: Action, d: nat, p: Playbook, naming: bool)
    requires Inv(w) && a.Offer? && OfferOk(w, a) && Kept(w, d, p, naming)
    ensures Sound(Offered(w, a)) && Kept(Offered(w, a), d, p, naming)
  {
    OfferKeeps(w, a);
    OfferDecides(w, a, d, p);
    OfferLeaves(w, a, d);
    OfferPoints(w, a);
    assert Offered(w, a).waiters == w.waiters;
    if a.params.key in w.t.identities && w.t.identities[a.params.key].id == d {
      assert IdentityOk(w.t, a.params.key);
      if Accept(w.t, a.params, a.alive, a.rows).1.RepeatOf? {
        RepeatLeaves(w, a, p, naming);
      }
    }
  }

  lemma StepKept(w: World, a: Action, d: nat, p: Playbook, naming: bool)
    requires Inv(w) && Kept(w, d, p, naming) && !(OfDelivery(a) && a.d == d)
    ensures Sound(Step(w, a)) && Kept(Step(w, a), d, p, naming)
  {
    StepSound(w, a);
    if a.Offer? {
      if OfferOk(w, a) { OfferKept(w, a, d, p, naming); }
    } else if OfDelivery(a) {
      if Lives(w, a.d) { OthersKept(w, a, d, p, naming); }
    } else if a.WaiterRuns? || a.WaiterRefused? || a.WaiterLeaves? {
      if StillWaits(w, a.x) { WaiterKept(w, a, d, p, naming); }
    } else {
      ElseKept(w, a, d, p, naming);
    }
  }

  lemma {:induction false} RunKept(w: World, actions: seq<Action>, d: nat, p: Playbook, naming: bool)
    requires Inv(w) && Kept(w, d, p, naming) && Others(actions, d)
    ensures Inv(Run(w, actions)) && Kept(Run(w, actions), d, p, naming)
    decreases |actions|
  {
    if actions != [] {
      StepKept(w, actions[0], d, p, naming);
      StepKeeps(w, actions[0]);
      RunKept(Step(w, actions[0]), actions[1..], d, p, naming);
    }
  }

  /** The refusal itself. */
  lemma RefusalKept(w: World, d: nat, written: Written, mechanism: Mechanism)
    requires Reachable(w) && Sound(w) && Lives(w, d) && AtBook(w, d) && !mechanism.ProcessGone?
    ensures Inv(Step(w, GuardRefuses(d, written, mechanism)))
    ensures Kept(Step(w, GuardRefuses(d, written, mechanism)), d, BookOf(w, d), written.Naming?)
  {
    AtIsFresh(w, d);
    StepKeeps(w, GuardRefuses(d, written, mechanism));
    var p := BookOf(w, d);
    var t := Step(w, GuardRefuses(d, written, mechanism)).t;
    if written.Naming? {
      assert RefusalNames(t.refusals[|w.t.refusals|], d, p);
    } else {
      NamesNoFurther(w.t, t, d, p);
    }
  }

  // ---- The retry ----

  /** An offer of the same identity again, in its window, by another process, once the first is known to be gone. */
  predicate Retries(w: World, d: nat, a: Action) {
    && a.Offer? && OfferOk(w, a) && !a.alive && a.params.key in w.t.identities && w.t.identities[a.params.key].id == d
    && a.params.receivedAt != 0 && a.params.receivedAt - w.t.identities[a.params.key].acceptedAt < a.params.window
    && NoneTwice(a.params.playbooks)
  }

  /** The world once the refusal is recorded, its process's death among what has happened since. */
  function Since(w: World, d: nat, written: Written, mechanism: Mechanism, others: seq<Action>): (since: World)
    requires Sound(w)
    ensures Sound(since)
  {
    StepSound(w, GuardRefuses(d, written, mechanism));
    Run(Step(w, GuardRefuses(d, written, mechanism)), others)
  }

  /** The one delivery accepted since is a retry of `d` with the playbook pending. */
  predicate Handed(t: Tables, n: nat, d: nat, p: Playbook) {
    |t.deliveries| == n + 1 && t.deliveries[n].supersedes == Some(d)
    && p in t.deliveries[n].handoffs && t.deliveries[n].handoffs[p].Pending?
  }

  /** No delivery accepted since is handed to the playbook. */
  predicate Spared(t: Tables, n: nat, p: Playbook) {
    forall e :: n <= e < |t.deliveries| ==> p !in t.deliveries[e].handoffs
  }

  /**
   * The process dies between the guard's refusal and its column, and everyone else goes on. Whenever
   * the delivery is retried, it is handed to the playbook again exactly if the refusal's row did not name it.
   */
  lemma RetryAfterCrash(w: World, d: nat, written: Written, mechanism: Mechanism, others: seq<Action>, a: Action)
    requires Reachable(w) && Sound(w) && Lives(w, d) && AtBook(w, d) && !mechanism.ProcessGone?
    requires Others(others, d) && Retries(Since(w, d, written, mechanism, others), d, a) && BookOf(w, d) in a.params.playbooks
    ensures
      var since := Since(w, d, written, mechanism, others);
      var t := Step(since, a).t;
      && (Spared(t, |since.t.deliveries|, BookOf(w, d)) <==> written.Naming?)
      && (Handed(t, |since.t.deliveries|, d, BookOf(w, d)) <==> !written.Naming?)
  {
    RefusalKept(w, d, written, mechanism);
    RunKept(Step(w, GuardRefuses(d, written, mechanism)), others, d, BookOf(w, d), written.Naming?);
    RetryOfKept(Since(w, d, written, mechanism, others), d, a, BookOf(w, d), written.Naming?);
  }

  lemma RetryOfKept(w: World, d: nat, a: Action, p: Playbook, naming: bool)
    requires Inv(w) && Kept(w, d, p, naming) && Retries(w, d, a) && p in a.params.playbooks
    ensures
      var t := Step(w, a).t;
      && (Spared(t, |w.t.deliveries|, p) <==> naming) && (Handed(t, |w.t.deliveries|, d, p) <==> !naming)
  {
    assert IdentityOk(w.t, a.params.key);
    if w.t.deliveries[d].state.DAccepted? {
      ReconcileSettles(w.t, d, a.rows);
      RetryOfGone(w, d, a, p);
    } else {
      AcceptCases(w.t, a.params, a.alive, a.rows);
      assert Accept(w.t, a.params, a.alive, a.rows).1 == RepeatOf(d);
    }
  }

  /** A delivery found open and its process gone is retried as its reconciled row says. */
  lemma RetryOfGone(w: World, d: nat, a: Action, p: Playbook)
    requires Inv(w) && d < |w.t.deliveries| && w.t.deliveries[d].state.DAccepted? && Retries(w, d, a)
    requires p in a.params.playbooks && p in w.t.deliveries[d].handoffs
    ensures
      var r, t := ReconcileDelivery(w.t, d, a.rows).deliveries[d], Step(w, a).t;
      && p in r.handoffs
      && (Decided(r.handoffs[p]) ==> Spared(t, |w.t.deliveries|, p) && !Handed(t, |w.t.deliveries|, d, p))
      && (r.handoffs[p].Dropped? && r.state.DDropped? ==> Handed(t, |w.t.deliveries|, d, p) && !Spared(t, |w.t.deliveries|, p))
  {
    RetryRows(w, d, a, p);
    ChainAfter(w, d, a.rows, p);
    assert Step(w, a) == Offered(w, a);
  }

  /** Once reconciled, a chain decides a playbook of its newest delivery exactly if that delivery does. */
  lemma ChainAfter(w: World, d: nat, rows: seq<Playbook>, p: Playbook)
    requires Inv(w) && d < |w.t.deliveries| && RowsOf(w.t.deliveries[d].handoffs, rows) && p in w.t.deliveries[d].handoffs
    requires w.t.deliveries[d].instance in w.dead && !w.t.deliveries[d].state.DDropped?
    ensures
      var r := ReconcileDelivery(w.t, d, rows);
      && Linked(r) && p in r.deliveries[d].handoffs
      && (DecidedInChain(r.deliveries, d, p) <==> Decided(r.deliveries[d].handoffs[p]))
  {
    var r := ReconcileDelivery(w.t, d, rows);
    ReconcileKeeps(w, d, rows);
    ReconcileSettles(w.t, d, rows);
    assert ChainOk(r, d);
  }

  /** What a retry makes of the delivery it finds open and its process gone. */
  lemma RetryRows(w: World, d: nat, a: Action, p: Playbook)
    requires Inv(w) && d < |w.t.deliveries| && w.t.deliveries[d].state.DAccepted?
    requires Retries(w, d, a) && p in a.params.playbooks && p in w.t.deliveries[d].handoffs
    ensures
      var t', r, n := Offered(w, a).t, ReconcileDelivery(w.t, d, a.rows), |w.t.deliveries|;
      && Linked(r)
      && (r.deliveries[d].state.DDropped? && !DecidedInChain(r.deliveries, d, p) ==> Handed(t', n, d, p))
      && (DecidedInChain(r.deliveries, d, p) ==> Spared(t', n, p))
  {
    var r := ReconcileDelivery(w.t, d, a.rows);
    JudgeLinks(w.t, d, a.params, a.alive, a.rows);
    ReconcileSettles(w.t, d, a.rows);
    if r.deliveries[d].state.DDropped? {
      var left := Without(a.params.playbooks, ChainDecisions(r, d));
      LedgerAnswers.WithoutOnce(a.params.playbooks, ChainDecisions(r, d));
      assert Accept(w.t, a.params, a.alive, a.rows) == Insert(r, a.params, Some(d), left);
    }
  }

  // ---- A run that hands a playbook over twice ----

  const KEY := Key("forge", "push-1")

  function Offering(receivedAt: int, instance: Instance, alive: bool, rows: seq<Playbook>): Action {
    Offer(Params(KEY, receivedAt, instance, 60, ["deploy"]), alive, rows, ["deploy"])
  }

  const FIRST := Offering(1, "one", true, [])
  const SECOND := Offering(2, "two", false, ["deploy"])

  /** The first delivery's hand-off is at its one playbook. */
  const AT_DEPLOY :=
    World(
      Tables([Delivery(KEY, 1, "one", None, DAccepted, 0, map["deploy" := Pending])], map[KEY := Identity(0, 1)], [], [], [], []),
      {}, [Worker(["deploy"], {"deploy"}, map["deploy" := Pending], At(0))], [], [Entry(KEY, 1, 60, 0, true)])

  /** The refusal is recorded without the delivery, and its process is gone. */
  const GONE :=
    AT_DEPLOY.(
      t := AT_DEPLOY.t.(refusals := [RefusalRow("deploy", None, None, ClaimHeld)]), dead := {"one"},
      workers := [Worker(["deploy"], {"deploy"}, map["deploy" := Pending], Wrote(0, Refused))])

  lemma Arrives()
    ensures Run(Start(), [FIRST, Read(0)]) == AT_DEPLOY
  {
    var handoffs := map p | p in ["deploy"] :: Pending;
    assert handoffs == map["deploy" := Pending] && PendingIn(handoffs) == {"deploy"};
    var w1 := AT_DEPLOY.(workers := [Worker(["deploy"], {}, map[], Unread)]);
    assert Accept(Blank(), FIRST.params, true, []) == Insert(Blank(), FIRST.params, None, ["deploy"]);
    assert Step(Start(), FIRST) == Offered(Start(), FIRST) == w1;
    assert Step(w1, Read(0)) == HandOffStep(w1, Read(0)) == AT_DEPLOY;
    assert [FIRST, Read(0)][1..] == [Read(0)];
    assert Run(w1, [Read(0)]) == Step(w1, Read(0));
  }

  lemma Dies()
    ensures Sound(Step(AT_DEPLOY, GuardRefuses(0, Unnamed, ClaimHeld)))
    ensures Step(Step(AT_DEPLOY, GuardRefuses(0, Unnamed, ClaimHeld)), Die("one")) == GONE
    ensures Since(AT_DEPLOY, 0, Unnamed, ClaimHeld, [Die("one")]) == GONE
  {
    var refuses := GuardRefuses(0, Unnamed, ClaimHeld);
    var w1 := GONE.(dead := {});
    assert Step(AT_DEPLOY, refuses) == HandOffStep(AT_DEPLOY, refuses) == w1;
    assert Run(w1, [Die("one")]) == Step(w1, Die("one")) == GONE;
  }

  lemma SecondRetries()
    ensures Sound(GONE) && OfferOk(GONE, SECOND) && Retries(GONE, 0, SECOND)
  {
    assert RowsOf(GONE.t.deliveries[0].handoffs, ["deploy"]);
  }

  /** The guard refuses, its process dies before the column, and the same delivery offered again is handed to the playbook again. */
  lemma HandedAgain()
    ensures Handed(Run(Start(), [FIRST, Read(0)] + [GuardRefuses(0, Unnamed, ClaimHeld), Die("one"), SECOND]).t, 1, 0, "deploy")
  {
    Arrives();
    Dies();
    SecondRetries();
    assert Reachable(AT_DEPLOY) && AtBook(AT_DEPLOY, 0) && BookOf(AT_DEPLOY, 0) == "deploy" && Lives(AT_DEPLOY, 0);
    RetryAfterCrash(AT_DEPLOY, 0, Unnamed, ClaimHeld, [Die("one")], SECOND);
    RunThree(AT_DEPLOY, GuardRefuses(0, Unnamed, ClaimHeld), Die("one"), SECOND);
    RunAppends(Start(), [FIRST, Read(0)], [GuardRefuses(0, Unnamed, ClaimHeld), Die("one"), SECOND]);
  }

  lemma RunThree(w: World, a: Action, b: Action, c: Action)
    requires Sound(w)
    ensures Sound(Step(w, a)) && Sound(Step(Step(w, a), b))
    ensures Run(w, [a, b, c]) == Step(Step(Step(w, a), b), c)
  {
    StepSound(w, a);
    StepSound(Step(w, a), b);
    StepSound(Step(Step(w, a), b), c);
    assert [a, b, c][1..] == [b, c] && [b, c][1..] == [c];
    assert Run(Step(Step(w, a), b), [c]) == Step(Step(Step(w, a), b), c);
  }
}
