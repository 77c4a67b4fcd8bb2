/** What the delivery ledger promises over every run, crashes included. */
module LedgerTheorems {
  import opened Common
  import opened Ledger
  import opened LedgerWorld
  import opened LedgerChains

  // ---- One run a hand-off ----

  function RunsNaming(runs: seq<RunRow>, d: nat, p: Playbook): nat {
    if runs == [] then 0 else RunsNaming(runs[..|runs| - 1], d, p) + if RunNames(Last(runs), d, p) then 1 else 0
  }

  predicate WaitsOn(me: Waiter, d: nat, p: Playbook) {
    me.origin == Some(d) && me.playbook == p && !me.done
  }

  function WaitersOn(waiters: seq<Waiter>, d: nat, p: Playbook): nat {
    if waiters == [] then 0 else WaitersOn(waiters[..|waiters| - 1], d, p) + if WaitsOn(Last(waiters), d, p) then 1 else 0
  }

  /** The hand-off's loop has not dispatched the playbook yet. */
  predicate ToDo(worker: Worker, p: Playbook) {
    match worker.stage
    case Unread => true
    case At(next) => next < |worker.loaded| && p in worker.loaded[next..]
    case Wrote(next, _) => next < |worker.loaded| && p in worker.loaded[next + 1..]
    case Finished => false
  }

  /** The chances a playbook has had, has, or will have to run for one delivery. */
  function Chances(w: World, d: nat, p: Playbook): nat
    requires d < |w.workers|
  {
    RunsNaming(w.t.runs, d, p) + WaitersOn(w.waiters, d, p) + if ToDo(w.workers[d], p) then 1 else 0
  }

  lemma AppendRunNaming(runs: seq<RunRow>, run: RunRow, d: nat, p: Playbook)
    ensures RunsNaming(runs + [run], d, p) == RunsNaming(runs, d, p) + if RunNames(run, d, p) then 1 else 0
  {
    assert (runs + [run])[..|runs|] == runs;
  }

  lemma AppendWaiter(waiters: seq<Waiter>, me: Waiter, d: nat, p: Playbook)
    ensures WaitersOn(waiters + [me], d, p) == WaitersOn(waiters, d, p) + if WaitsOn(me, d, p) then 1 else 0
  {
    assert (waiters + [me])[..|waiters|] == waiters;
  }

  lemma {:induction false} WaiterDone(waiters: seq<Waiter>, x: nat, d: nat, p: Playbook)
    requires x < |waiters|
    ensures WaitersOn(waiters[x := waiters[x].(done := true)], d, p) == WaitersOn(waiters, d, p) - if WaitsOn(waiters[x], d, p) then 1 else 0
  {
    var after := waiters[x := waiters[x].(done := true)];
    var front := waiters[..|waiters| - 1];
    if x < |front| {
      WaiterDone(front, x, d, p);
      assert after[..|after| - 1] == front[x := front[x].(done := true)];
    } else {
      assert after[..|after| - 1] == front;
    }
  }

  /** A dispatch uses up the one chance the loop had left for its playbook. */
  lemma DispatchChances(w: World, w': World, d: nat, state: HandOffState, e: nat, p: Playbook)
    requires Sound(w) && e < |w.workers| && AtBook(w, d) && NoneTwice(w.workers[d].loaded)
    requires w'.workers == Dispatched(w, d, state).workers
    requires
      || (w'.t.runs == w.t.runs && w'.waiters == w.waiters)
      || (w'.t.runs == w.t.runs + [RunRow(BookOf(w, d), Some(d), None)] && w'.waiters == w.waiters)
      || (w'.t.runs == w.t.runs && w'.waiters == w.waiters + [Waiter(|w.t.waits|, BookOf(w, d), Some(d), w.t.deliveries[d].instance, false)])
    ensures Chances(w', e, p) <= Chances(w, e, p)
  {
    var n, loaded := w.workers[d].stage.next, w.workers[d].loaded;
    assert loaded[n..] == [loaded[n]] + loaded[n + 1..];
    AppendRunNaming(w.t.runs, RunRow(BookOf(w, d), Some(d), None), e, p);
    AppendWaiter(w.waiters, Waiter(|w.t.waits|, BookOf(w, d), Some(d), w.t.deliveries[d].instance, false), e, p);
  }

  lemma HandOffStepChances(w: World, a: Action, e: nat, p: Playbook)
    requires Inv(w) && OfDelivery(a) && Lives(w, a.d) && e < |w.workers|
    ensures Chances(HandOffStep(w, a), e, p) <= Chances(w, e, p)
  {
    var d := a.d;
    assert WorkerOk(w, d);
    var w' := HandOffStep(w, a);
    if AtBook(w, d) && (a.RefuseValue? || a.StartRun? || a.GuardRefuses? || a.GuardWaits?) {
      if w' != w {
        DispatchChances(w, w', d, w'.workers[d].stage.state, e, p);
      }
    } else if w' != w {
      var worker := w.workers[d];
      assert worker.stage.Wrote? ==> worker.loaded[worker.stage.next + 1..] == worker.loaded[worker.stage.next..][1..];
      assert worker.stage.At? && worker.stage.next < |worker.loaded| ==>
          worker.loaded[worker.stage.next..] == [worker.loaded[worker.stage.next]] + worker.loaded[worker.stage.next + 1..];
    }
  }

  lemma JudgedRuns(w: World, a: Action)
    requires Inv(w) && a.Offer? && OfferOk(w, a)
    ensures Offered(w, a).t.runs == w.t.runs && Offered(w, a).waiters == w.waiters
    ensures w.workers <= Offered(w, a).workers
  {
    var judged := Judged(w.t, a.params, a.alive, a.rows);
    AcceptCases(w.t, a.params, a.alive, a.rows);
    if judged != w.t {
      var id := w.t.identities[a.params.key].id;
      SameDecisions(w.t, id, UndecidedRows(w.t.deliveries[id].handoffs, a.rows), 0, "");
    }
  }

  /** A waiter that becomes a run has used its chance; one that ends otherwise has given it up. */
  lemma WaiterChances(w: World, a: Action, e: nat, p: Playbook)
    requires Sound(w) && e < |w.workers|
    requires (a.WaiterRuns? || a.WaiterRefused? || a.WaiterLeaves?) && StillWaits(w, a.x)
    ensures e < |Step(w, a).workers| && Chances(Step(w, a), e, p) <= Chances(w, e, p)
  {
    WaiterDone(w.waiters, a.x, e, p);
    if a.WaiterRuns? {
      AppendRunNaming(w.t.runs, RunRow(w.waiters[a.x].playbook, w.waiters[a.x].origin, Some(w.waiters[a.x].wait)), e, p);
    }
  }

  lemma AsideChances(w: World, a: Action, e: nat, p: Playbook)
    requires Sound(w) && e < |w.workers|
    requires a.Trigger? || a.Refuse? || a.TriggerWaits? || a.Reap? || a.Die?
    ensures e < |Step(w, a).workers| && Chances(Step(w, a), e, p) == Chances(w, e, p)
  {
    if a.Trigger? {
      AppendRunNaming(w.t.runs, RunRow(a.p, None, None), e, p);
    } else if a.TriggerWaits? {
      AppendWaiter(w.waiters, Waiter(|w.t.waits|, a.p, None, a.instance, false), e, p);
    }
  }

  /** No step gives a delivery's playbook another chance. */
  lemma StepChances(w: World, a: Action, e: nat, p: Playbook)
    requires Inv(w) && e < |w.workers|
    ensures e < |Step(w, a).workers| && Chances(Step(w, a), e, p) <= Chances(w, e, p)
  {
    if a.Offer? {
      if OfferOk(w, a) { JudgedRuns(w, a); }
    } else if OfDelivery(a) {
      if Lives(w, a.d) { HandOffStepChances(w, a, e, p); }
    } else if a.WaiterRuns? || a.WaiterRefused? || a.WaiterLeaves? {
      if StillWaits(w, a.x) { WaiterChances(w, a, e, p); }
    } else {
      AsideChances(w, a, e, p);
    }
  }

  ghost predicate OneChance(w: World)
    requires Sound(w)
  {
    forall d, p :: 0 <= d < |w.workers| ==> Chances(w, d, p) <= 1
  }

  lemma {:induction false} NothingNames(w: World, runs: seq<RunRow>, waiters: seq<Waiter>, d: nat, p: Playbook)
    requires forall r :: 0 <= r < |runs| ==> !RunNames(runs[r], d, p)
    requires forall x :: 0 <= x < |waiters| ==> waiters[x].origin != Some(d)
    ensures RunsNaming(runs, d, p) == 0 && WaitersOn(waiters, d, p) == 0
    decreases |runs| + |waiters|
  {
    if runs != [] {
      NothingNames(w, runs[..|runs| - 1], waiters, d, p);
    } else if waiters != [] {
      NothingNames(w, runs, waiters[..|waiters| - 1], d, p);
    }
  }

  lemma StepOneChance(w: World, a: Action)
    requires Inv(w) && OneChance(w)
    ensures Sound(Step(w, a)) && OneChance(Step(w, a))
  {
    StepSound(w, a);
    StepKeeps(w, a);
    var w' := Step(w, a);
    forall d, p | 0 <= d < |w'.workers| ensures Chances(w', d, p) <= 1 {
      if d < |w.workers| {
        StepChances(w, a, d, p);
      } else {
        FreshChance(w, a, d, p);
      }
    }
  }

  lemma RunsKnown(w: World, r: nat, d: nat, p: Playbook)
    requires Inv(w) && r < |w.t.runs| && RunNames(w.t.runs[r], d, p)
    ensures d < |w.t.deliveries|
  {
    assert Named(w.t, d, p);
  }

  /** Nothing names a delivery before it is there. */
  lemma FreshChance(w: World, a: Action, d: nat, p: Playbook)
    requires Inv(w) && |w.workers| <= d < |Step(w, a).workers|
    ensures Chances(Step(w, a), d, p) <= 1
  {
    JudgedRuns(w, a);
    forall r | 0 <= r < |w.t.runs| ensures !RunNames(w.t.runs[r], d, p) {
      if RunNames(w.t.runs[r], d, p) {
        RunsKnown(w, r, d, p);
      }
    }
    forall x | 0 <= x < |w.waiters| ensures w.waiters[x].origin != Some(d) {
      assert WaiterOk(w, x);
    }
    NothingNames(w, w.t.runs, w.waiters, d, p);
  }

  lemma {:induction false} RunOneChance(w: World, actions: seq<Action>)
    requires Inv(w) && OneChance(w)
    ensures OneChance(Run(w, actions))
    decreases |actions|
  {
    if actions != [] {
      StepKeeps(w, actions[0]);
      StepOneChance(w, actions[0]);
      RunOneChance(Step(w, actions[0]), actions[1..]);
    }
  }

  lemma {:induction false} TwoRunsCount(runs: seq<RunRow>, i: nat, j: nat, d: nat, p: Playbook)
    requires i < j < |runs| && RunNames(runs[i], d, p) && RunNames(runs[j], d, p)
    ensures RunsNaming(runs, d, p) >= 2
  {
    if j < |runs| - 1 {
      TwoRunsCount(runs[..|runs| - 1], i, j, d, p);
    } else {
      OneRunCounts(runs[..|runs| - 1], i, d, p);
    }
  }

  lemma {:induction false} OneRunCounts(runs: seq<RunRow>, i: nat, d: nat, p: Playbook)
    requires i < |runs| && RunNames(runs[i], d, p)
    ensures RunsNaming(runs, d, p) >= 1
  {
    if i < |runs| - 1 {
      OneRunCounts(runs[..|runs| - 1], i, d, p);
    }
  }

  /** A delivery's playbook has at most one run, crashes and waits included. */
  lemma OneRunEach(w: World, i: nat, j: nat, d: nat, p: Playbook)
    requires Reachable(w) && i < |w.t.runs| && j < |w.t.runs|
    requires RunNames(w.t.runs[i], d, p) && RunNames(w.t.runs[j], d, p)
    ensures i == j
  {
    var actions: seq<Action> :| w == Run(Start(), actions);
    RunKeeps(Start(), actions);
    RunOneChance(Start(), actions);
    assert Named(w.t, d, p);
    assert Chances(w, d, p) <= 1;
    if i < j { TwoRunsCount(w.t.runs, i, j, d, p); }
    if j < i { TwoRunsCount(w.t.runs, j, i, d, p); }
  }

  // ---- At most once along a chain ----

  /** `a` is one of the deliveries `d` supersedes, at any remove. */
  predicate Ancestor(t: Tables, a: nat, d: nat)
    requires forall e :: 0 <= e < |t.deliveries| && t.deliveries[e].supersedes.Some? ==> t.deliveries[e].supersedes.value < e
    requires d < |t.deliveries|
    decreases d
  {
    && t.deliveries[d].supersedes.Some?
    && (t.deliveries[d].supersedes.value == a || Ancestor(t, a, t.deliveries[d].supersedes.value))
  }

  lemma {:induction false} AncestorDecides(t: Tables, a: nat, d: nat, p: Playbook)
    requires Linked(t) && RowsOk(t) && d < |t.deliveries| && Ancestor(t, a, d)
    ensures a < d && t.deliveries[a].state.DDropped? && t.deliveries[a].key == t.deliveries[d].key
    ensures p in t.deliveries[a].handoffs && Decided(t.deliveries[a].handoffs[p]) ==>
              DecidedInChain(t.deliveries, t.deliveries[d].supersedes.value, p)
    decreases d
  {
    assert DeliveryOk(t, d);
    var s := t.deliveries[d].supersedes.value;
    if s != a {
      AncestorDecides(t, a, s, p);
    }
  }

  /** What a delivery is handed to, none of those it supersedes decided, by its column or by any record naming it. */
  lemma ChainOnce(w: World, a: nat, d: nat, p: Playbook)
    requires Reachable(w) && Linked(w.t) && d < |w.t.deliveries| && Ancestor(w.t, a, d)
    requires p in w.t.deliveries[d].handoffs
    ensures a < d && (p in w.t.deliveries[a].handoffs ==> w.t.deliveries[a].handoffs[p].Dropped?)
    ensures !Named(w.t, a, p)
  {
    ReachableInv(w);
    AncestorDecides(w.t, a, d, p);
    assert ChainOk(w.t, d) && ClosedOk(w, a);
  }

  /** Along a chain, each playbook has at most one decided hand-off. */
  lemma OneDecision(w: World, a: nat, d: nat, p: Playbook)
    requires Reachable(w) && Linked(w.t) && d < |w.t.deliveries| && (a == d || Ancestor(w.t, a, d)) && a < |w.t.deliveries|
    requires p in w.t.deliveries[a].handoffs && Decided(w.t.deliveries[a].handoffs[p])
    requires p in w.t.deliveries[d].handoffs && Decided(w.t.deliveries[d].handoffs[p])
    ensures a == d
  {
    if a != d {
      ChainOnce(w, a, d, p);
    }
  }

  /** Along a chain, each playbook has at most one run. */
  lemma OneRun(w: World, i: nat, j: nat, a: nat, d: nat, p: Playbook)
    requires Reachable(w) && Linked(w.t) && d < |w.t.deliveries| && (a == d || Ancestor(w.t, a, d))
    requires i < |w.t.runs| && j < |w.t.runs| && RunNames(w.t.runs[i], a, p) && RunNames(w.t.runs[j], d, p)
    ensures i == j && a == d
  {
    ReachableInv(w);
    assert Named(w.t, a, p) && Named(w.t, d, p);
    if a != d {
      ChainOnce(w, a, d, p);
    }
    OneRunEach(w, i, j, d, p);
  }

  /** A delivery that supersedes another is handed to exactly the bound playbooks nothing in that chain decided. */
  lemma RetryHandedTo(w: World, a: Action, p: Playbook)
    requires Reachable(w) && Sound(w) && a.Offer? && OfferOk(w, a)
    requires |Offered(w, a).t.deliveries| > |w.t.deliveries| && Offered(w, a).t.deliveries[|w.t.deliveries|].supersedes.Some?
    ensures
      var t', d := Offered(w, a).t, |w.t.deliveries|;
      && Linked(t')
      && (p in t'.deliveries[d].handoffs <==>
           p in a.params.playbooks && !DecidedInChain(t'.deliveries, t'.deliveries[d].supersedes.value, p))
  {
    ReachableInv(w);
    JudgedKeeps(w, a);
    OfferKeeps(w, a);
    AcceptCases(w.t, a.params, a.alive, a.rows);
    var judged, t', d := Judged(w.t, a.params, a.alive, a.rows), Offered(w, a).t, |w.t.deliveries|;
    var supersedes, playbooks :| t' == Insert(judged, a.params, supersedes, playbooks).0
                                 && Supersession(w.t, judged, a.params, supersedes, playbooks);
    InsertRows(w.t, judged, a.params, supersedes, playbooks);
    ChainFrozen(judged, t', supersedes.value, p);
  }

  /** A living hand-off that finishes leaves its delivery's state summing up its hand-offs, none of them dropped. */
  lemma FinishSumsUp(w: World, d: nat)
    requires Reachable(w) && Sound(w) && Lives(w, d) && w.workers[d].stage.At? && w.workers[d].stage.next >= |w.workers[d].loaded|
    ensures
      var t := Step(w, Finish(d)).t;
      Summary(t.deliveries[d].handoffs, t.deliveries[d].state) && !t.deliveries[d].state.DDropped?
  {
    ReachableInv(w);
    assert WorkerOk(w, d) && ClosedOk(w, d);
  }
}
