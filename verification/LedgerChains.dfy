/** What every step keeps of deliveries, their hand-offs and the chains they supersede. */
module LedgerChains {
  import opened Common
  import opened Ledger
  import opened LedgerWorld

  // ---- The invariant ----

  ghost predicate IdentityOk(t: Tables, key: Key)
    requires key in t.identities
  {
    var at := t.identities[key];
    at.id < |t.deliveries| && t.deliveries[at.id].key == key && at.acceptedAt == t.deliveries[at.id].receivedAt
  }

  /** An identity points at its newest delivery, and a delivery supersedes only a dropped one of its own identity. */
  ghost predicate DeliveryOk(t: Tables, d: nat)
    requires d < |t.deliveries|
  {
    var row := t.deliveries[d];
    && row.key in t.identities && d <= t.identities[row.key].id
    && (row.supersedes.Some? ==>
          row.supersedes.value < d && t.deliveries[row.supersedes.value].key == row.key
          && t.deliveries[row.supersedes.value].state.DDropped?)
  }

  /** What is dropped is closed: its process is gone and its hand-offs are all final. */
  ghost predicate ClosedOk(w: World, d: nat)
    requires d < |w.t.deliveries|
  {
    var row := w.t.deliveries[d];
    && (row.state.DDropped? ==> row.instance in w.dead && forall p :: p in row.handoffs ==> !Undecided(row.handoffs[p]))
    && (forall p :: p in row.handoffs && row.handoffs[p].Dropped? ==> row.instance in w.dead)
  }

  /** A record that decides names a hand-off that is there, and is not dropped. */
  ghost predicate NamedOk(t: Tables) {
    forall d: nat, p :: Named(t, d, p) ==>
                          d < |t.deliveries| && p in t.deliveries[d].handoffs && !t.deliveries[d].handoffs[p].Dropped?
  }

  /** A superseding delivery was handed only to playbooks none of its chain decided. */
  ghost predicate ChainOk(t: Tables, d: nat)
    requires Linked(t) && d < |t.deliveries|
  {
    var row := t.deliveries[d];
    row.supersedes.Some? ==> forall p :: p in row.handoffs ==> !DecidedInChain(t.deliveries, row.supersedes.value, p)
  }

  /** A living hand-off reads its own rows as they are: nobody else writes them. */
  ghost predicate WorkerOk(w: World, d: nat)
    requires Sound(w) && d < |w.workers|
  {
    var worker := w.workers[d];
    && NoneTwice(worker.loaded)
    && (Lives(w, d) && !worker.stage.Unread? ==>
          worker.states == w.t.deliveries[d].handoffs && worker.pending <= w.t.deliveries[d].handoffs.Keys)
    && (worker.stage.Wrote? ==>
          worker.stage.next < |worker.loaded| && worker.loaded[worker.stage.next] in worker.pending
          && (Decided(worker.stage.state) || worker.stage.state.Waits?))
  }

  ghost predicate WaiterOk(w: World, x: nat)
    requires x < |w.waiters|
  {
    var me := w.waiters[x];
    me.origin.Some? ==>
      me.origin.value < |w.t.deliveries| && w.t.deliveries[me.origin.value].instance == me.instance
      && me.playbook in w.t.deliveries[me.origin.value].handoffs
  }

  ghost predicate RowsOk(t: Tables) {
    && (forall key :: key in t.identities ==> IdentityOk(t, key))
    && (forall d :: 0 <= d < |t.deliveries| ==> DeliveryOk(t, d))
  }

  ghost predicate ChainsOk(t: Tables)
    requires Linked(t)
  {
    forall d :: 0 <= d < |t.deliveries| ==> ChainOk(t, d)
  }

  ghost predicate AllClosed(w: World) {
    forall d :: 0 <= d < |w.t.deliveries| ==> ClosedOk(w, d)
  }

  ghost predicate WorkersOk(w: World)
    requires Sound(w)
  {
    && (forall d :: 0 <= d < |w.workers| ==> WorkerOk(w, d))
    && (forall x :: 0 <= x < |w.waiters| ==> WaiterOk(w, x))
  }

  ghost predicate Inv(w: World) {
    Sound(w) && RowsOk(w.t) && ChainsOk(w.t) && AllClosed(w) && NamedOk(w.t) && WorkersOk(w)
  }

  // ---- What stays, whatever happens ----

  /** A delivery keeps what it was accepted with; once dropped, its state and its hand-offs too. */
  ghost predicate Onward(ds: seq<Delivery>, ds': seq<Delivery>) {
    && |ds| <= |ds'|
    && (forall d :: 0 <= d < |ds| ==> Keeps(ds[d], ds'[d]))
  }

  ghost predicate Keeps(row: Delivery, row': Delivery) {
    && row'.key == row.key && row'.receivedAt == row.receivedAt && row'.instance == row.instance
    && row'.supersedes == row.supersedes && row'.handoffs.Keys == row.handoffs.Keys
    && (row.state.DDropped? ==> row'.state.DDropped? && row'.handoffs == row.handoffs)
  }

  /** What a dropped delivery's chain decided never changes. */
  lemma {:induction false} ChainFrozen(t: Tables, t': Tables, d: nat, p: Playbook)
    requires Linked(t) && Linked(t') && RowsOk(t) && Onward(t.deliveries, t'.deliveries)
    requires d < |t.deliveries| && t.deliveries[d].state.DDropped?
    ensures DecidedInChain(t'.deliveries, d, p) == DecidedInChain(t.deliveries, d, p)
    decreases d
  {
    assert Keeps(t.deliveries[d], t'.deliveries[d]);
    assert DeliveryOk(t, d);
    if t.deliveries[d].supersedes.Some? {
      ChainFrozen(t, t', t.deliveries[d].supersedes.value, p);
    }
  }

  lemma ChainsStay(t: Tables, t': Tables)
    requires Linked(t) && Linked(t') && RowsOk(t) && Onward(t.deliveries, t'.deliveries) && |t'.deliveries| == |t.deliveries|
    requires ChainsOk(t)
    ensures ChainsOk(t')
  {
    forall d | 0 <= d < |t'.deliveries| ensures ChainOk(t', d) {
      ChainStays(t, t', d);
    }
  }

  lemma ChainStays(t: Tables, t': Tables, d: nat)
    requires Linked(t) && Linked(t') && RowsOk(t) && Onward(t.deliveries, t'.deliveries) && d < |t.deliveries|
    requires ChainOk(t, d)
    ensures ChainOk(t', d)
  {
    assert Keeps(t.deliveries[d], t'.deliveries[d]) && DeliveryOk(t, d);
    var row := t'.deliveries[d];
    if row.supersedes.Some? {
      forall p | p in row.handoffs ensures !DecidedInChain(t'.deliveries, row.supersedes.value, p) {
        assert p in t.deliveries[d].handoffs;
        ChainFrozen(t, t', row.supersedes.value, p);
      }
    }
  }

  // ---- Steps that leave deliveries alone ----

  /** The same rows decide hand-offs. */
  ghost predicate SameNames(t: Tables, t': Tables) {
    forall d: nat, p :: Named(t', d, p) ==> Named(t, d, p)
  }

  /** A row that decides a hand-off of a delivery that is not dropped. */
  ghost predicate Decides(t: Tables, t': Tables, e: nat, q: Playbook) {
    && e < |t.deliveries| && q in t.deliveries[e].handoffs && !t.deliveries[e].handoffs[q].Dropped?
    && forall d: nat, p :: Named(t', d, p) ==> Named(t, d, p) || (d == e && p == q)
  }

  lemma AddedRun(t: Tables, run: RunRow)
    ensures forall d: nat, p :: Named(CreateRun(t, run), d, p) ==> Named(t, d, p) || RunNames(run, d, p)
  {
    var t' := CreateRun(t, run);
    forall d: nat, p | Named(t', d, p) ensures Named(t, d, p) || RunNames(run, d, p) {
      if HasRun(t', d, p) {
        var k :| 0 <= k < |t'.runs| && RunNames(t'.runs[k], d, p);
        if k < |t.runs| { assert RunNames(t.runs[k], d, p); }
      }
    }
  }

  lemma AddedRefusal(t: Tables, t': Tables, refusal: RefusalRow)
    requires t'.runs == t.runs && t'.valueRefusals == t.valueRefusals
    requires t'.refusals == t.refusals || t'.refusals == t.refusals + [refusal]
    ensures forall d: nat, p :: Named(t', d, p) ==> Named(t, d, p) || RefusalNames(refusal, d, p)
  {
    forall d: nat, p | Named(t', d, p) ensures Named(t, d, p) || RefusalNames(refusal, d, p) {
      if HasRefusal(t', d, p) {
        var k :| 0 <= k < |t'.refusals| && RefusalNames(t'.refusals[k], d, p);
        if k < |t.refusals| { assert RefusalNames(t.refusals[k], d, p); }
      }
    }
  }

  /** Deliveries, identities and workers as they were; waiters as good as they were. */
  lemma RecordsKeep(w: World, w': World)
    requires Inv(w) && w'.t.deliveries == w.t.deliveries && w'.t.identities == w.t.identities
    requires w'.workers == w.workers && w.dead <= w'.dead
    requires SameNames(w.t, w'.t) || exists d: nat, p :: Decides(w.t, w'.t, d, p)
    requires forall x :: 0 <= x < |w'.waiters| ==> WaiterOk(w', x)
    ensures Inv(w')
  {
    forall key | key in w'.t.identities ensures IdentityOk(w'.t, key) { assert IdentityOk(w.t, key); }
    forall d | 0 <= d < |w'.t.deliveries| ensures DeliveryOk(w'.t, d) { assert DeliveryOk(w.t, d); }
    assert forall d :: 0 <= d < |w.t.deliveries| ==> Keeps(w.t.deliveries[d], w'.t.deliveries[d]);
    ChainsStay(w.t, w'.t);
    forall d | 0 <= d < |w'.t.deliveries| ensures ClosedOk(w', d) { assert ClosedOk(w, d); }
    forall d | 0 <= d < |w'.workers| ensures WorkerOk(w', d) { assert WorkerOk(w, d); }
  }

  lemma WaitersStay(w: World, w': World)
    requires Sound(w) && WorkersOk(w) && w'.t.deliveries == w.t.deliveries
    requires |w'.waiters| == |w.waiters|
    requires forall x :: 0 <= x < |w.waiters| ==> w'.waiters[x] == w.waiters[x].(done := w'.waiters[x].done)
    ensures forall x :: 0 <= x < |w'.waiters| ==> WaiterOk(w', x)
  {
    forall x | 0 <= x < |w'.waiters| ensures WaiterOk(w', x) { assert WaiterOk(w, x); }
  }

  lemma WaiterJoins(w: World, w': World, waiter: Waiter)
    requires Sound(w) && WorkersOk(w) && w'.t.deliveries == w.t.deliveries && w'.waiters == w.waiters + [waiter]
    requires waiter.origin.Some? ==>
               waiter.origin.value < |w.t.deliveries| && w.t.deliveries[waiter.origin.value].instance == waiter.instance
               && waiter.playbook in w.t.deliveries[waiter.origin.value].handoffs
    ensures forall x :: 0 <= x < |w'.waiters| ==> WaiterOk(w', x)
  {
    forall x | 0 <= x < |w'.waiters| ensures WaiterOk(w', x) {
      if x < |w.waiters| { assert WaiterOk(w, x); }
    }
  }

  // ---- One worker's stage, and its hand-off's column ----

  /** A worker moves on over the same deliveries. */
  lemma StageKeeps(w: World, d: nat, worker: Worker)
    requires Inv(w) && d < |w.workers| && WorkerOk(SetWorker(w, d, worker), d)
    ensures Inv(SetWorker(w, d, worker))
  {
    var w' := SetWorker(w, d, worker);
    forall e | 0 <= e < |w'.t.deliveries| ensures ClosedOk(w', e) { assert ClosedOk(w, e); }
    forall e | 0 <= e < |w'.workers| ensures WorkerOk(w', e) {
      if e != d { assert WorkerOk(w, e); }
    }
    forall x | 0 <= x < |w'.waiters| ensures WaiterOk(w', x) { assert WaiterOk(w, x); }
  }

  /** One delivery's columns written, by the process that accepted it. */
  ghost predicate Writes(t: Tables, t': Tables, d: nat, row: Delivery) {
    && d < |t.deliveries| && t' == t.(deliveries := t.deliveries[d := row])
    && row.key == t.deliveries[d].key && row.receivedAt == t.deliveries[d].receivedAt
    && row.instance == t.deliveries[d].instance && row.supersedes == t.deliveries[d].supersedes
    && row.handoffs.Keys == t.deliveries[d].handoffs.Keys
    && forall p :: p in row.handoffs && row.handoffs[p].Dropped? ==> t.deliveries[d].handoffs[p].Dropped?
  }

  lemma WritesRows(t: Tables, t': Tables, d: nat, row: Delivery)
    requires Linked(t) && RowsOk(t) && ChainsOk(t) && NamedOk(t) && Writes(t, t', d, row)
    requires !t.deliveries[d].state.DDropped?
    ensures Linked(t') && RowsOk(t') && ChainsOk(t') && NamedOk(t') && Onward(t.deliveries, t'.deliveries)
  {
    forall key | key in t'.identities ensures IdentityOk(t', key) { assert IdentityOk(t, key); }
    forall e | 0 <= e < |t'.deliveries| ensures DeliveryOk(t', e) { assert DeliveryOk(t, e); }
    assert forall e :: 0 <= e < |t.deliveries| ==> Keeps(t.deliveries[e], t'.deliveries[e]);
    ChainsStay(t, t');
    forall e: nat, p | Named(t', e, p)
      ensures e < |t'.deliveries| && p in t'.deliveries[e].handoffs && !t'.deliveries[e].handoffs[p].Dropped?
    {
      assert Named(t, e, p);
    }
  }

  lemma WriteKeeps(w: World, d: nat, row: Delivery, worker: Worker)
    requires Inv(w) && Lives(w, d) && Writes(w.t, w.t.(deliveries := w.t.deliveries[d := row]), d, row)
    requires !row.state.DDropped?
    requires WorkerOk(w.(t := w.t.(deliveries := w.t.deliveries[d := row]), workers := w.workers[d := worker]), d)
    ensures Inv(w.(t := w.t.(deliveries := w.t.deliveries[d := row]), workers := w.workers[d := worker]))
  {
    var w' := w.(t := w.t.(deliveries := w.t.deliveries[d := row]), workers := w.workers[d := worker]);
    assert ClosedOk(w, d);
    WritesRows(w.t, w'.t, d, row);
    forall e | 0 <= e < |w'.t.deliveries| ensures ClosedOk(w', e) { assert ClosedOk(w, e); }
    forall e | 0 <= e < |w'.workers| ensures WorkerOk(w', e) {
      if e != d { assert WorkerOk(w, e); }
    }
    forall x | 0 <= x < |w'.waiters| ensures WaiterOk(w', x) { assert WaiterOk(w, x); }
  }

  /** A dispatch: a record and a stage at once, and perhaps a waiter. */
  lemma DispatchKeeps(w: World, w': World, d: nat, state: HandOffState)
    requires Inv(w) && Lives(w, d) && AtBook(w, d) && (Decided(state) || state.Waits?)
    requires w'.workers == Dispatched(w, d, state).workers && w'.dead == w.dead
    requires w'.t.deliveries == w.t.deliveries && w'.t.identities == w.t.identities
    requires forall e: nat, p :: Named(w'.t, e, p) ==> Named(w.t, e, p) || (e == d && p == BookOf(w, d))
    requires w'.waiters == w.waiters || w'.waiters == w.waiters + [Waiter(|w.t.waits|, BookOf(w, d), Some(d), w.t.deliveries[d].instance, false)]
    ensures Inv(w')
  {
    assert WorkerOk(w, d) && ClosedOk(w, d);
    var p := BookOf(w, d);
    assert p in w.t.deliveries[d].handoffs && !w.t.deliveries[d].handoffs[p].Dropped?;
    var mid := Dispatched(w, d, state);
    StageKeeps(w, d, mid.workers[d]);
    if w'.waiters == w.waiters {
      WaitersStay(mid, w');
    } else {
      WaiterJoins(mid, w', Waiter(|w.t.waits|, p, Some(d), w.t.deliveries[d].instance, false));
    }
    assert Decides(mid.t, w'.t, d, p);
    RecordsKeep(mid, w');
  }

  lemma DispatchStepKeeps(w: World, a: Action)
    requires Inv(w) && OfDelivery(a) && Lives(w, a.d) && AtBook(w, a.d)
    requires a.RefuseValue? || a.StartRun? || a.GuardRefuses? || a.GuardWaits?
    ensures Inv(HandOffStep(w, a))
  {
    var d, p := a.d, BookOf(w, a.d);
    var w' := HandOffStep(w, a);
    match a
    case RefuseValue(_) =>
      assert forall e: nat, q :: Named(w'.t, e, q) ==> Named(w.t, e, q) || (e == d && q == p);
      DispatchKeeps(w, w', d, Refused);
    case StartRun(_) =>
      AddedRun(w.t, RunRow(p, Some(d), None));
      DispatchKeeps(w, w', d, HandedOff);
    case GuardRefuses(_, written, mechanism) =>
      if !mechanism.ProcessGone? {
        AddedRefusal(w.t, w'.t, RefusalRow(p, NamedBy(d, written.Naming?), None, mechanism));
        DispatchKeeps(w, w', d, Refused);
      }
    case GuardWaits(_, naming) =>
      AddedRefusal(w.t, w'.t, RefusalRow(p, NamedBy(d, naming), None, WaitingSlotFull));
      DispatchKeeps(w, w', d, if Occupant(w.t.waits, p).Some? then Refused else Waits);
  }

  lemma ColumnStepKeeps(w: World, a: Action)
    requires Inv(w) && (a.Write? || a.Finish?) && Lives(w, a.d)
    ensures Inv(HandOffStep(w, a))
  {
    var d := a.d;
    var worker, row := w.workers[d], w.t.deliveries[d];
    assert WorkerOk(w, d) && ClosedOk(w, d);
    if a.Write? && worker.stage.Wrote? {
      var p := worker.loaded[worker.stage.next];
      var row' := row.(handoffs := row.handoffs[p := worker.stage.state]);
      assert row'.handoffs.Keys == row.handoffs.Keys;
      WriteKeeps(w, d, row', worker.(states := worker.states[p := worker.stage.state], stage := At(worker.stage.next + 1)));
    } else if a.Finish? && worker.stage.At? && worker.stage.next >= |worker.loaded| {
      WriteKeeps(w, d, row.(state := SummaryOf(worker.states)), worker.(stage := Finished));
    }
  }

  lemma HandOffStepKeeps(w: World, a: Action)
    requires Inv(w) && OfDelivery(a) && Lives(w, a.d)
    ensures Inv(HandOffStep(w, a))
  {
    var d := a.d;
    assert WorkerOk(w, d);
    if a.Read? {
      if w.workers[d].stage.Unread? { StageKeeps(w, d, HandOffStep(w, a).workers[d]); }
    } else if a.Skip? {
      if HandOffStep(w, a) != w { StageKeeps(w, d, HandOffStep(w, a).workers[d]); }
    } else if a.Write? || a.Finish? {
      ColumnStepKeeps(w, a);
    } else if AtBook(w, d) {
      DispatchStepKeeps(w, a);
    }
  }

  // ---- Reconciling ----

  /** Each hand-off still undecided takes what its records say, or is dropped; nothing else of any delivery moves. */
  function Settled(s: HandOffState, elsewhere: Option<HandOffState>): HandOffState {
    if !Undecided(s) then s else OfRecords(elsewhere)
  }

  function OfRecords(elsewhere: Option<HandOffState>): HandOffState {
    if elsewhere.Some? then elsewhere.value else Dropped
  }

  ghost predicate RowsSettled(t: Tables, t': Tables, d: nat, rows: seq<Playbook>)
    requires d < |t.deliveries|
  {
    var h := t.deliveries[d].handoffs;
    && t'.identities == t.identities && t'.runs == t.runs && t'.valueRefusals == t.valueRefusals
    && |t'.deliveries| == |t.deliveries|
    && (forall e :: 0 <= e < |t.deliveries| && e != d ==> t'.deliveries[e] == t.deliveries[e])
    && t'.deliveries[d] == t.deliveries[d].(handoffs := t'.deliveries[d].handoffs)
    && t'.deliveries[d].handoffs.Keys == h.Keys
    && (forall p :: p in h ==> t'.deliveries[d].handoffs[p] == if p in rows then OfRecords(DecidedElsewhere(t, d, p)) else h[p])
  }

  lemma {:induction false} RowsSettle(t: Tables, d: nat, rows: seq<Playbook>)
    requires d < |t.deliveries| && forall p :: p in rows ==> p in t.deliveries[d].handoffs
    ensures RowsSettled(t, ReconcileRows(t, d, rows), d, rows)
  {
    if rows != [] {
      var front, p := rows[..|rows| - 1], Last(rows);
      assert rows == front + [p];
      RowsSettle(t, d, front);
      SameDecisions(t, d, front, d, p);
      var mid := ReconcileRows(t, d, front);
      DropDecidesNothing(mid, d, p, d, p);
      assert DropWait(mid, d, p).deliveries == mid.deliveries && DropWait(mid, d, p).identities == mid.identities;
    }
  }

  ghost predicate Reconciled(t: Tables, t': Tables, d: nat)
    requires d < |t.deliveries|
  {
    var h := t.deliveries[d].handoffs;
    && t'.identities == t.identities
    && |t'.deliveries| == |t.deliveries|
    && (forall e :: 0 <= e < |t.deliveries| && e != d ==> t'.deliveries[e] == t.deliveries[e])
    && t'.deliveries[d] == t.deliveries[d].(handoffs := t'.deliveries[d].handoffs, state := t'.deliveries[d].state)
    && t'.deliveries[d].handoffs.Keys == h.Keys
    && (forall p :: p in h ==> t'.deliveries[d].handoffs[p] == Settled(h[p], DecidedElsewhere(t, d, p)))
    && (forall e: nat, q :: Named(t', e, q) <==> Named(t, e, q))
  }

  lemma ReconcileSettles(t: Tables, d: nat, rows: seq<Playbook>)
    requires d < |t.deliveries| && RowsOf(t.deliveries[d].handoffs, rows)
    ensures Reconciled(t, ReconcileDelivery(t, d, rows), d)
    ensures ReconcileDelivery(t, d, rows).deliveries[d].state ==
            if exists p :: p in t.deliveries[d].handoffs && Undecided(t.deliveries[d].handoffs[p]) && !Named(t, d, p) then DDropped else DHandedOff
  {
    var pending := UndecidedRows(t.deliveries[d].handoffs, rows);
    var mid, t' := ReconcileRows(t, d, pending), ReconcileDelivery(t, d, rows);
    RowsSettle(t, d, pending);
    forall e: nat, q ensures Named(t', e, q) <==> Named(t, e, q) {
      SameDecisions(t, d, pending, e, q);
      assert HasRefusal(t', e, q) <==> HasRefusal(mid, e, q);
    }
  }

  lemma ReconcileKeeps(w: World, d: nat, rows: seq<Playbook>)
    requires Inv(w) && d < |w.t.deliveries| && RowsOf(w.t.deliveries[d].handoffs, rows)
    requires w.t.deliveries[d].instance in w.dead && !w.t.deliveries[d].state.DDropped?
    ensures Linked(ReconcileDelivery(w.t, d, rows)) && Inv(w.(t := ReconcileDelivery(w.t, d, rows)))
    ensures Onward(w.t.deliveries, ReconcileDelivery(w.t, d, rows).deliveries)
  {
    var t, t' := w.t, ReconcileDelivery(w.t, d, rows);
    var w' := w.(t := t');
    ReconcileSettles(t, d, rows);
    assert forall e :: 0 <= e < |t.deliveries| ==> Keeps(t.deliveries[e], t'.deliveries[e]);
    ReconciledRows(t, t', d);
    forall e | 0 <= e < |t'.deliveries| ensures ClosedOk(w', e) { assert ClosedOk(w, e); }
    forall e | 0 <= e < |w'.workers| ensures WorkerOk(w', e) { assert WorkerOk(w, e); }
    forall x | 0 <= x < |w'.waiters| ensures WaiterOk(w', x) { assert WaiterOk(w, x); }
  }

  lemma ReconciledRows(t: Tables, t': Tables, d: nat)
    requires Linked(t) && RowsOk(t) && ChainsOk(t) && NamedOk(t)
    requires d < |t.deliveries| && !t.deliveries[d].state.DDropped? && Reconciled(t, t', d)
    requires Onward(t.deliveries, t'.deliveries)
    ensures Linked(t') && RowsOk(t') && ChainsOk(t') && NamedOk(t')
  {
    forall e | 0 <= e < |t'.deliveries| && t'.deliveries[e].supersedes.Some? ensures t'.deliveries[e].supersedes.value < e {
      assert DeliveryOk(t, e) && Keeps(t.deliveries[e], t'.deliveries[e]);
    }
    forall key | key in t'.identities ensures IdentityOk(t', key) { assert IdentityOk(t, key); }
    forall e | 0 <= e < |t'.deliveries| ensures DeliveryOk(t', e) { assert DeliveryOk(t, e); }
    ChainsStay(t, t');
    forall e: nat, p | Named(t', e, p)
      ensures e < |t'.deliveries| && p in t'.deliveries[e].handoffs && !t'.deliveries[e].handoffs[p].Dropped?
    {
      assert Named(t, e, p);
      if e == d {
        assert DecidedElsewhere(t, d, p).Some?;
      }
    }
  }

  // ---- Accepting ----

  lemma RepeatKeeps(w: World, id: nat)
    requires Inv(w) && id < |w.t.deliveries|
    ensures Inv(w.(t := CountRepeat(w.t, id))) && Onward(w.t.deliveries, CountRepeat(w.t, id).deliveries)
  {
    var t, t' := w.t, CountRepeat(w.t, id);
    var w' := w.(t := t');
    assert forall e :: 0 <= e < |t.deliveries| ==> Keeps(t.deliveries[e], t'.deliveries[e]);
    forall key | key in t'.identities ensures IdentityOk(t', key) { assert IdentityOk(t, key); }
    forall e | 0 <= e < |t'.deliveries| ensures DeliveryOk(t', e) { assert DeliveryOk(t, e); }
    ChainsStay(t, t');
    RepeatNames(t, id);
    forall e | 0 <= e < |t'.deliveries| ensures ClosedOk(w', e) { assert ClosedOk(w, e); }
    forall e | 0 <= e < |w'.workers| ensures WorkerOk(w', e) { assert WorkerOk(w, e); }
    forall x | 0 <= x < |w'.waiters| ensures WaiterOk(w', x) { assert WaiterOk(w, x); }
  }

  lemma RepeatNames(t: Tables, id: nat)
    requires id < |t.deliveries| && NamedOk(t)
    ensures NamedOk(CountRepeat(t, id))
  {
    var t' := CountRepeat(t, id);
    forall e: nat, p | Named(t', e, p)
      ensures e < |t'.deliveries| && p in t'.deliveries[e].handoffs && !t'.deliveries[e].handoffs[p].Dropped?
    {
      assert Named(t, e, p);
    }
  }

  lemma InsertRows(t: Tables, judged: Tables, params: Params, supersedes: Option<nat>, playbooks: seq<Playbook>)
    requires Linked(judged) && RowsOk(judged) && ChainsOk(judged) && NamedOk(judged)
    requires judged.identities == t.identities
    requires Supersession(t, judged, params, supersedes, playbooks)
    ensures
      var t' := Insert(judged, params, supersedes, playbooks).0;
      Linked(t') && RowsOk(t') && ChainsOk(t') && NamedOk(t') && Onward(judged.deliveries, t'.deliveries)
  {
    var t' := Insert(judged, params, supersedes, playbooks).0;
    var id := |judged.deliveries|;
    assert forall e :: 0 <= e < id ==> Keeps(judged.deliveries[e], t'.deliveries[e]);
    forall key | key in t'.identities ensures IdentityOk(t', key) {
      if key != params.key { assert IdentityOk(judged, key); }
    }
    if supersedes.Some? { assert IdentityOk(judged, params.key); }
    forall e | 0 <= e < |t'.deliveries| ensures DeliveryOk(t', e) {
      if e < id { assert DeliveryOk(judged, e); }
    }
    forall e | 0 <= e < |t'.deliveries| ensures ChainOk(t', e) {
      if e < id {
        assert ChainOk(judged, e);
        ChainStays(judged, t', e);
      } else if supersedes.Some? {
        forall p | p in t'.deliveries[id].handoffs ensures !DecidedInChain(t'.deliveries, supersedes.value, p) {
          ChainFrozen(judged, t', supersedes.value, p);
        }
      }
    }
    InsertNames(judged, params, supersedes, playbooks);
  }

  lemma InsertNames(judged: Tables, params: Params, supersedes: Option<nat>, playbooks: seq<Playbook>)
    requires NamedOk(judged)
    ensures NamedOk(Insert(judged, params, supersedes, playbooks).0)
  {
    var t' := Insert(judged, params, supersedes, playbooks).0;
    forall e: nat, p | Named(t', e, p)
      ensures e < |t'.deliveries| && p in t'.deliveries[e].handoffs && !t'.deliveries[e].handoffs[p].Dropped?
    {
      assert Named(judged, e, p);
    }
  }

  lemma InsertKeeps(w: World, t: Tables, params: Params, supersedes: Option<nat>, playbooks: seq<Playbook>, loaded: seq<Playbook>)
    requires Inv(w) && w.t.identities == t.identities && NoneTwice(loaded)
    requires Supersession(t, w.t, params, supersedes, playbooks)
    ensures Inv(w.(t := Insert(w.t, params, supersedes, playbooks).0, workers := w.workers + [Worker(loaded, {}, map[], Unread)]))
  {
    var w' := w.(t := Insert(w.t, params, supersedes, playbooks).0, workers := w.workers + [Worker(loaded, {}, map[], Unread)]);
    InsertRows(t, w.t, params, supersedes, playbooks);
    forall e | 0 <= e < |w'.t.deliveries| ensures ClosedOk(w', e) {
      if e < |w.t.deliveries| { assert ClosedOk(w, e); }
    }
    forall e | 0 <= e < |w'.workers| ensures WorkerOk(w', e) {
      if e < |w.workers| { assert WorkerOk(w, e); }
    }
    forall x | 0 <= x < |w'.waiters| ensures WaiterOk(w', x) { assert WaiterOk(w, x); }
  }

  /** The log is no part of the invariant. */
  lemma LogAside(w: World, log: seq<Entry>)
    requires Inv(w)
    ensures Inv(w.(log := log))
  {
    var w' := w.(log := log);
    forall e | 0 <= e < |w'.t.deliveries| ensures ClosedOk(w', e) { assert ClosedOk(w, e); }
    forall e | 0 <= e < |w'.workers| ensures WorkerOk(w', e) { assert WorkerOk(w, e); }
    forall x | 0 <= x < |w'.waiters| ensures WaiterOk(w', x) { assert WaiterOk(w, x); }
  }

  lemma JudgedKeeps(w: World, a: Action)
    requires Inv(w) && a.Offer? && OfferOk(w, a)
    ensures Inv(w.(t := Judged(w.t, a.params, a.alive, a.rows)))
    ensures Onward(w.t.deliveries, Judged(w.t, a.params, a.alive, a.rows).deliveries)
    ensures Judged(w.t, a.params, a.alive, a.rows).identities == w.t.identities
  {
    var judged := Judged(w.t, a.params, a.alive, a.rows);
    if judged != w.t {
      var id := w.t.identities[a.params.key].id;
      ReconcileKeeps(w, id, a.rows);
      ReconcileSettles(w.t, id, a.rows);
    } else {
      assert forall e :: 0 <= e < |w.t.deliveries| ==> Keeps(w.t.deliveries[e], w.t.deliveries[e]);
    }
  }

  lemma OfferKeeps(w: World, a: Action)
    requires Inv(w) && a.Offer? && OfferOk(w, a)
    ensures Inv(Offered(w, a))
  {
    var (t', answer) := Accept(w.t, a.params, a.alive, a.rows);
    var judged := Judged(w.t, a.params, a.alive, a.rows);
    JudgedKeeps(w, a);
    AcceptCases(w.t, a.params, a.alive, a.rows);
    match answer
    case Failed =>
    case RepeatOf(id) =>
      RepeatKeeps(w.(t := judged), id);
      LogAside(w.(t := t'), Offered(w, a).log);
    case New(id) =>
      var supersedes, playbooks :| t' == Insert(judged, a.params, supersedes, playbooks).0
                                   && Supersession(w.t, judged, a.params, supersedes, playbooks);
      InsertKeeps(w.(t := judged), w.t, a.params, supersedes, playbooks, a.loaded);
      LogAside(w.(t := t', workers := w.workers + [Worker(a.loaded, {}, map[], Unread)]), Offered(w, a).log);
  }

  // ---- Every other step ----

  lemma WaiterRunsKeeps(w: World, x: nat)
    requires Inv(w) && StillWaits(w, x)
    ensures Inv(Step(w, WaiterRuns(x)))
  {
    var w', me := Step(w, WaiterRuns(x)), w.waiters[x];
    var run := RunRow(me.playbook, me.origin, Some(me.wait));
    WaitersStay(w, w');
    AddedRun(w.t, run);
    assert WaiterOk(w, x);
    if me.origin.Some? {
      assert ClosedOk(w, me.origin.value);
      assert Decides(w.t, w'.t, me.origin.value, me.playbook);
    } else {
      assert SameNames(w.t, w'.t);
    }
    RecordsKeep(w, w');
  }

  lemma WaiterRefusedKeeps(w: World, x: nat, mechanism: Mechanism, naming: bool)
    requires Inv(w) && StillWaits(w, x) && !mechanism.ProcessGone?
    ensures Inv(Step(w, WaiterRefused(x, mechanism, naming)))
  {
    var w', me := Step(w, WaiterRefused(x, mechanism, naming)), w.waiters[x];
    WaitersStay(w, w');
    AddedRefusal(w.t, w'.t, RefusalRow(me.playbook, if naming then me.origin else None, Some(me.wait), mechanism));
    assert WaiterOk(w, x);
    if naming && me.origin.Some? {
      assert ClosedOk(w, me.origin.value);
      assert Decides(w.t, w'.t, me.origin.value, me.playbook);
    } else {
      assert SameNames(w.t, w'.t);
    }
    RecordsKeep(w, w');
  }

  /** Steps of triggers no delivery brought, of reconcilers and of death. */
  lemma AsideKeeps(w: World, a: Action)
    requires Inv(w)
    requires a.Trigger? || a.Refuse? || a.TriggerWaits? || a.WaiterLeaves? || a.Reap? || a.Die?
    ensures Inv(Step(w, a))
  {
    var w' := Step(w, a);
    match a {
    case Trigger(p) => AddedRun(w.t, RunRow(p, None, None));
    case Refuse(p, mechanism) => AddedRefusal(w.t, w'.t, RefusalRow(p, None, None, mechanism));
    case TriggerWaits(p, _) => AddedRefusal(w.t, w'.t, RefusalRow(p, None, None, WaitingSlotFull));
    case Reap(k) => AddedRefusal(w.t, w'.t, RefusalRow(if k < |w.t.waits| then w.t.waits[k].playbook else "", None, Some(k), ProcessGone));
    case _ => AddedRefusal(w.t, w'.t, RefusalRow("", None, None, ProcessGone));
    }
    assert SameNames(w.t, w'.t);
    if a.TriggerWaits? && |w'.waiters| > |w.waiters| {
      WaiterJoins(w, w', w'.waiters[|w.waiters|]);
    } else {
      WaitersStay(w, w');
    }
    RecordsKeep(w, w');
  }

  lemma StepKeeps(w: World, a: Action)
    requires Inv(w)
    ensures Inv(Step(w, a))
  {
    if a.Offer? {
      if OfferOk(w, a) { OfferKeeps(w, a); }
    } else if a.WaiterRuns? {
      if StillWaits(w, a.x) { WaiterRunsKeeps(w, a.x); }
    } else if a.WaiterRefused? {
      if StillWaits(w, a.x) && !a.mechanism.ProcessGone? { WaiterRefusedKeeps(w, a.x, a.mechanism, a.naming); }
    } else if OfDelivery(a) {
      if Lives(w, a.d) { HandOffStepKeeps(w, a); }
    } else {
      AsideKeeps(w, a);
    }
  }

  lemma {:induction false} RunKeeps(w: World, actions: seq<Action>)
    requires Inv(w)
    ensures Inv(Run(w, actions))
    decreases |actions|
  {
    if actions != [] {
      StepKeeps(w, actions[0]);
      RunKeeps(Step(w, actions[0]), actions[1..]);
    }
  }

  lemma ReachableInv(w: World)
    requires Reachable(w)
    ensures Inv(w)
  {
    var actions: seq<Action> :| w == Run(Start(), actions);
    RunKeeps(Start(), actions);
  }
}
