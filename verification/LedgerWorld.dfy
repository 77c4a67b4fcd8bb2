/**
 * Any number of processes over one record store: acceptances, hand-offs, waits and their ends,
 * each transaction one step, and a process may die between any two of its steps. What the
 * dispatcher does with a playbook is one of the things a dispatcher may do: record a refusal,
 * record the run that starts, or accept the trigger to wait.
 */
module LedgerWorld {
  import opened Common
  import opened Ledger

  /** Where a hand-off's loop is: not begun, at a playbook, with a decision not yet written, or done. */
  datatype Stage = Unread | At(next: nat) | Wrote(next: nat, state: HandOffState) | Finished

  /** The variables of the one hand-off a new delivery gets, in the process that accepted it. */
  datatype Worker = Worker(loaded: seq<Playbook>, pending: set<Playbook>, states: map<Playbook, HandOffState>, stage: Stage)

  /** A waiting trigger as its own process holds it, and the hand-off it came from. */
  datatype Waiter = Waiter(wait: nat, playbook: Playbook, origin: Option<nat>, instance: Instance, done: bool)

  /** One successful acceptance. */
  datatype Entry = Entry(key: Key, receivedAt: int, window: int, id: nat, isNew: bool)

  /** `workers` holds one hand-off for each delivery. */
  datatype World = World(t: Tables, dead: set<Instance>, workers: seq<Worker>, waiters: seq<Waiter>, log: seq<Entry>)

  /** What the guard wrote of a refusal: a row naming the delivery or not, or no row. */
  datatype Written = Nothing | Unnamed | Naming

  datatype Action =
    | Offer(params: Params, alive: bool, rows: seq<Playbook>, loaded: seq<Playbook>)
    | Read(d: nat)
    | Skip(d: nat)
    | RefuseValue(d: nat)
    | StartRun(d: nat)
    | GuardRefuses(d: nat, written: Written, mechanism: Mechanism)
    | GuardWaits(d: nat, naming: bool)
    | Write(d: nat)
    | Finish(d: nat)
    | Trigger(p: Playbook)
    | Refuse(p: Playbook, mechanism: Mechanism)
    | TriggerWaits(p: Playbook, instance: Instance)
    | WaiterRuns(x: nat)
    | WaiterRefused(x: nat, mechanism: Mechanism, naming: bool)
    | WaiterLeaves(x: nat)
    | Reap(w: nat)
    | Die(instance: Instance)

  function Start(): World { World(Blank(), {}, [], [], []) }

  predicate Sound(w: World) {
    Linked(w.t) && |w.workers| == |w.t.deliveries|
  }

  predicate OfDelivery(a: Action) {
    a.Read? || a.Skip? || a.RefuseValue? || a.StartRun? || a.GuardRefuses? || a.GuardWaits? || a.Write? || a.Finish?
  }

  /** Everyone else's steps: none of this delivery's hand-off, though its process may die among them. */
  predicate Others(actions: seq<Action>, d: nat) {
    forall k :: 0 <= k < |actions| ==> !(OfDelivery(actions[k]) && actions[k].d == d)
  }

  /** The process that accepted a delivery still lives. */
  predicate Lives(w: World, d: nat) {
    d < |w.t.deliveries| && w.t.deliveries[d].instance !in w.dead
  }

  function SetWorker(w: World, d: nat, worker: Worker): World
    requires d < |w.workers|
  {
    w.(workers := w.workers[d := worker])
  }

  /** The playbook a hand-off is at, still to be dispatched. */
  predicate AtBook(w: World, d: nat) {
    && d < |w.workers| && w.workers[d].stage.At?
    && w.workers[d].stage.next < |w.workers[d].loaded|
    && w.workers[d].loaded[w.workers[d].stage.next] in w.workers[d].pending
  }

  function BookOf(w: World, d: nat): Playbook
    requires AtBook(w, d)
  {
    w.workers[d].loaded[w.workers[d].stage.next]
  }

  /** The dispatch has written its record, and holds the state to write beside the hand-off. */
  function Dispatched(w: World, d: nat, state: HandOffState): World
    requires AtBook(w, d)
  {
    SetWorker(w, d, w.workers[d].(stage := Wrote(w.workers[d].stage.next, state)))
  }

  function PendingIn(handoffs: map<Playbook, HandOffState>): set<Playbook> {
    set p | p in handoffs && handoffs[p].Pending?
  }

  function NamedBy(d: nat, naming: bool): Option<nat> {
    if naming then Some(d) else None
  }

  /** What a delivery's state is summed up as. */
  function SummaryOf(states: map<Playbook, HandOffState>): (s: DeliveryState)
    ensures Summary(states, s)
  {
    if states == map[] then DUnbound
    else if exists p :: p in states && states[p].Dropped? then DDropped
    else if exists p :: p in states && Undecided(states[p]) then DWaiting
    else DHandedOff
  }

  /** The liveness oracle never calls a living process dead; the rows are those of the delivery judged. */
  predicate OfferOk(w: World, a: Action)
    requires a.Offer?
  {
    && a.params.instance !in w.dead && NoneTwice(a.loaded)
    && (a.params.key in w.t.identities ==>
          && w.t.identities[a.params.key].id < |w.t.deliveries|
          && RowsOf(w.t.deliveries[w.t.identities[a.params.key].id].handoffs, a.rows)
          && (!a.alive ==> w.t.deliveries[w.t.identities[a.params.key].id].instance in w.dead))
  }

  function Offered(w: World, a: Action): World
    requires Sound(w) && a.Offer? && OfferOk(w, a)
  {
    var (t, answer) := Accept(w.t, a.params, a.alive, a.rows);
    match answer
    case Failed => w
    case RepeatOf(id) => w.(t := t, log := w.log + [Entry(a.params.key, a.params.receivedAt, a.params.window, id, false)])
    case New(id) =>
      w.(t := t, workers := w.workers + [Worker(a.loaded, {}, map[], Unread)],
      log := w.log + [Entry(a.params.key, a.params.receivedAt, a.params.window, id, true)])
  }

  /** One step of the hand-off of a delivery. */
  function HandOffStep(w: World, a: Action): World
    requires Sound(w) && OfDelivery(a) && Lives(w, a.d)
  {
    var d := a.d;
    var worker := w.workers[d];
    match a
    case Read(_) =>
      if !worker.stage.Unread? then w
      else
        var handoffs := w.t.deliveries[d].handoffs;
        SetWorker(w, d, worker.(pending := PendingIn(handoffs), states := handoffs, stage := At(0)))
    case Skip(_) =>
      if worker.stage.At? && worker.stage.next < |worker.loaded| && !AtBook(w, d)
      then SetWorker(w, d, worker.(stage := At(worker.stage.next + 1))) else w
    case RefuseValue(_) =>
      if !AtBook(w, d) then w
      else Dispatched(w, d, Refused).(t := w.t.(valueRefusals := w.t.valueRefusals + [ValueRefusal(BookOf(w, d), d)]))
    case StartRun(_) =>
      if !AtBook(w, d) then w
      else Dispatched(w, d, HandedOff).(t := CreateRun(w.t, RunRow(BookOf(w, d), Some(d), None)))
    case GuardRefuses(_, written, mechanism) =>
      if !AtBook(w, d) || mechanism.ProcessGone? then w
      else if written.Nothing? then Dispatched(w, d, Refused)
      else Dispatched(w, d, Refused).(t := w.t.(refusals := w.t.refusals + [RefusalRow(BookOf(w, d), NamedBy(d, written.Naming?), None, mechanism)]))
    case GuardWaits(_, naming) =>
      if !AtBook(w, d) then w
      else
        var p := BookOf(w, d);
        if Occupant(w.t.waits, p).Some? then
          Dispatched(w, d, Refused).(t := w.t.(refusals := w.t.refusals + [RefusalRow(p, NamedBy(d, naming), None, WaitingSlotFull)]))
        else
          var instance := w.t.deliveries[d].instance;
          Dispatched(w, d, Waits).(
          t := AcceptWait(w.t, WaitRow(p, NamedBy(d, naming), instance, Waiting)),
          waiters := w.waiters + [Waiter(|w.t.waits|, p, Some(d), instance, false)])
    case Write(_) =>
      if !worker.stage.Wrote? || worker.stage.next >= |worker.loaded| then w
      else
        var p := worker.loaded[worker.stage.next];
        SetWorker(w, d, worker.(states := worker.states[p := worker.stage.state], stage := At(worker.stage.next + 1))).(
        t := SetHandOff(w.t, d, p, worker.stage.state))
    case Finish(_) =>
      if !worker.stage.At? || worker.stage.next < |worker.loaded| then w
      else SetWorker(w, d, worker.(stage := Finished)).(t := SetState(w.t, d, SummaryOf(worker.states)))
  }

  /** A waiter of a living process that has not ended. */
  predicate StillWaits(w: World, x: nat) {
    x < |w.waiters| && !w.waiters[x].done && w.waiters[x].instance !in w.dead
  }

  function Done(w: World, x: nat): World
    requires x < |w.waiters|
  {
    w.(waiters := w.waiters[x := w.waiters[x].(done := true)])
  }

  function Step(w: World, a: Action): World
    requires Sound(w)
  {
    match a
    case Offer(_, _, _, _) => if OfferOk(w, a) then Offered(w, a) else w
    case Trigger(p) => w.(t := CreateRun(w.t, RunRow(p, None, None)))
    case Refuse(p, mechanism) =>
      if mechanism.ProcessGone? then w else w.(t := w.t.(refusals := w.t.refusals + [RefusalRow(p, None, None, mechanism)]))
    case TriggerWaits(p, instance) =>
      if instance in w.dead then w
      else if Occupant(w.t.waits, p).Some? then
        w.(t := w.t.(refusals := w.t.refusals + [RefusalRow(p, None, None, WaitingSlotFull)]))
      else
        w.(t := AcceptWait(w.t, WaitRow(p, None, instance, Waiting)),
        waiters := w.waiters + [Waiter(|w.t.waits|, p, None, instance, false)])
    case WaiterRuns(x) =>
      if !StillWaits(w, x) then w
      else Done(w, x).(t := CreateRun(w.t, RunRow(w.waiters[x].playbook, w.waiters[x].origin, Some(w.waiters[x].wait))))
    case WaiterRefused(x, mechanism, naming) =>
      if !StillWaits(w, x) || mechanism.ProcessGone? then w
      else
        var me := w.waiters[x];
        var refusal := RefusalRow(me.playbook, if naming then me.origin else None, Some(me.wait), mechanism);
        Done(w, x).(t := EndWait(w.t, me.wait, refusal))
    case WaiterLeaves(x) => if StillWaits(w, x) then Done(w, x) else w
    case Reap(k) =>
      if k < |w.t.waits| && w.t.waits[k].instance in w.dead
      then w.(t := EndWait(w.t, k, RefusalRow(w.t.waits[k].playbook, None, Some(k), ProcessGone)))
      else w
    case Die(instance) => w.(dead := w.dead + {instance})
    case _ => if Lives(w, a.d) then HandOffStep(w, a) else w
  }

  // ---- The step functions keep rows linked ----

  lemma AcceptLinks(t: Tables, params: Params, alive: bool, rows: seq<Playbook>)
    requires Linked(t)
    requires params.key in t.identities ==> RowsOf(t.deliveries[t.identities[params.key].id].handoffs, rows)
    ensures
      var (t', answer) := Accept(t, params, alive, rows);
      && Linked(t')
      && |t'.deliveries| == |t.deliveries| + (if answer.New? then 1 else 0)
      && (answer.New? ==> answer.id == |t.deliveries|)
      && (answer.RepeatOf? ==> params.key in t.identities && answer.id == t.identities[params.key].id)
  {
    if params.key in t.identities {
      JudgeLinks(t, t.identities[params.key].id, params, alive, rows);
    }
  }

  lemma HandOffStepSound(w: World, a: Action)
    requires Sound(w) && OfDelivery(a) && Lives(w, a.d)
    ensures Sound(HandOffStep(w, a))
  {}

  lemma StepSound(w: World, a: Action)
    requires Sound(w)
    ensures Sound(Step(w, a))
  {
    if a.Offer? && OfferOk(w, a) {
      AcceptLinks(w.t, a.params, a.alive, a.rows);
    } else if OfDelivery(a) && Lives(w, a.d) {
      HandOffStepSound(w, a);
    }
  }

  function Run(w: World, actions: seq<Action>): (r: World)
    requires Sound(w)
    ensures Sound(r)
    decreases |actions|
  {
    if actions == [] then w else StepSound(w, actions[0]); Run(Step(w, actions[0]), actions[1..])
  }

  ghost predicate Reachable(w: World) {
    exists actions: seq<Action> :: w == Run(Start(), actions)
  }

  lemma {:induction false} RunAppends(w: World, a: seq<Action>, b: seq<Action>)
    requires Sound(w)
    ensures Run(w, a + b) == Run(Run(w, a), b)
    decreases |a|
  {
    if a == [] {
      assert a + b == b;
    } else {
      assert (a + b)[1..] == a[1..] + b;
      StepSound(w, a[0]);
      RunAppends(Step(w, a[0]), a[1..], b);
    }
  }
}
