/**
 * The record store's tables for deliveries, hand-offs, runs, refusals and waits, and the
 * transactions over them. A row's identifier is its place in its table.
 */
module Ledger {
  import opened Common

  type Playbook = string

  type Instance = string

  /** An acceptance is known by its source and the identity it offered. */
  datatype Key = Key(source: string, identity: string)

  datatype HandOffState = Pending | Waits | HandedOff | Refused | Dropped

  datatype DeliveryState = DAccepted | DWaiting | DHandedOff | DDropped | DUnbound

  datatype Mechanism =
    | ClaimHeld | TickRan | BackendUnavailable | RateLimited
    | WaitingSlotFull | WaitExpired | PlaybookChanged | ProcessGone

  datatype Delivery = Delivery(
    key: Key,
    receivedAt: int,
    instance: Instance,
    supersedes: Option<nat>,
    state: DeliveryState,
    repeats: nat,
    handoffs: map<Playbook, HandOffState>)

  /** The delivery an identity was last accepted as, and when. */
  datatype Identity = Identity(id: nat, acceptedAt: int)

  datatype RunRow = RunRow(playbook: Playbook, delivery: Option<nat>, wait: Option<nat>)

  datatype RefusalRow = RefusalRow(playbook: Playbook, delivery: Option<nat>, wait: Option<nat>, mechanism: Mechanism)

  datatype ValueRefusal = ValueRefusal(playbook: Playbook, delivery: nat)

  datatype Outcome = Waiting | Ran(run: nat) | Ended(mechanism: Mechanism)

  datatype WaitRow = WaitRow(playbook: Playbook, delivery: Option<nat>, instance: Instance, outcome: Outcome)

  datatype Tables = Tables(
    deliveries: seq<Delivery>,
    identities: map<Key, Identity>,
    runs: seq<RunRow>,
    refusals: seq<RefusalRow>,
    valueRefusals: seq<ValueRefusal>,
    waits: seq<WaitRow>)

  function Blank(): Tables { Tables([], map[], [], [], [], []) }

  /** Rows refer to rows that exist, and a delivery supersedes an earlier one. */
  predicate Linked(t: Tables) {
    && (forall key :: key in t.identities ==> t.identities[key].id < |t.deliveries|)
    && (forall d :: 0 <= d < |t.deliveries| && t.deliveries[d].supersedes.Some? ==> t.deliveries[d].supersedes.value < d)
  }

  // ---- Waits and runs ----

  predicate WaitsFor(row: WaitRow, p: Playbook) {
    row.playbook == p && row.outcome.Waiting?
  }

  /** The first row waiting for a playbook. */
  function Occupant(waits: seq<WaitRow>, p: Playbook): (w: Option<nat>)
    ensures w.Some? ==> w.value < |waits| && WaitsFor(waits[w.value], p)
    ensures w.None? ==> forall k :: 0 <= k < |waits| ==> !WaitsFor(waits[k], p)
  {
    if waits == [] then None
    else
      var front := waits[..|waits| - 1];
      match Occupant(front, p)
      case Some(k) => Some(k)
      case None => if WaitsFor(Last(waits), p) then Some(|waits| - 1) else None
  }

  /** A trigger is accepted to wait only into an empty slot. */
  function AcceptWait(t: Tables, row: WaitRow): Tables {
    if Occupant(t.waits, row.playbook).None? then t.(waits := t.waits + [row]) else t
  }

  predicate CanEnd(t: Tables, w: nat) {
    w < |t.waits| && t.waits[w].outcome.Waiting?
  }

  /** Ends a wait that has not ended, with the refusal that says so. */
  function EndWait(t: Tables, w: nat, refusal: RefusalRow): Tables {
    if !CanEnd(t, w) then t
    else t.(waits := t.waits[w := t.waits[w].(outcome := Ended(refusal.mechanism))], refusals := t.refusals + [refusal])
  }

  /** A run row; if it comes of a wait, only together with that wait's ending. */
  function CreateRun(t: Tables, run: RunRow): Tables {
    match run.wait
    case None => t.(runs := t.runs + [run])
    case Some(w) =>
      if !CanEnd(t, w) then t
      else t.(runs := t.runs + [run], waits := t.waits[w := t.waits[w].(outcome := Ran(|t.runs|))])
  }

  // ---- What decides a hand-off ----

  predicate RunNames(run: RunRow, d: nat, p: Playbook) {
    run.delivery == Some(d) && run.playbook == p
  }

  predicate RefusalNames(refusal: RefusalRow, d: nat, p: Playbook) {
    refusal.delivery == Some(d) && refusal.playbook == p && refusal.mechanism != ProcessGone
  }

  predicate HasRun(t: Tables, d: nat, p: Playbook) {
    exists k :: 0 <= k < |t.runs| && RunNames(t.runs[k], d, p)
  }

  predicate HasRefusal(t: Tables, d: nat, p: Playbook) {
    exists k :: 0 <= k < |t.refusals| && RefusalNames(t.refusals[k], d, p)
  }

  predicate HasValueRefusal(t: Tables, d: nat, p: Playbook) {
    ValueRefusal(p, d) in t.valueRefusals
  }

  /** A durable record other than a drop names the delivery and the playbook. */
  predicate Named(t: Tables, d: nat, p: Playbook) {
    HasRun(t, d, p) || HasRefusal(t, d, p) || HasValueRefusal(t, d, p)
  }

  function DecidedElsewhere(t: Tables, d: nat, p: Playbook): Option<HandOffState> {
    if HasRun(t, d, p) then Some(HandedOff)
    else if HasRefusal(t, d, p) || HasValueRefusal(t, d, p) then Some(Refused)
    else None
  }

  predicate Undecided(s: HandOffState) { s.Pending? || s.Waits? }

  predicate Decided(s: HandOffState) { s.HandedOff? || s.Refused? }

  // ---- Reconciling a delivery whose process is gone ----

  function SetHandOff(t: Tables, d: nat, p: Playbook, s: HandOffState): Tables
    requires d < |t.deliveries|
  {
    var row := t.deliveries[d];
    t.(deliveries := t.deliveries[d := row.(handoffs := row.handoffs[p := s])])
  }

  function SetState(t: Tables, d: nat, s: DeliveryState): Tables
    requires d < |t.deliveries|
  {
    t.(deliveries := t.deliveries[d := t.deliveries[d].(state := s)])
  }

  predicate WaitsForHandOff(row: WaitRow, d: nat, p: Playbook) {
    WaitsFor(row, p) && row.delivery == Some(d)
  }

  function WaitOfHandOff(waits: seq<WaitRow>, d: nat, p: Playbook): (w: Option<nat>)
    ensures w.Some? ==> w.value < |waits| && WaitsForHandOff(waits[w.value], d, p)
    ensures w.None? ==> forall k :: 0 <= k < |waits| ==> !WaitsForHandOff(waits[k], d, p)
  {
    if waits == [] then None
    else
      var front := waits[..|waits| - 1];
      match WaitOfHandOff(front, d, p)
      case Some(k) => Some(k)
      case None => if WaitsForHandOff(Last(waits), d, p) then Some(|waits| - 1) else None
  }

  /** Ends the wait of a hand-off that never ran, with its own drop record. */
  function DropWait(t: Tables, d: nat, p: Playbook): Tables {
    match WaitOfHandOff(t.waits, d, p)
    case None => t
    case Some(w) => EndWait(t, w, RefusalRow(p, Some(d), Some(w), ProcessGone))
  }

  function ReconcileRow(t: Tables, d: nat, p: Playbook): (r: Tables)
    requires d < |t.deliveries|
    ensures |r.deliveries| == |t.deliveries|
  {
    match DecidedElsewhere(t, d, p)
    case Some(s) => SetHandOff(t, d, p, s)
    case None => SetHandOff(DropWait(t, d, p), d, p, Dropped)
  }

  function ReconcileRows(t: Tables, d: nat, rows: seq<Playbook>): (r: Tables)
    requires d < |t.deliveries|
    ensures |r.deliveries| == |t.deliveries|
  {
    if rows == [] then t else ReconcileRow(ReconcileRows(t, d, rows[..|rows| - 1]), d, Last(rows))
  }

  /** The rows of a query still to be decided, in the order it returned them. */
  function UndecidedRows(handoffs: map<Playbook, HandOffState>, rows: seq<Playbook>): (u: seq<Playbook>)
    requires forall p :: p in rows ==> p in handoffs
    ensures forall p :: p in u <==> p in rows && Undecided(handoffs[p])
  {
    if rows == [] then []
    else
      var rest := UndecidedRows(handoffs, rows[..|rows| - 1]);
      assert rows == rows[..|rows| - 1] + [Last(rows)];
      if Undecided(handoffs[Last(rows)]) then rest + [Last(rows)] else rest
  }

  /** Some row of the delivery has no record deciding it. */
  predicate DropsAny(t: Tables, d: nat, rows: seq<Playbook>) {
    exists p :: p in rows && DecidedElsewhere(t, d, p).None?
  }

  /** The rows of a delivery's hand-offs, each once, in whatever order the query returns them. */
  predicate RowsOf(handoffs: map<Playbook, HandOffState>, rows: seq<Playbook>) {
    && (forall p :: p in rows ==> p in handoffs) && (forall p :: p in handoffs ==> p in rows)
    && (forall a, b :: 0 <= a < b < |rows| ==> rows[a] != rows[b])
  }

  function ReconcileDelivery(t: Tables, d: nat, rows: seq<Playbook>): (r: Tables)
    requires d < |t.deliveries| && RowsOf(t.deliveries[d].handoffs, rows)
    ensures |r.deliveries| == |t.deliveries|
  {
    var pending := UndecidedRows(t.deliveries[d].handoffs, rows);
    SetState(ReconcileRows(t, d, pending), d, if DropsAny(t, d, pending) then DDropped else DHandedOff)
  }

  // ---- Accepting a delivery ----

  datatype Params = Params(key: Key, receivedAt: int, instance: Instance, window: int, playbooks: seq<Playbook>)

  datatype Answer = New(id: nat) | RepeatOf(id: nat) | Failed

  datatype Verdict = NewAgain | Supersedes | Repeats

  /** Decided in a delivery or in one of those it supersedes. */
  function DecidedInChain(deliveries: seq<Delivery>, d: nat, p: Playbook): bool
    requires d < |deliveries|
    requires forall e :: 0 <= e < |deliveries| && deliveries[e].supersedes.Some? ==> deliveries[e].supersedes.value < e
    decreases d
  {
    || (p in deliveries[d].handoffs && Decided(deliveries[d].handoffs[p]))
    || (deliveries[d].supersedes.Some? && DecidedInChain(deliveries, deliveries[d].supersedes.value, p))
  }

  function Without(playbooks: seq<Playbook>, decided: set<Playbook>): (left: seq<Playbook>)
    ensures forall p :: p in left <==> p in playbooks && p !in decided
  {
    if playbooks == [] then []
    else
      var rest := Without(playbooks[..|playbooks| - 1], decided);
      assert playbooks == playbooks[..|playbooks| - 1] + [Last(playbooks)];
      if Last(playbooks) in decided then rest else rest + [Last(playbooks)]
  }

  predicate NoneTwice(s: seq<Playbook>) {
    forall a, b :: 0 <= a < b < |s| ==> s[a] != s[b]
  }

  /** A delivery, its identity and its hand-offs, or none: two hand-offs of one playbook fail the whole. */
  function Insert(t: Tables, params: Params, supersedes: Option<nat>, playbooks: seq<Playbook>): (Tables, Answer) {
    var id := |t.deliveries|;
    var handoffs := map p | p in playbooks :: Pending;
    (t.(deliveries := t.deliveries + [Delivery(params.key, params.receivedAt, params.instance, supersedes, DAccepted, 0, handoffs)],
        identities := t.identities[params.key := Identity(id, params.receivedAt)]),
     New(id))
  }

  function CountRepeat(t: Tables, id: nat): Tables
    requires id < |t.deliveries|
  {
    t.(deliveries := t.deliveries[id := t.deliveries[id].(repeats := t.deliveries[id].repeats + 1)])
  }

  /** Every playbook some delivery of the chain decided. */
  function ChainDecisions(t: Tables, d: nat): (s: set<Playbook>)
    requires Linked(t) && d < |t.deliveries|
    ensures forall p :: p in s <==> DecidedInChain(t.deliveries, d, p)
    decreases d
  {
    var own := set p | p in t.deliveries[d].handoffs && Decided(t.deliveries[d].handoffs[p]);
    if t.deliveries[d].supersedes.None? then own else own + ChainDecisions(t, t.deliveries[d].supersedes.value)
  }

  function Judge(t: Tables, id: nat, params: Params, alive: bool, rows: seq<Playbook>): (r: (Tables, Verdict))
    requires Linked(t) && params.key in t.identities && t.identities[params.key].id == id
    requires RowsOf(t.deliveries[id].handoffs, rows)
    ensures |r.0.deliveries| == |t.deliveries|
  {
    var row := t.deliveries[id];
    if params.receivedAt - t.identities[params.key].acceptedAt >= params.window then (t, NewAgain)
    else if row.state.DDropped? then (t, Supersedes)
    else if !row.state.DAccepted? && !row.state.DWaiting? then (t, Repeats)
    else if alive then (t, Repeats)
    else
      var r := ReconcileDelivery(t, id, rows);
      (r, if r.deliveries[id].state.DDropped? then Supersedes else Repeats)
  }

  lemma ReconcileRowsLinks(t: Tables, d: nat, rows: seq<Playbook>)
    requires Linked(t) && d < |t.deliveries|
    ensures Linked(ReconcileRows(t, d, rows))
    ensures ReconcileRows(t, d, rows).identities == t.identities
    ensures ReconcileRows(t, d, rows).deliveries[d].supersedes == t.deliveries[d].supersedes
  {}

  lemma JudgeLinks(t: Tables, id: nat, params: Params, alive: bool, rows: seq<Playbook>)
    requires Linked(t) && params.key in t.identities && t.identities[params.key].id == id
    requires RowsOf(t.deliveries[id].handoffs, rows)
    ensures Linked(Judge(t, id, params, alive, rows).0)
  {
    ReconcileRowsLinks(t, id, UndecidedRows(t.deliveries[id].handoffs, rows));
  }

  /** One write transaction; `alive` is the oracle's answer about the delivery the identity points at. */
  function Accept(t: Tables, params: Params, alive: bool, rows: seq<Playbook>): (Tables, Answer)
    requires Linked(t)
    requires params.key in t.identities ==> RowsOf(t.deliveries[t.identities[params.key].id].handoffs, rows)
  {
    if params.receivedAt == 0 then (t, Failed)
    else if params.key !in t.identities then
      if NoneTwice(params.playbooks) then Insert(t, params, None, params.playbooks) else (t, Failed)
    else
      var id := t.identities[params.key].id;
      JudgeLinks(t, id, params, alive, rows);
      var (judged, verdict) := Judge(t, id, params, alive, rows);
      match verdict
      case Repeats =>
        (CountRepeat(judged, id), RepeatOf(id))
      case NewAgain =>
        if NoneTwice(params.playbooks) then Insert(judged, params, None, params.playbooks) else (t, Failed)
      case Supersedes =>
        var left := Without(params.playbooks, ChainDecisions(judged, id));
        if NoneTwice(left) then Insert(judged, params, Some(id), left) else (t, Failed)
  }

  /** The tables as an acceptance leaves them once it has judged the identity, before it writes its own rows. */
  ghost function Judged(t: Tables, params: Params, alive: bool, rows: seq<Playbook>): (r: Tables)
    requires Linked(t)
    requires params.key in t.identities ==> RowsOf(t.deliveries[t.identities[params.key].id].handoffs, rows)
    ensures Linked(r) && |r.deliveries| == |t.deliveries|
    ensures r == t || (&& params.key in t.identities && !alive
                       && (t.deliveries[t.identities[params.key].id].state.DAccepted? || t.deliveries[t.identities[params.key].id].state.DWaiting?)
                       && r == ReconcileDelivery(t, t.identities[params.key].id, rows))
  {
    if params.key !in t.identities then t
    else
      JudgeLinks(t, t.identities[params.key].id, params, alive, rows);
      Judge(t, t.identities[params.key].id, params, alive, rows).0
  }

  /** What an acceptance writes: nothing, one repeat, or one delivery, alone or superseding a dropped one. */
  lemma AcceptCases(t: Tables, params: Params, alive: bool, rows: seq<Playbook>)
    requires Linked(t)
    requires params.key in t.identities ==> RowsOf(t.deliveries[t.identities[params.key].id].handoffs, rows)
    ensures
      var (t', answer) := Accept(t, params, alive, rows);
      var judged := Judged(t, params, alive, rows);
      match answer
      case Failed => t' == t
      case RepeatOf(id) =>
        params.key in t.identities && id == t.identities[params.key].id && t' == CountRepeat(judged, id)
      case New(id) =>
        id == |t.deliveries|
        && exists supersedes, playbooks ::
             && t' == Insert(judged, params, supersedes, playbooks).0
             && Supersession(t, judged, params, supersedes, playbooks)
  {
    var judged := Judged(t, params, alive, rows);
    var (t', answer) := Accept(t, params, alive, rows);
    if answer.New? {
      if params.key in t.identities && Judge(t, t.identities[params.key].id, params, alive, rows).1.Supersedes? {
        var id := t.identities[params.key].id;
        var left := Without(params.playbooks, ChainDecisions(judged, id));
        assert Supersession(t, judged, params, Some(id), left);
        assert t' == Insert(judged, params, Some(id), left).0;
      } else {
        assert Supersession(t, judged, params, None, params.playbooks);
        assert t' == Insert(judged, params, None, params.playbooks).0;
      }
    }
  }

  /** A new delivery stands alone, first of its identity or past its window, or supersedes the dropped one before it. */
  ghost predicate Supersession(t: Tables, judged: Tables, params: Params, supersedes: Option<nat>, playbooks: seq<Playbook>)
    requires Linked(judged)
  {
    match supersedes
    case None =>
      && playbooks == params.playbooks && judged == t
      && (params.key in t.identities ==> params.receivedAt - t.identities[params.key].acceptedAt >= params.window)
    case Some(id) =>
      && params.key in t.identities && t.identities[params.key].id == id < |judged.deliveries|
      && judged.deliveries[id].state.DDropped?
      && forall p :: p in playbooks <==> p in params.playbooks && !DecidedInChain(judged.deliveries, id, p)
  }

  // ---- Finishing a hand-off ----

  /** A delivery's state from its hand-offs'. */
  ghost predicate Summary(states: map<Playbook, HandOffState>, state: DeliveryState) {
    match state
    case DUnbound => states == map[]
    case DDropped => exists p :: p in states && states[p].Dropped?
    case DWaiting => (exists p :: p in states && Undecided(states[p])) && (forall p :: p in states ==> !states[p].Dropped?)
    case DHandedOff => states != map[] && forall p :: p in states ==> Decided(states[p])
    case DAccepted => false
  }

  /** Exactly one state sums up any hand-offs. */
  lemma SummaryIsOne(states: map<Playbook, HandOffState>, a: DeliveryState, b: DeliveryState)
    requires Summary(states, a) && Summary(states, b)
    ensures a == b
  {}

  method FinishDelivery(states: map<Playbook, HandOffState>) returns (state: DeliveryState)
    ensures Summary(states, state)
  {
    if |states| == 0 { return DUnbound; }
    state := DHandedOff;
    var left := states.Keys;
    while left != {}
      invariant left <= states.Keys
      invariant state in {DHandedOff, DWaiting, DDropped}
      invariant state.DDropped? ==> exists p :: p in states && states[p].Dropped?
      invariant !state.DDropped? ==> forall p :: p in states && p !in left ==> !states[p].Dropped?
      invariant state.DWaiting? ==> exists p :: p in states && Undecided(states[p])
      invariant state.DHandedOff? ==> forall p :: p in states && p !in left ==> Decided(states[p])
      decreases |left|
    {
      var p :| p in left;
      match states[p] {
        case Dropped => state := DDropped;
        case HandedOff =>
        case Refused =>
        case _ => if state != DDropped { state := DWaiting; }
      }
      left := left - {p};
    }
    assert states.Keys != {};
  }

  // ---- The store itself ----

  class Store {
    var deliveries: seq<Delivery>
    var identities: map<Key, Identity>
    var runs: seq<RunRow>
    var refusals: seq<RefusalRow>
    var valueRefusals: seq<ValueRefusal>
    var waits: seq<WaitRow>

    ghost function Value(): Tables
      reads this
    {
      Tables(deliveries, identities, runs, refusals, valueRefusals, waits)
    }

    constructor ()
      ensures Value() == Blank()
    {
      deliveries, identities, runs, refusals, valueRefusals, waits := [], map[], [], [], [], [];
    }

    /** Inserts a waiting row if no live one is there; otherwise says which one is. */
    method AcceptWaiting(row: WaitRow) returns (id: nat, full: bool)
      requires row.outcome.Waiting?
      modifies this
      ensures Value() == AcceptWait(old(Value()), row)
      ensures id < |waits| && WaitsFor(waits[id], row.playbook)
      ensures full <==> exists k :: 0 <= k < |old(waits)| && WaitsFor(old(waits)[k], row.playbook)
      ensures !full ==> id == |old(waits)| && waits[id] == row
    {
      for k := 0 to |waits|
        invariant Value() == old(Value())
        invariant forall j :: 0 <= j < k ==> !WaitsFor(waits[j], row.playbook)
      {
        if WaitsFor(waits[k], row.playbook) { return k, true; }
      }
      waits := waits + [row];
      return |waits| - 1, false;
    }

    /** True for the one call that ends the wait. */
    method End(w: nat, refusal: RefusalRow) returns (ended: bool)
      modifies this
      ensures Value() == EndWait(old(Value()), w, refusal)
      ensures ended <==> CanEnd(old(Value()), w)
    {
      if w >= |waits| || !waits[w].outcome.Waiting? { return false; }
      waits := waits[w := waits[w].(outcome := Ended(refusal.mechanism))];
      refusals := refusals + [refusal];
      return true;
    }

    method AddRun(run: RunRow) returns (ok: bool)
      modifies this
      ensures Value() == CreateRun(old(Value()), run)
      ensures ok <==> run.wait.None? || CanEnd(old(Value()), run.wait.value)
    {
      if run.wait.Some? {
        var w := run.wait.value;
        if w >= |waits| || !waits[w].outcome.Waiting? { return false; }
        waits := waits[w := waits[w].(outcome := Ran(|runs|))];
      }
      runs := runs + [run];
      return true;
    }

    method Elsewhere(d: nat, p: Playbook) returns (decided: Option<HandOffState>)
      ensures decided == DecidedElsewhere(Value(), d, p)
    {
      for k := 0 to |runs|
        invariant forall j :: 0 <= j < k ==> !RunNames(runs[j], d, p)
      {
        if RunNames(runs[k], d, p) { return Some(HandedOff); }
      }
      for k := 0 to |refusals|
        invariant forall j :: 0 <= j < k ==> !RefusalNames(refusals[j], d, p)
      {
        if RefusalNames(refusals[k], d, p) { return Some(Refused); }
      }
      if ValueRefusal(p, d) in valueRefusals { return Some(Refused); }
      return None;
    }

    method FindWait(d: nat, p: Playbook) returns (w: Option<nat>)
      ensures w == WaitOfHandOff(waits, d, p)
    {
      w := None;
      for k := 0 to |waits|
        invariant w == WaitOfHandOff(waits[..k], d, p)
      {
        assert waits[..k + 1][..k] == waits[..k];
        if w.None? && WaitsForHandOff(waits[k], d, p) { w := Some(k); }
      }
      assert waits[..|waits|] == waits;
    }

    /** Marks dropped every hand-off of the delivery that no durable record decides. */
    method Reconcile(d: nat, rows: seq<Playbook>)
      requires d < |deliveries| && RowsOf(deliveries[d].handoffs, rows)
      modifies this
      ensures Value() == ReconcileDelivery(old(Value()), d, rows)
    {
      ghost var before := Value();
      var handoffs := deliveries[d].handoffs;
      var pending: seq<Playbook> := [];
      for k := 0 to |rows|
        invariant Value() == before
        invariant pending == UndecidedRows(handoffs, rows[..k])
      {
        assert rows[..k + 1][..k] == rows[..k];
        if Undecided(handoffs[rows[k]]) { pending := pending + [rows[k]]; }
      }
      assert rows[..|rows|] == rows;
      var dropped := false;
      for k := 0 to |pending|
        invariant Value() == ReconcileRows(before, d, pending[..k]) && d < |deliveries|
        invariant dropped <==> DropsAny(before, d, pending[..k])
      {
        assert pending[..k + 1][..k] == pending[..k];
        SameDecisions(before, d, pending[..k], d, pending[k]);
        DropsNext(before, d, pending, k);
        var decided := Elsewhere(d, pending[k]);
        if decided.Some? {
          deliveries := deliveries[d := deliveries[d].(handoffs := deliveries[d].handoffs[pending[k] := decided.value])];
        } else {
          var w := FindWait(d, pending[k]);
          if w.Some? {
            var _ := End(w.value, RefusalRow(pending[k], Some(d), w, ProcessGone));
          }
          deliveries := deliveries[d := deliveries[d].(handoffs := deliveries[d].handoffs[pending[k] := Dropped])];
          dropped := true;
        }
      }
      assert pending[..|pending|] == pending;
      deliveries := deliveries[d := deliveries[d].(state := if dropped then DDropped else DHandedOff)];
    }

    /** Walks the chain back to its root, gathering what any of it decided. */
    method Chain(d: nat) returns (decided: set<Playbook>)
      requires Linked(Value()) && d < |deliveries|
      ensures decided == ChainDecisions(Value(), d)
    {
      decided := {};
      var at: Option<nat> := Some(d);
      while at.Some?
        invariant at.Some? ==> at.value < |deliveries|
        invariant ChainDecisions(Value(), d) == decided + (if at.Some? then ChainDecisions(Value(), at.value) else {})
        decreases if at.Some? then at.value + 1 else 0
      {
        var row := deliveries[at.value];
        decided := decided + set p | p in row.handoffs && Decided(row.handoffs[p]);
        at := row.supersedes;
      }
    }

    /** Decides whether an identity is new, and records the delivery or counts the repeat. */
    method AcceptDelivery(params: Params, alive: bool, rows: seq<Playbook>) returns (answer: Answer)
      requires Linked(Value())
      requires params.key in identities ==> RowsOf(deliveries[identities[params.key].id].handoffs, rows)
      modifies this
      ensures (Value(), answer) == Accept(old(Value()), params, alive, rows)
    {
      var before := Tables(deliveries, identities, runs, refusals, valueRefusals, waits);
      if params.receivedAt == 0 { return Failed; }
      if params.key !in identities {
        answer := Add(before, params, None, params.playbooks);
        return;
      }
      var id := identities[params.key].id;
      JudgeLinks(before, id, params, alive, rows);
      var row := deliveries[id];
      if params.receivedAt - identities[params.key].acceptedAt >= params.window {
        answer := Add(before, params, None, params.playbooks);
        return;
      }
      if !row.state.DDropped? {
        if (!row.state.DAccepted? && !row.state.DWaiting?) || alive {
          deliveries := deliveries[id := row.(repeats := row.repeats + 1)];
          return RepeatOf(id);
        }
        Reconcile(id, rows);
        if !deliveries[id].state.DDropped? {
          deliveries := deliveries[id := deliveries[id].(repeats := deliveries[id].repeats + 1)];
          return RepeatOf(id);
        }
      }
      var decided := Chain(id);
      var left: seq<Playbook> := [];
      ghost var judged := Value();
      for k := 0 to |params.playbooks|
        invariant Value() == judged
        invariant left == Without(params.playbooks[..k], decided)
      {
        assert params.playbooks[..k + 1][..k] == params.playbooks[..k];
        if params.playbooks[k] !in decided { left := left + [params.playbooks[k]]; }
      }
      assert params.playbooks[..|params.playbooks|] == params.playbooks;
      answer := Add(before, params, Some(id), left);
    }

    /** Commits the new delivery, or rolls the whole transaction back to where it began. */
    method Add(before: Tables, params: Params, supersedes: Option<nat>, playbooks: seq<Playbook>) returns (answer: Answer)
      modifies this
      ensures (Value(), answer) == if NoneTwice(playbooks) then Insert(old(Value()), params, supersedes, playbooks) else (before, Failed)
    {
      var id := |deliveries|;
      identities := identities[params.key := Identity(id, params.receivedAt)];
      var handoffs: map<Playbook, HandOffState> := map[];
      for k := 0 to |playbooks|
        invariant Value() == old(Value()).(identities := old(identities)[params.key := Identity(id, params.receivedAt)])
        invariant handoffs == map p | p in playbooks[..k] :: Pending
        invariant NoneTwice(playbooks[..k])
      {
        assert playbooks[..k + 1] == playbooks[..k] + [playbooks[k]];
        if playbooks[k] in handoffs {
          RollBack(before);
          return Failed;
        }
        handoffs := handoffs[playbooks[k] := Pending];
      }
      assert playbooks[..|playbooks|] == playbooks;
      deliveries := deliveries + [Delivery(params.key, params.receivedAt, params.instance, supersedes, DAccepted, 0, handoffs)];
      return New(id);
    }

    method RollBack(before: Tables)
      modifies this
      ensures Value() == before
    {
      deliveries, identities, runs := before.deliveries, before.identities, before.runs;
      refusals, valueRefusals, waits := before.refusals, before.valueRefusals, before.waits;
    }
  }

  /** A drop record decides nothing. */
  lemma DropDecidesNothing(t: Tables, d: nat, p: Playbook, e: nat, q: Playbook)
    ensures DropWait(t, d, p).runs == t.runs && DropWait(t, d, p).valueRefusals == t.valueRefusals
    ensures HasRefusal(DropWait(t, d, p), e, q) <==> HasRefusal(t, e, q)
  {
    var t' := DropWait(t, d, p);
    if k :| 0 <= k < |t.refusals| && RefusalNames(t.refusals[k], e, q) {
      assert RefusalNames(t'.refusals[k], e, q);
    }
  }

  /** Reconciling a delivery moves no record that decides a hand-off, of whichever delivery. */
  lemma {:induction false} SameDecisions(t: Tables, d: nat, rows: seq<Playbook>, e: nat, q: Playbook)
    requires d < |t.deliveries|
    ensures ReconcileRows(t, d, rows).runs == t.runs
    ensures ReconcileRows(t, d, rows).valueRefusals == t.valueRefusals
    ensures HasRefusal(ReconcileRows(t, d, rows), e, q) <==> HasRefusal(t, e, q)
    ensures DecidedElsewhere(ReconcileRows(t, d, rows), e, q) == DecidedElsewhere(t, e, q)
  {
    if rows != [] {
      SameDecisions(t, d, rows[..|rows| - 1], e, q);
      DropDecidesNothing(ReconcileRows(t, d, rows[..|rows| - 1]), d, Last(rows), e, q);
    }
  }

  lemma DropsNext(t: Tables, d: nat, rows: seq<Playbook>, k: nat)
    requires k < |rows|
    ensures DropsAny(t, d, rows[..k + 1]) <==> DropsAny(t, d, rows[..k]) || DecidedElsewhere(t, d, rows[k]).None?
  {
    assert rows[..k + 1] == rows[..k] + [rows[k]];
  }
}
