/** Every acceptance is one delivery or one repeat, and deliveries of one identity follow one another. */
module LedgerTally {
  import opened Common
  import opened Ledger
  import opened LedgerWorld
  import opened LedgerChains

  /** The successful acceptances of an identity. */
  function Acceptances(log: seq<Entry>, key: Key): nat {
    if log == [] then 0 else Acceptances(log[..|log| - 1], key) + if Last(log).key == key then 1 else 0
  }

  /** Its deliveries, each with its repeats. */
  function Tally(ds: seq<Delivery>, key: Key): nat {
    if ds == [] then 0 else Tally(ds[..|ds| - 1], key) + if Last(ds).key == key then 1 + Last(ds).repeats else 0
  }

  /** `e` is the delivery of the same identity just before `d`. */
  ghost predicate Before(ds: seq<Delivery>, e: nat, d: nat) {
    && e < d < |ds| && ds[e].key == ds[d].key
    && forall m :: e < m < d ==> ds[m].key != ds[d].key
  }

  /** The acceptance that recorded a delivery. */
  ghost predicate Recorded(w: World, k: nat, d: nat) {
    k < |w.log| && w.log[k].isNew && w.log[k].id == d
  }

  ghost predicate HasRecord(w: World, d: nat) {
    exists k: nat :: Recorded(w, k, d)
  }

  /** A delivery supersedes the one just before it, or its acceptance came a window or more after that one's. */
  ghost predicate FollowsOk(w: World, d: nat)
    requires d < |w.t.deliveries|
  {
    match w.t.deliveries[d].supersedes
    case Some(s) => Before(w.t.deliveries, s, d)
    case None =>
      forall e: nat, k: nat :: Before(w.t.deliveries, e, d) && Recorded(w, k, d) ==>
        w.t.deliveries[d].receivedAt - w.t.deliveries[e].receivedAt >= w.log[k].window
  }

  /** A delivery was recorded by one acceptance. */
  ghost predicate LogOk(w: World) {
    && (forall k :: 0 <= k < |w.log| ==> w.log[k].id < |w.t.deliveries|)
    && (forall d :: 0 <= d < |w.t.deliveries| ==> HasRecord(w, d))
    && (forall i: nat, j: nat, d: nat :: Recorded(w, i, d) && Recorded(w, j, d) ==> i == j)
  }

  ghost predicate TallyOk(w: World) {
    && LogOk(w)
    && (forall key :: Acceptances(w.log, key) == Tally(w.t.deliveries, key))
    && (forall d :: 0 <= d < |w.t.deliveries| ==> FollowsOk(w, d))
  }

  // ---- Steps that accept nothing ----

  ghost predicate SameRepeats(ds: seq<Delivery>, ds': seq<Delivery>) {
    && |ds'| == |ds|
    && forall d :: 0 <= d < |ds| ==> ds'[d].key == ds[d].key && ds'[d].repeats == ds[d].repeats
                                     && ds'[d].receivedAt == ds[d].receivedAt && ds'[d].supersedes == ds[d].supersedes
  }

  lemma {:induction false} SameTally(ds: seq<Delivery>, ds': seq<Delivery>, key: Key)
    requires SameRepeats(ds, ds')
    ensures Tally(ds', key) == Tally(ds, key)
  {
    if ds != [] {
      SameTally(ds[..|ds| - 1], ds'[..|ds'| - 1], key);
    }
  }

  ghost predicate SameKeys(ds: seq<Delivery>, ds': seq<Delivery>) {
    |ds| <= |ds'| && forall d :: 0 <= d < |ds| ==> ds'[d].key == ds[d].key
  }

  lemma BeforeStays(ds: seq<Delivery>, ds': seq<Delivery>, e: nat, d: nat)
    requires SameKeys(ds, ds') && d < |ds|
    ensures Before(ds, e, d) <==> Before(ds', e, d)
  {
    if Before(ds', e, d) {
      forall m | e < m < d ensures ds[m].key != ds[d].key { assert ds'[m].key != ds'[d].key; }
    }
    if Before(ds, e, d) {
      forall m | e < m < d ensures ds'[m].key != ds'[d].key { assert ds[m].key != ds[d].key; }
    }
  }

  /** What follows what depends on keys, instants and the log alone. */
  lemma FollowsStays(w: World, w': World, d: nat)
    requires d < |w.t.deliveries| && FollowsOk(w, d) && SameKeys(w.t.deliveries, w'.t.deliveries)
    requires forall e :: 0 <= e <= d ==> w'.t.deliveries[e].receivedAt == w.t.deliveries[e].receivedAt
                                         && w'.t.deliveries[e].supersedes == w.t.deliveries[e].supersedes
    requires w.log <= w'.log
    requires forall k: nat :: Recorded(w', k, d) ==> Recorded(w, k, d)
    ensures FollowsOk(w', d)
  {
    forall e: nat ensures Before(w.t.deliveries, e, d) <==> Before(w'.t.deliveries, e, d) {
      BeforeStays(w.t.deliveries, w'.t.deliveries, e, d);
    }
  }

  lemma AsideTallies(w: World, w': World)
    requires TallyOk(w) && SameRepeats(w.t.deliveries, w'.t.deliveries) && w'.log == w.log
    ensures TallyOk(w')
  {
    RecordsStay(w, w');
    forall key ensures Acceptances(w'.log, key) == Tally(w'.t.deliveries, key) {
      SameTally(w.t.deliveries, w'.t.deliveries, key);
    }
    forall d | 0 <= d < |w'.t.deliveries| ensures FollowsOk(w', d) {
      FollowsStays(w, w', d);
    }
  }

  /** A log that records no more deliveries records those it did. */
  lemma RecordsStay(w: World, w': World)
    requires LogOk(w) && |w'.t.deliveries| == |w.t.deliveries|
    requires w'.log == w.log || exists entry: Entry :: !entry.isNew && entry.id < |w.t.deliveries| && w'.log == w.log + [entry]
    ensures LogOk(w')
    ensures forall k: nat, d: nat :: Recorded(w', k, d) <==> Recorded(w, k, d)
  {
    forall k: nat, d: nat ensures Recorded(w', k, d) <==> Recorded(w, k, d) {}
    forall d | 0 <= d < |w'.t.deliveries| ensures HasRecord(w', d) {
      assert HasRecord(w, d);
    }
  }

  lemma HandOffStepSame(w: World, a: Action)
    requires Sound(w) && OfDelivery(a) && Lives(w, a.d)
    ensures SameRepeats(w.t.deliveries, HandOffStep(w, a).t.deliveries) && HandOffStep(w, a).log == w.log
  {}

  // ---- Accepting ----

  lemma JudgedSame(w: World, a: Action)
    requires Sound(w) && a.Offer? && OfferOk(w, a)
    ensures SameRepeats(w.t.deliveries, Judged(w.t, a.params, a.alive, a.rows).deliveries)
  {
    var judged := Judged(w.t, a.params, a.alive, a.rows);
    if judged != w.t {
      ReconcileSettles(w.t, w.t.identities[a.params.key].id, a.rows);
    }
  }

  lemma {:induction false} OneMore(ds: seq<Delivery>, id: nat, key: Key)
    requires id < |ds|
    ensures Tally(ds[id := ds[id].(repeats := ds[id].repeats + 1)], key) == Tally(ds, key) + if ds[id].key == key then 1 else 0
  {
    var ds' := ds[id := ds[id].(repeats := ds[id].repeats + 1)];
    var front := ds[..|ds| - 1];
    if id < |front| {
      OneMore(front, id, key);
      assert ds'[..|ds'| - 1] == front[id := front[id].(repeats := front[id].repeats + 1)];
    } else {
      assert ds'[..|ds'| - 1] == front;
    }
  }

  lemma AppendEntry(log: seq<Entry>, entry: Entry, key: Key)
    ensures Acceptances(log + [entry], key) == Acceptances(log, key) + if entry.key == key then 1 else 0
  {
    assert (log + [entry])[..|log|] == log;
  }

  lemma RepeatTallies(w: World, w': World, entry: Entry)
    requires TallyOk(w) && entry.id < |w.t.deliveries| && !entry.isNew && entry.key == w.t.deliveries[entry.id].key
    requires w'.t == CountRepeat(w.t, entry.id) && w'.log == w.log + [entry]
    ensures TallyOk(w')
  {
    forall key ensures Acceptances(w'.log, key) == Tally(w'.t.deliveries, key) {
      OneMore(w.t.deliveries, entry.id, key);
      AppendEntry(w.log, entry, key);
    }
    RecordsStay(w, w');
    forall d | 0 <= d < |w'.t.deliveries| ensures FollowsOk(w', d) {
      FollowsStays(w, w', d);
    }
  }

  lemma InsertTallies(w: World, w': World, before: Tables, params: Params, supersedes: Option<nat>, playbooks: seq<Playbook>)
    requires TallyOk(w) && Linked(w.t) && RowsOk(w.t) && w.t.identities == before.identities
    requires Supersession(before, w.t, params, supersedes, playbooks)
    requires w'.t == Insert(w.t, params, supersedes, playbooks).0
    requires w'.log == w.log + [Entry(params.key, params.receivedAt, params.window, |w.t.deliveries|, true)]
    ensures TallyOk(w')
  {
    var id := |w.t.deliveries|;
    var entry := Entry(params.key, params.receivedAt, params.window, id, true);
    var ds, ds' := w.t.deliveries, w'.t.deliveries;
    forall key ensures Acceptances(w'.log, key) == Tally(ds', key) {
      AppendEntry(w.log, entry, key);
      assert ds'[..id] == ds;
    }
    InsertLogs(w, w', entry);
    forall d | 0 <= d < |ds'| ensures FollowsOk(w', d) {
      InsertFollows(w, w', before, params, supersedes, playbooks, d);
    }
  }

  lemma InsertLogs(w: World, w': World, entry: Entry)
    requires LogOk(w) && entry.isNew && entry.id == |w.t.deliveries| && w'.log == w.log + [entry]
    requires |w'.t.deliveries| == |w.t.deliveries| + 1
    ensures LogOk(w')
    ensures forall k: nat, d: nat :: Recorded(w', k, d) <==> Recorded(w, k, d) || (d == entry.id && k == |w.log|)
  {
    forall k: nat, d: nat ensures Recorded(w', k, d) <==> Recorded(w, k, d) || (d == entry.id && k == |w.log|) {}
    forall d | 0 <= d < |w'.t.deliveries| ensures HasRecord(w', d) {
      if d == entry.id {
        assert Recorded(w', |w.log|, d);
      } else {
        assert HasRecord(w, d);
      }
    }
  }

  lemma InsertFollows(w: World, w': World, before: Tables, params: Params, supersedes: Option<nat>, playbooks: seq<Playbook>, d: nat)
    requires TallyOk(w) && Linked(w.t) && RowsOk(w.t) && w.t.identities == before.identities
    requires Supersession(before, w.t, params, supersedes, playbooks)
    requires w'.t == Insert(w.t, params, supersedes, playbooks).0
    requires w'.log == w.log + [Entry(params.key, params.receivedAt, params.window, |w.t.deliveries|, true)]
    requires d < |w'.t.deliveries|
    ensures FollowsOk(w', d)
  {
    var id := |w.t.deliveries|;
    var ds, ds' := w.t.deliveries, w'.t.deliveries;
    InsertLogs(w, w', Last(w'.log));
    if d < id {
      FollowsStays(w, w', d);
    } else {
      forall m | 0 <= m < id && ds[m].key == params.key ensures params.key in w.t.identities && m <= w.t.identities[params.key].id {
        assert DeliveryOk(w.t, m);
      }
      if params.key in w.t.identities {
        assert IdentityOk(w.t, params.key);
        assert Before(ds', w.t.identities[params.key].id, id);
      }
    }
  }

  lemma OfferTallies(w: World, a: Action)
    requires Inv(w) && TallyOk(w) && a.Offer? && OfferOk(w, a)
    ensures TallyOk(Offered(w, a))
  {
    var (t', answer) := Accept(w.t, a.params, a.alive, a.rows);
    var judged := Judged(w.t, a.params, a.alive, a.rows);
    var mid := w.(t := judged);
    JudgedKeeps(w, a);
    JudgedSame(w, a);
    AsideTallies(w, mid);
    AcceptCases(w.t, a.params, a.alive, a.rows);
    match answer
    case Failed =>
    case RepeatOf(id) =>
      assert IdentityOk(judged, a.params.key);
      RepeatTallies(mid, Offered(w, a), Last(Offered(w, a).log));
    case New(id) =>
      var supersedes, playbooks :| t' == Insert(judged, a.params, supersedes, playbooks).0
                                   && Supersession(w.t, judged, a.params, supersedes, playbooks);
      InsertTallies(mid, Offered(w, a), w.t, a.params, supersedes, playbooks);
  }

  lemma StepTallies(w: World, a: Action)
    requires Inv(w) && TallyOk(w)
    ensures TallyOk(Step(w, a))
  {
    if a.Offer? {
      if OfferOk(w, a) { OfferTallies(w, a); }
    } else if OfDelivery(a) && Lives(w, a.d) {
      HandOffStepSame(w, a);
      AsideTallies(w, Step(w, a));
    } else {
      AsideTallies(w, Step(w, a));
    }
  }

  lemma {:induction false} RunTallies(w: World, actions: seq<Action>)
    requires Inv(w) && TallyOk(w)
    ensures Inv(Run(w, actions)) && TallyOk(Run(w, actions))
    decreases |actions|
  {
    if actions != [] {
      StepKeeps(w, actions[0]);
      StepTallies(w, actions[0]);
      RunTallies(Step(w, actions[0]), actions[1..]);
    }
  }

  // ---- What it comes to ----

  /** Of an identity, the successful acceptances are its deliveries and their repeats, no more and no fewer. */
  lemma AcceptancesAddUp(w: World, key: Key)
    requires Reachable(w)
    ensures Acceptances(w.log, key) == Tally(w.t.deliveries, key)
  {
    var actions: seq<Action> :| w == Run(Start(), actions);
    RunTallies(Start(), actions);
  }

  /**
   * A delivery that has one of its identity before it either supersedes that one, which is dropped,
   * or was received its acceptance's replay window or more after it; one that has none supersedes none.
   */
  lemma DeliveriesFollow(w: World, d: nat)
    requires Reachable(w) && d < |w.t.deliveries|
    ensures exists k: nat ::
              && Recorded(w, k, d)
              && match w.t.deliveries[d].supersedes
                 case Some(s) => Before(w.t.deliveries, s, d) && w.t.deliveries[s].state.DDropped?
                 case None =>
                   forall e: nat :: Before(w.t.deliveries, e, d) ==>
                                      w.t.deliveries[d].receivedAt - w.t.deliveries[e].receivedAt >= w.log[k].window
  {
    var actions: seq<Action> :| w == Run(Start(), actions);
    RunTallies(Start(), actions);
    assert FollowsOk(w, d) && DeliveryOk(w.t, d) && HasRecord(w, d);
    var k: nat :| Recorded(w, k, d);
  }
}
