/** What the claim protocol promises over every run, from an empty store. */
module ClaimTheorems {
  import opened Common
  import opened Coordination
  import opened EtcdStore
  import opened Claims
  import opened ClaimsSafety

  /** A world some interleaving of hosts, backend and clock leads to. */
  ghost predicate Reachable(w: World) {
    exists now: int, actions: seq<Action> :: w == Run(Start(now), actions)
  }

  lemma ReachableInv(w: World)
    requires Reachable(w)
    ensures Inv(w)
  {
    var now: int, actions: seq<Action> :| w == Run(Start(now), actions);
    assert Inv(Start(now));
    RunKeeps(Start(now), actions);
  }

  // ---- Exclusion and fencing ----

  /** Tokens of successive commits strictly increase, and a live claim is the newest commit of its name. */
  lemma TokensIncrease(w: World)
    requires Reachable(w)
    ensures forall a, b :: 0 <= a < b < |w.log| ==> w.log[a].token < w.log[b].token
    ensures forall n, k :: n in Now(w).claims && 0 <= k < |w.log| && w.log[k].req.name == n ==>
              w.log[k].token <= Now(w).claims[n].created
  {
    ReachableInv(w);
    forall n, k | n in Now(w).claims && 0 <= k < |w.log| && w.log[k].req.name == n
      ensures w.log[k].token <= Now(w).claims[n].created
    {
      var last := LastOf(w.log, n).value;
      assert k <= last;
    }
  }

  /** A held claim's fence passes exactly while its commit is the newest of its name and its claim still stands. */
  lemma FenceExactly(w: World, i: nat)
    requires Reachable(w) && i < |w.attempts| && w.attempts[i].phase.Held?
    ensures w.attempts[i].phase.entry < |w.log|
    ensures FencePasses(Now(w), w.attempts[i].req.name, w.log[w.attempts[i].phase.entry].token)
       <==> w.attempts[i].req.name in Now(w).claims && LastOf(w.log, w.attempts[i].req.name) == Some(w.attempts[i].phase.entry)
  {
    ReachableInv(w);
    FenceIsExact(w, i);
  }

  /** Of the attempts holding a claim on one name, at most one can pass a fence. */
  lemma OneFenceAtATime(w: World, i: nat, j: nat)
    requires Reachable(w) && i < |w.attempts| && j < |w.attempts| && i != j
    requires w.attempts[i].phase.Held? && w.attempts[j].phase.Held? && w.attempts[i].req.name == w.attempts[j].req.name
    ensures w.attempts[i].phase.entry < |w.log| && w.attempts[j].phase.entry < |w.log|
    ensures !(FencePasses(Now(w), w.attempts[i].req.name, w.log[w.attempts[i].phase.entry].token)
              && FencePasses(Now(w), w.attempts[j].req.name, w.log[w.attempts[j].phase.entry].token))
  {
    ReachableInv(w);
    FenceIsExact(w, i);
    FenceIsExact(w, j);
    assert AttemptOk(w, i) && AttemptOk(w, j);
  }

  /** A later commit took the name of a claim that `i` still believes it holds. */
  ghost predicate Superseded(w: World, i: nat) {
    && i < |w.attempts| && w.attempts[i].phase.Held?
    && exists k :: w.attempts[i].phase.entry < k < |w.log| && w.log[k].req.name == w.attempts[i].req.name
  }

  lemma StepExtends(w: World, a: Action, i: nat)
    requires Shaped(w) && i < |w.attempts| && w.attempts[i].phase.Held?
    ensures w.log <= Step(w, a).log
    ensures i < |Step(w, a).attempts|
    ensures Step(w, a).attempts[i].phase == w.attempts[i].phase && Step(w, a).attempts[i].req == w.attempts[i].req
  {}

  lemma {:induction false} RunExtends(w: World, actions: seq<Action>, i: nat)
    requires Shaped(w) && i < |w.attempts| && w.attempts[i].phase.Held?
    ensures w.log <= Run(w, actions).log
    ensures i < |Run(w, actions).attempts|
    ensures Run(w, actions).attempts[i].phase == w.attempts[i].phase && Run(w, actions).attempts[i].req == w.attempts[i].req
    decreases |actions|
  {
    if actions != [] {
      StepExtends(w, actions[0], i);
      RunExtends(Step(w, actions[0]), actions[1..], i);
    }
  }

  /** A superseded holder's fence fails. */
  lemma SupersededFence(w: World, i: nat)
    requires Inv(w) && Superseded(w, i)
    ensures w.attempts[i].phase.entry < |w.log|
    ensures !FencePasses(Now(w), w.attempts[i].req.name, w.log[w.attempts[i].phase.entry].token)
  {
    FenceIsExact(w, i);
  }

  /** A superseded holder's release leaves every claim and every slot. */
  lemma SupersededRelease(w: World, i: nat)
    requires Inv(w) && Superseded(w, i)
    ensures Now(Step(w, Release(i))).claims == Now(w).claims
    ensures Now(Step(w, Release(i))).slots == Now(w).slots
  {
    assert AttemptOk(w, i);
    var lease := w.attempts[i].phase.grants.lease;
    DropClaimLease(w, lease);
    forall n | n in Now(w).claims ensures Now(w).claims[n].lease != lease { NotNewest(w, i, n); }
    assert Drop(Now(w), lease).claims == Now(w).claims;
  }

  /** No live claim hangs on a superseded holder's lease. */
  lemma NotNewest(w: World, i: nat, n: Name)
    requires Inv(w) && Superseded(w, i) && n in Now(w).claims
    ensures Now(w).claims[n].lease != w.attempts[i].phase.grants.lease
  {
    assert AttemptOk(w, i);
    var last := LastOf(w.log, n).value;
    assert EntryOk(w, last) && AttemptOk(w, w.log[last].attempt);
  }

  /** However the run goes on, a superseded holder never fences again, and its release never frees its successor. */
  lemma SupersededForGood(w: World, i: nat, actions: seq<Action>)
    requires Reachable(w) && Superseded(w, i)
    ensures Superseded(Run(w, actions), i)
    ensures Run(w, actions).attempts[i].phase.entry < |Run(w, actions).log|
    ensures !FencePasses(Now(Run(w, actions)), w.attempts[i].req.name,
                         Run(w, actions).log[Run(w, actions).attempts[i].phase.entry].token)
    ensures Now(Step(Run(w, actions), Release(i))).claims == Now(Run(w, actions)).claims
    ensures Now(Step(Run(w, actions), Release(i))).slots == Now(Run(w, actions)).slots
  {
    ReachableInv(w);
    RunKeeps(w, actions);
    RunExtends(w, actions, i);
    var w' := Run(w, actions);
    var k :| w.attempts[i].phase.entry < k < |w.log| && w.log[k].req.name == w.attempts[i].req.name;
    assert w'.log[k] == w.log[k];
    SupersededFence(w', i);
    SupersededRelease(w', i);
  }

  /**
   * After a later grant the older run begins at most one more agent stage or sink, and that one's
   * fence had already passed before the grant.
   */
  lemma EffectsBeforeSuccessor(w: World, m: nat, k: nat)
    requires Reachable(w) && m < |w.effects| && k < |w.log|
    requires w.effects[m].attempt < |w.attempts| && w.attempts[w.effects[m].attempt].phase.Held?
    requires w.attempts[w.effects[m].attempt].phase.entry < k
    requires w.log[k].req.name == w.attempts[w.effects[m].attempt].req.name
    ensures w.effects[m].fencedAt <= k
    ensures k < w.effects[m].begunAt ==>
              forall m' :: m < m' < |w.effects| ==> w.effects[m'].attempt != w.effects[m].attempt
  {
    ReachableInv(w);
    assert EffectOk(w, m);
    forall m' | m < m' < |w.effects| && k < w.effects[m].begunAt ensures w.effects[m'].attempt != w.effects[m].attempt {
      assert EffectOk(w, m');
    }
  }

  // ---- Justified answers ----

  /** A held, tick-ran or rate-limited refusal was true of one store between call and answer. */
  lemma RefusalJustified(w: World, i: nat)
    requires Reachable(w) && i < |w.attempts|
    requires w.attempts[i].phase.Refused? && !w.attempts[i].phase.why.Unavailable? && !w.attempts[i].phase.why.Malformed?
    ensures exists at :: w.attempts[i].since <= at < |w.history| && Bears(w.history[at], w.attempts[i].req, w.attempts[i].phase.why)
    ensures forall k :: 0 <= k < |w.log| ==> w.log[k].attempt != i
  {
    ReachableInv(w);
    assert AttemptOk(w, i);
    forall k | 0 <= k < |w.log| ensures w.log[k].attempt != i {
      assert EntryOk(w, k);
    }
  }

  /** No key hangs on a lease of an attempt that never committed. */
  lemma NothingHangs(w: World, i: nat, lease: nat)
    requires Inv(w) && i < |w.attempts| && EntryOf(w.attempts[i].phase).None?
    requires lease < |w.owners| && w.owners[lease].attempt == i
    ensures Drop(Now(w), lease).claims == Now(w).claims
    ensures Drop(Now(w), lease).slots == Now(w).slots
  {
    var s := Now(w);
    forall n | n in s.claims ensures s.claims[n].lease != lease {
      var last := LastOf(w.log, n).value;
      assert EntryOk(w, last) && AttemptOk(w, w.log[last].attempt);
    }
    forall key | key in s.slots ensures s.slots[key].lease != lease {
      assert SlotOwned(w, key, s.slots[key].lease);
    }
    assert Drop(s, lease).claims == s.claims && Drop(s, lease).slots == s.slots;
  }

  /** Giving back what a refused attempt was granted touches no claim, no tick and no slot. */
  lemma RefusalChangesNothing(w: World, i: nat, a: Action)
    requires Reachable(w) && i < |w.attempts|
    requires w.attempts[i].phase.Refused? && !w.attempts[i].phase.why.Unavailable?
    requires a in {Revoke(i), RevokeSlot(i), CommitLate(i)}
    ensures Now(Step(w, a)).claims == Now(w).claims
    ensures Now(Step(w, a)).ticks == Now(w).ticks
    ensures Now(Step(w, a)).slots == Now(w).slots
  {
    ReachableInv(w);
    assert AttemptOk(w, i);
    var phase := w.attempts[i].phase;
    if phase.left.Some? {
      NothingHangs(w, i, phase.left.value.lease);
      if phase.left.value.slotLease.Some? {
        NothingHangs(w, i, phase.left.value.slotLease.value);
      }
    }
  }

  /** A claim that was answered as taken took claim, tick and slot in one revision between call and answer. */
  lemma GrantJustified(w: World, i: nat)
    requires Reachable(w) && i < |w.attempts| && w.attempts[i].phase.Held?
    ensures exists at, k ::
              && w.attempts[i].since <= at && at + 1 < |w.history| && 0 <= k < |w.log|
              && w.log[k].attempt == i && w.log[k].answered && w.log[k].req == w.attempts[i].req
              && TakenTogether(w.history[at], w.history[at + 1], w.log[k])
  {
    ReachableInv(w);
    assert AttemptOk(w, i);
    var k := w.attempts[i].phase.entry;
    assert EntryOk(w, k);
    assert TakenTogether(w.history[w.log[k].before], w.history[w.log[k].before + 1], w.log[k]);
  }

  // ---- Ticks ----

  /** Committed ticks of a name strictly increase in due instant, so one occurrence takes its claim at most once. */
  lemma TicksIncrease(w: World, a: nat, b: nat)
    requires Reachable(w) && a < |w.log| && b < |w.log|
    requires w.log[a].req.name == w.log[b].req.name
    requires w.log[a].req.trigger.Scheduled? && w.log[b].req.trigger.Scheduled?
    ensures a < b <==> w.log[a].req.trigger.due < w.log[b].req.trigger.due
    ensures a == b <==> w.log[a].req.trigger.due == w.log[b].req.trigger.due
  {
    ReachableInv(w);
  }

  /** The same world over another record of ticks. */
  function WithTicks(w: World, ticks: map<Name, Tick>): World {
    w.(history := seq(|w.history|, k requires 0 <= k < |w.history| => w.history[k].(ticks := ticks)))
  }

  lemma PushWithTicks(w: World, s: Store, ticks: map<Name, Tick>)
    requires Shaped(w)
    ensures WithTicks(Push(w, s), ticks) == Push(WithTicks(w, ticks), s.(ticks := ticks))
  {
    assert WithTicks(Push(w, s), ticks).history == Push(WithTicks(w, ticks), s.(ticks := ticks)).history;
  }

  /** What a manual attempt reads, compares and writes is the same over any record. */
  lemma ManualDecides(s: Store, req: Request, ticks: map<Name, Tick>)
    requires req.trigger.Manual?
    ensures Decide(s.(ticks := ticks), req) == Decide(s, req)
    ensures Reconsider(s.(ticks := ticks), req) == Reconsider(s, req)
  {
    if req.rate.Some? {
      assert SlotsFree(s.(ticks := ticks), req.name, req.rate.value.runs) == SlotsFree(s, req.name, req.rate.value.runs);
    }
  }

  lemma ManualPuts(s: Store, req: Request, g: Grants, tx: Tx, ticks: map<Name, Tick>)
    requires req.trigger.Manual?
    ensures Unchanged(s.(ticks := ticks), req, tx) == Unchanged(s, req, tx)
    ensures Commits(s.(ticks := ticks), req, g, tx) == Commits(s, req, g, tx)
    ensures Commits(s, req, g, tx) ==> Put(s.(ticks := ticks), req, g, tx) == Put(s, req, g, tx).(ticks := ticks)
  {}

  lemma CommitWithTicks(w: World, i: nat, g: Grants, tx: Tx, answered: bool, ticks: map<Name, Tick>)
    requires Shaped(w) && i < |w.attempts| && w.attempts[i].req.trigger.Manual? && Commits(Now(w), w.attempts[i].req, g, tx)
    ensures Now(WithTicks(w, ticks)) == Now(w).(ticks := ticks)
    ensures Commits(Now(w).(ticks := ticks), w.attempts[i].req, g, tx)
    ensures WithTicks(Commit(w, i, g, tx, answered), ticks) == Commit(WithTicks(w, ticks), i, g, tx, answered)
  {
    ManualPuts(Now(w), w.attempts[i].req, g, tx, ticks);
    PushWithTicks(w, Put(Now(w), w.attempts[i].req, g, tx), ticks);
  }

  /** A step of a manual attempt. */
  predicate ManualStep(w: World, a: Action) {
    !a.Begin? && !a.Lapse? && !a.Pass? && a.i < |w.attempts| && w.attempts[a.i].req.trigger.Manual?
  }

  predicate IgnoresTicks(w: World, a: Action, ticks: map<Name, Tick>)
    requires Shaped(w)
  {
    && Now(Step(w, a)).ticks == Now(w).ticks
    && Shaped(WithTicks(w, ticks)) && Step(WithTicks(w, ticks), a) == WithTicks(Step(w, a), ticks)
  }

  lemma ManualLends(w: World, a: Action, ticks: map<Name, Tick>)
    requires Shaped(w) && ManualStep(w, a) && (a.GrantLease? || a.GrantSlotLease?)
    ensures IgnoresTicks(w, a, ticks)
  {
    PushWithTicks(w, Grant(Now(w), a.granted), ticks);
    assert Now(WithTicks(w, ticks)) == Now(w).(ticks := ticks);
  }

  lemma ManualTransacts(w: World, a: Action, ticks: map<Name, Tick>)
    requires Shaped(w) && ManualStep(w, a) && (a.Transact? || a.CommitLate?)
    ensures IgnoresTicks(w, a, ticks)
  {
    var s, me := Now(w), w.attempts[a.i];
    ManualDecides(s, me.req, ticks);
    assert Now(WithTicks(w, ticks)) == s.(ticks := ticks);
    match (a, me.phase)
    case (Transact(_), Seen(g, tx)) =>
      ManualPuts(s, me.req, g, tx, ticks);
      if Commits(s, me.req, g, tx) { CommitWithTicks(w, a.i, g, tx, true, ticks); }
    case (CommitLate(_), Refused(_, _, Some(g), Some(tx), None)) =>
      ManualPuts(s, me.req, g, tx, ticks);
      if Commits(s, me.req, g, tx) { CommitWithTicks(w, a.i, g, tx, false, ticks); }
    case _ =>
  }

  lemma ManualLeases(w: World, a: Action, ticks: map<Name, Tick>)
    requires Shaped(w) && ManualStep(w, a) && (a.Revoke? || a.RevokeSlot? || a.Renew? || a.Release?)
    ensures IgnoresTicks(w, a, ticks)
  {
    var s := Now(w);
    assert Now(WithTicks(w, ticks)) == s.(ticks := ticks);
    match (a, w.attempts[a.i].phase)
    case (Revoke(_), Refused(_, _, Some(g), _, _)) => PushWithTicks(w, Drop(s, g.lease), ticks);
    case (RevokeSlot(_), Refused(_, _, Some(g), _, _)) =>
      if g.slotLease.Some? { PushWithTicks(w, Drop(s, g.slotLease.value), ticks); }
    case (Renew(_), Held(g, _)) => if g.lease in s.leases { PushWithTicks(w, KeepAlive(s, g.lease), ticks); }
    case (Release(_), Held(g, _)) => PushWithTicks(w, Drop(s, g.lease), ticks);
    case _ =>
  }

  /** Every step of a manual attempt is the step it would be over any other record of ticks, and moves no tick. */
  lemma ManualLeavesTicks(w: World, a: Action, ticks: map<Name, Tick>)
    requires Shaped(w) && ManualStep(w, a)
    ensures IgnoresTicks(w, a, ticks)
  {
    if a.GrantLease? || a.GrantSlotLease? {
      ManualLends(w, a, ticks);
    } else if a.Transact? || a.CommitLate? {
      ManualTransacts(w, a, ticks);
    } else if a.Revoke? || a.RevokeSlot? || a.Renew? || a.Release? {
      ManualLeases(w, a, ticks);
    } else {
      ManualDecides(Now(w), w.attempts[a.i].req, ticks);
      assert Now(WithTicks(w, ticks)) == Now(w).(ticks := ticks);
    }
  }

  // ---- Rate ----

  /** Every rated request of the name declares this limit. */
  ghost predicate FixedLimit(w: World, name: Name, limit: Rate) {
    forall i :: 0 <= i < |w.attempts| && w.attempts[i].req.name == name && w.attempts[i].req.rate.Some? ==>
                  w.attempts[i].req.rate.value == limit
  }

  /** Two of more values than there are holes share one. */
  lemma {:induction false} Pigeonhole(holes: seq<nat>, n: nat)
    requires |holes| > n && forall k :: 0 <= k < |holes| ==> holes[k] < n
    ensures exists a, b :: 0 <= a < b < |holes| && holes[a] == holes[b]
    decreases n
  {
    assert 0 <= holes[0] < n;
    var k := if n - 1 in holes then IndexOf(holes, n - 1) else 0;
    if j :| 0 <= j < |holes| && j != k && holes[j] == n - 1 {
      assert holes[Min(j, k)] == holes[Max(j, k)];
    } else {
      // At most one index is in the last hole: without it, one hole less.
      var rest := holes[..k] + holes[k + 1..];
      forall j | 0 <= j < |rest| ensures rest[j] < n - 1 {
        assert rest[j] == holes[if j < k then j else j + 1];
      }
      Pigeonhole(rest, n - 1);
      var c, d :| 0 <= c < d < |rest| && rest[c] == rest[d];
      assert holes[if c < k then c else c + 1] == holes[if d < k then d else d + 1];
    }
  }

  function IndexOf(s: seq<nat>, x: nat): (k: nat)
    requires x in s
    ensures k < |s| && s[k] == x
  {
    if s[0] == x then 0 else 1 + IndexOf(s[1..], x)
  }

  /** Some indices into the log of answered, rated claims of a name, in order. */
  ghost predicate RatedClaims(w: World, name: Name, ks: seq<nat>) {
    && (forall x :: 0 <= x < |ks| ==>
          ks[x] < |w.log| && w.log[ks[x]].req.name == name && w.log[ks[x]].req.rate.Some? && w.log[ks[x]].answered)
    && (forall x, y :: 0 <= x < y < |ks| ==> ks[x] < ks[y])
  }

  /**
   * Any `runs + 1` rated claims of a name span at least the window, less the time one of them
   * took from the grant of its slot's lease to its commit.
   */
  lemma WindowHolds(w: World, name: Name, limit: Rate, ks: seq<nat>)
    requires Reachable(w) && FixedLimit(w, name, limit)
    requires RatedClaims(w, name, ks) && |ks| == limit.runs + 1
    ensures exists x :: 0 <= x < limit.runs &&
              w.log[Last(ks)].at - w.log[ks[0]].at >= limit.per - (w.log[ks[x]].at - w.log[ks[x]].grants.slotGrantedAt)
  {
    ReachableInv(w);
    forall x | 0 <= x < |ks| ensures w.log[ks[x]].req.rate == Some(limit) && w.log[ks[x]].slot < limit.runs {
      assert EntryOk(w, ks[x]);
    }
    var holes := seq(|ks|, x requires 0 <= x < |ks| => w.log[ks[x]].slot);
    Pigeonhole(holes, limit.runs);
    var a, b :| 0 <= a < b < |holes| && holes[a] == holes[b];
    assert SameSlot(w.log[ks[a]], w.log[ks[b]]);
    assert SpansWindow(w.log[ks[a]], w.log[ks[b]].at);
    assert w.log[ks[0]].at <= w.log[ks[a]].at;
    assert w.log[ks[b]].at <= w.log[Last(ks)].at;
  }

  /** A slot outlives its claim: neither a release nor the claim's own lapse frees one, whoever holds it. */
  lemma ReleaseFreesNoSlot(w: World, i: nat)
    requires Reachable(w) && i < |w.attempts| && w.attempts[i].phase.Held?
    ensures Now(Step(w, Release(i))).slots == Now(w).slots
    ensures Now(Step(w, Lapse(w.attempts[i].phase.grants.lease))).slots == Now(w).slots
  {
    ReachableInv(w);
    assert AttemptOk(w, i);
    DropKeepsSlots(w, w.attempts[i].phase.grants.lease);
  }

  /** Live slots never exceed the limit. */
  lemma SlotsBounded(w: World, name: Name, limit: Rate, live: set<nat>)
    requires Reachable(w) && FixedLimit(w, name, limit)
    requires forall j :: j in live ==> (name, j) in Now(w).slots
    ensures |live| <= limit.runs
  {
    ReachableInv(w);
    forall j | j in live ensures j < limit.runs {
      var lease := Now(w).slots[(name, j)].lease;
      assert SlotOwned(w, (name, j), lease);
      var entry := EntryOf(w.attempts[w.owners[lease].attempt].phase).value;
      assert EntryOk(w, entry);
    }
    BelowIsSmall(live, limit.runs);
  }

  lemma {:induction false} BelowIsSmall(s: set<nat>, n: nat)
    requires forall j :: j in s ==> j < n
    ensures |s| <= n
    decreases n
  {
    if n == 0 {
      assert s == {};
    } else {
      BelowIsSmall(s - {n - 1}, n - 1);
      if n - 1 in s { assert |s - {n - 1}| == |s| - 1; } else { assert s - {n - 1} == s; }
    }
  }
}
