/** What the in-memory backend promises over every run, and where it answers unlike the adapter. */
module FakeTheorems {
  import opened Common
  import opened Coordination
  import opened Fake
  import Etcd = EtcdStore

  // ---- What every step keeps ----

  ghost predicate LogOk(w: World) {
    && (forall k :: 0 <= k < |w.log| ==> 1 <= w.log[k].token <= w.revision && w.log[k].at <= w.now)
    && (forall a, b :: 0 <= a < b < |w.log| ==> w.log[a].token < w.log[b].token && w.log[a].at <= w.log[b].at)
  }

  /** The claim on a name is the newest taken on it. */
  ghost predicate ClaimOk(w: World, name: Name) {
    name in w.claims ==>
      exists k :: 0 <= k < |w.log| && TakenAs(w, k, name, w.claims[name].token) && NewestOf(w, k)
  }

  predicate TakenAs(w: World, k: nat, name: Name, token: nat)
    requires k < |w.log|
  {
    w.log[k].token == token && w.log[k].req.name == name
  }

  ghost predicate NewestOf(w: World, k: nat)
    requires k < |w.log|
  {
    forall later :: k < later < |w.log| ==> w.log[later].req.name != w.log[k].req.name
  }

  ghost predicate TickOk(w: World, name: Name) {
    && (name in w.ticks ==> 1 <= w.ticks[name].revision <= w.revision)
    && (forall k :: 0 <= k < |w.log| && w.log[k].req.name == name && w.log[k].req.trigger.Scheduled? ==>
          name in w.ticks && w.log[k].req.trigger.due <= w.ticks[name].due)
  }

  ghost predicate DuesOk(w: World) {
    forall a, b :: 0 <= a < b < |w.log| && w.log[a].req.name == w.log[b].req.name
                   && w.log[a].req.trigger.Scheduled? && w.log[b].req.trigger.Scheduled? ==>
                     w.log[a].req.trigger.due < w.log[b].req.trigger.due
  }

  ghost predicate AttemptOk(w: World, i: nat)
    requires i < |w.attempts|
  {
    var me := w.attempts[i];
    match me.phase
    case Seen(tickRev) =>
      tickRev <= w.revision
      && (me.req.trigger.Scheduled? && TickRevision(w, me.req.name) == tickRev ==> !AlreadyRan(me.req.trigger, TickDue(w, me.req.name)))
    case Held(token) =>
      exists k :: 0 <= k < |w.log| && TakenAs(w, k, me.req.name, token)
    case _ => true
  }

  ghost predicate HandlesApart(w: World) {
    forall i, j :: 0 <= i < j < |w.attempts| && w.attempts[i].phase.Held? && w.attempts[j].phase.Held? ==>
                     w.attempts[i].phase.token != w.attempts[j].phase.token
  }

  ghost predicate HandlesKnown(w: World) {
    forall i :: 0 <= i < |w.attempts| && w.attempts[i].phase.Held? ==> w.attempts[i].phase.token <= w.revision
  }

  ghost predicate Inv(w: World) {
    && LogOk(w) && DuesOk(w) && HandlesApart(w) && HandlesKnown(w)
    && (forall n :: n in w.claims ==> ClaimOk(w, n))
    && (forall n :: TickOk(w, n))
    && (forall i :: 0 <= i < |w.attempts| ==> AttemptOk(w, i))
  }

  /** A step that takes nothing: claims may go or be prolonged, the rest of the record stays. */
  ghost predicate TakesNothing(w: World, w': World) {
    && w'.log == w.log && w'.ticks == w.ticks && w'.revision == w.revision && w'.now >= w.now
    && (forall n :: n in w'.claims ==> n in w.claims && w'.claims[n].token == w.claims[n].token)
    && |w'.attempts| >= |w.attempts|
    && (forall i :: 0 <= i < |w'.attempts| ==> AttemptOk(w', i))
    && (forall i :: 0 <= i < |w'.attempts| && w'.attempts[i].phase.Held? ==> i < |w.attempts| && w.attempts[i] == w'.attempts[i])
  }

  lemma TakesNothingKeeps(w: World, w': World)
    requires Inv(w) && TakesNothing(w, w')
    ensures Inv(w')
  {
    forall n | n in w'.claims ensures ClaimOk(w', n) {
      assert ClaimOk(w, n);
      var k :| 0 <= k < |w.log| && TakenAs(w, k, n, w.claims[n].token) && NewestOf(w, k);
      assert TakenAs(w', k, n, w'.claims[n].token) && NewestOf(w', k);
    }
    forall n ensures TickOk(w', n) {
      assert TickOk(w, n);
    }
  }

  lemma ReadKeeps(w: World, i: nat)
    requires Inv(w) && i < |w.attempts| && w.attempts[i].phase.Deciding?
    ensures Inv(Reading(w, i))
  {
    var w' := Reading(w, i);
    assert TickOk(w, w.attempts[i].req.name);
    forall j | 0 <= j < |w'.attempts| ensures AttemptOk(w', j) {
      assert AttemptOk(w, j);
      SamePhaseOk(w, w', i, j);
    }
    TakesNothingKeeps(w, w');
  }

  lemma SamePhaseOk(w: World, w': World, i: nat, j: nat)
    requires i < |w.attempts| && j < |w.attempts| && w'.log == w.log && w'.ticks == w.ticks && w'.revision == w.revision
    requires |w'.attempts| == |w.attempts| && (j != i ==> w'.attempts[j] == w.attempts[j]) && AttemptOk(w, j)
    requires j == i ==> w'.attempts[i].phase.Deciding? || w'.attempts[i].phase.Refused?
                        || (w'.attempts[i].phase == Seen(TickRevision(w, w'.attempts[i].req.name))
                            && TickRevision(w, w'.attempts[i].req.name) <= w.revision
                            && !AlreadyRan(w'.attempts[i].req.trigger, TickDue(w, w'.attempts[i].req.name)))
    ensures AttemptOk(w', j)
  {
    if j != i && w.attempts[j].phase.Held? {
      var me := w.attempts[j];
      var k :| 0 <= k < |w.log| && TakenAs(w, k, me.req.name, me.phase.token);
      assert TakenAs(w', k, me.req.name, me.phase.token);
    }
  }

  /** Taking claim, slot and tick: the new entry is the newest of its name, its tick the latest. */
  lemma TakeKeeps(w: World, i: nat)
    requires Inv(w) && i < |w.attempts| && !Stands(w, w.attempts[i].req.name)
    requires w.attempts[i].req.trigger.Scheduled? ==> !AlreadyRan(w.attempts[i].req.trigger, TickDue(w, w.attempts[i].req.name))
    ensures Inv(Take(w, i))
  {
    var w' := Take(w, i);
    assert TickOk(w, w.attempts[i].req.name);
    forall n | n in w'.claims ensures ClaimOk(w', n) {
      TakeKeepsClaim(w, i, n);
    }
    forall n ensures TickOk(w', n) {
      TakeKeepsTick(w, i, n);
    }
    TakeKeepsLog(w, i);
    forall j | 0 <= j < |w'.attempts| ensures AttemptOk(w', j) {
      TakeKeepsAttempt(w, i, j);
    }
  }

  lemma TakeKeepsLog(w: World, i: nat)
    requires LogOk(w) && DuesOk(w) && HandlesApart(w) && HandlesKnown(w) && i < |w.attempts| && TickOk(w, w.attempts[i].req.name)
    requires w.attempts[i].req.trigger.Scheduled? ==> !AlreadyRan(w.attempts[i].req.trigger, TickDue(w, w.attempts[i].req.name))
    ensures LogOk(Take(w, i)) && DuesOk(Take(w, i)) && HandlesApart(Take(w, i)) && HandlesKnown(Take(w, i))
  {}

  lemma TakeKeepsClaim(w: World, i: nat, n: Name)
    requires Inv(w) && i < |w.attempts| && n in Take(w, i).claims
    ensures ClaimOk(Take(w, i), n)
  {
    var w' := Take(w, i);
    if n == w.attempts[i].req.name {
      assert TakenAs(w', |w.log|, n, w'.claims[n].token) && NewestOf(w', |w.log|);
    } else {
      assert ClaimOk(w, n);
      var k :| 0 <= k < |w.log| && TakenAs(w, k, n, w.claims[n].token) && NewestOf(w, k);
      assert TakenAs(w', k, n, w'.claims[n].token) && NewestOf(w', k);
    }
  }

  lemma TakeKeepsTick(w: World, i: nat, n: Name)
    requires Inv(w) && i < |w.attempts|
    requires w.attempts[i].req.trigger.Scheduled? ==> !AlreadyRan(w.attempts[i].req.trigger, TickDue(w, w.attempts[i].req.name))
    ensures TickOk(Take(w, i), n)
  {
    assert TickOk(w, n);
  }

  lemma TakeKeepsAttempt(w: World, i: nat, j: nat)
    requires Inv(w) && i < |w.attempts| && j < |w.attempts|
    ensures AttemptOk(Take(w, i), j)
  {
    var w' := Take(w, i);
    assert AttemptOk(w, j);
    if j == i {
      assert TakenAs(w', |w.log|, w.attempts[i].req.name, w.revision + 1);
    } else if w.attempts[j].phase.Held? {
      var me := w.attempts[j];
      var k :| 0 <= k < |w.log| && TakenAs(w, k, me.req.name, me.phase.token);
      assert TakenAs(w', k, me.req.name, me.phase.token);
    }
  }

  lemma ReapKeeps(w: World, name: Name)
    requires Inv(w)
    ensures Inv(Reap(w, name)) && Inv(Prune(Reap(w, name), name))
  {
    QuietKeeps(w, Reap(w, name));
    QuietKeeps(w, Prune(Reap(w, name), name));
  }

  /** As TakesNothing, with no attempt moved. */
  lemma QuietKeeps(w: World, w': World)
    requires Inv(w) && w'.log == w.log && w'.ticks == w.ticks && w'.revision == w.revision && w'.now >= w.now
    requires w'.attempts == w.attempts
    requires forall n :: n in w'.claims ==> n in w.claims && w'.claims[n].token == w.claims[n].token
    ensures Inv(w')
  {
    forall j | 0 <= j < |w'.attempts| ensures AttemptOk(w', j) {
      assert AttemptOk(w, j);
      if w.attempts[j].phase.Held? {
        var me := w.attempts[j];
        var k :| 0 <= k < |w.log| && TakenAs(w, k, me.req.name, me.phase.token);
        assert TakenAs(w', k, me.req.name, me.phase.token);
      }
    }
    TakesNothingKeeps(w, w');
  }

  /** An attempt that holds nothing goes back, or is refused. */
  lemma MoveKeeps(w: World, i: nat, phase: Phase)
    requires Inv(w) && i < |w.attempts| && !w.attempts[i].phase.Held? && (phase.Deciding? || phase.Refused?)
    ensures Inv(Move(w, i, phase))
  {
    var w' := Move(w, i, phase);
    forall j | 0 <= j < |w'.attempts| ensures AttemptOk(w', j) {
      assert AttemptOk(w, j);
      SamePhaseOk(w, w', i, j);
    }
    TakesNothingKeeps(w, w');
  }

  lemma CommitKeeps(w: World, i: nat)
    requires Inv(w) && i < |w.attempts| && w.attempts[i].phase.Seen?
    ensures Inv(Taking(w, i))
  {
    var req := w.attempts[i].req;
    assert AttemptOk(w, i);
    ReapKeeps(w, req.name);
    if Overtaken(w, req, w.attempts[i].phase.tickRev) {
      MoveKeeps(Reap(w, req.name), i, Deciding);
    } else if req.rate.None? {
      TakeKeeps(Reap(w, req.name), i);
    } else if Full(w, req.name, req.rate.value) {
      MoveKeeps(Prune(Reap(w, req.name), req.name), i, Deciding);
    } else {
      TakeKeeps(Prune(Reap(w, req.name), req.name), i);
    }
  }

  lemma BeginKeeps(w: World, req: Request, granted: nat)
    requires Inv(w)
    ensures Inv(Step(w, Begin(req, granted)))
  {
    var w' := Step(w, Begin(req, granted));
    forall j | 0 <= j < |w'.attempts| ensures AttemptOk(w', j) {
      if j < |w.attempts| {
        assert AttemptOk(w, j);
        if w.attempts[j].phase.Held? {
          var me := w.attempts[j];
          var k :| 0 <= k < |w.log| && TakenAs(w, k, me.req.name, me.phase.token);
          assert TakenAs(w', k, me.req.name, me.phase.token);
        }
      }
    }
    TakesNothingKeeps(w, w');
  }

  lemma RenewKeeps(w: World, name: Name, token: nat)
    requires Inv(w)
    ensures Inv(Renewed(w, name, token))
  {
    QuietKeeps(w, Renewed(w, name, token));
  }

  lemma ReleaseKeeps(w: World, name: Name, token: nat)
    requires Inv(w)
    ensures Inv(Released(w, name, token))
  {
    QuietKeeps(w, Released(w, name, token));
  }

  /** What a handle's own step comes to. */
  lemma HandleStep(w: World, a: Action)
    requires (a.Renew? || a.Fence? || a.Release? || a.GiveUp?) && a.i < |w.attempts|
    ensures
      var me := w.attempts[a.i];
      StepOf(w, a) ==
        if a.Renew? && me.phase.Held? then Renewed(w, me.req.name, me.phase.token)
        else if a.Fence? && me.phase.Held? then Reap(w, me.req.name)
        else if a.Release? && me.phase.Held? then Released(w, me.req.name, me.phase.token)
        else if a.GiveUp? && (me.phase.Deciding? || me.phase.Seen?) then Move(w, a.i, Refused(Unavailable))
        else w
  {}

  lemma OwnStepKeeps(w: World, a: Action)
    requires Inv(w) && (a.Renew? || a.Fence? || a.Release? || a.GiveUp?) && a.i < |w.attempts|
    ensures Inv(StepOf(w, a))
  {
    var me := w.attempts[a.i];
    HandleStep(w, a);
    if a.GiveUp? && (me.phase.Deciding? || me.phase.Seen?) {
      MoveKeeps(w, a.i, Refused(Unavailable));
    } else if a.Renew? && me.phase.Held? {
      RenewKeeps(w, me.req.name, me.phase.token);
    } else if a.Release? && me.phase.Held? {
      ReleaseKeeps(w, me.req.name, me.phase.token);
    } else if a.Fence? && me.phase.Held? {
      ReapKeeps(w, me.req.name);
    }
  }

  lemma StepKeeps(w: World, a: Action)
    requires Inv(w)
    ensures Inv(Step(w, a))
  {
    if a.Begin? {
      BeginKeeps(w, a.req, a.granted);
    } else if a.Expire? || a.Pass? {
      QuietKeeps(w, Step(w, a));
    } else if a.i < |w.attempts| {
      if a.Read? {
        if w.attempts[a.i].phase.Deciding? { ReadKeeps(w, a.i); }
      } else if a.Commit? {
        if w.attempts[a.i].phase.Seen? { CommitKeeps(w, a.i); }
      } else {
        OwnStepKeeps(w, a);
      }
    }
  }

  lemma {:induction false} RunKeeps(w: World, actions: seq<Action>)
    requires Inv(w)
    ensures Inv(Run(w, actions))
    decreases |actions|
  {
    if actions != [] {
      StepKeeps(w, actions[0]);
      RunKeeps(Step(w, actions[0]), actions[1..]);
    }
  }

  ghost predicate Reachable(w: World) {
    exists now: int, actions: seq<Action> :: w == Run(Start(now), actions)
  }

  lemma ReachableInv(w: World)
    requires Reachable(w)
    ensures Inv(w)
  {
    var now: int, actions: seq<Action> :| w == Run(Start(now), actions);
    RunKeeps(Start(now), actions);
  }

  // ---- Exclusion, fencing and ticks ----

  /** Tokens of successive claims strictly increase, in the order they were taken. */
  lemma TokensIncrease(w: World, a: nat, b: nat)
    requires Reachable(w) && a < |w.log| && b < |w.log|
    ensures a < b <==> w.log[a].token < w.log[b].token
  {
    ReachableInv(w);
  }

  /** Which taking a held handle stands for. */
  ghost predicate HandleOf(w: World, i: nat, k: nat) {
    && i < |w.attempts| && k < |w.log| && w.attempts[i].phase.Held?
    && TakenAs(w, k, w.attempts[i].req.name, w.attempts[i].phase.token)
  }

  /** A handle's fence passes exactly while its taking is the newest of its name and a claim on that name stands. */
  lemma FenceExactly(w: World, i: nat, k: nat)
    requires Reachable(w) && HandleOf(w, i, k)
    ensures Current(w, w.attempts[i].req.name, w.attempts[i].phase.token)
       <==> Stands(w, w.attempts[i].req.name) && NewestOf(w, k)
  {
    ReachableInv(w);
    var name := w.attempts[i].req.name;
    if Stands(w, name) {
      assert ClaimOk(w, name);
      var newest :| 0 <= newest < |w.log| && TakenAs(w, newest, name, w.claims[name].token) && NewestOf(w, newest);
      assert newest == k <==> w.log[newest].token == w.log[k].token;
    }
  }

  /** Of the handles on one name, at most one can pass a fence. */
  lemma OneFenceAtATime(w: World, i: nat, j: nat)
    requires Reachable(w) && i < |w.attempts| && j < |w.attempts| && i != j
    requires w.attempts[i].phase.Held? && w.attempts[j].phase.Held? && w.attempts[i].req.name == w.attempts[j].req.name
    ensures !(Current(w, w.attempts[i].req.name, w.attempts[i].phase.token)
              && Current(w, w.attempts[j].req.name, w.attempts[j].phase.token))
  {
    ReachableInv(w);
    assert w.attempts[Min(i, j)].phase.token != w.attempts[Max(i, j)].phase.token;
  }

  /** What is taken stays taken, requests never change, and a handle is a handle for good. */
  ghost predicate Extends(w: World, w': World) {
    && w.log <= w'.log
    && |w.attempts| <= |w'.attempts|
    && (forall i :: 0 <= i < |w.attempts| ==> w'.attempts[i].req == w.attempts[i].req)
    && (forall i :: 0 <= i < |w.attempts| && w.attempts[i].phase.Held? ==> w'.attempts[i] == w.attempts[i])
  }

  /** What no step but a commit does: take. Of the slots, it drops expired ones of one name at most. */
  ghost predicate Quiet(w: World, w': World) {
    && w'.log == w.log && w'.now >= w.now
    && (w'.slots == w.slots || exists n: Name :: w'.slots == Prune(w, n).slots)
    && Extends(w, w')
  }

  lemma ReadQuiet(w: World, i: nat)
    requires i < |w.attempts| && w.attempts[i].phase.Deciding?
    ensures Quiet(w, Reading(w, i))
  {
    var name := w.attempts[i].req.name;
    assert Prune(Reap(w, name), name).slots == Prune(w, name).slots;
  }

  lemma OwnStepQuiet(w: World, a: Action)
    requires !a.Begin? && !a.Expire? && !a.Pass? && !a.Commit? && !a.Read? && a.i < |w.attempts|
    ensures Quiet(w, StepOf(w, a))
  {}

  lemma StepQuiet(w: World, a: Action)
    requires a.Commit? ==> a.i >= |w.attempts| || !w.attempts[a.i].phase.Seen?
    ensures Quiet(w, Step(w, a))
  {
    if !a.Begin? && !a.Expire? && !a.Pass? && a.i < |w.attempts| {
      if a.Read? && w.attempts[a.i].phase.Deciding? {
        ReadQuiet(w, a.i);
      } else if !a.Read? && !a.Commit? {
        OwnStepQuiet(w, a);
      } else {
        assert Step(w, a) == w;
      }
    }
  }

  lemma CommitExtends(w: World, i: nat)
    requires i < |w.attempts| && w.attempts[i].phase.Seen?
    ensures Extends(w, Taking(w, i))
  {}

  lemma StepExtends(w: World, a: Action)
    ensures Extends(w, Step(w, a))
  {
    if a.Commit? && a.i < |w.attempts| && w.attempts[a.i].phase.Seen? {
      CommitExtends(w, a.i);
      assert Step(w, a) == Taking(w, a.i);
    } else {
      StepQuiet(w, a);
    }
  }

  lemma {:induction false} RunExtends(w: World, actions: seq<Action>)
    ensures w.log <= Run(w, actions).log
    ensures |w.attempts| <= |Run(w, actions).attempts|
    ensures forall i :: 0 <= i < |w.attempts| && w.attempts[i].phase.Held? ==> Run(w, actions).attempts[i] == w.attempts[i]
    decreases |actions|
  {
    if actions != [] {
      StepExtends(w, actions[0]);
      RunExtends(Step(w, actions[0]), actions[1..]);
    }
  }

  /**
   * Once a later taking of its name is recorded, however the run goes on, a handle never fences
   * again, its renewal prolongs nothing, and its release ends nobody's claim.
   */
  lemma SupersededForGood(w: World, i: nat, k: nat, actions: seq<Action>)
    requires Reachable(w) && HandleOf(w, i, k) && !NewestOf(w, k)
    ensures
      var w', name, token := Run(w, actions), w.attempts[i].req.name, w.attempts[i].phase.token;
      && !Current(w', name, token)
      && Renewed(w', name, token) == Reap(w', name)
      && forall n :: Stands(Released(w', name, token), n) <==> Stands(w', n)
  {
    var now: int, before: seq<Action> :| w == Run(Start(now), before);
    RunAppends(Start(now), before, actions);
    RunExtends(w, actions);
    var w' := Run(w, actions);
    assert Reachable(w');
    var later :| k < later < |w.log| && w.log[later].req.name == w.log[k].req.name;
    assert w'.log[later] == w.log[later] && w'.log[k] == w.log[k];
    FenceExactly(w', i, k);
  }

  /** Scheduled takings of a name strictly increase in due instant, so one occurrence is taken at most once. */
  lemma TicksIncrease(w: World, a: nat, b: nat)
    requires Reachable(w) && a < |w.log| && b < |w.log|
    requires w.log[a].req.name == w.log[b].req.name
    requires w.log[a].req.trigger.Scheduled? && w.log[b].req.trigger.Scheduled?
    ensures a < b <==> w.log[a].req.trigger.due < w.log[b].req.trigger.due
    ensures a == b <==> w.log[a].req.trigger.due == w.log[b].req.trigger.due
  {
    ReachableInv(w);
  }

  /** A world with the tick record, and what attempt `i` remembers of it, left out. */
  function Blind(w: World, i: nat): World
    requires i < |w.attempts|
  {
    var me := w.attempts[i];
    w.(ticks := map[], attempts := w.attempts[i := me.(phase := if me.phase.Seen? then Seen(0) else me.phase)])
  }

  predicate StepsBlind(w: World, a: Action)
    requires !a.Begin? && !a.Expire? && !a.Pass? && a.i < |w.attempts|
  {
    && Step(w, a).ticks == w.ticks
    && |Step(w, a).attempts| == |Step(Blind(w, a.i), a).attempts| == |w.attempts|
    && Blind(Step(w, a), a.i) == Blind(Step(Blind(w, a.i), a), a.i)
  }

  lemma BlindMove(w: World, i: nat, phase: Phase, phase': Phase)
    requires i < |w.attempts| && (phase == phase' || (phase.Seen? && phase'.Seen?))
    ensures Blind(Move(w, i, phase), i) == Blind(Move(Blind(w, i), i, phase'), i)
  {
    assert Blind(Move(w, i, phase), i).attempts == Blind(Move(Blind(w, i), i, phase'), i).attempts;
  }

  lemma BlindReads(w: World, a: Action)
    requires a.Read? && a.i < |w.attempts| && w.attempts[a.i].req.trigger.Manual? && w.attempts[a.i].phase.Deciding?
    ensures StepsBlind(w, a)
  {
    var i, req := a.i, w.attempts[a.i].req;
    var b := Blind(w, i);
    assert b.attempts == w.attempts;
    var reaped, pruned := Reap(w, req.name), Prune(Reap(w, req.name), req.name);
    assert Reap(b, req.name) == Blind(reaped, i) && Prune(Reap(b, req.name), req.name) == Blind(pruned, i);
    var seen, seen' := Seen(TickRevision(w, req.name)), Seen(TickRevision(b, req.name));
    BlindMove(reaped, i, seen, seen');
    BlindMove(pruned, i, seen, seen');
    assert Step(w, a) == Reading(w, i) && Step(b, a) == Reading(b, i);
    if req.rate.Some? { BlindMove(pruned, i, Refused(RateLimited(req.rate.value)), Refused(RateLimited(req.rate.value))); }
    if Decide(w, req).Some? { BlindMove(reaped, i, Refused(Decide(w, req).value), Refused(Decide(w, req).value)); }
  }

  lemma BlindTake(w: World, i: nat)
    requires i < |w.attempts| && w.attempts[i].req.trigger.Manual?
    ensures Take(w, i).ticks == w.ticks && Blind(Take(w, i), i) == Blind(Take(Blind(w, i), i), i)
  {
    assert Blind(Take(w, i), i).attempts == Blind(Take(Blind(w, i), i), i).attempts;
  }

  lemma BlindReap(w: World, i: nat, name: Name)
    requires i < |w.attempts|
    ensures Reap(Blind(w, i), name) == Blind(Reap(w, name), i)
    ensures Prune(Reap(Blind(w, i), name), name) == Blind(Prune(Reap(w, name), name), i)
  {}

  lemma BlindTaking(w: World, i: nat)
    requires i < |w.attempts| && w.attempts[i].req.trigger.Manual? && w.attempts[i].phase.Seen?
    ensures Blind(w, i).attempts[i].phase.Seen? && Taking(w, i).ticks == w.ticks
    ensures |Taking(w, i).attempts| == |Taking(Blind(w, i), i).attempts| == |w.attempts|
    ensures Blind(Taking(w, i), i) == Blind(Taking(Blind(w, i), i), i)
  {
    var name := w.attempts[i].req.name;
    BlindReap(w, i, name);
    if Stands(w, name) {
      BlindMove(Reap(w, name), i, Deciding, Deciding);
    } else if w.attempts[i].req.rate.None? {
      BlindTake(Reap(w, name), i);
    } else if Full(w, name, w.attempts[i].req.rate.value) {
      BlindMove(Prune(Reap(w, name), name), i, Deciding, Deciding);
    } else {
      BlindTake(Prune(Reap(w, name), name), i);
    }
  }

  lemma BlindCommits(w: World, a: Action)
    requires a.Commit? && a.i < |w.attempts| && w.attempts[a.i].req.trigger.Manual? && w.attempts[a.i].phase.Seen?
    ensures StepsBlind(w, a)
  {
    BlindTaking(w, a.i);
    assert Step(w, a) == Taking(w, a.i) && Step(Blind(w, a.i), a) == Taking(Blind(w, a.i), a.i);
  }

  /** A handle's own calls look at its claim alone. */
  lemma BlindHandle(w: World, a: Action)
    requires (a.Renew? || a.Fence? || a.Release?) && a.i < |w.attempts| && w.attempts[a.i].phase.Held?
    ensures StepsBlind(w, a)
  {
    assert Blind(w, a.i) == w.(ticks := map[]);
    assert Step(w, a).(ticks := map[]) == Step(Blind(w, a.i), a);
  }

  lemma BlindQuits(w: World, a: Action)
    requires a.GiveUp? && a.i < |w.attempts| && (w.attempts[a.i].phase.Deciding? || w.attempts[a.i].phase.Seen?)
    ensures StepsBlind(w, a)
  {
    BlindMove(w, a.i, Refused(Unavailable), Refused(Unavailable));
  }

  lemma StaysPut(w: World, a: Action)
    requires !a.Begin? && !a.Expire? && !a.Pass? && a.i < |w.attempts|
    requires !(a.Read? && w.attempts[a.i].phase.Deciding?) && !(a.Commit? && w.attempts[a.i].phase.Seen?)
    requires !((a.Renew? || a.Fence? || a.Release?) && w.attempts[a.i].phase.Held?)
    requires !(a.GiveUp? && (w.attempts[a.i].phase.Deciding? || w.attempts[a.i].phase.Seen?))
    ensures Step(w, a) == w
  {}

  lemma BlindStep(w: World, a: Action)
    requires !a.Begin? && !a.Expire? && !a.Pass? && a.i < |w.attempts| && w.attempts[a.i].req.trigger.Manual?
    ensures StepsBlind(w, a)
  {
    var phase := w.attempts[a.i].phase;
    if a.Read? && phase.Deciding? {
      BlindReads(w, a);
    } else if a.Commit? && phase.Seen? {
      BlindCommits(w, a);
    } else if (a.Renew? || a.Fence? || a.Release?) && phase.Held? {
      BlindHandle(w, a);
    } else if a.GiveUp? && (phase.Deciding? || phase.Seen?) {
      BlindQuits(w, a);
    } else {
      StaysPut(w, a);
      StaysPut(Blind(w, a.i), a);
      assert Blind(w, a.i).attempts == Blind(Blind(w, a.i), a.i).attempts;
    }
  }

  /** A manual attempt moves no tick, and from worlds that differ only in their ticks it goes on alike. */
  lemma ManualLeavesTicks(w: World, v: World, a: Action)
    requires !a.Begin? && !a.Expire? && !a.Pass? && a.i < |w.attempts| && w.attempts[a.i].req.trigger.Manual?
    requires a.i < |v.attempts| && Blind(w, a.i) == Blind(v, a.i)
    ensures Step(w, a).ticks == w.ticks
    ensures a.i < |Step(w, a).attempts| && a.i < |Step(v, a).attempts| && Blind(Step(w, a), a.i) == Blind(Step(v, a), a.i)
  {
    assert Blind(w, a.i).attempts[a.i].req == Blind(v, a.i).attempts[a.i].req;
    BlindStep(w, a);
    BlindStep(v, a);
  }

  /** A refused read leaves every standing claim, every tick and every live slot as they were. */
  lemma RefusalChangesNothing(w: World, i: nat, n: Name)
    requires i < |w.attempts| && w.attempts[i].phase.Deciding?
    requires i < |Step(w, Read(i)).attempts| && Step(w, Read(i)).attempts[i].phase.Refused?
    ensures
      var w' := Step(w, Read(i));
      && w'.ticks == w.ticks && w'.log == w.log
      && (Stands(w', n) <==> Stands(w, n)) && (Stands(w, n) ==> w'.claims[n] == w.claims[n])
      && Unexpired(SlotsOf(w', n), w.now) == Unexpired(SlotsOf(w, n), w.now)
  {
    var req := w.attempts[i].req;
    assert Step(w, Read(i)) == Reading(w, i);
    PruneTwice(SlotsOf(w, n), w.now, w.now);
    if req.rate.Some? && Decide(w, req).None? {
      assert SlotsOf(Step(w, Read(i)), req.name) == Unexpired(SlotsOf(w, req.name), w.now);
    }
  }

  // ---- The rate window ----

  /** When the slots of the rated takings of a name expire, in the order they were taken. */
  function Ends(log: seq<Entry>, name: Name): seq<int> {
    if log == [] then []
    else
      var rest := Ends(log[..|log| - 1], name);
      if Last(log).req.name == name && Last(log).req.rate.Some? then rest + [Last(log).at + Last(log).req.rate.value.per] else rest
  }

  /** Every rated request of the name declares this limit. */
  ghost predicate FixedLimit(w: World, name: Name, limit: Rate) {
    forall i :: 0 <= i < |w.attempts| && w.attempts[i].req.name == name && w.attempts[i].req.rate.Some? ==>
                  w.attempts[i].req.rate.value == limit
  }

  ghost predicate Ordered(s: seq<int>) {
    forall a, b :: 0 <= a < b < |s| ==> s[a] <= s[b]
  }

  predicate SuffixOf(s: seq<int>, all: seq<int>) {
    |s| <= |all| && s == all[|all| - |s|..]
  }

  lemma {:induction false} AllExpired(slots: seq<int>, now: int)
    requires forall x :: 0 <= x < |slots| ==> slots[x] <= now
    ensures Unexpired(slots, now) == []
  {
    if slots != [] {
      AllExpired(slots[..|slots| - 1], now);
    }
  }

  /** Of slots in order, the ones still to expire are the last ones. */
  lemma {:induction false} UnexpiredIsSuffix(slots: seq<int>, now: int)
    requires Ordered(slots)
    ensures SuffixOf(Unexpired(slots, now), slots)
    ensures forall x :: 0 <= x < |slots| - |Unexpired(slots, now)| ==> slots[x] <= now
  {
    if slots != [] {
      var front := slots[..|slots| - 1];
      UnexpiredIsSuffix(front, now);
      assert slots == front + [Last(slots)];
      if now >= Last(slots) {
        AllExpired(front, now);
      }
    }
  }

  /** The slots kept are the last ones taken; the ones dropped have expired; no window holds more than its runs. */
  ghost predicate SlotsKept(ends: seq<int>, slots: seq<int>, now: int, limit: Rate) {
    && Ordered(ends) && (forall x :: 0 <= x < |ends| ==> ends[x] <= now + limit.per)
    && SuffixOf(slots, ends) && |slots| <= limit.runs
    && (forall x :: 0 <= x < |ends| - |slots| ==> ends[x] <= now)
    && (forall x, y :: 0 <= x && x + limit.runs == y < |ends| ==> ends[x] + limit.per <= ends[y])
  }

  ghost predicate SlotsOk(w: World, name: Name, limit: Rate) {
    SlotsKept(Ends(w.log, name), SlotsOf(w, name), w.now, limit)
  }

  lemma SuffixOfSuffix(live: seq<int>, slots: seq<int>, ends: seq<int>)
    requires SuffixOf(live, slots) && SuffixOf(slots, ends)
    ensures SuffixOf(live, ends)
    ensures forall x :: 0 <= x < |slots| ==> slots[x] == ends[|ends| - |slots| + x]
  {
    assert live == ends[|ends| - |live|..];
  }

  lemma PruneKeepsSlots(ends: seq<int>, slots: seq<int>, now: int, limit: Rate)
    requires SlotsKept(ends, slots, now, limit)
    ensures SlotsKept(ends, Unexpired(slots, now), now, limit)
  {
    var gone := |ends| - |slots|;
    var live := Unexpired(slots, now);
    assert Ordered(slots) by {
      SuffixOfSuffix(slots, slots, ends);
    }
    UnexpiredIsSuffix(slots, now);
    SuffixOfSuffix(live, slots, ends);
    forall x | 0 <= x < |ends| - |live| ensures ends[x] <= now {
      if x >= gone {
        assert slots[x - gone] <= now;
      }
    }
  }

  lemma TakeKeepsSlots(ends: seq<int>, slots: seq<int>, now: int, limit: Rate)
    requires SlotsKept(ends, slots, now, limit) && |slots| < limit.runs
    ensures SlotsKept(ends + [now + limit.per], slots + [now + limit.per], now, limit)
  {
    var ends', slots' := ends + [now + limit.per], slots + [now + limit.per];
    assert slots' == ends'[|ends'| - |slots'|..];
  }

  /** A step that at most drops a name's expired slots. */
  ghost predicate SlotsDrop(w: World, w': World, name: Name) {
    && w'.now >= w.now && Ends(w'.log, name) == Ends(w.log, name)
    && (SlotsOf(w', name) == SlotsOf(w, name) || SlotsOf(w', name) == Unexpired(SlotsOf(w, name), w.now))
  }

  /** A taking: expired slots dropped, fewer than the limit left, and one added. */
  ghost predicate SlotsTaken(w: World, w': World, name: Name, limit: Rate) {
    var e, live := w.now + limit.per, Unexpired(SlotsOf(w, name), w.now);
    && w'.now == w.now && |live| < limit.runs
    && Ends(w'.log, name) == Ends(w.log, name) + [e] && SlotsOf(w', name) == live + [e]
  }

  lemma TakeMovesSlots(w: World, i: nat, name: Name)
    requires i < |w.attempts|
    ensures
      var w', req := Take(w, i), w.attempts[i].req;
      if req.name == name && req.rate.Some? then
        var e := w.now + req.rate.value.per;
        w'.now == w.now && Ends(w'.log, name) == Ends(w.log, name) + [e] && SlotsOf(w', name) == SlotsOf(w, name) + [e]
      else w'.now == w.now && Ends(w'.log, name) == Ends(w.log, name) && SlotsOf(w', name) == SlotsOf(w, name)
  {
    assert Take(w, i).log[..|w.log|] == w.log;
  }

  /** A rated taking, of whichever name. */
  lemma RatedTakeMoves(w: World, i: nat, name: Name)
    requires i < |w.attempts| && w.attempts[i].req.rate.Some? && !Full(w, w.attempts[i].req.name, w.attempts[i].req.rate.value)
    ensures
      var w', req := Take(Prune(Reap(w, w.attempts[i].req.name), w.attempts[i].req.name), i), w.attempts[i].req;
      if req.name == name then SlotsTaken(w, w', name, req.rate.value) else SlotsDrop(w, w', name)
  {
    var own := w.attempts[i].req.name;
    var pruned := Prune(Reap(w, own), own);
    TakeMovesSlots(pruned, i, name);
    assert pruned.log == w.log && pruned.now == w.now && pruned.attempts == w.attempts;
    assert SlotsOf(pruned, own) == Unexpired(SlotsOf(w, own), w.now);
    assert own != name ==> SlotsOf(pruned, name) == SlotsOf(w, name);
  }

  lemma CommitMovesSlots(w: World, i: nat, name: Name)
    requires i < |w.attempts| && w.attempts[i].phase.Seen?
    ensures SlotsDrop(w, Taking(w, i), name)
            || (w.attempts[i].req.name == name && w.attempts[i].req.rate.Some? && SlotsTaken(w, Taking(w, i), name, w.attempts[i].req.rate.value))
  {
    var req := w.attempts[i].req;
    if Overtaken(w, req, w.attempts[i].phase.tickRev) {
      assert Taking(w, i).slots == w.slots;
    } else if req.rate.None? {
      TakeMovesSlots(Reap(w, req.name), i, name);
    } else if Full(w, req.name, req.rate.value) {
      assert Taking(w, i).slots == Prune(w, req.name).slots;
    } else {
      RatedTakeMoves(w, i, name);
    }
  }

  lemma QuietDrops(w: World, w': World, name: Name)
    requires Quiet(w, w')
    ensures SlotsDrop(w, w', name)
  {}

  lemma StepMovesSlots(w: World, a: Action, name: Name)
    ensures SlotsDrop(w, Step(w, a), name)
            || exists i: nat :: i < |w.attempts| && w.attempts[i].req.name == name && w.attempts[i].req.rate.Some?
                                && SlotsTaken(w, Step(w, a), name, w.attempts[i].req.rate.value)
  {
    if a.Commit? && a.i < |w.attempts| && w.attempts[a.i].phase.Seen? {
      CommitMovesSlots(w, a.i, name);
      assert Step(w, a) == Taking(w, a.i);
    } else {
      StepQuiet(w, a);
      QuietDrops(w, Step(w, a), name);
    }
  }

  lemma DropKeepsSlots(w: World, w': World, name: Name, limit: Rate)
    requires SlotsOk(w, name, limit) && SlotsDrop(w, w', name)
    ensures SlotsOk(w', name, limit)
  {
    PruneKeepsSlots(Ends(w.log, name), SlotsOf(w, name), w.now, limit);
  }

  lemma TakenKeepsSlots(w: World, w': World, name: Name, limit: Rate)
    requires SlotsOk(w, name, limit) && SlotsTaken(w, w', name, limit)
    ensures SlotsOk(w', name, limit)
  {
    PruneKeepsSlots(Ends(w.log, name), SlotsOf(w, name), w.now, limit);
    TakeKeepsSlots(Ends(w.log, name), Unexpired(SlotsOf(w, name), w.now), w.now, limit);
  }

  lemma StepKeepsSlots(w: World, a: Action, name: Name, limit: Rate)
    requires SlotsOk(w, name, limit) && FixedLimit(w, name, limit)
    ensures SlotsOk(Step(w, a), name, limit)
  {
    StepMovesSlots(w, a, name);
    if SlotsDrop(w, Step(w, a), name) {
      DropKeepsSlots(w, Step(w, a), name, limit);
    } else {
      TakenKeepsSlots(w, Step(w, a), name, limit);
    }
  }

  lemma {:induction false} RunKeepsSlots(w: World, actions: seq<Action>, name: Name, limit: Rate)
    requires SlotsOk(w, name, limit) && FixedLimit(Run(w, actions), name, limit)
    ensures SlotsOk(Run(w, actions), name, limit)
    decreases |actions|
  {
    if actions != [] {
      RunKeepsRequests(w, actions);
      assert FixedLimit(w, name, limit);
      StepKeepsSlots(w, actions[0], name, limit);
      RunKeepsSlots(Step(w, actions[0]), actions[1..], name, limit);
    }
  }

  lemma {:induction false} RunKeepsRequests(w: World, actions: seq<Action>)
    ensures |w.attempts| <= |Run(w, actions).attempts|
    ensures forall i :: 0 <= i < |w.attempts| ==> Run(w, actions).attempts[i].req == w.attempts[i].req
    decreases |actions|
  {
    if actions != [] {
      StepExtends(w, actions[0]);
      RunKeepsRequests(Step(w, actions[0]), actions[1..]);
    }
  }

  lemma ReachableSlots(w: World, name: Name, limit: Rate)
    requires Reachable(w) && FixedLimit(w, name, limit)
    ensures SlotsOk(w, name, limit)
  {
    var now: int, actions: seq<Action> :| w == Run(Start(now), actions);
    RunKeepsSlots(Start(now), actions, name, limit);
  }

  /** Live slots never exceed the limit. */
  lemma SlotsBounded(w: World, name: Name, limit: Rate)
    requires Reachable(w) && FixedLimit(w, name, limit)
    ensures |Unexpired(SlotsOf(w, name), w.now)| <= |SlotsOf(w, name)| <= limit.runs
  {
    ReachableSlots(w, name, limit);
  }

  /** Whatever is released, expired or lost, a slot still to expire stays taken: only its own time frees it. */
  lemma SlotsOutliveClaims(w: World, a: Action, name: Name)
    ensures Unexpired(SlotsOf(w, name), Step(w, a).now) <= Unexpired(SlotsOf(Step(w, a), name), Step(w, a).now)
  {
    StepMovesSlots(w, a, name);
    var slots, later := SlotsOf(w, name), Step(w, a).now;
    PruneTwice(slots, w.now, later);
    if !SlotsDrop(w, Step(w, a), name) {
      var live, all := Unexpired(slots, w.now), SlotsOf(Step(w, a), name);
      assert all[..|live|] == live && all == live + [Last(all)];
    }
  }

  lemma {:induction false} PruneTwice(slots: seq<int>, now: int, later: int)
    requires now <= later
    ensures Unexpired(Unexpired(slots, now), later) == Unexpired(slots, later)
  {
    if slots != [] {
      var front := slots[..|slots| - 1];
      PruneTwice(front, now, later);
      if now < Last(slots) {
        var live := Unexpired(front, now) + [Last(slots)];
        assert live[..|live| - 1] == Unexpired(front, now);
      }
    }
  }

  predicate Rated(e: Entry, name: Name) {
    e.req.name == name && e.req.rate.Some?
  }

  /** A rated taking's slot, at its own rank among the slots taken. */
  lemma {:induction false} EndAt(log: seq<Entry>, name: Name, k: nat)
    requires k < |log|
    ensures |Ends(log[..k], name)| + (if Rated(log[k], name) then 1 else 0) == |Ends(log[..k + 1], name)| <= |Ends(log, name)|
    ensures Rated(log[k], name) ==>
              |Ends(log[..k], name)| < |Ends(log, name)|
              && Ends(log, name)[|Ends(log[..k], name)|] == log[k].at + log[k].req.rate.value.per
    decreases |log| - k
  {
    assert log[..k + 1][..k] == log[..k];
    if k + 1 == |log| {
      assert log[..k + 1] == log;
    } else {
      EndsGrow(log, name, k + 1);
    }
  }

  lemma {:induction false} EndsGrow(log: seq<Entry>, name: Name, k: nat)
    requires k <= |log|
    ensures Ends(log[..k], name) <= Ends(log, name)
    decreases |log| - k
  {
    if k == |log| {
      assert log[..k] == log;
    } else {
      assert log[..k + 1][..k] == log[..k];
      EndsGrow(log, name, k + 1);
    }
  }

  /** Some rated takings of a name, in order. */
  ghost predicate RatedTakings(w: World, name: Name, ks: seq<nat>) {
    && (forall x :: 0 <= x < |ks| ==> ks[x] < |w.log| && Rated(w.log[ks[x]], name))
    && (forall x, y :: 0 <= x < y < |ks| ==> ks[x] < ks[y])
  }

  lemma RankGrows(log: seq<Entry>, name: Name, a: nat, b: nat)
    requires a < b < |log| && Rated(log[a], name)
    ensures |Ends(log[..b], name)| >= |Ends(log[..a], name)| + 1
  {
    EndAt(log, name, a);
    EndsGrow(log[..b], name, a + 1);
    assert log[..b][..a + 1] == log[..a + 1];
  }

  lemma {:induction false} Ranks(w: World, name: Name, ks: seq<nat>, n: nat)
    requires RatedTakings(w, name, ks) && n < |ks|
    ensures |Ends(w.log[..ks[n]], name)| >= |Ends(w.log[..ks[0]], name)| + n
  {
    if n > 0 {
      Ranks(w, name, ks, n - 1);
      RankGrows(w.log, name, ks[n - 1], ks[n]);
    }
  }

  lemma EndsApart(w: World, name: Name, limit: Rate, first: nat, last: nat)
    requires SlotsOk(w, name, limit) && first + limit.runs <= last < |Ends(w.log, name)|
    ensures Ends(w.log, name)[first] + limit.per <= Ends(w.log, name)[last]
  {
    var ends, mid := Ends(w.log, name), first + limit.runs;
    assert ends[first] + limit.per <= ends[mid];
    if mid < last {
      assert ends[mid] <= ends[last];
    }
  }

  /** Any `runs + 1` rated takings of a name span at least the window. */
  lemma WindowHolds(w: World, name: Name, limit: Rate, ks: seq<nat>)
    requires Reachable(w) && FixedLimit(w, name, limit)
    requires RatedTakings(w, name, ks) && |ks| == limit.runs + 1
    ensures w.log[Last(ks)].at - w.log[ks[0]].at >= limit.per
  {
    ReachableSlots(w, name, limit);
    var now: int, actions: seq<Action> :| w == Run(Start(now), actions);
    RunKeepsLimits(Start(now), actions, name, limit);
    Ranks(w, name, ks, limit.runs);
    EndAt(w.log, name, ks[0]);
    EndAt(w.log, name, Last(ks));
    EndsApart(w, name, limit, |Ends(w.log[..ks[0]], name)|, |Ends(w.log[..Last(ks)], name)|);
  }

  lemma StepKeepsLimits(w: World, a: Action, name: Name, limit: Rate)
    requires forall k :: 0 <= k < |w.log| && Rated(w.log[k], name) ==> w.log[k].req.rate.value == limit
    requires FixedLimit(w, name, limit)
    ensures forall k :: 0 <= k < |Step(w, a).log| && Rated(Step(w, a).log[k], name) ==> Step(w, a).log[k].req.rate.value == limit
  {
    if a.Commit? && a.i < |w.attempts| && w.attempts[a.i].phase.Seen? {
      var w' := Taking(w, a.i);
      assert Step(w, a) == w';
      assert w'.log == w.log || (|w'.log| == |w.log| + 1 && w'.log[..|w.log|] == w.log && Last(w'.log).req == w.attempts[a.i].req);
    } else {
      StepQuiet(w, a);
    }
  }

  /** What is in the log was asked for by an attempt. */
  lemma {:induction false} RunKeepsLimits(w: World, actions: seq<Action>, name: Name, limit: Rate)
    requires forall k :: 0 <= k < |w.log| && Rated(w.log[k], name) ==> w.log[k].req.rate.value == limit
    requires FixedLimit(Run(w, actions), name, limit)
    ensures forall k :: 0 <= k < |Run(w, actions).log| && Rated(Run(w, actions).log[k], name) ==>
              Run(w, actions).log[k].req.rate.value == limit
    decreases |actions|
  {
    if actions != [] {
      RunKeepsRequests(w, actions);
      StepKeepsLimits(w, actions[0], name, limit);
      RunKeepsLimits(Step(w, actions[0]), actions[1..], name, limit);
    }
  }

  // ---- Where the two backends answer differently ----

  /** What the adapter answers when nothing moves between its read and its transaction. */
  function EtcdAnswer(s: Etcd.Store, req: Request): Option<Refusal> {
    match Etcd.Decide(s, req)
    case Refuse(why) => Some(why)
    case Proceed(tx) => Etcd.Reconsider(s, req)
  }

  /** The two hold the same of a name: the same holder, the same tick, and slots full or not alike. */
  ghost predicate Agree(s: Etcd.Store, w: World, req: Request) {
    var n := req.name;
    && (n in s.claims <==> Stands(w, n)) && (n in s.claims ==> s.claims[n].holder == w.claims[n].holder)
    && (n in s.ticks <==> n in w.ticks) && (n in s.ticks ==> s.ticks[n].due == w.ticks[n].due && s.ticks[n].holder == w.ticks[n].holder)
    && (req.rate.Some? ==> (EtcdFull(s, n, req.rate.value) <==> Full(w, n, req.rate.value)))
  }

  predicate EtcdFull(s: Etcd.Store, name: Name, limit: Rate) {
    forall j: nat :: j < limit.runs ==> (name, j) in s.slots
  }

  /** An answer that is no refusal is a transaction that takes the claim. */
  lemma EtcdTakes(s: Etcd.Store, req: Request, g: Etcd.Grants)
    requires EtcdAnswer(s, req).None? && g.lease in s.leases
    requires req.rate.Some? ==> g.slotLease.Some? && g.slotLease.value in s.leases
    ensures Etcd.Decide(s, req).Proceed? && Etcd.Commits(s, req, g, Etcd.Decide(s, req).tx)
  {
    if req.rate.Some? {
      var free := Etcd.SlotsFree(s, req.name, req.rate.value.runs);
      assert Etcd.FirstFree(free).Some? ==> free[Etcd.FirstFree(free).value];
    }
  }

  /**
   * Holding the same of a name, the two backends answer alike exactly unless the name is held, its
   * slots are full, and the tick has not run: there the adapter names the limit, the fake the holder.
   */
  lemma AnswersAgree(s: Etcd.Store, w: World, req: Request)
    requires Agree(s, w, req)
    ensures EtcdAnswer(s, req) == RefusalAt(w, req) <==>
            !(Stands(w, req.name) && req.rate.Some? && Full(w, req.name, req.rate.value)
              && !AlreadyRan(req.trigger, TickDue(w, req.name)))
    ensures EtcdAnswer(s, req) != RefusalAt(w, req) ==>
              EtcdAnswer(s, req) == Some(RateLimited(req.rate.value))
              && RefusalAt(w, req) == Some(HeldBy(w.claims[req.name].holder))
  {
    assert Etcd.TickDue(s, req.name) == TickDue(w, req.name);
    if req.rate.Some? {
      var free := Etcd.SlotsFree(s, req.name, req.rate.value.runs);
      assert EtcdFull(s, req.name, req.rate.value) <==> Etcd.FirstFree(free).None? by {
        if Etcd.FirstFree(free).None? {
          forall j: nat | j < req.rate.value.runs ensures (req.name, j) in s.slots { assert !free[j]; }
        } else {
          assert free[Etcd.FirstFree(free).value];
        }
      }
    }
  }
}
