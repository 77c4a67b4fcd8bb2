/**
 * The in-memory backend: the coordinator's contract over mutable maps under one lock. Every
 * critical section is one step; a caller's own variables live in its attempt between sections.
 */
module Fake {
  import opened Common
  import opened Coordination

  datatype Claim = Claim(token: nat, holder: Holder, granted: nat, expires: int)

  datatype Tick = Tick(due: int, holder: Holder, revision: nat)

  datatype Phase = Deciding | Seen(tickRev: nat) | Held(token: nat) | Refused(why: Refusal)

  datatype Attempt = Attempt(req: Request, granted: nat, phase: Phase)

  /** One claim taken. */
  datatype Entry = Entry(req: Request, token: nat, at: int)

  datatype World = World(
    now: int,
    revision: nat,
    claims: map<Name, Claim>,
    ticks: map<Name, Tick>,
    slots: map<Name, seq<int>>,
    attempts: seq<Attempt>,
    log: seq<Entry>)

  datatype Action =
    | Begin(req: Request, granted: nat)
    | Read(i: nat)
    | Commit(i: nat)
    | GiveUp(i: nat)
    | Renew(i: nat)
    | Fence(i: nat)
    | Release(i: nat)
    | Expire(token: nat)
    | Pass(d: nat)

  function Start(now: int): World { World(now, 0, map[], map[], map[], [], []) }

  // ---- What each critical section does ----

  predicate Stands(w: World, name: Name) {
    name in w.claims && w.now < w.claims[name].expires
  }

  /** A look at a name's claim deletes it if it has lapsed. */
  function Reap(w: World, name: Name): (r: World)
    ensures name in r.claims <==> Stands(w, name)
  {
    if Stands(w, name) then w else w.(claims := w.claims - {name})
  }

  function SlotsOf(w: World, name: Name): seq<int> {
    if name in w.slots then w.slots[name] else []
  }

  /** The expiries still to come, in order. */
  function Unexpired(slots: seq<int>, now: int): (live: seq<int>)
    ensures |live| <= |slots|
    ensures forall x :: x in live ==> now < x && x in slots
  {
    if slots == [] then []
    else if now < Last(slots) then Unexpired(slots[..|slots| - 1], now) + [Last(slots)]
    else Unexpired(slots[..|slots| - 1], now)
  }

  function Prune(w: World, name: Name): World {
    w.(slots := w.slots[name := Unexpired(SlotsOf(w, name), w.now)])
  }

  predicate Full(w: World, name: Name, limit: Rate) {
    |Unexpired(SlotsOf(w, name), w.now)| >= limit.runs
  }

  function TickDue(w: World, name: Name): Option<int> {
    if name in w.ticks then Some(w.ticks[name].due) else None
  }

  function TickRevision(w: World, name: Name): nat {
    if name in w.ticks then w.ticks[name].revision else 0
  }

  /** The refusal a read calls for: a standing claim comes before a spent occurrence. */
  function Decide(w: World, req: Request): (why: Option<Refusal>)
    ensures why.None? <==> !Stands(w, req.name) && !AlreadyRan(req.trigger, TickDue(w, req.name))
  {
    if Stands(w, req.name) then Some(HeldBy(w.claims[req.name].holder))
    else if AlreadyRan(req.trigger, TickDue(w, req.name)) then
      Some(TickRan(w.ticks[req.name].due, w.ticks[req.name].holder))
    else None
  }

  function Move(w: World, i: nat, phase: Phase): World
    requires i < |w.attempts|
  {
    w.(attempts := w.attempts[i := w.attempts[i].(phase := phase)])
  }

  function Reading(w: World, i: nat): World
    requires i < |w.attempts|
  {
    var req := w.attempts[i].req;
    var seen := Seen(TickRevision(w, req.name));
    match Decide(w, req)
    case Some(why) => Move(Reap(w, req.name), i, Refused(why))
    case None =>
      if req.rate.None? then Move(Reap(w, req.name), i, seen)
      else Move(Prune(Reap(w, req.name), req.name), i,
                if Full(w, req.name, req.rate.value) then Refused(RateLimited(req.rate.value)) else seen)
  }

  /** Something was taken between the read and the lock. */
  predicate Overtaken(w: World, req: Request, tickRev: nat) {
    Stands(w, req.name) || (req.trigger.Scheduled? && TickRevision(w, req.name) != tickRev)
  }

  function Taking(w: World, i: nat): World
    requires i < |w.attempts| && w.attempts[i].phase.Seen?
  {
    var me := w.attempts[i];
    var name := me.req.name;
    if Overtaken(w, me.req, me.phase.tickRev) then Move(Reap(w, name), i, Deciding)
    else if me.req.rate.None? then Take(Reap(w, name), i)
    else if Full(w, name, me.req.rate.value) then Move(Prune(Reap(w, name), name), i, Deciding)
    else Take(Prune(Reap(w, name), name), i)
  }

  /** Claim, slot and tick, under one hold of the lock. */
  function Take(w: World, i: nat): World
    requires i < |w.attempts|
  {
    var me := w.attempts[i];
    var name, token := me.req.name, w.revision + 1;
    var slots := if me.req.rate.Some? then w.slots[name := SlotsOf(w, name) + [w.now + me.req.rate.value.per]] else w.slots;
    var ticks := if me.req.trigger.Scheduled? then w.ticks[name := Tick(me.req.trigger.due, me.req.holder, token)] else w.ticks;
    World(w.now, token, w.claims[name := Claim(token, me.req.holder, me.granted, w.now + me.granted)],
          ticks, slots, w.attempts[i := me.(phase := Held(token))], w.log + [Entry(me.req, token, w.now)])
  }

  /** A handle still holds its name while the claim that stands is the one it took. */
  predicate Current(w: World, name: Name, token: nat) {
    Stands(w, name) && w.claims[name].token == token
  }

  function Renewed(w: World, name: Name, token: nat): World {
    var r := Reap(w, name);
    if !Current(w, name, token) then r
    else r.(claims := r.claims[name := r.claims[name].(expires := w.now + r.claims[name].granted)])
  }

  function Released(w: World, name: Name, token: nat): World {
    if Current(w, name, token) then w.(claims := w.claims - {name}) else Reap(w, name)
  }

  function Expired(w: World, token: nat): World {
    w.(claims := map n | n in w.claims && w.claims[n].token != token :: w.claims[n])
  }

  function Step(w: World, a: Action): World {
    match a
    case Begin(req, granted) => w.(attempts := w.attempts + [Attempt(req, granted, FirstPhase(req, granted))])
    case Expire(token) => Expired(w, token)
    case Pass(d) => w.(now := w.now + d)
    case _ => if a.i < |w.attempts| then StepOf(w, a) else w
  }

  function FirstPhase(req: Request, granted: nat): Phase {
    if !Checks(req) || !WholeSeconds(req.expiry) then Refused(Malformed)
    else if granted < req.expiry then Refused(Unavailable)
    else Deciding
  }

  function StepOf(w: World, a: Action): World
    requires !a.Begin? && !a.Expire? && !a.Pass? && a.i < |w.attempts|
  {
    var i := a.i;
    var me := w.attempts[i];
    match (a, me.phase)
    case (Read(_), Deciding) => Reading(w, i)
    case (Commit(_), Seen(_)) => Taking(w, i)
    case (GiveUp(_), Deciding) => Move(w, i, Refused(Unavailable))
    case (GiveUp(_), Seen(_)) => Move(w, i, Refused(Unavailable))
    case (Renew(_), Held(token)) => Renewed(w, me.req.name, token)
    case (Fence(_), Held(token)) => Reap(w, me.req.name)
    case (Release(_), Held(token)) => Released(w, me.req.name, token)
    case _ => w
  }

  function Run(w: World, actions: seq<Action>): World
    decreases |actions|
  {
    if actions == [] then w else Run(Step(w, actions[0]), actions[1..])
  }

  lemma {:induction false} RunAppends(w: World, a: seq<Action>, b: seq<Action>)
    ensures Run(w, a + b) == Run(Run(w, a), b)
    decreases |a|
  {
    if a == [] {
      assert a + b == b;
    } else {
      assert (a + b)[1..] == a[1..] + b;
      RunAppends(Step(w, a[0]), a[1..], b);
    }
  }

  // ---- The backend itself ----

  datatype Answer = Taken(token: nat, granted: nat) | Refusing(why: Refusal)

  /** Steps of other callers, of the clock, and of a test that ends a claim early. */
  predicate Others(actions: seq<Action>, me: nat) {
    forall k :: 0 <= k < |actions| ==>
      (actions[k].Begin? || actions[k].Expire? || actions[k].Pass? || actions[k].i != me)
  }

  lemma OtherLeavesMe(w: World, a: Action, me: nat)
    requires me < |w.attempts| && (a.Begin? || a.Expire? || a.Pass? || a.i != me)
    ensures me < |Step(w, a).attempts| && Step(w, a).attempts[me] == w.attempts[me]
  {
    if a.Commit? && a.i < |w.attempts| && w.attempts[a.i].phase.Seen? {
      assert Step(w, a) == Taking(w, a.i);
    } else if a.Read? && a.i < |w.attempts| && w.attempts[a.i].phase.Deciding? {
      assert Step(w, a) == Reading(w, a.i);
    }
  }

  lemma GivesUp(w: World, me: nat)
    requires me < |w.attempts| && (w.attempts[me].phase.Deciding? || w.attempts[me].phase.Seen?)
    ensures Step(w, GiveUp(me)).attempts == w.attempts[me := w.attempts[me].(phase := Refused(Unavailable))]
  {}

  /** What a read answers, if it refuses: a claim that stands, then an occurrence that ran, then a full window. */
  function RefusalAt(w: World, req: Request): Option<Refusal> {
    if Stands(w, req.name) then Some(HeldBy(w.claims[req.name].holder))
    else if AlreadyRan(req.trigger, TickDue(w, req.name)) then Some(TickRan(w.ticks[req.name].due, w.ticks[req.name].holder))
    else if req.rate.Some? && Full(w, req.name, req.rate.value) then Some(RateLimited(req.rate.value))
    else None
  }

  /** Between a read and the taking, someone took the claim, moved the tick, or filled the window. */
  predicate LostTo(read: World, w: World, req: Request) {
    || Stands(w, req.name)
    || (req.trigger.Scheduled? && TickRevision(w, req.name) != TickRevision(read, req.name))
    || (req.rate.Some? && Full(w, req.name, req.rate.value))
  }

  lemma ReadAnswers(w: World, me: nat)
    requires me < |w.attempts| && w.attempts[me].phase.Deciding?
    ensures
      var req, r := w.attempts[me].req, Step(w, Read(me));
      && me < |r.attempts| && r.attempts[me] == w.attempts[me].(phase := r.attempts[me].phase)
      && match RefusalAt(w, req)
         case Some(why) => r.attempts[me].phase == Refused(why)
         case None => r.attempts[me].phase == Seen(TickRevision(w, req.name))
  {}

  lemma CommitAnswers(w: World, me: nat, read: World)
    requires me < |w.attempts| && w.attempts[me].phase == Seen(TickRevision(read, w.attempts[me].req.name))
    ensures
      var req, r := w.attempts[me].req, Step(w, Commit(me));
      && me < |r.attempts| && r.attempts[me] == w.attempts[me].(phase := r.attempts[me].phase)
      && r.attempts[me].phase == if LostTo(read, w, req) then Deciding else Held(w.revision + 1)
  {
    var req := w.attempts[me].req;
    assert Step(w, Commit(me)) == Taking(w, me);
    TakingAttempts(w, me);
    assert LostTo(read, w, req) <==> Overtaken(w, req, w.attempts[me].phase.tickRev) || (req.rate.Some? && Full(w, req.name, req.rate.value));
  }

  lemma TakingAttempts(w: World, me: nat)
    requires me < |w.attempts| && w.attempts[me].phase.Seen?
    ensures
      var mine := w.attempts[me];
      Taking(w, me).attempts == w.attempts[me := mine.(
                                  phase := if Overtaken(w, mine.req, mine.phase.tickRev) || (mine.req.rate.Some? && Full(w, mine.req.name, mine.req.rate.value))
                                           then Deciding else Held(w.revision + 1))]
  {}

  // ---- What a call answers ----

  function GapAt(gaps: seq<seq<Action>>, k: nat): seq<Action> {
    if k < |gaps| then gaps[k] else []
  }

  /** The steps of the first rounds, each of which went round. */
  function Rounds(me: nat, gaps: seq<seq<Action>>, t: nat): seq<Action> {
    if t == 0 then []
    else Rounds(me, gaps, t - 1) + (GapAt(gaps, 2 * t - 2) + [Read(me)] + GapAt(gaps, 2 * t - 1) + [Commit(me)])
  }

  /** What the two lock holds of a round find; the deadline can fall before the second. */
  datatype Round = Round(read: World, taking: Option<World>)

  /** A round's answer, or none if someone else got in between. */
  function RoundOf(r: Round, req: Request, granted: nat): (answer: Option<Answer>)
    ensures r.taking.None? ==> answer.Some?
  {
    match RefusalAt(r.read, req)
    case Some(why) => Some(Refusing(why))
    case None =>
      match r.taking
      case None => Some(Refusing(Unavailable))
      case Some(w) => if LostTo(r.read, w, req) then None else Some(Taken(w.revision + 1, granted))
  }

  function RoundAt(start: World, me: nat, first: seq<Action>, second: Option<seq<Action>>): Round {
    Round(Run(start, first), if second.Some? then Some(Run(start, first + [Read(me)] + second.value)) else None)
  }

  function SecondGap(gaps: seq<seq<Action>>, t: nat): Option<seq<Action>> {
    if 2 * t + 1 < |gaps| then Some(gaps[2 * t + 1]) else None
  }

  /** What a call answers from its t-th round on: what the first round to have an answer does. */
  function AnswerFrom(w: World, me: nat, req: Request, granted: nat, gaps: seq<seq<Action>>, t: nat): Answer
    decreases |gaps| - 2 * t
  {
    match RoundOf(RoundAt(Run(w, Rounds(me, gaps, t)), me, GapAt(gaps, 2 * t), SecondGap(gaps, t)), req, granted)
    case Some(answer) => answer
    case None => AnswerFrom(w, me, req, granted, gaps, t + 1)
  }

  lemma AnswerUnfolds(w: World, me: nat, req: Request, granted: nat, gaps: seq<seq<Action>>, t: nat)
    ensures
      AnswerFrom(w, me, req, granted, gaps, t) ==
      match RoundOf(RoundAt(Run(w, Rounds(me, gaps, t)), me, GapAt(gaps, 2 * t), SecondGap(gaps, t)), req, granted)
      case Some(answer) => answer
      case None => AnswerFrom(w, me, req, granted, gaps, t + 1)
  {}

  lemma RunOneMore(w: World, actions: seq<Action>, a: Action)
    ensures Run(w, actions + [a]) == Step(Run(w, actions), a)
  {
    RunAppends(w, actions, [a]);
    assert Run(Run(w, actions), [a]) == Step(Run(w, actions), a);
  }

  lemma RoundRuns(start: World, me: nat, first: seq<Action>, second: seq<Action>)
    ensures Run(start, first + [Read(me)] + second) == Run(Step(Run(start, first), Read(me)), second)
    ensures Run(start, first + [Read(me)] + second + [Commit(me)]) == Step(Run(start, first + [Read(me)] + second), Commit(me))
  {
    RunOneMore(start, first, Read(me));
    RunAppends(start, first + [Read(me)], second);
    RunOneMore(start, first + [Read(me)] + second, Commit(me));
  }

  lemma RoundNext(w: World, me: nat, gaps: seq<seq<Action>>, t: nat)
    requires 2 * t + 1 < |gaps|
    ensures Run(w, Rounds(me, gaps, t + 1)) == Run(Run(w, Rounds(me, gaps, t)), GapAt(gaps, 2 * t) + [Read(me)] + gaps[2 * t + 1] + [Commit(me)])
  {
    RunAppends(w, Rounds(me, gaps, t), GapAt(gaps, 2 * t) + [Read(me)] + gaps[2 * t + 1] + [Commit(me)]);
  }

  lemma {:induction false} OthersLeaveMe(w: World, actions: seq<Action>, me: nat)
    requires me < |w.attempts| && Others(actions, me)
    ensures me < |Run(w, actions).attempts| && Run(w, actions).attempts[me] == w.attempts[me]
    decreases |actions|
  {
    if actions != [] {
      assert Others(actions[1..], me);
      OtherLeavesMe(w, actions[0], me);
      OthersLeaveMe(Step(w, actions[0]), actions[1..], me);
    }
  }

  lemma UnexpiredAppends(slots: seq<int>, k: nat, now: int)
    requires k < |slots|
    ensures Unexpired(slots[..k + 1], now) ==
            if now < slots[k] then Unexpired(slots[..k], now) + [slots[k]] else Unexpired(slots[..k], now)
  {
    assert slots[..k + 1][..k] == slots[..k];
  }

  /** The phase that goes with an answer, or with none. */
  predicate AnsweredBy(was: Attempt, now: Attempt, answer: Option<Answer>) {
    match answer
    case None => now == was
    case Some(Taken(token, granted)) => now == was.(phase := Held(token)) && granted == was.granted
    case Some(Refusing(why)) => now == was.(phase := Refused(why))
  }

  class Backend {
    var now: int
    var revision: nat
    var claims: map<Name, Claim>
    var ticks: map<Name, Tick>
    var slots: map<Name, seq<int>>
    var attempts: seq<Attempt>
    ghost var log: seq<Entry>

    ghost function Value(): World
      reads this
    {
      World(now, revision, claims, ticks, slots, attempts, log)
    }

    constructor (start: int)
      ensures Value() == Start(start)
    {
      now, revision, claims, ticks, slots, attempts, log := start, 0, map[], map[], map[], [], [];
    }

    method LiveLocked(name: Name) returns (live: Option<Claim>)
      modifies this`claims
      ensures Value() == Reap(old(Value()), name)
      ensures live == if Stands(old(Value()), name) then Some(old(claims)[name]) else None
    {
      if name !in claims {
        assert claims - {name} == claims;
        return None;
      }
      if now >= claims[name].expires {
        claims := claims - {name};
        return None;
      }
      return Some(claims[name]);
    }

    method PruneSlots(name: Name)
      modifies this`slots
      ensures Value() == Prune(old(Value()), name)
    {
      var all := if name in slots then slots[name] else [];
      assert all == SlotsOf(Value(), name);
      var live: seq<int> := [];
      for k := 0 to |all|
        invariant Value() == old(Value())
        invariant live == Unexpired(all[..k], now)
      {
        UnexpiredAppends(all, k, now);
        if now < all[k] {
          live := live + [all[k]];
        }
      }
      assert all[..|all|] == all;
      slots := slots[name := live];
    }

    method RateFull(name: Name, limit: Rate) returns (full: bool)
      modifies this`slots
      ensures Value() == Prune(old(Value()), name)
      ensures full == Full(old(Value()), name, limit)
    {
      PruneSlots(name);
      full := |slots[name]| >= limit.runs;
    }

    /** The first critical section: reads and decides. */
    method ReadSection(i: nat)
      requires i < |attempts| && attempts[i].phase.Deciding?
      modifies this
      ensures Value() == Reading(old(Value()), i)
    {
      var req := attempts[i].req;
      var tickRev := if req.name in ticks then ticks[req.name].revision else 0;
      var live := LiveLocked(req.name);
      var why: Option<Refusal> := None;
      if live.Some? {
        why := Some(HeldBy(live.value.holder));
      } else if req.trigger.Scheduled? && req.name in ticks && req.trigger.due <= ticks[req.name].due {
        why := Some(TickRan(ticks[req.name].due, ticks[req.name].holder));
      }
      if why.None? && req.rate.Some? {
        var full := RateFull(req.name, req.rate.value);
        if full {
          why := Some(RateLimited(req.rate.value));
        }
      }
      attempts := attempts[i := attempts[i].(phase := if why.Some? then Refused(why.value) else Seen(tickRev))];
    }

    /** The second: takes claim, slot and tick together, unless something it read was overtaken. */
    method CommitSection(i: nat)
      requires i < |attempts| && attempts[i].phase.Seen?
      modifies this
      ensures Value() == Taking(old(Value()), i)
    {
      var me := attempts[i];
      var name := me.req.name;
      var live := LiveLocked(name);
      var moved := me.req.trigger.Scheduled? && (if name in ticks then ticks[name].revision else 0) != me.phase.tickRev;
      if live.Some? || moved {
        attempts := attempts[i := me.(phase := Deciding)];
        return;
      }
      if me.req.rate.Some? {
        var full := RateFull(name, me.req.rate.value);
        if full {
          attempts := attempts[i := me.(phase := Deciding)];
          return;
        }
      }
      TakeLocked(i);
    }

    /** Claim, slot and tick, in one go. */
    method TakeLocked(i: nat)
      requires i < |attempts|
      modifies this
      ensures Value() == Take(old(Value()), i)
    {
      var me := attempts[i];
      var name := me.req.name;
      revision := revision + 1;
      claims := claims[name := Claim(revision, me.req.holder, me.granted, now + me.granted)];
      if me.req.rate.Some? {
        slots := slots[name := (if name in slots then slots[name] else []) + [now + me.req.rate.value.per]];
      }
      if me.req.trigger.Scheduled? {
        ticks := ticks[name := Tick(me.req.trigger.due, me.req.holder, revision)];
      }
      attempts := attempts[i := me.(phase := Held(revision))];
      log := log + [Entry(me.req, revision, now)];
    }

    method RenewClaim(name: Name, token: nat) returns (lost: bool)
      modifies this`claims
      ensures Value() == Renewed(old(Value()), name, token)
      ensures lost <==> !Current(old(Value()), name, token)
    {
      var live := LiveLocked(name);
      lost := live.None? || live.value.token != token;
      if !lost {
        claims := claims[name := live.value.(expires := now + live.value.granted)];
      }
    }

    method FenceClaim(name: Name, token: nat) returns (lost: bool)
      modifies this`claims
      ensures Value() == Reap(old(Value()), name)
      ensures lost <==> !Current(old(Value()), name, token)
    {
      var live := LiveLocked(name);
      lost := live.None? || live.value.token != token;
    }

    method ReleaseClaim(name: Name, token: nat)
      modifies this`claims
      ensures Value() == Released(old(Value()), name, token)
    {
      var live := LiveLocked(name);
      if live.Some? && live.value.token == token {
        claims := claims - {name};
      }
    }

    method ExpireClaim(token: nat)
      modifies this`claims
      ensures Value() == Expired(old(Value()), token)
    {
      var left := claims.Keys;
      while left != {}
        invariant left <= old(claims).Keys && claims.Keys <= old(claims).Keys
        invariant forall n :: n in claims ==> claims[n] == old(claims)[n]
        invariant forall n :: n in old(claims) && n !in claims ==> old(claims)[n].token == token
        invariant forall n :: n in claims && claims[n].token == token ==> n in left
        decreases |left|
      {
        var name :| name in left;
        if name in claims && claims[name].token == token {
          claims := claims - {name};
        }
        left := left - {name};
      }
      assert claims == Expired(old(Value()), token).claims;
    }

    /** One step of anyone's. */
    method Do(a: Action)
      modifies this
      ensures Value() == Step(old(Value()), a)
    {
      match a
      case Begin(req, granted) => attempts := attempts + [Attempt(req, granted, FirstPhase(req, granted))];
      case Expire(token) => ExpireClaim(token);
      case Pass(d) => now := now + d;
      case _ =>
        if a.i < |attempts| {
          DoOf(a);
        }
    }

    method DoOf(a: Action)
      requires !a.Begin? && !a.Expire? && !a.Pass? && a.i < |attempts|
      modifies this
      ensures Value() == StepOf(old(Value()), a)
    {
      var me := attempts[a.i];
      match (a, me.phase)
      case (Read(_), Deciding) => ReadSection(a.i);
      case (Commit(_), Seen(_)) => CommitSection(a.i);
      case (GiveUp(_), Deciding) => attempts := attempts[a.i := me.(phase := Refused(Unavailable))];
      case (GiveUp(_), Seen(_)) => attempts := attempts[a.i := me.(phase := Refused(Unavailable))];
      case (Renew(_), Held(token)) => var _ := RenewClaim(me.req.name, token);
      case (Fence(_), Held(token)) => var _ := FenceClaim(me.req.name, token);
      case (Release(_), Held(token)) => ReleaseClaim(me.req.name, token);
      case _ =>
    }

    method Meanwhile(ghost from: World, ghost trace: seq<Action>, me: nat, others: seq<Action>)
      requires Value() == Run(from, trace)
      requires me < |attempts| && Others(others, me)
      modifies this
      ensures Value() == Run(from, trace + others) && Value() == Run(old(Value()), others)
      ensures me < |attempts| && attempts[me] == old(attempts[me])
    {
      ghost var entry := Value();
      for k := 0 to |others|
        invariant Value() == Run(entry, others[..k])
      {
        Do(others[k]);
        RunAppends(entry, others[..k], [others[k]]);
        assert others[..k] + [others[k]] == others[..k + 1];
        assert Run(Run(entry, others[..k]), [others[k]]) == Step(Run(entry, others[..k]), others[k]);
      }
      assert others[..|others|] == others;
      OthersLeaveMe(entry, others, me);
      RunAppends(from, trace, others);
    }

    method Act(ghost from: World, ghost trace: seq<Action>, a: Action)
      requires Value() == Run(from, trace)
      modifies this
      ensures Value() == Run(from, trace + [a]) && Value() == Step(old(Value()), a)
    {
      Do(a);
      RunAppends(from, trace, [a]);
      assert Run(Run(from, trace), [a]) == Step(Run(from, trace), a);
    }

    /** The first lock hold of a round: what it refuses, if it does. */
    method Look(ghost from: World, ghost before: seq<Action>, me: nat, others: seq<Action>) returns (refusal: Option<Refusal>, ghost trace: seq<Action>)
      requires Value() == Run(from, before) && me < |attempts| && attempts[me].phase.Deciding? && Others(others, me)
      modifies this
      ensures Value() == Run(from, trace) && trace == before + others + [Read(me)]
      ensures Value() == Step(Run(old(Value()), others), Read(me))
      ensures refusal == RefusalAt(Run(old(Value()), others), old(attempts[me].req))
      ensures me < |attempts|
      ensures attempts[me] == old(attempts[me]).(
                phase := if refusal.Some? then Refused(refusal.value)
                         else Seen(TickRevision(Run(old(Value()), others), old(attempts[me].req.name))))
    {
      Meanwhile(from, before, me, others);
      ReadAnswers(Value(), me);
      Act(from, before + others, Read(me));
      return if attempts[me].phase.Refused? then Some(attempts[me].phase.why) else None, before + others + [Read(me)];
    }

    /** The deadline falls. */
    method Leave(ghost from: World, ghost before: seq<Action>, me: nat) returns (ghost trace: seq<Action>)
      requires Value() == Run(from, before) && me < |attempts| && (attempts[me].phase.Deciding? || attempts[me].phase.Seen?)
      modifies this
      ensures Value() == Run(from, trace)
      ensures attempts == old(attempts)[me := old(attempts[me]).(phase := Refused(Unavailable))]
    {
      GivesUp(Value(), me);
      Act(from, before, GiveUp(me));
      trace := before + [GiveUp(me)];
    }

    /** The second: taken, or lost to someone in between. */
    method TryTake(ghost from: World, ghost trace: seq<Action>, me: nat, others: seq<Action>, ghost read: World) returns (token: Option<nat>)
      requires Value() == Run(from, trace) && me < |attempts| && Others(others, me)
      requires attempts[me].phase == Seen(TickRevision(read, attempts[me].req.name))
      modifies this
      ensures Value() == Run(from, trace + others + [Commit(me)])
      ensures Value() == Step(Run(old(Value()), others), Commit(me))
      ensures
        var w := Run(old(Value()), others);
        token == if LostTo(read, w, old(attempts[me].req)) then None else Some(w.revision + 1)
      ensures me < |attempts| && attempts[me] == old(attempts[me]).(phase := if token.Some? then Held(token.value) else Deciding)
    {
      Meanwhile(from, trace, me, others);
      CommitAnswers(Value(), me, read);
      Act(from, trace + others, Commit(me));
      return if attempts[me].phase.Held? then Some(attempts[me].phase.token) else None;
    }

    /** One round: no answer means someone else got in between. */
    method TryOnce(ghost from: World, ghost before: seq<Action>, me: nat, first: seq<Action>, second: seq<Action>)
      returns (answer: Option<Answer>, ghost trace: seq<Action>)
      requires Value() == Run(from, before) && me < |attempts| && attempts[me].phase.Deciding?
      requires Others(first, me) && Others(second, me)
      modifies this
      ensures Value() == Run(from, trace)
      ensures answer == RoundOf(RoundAt(old(Value()), me, first, Some(second)), old(attempts[me].req), old(attempts[me].granted))
      ensures me < |attempts| && AnsweredBy(old(attempts[me]), attempts[me], answer)
      ensures answer.None? ==> Value() == Run(old(Value()), first + [Read(me)] + second + [Commit(me)])
    {
      ghost var read := Run(Value(), first);
      RoundRuns(Value(), me, first, second);
      var refusal;
      refusal, trace := Look(from, before, me, first);
      if refusal.Some? { return Some(Refusing(refusal.value)), trace; }
      var token := TryTake(from, trace, me, second, read);
      trace := trace + second + [Commit(me)];
      answer := if token.Some? then Some(Taken(token.value, attempts[me].granted)) else None;
    }

    /** The round the deadline falls in. */
    method TryLast(ghost from: World, ghost before: seq<Action>, me: nat, first: seq<Action>) returns (answer: Answer, ghost trace: seq<Action>)
      requires Value() == Run(from, before) && me < |attempts| && attempts[me].phase.Deciding? && Others(first, me)
      modifies this
      ensures Value() == Run(from, trace)
      ensures Some(answer) == RoundOf(RoundAt(old(Value()), me, first, None), old(attempts[me].req), old(attempts[me].granted))
      ensures me < |attempts| && AnsweredBy(old(attempts[me]), attempts[me], Some(answer))
    {
      var refusal;
      refusal, trace := Look(from, before, me, first);
      if refusal.Some? { return Refusing(refusal.value), trace; }
      trace := Leave(from, trace, me);
      answer := Refusing(Unavailable);
    }

    /** Reads and takes, round after round, until an answer or the deadline. */
    method TakeRounds(ghost from: World, ghost before: seq<Action>, me: nat, gaps: seq<seq<Action>>)
      returns (answer: Answer, ghost trace: seq<Action>)
      requires Value() == Run(from, before) && me < |attempts| && attempts[me].phase.Deciding?
      requires forall k :: 0 <= k < |gaps| ==> Others(gaps[k], me)
      modifies this
      ensures Value() == Run(from, trace)
      ensures me < |attempts| && AnsweredBy(old(attempts[me]), attempts[me], Some(answer))
      ensures answer == AnswerFrom(old(Value()), me, old(attempts[me].req), old(attempts[me].granted), gaps, 0)
    {
      ghost var w, mine := Value(), attempts[me];
      trace := before;
      var t := 0;
      while true
        invariant 0 <= 2 * t <= |gaps| && me < |attempts| && attempts[me] == mine
        invariant Value() == Run(from, trace) && Value() == Run(w, Rounds(me, gaps, t))
        invariant AnswerFrom(w, me, mine.req, mine.granted, gaps, 0) == AnswerFrom(w, me, mine.req, mine.granted, gaps, t)
        decreases |gaps| - 2 * t
      {
        AnswerUnfolds(w, me, mine.req, mine.granted, gaps, t);
        if 2 * t + 1 >= |gaps| {
          answer, trace := TryLast(from, trace, me, GapAt(gaps, 2 * t));
          return;
        }
        var result;
        result, trace := TryOnce(from, trace, me, gaps[2 * t], gaps[2 * t + 1]);
        if result.Some? { return result.value, trace; }
        RoundNext(w, me, gaps, t);
        t := t + 1;
      }
    }

    /**
     * Reads, decides and takes, until an answer or the caller's deadline. `gaps` is what everyone
     * else does while this caller does not hold the lock; the deadline falls when it runs out.
     */
    method Acquire(req: Request, granted: nat, reached: bool, gaps: seq<seq<Action>>)
      returns (answer: Answer, me: nat, ghost trace: seq<Action>)
      requires forall k :: 0 <= k < |gaps| ==> Others(gaps[k], |attempts|)
      modifies this
      ensures me == |old(attempts)| < |attempts|
      ensures Value() == Run(old(Value()), trace)
      ensures attempts[me].req == req && attempts[me].granted == granted
      ensures answer.Taken? ==> attempts[me].phase == Held(answer.token) && answer.granted == granted >= req.expiry
      ensures answer.Refusing? ==> attempts[me].phase == Refused(answer.why)
      ensures answer == if !Checks(req) || !WholeSeconds(req.expiry) then Refusing(Malformed)
                        else if !reached || granted < req.expiry then Refusing(Unavailable)
                        else AnswerFrom(Run(old(Value()), [Begin(req, granted)]), me, req, granted, gaps, 0)
    {
      ghost var from := Value();
      me, trace := |attempts|, [];
      Act(from, trace, Begin(req, granted));
      trace := [Begin(req, granted)];
      if attempts[me].phase.Refused? { return Refusing(attempts[me].phase.why), me, trace; }
      if !reached {
        trace := Leave(from, trace, me);
        return Refusing(Unavailable), me, trace;
      }
      answer, trace := TakeRounds(from, trace, me, gaps);
    }
  }
}
