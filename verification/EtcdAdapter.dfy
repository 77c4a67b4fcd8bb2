/**
 * The adapter's own code over the shared world: grant, read, decide, transact, and give back
 * what a refused attempt was granted. Between any two of its calls the other hosts, the
 * backend and the clock may do anything.
 */
module EtcdAdapter {
  import opened Common
  import opened Coordination
  import opened EtcdStore
  import opened EtcdAnswers
  import opened Claims
  import opened ClaimsSafety

  /** What one read brings back: the holder, the tick and its revision, and which slots are free. */
  datatype State = State(holder: Option<Holder>, tick: Option<Tick>, slotFree: seq<bool>)

  /** What everyone else does before a call of this attempt's, and whether the call then fails. */
  datatype Gap = Gap(others: seq<Action>, fails: bool)

  /** Steps of other attempts, of the backend and of the clock. */
  predicate Others(actions: seq<Action>, me: nat) {
    forall k :: 0 <= k < |actions| ==>
      (actions[k].Begin? || actions[k].Lapse? || actions[k].Pass? || actions[k].i != me)
  }

  function StateOf(s: Store, req: Request): State {
    State(
      if req.name in s.claims then Some(s.claims[req.name].holder) else None,
      if req.trigger.Scheduled? && req.name in s.ticks then Some(s.ticks[req.name]) else None,
      if req.rate.Some? then SlotsFree(s, req.name, req.rate.value.runs) else [])
  }

  /** The lowest-numbered slot not taken, or none. */
  method FreeSlot(slotFree: seq<bool>) returns (slot: Option<nat>)
    ensures slot == FirstFree(slotFree)
  {
    for i := 0 to |slotFree|
      invariant forall j :: 0 <= j < i ==> !slotFree[j]
    {
      if slotFree[i] { return Some(i); }
    }
    return None;
  }

  lemma {:induction false} RunAppends(w: World, a: seq<Action>, b: seq<Action>)
    requires Shaped(w)
    ensures Run(w, a + b) == Run(Run(w, a), b)
    decreases |a|
  {
    if a == [] {
      assert a + b == b;
    } else {
      assert (a + b)[1..] == a[1..] + b;
      RunAppends(Step(w, a[0]), a[1..], b);
    }
  }

  lemma {:induction false} OthersLeaveMe(w: World, actions: seq<Action>, me: nat)
    requires Shaped(w) && me < |w.attempts| && Others(actions, me)
    ensures me < |Run(w, actions).attempts| && Run(w, actions).attempts[me] == w.attempts[me]
    decreases |actions|
  {
    if actions != [] {
      OtherLeavesMe(w, actions[0], me);
      assert Others(actions[1..], me);
      OthersLeaveMe(Step(w, actions[0]), actions[1..], me);
    }
  }

  lemma OtherLeavesMe(w: World, a: Action, me: nat)
    requires Shaped(w) && me < |w.attempts| && (a.Begin? || a.Lapse? || a.Pass? || a.i != me)
    ensures me < |Step(w, a).attempts| && Step(w, a).attempts[me] == w.attempts[me]
  {}

  /** What the code decides from a read is what the protocol decides at that store. */
  lemma DecideFromState(s: Store, req: Request)
    ensures
      var read := StateOf(s, req);
      if read.tick.Some? && req.trigger.due <= read.tick.value.due then
        Decide(s, req) == Refuse(if read.holder.Some? then HeldBy(read.holder.value)
                                 else TickRan(read.tick.value.due, read.tick.value.holder))
      else if req.rate.Some? && FirstFree(read.slotFree).None? then
        Decide(s, req) == Refuse(RateLimited(req.rate.value))
      else Decide(s, req).Proceed?
    ensures
      var read := StateOf(s, req);
      Reconsider(s, req) ==
        if read.holder.Some? then Some(HeldBy(read.holder.value))
        else if read.tick.Some? && req.trigger.due <= read.tick.value.due then
          Some(TickRan(read.tick.value.due, read.tick.value.holder))
        else None
  {}

  /** Refused for a reason, with these leases left to give back. */
  predicate RefusedWith(phase: Phase, why: Refusal, left: Option<Grants>) {
    phase.Refused? && phase.why == why && phase.left == left
  }

  lemma ReadStep(w: World, me: nat)
    requires Shaped(w) && me < |w.attempts| && w.attempts[me].phase.Deciding?
    ensures
      var w', req, g := Step(w, Read(me)), w.attempts[me].req, w.attempts[me].phase.grants;
      && me < |w'.attempts| && w'.attempts[me].req == req
      && match Decide(Now(w), req)
         case Refuse(why) => RefusedWith(w'.attempts[me].phase, why, Some(g))
         case Proceed(tx) => w'.attempts[me].phase == Seen(g, tx)
  {}

  lemma TransactStep(w: World, me: nat)
    requires Shaped(w) && me < |w.attempts| && w.attempts[me].phase.Seen?
    ensures
      var w', req, g, tx := Step(w, Transact(me)), w.attempts[me].req, w.attempts[me].phase.grants, w.attempts[me].phase.tx;
      && me < |w'.attempts| && w'.attempts[me].req == req
      && if Commits(Now(w), req, g, tx) then
           w'.attempts[me].phase == Held(g, |w.log|) && |w'.log| == |w.log| + 1 && Last(w'.log).token == Now(w').revision
         else if Unchanged(Now(w), req, tx) then
           RefusedWith(w'.attempts[me].phase, Unavailable, Some(g))
         else
           match Reconsider(Now(w), req)
           case Some(why) => RefusedWith(w'.attempts[me].phase, why, Some(g))
           case None => w'.attempts[me].phase == Deciding(g)
  {}

  lemma GrantSteps(w: World, me: nat, granted: nat)
    requires Shaped(w) && me < |w.attempts|
    ensures
      var w', mine := Step(w, GrantLease(me, granted)), w.attempts[me];
      mine.phase.Asked? ==>
        && me < |w'.attempts| && w'.attempts[me].req == mine.req
        && if granted < mine.req.expiry then
             w'.attempts[me].phase.Refused? && w'.attempts[me].phase.why == Unavailable
             && (w'.attempts[me].phase.left.Some? ==> w'.attempts[me].phase.left.value.slotLease.None?)
           else if mine.req.rate.Some? then w'.attempts[me].phase.Leased? && w'.attempts[me].phase.granted == granted
           else w'.attempts[me].phase.Deciding? && w'.attempts[me].phase.grants.granted == granted && w'.attempts[me].phase.grants.slotLease.None?
    ensures
      var w', mine := Step(w, GrantSlotLease(me, granted)), w.attempts[me];
      mine.phase.Leased? && mine.req.rate.Some? && granted >= mine.req.rate.value.per ==>
        && me < |w'.attempts| && w'.attempts[me].req == mine.req
        && w'.attempts[me].phase.Deciding? && w'.attempts[me].phase.grants.granted == mine.phase.granted
  {}

  /** What an attempt that gives up has been granted. */
  function LeftOf(phase: Phase): Option<Grants> {
    match phase
    case Leased(lease, granted) => Some(Grants(lease, granted, None, 0))
    case Deciding(g) => Some(g)
    case _ => None
  }

  lemma BeginSteps(w: World, req: Request)
    requires Shaped(w)
    ensures
      var w', me := Step(w, Begin(req)), |w.attempts|;
      && |w'.attempts| == me + 1 && w'.attempts[me].req == req
      && if Checks(req) && WholeSeconds(req.expiry) then w'.attempts[me].phase.Asked? else RefusedWith(w'.attempts[me].phase, Malformed, None)
  {}

  lemma LeaveSteps(w: World, me: nat)
    requires Shaped(w) && me < |w.attempts|
    ensures w.attempts[me].phase.Asked? || w.attempts[me].phase.Leased? || w.attempts[me].phase.Deciding? ==>
              && me < |Step(w, GiveUp(me)).attempts| && Step(w, GiveUp(me)).attempts[me].req == w.attempts[me].req
              && RefusedWith(Step(w, GiveUp(me)).attempts[me].phase, Unavailable, LeftOf(w.attempts[me].phase))
    ensures w.attempts[me].phase.Seen? ==>
              && me < |Step(w, LoseReply(me)).attempts| && Step(w, LoseReply(me)).attempts[me].req == w.attempts[me].req
              && RefusedWith(Step(w, LoseReply(me)).attempts[me].phase, Unavailable, Some(w.attempts[me].phase.grants))
  {}

  /** Which revocations reach the server while the call lasts. One that does not is left to be tried after it. */
  datatype Reach = Reach(claim: bool, slot: bool)

  /** A refused attempt's leases are gone, those whose revocations reached the server. */
  predicate GivenBack(w: World, me: nat, reach: Reach)
    requires Shaped(w) && me < |w.attempts|
  {
    var phase := w.attempts[me].phase;
    phase.Refused? && phase.left.Some? ==>
      && (reach.claim ==> phase.left.value.lease !in Now(w).leases)
      && (reach.slot && phase.left.value.slotLease.Some? ==> phase.left.value.slotLease.value !in Now(w).leases)
  }

  lemma RevokeSteps(w: World, me: nat)
    requires Shaped(w) && me < |w.attempts|
    ensures Shaped(Step(w, Revoke(me))) && Shaped(Step(w, RevokeSlot(me)))
    ensures Step(w, Revoke(me)).attempts == w.attempts && Step(w, RevokeSlot(me)).attempts == w.attempts
    ensures Now(Step(w, Revoke(me))).leases.Keys <= Now(w).leases.Keys && Now(Step(w, RevokeSlot(me))).leases.Keys <= Now(w).leases.Keys
    ensures GivenBack(Step(w, Revoke(me)), me, Reach(true, false)) && GivenBack(Step(w, RevokeSlot(me)), me, Reach(false, true))
  {}

  // ---- What a call answers ----

  /** A round's two calls, each with what comes before it. */
  datatype Call = Call(read: Gap, tx: Gap)

  function CallAt(gaps: seq<Gap>, t: nat): Call
    requires 2 * t + 1 < |gaps|
  {
    Call(gaps[2 * t], gaps[2 * t + 1])
  }

  /** The steps of a round up to its transaction. */
  function ToTransact(me: nat, call: Call): seq<Action> {
    call.read.others + [Read(me)] + call.tx.others
  }

  /** The steps of the first rounds, each of which went round. */
  function Rounds(me: nat, gaps: seq<Gap>, t: nat): seq<Action>
    requires 2 * t <= |gaps|
  {
    if t == 0 then [] else Rounds(me, gaps, t - 1) + (ToTransact(me, CallAt(gaps, t - 1)) + [Transact(me)])
  }

  lemma RunOneMore(w: World, actions: seq<Action>, a: Action)
    requires Shaped(w)
    ensures Run(w, actions + [a]) == Step(Run(w, actions), a)
  {
    RunAppends(w, actions, [a]);
    StepKeepsShape(Run(w, actions), a);
    assert Run(Run(w, actions), [a]) == Step(Run(w, actions), a);
  }

  lemma RoundNext(w: World, me: nat, gaps: seq<Gap>, t: nat)
    requires Shaped(w) && 2 * t + 1 < |gaps|
    ensures Run(w, Rounds(me, gaps, t + 1)) == Run(Run(w, Rounds(me, gaps, t)), ToTransact(me, CallAt(gaps, t)) + [Transact(me)])
  {
    RunAppends(w, Rounds(me, gaps, t), ToTransact(me, CallAt(gaps, t)) + [Transact(me)]);
  }

  /** What a round's two calls find, begun in a world. */
  function RoundAt(start: World, me: nat, call: Call): Round
    requires Shaped(start)
  {
    Round(Now(Run(start, call.read.others)), Now(Run(start, ToTransact(me, call))), call.read.fails, call.tx.fails)
  }

  /** What each round from the t-th on finds, those before it going round. */
  function RoundsFrom(w: World, me: nat, gaps: seq<Gap>, t: nat): seq<Round>
    requires Shaped(w)
    decreases |gaps| - 2 * t
  {
    if 2 * t + 1 >= |gaps| then []
    else [RoundAt(Run(w, Rounds(me, gaps, t)), me, CallAt(gaps, t))] + RoundsFrom(w, me, gaps, t + 1)
  }

  lemma RoundsUnfold(w: World, me: nat, req: Request, g: Grants, gaps: seq<Gap>, t: nat)
    requires Shaped(w) && 2 * t + 1 < |gaps|
    ensures
      AnswerOf(RoundsFrom(w, me, gaps, t), req, g) ==
      match RoundOf(RoundAt(Run(w, Rounds(me, gaps, t)), me, CallAt(gaps, t)), req, g)
      case Some(answer) => answer
      case None => AnswerOf(RoundsFrom(w, me, gaps, t + 1), req, g)
  {
    var all := RoundsFrom(w, me, gaps, t);
    assert all[1..] == RoundsFrom(w, me, gaps, t + 1);
  }

  /** The leases a call needs are granted, and the claim's for as long as was asked. */
  predicate CanLend(req: Request, granted: nat, first: Gap, second: Gap) {
    !first.fails && granted >= req.expiry && (req.rate.Some? ==> !second.fails)
  }

  /** The steps up to the leases' being granted. */
  function ToTake(me: nat, req: Request, granted: nat, slotGranted: nat, first: Gap, second: Gap): seq<Action> {
    first.others + [GrantLease(me, granted)] + second.others + if req.rate.Some? then [GrantSlotLease(me, slotGranted)] else []
  }

  lemma LendRuns(w: World, me: nat, req: Request, granted: nat, slotGranted: nat, first: Gap, second: Gap)
    requires Shaped(w)
    ensures Shaped(Step(Run(w, first.others), GrantLease(me, granted)))
    ensures
      var leased := Run(Step(Run(w, first.others), GrantLease(me, granted)), second.others);
      Run(w, ToTake(me, req, granted, slotGranted, first, second)) ==
      if req.rate.Some? then Step(leased, GrantSlotLease(me, slotGranted)) else leased
  {
    StepKeepsShape(Run(w, first.others), GrantLease(me, granted));
    RunOneMore(w, first.others, GrantLease(me, granted));
    RunAppends(w, first.others + [GrantLease(me, granted)], second.others);
    var steps := first.others + [GrantLease(me, granted)] + second.others;
    if req.rate.Some? {
      RunOneMore(w, steps, GrantSlotLease(me, slotGranted));
    } else {
      assert steps + [] == steps;
    }
  }

  /** The phase that goes with an answer, or with none. */
  predicate AnsweredBy(w: World, me: nat, g: Grants, answer: Option<Answer>)
    requires me < |w.attempts|
  {
    var phase := w.attempts[me].phase;
    match answer
    case None => phase == Deciding(g)
    case Some(Taken(token, granted)) =>
      phase.Held? && phase.grants == g && granted == g.granted && (phase.entry < |w.log| ==> token == w.log[phase.entry].token)
    case Some(Refusing(why)) => RefusedWith(phase, why, Some(g))
  }

  lemma HeldLogged(from: World, actions: seq<Action>, me: nat)
    requires Inv(from) && me < |Run(from, actions).attempts| && Run(from, actions).attempts[me].phase.Held?
    ensures Run(from, actions).attempts[me].phase.entry < |Run(from, actions).log|
  {
    RunKeeps(from, actions);
    assert AttemptOk(Run(from, actions), me);
  }

  class Coordinator {
    var world: World
    var trace: seq<Action>

    constructor (now: int)
      ensures world == Start(now) && trace == []
    {
      world, trace := Start(now), [];
    }

    /** One call of this attempt's, or one step of anyone's. */
    method Do(ghost from: World, a: Action)
      requires Shaped(from) && world == Run(from, trace)
      modifies this
      ensures Shaped(old(world)) && world == Step(old(world), a) && world == Run(old(world), [a]) && trace == old(trace) + [a]
      ensures world == Run(from, trace)
    {
      RunAppends(from, trace, [a]);
      assert Run(old(world), [a]) == Step(old(world), a);
      world, trace := Step(world, a), trace + [a];
    }

    /** Whatever happens between two calls of the attempt `me`. */
    method Meanwhile(ghost from: World, me: nat, others: seq<Action>)
      requires Shaped(from) && world == Run(from, trace)
      requires me < |world.attempts| && Others(others, me)
      modifies this
      ensures world == Run(from, trace) && trace == old(trace) + others
      ensures Shaped(old(world)) && world == Run(old(world), others)
      ensures me < |world.attempts| && world.attempts[me] == old(world.attempts[me])
    {
      RunAppends(from, trace, others);
      OthersLeaveMe(world, others, me);
      world, trace := Run(world, others), trace + others;
    }

    /** Gives back what a refused attempt was granted, as far as the server is reached. */
    method GiveBack(ghost from: World, me: nat, slot: bool, reach: Reach)
      requires Shaped(from) && world == Run(from, trace)
      requires me < |world.attempts| && world.attempts[me].phase.Refused?
      requires !slot && world.attempts[me].phase.left.Some? ==> world.attempts[me].phase.left.value.slotLease.None?
      modifies this
      ensures world == Run(from, trace)
      ensures world.attempts == old(world.attempts)
      ensures GivenBack(world, me, reach)
    {
      if reach.claim {
        RevokeSteps(world, me);
        Do(from, Revoke(me));
      }
      if slot && reach.slot {
        RevokeSteps(world, me);
        Do(from, RevokeSlot(me));
      }
    }

    /**
     * Takes the claim, and a tick and a slot with it, or is refused. `gaps` is what everyone else
     * does before each of this attempt's calls, and which of them fail; the attempt's deadline
     * falls when it runs out.
     */
    method Acquire(req: Request, granted: nat, slotGranted: nat, gaps: seq<Gap>, reach: Reach)
      returns (answer: Answer, me: nat)
      requires Inv(world) && trace == []
      requires req.rate.Some? ==> slotGranted >= req.rate.value.per
      requires forall k :: 0 <= k < |gaps| ==> Others(gaps[k].others, |world.attempts|)
      modifies this
      ensures world == Run(old(world), trace)
      ensures me == |old(world).attempts| < |world.attempts| && world.attempts[me].req == req
      ensures answer.Taken? ==>
                world.attempts[me].phase.Held? && answer.granted == world.attempts[me].phase.grants.granted >= req.expiry
      ensures answer.Taken? ==>
                world.attempts[me].phase.entry < |world.log| && answer.token == world.log[world.attempts[me].phase.entry].token
      ensures answer.Refusing? ==> world.attempts[me].phase.Refused? && world.attempts[me].phase.why == answer.why
      ensures GivenBack(world, me, reach)
      ensures !Checks(req) || !WholeSeconds(req.expiry) ==> answer == Refusing(Malformed)
      ensures Checks(req) && WholeSeconds(req.expiry) ==>
                if |gaps| < 2 || !CanLend(req, granted, gaps[0], gaps[1]) then answer == Refusing(Unavailable)
                else
                  var w := Run(old(world), [Begin(req)] + ToTake(me, req, granted, slotGranted, gaps[0], gaps[1]));
                  && me < |w.attempts| && w.attempts[me].phase.Deciding?
                  && answer == AnswerOf(RoundsFrom(w, me, gaps[2..], 0), req, w.attempts[me].phase.grants)
    {
      ghost var from := world;
      me := |world.attempts|;
      BeginSteps(world, req);
      Do(from, Begin(req));
      if !Checks(req) || !WholeSeconds(req.expiry) { return Refusing(Malformed), me; }
      if |gaps| < 2 {
        LeaveSteps(world, me);
        Do(from, GiveUp(me));
        return Refusing(Unavailable), me;
      }
      RunAppends(from, [Begin(req)], ToTake(me, req, granted, slotGranted, gaps[0], gaps[1]));
      var lent := Lend(from, me, req, granted, slotGranted, gaps[0], gaps[1], reach);
      if !lent { return Refusing(Unavailable), me; }
      answer := Take(from, me, req, gaps[2..]);
      if answer.Refusing? {
        GiveBack(from, me, req.rate.Some?, reach);
      } else {
        HeldLogged(from, trace, me);
      }
    }

    /** The leases an attempt needs before it decides, or what one of them failing leaves. */
    method Lend(ghost from: World, me: nat, req: Request, granted: nat, slotGranted: nat, first: Gap, second: Gap, reach: Reach)
      returns (lent: bool)
      requires Shaped(from) && world == Run(from, trace)
      requires me < |world.attempts| && world.attempts[me].req == req && world.attempts[me].phase.Asked?
      requires req.rate.Some? ==> slotGranted >= req.rate.value.per
      requires Others(first.others, me) && Others(second.others, me)
      modifies this
      ensures world == Run(from, trace)
      ensures me < |world.attempts| && world.attempts[me].req == req
      ensures lent ==> world.attempts[me].phase.Deciding? && world.attempts[me].phase.grants.granted == granted >= req.expiry
      ensures lent && req.rate.None? ==> world.attempts[me].phase.grants.slotLease.None?
      ensures !lent ==> world.attempts[me].phase.Refused? && world.attempts[me].phase.why == Unavailable && GivenBack(world, me, reach)
      ensures lent <==> CanLend(req, granted, first, second)
      ensures Shaped(old(world)) && (lent ==> world == Run(old(world), ToTake(me, req, granted, slotGranted, first, second)))
    {
      LendRuns(world, me, req, granted, slotGranted, first, second);
      Meanwhile(from, me, first.others);
      LeaveSteps(world, me);
      if first.fails {
        Do(from, GiveUp(me));
        return false;
      }
      GrantSteps(world, me, granted);
      Do(from, GrantLease(me, granted));
      if granted < req.expiry {
        GiveBack(from, me, false, reach);
        return false;
      }
      Meanwhile(from, me, second.others);
      if req.rate.Some? {
        lent := LendSlot(from, me, req, slotGranted, second.fails, reach);
        return lent;
      }
      return true;
    }

    /** The lease of a rate slot, granted after the claim's. */
    method LendSlot(ghost from: World, me: nat, req: Request, slotGranted: nat, fails: bool, reach: Reach) returns (lent: bool)
      requires Shaped(from) && world == Run(from, trace)
      requires me < |world.attempts| && world.attempts[me].req == req && world.attempts[me].phase.Leased?
      requires req.rate.Some? && slotGranted >= req.rate.value.per
      modifies this
      ensures world == Run(from, trace)
      ensures me < |world.attempts| && world.attempts[me].req == req
      ensures lent ==> world.attempts[me].phase.Deciding?
                       && world.attempts[me].phase.grants.granted == old(world.attempts[me].phase.granted)
      ensures !lent ==> world.attempts[me].phase.Refused? && world.attempts[me].phase.why == Unavailable && GivenBack(world, me, reach)
      ensures lent <==> !fails
      ensures Shaped(old(world)) && (lent ==> world == Step(old(world), GrantSlotLease(me, slotGranted)))
    {
      if fails {
        LeaveSteps(world, me);
        Do(from, GiveUp(me));
        GiveBack(from, me, false, reach);
        return false;
      }
      GrantSteps(world, me, slotGranted);
      Do(from, GrantSlotLease(me, slotGranted));
      return true;
    }

    /** One round: a read, and a transaction on what was read. No answer means it lost a race. */
    method TryOnce(ghost from: World, me: nat, req: Request, call: Call) returns (answer: Option<Answer>)
      requires Shaped(from) && world == Run(from, trace)
      requires me < |world.attempts| && world.attempts[me].req == req && world.attempts[me].phase.Deciding?
      requires Others(call.read.others, me) && Others(call.tx.others, me)
      modifies this
      ensures world == Run(from, trace) && Shaped(old(world))
      ensures me < |world.attempts| && world.attempts[me].req == req
      ensures answer == RoundOf(RoundAt(old(world), me, call), req, old(world.attempts[me].phase.grants))
      ensures AnsweredBy(world, me, old(world.attempts[me].phase.grants), answer)
      ensures answer.None? ==> world == Run(old(world), ToTransact(me, call) + [Transact(me)])
    {
      ghost var start := world;
      RunAppends(start, call.read.others + [Read(me)], call.tx.others);
      RunOneMore(start, ToTransact(me, call), Transact(me));
      var refusal := LookUp(from, me, req, call.read);
      if refusal.Some? { return Some(Refusing(refusal.value)); }
      answer := Send(from, me, req, call.tx);
    }

    /** The read of a round, and what it refuses before anything is sent. */
    method LookUp(ghost from: World, me: nat, req: Request, gap: Gap) returns (refusal: Option<Refusal>)
      requires Shaped(from) && world == Run(from, trace)
      requires me < |world.attempts| && world.attempts[me].req == req && world.attempts[me].phase.Deciding?
      requires Others(gap.others, me)
      modifies this
      ensures world == Run(from, trace) && Shaped(old(world))
      ensures me < |world.attempts| && world.attempts[me].req == req
      ensures
        var g, verdict := old(world.attempts[me].phase.grants), Decide(Now(Run(old(world), gap.others)), req);
        if gap.fails then refusal == Some(Unavailable) && RefusedWith(world.attempts[me].phase, Unavailable, Some(g))
        else match verdict
             case Refuse(why) => refusal == Some(why) && RefusedWith(world.attempts[me].phase, why, Some(g))
             case Proceed(tx) =>
               refusal.None? && world.attempts[me].phase == Seen(g, tx) && world == Run(old(world), gap.others + [Read(me)])
    {
      RunOneMore(world, gap.others, Read(me));
      Meanwhile(from, me, gap.others);
      if gap.fails {
        LeaveSteps(world, me);
        Do(from, GiveUp(me));
        return Some(Unavailable);
      }
      refusal := Refuses(Now(world), req);
      ReadStep(world, me);
      Do(from, Read(me));
    }

    /** The transaction of a round. */
    method Send(ghost from: World, me: nat, req: Request, gap: Gap) returns (answer: Option<Answer>)
      requires Shaped(from) && world == Run(from, trace)
      requires me < |world.attempts| && world.attempts[me].req == req && world.attempts[me].phase.Seen?
      requires Others(gap.others, me)
      modifies this
      ensures world == Run(from, trace) && Shaped(old(world))
      ensures me < |world.attempts| && world.attempts[me].req == req
      ensures
        var g, tx := old(world.attempts[me].phase.grants), old(world.attempts[me].phase.tx);
        && answer == (if gap.fails then Some(Refusing(Unavailable)) else Transacted(Now(Run(old(world), gap.others)), req, g, tx))
        && AnsweredBy(world, me, g, answer)
      ensures answer.None? ==> world == Step(Run(old(world), gap.others), Transact(me))
    {
      Meanwhile(from, me, gap.others);
      if gap.fails {
        LeaveSteps(world, me);
        Do(from, LoseReply(me));
        return Some(Refusing(Unavailable));
      }
      answer := Settle(from, me, req);
    }

    /** What a read refuses before anything is sent. */
    method Refuses(seen: Store, req: Request) returns (refusal: Option<Refusal>)
      ensures refusal == match Decide(seen, req) case Refuse(why) => Some(why) case Proceed(_) => None
    {
      var read := StateOf(seen, req);
      DecideFromState(seen, req);
      if read.tick.Some? && req.trigger.due <= read.tick.value.due {
        return Some(if read.holder.Some? then HeldBy(read.holder.value) else TickRan(read.tick.value.due, read.tick.value.holder));
      }
      if req.rate.Some? {
        var slot := FreeSlot(read.slotFree);
        if slot.None? { return Some(RateLimited(req.rate.value)); }
      }
      return None;
    }

    /** The transaction, and what losing it comes to. */
    method Settle(ghost from: World, me: nat, req: Request) returns (answer: Option<Answer>)
      requires Shaped(from) && world == Run(from, trace)
      requires me < |world.attempts| && world.attempts[me].req == req && world.attempts[me].phase.Seen?
      modifies this
      ensures Shaped(old(world)) && world == Run(from, trace) && world == Step(old(world), Transact(me))
      ensures me < |world.attempts| && world.attempts[me].req == req
      ensures
        var g, tx := old(world.attempts[me].phase.grants), old(world.attempts[me].phase.tx);
        answer == Transacted(Now(old(world)), req, g, tx) && AnsweredBy(world, me, g, answer)
    {
      var before := world;
      TransactStep(before, me);
      Do(from, Transact(me));
      if world.attempts[me].phase.Held? {
        return Some(Taken(Now(world).revision, world.attempts[me].phase.grants.granted));
      }
      if world.attempts[me].phase.Refused? && Unchanged(Now(before), req, before.attempts[me].phase.tx) {
        return Some(Refusing(Unavailable));
      }
      var again := StateOf(Now(before), req);
      DecideFromState(Now(before), req);
      if again.holder.Some? { return Some(Refusing(HeldBy(again.holder.value))); }
      if again.tick.Some? && req.trigger.due <= again.tick.value.due {
        return Some(Refusing(TickRan(again.tick.value.due, again.tick.value.holder)));
      }
      return None;
    }

    /** Reads, decides and transacts, again and again, until an answer or the deadline. */
    method Take(ghost from: World, me: nat, req: Request, gaps: seq<Gap>) returns (answer: Answer)
      requires Shaped(from) && world == Run(from, trace)
      requires me < |world.attempts| && world.attempts[me].req == req
      requires world.attempts[me].phase.Deciding?
      requires forall k :: 0 <= k < |gaps| ==> Others(gaps[k].others, me)
      modifies this
      ensures world == Run(from, trace)
      ensures me < |world.attempts| && world.attempts[me].req == req
      ensures answer.Taken? ==>
                world.attempts[me].phase.Held? && answer.granted == world.attempts[me].phase.grants.granted
                && world.attempts[me].phase.grants == old(world.attempts[me].phase.grants)
      ensures answer.Taken? && world.attempts[me].phase.entry < |world.log| ==>
                answer.token == world.log[world.attempts[me].phase.entry].token
      ensures answer.Refusing? ==> RefusedWith(world.attempts[me].phase, answer.why, Some(old(world.attempts[me].phase.grants)))
      ensures Shaped(old(world)) && answer == AnswerOf(RoundsFrom(old(world), me, gaps, 0), req, old(world.attempts[me].phase.grants))
    {
      ghost var start, g := world, world.attempts[me].phase.grants;
      var t := 0;
      while 2 * t + 1 < |gaps|
        invariant 2 * t <= |gaps| && Shaped(start)
        invariant world == Run(from, trace)
        invariant me < |world.attempts| && world.attempts[me].req == req
        invariant world.attempts[me].phase == Deciding(g) && world == Run(start, Rounds(me, gaps, t))
        invariant AnswerOf(RoundsFrom(start, me, gaps, 0), req, g) == AnswerOf(RoundsFrom(start, me, gaps, t), req, g)
      {
        RoundsUnfold(start, me, req, g, gaps, t);
        RoundNext(start, me, gaps, t);
        var result := TryOnce(from, me, req, CallAt(gaps, t));
        if result.Some? { return result.value; }
        t := t + 1;
      }
      LeaveSteps(world, me);
      Do(from, GiveUp(me));
      return Refusing(Unavailable);
    }
  }
}
