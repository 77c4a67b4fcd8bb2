/**
 * The claim protocol as a transition system: any number of attempts, on any number of hosts,
 * each one remote call at a time, over one store. A call can be refused, its reply can be
 * lost, and a transaction can commit after its client stopped listening.
 */
module Claims {
  import opened Common
  import opened Coordination
  import opened EtcdStore

  /** Where one attempt to take a claim has got to. */
  datatype Phase =
    | Asked
    | Leased(lease: nat, granted: nat)
    | Deciding(grants: Grants)
    | Seen(grants: Grants, tx: Tx)
    | Held(grants: Grants, entry: nat)
    | Refused(why: Refusal, at: nat, left: Option<Grants>, pending: Option<Tx>, late: Option<nat>)

  /** `fenced` is how many commits there were when the last unused fence passed. */
  datatype Attempt = Attempt(req: Request, since: nat, phase: Phase, fenced: Option<nat>)

  /** One transaction that took a claim, written over `history[before]`. */
  datatype Entry = Entry(attempt: nat, req: Request, grants: Grants, slot: nat, token: nat, at: int, before: nat, answered: bool)

  /** A side effect, an agent stage or a sink, with the commits there were at its fence and as it began. */
  datatype Effect = Effect(attempt: nat, fencedAt: nat, begunAt: nat)

  datatype Owner = ForClaim(attempt: nat) | ForSlot(attempt: nat)

  /** Every store there has been, the present one last; whose each lease is; the commits; the effects. */
  datatype World = World(
    history: seq<Store>,
    owners: seq<Owner>,
    attempts: seq<Attempt>,
    log: seq<Entry>,
    effects: seq<Effect>)

  datatype Action =
    | Begin(req: Request)
    | GrantLease(i: nat, granted: nat)
    | GrantSlotLease(i: nat, granted: nat)
    | Read(i: nat)
    | Transact(i: nat)
    | LoseReply(i: nat)
    | CommitLate(i: nat)
    | GiveUp(i: nat)
    | Revoke(i: nat)
    | RevokeSlot(i: nat)
    | Renew(i: nat)
    | Fence(i: nat)
    | Affect(i: nat)
    | Release(i: nat)
    | Lapse(lease: nat)
    | Pass(d: nat)

  predicate Shaped(w: World) { w.history != [] }

  function Now(w: World): Store
    requires Shaped(w)
  {
    Last(w.history)
  }

  function Start(now: int): World {
    World([Empty(now)], [], [], [], [])
  }

  function Push(w: World, s: Store): (r: World)
    requires Shaped(w)
    ensures Shaped(r) && Now(r) == s
  {
    w.(history := w.history + [s])
  }

  function Move(w: World, i: nat, phase: Phase): (r: World)
    requires i < |w.attempts|
    ensures r.history == w.history
  {
    w.(attempts := w.attempts[i := w.attempts[i].(phase := phase)])
  }

  function RefuseAt(w: World, i: nat, why: Refusal, left: Option<Grants>): World
    requires Shaped(w) && i < |w.attempts|
  {
    Move(w, i, Refused(why, |w.history| - 1, left, None, None))
  }

  /** The transaction commits: the store is written and the commit joins the log. */
  function Commit(w: World, i: nat, g: Grants, tx: Tx, answered: bool): World
    requires Shaped(w) && i < |w.attempts| && Commits(Now(w), w.attempts[i].req, g, tx)
  {
    var req := w.attempts[i].req;
    var entry := Entry(i, req, g, tx.slot, Now(w).revision + 1, Now(w).now, |w.history| - 1, answered);
    Push(w, Put(Now(w), req, g, tx)).(log := w.log + [entry])
  }

  /** One step. An action that is not enabled changes nothing. */
  function Step(w: World, a: Action): World
    requires Shaped(w)
  {
    match a
    case Begin(req) =>
      var phase := if Checks(req) && WholeSeconds(req.expiry) then Asked
                   else Refused(Malformed, |w.history| - 1, None, None, None);
      w.(attempts := w.attempts + [Attempt(req, |w.history| - 1, phase, None)])
    case Lapse(lease) =>
      if lease in Now(w).leases && Now(w).now >= Now(w).leases[lease].expires then Push(w, Drop(Now(w), lease)) else w
    case Pass(d) => Push(w, Now(w).(now := Now(w).now + d))
    case _ => if a.i < |w.attempts| then StepOf(w, a) else w
  }

  function StepOf(w: World, a: Action): World
    requires Shaped(w) && !a.Begin? && !a.Lapse? && !a.Pass? && a.i < |w.attempts|
  {
    var i, s := a.i, Now(w);
    var me := w.attempts[i];
    match (a, me.phase)
    case (GrantLease(_, granted), Asked) =>
      var leased := Push(w, Grant(s, granted)).(owners := w.owners + [ForClaim(i)]);
      if granted < me.req.expiry then RefuseAt(leased, i, Unavailable, Some(Grants(s.issued, granted, None, 0)))
      else if me.req.rate.Some? then Move(leased, i, Leased(s.issued, granted))
      else Move(leased, i, Deciding(Grants(s.issued, granted, None, 0)))
    case (GrantSlotLease(_, granted), Leased(lease, mine)) =>
      if me.req.rate.Some? && granted >= me.req.rate.value.per then
        Move(Push(w, Grant(s, granted)).(owners := w.owners + [ForSlot(i)]), i,
             Deciding(Grants(lease, mine, Some(s.issued), s.now)))
      else w
    case (Read(_), Deciding(g)) =>
      (match Decide(s, me.req)
       case Refuse(why) => RefuseAt(w, i, why, Some(g))
       case Proceed(tx) => Move(w, i, Seen(g, tx)))
    case (Transact(_), Seen(g, tx)) =>
      if Commits(s, me.req, g, tx) then Move(Commit(w, i, g, tx, true), i, Held(g, |w.log|))
      else if Unchanged(s, me.req, tx) then RefuseAt(w, i, Unavailable, Some(g))
      else
        (match Reconsider(s, me.req)
         case Some(why) => RefuseAt(w, i, why, Some(g))
         case None => Move(w, i, Deciding(g)))
    case (LoseReply(_), Seen(g, tx)) =>
      Move(w, i, Refused(Unavailable, |w.history| - 1, Some(g), Some(tx), None))
    case (CommitLate(_), Refused(why, at, Some(g), Some(tx), None)) =>
      if Commits(s, me.req, g, tx) then Move(Commit(w, i, g, tx, false), i, Refused(why, at, Some(g), None, Some(|w.log|)))
      else Move(w, i, Refused(why, at, Some(g), None, None))
    case (GiveUp(_), Asked) => RefuseAt(w, i, Unavailable, None)
    case (GiveUp(_), Leased(lease, mine)) => RefuseAt(w, i, Unavailable, Some(Grants(lease, mine, None, 0)))
    case (GiveUp(_), Deciding(g)) => RefuseAt(w, i, Unavailable, Some(g))
    case (GiveUp(_), Seen(g, _)) => RefuseAt(w, i, Unavailable, Some(g))
    case (Revoke(_), Refused(_, _, Some(g), _, _)) => Push(w, Drop(s, g.lease))
    case (RevokeSlot(_), Refused(_, _, Some(g), _, _)) => if g.slotLease.Some? then Push(w, Drop(s, g.slotLease.value)) else w
    case (Renew(_), Held(g, _)) => if g.lease in s.leases then Push(w, KeepAlive(s, g.lease)) else w
    case (Fence(_), Held(_, entry)) =>
      if entry < |w.log| && FencePasses(s, me.req.name, w.log[entry].token) then
        w.(attempts := w.attempts[i := me.(fenced := Some(|w.log|))])
      else w
    case (Affect(_), Held(_, _)) =>
      if me.fenced.Some? then
        w.(attempts := w.attempts[i := me.(fenced := None)],
           effects := w.effects + [Effect(i, me.fenced.value, |w.log|)])
      else w
    case (Release(_), Held(g, _)) => Push(w, Drop(s, g.lease))
    case _ => w
  }

  /** Every action of a run in order. */
  function Run(w: World, actions: seq<Action>): (r: World)
    requires Shaped(w)
    ensures Shaped(r)
    decreases |actions|
  {
    if actions == [] then w else StepKeepsShape(w, actions[0]); Run(Step(w, actions[0]), actions[1..])
  }

  lemma StepKeepsShape(w: World, a: Action)
    requires Shaped(w)
    ensures Shaped(Step(w, a))
  {}
}
