/**
 * The two halves of exclusion together: every call the claim protocol makes on one name, and every
 * run's renewal loop and stop deadline, over one clock. What the backend does is a step of the timed
 * tenures too, so what holds of either half holds of the whole.
 */
module Composition {
  import opened Common
  import opened Coordination
  import opened EtcdStore
  import opened Renewal
  import C = Claims
  import S = ClaimsSafety
  import T = ClaimTheorems
  import H = HoldWorld
  import HT = HoldTheorems

  datatype World = World(c: C.World, h: H.World)

  /** A step of the claim protocol, or one of a run's own. */
  datatype Action = Backend(b: C.Action) | Runtime(a: H.Action)

  function Start(now: int): World { World(C.Start(now), H.Start(now)) }

  /** The attempt whose claim a lease is for. */
  function AttemptOf(c: C.World, lease: nat): Option<nat> {
    if lease < |c.owners| && c.owners[lease].ForClaim? && c.owners[lease].attempt < |c.attempts|
       && S.GrantsOf(c.attempts[c.owners[lease].attempt].phase).Some?
       && S.GrantsOf(c.attempts[c.owners[lease].attempt].phase).value.lease == lease
    then Some(c.owners[lease].attempt) else None
  }

  /** What a step of the protocol is to the tenures. */
  function Mirror(c: C.World, b: C.Action): Option<H.Action>
    requires C.Shaped(c)
  {
    match b
    case Begin(_) => Some(H.Ask)
    case Pass(d) => Some(H.Pass(d))
    case Lapse(lease) => (match AttemptOf(c, lease) case None => None case Some(i) => Some(H.Lapse(i)))
    case _ => if b.i < |c.attempts| then MirrorOf(c, b) else None
  }

  function MirrorOf(c: C.World, b: C.Action): Option<H.Action>
    requires C.Shaped(c) && !b.Begin? && !b.Lapse? && !b.Pass? && b.i < |c.attempts|
  {
    var i, was, c' := b.i, c.attempts[b.i].phase, C.Step(c, b);
    if i >= |c'.attempts| then None
    else if !was.Refused? && c'.attempts[i].phase.Refused? then Some(H.Abandon(i))
    else if b.GrantLease? && was.Asked? then Some(H.Lease(i, b.granted))
    else if b.Transact? && !was.Held? && c'.attempts[i].phase.Held? then Some(H.Commit(i))
    else if b.CommitLate? && |c'.log| > |c.log| then Some(H.CommitLate(i))
    else if (b.Revoke? && was.Refused?) || (b.Release? && was.Held?) then Some(H.Release(i))
    else if b.Renew? && was.Held? then Some(H.Reach(i))
    else None
  }

  /**
   * Who calls when: every request is well formed, for the one name and the deployment's expiry; a claim
   * is renewed for a run and released after it; time passes as the runs' timers allow.
   */
  predicate Enabled(m: H.Terms, name: Name, w: World, a: Action) {
    match a
    case Backend(b) =>
      (match b
       case Begin(req) => req.name == name && req.expiry == m.c.claimExpiry && Checks(req) && WholeSeconds(req.expiry)
       case Pass(d) => H.MayPass(m, w.h, d)
       case Renew(i) => i < |w.h.tenures| && H.MayReach(w.h.tenures[i])
       case Release(i) => i < |w.h.tenures| && (w.h.tenures[i].phase.Ended? || w.h.tenures[i].phase.Gone?)
       case _ => true)
    case Runtime(a) =>
      || a.Admit? || a.Arm? || a.Fire? || a.Answered? || a.FenceFails? || a.End? || a.Exit?
      || (a.Abandon? && a.i < |w.h.tenures| && w.h.tenures[a.i].phase.Claimed?)
  }

  function Mirrored(m: H.Terms, h: H.World, mirror: Option<H.Action>): H.World {
    match mirror
    case None => h
    case Some(a) => H.Step(m, h, a)
  }

  function Step(m: H.Terms, name: Name, w: World, a: Action): World
    requires C.Shaped(w.c)
  {
    if !Enabled(m, name, w, a) then w
    else
      match a
      case Backend(b) => World(C.Step(w.c, b), Mirrored(m, w.h, Mirror(w.c, b)))
      case Runtime(a) => w.(h := H.Step(m, w.h, a))
  }

  function Run(m: H.Terms, name: Name, w: World, actions: seq<Action>): (r: World)
    requires C.Shaped(w.c)
    ensures C.Shaped(r.c)
    decreases |actions|
  {
    if actions == [] then w
    else
      StepShaped(m, name, w, actions[0]);
      Run(m, name, Step(m, name, w, actions[0]), actions[1..])
  }

  lemma StepShaped(m: H.Terms, name: Name, w: World, a: Action)
    requires C.Shaped(w.c)
    ensures C.Shaped(Step(m, name, w, a).c)
  {
    if a.Backend? { C.StepKeepsShape(w.c, a.b); }
  }

  // ---- What the halves agree on ----

  /** Where the protocol has got to with an attempt, as its tenure sees it. */
  predicate PhasesAgree(p: C.Phase, q: H.Phase) {
    match p
    case Asked => q.Asking?
    case Leased(_, _) => q.Leased?
    case Deciding(_) => q.Leased?
    case Seen(_, _) => q.Leased?
    case Held(_, _) => !q.Asking? && !q.Leased?
    case Refused(_, _, _, _, _) => q.Gone?
  }

  /** A grant as long as asked is the tenure's lease, for as long as the backend has it; a shorter one is none. */
  predicate LeasesAgree(s: Store, me: C.Attempt, t: H.Tenure) {
    match S.GrantsOf(me.phase)
    case None => t.lease.None?
    case Some(g) =>
      && (g.granted < me.req.expiry ==> t.lease.None? && me.phase.Refused? && me.phase.pending.None?)
      && (g.granted >= me.req.expiry ==> (t.lease.Some? <==> g.lease in s.leases))
      && (t.lease.Some? && g.lease in s.leases ==>
            s.leases[g.lease].ttl == t.granted && s.leases[g.lease].expires == t.lease.value)
  }

  predicate AttemptAgrees(m: H.Terms, name: Name, w: World, i: nat)
    requires C.Shaped(w.c) && i < |w.c.attempts| && i < |w.h.tenures|
  {
    && w.c.attempts[i].req.name == name && w.c.attempts[i].req.expiry == m.c.claimExpiry
    && PhasesAgree(w.c.attempts[i].phase, w.h.tenures[i].phase)
    && LeasesAgree(C.Now(w.c), w.c.attempts[i], w.h.tenures[i])
  }

  /** The claim stands under a tenure's lease exactly if it is that tenure's. */
  predicate ClaimAgrees(name: Name, w: World)
    requires C.Shaped(w.c)
  {
    match w.h.claim
    case None => name !in C.Now(w.c).claims
    case Some(i) =>
      && i < |w.c.attempts| && name in C.Now(w.c).claims
      && S.GrantsOf(w.c.attempts[i].phase).Some?
      && C.Now(w.c).claims[name].lease == S.GrantsOf(w.c.attempts[i].phase).value.lease
  }

  /** Grants for claims are each attempt's own. */
  ghost predicate OwnLeases(c: C.World) {
    forall i :: 0 <= i < |c.attempts| && S.GrantsOf(c.attempts[i].phase).Some? ==> OwnLease(c, i)
  }

  predicate OwnLease(c: C.World, i: nat)
    requires i < |c.attempts| && S.GrantsOf(c.attempts[i].phase).Some?
  {
    var g := S.GrantsOf(c.attempts[i].phase).value;
    && g.lease < |c.owners| && AttemptOf(c, g.lease) == Some(i)
    && (g.slotLease.Some? ==> g.slotLease.value < |c.owners| && c.owners[g.slotLease.value].ForSlot?)
  }

  ghost predicate Agree(m: H.Terms, name: Name, w: World) {
    && C.Shaped(w.c) && OwnLeases(w.c) && C.Now(w.c).issued == |w.c.owners|
    && |w.c.attempts| == |w.h.tenures| && C.Now(w.c).now == w.h.now
    && (forall i :: 0 <= i < |w.c.attempts| ==> AttemptAgrees(m, name, w, i))
    && ClaimAgrees(name, w)
    && (w.h.claim.Some? ==> w.h.claim.value < |w.h.tenures| && w.h.tenures[w.h.claim.value].lease.Some?)
  }

  // ---- Steps that move one attempt over the same store ----

  /** The protocol moves one attempt, and its tenure moves alike. */
  lemma Moves(m: H.Terms, name: Name, w: World, w': World, i: nat)
    requires Agree(m, name, w) && i < |w.c.attempts|
    requires C.Shaped(w'.c) && C.Now(w'.c) == C.Now(w.c) && w'.c.owners == w.c.owners
    requires |w'.c.attempts| == |w.c.attempts| && |w'.h.tenures| == |w.h.tenures|
    requires w'.h.now == w.h.now && w'.h.claim == w.h.claim
    requires forall j :: 0 <= j < |w.c.attempts| && j != i ==>
                           w'.c.attempts[j] == w.c.attempts[j] && w'.h.tenures[j] == w.h.tenures[j]
    requires w'.c.attempts[i].req == w.c.attempts[i].req
    requires S.GrantsOf(w'.c.attempts[i].phase) == S.GrantsOf(w.c.attempts[i].phase)
    requires w'.h.tenures[i].lease == w.h.tenures[i].lease && AttemptAgrees(m, name, w', i)
    ensures Agree(m, name, w')
  {
    forall j | 0 <= j < |w'.c.attempts| ensures AttemptAgrees(m, name, w', j) {
      if j != i { assert AttemptAgrees(m, name, w, j); }
    }
    forall j | 0 <= j < |w'.c.attempts| && S.GrantsOf(w'.c.attempts[j].phase).Some? ensures OwnLease(w'.c, j) {
      assert OwnLease(w.c, j);
    }
  }

  /** An attempt ends in a refusal, keeping what it was granted; its tenure is over. */
  lemma RefusedAgrees(m: H.Terms, name: Name, w: World, w': World, i: nat)
    requires Agree(m, name, w) && i < |w.c.attempts| && !w.c.attempts[i].phase.Refused? && !w.c.attempts[i].phase.Held?
    requires C.Shaped(w'.c) && w'.c.history == w.c.history && w'.c.owners == w.c.owners
    requires |w'.c.attempts| == |w.c.attempts| && w'.c.attempts[i].phase.Refused?
    requires w'.c.attempts == w.c.attempts[i := w.c.attempts[i].(phase := w'.c.attempts[i].phase)]
    requires S.GrantsOf(w'.c.attempts[i].phase) == S.GrantsOf(w.c.attempts[i].phase)
    requires w'.h == H.Set(w.h, i, w.h.tenures[i].(phase := H.Gone))
    ensures Agree(m, name, w')
  {
    assert AttemptAgrees(m, name, w, i);
    Moves(m, name, w, w', i);
  }

  /** An attempt goes on deciding. */
  lemma GoesOnAgrees(m: H.Terms, name: Name, w: World, w': World, i: nat)
    requires Agree(m, name, w) && i < |w.c.attempts|
    requires C.Shaped(w'.c) && w'.c.history == w.c.history && w'.c.owners == w.c.owners && w'.h == w.h
    requires |w'.c.attempts| == |w.c.attempts|
    requires w'.c.attempts == w.c.attempts[i := w.c.attempts[i].(phase := w'.c.attempts[i].phase, fenced := w'.c.attempts[i].fenced)]
    requires S.GrantsOf(w'.c.attempts[i].phase) == S.GrantsOf(w.c.attempts[i].phase)
    requires PhasesAgree(w'.c.attempts[i].phase, w.h.tenures[i].phase)
    requires w.c.attempts[i].phase.Refused? <==> w'.c.attempts[i].phase.Refused?
    requires w'.c.attempts[i].phase.Refused? ==> w'.c.attempts[i].phase.pending.None? || w'.c.attempts[i].phase == w.c.attempts[i].phase
    ensures Agree(m, name, w')
  {
    assert AttemptAgrees(m, name, w, i);
    Moves(m, name, w, w', i);
  }

  /** A step that leaves the store alone. */
  predicate OnlyDecides(b: C.Action) {
    b.Read? || b.LoseReply? || b.GiveUp? || b.Fence? || b.Affect?
  }

  /** What a step that only decides makes of its attempt. */
  lemma Decides(c: C.World, b: C.Action)
    requires C.Shaped(c) && OnlyDecides(b) && b.i < |c.attempts|
    ensures
      var c', i := C.Step(c, b), b.i;
      && C.Shaped(c') && c'.history == c.history && c'.owners == c.owners && |c'.attempts| == |c.attempts| && c'.log == c.log
      && c'.attempts == c.attempts[i := c.attempts[i].(phase := c'.attempts[i].phase, fenced := c'.attempts[i].fenced)]
      && S.GrantsOf(c'.attempts[i].phase) == S.GrantsOf(c.attempts[i].phase)
      && (c'.attempts[i].phase.Refused? && !c.attempts[i].phase.Refused? ==>
            !c.attempts[i].phase.Held? && c'.attempts[i].fenced == c.attempts[i].fenced)
      && (c'.attempts[i].phase == c.attempts[i].phase || (c'.attempts[i].phase.Refused? && !c.attempts[i].phase.Refused?)
          || (c.attempts[i].phase.Deciding? && c'.attempts[i].phase.Seen?))
  {}

  lemma MirrorsDecision(c: C.World, b: C.Action)
    requires C.Shaped(c) && OnlyDecides(b) && b.i < |c.attempts|
    ensures b.i < |C.Step(c, b).attempts|
    ensures Mirror(c, b) == if !c.attempts[b.i].phase.Refused? && C.Step(c, b).attempts[b.i].phase.Refused? then Some(H.Abandon(b.i)) else None
  {
    Decides(c, b);
  }

  lemma DecisionAgrees(m: H.Terms, name: Name, w: World, b: C.Action)
    requires Agree(m, name, w) && OnlyDecides(b) && b.i < |w.c.attempts|
    ensures Agree(m, name, Step(m, name, w, Backend(b)))
  {
    var w' := Step(m, name, w, Backend(b));
    Decides(w.c, b);
    MirrorsDecision(w.c, b);
    assert AttemptAgrees(m, name, w, b.i);
    if !w.c.attempts[b.i].phase.Refused? && w'.c.attempts[b.i].phase.Refused? {
      RefusedAgrees(m, name, w, w', b.i);
    } else {
      GoesOnAgrees(m, name, w, w', b.i);
    }
  }

  // ---- Steps that grant ----

  /** A new lease is nobody else's. */
  lemma GrantsAside(w: World, ttl: nat, j: nat)
    requires C.Shaped(w.c) && OwnLeases(w.c) && C.Now(w.c).issued == |w.c.owners|
    requires j < |w.c.attempts| && j < |w.h.tenures| && LeasesAgree(C.Now(w.c), w.c.attempts[j], w.h.tenures[j])
    ensures LeasesAgree(Grant(C.Now(w.c), ttl), w.c.attempts[j], w.h.tenures[j])
  {
    if S.GrantsOf(w.c.attempts[j].phase).Some? { assert OwnLease(w.c, j); }
  }

  /** One lease more, one attempt and its tenure moved. */
  lemma Granted(m: H.Terms, name: Name, w: World, w': World, i: nat, ttl: nat, owner: C.Owner)
    requires Agree(m, name, w) && i < |w.c.attempts|
    requires C.Shaped(w'.c) && C.Now(w'.c) == Grant(C.Now(w.c), ttl) && w'.c.owners == w.c.owners + [owner]
    requires |w'.c.attempts| == |w.c.attempts| && |w'.h.tenures| == |w.h.tenures|
    requires w'.h.now == w.h.now && w'.h.claim == w.h.claim
    requires forall j :: 0 <= j < |w.c.attempts| && j != i ==>
                           w'.c.attempts[j] == w.c.attempts[j] && w'.h.tenures[j] == w.h.tenures[j]
    requires AttemptAgrees(m, name, w', i) && (S.GrantsOf(w'.c.attempts[i].phase).Some? ==> OwnLease(w'.c, i))
    requires w.h.claim == Some(i) ==>
               && S.GrantsOf(w.c.attempts[i].phase).Some? && S.GrantsOf(w'.c.attempts[i].phase).Some?
               && S.GrantsOf(w'.c.attempts[i].phase).value.lease == S.GrantsOf(w.c.attempts[i].phase).value.lease
               && w'.h.tenures[i].lease == w.h.tenures[i].lease
    ensures Agree(m, name, w')
  {
    forall j | 0 <= j < |w'.c.attempts| ensures AttemptAgrees(m, name, w', j) {
      if j != i {
        assert AttemptAgrees(m, name, w, j);
        GrantsAside(w, ttl, j);
      }
    }
    forall j | 0 <= j < |w'.c.attempts| && S.GrantsOf(w'.c.attempts[j].phase).Some? ensures OwnLease(w'.c, j) {
      if j != i { assert OwnLease(w.c, j); }
    }
  }

  lemma GrantStep(c: C.World, i: nat, granted: nat)
    requires C.Shaped(c) && i < |c.attempts|
    ensures
      var c', req := C.Step(c, C.GrantLease(i, granted)), c.attempts[i].req;
      var g := Grants(C.Now(c).issued, granted, None, 0);
      && i < |c'.attempts|
      && (!c.attempts[i].phase.Asked? ==> c' == c && Mirror(c, C.GrantLease(i, granted)).None?)
      && (c.attempts[i].phase.Asked? ==>
            && C.Shaped(c') && C.Now(c') == Grant(C.Now(c), granted) && c'.owners == c.owners + [C.ForClaim(i)]
            && c'.attempts == c.attempts[i := c.attempts[i].(phase := c'.attempts[i].phase)]
            && S.GrantsOf(c'.attempts[i].phase) == Some(g)
            && (if granted < req.expiry then c'.attempts[i].phase.Refused? && c'.attempts[i].phase.pending.None?
                else c'.attempts[i].phase.Leased? || c'.attempts[i].phase.Deciding?)
            && Mirror(c, C.GrantLease(i, granted)) == Some(if granted < req.expiry then H.Abandon(i) else H.Lease(i, granted)))
  {}

  lemma GrantAgrees(m: H.Terms, name: Name, w: World, i: nat, granted: nat)
    requires Agree(m, name, w) && i < |w.c.attempts|
    ensures Agree(m, name, Step(m, name, w, Backend(C.GrantLease(i, granted))))
  {
    GrantStep(w.c, i, granted);
    if w.c.attempts[i].phase.Asked? {
      assert AttemptAgrees(m, name, w, i);
      var w' := Step(m, name, w, Backend(C.GrantLease(i, granted)));
      Granted(m, name, w, w', i, granted, C.ForClaim(i));
    }
  }

  lemma SlotGrantStep(c: C.World, i: nat, granted: nat)
    requires C.Shaped(c) && i < |c.attempts|
    ensures
      var c' := C.Step(c, C.GrantSlotLease(i, granted));
      && i < |c'.attempts| && Mirror(c, C.GrantSlotLease(i, granted)).None?
      && (c' != c ==>
            && c.attempts[i].phase.Leased? && c'.attempts[i].phase.Deciding?
            && C.Shaped(c') && C.Now(c') == Grant(C.Now(c), granted) && c'.owners == c.owners + [C.ForSlot(i)]
            && c'.attempts == c.attempts[i := c.attempts[i].(phase := c'.attempts[i].phase)]
            && c'.attempts[i].phase.grants.lease == c.attempts[i].phase.lease
            && c'.attempts[i].phase.grants.granted == c.attempts[i].phase.granted
            && c'.attempts[i].phase.grants.slotLease == Some(C.Now(c).issued))
  {}

  lemma SlotGrantAgrees(m: H.Terms, name: Name, w: World, i: nat, granted: nat)
    requires Agree(m, name, w) && i < |w.c.attempts|
    ensures Agree(m, name, Step(m, name, w, Backend(C.GrantSlotLease(i, granted))))
  {
    SlotGrantStep(w.c, i, granted);
    var w' := Step(m, name, w, Backend(C.GrantSlotLease(i, granted)));
    if w'.c != w.c {
      assert AttemptAgrees(m, name, w, i) && OwnLease(w.c, i);
      GrantsAside(w, granted, i);
      Granted(m, name, w, w', i, granted, C.ForSlot(i));
    }
  }

  // ---- Steps that end or prolong a lease ----

  /** Some lease ends: no other attempt's does, and the claim goes with its own. */
  lemma Drops(m: H.Terms, name: Name, w: World, w': World, i: nat, lease: nat)
    requires Agree(m, name, w) && i < |w.c.attempts| && AttemptOf(w.c, lease) == Some(i)
    requires w'.c == C.Push(w.c, Drop(C.Now(w.c), lease))
    requires |w'.h.tenures| == |w.h.tenures| && w'.h.now == w.h.now
    requires forall j :: 0 <= j < |w.h.tenures| && j != i ==> w'.h.tenures[j] == w.h.tenures[j]
    requires w'.h.tenures[i].lease.None? && PhasesAgree(w.c.attempts[i].phase, w'.h.tenures[i].phase)
    requires w'.h.claim == if w.h.claim == Some(i) then None else w.h.claim
    ensures Agree(m, name, w')
  {
    forall j | 0 <= j < |w'.c.attempts| ensures AttemptAgrees(m, name, w', j) {
      assert AttemptAgrees(m, name, w, j);
      if S.GrantsOf(w.c.attempts[j].phase).Some? { assert OwnLease(w.c, j); }
    }
    forall j | 0 <= j < |w'.c.attempts| && S.GrantsOf(w'.c.attempts[j].phase).Some? ensures OwnLease(w'.c, j) {
      assert OwnLease(w.c, j);
    }
    if w.h.claim.Some? { assert OwnLease(w.c, w.h.claim.value); }
  }

  /** A lease that is nobody's claim's changes nothing the tenures see. */
  lemma DropsElse(m: H.Terms, name: Name, w: World, w': World, lease: nat)
    requires Agree(m, name, w) && w'.h == w.h && AttemptOf(w.c, lease).None?
    requires w'.c == C.Push(w.c, Drop(C.Now(w.c), lease))
    ensures Agree(m, name, w')
  {
    forall j | 0 <= j < |w'.c.attempts| ensures AttemptAgrees(m, name, w', j) {
      assert AttemptAgrees(m, name, w, j);
      if S.GrantsOf(w.c.attempts[j].phase).Some? { assert OwnLease(w.c, j); }
    }
    forall j | 0 <= j < |w'.c.attempts| && S.GrantsOf(w'.c.attempts[j].phase).Some? ensures OwnLease(w'.c, j) {
      assert OwnLease(w.c, j);
    }
    if w.h.claim.Some? { assert OwnLease(w.c, w.h.claim.value); }
  }

  lemma GiveBackStep(c: C.World, b: C.Action)
    requires C.Shaped(c) && (b.Revoke? || b.Release?) && b.i < |c.attempts|
    ensures
      var p := c.attempts[b.i].phase;
      var gives := if b.Revoke? then p.Refused? && S.GrantsOf(p).Some? else p.Held?;
      && (gives ==> C.Step(c, b) == C.Push(c, Drop(C.Now(c), S.GrantsOf(p).value.lease)))
      && (!gives ==> C.Step(c, b) == c)
      && Mirror(c, b) == if (b.Revoke? && p.Refused?) || (b.Release? && p.Held?) then Some(H.Release(b.i)) else None
  {}

  lemma ReleaseStep(m: H.Terms, h: H.World, i: nat)
    requires i < |h.tenures| && (h.tenures[i].phase.Ended? || h.tenures[i].phase.Gone?)
    ensures
      var h' := H.Step(m, h, H.Release(i));
      && h'.tenures == h.tenures[i := h.tenures[i].(lease := None, phase := H.Gone)] && h'.now == h.now
      && h'.claim == if h.claim == Some(i) then None else h.claim
  {}

  lemma GiveBackAgrees(m: H.Terms, name: Name, w: World, b: C.Action)
    requires Agree(m, name, w) && (b.Revoke? || b.Release?) && b.i < |w.c.attempts|
    ensures Agree(m, name, Step(m, name, w, Backend(b)))
  {
    if Enabled(m, name, w, Backend(b)) {
      var w', p := Step(m, name, w, Backend(b)), w.c.attempts[b.i].phase;
      GiveBackStep(w.c, b);
      assert AttemptAgrees(m, name, w, b.i);
      if (b.Revoke? && p.Refused?) || (b.Release? && p.Held?) {
        ReleaseStep(m, w.h, b.i);
        if S.GrantsOf(p).Some? {
          assert OwnLease(w.c, b.i);
          Drops(m, name, w, w', b.i, S.GrantsOf(p).value.lease);
        } else {
          Moves(m, name, w, w', b.i);
        }
      }
    }
  }

  lemma RevokeSlotStep(c: C.World, i: nat)
    requires C.Shaped(c) && i < |c.attempts|
    ensures
      var p := c.attempts[i].phase;
      && Mirror(c, C.RevokeSlot(i)).None?
      && C.Step(c, C.RevokeSlot(i)) ==
         if p.Refused? && p.left.Some? && p.left.value.slotLease.Some? then C.Push(c, Drop(C.Now(c), p.left.value.slotLease.value)) else c
  {}

  lemma RevokeSlotAgrees(m: H.Terms, name: Name, w: World, i: nat)
    requires Agree(m, name, w) && i < |w.c.attempts|
    ensures Agree(m, name, Step(m, name, w, Backend(C.RevokeSlot(i))))
  {
    RevokeSlotStep(w.c, i);
    var w', p := Step(m, name, w, Backend(C.RevokeSlot(i))), w.c.attempts[i].phase;
    if p.Refused? && p.left.Some? && p.left.value.slotLease.Some? {
      assert OwnLease(w.c, i);
      DropsElse(m, name, w, w', p.left.value.slotLease.value);
    }
  }

  lemma LapseAgrees(m: H.Terms, name: Name, w: World, lease: nat)
    requires Agree(m, name, w)
    ensures Agree(m, name, Step(m, name, w, Backend(C.Lapse(lease))))
  {
    var w' := Step(m, name, w, Backend(C.Lapse(lease)));
    match AttemptOf(w.c, lease)
    case None =>
      if w'.c != w.c { DropsElse(m, name, w, w', lease); }
    case Some(i) =>
      assert AttemptAgrees(m, name, w, i);
      if w'.c != w.c {
        Drops(m, name, w, w', i, lease);
      } else {
        LapseIdle(m, name, w, i, lease);
      }
  }

  /** A tenure's lease has not lapsed before the backend's has. */
  lemma LapseIdle(m: H.Terms, name: Name, w: World, i: nat, lease: nat)
    requires Agree(m, name, w) && AttemptOf(w.c, lease) == Some(i) && C.Step(w.c, C.Lapse(lease)) == w.c
    ensures H.Step(m, w.h, H.Lapse(i)) == w.h
  {
    assert AttemptAgrees(m, name, w, i);
    LapseStep(w.c, lease);
  }

  lemma LapseStep(c: C.World, lease: nat)
    requires C.Shaped(c)
    ensures lease in C.Now(c).leases && C.Now(c).now >= C.Now(c).leases[lease].expires ==>
              C.Step(c, C.Lapse(lease)) != c
  {
    assert |C.Push(c, Drop(C.Now(c), lease)).history| == |c.history| + 1;
  }

  lemma RenewStep(c: C.World, i: nat)
    requires C.Shaped(c) && i < |c.attempts|
    ensures
      var p := c.attempts[i].phase;
      && C.Step(c, C.Renew(i)) == (if p.Held? && p.grants.lease in C.Now(c).leases then C.Push(c, KeepAlive(C.Now(c), p.grants.lease)) else c)
      && Mirror(c, C.Renew(i)) == if p.Held? then Some(H.Reach(i)) else None
  {}

  lemma ReachStep(m: H.Terms, h: H.World, i: nat)
    requires i < |h.tenures| && H.MayReach(h.tenures[i])
    ensures
      var t, h' := h.tenures[i], H.Step(m, h, H.Reach(i));
      && h'.claim == h.claim && h'.now == h.now && |h'.tenures| == |h.tenures|
      && (forall j :: 0 <= j < |h.tenures| && j != i ==> h'.tenures[j] == h.tenures[j])
      && h'.tenures[i].granted == t.granted && !h'.tenures[i].phase.Asking? && !h'.tenures[i].phase.Leased?
      && h'.tenures[i].lease == if t.lease.Some? then Some(h.now + t.granted) else None
  {}

  lemma RenewAgrees(m: H.Terms, name: Name, w: World, i: nat)
    requires Agree(m, name, w) && i < |w.c.attempts|
    ensures Agree(m, name, Step(m, name, w, Backend(C.Renew(i))))
  {
    if Enabled(m, name, w, Backend(C.Renew(i))) && w.c.attempts[i].phase.Held? {
      var w' := Step(m, name, w, Backend(C.Renew(i)));
      RenewStep(w.c, i);
      ReachStep(m, w.h, i);
      assert AttemptAgrees(m, name, w, i) && OwnLease(w.c, i);
      forall j | 0 <= j < |w'.c.attempts| ensures AttemptAgrees(m, name, w', j) {
        assert AttemptAgrees(m, name, w, j);
        if S.GrantsOf(w.c.attempts[j].phase).Some? { assert OwnLease(w.c, j); }
      }
      forall j | 0 <= j < |w'.c.attempts| && S.GrantsOf(w'.c.attempts[j].phase).Some? ensures OwnLease(w'.c, j) {
        assert OwnLease(w.c, j);
      }
    } else {
      RenewStep(w.c, i);
    }
  }

  // ---- Steps that take the claim ----

  /** The transaction commits: the claim is the attempt's, and its tenure's. */
  lemma Committed(m: H.Terms, name: Name, w: World, w': World, i: nat, g: Grants, tx: Tx)
    requires Agree(m, name, w) && i < |w.c.attempts| && S.GrantsOf(w.c.attempts[i].phase) == Some(g)
    requires Commits(C.Now(w.c), w.c.attempts[i].req, g, tx) && g.granted >= w.c.attempts[i].req.expiry
    requires C.Shaped(w'.c) && C.Now(w'.c) == Put(C.Now(w.c), w.c.attempts[i].req, g, tx) && w'.c.owners == w.c.owners
    requires |w'.c.attempts| == |w.c.attempts|
    requires w'.c.attempts == w.c.attempts[i := w.c.attempts[i].(phase := w'.c.attempts[i].phase)]
    requires S.GrantsOf(w'.c.attempts[i].phase) == Some(g)
    requires |w'.h.tenures| == |w.h.tenures| && w'.h.now == w.h.now && w'.h.claim == Some(i)
    requires w'.h.tenures == w.h.tenures[i := w.h.tenures[i].(phase := w'.h.tenures[i].phase)]
    requires PhasesAgree(w'.c.attempts[i].phase, w'.h.tenures[i].phase)
    ensures Agree(m, name, w')
  {
    assert AttemptAgrees(m, name, w, i);
    forall j | 0 <= j < |w'.c.attempts| ensures AttemptAgrees(m, name, w', j) {
      assert AttemptAgrees(m, name, w, j);
    }
    forall j | 0 <= j < |w'.c.attempts| && S.GrantsOf(w'.c.attempts[j].phase).Some? ensures OwnLease(w'.c, j) {
      assert OwnLease(w.c, j);
    }
  }

  lemma TransactStep(c: C.World, i: nat)
    requires C.Shaped(c) && i < |c.attempts| && c.attempts[i].phase.Seen?
    requires !Commits(C.Now(c), c.attempts[i].req, c.attempts[i].phase.grants, c.attempts[i].phase.tx)
    ensures
      var c', g := C.Step(c, C.Transact(i)), c.attempts[i].phase.grants;
      && C.Shaped(c') && c'.history == c.history && c'.owners == c.owners && |c'.attempts| == |c.attempts|
      && c'.attempts == c.attempts[i := c.attempts[i].(phase := c'.attempts[i].phase)]
      && S.GrantsOf(c'.attempts[i].phase) == Some(g) && (c'.attempts[i].phase.Deciding? || c'.attempts[i].phase.Refused?)
      && Mirror(c, C.Transact(i)) == if c'.attempts[i].phase.Refused? then Some(H.Abandon(i)) else None
  {}

  lemma TransactIdle(c: C.World, i: nat)
    requires C.Shaped(c) && i < |c.attempts| && !c.attempts[i].phase.Seen?
    ensures C.Step(c, C.Transact(i)) == c && Mirror(c, C.Transact(i)).None?
  {}

  lemma CommitStep(c: C.World, i: nat, g: Grants, tx: Tx)
    requires C.Shaped(c) && i < |c.attempts| && c.attempts[i].phase == C.Seen(g, tx)
    requires Commits(C.Now(c), c.attempts[i].req, g, tx)
    ensures
      var c' := C.Step(c, C.Transact(i));
      && C.Shaped(c') && C.Now(c') == Put(C.Now(c), c.attempts[i].req, g, tx) && c'.owners == c.owners
      && c'.attempts == c.attempts[i := c.attempts[i].(phase := C.Held(g, |c.log|))]
      && Mirror(c, C.Transact(i)) == Some(H.Commit(i))
  {
    S.TransactCommits(c, i, g, tx);
  }

  lemma TransactAgrees(m: H.Terms, name: Name, w: World, i: nat)
    requires Agree(m, name, w) && i < |w.c.attempts|
    ensures Agree(m, name, Step(m, name, w, Backend(C.Transact(i))))
  {
    var w', p := Step(m, name, w, Backend(C.Transact(i))), w.c.attempts[i].phase;
    assert AttemptAgrees(m, name, w, i);
    if p.Seen? {
      if Commits(C.Now(w.c), w.c.attempts[i].req, p.grants, p.tx) {
        CommitStep(w.c, i, p.grants, p.tx);
        assert w'.h == H.Set(w.h, i, w.h.tenures[i].(phase := H.Claimed)).(claim := Some(i));
        Committed(m, name, w, w', i, p.grants, p.tx);
      } else {
        TransactStep(w.c, i);
        if w'.c.attempts[i].phase.Refused? { RefusedAgrees(m, name, w, w', i); } else { GoesOnAgrees(m, name, w, w', i); }
      }
    } else {
      TransactIdle(w.c, i);
    }
  }

  lemma LateStep(c: C.World, i: nat)
    requires C.Shaped(c) && i < |c.attempts|
    ensures
      var c', p := C.Step(c, C.CommitLate(i)), c.attempts[i].phase;
      var waits := p.Refused? && p.left.Some? && p.pending.Some? && p.late.None?;
      && C.Shaped(c') && |c'.attempts| == |c.attempts| && c'.owners == c.owners
      && (!waits ==> c' == c && Mirror(c, C.CommitLate(i)).None?)
      && (waits ==>
            && c'.attempts == c.attempts[i := c.attempts[i].(phase := c'.attempts[i].phase)]
            && c'.attempts[i].phase.Refused? && c'.attempts[i].phase.left == p.left && c'.attempts[i].phase.pending.None?
            && if Commits(C.Now(c), c.attempts[i].req, p.left.value, p.pending.value)
               then C.Now(c') == Put(C.Now(c), c.attempts[i].req, p.left.value, p.pending.value)
                    && Mirror(c, C.CommitLate(i)) == Some(H.CommitLate(i))
               else c'.history == c.history && Mirror(c, C.CommitLate(i)).None?)
  {}

  lemma LateAgrees(m: H.Terms, name: Name, w: World, i: nat)
    requires Agree(m, name, w) && i < |w.c.attempts|
    ensures Agree(m, name, Step(m, name, w, Backend(C.CommitLate(i))))
  {
    var w', p := Step(m, name, w, Backend(C.CommitLate(i))), w.c.attempts[i].phase;
    LateStep(w.c, i);
    assert AttemptAgrees(m, name, w, i);
    if p.Refused? && p.left.Some? && p.pending.Some? && p.late.None? {
      if Commits(C.Now(w.c), w.c.attempts[i].req, p.left.value, p.pending.value) {
        assert w'.h == w.h.(claim := Some(i));
        Committed(m, name, w, w', i, p.left.value, p.pending.value);
      } else {
        GoesOnAgrees(m, name, w, w', i);
      }
    }
  }

  // ---- The rest ----

  lemma BeginAgrees(m: H.Terms, name: Name, w: World, req: Request)
    requires Agree(m, name, w)
    ensures Agree(m, name, Step(m, name, w, Backend(C.Begin(req))))
  {
    var w' := Step(m, name, w, Backend(C.Begin(req)));
    if Enabled(m, name, w, Backend(C.Begin(req))) {
      assert w'.c.attempts == w.c.attempts + [C.Attempt(req, |w.c.history| - 1, C.Asked, None)];
      forall j | 0 <= j < |w'.c.attempts| ensures AttemptAgrees(m, name, w', j) {
        if j < |w.c.attempts| { assert AttemptAgrees(m, name, w, j); }
      }
      forall j | 0 <= j < |w'.c.attempts| && S.GrantsOf(w'.c.attempts[j].phase).Some? ensures OwnLease(w'.c, j) {
        assert OwnLease(w.c, j);
      }
    }
  }

  lemma PassAgrees(m: H.Terms, name: Name, w: World, d: nat)
    requires Agree(m, name, w)
    ensures Agree(m, name, Step(m, name, w, Backend(C.Pass(d))))
  {
    var w' := Step(m, name, w, Backend(C.Pass(d)));
    if Enabled(m, name, w, Backend(C.Pass(d))) {
      assert w'.c == C.Push(w.c, C.Now(w.c).(now := C.Now(w.c).now + d)) && w'.h == w.h.(now := w.h.now + d);
      forall j | 0 <= j < |w'.c.attempts| ensures AttemptAgrees(m, name, w', j) {
        assert AttemptAgrees(m, name, w, j);
      }
      forall j | 0 <= j < |w'.c.attempts| && S.GrantsOf(w'.c.attempts[j].phase).Some? ensures OwnLease(w'.c, j) {
        assert OwnLease(w.c, j);
      }
    }
  }

  /** A run's own step moves its phase, and what it has proven, alone. */
  lemma RuntimeStep(m: H.Terms, name: Name, w: World, a: H.Action)
    requires C.Shaped(w.c) && Enabled(m, name, w, Runtime(a)) && a.i < |w.h.tenures|
    ensures
      var h', t := H.Step(m, w.h, a), w.h.tenures[a.i];
      && h'.now == w.h.now && h'.claim == w.h.claim && |h'.tenures| == |w.h.tenures|
      && (forall j :: 0 <= j < |w.h.tenures| && j != a.i ==> h'.tenures[j] == w.h.tenures[j])
      && h'.tenures[a.i].lease == t.lease && h'.tenures[a.i].granted == t.granted
      && (h' == w.h || (!t.phase.Asking? && !t.phase.Leased? && !t.phase.Gone?
                        && !h'.tenures[a.i].phase.Asking? && !h'.tenures[a.i].phase.Leased?))
  {}

  lemma RuntimeAgrees(m: H.Terms, name: Name, w: World, a: H.Action)
    requires Agree(m, name, w)
    ensures Agree(m, name, Step(m, name, w, Runtime(a)))
  {
    if Enabled(m, name, w, Runtime(a)) && a.i < |w.h.tenures| {
      RuntimeStep(m, name, w, a);
      assert AttemptAgrees(m, name, w, a.i);
      Moves(m, name, w, Step(m, name, w, Runtime(a)), a.i);
    }
  }

  lemma StepAgrees(m: H.Terms, name: Name, w: World, a: Action)
    requires Agree(m, name, w)
    ensures Agree(m, name, Step(m, name, w, a))
  {
    match a
    case Runtime(r) => RuntimeAgrees(m, name, w, r);
    case Backend(b) =>
      if b.Begin? {
        BeginAgrees(m, name, w, b.req);
      } else if b.Pass? {
        PassAgrees(m, name, w, b.d);
      } else if b.Lapse? {
        LapseAgrees(m, name, w, b.lease);
      } else if b.i < |w.c.attempts| {
        AttemptStepAgrees(m, name, w, b);
      } else {
        assert Step(m, name, w, a) == w;
      }
  }

  lemma AttemptStepAgrees(m: H.Terms, name: Name, w: World, b: C.Action)
    requires Agree(m, name, w) && !b.Begin? && !b.Pass? && !b.Lapse? && b.i < |w.c.attempts|
    ensures Agree(m, name, Step(m, name, w, Backend(b)))
  {
    match b
    case GrantLease(i, granted) => GrantAgrees(m, name, w, i, granted);
    case GrantSlotLease(i, granted) => SlotGrantAgrees(m, name, w, i, granted);
    case Transact(i) => TransactAgrees(m, name, w, i);
    case CommitLate(i) => LateAgrees(m, name, w, i);
    case Revoke(_) => GiveBackAgrees(m, name, w, b);
    case Release(_) => GiveBackAgrees(m, name, w, b);
    case RevokeSlot(i) => RevokeSlotAgrees(m, name, w, i);
    case Renew(i) => RenewAgrees(m, name, w, i);
    case _ => DecisionAgrees(m, name, w, b);
  }

  // ---- Every run ----

  lemma {:induction false} RunAgrees(m: H.Terms, name: Name, w: World, actions: seq<Action>)
    requires Agree(m, name, w)
    ensures Agree(m, name, Run(m, name, w, actions))
    decreases |actions|
  {
    if actions != [] {
      StepAgrees(m, name, w, actions[0]);
      RunAgrees(m, name, Step(m, name, w, actions[0]), actions[1..]);
    }
  }

  lemma OneMore(m: H.Terms, name: Name, w: World, a: Action) returns (cs: seq<C.Action>, hs: seq<H.Action>)
    requires C.Shaped(w.c)
    ensures Step(m, name, w, a).c == C.Run(w.c, cs) && Step(m, name, w, a).h == H.Run(m, w.h, hs)
  {
    cs, hs := [], [];
    if Enabled(m, name, w, a) {
      match a
      case Backend(b) =>
        cs := [b];
        assert C.Run(w.c, [b]) == C.Step(w.c, b);
        match Mirror(w.c, b) {
          case None =>
          case Some(h) =>
            hs := [h];
            assert H.Run(m, w.h, [h]) == H.Step(m, w.h, h);
        }
      case Runtime(r) =>
        hs := [r];
        assert H.Run(m, w.h, [r]) == H.Step(m, w.h, r);
    }
  }

  lemma {:induction false} ProtocolJoins(c: C.World, a: seq<C.Action>, b: seq<C.Action>)
    requires C.Shaped(c)
    ensures C.Run(c, a + b) == C.Run(C.Run(c, a), b)
    decreases |a|
  {
    if a == [] {
      assert a + b == b;
    } else {
      assert (a + b)[1..] == a[1..] + b;
      C.StepKeepsShape(c, a[0]);
      ProtocolJoins(C.Step(c, a[0]), a[1..], b);
    }
  }

  /** The whole's runs are runs of each of its halves. */
  lemma {:induction false} RunHalves(m: H.Terms, name: Name, w: World, actions: seq<Action>)
    returns (cs: seq<C.Action>, hs: seq<H.Action>)
    requires C.Shaped(w.c)
    ensures Run(m, name, w, actions).c == C.Run(w.c, cs) && Run(m, name, w, actions).h == H.Run(m, w.h, hs)
    decreases |actions|
  {
    cs, hs := [], [];
    if actions != [] {
      var w1 := Step(m, name, w, actions[0]);
      StepShaped(m, name, w, actions[0]);
      var c0, h0 := OneMore(m, name, w, actions[0]);
      var c1, h1 := RunHalves(m, name, w1, actions[1..]);
      ProtocolJoins(w.c, c0, c1);
      HT.RunJoins(m, w.h, h0, h1);
      cs, hs := c0 + c1, h0 + h1;
    }
  }

  ghost predicate Reachable(m: H.Terms, name: Name, w: World) {
    exists now: int, actions: seq<Action> :: w == Run(m, name, Start(now), actions)
  }

  lemma HalvesReachable(m: H.Terms, name: Name, w: World)
    requires Reachable(m, name, w)
    ensures T.Reachable(w.c) && H.Reachable(m, w.h) && Agree(m, name, w)
  {
    var now: int, actions: seq<Action> :| w == Run(m, name, Start(now), actions);
    var cs, hs := RunHalves(m, name, Start(now), actions);
    assert Agree(m, name, Start(now));
    RunAgrees(m, name, Start(now), actions);
  }

  // ---- Exclusion and fencing, composed ----

  /** An attempt's fence passes exactly while its tenure holds the claim. */
  lemma FenceIsHeld(m: H.Terms, name: Name, w: World, i: nat)
    requires Reachable(m, name, w) && i < |w.c.attempts| && w.c.attempts[i].phase.Held?
    ensures w.c.attempts[i].phase.entry < |w.c.log|
    ensures FencePasses(C.Now(w.c), name, w.c.log[w.c.attempts[i].phase.entry].token) <==> w.h.claim == Some(i)
  {
    HalvesReachable(m, name, w);
    T.ReachableInv(w.c);
    S.FenceIsExact(w.c, i);
    assert AttemptAgrees(m, name, w, i) && OwnLease(w.c, i) && S.AttemptOk(w.c, i);
    assert S.EntryOk(w.c, w.c.attempts[i].phase.entry);
    if name in C.Now(w.c).claims {
      var k := S.LastOf(w.c.log, name).value;
      assert S.EntryOk(w.c, k) && OwnLease(w.c, w.c.log[k].attempt) && OwnLease(w.c, w.h.claim.value);
    }
  }

  /**
   * A live run is one whose attempt was answered as holding the claim, and its fence passes exactly
   * while the backend still has its lease: what stops a run late is what its fences already refuse.
   */
  lemma LiveRunFences(m: H.Terms, name: Name, w: World, i: nat)
    requires Accepted(m.c) && Reachable(m, name, w) && i < |w.h.tenures| && H.Live(w.h.tenures[i])
    ensures i < |w.c.attempts| && w.c.attempts[i].phase.Held? && w.c.attempts[i].phase.entry < |w.c.log|
    ensures FencePasses(C.Now(w.c), name, w.c.log[w.c.attempts[i].phase.entry].token) <==> w.h.tenures[i].lease.Some?
  {
    HalvesReachable(m, name, w);
    assert AttemptAgrees(m, name, w, i);
    FenceIsHeld(m, name, w, i);
    H.ReachableInv(m, w.h);
    assert H.TenureOk(m, w.h, i);
  }

  /** Over the protocol's every interleaving, late commits included, runs never overlap when the durations fit. */
  lemma NeverOverlaps(m: H.Terms, name: Name, w: World)
    requires Accepted(m.c) && HT.Fits(m) && Reachable(m, name, w)
    ensures !HT.Overlap(w.h)
  {
    HalvesReachable(m, name, w);
    HT.NoOverlap(m, w.h);
  }

  /**
   * Whatever the durations, of two live runs at most one can pass a fence; and a run begun under a
   * later commit than another's leaves the other unable to pass one.
   */
  lemma AtMostOneFences(m: H.Terms, name: Name, w: World, i: nat, j: nat)
    requires Accepted(m.c) && Reachable(m, name, w) && i < |w.h.tenures| && j < |w.h.tenures| && i != j
    requires H.Live(w.h.tenures[i]) && H.Live(w.h.tenures[j])
    ensures i < |w.c.attempts| && w.c.attempts[i].phase.Held? && w.c.attempts[i].phase.entry < |w.c.log|
    ensures j < |w.c.attempts| && w.c.attempts[j].phase.Held? && w.c.attempts[j].phase.entry < |w.c.log|
    ensures w.c.attempts[i].phase.entry < w.c.attempts[j].phase.entry ==>
              !FencePasses(C.Now(w.c), name, w.c.log[w.c.attempts[i].phase.entry].token)
    ensures w.h.tenures[i].lease.None? || w.h.tenures[j].lease.None?
  {
    LiveRunFences(m, name, w, i);
    LiveRunFences(m, name, w, j);
    HalvesReachable(m, name, w);
    T.ReachableInv(w.c);
    S.FenceIsExact(w.c, i);
    S.FenceIsExact(w.c, j);
    assert AttemptAgrees(m, name, w, i) && AttemptAgrees(m, name, w, j);
    T.OneFenceAtATime(w.c, i, j);
    assert S.EntryOk(w.c, w.c.attempts[j].phase.entry) && S.AttemptOk(w.c, j);
  }
}
