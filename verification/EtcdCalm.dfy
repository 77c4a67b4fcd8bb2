/** Others who leave a name alone: a call nothing refuses then takes the claim. */
module EtcdCalm {
  import opened Common
  import opened Coordination
  import opened EtcdStore
  import opened EtcdAnswers
  import opened Claims
  import opened EtcdAdapter

  /** A name's claim, tick and slots are the same. */
  ghost predicate SameName(s: Store, s': Store, name: Name) {
    && (name in s.claims <==> name in s'.claims) && (name in s.claims ==> s'.claims[name] == s.claims[name])
    && (name in s.ticks <==> name in s'.ticks) && (name in s.ticks ==> s'.ticks[name] == s.ticks[name])
    && forall j: nat :: (name, j) in s.slots <==> (name, j) in s'.slots
  }

  /** The lease a step ends, if it ends one. */
  function Dropped(w: World, a: Action): Option<nat> {
    match a
    case Lapse(lease) => Some(lease)
    case Revoke(i) => if i < |w.attempts| && w.attempts[i].phase.Refused? && w.attempts[i].phase.left.Some? then Some(w.attempts[i].phase.left.value.lease) else None
    case RevokeSlot(i) => if i < |w.attempts| && w.attempts[i].phase.Refused? && w.attempts[i].phase.left.Some? then w.attempts[i].phase.left.value.slotLease else None
    case Release(i) => if i < |w.attempts| && w.attempts[i].phase.Held? then Some(w.attempts[i].phase.grants.lease) else None
    case _ => None
  }

  /** Nothing of the name is attached to the lease, and it is none of the attempt's. */
  ghost predicate Spares(w: World, lease: nat, name: Name, me: nat)
    requires Shaped(w)
  {
    && (name in Now(w).claims ==> Now(w).claims[name].lease != lease)
    && (forall j: nat :: (name, j) in Now(w).slots ==> Now(w).slots[(name, j)].lease != lease)
    && (lease < |w.owners| ==> w.owners[lease].attempt != me)
  }

  /** A step that takes no claim of the name, and ends no lease of the name's or the attempt's. */
  ghost predicate LeavesAlone(w: World, a: Action, name: Name, me: nat)
    requires Shaped(w)
  {
    && (a.Transact? || a.CommitLate? ==> a.i >= |w.attempts| || w.attempts[a.i].req.name != name)
    && (Dropped(w, a).Some? ==> Spares(w, Dropped(w, a).value, name, me))
  }

  /** Every step of a run leaves the name alone. */
  ghost predicate Calm(w: World, actions: seq<Action>, name: Name, me: nat)
    requires Shaped(w)
    decreases |actions|
  {
    actions != [] ==>
      && LeavesAlone(w, actions[0], name, me)
      && Shaped(Step(w, actions[0])) && Calm(Step(w, actions[0]), actions[1..], name, me)
  }

  /** Owners are kept one a lease issued. */
  predicate Kept(w: World)
  {
    Shaped(w) && |w.owners| == Now(w).issued && forall l :: l in Now(w).leases ==> l < Now(w).issued
  }

  /** The attempt's leases that stand still do. */
  ghost predicate KeepsLeases(w: World, w': World, me: nat)
    requires Kept(w) && Kept(w')
  {
    && w.owners <= w'.owners
    && forall l :: l in Now(w).leases && w.owners[l].attempt == me ==> l in Now(w').leases
  }

  lemma DropSpares(w: World, lease: nat, name: Name, me: nat)
    requires Kept(w) && Spares(w, lease, name, me)
    ensures Kept(Push(w, Drop(Now(w), lease))) && SameName(Now(w), Drop(Now(w), lease), name)
    ensures KeepsLeases(w, Push(w, Drop(Now(w), lease)), me)
  {}

  lemma GrantSpares(w: World, granted: nat, owner: Owner, name: Name, me: nat)
    requires Kept(w)
    ensures
      var w' := Push(w, Grant(Now(w), granted)).(owners := w.owners + [owner]);
      Kept(w') && SameName(Now(w), Now(w'), name) && KeepsLeases(w, w', me)
  {}

  lemma PutSpares(s: Store, req: Request, g: Grants, tx: Tx, name: Name)
    requires Commits(s, req, g, tx) && req.name != name
    ensures SameName(s, Put(s, req, g, tx), name) && Put(s, req, g, tx).leases == s.leases && Put(s, req, g, tx).issued == s.issued
  {}

  // ---- A calm step, and a calm run ----

  lemma CommitSpares(w: World, i: nat, g: Grants, tx: Tx, answered: bool, name: Name, me: nat)
    requires Kept(w) && i < |w.attempts| && Commits(Now(w), w.attempts[i].req, g, tx) && w.attempts[i].req.name != name
    ensures
      var w' := Commit(w, i, g, tx, answered);
      Kept(w') && SameName(Now(w), Now(w'), name) && w'.owners == w.owners && Now(w').leases == Now(w).leases
  {
    PutSpares(Now(w), w.attempts[i].req, g, tx, name);
  }

  lemma TransactElsewhere(w: World, i: nat, name: Name, me: nat)
    requires Kept(w) && i < |w.attempts| && w.attempts[i].req.name != name
    ensures Kept(Step(w, Transact(i))) && SameName(Now(w), Now(Step(w, Transact(i))), name) && KeepsLeases(w, Step(w, Transact(i)), me)
  {
    var mine := w.attempts[i];
    if mine.phase.Seen? && Commits(Now(w), mine.req, mine.phase.grants, mine.phase.tx) {
      CommitSpares(w, i, mine.phase.grants, mine.phase.tx, true, name, me);
    }
  }

  lemma LateElsewhere(w: World, i: nat, name: Name, me: nat)
    requires Kept(w) && i < |w.attempts| && w.attempts[i].req.name != name
    ensures Kept(Step(w, CommitLate(i))) && SameName(Now(w), Now(Step(w, CommitLate(i))), name) && KeepsLeases(w, Step(w, CommitLate(i)), me)
  {
    var mine := w.attempts[i];
    if mine.phase.Refused? && mine.phase.left.Some? && mine.phase.pending.Some? && mine.phase.late.None?
       && Commits(Now(w), mine.req, mine.phase.left.value, mine.phase.pending.value) {
      CommitSpares(w, i, mine.phase.left.value, mine.phase.pending.value, false, name, me);
    }
  }

  lemma EndsElsewhere(w: World, a: Action, name: Name, me: nat)
    requires Kept(w) && (a.Revoke? || a.RevokeSlot? || a.Release? || a.Lapse?) && LeavesAlone(w, a, name, me)
    ensures Kept(Step(w, a)) && SameName(Now(w), Now(Step(w, a)), name) && KeepsLeases(w, Step(w, a), me)
  {
    if Dropped(w, a).Some? {
      DropSpares(w, Dropped(w, a).value, name, me);
      assert Step(w, a) == w || Step(w, a) == Push(w, Drop(Now(w), Dropped(w, a).value));
    } else {
      assert Step(w, a) == w;
    }
  }

  lemma Lends(w: World, a: Action, name: Name, me: nat)
    requires Kept(w) && (a.GrantLease? || a.GrantSlotLease?) && a.i < |w.attempts|
    ensures Kept(Step(w, a)) && SameName(Now(w), Now(Step(w, a)), name) && KeepsLeases(w, Step(w, a), me)
  {
    GrantSpares(w, a.granted, if a.GrantLease? then ForClaim(a.i) else ForSlot(a.i), name, me);
  }

  lemma StepAlone(w: World, a: Action, name: Name, me: nat)
    requires Kept(w) && LeavesAlone(w, a, name, me)
    ensures Kept(Step(w, a)) && SameName(Now(w), Now(Step(w, a)), name) && KeepsLeases(w, Step(w, a), me)
  {
    if a.Revoke? || a.RevokeSlot? || a.Release? || a.Lapse? {
      EndsElsewhere(w, a, name, me);
    } else if a.Begin? || a.Pass? || a.i >= |w.attempts| {
      assert Now(Step(w, a)).claims == Now(w).claims;
    } else if a.Transact? {
      TransactElsewhere(w, a.i, name, me);
    } else if a.CommitLate? {
      LateElsewhere(w, a.i, name, me);
    } else if a.GrantLease? || a.GrantSlotLease? {
      Lends(w, a, name, me);
    } else {
      ElseAlone(w, a, name, me);
    }
  }

  lemma ElseAlone(w: World, a: Action, name: Name, me: nat)
    requires Kept(w) && !a.Begin? && !a.Lapse? && !a.Pass? && a.i < |w.attempts|
    requires a.Read? || a.LoseReply? || a.GiveUp? || a.Renew? || a.Fence? || a.Affect?
    ensures Kept(Step(w, a)) && SameName(Now(w), Now(Step(w, a)), name) && KeepsLeases(w, Step(w, a), me)
  {}

  lemma SameTwice(a: World, b: World, c: World, name: Name, me: nat)
    requires Kept(a) && Kept(b) && Kept(c) && SameName(Now(a), Now(b), name) && SameName(Now(b), Now(c), name)
    requires KeepsLeases(a, b, me) && KeepsLeases(b, c, me)
    ensures SameName(Now(a), Now(c), name) && KeepsLeases(a, c, me)
  {
    assert forall l :: l in Now(a).leases ==> b.owners[l] == a.owners[l];
  }

  lemma {:induction false} RunAlone(w: World, actions: seq<Action>, name: Name, me: nat)
    requires Kept(w) && Calm(w, actions, name, me)
    ensures Kept(Run(w, actions)) && SameName(Now(w), Now(Run(w, actions)), name) && KeepsLeases(w, Run(w, actions), me)
    decreases |actions|
  {
    if actions != [] {
      StepAlone(w, actions[0], name, me);
      RunAlone(Step(w, actions[0]), actions[1..], name, me);
      SameTwice(w, Step(w, actions[0]), Run(w, actions), name, me);
    }
  }

  lemma {:induction false} CalmParts(w: World, a: seq<Action>, b: seq<Action>, name: Name, me: nat)
    requires Shaped(w) && Calm(w, a + b, name, me)
    ensures Calm(w, a, name, me) && Calm(Run(w, a), b, name, me)
    decreases |a|
  {
    if a == [] {
      assert a + b == b;
    } else {
      assert (a + b)[1..] == a[1..] + b;
      CalmParts(Step(w, a[0]), a[1..], b, name, me);
    }
  }

  // ---- The call ----

  lemma LeasedNow(w: World, me: nat, granted: nat)
    requires Kept(w) && me < |w.attempts| && w.attempts[me].phase.Asked? && granted >= w.attempts[me].req.expiry
    ensures
      var w', lease := Step(w, GrantLease(me, granted)), Now(w).issued;
      && Shaped(w') && me < |w'.attempts| && lease in Now(w').leases && lease < |w'.owners| && w'.owners[lease] == ForClaim(me)
      && w'.attempts[me] == w.attempts[me].(phase := if w.attempts[me].req.rate.Some? then Leased(lease, granted)
                                                     else Deciding(Grants(lease, granted, None, 0)))
  {}

  lemma SlotLeasedNow(w: World, me: nat, granted: nat)
    requires Kept(w) && me < |w.attempts| && w.attempts[me].phase.Leased?
    requires w.attempts[me].req.rate.Some? && granted >= w.attempts[me].req.rate.value.per
    ensures
      var w', lease, phase := Step(w, GrantSlotLease(me, granted)), Now(w).issued, w.attempts[me].phase;
      && Shaped(w') && me < |w'.attempts| && lease in Now(w').leases && lease < |w'.owners| && w'.owners[lease] == ForSlot(me)
      && w'.attempts[me] == w.attempts[me].(phase := Deciding(Grants(phase.lease, phase.granted, Some(lease), Now(w).now)))
  {}

  /** The attempt may decide, on leases that stand and are its own. */
  ghost predicate Lent(w: World, me: nat, req: Request, granted: nat)
    requires Shaped(w)
  {
    && me < |w.attempts| && w.attempts[me].req == req && w.attempts[me].phase.Deciding?
    && var g := w.attempts[me].phase.grants;
       && g.granted == granted && OwnLease(w, g.lease, me)
       && (req.rate.Some? ==> g.slotLease.Some? && OwnLease(w, g.slotLease.value, me))
  }

  predicate OwnLease(w: World, lease: nat, me: nat)
    requires Shaped(w)
  {
    lease in Now(w).leases && lease < |w.owners| && w.owners[lease].attempt == me
  }

  /** The claim's lease, and what comes before the slot's. */
  lemma LendsFirst(w: World, me: nat, granted: nat, first: Gap, second: Gap, name: Name)
    requires Kept(w) && me < |w.attempts| && w.attempts[me].phase.Asked? && granted >= w.attempts[me].req.expiry
    requires Others(first.others, me) && Others(second.others, me)
    requires Calm(w, first.others + [GrantLease(me, granted)] + second.others, name, me)
    ensures
      var w' := Run(w, first.others + [GrantLease(me, granted)] + second.others);
      && Kept(w') && me < |w'.attempts| && w'.attempts[me].req == w.attempts[me].req
      && match w.attempts[me].req.rate
         case None => Lent(w', me, w.attempts[me].req, granted)
         case Some(_) =>
           w'.attempts[me].phase.Leased? && w'.attempts[me].phase.granted == granted && OwnLease(w', w'.attempts[me].phase.lease, me)
  {
    var own := [GrantLease(me, granted)];
    CalmParts(w, first.others + own, second.others, name, me);
    CalmParts(w, first.others, own, name, me);
    RunAlone(w, first.others, name, me);
    RunAlone(w, first.others + own, name, me);
    RunAppends(w, first.others + own, second.others);
    RunOneMore(w, first.others, GrantLease(me, granted));
    OthersLeaveMe(w, first.others, me);
    LeasedNow(Run(w, first.others), me, granted);
    var leased := Run(w, first.others + own);
    RunAlone(leased, second.others, name, me);
    OthersLeaveMe(leased, second.others, me);
  }

  lemma LendsBoth(w: World, me: nat, req: Request, granted: nat, slotGranted: nat, first: Gap, second: Gap, name: Name)
    requires Kept(w) && me < |w.attempts| && w.attempts[me].req == req && w.attempts[me].phase.Asked? && granted >= req.expiry
    requires req.rate.Some? ==> slotGranted >= req.rate.value.per
    requires Others(first.others, me) && Others(second.others, me)
    requires Calm(w, ToTake(me, req, granted, slotGranted, first, second), name, me)
    ensures Lent(Run(w, ToTake(me, req, granted, slotGranted, first, second)), me, req, granted)
  {
    var steps := first.others + [GrantLease(me, granted)] + second.others;
    if req.rate.Some? {
      CalmParts(w, steps, [GrantSlotLease(me, slotGranted)], name, me);
      LendsFirst(w, me, granted, first, second, name);
      RunOneMore(w, steps, GrantSlotLease(me, slotGranted));
      SlotLeasedNow(Run(w, steps), me, slotGranted);
      RunAlone(Run(w, steps), [GrantSlotLease(me, slotGranted)], name, me);
      RunAppends(w, steps, [GrantSlotLease(me, slotGranted)]);
    } else {
      assert steps + [] == steps;
      LendsFirst(w, me, granted, first, second, name);
    }
  }

  /** A round over a name left alone takes the claim. */
  lemma CalmRoundTakes(w: World, me: nat, req: Request, granted: nat, call: Call)
    requires Kept(w) && Lent(w, me, req, granted) && req.name !in Now(w).claims && GoesOn(Now(w), req)
    requires !call.read.fails && !call.tx.fails && Calm(w, ToTransact(me, call), req.name, me)
    ensures RoundEnds(RoundAt(w, me, call), req, w.attempts[me].phase.grants,
                      Some(Taken(Now(Run(w, ToTransact(me, call))).revision + 1, granted)))
  {
    CalmParts(w, call.read.others + [Read(me)], call.tx.others, req.name, me);
    CalmParts(w, call.read.others, [Read(me)], req.name, me);
    RunAlone(w, call.read.others, req.name, me);
    RunAlone(w, ToTransact(me, call), req.name, me);
    SameOpen(Now(w), Now(Run(w, call.read.others)), Now(Run(w, ToTransact(me, call))), req);
  }

  lemma SameOpen(s: Store, read: Store, tx: Store, req: Request)
    requires SameName(s, read, req.name) && SameName(s, tx, req.name) && req.name !in s.claims && GoesOn(s, req)
    ensures GoesOn(read, req) && StillOpen(read, tx, req)
  {
    assert forall j: nat :: SlotTaken(read, req, j) == SlotTaken(s, req, j) && SlotTaken(tx, req, j) == SlotTaken(s, req, j);
  }

  /**
   * A well-formed call, granted leases as long as it asks for, none of its requests failing, over a name
   * nobody has, whose occurrence has not run and whose limit has room, takes the claim, if all along the
   * others leave the name and the call's leases alone.
   */
  lemma CalmTakes(w: World, req: Request, granted: nat, slotGranted: nat, gaps: seq<Gap>)
    requires Kept(w) && Checks(req) && WholeSeconds(req.expiry) && granted >= req.expiry
    requires req.rate.Some? ==> slotGranted >= req.rate.value.per
    requires |gaps| >= 4 && forall k :: 0 <= k < 4 ==> !gaps[k].fails && Others(gaps[k].others, |w.attempts|)
    requires req.name !in Now(w).claims && GoesOn(Now(w), req)
    requires
      var me := |w.attempts|;
      Calm(w, [Begin(req)] + ToTake(me, req, granted, slotGranted, gaps[0], gaps[1]) + ToTransact(me, CallAt(gaps[2..], 0)), req.name, me)
    ensures
      var me := |w.attempts|;
      var taking := Run(w, [Begin(req)] + ToTake(me, req, granted, slotGranted, gaps[0], gaps[1]));
      && CanLend(req, granted, gaps[0], gaps[1])
      && me < |taking.attempts| && taking.attempts[me].phase.Deciding?
      && AnswerOf(RoundsFrom(taking, me, gaps[2..], 0), req, taking.attempts[me].phase.grants).Taken?
  {
    var me := |w.attempts|;
    var begun, toTake, call := Step(w, Begin(req)), ToTake(me, req, granted, slotGranted, gaps[0], gaps[1]), CallAt(gaps[2..], 0);
    CalmParts(w, [Begin(req)] + toTake, ToTransact(me, call), req.name, me);
    CalmParts(w, [Begin(req)], toTake, req.name, me);
    RunAlone(w, [Begin(req)] + toTake, req.name, me);
    RunAlone(w, [Begin(req)], req.name, me);
    RunAppends(w, [Begin(req)], toTake);
    RunOneMore(w, [], Begin(req));
    assert [] + [Begin(req)] == [Begin(req)] && Run(w, []) == w;
    BeginSteps(w, req);
    LendsBoth(begun, me, req, granted, slotGranted, gaps[0], gaps[1], req.name);
    var taking := Run(w, [Begin(req)] + toTake);
    SameOpen(Now(w), Now(taking), Now(taking), req);
    FirstRound(taking, me, gaps[2..]);
    CalmRoundTakes(taking, me, req, granted, call);
    FirstAnswers(RoundsFrom(taking, me, gaps[2..], 0), req, taking.attempts[me].phase.grants, 0,
                 Taken(Now(Run(taking, ToTransact(me, call))).revision + 1, granted));
  }

  lemma FirstRound(w: World, me: nat, gaps: seq<Gap>)
    requires Shaped(w) && |gaps| >= 2
    ensures RoundsFrom(w, me, gaps, 0) != [] && RoundsFrom(w, me, gaps, 0)[0] == RoundAt(w, me, CallAt(gaps, 0))
  {
    assert Run(w, Rounds(me, gaps, 0)) == w;
  }
}
