/** The whole at work: on a name nobody has, a trigger's call takes the claim and its run lives and can fence. */
module CompositionWitness {
  import opened Common
  import opened Coordination
  import opened EtcdStore
  import opened Renewal
  import opened Composition

  /** A trigger by hand, with no limit, for the deployment's own expiry. */
  function ByHand(m: H.Terms, name: Name, holder: Holder): Request {
    Request(name, holder, m.c.claimExpiry, None, Manual)
  }

  /** Its grant, as long as was asked. */
  function Granted(m: H.Terms): Grants
    requires Accepted(m.c)
  {
    Grants(0, m.c.claimExpiry, None, 0)
  }

  function Asked(m: H.Terms, name: Name, holder: Holder, now: int): World {
    World(C.Start(now).(attempts := [C.Attempt(ByHand(m, name, holder), 0, C.Asked, None)]),
          H.Start(now).(tenures := [H.Tenure(now, 0, now, now, 0, None, H.Asking)]))
  }

  lemma Asks(m: H.Terms, name: Name, holder: Holder, now: int)
    requires Accepted(m.c) && name != ""
    ensures Step(m, name, Start(now), Backend(C.Begin(ByHand(m, name, holder)))) == Asked(m, name, holder, now)
  {}

  function Lent(m: H.Terms, name: Name, holder: Holder, now: int): World
    requires Accepted(m.c)
  {
    var w := Asked(m, name, holder, now);
    World(w.c.(history := w.c.history + [Grant(C.Now(w.c), m.c.claimExpiry)], owners := [C.ForClaim(0)],
               attempts := [w.c.attempts[0].(phase := C.Deciding(Granted(m)))]),
          w.h.(tenures := [w.h.tenures[0].(granted := m.c.claimExpiry, lease := Some(now + m.c.claimExpiry), phase := H.Leased)]))
  }

  lemma Lends(m: H.Terms, name: Name, holder: Holder, now: int)
    requires Accepted(m.c) && name != ""
    ensures Step(m, name, Asked(m, name, holder, now), Backend(C.GrantLease(0, m.c.claimExpiry))) == Lent(m, name, holder, now)
  {
    var w := Asked(m, name, holder, now);
    var c := C.Step(w.c, C.GrantLease(0, m.c.claimExpiry));
    assert c == Lent(m, name, holder, now).c;
    assert Mirror(w.c, C.GrantLease(0, m.c.claimExpiry)) == Some(H.Lease(0, m.c.claimExpiry));
  }

  function Read(m: H.Terms, name: Name, holder: Holder, now: int): World
    requires Accepted(m.c)
  {
    var w := Lent(m, name, holder, now);
    w.(c := w.c.(attempts := [w.c.attempts[0].(phase := C.Seen(Granted(m), Tx(0, None, 0)))]))
  }

  lemma Reads(m: H.Terms, name: Name, holder: Holder, now: int)
    requires Accepted(m.c) && name != ""
    ensures Step(m, name, Lent(m, name, holder, now), Backend(C.Read(0))) == Read(m, name, holder, now)
  {
    var w := Lent(m, name, holder, now);
    assert Decide(C.Now(w.c), ByHand(m, name, holder)) == Proceed(Tx(0, None, 0));
    assert C.Step(w.c, C.Read(0)) == Read(m, name, holder, now).c;
    assert Mirror(w.c, C.Read(0)) == None;
  }

  lemma Takes(m: H.Terms, name: Name, holder: Holder, now: int)
    requires Accepted(m.c) && name != ""
    ensures
      var w, w' := Read(m, name, holder, now), Step(m, name, Read(m, name, holder, now), Backend(C.Transact(0)));
      && C.Shaped(w'.c) && |w'.c.attempts| == 1 && w'.c.attempts[0].phase == C.Held(Granted(m), 0) && |w'.c.log| == 1
      && name in C.Now(w'.c).claims && C.Now(w'.c).claims[name].created == w'.c.log[0].token
      && w'.h == H.World(now, Some(0), [w.h.tenures[0].(phase := H.Claimed)])
  {
    var w := Read(m, name, holder, now);
    var req, g, tx := ByHand(m, name, holder), Granted(m), Tx(0, None, 0);
    assert Commits(C.Now(w.c), req, g, tx);
    assert C.Step(w.c, C.Transact(0)) == C.Move(C.Commit(w.c, 0, g, tx, true), 0, C.Held(g, 0));
    assert Mirror(w.c, C.Transact(0)) == Some(H.Commit(0));
  }

  lemma RunNext(m: H.Terms, name: Name, w: World, a: Action, rest: seq<Action>)
    requires C.Shaped(w.c)
    ensures C.Shaped(Step(m, name, w, a).c)
    ensures Run(m, name, w, [a] + rest) == Run(m, name, Step(m, name, w, a), rest)
  {
    StepShaped(m, name, w, a);
    assert ([a] + rest)[1..] == rest;
  }

  lemma RunFive(m: H.Terms, name: Name, w: World, a: Action, b: Action, c: Action, d: Action, e: Action, v: World)
    requires C.Shaped(w.c)
    requires C.Shaped(Step(m, name, w, a).c) && C.Shaped(Step(m, name, Step(m, name, w, a), b).c)
    requires v == Step(m, name, Step(m, name, Step(m, name, w, a), b), c)
    requires C.Shaped(v.c) && C.Shaped(Step(m, name, v, d).c)
    ensures Run(m, name, w, [a, b, c, d, e]) == Step(m, name, Step(m, name, v, d), e)
  {
    assert [a, b, c, d, e] == [a] + ([b] + ([c] + ([d] + ([e] + []))));
    RunNext(m, name, w, a, [b] + ([c] + ([d] + ([e] + []))));
    RunNext(m, name, Step(m, name, w, a), b, [c] + ([d] + ([e] + [])));
    RunNext(m, name, Step(m, name, Step(m, name, w, a), b), c, [d] + ([e] + []));
    RunNext(m, name, v, d, [e] + []);
    RunNext(m, name, Step(m, name, v, d), e, []);
  }

  lemma Lives(m: H.Terms, name: Name, w: World)
    requires C.Shaped(w.c) && |w.h.tenures| == 1 && w.h.tenures[0].phase.Claimed?
    ensures
      var w' := Step(m, name, w, Runtime(H.Admit(0)));
      w'.c == w.c && |w'.h.tenures| == 1 && H.Live(w'.h.tenures[0])
  {}

  lemma IsReachable(m: H.Terms, name: Name, now: int, actions: seq<Action>)
    ensures Reachable(m, name, Run(m, name, Start(now), actions))
  {}

  /** From nothing: asked, granted, read, taken and admitted, the run lives and its fence passes. */
  lemma FirstRunLives(m: H.Terms, name: Name, holder: Holder, now: int) returns (w: World)
    requires Accepted(m.c) && name != ""
    ensures Reachable(m, name, w) && |w.h.tenures| == 1 && H.Live(w.h.tenures[0])
    ensures |w.c.log| == 1 && C.Shaped(w.c) && FencePasses(C.Now(w.c), name, w.c.log[0].token)
  {
    Asks(m, name, holder, now);
    Lends(m, name, holder, now);
    Reads(m, name, holder, now);
    Takes(m, name, holder, now);
    var taken := Step(m, name, Read(m, name, holder, now), Backend(C.Transact(0)));
    w := Step(m, name, taken, Runtime(H.Admit(0)));
    Lives(m, name, taken);
    var actions := [Backend(C.Begin(ByHand(m, name, holder))), Backend(C.GrantLease(0, m.c.claimExpiry)),
                    Backend(C.Read(0)), Backend(C.Transact(0)), Runtime(H.Admit(0))];
    RunFive(m, name, Start(now), actions[0], actions[1], actions[2], actions[3], actions[4], Read(m, name, holder, now));
    IsReachable(m, name, now, actions);
  }
}
