/** What ends a claim and what prolongs it: its release, its lease's lapse, its renewal. */
module ClaimEndings {
  import opened EtcdStore
  import opened Claims
  import opened ClaimsSafety
  import opened ClaimTheorems

  /** A claim whose fence passes hangs on its own attempt's lease. */
  lemma ClaimsLease(w: World, i: nat)
    requires Reachable(w) && i < |w.attempts| && w.attempts[i].phase.Held?
    ensures w.attempts[i].phase.entry < |w.log|
    ensures
      var name := w.attempts[i].req.name;
      FencePasses(Now(w), name, w.log[w.attempts[i].phase.entry].token) ==> Now(w).claims[name].lease == w.attempts[i].phase.grants.lease
  {
    ReachableInv(w);
    FenceExactly(w, i);
    assert AttemptOk(w, i) && EntryOk(w, w.attempts[i].phase.entry);
  }

  /** Dropping a lease frees what hangs on it, and leaves every other claim. */
  lemma DropFrees(s: Store, lease: nat)
    ensures forall n :: n in Drop(s, lease).claims <==> n in s.claims && s.claims[n].lease != lease
    ensures forall n :: n in Drop(s, lease).claims ==> Drop(s, lease).claims[n] == s.claims[n]
  {}

  /** A claim that stands ends with its release, and with its lease's lapse once that has run out: the name is free again. */
  lemma EndsFree(w: World, i: nat)
    requires Reachable(w) && i < |w.attempts| && w.attempts[i].phase.Held?
    ensures w.attempts[i].phase.entry < |w.log|
    ensures
      var name, lease := w.attempts[i].req.name, w.attempts[i].phase.grants.lease;
      FencePasses(Now(w), name, w.log[w.attempts[i].phase.entry].token) ==>
        && name !in Now(Step(w, Release(i))).claims
        && (lease in Now(w).leases && Now(w).now >= Now(w).leases[lease].expires ==> name !in Now(Step(w, Lapse(lease))).claims)
  {
    ClaimsLease(w, i);
    DropFrees(Now(w), w.attempts[i].phase.grants.lease);
  }

  /** A renewal gives a lease that stands its whole term again, and moves no key; one that is gone stays gone. */
  lemma RenewProlongs(w: World, i: nat)
    requires Shaped(w) && i < |w.attempts| && w.attempts[i].phase.Held?
    ensures
      var lease, s, s' := w.attempts[i].phase.grants.lease, Now(w), Now(Step(w, Renew(i)));
      && s'.claims == s.claims && s'.slots == s.slots && s'.ticks == s.ticks && s'.leases.Keys == s.leases.Keys
      && (lease in s.leases ==> s'.leases[lease] == Lease(s.leases[lease].ttl, s.now + s.leases[lease].ttl))
      && forall l :: l in s.leases && l != lease ==> s'.leases[l] == s.leases[l]
  {}
}
