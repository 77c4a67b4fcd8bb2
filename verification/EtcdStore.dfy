/**
 * The backend the adapter drives: a store whose every write happens at one revision, and
 * whose keys can be attached to leases that the backend alone times.
 */
module EtcdStore {
  import opened Common
  import opened Coordination

  datatype Claim = Claim(holder: Holder, created: nat, lease: nat)

  datatype Tick = Tick(due: int, holder: Holder, modified: nat)

  datatype Slot = Slot(run: string, lease: nat)

  datatype Lease = Lease(ttl: nat, expires: int)

  /** `issued` counts the leases granted so far, and names the next one. */
  datatype Store = Store(
    revision: nat,
    now: int,
    claims: map<Name, Claim>,
    ticks: map<Name, Tick>,
    slots: map<(Name, nat), Slot>,
    leases: map<nat, Lease>,
    issued: nat)

  function Empty(now: int): Store {
    Store(1, now, map[], map[], map[], map[], 0)
  }

  function Grant(s: Store, ttl: nat): Store {
    s.(leases := s.leases[s.issued := Lease(ttl, s.now + ttl)], issued := s.issued + 1)
  }

  /** A lease that ends, revoked or lapsed, takes every key attached to it along. */
  function Drop(s: Store, lease: nat): Store {
    var claims := map n | n in s.claims && s.claims[n].lease != lease :: s.claims[n];
    var slots := map k | k in s.slots && s.slots[k].lease != lease :: s.slots[k];
    s.(claims := claims, slots := slots, leases := s.leases - {lease},
    revision := if claims == s.claims && slots == s.slots then s.revision else s.revision + 1)
  }

  function KeepAlive(s: Store, lease: nat): Store
    requires lease in s.leases
  {
    var lent := s.leases[lease];
    s.(leases := s.leases[lease := lent.(expires := s.now + lent.ttl)])
  }

  /** The revision a name's tick was last written at, 0 for a name that has none. */
  function TickRevision(s: Store, name: Name): nat {
    if name in s.ticks then s.ticks[name].modified else 0
  }

  function TickDue(s: Store, name: Name): Option<int> {
    if name in s.ticks then Some(s.ticks[name].due) else None
  }

  /** Which of a limit's slots are free, in slot order. */
  function SlotsFree(s: Store, name: Name, runs: nat): seq<bool> {
    seq(runs, j requires 0 <= j < runs => (name, j) !in s.slots)
  }

  /** What one attempt was granted before it decided. */
  datatype Grants = Grants(lease: nat, granted: nat, slotLease: Option<nat>, slotGrantedAt: int)

  /** What a transaction carries over from the read it was decided on. */
  datatype Tx = Tx(tickRev: nat, tickDue: Option<int>, slot: nat)

  /** The transaction's comparisons, and that the leases its writes attach to still exist. */
  predicate Commits(s: Store, req: Request, g: Grants, tx: Tx) {
    && Unchanged(s, req, tx)
    && g.lease in s.leases
    && (req.rate.Some? ==> g.slotLease.Some? && g.slotLease.value in s.leases)
  }

  /** The comparisons alone. */
  predicate Unchanged(s: Store, req: Request, tx: Tx) {
    && req.name !in s.claims
    && (req.trigger.Scheduled? ==> TickRevision(s, req.name) == tx.tickRev)
    && (req.rate.Some? ==> (req.name, tx.slot) !in s.slots)
  }

  /** Claim, tick and slot, written at one revision. */
  function Put(s: Store, req: Request, g: Grants, tx: Tx): Store
    requires Commits(s, req, g, tx)
  {
    var at := s.revision + 1;
    s.(revision := at,
    claims := s.claims[req.name := Claim(req.holder, at, g.lease)],
    ticks := if req.trigger.Scheduled? then s.ticks[req.name := Tick(req.trigger.due, req.holder, at)] else s.ticks,
    slots := if req.rate.Some? then s.slots[(req.name, tx.slot) := Slot(req.holder.run, g.slotLease.value)] else s.slots)
  }

  predicate FencePasses(s: Store, name: Name, token: nat) {
    name in s.claims && s.claims[name].created == token
  }

  /** The lowest-numbered free slot. */
  function FirstFree(free: seq<bool>): (slot: Option<nat>)
    ensures slot.Some? ==> slot.value < |free| && free[slot.value] && forall j :: 0 <= j < slot.value ==> !free[j]
    ensures slot.None? ==> forall j :: 0 <= j < |free| ==> !free[j]
  {
    if free == [] then None
    else if free[0] then Some(0)
    else match FirstFree(free[1..])
         case None => None
         case Some(k) => assert forall j :: 1 <= j < k + 1 ==> free[1..][j - 1] == free[j]; Some(k + 1)
  }

  datatype Verdict = Refuse(why: Refusal) | Proceed(tx: Tx)

  /** The transaction decided on a read; only a scheduled trigger reads the tick. */
  function TxOver(s: Store, req: Request, slot: nat): Tx {
    if req.trigger.Scheduled? then Tx(TickRevision(s, req.name), TickDue(s, req.name), slot) else Tx(0, None, slot)
  }

  /** What one read of a name decides, before anything is sent. */
  function Decide(s: Store, req: Request): Verdict {
    var name := req.name;
    if AlreadyRan(req.trigger, TickDue(s, name)) then
      if name in s.claims then Refuse(HeldBy(s.claims[name].holder))
      else Refuse(TickRan(s.ticks[name].due, s.ticks[name].holder))
    else if req.rate.Some? then
      match FirstFree(SlotsFree(s, name, req.rate.value.runs))
      case None => Refuse(RateLimited(req.rate.value))
      case Some(slot) => Proceed(TxOver(s, req, slot))
    else
      Proceed(TxOver(s, req, 0))
  }

  /** What a transaction that lost a comparison decides from what it read back. */
  function Reconsider(s: Store, req: Request): Option<Refusal> {
    var name := req.name;
    if name in s.claims then Some(HeldBy(s.claims[name].holder))
    else if AlreadyRan(req.trigger, TickDue(s, name)) then Some(TickRan(s.ticks[name].due, s.ticks[name].holder))
    else None
  }

  /** A refusal that the store it was read from bears out. */
  predicate Bears(s: Store, req: Request, why: Refusal) {
    var name := req.name;
    match why
    case HeldBy(holder) => name in s.claims && s.claims[name].holder == holder
    case TickRan(due, holder) =>
      && name !in s.claims
      && name in s.ticks && s.ticks[name].due == due && s.ticks[name].holder == holder
      && req.trigger.Scheduled? && req.trigger.due <= due
    case RateLimited(limit) =>
      && req.rate == Some(limit)
      && (forall j: nat :: j < limit.runs ==> (name, j) in s.slots)
      && !AlreadyRan(req.trigger, TickDue(s, name))
    case _ => true
  }

  lemma DecideBears(s: Store, req: Request)
    ensures Decide(s, req).Refuse? ==> Bears(s, req, Decide(s, req).why)
    ensures Reconsider(s, req).Some? ==> Bears(s, req, Reconsider(s, req).value)
  {
    if req.rate.Some? {
      var runs := req.rate.value.runs;
      var free := SlotsFree(s, req.name, runs);
      if FirstFree(free).None? {
        forall j: nat | j < runs ensures (req.name, j) in s.slots { assert !free[j]; }
      }
    }
  }
}
