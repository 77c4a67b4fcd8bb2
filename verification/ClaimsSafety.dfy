/** What every step of the claim protocol keeps, and what follows over whole runs. */
module ClaimsSafety {
  import opened Common
  import opened Coordination
  import opened EtcdStore
  import opened Claims

  /** The newest commit of a name. */
  function LastOf(log: seq<Entry>, name: Name): (k: Option<nat>)
    ensures k.Some? ==> k.value < |log| && log[k.value].req.name == name
    ensures k.Some? ==> forall j :: k.value < j < |log| ==> log[j].req.name != name
    ensures k.None? ==> forall j :: 0 <= j < |log| ==> log[j].req.name != name
  {
    if log == [] then None
    else if Last(log).req.name == name then Some(|log| - 1)
    else LastOf(log[..|log| - 1], name)
  }

  /** The newest commit of a name that a schedule asked for. */
  function LastTick(log: seq<Entry>, name: Name): (k: Option<nat>)
    ensures k.Some? ==> k.value < |log| && log[k.value].req.name == name && log[k.value].req.trigger.Scheduled?
    ensures k.Some? ==> forall j :: k.value < j < |log| && log[j].req.trigger.Scheduled? ==> log[j].req.name != name
    ensures k.None? ==> forall j :: 0 <= j < |log| && log[j].req.trigger.Scheduled? ==> log[j].req.name != name
  {
    if log == [] then None
    else if Last(log).req.name == name && Last(log).req.trigger.Scheduled? then Some(|log| - 1)
    else LastTick(log[..|log| - 1], name)
  }

  /** The commit an attempt made, if it made one. */
  function EntryOf(phase: Phase): Option<nat> {
    match phase
    case Held(_, entry) => Some(entry)
    case Refused(_, _, _, _, late) => late
    case _ => None
  }

  function GrantsOf(phase: Phase): Option<Grants> {
    match phase
    case Leased(lease, granted) => Some(Grants(lease, granted, None, 0))
    case Deciding(g) => Some(g)
    case Seen(g, _) => Some(g)
    case Held(g, _) => Some(g)
    case Refused(_, _, left, _, _) => left
    case Asked => None
  }

  function TxOf(phase: Phase): Option<Tx> {
    match phase
    case Seen(_, tx) => Some(tx)
    case Refused(_, _, _, pending, _) => pending
    case _ => None
  }

  /** Claim and slot leases are this attempt's own, and a slot's lease runs its whole window. */
  ghost predicate OwnsGrants(w: World, i: nat, g: Grants)
    requires Shaped(w) && i < |w.attempts|
  {
    && g.lease < |w.owners| && w.owners[g.lease] == ForClaim(i)
    && (g.slotLease.Some? ==>
          && w.attempts[i].req.rate.Some?
          && g.slotLease.value < |w.owners| && w.owners[g.slotLease.value] == ForSlot(i)
          && (g.slotLease.value in Now(w).leases ==>
                Now(w).leases[g.slotLease.value].expires >= g.slotGrantedAt + w.attempts[i].req.rate.value.per))
  }

  /** A read that a transaction still stands on: were the tick unmoved, it would be older than the one asked for. */
  ghost predicate StandsOnRead(s: Store, req: Request, tx: Tx) {
    && tx.tickRev <= s.revision
    && (req.trigger.Scheduled? && TickRevision(s, req.name) == tx.tickRev ==> TickDue(s, req.name) == tx.tickDue)
    && !AlreadyRan(req.trigger, tx.tickDue)
    && (req.rate.Some? ==> tx.slot < req.rate.value.runs)
  }

  ghost predicate AttemptOk(w: World, i: nat)
    requires Shaped(w) && i < |w.attempts|
  {
    var me := w.attempts[i];
    && me.since < |w.history|
    && (GrantsOf(me.phase).Some? ==> OwnsGrants(w, i, GrantsOf(me.phase).value))
    && (TxOf(me.phase).Some? ==> GrantsOf(me.phase).Some? && StandsOnRead(Now(w), me.req, TxOf(me.phase).value))
    && (EntryOf(me.phase).Some? ==>
          && EntryOf(me.phase).value < |w.log|
          && w.log[EntryOf(me.phase).value].attempt == i
          && w.log[EntryOf(me.phase).value].answered == me.phase.Held?)
    && (me.phase.Leased? ==> me.req.rate.Some?)
    && (me.phase.Refused? ==>
          && me.since <= me.phase.at < |w.history|
          && Bears(w.history[me.phase.at], me.req, me.phase.why)
          && (me.phase.late.Some? || me.phase.pending.Some? ==> me.phase.why.Unavailable? && me.phase.left.Some?)
          && (me.phase.late.Some? ==> me.phase.pending.None?))
    && (me.fenced.Some? ==>
          && me.phase.Held?
          && FencedBy(w.log, me.req.name, me.phase.entry, me.fenced.value))
  }

  /** When the fence passed, the commit was the newest of its name. */
  ghost predicate FencedBy(log: seq<Entry>, name: Name, entry: nat, fencedAt: nat) {
    && entry < fencedAt <= |log|
    && forall j :: entry < j < fencedAt ==> log[j].req.name != name
  }

  ghost predicate EntryOk(w: World, k: nat)
    requires Shaped(w) && k < |w.log|
  {
    var e := w.log[k];
    && e.attempt < |w.attempts|
    && w.attempts[e.attempt].req == e.req
    && EntryOf(w.attempts[e.attempt].phase) == Some(k)
    && GrantsOf(w.attempts[e.attempt].phase) == Some(e.grants)
    && 0 < e.token <= Now(w).revision
    && e.at <= Now(w).now
    && w.attempts[e.attempt].since <= e.before && e.before + 1 < |w.history|
    && TakenTogether(w.history[e.before], w.history[e.before + 1], e)
    && (e.req.rate.Some? ==> e.grants.slotLease.Some? && e.slot < e.req.rate.value.runs)
  }

  /** Claim, tick and slot all changed between one store and the next, at the commit's own revision. */
  ghost predicate TakenTogether(h: Store, h': Store, e: Entry) {
    var name := e.req.name;
    && name !in h.claims
    && !AlreadyRan(e.req.trigger, TickDue(h, name))
    && (e.req.rate.Some? ==> (name, e.slot) !in h.slots)
    && h'.revision == h.revision + 1 == e.token
    && h'.claims == h.claims[name := Claim(e.req.holder, e.token, e.grants.lease)]
    && h'.ticks == (if e.req.trigger.Scheduled? then h.ticks[name := Tick(e.req.trigger.due, e.req.holder, e.token)] else h.ticks)
    && (e.req.rate.Some? && e.grants.slotLease.Some? ==>
          h'.slots == h.slots[(name, e.slot) := Slot(e.req.holder.run, e.grants.slotLease.value)])
    && (e.req.rate.None? ==> h'.slots == h.slots)
  }

  ghost predicate LogOk(log: seq<Entry>) {
    && (forall a, b :: 0 <= a < b < |log| ==> log[a].token < log[b].token && log[a].at <= log[b].at)
    && (forall a, b :: 0 <= a < b < |log| && log[a].req.name == log[b].req.name
          && log[a].req.trigger.Scheduled? && log[b].req.trigger.Scheduled?
          ==> log[a].req.trigger.due < log[b].req.trigger.due)
    && (forall a, b :: 0 <= a < b < |log| && SameSlot(log[a], log[b]) && log[a].answered ==> SpansWindow(log[a], log[b].at))
  }

  ghost predicate SameSlot(a: Entry, b: Entry) {
    a.req.rate.Some? && b.req.rate.Some? && a.req.name == b.req.name && a.slot == b.slot
  }

  /** By `at`, the window of a rated commit has passed since its slot's lease was granted. */
  ghost predicate SpansWindow(e: Entry, at: int)
    requires e.req.rate.Some?
  {
    at >= e.grants.slotGrantedAt + e.req.rate.value.per
  }

  /** The keys are what the newest commits wrote, and a slot answered for is kept its whole window. */
  ghost predicate KeysOk(s: Store, log: seq<Entry>) {
    && ClaimsNewest(s, log)
    && TicksNewest(s, log)
    && SlotsKept(s, log)
  }

  ghost predicate ClaimsNewest(s: Store, log: seq<Entry>) {
    forall n :: n in s.claims ==>
      && LastOf(log, n).Some?
      && s.claims[n] == ClaimOf(log[LastOf(log, n).value])
  }

  function ClaimOf(e: Entry): Claim {
    Claim(e.req.holder, e.token, e.grants.lease)
  }

  ghost predicate TicksNewest(s: Store, log: seq<Entry>) {
    && (forall n :: n in s.ticks <==> LastTick(log, n).Some?)
    && (forall n :: n in s.ticks ==> s.ticks[n] == TickOf(log[LastTick(log, n).value]))
  }

  function TickOf(e: Entry): Tick
    requires e.req.trigger.Scheduled?
  {
    Tick(e.req.trigger.due, e.req.holder, e.token)
  }

  ghost predicate SlotsKept(s: Store, log: seq<Entry>) {
    forall k :: 0 <= k < |log| && log[k].req.rate.Some? && log[k].answered ==> SlotKept(s, log[k])
  }

  ghost predicate SlotsOwned(w: World)
    requires Shaped(w)
  {
    forall key :: key in Now(w).slots ==> SlotOwned(w, key, Now(w).slots[key].lease)
  }

  /** A slot's key hangs on the slot lease of the attempt whose commit took it. */
  ghost predicate SlotOwned(w: World, key: (Name, nat), lease: nat) {
    && lease < |w.owners| && w.owners[lease].ForSlot?
    && w.owners[lease].attempt < |w.attempts|
    && var entry := EntryOf(w.attempts[w.owners[lease].attempt].phase);
    && entry.Some? && entry.value < |w.log|
    && w.log[entry.value].req.rate.Some? && w.log[entry.value].req.name == key.0 && w.log[entry.value].slot == key.1
  }

  /** A slot stays taken, under the lease it was taken with, until its window has passed. */
  ghost predicate SlotKept(s: Store, e: Entry)
    requires e.req.rate.Some?
  {
    var key := (e.req.name, e.slot);
    || (key in s.slots && e.grants.slotLease == Some(s.slots[key].lease))
    || SpansWindow(e, s.now)
  }

  ghost predicate EffectOk(w: World, m: nat)
    requires Shaped(w) && m < |w.effects|
  {
    var f := w.effects[m];
    && f.attempt < |w.attempts|
    && w.attempts[f.attempt].phase.Held?
    && f.fencedAt <= f.begunAt <= |w.log|
    && FencedBy(w.log, w.attempts[f.attempt].req.name, w.attempts[f.attempt].phase.entry, f.fencedAt)
    && (w.attempts[f.attempt].fenced.Some? ==> f.begunAt <= w.attempts[f.attempt].fenced.value)
  }

  ghost predicate EffectsOk(w: World)
    requires Shaped(w)
  {
    && (forall m :: 0 <= m < |w.effects| ==> EffectOk(w, m))
    && (forall m, m' :: 0 <= m < m' < |w.effects| && w.effects[m].attempt == w.effects[m'].attempt
          ==> w.effects[m].begunAt <= w.effects[m'].fencedAt)
  }

  ghost predicate AttemptsOk(w: World)
    requires Shaped(w)
  {
    forall i :: 0 <= i < |w.attempts| ==> AttemptOk(w, i)
  }

  ghost predicate EntriesOk(w: World)
    requires Shaped(w)
  {
    forall k :: 0 <= k < |w.log| ==> EntryOk(w, k)
  }

  ghost predicate Inv(w: World) {
    && Shaped(w)
    && Now(w).issued == |w.owners|
    && Now(w).revision > 0
    && (forall l :: l in Now(w).leases ==> l < |w.owners|)
    && AttemptsOk(w)
    && EntriesOk(w)
    && LogOk(w.log)
    && KeysOk(Now(w), w.log)
    && SlotsOwned(w)
    && EffectsOk(w)
  }

  // ---- Steps that only move the store ----

  /** A store that differs from the one before it only as revocations, lapses, renewals and time can make it. */
  ghost predicate Settles(w: World, s': Store)
    requires Shaped(w)
  {
    var s := Now(w);
    && s'.revision >= s.revision && s'.now >= s.now && s'.issued == s.issued
    && s'.ticks == s.ticks
    && (forall n :: n in s'.claims ==> n in s.claims && s'.claims[n] == s.claims[n])
    && (forall key :: key in s'.slots ==> key in s.slots && s'.slots[key] == s.slots[key])
    && (forall l :: l in s'.leases ==> l in s.leases)
    && (forall l :: l in s'.leases && l < |w.owners| && w.owners[l].ForSlot? ==> s'.leases[l] == s.leases[l])
    && (forall k :: 0 <= k < |w.log| && w.log[k].req.rate.Some? && w.log[k].answered && SlotKept(s, w.log[k])
          ==> SlotKept(s', w.log[k]))
  }

  lemma PushKeepsAttempt(w: World, s': Store, i: nat)
    requires Inv(w) && Settles(w, s') && i < |w.attempts|
    ensures AttemptOk(Push(w, s'), i)
  {
    assert AttemptOk(w, i);
    if w.attempts[i].phase.Refused? {
      assert Push(w, s').history[w.attempts[i].phase.at] == w.history[w.attempts[i].phase.at];
    }
  }

  lemma PushKeepsEntry(w: World, s': Store, k: nat)
    requires Inv(w) && Settles(w, s') && k < |w.log|
    ensures EntryOk(Push(w, s'), k)
  {
    assert EntryOk(w, k);
    assert Push(w, s').history[w.log[k].before] == w.history[w.log[k].before];
    assert Push(w, s').history[w.log[k].before + 1] == w.history[w.log[k].before + 1];
  }

  lemma PushKeeps(w: World, s': Store)
    requires Inv(w) && Settles(w, s')
    ensures Inv(Push(w, s'))
  {
    var w' := Push(w, s');
    assert AttemptsOk(w') by {
      forall i | 0 <= i < |w'.attempts| ensures AttemptOk(w', i) { PushKeepsAttempt(w, s', i); }
    }
    assert EntriesOk(w') by {
      forall k | 0 <= k < |w'.log| ensures EntryOk(w', k) { PushKeepsEntry(w, s', k); }
    }
    assert KeysOk(s', w.log);
    assert SlotsOwned(w') by {
      forall key | key in s'.slots ensures SlotOwned(w', key, s'.slots[key].lease) {
        assert SlotOwned(w, key, s'.slots[key].lease);
      }
    }
    assert EffectsOk(w') by {
      forall m | 0 <= m < |w'.effects| ensures EffectOk(w', m) { assert EffectOk(w, m); }
    }
  }

  /** Whoever's claim lease ends, no slot is freed. */
  lemma DropKeepsSlots(w: World, lease: nat)
    requires Inv(w) && lease < |w.owners| && w.owners[lease].ForClaim?
    ensures Drop(Now(w), lease).slots == Now(w).slots
  {
    forall key | key in Now(w).slots ensures Now(w).slots[key].lease != lease {
      assert SlotOwned(w, key, Now(w).slots[key].lease);
    }
  }

  lemma DropClaimLease(w: World, lease: nat)
    requires Inv(w) && lease < |w.owners| && w.owners[lease].ForClaim?
    ensures Drop(Now(w), lease).slots == Now(w).slots
    ensures Settles(w, Drop(Now(w), lease))
  {
    DropKeepsSlots(w, lease);
  }

  /** A slot's lease ends once its window has passed, or for an attempt that was never answered. */
  lemma DropSlotLease(w: World, i: nat, lease: nat)
    requires Inv(w) && i < |w.attempts| && lease < |w.owners| && w.owners[lease] == ForSlot(i)
    requires w.attempts[i].phase.Held? ==> lease in Now(w).leases && Now(w).now >= Now(w).leases[lease].expires
    ensures Settles(w, Drop(Now(w), lease))
  {
    var s, s' := Now(w), Drop(Now(w), lease);
    forall k | 0 <= k < |w.log| && w.log[k].req.rate.Some? && w.log[k].answered && SlotKept(s, w.log[k])
      ensures SlotKept(s', w.log[k])
    {
      assert EntryOk(w, k);
      var e := w.log[k];
      assert AttemptOk(w, e.attempt);
      assert OwnsGrants(w, e.attempt, e.grants);
    }
  }

  lemma LapseSettles(w: World, lease: nat)
    requires Inv(w) && lease in Now(w).leases && Now(w).now >= Now(w).leases[lease].expires
    ensures Settles(w, Drop(Now(w), lease))
  {
    var s, s' := Now(w), Drop(Now(w), lease);
    forall k | 0 <= k < |w.log| && w.log[k].req.rate.Some? && w.log[k].answered && SlotKept(s, w.log[k])
      ensures SlotKept(s', w.log[k])
    {
      assert EntryOk(w, k);
      var e := w.log[k];
      assert AttemptOk(w, e.attempt);
      assert OwnsGrants(w, e.attempt, e.grants);
    }
  }

  // ---- Steps that move one attempt ----

  /** What the other attempts, the commits, the slots and the effects rely on stays when one attempt's phase moves. */
  lemma MoveKeeps(w: World, i: nat, phase: Phase)
    requires Inv(w) && i < |w.attempts|
    requires EntryOf(w.attempts[i].phase).None? && EntryOf(phase).None?
    requires AttemptOk(Move(w, i, phase), i)
    ensures Inv(Move(w, i, phase))
  {
    var w' := Move(w, i, phase);
    assert AttemptsOk(w') by {
      forall j | 0 <= j < |w'.attempts| ensures AttemptOk(w', j) { assert AttemptOk(w, j); }
    }
    assert EntriesOk(w') by {
      forall k | 0 <= k < |w'.log| ensures EntryOk(w', k) { assert EntryOk(w, k); }
    }
    assert SlotsOwned(w') by {
      forall key | key in Now(w).slots ensures SlotOwned(w', key, Now(w).slots[key].lease) {
        assert SlotOwned(w, key, Now(w).slots[key].lease);
      }
    }
    assert EffectsOk(w') by {
      forall m | 0 <= m < |w'.effects| ensures EffectOk(w', m) { assert EffectOk(w, m); }
    }
  }

  lemma GrantKeeps(w: World, ttl: nat, owner: Owner)
    requires Inv(w)
    ensures Inv(Push(w, Grant(Now(w), ttl)).(owners := w.owners + [owner]))
  {
    var w' := Push(w, Grant(Now(w), ttl)).(owners := w.owners + [owner]);
    assert AttemptsOk(w') by {
      forall i | 0 <= i < |w'.attempts| ensures AttemptOk(w', i) { GrantKeepsAttempt(w, ttl, owner, i); }
    }
    assert EntriesOk(w') by {
      forall k | 0 <= k < |w'.log| ensures EntryOk(w', k) {
        assert EntryOk(w, k);
        assert w'.history[w.log[k].before] == w.history[w.log[k].before];
        assert w'.history[w.log[k].before + 1] == w.history[w.log[k].before + 1];
      }
    }
    assert KeysOk(Now(w'), w'.log) by {
      forall k | 0 <= k < |w'.log| && w'.log[k].req.rate.Some? && w'.log[k].answered ensures SlotKept(Now(w'), w'.log[k]) {
        assert SlotKept(Now(w), w.log[k]);
      }
    }
    assert SlotsOwned(w') by {
      forall key | key in Now(w).slots ensures SlotOwned(w', key, Now(w).slots[key].lease) {
        assert SlotOwned(w, key, Now(w).slots[key].lease);
      }
    }
    assert EffectsOk(w') by {
      forall m | 0 <= m < |w'.effects| ensures EffectOk(w', m) { assert EffectOk(w, m); }
    }
  }

  lemma GrantKeepsAttempt(w: World, ttl: nat, owner: Owner, i: nat)
    requires Inv(w) && i < |w.attempts|
    ensures AttemptOk(Push(w, Grant(Now(w), ttl)).(owners := w.owners + [owner]), i)
  {
    var w' := Push(w, Grant(Now(w), ttl)).(owners := w.owners + [owner]);
    assert AttemptOk(w, i);
    if w.attempts[i].phase.Refused? {
      assert w'.history[w.attempts[i].phase.at] == w.history[w.attempts[i].phase.at];
    }
  }

  lemma BeginKeeps(w: World, req: Request)
    requires Inv(w)
    ensures Inv(Step(w, Begin(req)))
  {
    var w' := Step(w, Begin(req));
    assert AttemptsOk(w') by {
      forall i | 0 <= i < |w'.attempts| ensures AttemptOk(w', i) {
        if i < |w.attempts| { assert AttemptOk(w, i); }
      }
    }
    assert EntriesOk(w') by {
      forall k | 0 <= k < |w'.log| ensures EntryOk(w', k) { assert EntryOk(w, k); }
    }
    assert SlotsOwned(w') by {
      forall key | key in Now(w).slots ensures SlotOwned(w', key, Now(w).slots[key].lease) {
        assert SlotOwned(w, key, Now(w).slots[key].lease);
      }
    }
    assert EffectsOk(w') by {
      forall m | 0 <= m < |w'.effects| ensures EffectOk(w', m) { assert EffectOk(w, m); }
    }
  }

  lemma RefuseKeeps(w: World, i: nat, why: Refusal, left: Option<Grants>)
    requires Inv(w) && i < |w.attempts|
    requires EntryOf(w.attempts[i].phase).None?
    requires left.Some? ==> OwnsGrants(w, i, left.value)
    requires Bears(Now(w), w.attempts[i].req, why)
    requires w.attempts[i].fenced.None?
    ensures Inv(RefuseAt(w, i, why, left))
  {
    assert AttemptOk(w, i);
    MoveKeeps(w, i, Refused(why, |w.history| - 1, left, None, None));
  }

  // ---- The commit ----

  lemma CommitKeepsLog(w: World, i: nat, g: Grants, tx: Tx, answered: bool)
    requires Inv(w) && i < |w.attempts| && Commits(Now(w), w.attempts[i].req, g, tx)
    requires StandsOnRead(Now(w), w.attempts[i].req, tx)
    ensures LogOk(Commit(w, i, g, tx, answered).log)
  {
    var s, log := Now(w), w.log;
    var e := Last(Commit(w, i, g, tx, answered).log);
    forall a | 0 <= a < |log| ensures log[a].token < e.token && log[a].at <= e.at {
      assert EntryOk(w, a);
    }
    forall a | 0 <= a < |log| && log[a].req.name == e.req.name && log[a].req.trigger.Scheduled? && e.req.trigger.Scheduled?
      ensures log[a].req.trigger.due < e.req.trigger.due
    {
      var n := e.req.name;
      assert LastTick(log, n).Some?;
      assert n in s.ticks;
    }
    forall a | 0 <= a < |log| && SameSlot(log[a], e) && log[a].answered ensures SpansWindow(log[a], e.at) {
      assert SlotKept(s, log[a]);
    }
  }

  lemma LastOfAppend(log: seq<Entry>, e: Entry, name: Name)
    ensures LastOf(log + [e], name) == if e.req.name == name then Some(|log|) else LastOf(log, name)
    ensures LastTick(log + [e], name) ==
            if e.req.name == name && e.req.trigger.Scheduled? then Some(|log|) else LastTick(log, name)
  {
    assert (log + [e])[..|log|] == log;
  }

  lemma PutKeepsClaims(s: Store, log: seq<Entry>, e: Entry, tx: Tx)
    requires Commits(s, e.req, e.grants, tx) && e.token == s.revision + 1
    requires ClaimsNewest(s, log)
    ensures ClaimsNewest(Put(s, e.req, e.grants, tx), log + [e])
  {
    var s', log' := Put(s, e.req, e.grants, tx), log + [e];
    forall n | n in s'.claims ensures LastOf(log', n).Some? && s'.claims[n] == ClaimOf(log'[LastOf(log', n).value]) {
      LastOfAppend(log, e, n);
    }
  }

  lemma PutKeepsTicks(s: Store, log: seq<Entry>, e: Entry, tx: Tx)
    requires Commits(s, e.req, e.grants, tx) && e.token == s.revision + 1
    requires TicksNewest(s, log)
    ensures TicksNewest(Put(s, e.req, e.grants, tx), log + [e])
  {
    var s', log' := Put(s, e.req, e.grants, tx), log + [e];
    forall n
      ensures n in s'.ticks <==> LastTick(log', n).Some?
      ensures n in s'.ticks ==> s'.ticks[n] == TickOf(log'[LastTick(log', n).value])
    {
      LastOfAppend(log, e, n);
    }
  }

  lemma PutKeepsSlots(s: Store, log: seq<Entry>, e: Entry, tx: Tx)
    requires Commits(s, e.req, e.grants, tx) && e.slot == tx.slot
    requires SlotsKept(s, log)
    ensures SlotsKept(Put(s, e.req, e.grants, tx), log + [e])
  {
    var s', log' := Put(s, e.req, e.grants, tx), log + [e];
    forall k | 0 <= k < |log'| && log'[k].req.rate.Some? && log'[k].answered ensures SlotKept(s', log'[k]) {
      if k < |log| { assert SlotKept(s, log[k]); }
    }
  }

  lemma CommitKeepsKeys(w: World, i: nat, g: Grants, tx: Tx, answered: bool)
    requires Inv(w) && i < |w.attempts| && Commits(Now(w), w.attempts[i].req, g, tx)
    ensures KeysOk(Now(Commit(w, i, g, tx, answered)), Commit(w, i, g, tx, answered).log)
  {
    var w' := Commit(w, i, g, tx, answered);
    var e := Last(w'.log);
    PutKeepsClaims(Now(w), w.log, e, tx);
    PutKeepsTicks(Now(w), w.log, e, tx);
    PutKeepsSlots(Now(w), w.log, e, tx);
  }

  lemma CommitKeepsSlots(w: World, i: nat, g: Grants, tx: Tx, answered: bool, phase: Phase)
    requires Inv(w) && i < |w.attempts| && Commits(Now(w), w.attempts[i].req, g, tx)
    requires OwnsGrants(w, i, g) && EntryOf(phase) == Some(|w.log|)
    requires EntryOf(w.attempts[i].phase).None?
    ensures SlotsOwned(Move(Commit(w, i, g, tx, answered), i, phase))
  {
    var w' := Move(Commit(w, i, g, tx, answered), i, phase);
    var s, s' := Now(w), Now(w');
    forall key | key in s'.slots ensures SlotOwned(w', key, s'.slots[key].lease) {
      if w.attempts[i].req.rate.None? || key != (w.attempts[i].req.name, tx.slot) {
        assert SlotOwned(w, key, s.slots[key].lease);
      }
    }
  }

  /** What one attempt or one earlier commit relies on is not touched by another's commit. */
  lemma CommitKeepsOther(w: World, i: nat, g: Grants, tx: Tx, answered: bool, j: nat)
    requires Inv(w) && i < |w.attempts| && Commits(Now(w), w.attempts[i].req, g, tx)
    requires j < |w.attempts| && j != i
    ensures AttemptOk(Commit(w, i, g, tx, answered), j)
  {
    var w' := Commit(w, i, g, tx, answered);
    assert AttemptOk(w, j);
    var me := w.attempts[j];
    assert w'.attempts[j] == me;
    if EntryOf(me.phase).Some? {
      assert w'.log[EntryOf(me.phase).value] == w.log[EntryOf(me.phase).value];
    }
    if me.phase.Refused? {
      assert w'.history[me.phase.at] == w.history[me.phase.at];
    }
  }

  lemma CommitKeepsEntry(w: World, i: nat, g: Grants, tx: Tx, answered: bool, k: nat)
    requires Inv(w) && i < |w.attempts| && Commits(Now(w), w.attempts[i].req, g, tx)
    requires k < |w.log|
    ensures EntryOk(Commit(w, i, g, tx, answered), k)
  {
    var w' := Commit(w, i, g, tx, answered);
    assert EntryOk(w, k);
    assert w'.log[k] == w.log[k];
    assert w'.history[w.log[k].before] == w.history[w.log[k].before];
    assert w'.history[w.log[k].before + 1] == w.history[w.log[k].before + 1];
  }

  /** The phase an attempt is left in by its own commit: held, or refused with the reply lost. */
  predicate Settled(w: World, i: nat, g: Grants, tx: Tx, answered: bool, phase: Phase)
    requires i < |w.attempts|
  {
    var mine := w.attempts[i].phase;
    if answered then mine == Seen(g, tx) && phase == Held(g, |w.log|)
    else mine.Refused? && mine.left == Some(g) && mine.pending == Some(tx)
         && phase == Refused(mine.why, mine.at, Some(g), None, Some(|w.log|))
  }

  lemma CommitKeepsOwn(w: World, i: nat, g: Grants, tx: Tx, answered: bool, phase: Phase)
    requires Inv(w) && i < |w.attempts| && Commits(Now(w), w.attempts[i].req, g, tx)
    requires Settled(w, i, g, tx, answered, phase)
    ensures AttemptOk(Move(Commit(w, i, g, tx, answered), i, phase), i)
    ensures EntryOk(Move(Commit(w, i, g, tx, answered), i, phase), |w.log|)
  {
    var w' := Move(Commit(w, i, g, tx, answered), i, phase);
    assert AttemptOk(w, i);
    assert OwnsGrants(w, i, g);
    var mine := w.attempts[i].phase;
    if mine.Refused? {
      assert w'.history[mine.at] == w.history[mine.at];
    }
    assert w'.history[|w.history| - 1] == Now(w) && w'.history[|w.history|] == Now(w');
    TickDueMeans(Now(w), w.attempts[i].req, tx);
    assert w.attempts[i].req.rate.Some? ==> tx.slot < w.attempts[i].req.rate.value.runs;
  }

  lemma CommitKeepsAttempts(w: World, i: nat, g: Grants, tx: Tx, answered: bool, phase: Phase)
    requires Inv(w) && i < |w.attempts| && Commits(Now(w), w.attempts[i].req, g, tx)
    requires Settled(w, i, g, tx, answered, phase)
    ensures AttemptsOk(Move(Commit(w, i, g, tx, answered), i, phase))
  {
    var w1 := Commit(w, i, g, tx, answered);
    var w' := Move(w1, i, phase);
    CommitKeepsOwn(w, i, g, tx, answered, phase);
    forall j | 0 <= j < |w'.attempts| && j != i ensures AttemptOk(w', j) {
      CommitKeepsOther(w, i, g, tx, answered, j);
      assert w'.attempts[j] == w1.attempts[j];
    }
  }

  lemma CommitKeepsEntries(w: World, i: nat, g: Grants, tx: Tx, answered: bool, phase: Phase)
    requires Inv(w) && i < |w.attempts| && Commits(Now(w), w.attempts[i].req, g, tx)
    requires Settled(w, i, g, tx, answered, phase)
    ensures EntriesOk(Move(Commit(w, i, g, tx, answered), i, phase))
  {
    var w1 := Commit(w, i, g, tx, answered);
    var w' := Move(w1, i, phase);
    CommitKeepsOwn(w, i, g, tx, answered, phase);
    assert AttemptOk(w, i);
    forall k | 0 <= k < |w.log| ensures EntryOk(w', k) {
      CommitKeepsEntry(w, i, g, tx, answered, k);
      assert EntryOk(w, k);
      assert w'.attempts[w.log[k].attempt] == w1.attempts[w.log[k].attempt];
    }
  }

  lemma CommitKeeps(w: World, i: nat, g: Grants, tx: Tx, answered: bool, phase: Phase)
    requires Inv(w) && i < |w.attempts| && Commits(Now(w), w.attempts[i].req, g, tx)
    requires Settled(w, i, g, tx, answered, phase)
    ensures Inv(Move(Commit(w, i, g, tx, answered), i, phase))
  {
    assert AttemptOk(w, i);
    CommitKeepsLog(w, i, g, tx, answered);
    CommitKeepsKeys(w, i, g, tx, answered);
    CommitKeepsSlots(w, i, g, tx, answered, phase);
    CommitKeepsAttempts(w, i, g, tx, answered, phase);
    CommitKeepsEntries(w, i, g, tx, answered, phase);
    CommitKeepsEffects(w, i, g, tx, answered, phase);
  }

  lemma CommitKeepsEffects(w: World, i: nat, g: Grants, tx: Tx, answered: bool, phase: Phase)
    requires Inv(w) && i < |w.attempts| && Commits(Now(w), w.attempts[i].req, g, tx)
    requires Settled(w, i, g, tx, answered, phase)
    ensures EffectsOk(Move(Commit(w, i, g, tx, answered), i, phase))
  {
    var w' := Move(Commit(w, i, g, tx, answered), i, phase);
    forall m | 0 <= m < |w'.effects| ensures EffectOk(w', m) {
      assert EffectOk(w, m);
    }
  }

  /** A transaction that commits takes a tick no recorded one has reached. */
  lemma TickDueMeans(s: Store, req: Request, tx: Tx)
    requires StandsOnRead(s, req, tx) && Unchanged(s, req, tx)
    ensures !AlreadyRan(req.trigger, TickDue(s, req.name))
  {}

  // ---- Every step ----

  lemma RefenceKeeps(w: World, i: nat, fenced: Option<nat>)
    requires Inv(w) && i < |w.attempts|
    requires fenced.Some? ==>
               && w.attempts[i].phase.Held?
               && FencedBy(w.log, w.attempts[i].req.name, w.attempts[i].phase.entry, fenced.value)
    ensures
      var w' := w.(attempts := w.attempts[i := w.attempts[i].(fenced := fenced)]);
      AttemptsOk(w') && EntriesOk(w') && SlotsOwned(w')
  {
    var w' := w.(attempts := w.attempts[i := w.attempts[i].(fenced := fenced)]);
    assert AttemptsOk(w') by {
      forall j | 0 <= j < |w'.attempts| ensures AttemptOk(w', j) { assert AttemptOk(w, j); }
    }
    assert EntriesOk(w') by {
      forall k | 0 <= k < |w'.log| ensures EntryOk(w', k) { assert EntryOk(w, k); }
    }
    assert SlotsOwned(w') by {
      forall key | key in Now(w).slots ensures SlotOwned(w', key, Now(w).slots[key].lease) {
        assert SlotOwned(w, key, Now(w).slots[key].lease);
      }
    }
  }

  lemma FenceStep(w: World, i: nat)
    requires Shaped(w) && i < |w.attempts|
    ensures Step(w, Fence(i)) != w ==>
              && w.attempts[i].phase.Held? && w.attempts[i].phase.entry < |w.log|
              && FencePasses(Now(w), w.attempts[i].req.name, w.log[w.attempts[i].phase.entry].token)
              && Step(w, Fence(i)) == w.(attempts := w.attempts[i := w.attempts[i].(fenced := Some(|w.log|))])
  {}

  lemma FenceKeeps(w: World, i: nat)
    requires Inv(w) && i < |w.attempts|
    ensures Inv(Step(w, Fence(i)))
  {
    FenceStep(w, i);
    if Step(w, Fence(i)) != w {
      FenceIsExact(w, i);
      RefenceKeeps(w, i, Some(|w.log|));
      FenceKeepsEffects(w, i);
    }
  }

  lemma FenceKeepsEffects(w: World, i: nat)
    requires Inv(w) && i < |w.attempts|
    ensures EffectsOk(w.(attempts := w.attempts[i := w.attempts[i].(fenced := Some(|w.log|))]))
  {
    var w' := w.(attempts := w.attempts[i := w.attempts[i].(fenced := Some(|w.log|))]);
    forall m | 0 <= m < |w'.effects| ensures EffectOk(w', m) { assert EffectOk(w, m); }
  }

  /** Attempts, commits and slots do not depend on the effects begun. */
  lemma EffectsAside(w: World, effects: seq<Effect>)
    requires Shaped(w) && AttemptsOk(w) && EntriesOk(w) && SlotsOwned(w)
    ensures
      var w' := w.(effects := effects);
      AttemptsOk(w') && EntriesOk(w') && SlotsOwned(w')
  {
    var w' := w.(effects := effects);
    assert AttemptsOk(w') by {
      forall j | 0 <= j < |w'.attempts| ensures AttemptOk(w', j) { assert AttemptOk(w, j); }
    }
    assert EntriesOk(w') by {
      forall k | 0 <= k < |w'.log| ensures EntryOk(w', k) { assert EntryOk(w, k); }
    }
    assert SlotsOwned(w') by {
      assert Now(w') == Now(w);
      forall key | key in Now(w').slots ensures SlotOwned(w', key, Now(w').slots[key].lease) {
        assert SlotOwned(w, key, Now(w).slots[key].lease);
      }
    }
  }

  lemma AffectStep(w: World, i: nat)
    requires Shaped(w) && i < |w.attempts|
    ensures Step(w, Affect(i)) != w ==>
              && w.attempts[i].phase.Held? && w.attempts[i].fenced.Some?
              && Step(w, Affect(i)) ==
                 w.(attempts := w.attempts[i := w.attempts[i].(fenced := None)]).(
                   effects := w.effects + [Effect(i, w.attempts[i].fenced.value, |w.log|)])
  {}

  lemma AffectKeeps(w: World, i: nat)
    requires Inv(w) && i < |w.attempts|
    ensures Inv(Step(w, Affect(i)))
  {
    var w' := Step(w, Affect(i));
    AffectStep(w, i);
    if w' != w {
      RefenceKeeps(w, i, None);
      EffectsAside(w.(attempts := w.attempts[i := w.attempts[i].(fenced := None)]), w'.effects);
      AffectKeepsEffects(w, i);
    }
  }

  lemma AffectKeepsEffects(w: World, i: nat)
    requires Inv(w) && i < |w.attempts|
    ensures EffectsOk(Step(w, Affect(i)))
  {
    var w' := Step(w, Affect(i));
    assert AttemptOk(w, i);
    forall m | 0 <= m < |w'.effects| ensures EffectOk(w', m) {
      if m < |w.effects| { assert EffectOk(w, m); }
    }
    forall m, m' | 0 <= m < m' < |w'.effects| && w'.effects[m].attempt == w'.effects[m'].attempt
      ensures w'.effects[m].begunAt <= w'.effects[m'].fencedAt
    {
      assert EffectOk(w, m);
    }
  }

  /** While a commit is held and answered, its fence passes exactly when its claim is live and no later commit took the name. */
  lemma FenceIsExact(w: World, i: nat)
    requires Inv(w) && i < |w.attempts| && w.attempts[i].phase.Held?
    ensures
      var name, entry := w.attempts[i].req.name, w.attempts[i].phase.entry;
      && entry < |w.log|
      && (FencePasses(Now(w), name, w.log[entry].token) <==> name in Now(w).claims && LastOf(w.log, name) == Some(entry))
  {
    assert AttemptOk(w, i);
    var name, entry := w.attempts[i].req.name, w.attempts[i].phase.entry;
    assert EntryOk(w, entry);
    if name in Now(w).claims {
      var k := LastOf(w.log, name).value;
      assert Now(w).claims[name].created == w.log[k].token;
    }
  }

  lemma HeldStepKeeps(w: World, a: Action)
    requires Inv(w) && (a.Renew? || a.Fence? || a.Affect? || a.Release?) && a.i < |w.attempts|
    ensures Inv(Step(w, a))
  {
    assert AttemptOk(w, a.i);
    match a
    case Fence(i) => FenceKeeps(w, i);
    case Affect(i) => AffectKeeps(w, i);
    case Renew(i) =>
      if Step(w, a) != w {
        var lease := w.attempts[i].phase.grants.lease;
        forall k | 0 <= k < |w.log| && w.log[k].req.rate.Some? && w.log[k].answered && SlotKept(Now(w), w.log[k])
          ensures SlotKept(KeepAlive(Now(w), lease), w.log[k]) {}
        PushKeeps(w, KeepAlive(Now(w), lease));
      }
    case Release(i) =>
      if Step(w, a) != w {
        var lease := w.attempts[i].phase.grants.lease;
        DropClaimLease(w, lease);
        PushKeeps(w, Drop(Now(w), lease));
      }
  }

  lemma RevokeKeeps(w: World, i: nat)
    requires Inv(w) && i < |w.attempts|
    ensures Inv(Step(w, Revoke(i)))
  {
    assert AttemptOk(w, i);
    var phase := w.attempts[i].phase;
    if phase.Refused? && phase.left.Some? {
      var lease := phase.left.value.lease;
      assert Step(w, Revoke(i)) == Push(w, Drop(Now(w), lease));
      DropClaimLease(w, lease);
      PushKeeps(w, Drop(Now(w), lease));
    }
  }

  lemma RevokeSlotKeeps(w: World, i: nat)
    requires Inv(w) && i < |w.attempts|
    ensures Inv(Step(w, RevokeSlot(i)))
  {
    assert AttemptOk(w, i);
    var phase := w.attempts[i].phase;
    if phase.Refused? && phase.left.Some? && phase.left.value.slotLease.Some? {
      var lease := phase.left.value.slotLease.value;
      assert Step(w, RevokeSlot(i)) == Push(w, Drop(Now(w), lease));
      DropSlotLease(w, i, lease);
      PushKeeps(w, Drop(Now(w), lease));
    }
  }

  lemma CommitLateKeeps(w: World, i: nat)
    requires Inv(w) && i < |w.attempts|
    ensures Inv(Step(w, CommitLate(i)))
  {
    var phase := w.attempts[i].phase;
    if phase.Refused? && phase.left.Some? && phase.pending.Some? && phase.late.None? {
      var g, tx := phase.left.value, phase.pending.value;
      if Commits(Now(w), w.attempts[i].req, g, tx) {
        CommitsLate(w, i, g, tx);
        CommitKeeps(w, i, g, tx, false, Refused(phase.why, phase.at, Some(g), None, Some(|w.log|)));
      } else {
        assert AttemptOk(w, i);
        MoveKeeps(w, i, Refused(phase.why, phase.at, Some(g), None, None));
      }
    }
  }

  lemma CommitsLate(w: World, i: nat, g: Grants, tx: Tx)
    requires Shaped(w) && i < |w.attempts| && Commits(Now(w), w.attempts[i].req, g, tx)
    requires w.attempts[i].phase.Refused? && w.attempts[i].phase.left == Some(g)
    requires w.attempts[i].phase.pending == Some(tx) && w.attempts[i].phase.late.None?
    ensures Step(w, CommitLate(i)) ==
            Move(Commit(w, i, g, tx, false), i,
                 Refused(w.attempts[i].phase.why, w.attempts[i].phase.at, Some(g), None, Some(|w.log|)))
  {}

  lemma GrantLeaseKeeps(w: World, i: nat, granted: nat)
    requires Inv(w) && i < |w.attempts|
    ensures Inv(Step(w, GrantLease(i, granted)))
  {
    assert AttemptOk(w, i);
    var s, me := Now(w), w.attempts[i];
    if me.phase.Asked? {
      GrantKeeps(w, granted, ForClaim(i));
      var w1 := Push(w, Grant(s, granted)).(owners := w.owners + [ForClaim(i)]);
      assert AttemptOk(w1, i);
      var g := Grants(s.issued, granted, None, 0);
      assert OwnsGrants(w1, i, g);
      if granted < me.req.expiry {
        RefuseKeeps(w1, i, Unavailable, Some(g));
      } else if me.req.rate.Some? {
        MoveKeeps(w1, i, Leased(s.issued, granted));
      } else {
        MoveKeeps(w1, i, Deciding(g));
      }
    }
  }

  lemma GrantSlotLeaseKeeps(w: World, i: nat, granted: nat)
    requires Inv(w) && i < |w.attempts|
    ensures Inv(Step(w, GrantSlotLease(i, granted)))
  {
    assert AttemptOk(w, i);
    var s, me := Now(w), w.attempts[i];
    if me.phase.Leased? && granted >= me.req.rate.value.per {
      GrantKeeps(w, granted, ForSlot(i));
      var w1 := Push(w, Grant(s, granted)).(owners := w.owners + [ForSlot(i)]);
      assert AttemptOk(w1, i);
      MoveKeeps(w1, i, Deciding(Grants(me.phase.lease, me.phase.granted, Some(s.issued), s.now)));
    }
  }

  lemma ReadKeeps(w: World, i: nat)
    requires Inv(w) && i < |w.attempts|
    ensures Inv(Step(w, Read(i)))
  {
    assert AttemptOk(w, i);
    var s, me := Now(w), w.attempts[i];
    if me.phase.Deciding? {
      DecideBears(s, me.req);
      match Decide(s, me.req)
      case Refuse(why) => RefuseKeeps(w, i, why, Some(me.phase.grants));
      case Proceed(tx) =>
        ReadStands(w, me.req);
        MoveKeeps(w, i, Seen(me.phase.grants, tx));
    }
  }

  lemma TransactKeeps(w: World, i: nat)
    requires Inv(w) && i < |w.attempts|
    ensures Inv(Step(w, Transact(i)))
  {
    if w.attempts[i].phase.Seen? {
      var g, tx := w.attempts[i].phase.grants, w.attempts[i].phase.tx;
      if Commits(Now(w), w.attempts[i].req, g, tx) {
        TransactCommits(w, i, g, tx);
        CommitKeeps(w, i, g, tx, true, Held(g, |w.log|));
      } else {
        TransactLosesKeeps(w, i, g, tx);
      }
    }
  }

  lemma TransactCommits(w: World, i: nat, g: Grants, tx: Tx)
    requires Shaped(w) && i < |w.attempts| && w.attempts[i].phase == Seen(g, tx)
    requires Commits(Now(w), w.attempts[i].req, g, tx)
    ensures Step(w, Transact(i)) == Move(Commit(w, i, g, tx, true), i, Held(g, |w.log|))
  {}

  lemma TransactLosesKeeps(w: World, i: nat, g: Grants, tx: Tx)
    requires Inv(w) && i < |w.attempts| && w.attempts[i].phase == Seen(g, tx)
    requires !Commits(Now(w), w.attempts[i].req, g, tx)
    ensures Inv(Step(w, Transact(i)))
  {
    assert AttemptOk(w, i);
    var s, req := Now(w), w.attempts[i].req;
    assert OwnsGrants(w, i, g);
    if Unchanged(s, req, tx) {
      RefuseKeeps(w, i, Unavailable, Some(g));
    } else {
      DecideBears(s, req);
      match Reconsider(s, req)
      case Some(why) => RefuseKeeps(w, i, why, Some(g));
      case None => MoveKeeps(w, i, Deciding(g));
    }
  }

  lemma GiveUpKeeps(w: World, i: nat)
    requires Inv(w) && i < |w.attempts|
    ensures Inv(Step(w, GiveUp(i)))
  {
    assert AttemptOk(w, i);
    var me := w.attempts[i];
    if me.phase.Asked? || me.phase.Leased? || me.phase.Deciding? || me.phase.Seen? {
      RefuseKeeps(w, i, Unavailable, GrantsOf(me.phase));
    }
  }

  lemma LoseReplyKeeps(w: World, i: nat)
    requires Inv(w) && i < |w.attempts|
    ensures Inv(Step(w, LoseReply(i)))
  {
    assert AttemptOk(w, i);
    var me := w.attempts[i];
    if me.phase.Seen? {
      MoveKeeps(w, i, Refused(Unavailable, |w.history| - 1, Some(me.phase.grants), Some(me.phase.tx), None));
    }
  }

  lemma ReadStands(w: World, req: Request)
    requires Inv(w) && Decide(Now(w), req).Proceed?
    ensures StandsOnRead(Now(w), req, Decide(Now(w), req).tx)
  {
    var s := Now(w);
    if req.name in s.ticks {
      var k := LastTick(w.log, req.name).value;
      assert EntryOk(w, k);
    }
  }

  lemma BackendStepKeeps(w: World, a: Action)
    requires Inv(w) && (a.Lapse? || a.Pass?)
    ensures Inv(Step(w, a))
  {
    match a
    case Lapse(lease) =>
      if Step(w, a) != w {
        LapseSettles(w, lease);
        PushKeeps(w, Drop(Now(w), lease));
      }
    case Pass(d) => PushKeeps(w, Now(w).(now := Now(w).now + d));
  }

  /** Every step of every interleaving keeps the invariant. */
  lemma StepKeeps(w: World, a: Action)
    requires Inv(w)
    ensures Inv(Step(w, a))
  {
    if a.Begin? {
      BeginKeeps(w, a.req);
    } else if a.Lapse? || a.Pass? {
      BackendStepKeeps(w, a);
    } else if a.i < |w.attempts| {
      match a
      case GrantLease(i, granted) => GrantLeaseKeeps(w, i, granted);
      case GrantSlotLease(i, granted) => GrantSlotLeaseKeeps(w, i, granted);
      case Read(i) => ReadKeeps(w, i);
      case Transact(i) => TransactKeeps(w, i);
      case LoseReply(i) => LoseReplyKeeps(w, i);
      case GiveUp(i) => GiveUpKeeps(w, i);
      case CommitLate(i) => CommitLateKeeps(w, i);
      case Revoke(i) => RevokeKeeps(w, i);
      case RevokeSlot(i) => RevokeSlotKeeps(w, i);
      case Renew(_) => HeldStepKeeps(w, a);
      case Fence(_) => HeldStepKeeps(w, a);
      case Affect(_) => HeldStepKeeps(w, a);
      case Release(_) => HeldStepKeeps(w, a);
    } else {
      assert Step(w, a) == w;
    }
  }

  lemma {:induction false} RunKeeps(w: World, actions: seq<Action>)
    requires Inv(w)
    ensures Inv(Run(w, actions))
    decreases |actions|
  {
    if actions != [] {
      StepKeeps(w, actions[0]);
      RunKeeps(Step(w, actions[0]), actions[1..]);
    }
  }
}
