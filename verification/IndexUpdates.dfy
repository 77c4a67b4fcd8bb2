/** An update's own loop: read, work out, commit, and again when the index or a file moved meanwhile. */
module IndexUpdates {
  import opened Common
  import opened Generations
  import opened Index
  import opened IndexWorld
  import opened IndexTheorems
  import opened IndexEndings

  /** The walks an unbounded update may make after its first. */
  const MAX_REWALKS: nat := 10

  /** What an update meets in one round: everyone else's steps, the files as it reads them, and its next walk. */
  datatype Round = Round(before: seq<Action>, between: seq<Action>, found: map<Source, Content>, next: seq<Document>)

  predicate Others(actions: seq<Action>, i: nat) {
    forall k :: 0 <= k < |actions| ==> actions[k].Begin? || actions[k].i != i
  }

  lemma {:induction false} RunAppends(rules: Rules, w: World, a: seq<Action>, b: seq<Action>)
    ensures Run(rules, w, a + b) == Run(rules, Run(rules, w, a), b)
    decreases |a|
  {
    if a == [] {
      assert a + b == b;
    } else {
      assert (a + b)[1..] == a[1..] + b;
      RunAppends(rules, Step(rules, w, a[0]), a[1..], b);
    }
  }

  lemma OtherLeavesMe(rules: Rules, w: World, a: Action, i: nat)
    requires i < |w.writers| && (a.Begin? || a.i != i)
    ensures i < |Step(rules, w, a).writers| && Step(rules, w, a).writers[i] == w.writers[i]
  {}

  lemma {:induction false} OthersLeaveMe(rules: Rules, w: World, actions: seq<Action>, i: nat)
    requires i < |w.writers| && Others(actions, i)
    ensures i < |Run(rules, w, actions).writers| && Run(rules, w, actions).writers[i] == w.writers[i]
    decreases |actions|
  {
    if actions != [] {
      OtherLeavesMe(rules, w, actions[0], i);
      assert Others(actions[1..], i);
      OthersLeaveMe(rules, Step(rules, w, actions[0]), actions[1..], i);
    }
  }

  /** SELECT source, digest FROM documents. */
  method ListDocuments(documents: map<Source, Digest>) returns (listing: seq<Document>)
    ensures Lists(listing, documents)
  {
    listing := [];
    var left := documents;
    while left != map[]
      invariant Distinct(listing)
      invariant left.Keys <= documents.Keys && forall s :: s in left ==> left[s] == documents[s]
      invariant forall k :: 0 <= k < |listing| ==>
                              listing[k].source in documents && documents[listing[k].source] == listing[k].digest && listing[k].source !in left
      invariant forall s :: s in documents && s !in left ==> Document(s, documents[s]) in listing
      decreases |left|
    {
      var s :| s in left;
      assert |left - {s}| < |left| by {
        assert (left - {s}).Keys == left.Keys - {s};
        assert |left.Keys - {s}| < |left.Keys|;
      }
      listing := listing + [Document(s, left[s])];
      left := left - {s};
    }
    assert forall d :: d in listing ==> d.source in documents && documents[d.source] == d.digest;
    forall s | s in documents ensures exists d :: d in listing && d.source == s {
      assert Document(s, documents[s]) in listing;
    }
    IsMapOf(documents, listing);
  }

  /** A finished update's identifier is its walk's, and the index it finished on held the walk. */
  ghost predicate Landed(w: World, i: nat) {
    && i < |w.writers| && w.writers[i].phase.Finished?
    && var me := w.writers[i];
       && me.phase.id == GenerationOf(me.identity, me.walk) == IdOf(w.t.generation)
       && Distinct(me.walk) && w.t.documents == MapOf(me.walk)
  }

  /** An update that reads its own target there has nothing to do. */
  lemma ReadLands(rules: Rules, w: World, i: nat, listing: seq<Document>)
    requires Reachable(rules, w) && i < |w.writers| && w.writers[i].phase.Reading? && Lists(listing, w.t.documents)
    ensures
      var w' := Step(rules, w, Read(i, listing));
      && i < |w'.writers| && (w'.writers[i].phase.Finished? || w'.writers[i].phase.Ready?)
      && w'.writers[i] == w.writers[i].(phase := w'.writers[i].phase)
      && (w'.writers[i].phase.Finished? ==> Landed(w', i))
      && (w'.writers[i].phase.Finished? <==>
            !w.writers[i].rebuild && IdOf(w.t.generation) == GenerationOf(w.writers[i].identity, w.writers[i].walk))
      && (w'.writers[i].phase.Ready? ==> w'.writers[i].phase.read == Stored(w.t.generation, listing))
  {
    ReachableInv(rules, w);
    var me := w.writers[i];
    assert WriterOk(rules, me);
    assert Step(rules, w, Read(i, listing)) == ReadStep(w, i, listing);
    if w.t.generation.Some? {
      AnyListingBuilt(rules, w.t, listing);
      SameIdSameDocuments(w.t.generation.value.identity, listing, me.identity, me.walk);
    }
  }

  lemma WritePhase(rules: Rules, w: World, i: nat, found: map<Source, Content>)
    requires Reachable(rules, w) && i < |w.writers| && w.writers[i].phase.Ready?
    ensures
      var w' := Step(rules, w, Write(i, found));
      && i < |w'.writers| && w'.writers[i] == w.writers[i].(phase := w'.writers[i].phase)
      && (w'.writers[i].phase.Finished? ==> Landed(w', i))
      && !w'.writers[i].phase.Ready?
  {
    ReadDistinct(rules, w, i);
    CommitLands(rules, w, i, found);
    WriteShape(rules, w, i, found);
  }

  lemma ReadDistinct(rules: Rules, w: World, i: nat)
    requires Reachable(rules, w) && i < |w.writers| && w.writers[i].phase.Ready?
    ensures Distinct(w.writers[i].phase.read.documents)
  {
    ReachableInv(rules, w);
    assert WriterOk(rules, w.writers[i]);
  }

  lemma WriteShape(rules: Rules, w: World, i: nat, found: map<Source, Content>)
    requires i < |w.writers| && w.writers[i].phase.Ready? && Distinct(w.writers[i].phase.read.documents)
    ensures
      var w' := Step(rules, w, Write(i, found));
      i < |w'.writers| && w'.writers[i] == w.writers[i].(phase := w'.writers[i].phase) && !w'.writers[i].phase.Ready?
  {}

  // ---- What each write of an update met ----

  /** At one step of a run an update wrote, on what it had read just before the others' last steps; and how that left it. */
  ghost predicate WroteAt(rules: Rules, trace: seq<Action>, at: nat, i: nat, round: Round, phase: Phase) {
    && |round.between| <= at < |trace| && trace[at] == Write(i, round.found)
    && trace[at - |round.between|..at] == round.between
    && var w := Run(rules, Start(), trace[..at]);
       && i < |w.writers| && w.writers[i].phase.Ready? && Distinct(w.writers[i].phase.read.documents)
       && w.writers[i].phase.read.generation == Run(rules, Start(), trace[..at - |round.between|]).t.generation
       && Ended(rules, w.t, w.writers[i], round.found, phase)
  }

  lemma StillWrote(rules: Rules, trace: seq<Action>, more: seq<Action>, at: nat, i: nat, round: Round, phase: Phase)
    requires WroteAt(rules, trace, at, i, round, phase)
    ensures WroteAt(rules, trace + more, at, i, round, phase)
  {
    assert (trace + more)[..at] == trace[..at] && (trace + more)[..at - |round.between|] == trace[..at - |round.between|];
    assert (trace + more)[at - |round.between|..at] == trace[at - |round.between|..at];
  }

  /** Nobody writes. */
  predicate Quiet(actions: seq<Action>) {
    forall k :: 0 <= k < |actions| ==> !actions[k].Write?
  }

  lemma {:induction false} QuietLeaves(rules: Rules, w: World, actions: seq<Action>)
    requires Quiet(actions)
    ensures Run(rules, w, actions).t == w.t
    decreases |actions|
  {
    if actions != [] {
      assert Quiet(actions[1..]);
      assert Step(rules, w, actions[0]).t == w.t;
      QuietLeaves(rules, Step(rules, w, actions[0]), actions[1..]);
    }
  }

  /** A write between whose read and itself nobody wrote, and that finds every file it adds as walked, is the last. */
  lemma QuietFinishes(rules: Rules, trace: seq<Action>, at: nat, i: nat, round: Round, phase: Phase)
    requires WroteAt(rules, trace, at, i, round, phase) && Quiet(round.between)
    requires
      var me := Run(rules, Start(), trace[..at]).writers[i];
      AllAddable(rules, HeldFor(me), me.walk, |me.walk|, round.found)
    ensures phase.Finished?
  {
    var read := at - |round.between|;
    assert trace[..at] == trace[..read] + round.between;
    RunAppends(rules, Start(), trace[..read], round.between);
    QuietLeaves(rules, Run(rules, Start(), trace[..read]), round.between);
  }

  /** How many of the writes met a file that had changed. */
  function StaleIn(endings: seq<Phase>): nat {
    if endings == [] then 0 else StaleIn(endings[..|endings| - 1]) + if Last(endings).Stale? then 1 else 0
  }

  /** Each of the writes sent the update round again, but for the last one where `last` allows. */
  predicate GoesRound(endings: seq<Phase>, last: bool) {
    forall k :: 0 <= k < |endings| - (if last then 1 else 0) ==> endings[k].Reading? || endings[k].Stale?
  }

  predicate NoneFinished(endings: seq<Phase>) {
    forall k :: 0 <= k < |endings| ==> !endings[k].Finished?
  }

  lemma GoesOn(endings: seq<Phase>, phase: Phase)
    requires GoesRound(endings, false)
    ensures GoesRound(endings, true) && GoesRound(endings + [phase], true) && NoneFinished(endings)
    ensures phase.Reading? || phase.Stale? ==> GoesRound(endings + [phase], false)
    ensures !phase.Finished? ==> NoneFinished(endings + [phase])
  {}

  /** One write a round, from the first round on, each in its place. */
  ghost predicate AllWrote(rules: Rules, trace: seq<Action>, from: nat, i: nat, rounds: seq<Round>, marks: seq<nat>, endings: seq<Phase>) {
    && |marks| == |endings| <= |rounds|
    && (forall k :: 0 <= k < |marks| ==> from <= marks[k] && WroteAt(rules, trace, marks[k], i, rounds[k], endings[k]))
    && (forall j, k :: 0 <= j < k < |marks| ==> marks[j] < marks[k])
  }

  lemma WroteMore(rules: Rules, trace: seq<Action>, more: seq<Action>, from: nat, i: nat, rounds: seq<Round>, marks: seq<nat>, endings: seq<Phase>)
    requires AllWrote(rules, trace, from, i, rounds, marks, endings)
    ensures AllWrote(rules, trace + more, from, i, rounds, marks, endings)
  {
    forall k | 0 <= k < |marks| ensures WroteAt(rules, trace + more, marks[k], i, rounds[k], endings[k]) {
      StillWrote(rules, trace, more, marks[k], i, rounds[k], endings[k]);
    }
  }

  /** The next round's write, after whatever came since the last. */
  lemma WroteOne(
    rules: Rules, trace: seq<Action>, longer: seq<Action>, from: nat, i: nat, rounds: seq<Round>, marks: seq<nat>, endings: seq<Phase>, phase: Phase)
    requires AllWrote(rules, trace, from, i, rounds, marks, endings) && |marks| < |rounds| && from <= |trace|
    requires trace <= longer && longer != [] && |trace| < |longer| && WroteAt(rules, longer, |longer| - 1, i, rounds[|marks|], phase)
    ensures AllWrote(rules, longer, from, i, rounds, marks + [|longer| - 1], endings + [phase])
    ensures StaleIn(endings + [phase]) == StaleIn(endings) + if phase.Stale? then 1 else 0
  {
    assert longer == trace + longer[|trace|..];
    WroteMore(rules, trace, longer[|trace|..], from, i, rounds, marks, endings);
    forall k | 0 <= k < |marks| ensures marks[k] < |longer| - 1 {
      assert WroteAt(rules, trace, marks[k], i, rounds[k], endings[k]);
    }
    assert (endings + [phase])[..|endings|] == endings;
  }

  lemma Parts(a: seq<Action>, b: seq<Action>)
    ensures (a + b)[..|a + b| - |b|] == a && (a + b)[|a + b| - |b|..] == b
  {}

  class Update {
    const rules: Rules
    var world: World

    constructor (r: Rules, w: World)
      ensures rules == r && world == w
    {
      rules, world := r, w;
    }

    method Do(ghost trace: seq<Action>, a: Action)
      requires world == Run(rules, Start(), trace)
      modifies this
      ensures world == Step(rules, old(world), a) && world == Run(rules, Start(), trace + [a])
    {
      RunAppends(rules, Start(), trace, [a]);
      assert Run(rules, world, [a]) == Step(rules, world, a);
      world := Step(rules, world, a);
    }

    method Meanwhile(ghost trace: seq<Action>, i: nat, others: seq<Action>)
      requires world == Run(rules, Start(), trace) && i < |world.writers| && Others(others, i)
      modifies this
      ensures world == Run(rules, Start(), trace + others)
      ensures i < |world.writers| && world.writers[i] == old(world.writers[i])
    {
      RunAppends(rules, Start(), trace, others);
      OthersLeaveMe(rules, world, others, i);
      world := Run(rules, world, others);
    }

    /** The read of a round, and everyone else's steps after it. */
    method Look(ghost trace: seq<Action>, i: nat, round: Round) returns (ghost longer: seq<Action>)
      requires world == Run(rules, Start(), trace) && i < |world.writers| && world.writers[i].phase.Reading?
      requires Others(round.before, i) && Others(round.between, i)
      modifies this
      ensures world == Run(rules, Start(), longer) && trace <= longer
      ensures i < |world.writers| && world.writers[i] == old(world.writers[i]).(phase := world.writers[i].phase)
      ensures world.writers[i].phase.Finished? ==> Landed(world, i)
      ensures !world.writers[i].phase.Finished? ==>
                && world.writers[i].phase.Ready? && |trace| + |round.between| <= |longer|
                && longer[|longer| - |round.between|..] == round.between
                && world.writers[i].phase.read.generation == Run(rules, Start(), longer[..|longer| - |round.between|]).t.generation
    {
      Meanwhile(trace, i, round.before);
      longer := trace + round.before;
      var listing := ListDocuments(world.t.documents);
      ReadLands(rules, world, i, listing);
      Do(longer, Read(i, listing));
      longer := longer + [Read(i, listing)];
      if world.writers[i].phase.Finished? { return; }
      ghost var read := longer;
      Meanwhile(longer, i, round.between);
      longer := longer + round.between;
      Parts(read, round.between);
    }

    /** The commit of a round, on what was read. */
    method Put(ghost trace: seq<Action>, i: nat, round: Round) returns (ghost longer: seq<Action>)
      requires world == Run(rules, Start(), trace) && i < |world.writers| && world.writers[i].phase.Ready?
      requires |round.between| <= |trace| && trace[|trace| - |round.between|..] == round.between
      requires world.writers[i].phase.read.generation == Run(rules, Start(), trace[..|trace| - |round.between|]).t.generation
      modifies this
      ensures world == Run(rules, Start(), longer) && longer == trace + [Write(i, round.found)]
      ensures i < |world.writers| && world.writers[i] == old(world.writers[i]).(phase := world.writers[i].phase)
      ensures world.writers[i].phase.Finished? ==> Landed(world, i)
      ensures !world.writers[i].phase.Ready? && WroteAt(rules, longer, |trace|, i, round, world.writers[i].phase)
    {
      WritePhase(rules, world, i, round.found);
      WriteEnds(rules, world, i, round.found);
      longer := trace + [Write(i, round.found)];
      assert longer[..|trace|] == trace && longer[..|trace| - |round.between|] == trace[..|trace| - |round.between|];
      assert longer[|trace| - |round.between|..|trace|] == trace[|trace| - |round.between|..];
      Do(trace, Write(i, round.found));
    }

    /** One round: done at its read, or a write and how it ended. */
    method Once(ghost trace: seq<Action>, i: nat, ghost from: nat, ghost rounds: seq<Round>, round: Round, ghost marks: seq<nat>, ghost endings: seq<Phase>)
      returns (ghost longer: seq<Action>, ghost marks': seq<nat>, ghost endings': seq<Phase>)
      requires world == Run(rules, Start(), trace) && i < |world.writers| && world.writers[i].phase.Reading?
      requires Others(round.before, i) && Others(round.between, i)
      requires AllWrote(rules, trace, from, i, rounds, marks, endings) && |marks| < |rounds| && from <= |trace| && round == rounds[|marks|]
      modifies this
      ensures world == Run(rules, Start(), longer) && |trace| <= |longer|
      ensures i < |world.writers| && world.writers[i] == old(world.writers[i]).(phase := world.writers[i].phase)
      ensures !world.writers[i].phase.Ready? && (world.writers[i].phase.Finished? ==> Landed(world, i))
      ensures AllWrote(rules, longer, from, i, rounds, marks', endings')
      ensures (endings' == endings && world.writers[i].phase.Finished?) || endings' == endings + [world.writers[i].phase]
      ensures StaleIn(endings') == StaleIn(endings) + if world.writers[i].phase.Stale? then 1 else 0
    {

      marks', endings' := marks, endings;
      longer := Look(trace, i, round);
      if world.writers[i].phase.Finished? {
        assert longer == trace + longer[|trace|..];
        WroteMore(rules, trace, longer[|trace|..], from, i, rounds, marks, endings);
        return;
      }
      longer := Put(longer, i, round);
      WroteOne(rules, trace, longer, from, i, rounds, marks, endings, world.writers[i].phase);
      marks', endings' := marks + [|longer| - 1], endings + [world.writers[i].phase];
    }

    /** A file changed: walk again, unless that is enough. */
    method AfterStale(
      ghost trace: seq<Action>, i: nat, walk: seq<Document>, enough: bool,
      ghost from: nat, ghost rounds: seq<Round>, ghost marks: seq<nat>, ghost endings: seq<Phase>) returns (ghost longer: seq<Action>)
      requires world == Run(rules, Start(), trace) && i < |world.writers| && world.writers[i].phase.Stale? && WalkOk(rules, walk)
      requires AllWrote(rules, trace, from, i, rounds, marks, endings)
      modifies this
      ensures world == Run(rules, Start(), longer) && |trace| <= |longer| && i < |world.writers|
      ensures
        var me := old(world.writers[i]);
        world.writers[i] == if enough then me.(phase := Failed) else me.(walk := walk, rewalks := me.rewalks + 1, phase := Reading)
      ensures AllWrote(rules, longer, from, i, rounds, marks, endings)
    {
      if enough {
        longer := LeaveOff(trace, i, from, rounds, marks, endings);
        return;
      }
      WroteMore(rules, trace, [Rewalk(i, walk)], from, i, rounds, marks, endings);
      Do(trace, Rewalk(i, walk));
      longer := trace + [Rewalk(i, walk)];
    }

    method LeaveOff(ghost trace: seq<Action>, i: nat, ghost from: nat, ghost rounds: seq<Round>, ghost marks: seq<nat>, ghost endings: seq<Phase>)
      returns (ghost longer: seq<Action>)
      requires world == Run(rules, Start(), trace) && i < |world.writers| && !world.writers[i].phase.Finished?
      requires AllWrote(rules, trace, from, i, rounds, marks, endings)
      modifies this
      ensures world == Run(rules, Start(), longer) && |trace| <= |longer| && i < |world.writers|
      ensures world.writers[i] == old(world.writers[i]).(phase := Failed)
      ensures AllWrote(rules, longer, from, i, rounds, marks, endings)
    {
      WroteMore(rules, trace, [GiveUp(i)], from, i, rounds, marks, endings);
      Do(trace, GiveUp(i));
      longer := trace + [GiveUp(i)];
    }

    /**
     * Brings the index to the walk, walking again for files that keep changing: for as long as its
     * deadline allows when it has one, and a set number of times when it has none. `marks` are its
     * writes in the trace, one a round, and `endings` how each left it. With no identifier returned, none
     * of them landed, and it is out of rounds, has met a file it cannot read, or has walked enough.
     */
    method BringUpToDate(ghost start: seq<Action>, i: nat, rounds: seq<Round>, bounded: bool)
      returns (id: Option<string>, ghost trace: seq<Action>, ghost marks: seq<nat>, ghost endings: seq<Phase>)
      requires world == Run(rules, Start(), start) && i < |world.writers| && world.writers[i].phase.Reading?
      requires forall k :: 0 <= k < |rounds| ==> Others(rounds[k].before, i) && Others(rounds[k].between, i)
      requires forall k :: 0 <= k < |rounds| ==> WalkOk(rules, rounds[k].next)
      modifies this
      ensures world == Run(rules, Start(), trace)
      ensures id.Some? ==> Landed(world, i) && id.value == world.writers[i].phase.id
      ensures id.None? ==> i < |world.writers| && world.writers[i].phase.Failed?
      ensures i < |world.writers| && (!bounded ==> world.writers[i].rewalks < old(world.writers[i].rewalks) + MAX_REWALKS)
      ensures AllWrote(rules, trace, |start|, i, rounds, marks, endings)
      ensures GoesRound(endings, true)
      ensures id.None? ==>
                && NoneFinished(endings)
                && (|marks| == |rounds| || (endings != [] && Last(endings).Failed?) || (!bounded && StaleIn(endings) == MAX_REWALKS))
    {
      trace, marks, endings := start, [], [];
      var rewalks := 0;
      for k := 0 to |rounds|
        invariant world == Run(rules, Start(), trace) && i < |world.writers| && world.writers[i].phase.Reading?
        invariant world.writers[i].rewalks == old(world.writers[i].rewalks) + rewalks && (!bounded ==> rewalks < MAX_REWALKS)
        invariant AllWrote(rules, trace, |start|, i, rounds, marks, endings) && |marks| == k && |start| <= |trace|
        invariant GoesRound(endings, false)
        invariant StaleIn(endings) == rewalks
      {
        ghost var before := endings;
        trace, marks, endings := Once(trace, i, |start|, rounds, rounds[k], marks, endings);
        var phase := world.writers[i].phase;
        GoesOn(before, phase);
        if phase.Finished? || phase.Failed? {
          id := if phase.Finished? then Some(phase.id) else None;
          return;
        }
        if phase.Stale? {
          rewalks := rewalks + 1;
          var enough := !bounded && rewalks >= MAX_REWALKS;
          trace := AfterStale(trace, i, rounds[k].next, enough, |start|, rounds, marks, endings);
          if enough { return None, trace, marks, endings; }
        }
      }
      trace := LeaveOff(trace, i, |start|, rounds, marks, endings);
      return None, trace, marks, endings;
    }
  }
}
