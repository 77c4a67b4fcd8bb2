/** How each write of an update ends, read off the stored identifier and the files as the write finds them. */
module IndexEndings {
  import opened Common
  import opened Generations
  import opened Index
  import opened IndexWorld

  /** The update adds the document: it adds them all, or the document is not held as it was walked. */
  predicate Owed(held: Option<map<Source, Digest>>, d: Document) {
    held.None? || !Unchanged(held.value, d)
  }

  /** The document's file is there, and holds what its walk found. */
  predicate Addable(rules: Rules, d: Document, found: map<Source, Content>) {
    d.source in found && Matches(rules, d, found[d.source])
  }

  /** Every document owed, of the first `n`, can be added. */
  predicate AllAddable(rules: Rules, held: Option<map<Source, Digest>>, walk: seq<Document>, n: nat, found: map<Source, Content>)
    requires n <= |walk|
  {
    forall k :: 0 <= k < n && Owed(held, walk[k]) ==> Addable(rules, walk[k], found)
  }

  /** The first document of a walk that is owed and cannot be added. */
  predicate StopsAt(rules: Rules, held: Option<map<Source, Digest>>, walk: seq<Document>, found: map<Source, Content>, k: nat) {
    k < |walk| && Owed(held, walk[k]) && !Addable(rules, walk[k], found) && AllAddable(rules, held, walk, k, found)
  }

  lemma {:induction false} StopsSomewhere(rules: Rules, held: Option<map<Source, Digest>>, walk: seq<Document>, n: nat, found: map<Source, Content>)
    returns (k: nat)
    requires n <= |walk| && !AllAddable(rules, held, walk, n, found)
    ensures StopsAt(rules, held, walk, found, k)
    decreases n
  {
    k := n - 1;
    if !AllAddable(rules, held, walk, n - 1, found) {
      k := StopsSomewhere(rules, held, walk, n - 1, found);
    }
  }

  /** Documents that can all be added are, if none is a duplicate. */
  lemma {:induction false} AddAllDone(rules: Rules, identity: string, t: Tables, add: seq<Document>, found: map<Source, Content>)
    requires !AddAll(rules, identity, t, add, found).Duplicate? && AllAddable(rules, None, add, |add|, found)
    ensures AddAll(rules, identity, t, add, found).Done?
    decreases |add|
  {
    if add != [] {
      var first := AddOne(rules, identity, t, add[0], found);
      assert Addable(rules, add[0], found);
      if first.Done? {
        AddAllDone(rules, identity, first.t, add[1..], found);
      }
    }
  }

  /** Adding one after another stops at the first that cannot be added, and says what it found. */
  lemma {:induction false} AddAllStops(rules: Rules, identity: string, t: Tables, add: seq<Document>, found: map<Source, Content>, k: nat)
    requires !AddAll(rules, identity, t, add, found).Duplicate? && StopsAt(rules, None, add, found, k)
    ensures AddAll(rules, identity, t, add, found) ==
            if add[k].source in found then ChangedFile(add[k].source) else Unreadable(add[k].source)
    decreases |add|
  {
    if k > 0 {
      assert Addable(rules, add[0], found);
      var first := AddOne(rules, identity, t, add[0], found);
      if first.Done? {
        AddAllStops(rules, identity, first.t, add[1..], found, k - 1);
      }
    }
  }

  /** What a difference adds stops where the walk does. */
  lemma {:induction false} AddedStops(rules: Rules, held: map<Source, Digest>, walk: seq<Document>, found: map<Source, Content>, k: nat)
    returns (m: nat)
    requires StopsAt(rules, Some(held), walk, found, k)
    ensures StopsAt(rules, None, Added(held, walk), found, m) && Added(held, walk)[m] == walk[k]
  {
    var n := |walk| - 1;
    if k < n {
      m := AddedStops(rules, held, walk[..n], found, k);
      AddedExtends(held, walk);
    } else {
      m := |Added(held, walk[..n])|;
      AddedAddable(rules, held, walk[..n], found);
    }
  }

  lemma AddedExtends(held: map<Source, Digest>, walk: seq<Document>)
    requires walk != []
    ensures Added(held, walk[..|walk| - 1]) <= Added(held, walk)
  {}

  lemma AddedAddable(rules: Rules, held: map<Source, Digest>, walk: seq<Document>, found: map<Source, Content>)
    requires AllAddable(rules, Some(held), walk, |walk|, found)
    ensures AllAddable(rules, None, Added(held, walk), |Added(held, walk)|, found)
  {
    var add := Added(held, walk);
    forall j | 0 <= j < |add| ensures Addable(rules, add[j], found) {
      assert add[j] in add;
      var x :| 0 <= x < |walk| && walk[x] == add[j];
    }
  }

  /** What an update knows to be held: nothing it can use when it starts afresh. */
  function HeldFor(me: Writer): Option<map<Source, Digest>>
    requires me.phase.Ready? && Distinct(me.phase.read.documents)
  {
    var read := me.phase.read;
    if me.rebuild || read.generation.None? || read.generation.value.identity != me.identity then None else Some(MapOf(read.documents))
  }

  /** Where an update is left by its write, the stored identifier and the files being as they are. */
  ghost predicate Ended(rules: Rules, t: Tables, me: Writer, found: map<Source, Content>, phase: Phase)
    requires me.phase.Ready? && Distinct(me.phase.read.documents)
  {
    if IdOf(t.generation) != IdOf(me.phase.read.generation) then phase.Reading?
    else if AllAddable(rules, HeldFor(me), me.walk, |me.walk|, found) then phase.Finished?
    else exists k: nat :: StopsAt(rules, HeldFor(me), me.walk, found, k) && if me.walk[k].source in found then phase.Stale? else phase.Failed?
  }

  function ChangeOf(me: Writer): Change
    requires me.phase.Ready? && Distinct(me.phase.read.documents)
  {
    Difference(me.identity, me.phase.read, me.walk, me.rebuild)
  }

  /** What applying a difference comes to, if it meets no duplicate. */
  lemma ApplyEnds(rules: Rules, t: Tables, me: Writer, found: map<Source, Content>)
    requires me.phase.Ready? && Distinct(me.phase.read.documents) && !ApplyChange(rules, me.identity, t, ChangeOf(me), found).Duplicate?
    ensures
      var r := ApplyChange(rules, me.identity, t, ChangeOf(me), found);
      if AllAddable(rules, HeldFor(me), me.walk, |me.walk|, found) then r.Done?
      else exists k: nat :: StopsAt(rules, HeldFor(me), me.walk, found, k) && if me.walk[k].source in found then r.ChangedFile? else r.Unreadable?
  {
    var held, diff := HeldFor(me), ChangeOf(me);
    var emptied := RemoveAll(if diff.everything then t.(documents := map[], rows := []) else t, diff.remove);
    if AllAddable(rules, held, me.walk, |me.walk|, found) {
      if held.Some? { AddedAddable(rules, held.value, me.walk, found); }
      AddAllDone(rules, me.identity, emptied, diff.add, found);
    } else {
      var k := StopsSomewhere(rules, held, me.walk, |me.walk|, found);
      var m := k;
      if held.Some? { m := AddedStops(rules, held.value, me.walk, found, k); }
      AddAllStops(rules, me.identity, emptied, diff.add, found, m);
    }
  }

  /** The phase a write leaves, by what applying its difference comes to. */
  lemma WriteShows(rules: Rules, w: World, i: nat, found: map<Source, Content>)
    requires i < |w.writers| && w.writers[i].phase.Ready? && Distinct(w.writers[i].phase.read.documents)
    ensures
      var me, w' := w.writers[i], Step(rules, w, Write(i, found));
      var r := ApplyChange(rules, me.identity, w.t, ChangeOf(me), found);
      && i < |w'.writers|
      && if IdOf(w.t.generation) != IdOf(me.phase.read.generation) then w'.writers[i].phase.Reading?
         else match r
              case Done(_) => w'.writers[i].phase.Finished?
              case ChangedFile(_) => w'.writers[i].phase.Stale?
              case _ => w'.writers[i].phase.Failed?
  {}

  /**
   * After its write an update reads again exactly if the stored identifier is not the one it read. If it
   * is, the update is done exactly if every document it adds is there as walked, walks again exactly if
   * the first that is not is a file that changed, and fails exactly if it is one that cannot be read.
   */
  lemma WriteEnds(rules: Rules, w: World, i: nat, found: map<Source, Content>)
    requires Reachable(rules, w) && i < |w.writers| && w.writers[i].phase.Ready?
    ensures Distinct(w.writers[i].phase.read.documents)
    ensures i < |Step(rules, w, Write(i, found)).writers|
    ensures Ended(rules, w.t, w.writers[i], found, Step(rules, w, Write(i, found)).writers[i].phase)
  {
    var me := w.writers[i];
    NoDuplicate(rules, w, i, found);
    WriteShows(rules, w, i, found);
    if IdOf(w.t.generation) == IdOf(me.phase.read.generation) {
      ApplyEnds(rules, w.t, me, found);
    }
  }

  lemma NoDuplicate(rules: Rules, w: World, i: nat, found: map<Source, Content>)
    requires Reachable(rules, w) && i < |w.writers| && w.writers[i].phase.Ready?
    ensures
      var me := w.writers[i];
      && Distinct(me.phase.read.documents)
      && (IdOf(w.t.generation) == IdOf(me.phase.read.generation) ==>
            !ApplyChange(rules, me.identity, w.t, ChangeOf(me), found).Duplicate?)
  {
    ReachableInv(rules, w);
    assert WriterOk(rules, w.writers[i]);
    CommitExact(rules, w.t, w.writers[i], found);
  }
}
