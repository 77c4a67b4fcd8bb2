/**
 * Any number of updates of one index, under any configurations, each reading, working out its
 * difference and committing while the others do the same.
 */
module IndexWorld {
  import opened Common
  import opened Generations
  import opened Index

  /** Where an update is: to read, to commit what it read, to walk again, or at its end. */
  datatype Phase = Reading | Ready(read: Stored) | Stale | Finished(id: string) | Failed

  datatype Writer = Writer(identity: string, walk: seq<Document>, rebuild: bool, rewalks: nat, phase: Phase)

  datatype World = World(t: Tables, writers: seq<Writer>)

  /** `found` is what each file holds as the commit reads it again. */
  datatype Action =
    | Begin(identity: string, walk: seq<Document>, rebuild: bool)
    | Read(i: nat, listing: seq<Document>)
    | Write(i: nat, found: map<Source, Content>)
    | Rewalk(i: nat, walk: seq<Document>)
    | GiveUp(i: nat)

  function Start(): World { World(Blank(), []) }

  /** A walk's sources are distinct paths, and its digests those of contents. */
  predicate WalkOk(rules: Rules, walk: seq<Document>) {
    Distinct(walk) && AllWellFormed(walk) && forall k :: 0 <= k < |walk| ==> walk[k].digest in rules.contents
  }

  predicate Lists(listing: seq<Document>, documents: map<Source, Digest>) {
    Distinct(listing) && MapOf(listing) == documents
  }

  function SetPhase(w: World, i: nat, phase: Phase): World
    requires i < |w.writers|
  {
    w.(writers := w.writers[i := w.writers[i].(phase := phase)])
  }

  /** One read transaction. An update that finds its target there already is done. */
  function ReadStep(w: World, i: nat, listing: seq<Document>): World
    requires i < |w.writers|
  {
    var me := w.writers[i];
    var target := GenerationOf(me.identity, me.walk);
    if !me.rebuild && IdOf(w.t.generation) == target then SetPhase(w, i, Finished(target))
    else SetPhase(w, i, Ready(Stored(w.t.generation, listing)))
  }

  /** One write transaction, on what was read. */
  function WriteStep(rules: Rules, w: World, i: nat, found: map<Source, Content>): World
    requires i < |w.writers| && w.writers[i].phase.Ready? && Distinct(w.writers[i].phase.read.documents)
  {
    var me := w.writers[i];
    var target := GenerationOf(me.identity, me.walk);
    var diff := Difference(me.identity, me.phase.read, me.walk, me.rebuild);
    var (t, outcome) := Commit(rules, me.identity, w.t, IdOf(me.phase.read.generation), diff, target, found);
    SetPhase(w.(t := t), i,
             match outcome
             case Committed => Finished(target)
             case Moved => Reading
             case NotApplied(ChangedFile(_)) => Stale
             case NotApplied(_) => Failed)
  }

  function Step(rules: Rules, w: World, a: Action): World {
    match a
    case Begin(identity, walk, rebuild) =>
      if |identity| == DIGEST_LENGTH && WalkOk(rules, walk)
      then w.(writers := w.writers + [Writer(identity, walk, rebuild, 0, Reading)]) else w
    case Read(i, listing) =>
      if i < |w.writers| && w.writers[i].phase.Reading? && Lists(listing, w.t.documents) then ReadStep(w, i, listing) else w
    case Write(i, found) =>
      if i < |w.writers| && w.writers[i].phase.Ready? && Distinct(w.writers[i].phase.read.documents)
      then WriteStep(rules, w, i, found) else w
    case Rewalk(i, walk) =>
      if i < |w.writers| && w.writers[i].phase.Stale? && WalkOk(rules, walk)
      then w.(writers := w.writers[i := w.writers[i].(walk := walk, rewalks := w.writers[i].rewalks + 1, phase := Reading)]) else w
    case GiveUp(i) => if i < |w.writers| && !w.writers[i].phase.Finished? then SetPhase(w, i, Failed) else w
  }

  function Run(rules: Rules, w: World, actions: seq<Action>): World
    decreases |actions|
  {
    if actions == [] then w else Run(rules, Step(rules, w, actions[0]), actions[1..])
  }

  ghost predicate Reachable(rules: Rules, w: World) {
    exists actions: seq<Action> :: w == Run(rules, Start(), actions)
  }

  // ---- Rows by source ----

  function Of(rows: seq<Row>, s: Source): seq<Row> {
    if rows == [] then [] else Of(rows[..|rows| - 1], s) + if Last(rows).source == s then [Last(rows)] else []
  }

  lemma {:induction false} OfWithout(rows: seq<Row>, gone: Source, s: Source)
    ensures Of(WithoutSource(rows, gone), s) == if s == gone then [] else Of(rows, s)
  {
    if rows != [] {
      var front := rows[..|rows| - 1];
      OfWithout(front, gone, s);
      var kept := WithoutSource(front, gone);
      assert (kept + [Last(rows)])[..|kept|] == kept && kept + [] == kept;
    }
  }

  lemma {:induction false} OfAppends(rows: seq<Row>, more: seq<Row>, s: Source)
    ensures Of(rows + more, s) == Of(rows, s) + Of(more, s)
  {
    if more == [] {
      assert rows + more == rows;
    } else {
      OfAppends(rows, more[..|more| - 1], s);
      assert (rows + more)[..|rows + more| - 1] == rows + more[..|more| - 1];
    }
  }

  lemma {:induction false} OfOne(rows: seq<Row>, own: Source, s: Source)
    requires forall k :: 0 <= k < |rows| ==> rows[k].source == own
    ensures Of(rows, s) == if s == own then rows else []
  {
    if rows != [] {
      OfOne(rows[..|rows| - 1], own, s);
    }
  }

  // ---- What an index holds ----

  /** The rows a document's own content is cut into. */
  function Wanted(rules: Rules, identity: string, documents: map<Source, Digest>, s: Source): seq<Row> {
    if s in documents && documents[s] in rules.contents then RowsOfPieces(s, rules.cut(identity, rules.contents[documents[s]])) else []
  }

  ghost predicate RowsExact(rules: Rules, identity: string, t: Tables) {
    forall s: Source :: Of(t.rows, s) == Wanted(rules, identity, t.documents, s)
  }

  lemma RemoveExact(rules: Rules, identity: string, t: Tables, gone: Source)
    requires RowsExact(rules, identity, t)
    ensures RowsExact(rules, identity, RemoveOne(t, gone))
  {
    forall s: Source ensures Of(RemoveOne(t, gone).rows, s) == Wanted(rules, identity, RemoveOne(t, gone).documents, s) {
      OfWithout(t.rows, gone, s);
    }
  }

  lemma {:induction false} RemoveAllExact(rules: Rules, identity: string, t: Tables, sources: seq<Source>)
    requires RowsExact(rules, identity, t)
    ensures RowsExact(rules, identity, RemoveAll(t, sources))
    ensures RemoveAll(t, sources).documents == t.documents - (set s | s in sources)
  {
    if sources != [] {
      var front := sources[..|sources| - 1];
      assert sources == front + [Last(sources)];
      RemoveAllExact(rules, identity, t, front);
      RemoveExact(rules, identity, RemoveAll(t, front), Last(sources));
    }
  }

  lemma AddExact(rules: Rules, identity: string, t: Tables, d: Document, found: map<Source, Content>)
    requires RowsExact(rules, identity, t) && AddOne(rules, identity, t, d, found).Done?
    ensures RowsExact(rules, identity, AddOne(rules, identity, t, d, found).t)
  {
    var t' := AddOne(rules, identity, t, d, found).t;
    var more := RowsOfPieces(d.source, rules.cut(identity, found[d.source]));
    forall s: Source ensures Of(t'.rows, s) == Wanted(rules, identity, t'.documents, s) {
      OfAppends(t.rows, more, s);
      OfOne(more, d.source, s);
    }
  }

  /** Documents new to the index all go in, each under its own digest. */
  ghost predicate Adds(t: Tables, t': Tables, add: seq<Document>) {
    && (forall k :: 0 <= k < |add| ==> add[k].source in t'.documents && t'.documents[add[k].source] == add[k].digest)
    && (forall s :: s in t.documents ==> s in t'.documents && t'.documents[s] == t.documents[s])
    && (forall s :: s in t'.documents ==> s in t.documents || exists k :: 0 <= k < |add| && add[k].source == s)
  }

  lemma {:induction false} AddAllExact(rules: Rules, identity: string, t: Tables, add: seq<Document>, found: map<Source, Content>)
    requires RowsExact(rules, identity, t) && Distinct(add)
    requires forall k :: 0 <= k < |add| ==> add[k].source !in t.documents
    ensures !AddAll(rules, identity, t, add, found).Duplicate?
    ensures
      var r := AddAll(rules, identity, t, add, found);
      r.Done? ==> RowsExact(rules, identity, r.t) && Adds(t, r.t, add)
    decreases |add|
  {
    if add != [] {
      var first := AddOne(rules, identity, t, add[0], found);
      if first.Done? {
        AddExact(rules, identity, t, add[0], found);
        AddAllExact(rules, identity, first.t, add[1..], found);
        var r := AddAll(rules, identity, first.t, add[1..], found);
        if r.Done? {
          AddsFirst(t, first.t, r.t, add);
        }
      }
    }
  }

  lemma AddsFirst(t: Tables, mid: Tables, t': Tables, add: seq<Document>)
    requires add != [] && add[0].source !in t.documents && Distinct(add)
    requires mid.documents == t.documents[add[0].source := add[0].digest] && Adds(mid, t', add[1..])
    ensures Adds(t, t', add)
  {
    forall k | 0 <= k < |add| ensures add[k].source in t'.documents && t'.documents[add[k].source] == add[k].digest {
      if k > 0 { assert add[1..][k - 1] == add[k]; }
    }
    forall s | s in t'.documents ensures s in t.documents || exists k :: 0 <= k < |add| && add[k].source == s {
      if s !in mid.documents {
        var k :| 0 <= k < |add[1..]| && add[1..][k].source == s;
        assert add[k + 1].source == s;
      } else if s !in t.documents {
        assert add[0].source == s;
      }
    }
  }

  lemma {:induction false} AddedDistinct(held: map<Source, Digest>, walk: seq<Document>)
    requires Distinct(walk)
    ensures Distinct(Added(held, walk))
  {
    if walk != [] {
      var front := walk[..|walk| - 1];
      AddedDistinct(held, front);
      var rest := Added(held, front);
      forall k | 0 <= k < |rest| ensures rest[k].source != Last(walk).source {
        assert rest[k] in rest;
        assert rest[k] in front;
      }
    }
  }

  /** What one transaction does to an index exactly as it was read: it holds the walk, whatever it held. */
  lemma ApplyExact(
    rules: Rules, identity: string, t: Tables, read: Stored, walk: seq<Document>, rebuild: bool, found: map<Source, Content>)
    requires WalkOk(rules, walk) && Lists(read.documents, t.documents) && read.generation == t.generation
    requires read.generation.Some? ==> RowsExact(rules, read.generation.value.identity, t)
    ensures
      var r := ApplyChange(rules, identity, t, Difference(identity, read, walk, rebuild), found);
      !r.Duplicate? && (r.Done? ==> RowsExact(rules, identity, r.t) && r.t.documents == MapOf(walk))
  {
    var diff := Difference(identity, read, walk, rebuild);
    var emptied := if diff.everything then t.(documents := map[], rows := []) else t;
    RemoveAllExact(rules, identity, emptied, diff.remove);
    var removed := RemoveAll(emptied, diff.remove);
    if !diff.everything {
      AddedDistinct(t.documents, walk);
      NewToIndex(t, read, walk, diff);
    }
    AddAllExact(rules, identity, removed, diff.add, found);
    var r := AddAll(rules, identity, removed, diff.add, found);
    if r.Done? {
      HoldsWalk(t, removed, r.t, read, walk, diff);
    }
  }

  /** What is left after the removals is what the walk found unchanged. */
  lemma NewToIndex(t: Tables, read: Stored, walk: seq<Document>, diff: Change)
    requires Distinct(walk) && Lists(read.documents, t.documents)
    requires diff == Change(false, Replaced(t.documents, walk) + Gone(SourcesOf(walk), read.documents), Added(t.documents, walk))
    ensures forall s :: s in t.documents && s !in diff.remove ==> Document(s, t.documents[s]) in walk
    ensures forall d :: d in walk && Unchanged(t.documents, d) ==> d.source !in diff.remove
    ensures forall k :: 0 <= k < |diff.add| ==> diff.add[k].source !in t.documents - (set s | s in diff.remove)
  {
    forall s | s in t.documents && s !in diff.remove ensures Document(s, t.documents[s]) in walk {
      var k :| 0 <= k < |read.documents| && read.documents[k].source == s;
      assert read.documents[k] in read.documents;
      assert s in SourcesOf(walk);
      var d :| d in walk && d.source == s;
      assert s !in Replaced(t.documents, walk);
      assert d == Document(s, t.documents[s]);
    }
    forall d | d in walk && Unchanged(t.documents, d) ensures d.source !in diff.remove {
      SameSource(walk, d);
    }
    forall k | 0 <= k < |diff.add| ensures diff.add[k].source !in t.documents - (set s | s in diff.remove) {
      var d := diff.add[k];
      assert d in diff.add;
      if d.source in t.documents {
        assert d.source in Replaced(t.documents, walk);
      }
    }
  }

  lemma SameSource(walk: seq<Document>, d: Document)
    requires Distinct(walk) && d in walk
    ensures forall e :: e in walk && e.source == d.source ==> e == d
  {
    var i :| 0 <= i < |walk| && walk[i] == d;
    forall e | e in walk && e.source == d.source ensures e == d {
      var j :| 0 <= j < |walk| && walk[j] == e;
    }
  }

  lemma HoldsWalk(t: Tables, removed: Tables, t': Tables, read: Stored, walk: seq<Document>, diff: Change)
    requires Distinct(walk) && Lists(read.documents, t.documents)
    requires diff == Change(true, [], walk)
             || diff == Change(false, Replaced(t.documents, walk) + Gone(SourcesOf(walk), read.documents), Added(t.documents, walk))
    requires removed.documents == (if diff.everything then map[] else t.documents - (set s | s in diff.remove))
    requires Adds(removed, t', diff.add)
    ensures t'.documents == MapOf(walk)
  {
    if !diff.everything {
      NewToIndex(t, read, walk, diff);
    }
    forall d | d in walk ensures d.source in t'.documents && t'.documents[d.source] == d.digest {
      if d in diff.add {
        var j :| 0 <= j < |diff.add| && diff.add[j] == d;
      } else {
        assert d.source in removed.documents;
      }
    }
    forall s | s in t'.documents ensures exists d :: d in walk && d.source == s {
      if s in removed.documents {
        assert Document(s, t.documents[s]) in walk;
      } else {
        var k :| 0 <= k < |diff.add| && diff.add[k].source == s;
        assert diff.add[k] in diff.add;
      }
    }
    IsMapOf(t'.documents, walk);
  }

  lemma IsMapOf(m: map<Source, Digest>, walk: seq<Document>)
    requires Distinct(walk) && forall d :: d in walk ==> d.source in m && m[d.source] == d.digest
    requires forall s :: s in m ==> exists d :: d in walk && d.source == s
    ensures m == MapOf(walk)
  {
    forall s | s in m ensures s in MapOf(walk) && MapOf(walk)[s] == m[s] {
      var d :| d in walk && d.source == s;
      var k :| 0 <= k < |walk| && walk[k] == d;
    }
    forall s | s in MapOf(walk) ensures s in m {
      var k :| 0 <= k < |walk| && walk[k].source == s;
      assert walk[k] in walk;
    }
  }

  // ---- What every step keeps ----

  ghost predicate Built(g: Generation, ds: seq<Document>, documents: map<Source, Digest>) {
    Lists(ds, documents) && AllWellFormed(ds) && g.id == GenerationOf(g.identity, ds)
  }

  /** An index holds nothing, or exactly what its generation was built from. */
  ghost predicate IndexOk(rules: Rules, t: Tables) {
    match t.generation
    case None => t.documents == map[] && t.rows == []
    case Some(g) =>
      && |g.identity| == DIGEST_LENGTH && RowsExact(rules, g.identity, t)
      && (forall s :: s in t.documents ==> t.documents[s] in rules.contents)
      && exists ds :: Built(g, ds, t.documents)
  }

  /** What was read was a generation and the documents it was built from. */
  ghost predicate ReadOk(read: Stored) {
    match read.generation
    case None => read.documents == []
    case Some(g) => |g.identity| == DIGEST_LENGTH && Built(g, read.documents, MapAnyway(read.documents))
  }

  ghost function MapAnyway(ds: seq<Document>): map<Source, Digest> {
    if Distinct(ds) then MapOf(ds) else map[]
  }

  ghost predicate WriterOk(rules: Rules, me: Writer) {
    && |me.identity| == DIGEST_LENGTH && WalkOk(rules, me.walk)
    && (me.phase.Ready? ==> ReadOk(me.phase.read))
  }

  ghost predicate Inv(rules: Rules, w: World) {
    IndexOk(rules, w.t) && forall i :: 0 <= i < |w.writers| ==> WriterOk(rules, w.writers[i])
  }

  /** An index found with the identifier that was read holds the documents that were read, wherever it has been since. */
  lemma SameIdSameIndex(rules: Rules, t: Tables, read: Stored)
    requires IndexOk(rules, t) && ReadOk(read) && IdOf(t.generation) == IdOf(read.generation)
    ensures t.generation == read.generation && Lists(read.documents, t.documents)
  {
    if t.generation.Some? {
      var g :| t.generation == Some(g);
      var ds :| Built(g, ds, t.documents);
      if read.generation.Some? {
        SameIdSameDocuments(g.identity, ds, read.generation.value.identity, read.documents);
      }
    } else if read.generation.None? {
      assert MapOf(read.documents) == map[];
    }
  }

  lemma AnyListingBuilt(rules: Rules, t: Tables, listing: seq<Document>)
    requires IndexOk(rules, t) && t.generation.Some? && Lists(listing, t.documents)
    ensures Built(t.generation.value, listing, t.documents)
  {
    var g := t.generation.value;
    var ds :| Built(g, ds, t.documents);
    SameMapSameSet(ds, listing);
    forall k | 0 <= k < |listing| ensures WellFormed(listing[k]) {
      assert listing[k] in listing;
      assert listing[k] in ds;
    }
    SameIdSameDocuments(g.identity, ds, g.identity, listing);
  }

  /** An update moved on, over the same index. */
  lemma WriterKeeps(rules: Rules, w: World, i: nat, me: Writer)
    requires Inv(rules, w) && i < |w.writers| && WriterOk(rules, me)
    ensures Inv(rules, w.(writers := w.writers[i := me]))
  {}

  lemma ReadIsOk(rules: Rules, t: Tables, listing: seq<Document>)
    requires IndexOk(rules, t) && Lists(listing, t.documents)
    ensures ReadOk(Stored(t.generation, listing))
  {
    if t.generation.Some? {
      AnyListingBuilt(rules, t, listing);
    }
  }

  lemma ReadKeeps(rules: Rules, w: World, i: nat, listing: seq<Document>)
    requires Inv(rules, w) && i < |w.writers| && Lists(listing, w.t.documents)
    ensures Inv(rules, ReadStep(w, i, listing))
  {
    var me := w.writers[i];
    assert WriterOk(rules, me);
    ReadIsOk(rules, w.t, listing);
    WriterKeeps(rules, w, i, me.(phase := Finished(GenerationOf(me.identity, me.walk))));
    WriterKeeps(rules, w, i, me.(phase := Ready(Stored(w.t.generation, listing))));
  }

  /** A commit on what was read moves the index to exactly its own walk, or moves nothing. */
  lemma CommitExact(rules: Rules, t: Tables, me: Writer, found: map<Source, Content>)
    requires IndexOk(rules, t) && WriterOk(rules, me) && me.phase.Ready?
    ensures Distinct(me.phase.read.documents)
    ensures
      var target := GenerationOf(me.identity, me.walk);
      var diff := Difference(me.identity, me.phase.read, me.walk, me.rebuild);
      var (t', outcome) := Commit(rules, me.identity, t, IdOf(me.phase.read.generation), diff, target, found);
      && IndexOk(rules, t')
      && (outcome.Committed? ==> t'.documents == MapOf(me.walk) && t'.generation == Some(Generation(target, me.identity)))
      && (!outcome.Committed? ==> t' == t)
      && !(outcome.NotApplied? && outcome.why.Duplicate?)
  {
    var read := me.phase.read;
    if IdOf(t.generation) == IdOf(read.generation) {
      SameIdSameIndex(rules, t, read);
      ApplyExact(rules, me.identity, t, read, me.walk, me.rebuild, found);
      assert Built(Generation(GenerationOf(me.identity, me.walk), me.identity), me.walk, MapOf(me.walk));
      WalkKnown(rules, me.walk);
    }
  }

  lemma WalkKnown(rules: Rules, walk: seq<Document>)
    requires WalkOk(rules, walk)
    ensures forall s :: s in MapOf(walk) ==> MapOf(walk)[s] in rules.contents
  {
    forall s | s in MapOf(walk) ensures MapOf(walk)[s] in rules.contents {
      var k :| 0 <= k < |walk| && walk[k].source == s;
    }
  }

  lemma WriteKeeps(rules: Rules, w: World, i: nat, found: map<Source, Content>)
    requires Inv(rules, w) && i < |w.writers| && w.writers[i].phase.Ready?
    ensures Distinct(w.writers[i].phase.read.documents) && Inv(rules, WriteStep(rules, w, i, found))
  {
    assert WriterOk(rules, w.writers[i]);
    CommitExact(rules, w.t, w.writers[i], found);
  }

  lemma StepKeeps(rules: Rules, w: World, a: Action)
    requires Inv(rules, w)
    ensures Inv(rules, Step(rules, w, a))
  {
    if a.Begin? {
    } else if a.i < |w.writers| {
      var me := w.writers[a.i];
      assert WriterOk(rules, me);
      if a.Read? && me.phase.Reading? && Lists(a.listing, w.t.documents) {
        ReadKeeps(rules, w, a.i, a.listing);
      } else if a.Write? && me.phase.Ready? {
        WriteKeeps(rules, w, a.i, a.found);
      } else if a.Rewalk? && WalkOk(rules, a.walk) {
        WriterKeeps(rules, w, a.i, me.(walk := a.walk, rewalks := me.rewalks + 1, phase := Reading));
      } else if a.GiveUp? {
        WriterKeeps(rules, w, a.i, me.(phase := Failed));
      }
    }
  }

  lemma {:induction false} RunKeeps(rules: Rules, w: World, actions: seq<Action>)
    requires Inv(rules, w)
    ensures Inv(rules, Run(rules, w, actions))
    decreases |actions|
  {
    if actions != [] {
      StepKeeps(rules, w, actions[0]);
      RunKeeps(rules, Step(rules, w, actions[0]), actions[1..]);
    }
  }

  lemma ReachableInv(rules: Rules, w: World)
    requires Reachable(rules, w)
    ensures Inv(rules, w)
  {
    var actions: seq<Action> :| w == Run(rules, Start(), actions);
    RunKeeps(rules, Start(), actions);
  }
}
