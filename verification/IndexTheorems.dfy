/** What the index promises, however its updates interleave; and the update's own loop. */
module IndexTheorems {
  import opened Common
  import opened Generations
  import opened Index
  import opened IndexWorld

  // ---- Equal to a rebuild ----

  lemma {:induction false} CountOf(rows: seq<Row>, row: Row)
    ensures multiset(rows)[row] == multiset(Of(rows, row.source))[row]
  {
    if rows != [] {
      var front := rows[..|rows| - 1];
      CountOf(front, row);
      assert rows == front + [Last(rows)];
    }
  }

  /** Rows that agree source by source are the same rows. */
  lemma SameRows(a: seq<Row>, b: seq<Row>)
    requires forall s: Source :: Of(a, s) == Of(b, s)
    ensures multiset(a) == multiset(b)
  {
    forall row: Row ensures multiset(a)[row] == multiset(b)[row] {
      CountOf(a, row);
      CountOf(b, row);
    }
  }

  /** Every listed document's content. */
  function ContentsOf(rules: Rules, listing: seq<Document>): map<Source, Content>
    requires Distinct(listing) && forall k :: 0 <= k < |listing| ==> listing[k].digest in rules.contents
  {
    map k | 0 <= k < |listing| :: listing[k].source := rules.contents[listing[k].digest]
  }

  lemma {:induction false} AllAdded(rules: Rules, identity: string, t: Tables, add: seq<Document>, found: map<Source, Content>)
    requires Distinct(add) && forall k :: 0 <= k < |add| ==> add[k].source !in t.documents
    requires forall k :: 0 <= k < |add| ==> add[k].source in found && Matches(rules, add[k], found[add[k].source])
    ensures AddAll(rules, identity, t, add, found).Done?
    decreases |add|
  {
    if add != [] {
      AllAdded(rules, identity, AddOne(rules, identity, t, add[0], found).t, add[1..], found);
    }
  }

  /**
   * Whatever updates ran, in whatever interleaving, an index holds the documents and the passages a
   * rebuild from its generation's documents would hold, over whatever was there before.
   */
  lemma EqualsRebuild(rules: Rules, w: World, listing: seq<Document>, before: Tables)
    requires Reachable(rules, w) && w.t.generation.Some? && Lists(listing, w.t.documents)
    ensures w.t.generation.value.id == GenerationOf(w.t.generation.value.identity, listing)
    ensures forall k :: 0 <= k < |listing| ==> listing[k].digest in rules.contents
    ensures
      var r := ApplyChange(rules, w.t.generation.value.identity, before, Change(true, [], listing), ContentsOf(rules, listing));
      r.Done? && r.t.documents == w.t.documents && multiset(r.t.rows) == multiset(w.t.rows)
  {
    ReachableInv(rules, w);
    AnyListingBuilt(rules, w.t, listing);
    var identity := w.t.generation.value.identity;
    forall k | 0 <= k < |listing| ensures listing[k].digest in rules.contents {
      assert listing[k].source in MapOf(listing);
    }
    RebuildExact(rules, identity, before, listing);
    ExactTwice(rules, identity, w.t, ApplyChange(rules, identity, before, Change(true, [], listing), ContentsOf(rules, listing)).t);
  }

  lemma ExactTwice(rules: Rules, identity: string, a: Tables, b: Tables)
    requires RowsExact(rules, identity, a) && RowsExact(rules, identity, b) && a.documents == b.documents
    ensures multiset(a.rows) == multiset(b.rows)
  {
    forall s: Source ensures Of(a.rows, s) == Of(b.rows, s) {
      assert Of(a.rows, s) == Wanted(rules, identity, a.documents, s);
    }
    SameRows(a.rows, b.rows);
  }

  /** A rebuild holds its documents and their rows, whatever was there. */
  lemma RebuildExact(rules: Rules, identity: string, before: Tables, listing: seq<Document>)
    requires Distinct(listing) && forall k :: 0 <= k < |listing| ==> listing[k].digest in rules.contents
    ensures
      var r := ApplyChange(rules, identity, before, Change(true, [], listing), ContentsOf(rules, listing));
      r.Done? && RowsExact(rules, identity, r.t) && r.t.documents == MapOf(listing)
  {
    var emptied := before.(documents := map[], rows := []);
    var found := ContentsOf(rules, listing);
    AllAdded(rules, identity, emptied, listing, found);
    AddAllExact(rules, identity, emptied, listing, found);
    assert RemoveAll(emptied, []) == emptied;
    OnlyAdds(emptied, AddAll(rules, identity, emptied, listing, found).t, listing);
  }

  lemma OnlyAdds(emptied: Tables, t': Tables, listing: seq<Document>)
    requires Distinct(listing) && emptied.documents == map[] && Adds(emptied, t', listing)
    ensures t'.documents == MapOf(listing)
  {
    forall d | d in listing ensures d.source in t'.documents && t'.documents[d.source] == d.digest {
      var k :| 0 <= k < |listing| && listing[k] == d;
    }
    forall s | s in t'.documents ensures exists d :: d in listing && d.source == s {
      var k :| 0 <= k < |listing| && listing[k].source == s;
      assert listing[k] in listing;
    }
    IsMapOf(t'.documents, listing);
  }

  /**
   * Between any read and its commit the index may have moved away and back: the identifier alone
   * says whether the documents read are the documents there.
   */
  lemma IdentifierTells(rules: Rules, w: World, i: nat)
    requires Reachable(rules, w) && i < |w.writers| && w.writers[i].phase.Ready?
    ensures
      var read := w.writers[i].phase.read;
      IdOf(w.t.generation) == IdOf(read.generation) <==> w.t.generation == read.generation && Lists(read.documents, w.t.documents)
  {
    ReachableInv(rules, w);
    assert WriterOk(rules, w.writers[i]);
    if IdOf(w.t.generation) == IdOf(w.writers[i].phase.read.generation) {
      SameIdSameIndex(rules, w.t, w.writers[i].phase.read);
    }
  }

  /** A commit leaves the index at exactly its own walk, or leaves it. */
  ghost predicate Lands(w: World, w': World, i: nat) {
    && i < |w.writers| && i < |w'.writers|
    && var me := w.writers[i];
       if w'.writers[i].phase.Finished? then
         && Distinct(me.walk) && w'.t.documents == MapOf(me.walk)
         && w'.t.generation == Some(Generation(GenerationOf(me.identity, me.walk), me.identity))
         && w'.writers[i].phase.id == GenerationOf(me.identity, me.walk)
       else w'.t == w.t
  }

  lemma CommitLands(rules: Rules, w: World, i: nat, found: map<Source, Content>)
    requires Reachable(rules, w) && i < |w.writers| && w.writers[i].phase.Ready?
    ensures Lands(w, Step(rules, w, Write(i, found)), i)
  {
    ReachableInv(rules, w);
    assert WriterOk(rules, w.writers[i]);
    CommitExact(rules, w.t, w.writers[i], found);
    CommitShows(rules, w, i, found);
  }

  /** The update's phase shows how its commit went. */
  lemma CommitShows(rules: Rules, w: World, i: nat, found: map<Source, Content>)
    requires i < |w.writers| && w.writers[i].phase.Ready? && Distinct(w.writers[i].phase.read.documents)
    ensures
      var me, w' := w.writers[i], Step(rules, w, Write(i, found));
      var target := GenerationOf(me.identity, me.walk);
      var diff := Difference(me.identity, me.phase.read, me.walk, me.rebuild);
      var (t, outcome) := Commit(rules, me.identity, w.t, IdOf(me.phase.read.generation), diff, target, found);
      && w'.t == t && i < |w'.writers|
      && (outcome.Committed? <==> w'.writers[i].phase.Finished?)
      && (outcome.Committed? ==> w'.writers[i].phase.id == target)
  {}

  /** No interleaving makes a commit insert a document the index already has. */
  lemma NeverDuplicates(rules: Rules, w: World, i: nat, found: map<Source, Content>)
    requires Reachable(rules, w) && i < |w.writers| && w.writers[i].phase.Ready? && Distinct(w.writers[i].phase.read.documents)
    ensures
      var me := w.writers[i];
      var diff := Difference(me.identity, me.phase.read, me.walk, me.rebuild);
      var outcome := Commit(rules, me.identity, w.t, IdOf(me.phase.read.generation), diff, GenerationOf(me.identity, me.walk), found).1;
      !(outcome.NotApplied? && outcome.why.Duplicate?)
  {
    ReachableInv(rules, w);
    assert WriterOk(rules, w.writers[i]);
    CommitExact(rules, w.t, w.writers[i], found);
  }

  // ---- The operator's listing ----

  datatype Mark = MarkAdded | MarkChanged | MarkUnchanged

  datatype Comparison = Comparison(target: string, changed: bool, marks: map<Source, Mark>, added: nat, modified: nat, removed: seq<Source>, indexed: bool)

  function MarkOf(held: map<Source, Digest>, d: Document): Mark {
    if d.source !in held then MarkAdded else if held[d.source] != d.digest then MarkChanged else MarkUnchanged
  }

  function HeldUnder(identity: string, stored: Stored): map<Source, Digest>
    requires Distinct(stored.documents)
  {
    if stored.generation.Some? && stored.generation.value.identity == identity then MapOf(stored.documents) else map[]
  }

  function Removed(identity: string, stored: Stored, present: set<Source>): (r: seq<Source>) {
    RemovedOf(stored.generation.Some? && stored.generation.value.identity == identity, present, stored.documents)
  }

  function SourcesIn(ds: seq<Document>): seq<Source> {
    seq(|ds|, k requires 0 <= k < |ds| => ds[k].source)
  }

  /** The sources of a walk that are marked so. */
  function SourcesMarked(held: map<Source, Digest>, walk: seq<Document>, mark: Mark): set<Source> {
    set d | d in walk && MarkOf(held, d) == mark :: d.source
  }

  function CountMarked(held: map<Source, Digest>, walk: seq<Document>, mark: Mark): nat {
    if walk == [] then 0
    else CountMarked(held, walk[..|walk| - 1], mark) + if MarkOf(held, Last(walk)) == mark then 1 else 0
  }

  /** A listed source is not listed before. */
  lemma ListedOnce(walk: seq<Document>, k: nat)
    requires k < |walk| && Distinct(walk)
    ensures walk[k].source !in SourcesOf(walk[..k]) && Distinct(walk[..k]) && walk[..k + 1] == walk[..k] + [walk[k]]
  {
    forall d | d in walk[..k] ensures d.source != walk[k].source {
      var j :| 0 <= j < k && walk[..k][j] == d;
      assert walk[j] == d;
    }
  }

  lemma MarkedOne(held: map<Source, Digest>, front: seq<Document>, d: Document, mark: Mark)
    ensures SourcesMarked(held, front + [d], mark) ==
            SourcesMarked(held, front, mark) + if MarkOf(held, d) == mark then {d.source} else {}
  {
    var all, before := SourcesMarked(held, front + [d], mark), SourcesMarked(held, front, mark);
    forall x ensures x in all <==> x in before || (MarkOf(held, d) == mark && x == d.source) {
      if x in before {
        var e :| e in front && MarkOf(held, e) == mark && e.source == x;
        assert e in front + [d];
      }
      if x in all {
        var e :| e in front + [d] && MarkOf(held, e) == mark && e.source == x;
        assert e in front || e == d;
      }
      if MarkOf(held, d) == mark { assert d in front + [d]; }
    }
  }

  lemma {:induction false} CountIsSize(held: map<Source, Digest>, walk: seq<Document>, mark: Mark)
    requires Distinct(walk)
    ensures CountMarked(held, walk, mark) == |SourcesMarked(held, walk, mark)|
  {
    if walk != [] {
      var n := |walk| - 1;
      ListedOnce(walk, n);
      CountIsSize(held, walk[..n], mark);
      assert walk[..n + 1] == walk;
      MarkedOne(held, walk[..n], walk[n], mark);
      assert SourcesMarked(held, walk[..n], mark) <= SourcesOf(walk[..n]);
    }
  }

  /** What has been marked and counted, of the documents walked so far. */
  ghost predicate MarkedSoFar(
    held: map<Source, Digest>, walk: seq<Document>, present: set<Source>, marks: map<Source, Mark>, added: nat, modified: nat)
  {
    && present == marks.Keys == SourcesOf(walk)
    && (forall j :: 0 <= j < |walk| ==> walk[j].source in marks && marks[walk[j].source] == MarkOf(held, walk[j]))
    && added == CountMarked(held, walk, MarkAdded) && modified == CountMarked(held, walk, MarkChanged)
  }

  lemma SourcesNext(front: seq<Document>, d: Document)
    ensures SourcesOf(front + [d]) == SourcesOf(front) + {d.source}
    ensures forall j :: 0 <= j < |front| ==> front[j].source in SourcesOf(front)
  {
    assert forall j :: 0 <= j < |front| ==> front[j] in front;
  }

  lemma CountNext(held: map<Source, Digest>, front: seq<Document>, d: Document, mark: Mark)
    ensures CountMarked(held, front + [d], mark) == CountMarked(held, front, mark) + if MarkOf(held, d) == mark then 1 else 0
  {
    assert (front + [d])[..|front|] == front;
  }

  lemma MarkedNext(
    held: map<Source, Digest>, front: seq<Document>, d: Document, present: set<Source>, marks: map<Source, Mark>, added: nat, modified: nat)
    requires MarkedSoFar(held, front, present, marks, added, modified) && d.source !in SourcesOf(front)
    ensures MarkedSoFar(held, front + [d], present + {d.source}, marks[d.source := MarkOf(held, d)],
                        added + (if MarkOf(held, d).MarkAdded? then 1 else 0), modified + (if MarkOf(held, d).MarkChanged? then 1 else 0))
  {
    SourcesNext(front, d);
    CountNext(held, front, d, MarkAdded);
    CountNext(held, front, d, MarkChanged);
  }

  method MarkWalk(held: map<Source, Digest>, walk: seq<Document>)
    returns (present: set<Source>, marks: map<Source, Mark>, added: nat, modified: nat)
    requires Distinct(walk)
    ensures MarkedSoFar(held, walk, present, marks, added, modified)
  {
    present, marks, added, modified := {}, map[], 0, 0;
    for k := 0 to |walk|
      invariant MarkedSoFar(held, walk[..k], present, marks, added, modified)
    {
      ListedOnce(walk, k);
      MarkedNext(held, walk[..k], walk[k], present, marks, added, modified);
      present := present + {walk[k].source};
      var mark := MarkUnchanged;
      if walk[k].source !in held {
        mark := MarkAdded;
        added := added + 1;
      } else if held[walk[k].source] != walk[k].digest {
        mark := MarkChanged;
        modified := modified + 1;
      }
      marks := marks[walk[k].source := mark];
    }
    assert walk[..|walk|] == walk;
  }

  /** What is removed of a listing under the same configuration, or under another. */
  function RemovedOf(same: bool, present: set<Source>, documents: seq<Document>): seq<Source> {
    if same then Gone(present, documents) else SourcesIn(documents)
  }

  lemma RemovedGrows(same: bool, present: set<Source>, documents: seq<Document>, k: nat)
    requires k < |documents|
    ensures RemovedOf(same, present, documents[..k + 1]) ==
            RemovedOf(same, present, documents[..k]) +
            if documents[k].source !in present || !same then [documents[k].source] else []
  {
    assert documents[..k + 1][..k] == documents[..k];
  }

  method ListRemoved(identity: string, stored: Stored, present: set<Source>) returns (removed: seq<Source>)
    ensures removed == Removed(identity, stored, present)
  {
    var same := stored.generation.Some? && stored.generation.value.identity == identity;
    removed := [];
    for k := 0 to |stored.documents|
      invariant removed == RemovedOf(same, present, stored.documents[..k])
    {
      RemovedGrows(same, present, stored.documents, k);
      if stored.documents[k].source !in present || !same {
        removed := removed + [stored.documents[k].source];
      }
    }
    assert stored.documents[..|stored.documents|] == stored.documents;
  }

  method Compare(identity: string, stored: Stored, walk: seq<Document>) returns (c: Comparison)
    requires Distinct(stored.documents) && Distinct(walk)
    ensures c.target == GenerationOf(identity, walk) && c.changed == (c.target != IdOf(stored.generation))
    ensures c.indexed == (IdOf(stored.generation) != "")
    ensures c.marks.Keys == SourcesOf(walk)
    ensures forall d :: d in walk ==> c.marks[d.source] == MarkOf(HeldUnder(identity, stored), d)
    ensures c.added == |SourcesMarked(HeldUnder(identity, stored), walk, MarkAdded)|
    ensures c.modified == |SourcesMarked(HeldUnder(identity, stored), walk, MarkChanged)|
    ensures c.removed == Removed(identity, stored, SourcesOf(walk))
  {
    var target := GenerationId(identity, walk);
    var held: map<Source, Digest> := map[];
    if stored.generation.Some? && stored.generation.value.identity == identity {
      held := HeldBy(stored.documents);
    }
    var present, marks, added, modified := MarkWalk(held, walk);
    CountIsSize(held, walk, MarkAdded);
    CountIsSize(held, walk, MarkChanged);
    var removed := ListRemoved(identity, stored, present);
    return Comparison(target, target != IdOf(stored.generation), marks, added, modified, removed, IdOf(stored.generation) != "");
  }

  /**
   * A comparison says changed exactly when it says why: nothing was indexed, the index was built under
   * another configuration, a document is marked added or changed, or one is listed as removed.
   */
  lemma ChangedExactly(rules: Rules, identity: string, stored: Stored, walk: seq<Document>)
    requires |identity| == DIGEST_LENGTH && ReadOk(stored) && WalkOk(rules, walk)
    ensures Distinct(stored.documents)
    ensures GenerationOf(identity, walk) != IdOf(stored.generation) <==>
            (|| stored.generation.None?
             || stored.generation.value.identity != identity
             || (exists d :: d in walk && !MarkOf(HeldUnder(identity, stored), d).MarkUnchanged?)
             || Removed(identity, stored, SourcesOf(walk)) != [])
  {
    if stored.generation.Some? {
      var g := stored.generation.value;
      SameIdSameDocuments(identity, walk, g.identity, stored.documents);
      if g.identity == identity {
        var held := MapOf(stored.documents);
        if MapOf(walk) == held {
          NothingToSay(held, stored.documents, walk);
        } else {
          SomethingToSay(held, stored.documents, walk);
        }
      }
    }
  }

  lemma NothingToSay(held: map<Source, Digest>, documents: seq<Document>, walk: seq<Document>)
    requires Distinct(documents) && Distinct(walk) && MapOf(documents) == held == MapOf(walk)
    ensures forall d :: d in walk ==> MarkOf(held, d).MarkUnchanged?
    ensures Gone(SourcesOf(walk), documents) == []
  {
    forall d | d in walk ensures MarkOf(held, d).MarkUnchanged? {
      var k :| 0 <= k < |walk| && walk[k] == d;
    }
    SameMapSameSet(documents, walk);
    NoneGone(SourcesOf(walk), documents);
  }

  lemma {:induction false} NoneGone(present: set<Source>, documents: seq<Document>)
    requires forall d :: d in documents ==> d.source in present
    ensures Gone(present, documents) == []
  {
    if documents != [] {
      assert Last(documents) in documents;
      NoneGone(present, documents[..|documents| - 1]);
    }
  }

  lemma SomethingToSay(held: map<Source, Digest>, documents: seq<Document>, walk: seq<Document>)
    requires Distinct(documents) && Distinct(walk) && MapOf(documents) == held != MapOf(walk)
    ensures (exists d :: d in walk && !MarkOf(held, d).MarkUnchanged?) || Gone(SourcesOf(walk), documents) != []
  {
    if (forall d :: d in walk ==> MarkOf(held, d).MarkUnchanged?) && Gone(SourcesOf(walk), documents) == [] {
      forall s | s in held ensures exists d :: d in walk && d.source == s {
        var k :| 0 <= k < |documents| && documents[k].source == s;
        assert documents[k] in documents;
        assert s !in Gone(SourcesOf(walk), documents);
      }
      IsMapOf(held, walk);
    }
  }
}
