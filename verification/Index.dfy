/** One collection's index: its documents, their passages, and the transactions that move it on. */
module Index {
  import opened Common
  import opened Generations

  type Content = string

  datatype Piece = Piece(ordinal: nat, start: nat, text: string)

  datatype Row = Row(source: Source, piece: Piece)

  datatype Generation = Generation(id: string, identity: string)

  datatype Tables = Tables(generation: Option<Generation>, documents: map<Source, Digest>, rows: seq<Row>)

  /** What a digest stands for, and how a configuration cuts a document. */
  datatype Rules = Rules(contents: map<Digest, Content>, cut: (string, Content) -> seq<Piece>)

  /** One read of the index: its generation and its documents, listed in some order. */
  datatype Stored = Stored(generation: Option<Generation>, documents: seq<Document>)

  datatype Change = Change(everything: bool, remove: seq<Source>, add: seq<Document>)

  datatype Applied = Done(t: Tables) | ChangedFile(source: Source) | Unreadable(source: Source) | Duplicate(source: Source)

  function Blank(): Tables { Tables(None, map[], []) }

  /** The identifier of a generation, or of none. */
  function IdOf(generation: Option<Generation>): string {
    if generation.Some? then generation.value.id else ""
  }

  // ---- What an update works out ----

  predicate Unchanged(held: map<Source, Digest>, d: Document) {
    d.source in held && held[d.source] == d.digest
  }

  function Added(held: map<Source, Digest>, walk: seq<Document>): (r: seq<Document>)
    ensures forall d :: d in r <==> d in walk && !Unchanged(held, d)
  {
    if walk == [] then []
    else
      assert walk == walk[..|walk| - 1] + [Last(walk)];
      var rest := Added(held, walk[..|walk| - 1]);
      if Unchanged(held, Last(walk)) then rest else rest + [Last(walk)]
  }

  function Replaced(held: map<Source, Digest>, walk: seq<Document>): (r: seq<Source>)
    ensures forall s :: s in r <==> exists d :: d in walk && d.source == s && s in held && !Unchanged(held, d)
  {
    if walk == [] then []
    else
      assert walk == walk[..|walk| - 1] + [Last(walk)];
      var rest := Replaced(held, walk[..|walk| - 1]);
      if Last(walk).source in held && !Unchanged(held, Last(walk)) then rest + [Last(walk).source] else rest
  }

  function Gone(present: set<Source>, documents: seq<Document>): (r: seq<Source>)
    ensures forall s :: s in r <==> s !in present && exists d :: d in documents && d.source == s
  {
    if documents == [] then []
    else
      assert documents == documents[..|documents| - 1] + [Last(documents)];
      var rest := Gone(present, documents[..|documents| - 1]);
      if Last(documents).source in present then rest else rest + [Last(documents).source]
  }

  function SourcesOf(ds: seq<Document>): set<Source> {
    set d | d in ds :: d.source
  }

  function Difference(identity: string, read: Stored, walk: seq<Document>, rebuild: bool): Change
    requires Distinct(read.documents)
  {
    if rebuild || read.generation.None? || read.generation.value.identity != identity then Change(true, [], walk)
    else
      var held := MapOf(read.documents);
      Change(false, Replaced(held, walk) + Gone(SourcesOf(walk), read.documents), Added(held, walk))
  }

  method HeldBy(documents: seq<Document>) returns (held: map<Source, Digest>)
    requires Distinct(documents)
    ensures held == MapOf(documents)
  {
    held := map[];
    for k := 0 to |documents|
      invariant held.Keys == set j | 0 <= j < k :: documents[j].source
      invariant forall j :: 0 <= j < k ==> held[documents[j].source] == documents[j].digest
    {
      held := held[documents[k].source := documents[k].digest];
    }
  }

  /** The walk against what is held. */
  method WalkPass(held: map<Source, Digest>, walk: seq<Document>)
    returns (present: set<Source>, remove: seq<Source>, add: seq<Document>)
    ensures present == SourcesOf(walk) && remove == Replaced(held, walk) && add == Added(held, walk)
  {
    present, remove, add := {}, [], [];
    for k := 0 to |walk|
      invariant present == SourcesOf(walk[..k])
      invariant remove == Replaced(held, walk[..k]) && add == Added(held, walk[..k])
    {
      assert walk[..k + 1] == walk[..k] + [walk[k]] && walk[..k + 1][..k] == walk[..k];
      present := present + {walk[k].source};
      if walk[k].source !in held {
        add := add + [walk[k]];
      } else if held[walk[k].source] != walk[k].digest {
        remove := remove + [walk[k].source];
        add := add + [walk[k]];
      }
    }
    assert walk[..|walk|] == walk;
  }

  /** What is held against the walk. */
  method GonePass(present: set<Source>, documents: seq<Document>) returns (gone: seq<Source>)
    ensures gone == Gone(present, documents)
  {
    gone := [];
    for k := 0 to |documents|
      invariant gone == Gone(present, documents[..k])
    {
      assert documents[..k + 1][..k] == documents[..k];
      if documents[k].source !in present { gone := gone + [documents[k].source]; }
    }
    assert documents[..|documents|] == documents;
  }

  method DifferenceOf(identity: string, read: Stored, walk: seq<Document>, rebuild: bool) returns (diff: Change)
    requires Distinct(read.documents)
    ensures diff == Difference(identity, read, walk, rebuild)
  {
    if rebuild || read.generation.None? || read.generation.value.identity != identity {
      return Change(true, [], walk);
    }
    var held := HeldBy(read.documents);
    var present, remove, add := WalkPass(held, walk);
    var gone := GonePass(present, read.documents);
    return Change(false, remove + gone, add);
  }

  // ---- What a transaction writes ----

  function RowsOfPieces(source: Source, pieces: seq<Piece>): (r: seq<Row>)
    ensures forall k :: 0 <= k < |r| ==> r[k].source == source
  {
    seq(|pieces|, k requires 0 <= k < |pieces| => Row(source, pieces[k]))
  }

  function WithoutSource(rows: seq<Row>, source: Source): seq<Row> {
    if rows == [] then []
    else WithoutSource(rows[..|rows| - 1], source) + if Last(rows).source == source then [] else [Last(rows)]
  }

  function RemoveOne(t: Tables, source: Source): Tables {
    t.(documents := t.documents - {source}, rows := WithoutSource(t.rows, source))
  }

  function RemoveAll(t: Tables, sources: seq<Source>): Tables {
    if sources == [] then t else RemoveOne(RemoveAll(t, sources[..|sources| - 1]), Last(sources))
  }

  /** A document's content still has the digest its walk took. */
  predicate Matches(rules: Rules, d: Document, content: Content) {
    d.digest in rules.contents && rules.contents[d.digest] == content
  }

  function AddOne(rules: Rules, identity: string, t: Tables, d: Document, found: map<Source, Content>): Applied {
    if d.source !in found then Unreadable(d.source)
    else if !Matches(rules, d, found[d.source]) then ChangedFile(d.source)
    else if d.source in t.documents then Duplicate(d.source)
    else Done(t.(documents := t.documents[d.source := d.digest],
                 rows := t.rows + RowsOfPieces(d.source, rules.cut(identity, found[d.source]))))
  }

  function AddAll(rules: Rules, identity: string, t: Tables, add: seq<Document>, found: map<Source, Content>): Applied
    decreases |add|
  {
    if add == [] then Done(t)
    else
      match AddOne(rules, identity, t, add[0], found)
      case Done(t') => AddAll(rules, identity, t', add[1..], found)
      case other => other
  }

  function ApplyChange(rules: Rules, identity: string, t: Tables, diff: Change, found: map<Source, Content>): Applied {
    var emptied := if diff.everything then t.(documents := map[], rows := []) else t;
    AddAll(rules, identity, RemoveAll(emptied, diff.remove), diff.add, found)
  }

  datatype Outcome = Committed | Moved | NotApplied(why: Applied)

  /** Applies the change and the generation's row in one transaction, if the generation read is still there. */
  function Commit(
    rules: Rules, identity: string, t: Tables, readId: string, diff: Change, target: string, found: map<Source, Content>): (Tables, Outcome)
  {
    if IdOf(t.generation) != readId then (t, Moved)
    else
      match ApplyChange(rules, identity, t, diff, found)
      case Done(t') => (t'.(generation := Some(Generation(target, identity))), Committed)
      case other => (t, NotApplied(other))
  }

  class Database {
    var generation: Option<Generation>
    var documents: map<Source, Digest>
    var rows: seq<Row>

    ghost function Value(): Tables
      reads this
    {
      Tables(generation, documents, rows)
    }

    constructor ()
      ensures Value() == Blank()
    {
      generation, documents, rows := None, map[], [];
    }

    /** DELETE FROM passages, then FROM documents, of one source. */
    method Delete(source: Source)
      modifies this
      ensures Value() == RemoveOne(old(Value()), source)
    {
      var kept: seq<Row> := [];
      for k := 0 to |rows|
        invariant Value() == old(Value())
        invariant kept == WithoutSource(rows[..k], source)
      {
        assert rows[..k + 1][..k] == rows[..k];
        if rows[k].source != source { kept := kept + [rows[k]]; }
      }
      assert rows[..|rows|] == rows;
      rows := kept;
      documents := documents - {source};
    }

    /** INSERT INTO documents, then each of its passages. */
    method Insert(rules: Rules, identity: string, d: Document, content: Content)
      requires d.source !in documents && Matches(rules, d, content)
      modifies this
      ensures AddOne(rules, identity, old(Value()), d, map[d.source := content]) == Done(Value())
    {
      documents := documents[d.source := d.digest];
      var pieces := rules.cut(identity, content);
      for j := 0 to |pieces|
        invariant rows == old(rows) + RowsOfPieces(d.source, pieces)[..j]
        invariant documents == old(documents)[d.source := d.digest] && generation == old(generation)
      {
        rows := rows + [Row(d.source, pieces[j])];
      }
    }

    method Apply(rules: Rules, identity: string, diff: Change, found: map<Source, Content>) returns (result: Applied)
      modifies this
      ensures result == ApplyChange(rules, identity, old(Value()), diff, found)
      ensures result.Done? ==> Value() == result.t
      ensures generation == old(generation)
    {
      if diff.everything {
        rows, documents := [], map[];
      }
      ghost var emptied := Value();
      for k := 0 to |diff.remove|
        invariant Value() == RemoveAll(emptied, diff.remove[..k]) && generation == old(generation)
      {
        assert diff.remove[..k + 1][..k] == diff.remove[..k];
        Delete(diff.remove[k]);
      }
      assert diff.remove[..|diff.remove|] == diff.remove;
      result := AddDocuments(rules, identity, diff.add, found);
    }

    method AddDocuments(rules: Rules, identity: string, add: seq<Document>, found: map<Source, Content>) returns (result: Applied)
      modifies this
      ensures result == AddAll(rules, identity, old(Value()), add, found)
      ensures result.Done? ==> Value() == result.t
      ensures generation == old(generation)
    {
      ghost var before := Value();
      for k := 0 to |add|
        invariant AddAll(rules, identity, before, add, found) == AddAll(rules, identity, Value(), add[k..], found)
        invariant generation == old(generation)
      {
        var d := add[k];
        assert add[k..][1..] == add[k + 1..];
        if d.source !in found { return Unreadable(d.source); }
        if !Matches(rules, d, found[d.source]) { return ChangedFile(d.source); }
        if d.source in documents { return Duplicate(d.source); }
        ghost var at := Value();
        Insert(rules, identity, d, found[d.source]);
        assert AddOne(rules, identity, at, d, found) == Done(Value());
      }
      return Done(Tables(generation, documents, rows));
    }

    /** One write transaction, rolled back whole unless it commits. */
    method CommitChange(rules: Rules, identity: string, readId: string, diff: Change, target: string, found: map<Source, Content>)
      returns (outcome: Outcome)
      modifies this
      ensures (Value(), outcome) == Commit(rules, identity, old(Value()), readId, diff, target, found)
    {
      if IdOf(generation) != readId { return Moved; }
      var documentsBefore, rowsBefore := documents, rows;
      var result := Apply(rules, identity, diff, found);
      if !result.Done? {
        documents, rows := documentsBefore, rowsBefore;
        return NotApplied(result);
      }
      generation := Some(Generation(target, identity));
      return Committed;
    }
  }
}
