/**
 * What a generation of an index is identified by: its configuration and its documents, sorted and
 * run together. The hash is taken to be free of collisions, so an identifier is what is hashed.
 */
module Generations {
  type Source = string

  type Digest = string

  datatype Document = Document(source: Source, digest: Digest)

  /** The length of a SHA-256 in hexadecimal. */
  const DIGEST_LENGTH: nat := 64

  const NUL: char := '\0'

  /** No path holds a NUL, and every digest is as long as any other. */
  predicate WellFormed(d: Document) {
    NUL !in d.source && |d.digest| == DIGEST_LENGTH
  }

  predicate AllWellFormed(ds: seq<Document>) {
    forall k :: 0 <= k < |ds| ==> WellFormed(ds[k])
  }

  /** A walk meets every path once. */
  predicate Distinct(ds: seq<Document>) {
    forall i, j :: 0 <= i < j < |ds| ==> ds[i].source != ds[j].source
  }

  // ---- Sorting ----

  /** The order of strings, byte by byte. */
  predicate Less(a: string, b: string) {
    b != [] && (a == [] || a[0] < b[0] || (a[0] == b[0] && Less(a[1..], b[1..])))
  }

  lemma {:induction false} LessTotal(a: string, b: string)
    ensures Less(a, b) || a == b || Less(b, a)
  {
    if a != [] && b != [] && a[0] == b[0] {
      LessTotal(a[1..], b[1..]);
      assert a == [a[0]] + a[1..] && b == [b[0]] + b[1..];
    }
  }

  lemma {:induction false} LessNotBoth(a: string, b: string)
    ensures !(Less(a, b) && Less(b, a))
  {
    if a != [] && b != [] && a[0] == b[0] {
      LessNotBoth(a[1..], b[1..]);
    }
  }

  lemma {:induction false} LessTrans(a: string, b: string, c: string)
    requires Less(a, b) && Less(b, c)
    ensures Less(a, c)
  {
    if a != [] && a[0] == b[0] && b[0] == c[0] {
      LessTrans(a[1..], b[1..], c[1..]);
    }
  }

  predicate Sorted(ds: seq<Document>) {
    forall i, j :: 0 <= i < j < |ds| ==> Less(ds[i].source, ds[j].source)
  }

  function Insert(d: Document, ds: seq<Document>): (r: seq<Document>)
    ensures multiset(r) == multiset(ds) + multiset{d}
  {
    if ds == [] || Less(d.source, ds[0].source) then [d] + ds
    else
      assert ds == [ds[0]] + ds[1..];
      [ds[0]] + Insert(d, ds[1..])
  }

  function Sort(ds: seq<Document>): (r: seq<Document>)
    ensures multiset(r) == multiset(ds)
  {
    if ds == [] then []
    else
      assert ds == [ds[0]] + ds[1..];
      Insert(ds[0], Sort(ds[1..]))
  }

  lemma {:induction false} InsertSorts(d: Document, ds: seq<Document>)
    requires Sorted(ds) && forall k :: 0 <= k < |ds| ==> ds[k].source != d.source
    ensures Sorted(Insert(d, ds))
  {
    if ds == [] {
    } else if Less(d.source, ds[0].source) {
      forall j | 0 <= j < |ds| ensures Less(d.source, ds[j].source) {
        if j > 0 { LessTrans(d.source, ds[0].source, ds[j].source); }
      }
    } else {
      var rest := Insert(d, ds[1..]);
      InsertSorts(d, ds[1..]);
      LessTotal(d.source, ds[0].source);
      forall j | 0 <= j < |rest| ensures Less(ds[0].source, rest[j].source) {
        assert rest[j] in multiset(rest);
        assert rest[j] == d || rest[j] in ds[1..];
      }
    }
  }

  lemma {:induction false} SortSorts(ds: seq<Document>)
    requires Distinct(ds)
    ensures Sorted(Sort(ds)) && |Sort(ds)| == |ds|
  {
    assert |multiset(Sort(ds))| == |multiset(ds)|;
    if ds != [] {
      SortSorts(ds[1..]);
      var rest := Sort(ds[1..]);
      forall k | 0 <= k < |rest| ensures rest[k].source != ds[0].source {
        assert rest[k] in multiset(rest);
        assert rest[k] in ds[1..];
      }
      InsertSorts(ds[0], rest);
    }
  }

  /** There is one way to sort. */
  lemma {:induction false} SortedIsOne(a: seq<Document>, b: seq<Document>)
    requires Sorted(a) && Sorted(b) && forall d :: d in a <==> d in b
    ensures a == b
  {
    if a == [] {
      if b != [] { HasFirst(b); }
    } else {
      assert a[0] in b;
      assert b[0] in a;
      FirstIsLeast(a, b[0]);
      FirstIsLeast(b, a[0]);
      LessNotBoth(a[0].source, b[0].source);
      assert a[0] == b[0];
      RestSame(a, b);
      RestSame(b, a);
      SortedIsOne(a[1..], b[1..]);
      assert a == [a[0]] + a[1..] && b == [b[0]] + b[1..];
    }
  }

  lemma HasFirst(b: seq<Document>)
    requires b != []
    ensures exists d :: d in b
  {
    assert b[0] in b;
  }

  lemma FirstIsLeast(a: seq<Document>, d: Document)
    requires Sorted(a) && d in a
    ensures d == a[0] || Less(a[0].source, d.source)
  {
    var k :| 0 <= k < |a| && a[k] == d;
  }

  lemma RestSame(a: seq<Document>, b: seq<Document>)
    requires Sorted(a) && Sorted(b) && a != [] && b != [] && a[0] == b[0] && forall d :: d in a ==> d in b
    ensures forall d :: d in a[1..] ==> d in b[1..]
  {
    forall d | d in a[1..] ensures d in b[1..] {
      var k :| 0 <= k < |a[1..]| && a[1..][k] == d;
      assert d == a[k + 1] && d in a;
      LessNotBoth(a[0].source, d.source);
      var j :| 0 <= j < |b| && b[j] == d;
      assert j != 0;
      assert b[1..][j - 1] == d;
    }
  }

  // ---- Encoding ----

  function Entry(d: Document): string {
    "\n" + d.source + [NUL] + d.digest
  }

  function Body(ds: seq<Document>): string {
    if ds == [] then "" else Entry(ds[0]) + Body(ds[1..])
  }

  /** The identifier of a generation built under an identity from documents listed in any order. */
  function GenerationOf(identity: string, ds: seq<Document>): (id: string)
    ensures identity <= id
  {
    identity + Body(Sort(ds))
  }

  lemma {:induction false} BodyAppends(ds: seq<Document>, d: Document)
    ensures Body(ds + [d]) == Body(ds) + Entry(d)
  {
    if ds == [] {
      assert Body([d]) == Entry(d) + Body([]);
    } else {
      assert (ds + [d])[1..] == ds[1..] + [d];
      BodyAppends(ds[1..], d);
    }
  }

  lemma Extends(identity: string, pairs: seq<Document>, k: nat)
    requires k < |pairs|
    ensures identity + Body(pairs[..k]) + Entry(pairs[k]) == identity + Body(pairs[..k + 1])
  {
    BodyAppends(pairs[..k], pairs[k]);
    assert pairs[..k + 1] == pairs[..k] + [pairs[k]];
  }

  /** Writes the digest pair by pair. */
  method GenerationId(identity: string, ds: seq<Document>) returns (id: string)
    ensures id == GenerationOf(identity, ds)
  {
    var pairs := Sort(ds);
    id := identity;
    for k := 0 to |pairs|
      invariant id == identity + Body(pairs[..k])
    {
      Extends(identity, pairs, k);
      id := id + Entry(pairs[k]);
    }
    assert pairs[..|pairs|] == pairs;
  }

  /** A string without a NUL ends at the first one. */
  lemma {:induction false} EndsAtNul(a: string, b: string, restA: string, restB: string)
    requires NUL !in a && NUL !in b && a + [NUL] + restA == b + [NUL] + restB
    ensures a == b && restA == restB
  {
    var s, t := a + [NUL] + restA, b + [NUL] + restB;
    assert s[0] == (if a == [] then NUL else a[0]) && t[0] == (if b == [] then NUL else b[0]);
    if a == [] || b == [] {
      assert s[1..] == restA || a != [];
      assert t[1..] == restB || b != [];
    } else {
      assert s[1..] == a[1..] + [NUL] + restA && t[1..] == b[1..] + [NUL] + restB;
      EndsAtNul(a[1..], b[1..], restA, restB);
      assert a == [a[0]] + a[1..] && b == [b[0]] + b[1..];
    }
  }

  /** An entry ends where its digest does, 64 places after the first NUL. */
  lemma EntryParses(a: Document, b: Document, restA: string, restB: string)
    requires WellFormed(a) && WellFormed(b) && Entry(a) + restA == Entry(b) + restB
    ensures a == b && restA == restB
  {
    var s, t := Entry(a) + restA, Entry(b) + restB;
    assert s[1..] == a.source + [NUL] + (a.digest + restA) && t[1..] == b.source + [NUL] + (b.digest + restB);
    EndsAtNul(a.source, b.source, a.digest + restA, b.digest + restB);
    assert (a.digest + restA)[..DIGEST_LENGTH] == a.digest && (b.digest + restB)[..DIGEST_LENGTH] == b.digest;
    assert (a.digest + restA)[DIGEST_LENGTH..] == restA && (b.digest + restB)[DIGEST_LENGTH..] == restB;
  }

  lemma {:induction false} BodyParses(a: seq<Document>, b: seq<Document>)
    requires AllWellFormed(a) && AllWellFormed(b) && Body(a) == Body(b)
    ensures a == b
  {
    if a == [] || b == [] {
      assert a != [] ==> |Body(a)| > 0;
      assert b != [] ==> |Body(b)| > 0;
    } else {
      EntryParses(a[0], b[0], Body(a[1..]), Body(b[1..]));
      BodyParses(a[1..], b[1..]);
      assert a == [a[0]] + a[1..] && b == [b[0]] + b[1..];
    }
  }

  /** Which digest each source has. */
  function MapOf(ds: seq<Document>): (m: map<Source, Digest>)
    requires Distinct(ds)
    ensures m.Keys == set k | 0 <= k < |ds| :: ds[k].source
    ensures forall k :: 0 <= k < |ds| ==> m[ds[k].source] == ds[k].digest
    ensures ds != [] ==> ds[0].source in m
  {
    map k | 0 <= k < |ds| :: ds[k].source := ds[k].digest
  }

  lemma SameMapSameSet(a: seq<Document>, b: seq<Document>)
    requires Distinct(a) && Distinct(b) && MapOf(a) == MapOf(b)
    ensures forall d :: d in a <==> d in b
  {
    forall d | d in a ensures d in b {
      Finds(a, b, d);
    }
    forall d | d in b ensures d in a {
      Finds(b, a, d);
    }
  }

  lemma Finds(a: seq<Document>, b: seq<Document>, d: Document)
    requires Distinct(a) && Distinct(b) && MapOf(a) == MapOf(b) && d in a
    ensures d in b
  {
    var k :| 0 <= k < |a| && a[k] == d;
    assert d.source in MapOf(b).Keys;
    var j :| 0 <= j < |b| && b[j].source == d.source;
    assert MapOf(b)[b[j].source] == b[j].digest;
    assert b[j] == d;
  }

  lemma SortKeepsSet(ds: seq<Document>)
    ensures forall d :: d in Sort(ds) <==> d in ds
  {
    forall d ensures d in Sort(ds) <==> d in ds {
      assert d in multiset(Sort(ds)) <==> d in multiset(ds);
    }
  }

  /**
   * Two generations carry one identifier exactly when they were built under one identity from the
   * same documents, listed in whatever order.
   */
  lemma SameIdSameDocuments(i: string, a: seq<Document>, j: string, b: seq<Document>)
    requires |i| == |j| && Distinct(a) && Distinct(b) && AllWellFormed(a) && AllWellFormed(b)
    ensures GenerationOf(i, a) == GenerationOf(j, b) <==> i == j && MapOf(a) == MapOf(b)
  {
    var sa, sb := Sort(a), Sort(b);
    SortSorts(a);
    SortSorts(b);
    SortKeepsSet(a);
    SortKeepsSet(b);
    if GenerationOf(i, a) == GenerationOf(j, b) {
      assert GenerationOf(i, a)[..|i|] == i && GenerationOf(j, b)[..|j|] == j;
      assert GenerationOf(i, a)[|i|..] == Body(sa) && GenerationOf(j, b)[|j|..] == Body(sb);
      assert AllWellFormed(sa) by {
        forall k | 0 <= k < |sa| ensures WellFormed(sa[k]) { assert sa[k] in a; }
      }
      assert AllWellFormed(sb) by {
        forall k | 0 <= k < |sb| ensures WellFormed(sb[k]) { assert sb[k] in b; }
      }
      BodyParses(sa, sb);
      SameSetSameMap(a, b);
    }
    if i == j && MapOf(a) == MapOf(b) {
      SameMapSameSet(a, b);
      SortedIsOne(sa, sb);
    }
  }

  lemma SameSetSameMap(a: seq<Document>, b: seq<Document>)
    requires Distinct(a) && Distinct(b) && forall d :: d in a <==> d in b
    ensures MapOf(a) == MapOf(b)
  {
    forall s | s in MapOf(a) ensures s in MapOf(b) && MapOf(b)[s] == MapOf(a)[s] {
      var k :| 0 <= k < |a| && a[k].source == s;
      assert a[k] in b;
    }
    forall s | s in MapOf(b) ensures s in MapOf(a) {
      var k :| 0 <= k < |b| && b[k].source == s;
      assert b[k] in a;
    }
  }
}
