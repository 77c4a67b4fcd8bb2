/** The blocks of a text, and the packing of their pieces into passages. */
module Packing {
  import opened Common
  import opened Utf8
  import opened Passages

  const NEWLINE: Byte := 0x0A
  const HASH: Byte := 0x23
  const BLANK: Byte := 0x20

  // ---- Lines and headings ----

  /** The start of a line. */
  predicate AtLine(s: Text, at: nat)
    requires at <= |s|
  {
    at == 0 || s[at - 1] == NEWLINE
  }

  function LineEnd(s: Text, at: nat): (end: nat)
    requires at <= |s|
    ensures at <= end <= |s| && (end < |s| ==> s[end] == NEWLINE) && forall k :: at <= k < end ==> s[k] != NEWLINE
    decreases |s| - at
  {
    if at == |s| || s[at] == NEWLINE then at else LineEnd(s, at + 1)
  }

  predicate Hashes(s: Text, at: nat, n: nat) {
    at + n <= |s| && forall k :: at <= k < at + n ==> s[k] == HASH
  }

  /** One to six hashes, then a space. */
  ghost predicate HeadingLine(s: Text, at: nat) {
    exists n :: 1 <= n <= 6 && Hashes(s, at, n) && at + n < |s| && s[at + n] == BLANK
  }

  method IsHeading(s: Text, at: nat, lineEnd: nat) returns (heading: bool)
    requires at <= |s| && lineEnd == LineEnd(s, at)
    ensures heading == HeadingLine(s, at)
  {
    var n := 0;
    while n < 6 && at + n < lineEnd && s[at + n] == HASH
      invariant n <= 6 && at + n <= lineEnd && Hashes(s, at, n)
    {
      n := n + 1;
    }
    OneCount(s, at, n, lineEnd);
    heading := n > 0 && at + n < lineEnd && s[at + n] == BLANK;
  }

  lemma OneCount(s: Text, at: nat, n: nat, lineEnd: nat)
    requires at <= |s| && lineEnd == LineEnd(s, at) && n <= 6 && at + n <= lineEnd && Hashes(s, at, n)
    requires n == 6 || at + n == lineEnd || s[at + n] != HASH
    ensures HeadingLine(s, at) <==> n > 0 && at + n < lineEnd && s[at + n] == BLANK
  {
    if HeadingLine(s, at) {
      var m :| 1 <= m <= 6 && Hashes(s, at, m) && at + m < |s| && s[at + m] == BLANK;
      assert at + m < lineEnd || (lineEnd < |s| && lineEnd <= at + m);
      assert m == n;
    }
  }

  // ---- Blocks ----

  /** Blocks hold text tidily, up to an offset all of the text that is not white space. */
  ghost predicate Covers(s: Text, out: seq<Span>, upto: nat)
    requires upto <= |s|
  {
    && Follow(s, out) && (forall k :: 0 <= k < |out| ==> Tidy(s, out[k]))
    && (if out == [] then Blank(s, 0, upto)
        else Blank(s, 0, out[0].start) && Last(out).end <= upto && Blank(s, Last(out).end, upto))
  }

  /** A line that holds nothing but white space. */
  ghost predicate BlankAt(s: Text, at: nat) {
    at <= |s| && AtLine(s, at) && Blank(s, at, LineEnd(s, at))
  }

  /** A block is a heading's exactly when it starts in a heading line; it holds no later one, and no blank line. */
  ghost predicate Headed(s: Text, x: Span) {
    && x.start <= x.end <= |s|
    && (x.heading <==> AtLine(s, x.start) && HeadingLine(s, x.start))
    && forall a :: x.start < a < x.end && AtLine(s, a) ==> !HeadingLine(s, a) && !BlankAt(s, a)
  }

  /** One block ends and another begins only at a blank line or a heading. */
  ghost predicate Split(s: Text, prev: Span, next: Span) {
    next.heading || exists a :: prev.end <= a && BlankAt(s, a) && LineEnd(s, a) < next.start
  }

  ghost predicate AllSplit(s: Text, out: seq<Span>) {
    forall k :: 0 < k < |out| ==> Split(s, out[k - 1], out[k])
  }

  /** A blank line has been met since the last block. */
  ghost predicate GapSeen(s: Text, out: seq<Span>, at: nat) {
    out == [] || at >= |s| || exists a :: Last(out).end <= a && BlankAt(s, a) && LineEnd(s, a) < at
  }

  ghost predicate AllHeaded(s: Text, out: seq<Span>) {
    forall k :: 0 <= k < |out| ==> Headed(s, out[k])
  }

  /** Where a line's own text begins and ends. */
  lemma LineTrims(s: Text, at: nat, lineEnd: nat)
    requires Valid(s) && at <= lineEnd <= |s| && Bound(s, at) && Bound(s, lineEnd)
    ensures
      var a, b := TrimLeft(s, at, lineEnd), TrimRight(s, at, lineEnd);
      && Bound(s, a) && Bound(s, b) && Blank(s, at, a) && Blank(s, b, lineEnd)
      && (a < lineEnd ==> a < b && Tidy(s, Span(a, b, false)))
  {
    var a, b := TrimLeft(s, at, lineEnd), TrimRight(s, at, lineEnd);
    BlankLeads(s, at, a);
    TrimRightBlank(s, at, lineEnd);
    BlankBounds(s, b, lineEnd);
    if a < lineEnd {
      WholeBefore(s, a, lineEnd);
      TextHolds(s, a, b, lineEnd);
      NoSpaceEnds(s, at, b);
    }
  }

  /** White space at a line's end stops at or after its first character that is none. */
  lemma TextHolds(s: Text, a: nat, b: nat, lineEnd: nat)
    requires Valid(s) && a < lineEnd <= |s| && b <= lineEnd && Bound(s, a) && Bound(s, b)
    requires SpaceSize(s, a, lineEnd) == 0 && Blank(s, b, lineEnd)
    ensures a < b
  {
    if b <= a {
      BlankThrough(s, b, a, lineEnd);
    }
  }

  /** A blank stretch is blank from each of its characters. */
  lemma {:induction false} BlankThrough(s: Text, b: nat, a: nat, hi: nat)
    requires Valid(s) && b <= a < hi <= |s| && Bound(s, b) && Bound(s, a) && Blank(s, b, hi)
    ensures SpaceSize(s, a, hi) > 0
    decreases a - b
  {
    if b < a {
      var n := SpaceSize(s, b, hi);
      SizeWithin(s, b, hi, |s|);
      CharAt(s, 0, b);
      BlankThrough(s, b + n, a, hi);
    }
  }

  lemma NewlineBlank(s: Text, lineEnd: nat)
    requires lineEnd < |s| && s[lineEnd] == NEWLINE
    ensures Blank(s, lineEnd, lineEnd + 1)
  {
    assert SpaceSize(s, lineEnd, lineEnd + 1) == 1;
  }

  /** A flushed block joins the others, and the white space after it is all there is up to here. */
  lemma Flushes(s: Text, out: seq<Span>, x: Span, at: nat)
    requires Tidy(s, x) && Covers(s, out, x.start) && x.end <= at <= |s| && Blank(s, x.end, at)
    ensures Covers(s, out + [x], at)
  {
    assert Last(out + [x]) == x;
  }

  lemma CoversOn(s: Text, out: seq<Span>, at: nat, next: nat)
    requires at <= next <= |s| && Covers(s, out, at) && Blank(s, at, next)
    ensures Covers(s, out, next)
  {
    BlankJoins(s, if out == [] then 0 else Last(out).end, at, next);
  }

  /** A heading opens a block where its line begins. */
  lemma HeadingStarts(s: Text, at: nat, lineEnd: nat)
    requires at <= |s| && lineEnd == LineEnd(s, at) && HeadingLine(s, at)
    ensures at < lineEnd && TrimLeft(s, at, lineEnd) == at
  {}

  /** Where the split has got to: the blocks flushed, and the one under way. */
  ghost predicate BlocksSoFar(s: Text, out: seq<Span>, current: Option<Span>, at: nat)
    requires at <= |s|
  {
    && AllHeaded(s, out) && AllSplit(s, out)
    && match current
       case None => Covers(s, out, at)
       case Some(x) => Holds(s, out, x, at) && (out != [] ==> Split(s, Last(out), x))
  }

  method Flush(s: Text, out: seq<Span>, current: Option<Span>, at: nat) returns (flushed: seq<Span>)
    requires at <= |s| && BlocksSoFar(s, out, current, at)
    ensures BlocksSoFar(s, flushed, None, at) && (current.None? ==> flushed == out)
    ensures current.Some? ==> flushed == out + [current.value]
  {
    flushed := out;
    if current.Some? {
      Flushes(s, out, current.value, at);
      flushed := out + [current.value];
    }
  }

  /** A line with text on it: opens a block, or grows the one under way. */
  method TextLine(s: Text, out: seq<Span>, current: Option<Span>, at: nat, lineEnd: nat, next: nat)
    returns (out': seq<Span>, current': Option<Span>)
    requires Valid(s) && at < |s| && Bound(s, at) && AtLine(s, at) && lineEnd == LineEnd(s, at) <= next <= |s|
    requires Bound(s, lineEnd) && Blank(s, lineEnd, next) && next <= lineEnd + 1 && TrimLeft(s, at, lineEnd) < lineEnd
    requires BlocksSoFar(s, out, current, at) && (current.None? ==> GapSeen(s, out, at))
    ensures BlocksSoFar(s, out', current', next) && current'.Some?
  {
    out', current' := out, current;
    var heading := IsHeading(s, at, lineEnd);
    if heading {
      out' := Flush(s, out, current, at);
      current' := None;
    }
    LineTrims(s, at, lineEnd);
    var a, b := TrimLeft(s, at, lineEnd), TrimRight(s, at, lineEnd);
    BlankJoins(s, b, lineEnd, next);
    if current'.None? {
      CoversOn(s, out', at, a);
      Opens(s, at, lineEnd, a, b, heading);
      OneLine(s, at, lineEnd, b, next);
      current' := Some(Span(a, b, heading));
    } else {
      LineNotBlank(s, at, lineEnd);
      Grows(s, out', current'.value, at, lineEnd, a, b);
      OneLine(s, at, lineEnd, b, next);
      current' := Some(current'.value.(end := b));
    }
  }

  /** Finds the blocks: a line of white space ends one, a heading line begins one. */
  method Blocks(s: Text) returns (out: seq<Span>)
    requires Valid(s)
    ensures Covers(s, out, |s|) && AllHeaded(s, out) && AllSplit(s, out)
  {
    out := [];
    var current: Option<Span> := None;
    var at := 0;
    ValidStarts(s);
    while at < |s|
      invariant 0 <= at <= |s| && Bound(s, at) && (at < |s| ==> AtLine(s, at))
      invariant BlocksSoFar(s, out, current, at) && (current.None? ==> GapSeen(s, out, at))
      decreases |s| - at
    {
      var lineEnd := LineEnd(s, at);
      var next := if lineEnd < |s| then lineEnd + 1 else |s|;
      LineBounds(s, at, lineEnd, next);
      if TrimLeft(s, at, lineEnd) == lineEnd {
        out := Flush(s, out, current, at);
        current := None;
        assert BlankAt(s, at);
        BlankJoins(s, at, lineEnd, next);
        CoversOn(s, out, at, next);
      } else {
        out, current := TextLine(s, out, current, at, lineEnd, next);
      }
      at := next;
    }
    out := Flush(s, out, current, at);
  }

  lemma ValidStarts(s: Text)
    requires Valid(s)
    ensures Bound(s, 0)
  {
    if s != [] { assert Size(s, 0, |s|) > 0; }
  }

  /** A line ends, and the next begins, between characters. */
  lemma LineBounds(s: Text, at: nat, lineEnd: nat, next: nat)
    requires Valid(s) && at < |s| && lineEnd == LineEnd(s, at) && next == if lineEnd < |s| then lineEnd + 1 else |s|
    ensures next < |s| ==> AtLine(s, next)
    ensures next <= lineEnd + 1
    ensures Bound(s, lineEnd) && Bound(s, next) && Blank(s, lineEnd, next)
  {
    if lineEnd < |s| {
      CharAt(s, 0, lineEnd);
      NewlineBlank(s, lineEnd);
    }
  }

  /** The block under way: tidy, headed as it should be, and followed by white space alone. */
  ghost predicate Holds(s: Text, out: seq<Span>, x: Span, at: nat)
    requires at <= |s|
  {
    && Tidy(s, x) && Headed(s, x) && x.end <= at && Covers(s, out, x.start) && Blank(s, x.end, at)
    && forall c :: x.end <= c < at ==> !AtLine(s, c)
  }

  /** No line begins between a line's text and the next line. */
  lemma OneLine(s: Text, at: nat, lineEnd: nat, b: nat, next: nat)
    requires at <= |s| && lineEnd == LineEnd(s, at) && at < b <= lineEnd <= next <= lineEnd + 1 && next <= |s|
    ensures forall c :: b <= c < next ==> !AtLine(s, c)
  {}

  lemma Opens(s: Text, at: nat, lineEnd: nat, a: nat, b: nat, heading: bool)
    requires at < |s| && lineEnd == LineEnd(s, at) && AtLine(s, at)
    requires at <= a == TrimLeft(s, at, lineEnd) < b <= lineEnd && heading == HeadingLine(s, at)
    ensures Headed(s, Span(a, b, heading))
  {
    if heading {
      HeadingStarts(s, at, lineEnd);
    }
    assert a > at ==> s[a - 1] != NEWLINE;
  }

  /** What is left of a line once trimmed shows it is not blank. */
  lemma LineNotBlank(s: Text, at: nat, lineEnd: nat)
    requires Valid(s) && at <= |s| && Bound(s, at) && lineEnd == LineEnd(s, at) && TrimLeft(s, at, lineEnd) < lineEnd
    ensures !BlankAt(s, at)
  {
    BlankLeads(s, at, TrimLeft(s, at, lineEnd));
    if Blank(s, at, lineEnd) {
      BlankThrough(s, at, TrimLeft(s, at, lineEnd), lineEnd);
    }
  }

  lemma Grows(s: Text, out: seq<Span>, x: Span, at: nat, lineEnd: nat, a: nat, b: nat)
    requires at < |s| && lineEnd == LineEnd(s, at) && AtLine(s, at) && !HeadingLine(s, at)
    requires Holds(s, out, x, at) && at <= a < b <= lineEnd && Tidy(s, Span(a, b, false)) && !BlankAt(s, at)
    ensures x.end <= at && Tidy(s, x.(end := b)) && Headed(s, x.(end := b)) && Covers(s, out, x.start)
  {
    forall c | x.start < c < b && AtLine(s, c) ensures !HeadingLine(s, c) && !BlankAt(s, c) {
      assert c < x.end || c == at;
    }
  }

  // ---- Packing ----

  /** Where a group of pieces stops. */
  function StopOf(pieces: seq<Span>, cuts: seq<nat>, i: nat): nat
    requires i < |cuts|
  {
    if i + 1 < |cuts| then cuts[i + 1] else |pieces|
  }

  /**
   * A group takes every piece that follows while none is a heading and all fit; the next group opens
   * at the first that is or does not.
   */
  ghost predicate GroupOk(pieces: seq<Span>, cuts: seq<nat>, i: nat)
    requires i < |cuts|
  {
    && cuts[i] < StopOf(pieces, cuts, i) <= |pieces|
    && (forall j :: cuts[i] < j < StopOf(pieces, cuts, i) ==>
          !pieces[j].heading && pieces[j].end <= pieces[cuts[i]].start + PASSAGE_BYTES)
    && (i > 0 ==> cuts[i - 1] < cuts[i]
                  && (pieces[cuts[i]].heading || pieces[cuts[i]].end > pieces[cuts[i - 1]].start + PASSAGE_BYTES))
  }

  ghost predicate Grouped(pieces: seq<Span>, cuts: seq<nat>) {
    && (pieces == [] <==> cuts == []) && (cuts != [] ==> cuts[0] == 0)
    && forall i :: 0 <= i < |cuts| ==> GroupOk(pieces, cuts, i)
  }

  /** The stretch a group covers. */
  function GroupSpan(pieces: seq<Span>, cuts: seq<nat>, i: nat): Span
    requires i < |cuts| && cuts[i] < StopOf(pieces, cuts, i) <= |pieces|
  {
    Span(pieces[cuts[i]].start, pieces[StopOf(pieces, cuts, i) - 1].end, false)
  }

  /** A passage is its group's stretch of the text. */
  ghost predicate EmittedOne(s: Text, source: string, pieces: seq<Span>, cuts: seq<nat>, i: nat, p: Passage)
    requires i < |cuts|
  {
    && GroupOk(pieces, cuts, i)
    && var x := GroupSpan(pieces, cuts, i);
       x.start <= x.end <= |s| && p == Passage(source, i + 1, x.start, s[x.start..x.end])
  }

  ghost predicate Emitted(s: Text, source: string, pieces: seq<Span>, cuts: seq<nat>, passages: seq<Passage>)
    requires |passages| <= |cuts|
  {
    forall i :: 0 <= i < |passages| ==> EmittedOne(s, source, pieces, cuts, i, passages[i])
  }

  /** The open group, from its first piece to the last there is. */
  predicate OpenAt(pieces: seq<Span>, cuts: seq<nat>, start: nat, end: nat) {
    cuts != [] && pieces != [] && Last(cuts) < |pieces| && start == pieces[Last(cuts)].start && end == Last(pieces).end
  }

  /** A new group opens, the one before it emitted. */
  lemma Breaks(s: Text, source: string, pieces: seq<Span>, cuts: seq<nat>, passages: seq<Passage>, piece: Span, start: nat, end: nat)
    requires Grouped(pieces, cuts) && |passages| + 1 == |cuts| && Emitted(s, source, pieces, cuts, passages)
    requires OpenAt(pieces, cuts, start, end) && start <= end <= |s|
    requires piece.heading || piece.end > start + PASSAGE_BYTES
    ensures
      var more, cuts' := pieces + [piece], cuts + [|pieces|];
      Grouped(more, cuts') && Emitted(s, source, more, cuts', passages + [Passage(source, |passages| + 1, start, s[start..end])])
  {
    var more, cuts' := pieces + [piece], cuts + [|pieces|];
    forall i | 0 <= i < |cuts'| ensures GroupOk(more, cuts', i) {
      if i < |cuts| { assert GroupOk(pieces, cuts, i); }
    }
    var all := passages + [Passage(source, |passages| + 1, start, s[start..end])];
    forall i | 0 <= i < |all| ensures EmittedOne(s, source, more, cuts', i, all[i]) {
      assert GroupOk(pieces, cuts, i) && GroupOk(more, cuts', i);
      if i < |passages| {
        assert EmittedOne(s, source, pieces, cuts, i, passages[i]);
        assert GroupSpan(more, cuts', i) == GroupSpan(pieces, cuts, i);
      }
    }
  }

  /** A piece joins the open group. */
  lemma Joins(s: Text, source: string, pieces: seq<Span>, cuts: seq<nat>, passages: seq<Passage>, piece: Span, start: nat, end: nat)
    requires Grouped(pieces, cuts) && |passages| + 1 == |cuts| && Emitted(s, source, pieces, cuts, passages)
    requires OpenAt(pieces, cuts, start, end)
    requires !piece.heading && piece.end <= start + PASSAGE_BYTES
    ensures Grouped(pieces + [piece], cuts) && Emitted(s, source, pieces + [piece], cuts, passages)
  {
    var more := pieces + [piece];
    forall i | 0 <= i < |cuts| ensures GroupOk(more, cuts, i) {
      assert GroupOk(pieces, cuts, i);
    }
    forall i | 0 <= i < |passages| ensures EmittedOne(s, source, more, cuts, i, passages[i]) {
      assert EmittedOne(s, source, pieces, cuts, i, passages[i]) && GroupOk(more, cuts, i);
      assert GroupSpan(more, cuts, i) == GroupSpan(pieces, cuts, i);
    }
  }

  /** The last group, emitted. */
  lemma Closes(s: Text, source: string, pieces: seq<Span>, cuts: seq<nat>, passages: seq<Passage>, start: nat, end: nat)
    requires Grouped(pieces, cuts) && |passages| + 1 == |cuts| && Emitted(s, source, pieces, cuts, passages)
    requires OpenAt(pieces, cuts, start, end) && start <= end <= |s|
    ensures Emitted(s, source, pieces, cuts, passages + [Passage(source, |passages| + 1, start, s[start..end])])
  {
    var all := passages + [Passage(source, |passages| + 1, start, s[start..end])];
    forall i | 0 <= i < |all| ensures EmittedOne(s, source, pieces, cuts, i, all[i]) {
      assert GroupOk(pieces, cuts, i);
    }
  }

  function Concat(parts: seq<seq<Span>>): seq<Span> {
    if parts == [] then [] else Concat(parts[..|parts| - 1]) + Last(parts)
  }

  /** Each block's pieces, in order. */
  ghost predicate PiecesAll(s: Text, spans: seq<Span>, parts: seq<seq<Span>>) {
    |parts| == |spans| && forall k :: 0 <= k < |spans| ==> PiecesOf(s, spans[k], parts[k])
  }

  lemma FollowJoins(s: Text, front: seq<Span>, own: seq<Span>)
    requires Follow(s, front) && Follow(s, own) && own != []
    requires front != [] ==> Last(front).end <= own[0].start && Blank(s, Last(front).end, own[0].start)
    ensures Follow(s, front + own)
  {
    var all := front + own;
    forall k | 0 < k < |all| ensures all[k - 1].end <= all[k].start && Blank(s, all[k - 1].end, all[k].start) {
      if k < |front| {
        assert all[k - 1] == front[k - 1] && all[k] == front[k];
      } else if k == |front| {
        assert all[k - 1] == Last(front) && all[k] == own[0];
      } else {
        assert all[k - 1] == own[k - 1 - |front|] && all[k] == own[k - |front|];
      }
    }
  }

  lemma PiecesEnds(s: Text, spans: seq<Span>, parts: seq<seq<Span>>, k: nat)
    requires PiecesAll(s, spans, parts) && k < |spans|
    ensures Follow(s, parts[k]) && parts[k] != []
    ensures parts[k][0].start == spans[k].start && Last(parts[k]).end == spans[k].end
  {
    assert PiecesOf(s, spans[k], parts[k]);
  }

  lemma PiecesFront(s: Text, spans: seq<Span>, parts: seq<seq<Span>>, n: nat)
    requires Follow(s, spans) && PiecesAll(s, spans, parts) && n < |spans|
    ensures Follow(s, spans[..n]) && PiecesAll(s, spans[..n], parts[..n])
    ensures n > 0 ==> Last(spans[..n]).end <= spans[n].start && Blank(s, Last(spans[..n]).end, spans[n].start)
  {}

  /** Blocks in order keep their pieces in order: from the first block's start to the last one's end. */
  lemma {:induction false} PiecesFollow(s: Text, spans: seq<Span>, parts: seq<seq<Span>>)
    requires Follow(s, spans) && PiecesAll(s, spans, parts)
    ensures Follow(s, Concat(parts)) && (spans == [] <==> Concat(parts) == [])
    ensures spans != [] ==> Concat(parts)[0].start == spans[0].start && Last(Concat(parts)).end == Last(spans).end
  {
    if spans != [] {
      var n := |spans| - 1;
      var front, own := Concat(parts[..n]), parts[n];
      PiecesFront(s, spans, parts, n);
      PiecesFollow(s, spans[..n], parts[..n]);
      PiecesEnds(s, spans, parts, n);
      FollowJoins(s, front, own);
      JoinEnds(front, own);
    }
  }

  lemma JoinEnds(front: seq<Span>, own: seq<Span>)
    requires own != []
    ensures Last(front + own) == Last(own) && (front + own)[0] == if front == [] then own[0] else front[0]
  {}

  lemma {:induction false} PiecesTidy(s: Text, spans: seq<Span>, parts: seq<seq<Span>>)
    requires PiecesAll(s, spans, parts)
    ensures AllFit(Concat(parts)) && (AllTidy(s, spans) ==> AllTidy(s, Concat(parts)))
  {
    if spans != [] {
      var n := |spans| - 1;
      PiecesTidy(s, spans[..n], parts[..n]);
      assert PiecesOf(s, spans[n], parts[n]);
    }
  }

  /** What packing leaves: the blocks' pieces, grouped, each group a passage. */
  ghost predicate Packed(s: Text, source: string, spans: seq<Span>, parts: seq<seq<Span>>, cuts: seq<nat>, passages: seq<Passage>) {
    && PiecesAll(s, spans, parts) && Grouped(Concat(parts), cuts)
    && |passages| == |cuts| && Emitted(s, source, Concat(parts), cuts, passages)
  }

  /** Where packing has got to: the groups before the open one emitted, and the open one's ends in hand. */
  ghost predicate PackSoFar(s: Text, source: string, pieces: seq<Span>, cuts: seq<nat>, passages: seq<Passage>, open: bool, start: nat, end: nat) {
    && Grouped(pieces, cuts) && (open <==> pieces != [])
    && (if open then |passages| + 1 == |cuts| && OpenAt(pieces, cuts, start, end) && start <= end <= |s| else passages == [])
    && Emitted(s, source, pieces, cuts, passages)
  }

  method PackOne(s: Text, source: string, passages: seq<Passage>, open: bool, start: nat, end: nat, piece: Span, ghost pieces: seq<Span>, ghost cuts: seq<nat>)
    returns (passages': seq<Passage>, start': nat, end': nat, ghost cuts': seq<nat>)
    requires PackSoFar(s, source, pieces, cuts, passages, open, start, end)
    requires piece.start <= piece.end <= |s| && (open ==> end <= piece.start)
    ensures PackSoFar(s, source, pieces + [piece], cuts', passages', true, start', end') && end' == piece.end
  {
    passages', start', end', cuts' := passages, start, end, cuts;
    if !open {
      start', end', cuts' := piece.start, piece.end, [0];
      assert GroupOk([piece], [0], 0);
      assert pieces + [piece] == [piece];
    } else if piece.heading || piece.end - start > PASSAGE_BYTES {
      Breaks(s, source, pieces, cuts, passages, piece, start, end);
      passages' := passages + [Passage(source, |passages| + 1, start, s[start..end])];
      start', end', cuts' := piece.start, piece.end, cuts + [|pieces|];
    } else {
      Joins(s, source, pieces, cuts, passages, piece, start, end);
      end' := piece.end;
    }
    assert Last(pieces + [piece]) == piece;
  }

  lemma NextStarts(s: Text, pieces: seq<Span>, k: nat)
    requires Follow(s, pieces) && k < |pieces|
    ensures pieces[k].start <= pieces[k].end <= |s| && (k > 0 ==> pieces[k - 1].end <= pieces[k].start)
  {
    assert Inside(s, pieces[k]);
  }

  lemma TakesOne(before: seq<Span>, pieces: seq<Span>, k: nat)
    requires k < |pieces|
    ensures before + pieces[..k + 1] == before + pieces[..k] + [pieces[k]]
  {}

  /** One block's pieces, one by one. */
  method PackPieces(
    s: Text, source: string, passages: seq<Passage>, open: bool, start: nat, end: nat, pieces: seq<Span>, ghost before: seq<Span>, ghost cuts: seq<nat>)
    returns (passages': seq<Passage>, open': bool, start': nat, end': nat, ghost cuts': seq<nat>)
    requires PackSoFar(s, source, before, cuts, passages, open, start, end)
    requires Follow(s, pieces) && pieces != [] && (open ==> end <= pieces[0].start)
    ensures PackSoFar(s, source, before + pieces, cuts', passages', open', start', end')
  {
    passages', open', start', end', cuts' := passages, open, start, end, cuts;
    assert before + pieces[..0] == before;
    for k := 0 to |pieces|
      invariant PackSoFar(s, source, before + pieces[..k], cuts', passages', open', start', end')
      invariant k < |pieces| && open' ==> end' <= pieces[k].start
    {
      NextStarts(s, pieces, k);
      TakesOne(before, pieces, k);
      passages', start', end', cuts' := PackOne(s, source, passages', open', start', end', pieces[k], before + pieces[..k], cuts');
      open' := true;
      if k + 1 < |pieces| { NextStarts(s, pieces, k + 1); }
    }
    assert pieces[..|pieces|] == pieces;
  }

  /** What is in hand ends before the next block's pieces begin. */
  lemma EndsBefore(s: Text, spans: seq<Span>, b: nat, parts: seq<seq<Span>>)
    requires Follow(s, spans) && b < |spans| && PiecesAll(s, spans[..b], parts)
    ensures Concat(parts) != [] ==> Last(Concat(parts)).end <= spans[b].start
  {
    PiecesFollow(s, spans[..b], parts);
    if b > 0 {
      assert Last(spans[..b]) == spans[b - 1];
    }
  }

  lemma PartsMore(s: Text, spans: seq<Span>, b: nat, parts: seq<seq<Span>>, pieces: seq<Span>)
    requires b < |spans| && PiecesAll(s, spans[..b], parts) && PiecesOf(s, spans[b], pieces)
    ensures PiecesAll(s, spans[..b + 1], parts + [pieces]) && Concat(parts + [pieces]) == Concat(parts) + pieces
  {
    var more := parts + [pieces];
    assert more[..|more| - 1] == parts;
    forall k | 0 <= k < b + 1 ensures PiecesOf(s, spans[..b + 1][k], more[k]) {
      if k < b { assert PiecesOf(s, spans[..b][k], parts[k]); }
    }
  }

  /** Cuts each block and gathers the pieces: one that is a heading or overfills the open passage closes it. */
  method Pack(source: string, s: Text, spans: seq<Span>) returns (passages: seq<Passage>, ghost parts: seq<seq<Span>>, ghost cuts: seq<nat>)
    requires Valid(s) && Follow(s, spans)
    ensures Packed(s, source, spans, parts, cuts, passages)
  {
    passages, parts, cuts := [], [], [];
    var open, start: nat, end: nat := false, 0, 0;
    for b := 0 to |spans|
      invariant PiecesAll(s, spans[..b], parts)
      invariant PackSoFar(s, source, Concat(parts), cuts, passages, open, start, end)
    {
      var pieces := Cut(s, spans[b]);
      EndsBefore(s, spans, b, parts);
      PartsMore(s, spans, b, parts, pieces);
      passages, open, start, end, cuts := PackPieces(s, source, passages, open, start, end, pieces, Concat(parts), cuts);
      parts := parts + [pieces];
    }
    assert spans[..|spans|] == spans;
    if open {
      Closes(s, source, Concat(parts), cuts, passages, start, end);
      passages := passages + [Passage(source, |passages| + 1, start, s[start..end])];
    }
  }

  // ---- What it comes to ----

  /** Where a passage lies in its text. */
  function SpanOf(p: Passage): Span {
    Span(p.offset, p.offset + |p.text|, false)
  }

  /**
   * Passages numbered from 1, in order and disjoint, each the text's own bytes at its offset, of one
   * byte to the cap, cut between characters, neither starting nor ending in white space, and with
   * nothing but white space before, between and after them.
   */
  ghost predicate Cuts(s: Text, source: string, passages: seq<Passage>) {
    && (forall i :: 0 <= i < |passages| ==> PassageOk(s, source, passages[i], i))
    && (forall i :: 0 < i < |passages| ==> Between(s, passages[i - 1], passages[i]))
    && (if passages == [] then Blank(s, 0, |s|) else Rim(s, passages[0], Last(passages)))
  }

  ghost predicate PassageOk(s: Text, source: string, p: Passage, i: nat) {
    && p.ordinal == i + 1 && p.source == source && Tidy(s, SpanOf(p))
    && p.text == s[p.offset..p.offset + |p.text|] && 1 <= |p.text| <= PASSAGE_BYTES
  }

  predicate Between(s: Text, p: Passage, q: Passage) {
    SpanOf(p).end <= q.offset <= |s| && Blank(s, SpanOf(p).end, q.offset)
  }

  predicate Rim(s: Text, first: Passage, last: Passage) {
    first.offset <= |s| && Blank(s, 0, first.offset) && SpanOf(last).end <= |s| && Blank(s, SpanOf(last).end, |s|)
  }

  lemma GroupFits(s: Text, pieces: seq<Span>, cuts: seq<nat>, i: nat)
    requires Follow(s, pieces) && AllFit(pieces) && AllTidy(s, pieces) && i < |cuts| && GroupOk(pieces, cuts, i)
    ensures Tidy(s, GroupSpan(pieces, cuts, i))
    ensures GroupSpan(pieces, cuts, i).end - GroupSpan(pieces, cuts, i).start <= PASSAGE_BYTES
  {
    var first, last := cuts[i], StopOf(pieces, cuts, i) - 1;
    Ordered(s, pieces, first, last);
    assert Tidy(s, pieces[first]) && Tidy(s, pieces[last]);
  }

  lemma {:induction false} Ordered(s: Text, pieces: seq<Span>, a: nat, b: nat)
    requires Follow(s, pieces) && a <= b < |pieces|
    ensures pieces[a].start <= pieces[b].start && pieces[a].end <= pieces[b].end
    decreases b - a
  {
    assert Inside(s, pieces[b]);
    if a < b {
      Ordered(s, pieces, a, b - 1);
      assert Inside(s, pieces[b - 1]);
    }
  }

  lemma PassageIs(s: Text, source: string, pieces: seq<Span>, cuts: seq<nat>, passages: seq<Passage>, i: nat)
    requires Follow(s, pieces) && AllFit(pieces) && AllTidy(s, pieces)
    requires |passages| == |cuts| && Emitted(s, source, pieces, cuts, passages) && i < |passages|
    ensures GroupOk(pieces, cuts, i) && SpanOf(passages[i]) == GroupSpan(pieces, cuts, i)
    ensures PassageOk(s, source, passages[i], i)
  {
    assert EmittedOne(s, source, pieces, cuts, i, passages[i]);
    GroupFits(s, pieces, cuts, i);
  }

  lemma PassageAfter(s: Text, source: string, pieces: seq<Span>, cuts: seq<nat>, passages: seq<Passage>, i: nat)
    requires Follow(s, pieces) && AllFit(pieces) && AllTidy(s, pieces)
    requires |passages| == |cuts| && Emitted(s, source, pieces, cuts, passages) && 0 < i < |passages|
    ensures Between(s, passages[i - 1], passages[i])
  {
    PassageIs(s, source, pieces, cuts, passages, i);
    PassageIs(s, source, pieces, cuts, passages, i - 1);
    NextStarts(s, pieces, cuts[i]);
  }

  lemma PassagesRim(s: Text, source: string, spans: seq<Span>, pieces: seq<Span>, cuts: seq<nat>, passages: seq<Passage>)
    requires Follow(s, pieces) && AllFit(pieces) && AllTidy(s, pieces) && Grouped(pieces, cuts) && pieces != []
    requires |passages| == |cuts| && Emitted(s, source, pieces, cuts, passages)
    requires spans != [] && Covers(s, spans, |s|) && pieces[0].start == spans[0].start && Last(pieces).end == Last(spans).end
    ensures passages != [] && Rim(s, passages[0], Last(passages))
  {
    PassageIs(s, source, pieces, cuts, passages, 0);
    PassageIs(s, source, pieces, cuts, passages, |passages| - 1);
  }

  // ---- Blocks that are not tidy ----

  /** A block starts or ends here. */
  ghost predicate Edge(spans: seq<Span>, at: nat) {
    exists v :: 0 <= v < |spans| && (spans[v].start == at || spans[v].end == at)
  }

  /** A block is white space from its start to here, and goes on. */
  ghost predicate InBlankStart(s: Text, spans: seq<Span>, at: nat) {
    exists v :: 0 <= v < |spans| && spans[v].start < at < spans[v].end <= |s| && Blank(s, spans[v].start, at)
  }

  ghost predicate EdgedIn(s: Text, spans: seq<Span>, piece: Span) {
    exists v :: 0 <= v < |spans| && Edged(s, spans[v], piece)
  }

  lemma {:induction false} AllEdgedIn(s: Text, spans: seq<Span>, parts: seq<seq<Span>>, n: nat, k: nat)
    requires PiecesAll(s, spans, parts) && n <= |parts| && k < |Concat(parts[..n])|
    ensures EdgedIn(s, spans, Concat(parts[..n])[k])
  {
    if n > 0 {
      assert parts[..n][..n - 1] == parts[..n - 1] && Last(parts[..n]) == parts[n - 1];
      if k < |Concat(parts[..n - 1])| {
        AllEdgedIn(s, spans, parts, n - 1, k);
      } else {
        assert PiecesOf(s, spans[n - 1], parts[n - 1]);
        assert Edged(s, spans[n - 1], parts[n - 1][k - |Concat(parts[..n - 1])|]);
      }
    }
  }

  /** Why a stretch is untidy: it holds nothing, or has a block's own white space at its start or its end. */
  ghost predicate Untidy(s: Text, spans: seq<Span>, x: Span)
    requires x.end <= |s|
  {
    || x.start == x.end || (HeadSpace(s, x.start) && Edge(spans, x.start))
    || (TailSpace(s, x.end) && Edge(spans, x.end)) || InBlankStart(s, spans, x.end)
  }

  lemma HeadEdge(s: Text, spans: seq<Span>, piece: Span)
    requires EdgedIn(s, spans, piece)
    ensures HeadSpace(s, piece.start) ==> Edge(spans, piece.start)
  {}

  lemma TailEdge(s: Text, spans: seq<Span>, piece: Span)
    requires EdgedIn(s, spans, piece) && Follow(s, spans)
    ensures piece.end <= |s|
    ensures TailSpace(s, piece.end) ==> Edge(spans, piece.end) || InBlankStart(s, spans, piece.end)
  {
    var v :| 0 <= v < |spans| && Edged(s, spans[v], piece);
    assert Inside(s, spans[v]);
  }

  lemma StartsBlank(s: Text, spans: seq<Span>, at: nat)
    requires at <= |s| && InBlankStart(s, spans, at)
    ensures TailSpace(s, at)
  {
    var v :| 0 <= v < |spans| && spans[v].start < at < spans[v].end <= |s| && Blank(s, spans[v].start, at);
    BlankTail(s, spans[v].start, at);
  }

  lemma GroupTidy(s: Text, spans: seq<Span>, a: Span, b: Span)
    requires Follow(s, spans) && EdgedIn(s, spans, a) && EdgedIn(s, spans, b)
    requires Inside(s, a) && Inside(s, b) && a.start <= b.end
    ensures !Tidy(s, Span(a.start, b.end, false)) <==> Untidy(s, spans, Span(a.start, b.end, false))
  {
    HeadEdge(s, spans, a);
    TailEdge(s, spans, b);
    if InBlankStart(s, spans, b.end) { StartsBlank(s, spans, b.end); }
  }

  /** The first and the last piece of a passage. */
  lemma GroupEnds(s: Text, source: string, pieces: seq<Span>, cuts: seq<nat>, passages: seq<Passage>, i: nat) returns (first: nat, last: nat)
    requires Follow(s, pieces) && |passages| == |cuts| && Emitted(s, source, pieces, cuts, passages) && i < |passages|
    ensures first <= last < |pieces| && Inside(s, pieces[first]) && Inside(s, pieces[last])
    ensures pieces[first].start <= pieces[last].end && SpanOf(passages[i]) == Span(pieces[first].start, pieces[last].end, false)
  {
    assert EmittedOne(s, source, pieces, cuts, i, passages[i]);
    first, last := cuts[i], StopOf(pieces, cuts, i) - 1;
    Ordered(s, pieces, first, last);
    assert Inside(s, pieces[first]) && Inside(s, pieces[last]);
  }

  /**
   * Whatever the blocks hold, a passage is untidy exactly if it is empty, or it begins or ends where a
   * block does with white space there, or it ends inside the white space a long block starts with.
   */
  lemma TidyExactly(s: Text, source: string, spans: seq<Span>, parts: seq<seq<Span>>, cuts: seq<nat>, passages: seq<Passage>, i: nat)
    requires Follow(s, spans) && Packed(s, source, spans, parts, cuts, passages) && i < |passages|
    ensures SpanOf(passages[i]).end <= |s| && (!Tidy(s, SpanOf(passages[i])) <==> Untidy(s, spans, SpanOf(passages[i])))
  {
    var pieces := Concat(parts);
    PiecesFollow(s, spans, parts);
    var first, last := GroupEnds(s, source, pieces, cuts, passages, i);
    assert parts[..|parts|] == parts;
    AllEdgedIn(s, spans, parts, |parts|, first);
    AllEdgedIn(s, spans, parts, |parts|, last);
    GroupTidy(s, spans, pieces[first], pieces[last]);
  }

  lemma PackedCuts(s: Text, source: string, spans: seq<Span>, parts: seq<seq<Span>>, cuts: seq<nat>, passages: seq<Passage>)
    requires Covers(s, spans, |s|) && Packed(s, source, spans, parts, cuts, passages)
    ensures Cuts(s, source, passages)
  {
    var pieces := Concat(parts);
    PiecesFollow(s, spans, parts);
    PiecesTidy(s, spans, parts);
    forall i | 0 <= i < |passages| ensures PassageOk(s, source, passages[i], i) {
      PassageIs(s, source, pieces, cuts, passages, i);
    }
    forall i | 0 < i < |passages| ensures Between(s, passages[i - 1], passages[i]) {
      PassageAfter(s, source, pieces, cuts, passages, i);
    }
    if spans != [] {
      PassagesRim(s, source, spans, pieces, cuts, passages);
    }
  }

  /** Cuts a text document; `parts` and `cuts` show which block, and which group of pieces, a passage is of. */
  method TextPassages(source: string, s: Text)
    returns (passages: seq<Passage>, ghost spans: seq<Span>, ghost parts: seq<seq<Span>>, ghost cuts: seq<nat>)
    requires Valid(s)
    ensures Cuts(s, source, passages)
    ensures Covers(s, spans, |s|) && AllHeaded(s, spans) && AllSplit(s, spans)
    ensures Packed(s, source, spans, parts, cuts, passages)
  {
    var blocks := Blocks(s);
    spans := blocks;
    passages, parts, cuts := Pack(source, s, blocks);
    PackedCuts(s, source, blocks, parts, cuts, passages);
  }
}
