/** How a text is cut into passages: blocks, the pieces a long block is cut into, and their packing. */
module Passages {
  import opened Common
  import opened Utf8

  /** The most bytes a passage holds. */
  const PASSAGE_BYTES: nat := 1024

  datatype Span = Span(start: nat, end: nat, heading: bool)

  datatype Passage = Passage(source: string, ordinal: nat, offset: nat, text: Text)

  // ---- What spans promise ----

  /** A stretch between two characters. */
  predicate Inside(s: Text, x: Span) {
    x.start <= x.end <= |s| && Bound(s, x.start) && Bound(s, x.end)
  }

  /** White space begins here. */
  predicate HeadSpace(s: Text, at: nat) {
    at < |s| && SpaceSize(s, at, |s|) > 0
  }

  /** White space ends here. */
  ghost predicate TailSpace(s: Text, at: nat)
    requires at <= |s|
  {
    exists j :: 0 <= j < at && SpaceSize(s, j, at) == at - j
  }

  /** Holding something, and neither starting nor ending in white space. */
  ghost predicate Tidy(s: Text, x: Span) {
    Inside(s, x) && x.start < x.end && SpaceSize(s, x.start, |s|) == 0 && !TailSpace(s, x.end)
  }

  /** In order, with nothing but white space between one and the next. */
  ghost predicate Follow(s: Text, xs: seq<Span>) {
    && (forall k :: 0 <= k < |xs| ==> Inside(s, xs[k]))
    && (forall k :: 0 < k < |xs| ==> xs[k - 1].end <= xs[k].start && Blank(s, xs[k - 1].end, xs[k].start))
  }

  // ---- Cutting ----

  /** No whole white space begins in s[at..hi]. */
  ghost predicate NoneFrom(s: Text, at: nat, hi: nat)
    requires at <= hi <= |s|
  {
    forall j :: at <= j < hi ==> SpaceSize(s, j, hi) == 0
  }

  /** A character that runs past `at` runs past `hi` too. */
  ghost predicate Straddles(s: Text, lo: nat, at: nat, hi: nat)
    requires lo <= at <= hi <= |s|
  {
    forall j :: lo <= j < at && Size(s, j, |s|) > 0 && j + Size(s, j, |s|) > at ==> j + Size(s, j, |s|) > hi
  }

  /** One character back over something that is no white space. */
  lemma StepsBack(s: Text, lo: nat, at: nat, hi: nat)
    requires Valid(s) && Bound(s, lo) && lo < at <= hi <= |s|
    requires NoneFrom(s, at, hi) && Straddles(s, lo, at, hi) && !DecodeLast(s, lo, at).space
    ensures
      var to := at - DecodeLast(s, lo, at).size;
      NoneFrom(s, to, hi) && Straddles(s, lo, to, hi)
  {
    var to := at - DecodeLast(s, lo, at).size;
    forall j | to <= j < hi ensures SpaceSize(s, j, hi) == 0 {
      if j < at && SpaceSize(s, j, hi) > 0 {
        SpaceSeen(s, lo, j, at, hi);
      }
    }
    forall j | lo <= j < to && Size(s, j, |s|) > 0 && j + Size(s, j, |s|) > to ensures j + Size(s, j, |s|) > hi {
      Overlaps(s, lo, j, at);
    }
  }

  /** A whole white space that begins just before `at` is what is decoded there. */
  lemma SpaceSeen(s: Text, lo: nat, j: nat, at: nat, hi: nat)
    requires Valid(s) && lo <= j < at <= hi <= |s| && Straddles(s, lo, at, hi)
    requires SpaceSize(s, j, hi) > 0 && j >= at - DecodeLast(s, lo, at).size
    ensures DecodeLast(s, lo, at).space
  {
    var n := SpaceSize(s, j, hi);
    SizeWithin(s, j, hi, |s|);
    CharAt(s, 0, j);
    assert j + n <= at;
    WholeTail(s, lo, j, at);
    SizeWithin(s, j, at, hi);
    DecodesWhole(s, lo, at, j);
  }

  /** A character that ends before `at` is not in what is decoded at `at`. */
  lemma WholeTail(s: Text, lo: nat, j: nat, at: nat)
    requires Valid(s) && lo <= j < at <= |s| && RuneStart(s[j])
    ensures j + Size(s, j, |s|) < at ==> j < at - DecodeLast(s, lo, at).size
  {
    var r := DecodeLast(s, lo, at);
    CharAt(s, 0, j);
    if r.size > 1 {
      var start := at - r.size;
      SizeWithin(s, start, at, |s|);
      CharAt(s, 0, start);
    }
  }

  /** A character that runs past where the decoded one begins runs past its end. */
  lemma Overlaps(s: Text, lo: nat, j: nat, at: nat)
    requires Valid(s) && lo < at <= |s|
    requires lo <= j < at - DecodeLast(s, lo, at).size && Size(s, j, |s|) > 0
    requires j + Size(s, j, |s|) > at - DecodeLast(s, lo, at).size
    ensures j + Size(s, j, |s|) > at
  {
    var r := DecodeLast(s, lo, at);
    var start := at - r.size;
    assert RuneStart(s[j]);
    CharAt(s, 0, j);
    if r.size == 1 && j + Size(s, j, |s|) == at {
      SizeWithin(s, j, at, |s|);
      DecodesWhole(s, lo, at, j);
    }
  }

  /**
   * Where the last run of white space in s[lo..hi] begins; `lo` when there is none past its first
   * byte. The window's end may fall inside a character.
   */
  method LastWhitespaceRun(s: Text, lo: nat, hi: nat) returns (at: nat)
    requires Valid(s) && Bound(s, lo) && lo <= hi <= |s|
    ensures lo <= at <= hi && Bound(s, at)
    ensures at > lo ==> at < hi && SpaceSize(s, at, hi) > 0 && !TailSpace(s, at)
    ensures exists e :: at <= e <= hi && Blank(s, at, e) && NoneFrom(s, e, hi) && (at == e ==> at == lo)
  {
    at := hi;
    while at > lo
      invariant lo <= at <= hi && NoneFrom(s, at, hi) && Straddles(s, lo, at, hi)
      decreases at
    {
      var r := DecodeLast(s, lo, at);
      if r.space { break; }
      StepsBack(s, lo, at, hi);
      at := at - r.size;
    }
    if at == lo {
      assert Blank(s, lo, lo);
      return;
    }
    ghost var e := at;
    DecodesSpace(s, lo, at);
    SpaceBounds(s, lo, at);
    while at > lo
      invariant lo <= at <= e <= hi && Bound(s, at) && Blank(s, at, e)
      invariant at == e ==> DecodeLast(s, lo, at).space && at > lo
      invariant at < e ==> SpaceSize(s, at, e) > 0
      decreases at
    {
      var j := EndsAt(s, lo, at);
      var r := DecodeLast(s, lo, at);
      if !r.space { break; }
      BlankOne(s, j, at);
      BlankJoins(s, j, at, e);
      SizeWithin(s, j, at, e);
      at := at - r.size;
    }
    SizeWithin(s, at, e, hi);
    if at > lo {
      NoSpaceEnds(s, lo, at);
    }
  }

  /** Decoded white space ends between characters. */
  lemma SpaceBounds(s: Text, lo: nat, at: nat)
    requires Valid(s) && lo < at <= |s| && DecodeLast(s, lo, at).space
    ensures Bound(s, at)
  {
    var j := at - DecodeLast(s, lo, at).size;
    DecodesSpace(s, lo, at);
    SizeWithin(s, j, at, |s|);
    CharAt(s, 0, j);
  }

  /** What is not decoded as white space does not end in it. */
  lemma NoSpaceEnds(s: Text, lo: nat, at: nat)
    requires Valid(s) && Bound(s, lo) && lo < at <= |s| && Bound(s, at) && !DecodeLast(s, lo, at).space
    ensures !TailSpace(s, at)
  {
    var c := EndsAt(s, lo, at);
    forall j | 0 <= j < at ensures SpaceSize(s, j, at) != at - j {
      if SpaceSize(s, j, at) == at - j {
        SizeWithin(s, j, at, |s|);
        CharAt(s, 0, j);
      }
    }
  }

  /** The largest cut at or below a limit that splits no character. */
  method Boundary(s: Text, lo: nat, limit: nat) returns (at: nat)
    requires Valid(s) && lo <= |s| && Bound(s, lo)
    ensures lo <= at <= lo + limit && at <= |s| && Bound(s, at)
    ensures forall k :: at < k <= lo + limit && k <= |s| ==> !Bound(s, k)
    ensures lo + limit <= |s| ==> at + 3 >= lo + limit
  {
    if lo + limit >= |s| { return |s|; }
    at := lo + limit;
    while at > lo && !RuneStart(s[at])
      invariant lo <= at <= lo + limit && forall k :: at < k <= lo + limit ==> !RuneStart(s[k])
    {
      at := at - 1;
    }
    CharAt(s, 0, at);
  }

  /**
   * The cut of a window is where its last run of white space begins, and where it has none past its
   * first byte, the last character boundary the cap allows.
   */
  ghost predicate CutRight(s: Text, start: nat, at: nat)
    requires start + PASSAGE_BYTES + 1 <= |s| && at <= start + PASSAGE_BYTES
  {
    var hi := start + PASSAGE_BYTES + 1;
    || (exists e :: at < e <= hi && Blank(s, at, e) && NoneFrom(s, e, hi))
    || ((exists e :: start <= e <= hi && Blank(s, start, e) && NoneFrom(s, e, hi)) && forall k :: at < k < hi ==> !Bound(s, k))
  }

  /** What one window of a long block is cut at, and where the rest resumes. */
  method CutAt(s: Text, start: nat, end: nat) returns (at: nat, resume: nat)
    requires Valid(s) && start <= end <= |s| && Bound(s, start) && Bound(s, end) && end - start > PASSAGE_BYTES
    ensures start < at <= start + PASSAGE_BYTES && at <= resume <= end
    ensures Bound(s, at) && Bound(s, resume) && Blank(s, at, resume)
    ensures resume < end ==> SpaceSize(s, resume, |s|) == 0
    ensures SpaceSize(s, start, |s|) == 0 ==> !TailSpace(s, at)
    ensures TailSpace(s, at) ==> Blank(s, start, at)
    ensures CutRight(s, start, at)
  {
    var hi := start + PASSAGE_BYTES + 1;
    at := Boundary(s, start, PASSAGE_BYTES);
    ghost var whole := at;
    var space := LastWhitespaceRun(s, start, hi);
    if space > start {
      at := space;
    } else {
      ghost var e :| start <= e <= hi && Blank(s, start, e) && NoneFrom(s, e, hi);
      BlankOrNone(s, start, e, whole, hi);
      if SpaceSize(s, start, |s|) == 0 {
        NothingBlank(s, start, e);
      }
    }
    resume := TrimLeft(s, at, end);
    BlankLeads(s, at, resume);
    if resume < end {
      WholeBefore(s, resume, end);
    }
  }

  lemma NothingBlank(s: Text, start: nat, e: nat)
    requires start <= e <= |s| && Blank(s, start, e) && (start < |s| ==> SpaceSize(s, start, |s|) == 0)
    ensures e == start
  {
    if start < e { SizeWithin(s, start, e, |s|); }
  }

  /** Cut where a window has white space only at its start, if anywhere: in that white space, or after something else. */
  lemma BlankOrNone(s: Text, start: nat, e: nat, at: nat, hi: nat)
    requires Valid(s) && start <= e <= hi <= |s| && start < at <= hi && Bound(s, start) && Bound(s, at)
    requires Blank(s, start, e) && NoneFrom(s, e, hi)
    ensures if at <= e then Blank(s, start, at) else !TailSpace(s, at)
  {
    if at <= e {
      BlankPart(s, start, at, e);
    } else {
      BlankLeads(s, start, e);
      NoneEnds(s, e, at, hi);
    }
  }

  /** White space up to a boundary inside it. */
  lemma {:induction false} BlankPart(s: Text, i: nat, at: nat, j: nat)
    requires Valid(s) && i <= at <= j <= |s| && Bound(s, i) && Bound(s, at) && Blank(s, i, j)
    ensures Blank(s, i, at)
    decreases at - i
  {
    if i < at {
      var n := SpaceSize(s, i, j);
      SizeWithin(s, i, j, |s|);
      CharAt(s, 0, i);
      SizeWithin(s, i, at, j);
      BlankPart(s, i + n, at, j);
    }
  }

  lemma NoneEnds(s: Text, start: nat, at: nat, hi: nat)
    requires Valid(s) && start < at <= hi <= |s| && Bound(s, start) && Bound(s, at) && NoneFrom(s, start, hi)
    ensures !TailSpace(s, at)
  {
    var c := EndsAt(s, start, at);
    SizeWithin(s, c, at, hi);
    NoSpaceEnds(s, start, at);
  }

  /** What is no white space before the end of a block is none at all. */
  lemma WholeBefore(s: Text, i: nat, hi: nat)
    requires Valid(s) && i < hi <= |s| && Bound(s, i) && Bound(s, hi) && SpaceSize(s, i, hi) == 0
    ensures SpaceSize(s, i, |s|) == 0
  {
    Apart(s, i, hi);
    SizeWithin(s, i, hi, |s|);
  }

  ghost predicate AllFit(pieces: seq<Span>) {
    forall k :: 0 <= k < |pieces| ==> pieces[k].end - pieces[k].start <= PASSAGE_BYTES
  }

  ghost predicate AllTidy(s: Text, pieces: seq<Span>) {
    forall k :: 0 <= k < |pieces| ==> Tidy(s, pieces[k])
  }

  ghost predicate AllCut(s: Text, block: Span, pieces: seq<Span>) {
    forall k :: 0 <= k < |pieces| ==> CutAsFar(s, block, pieces[k])
  }

  ghost predicate OneHeading(block: Span, pieces: seq<Span>) {
    forall k :: 0 <= k < |pieces| ==> pieces[k].heading == (k == 0 && block.heading)
  }

  /** The pieces of one block: each fits, they follow one another, and only the first is its heading. */
  ghost predicate PiecesOf(s: Text, block: Span, pieces: seq<Span>) {
    && pieces != [] && Follow(s, pieces)
    && pieces[0].start == block.start && Last(pieces).end == block.end
    && AllFit(pieces) && OneHeading(block, pieces) && AllCut(s, block, pieces[..|pieces| - 1])
    && (Tidy(s, block) ==> AllTidy(s, pieces)) && AllEdged(s, block, pieces)
  }

  /** White space after the start of a piece, or before its end, is the block's own. */
  ghost predicate Edged(s: Text, block: Span, piece: Span) {
    && piece.start <= piece.end <= |s|
    && (HeadSpace(s, piece.start) ==> piece.start == block.start || piece.start == block.end)
    && (TailSpace(s, piece.end) ==> piece.end == block.end || (block.start < piece.end < block.end && Blank(s, block.start, piece.end)))
  }

  ghost predicate AllEdged(s: Text, block: Span, pieces: seq<Span>) {
    forall k :: 0 <= k < |pieces| ==> Edged(s, block, pieces[k])
  }

  /** A piece that is not the last was cut because the rest did not fit, and as far on as it could be. */
  ghost predicate CutAsFar(s: Text, block: Span, piece: Span) {
    && piece.end <= piece.start + PASSAGE_BYTES && piece.start + PASSAGE_BYTES < block.end <= |s|
    && CutRight(s, piece.start, piece.end)
  }

  /** Cuts one block, window by window, until what is left of it fits. */
  method Cut(s: Text, block: Span) returns (pieces: seq<Span>)
    requires Valid(s) && Inside(s, block)
    ensures PiecesOf(s, block, pieces)
  {
    pieces := [];
    var start, heading := block.start, block.heading;
    while block.end - start > PASSAGE_BYTES
      invariant block.start <= start <= block.end && Bound(s, start)
      invariant CutSoFar(s, block, pieces, start) && heading == (pieces == [] && block.heading)
      decreases block.end - start
    {
      var at, resume := CutAt(s, start, block.end);
      CutMore(s, block, pieces, start, at, resume, heading);
      pieces := pieces + [Span(start, at, heading)];
      start, heading := resume, false;
    }
    CutLast(s, block, pieces, start, heading);
    pieces := pieces + [Span(start, block.end, heading)];
  }

  ghost predicate CutSoFar(s: Text, block: Span, pieces: seq<Span>, start: nat)
    requires start <= |s|
  {
    && Follow(s, pieces)
    && (if pieces == [] then start == block.start
        else pieces[0].start == block.start && Last(pieces).end <= start && Blank(s, Last(pieces).end, start))
    && AllFit(pieces) && OneHeading(block, pieces) && AllCut(s, block, pieces) && AllEdged(s, block, pieces)
    && (start == block.start || start == block.end || !HeadSpace(s, start))
    && (Tidy(s, block) ==> AllTidy(s, pieces) && start < block.end && SpaceSize(s, start, |s|) == 0)
  }

  lemma FollowMore(s: Text, pieces: seq<Span>, x: Span)
    requires Follow(s, pieces) && Inside(s, x)
    requires pieces != [] ==> Last(pieces).end <= x.start && Blank(s, Last(pieces).end, x.start)
    ensures Follow(s, pieces + [x])
  {
    var more := pieces + [x];
    forall k | 0 < k < |more| ensures more[k - 1].end <= more[k].start && Blank(s, more[k - 1].end, more[k].start) {
      if k < |pieces| { assert more[k - 1] == pieces[k - 1] && more[k] == pieces[k]; }
    }
  }

  /** A piece cut off shows white space only where its block does, or within the block's own at its start. */
  lemma EdgedMore(s: Text, block: Span, pieces: seq<Span>, start: nat, at: nat, heading: bool)
    requires block.start <= start < at < block.end <= |s| && AllEdged(s, block, pieces)
    requires start == block.start || start == block.end || !HeadSpace(s, start)
    requires SpaceSize(s, start, |s|) == 0 ==> !TailSpace(s, at)
    requires TailSpace(s, at) ==> Blank(s, start, at)
    ensures AllEdged(s, block, pieces + [Span(start, at, heading)])
  {
    assert Edged(s, block, Span(start, at, heading));
  }

  lemma CutMore(s: Text, block: Span, pieces: seq<Span>, start: nat, at: nat, resume: nat, heading: bool)
    requires Valid(s) && Inside(s, block) && block.start <= start < at <= resume <= block.end && at - start <= PASSAGE_BYTES
    requires Bound(s, start) && Bound(s, at) && Bound(s, resume) && Blank(s, at, resume)
    requires CutSoFar(s, block, pieces, start) && heading == (pieces == [] && block.heading)
    requires resume < block.end ==> SpaceSize(s, resume, |s|) == 0
    requires start < |s| && SpaceSize(s, start, |s|) == 0 ==> !TailSpace(s, at)
    requires TailSpace(s, at) ==> Blank(s, start, at)
    requires CutAsFar(s, block, Span(start, at, heading))
    ensures CutSoFar(s, block, pieces + [Span(start, at, heading)], resume)
  {
    var more := pieces + [Span(start, at, heading)];
    FollowMore(s, pieces, Span(start, at, heading));
    assert Last(more) == Span(start, at, heading);
    EdgedMore(s, block, pieces, start, at, heading);
    if Tidy(s, block) && resume == block.end {
      BlankTail(s, at, resume);
    }
  }

  /** White space that leads somewhere ends there. */
  lemma {:induction false} BlankTail(s: Text, i: nat, j: nat)
    requires i < j <= |s| && Blank(s, i, j)
    ensures TailSpace(s, j)
    decreases j - i
  {
    var n := SpaceSize(s, i, j);
    if i + n < j { BlankTail(s, i + n, j); }
  }

  lemma CutLast(s: Text, block: Span, pieces: seq<Span>, start: nat, heading: bool)
    requires Inside(s, block) && block.start <= start <= block.end && Bound(s, start) && block.end - start <= PASSAGE_BYTES
    requires CutSoFar(s, block, pieces, start) && heading == (pieces == [] && block.heading)
    ensures PiecesOf(s, block, pieces + [Span(start, block.end, heading)])
  {
    var all := pieces + [Span(start, block.end, heading)];
    FollowMore(s, pieces, Span(start, block.end, heading));
    assert Last(all) == Span(start, block.end, heading) && all[..|all| - 1] == pieces;
  }

  /** Cutting moves on only because the text is valid: a run of continuation bytes has nowhere to cut. */
  lemma NowhereToCut(s: Text)
    requires |s| > PASSAGE_BYTES && forall k :: 0 <= k < |s| ==> s[k] == 0x80
    ensures forall k :: 0 < k <= PASSAGE_BYTES ==> !Bound(s, k)
    ensures NoneFrom(s, 0, PASSAGE_BYTES + 1) && !Valid(s)
  {}
}
