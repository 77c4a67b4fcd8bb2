/**
 * UTF-8 as section 3 and section 4 of RFC 3629 define it, and the characters Unicode counts as
 * white space, over one text and offsets into it.
 */
module Utf8 {
  import opened Common

  type Byte = x: int | 0 <= x < 256

  type Text = seq<Byte>

  /** A byte that can begin a character: anything but a continuation. */
  predicate RuneStart(b: Byte) {
    !(0x80 <= b < 0xC0)
  }

  predicate Continues(b: Byte) {
    0x80 <= b < 0xC0
  }

  /** How many bytes the character a byte begins has, 0 when it begins none. */
  function Need(b: Byte): nat {
    if b < 0x80 then 1
    else if 0xC2 <= b < 0xE0 then 2
    else if 0xE0 <= b < 0xF0 then 3
    else if 0xF0 <= b < 0xF5 then 4
    else 0
  }

  /** No overlong form, no surrogate, nothing past U+10FFFF. */
  predicate Second(b: Byte, c: Byte) {
    && Continues(c)
    && (b == 0xE0 ==> c >= 0xA0) && (b == 0xED ==> c < 0xA0)
    && (b == 0xF0 ==> c >= 0x90) && (b == 0xF4 ==> c < 0x90)
  }

  /** The bytes of the character at `i`, if it is whole before `hi`; 0 otherwise. */
  function Size(s: Text, i: nat, hi: nat): (n: nat)
    requires i < hi <= |s|
    ensures n <= 4 && i + n <= hi
  {
    var n := Need(s[i]);
    if n == 0 || i + n > hi then 0
    else if n > 1 && !Second(s[i], s[i + 1]) then 0
    else if n > 2 && !Continues(s[i + 2]) then 0
    else if n > 3 && !Continues(s[i + 3]) then 0
    else n
  }

  predicate ValidFrom(s: Text, i: nat)
    requires i <= |s|
    decreases |s| - i
  {
    i == |s| || (Size(s, i, |s|) > 0 && ValidFrom(s, i + Size(s, i, |s|)))
  }

  predicate Valid(s: Text) { ValidFrom(s, 0) }

  /** Between two characters. */
  predicate Bound(s: Text, i: nat) {
    i == |s| || (i < |s| && RuneStart(s[i]))
  }

  /** Whether a whole character is white space. */
  predicate SpaceBytes(s: Text, i: nat, n: nat)
    requires n > 0 ==> i + n <= |s|
  {
    || (n == 1 && (0x09 <= s[i] <= 0x0D || s[i] == 0x20))
    || (n == 2 && s[i] == 0xC2 && (s[i + 1] == 0x85 || s[i + 1] == 0xA0))
    || (n == 3 && s[i] == 0xE1 && s[i + 1] == 0x9A && s[i + 2] == 0x80)
    || (n == 3 && s[i] == 0xE2 && s[i + 1] == 0x80 && (0x80 <= s[i + 2] <= 0x8A || s[i + 2] in {0xA8, 0xA9, 0xAF}))
    || (n == 3 && s[i] == 0xE2 && s[i + 1] == 0x81 && s[i + 2] == 0x9F)
    || (n == 3 && s[i] == 0xE3 && s[i + 1] == 0x80 && s[i + 2] == 0x80)
  }

  /** The bytes of the white space at `i`, whole before `hi`; 0 where there is none. */
  function SpaceSize(s: Text, i: nat, hi: nat): (n: nat)
    requires i < hi <= |s|
    ensures n <= 3 && i + n <= hi
    ensures n > 0 ==> Size(s, i, hi) == n && RuneStart(s[i])
  {
    var n := Size(s, i, hi);
    if n > 0 && SpaceBytes(s, i, n) then n else 0
  }

  /** Nothing but white space, each character whole. */
  predicate Blank(s: Text, i: nat, j: nat)
    requires i <= j <= |s|
    decreases j - i
  {
    i == j || (SpaceSize(s, i, j) > 0 && Blank(s, i + SpaceSize(s, i, j), j))
  }

  // ---- Where characters begin and end ----

  /** A whole character stays one, seen from further off. */
  lemma SizeWithin(s: Text, i: nat, hi: nat, more: nat)
    requires i < hi <= more <= |s|
    ensures Size(s, i, hi) > 0 ==> Size(s, i, more) == Size(s, i, hi)
    ensures Size(s, i, more) > 0 && i + Size(s, i, more) <= hi ==> Size(s, i, hi) == Size(s, i, more)
    ensures SpaceSize(s, i, hi) > 0 ==> SpaceSize(s, i, more) == SpaceSize(s, i, hi)
    ensures SpaceSize(s, i, more) > 0 && i + SpaceSize(s, i, more) <= hi ==> SpaceSize(s, i, hi) == SpaceSize(s, i, more)
  {}

  /** In a valid text, a character begins at every offset that can begin one, and nowhere inside another. */
  lemma {:induction false} CharAt(s: Text, from: nat, j: nat)
    requires from <= j < |s| && ValidFrom(s, from) && RuneStart(s[j])
    ensures Size(s, j, |s|) > 0 && ValidFrom(s, j) && Bound(s, j + Size(s, j, |s|))
    ensures forall k :: j < k < j + Size(s, j, |s|) ==> !RuneStart(s[k])
    decreases j - from
  {
    var n := Size(s, from, |s|);
    if j == from {
      if from + n < |s| {
        assert Size(s, from + n, |s|) > 0;
      }
    } else {
      assert forall k :: from < k < from + n ==> !RuneStart(s[k]);
      CharAt(s, from + n, j);
    }
  }

  /** Characters do not overlap. */
  lemma Apart(s: Text, i: nat, j: nat)
    requires Valid(s) && i < j <= |s| && Bound(s, i) && Bound(s, j)
    ensures i + Size(s, i, |s|) <= j
  {
    CharAt(s, 0, i);
  }

  // ---- Going backwards ----

  /** Where the last byte that can begin a character is, from `at - 1` down to `lim`. */
  function StartBefore(s: Text, lim: nat, at: nat): (r: Option<nat>)
    requires at <= |s|
    ensures r.Some? ==> lim <= r.value < at && RuneStart(s[r.value]) && forall k :: r.value < k < at ==> !RuneStart(s[k])
    ensures r.None? ==> forall k :: lim <= k < at ==> !RuneStart(s[k])
    decreases at
  {
    if at <= lim then None
    else if RuneStart(s[at - 1]) then Some(at - 1)
    else StartBefore(s, lim, at - 1)
  }

  /** The last character of s[lo..at]: whether it is white space, and its size; a broken end is one byte of neither. */
  datatype Tail = Tail(space: bool, size: nat)

  function DecodeLast(s: Text, lo: nat, at: nat): (r: Tail)
    requires lo < at <= |s|
    ensures 1 <= r.size <= at - lo
  {
    if s[at - 1] < 0x80 then Tail(SpaceBytes(s, at - 1, 1), 1)
    else
      match StartBefore(s, Max(lo, at - 4), at - 1)
      case None => Tail(false, 1)
      case Some(start) =>
        if start + Size(s, start, at) == at then Tail(SpaceBytes(s, start, at - start), at - start) else Tail(false, 1)
  }

  /** What a decoded white space is. */
  lemma DecodesSpace(s: Text, lo: nat, at: nat)
    requires lo < at <= |s| && DecodeLast(s, lo, at).space
    ensures SpaceSize(s, at - DecodeLast(s, lo, at).size, at) == DecodeLast(s, lo, at).size
  {}

  /** At the end of a character, the one decoded is that one. */
  lemma DecodesWhole(s: Text, lo: nat, at: nat, j: nat)
    requires lo <= j < at <= |s| && Size(s, j, at) == at - j
    requires forall k :: j < k < at ==> !RuneStart(s[k])
    ensures DecodeLast(s, lo, at).size == at - j && DecodeLast(s, lo, at).space == (SpaceSize(s, j, at) > 0)
  {
    if at - j > 1 {
      assert s[at - 1] >= 0x80;
      assert StartBefore(s, Max(lo, at - 4), at - 1) == Some(j);
    }
  }

  /** The character that ends at a boundary of a valid text. */
  lemma EndsAt(s: Text, lo: nat, at: nat) returns (j: nat)
    requires Valid(s) && lo < at <= |s| && Bound(s, lo) && Bound(s, at)
    ensures lo <= j < at && RuneStart(s[j]) && Size(s, j, |s|) == at - j == Size(s, j, at)
    ensures forall k :: j < k < at ==> !RuneStart(s[k])
    ensures DecodeLast(s, lo, at).size == at - j && DecodeLast(s, lo, at).space == (SpaceSize(s, j, at) > 0)
  {
    assert RuneStart(s[lo]);
    j := StartBefore(s, lo, at).value;
    CharAt(s, 0, j);
    var n := Size(s, j, |s|);
    assert j + n >= at;
    SizeWithin(s, j, at, |s|);
    DecodesWhole(s, lo, at, j);
  }

  // ---- White space runs ----

  lemma {:induction false} BlankJoins(s: Text, i: nat, j: nat, k: nat)
    requires i <= j <= k <= |s| && Blank(s, i, j) && Blank(s, j, k)
    ensures Blank(s, i, k)
    decreases j - i
  {
    if i < j {
      SizeWithin(s, i, j, k);
      BlankJoins(s, i + SpaceSize(s, i, j), j, k);
    }
  }

  lemma BlankOne(s: Text, i: nat, j: nat)
    requires i < j <= |s| && SpaceSize(s, i, j) == j - i
    ensures Blank(s, i, j)
  {}

  /** The first character, skipping white space. */
  function TrimLeft(s: Text, i: nat, hi: nat): (r: nat)
    requires i <= hi <= |s|
    ensures i <= r <= hi && Blank(s, i, r)
    ensures r < hi ==> SpaceSize(s, r, hi) == 0
    decreases hi - i
  {
    if i == hi || SpaceSize(s, i, hi) == 0 then i
    else
      var n := SpaceSize(s, i, hi);
      var r := TrimLeft(s, i + n, hi);
      SizeWithin(s, i, r, hi);
      r
  }

  /** The end, before white space. */
  function TrimRight(s: Text, lo: nat, at: nat): (r: nat)
    requires lo <= at <= |s|
    ensures lo <= r <= at
    ensures r > lo ==> !DecodeLast(s, lo, r).space
    decreases at
  {
    if at == lo || !DecodeLast(s, lo, at).space then at else TrimRight(s, lo, at - DecodeLast(s, lo, at).size)
  }

  lemma {:induction false} TrimRightBlank(s: Text, lo: nat, at: nat)
    requires lo <= at <= |s|
    ensures Blank(s, TrimRight(s, lo, at), at)
    decreases at
  {
    if at > lo && DecodeLast(s, lo, at).space {
      var j := at - DecodeLast(s, lo, at).size;
      DecodesSpace(s, lo, at);
      TrimRightBlank(s, lo, j);
      BlankOne(s, j, at);
      BlankJoins(s, TrimRight(s, lo, at), j, at);
    }
  }

  /** White space ends between characters. */
  lemma {:induction false} BlankBounds(s: Text, i: nat, j: nat)
    requires Valid(s) && i <= j <= |s| && Bound(s, j) && Blank(s, i, j)
    ensures Bound(s, i)
  {
    if i < j { assert RuneStart(s[i]); }
  }

  /** From a boundary, white space leads to a boundary. */
  lemma {:induction false} BlankLeads(s: Text, i: nat, j: nat)
    requires Valid(s) && i <= j <= |s| && Bound(s, i) && Blank(s, i, j)
    ensures Bound(s, j)
    decreases j - i
  {
    if i < j {
      var n := SpaceSize(s, i, j);
      CharAt(s, 0, i);
      SizeWithin(s, i, j, |s|);
      BlankLeads(s, i + n, j);
    }
  }
}
