/** Replacing a deployment's secrets in everything it records. */
module Redact {
  const PLACEHOLDER: string := "[redacted]"

  /** What the placeholder holds between its brackets. */
  const INNER: string := "redacted"

  predicate PrefixAt(s: string, text: string, i: nat) {
    i + |s| <= |text| && text[i..i + |s|] == s
  }

  ghost predicate Contains(text: string, s: string) {
    exists i: nat :: PrefixAt(s, text, i)
  }

  predicate NoBrackets(s: string) {
    '[' !in s && ']' !in s
  }

  /** Every occurrence replaced, from the left, none overlapping. */
  function ReplaceAll(text: string, s: string): string
    requires s != ""
    decreases |text|
  {
    if |text| < |s| then text
    else if s <= text then PLACEHOLDER + ReplaceAll(text[|s|..], s)
    else [text[0]] + ReplaceAll(text[1..], s)
  }

  /** The replacements one after another. */
  function Redacted(secrets: seq<string>, text: string): string
    requires "" !in secrets
  {
    if secrets == [] then text else ReplaceAll(Redacted(secrets[..|secrets| - 1], text), secrets[|secrets| - 1])
  }

  /** One more of the secrets given, kept in its place. */
  method Keep(given: seq<string>, k: nat, kept: seq<string>) returns (r: seq<string>)
    requires k < |given| && KeptFrom(given[..k], kept)
    ensures KeptFrom(given[..k + 1], r)
  {
    assert given[..k + 1][..k] == given[..k];
    if given[k] == "" {
      r := kept;
    } else {
      InsertKeeps(given[k], kept);
      r := Insert(given[k], kept);
    }
  }

  ghost predicate KeptFrom(given: seq<string>, kept: seq<string>) {
    multiset(kept) == multiset(NotEmpty(given)) && "" !in kept && LongestFirst(kept)
  }

  class Redactor {
    var secrets: seq<string>

    /** Keeps the secrets that are not empty, the longest first. */
    constructor (given: seq<string>)
      ensures "" !in secrets && LongestFirst(secrets)
      ensures multiset(secrets) == multiset(NotEmpty(given))
    {
      var kept: seq<string> := [];
      for k := 0 to |given|
        invariant KeptFrom(given[..k], kept)
      {
        kept := Keep(given, k, kept);
      }
      assert given[..|given|] == given;
      secrets := kept;
    }

    method Redact(text: string) returns (r: string)
      requires "" !in secrets
      ensures r == Redacted(secrets, text)
    {
      r := text;
      for k := 0 to |secrets|
        invariant r == Redacted(secrets[..k], text)
      {
        assert secrets[..k + 1][..k] == secrets[..k];
        r := ReplaceAll(r, secrets[k]);
      }
      assert secrets[..|secrets|] == secrets;
    }
  }

  ghost predicate LongestFirst(secrets: seq<string>) {
    forall i, j :: 0 <= i < j < |secrets| ==> |secrets[i]| >= |secrets[j]|
  }

  function NotEmpty(given: seq<string>): seq<string> {
    if given == [] then [] else NotEmpty(given[..|given| - 1]) + if given[|given| - 1] == "" then [] else [given[|given| - 1]]
  }

  function Insert(s: string, kept: seq<string>): seq<string> {
    if kept == [] || |kept[0]| < |s| then [s] + kept else [kept[0]] + Insert(s, kept[1..])
  }

  lemma {:induction false} InsertHolds(s: string, kept: seq<string>)
    ensures multiset(Insert(s, kept)) == multiset(kept) + multiset{s}
    ensures forall x :: x in Insert(s, kept) ==> x == s || x in kept
  {
    if kept != [] && |kept[0]| >= |s| {
      InsertHolds(s, kept[1..]);
      assert kept == [kept[0]] + kept[1..];
    }
  }

  lemma {:induction false} InsertKeeps(s: string, kept: seq<string>)
    requires LongestFirst(kept)
    ensures multiset(Insert(s, kept)) == multiset(kept) + multiset{s}
    ensures LongestFirst(Insert(s, kept))
    ensures "" !in kept && s != "" ==> "" !in Insert(s, kept)
  {
    InsertHolds(s, kept);
    if kept != [] && |kept[0]| >= |s| {
      var rest, tail := Insert(s, kept[1..]), kept[1..];
      forall i, j | 0 <= i < j < |tail| ensures |tail[i]| >= |tail[j]| { assert tail[i] == kept[i + 1] && tail[j] == kept[j + 1]; }
      InsertKeeps(s, tail);
      InsertHolds(s, tail);
      forall j | 0 <= j < |rest| ensures |kept[0]| >= |rest[j]| {
        assert rest[j] in rest;
      }
    }
  }

  // ---- What a replacement keeps ----

  /** Stretches of text, with something between each and the next. */
  function Joined(stretches: seq<string>, between: string): string
    requires stretches != []
  {
    if |stretches| == 1 then stretches[0] else stretches[0] + between + Joined(stretches[1..], between)
  }

  /** Nothing of the secret is found before the end of a stretch, though it follows; nor anywhere in the last. */
  ghost predicate Leftmost(stretches: seq<string>, s: string) {
    && stretches != [] && !Contains(stretches[|stretches| - 1], s)
    && forall k, i: nat :: 0 <= k < |stretches| - 1 && i < |stretches[k]| ==> !PrefixAt(s, stretches[k] + s, i)
  }

  /**
   * A text is stretches with the secret between each and the next, its occurrences taken from the left;
   * replacing leaves every stretch as it is, with the placeholder between.
   */
  lemma {:induction false} StretchesStay(text: string, s: string) returns (stretches: seq<string>)
    requires s != ""
    ensures Leftmost(stretches, s)
    ensures text == Joined(stretches, s) && ReplaceAll(text, s) == Joined(stretches, PLACEHOLDER)
    decreases |text|
  {
    if |text| < |s| {
      stretches := [text];
    } else if s <= text {
      var rest := StretchesStay(text[|s|..], s);
      stretches := [""] + rest;
      StretchFirst("", rest, s);
      assert text == s + text[|s|..];
    } else {
      var rest := StretchesStay(text[1..], s);
      stretches := [[text[0]] + rest[0]] + rest[1..];
      StretchGrows(text[0], rest, s);
      assert text == [text[0]] + text[1..];
    }
  }

  lemma StretchFirst(first: string, rest: seq<string>, s: string)
    requires Leftmost(rest, s) && s != "" && first == ""
    ensures Leftmost([first] + rest, s)
    ensures forall between: string :: Joined([first] + rest, between) == between + Joined(rest, between)
  {
    var all := [first] + rest;
    assert all[1..] == rest;
    forall k, i: nat | 0 <= k < |all| - 1 && i < |all[k]| ensures !PrefixAt(s, all[k] + s, i) {
      assert all[k] == rest[k - 1];
    }
    forall between: string ensures Joined(all, between) == between + Joined(rest, between) {
      assert first + between == between;
    }
  }

  lemma FoundFirst(head: string, tail: string, u: string)
    ensures PrefixAt(u, head, 0) ==> u <= head + tail
  {
    assert |u| <= |head| ==> (head + tail)[..|u|] == head[..|u|];
  }

  /** A character that begins no occurrence joins the stretch after it. */
  lemma StretchGrows(c: char, rest: seq<string>, s: string)
    requires Leftmost(rest, s) && s != "" && !(s <= [c] + Joined(rest, s))
    ensures Leftmost([[c] + rest[0]] + rest[1..], s)
    ensures forall between: string :: Joined([[c] + rest[0]] + rest[1..], between) == [c] + Joined(rest, between)
  {
    var first := [c] + rest[0];
    var all := [first] + rest[1..];
    forall between: string ensures Joined(all, between) == [c] + Joined(rest, between) {
      if |rest| > 1 {
        assert all[1..] == rest[1..];
        assert first + between + Joined(rest[1..], between) == [c] + (rest[0] + between + Joined(rest[1..], between));
      }
    }
    forall k, i: nat | 0 <= k < |all| - 1 && i < |all[k]| ensures !PrefixAt(s, all[k] + s, i) {
      if k > 0 {
        assert all[k] == rest[k];
      } else if i > 0 {
        assert first + s == [c] + (rest[0] + s);
        FoundIn([c], rest[0] + s, s, i);
      } else {
        assert [c] + Joined(rest, s) == first + s + Joined(rest[1..], s);
        FoundFirst(first + s, Joined(rest[1..], s), s);
      }
    }
    if |rest| == 1 {
      forall i: nat ensures !PrefixAt(s, first, i) { FoundIn([c], rest[0], s, i); }
    }
  }

  // ---- What a replacement leaves ----

  /** What is found in a joined text is found in its tail, or begins in its head. */
  lemma FoundIn(head: string, tail: string, u: string, i: nat)
    ensures i >= |head| && PrefixAt(u, head + tail, i) ==> PrefixAt(u, tail, i - |head|)
  {
    if i >= |head| && i + |u| <= |head + tail| {
      assert (head + tail)[i..i + |u|] == tail[i - |head|..i - |head| + |u|];
    }
  }

  /** Laid over a placeholder from offset `k` of it, the text agrees with it wherever the two overlap, and they do. */
  predicate AlignsAt(u: string, k: int) {
    -|u| < k < |PLACEHOLDER| && forall j :: 0 <= j < |u| && 0 <= k + j < |PLACEHOLDER| ==> u[j] == PLACEHOLDER[k + j]
  }

  /** Some text could hold this one across a placeholder, or inside it. */
  predicate Aligns(u: string) {
    exists k :: -|u| < k < |PLACEHOLDER| && AlignsAt(u, k)
  }

  /** What overlaps no placeholder is past it or not there. */
  lemma OutOfPlaceholder(tail: string, u: string)
    requires u != "" && !Aligns(u) && Contains(PLACEHOLDER + tail, u)
    ensures Contains(tail, u)
  {
    var i: nat :| PrefixAt(u, PLACEHOLDER + tail, i);
    FoundIn(PLACEHOLDER, tail, u, i);
    if i < |PLACEHOLDER| {
      forall j | 0 <= j < |u| && 0 <= i + j < |PLACEHOLDER| ensures u[j] == PLACEHOLDER[i + j] {
        assert u[j] == (PLACEHOLDER + tail)[i..i + |u|][j];
      }
      assert AlignsAt(u, i);
    }
  }

  /** What reaches out of a placeholder takes a bracket along. */
  lemma TakesBracket(u: string, k: int)
    requires AlignsAt(u, k)
    ensures k <= 0 ==> '[' in u
    ensures k + |u| > 9 ==> ']' in u
  {
    assert PLACEHOLDER[0] == '[' && PLACEHOLDER[9] == ']' && |PLACEHOLDER| == 10;
    if k <= 0 { assert u[-k] == PLACEHOLDER[k + -k]; }
    if k + |u| > 9 { assert u[9 - k] == PLACEHOLDER[k + (9 - k)]; }
  }

  /** Without a bracket, a text overlaps a placeholder only inside it. */
  lemma AlignsInside(u: string)
    requires u != "" && NoBrackets(u)
    ensures Aligns(u) <==> Contains(INNER, u)
  {
    assert |PLACEHOLDER| == 10 && INNER == PLACEHOLDER[1..9];
    if Aligns(u) {
      var k :| -|u| < k < |PLACEHOLDER| && AlignsAt(u, k);
      TakesBracket(u, k);
      assert INNER[k - 1..k - 1 + |u|] == u;
      assert PrefixAt(u, INNER, k - 1);
    }
    if i: nat :| PrefixAt(u, INNER, i) {
      forall j | 0 <= j < |u| ensures u[j] == PLACEHOLDER[i + 1 + j] { assert u[j] == INNER[i..i + |u|][j]; }
      assert AlignsAt(u, i + 1);
    }
  }

  /** A replacement at the front puts a placeholder there: what begins with the rest of a text overlaps it. */
  lemma NotAtMark(text: string, s: string, u: string, k: nat)
    requires s != "" && s <= text && k < |u|
    ensures u[k..] <= ReplaceAll(text, s) ==> Aligns(u)
  {
    var all := ReplaceAll(text, s);
    var before: int := 0 - k;
    assert PLACEHOLDER <= all by {
      assert |text| >= |s|;
    }
    if u[k..] <= all {
      forall j | 0 <= j < |u| && 0 <= j - k < |PLACEHOLDER| ensures u[j] == PLACEHOLDER[j - k] {
        assert u[j] == u[k..][j - k] == all[j - k];
      }
      assert AlignsAt(u, before);
    }
  }

  /** Of a text that overlaps no placeholder, what begins a replaced text begins the text. */
  lemma {:induction false} BeginsPlain(text: string, s: string, u: string, k: nat)
    requires s != "" && k <= |u| && !Aligns(u) && u[k..] <= ReplaceAll(text, s)
    ensures u[k..] <= text
    decreases |text|
  {
    if k < |u| && |text| >= |s| {
      if s <= text {
        NotAtMark(text, s, u, k);
      } else {
        assert u[k + 1..] <= ReplaceAll(text[1..], s);
        BeginsPlain(text[1..], s, u, k + 1);
        assert u[k..] == [u[k]] + u[k + 1..] && text == [text[0]] + text[1..];
      }
    }
  }

  lemma BeginsThere(text: string, s: string, u: string)
    requires s != "" && !Aligns(u)
    ensures PrefixAt(u, ReplaceAll(text, s), 0) ==> PrefixAt(u, text, 0)
  {
    if PrefixAt(u, ReplaceAll(text, s), 0) {
      assert u[0..] == u;
      BeginsPlain(text, s, u, 0);
    }
  }

  /** What a text did not contain it does not contain once replaced; and what was replaced, neither. */
  lemma {:induction false} LeavesNone(text: string, s: string, u: string)
    requires s != "" && u != "" && !Aligns(u)
    requires u == s || !Contains(text, u)
    ensures !Contains(ReplaceAll(text, s), u)
    decreases |text|
  {
    var all := ReplaceAll(text, s);
    if |text| >= |s| {
      if s <= text {
        var tail := text[|s|..];
        TailLacks(text, |s|, u);
        LeavesNone(tail, s, u);
        if Contains(all, u) {
          OutOfPlaceholder(ReplaceAll(tail, s), u);
        }
      } else {
        TailLacks(text, 1, u);
        LeavesNone(text[1..], s, u);
        BeginsThere(text, s, u);
        forall i: nat ensures !PrefixAt(u, all, i) {
          FoundIn([text[0]], ReplaceAll(text[1..], s), u, i);
        }
      }
    } else if u == s {
      assert forall i: nat :: !PrefixAt(u, text, i);
    }
  }

  lemma TailLacks(text: string, n: nat, u: string)
    requires n <= |text|
    ensures !Contains(text, u) ==> !Contains(text[n..], u)
  {
    if i: nat :| PrefixAt(u, text[n..], i) {
      assert text[n + i..n + i + |u|] == text[n..][i..i + |u|];
      assert PrefixAt(u, text, n + i);
    }
  }

  /** Secrets a placeholder cannot be confused with. */
  ghost predicate Hidable(secrets: seq<string>) {
    forall k :: 0 <= k < |secrets| ==> !Contains(INNER, secrets[k])
  }

  predicate Plain(secrets: seq<string>) {
    forall k :: 0 <= k < |secrets| ==> secrets[k] != "" && NoBrackets(secrets[k])
  }

  lemma PlainNoEmpty(secrets: seq<string>)
    requires Plain(secrets)
    ensures "" !in secrets
  {}

  /** Secrets that overlap no placeholder. */
  predicate Clear(secrets: seq<string>) {
    "" !in secrets && forall k :: 0 <= k < |secrets| ==> !Aligns(secrets[k])
  }

  /** Whatever overlaps the secrets have with one another, no text is left with one of them in it. */
  lemma {:induction false} AllHidden(secrets: seq<string>, text: string, k: nat)
    requires Clear(secrets) && k < |secrets|
    ensures !Contains(Redacted(secrets, text), secrets[k])
  {
    var n := |secrets| - 1;
    var before := Redacted(secrets[..n], text);
    if k < n {
      AllHidden(secrets[..n], text, k);
      assert secrets[..n][k] == secrets[k];
    }
    LeavesNone(before, secrets[n], secrets[k]);
  }

  /** Without brackets, the secrets no placeholder spells are the clear ones. */
  lemma ClearIsHidable(secrets: seq<string>)
    requires Plain(secrets)
    ensures Clear(secrets) <==> Hidable(secrets)
  {
    forall k | 0 <= k < |secrets| ensures Aligns(secrets[k]) <==> Contains(INNER, secrets[k]) {
      AlignsInside(secrets[k]);
    }
  }

  lemma HasChar(s: string, text: string, i: nat, j: nat)
    requires j < |s|
    ensures PrefixAt(s, text, i) ==> s[j] in text
  {
    if PrefixAt(s, text, i) { assert s[j] == text[i..i + |s|][j] == text[i + j]; }
  }

  /** A secret that overlaps a placeholder can be put together by hiding another. */
  lemma PutTogether()
    ensures Aligns("x[redacted]") && !Aligns("ab") && LongestFirst(["x[redacted]", "ab"])
    ensures Redacted(["x[redacted]", "ab"], "xab") == "x[redacted]"
    ensures Contains(Redacted(["x[redacted]", "ab"], "xab"), "x[redacted]")
  {
    assert AlignsAt("x[redacted]", -1);
    AlignsInside("ab");
    forall i: nat ensures !PrefixAt("ab", INNER, i) { HasChar("ab", INNER, i, 1); }
    var first, both := ["x[redacted]"], ["x[redacted]", "ab"];
    assert first[..0] == [] && both[..1] == first;
    assert Redacted(first, "xab") == "xab";
    assert !("ab" <= "xab") && "xab"[1..] == "ab" && "ab"[2..] == "";
    assert ReplaceAll("", "ab") == "" && ReplaceAll("ab", "ab") == PLACEHOLDER + "" == PLACEHOLDER;
    assert ReplaceAll("xab", "ab") == ['x'] + PLACEHOLDER == "x[redacted]";
    assert PrefixAt("x[redacted]", "x[redacted]", 0);
  }

  // ---- What a replacement does ----

  /** A replacement changes nothing, or leaves a placeholder. */
  lemma {:induction false} ChangesOrMarks(text: string, s: string)
    requires s != ""
    ensures Contains(text, s) ==> Contains(ReplaceAll(text, s), PLACEHOLDER)
    ensures !Contains(text, s) ==> ReplaceAll(text, s) == text
    decreases |text|
  {
    if |text| >= |s| {
      if s <= text {
        assert PrefixAt(s, text, 0);
        assert PrefixAt(PLACEHOLDER, ReplaceAll(text, s), 0);
      } else {
        ChangesOrMarks(text[1..], s);
        TailLacks(text, 1, s);
        assert text == [text[0]] + text[1..];
        if i: nat :| PrefixAt(s, text, i) {
          assert i > 0;
          assert text[1..][i - 1..i - 1 + |s|] == text[i..i + |s|];
          assert PrefixAt(s, text[1..], i - 1);
          Prepended(text[0], ReplaceAll(text[1..], s), PLACEHOLDER);
        }
      }
    }
  }

  lemma Prepended(c: char, text: string, u: string)
    requires Contains(text, u)
    ensures Contains([c] + text, u)
  {
    var i: nat :| PrefixAt(u, text, i);
    assert ([c] + text)[i + 1..i + 1 + |u|] == text[i..i + |u|];
    assert PrefixAt(u, [c] + text, i + 1);
  }

  /** A text with a placeholder in it keeps one, whatever is replaced. */
  lemma MarkStays(text: string, s: string)
    requires s != "" && Contains(text, PLACEHOLDER)
    ensures Contains(ReplaceAll(text, s), PLACEHOLDER)
  {
    ChangesOrMarks(text, s);
  }

  /** Where the secrets that hide in the placeholder have not all had their turn, their own text is still itself or marked. */
  lemma {:induction false} ItselfOrMarked(secrets: seq<string>, s: string)
    requires "" !in secrets
    ensures Redacted(secrets, s) == s || Contains(Redacted(secrets, s), PLACEHOLDER)
  {
    if secrets != [] {
      ItselfOrMarked(secrets[..|secrets| - 1], s);
      ChangesOrMarks(Redacted(secrets[..|secrets| - 1], s), secrets[|secrets| - 1]);
    }
  }

  lemma InPlaceholder(text: string, s: string)
    requires Contains(text, PLACEHOLDER) && Contains(INNER, s)
    ensures Contains(text, s)
  {
    var i: nat :| PrefixAt(PLACEHOLDER, text, i);
    var j: nat :| PrefixAt(s, INNER, j);
    assert INNER == PLACEHOLDER[1..9] && |PLACEHOLDER| == 10;
    forall k | 0 <= k < |s| ensures text[i + 1 + j + k] == s[k] {
      assert text[i + 1 + j + k] == text[i..i + 10][1 + j + k] == PLACEHOLDER[1 + j + k] == INNER[j + k] == s[k];
    }
    assert text[i + 1 + j..i + 1 + j + |s|] == s;
    assert PrefixAt(s, text, i + 1 + j);
  }

  /** A secret the placeholder spells is left to read where it was alone. */
  lemma {:induction false} SpeltByPlaceholder(secrets: seq<string>, k: nat)
    requires "" !in secrets && k < |secrets| && Contains(INNER, secrets[k])
    ensures Contains(Redacted(secrets, secrets[k]), PLACEHOLDER)
    decreases |secrets|
  {
    var n := |secrets| - 1;
    var before := Redacted(secrets[..n], secrets[k]);
    ItselfOrMarked(secrets[..n], secrets[k]);
    if k < n {
      SpeltByPlaceholder(secrets[..n], k);
      assert secrets[..n][k] == secrets[k];
      MarkStays(before, secrets[n]);
    } else if before == secrets[k] {
      assert PrefixAt(secrets[k], before, 0);
      ChangesOrMarks(before, secrets[n]);
    } else {
      MarkStays(before, secrets[n]);
    }
  }

  /** No text is left with a secret in it. */
  ghost predicate NeverLeaks(secrets: seq<string>)
    requires "" !in secrets
  {
    forall text: string, k :: 0 <= k < |secrets| ==> !Contains(Redacted(secrets, text), secrets[k])
  }

  lemma HidableNeverLeaks(secrets: seq<string>)
    requires Plain(secrets) && "" !in secrets && Hidable(secrets)
    ensures NeverLeaks(secrets)
  {
    ClearIsHidable(secrets);
    forall text: string, k | 0 <= k < |secrets| ensures !Contains(Redacted(secrets, text), secrets[k]) {
      AllHidden(secrets, text, k);
    }
  }

  lemma SpeltLeaks(secrets: seq<string>, k: nat)
    requires "" !in secrets && k < |secrets| && Contains(INNER, secrets[k])
    ensures !NeverLeaks(secrets)
  {
    SpeltByPlaceholder(secrets, k);
    InPlaceholder(Redacted(secrets, secrets[k]), secrets[k]);
  }

  /**
   * Over secrets without brackets, whatever overlaps they have with one another: no text is left with
   * a secret in it exactly when no secret is spelt by the placeholder.
   */
  lemma HiddenExactly(secrets: seq<string>)
    requires Plain(secrets)
    ensures "" !in secrets
    ensures NeverLeaks(secrets) <==> Hidable(secrets)
  {
    PlainNoEmpty(secrets);
    if Hidable(secrets) {
      HidableNeverLeaks(secrets);
    } else {
      var k :| 0 <= k < |secrets| && Contains(INNER, secrets[k]);
      SpeltLeaks(secrets, k);
    }
  }

  // ---- Longest first ----

  /** Nothing clear is in the placeholder. */
  lemma PlaceholderStays(s: string)
    requires s != "" && !Aligns(s)
    ensures ReplaceAll(PLACEHOLDER, s) == PLACEHOLDER
  {
    assert PLACEHOLDER + "" == PLACEHOLDER;
    if Contains(PLACEHOLDER, s) {
      OutOfPlaceholder("", s);
    }
    ChangesOrMarks(PLACEHOLDER, s);
  }

  lemma NotInShorter(text: string, s: string)
    requires |text| <= |s| && text != s
    ensures !Contains(text, s)
  {
    assert text[0..|text|] == text;
    forall i: nat ensures !PrefixAt(s, text, i) {}
  }

  /**
   * With the longest first, a text that is a secret is replaced whole, though other secrets be parts of
   * it: nothing of it is left beside the placeholder.
   */
  lemma {:induction false} ReplacedWhole(secrets: seq<string>, k: nat)
    requires Clear(secrets) && LongestFirst(secrets) && k < |secrets|
    ensures Redacted(secrets, secrets[k]) == PLACEHOLDER
    decreases |secrets|
  {
    var n := |secrets| - 1;
    if k < n {
      ReplacedWhole(secrets[..n], k);
      assert secrets[..n][k] == secrets[k];
      PlaceholderStays(secrets[n]);
    } else if j :| 0 <= j < n && secrets[j] == secrets[k] {
      ReplacedWhole(secrets[..n], j);
      assert secrets[..n][j] == secrets[j];
      PlaceholderStays(secrets[n]);
    } else {
      LongerLeave(secrets[..n], secrets[k]);
      assert secrets[k] <= secrets[k] && secrets[k][|secrets[k]|..] == "";
      assert PLACEHOLDER + ReplaceAll("", secrets[k]) == PLACEHOLDER;
    }
  }

  lemma {:induction false} LongerLeave(secrets: seq<string>, s: string)
    requires "" !in secrets && forall j :: 0 <= j < |secrets| ==> |secrets[j]| >= |s| && secrets[j] != s
    ensures Redacted(secrets, s) == s
  {
    if secrets != [] {
      LongerLeave(secrets[..|secrets| - 1], s);
      NotInShorter(s, secrets[|secrets| - 1]);
      ChangesOrMarks(s, secrets[|secrets| - 1]);
    }
  }
}
