/**
 * A report's values: the walk of its token stream, with a stack of the containers open, against
 * the tree (sections 3 to 7 of RFC 8259) the stream spells.
 */
module Reports {
  import opened Common
  import opened Utf8
  import opened Passages
  import opened Packing

  datatype Json =
    | Null
    | Bool(b: bool)
    | Num(literal: Text)
    | Str(literal: Text)
    | Arr(items: seq<Json>)
    | Obj(members: seq<Member>)

  datatype Member = Member(key: Text, value: Json)

  /** What a decoder hands over, one at a time. */
  datatype Token = Open(isArray: bool) | Close | StringToken(literal: Text) | NumberToken(literal: Text) | OtherToken

  function Tokens(j: Json): seq<Token> {
    match j
    case Null => [OtherToken]
    case Bool(_) => [OtherToken]
    case Num(literal) => [NumberToken(literal)]
    case Str(literal) => [StringToken(literal)]
    case Arr(items) => [Open(true)] + ItemTokens(items) + [Close]
    case Obj(members) => [Open(false)] + MemberTokens(members) + [Close]
  }

  function ItemTokens(items: seq<Json>): seq<Token> {
    if items == [] then [] else Tokens(items[0]) + ItemTokens(items[1..])
  }

  function MemberTokens(members: seq<Member>): seq<Token> {
    if members == [] then []
    else [StringToken(members[0].key)] + Tokens(members[0].value) + MemberTokens(members[1..])
  }

  // ---- What a tree's values are ----

  /** A value to index, and whether it opens a passage. */
  datatype Value = Value(literal: Text, heading: bool)

  /** Its string and number leaves, in document order; keys, booleans and nulls are none. */
  function Leaves(j: Json): seq<Text> {
    match j
    case Num(literal) => [literal]
    case Str(literal) => [literal]
    case Arr(items) => ItemLeaves(items)
    case Obj(members) => MemberLeaves(members)
    case _ => []
  }

  function ItemLeaves(items: seq<Json>): seq<Text> {
    if items == [] then [] else Leaves(items[0]) + ItemLeaves(items[1..])
  }

  function MemberLeaves(members: seq<Member>): seq<Text> {
    if members == [] then [] else Leaves(members[0].value) + MemberLeaves(members[1..])
  }

  /** The values a tree adds, and whether the next one after it opens a passage. */
  datatype Walked = Walked(values: seq<Value>, heads: bool)

  /**
   * A value opens a passage when an object that is an array's element was opened since the value
   * before it.
   */
  function Walk(j: Json, inArray: bool, heads: bool): Walked {
    match j
    case Num(literal) => Walked([Value(literal, heads)], false)
    case Str(literal) => Walked([Value(literal, heads)], false)
    case Arr(items) => WalkItems(items, true, heads)
    case Obj(members) => WalkMembers(members, heads || inArray)
    case _ => Walked([], heads)
  }

  /** Values one after another, in an array or in no container at all. */
  function WalkItems(items: seq<Json>, inArray: bool, heads: bool): Walked {
    if items == [] then Walked([], heads)
    else
      var first := Walk(items[0], inArray, heads);
      var rest := WalkItems(items[1..], inArray, first.heads);
      Walked(first.values + rest.values, rest.heads)
  }

  function WalkMembers(members: seq<Member>, heads: bool): Walked {
    if members == [] then Walked([], heads)
    else
      var first := Walk(members[0].value, false, heads);
      var rest := WalkMembers(members[1..], first.heads);
      Walked(first.values + rest.values, rest.heads)
  }

  function Literals(values: seq<Value>): seq<Text> {
    seq(|values|, k requires 0 <= k < |values| => values[k].literal)
  }

  lemma LiteralsJoin(a: seq<Value>, b: seq<Value>)
    ensures Literals(a + b) == Literals(a) + Literals(b)
  {}

  lemma {:induction false} WalkLeaves(j: Json, inArray: bool, heads: bool)
    ensures Literals(Walk(j, inArray, heads).values) == Leaves(j)
    decreases j, 0
  {
    match j
    case Arr(items) => ItemsLeaves(items, true, heads);
    case Obj(members) => MembersLeaves(members, heads || inArray);
    case _ =>
  }

  lemma {:induction false} ItemsLeaves(items: seq<Json>, inArray: bool, heads: bool)
    ensures Literals(WalkItems(items, inArray, heads).values) == ItemLeaves(items)
    decreases items, 1
  {
    if items != [] {
      var first := Walk(items[0], inArray, heads);
      WalkLeaves(items[0], inArray, heads);
      ItemsLeaves(items[1..], inArray, first.heads);
      LiteralsJoin(first.values, WalkItems(items[1..], inArray, first.heads).values);
    }
  }

  lemma {:induction false} MembersLeaves(members: seq<Member>, heads: bool)
    ensures Literals(WalkMembers(members, heads).values) == MemberLeaves(members)
    decreases members, 1
  {
    if members != [] {
      var first := Walk(members[0].value, false, heads);
      WalkLeaves(members[0].value, false, heads);
      MembersLeaves(members[1..], first.heads);
      LiteralsJoin(first.values, WalkMembers(members[1..], first.heads).values);
    }
  }

  // ---- What the flag says ----

  /** In document order: an object opened as an array's element, or a leaf. */
  datatype Event = ElementOpened | Leaf(literal: Text)

  function Events(j: Json, inArray: bool): seq<Event> {
    match j
    case Num(literal) => [Leaf(literal)]
    case Str(literal) => [Leaf(literal)]
    case Arr(items) => ItemEvents(items, true)
    case Obj(members) => (if inArray then [ElementOpened] else []) + MemberEvents(members)
    case _ => []
  }

  function ItemEvents(items: seq<Json>, inArray: bool): seq<Event> {
    if items == [] then [] else Events(items[0], inArray) + ItemEvents(items[1..], inArray)
  }

  function MemberEvents(members: seq<Member>): seq<Event> {
    if members == [] then [] else Events(members[0].value, false) + MemberEvents(members[1..])
  }

  function FromEvents(es: seq<Event>, heads: bool): Walked {
    if es == [] then Walked([], heads)
    else
      match es[0]
      case ElementOpened => FromEvents(es[1..], true)
      case Leaf(literal) =>
        var rest := FromEvents(es[1..], false);
        Walked([Value(literal, heads)] + rest.values, rest.heads)
  }

  lemma {:induction false} FromEventsJoins(a: seq<Event>, b: seq<Event>, heads: bool)
    ensures
      var first := FromEvents(a, heads);
      var rest := FromEvents(b, first.heads);
      FromEvents(a + b, heads) == Walked(first.values + rest.values, rest.heads)
    decreases |a|
  {
    if a == [] {
      assert a + b == b;
    } else {
      assert (a + b)[1..] == a[1..] + b;
      FromEventsJoins(a[1..], b, a[0].ElementOpened?);
    }
  }

  lemma {:induction false} WalkEvents(j: Json, inArray: bool, heads: bool)
    ensures Walk(j, inArray, heads) == FromEvents(Events(j, inArray), heads)
    decreases j, 0
  {
    match j
    case Arr(items) => ItemsEvents(items, true, heads);
    case Obj(members) =>
      MembersEvents(members, heads || inArray);
      FromEventsJoins(if inArray then [ElementOpened] else [], MemberEvents(members), heads);
    case _ =>
  }

  lemma {:induction false} ItemsEvents(items: seq<Json>, inArray: bool, heads: bool)
    ensures WalkItems(items, inArray, heads) == FromEvents(ItemEvents(items, inArray), heads)
    decreases items, 1
  {
    if items != [] {
      WalkEvents(items[0], inArray, heads);
      ItemsEvents(items[1..], inArray, Walk(items[0], inArray, heads).heads);
      FromEventsJoins(Events(items[0], inArray), ItemEvents(items[1..], inArray), heads);
    }
  }

  lemma {:induction false} MembersEvents(members: seq<Member>, heads: bool)
    ensures WalkMembers(members, heads) == FromEvents(MemberEvents(members), heads)
    decreases members, 1
  {
    if members != [] {
      WalkEvents(members[0].value, false, heads);
      MembersEvents(members[1..], Walk(members[0].value, false, heads).heads);
      FromEventsJoins(Events(members[0].value, false), MemberEvents(members[1..]), heads);
    }
  }

  /** How many leaves come before a place. */
  function LeavesBefore(es: seq<Event>, p: nat): nat
    requires p <= |es|
  {
    if p == 0 then 0 else LeavesBefore(es, p - 1) + if es[p - 1].Leaf? then 1 else 0
  }

  /** An element was opened since the leaf before this place. */
  predicate OpenedSince(es: seq<Event>, p: nat)
    requires p <= |es|
  {
    p > 0 && es[p - 1].ElementOpened?
  }

  lemma {:induction false} EventAt(es: seq<Event>, heads: bool, p: nat)
    requires p < |es| && es[p].Leaf?
    ensures
      var values := FromEvents(es, heads).values;
      && LeavesBefore(es, p) < |values| && values[LeavesBefore(es, p)].literal == es[p].literal
      && (values[LeavesBefore(es, p)].heading <==> OpenedSince(es, p) || (p == 0 && heads))
    decreases p
  {
    if p > 0 {
      EventAt(es[1..], es[0].ElementOpened?, p - 1);
      LeavesShift(es, p);
    }
  }

  lemma {:induction false} LeavesShift(es: seq<Event>, p: nat)
    requires 0 < p <= |es|
    ensures LeavesBefore(es, p) == LeavesBefore(es[1..], p - 1) + if es[0].Leaf? then 1 else 0
  {
    if p > 1 {
      LeavesShift(es, p - 1);
      assert es[1..][p - 2] == es[p - 1];
    }
  }

  /**
   * A report's leaf opens a passage exactly if, since the leaf before it, an object was opened as an
   * element of an array, whichever of the report's values the two are in.
   */
  lemma FlagExactly(js: seq<Json>, p: nat)
    requires p < |ItemEvents(js, false)| && ItemEvents(js, false)[p].Leaf?
    ensures
      var es, values := ItemEvents(js, false), WalkItems(js, false, false).values;
      && LeavesBefore(es, p) < |values| && values[LeavesBefore(es, p)].literal == es[p].literal
      && (values[LeavesBefore(es, p)].heading <==> p > 0 && es[p - 1] == ElementOpened)
  {
    ItemsEvents(js, false, false);
    EventAt(ItemEvents(js, false), false, p);
  }

  // ---- The walk of the stream ----

  /** One open object or array; only an object's keys and values alternate. */
  datatype Frame = Frame(isArray: bool, expectingKey: bool)

  datatype State = State(joined: Text, spans: seq<Span>, heads: bool, stack: seq<Frame>)

  const SEPARATOR: Text := [0x0A, 0x0A]

  /** A value joins the text, apart from what is there, and takes the flag with it. */
  function AddValue(m: State, literal: Text): State {
    var joined := if m.joined != [] then m.joined + SEPARATOR else m.joined;
    m.(joined := joined + literal, spans := m.spans + [Span(|joined|, |joined| + |literal|, m.heads)], heads := false)
  }

  function Filled(stack: seq<Frame>): seq<Frame> {
    if stack != [] && !Last(stack).isArray then stack[|stack| - 1 := Last(stack).(expectingKey := true)] else stack
  }

  predicate IsKey(stack: seq<Frame>) {
    stack != [] && !Last(stack).isArray && Last(stack).expectingKey
  }

  function KeyRead(stack: seq<Frame>): seq<Frame>
    requires stack != []
  {
    stack[|stack| - 1 := Last(stack).(expectingKey := false)]
  }

  function Step(m: State, t: Token): State {
    match t
    case Open(isArray) =>
      var inArray := m.stack != [] && Last(m.stack).isArray;
      m.(heads := m.heads || (!isArray && inArray), stack := Filled(m.stack) + [Frame(isArray, !isArray)])
    case Close => if m.stack == [] then m else m.(stack := Filled(m.stack[..|m.stack| - 1]))
    case StringToken(literal) =>
      if IsKey(m.stack) then m.(stack := KeyRead(m.stack)) else AddValue(m.(stack := Filled(m.stack)), literal)
    case NumberToken(literal) => AddValue(m.(stack := Filled(m.stack)), literal)
    case OtherToken => if IsKey(m.stack) then m.(stack := KeyRead(m.stack)) else m.(stack := Filled(m.stack))
  }

  function Run(m: State, ts: seq<Token>): State
    decreases |ts|
  {
    if ts == [] then m else Run(Step(m, ts[0]), ts[1..])
  }

  lemma {:induction false} RunJoins(m: State, a: seq<Token>, b: seq<Token>)
    ensures Run(m, a + b) == Run(Run(m, a), b)
    decreases |a|
  {
    if a == [] {
      assert a + b == b;
    } else {
      assert (a + b)[1..] == a[1..] + b;
      RunJoins(Step(m, a[0]), a[1..], b);
    }
  }

  lemma RunOne(m: State, t: Token)
    ensures Run(m, [t]) == Step(m, t)
  {
    assert Run(Step(m, t), []) == Step(m, t);
  }

  /** Values added one after another, each with its own flag. */
  function AddAll(m: State, values: seq<Value>): State
    decreases |values|
  {
    if values == [] then m else AddAll(AddValue(m.(heads := values[0].heading), values[0].literal), values[1..])
  }

  lemma {:induction false} AddAllJoins(m: State, a: seq<Value>, b: seq<Value>)
    ensures AddAll(m, a + b) == AddAll(AddAll(m, a), b)
    decreases |a|
  {
    if a == [] {
      assert a + b == b;
    } else {
      assert (a + b)[1..] == a[1..] + b;
      AddAllJoins(AddValue(m.(heads := a[0].heading), a[0].literal), a[1..], b);
    }
  }

  lemma {:induction false} AddAllAside(m: State, heads: bool, stack: seq<Frame>, values: seq<Value>)
    ensures
      var plain, moved := AddAll(m, values), AddAll(m.(heads := heads, stack := stack), values);
      moved.joined == plain.joined && moved.spans == plain.spans && moved.stack == stack && plain.stack == m.stack
    decreases |values|
  {
    if values != [] {
      var literal := values[0].literal;
      var next := AddValue(m.(heads := values[0].heading), literal);
      AddAllAside(next, false, stack, values[1..]);
      assert AddValue(m.(heads := values[0].heading, stack := stack), literal) == next.(heads := false, stack := stack);
    }
  }

  /** Where the walk of some values leaves a state. */
  function After(m: State, w: Walked, stack: seq<Frame>): State {
    AddAll(m, w.values).(heads := w.heads, stack := stack)
  }

  /** One walk after another. */
  lemma AfterTwice(m: State, a: Walked, b: Walked, s1: seq<Frame>, s2: seq<Frame>)
    ensures After(After(m, a, s1), b, s2) == After(m, Walked(a.values + b.values, b.heads), s2)
  {
    AddAllJoins(m, a.values, b.values);
    AddAllAside(AddAll(m, a.values), a.heads, s1, b.values);
  }

  /** Where the stack does not matter to what is added. */
  lemma AfterAside(m: State, heads: bool, stack: seq<Frame>, w: Walked, s2: seq<Frame>)
    ensures After(m.(heads := heads, stack := stack), w, s2) == After(m, w, s2)
  {
    AddAllAside(m, heads, stack, w.values);
  }

  /** The tokens of a value, where a value is due, add its values and leave its slot filled. */
  lemma {:induction false} RunValue(m: State, j: Json)
    requires !IsKey(m.stack)
    ensures
      var inArray := m.stack != [] && Last(m.stack).isArray;
      Run(m, Tokens(j)) == After(m, Walk(j, inArray, m.heads), Filled(m.stack))
    decreases j, 0
  {
    var inArray := m.stack != [] && Last(m.stack).isArray;
    match j
    case Null => RunOne(m, OtherToken);
    case Bool(_) => RunOne(m, OtherToken);
    case Num(literal) =>
      RunOne(m, NumberToken(literal));
      OneValue(m, literal);
    case Str(literal) =>
      RunOne(m, StringToken(literal));
      OneValue(m, literal);
    case Arr(items) =>
      var entered := Step(m, Open(true));
      RunItems(entered, items);
      Encloses(m, true, ItemTokens(items), WalkItems(items, true, m.heads));
    case Obj(members) =>
      var entered := Step(m, Open(false));
      RunMembers(entered, members);
      Encloses(m, false, MemberTokens(members), WalkMembers(members, m.heads || inArray));
  }

  lemma OneValue(m: State, literal: Text)
    ensures AddValue(m.(stack := Filled(m.stack)), literal) == After(m, Walked([Value(literal, m.heads)], false), Filled(m.stack))
  {
    assert m.(heads := m.heads) == m && [Value(literal, m.heads)][1..] == [];
    assert AddAll(AddValue(m, literal), []) == AddValue(m, literal);
  }

  /** What is between an opening and its close, with the frame pushed and popped. */
  lemma Encloses(m: State, isArray: bool, ts: seq<Token>, w: Walked)
    requires Run(Step(m, Open(isArray)), ts) == After(Step(m, Open(isArray)), w, Step(m, Open(isArray)).stack)
    ensures Run(m, [Open(isArray)] + ts + [Close]) == After(m, w, Filled(m.stack))
  {
    var entered := Step(m, Open(isArray));
    RunJoins(m, [Open(isArray)] + ts, [Close]);
    RunJoins(m, [Open(isArray)], ts);
    RunOne(m, Open(isArray));
    RunOne(Run(entered, ts), Close);
    assert entered.stack[..|entered.stack| - 1] == Filled(m.stack);
    FilledTwice(m.stack);
    AfterAside(m, entered.heads, entered.stack, w, Filled(m.stack));
    assert entered == m.(heads := entered.heads, stack := entered.stack);
    AddAllAside(m, entered.heads, entered.stack, w.values);
  }

  lemma FilledTwice(stack: seq<Frame>)
    ensures Filled(Filled(stack)) == Filled(stack)
  {}

  /** Values in an array, or one after another in no container. */
  lemma {:induction false} RunItems(m: State, items: seq<Json>)
    requires m.stack == [] || Last(m.stack).isArray
    ensures Run(m, ItemTokens(items)) == After(m, WalkItems(items, m.stack != [], m.heads), m.stack)
    decreases items, 1
  {
    if items != [] {
      var inArray := m.stack != [];
      RunValue(m, items[0]);
      var first := Walk(items[0], inArray, m.heads);
      var next := After(m, first, m.stack);
      RunJoins(m, Tokens(items[0]), ItemTokens(items[1..]));
      RunItems(next, items[1..]);
      AfterTwice(m, first, WalkItems(items[1..], inArray, first.heads), m.stack, m.stack);
    }
  }

  lemma {:induction false} RunMembers(m: State, members: seq<Member>)
    requires m.stack != [] && !Last(m.stack).isArray && Last(m.stack).expectingKey
    ensures Run(m, MemberTokens(members)) == After(m, WalkMembers(members, m.heads), m.stack)
    decreases members, 1
  {
    if members != [] {
      var key, j := StringToken(members[0].key), members[0].value;
      var read := Step(m, key);
      RunOne(m, key);
      RunValue(read, j);
      var first := Walk(j, false, m.heads);
      assert Filled(read.stack) == m.stack;
      AfterAside(m, m.heads, read.stack, first, m.stack);
      assert read == m.(heads := m.heads, stack := read.stack);
      var next := After(m, first, m.stack);
      RunJoins(m, [key] + Tokens(j), MemberTokens(members[1..]));
      RunJoins(m, [key], Tokens(j));
      RunMembers(next, members[1..]);
      AfterTwice(m, first, WalkMembers(members[1..], first.heads), m.stack, m.stack);
    }
  }

  // ---- The text the values make ----

  const EMPTY: State := State([], [], false, [])

  /** Each span selects its own literal in the joined text, with its value's flag. */
  ghost predicate Selects(m: State, values: seq<Value>) {
    && |m.spans| == |values|
    && forall k :: 0 <= k < |values| ==>
         && m.spans[k].start <= m.spans[k].end <= |m.joined|
         && m.joined[m.spans[k].start..m.spans[k].end] == values[k].literal && m.spans[k].heading == values[k].heading
  }

  lemma {:induction false} AddAllSelects(m: State, before: seq<Value>, values: seq<Value>)
    requires Selects(m, before)
    ensures Selects(AddAll(m, values), before + values)
    decreases |values|
  {
    if values == [] {
      assert before + values == before;
    } else {
      var next := AddValue(m.(heads := values[0].heading), values[0].literal);
      SelectsOne(m, before, values[0]);
      AddAllSelects(next, before + [values[0]], values[1..]);
      assert before + [values[0]] + values[1..] == before + values;
    }
  }

  lemma SelectsOne(m: State, before: seq<Value>, v: Value)
    requires Selects(m, before)
    ensures Selects(AddValue(m.(heads := v.heading), v.literal), before + [v])
  {
    var next := AddValue(m.(heads := v.heading), v.literal);
    forall k | 0 <= k < |before|
      ensures m.spans[k].end <= |m.joined| && next.joined[m.spans[k].start..m.spans[k].end] == before[k].literal
    {
      assert next.joined[..|m.joined|] == m.joined;
      assert next.joined[m.spans[k].start..m.spans[k].end] == m.joined[m.spans[k].start..m.spans[k].end];
    }
    var start := |next.joined| - |v.literal|;
    assert next.joined[start..|next.joined|] == v.literal;
  }

  /** Valid text, spans in order in it, the last of them its end. */
  ghost predicate Laid(joined: Text, spans: seq<Span>) {
    && Valid(joined) && Follow(joined, spans)
    && (if spans == [] then joined == [] else Last(spans).end == |joined|)
  }

  lemma {:induction false} ValidJoins(a: Text, b: Text, i: nat)
    requires i <= |a| && ValidFrom(a, i) && Valid(b)
    ensures ValidFrom(a + b, i)
    decreases |a| - i
  {
    if i < |a| {
      var n := Size(a, i, |a|);
      assert Size(a + b, i, |a + b|) == n;
      ValidJoins(a, b, i + n);
    } else {
      ValidShifts(a, b, 0);
    }
  }

  lemma {:induction false} ValidShifts(a: Text, b: Text, i: nat)
    requires i <= |b| && ValidFrom(b, i)
    ensures ValidFrom(a + b, |a| + i)
    decreases |b| - i
  {
    if i < |b| {
      var n := Size(b, i, |b|);
      assert Size(a + b, |a| + i, |a + b|) == n;
      ValidShifts(a, b, i + n);
    }
  }

  lemma {:induction false} BlankExtends(a: Text, b: Text, i: nat, j: nat)
    requires i <= j <= |a| && Blank(a, i, j)
    ensures Blank(a + b, i, j)
    decreases j - i
  {
    if i < j {
      assert SpaceSize(a + b, i, j) == SpaceSize(a, i, j);
      BlankExtends(a, b, i + SpaceSize(a, i, j), j);
    }
  }

  lemma BoundExtends(a: Text, b: Text, i: nat)
    requires i <= |a| && Bound(a, i) && Valid(b)
    ensures Bound(a + b, i)
  {
    if i == |a| && b != [] {
      assert Size(b, 0, |b|) > 0;
    }
  }

  lemma FollowExtends(a: Text, b: Text, spans: seq<Span>)
    requires Follow(a, spans) && Valid(b)
    ensures Follow(a + b, spans)
  {
    forall k | 0 <= k < |spans| ensures Inside(a + b, spans[k]) {
      assert Inside(a, spans[k]);
      BoundExtends(a, b, spans[k].start);
      BoundExtends(a, b, spans[k].end);
    }
    forall k | 0 < k < |spans| ensures spans[k - 1].end <= spans[k].start && Blank(a + b, spans[k - 1].end, spans[k].start) {
      assert Inside(a, spans[k]);
      BlankExtends(a, b, spans[k - 1].end, spans[k].start);
    }
  }

  lemma SeparatorBlank(a: Text)
    ensures Valid(SEPARATOR) && Blank(a + SEPARATOR, |a|, |a| + 2)
  {
    assert Size(SEPARATOR, 0, 2) == 1 && Size(SEPARATOR, 1, 2) == 1;
    assert ValidFrom(SEPARATOR, 2);
    assert ValidFrom(SEPARATOR, 1);
    var s := a + SEPARATOR;
    assert s[|a|] == 0x0A && s[|a| + 1] == 0x0A;
    assert SpaceSize(s, |a|, |a| + 2) == 1 && SpaceSize(s, |a| + 1, |a| + 2) == 1;
    assert Blank(s, |a| + 1, |a| + 2);
  }

  /** The separator leaves the text valid, and its spans before it. */
  lemma SeparatorLays(a: Text, spans: seq<Span>)
    requires Valid(a) && Follow(a, spans)
    ensures Valid(a + SEPARATOR) && Follow(a + SEPARATOR, spans) && Blank(a + SEPARATOR, |a|, |a| + 2)
  {
    SeparatorBlank(a);
    ValidJoins(a, SEPARATOR, 0);
    FollowExtends(a, SEPARATOR, spans);
  }

  /** A literal after white space is the next span. */
  lemma LiteralLays(mid: Text, spans: seq<Span>, end: nat, literal: Text, heading: bool)
    requires Valid(mid) && Valid(literal) && Follow(mid, spans) && end <= |mid| && Blank(mid, end, |mid|)
    requires spans != [] ==> Last(spans).end == end
    ensures Laid(mid + literal, spans + [Span(|mid|, |mid| + |literal|, heading)])
  {
    ValidJoins(mid, literal, 0);
    FollowExtends(mid, literal, spans);
    BoundExtends(mid, literal, |mid|);
    BlankExtends(mid, literal, end, |mid|);
    FollowMore(mid + literal, spans, Span(|mid|, |mid| + |literal|, heading));
  }

  lemma AddLays(m: State, literal: Text)
    requires Laid(m.joined, m.spans) && Valid(literal)
    ensures Laid(AddValue(m, literal).joined, AddValue(m, literal).spans)
  {
    var mid := if m.joined != [] then m.joined + SEPARATOR else m.joined;
    assert AddValue(m, literal).joined == mid + literal;
    assert AddValue(m, literal).spans == m.spans + [Span(|mid|, |mid| + |literal|, m.heads)];
    SeparatorLays(m.joined, m.spans);
    LiteralLays(mid, m.spans, |m.joined|, literal, m.heads);
  }

  /** A decoder's strings and numbers are valid text. */
  predicate AllValid(ts: seq<Token>) {
    forall k :: 0 <= k < |ts| ==> (ts[k].StringToken? || ts[k].NumberToken? ==> Valid(ts[k].literal))
  }

  /** Whatever the tokens, the text is valid and the spans follow one another in it. */
  lemma {:induction false} RunLays(m: State, ts: seq<Token>)
    requires Laid(m.joined, m.spans) && AllValid(ts)
    ensures Laid(Run(m, ts).joined, Run(m, ts).spans)
    decreases |ts|
  {
    if ts != [] {
      StepLays(m, ts[0]);
      assert AllValid(ts[1..]);
      RunLays(Step(m, ts[0]), ts[1..]);
    }
  }

  /** The first value begins the text. */
  predicate Begins(m: State) {
    if m.spans == [] then m.joined == [] else m.spans[0].start == 0
  }

  lemma {:induction false} RunBegins(m: State, ts: seq<Token>)
    requires Begins(m)
    ensures Begins(Run(m, ts))
    decreases |ts|
  {
    if ts != [] {
      RunBegins(Step(m, ts[0]), ts[1..]);
    }
  }

  lemma StepLays(m: State, t: Token)
    requires Laid(m.joined, m.spans) && (t.StringToken? || t.NumberToken? ==> Valid(t.literal))
    ensures Laid(Step(m, t).joined, Step(m, t).spans)
  {
    if (t.StringToken? && !IsKey(m.stack)) || t.NumberToken? {
      AddLays(m.(stack := Filled(m.stack)), t.literal);
    }
  }

  // ---- The walk itself ----

  method WalkTokens(ts: seq<Token>) returns (joined: Text, spans: seq<Span>)
    ensures joined == Run(EMPTY, ts).joined && spans == Run(EMPTY, ts).spans
  {
    joined, spans := [], [];
    var heads := false;
    var stack: seq<Frame> := [];
    for at := 0 to |ts|
      invariant Run(EMPTY, ts) == Run(State(joined, spans, heads, stack), ts[at..])
    {
      assert ts[at..][1..] == ts[at + 1..];
      match ts[at] {
        case Open(isArray) =>
          var inArray := |stack| > 0 && stack[|stack| - 1].isArray;
          stack := Filled(stack);
          if !isArray && inArray { heads := true; }
          stack := stack + [Frame(isArray, !isArray)];
        case Close =>
          if |stack| > 0 { stack := Filled(stack[..|stack| - 1]); }
        case NumberToken(literal) =>
          stack := Filled(stack);
          joined, spans, heads := Append(joined, spans, heads, stack, literal);
        case StringToken(literal) =>
          if IsKey(stack) {
            stack := KeyRead(stack);
          } else {
            stack := Filled(stack);
            joined, spans, heads := Append(joined, spans, heads, stack, literal);
          }
        case OtherToken =>
          stack := if IsKey(stack) then KeyRead(stack) else Filled(stack);
      }
    }
  }

  method Append(joined: Text, spans: seq<Span>, heads: bool, ghost stack: seq<Frame>, literal: Text)
    returns (joined': Text, spans': seq<Span>, heads': bool)
    ensures State(joined', spans', heads', stack) == AddValue(State(joined, spans, heads, stack), literal)
  {
    joined' := joined;
    if |joined'| > 0 { joined' := joined' + SEPARATOR; }
    var start := |joined'|;
    joined' := joined' + literal;
    spans' := spans + [Span(start, |joined'|, heads)];
    heads' := false;
  }

  /** A report's walk emits exactly its values' leaves, flagged as their trees say, each span its own literal. */
  lemma WalkEmits(js: seq<Json>)
    ensures
      var m := Run(EMPTY, ItemTokens(js));
      var values := WalkItems(js, false, false).values;
      Literals(values) == ItemLeaves(js) && Selects(m, values) && m.stack == []
  {
    var w := WalkItems(js, false, false);
    RunItems(EMPTY, js);
    ItemsLeaves(js, false, false);
    AddAllSelects(EMPTY, [], w.values);
    assert [] + w.values == w.values;
    SelectsAside(AddAll(EMPTY, w.values), w.heads, w.values);
  }

  lemma SelectsAside(m: State, heads: bool, values: seq<Value>)
    requires Selects(m, values)
    ensures Selects(m.(heads := heads, stack := []), values)
  {}

  // ---- A report cut short ----

  /** Which tokens of a tree are an object's keys. */
  function Keys(j: Json): (keys: seq<bool>)
    ensures |keys| == |Tokens(j)|
  {
    match j
    case Arr(items) => [false] + ItemKeys(items) + [false]
    case Obj(members) => [false] + MemberKeys(members) + [false]
    case _ => [false]
  }

  function ItemKeys(items: seq<Json>): (keys: seq<bool>)
    ensures |keys| == |ItemTokens(items)|
  {
    if items == [] then [] else Keys(items[0]) + ItemKeys(items[1..])
  }

  function MemberKeys(members: seq<Member>): (keys: seq<bool>)
    ensures |keys| == |MemberTokens(members)|
  {
    if members == [] then [] else [true] + Keys(members[0].value) + MemberKeys(members[1..])
  }

  /** The walk takes a token for a key. */
  predicate TakenForKey(m: State, ts: seq<Token>, k: nat)
    requires k < |ts|
  {
    ts[k].StringToken? && IsKey(Run(m, ts[..k]).stack)
  }

  lemma TakenBefore(m: State, a: seq<Token>, b: seq<Token>, k: nat)
    requires k < |a|
    ensures TakenForKey(m, a + b, k) == TakenForKey(m, a, k)
  {
    assert (a + b)[..k] == a[..k];
  }

  lemma TakenAfter(m: State, a: seq<Token>, b: seq<Token>, k: nat)
    requires |a| <= k < |a + b|
    ensures TakenForKey(m, a + b, k) == TakenForKey(Run(m, a), b, k - |a|)
  {
    assert (a + b)[..k] == a + b[..k - |a|];
    RunJoins(m, a, b[..k - |a|]);
  }

  /** A value read leaves its slot filled, and the stack as it was but for that. */
  lemma ValueFills(m: State, j: Json)
    requires !IsKey(m.stack)
    ensures Run(m, Tokens(j)).stack == Filled(m.stack)
  {
    RunValue(m, j);
  }

  /** The walk takes for keys exactly the tokens that are. */
  lemma {:induction false} KeysTaken(m: State, j: Json, k: nat)
    requires !IsKey(m.stack) && k < |Tokens(j)|
    ensures Keys(j)[k] <==> TakenForKey(m, Tokens(j), k)
    decreases j, 0
  {
    if 0 < k < |Tokens(j)| - 1 {
      RunOne(m, Tokens(j)[0]);
      match j
      case Arr(items) =>
        ItemKeysTaken(Step(m, Open(true)), items, k - 1);
        Within(m, true, ItemTokens(items), k);
      case Obj(members) =>
        MemberKeysTaken(Step(m, Open(false)), members, k - 1);
        Within(m, false, MemberTokens(members), k);
    } else {
      EndsNoKey(m, j, k);
    }
  }

  lemma EndsNoKey(m: State, j: Json, k: nat)
    requires !IsKey(m.stack) && k < |Tokens(j)| && (k == 0 || k == |Tokens(j)| - 1)
    ensures !Keys(j)[k] && !TakenForKey(m, Tokens(j), k)
  {
    if k == 0 {
      assert Tokens(j)[..k] == [];
    }
  }

  lemma Within(m: State, isArray: bool, ts: seq<Token>, k: nat)
    requires 0 < k <= |ts|
    ensures TakenForKey(m, [Open(isArray)] + ts + [Close], k) == TakenForKey(Step(m, Open(isArray)), ts, k - 1)
  {
    RunOne(m, Open(isArray));
    TakenBefore(m, [Open(isArray)] + ts, [Close], k);
    TakenAfter(m, [Open(isArray)], ts, k);
  }

  lemma {:induction false} ItemKeysTaken(m: State, items: seq<Json>, k: nat)
    requires (m.stack == [] || Last(m.stack).isArray) && k < |ItemTokens(items)|
    ensures ItemKeys(items)[k] <==> TakenForKey(m, ItemTokens(items), k)
    decreases items, 1
  {
    if items != [] {
      var ts, rest := Tokens(items[0]), ItemTokens(items[1..]);
      assert ItemTokens(items) == ts + rest && ItemKeys(items) == Keys(items[0]) + ItemKeys(items[1..]);
      if k < |ts| {
        KeysTaken(m, items[0], k);
        TakenBefore(m, ts, rest, k);
      } else {
        ValueFills(m, items[0]);
        ItemKeysTaken(Run(m, ts), items[1..], k - |ts|);
        TakenAfter(m, ts, rest, k);
      }
    }
  }

  lemma {:induction false} MemberKeysTaken(m: State, members: seq<Member>, k: nat)
    requires m.stack != [] && !Last(m.stack).isArray && Last(m.stack).expectingKey && k < |MemberTokens(members)|
    ensures MemberKeys(members)[k] <==> TakenForKey(m, MemberTokens(members), k)
    decreases members, 1
  {
    if members != [] {
      var key, j := StringToken(members[0].key), members[0].value;
      var ts, rest := [key] + Tokens(j), MemberTokens(members[1..]);
      var read := Step(m, key);
      RunOne(m, key);
      if k == 0 {
        assert (ts + rest)[..0] == [];
      } else if k < |ts| {
        KeysTaken(read, j, k - 1);
        TakenBefore(m, ts, rest, k);
        TakenAfter(m, [key], Tokens(j), k);
      } else {
        RunJoins(m, [key], Tokens(j));
        ValueFills(read, j);
        assert Filled(read.stack) == m.stack;
        MemberKeysTaken(Run(m, ts), members[1..], k - |ts|);
        TakenAfter(m, ts, rest, k);
      }
    }
  }

  /** How many of the first tokens are leaves. */
  function LeavesRead(ts: seq<Token>, keys: seq<bool>, n: nat): nat
    requires n <= |ts| == |keys|
  {
    if n == 0 then 0 else LeavesRead(ts, keys, n - 1) + if ts[n - 1].NumberToken? || (ts[n - 1].StringToken? && !keys[n - 1]) then 1 else 0
  }

  lemma {:induction false} SpansRead(js: seq<Json>, n: nat)
    requires n <= |ItemTokens(js)|
    ensures |Run(EMPTY, ItemTokens(js)[..n]).spans| == LeavesRead(ItemTokens(js), ItemKeys(js), n)
    decreases n
  {
    var ts := ItemTokens(js);
    if n > 0 {
      SpansRead(js, n - 1);
      ItemKeysTaken(EMPTY, js, n - 1);
      assert ts[..n] == ts[..n - 1] + [ts[n - 1]];
      RunJoins(EMPTY, ts[..n - 1], [ts[n - 1]]);
      RunOne(Run(EMPTY, ts[..n - 1]), ts[n - 1]);
    } else {
      assert ts[..0] == [];
    }
  }

  /** Every span lies in the text. */
  predicate SpansIn(m: State) {
    forall k :: 0 <= k < |m.spans| ==> m.spans[k].start <= m.spans[k].end <= |m.joined|
  }

  /** Text and spans only grow. */
  lemma {:induction false} RunGrows(m: State, ts: seq<Token>)
    ensures m.joined <= Run(m, ts).joined && m.spans <= Run(m, ts).spans
    ensures SpansIn(m) ==> SpansIn(Run(m, ts))
    decreases |ts|
  {
    if ts != [] {
      RunGrows(Step(m, ts[0]), ts[1..]);
    }
  }

  /**
   * However far the tokens of a report's values are read, what is emitted is exactly the values whose
   * leaves were read, each span its own literal.
   */
  lemma PartEmits(js: seq<Json>, n: nat)
    requires n <= |ItemTokens(js)|
    ensures
      var ts, values := ItemTokens(js), WalkItems(js, false, false).values;
      var read := LeavesRead(ts, ItemKeys(js), n);
      read <= |values| && Selects(Run(EMPTY, ts[..n]), values[..read])
  {
    var ts, values := ItemTokens(js), WalkItems(js, false, false).values;
    var part, whole := Run(EMPTY, ts[..n]), Run(EMPTY, ts);
    WalkEmits(js);
    SpansRead(js, n);
    assert ts == ts[..n] + ts[n..];
    RunJoins(EMPTY, ts[..n], ts[n..]);
    RunGrows(part, ts[n..]);
    RunGrows(EMPTY, ts[..n]);
    forall k | 0 <= k < |part.spans|
      ensures part.joined[part.spans[k].start..part.spans[k].end] == values[k].literal && part.spans[k].heading == values[k].heading
    {
      assert part.spans[k] == whole.spans[k];
      assert part.joined[part.spans[k].start..part.spans[k].end] == whole.joined[part.spans[k].start..part.spans[k].end];
    }
  }

  // ---- Its passages ----

  /** Values that hold something, and neither start nor end in white space, are blocks that cover the text. */
  lemma TidyCovers(m: State)
    requires Laid(m.joined, m.spans) && Begins(m) && AllTidy(m.joined, m.spans)
    ensures Covers(m.joined, m.spans, |m.joined|)
  {}

  lemma EmptyLeafWalks()
    ensures var m := Run(EMPTY, Tokens(Str([]))); m.joined == [] && m.spans == [Span(0, 0, false)]
  {
    RunValue(EMPTY, Str([]));
    var v := Value([], false);
    assert Walk(Str([]), false, false).values == [v] && [v][1..] == [];
    assert AddAll(EMPTY, [v]) == AddAll(AddValue(EMPTY, []), []);
  }

  /** Only a block longer than the cap is cut. */
  lemma CutWasLong(s: Text, block: Span, pieces: seq<Span>)
    requires PiecesOf(s, block, pieces)
    ensures |pieces| > 1 ==> block.end > block.start + PASSAGE_BYTES
  {
    if |pieces| > 1 {
      assert CutAsFar(s, block, pieces[..|pieces| - 1][0]);
    }
  }

  lemma OnePiece(parts: seq<seq<Span>>)
    requires PiecesAll([], [Span(0, 0, false)], parts)
    ensures Concat(parts) == [Span(0, 0, false)]
  {
    var pieces := parts[0];
    assert PiecesOf([], [Span(0, 0, false)][0], pieces);
    CutWasLong([], Span(0, 0, false), pieces);
    assert pieces == [pieces[0]];
    assert parts == [pieces] && parts[..0] == [] && Concat([]) == [];
  }

  lemma {:induction false} CutsClimb(pieces: seq<Span>, cuts: seq<nat>, i: nat)
    requires Grouped(pieces, cuts) && i < |cuts|
    ensures i <= cuts[i] < |pieces|
    decreases i
  {
    assert GroupOk(pieces, cuts, i);
    if i > 0 { CutsClimb(pieces, cuts, i - 1); }
  }

  lemma OneGroup(pieces: seq<Span>, cuts: seq<nat>)
    requires Grouped(pieces, cuts) && |pieces| == 1
    ensures cuts == [0] && GroupOk(pieces, cuts, 0)
  {
    CutsClimb(pieces, cuts, |cuts| - 1);
  }

  /** A report that is one empty string has one passage, and it is empty. */
  lemma EmptyLeaf(source: string, parts: seq<seq<Span>>, cuts: seq<nat>, passages: seq<Passage>)
    requires Packed([], source, Run(EMPTY, Tokens(Str([]))).spans, parts, cuts, passages)
    ensures Run(EMPTY, Tokens(Str([]))).joined == []
    ensures passages == [Passage(source, 1, 0, [])]
  {
    EmptyLeafWalks();
    OnePiece(parts);
    OneGroup(Concat(parts), cuts);
    assert EmittedOne([], source, Concat(parts), cuts, 0, passages[0]);
  }

  /**
   * Cuts a report's values by the rules for blocks; each is one, and each finding opens a passage. A
   * malformed report is cut from what is read before its fault.
   */
  method ReportPassages(source: string, ghost js: seq<Json>, ts: seq<Token>)
    returns (passages: seq<Passage>, ghost spans: seq<Span>, ghost joined: Text, ghost parts: seq<seq<Span>>, ghost cuts: seq<nat>)
    requires ts <= ItemTokens(js) && AllValid(ts)
    ensures
      var values, read := WalkItems(js, false, false).values, LeavesRead(ItemTokens(js), ItemKeys(js), |ts|);
      read <= |values| && Selects(State(joined, spans, false, []), values[..read])
    ensures Packed(joined, source, spans, parts, cuts, passages)
    ensures AllTidy(joined, spans) ==> Cuts(joined, source, passages)
    ensures forall i :: 0 <= i < |passages| ==>
              && SpanOf(passages[i]).end <= |joined|
              && (!Tidy(joined, SpanOf(passages[i])) <==> Untidy(joined, spans, SpanOf(passages[i])))
  {
    assert ItemTokens(js)[..|ts|] == ts;
    PartEmits(js, |ts|);
    RunLays(EMPTY, ts);
    RunBegins(EMPTY, ts);
    var text, values := WalkTokens(ts);
    spans, joined := values, text;
    passages, parts, cuts := Pack(source, text, values);
    if AllTidy(joined, spans) {
      TidyCovers(Run(EMPTY, ts));
      PackedCuts(joined, source, spans, parts, cuts, passages);
    }
    forall i | 0 <= i < |passages|
      ensures SpanOf(passages[i]).end <= |joined| && (!Tidy(joined, SpanOf(passages[i])) <==> Untidy(joined, spans, SpanOf(passages[i])))
    {
      TidyExactly(joined, source, spans, parts, cuts, passages, i);
    }
  }
}
