/**
 * Binding a shell line's references to variables of its step's environment, and what that does to
 * the quoting of section 2.2 of the POSIX Shell Command Language.
 */
module Shell {
  import opened Common

  // ---- Quoting ----

  /** Where a byte stands: inside single quotes, inside double quotes, or escaped by a backslash. */
  datatype Quote = Quote(single: bool, double: bool, escaped: bool)

  const PLAIN: Quote := Quote(false, false, false)

  function Next(q: Quote, c: char): Quote {
    if q.escaped then q.(escaped := false)
    else if c == '\\' then q.(escaped := !q.single)
    else if c == '\'' && !q.double then q.(single := !q.single)
    else if c == '"' && !q.single then q.(double := !q.double)
    else q
  }

  function ScanFrom(q: Quote, s: string): Quote {
    if s == [] then q else Next(ScanFrom(q, s[..|s| - 1]), s[|s| - 1])
  }

  /** The state a line leaves the byte after it in. */
  function Scan(s: string): Quote { ScanFrom(PLAIN, s) }

  lemma {:induction false} ScanJoins(q: Quote, a: string, b: string)
    ensures ScanFrom(q, a + b) == ScanFrom(ScanFrom(q, a), b)
  {
    if b == [] {
      assert a + b == a;
    } else {
      ScanJoins(q, a, b[..|b| - 1]);
      assert (a + b)[..|a + b| - 1] == a + b[..|b| - 1];
    }
  }

  /** A byte inside double quotes is what a backslash quotes only if it is one of these. */
  predicate EscapedInDouble(c: char) { c in {'$', '`', '"', '\\', '\n'} }

  /** Section 2.2 itself: unquoted, a backslash quotes any byte; in double quotes, only some; in single, none. */
  datatype Posix = Unquoted | AfterBackslash | InSingle | InDouble | InDoubleAfterBackslash

  function InDoubleNext(c: char): Posix {
    if c == '\\' then InDoubleAfterBackslash else if c == '"' then Unquoted else InDouble
  }

  /** In double quotes a backslash that quotes nothing is a byte like any other, and so is the one after it. */
  function PosixNext(q: Posix, c: char): Posix {
    match q
    case Unquoted => if c == '\\' then AfterBackslash else if c == '\'' then InSingle else if c == '"' then InDouble else Unquoted
    case AfterBackslash => Unquoted
    case InSingle => if c == '\'' then Unquoted else InSingle
    case InDouble => InDoubleNext(c)
    case InDoubleAfterBackslash => if EscapedInDouble(c) then InDouble else InDoubleNext(c)
  }

  function PosixScan(s: string): Posix {
    if s == [] then Unquoted else PosixNext(PosixScan(s[..|s| - 1]), s[|s| - 1])
  }

  function OfPosix(p: Posix): Quote {
    match p
    case Unquoted => PLAIN
    case AfterBackslash => Quote(false, false, true)
    case InSingle => Quote(true, false, false)
    case InDouble => Quote(false, true, false)
    case InDoubleAfterBackslash => Quote(false, true, true)
  }

  /** The scanner's toggles are the standard's quoting, byte by byte. */
  lemma {:induction false} ScansPosix(s: string)
    ensures Scan(s) == OfPosix(PosixScan(s))
  {
    if s != [] {
      ScansPosix(s[..|s| - 1]);
    }
  }

  lemma ScanStep(line: string, i: nat)
    requires i < |line|
    ensures Scan(line[..i + 1]) == Next(Scan(line[..i]), line[i])
  {
    assert line[..i + 1][..i] == line[..i];
  }

  /** Looks from the line's start for the quotes still open at an offset, passing over escaped bytes. */
  method Quoted(line: string, at: nat) returns (r: bool)
    requires at <= |line|
    ensures r <==> Scan(line[..at]).single || Scan(line[..at]).double
  {
    var single, double := false, false;
    var i := 0;
    while i < at
      invariant 0 <= i <= at + 1
      invariant i <= at ==> Scan(line[..i]) == Quote(single, double, false)
      invariant i == at + 1 ==> Scan(line[..at]) == Quote(single, double, true)
    {
      ScanStep(line, i);
      if line[i] == '\\' {
        if !single {
          i := i + 1;
          if i < at { ScanStep(line, i); }
        }
      } else if line[i] == '\'' {
        if !double { single := !single; }
      } else if line[i] == '"' {
        if !single { double := !double; }
      }
      i := i + 1;
    }
    return single || double;
  }

  // ---- References ----

  /** A stretch of the line: from its dollar sign to past its closing brace. */
  datatype Ref = Ref(at: nat, end: nat)

  function IndexOf(s: string, c: char, from: nat): (r: Option<nat>)
    requires from <= |s|
    ensures r.Some? ==> from <= r.value < |s| && s[r.value] == c && forall k :: from <= k < r.value ==> s[k] != c
    ensures r.None? ==> forall k :: from <= k < |s| ==> s[k] != c
    decreases |s| - from
  {
    if from == |s| then None else if s[from] == c then Some(from) else IndexOf(s, c, from + 1)
  }

  predicate OpensAt(s: string, k: nat) {
    k + 1 < |s| && s[k] == '$' && s[k + 1] == '{'
  }

  function OpeningFrom(s: string, from: nat): (r: Option<nat>)
    requires from <= |s|
    ensures r.Some? ==> from <= r.value && OpensAt(s, r.value) && forall k :: from <= k < r.value ==> !OpensAt(s, k)
    ensures r.None? ==> forall k :: from <= k < |s| ==> !OpensAt(s, k)
    decreases |s| - from
  {
    if from == |s| then None else if OpensAt(s, from) then Some(from) else OpeningFrom(s, from + 1)
  }

  /** Leftmost references, none overlapping: an opening, anything but a closing brace, and the brace. */
  function Refs(s: string, from: nat): seq<Ref>
    requires from <= |s|
    decreases |s| - from
  {
    match OpeningFrom(s, from)
    case None => []
    case Some(at) =>
      match IndexOf(s, '}', at + 2)
      case None => []
      case Some(close) => [Ref(at, close + 1)] + Refs(s, close + 1)
  }

  predicate RefOk(s: string, r: Ref) {
    r.at + 3 <= r.end <= |s| && OpensAt(s, r.at) && s[r.end - 1] == '}' && forall k :: r.at + 2 <= k < r.end - 1 ==> s[k] != '}'
  }

  /** In order, apart, and each a reference. */
  ghost predicate RefsOk(s: string, refs: seq<Ref>, from: nat) {
    && (forall k :: 0 <= k < |refs| ==> from <= refs[k].at && RefOk(s, refs[k]))
    && (forall k :: 0 < k < |refs| ==> refs[k - 1].end <= refs[k].at)
  }

  lemma RefsCons(s: string, r: Ref, rest: seq<Ref>, from: nat)
    requires RefOk(s, r) && from <= r.at && RefsOk(s, rest, r.end)
    ensures RefsOk(s, [r] + rest, from)
  {
    var all := [r] + rest;
    forall k | 0 < k < |all| ensures all[k - 1].end <= all[k].at {
      if k > 1 { assert all[k - 1] == rest[k - 2] && all[k] == rest[k - 1]; }
    }
  }

  lemma {:induction false} RefsAreOk(s: string, from: nat)
    requires from <= |s|
    ensures RefsOk(s, Refs(s, from), from)
    decreases |s| - from
  {
    var opening := OpeningFrom(s, from);
    if opening.Some? {
      var close := IndexOf(s, '}', opening.value + 2);
      if close.Some? {
        var r := Ref(opening.value, close.value + 1);
        assert RefOk(s, r);
        RefsAreOk(s, r.end);
        RefsCons(s, r, Refs(s, r.end), from);
        assert Refs(s, from) == [r] + Refs(s, r.end);
      }
    }
  }

  function NameOf(s: string, r: Ref): string
    requires RefOk(s, r)
  {
    s[r.at + 2..r.end - 1]
  }

  // ---- Binding ----

  datatype Problem =
    | Unterminated
    | InsideQuotes(name: string)
    | NoSource(name: string)
    | NotASource(name: string)
    | Missing(name: string)
    | Collides(first: string, name: string)

  datatype Sources = Sources(config: map<string, string>, trigger: map<string, string>)

  /** A name before its first dot, and after. */
  datatype Cut = Cut(namespace: string, key: string)

  function CutName(name: string): Option<Cut> {
    match IndexOf(name, '.', 0)
    case None => None
    case Some(k) => Some(Cut(name[..k], name[k + 1..]))
  }

  function Resolve(sources: Sources, name: string): Option<string> {
    match CutName(name)
    case None => None
    case Some(cut) =>
      if cut.namespace == "config" && cut.key in sources.config then Some(sources.config[cut.key])
      else if cut.namespace == "trigger" && cut.key in sources.trigger then Some(sources.trigger[cut.key])
      else None
  }

  function Upper(c: char): char {
    if 'a' <= c <= 'z' then (c as int - 32) as char else c
  }

  /** A key as a variable's name may have it: upper case, a dash an underscore. */
  function EnvSafe(s: string): (r: string)
    ensures |r| == |s|
  {
    seq(|s|, k requires 0 <= k < |s| => if s[k] == '-' then '_' else Upper(s[k]))
  }

  const ENV_PREFIX: string := "GRONIN_"

  function VariableOf(cut: Cut): string {
    ENV_PREFIX + EnvSafe(cut.namespace) + "_" + EnvSafe(cut.key)
  }

  /** What the walk has written, and what it has bound. */
  datatype State = State(out: string, last: nat, names: map<string, string>, values: map<string, string>, problems: seq<Problem>)

  /** What a reference is bound to, or what is wrong with it. */
  function BindOne(line: string, sources: Sources, names: map<string, string>, r: Ref): Option<Problem>
    requires RefOk(line, r)
  {
    var name := NameOf(line, r);
    if Scan(line[..r.at]).single || Scan(line[..r.at]).double then Some(InsideQuotes(name))
    else if CutName(name).None? then Some(NoSource(name))
    else
      var cut := CutName(name).value;
      if Resolve(sources, name).None? then Some(if cut.namespace == "config" || cut.namespace == "trigger" then Missing(name) else NotASource(name))
      else if VariableOf(cut) in names && names[VariableOf(cut)] != name then Some(Collides(names[VariableOf(cut)], name))
      else None
  }

  /** A variable expansion in double quotes of its own. */
  function Expansion(name: string): string
    requires CutName(name).Some?
  {
    "\"$" + VariableOf(CutName(name).value) + "\""
  }

  function BindStep(line: string, sources: Sources, m: State, r: Ref): State
    requires RefOk(line, r) && m.last <= r.at
  {
    var before := m.out + line[m.last..r.at];
    match BindOne(line, sources, m.names, r)
    case Some(problem) => m.(out := before + line[r.at..r.end], last := r.end, problems := m.problems + [problem])
    case None =>
      var name := NameOf(line, r);
      var variable := VariableOf(CutName(name).value);
      State(before + Expansion(name), r.end, m.names[variable := name], m.values[variable := Resolve(sources, name).value], m.problems)
  }

  const EMPTY: State := State("", 0, map[], map[], [])

  function Walked(line: string, sources: Sources, refs: seq<Ref>): (m: State)
    requires RefsOk(line, refs, 0)
    ensures m.last == if refs == [] then 0 else Last(refs).end
  {
    if refs == [] then EMPTY
    else
      assert RefsOk(line, refs[..|refs| - 1], 0);
      BindStep(line, sources, Walked(line, sources, refs[..|refs| - 1]), Last(refs))
  }

  datatype Bound = Bound(line: string, env: map<string, string>) | Refused(problems: seq<Problem>)

  /** An opening after every reference opens and never closes. */
  function Dangling(line: string, refs: seq<Ref>): bool
    requires RefsOk(line, refs, 0)
  {
    OpeningFrom(line, if refs == [] then 0 else Last(refs).end).Some?
  }

  function Bind(line: string, sources: Sources): Bound {
    RefsAreOk(line, 0);
    var refs := Refs(line, 0);
    var m := Walked(line, sources, refs);
    var problems := (if Dangling(line, refs) then [Unterminated] else []) + m.problems;
    if problems != [] then Refused(problems) else Bound(m.out + line[m.last..], m.values)
  }

  /** Each reference is the first opening after the one before it. */
  lemma {:induction false} RefsOpen(line: string, from: nat, k: nat)
    requires from <= |line| && k < |Refs(line, from)|
    ensures
      var start := if k == 0 then from else Refs(line, from)[k - 1].end;
      start <= |line| && OpeningFrom(line, start) == Some(Refs(line, from)[k].at)
    decreases k
  {
    var at := OpeningFrom(line, from).value;
    var close := IndexOf(line, '}', at + 2).value;
    if k > 0 {
      RefsOpen(line, close + 1, k - 1);
    }
  }

  /** The reference that begins at an opening. */
  method Covering(refs: seq<Ref>, at: nat) returns (j: Option<nat>)
    ensures j.Some? ==> j.value < |refs| && refs[j.value].at == at
    ensures j.None? ==> forall i :: 0 <= i < |refs| ==> refs[i].at != at
  {
    for i := 0 to |refs|
      invariant forall k :: 0 <= k < i ==> refs[k].at != at
    {
      if refs[i].at == at { return Some(i); }
    }
    return None;
  }

  /** The first opening past a reference is the next one's, or nobody's. */
  lemma NextCovers(line: string, refs: seq<Ref>, k: nat, at: nat)
    requires refs == Refs(line, 0) && RefsOk(line, refs, 0) && k <= |refs|
    requires TextFrom(refs, k) <= |line| && OpeningFrom(line, TextFrom(refs, k)) == Some(at)
    ensures k < |refs| ==> refs[k].at == at && refs[k].end <= |line|
    ensures forall j :: 0 <= j < |refs| && refs[j].at == at ==> j == k
  {
    if k < |refs| { RefsOpen(line, 0, k); }
    forall j | 0 <= j < |refs| && refs[j].at == at ensures j == k {
      if k < |refs| {
        SameRef(line, refs, j, k);
      } else {
        EndsPast(line, refs, j);
      }
    }
  }

  lemma EndsPast(line: string, refs: seq<Ref>, j: nat)
    requires RefsOk(line, refs, 0) && j < |refs|
    ensures refs[j].at < Last(refs).end
  {
    if j < |refs| - 1 { RefsApart(line, refs, j, |refs| - 1); }
  }

  /** Openings no reference covers; there is one exactly when an opening follows every reference. */
  method CountUnterminated(line: string, refs: seq<Ref>) returns (problems: nat)
    requires refs == Refs(line, 0) && RefsOk(line, refs, 0)
    ensures problems > 0 <==> Dangling(line, refs)
  {
    problems := 0;
    var offset: nat := 0;
    ghost var k: nat := 0;
    while offset <= |line|
      invariant k <= |refs| && (problems == 0 ==> offset == TextFrom(refs, k) <= |line|)
      invariant problems > 0 ==> Dangling(line, refs)
      decreases |line| + 1 - offset
    {
      if problems == 0 && k < |refs| { RefsOpen(line, 0, k); }
      var opening := OpeningFrom(line, offset);
      if opening.None? { return; }
      if problems == 0 { NextCovers(line, refs, k, opening.value); }
      var covering := Covering(refs, opening.value);
      if covering.None? {
        problems := problems + 1;
        offset := opening.value + 2;
      } else {
        assert RefOk(line, refs[covering.value]);
        offset := refs[covering.value].end;
        k := if problems == 0 then k + 1 else k;
      }
    }
  }

  /** References begin at different places. */
  lemma SameRef(line: string, refs: seq<Ref>, j: nat, k: nat)
    requires RefsOk(line, refs, 0) && j < |refs| && k < |refs| && refs[j].at == refs[k].at
    ensures j == k
  {
    if j < k { RefsApart(line, refs, j, k); }
    if k < j { RefsApart(line, refs, k, j); }
  }

  lemma {:induction false} RefsApart(line: string, refs: seq<Ref>, j: nat, k: nat)
    requires RefsOk(line, refs, 0) && j < k < |refs|
    ensures refs[j].at < refs[k].at
    decreases k - j
  {
    assert RefOk(line, refs[k - 1]);
    if j < k - 1 { RefsApart(line, refs, j, k - 1); }
  }

  lemma NextRef(line: string, from: nat, found: seq<Ref>)
    requires from <= |line| && OpeningFrom(line, from).Some? && IndexOf(line, '}', OpeningFrom(line, from).value + 2).Some?
    ensures
      var at, close := OpeningFrom(line, from).value, IndexOf(line, '}', OpeningFrom(line, from).value + 2).value;
      found + Refs(line, from) == found + [Ref(at, close + 1)] + Refs(line, close + 1)
  {}

  /** The references, found one by one. */
  method FindReferences(line: string) returns (refs: seq<Ref>)
    ensures refs == Refs(line, 0)
  {
    refs := [];
    var from := 0;
    while from <= |line|
      invariant 0 <= from <= |line| + 1
      invariant from <= |line| ==> Refs(line, 0) == refs + Refs(line, from)
      invariant from > |line| ==> Refs(line, 0) == refs
      decreases |line| + 1 - from
    {
      var opening := OpeningFrom(line, from);
      if opening.None? { return; }
      var close := IndexOf(line, '}', opening.value + 2);
      if close.None? { return; }
      NextRef(line, from, refs);
      refs := refs + [Ref(opening.value, close.value + 1)];
      from := close.value + 1;
    }
  }

  /** What is wrong with a reference, if anything. */
  method Decide(line: string, sources: Sources, names: map<string, string>, r: Ref) returns (problem: Option<Problem>)
    requires RefOk(line, r)
    ensures problem == BindOne(line, sources, names, r)
  {
    var name := line[r.at + 2..r.end - 1];
    var quoted := Quoted(line, r.at);
    if quoted { return Some(InsideQuotes(name)); }
    var cut := CutName(name);
    if cut.None? { return Some(NoSource(name)); }
    var value := Resolve(sources, name);
    if value.None? {
      return Some(if cut.value.namespace == "config" || cut.value.namespace == "trigger" then Missing(name) else NotASource(name));
    }
    var variable := VariableOf(cut.value);
    if variable in names && names[variable] != name { return Some(Collides(names[variable], name)); }
    return None;
  }

  /** Walked by offset, since where a reference is decides whether it can be bound. */
  method WalkReferences(line: string, sources: Sources, refs: seq<Ref>)
    returns (out: string, last: nat, names: map<string, string>, values: map<string, string>, problems: seq<Problem>)
    requires RefsOk(line, refs, 0)
    ensures State(out, last, names, values, problems) == Walked(line, sources, refs)
  {
    out, last, names, values, problems := "", 0, map[], map[], [];
    for k := 0 to |refs|
      invariant RefsOk(line, refs[..k], 0)
      invariant State(out, last, names, values, problems) == Walked(line, sources, refs[..k])
    {
      WalkedStep(line, sources, refs, k);
      out := out + line[last..refs[k].at];
      last := refs[k].end;
      var problem := Decide(line, sources, names, refs[k]);
      if problem.Some? {
        problems := problems + [problem.value];
        out := out + line[refs[k].at..refs[k].end];
      } else {
        var name := line[refs[k].at + 2..refs[k].end - 1];
        var variable := VariableOf(CutName(name).value);
        names, values := names[variable := name], values[variable := Resolve(sources, name).value];
        out := out + Expansion(name);
      }
    }
    assert refs[..|refs|] == refs;
  }

  method BindShell(line: string, sources: Sources) returns (bound: Bound)
    ensures bound == Bind(line, sources)
  {
    RefsAreOk(line, 0);
    var refs := FindReferences(line);
    var unterminated := CountUnterminated(line, refs);
    var out, last, names, values, problems := WalkReferences(line, sources, refs);
    if unterminated > 0 {
      problems := [Unterminated] + problems;
    }
    if problems != [] { return Refused(problems); }
    return Bound(out + line[last..], values);
  }

  lemma WalkedStep(line: string, sources: Sources, refs: seq<Ref>, k: nat)
    requires RefsOk(line, refs, 0) && k < |refs|
    ensures RefsOk(line, refs[..k], 0) && RefsOk(line, refs[..k + 1], 0)
    ensures Walked(line, sources, refs[..k]).last == TextFrom(refs, k) <= refs[k].at
    ensures Walked(line, sources, refs[..k + 1]) == BindStep(line, sources, Walked(line, sources, refs[..k]), refs[k])
  {
    assert refs[..k + 1][..k] == refs[..k] && Last(refs[..k + 1]) == refs[k];
    if k > 0 {
      assert Last(refs[..k]) == refs[k - 1];
    }
  }

  // ---- What binding does to quoting ----

  /** Letters, digits, underscore and dash. */
  predicate KeyChar(c: char) {
    'A' <= c <= 'Z' || 'a' <= c <= 'z' || '0' <= c <= '9' || c == '_' || c == '-'
  }

  predicate ValidKey(key: string) {
    key != "" && forall k :: 0 <= k < |key| ==> KeyChar(key[k])
  }

  /** Only keys a reference can be written for. */
  predicate ValidSources(sources: Sources) {
    (forall key :: key in sources.config ==> ValidKey(key)) && (forall key :: key in sources.trigger ==> ValidKey(key))
  }

  predicate NoQuoting(s: string) {
    forall k :: 0 <= k < |s| ==> s[k] != '\\' && s[k] != '\'' && s[k] != '"'
  }

  lemma {:induction false} ScanNoQuoting(q: Quote, s: string)
    requires NoQuoting(s)
    ensures ScanFrom(q, s) == if s == [] then q else q.(escaped := false)
  {
    if s != [] {
      ScanNoQuoting(q, s[..|s| - 1]);
    }
  }

  lemma KeyPlain(key: string)
    requires ValidKey(key)
    ensures NoQuoting(key) && NoQuoting(EnvSafe(key))
  {
    forall k | 0 <= k < |key| ensures KeyChar(key[k]) && EnvSafe(key)[k] != '\\' && EnvSafe(key)[k] != '\'' && EnvSafe(key)[k] != '"' {}
  }

  lemma JoinPlain(a: string, b: string)
    requires NoQuoting(a) && NoQuoting(b)
    ensures NoQuoting(a + b)
  {}

  /** A name that resolves holds nothing a shell quotes with, and neither does its variable. */
  lemma ResolvesPlain(sources: Sources, name: string)
    requires ValidSources(sources) && Resolve(sources, name).Some?
    ensures NoQuoting(name) && NoQuoting(VariableOf(CutName(name).value))
  {
    var cut := CutName(name).value;
    var k := IndexOf(name, '.', 0).value;
    assert name == cut.namespace + "." + cut.key;
    KeyPlain(cut.namespace);
    KeyPlain(cut.key);
    JoinPlain(cut.namespace, ".");
    JoinPlain(cut.namespace + ".", cut.key);
    JoinPlain(ENV_PREFIX, EnvSafe(cut.namespace));
    JoinPlain(ENV_PREFIX + EnvSafe(cut.namespace), "_");
    JoinPlain(ENV_PREFIX + EnvSafe(cut.namespace) + "_", EnvSafe(cut.key));
  }

  lemma ReferenceQuotes(q: Quote, line: string, r: Ref)
    requires RefOk(line, r) && NoQuoting(NameOf(line, r))
    ensures ScanFrom(q, line[r.at..r.end]) == q.(escaped := false)
  {
    var text := line[r.at..r.end];
    forall k | 0 <= k < |text| ensures text[k] != '\\' && text[k] != '\'' && text[k] != '"' {
      if 2 <= k < |text| - 1 { assert text[k] == NameOf(line, r)[k - 2]; }
    }
    ScanNoQuoting(q, text);
  }

  /** A reference in the line, and its expansion in the bound line, seen from where they begin. */
  lemma ExpansionQuotes(q: Quote, line: string, r: Ref, variable: string)
    requires RefOk(line, r) && NoQuoting(NameOf(line, r)) && NoQuoting(variable) && variable != ""
    requires !q.single && !q.double
    ensures ScanFrom(q, line[r.at..r.end]) == PLAIN
    ensures ScanFrom(q, "\"$" + variable + "\"") == if q.escaped then Quote(false, true, false) else PLAIN
    ensures !q.escaped ==> ScanFrom(q, "\"") == Quote(false, true, false) && ScanFrom(q, "\"$" + variable) == Quote(false, true, false)
  {
    ReferenceQuotes(q, line, r);
    assert ScanFrom(q, "\"") == Next(ScanFrom(q, ""), '"');
    ScanJoins(q, "\"", "$" + variable);
    assert "\"" + ("$" + variable) == "\"$" + variable;
    assert NoQuoting("$" + variable);
    ScanNoQuoting(ScanFrom(q, "\""), "$" + variable);
    var all := "\"$" + variable + "\"";
    assert all[..|all| - 1] == "\"$" + variable && all[|all| - 1] == '"';
  }

  /** No reference's own dollar sign is escaped. */
  ghost predicate NoneEscaped(line: string, refs: seq<Ref>) {
    forall k :: 0 <= k < |refs| && refs[k].at <= |line| ==> !Scan(line[..refs[k].at]).escaped
  }

  /** Where the text after a reference, and before the next, begins and ends. */
  function TextFrom(refs: seq<Ref>, k: nat): nat
    requires k <= |refs|
  {
    if k == 0 then 0 else refs[k - 1].end
  }

  function TextTo(line: string, refs: seq<Ref>, k: nat): nat
    requires k <= |refs|
  {
    if k == |refs| then |line| else refs[k].at
  }

  /** What the bound line holds before the text after the first `k` references. */
  function OutBefore(line: string, sources: Sources, refs: seq<Ref>, k: nat): string
    requires RefsOk(line, refs, 0) && k <= |refs|
  {
    assert RefsOk(line, refs[..k], 0);
    Walked(line, sources, refs[..k]).out
  }

  /** Every byte of the line's own text stands in the bound line as it stood in the line. */
  ghost predicate Preserved(line: string, sources: Sources, refs: seq<Ref>)
    requires RefsOk(line, refs, 0)
  {
    forall k, p :: 0 <= k <= |refs| && TextFrom(refs, k) <= p <= TextTo(line, refs, k) <= |line| ==>
                     Scan(OutBefore(line, sources, refs, k) + line[TextFrom(refs, k)..p]) == Scan(line[..p])
  }

  /** Accepted: every reference could be bound. */
  ghost predicate AllBound(line: string, sources: Sources, refs: seq<Ref>)
    requires RefsOk(line, refs, 0)
  {
    Walked(line, sources, refs).problems == []
  }

  lemma {:induction false} ProblemsStay(line: string, sources: Sources, refs: seq<Ref>, k: nat)
    requires RefsOk(line, refs, 0) && AllBound(line, sources, refs) && k < |refs|
    ensures RefsOk(line, refs[..k], 0) && AllBound(line, sources, refs[..k])
    ensures BindOne(line, sources, Walked(line, sources, refs[..k]).names, refs[k]).None?
    decreases |refs|
  {
    var n := |refs| - 1;
    WalkedStep(line, sources, refs, n);
    assert refs[..n + 1] == refs;
    if k < n {
      ProblemsStay(line, sources, refs[..n], k);
      assert refs[..n][..k] == refs[..k] && refs[..n][k] == refs[k];
    }
  }

  /** One more reference bound: its own text, and its expansion after it. */
  lemma OutGrows(line: string, sources: Sources, refs: seq<Ref>, k: nat)
    requires RefsOk(line, refs, 0) && AllBound(line, sources, refs) && k < |refs|
    ensures TextFrom(refs, k) <= refs[k].at
    ensures !Scan(line[..refs[k].at]).single && !Scan(line[..refs[k].at]).double
    ensures Resolve(sources, NameOf(line, refs[k])).Some?
    ensures OutBefore(line, sources, refs, k + 1)
         == OutBefore(line, sources, refs, k) + line[TextFrom(refs, k)..refs[k].at] + Expansion(NameOf(line, refs[k]))
  {
    ProblemsStay(line, sources, refs, k);
    WalkedStep(line, sources, refs, k);
  }

  /** The state as one more reference is bound, on either side. */
  lemma BindsOne(line: string, sources: Sources, refs: seq<Ref>, k: nat)
    requires ValidSources(sources) && RefsOk(line, refs, 0) && AllBound(line, sources, refs) && k < |refs|
    requires Scan(OutBefore(line, sources, refs, k)) == Scan(line[..TextFrom(refs, k)])
    ensures
      var q := Scan(line[..refs[k].at]);
      && !q.single && !q.double && TextFrom(refs, k) <= refs[k].at
      && Scan(OutBefore(line, sources, refs, k) + line[TextFrom(refs, k)..refs[k].at]) == q
      && Scan(line[..refs[k].end]) == PLAIN
      && Scan(OutBefore(line, sources, refs, k + 1)) == if q.escaped then Quote(false, true, false) else PLAIN
  {
    OutGrows(line, sources, refs, k);
    var out, r := OutBefore(line, sources, refs, k), refs[k];
    var name := NameOf(line, r);
    ResolvesPlain(sources, name);
    SameText(out, line, TextFrom(refs, k), r.at);
    ExpansionScans(line, r, out + line[TextFrom(refs, k)..r.at], name);
  }

  lemma ExpansionScans(line: string, r: Ref, before: string, name: string)
    requires RefOk(line, r) && name == NameOf(line, r) && CutName(name).Some? && Scan(before) == Scan(line[..r.at])
    requires !Scan(before).single && !Scan(before).double && NoQuoting(name) && NoQuoting(VariableOf(CutName(name).value))
    ensures Scan(line[..r.end]) == PLAIN
    ensures Scan(before + Expansion(name)) == if Scan(before).escaped then Quote(false, true, false) else PLAIN
  {
    ExpansionQuotes(Scan(before), line, r, VariableOf(CutName(name).value));
    ScanJoins(PLAIN, line[..r.at], line[r.at..r.end]);
    assert line[..r.at] + line[r.at..r.end] == line[..r.end];
    ScanJoins(PLAIN, before, Expansion(name));
  }

  /** The same text, entered in the same state, is left in the same. */
  lemma SameText(out: string, line: string, from: nat, to: nat)
    requires from <= to <= |line| && Scan(out) == Scan(line[..from])
    ensures Scan(out + line[from..to]) == Scan(line[..to])
  {
    ScanJoins(PLAIN, out, line[from..to]);
    ScanJoins(PLAIN, line[..from], line[from..to]);
    assert line[..from] + line[from..to] == line[..to];
  }

  lemma {:induction false} StatesAgree(line: string, sources: Sources, refs: seq<Ref>, k: nat)
    requires ValidSources(sources) && RefsOk(line, refs, 0) && AllBound(line, sources, refs) && k <= |refs|
    requires forall j :: 0 <= j < k ==> !Scan(line[..refs[j].at]).escaped
    ensures Scan(OutBefore(line, sources, refs, k)) == Scan(line[..TextFrom(refs, k)])
  {
    if k == 0 {
      assert refs[..0] == [] && line[..0] == "";
    } else {
      StatesAgree(line, sources, refs, k - 1);
      BindsOne(line, sources, refs, k - 1);
    }
  }

  /** In the bound line an expansion begins unquoted, stands in double quotes, and is left unquoted. */
  ghost predicate Contained(line: string, sources: Sources, refs: seq<Ref>, k: nat)
    requires RefsOk(line, refs, 0) && k < |refs|
  {
    var from := TextFrom(refs, k);
    from <= refs[k].at
    && var before := OutBefore(line, sources, refs, k) + line[from..refs[k].at];
       && CutName(NameOf(line, refs[k])).Some?
       && OutBefore(line, sources, refs, k + 1) == before + Expansion(NameOf(line, refs[k]))
       && Scan(before) == PLAIN && Scan(before + "\"") == Quote(false, true, false)
       && Scan(before + Expansion(NameOf(line, refs[k]))) == PLAIN
  }

  lemma IsContained(line: string, sources: Sources, refs: seq<Ref>, k: nat)
    requires ValidSources(sources) && RefsOk(line, refs, 0) && AllBound(line, sources, refs) && k < |refs|
    requires NoneEscaped(line, refs)
    ensures Contained(line, sources, refs, k)
  {
    StatesAgree(line, sources, refs, k);
    OutGrows(line, sources, refs, k);
    BindsOne(line, sources, refs, k);
    OpensQuotes(OutBefore(line, sources, refs, k) + line[TextFrom(refs, k)..refs[k].at]);
  }

  lemma OpensQuotes(before: string)
    ensures Scan(before) == PLAIN ==> Scan(before + "\"") == Quote(false, true, false)
  {
    ScanJoins(PLAIN, before, "\"");
    assert ScanFrom(PLAIN, "\"") == Next(ScanFrom(PLAIN, ""), '"');
  }

  /**
   * Of an accepted line over keys a reference can be written for: binding leaves every byte of the
   * line's own text quoted as it was exactly when no reference's dollar sign is escaped, and then each
   * expansion stands in double quotes of its own.
   */
  lemma PreservedExactly(line: string, sources: Sources)
    requires ValidSources(sources) && Bind(line, sources).Bound?
    ensures RefsOk(line, Refs(line, 0), 0)
    ensures Preserved(line, sources, Refs(line, 0)) <==> NoneEscaped(line, Refs(line, 0))
    ensures NoneEscaped(line, Refs(line, 0)) ==> forall k :: 0 <= k < |Refs(line, 0)| ==> Contained(line, sources, Refs(line, 0), k)
  {
    RefsAreOk(line, 0);
    var refs := Refs(line, 0);
    if NoneEscaped(line, refs) {
      NoneEscapedPreserves(line, sources, refs);
      forall k | 0 <= k < |refs| ensures Contained(line, sources, refs, k) {
        IsContained(line, sources, refs, k);
      }
    } else {
      EscapedBreaks(line, sources, refs);
    }
  }

  lemma NoneEscapedPreserves(line: string, sources: Sources, refs: seq<Ref>)
    requires ValidSources(sources) && RefsOk(line, refs, 0) && AllBound(line, sources, refs) && NoneEscaped(line, refs)
    ensures Preserved(line, sources, refs)
  {
    forall k, p | 0 <= k <= |refs| && TextFrom(refs, k) <= p <= TextTo(line, refs, k) <= |line|
      ensures Scan(OutBefore(line, sources, refs, k) + line[TextFrom(refs, k)..p]) == Scan(line[..p])
    {
      StatesAgree(line, sources, refs, k);
      SameText(OutBefore(line, sources, refs, k), line, TextFrom(refs, k), p);
    }
  }

  /** After an escaped reference the bound line is inside double quotes, and the line is not. */
  lemma EscapedBreaks(line: string, sources: Sources, refs: seq<Ref>)
    requires ValidSources(sources) && RefsOk(line, refs, 0) && AllBound(line, sources, refs) && !NoneEscaped(line, refs)
    ensures !Preserved(line, sources, refs)
  {
    var e := FirstEscaped(line, refs);
    StatesAgree(line, sources, refs, e);
    BindsOne(line, sources, refs, e);
    var out := OutBefore(line, sources, refs, e + 1);
    var p := TextFrom(refs, e + 1);
    assert out + line[p..p] == out;
    assert p <= TextTo(line, refs, e + 1) <= |line|;
  }

  /** The first reference whose dollar sign is escaped. */
  lemma {:induction false} FirstEscaped(line: string, refs: seq<Ref>) returns (e: nat)
    requires RefsOk(line, refs, 0) && !NoneEscaped(line, refs)
    ensures e < |refs| && Scan(line[..refs[e].at]).escaped && forall j :: 0 <= j < e ==> !Scan(line[..refs[j].at]).escaped
    decreases |refs|
  {
    var front := refs[..|refs| - 1];
    assert RefsOk(line, front, 0);
    if NoneEscaped(line, front) {
      e := |refs| - 1;
      forall j | 0 <= j < e ensures !Scan(line[..refs[j].at]).escaped { assert front[j] == refs[j]; }
    } else {
      e := FirstEscaped(line, front);
      forall j | 0 <= j < e ensures !Scan(line[..refs[j].at]).escaped { assert front[j] == refs[j]; }
    }
  }

  // ---- What the environment holds ----

  /** A variable bound is one reference's, and holds what that reference's name resolves to. */
  ghost predicate VariableOk(line: string, sources: Sources, refs: seq<Ref>, m: State, v: string)
    requires RefsOk(line, refs, 0)
  {
    && v in m.names && v in m.values
    && Resolve(sources, m.names[v]) == Some(m.values[v]) && CutName(m.names[v]).Some? && VariableOf(CutName(m.names[v]).value) == v
    && exists k :: 0 <= k < |refs| && NameOf(line, refs[k]) == m.names[v]
  }

  /** A reference bound has its variable, and it is nobody else's. */
  ghost predicate BoundOk(line: string, refs: seq<Ref>, m: State, k: nat)
    requires RefsOk(line, refs, 0) && k < |refs|
  {
    var name := NameOf(line, refs[k]);
    CutName(name).Some? && VariableOf(CutName(name).value) in m.names && m.names[VariableOf(CutName(name).value)] == name
  }

  ghost predicate EnvOk(line: string, sources: Sources, refs: seq<Ref>, m: State)
    requires RefsOk(line, refs, 0)
  {
    && m.names.Keys == m.values.Keys
    && (forall v :: v in m.names ==> VariableOk(line, sources, refs, m, v))
    && (m.problems == [] ==> forall k :: 0 <= k < |refs| ==> BoundOk(line, refs, m, k))
  }

  lemma {:induction false} WalkedEnv(line: string, sources: Sources, refs: seq<Ref>)
    requires RefsOk(line, refs, 0)
    ensures EnvOk(line, sources, refs, Walked(line, sources, refs))
  {
    if refs != [] {
      var n := |refs| - 1;
      WalkedStep(line, sources, refs, n);
      assert refs[..n + 1] == refs;
      WalkedEnv(line, sources, refs[..n]);
      EnvStep(line, sources, refs, n, Walked(line, sources, refs[..n]));
    }
  }

  lemma VariableStep(line: string, sources: Sources, refs: seq<Ref>, n: nat, m: State, v: string)
    requires RefsOk(line, refs, 0) && n + 1 == |refs| && RefsOk(line, refs[..n], 0) && m.last <= refs[n].at
    requires v in m.names ==> VariableOk(line, sources, refs[..n], m, v)
    requires v in BindStep(line, sources, m, refs[n]).names
    ensures VariableOk(line, sources, refs, BindStep(line, sources, m, refs[n]), v)
  {
    var m' := BindStep(line, sources, m, refs[n]);
    if v in m.names && m'.names[v] == m.names[v] {
      var k :| 0 <= k < n && NameOf(line, refs[..n][k]) == m.names[v];
      assert NameOf(line, refs[k]) == m'.names[v];
    } else {
      assert NameOf(line, refs[n]) == m'.names[v];
    }
  }

  lemma BoundStep(line: string, sources: Sources, refs: seq<Ref>, n: nat, m: State, k: nat)
    requires RefsOk(line, refs, 0) && n + 1 == |refs| && RefsOk(line, refs[..n], 0) && m.last <= refs[n].at && k < |refs|
    requires BindStep(line, sources, m, refs[n]).problems == []
    requires k < n ==> BoundOk(line, refs[..n], m, k)
    ensures BoundOk(line, refs, BindStep(line, sources, m, refs[n]), k)
  {
    if k < n { assert refs[..n][k] == refs[k]; }
  }

  lemma EnvStep(line: string, sources: Sources, refs: seq<Ref>, n: nat, m: State)
    requires RefsOk(line, refs, 0) && n + 1 == |refs| && RefsOk(line, refs[..n], 0) && EnvOk(line, sources, refs[..n], m)
    requires m.last <= refs[n].at
    ensures EnvOk(line, sources, refs, BindStep(line, sources, m, refs[n]))
  {
    var m' := BindStep(line, sources, m, refs[n]);
    forall v | v in m'.names ensures VariableOk(line, sources, refs, m', v) {
      VariableStep(line, sources, refs, n, m, v);
    }
    if m'.problems == [] {
      forall k | 0 <= k < |refs| ensures BoundOk(line, refs, m', k) {
        BoundStep(line, sources, refs, n, m, k);
      }
    }
  }

  /**
   * Of an accepted line: each reference's variable is in the environment with the value its own name
   * resolves to; the environment holds no other variable; and no two names share one.
   */
  lemma EnvironmentExact(line: string, sources: Sources, i: nat, j: nat)
    requires Bind(line, sources).Bound? && i < |Refs(line, 0)| && j < |Refs(line, 0)|
    ensures RefsOk(line, Refs(line, 0), 0)
    ensures
      var refs, env := Refs(line, 0), Bind(line, sources).env;
      var a, b := NameOf(line, refs[i]), NameOf(line, refs[j]);
      && CutName(a).Some? && CutName(b).Some?
      && VariableOf(CutName(a).value) in env && Some(env[VariableOf(CutName(a).value)]) == Resolve(sources, a)
      && (VariableOf(CutName(a).value) == VariableOf(CutName(b).value) ==> a == b)
    ensures
      var refs, env := Refs(line, 0), Bind(line, sources).env;
      forall v :: v in env ==> exists k :: 0 <= k < |refs| && CutName(NameOf(line, refs[k])).Some?
                                           && VariableOf(CutName(NameOf(line, refs[k])).value) == v
  {
    RefsAreOk(line, 0);
    var refs := Refs(line, 0);
    WalkedEnv(line, sources, refs);
    var m := Walked(line, sources, refs);
    assert BoundOk(line, refs, m, i) && BoundOk(line, refs, m, j);
    assert VariableOk(line, sources, refs, m, VariableOf(CutName(NameOf(line, refs[i])).value));
    forall v | v in m.values
      ensures exists k :: 0 <= k < |refs| && CutName(NameOf(line, refs[k])).Some? && VariableOf(CutName(NameOf(line, refs[k])).value) == v
    {
      assert VariableOk(line, sources, refs, m, v);
      var k :| 0 <= k < |refs| && NameOf(line, refs[k]) == m.names[v];
    }
  }

  // ---- What a name stands for ----

  lemma CutsAtDot(namespace: string, key: string)
    requires '.' !in namespace
    ensures CutName(namespace + "." + key) == Some(Cut(namespace, key))
  {
    var name := namespace + "." + key;
    assert forall k :: 0 <= k < |namespace| ==> name[k] == namespace[k];
    assert name[|namespace|] == '.';
    assert name[..|namespace|] == namespace && name[|namespace| + 1..] == key;
  }

  /** A name is one of the configuration's keys after `config.`, or one of the trigger's values after `trigger.`, and nothing else. */
  lemma ResolvesExactly(sources: Sources, name: string, key: string)
    ensures Resolve(sources, "config." + key) == if key in sources.config then Some(sources.config[key]) else None
    ensures Resolve(sources, "trigger." + key) == if key in sources.trigger then Some(sources.trigger[key]) else None
    ensures Resolve(sources, name).Some? <==>
            exists k :: (name == "config." + k && k in sources.config) || (name == "trigger." + k && k in sources.trigger)
  {
    NamespacesCut(key);
    if Resolve(sources, name).Some? {
      var cut := CutName(name).value;
      assert name == cut.namespace + "." + cut.key;
      assert "config." == "config" + "." && "trigger." == "trigger" + ".";
    }
    forall k | (name == "config." + k && k in sources.config) || (name == "trigger." + k && k in sources.trigger)
      ensures Resolve(sources, name).Some?
    {
      NamespacesCut(k);
    }
  }

  lemma NamespacesCut(key: string)
    ensures CutName("config." + key) == Some(Cut("config", key)) && CutName("trigger." + key) == Some(Cut("trigger", key))
  {
    assert "config." == "config" + "." && "trigger." == "trigger" + ".";
    CutsAtDot("config", key);
    CutsAtDot("trigger", key);
  }

  // ---- When a line is accepted ----

  /** A reference outside quotes whose name stands for something. */
  predicate Stands(line: string, sources: Sources, r: Ref)
    requires RefOk(line, r)
  {
    !Scan(line[..r.at]).single && !Scan(line[..r.at]).double && Resolve(sources, NameOf(line, r)).Some?
  }

  /** Two references of one variable have one name. */
  predicate Apart(line: string, a: Ref, b: Ref)
    requires RefOk(line, a) && RefOk(line, b)
  {
    var m, n := CutName(NameOf(line, a)), CutName(NameOf(line, b));
    m.Some? && n.Some? && VariableOf(m.value) == VariableOf(n.value) ==> NameOf(line, a) == NameOf(line, b)
  }

  ghost predicate AllStand(line: string, sources: Sources, refs: seq<Ref>)
    requires RefsOk(line, refs, 0)
  {
    && (forall k :: 0 <= k < |refs| ==> Stands(line, sources, refs[k]))
    && (forall i, j :: 0 <= i < |refs| && 0 <= j < |refs| ==> Apart(line, refs[i], refs[j]))
  }

  lemma {:induction false} StandingBinds(line: string, sources: Sources, refs: seq<Ref>)
    requires RefsOk(line, refs, 0) && AllStand(line, sources, refs)
    ensures Walked(line, sources, refs).problems == []
  {
    if refs != [] {
      var n := |refs| - 1;
      WalkedStep(line, sources, refs, n);
      assert refs[..n + 1] == refs;
      AllStandFront(line, sources, refs, n);
      StandingBinds(line, sources, refs[..n]);
      WalkedEnv(line, sources, refs[..n]);
      NoneCollides(line, sources, refs, n);
    }
  }

  lemma AllStandFront(line: string, sources: Sources, refs: seq<Ref>, n: nat)
    requires RefsOk(line, refs, 0) && AllStand(line, sources, refs) && n <= |refs| && RefsOk(line, refs[..n], 0)
    ensures AllStand(line, sources, refs[..n])
  {
    forall i, j | 0 <= i < n && 0 <= j < n ensures Apart(line, refs[..n][i], refs[..n][j]) {
      assert Apart(line, refs[i], refs[j]);
    }
    forall k | 0 <= k < n ensures Stands(line, sources, refs[..n][k]) {
      assert Stands(line, sources, refs[k]);
    }
  }

  /** A variable already bound was bound by a reference before, so by the same name. */
  lemma NoneCollides(line: string, sources: Sources, refs: seq<Ref>, n: nat)
    requires RefsOk(line, refs, 0) && AllStand(line, sources, refs) && n < |refs| && RefsOk(line, refs[..n], 0)
    requires EnvOk(line, sources, refs[..n], Walked(line, sources, refs[..n]))
    ensures BindOne(line, sources, Walked(line, sources, refs[..n]).names, refs[n]).None?
  {
    var m, name := Walked(line, sources, refs[..n]), NameOf(line, refs[n]);
    assert Stands(line, sources, refs[n]);
    var variable := VariableOf(CutName(name).value);
    if variable in m.names {
      assert VariableOk(line, sources, refs[..n], m, variable);
      var k :| 0 <= k < n && NameOf(line, refs[..n][k]) == m.names[variable];
      assert Apart(line, refs[k], refs[n]);
    }
  }

  lemma BoundStands(line: string, sources: Sources, refs: seq<Ref>)
    requires RefsOk(line, refs, 0) && AllBound(line, sources, refs)
    ensures AllStand(line, sources, refs)
  {
    forall k | 0 <= k < |refs| ensures Stands(line, sources, refs[k]) {
      ProblemsStay(line, sources, refs, k);
    }
    WalkedEnv(line, sources, refs);
    var m := Walked(line, sources, refs);
    forall i, j | 0 <= i < |refs| && 0 <= j < |refs| ensures Apart(line, refs[i], refs[j]) {
      assert BoundOk(line, refs, m, i) && BoundOk(line, refs, m, j);
    }
  }

  /**
   * A line is accepted exactly if no opening dangles, every reference stands outside quotes under a name
   * that stands for something, and no two names share a variable.
   */
  lemma AcceptsExactly(line: string, sources: Sources)
    ensures RefsOk(line, Refs(line, 0), 0)
    ensures Bind(line, sources).Bound? <==> !Dangling(line, Refs(line, 0)) && AllStand(line, sources, Refs(line, 0))
  {
    RefsAreOk(line, 0);
    var refs := Refs(line, 0);
    if AllStand(line, sources, refs) { StandingBinds(line, sources, refs); }
    if Bind(line, sources).Bound? { BoundStands(line, sources, refs); }
  }
}
