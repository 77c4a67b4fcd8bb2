/** A line the binder accepts and whose quoting it does not keep. */
module EscapedReference {
  import opened Common
  import opened Shell

  /** The reference of this line stands after a backslash. */
  const LINE: string := "\\${config.a}"

  const KEYS: Sources := Sources(map["a" := "v"], map[])

  const BOUND_LINE: string := "\\\"$GRONIN_CONFIG_A\""

  lemma References()
    ensures Refs(LINE, 0) == [Ref(1, 12)] && RefsOk(LINE, [Ref(1, 12)], 0) && NameOf(LINE, Ref(1, 12)) == "config.a"
    ensures OpeningFrom(LINE, 12).None?
  {
    assert OpensAt(LINE, 1) && !OpensAt(LINE, 0);
    assert OpeningFrom(LINE, 0) == Some(1);
    assert LINE[11] == '}' && forall k :: 3 <= k < 11 ==> LINE[k] != '}';
    assert IndexOf(LINE, '}', 3) == Some(11);
    RefsAreOk(LINE, 0);
  }

  lemma Resolves()
    ensures CutName("config.a") == Some(Cut("config", "a")) && Resolve(KEYS, "config.a") == Some("v")
  {
    var name := "config.a";
    assert name[6] == '.' && forall k :: 0 <= k < 6 ==> name[k] != '.';
    assert IndexOf(name, '.', 0) == Some(6);
    assert name[..6] == "config" && name[7..] == "a";
  }

  lemma Variable()
    ensures VariableOf(Cut("config", "a")) == "GRONIN_CONFIG_A"
  {
    assert EnvSafe("config") == "CONFIG";
    assert EnvSafe("a") == "A";
  }

  lemma Expands()
    ensures CutName("config.a").Some? && Expansion("config.a") == "\"$GRONIN_CONFIG_A\""
  {
    Resolves();
    Variable();
  }

  lemma AfterBackslash()
    ensures Scan(LINE[..1]) == Quote(false, false, true)
  {
    assert LINE[..1][..0] == "" && LINE[..1][0] == '\\';
    assert ScanFrom(PLAIN, "") == PLAIN;
  }

  lemma NoProblem()
    ensures RefsOk(LINE, [Ref(1, 12)], 0) && BindOne(LINE, KEYS, map[], Ref(1, 12)).None?
  {
    References();
    Resolves();
    AfterBackslash();
  }

  /** The first reference of a line, where nothing is wrong with it. */
  lemma FirstStep(line: string, sources: Sources, r: Ref, name: string, variable: string, value: string)
    requires RefOk(line, r) && NameOf(line, r) == name && BindOne(line, sources, map[], r).None?
    requires CutName(name).Some? && VariableOf(CutName(name).value) == variable && Resolve(sources, name) == Some(value)
    ensures BindStep(line, sources, EMPTY, r) ==
            State("" + line[0..r.at] + Expansion(name), r.end, map[variable := name], map[variable := value], [])
  {}

  lemma OneStep()
    ensures RefsOk(LINE, [Ref(1, 12)], 0)
    ensures BindStep(LINE, KEYS, EMPTY, Ref(1, 12)) ==
            State(BOUND_LINE, 12, map["GRONIN_CONFIG_A" := "config.a"], map["GRONIN_CONFIG_A" := "v"], [])
  {
    NoProblem();
    References();
    Resolves();
    Variable();
    Expands();
    FirstStep(LINE, KEYS, Ref(1, 12), "config.a", "GRONIN_CONFIG_A", "v");
    BoundLine();
  }

  lemma BoundLine()
    ensures "" + LINE[0..1] + "\"$GRONIN_CONFIG_A\"" == BOUND_LINE
  {}

  /** What the walk makes of the one reference. */
  lemma Walks()
    ensures RefsOk(LINE, [Ref(1, 12)], 0)
    ensures Walked(LINE, KEYS, [Ref(1, 12)]) ==
            State(BOUND_LINE, 12, map["GRONIN_CONFIG_A" := "config.a"], map["GRONIN_CONFIG_A" := "v"], [])
  {
    OneStep();
    var refs := [Ref(1, 12)];
    assert refs[..0] == [] && Walked(LINE, KEYS, []) == EMPTY;
    assert Walked(LINE, KEYS, refs) == BindStep(LINE, KEYS, EMPTY, Ref(1, 12));
  }

  /** The line is accepted, its reference escaped, and its own text is not quoted as it was. */
  lemma IsAccepted()
    ensures ValidSources(KEYS) && Bind(LINE, KEYS) == Bound(BOUND_LINE, map["GRONIN_CONFIG_A" := "v"])
    ensures RefsOk(LINE, Refs(LINE, 0), 0)
    ensures !NoneEscaped(LINE, Refs(LINE, 0)) && !Preserved(LINE, KEYS, Refs(LINE, 0))
  {
    References();
    AfterBackslash();
    Walks();
    assert KeyChar('a');
    assert LINE[12..] == "" && BOUND_LINE + "" == BOUND_LINE;
    PreservedExactly(LINE, KEYS);
  }
}
