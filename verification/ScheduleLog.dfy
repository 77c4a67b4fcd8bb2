/** What the events of a history of ticks say of each playbook's occurrences. */
module ScheduleLog {
  import opened Common
  import opened Schedule

  /** The events of one playbook. */
  function OfName(log: seq<Event>, name: Name): seq<Event> {
    if log == [] then []
    else OfName(log[..|log| - 1], name) + if Last(log).name == name then [Last(log)] else []
  }

  /** The instants fired, in order. */
  function FiredIn(log: seq<Event>): seq<int> {
    if log == [] then []
    else FiredIn(log[..|log| - 1]) + if Last(log).Fires? then [Last(log).at] else []
  }

  /**
   * Events tell occurrences in order, each once: as missed, as one of a number that come before the one
   * fired, or as fired; and of a fire that became no run it is told at once that it did not.
   */
  predicate Tells(log: seq<Event>, due: seq<int>)
    decreases |log|
  {
    if log == [] then due == []
    else
      match log[0]
      case Missed(_, at) => due != [] && due[0] == at && Tells(log[1..], due[1..])
      case Overflowed(_, at, count) => 0 < count < |due| && at == due[count] - 1 && Tells(log[1..], due[count..])
      case Fires(name, at, ran) =>
        && due != [] && due[0] == at
        && if ran then Tells(log[1..], due[1..]) else |log| >= 2 && log[1] == NotRun(name, at) && Tells(log[2..], due[1..])
      case NotRun(_, _) => false
  }

  /** Every armed playbook's entry after some ticks. */
  ghost function EntriesAfter(entries: map<Name, Entry>, nows: seq<int>): map<Name, Entry> {
    map n | n in entries :: After(entries[n], nows)
  }

  /** All that the ticks of a history tell, one after another; `rans` says which fires of each became runs. */
  ghost function HistoryLog(names: seq<Name>, entries: map<Name, Entry>, nows: seq<int>, rans: seq<set<Name>>): seq<Event>
    requires |rans| == |nows| && forall n :: n in names ==> n in entries
  {
    if nows == [] then []
    else
      var n := |nows| - 1;
      HistoryLog(names, entries, nows[..n], rans[..n]) + TickLog(names, EntriesAfter(entries, nows[..n]), nows[n], rans[n])
  }

  /** What they tell of one playbook. */
  ghost function NameLog(name: Name, e: Entry, nows: seq<int>, rans: seq<set<Name>>): seq<Event>
    requires |rans| == |nows|
  {
    if nows == [] then []
    else
      var n := |nows| - 1;
      NameLog(name, e, nows[..n], rans[..n]) + TickEvents(name, After(e, nows[..n]), nows[n], name in rans[n])
  }

  // ---- One playbook's events among all ----

  lemma {:induction false} OfNameJoins(a: seq<Event>, b: seq<Event>, name: Name)
    ensures OfName(a + b, name) == OfName(a, name) + OfName(b, name)
  {
    if b == [] {
      assert a + b == a;
    } else {
      assert (a + b)[..|a + b| - 1] == a + b[..|b| - 1];
      OfNameJoins(a, b[..|b| - 1], name);
    }
  }

  lemma {:induction false} OfNameAll(log: seq<Event>, own: Name, name: Name)
    requires forall k :: 0 <= k < |log| ==> log[k].name == own
    ensures OfName(log, name) == if own == name then log else []
  {
    if log != [] {
      OfNameAll(log[..|log| - 1], own, name);
    }
  }

  lemma TickNames(name: Name, e: Entry, now: int, ran: bool)
    ensures forall k :: 0 <= k < |TickEvents(name, e, now, ran)| ==> TickEvents(name, e, now, ran)[k].name == name
  {}

  lemma TickOf(own: Name, e: Entry, now: int, ran: bool, name: Name)
    ensures OfName(TickEvents(own, e, now, ran), name) == if own == name then TickEvents(own, e, now, ran) else []
  {
    TickNames(own, e, now, ran);
    OfNameAll(TickEvents(own, e, now, ran), own, name);
  }

  lemma {:induction false} TickLogOf(names: seq<Name>, entries: map<Name, Entry>, now: int, ran: set<Name>, name: Name)
    requires InOrder(names) && forall n :: n in names ==> n in entries
    ensures OfName(TickLog(names, entries, now, ran), name) ==
            if name in names then TickEvents(name, entries[name], now, name in ran) else []
  {
    if names != [] {
      var front, last := names[..|names| - 1], Last(names);
      LastOnce(names);
      TickLogOf(front, entries, now, ran, name);
      OfNameJoins(TickLog(front, entries, now, ran), TickEvents(last, entries[last], now, last in ran), name);
      TickOf(last, entries[last], now, last in ran, name);
      assert names == front + [last];
    }
  }

  lemma LastOnce(names: seq<Name>)
    requires InOrder(names) && names != []
    ensures InOrder(names[..|names| - 1]) && Last(names) !in names[..|names| - 1]
  {
    Generations.LessNotBoth(Last(names), Last(names));
  }

  lemma {:induction false} HistoryLogOf(names: seq<Name>, entries: map<Name, Entry>, nows: seq<int>, rans: seq<set<Name>>, name: Name)
    requires |rans| == |nows| && InOrder(names) && (forall n :: n in names ==> n in entries) && name in names
    ensures OfName(HistoryLog(names, entries, nows, rans), name) == NameLog(name, entries[name], nows, rans)
  {
    if nows != [] {
      var n := |nows| - 1;
      HistoryLogOf(names, entries, nows[..n], rans[..n], name);
      TickLogOf(names, EntriesAfter(entries, nows[..n]), nows[n], rans[n], name);
      OfNameJoins(HistoryLog(names, entries, nows[..n], rans[..n]), TickLog(names, EntriesAfter(entries, nows[..n]), nows[n], rans[n]), name);
    }
  }

  // ---- What they tell ----

  lemma {:induction false} TellsJoins(a: seq<Event>, b: seq<Event>, s: seq<int>, t: seq<int>)
    requires Tells(a, s) && Tells(b, t)
    ensures Tells(a + b, s + t)
    decreases |a|
  {
    if a == [] {
      assert a + b == b && s + t == t;
    } else {
      var used, told := Uses(a[0]), Told(a[0]);
      TellsRest(a, s);
      TellsJoins(a[used..], b, s[told..], t);
      Shifts(a, b, s, t, used, told);
      TellsFirst(a, b, s, t);
    }
  }

  /** How many events tell of what the first does, and of how many occurrences. */
  function Uses(e: Event): nat { if e.Fires? && !e.ran then 2 else 1 }

  function Told(e: Event): nat { if e.Overflowed? then e.count else 1 }

  lemma TellsRest(a: seq<Event>, s: seq<int>)
    requires a != [] && Tells(a, s)
    ensures Uses(a[0]) <= |a| && Told(a[0]) <= |s| && Tells(a[Uses(a[0])..], s[Told(a[0])..])
  {}

  lemma Shifts(a: seq<Event>, b: seq<Event>, s: seq<int>, t: seq<int>, i: nat, j: nat)
    requires i <= |a| && j <= |s|
    ensures (a + b)[i..] == a[i..] + b && (s + t)[j..] == s[j..] + t
  {}

  /** More events and occurrences after them leave what the first tells. */
  lemma TellsFirst(a: seq<Event>, b: seq<Event>, s: seq<int>, t: seq<int>)
    requires a != [] && Tells(a, s)
    requires Uses(a[0]) <= |a| && Told(a[0]) <= |s| && Tells((a + b)[Uses(a[0])..], (s + t)[Told(a[0])..])
    ensures Tells(a + b, s + t)
  {}

  lemma {:induction false} MissedTell(name: Name, missed: seq<int>)
    ensures Tells(MissedEvents(name, missed), missed)
    decreases |missed|
  {
    if missed != [] {
      MissedTell(name, missed[1..]);
      assert MissedEvents(name, missed)[1..] == MissedEvents(name, missed[1..]);
    }
  }

  /** The end of a tick's events: those past the limit counted, and the last fired. */
  lemma EndTells(name: Name, counted: seq<int>, at: int, ran: bool)
    ensures
      var fire := [Fires(name, at, ran)] + if ran then [] else [NotRun(name, at)];
      && Tells(fire, [at])
      && (counted != [] ==> Tells([Overflowed(name, at - 1, |counted|)] + fire, counted + [at]))
  {
    var fire := [Fires(name, at, ran)] + if ran then [] else [NotRun(name, at)];
    assert [at][1..] == [] && fire[1..] == (if ran then [] else [NotRun(name, at)]);
    assert !ran ==> fire[2..] == [];
    assert ([Overflowed(name, at - 1, |counted|)] + fire)[1..] == fire && (counted + [at])[|counted|..] == [at];
  }

  /** What a tick tells is what it found, each occurrence once and in order. */
  lemma TickTells(name: Name, due: seq<int>, ran: bool)
    ensures Tells(EventsOf(name, AccountOf(due), ran), due)
  {
    var a := AccountOf(due);
    if due != [] {
      var at := a.fired.value;
      MissedTell(name, a.missed);
      EndTells(name, a.counted, at, ran);
      var fire := [Fires(name, at, ran)] + if ran then [] else [NotRun(name, at)];
      if a.counted == [] {
        TellsJoins(MissedEvents(name, a.missed), fire, a.missed, [at]);
        assert EventsOf(name, a, ran) == MissedEvents(name, a.missed) + fire && due == a.missed + [at];
      } else {
        var end := [Overflowed(name, at - 1, |a.counted|)] + fire;
        TellsJoins(MissedEvents(name, a.missed), end, a.missed, a.counted + [at]);
        assert EventsOf(name, a, ran) == MissedEvents(name, a.missed) + end && due == a.missed + (a.counted + [at]);
      }
    }
  }

  lemma {:induction false} FiredJoins(a: seq<Event>, b: seq<Event>)
    ensures FiredIn(a + b) == FiredIn(a) + FiredIn(b)
  {
    if b == [] {
      assert a + b == a;
    } else {
      assert (a + b)[..|a + b| - 1] == a + b[..|b| - 1];
      FiredJoins(a, b[..|b| - 1]);
    }
  }

  lemma {:induction false} NoneFired(log: seq<Event>)
    requires forall k :: 0 <= k < |log| ==> !log[k].Fires?
    ensures FiredIn(log) == []
  {
    if log != [] { NoneFired(log[..|log| - 1]); }
  }

  lemma FireFires(name: Name, at: int, ran: bool)
    ensures FiredIn([Fires(name, at, ran)] + if ran then [] else [NotRun(name, at)]) == [at]
  {
    var fire := [Fires(name, at, ran)];
    assert fire[..0] == [] && FiredIn(fire) == [at];
    NoneFired(if ran then [] else [NotRun(name, at)]);
    FiredJoins(fire, if ran then [] else [NotRun(name, at)]);
  }

  /** What a tick tells before its fire, and of its fire. */
  function BeforeFire(name: Name, a: Account): seq<Event>
    requires a.fired.Some?
  {
    MissedEvents(name, a.missed) + if a.counted == [] then [] else [Overflowed(name, a.fired.value - 1, |a.counted|)]
  }

  lemma EventsParts(name: Name, a: Account, ran: bool)
    requires a.fired.Some?
    ensures EventsOf(name, a, ran) ==
            BeforeFire(name, a) + ([Fires(name, a.fired.value, ran)] + if ran then [] else [NotRun(name, a.fired.value)])
    ensures forall k :: 0 <= k < |BeforeFire(name, a)| ==> !BeforeFire(name, a)[k].Fires?
  {}

  lemma TickFires(name: Name, a: Account, ran: bool)
    ensures FiredIn(EventsOf(name, a, ran)) == if a.fired.Some? then [a.fired.value] else []
  {
    if a.fired.Some? {
      EventsParts(name, a, ran);
      NoneFired(BeforeFire(name, a));
      FireFires(name, a.fired.value, ran);
      FiredJoins(BeforeFire(name, a), [Fires(name, a.fired.value, ran)] + if ran then [] else [NotRun(name, a.fired.value)]);
    }
  }

  /**
   * Over any history of ticks, the events of a playbook tell exactly the occurrences accounted for, in
   * order and each once, and fire exactly those fired.
   */
  lemma {:induction false} NameTells(name: Name, e: Entry, nows: seq<int>, rans: seq<set<Name>>)
    requires |rans| == |nows|
    ensures Tells(NameLog(name, e, nows, rans), Accounted(e, nows)) && FiredIn(NameLog(name, e, nows, rans)) == Fired(e, nows)
  {
    if nows != [] {
      var n := |nows| - 1;
      NameTells(name, e, nows[..n], rans[..n]);
      var due := Occurrences(e.cron, After(e, nows[..n]).seenTo, nows[n]);
      TickTells(name, due, name in rans[n]);
      TickFires(name, AccountOf(due), name in rans[n]);
      TellsJoins(NameLog(name, e, nows[..n], rans[..n]), EventsOf(name, AccountOf(due), name in rans[n]), Accounted(e, nows[..n]), due);
      FiredJoins(NameLog(name, e, nows[..n], rans[..n]), EventsOf(name, AccountOf(due), name in rans[n]));
    }
  }

  /** Of all that is logged, an armed playbook's events tell every occurrence after its arming up to the latest tick, each once. */
  lemma LogTellsAll(names: seq<Name>, entries: map<Name, Entry>, nows: seq<int>, rans: seq<set<Name>>, name: Name)
    requires |rans| == |nows| && InOrder(names) && (forall n :: n in names ==> n in entries) && name in names
    ensures
      var e, log := entries[name], OfName(HistoryLog(names, entries, nows, rans), name);
      Tells(log, Occurrences(e.cron, e.seenTo, Latest(e.seenTo, nows))) && FiredIn(log) == Fired(e, nows)
  {
    HistoryLogOf(names, entries, nows, rans, name);
    NameTells(name, entries[name], nows, rans);
    EveryOccurrenceOnce(entries[name], nows);
  }
}
