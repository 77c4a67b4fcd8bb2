/**
 * The scheduler: what one tick does with the occurrences that came due since the last, and what a
 * whole history of ticks does with every occurrence there was.
 */
module Schedule {
  import opened Common
  import Generations

  type Name = string

  /** How many past occurrences one tick enumerates. */
  const CATCH_UP_LIMIT: nat := 50

  /** When an expression occurs, and what it answers to when it next does, if it ever does. */
  datatype Calendar = Calendar(occurs: int -> bool, next: int -> Option<int>)

  /** The least occurrence after an instant, or none when there is none. */
  ghost predicate Lawful(c: Calendar) {
    && (forall t: int :: c.next(t).Some? ==> c.next(t).value > t && c.occurs(c.next(t).value))
    && (forall t: int, u: int :: t < u && (c.next(t).None? || u < c.next(t).value) ==> !c.occurs(u))
  }

  type Schedule = c: Calendar | Lawful(c) ghost witness Calendar((t: int) => true, (t: int) => Some(t + 1))

  /** An occurrence follows an instant by another. */
  predicate DueBy(cron: Schedule, from: int, until: int) {
    cron.next(from).Some? && cron.next(from).value <= until
  }

  /** The occurrences after `from`, up to and with `until`, in order. */
  ghost function Occurrences(cron: Schedule, from: int, until: int): seq<int>
    decreases until - from
  {
    if !DueBy(cron, from, until) then [] else [cron.next(from).value] + Occurrences(cron, cron.next(from).value, until)
  }

  lemma {:induction false} OccurrencesExact(cron: Schedule, from: int, until: int, at: int)
    ensures at in Occurrences(cron, from, until) <==> from < at <= until && cron.occurs(at)
    decreases until - from
  {
    NoneBetween(cron, from, at);
    if DueBy(cron, from, until) {
      OccurrencesExact(cron, cron.next(from).value, until, at);
    }
  }

  lemma NoneBetween(cron: Schedule, from: int, at: int)
    ensures cron.next(from).Some? ==> cron.next(from).value > from && cron.occurs(cron.next(from).value)
    ensures from < at && (cron.next(from).None? || at < cron.next(from).value) ==> !cron.occurs(at)
  {}

  lemma {:induction false} OccurrencesRise(cron: Schedule, from: int, until: int)
    ensures Rises(Occurrences(cron, from, until))
    ensures forall k :: 0 <= k < |Occurrences(cron, from, until)| ==> from < Occurrences(cron, from, until)[k] <= until
    decreases until - from
  {
    if DueBy(cron, from, until) {
      OccurrencesRise(cron, cron.next(from).value, until);
    }
  }

  ghost predicate Rises(s: seq<int>) {
    forall a, b :: 0 <= a < b < |s| ==> s[a] < s[b]
  }

  /** With none in between, the next one is the same. */
  lemma SameNext(cron: Schedule, a: int, b: int)
    requires a <= b && forall u :: a < u <= b ==> !cron.occurs(u)
    ensures cron.next(a) == cron.next(b)
  {
    if cron.next(a).Some? {
      NoneBetween(cron, b, cron.next(a).value);
      assert cron.occurs(cron.next(a).value) && cron.next(a).value > b;
    }
    if cron.next(b).Some? {
      NoneBetween(cron, a, cron.next(b).value);
      assert cron.occurs(cron.next(b).value);
    }
  }

  lemma {:induction false} OccurrencesSplit(cron: Schedule, a: int, b: int, c: int)
    requires a <= b <= c
    ensures Occurrences(cron, a, c) == Occurrences(cron, a, b) + Occurrences(cron, b, c)
    decreases b - a
  {
    if DueBy(cron, a, b) {
      var at := cron.next(a).value;
      OccurrencesSplit(cron, at, b, c);
      assert [at] + (Occurrences(cron, at, b) + Occurrences(cron, b, c)) == [at] + Occurrences(cron, at, b) + Occurrences(cron, b, c);
    } else {
      forall u | a < u <= b ensures !cron.occurs(u) { NoneBetween(cron, a, u); }
      SameNext(cron, a, b);
    }
  }

  // ---- Where the walk over them ends ----

  /** What the source's calendar answers when there is no next occurrence: an instant before every other. */
  const NEVER: int := 0

  function Answered(cron: Schedule, from: int): int {
    match cron.next(from)
    case None => NEVER
    case Some(at) => at
  }

  /** The instants the walk of a tick looks at, the first being 0. */
  function Visited(cron: Schedule, from: int, n: nat): int
    decreases n
  {
    if n == 0 then Answered(cron, from) else Answered(cron, Visited(cron, from, n - 1))
  }

  /** With no occurrence to come, the walk stays at or before now whatever it started from: it never ends. */
  lemma {:induction false} StaysBelow(cron: Schedule, from: int, now: int, n: nat)
    requires NEVER <= now && cron.next(now).None?
    ensures Visited(cron, from, n) <= now
    decreases n
  {
    var at := if n == 0 then from else Visited(cron, from, n - 1);
    if n > 0 { StaysBelow(cron, from, now, n - 1); }
    if cron.next(at).Some? {
      NoneBetween(cron, at, cron.next(at).value);
      NoneBetween(cron, now, cron.next(at).value);
    }
  }

  /** From at or before now, the walk reaches an occurrence after now if there is one. */
  lemma {:induction false} Climbs(cron: Schedule, from: int, now: int) returns (n: nat)
    requires from <= now && cron.next(now).Some?
    ensures Visited(cron, from, n) > now
    decreases now - from
  {
    NoneBetween(cron, now, now);
    NoneBetween(cron, from, cron.next(now).value);
    var at := cron.next(from).value;
    NoneBetween(cron, from, at);
    if at > now {
      n := 0;
    } else {
      var m := Climbs(cron, at, now);
      Shifted(cron, from, m);
      n := m + 1;
    }
  }

  lemma {:induction false} Shifted(cron: Schedule, from: int, m: nat)
    ensures Visited(cron, from, m + 1) == Visited(cron, Answered(cron, from), m)
    decreases m
  {
    if m > 0 { Shifted(cron, from, m - 1); }
  }

  /** From anywhere. */
  lemma Reaches(cron: Schedule, from: int, now: int) returns (n: nat)
    requires NEVER <= now && cron.next(now).Some?
    ensures Visited(cron, from, n) > now
  {
    if from <= now {
      n := Climbs(cron, from, now);
    } else if Answered(cron, from) > now {
      n := 0;
    } else {
      var m := Climbs(cron, Answered(cron, from), now);
      Shifted(cron, from, m);
      n := m + 1;
    }
  }

  /** The walk of a tick ends exactly if the expression occurs again after the tick. */
  lemma WalkEndsExactly(cron: Schedule, from: int, now: int)
    requires NEVER <= now
    ensures (exists n: nat :: Visited(cron, from, n) > now) <==> cron.next(now).Some?
  {
    if cron.next(now).Some? {
      var n := Reaches(cron, from, now);
    } else {
      forall n: nat ensures Visited(cron, from, n) <= now { StaysBelow(cron, from, now, n); }
    }
  }

  /** An expression that names no day there is, as 30 February: lawful, and never past any tick. */
  lemma NeverAgain(from: int, now: int, n: nat)
    requires NEVER <= now
    ensures Lawful(Calendar((t: int) => false, (t: int) => None))
    ensures Visited(Calendar((t: int) => false, (t: int) => None), from, n) <= now
  {
    var cron := Calendar((t: int) => false, (t: int) => None);
    assert Lawful(cron);
    StaysBelow(cron, from, now, n);
  }

  // ---- One tick of one entry ----

  datatype Entry = Entry(cron: Schedule, seenTo: int)

  /** Occurrences recorded as missed, those only counted, and the one fired. */
  datatype Account = Account(missed: seq<int>, counted: seq<int>, fired: Option<int>)

  function Whole(a: Account): seq<int> {
    a.missed + a.counted + (if a.fired.Some? then [a.fired.value] else [])
  }

  /** What a tick owes its due occurrences: the last is fired, and past the limit the middle is only counted. */
  function AccountOf(due: seq<int>): (a: Account)
    ensures Whole(a) == due
    ensures |a.missed| < CATCH_UP_LIMIT && (a.counted != [] ==> |a.missed| == CATCH_UP_LIMIT - 1)
    ensures due != [] ==> a.fired == Some(Last(due))
  {
    if due == [] then Account([], [], None)
    else
      var n := |due| - 1;
      assert due == due[..n] + [Last(due)];
      if n < CATCH_UP_LIMIT then Account(due[..n], [], Some(Last(due)))
      else
        assert due[..n] == due[..CATCH_UP_LIMIT - 1] + due[CATCH_UP_LIMIT - 1..n];
        Account(due[..CATCH_UP_LIMIT - 1], due[CATCH_UP_LIMIT - 1..n], Some(Last(due)))
  }

  ghost function Ticked(e: Entry, now: int): Entry
  {
    if Occurrences(e.cron, e.seenTo, now) == [] then e else e.(seenTo := now)
  }

  // ---- A history of ticks ----

  ghost function After(e: Entry, nows: seq<int>): (r: Entry)
    ensures r.cron == e.cron
  {
    if nows == [] then e else Ticked(After(e, nows[..|nows| - 1]), Last(nows))
  }

  /** Everything the ticks accounted for, in order. */
  ghost function Accounted(e: Entry, nows: seq<int>): seq<int>
  {
    if nows == [] then []
    else
      var before := After(e, nows[..|nows| - 1]);
      Accounted(e, nows[..|nows| - 1]) + Whole(AccountOf(Occurrences(e.cron, before.seenTo, Last(nows))))
  }

  /** What the ticks fired, in order. */
  ghost function Fired(e: Entry, nows: seq<int>): seq<int>
  {
    if nows == [] then []
    else
      var before := After(e, nows[..|nows| - 1]);
      var a := AccountOf(Occurrences(e.cron, before.seenTo, Last(nows)));
      Fired(e, nows[..|nows| - 1]) + (if a.fired.Some? then [a.fired.value] else [])
  }

  /** The latest instant there has been, from arming on. */
  function Latest(from: int, nows: seq<int>): int {
    if nows == [] then from else Max(Latest(from, nows[..|nows| - 1]), Last(nows))
  }

  /** Up to the latest tick, whatever order the instants came in, nothing due is left past where the entry has seen to. */
  lemma {:induction false} SeenAll(e: Entry, nows: seq<int>)
    ensures
      var seen, latest := After(e, nows).seenTo, Latest(e.seenTo, nows);
      e.seenTo <= seen <= latest && Occurrences(e.cron, seen, latest) == []
    ensures Accounted(e, nows) == Occurrences(e.cron, e.seenTo, After(e, nows).seenTo)
  {
    if nows != [] {
      var front, now := nows[..|nows| - 1], Last(nows);
      SeenAll(e, front);
      var before := After(e, front);
      var due := Occurrences(e.cron, before.seenTo, now);
      if due == [] {
        NoneYet(e.cron, before.seenTo, Latest(e.seenTo, front), now);
      } else {
        OccurrencesRise(e.cron, before.seenTo, now);
        assert before.seenTo < due[0] <= now;
        OccurrencesSplit(e.cron, e.seenTo, before.seenTo, now);
        LaterThanAll(e.cron, before.seenTo, Latest(e.seenTo, front), now);
      }
    }
  }

  lemma NoneYet(cron: Schedule, seen: int, latest: int, now: int)
    requires seen <= latest && Occurrences(cron, seen, latest) == [] && Occurrences(cron, seen, now) == []
    ensures Occurrences(cron, seen, Max(latest, now)) == []
  {}

  /** A tick that found something due came later than every one before it. */
  lemma LaterThanAll(cron: Schedule, seen: int, latest: int, now: int)
    requires seen <= latest && Occurrences(cron, seen, latest) == [] && Occurrences(cron, seen, now) != []
    ensures latest < now && Occurrences(cron, now, Max(latest, now)) == []
  {}

  /**
   * Over any ticks, every occurrence after arming and up to the latest of them is accounted for exactly
   * once, in order: offered to fire, recorded as missed, or one of those counted past the limit.
   */
  lemma EveryOccurrenceOnce(e: Entry, nows: seq<int>)
    ensures Accounted(e, nows) == Occurrences(e.cron, e.seenTo, Latest(e.seenTo, nows))
    ensures Rises(Accounted(e, nows))
    ensures forall at :: at in Accounted(e, nows) <==> e.seenTo < at <= Latest(e.seenTo, nows) && e.cron.occurs(at)
  {
    SeenAll(e, nows);
    var seen, latest := After(e, nows).seenTo, Latest(e.seenTo, nows);
    OccurrencesSplit(e.cron, e.seenTo, seen, latest);
    OccurrencesRise(e.cron, e.seenTo, latest);
    forall at ensures at in Accounted(e, nows) <==> e.seenTo < at <= latest && e.cron.occurs(at) {
      OccurrencesExact(e.cron, e.seenTo, latest, at);
    }
  }

  /** The instants fired strictly increase: no occurrence is offered twice, and none after a later one. */
  lemma {:induction false} FiresRise(e: Entry, nows: seq<int>)
    ensures Rises(Fired(e, nows))
    ensures Bounded(Fired(e, nows), e.seenTo, After(e, nows).seenTo)
  {
    if nows != [] {
      var front := nows[..|nows| - 1];
      FiresRise(e, front);
      SeenAll(e, front);
      var seen := After(e, front).seenTo;
      LastDue(e.cron, seen, Last(nows));
      if Occurrences(e.cron, seen, Last(nows)) != [] {
        RisesMore(Fired(e, front), e.seenTo, seen, Last(Occurrences(e.cron, seen, Last(nows))), Last(nows));
      }
    }
  }

  predicate Bounded(s: seq<int>, low: int, high: int) {
    forall k :: 0 <= k < |s| ==> low < s[k] <= high
  }

  lemma LastDue(cron: Schedule, from: int, now: int)
    ensures
      var due := Occurrences(cron, from, now);
      due != [] ==> from < Last(due) <= now
  {
    OccurrencesRise(cron, from, now);
  }

  lemma RisesMore(s: seq<int>, low: int, bound: int, at: int, now: int)
    requires Rises(s) && Bounded(s, low, bound) && low <= bound < at <= now
    ensures Rises(s + [at]) && Bounded(s + [at], low, now)
  {}

  // ---- The scheduler itself ----

  /** What it tells the record and the executor. */
  datatype Event =
    | Missed(name: Name, at: int)
    | Overflowed(name: Name, at: int, count: nat)
    | Fires(name: Name, at: int, ran: bool)
    | NotRun(name: Name, at: int)

  function MissedEvents(name: Name, missed: seq<int>): seq<Event> {
    seq(|missed|, k requires 0 <= k < |missed| => Missed(name, missed[k]))
  }

  /** One tick's events: each missed one, a count of the rest a nanosecond before the last, and the last fired. */
  function EventsOf(name: Name, a: Account, ran: bool): seq<Event> {
    if a.fired.None? then []
    else
      MissedEvents(name, a.missed)
      + (if a.counted == [] then [] else [Overflowed(name, a.fired.value - 1, |a.counted|)])
      + [Fires(name, a.fired.value, ran)]
      + (if ran then [] else [NotRun(name, a.fired.value)])
  }

  /** What one tick of an entry tells. */
  ghost function TickEvents(name: Name, e: Entry, now: int, ran: bool): seq<Event> {
    EventsOf(name, AccountOf(Occurrences(e.cron, e.seenTo, now)), ran)
  }

  /** What one tick of several entries tells, one after another. */
  ghost function TickLog(names: seq<Name>, entries: map<Name, Entry>, now: int, ran: set<Name>): seq<Event>
    requires forall n :: n in names ==> n in entries
  {
    if names == [] then []
    else
      TickLog(names[..|names| - 1], entries, now, ran)
      + TickEvents(Last(names), entries[Last(names)], now, Last(names) in ran)
  }

  /** The entries of some names ticked, and the rest as they were. */
  ghost function TickedEntries(names: seq<Name>, entries: map<Name, Entry>, now: int): map<Name, Entry> {
    map n | n in entries :: if n in names then Ticked(entries[n], now) else entries[n]
  }

  /** Every name in order, none twice. */
  ghost predicate InOrder(names: seq<Name>) {
    forall a, b :: 0 <= a < b < |names| ==> Generations.Less(names[a], names[b])
  }

  /** An expression that occurs again, after what an entry has seen and after the tick. */
  predicate GoesOn(e: Entry, now: int) {
    e.cron.next(Max(e.seenTo, now)).Some?
  }

  class Scheduler {
    var entries: map<Name, Entry>
    var log: seq<Event>

    constructor ()
      ensures entries == map[] && log == []
    {
      entries, log := map[], [];
    }

    /** Arms a playbook, caught up to an instant. */
    method Add(name: Name, cron: Schedule, from: int)
      modifies this
      ensures entries == old(entries)[name := Entry(cron, from)] && log == old(log)
    {
      entries := entries[name := Entry(cron, from)];
    }

    /** Walks the occurrences since the last tick, keeping at most the limit of them and counting the rest. */
    method Due(cron: Schedule, from: int, now: int) returns (due: seq<int>, overflow: nat)
      requires GoesOn(Entry(cron, from), now)
      ensures Kept(Occurrences(cron, from, now), due, overflow)
    {
      due, overflow := [], 0;
      NextGoesOn(cron, from, from, now);
      var at := Answered(cron, from);
      ghost var seen: seq<int> := [];
      ghost var past := from;
      while at <= now
        invariant cron.next(past) == Some(at) && past < at && past <= Max(from, now) && Occurrences(cron, from, now) == seen + Occurrences(cron, past, now)
        invariant Kept(seen, due, overflow)
        decreases now - at
      {
        KeptGrows(seen, due, overflow, at);
        OneMore(cron, seen, past, now);
        if |due| == CATCH_UP_LIMIT {
          overflow := overflow + 1;
          due := due[|due| - 1 := at];
        } else {
          due := due + [at];
        }
        seen, past := seen + [at], at;
        NextGoesOn(cron, past, from, now);
        at := Answered(cron, at);
      }
      assert seen + [] == seen;
    }

    /** All but the last, each recorded as missed. */
    method RecordMissed(name: Name, due: seq<int>)
      requires due != []
      modifies this`log
      ensures log == old(log) + MissedEvents(name, due[..|due| - 1])
    {
      for k := 0 to |due| - 1
        invariant log == old(log) + MissedEvents(name, due[..k])
      {
        log := log + [Missed(name, due[k])];
      }
    }

    /** Tells what a tick found, and fires the last of it. */
    method Report(name: Name, due: seq<int>, overflow: nat, ran: bool, ghost found: seq<int>)
      requires due != [] && Kept(found, due, overflow)
      modifies this`log
      ensures log == old(log) + EventsOf(name, AccountOf(found), ran)
    {
      var last := due[|due| - 1];
      RecordMissed(name, due);
      if overflow > 0 {
        log := log + [Overflowed(name, last - 1, overflow)];
      }
      log := log + [Fires(name, last, ran)];
      if !ran {
        log := log + [NotRun(name, last)];
      }
    }

    /** One entry's tick. */
    method TickOne(name: Name, now: int, ran: bool)
      requires name in entries && GoesOn(entries[name], now)
      modifies this
      ensures entries == old(entries)[name := Ticked(old(entries)[name], now)]
      ensures log == old(log) + TickEvents(name, old(entries)[name], now, ran)
    {
      var e := entries[name];
      var due, overflow := Due(e.cron, e.seenTo, now);
      if |due| > 0 {
        entries := entries[name := e.(seenTo := now)];
        Report(name, due, overflow, ran, Occurrences(e.cron, e.seenTo, now));
      }
    }

    /** The armed playbooks, ordered. */
    method Names() returns (names: seq<Name>)
      ensures forall n :: n in names <==> n in entries
      ensures InOrder(names)
    {
      names := [];
      var left := entries.Keys;
      while left != {}
        invariant left <= entries.Keys && forall n :: n in names <==> n in entries && n !in left
        invariant InOrder(names)
        invariant forall n, m :: n in names && m in left ==> Generations.Less(n, m)
        decreases |left|
      {
        var least := Least(left);
        names := names + [least];
        left := left - {least};
      }
    }

    method Least(left: set<Name>) returns (least: Name)
      requires left != {}
      ensures least in left && forall n :: n in left && n != least ==> Generations.Less(least, n)
    {
      least :| least in left;
      var rest := left - {least};
      while rest != {}
        invariant rest <= left && least in left && least !in rest
        invariant forall n :: n in left && n !in rest && n != least ==> Generations.Less(least, n)
        decreases |rest|
      {
        var n :| n in rest;
        Generations.LessTotal(n, least);
        if Generations.Less(n, least) {
          forall m | m in left && m !in rest && m != least ensures Generations.Less(n, m) {
            Generations.LessTrans(n, least, m);
          }
          least := n;
        }
        rest := rest - {n};
      }
    }

    /** Ticks every armed playbook at one instant, in order; `ran` says which fires become runs. */
    method Tick(now: int, ran: set<Name>) returns (ghost names: seq<Name>)
      requires forall name :: name in entries ==> GoesOn(entries[name], now)
      modifies this
      ensures InOrder(names) && forall n :: n in names <==> n in old(entries)
      ensures entries == map n | n in old(entries) :: Ticked(old(entries)[n], now)
      ensures log == old(log) + TickLog(names, old(entries), now, ran)
    {
      var armed := Names();
      names := armed;
      ghost var entriesThen, logThen := entries, log;
      ghost var done: seq<Name> := [];
      NoneDone(entries, log, now, ran);
      for k := 0 to |armed|
        invariant done == armed[..k] && TickedThrough(done, entriesThen, entries, logThen, log, now, ran)
      {
        NotYet(armed, k);
        TickNext(done, armed[k], now, ran, entriesThen, logThen);
        done := done + [armed[k]];
      }
      assert armed[..|armed|] == armed;
      AllDone(armed, entriesThen, entries, now);
    }

    /** One more of them. */
    method TickNext(ghost done: seq<Name>, name: Name, now: int, ran: set<Name>, ghost entriesThen: map<Name, Entry>, ghost logThen: seq<Event>)
      requires TickedThrough(done, entriesThen, entries, logThen, log, now, ran)
      requires name in entriesThen && name !in done && GoesOn(entriesThen[name], now)
      modifies this
      ensures TickedThrough(done + [name], entriesThen, entries, logThen, log, now, ran)
    {
      ghost var entriesMid, logMid := entries, log;
      TickOne(name, now, name in ran);
      OneDone(done, name, entriesThen, entriesMid, logThen, logMid, now, ran);
    }
  }

  /** Some of the armed names ticked, one after another, and the rest as they were. */
  ghost predicate TickedThrough(
    done: seq<Name>, before: map<Name, Entry>, after: map<Name, Entry>, logBefore: seq<Event>, log: seq<Event>, now: int, ran: set<Name>)
  {
    && (forall n :: n in done ==> n in before)
    && after == TickedEntries(done, before, now)
    && log == logBefore + TickLog(done, before, now, ran)
  }

  lemma NoneDone(entries: map<Name, Entry>, log: seq<Event>, now: int, ran: set<Name>)
    ensures TickedThrough([], entries, entries, log, log, now, ran)
  {}

  lemma OneDone(
    done: seq<Name>, name: Name, before: map<Name, Entry>, mid: map<Name, Entry>, logBefore: seq<Event>, logMid: seq<Event>,
    now: int, ran: set<Name>)
    requires TickedThrough(done, before, mid, logBefore, logMid, now, ran) && name in before && name !in done
    ensures name in mid && mid[name] == before[name]
    ensures TickedThrough(done + [name], before, mid[name := Ticked(mid[name], now)],
                          logBefore, logMid + TickEvents(name, mid[name], now, name in ran), now, ran)
  {
    assert (done + [name])[..|done|] == done && Last(done + [name]) == name;
    assert mid[name := Ticked(mid[name], now)] == TickedEntries(done + [name], before, now);
    assert TickLog(done + [name], before, now, ran) == TickLog(done, before, now, ran) + TickEvents(name, before[name], now, name in ran);
  }

  lemma AllDone(names: seq<Name>, before: map<Name, Entry>, after: map<Name, Entry>, now: int)
    requires after == TickedEntries(names, before, now) && forall n :: n in before ==> n in names
    ensures after == map n | n in before :: Ticked(before[n], now)
  {}

  lemma NotYet(names: seq<Name>, k: nat)
    requires InOrder(names) && k < |names|
    ensures names[k] !in names[..k] && names[..k + 1] == names[..k] + [names[k]] && names[..k + 1][..k] == names[..k]
  {
    forall j | 0 <= j < k ensures names[j] != names[k] { Generations.LessNotBoth(names[j], names[k]); }
  }

  /** The walk has a next instant as long as there is one past where it must get to. */
  lemma NextGoesOn(cron: Schedule, at: int, from: int, now: int)
    requires GoesOn(Entry(cron, from), now) && at <= Max(from, now)
    ensures cron.next(at).Some? && cron.next(at).value > at
  {
    var end := Max(from, now);
    NoneBetween(cron, end, end);
    NoneBetween(cron, at, cron.next(end).value);
  }

  /** The occurrences a tick remembers, the last among them, and how many it only counts. */
  ghost predicate Kept(seen: seq<int>, due: seq<int>, overflow: nat) {
    var a := AccountOf(seen);
    && (seen == [] <==> due == [])
    && (due != [] ==> due[..|due| - 1] == a.missed && Last(due) == Last(seen))
    && overflow == |a.counted|
  }

  /** One more occurrence due: kept while there is room, and past the limit the last kept gives way. */
  lemma KeptGrows(seen: seq<int>, due: seq<int>, overflow: nat, at: int)
    requires Kept(seen, due, overflow)
    ensures |due| == CATCH_UP_LIMIT ==> Kept(seen + [at], due[|due| - 1 := at], overflow + 1)
    ensures |due| != CATCH_UP_LIMIT ==> Kept(seen + [at], due + [at], overflow)
  {
    assert (seen + [at])[..|seen|] == seen;
    if due != [] {
      assert due == due[..|due| - 1] + [Last(due)];
    }
  }

  lemma OneMore(cron: Schedule, seen: seq<int>, past: int, now: int)
    requires DueBy(cron, past, now)
    ensures seen + Occurrences(cron, past, now) == seen + [cron.next(past).value] + Occurrences(cron, cron.next(past).value, now)
  {}
}
