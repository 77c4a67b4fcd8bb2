/** What one round of an attempt comes to, read off the claims, the ticks, the slots and the leases its two calls find. */
module EtcdAnswers {
  import opened Common
  import opened Coordination
  import opened EtcdStore

  datatype Answer = Taken(token: nat, granted: nat) | Refusing(why: Refusal)

  /** The occurrence, or a later one, is on record. */
  predicate Ran(s: Store, req: Request) {
    req.trigger.Scheduled? && req.name in s.ticks && req.trigger.due <= s.ticks[req.name].due
  }

  predicate SlotTaken(s: Store, req: Request, j: nat) {
    (req.name, j) in s.slots
  }

  /** Every slot of the limit is taken. */
  predicate Full(s: Store, req: Request)
    requires req.rate.Some?
  {
    forall j: nat :: j < req.rate.value.runs ==> SlotTaken(s, req, j)
  }

  /** Nothing the read finds refuses the attempt: a claim that stands is left for the transaction to find. */
  predicate GoesOn(s: Store, req: Request) {
    !Ran(s, req) && (req.rate.Some? ==> !Full(s, req))
  }

  /** The lowest slot not taken. */
  predicate LowestFree(s: Store, req: Request, j: nat)
    requires req.rate.Some?
  {
    j < req.rate.value.runs && !SlotTaken(s, req, j) && forall i: nat :: i < j ==> SlotTaken(s, req, i)
  }

  /** Nobody has the claim, and the tick and the slot the read went by are still as it found them. */
  ghost predicate StillOpen(read: Store, s: Store, req: Request) {
    && req.name !in s.claims
    && (req.trigger.Scheduled? ==> TickRevision(s, req.name) == TickRevision(read, req.name))
    && (req.rate.Some? ==> forall j: nat :: LowestFree(read, req, j) ==> !SlotTaken(s, req, j))
  }

  predicate LeasesStand(s: Store, req: Request, g: Grants) {
    g.lease in s.leases && (req.rate.Some? ==> g.slotLease.Some? && g.slotLease.value in s.leases)
  }

  /** A claim held by someone, or a tick that ran, as the refusal names them. */
  predicate Names(s: Store, req: Request, why: Refusal) {
    match why
    case HeldBy(holder) => req.name in s.claims && s.claims[req.name].holder == holder
    case TickRan(due, holder) =>
      req.name !in s.claims && Ran(s, req) && s.ticks[req.name].due == due && s.ticks[req.name].holder == holder
    case _ => false
  }

  /** A round: the stores its read and its transaction found, and whether either call failed. */
  datatype Round = Round(read: Store, tx: Store, readFails: bool, txFails: bool)

  /** What a round answers, or that it lost a race and goes round. */
  ghost predicate RoundEnds(r: Round, req: Request, g: Grants, result: Option<Answer>) {
    var (read, s, readFails, txFails) := (r.read, r.tx, r.readFails, r.txFails);
    match result
    case Some(Taken(token, granted)) =>
      && !readFails && GoesOn(read, req) && !txFails && StillOpen(read, s, req) && LeasesStand(s, req, g)
      && token == s.revision + 1 && granted == g.granted
    case Some(Refusing(Unavailable)) =>
      readFails || (GoesOn(read, req) && (txFails || (StillOpen(read, s, req) && !LeasesStand(s, req, g))))
    case Some(Refusing(RateLimited(limit))) => !readFails && !Ran(read, req) && req.rate == Some(limit) && Full(read, req)
    case Some(Refusing(why)) =>
      && !readFails
      && if Ran(read, req) then Names(read, req, why) else GoesOn(read, req) && !txFails && !StillOpen(read, s, req) && Names(s, req, why)
    case None =>
      && !readFails && GoesOn(read, req) && !txFails
      && !StillOpen(read, s, req) && req.name !in s.claims && !Ran(s, req)
  }

  /** The same, as the protocol decides it. */
  function RoundOf(r: Round, req: Request, g: Grants): Option<Answer> {
    if r.readFails then Some(Refusing(Unavailable))
    else
      match Decide(r.read, req)
      case Refuse(why) => Some(Refusing(why))
      case Proceed(tx) => if r.txFails then Some(Refusing(Unavailable)) else Transacted(r.tx, req, g, tx)
  }

  /** What a transaction that reaches the server decides. */
  function Transacted(s: Store, req: Request, g: Grants, tx: Tx): Option<Answer> {
    if Commits(s, req, g, tx) then Some(Taken(s.revision + 1, g.granted))
    else if Unchanged(s, req, tx) then Some(Refusing(Unavailable))
    else
      match Reconsider(s, req)
      case Some(why) => Some(Refusing(why))
      case None => None
  }

  /** The read refuses exactly by a tick that ran or a limit that is full, and goes by the lowest free slot. */
  lemma DecideExactly(s: Store, req: Request)
    ensures Decide(s, req).Proceed? <==> GoesOn(s, req)
    ensures Decide(s, req).Proceed? && req.rate.Some? ==> LowestFree(s, req, Decide(s, req).tx.slot)
    ensures Decide(s, req).Proceed? && req.trigger.Scheduled? ==> Decide(s, req).tx.tickRev == TickRevision(s, req.name)
    ensures Decide(s, req).Refuse? && Ran(s, req) ==> Names(s, req, Decide(s, req).why)
    ensures Decide(s, req).Refuse? && !Ran(s, req) ==> req.rate.Some? && Decide(s, req).why == RateLimited(req.rate.value)
  {
    if req.rate.Some? {
      var runs := req.rate.value.runs;
      var free := SlotsFree(s, req.name, runs);
      assert forall j: nat :: j < runs ==> free[j] == !SlotTaken(s, req, j);
      var slot := FirstFree(free);
      if slot.Some? {
        assert !SlotTaken(s, req, slot.value);
      }
    }
  }

  lemma LowestOnce(s: Store, req: Request, i: nat, j: nat)
    requires req.rate.Some? && LowestFree(s, req, i) && LowestFree(s, req, j)
    ensures i == j
  {}

  /** The transaction's comparisons hold exactly if nothing it went by has moved. */
  lemma UnchangedExactly(read: Store, s: Store, req: Request)
    requires Decide(read, req).Proceed?
    ensures Unchanged(s, req, Decide(read, req).tx) <==> StillOpen(read, s, req)
  {
    DecideExactly(read, req);
    if req.rate.Some? {
      var slot := Decide(read, req).tx.slot;
      forall j: nat | LowestFree(read, req, j) ensures j == slot { LowestOnce(read, req, j, slot); }
    }
  }

  lemma ReconsiderNames(s: Store, req: Request)
    ensures Reconsider(s, req).Some? ==> Names(s, req, Reconsider(s, req).value)
    ensures Reconsider(s, req).None? <==> req.name !in s.claims && !Ran(s, req)
  {}

  /** A round ends in exactly one way: the one its two stores and its two calls decide. */
  lemma RoundDecides(r: Round, req: Request, g: Grants)
    ensures RoundEnds(r, req, g, RoundOf(r, req, g))
  {
    DecideExactly(r.read, req);
    ReconsiderNames(r.tx, req);
    if Decide(r.read, req).Proceed? {
      UnchangedExactly(r.read, r.tx, req);
    }
  }

  /** Each round has one result. */
  lemma OneResult(r: Round, req: Request, g: Grants, result: Option<Answer>)
    ensures RoundEnds(r, req, g, result) <==> result == RoundOf(r, req, g)
  {
    RoundDecides(r, req, g);
  }

  lemma OneResultEach(rounds: seq<Round>, req: Request, g: Grants)
    ensures forall j, result :: 0 <= j < |rounds| ==> (RoundEnds(rounds[j], req, g, result) <==> result == RoundOf(rounds[j], req, g))
  {
    forall j, result | 0 <= j < |rounds| ensures RoundEnds(rounds[j], req, g, result) <==> result == RoundOf(rounds[j], req, g) {
      OneResult(rounds[j], req, g, result);
    }
  }

  // ---- Rounds, until one has an answer ----

  /** That of the first round to have one, or unavailable once time runs out. */
  function AnswerOf(rounds: seq<Round>, req: Request, g: Grants): Answer {
    if rounds == [] then Refusing(Unavailable)
    else
      match RoundOf(rounds[0], req, g)
      case Some(answer) => answer
      case None => AnswerOf(rounds[1..], req, g)
  }

  /** The first rounds each lost a race. */
  ghost predicate LostBefore(rounds: seq<Round>, req: Request, g: Grants, t: nat) {
    t <= |rounds| && forall j :: 0 <= j < t ==> RoundEnds(rounds[j], req, g, None)
  }

  /**
   * The answer is borne out by the two stores of the first round that did not lose a race; with none, the
   * call ran out of time and is unavailable.
   */
  lemma {:induction false} AnswerEnds(rounds: seq<Round>, req: Request, g: Grants) returns (t: nat)
    ensures LostBefore(rounds, req, g, t)
    ensures if t < |rounds| then RoundEnds(rounds[t], req, g, Some(AnswerOf(rounds, req, g)))
            else AnswerOf(rounds, req, g) == Refusing(Unavailable)
  {
    t := 0;
    if rounds != [] {
      RoundDecides(rounds[0], req, g);
      if RoundOf(rounds[0], req, g).None? {
        var n := AnswerEnds(rounds[1..], req, g);
        t := n + 1;
        assert forall j :: 0 < j < t ==> rounds[j] == rounds[1..][j - 1];
      }
    }
  }

  /** A round's read failed; or its transaction did, or found a lease gone though nothing it went by had moved. */
  ghost predicate CallFails(r: Round, req: Request, g: Grants) {
    r.readFails || (GoesOn(r.read, req) && (r.txFails || (StillOpen(r.read, r.tx, req) && !LeasesStand(r.tx, req, g))))
  }

  lemma FailsUnavailable(r: Round, req: Request, g: Grants)
    ensures CallFails(r, req, g) <==> RoundEnds(r, req, g, Some(Refusing(Unavailable)))
  {}

  /** Every round before a first one goes round, and that one's answer is the call's. */
  lemma FirstAnswers(rounds: seq<Round>, req: Request, g: Grants, t: nat, answer: Answer)
    requires LostBefore(rounds, req, g, t) && t < |rounds| && RoundEnds(rounds[t], req, g, Some(answer))
    ensures AnswerOf(rounds, req, g) == answer
  {
    var n := AnswerEnds(rounds, req, g);
    OneResultEach(rounds, req, g);
  }

  /**
   * A call's answer is unavailable exactly if it ran out of time on lost races, or the first round not
   * lost had a call fail or a lease gone.
   */
  lemma UnavailableExactly(rounds: seq<Round>, req: Request, g: Grants)
    ensures AnswerOf(rounds, req, g) == Refusing(Unavailable) <==>
            || LostBefore(rounds, req, g, |rounds|)
            || exists t: nat :: LostBefore(rounds, req, g, t) && t < |rounds| && CallFails(rounds[t], req, g)
  {
    var t := AnswerEnds(rounds, req, g);
    OneResultEach(rounds, req, g);
    if t < |rounds| {
      FailsUnavailable(rounds[t], req, g);
    }
    forall n: nat | LostBefore(rounds, req, g, n) && n < |rounds| && CallFails(rounds[n], req, g)
      ensures AnswerOf(rounds, req, g) == Refusing(Unavailable)
    {
      FailsUnavailable(rounds[n], req, g);
      FirstAnswers(rounds, req, g, n, Refusing(Unavailable));
    }
  }

  /** The claim is taken by the first round not lost, if nobody has it, nothing it went by has moved, and the leases stand. */
  lemma MustTake(rounds: seq<Round>, req: Request, g: Grants, t: nat)
    requires LostBefore(rounds, req, g, t) && t < |rounds|
    requires
      var r := rounds[t];
      !r.readFails && !r.txFails && GoesOn(r.read, req) && StillOpen(r.read, r.tx, req) && LeasesStand(r.tx, req, g)
    ensures AnswerOf(rounds, req, g) == Taken(rounds[t].tx.revision + 1, g.granted)
  {
    FirstAnswers(rounds, req, g, t, Taken(rounds[t].tx.revision + 1, g.granted));
  }
}
