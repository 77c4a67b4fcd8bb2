/** When an acceptance is a new delivery, when it supersedes one, and when it is a repeat. */
module LedgerAnswers {
  import opened Common
  import opened Ledger
  import opened LedgerChains

  /** The identity is on record, and last accepted less than a window before. */
  predicate InReplay(t: Tables, params: Params) {
    params.key in t.identities && params.receivedAt - t.identities[params.key].acceptedAt < params.window
  }

  /** Some hand-off of the delivery is undecided, and no record decides it. */
  ghost predicate Unaccounted(t: Tables, d: nat)
    requires d < |t.deliveries|
  {
    exists p :: p in t.deliveries[d].handoffs && Undecided(t.deliveries[d].handoffs[p]) && !Named(t, d, p)
  }

  /** The delivery is dropped, or to be: it is open, its process is gone, and something of it was never decided. */
  ghost predicate Abandoned(t: Tables, d: nat, alive: bool)
    requires d < |t.deliveries|
  {
    var state := t.deliveries[d].state;
    state.DDropped? || ((state.DAccepted? || state.DWaiting?) && !alive && Unaccounted(t, d))
  }

  /** An acceptance recorded one delivery more, as offered. */
  predicate Recorded(t: Tables, t': Tables, params: Params, supersedes: Option<nat>) {
    && |t'.deliveries| == |t.deliveries| + 1
    && t'.identities == t.identities[params.key := Identity(|t.deliveries|, params.receivedAt)]
    && var row := Last(t'.deliveries);
       && row.key == params.key && row.receivedAt == params.receivedAt && row.instance == params.instance
       && row.supersedes == supersedes && row.state.DAccepted?
       && forall p :: p in row.handoffs ==> p in params.playbooks && row.handoffs[p].Pending?
  }

  /** Its repeats went up by one, and nothing was recorded. */
  predicate Repeated(t: Tables, t': Tables, d: nat)
    requires d < |t.deliveries|
  {
    && t'.identities == t.identities && |t'.deliveries| == |t.deliveries| && t'.deliveries[d].repeats == t.deliveries[d].repeats + 1
  }

  /** No playbook is listed twice, but for those decided. */
  predicate OnceLeft(playbooks: seq<Playbook>, decided: set<Playbook>) {
    forall a, b :: 0 <= a < b < |playbooks| && playbooks[a] == playbooks[b] ==> playbooks[a] in decided
  }

  lemma TwiceAppends(s: seq<Playbook>, p: Playbook)
    ensures NoneTwice(s + [p]) <==> NoneTwice(s) && p !in s
  {
    var more := s + [p];
    assert forall k :: 0 <= k < |s| ==> more[k] == s[k];
    if p in s {
      var k :| 0 <= k < |s| && s[k] == p;
      assert more[k] == more[|s|];
    }
  }

  lemma OnceAppends(s: seq<Playbook>, p: Playbook, decided: set<Playbook>)
    ensures OnceLeft(s + [p], decided) <==> OnceLeft(s, decided) && (p in decided || p !in s)
  {
    var more := s + [p];
    assert forall k :: 0 <= k < |s| ==> more[k] == s[k];
    if p in s {
      var k :| 0 <= k < |s| && s[k] == p;
      assert more[k] == more[|s|];
    }
  }

  lemma {:induction false} WithoutOnce(playbooks: seq<Playbook>, decided: set<Playbook>)
    ensures NoneTwice(Without(playbooks, decided)) <==> OnceLeft(playbooks, decided)
  {
    if playbooks != [] {
      var n := |playbooks| - 1;
      WithoutOnce(playbooks[..n], decided);
      assert playbooks == playbooks[..n] + [playbooks[n]];
      OnceAppends(playbooks[..n], playbooks[n], decided);
      TwiceAppends(Without(playbooks[..n], decided), playbooks[n]);
    }
  }

  /** Judged once within the window: reconciled where that is due, and dropped exactly if abandoned. */
  lemma JudgedDropped(t: Tables, params: Params, alive: bool, rows: seq<Playbook>)
    requires Linked(t) && InReplay(t, params) && RowsOf(t.deliveries[t.identities[params.key].id].handoffs, rows)
    ensures
      var id, r := t.identities[params.key].id, Judge(t, t.identities[params.key].id, params, alive, rows);
      && r.0.identities == t.identities
      && (r.1 == if Abandoned(t, id, alive) then Supersedes else Repeats)
      && r.0.deliveries[id] == t.deliveries[id].(handoffs := r.0.deliveries[id].handoffs, state := r.0.deliveries[id].state)
  {
    ReconcileSettles(t, t.identities[params.key].id, rows);
  }

  /**
   * A well-formed acceptance is a new delivery that supersedes nothing exactly if its identity is not
   * on record or was last accepted a window ago; within the window it supersedes the delivery on record
   * exactly if that was abandoned, and is counted as its repeat otherwise.
   */
  lemma AcceptExactly(t: Tables, params: Params, alive: bool, rows: seq<Playbook>)
    requires Linked(t) && params.receivedAt != 0 && NoneTwice(params.playbooks)
    requires params.key in t.identities ==> RowsOf(t.deliveries[t.identities[params.key].id].handoffs, rows)
    ensures
      var (t', answer) := Accept(t, params, alive, rows);
      if !InReplay(t, params) then
        answer == New(|t.deliveries|) && Recorded(t, t', params, None)
        && Last(t'.deliveries).handoffs.Keys == set p | p in params.playbooks
      else
        var id := t.identities[params.key].id;
        if Abandoned(t, id, alive) then answer == New(|t.deliveries|) && Recorded(t, t', params, Some(id))
        else answer == RepeatOf(id) && Repeated(t, t', id)
  {
    if InReplay(t, params) {
      var id := t.identities[params.key].id;
      JudgeLinks(t, id, params, alive, rows);
      JudgedDropped(t, params, alive, rows);
      if Abandoned(t, id, alive) {
        WithoutOnce(params.playbooks, ChainDecisions(Judge(t, id, params, alive, rows).0, id));
      }
    }
  }

  /** The playbooks an acceptance that judges `id` leaves out of a retry. */
  ghost function LeftOut(t: Tables, params: Params, alive: bool, rows: seq<Playbook>): set<Playbook>
    requires Linked(t) && InReplay(t, params) && RowsOf(t.deliveries[t.identities[params.key].id].handoffs, rows)
  {
    set p | p in params.playbooks && DecidedInChain(Judged(t, params, alive, rows).deliveries, t.identities[params.key].id, p)
  }

  /** An acceptance fails, and leaves everything, exactly if it has no instant or would hand one playbook its delivery twice. */
  lemma FailsExactly(t: Tables, params: Params, alive: bool, rows: seq<Playbook>)
    requires Linked(t)
    requires params.key in t.identities ==> RowsOf(t.deliveries[t.identities[params.key].id].handoffs, rows)
    ensures
      var (t', answer) := Accept(t, params, alive, rows);
      && (answer.Failed? ==> t' == t)
      && (answer.Failed? <==>
            || params.receivedAt == 0
            || (!InReplay(t, params) && !NoneTwice(params.playbooks))
            || (InReplay(t, params) && Abandoned(t, t.identities[params.key].id, alive)
                && !OnceLeft(params.playbooks, LeftOut(t, params, alive, rows))))
  {
    if InReplay(t, params) {
      var id := t.identities[params.key].id;
      JudgeLinks(t, id, params, alive, rows);
      JudgedDropped(t, params, alive, rows);
      var decided := ChainDecisions(Judge(t, id, params, alive, rows).0, id);
      WithoutOnce(params.playbooks, decided);
      assert OnceLeft(params.playbooks, decided) <==> OnceLeft(params.playbooks, LeftOut(t, params, alive, rows));
    }
  }
}
