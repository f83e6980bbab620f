/**
 * Whole chains of restarts: every life starts and ends coherent, and what was live in one waits in the next,
 * refused everything, until it is revalidated.
 */
module RestartChain {
  import opened Ids
  import opened LedgerModel
  import opened LedgerRecords
  import opened LedgerPublications
  import opened CoordinatorModel
  import opened Evaluation
  import opened EvaluationProofs
  import opened CoordinatorRuns
  import opened CoordinatorCoherence
  import opened CoordinatorInvariant
  import opened CoordinatorEvolution
  import opened CoordinatorSafety
  import opened Restart
  import opened RestartProofs

  // ---------------------------------------------------------------------------------------------
  // What a coherent coordinator exports is sound
  // ---------------------------------------------------------------------------------------------

  lemma {:induction false} ExportedTerminalOk(l: Ledger, order: seq<Id>, max: nat)
    requires Structured(l)
    ensures AllOk(ExportTerminal(l, order, max))
    decreases |order|
  {
    if order == [] || max == 0 {
    } else {
      var id, rest := order[|order| - 1], order[..|order| - 1];
      if id in l.requests {
        assert At(id);
        ExportedTerminalOk(l, rest, max - 1);
      } else {
        ExportedTerminalOk(l, rest, max);
      }
    }
  }

  lemma ExportedOk(s: Fabric, d: Document)
    requires Coherent(s) && Exports(s, d)
    ensures AllOk(d.terminal) && AllOk(d.live)
  {
    LedgerView(s);
    ExportedTerminalOk(s.ledger, s.ledger.terminalOrder, s.config.ledger.maxRetained);
    forall i | 0 <= i < |d.live|
      ensures RecordOk(d.live[i].id, d.live[i])
    {
      assert At(d.live[i].id);
    }
  }

  // ---------------------------------------------------------------------------------------------
  // Coherence along a chain
  // ---------------------------------------------------------------------------------------------

  function Beginning(l: Life): Fabric { BootFrom(l.process, l.document, l.incarnation).fabric }

  /** A configured process, a real incarnation, and a run that mints distinct identities. */
  ghost predicate Conducted(l: Life) {
    Configured(l.process) && !l.incarnation.IsNil() && MintsDistinctly(Beginning(l), l.calls)
  }

  ghost predicate WellRun(b: Life) {
    forall l {:trigger Seen(l)} :: Seen(l) && l == b ==> Conducted(l)
  }

  ghost predicate WellRunAt(lives: seq<Life>, i: nat)
    requires i < |lives|
  {
    WellRun(lives[i])
  }

  /** A chain whose first life ends coherent and whose later lives are well run. */
  ghost predicate Sound(lives: seq<Life>) {
    && Lineage(lives) && lives != [] && Coherent(lives[0].end)
    && forall i | 0 < i < |lives| :: WellRunAt(lives, i)
  }

  lemma NextCoheres(a: Life, b: Life)
    requires Coherent(a.end) && Follows(a, b) && WellRun(b)
    ensures Coherent(Beginning(b)) && Booted(Beginning(b)) && Coherent(b.end)
  {
    assert Seen(b);
    ExportedOk(a.end, b.document);
    RestoredCoherent(b.process, b.document, b.incarnation);
    RunsCohere(Beginning(b), b.calls);
  }

  lemma ChainLink(lives: seq<Life>, i: nat)
    requires Sound(lives) && 0 < i < |lives|
    ensures Follows(lives[i - 1], lives[i]) && WellRun(lives[i])
  {
    assert FollowsAt(lives, i) && WellRunAt(lives, i);
  }

  lemma {:induction false} EndsCohere(lives: seq<Life>, i: nat)
    requires Sound(lives) && i < |lives|
    ensures Coherent(lives[i].end)
    decreases i
  {
    if i == 0 {
    } else {
      EndsCohere(lives, i - 1);
      ChainLink(lives, i);
      NextCoheres(lives[i - 1], lives[i]);
    }
  }

  /** Every life of a sound chain starts and ends coherent. */
  lemma LivesCohere(lives: seq<Life>, i: nat)
    requires Sound(lives) && i < |lives|
    ensures Coherent(lives[i].end)
    ensures i > 0 ==> Coherent(Beginning(lives[i])) && Booted(Beginning(lives[i]))
  {
    EndsCohere(lives, i);
    if i > 0 {
      EndsCohere(lives, i - 1);
      ChainLink(lives, i);
      NextCoheres(lives[i - 1], lives[i]);
    }
  }

  // ---------------------------------------------------------------------------------------------
  // Live requests along a chain
  // ---------------------------------------------------------------------------------------------

  lemma LiveComesBackWaiting(a: Life, b: Life, id: Id)
    requires Coherent(a.end) && Follows(a, b) && id in a.end.ledger.requests && !a.end.ledger.requests[id].IsTerminal()
    ensures Waiting(Beginning(b), id) && Beginning(b).ledger.requests[id].lifecycle.Interrupted?
  {
    assert Seen(b);
    LedgerView(a.end);
    assert At(id) && RecordOk(id, a.end.ledger.requests[id]);
    var i :| 0 <= i < |b.document.live| && b.document.live[i] == a.end.ledger.requests[id];
    LiveRequestsWait(b.process, b.document, b.incarnation, i);
  }

  lemma {:induction false} MintsPrefix(s: Fabric, calls: seq<Call>, k: nat)
    requires MintsDistinctly(s, calls) && k <= |calls|
    ensures MintsDistinctly(s, calls[..k])
    decreases k
  {
    if k == 0 {
    } else {
      MintsPrefix(Act(s, calls[0]), calls[1..], k - 1);
      assert calls[..k][1..] == calls[1..][..k - 1];
    }
  }

  /** No call of the run revalidates the request. */
  predicate Unnamed(calls: seq<Call>, id: Id) { forall i | 0 <= i < |calls| :: id !in Revalidates(calls[i]) }

  /** Nothing about the request is permitted or presented, and it holds no flow. */
  ghost predicate Refused(s: Fabric, id: Id) {
    && (forall q, now, choice :: SubjectOf(q).Serving? && SubjectOf(q).request == id ==>
          Evaluate(s, q, now, choice).1.verdict.Rejected?)
    && (forall d: Decision :: d.subject.Serving? && d.subject.request == id ==> !ValidateDecision(s, d).Ok?)
    && (forall f | f in s.book.flows && s.book.flows[f].owner.OfRequest? :: s.book.flows[f].owner.request != id)
  }

  lemma WaitingRefused(s: Fabric, id: Id)
    requires Coherent(s) && Waiting(s, id)
    ensures Refused(s, id)
  {
    forall q, now, choice | SubjectOf(q).Serving? && SubjectOf(q).request == id
      ensures Evaluate(s, q, now, choice).1.verdict.Rejected?
    {
      EvaluateRefinesFences(s, q, now, choice);
    }
    WaitingHoldsNoFlow(s, id);
  }

  /**
   * A request that is live at the end of one life is there at the start of the next, and in every state of
   * that life that retains it, up to the first revalidation that names it, it is refused everything.
   */
  lemma LiveRequestsAreRefusedUntilRevalidated(lives: seq<Life>, i: nat, id: Id, k: nat)
    requires Sound(lives) && i + 1 < |lives| && k <= |lives[i + 1].calls|
    requires id in lives[i].end.ledger.requests && !lives[i].end.ledger.requests[id].IsTerminal()
    requires Kept(Beginning(lives[i + 1]), lives[i + 1].calls[..k], id)
    requires Unnamed(lives[i + 1].calls[..k], id)
    ensures var s := ActAll(Beginning(lives[i + 1]), lives[i + 1].calls[..k]);
      Coherent(s) && Waiting(s, id) && Refused(s, id)
  {
    LivesCohere(lives, i);
    ChainLink(lives, i + 1);
    LiveIsRefused(lives[i], lives[i + 1], id, k);
  }

  lemma LiveIsRefused(a: Life, b: Life, id: Id, k: nat)
    requires Coherent(a.end) && Follows(a, b) && WellRun(b) && k <= |b.calls|
    requires id in a.end.ledger.requests && !a.end.ledger.requests[id].IsTerminal()
    requires Kept(Beginning(b), b.calls[..k], id) && Unnamed(b.calls[..k], id)
    ensures var s := ActAll(Beginning(b), b.calls[..k]); Coherent(s) && Waiting(s, id) && Refused(s, id)
  {
    NextCoheres(a, b);
    LiveComesBackWaiting(a, b, id);
    MintsInLife(b);
    MintsPrefix(Beginning(b), b.calls, k);
    WaitingStays(Beginning(b), b.calls[..k], id);
    WaitingRefused(ActAll(Beginning(b), b.calls[..k]), id);
  }

  lemma MintsInLife(b: Life)
    requires WellRun(b)
    ensures MintsDistinctly(Beginning(b), b.calls)
  {
    assert Seen(b);
  }

  // ---------------------------------------------------------------------------------------------
  // Registrations along a chain
  // ---------------------------------------------------------------------------------------------

  /** The registration is there under its old number, and nothing can be bound to it. */
  predicate Withheld(m: map<Word64, Registration>, h: Word64, g: Generation) {
    Unconfirmed(m, h, g) && RequireGeneration(m, h) == Failure(RevalidationRequired)
  }

  lemma RegistriesComeBack(a: Life, b: Life)
    requires Follows(a, b)
    ensures var s := Beginning(b);
      && s.models == (map h | h in a.end.models :: Registration(a.end.models[h].generation, true))
      && s.states == (map h | h in a.end.states :: Registration(a.end.states[h].generation, true))
  {
    assert Seen(b);
    RestoredShape(b.process, b.document, b.incarnation);
    RegistryComesBack(a.end.models, b.document.models);
    RegistryComesBack(a.end.states, b.document.states);
  }

  /** A registration of one life keeps its number in the next, and is withheld there until it is confirmed. */
  lemma RegistrationsAreWithheldUntilConfirmed(lives: seq<Life>, i: nat, h: Word64, k: nat)
    requires Lineage(lives) && i + 1 < |lives| && k <= |lives[i + 1].calls|
    requires Unconfirming(lives[i + 1].calls[..k], h)
    ensures var s := ActAll(Beginning(lives[i + 1]), lives[i + 1].calls[..k]);
      && (h in lives[i].end.models ==> Withheld(s.models, h, lives[i].end.models[h].generation))
      && (h in lives[i].end.states ==> Withheld(s.states, h, lives[i].end.states[h].generation))
  {
    var a, b := lives[i], lives[i + 1];
    assert FollowsAt(lives, i + 1);
    RegistriesComeBack(a, b);
    if h in a.end.models { UnconfirmedStays(Beginning(b), b.calls[..k], h, a.end.models[h].generation); }
    if h in a.end.states { UnconfirmedStays(Beginning(b), b.calls[..k], h, a.end.states[h].generation); }
  }

  predicate Unconfirming(calls: seq<Call>, h: Word64) { forall i | 0 <= i < |calls| :: !Confirms(calls[i], h) }

  // ---------------------------------------------------------------------------------------------
  // Endings along a chain
  // ---------------------------------------------------------------------------------------------

  /** Every ended record is exported. */
  lemma EndedIsExported(s: Fabric, d: Document, id: Id)
    requires Coherent(s) && Exports(s, d) && id in s.ledger.requests && s.ledger.requests[id].IsTerminal()
    ensures exists i :: 0 <= i < |d.terminal| && d.terminal[i] == s.ledger.requests[id]
  {
    LedgerView(s);
    LimitsView(s);
    var l := s.ledger;
    assert At(id);
    ExportNewestFirst(l, l.terminalOrder, s.config.ledger.maxRetained);
    SurvivingHas(l.terminalOrder, l.requests, id);
    var kept := Surviving(l.terminalOrder, l.requests);
    var k :| 0 <= k < |kept| && kept[k] == id;
    var i := |kept| - 1 - k;
    assert IdSeq(d.terminal)[i] == Reversed(kept)[i] == id;
    assert d.terminal[i].id == id;
  }

  /** An ended record that the next life starts with is the record the last life ended with. */
  lemma EndingComesBack(a: Life, b: Life, id: Id)
    requires Coherent(a.end) && Follows(a, b)
    requires id in a.end.ledger.requests && a.end.ledger.requests[id].IsTerminal()
    ensures var requests := Beginning(b).ledger.requests;
      id in requests ==> requests[id] == Closed(a.end.ledger.requests[id])
  {
    assert Seen(b);
    EndedIsExported(a.end, b.document, id);
    var i :| 0 <= i < |b.document.terminal| && b.document.terminal[i] == a.end.ledger.requests[id];
    LedgerView(a.end);
    assert At(id);
    EndedRecordsComeBack(b.process, b.document, b.incarnation, i);
  }

  /** No export is longer than the ceiling, and its two lists are the ended and the live. */
  lemma ExportSeparates(s: Fabric, d: Document, t: Fabric, incarnation: Id)
    requires Coherent(s) && Exports(s, d) && BootFrom(t, d, incarnation).result.Success?
    ensures Ended(d.terminal) && (forall i | 0 <= i < |d.live| :: !d.live[i].IsTerminal())
    ensures |d.terminal| <= s.config.ledger.maxRetained
  {
    LedgerView(s);
    LimitsView(s);
    var l := s.ledger;
    RecoveryIsAllOrNothing(t, d, incarnation);
    RequestsListedExactly(s, d);
    BootableMeaning(l.terminalOrder, l.requests);
    ExportNewestFirst(l, l.terminalOrder, s.config.ledger.maxRetained);
    TerminalListed(l, Surviving(l.terminalOrder, l.requests), d.terminal);
    assert |IdSeq(d.terminal)| == |d.terminal|;
  }

  /** A process that may retain as many loses none of them. */
  lemma EndingIsRetained(a: Life, b: Life, id: Id)
    requires Coherent(a.end) && Follows(a, b)
    requires id in a.end.ledger.requests && a.end.ledger.requests[id].IsTerminal()
    requires a.end.config.ledger.maxRetained <= b.process.ledger.limits.maxRetained
    ensures id in Beginning(b).ledger.requests
  {
    assert Seen(b);
    EndedIsExported(a.end, b.document, id);
    var i :| 0 <= i < |b.document.terminal| && b.document.terminal[i] == a.end.ledger.requests[id];
    LedgerView(a.end);
    assert At(id);
    ExportSeparates(a.end, b.document, b.process, b.incarnation);
    EndedRecordsAreRetained(b.process, b.document, b.incarnation);
  }

  /**
   * Along any chain, a request that was completed, cancelled or failed when one life ended is so, in the same
   * words, when the next begins; it is there whenever the next process may retain as many.
   */
  lemma EndingsSurviveRestarts(lives: seq<Life>, i: nat, id: Id)
    requires Sound(lives) && i + 1 < |lives|
    requires id in lives[i].end.ledger.requests && lives[i].end.ledger.requests[id].IsTerminal()
    ensures var requests := Beginning(lives[i + 1]).ledger.requests;
      && (id in requests ==> requests[id] == Closed(lives[i].end.ledger.requests[id]))
      && (lives[i].end.config.ledger.maxRetained <= lives[i + 1].process.ledger.limits.maxRetained ==> id in requests)
  {
    LivesCohere(lives, i);
    ChainLink(lives, i + 1);
    EndingComesBack(lives[i], lives[i + 1], id);
    if lives[i].end.config.ledger.maxRetained <= lives[i + 1].process.ledger.limits.maxRetained {
      EndingIsRetained(lives[i], lives[i + 1], id);
    }
  }

  /** So a completion published again after the restart is suppressed, and not committed twice. */
  lemma RepeatsAreSuppressedAfterRestart(lives: seq<Life>, i: nat, p: Publication, now: int)
    requires Sound(lives) && i + 1 < |lives| && !p.request.IsNil() && !p.attempt.IsNil()
    requires p.request in lives[i].end.ledger.requests && p.request in Beginning(lives[i + 1]).ledger.requests
    requires var r := lives[i].end.ledger.requests[p.request]; r.lifecycle.Completed? && NamesAttempt(r, p)
    ensures var l := Beginning(lives[i + 1]).ledger;
      var out := LedgerModel.PublishCompletion(l, p, now);
      && out.result.Success? && out.result.value.disposition.DuplicateSuppressed?
      && out.ledger == l.(account := l.account.(suppressed := l.account.suppressed + 1))
  {
    EndingsSurviveRestarts(lives, i, p.request);
    PublicationExactly(Beginning(lives[i + 1]).ledger, p, now);
  }
}
