/**
 * When a publication commits, when it is suppressed as a repeat, and when it is refused (src/ledger.cpp):
 * three conditions a caller can check, and what each leaves in the ledger.
 */
module LedgerPublications {
  import opened Ids
  import opened Traffic
  import opened Reasons
  import opened LedgerModel
  import opened LedgerRecords

  /** The publication names a bound attempt, under its own generation or under none. */
  predicate NamesAttempt(r: Request, p: Publication) {
    var i := Find(r.attempts, p.attempt);
    i >= 0 && (p.attemptGeneration == 0 || p.attemptGeneration == r.attempts[i].generation)
  }

  function NamedAttempt(r: Request, p: Publication): Attempt
    requires NamesAttempt(r, p)
  {
    r.attempts[Find(r.attempts, p.attempt)]
  }

  /** Replaced, failed or cancelled: it may publish nothing any more. */
  predicate Withdrawn(a: Attempt) {
    a.lifecycle.AttemptSuperseded? || a.lifecycle.AttemptFailed? || a.lifecycle.AttemptCancelled?
  }

  /** This outcome of the attempt has been published before. */
  predicate Published(a: Attempt, success: bool) {
    (success && a.successPublished) || (!success && a.failurePublished)
  }

  predicate Committable(r: Request, p: Publication) {
    && NamesAttempt(r, p) && !r.IsTerminal()
    && !Withdrawn(NamedAttempt(r, p)) && !Published(NamedAttempt(r, p), p.success)
  }

  predicate Repeated(r: Request, p: Publication) {
    && NamesAttempt(r, p)
    && (r.lifecycle.Completed?
        || (!r.IsTerminal() && !Withdrawn(NamedAttempt(r, p)) && Published(NamedAttempt(r, p), p.success)))
  }

  /** The code and the reason of a refusal say what is wrong. */
  predicate Explained(r: Request, p: Publication, code: Status, reason: Reason) {
    var i := Find(r.attempts, p.attempt);
    || (code.StaleGeneration? && reason == REJECTED_UNKNOWN_ATTEMPT && i < 0)
    || (code.StaleGeneration? && reason == REJECTED_STALE_ATTEMPT && i >= 0
        && (!NamesAttempt(r, p) || r.attempts[i].lifecycle.AttemptSuperseded?))
    || (code == Status.Cancelled && reason == REJECTED_REQUEST_CANCELLED && i >= 0
        && (r.lifecycle.Cancelled? || r.attempts[i].lifecycle.AttemptCancelled?))
    || (code.Conflict? && reason == REJECTED_REQUEST_TERMINAL && r.lifecycle.Failed?)
    || (code.Conflict? && reason == ATTEMPT_FAILED && i >= 0 && r.attempts[i].lifecycle.AttemptFailed?)
  }

  /** A publication about a known request is committed, suppressed or refused, each exactly when it should be. */
  lemma PublicationExactly(s: Ledger, p: Publication, now: int)
    requires !p.request.IsNil() && !p.attempt.IsNil() && p.request in s.requests
    ensures var r := s.requests[p.request];
      var out := PublishCompletion(s, p, now);
      && out.result.Success?
      && (out.result.value.disposition.Committed? <==> Committable(r, p))
      && (out.result.value.disposition.DuplicateSuppressed? <==> Repeated(r, p))
      && (Repeated(r, p) ==>
            && out.result.value.refusal.Ok? && out.result.value.reason == DUPLICATE_COMPLETION_SUPPRESSED
            && out.ledger == s.(account := s.account.(suppressed := s.account.suppressed + 1)))
      && (!Committable(r, p) && !Repeated(r, p) ==>
            && out.result.value.disposition.PublishRefused?
            && Explained(r, p, out.result.value.refusal, out.result.value.reason)
            && out.ledger == s.(account := s.account.(refused := s.account.refused + 1)))
  {
  }

  /** One about no request, or an unknown one, changes nothing. */
  lemma UnknownPublication(s: Ledger, p: Publication, now: int)
    requires p.request.IsNil() || p.attempt.IsNil() || p.request !in s.requests
    ensures PublishCompletion(s, p, now) ==
      Outcome(s, Failure(if p.request.IsNil() || p.attempt.IsNil() then InvalidArgument else NotFound))
  {
  }

  // ---------------------------------------------------------------------------------------------
  // What a commit leaves
  // ---------------------------------------------------------------------------------------------

  /** The named attempt has ended as published; the others are as they were. */
  predicate AttemptsCommitted(before: seq<Attempt>, after: seq<Attempt>, i: nat, p: Publication, now: int)
    requires i < |before|
  {
    && |after| == |before| && (forall j | 0 <= j < |before| && j != i :: after[j] == before[j])
    && var a, a' := before[i], after[i];
       && a'.lifecycle == (if p.success then AttemptCompleted else AttemptFailed)
       && a'.stage == (if p.success then StageCompleted else StageFailed)
       && a'.successPublished == (a.successPublished || p.success)
       && a'.failurePublished == (a.failurePublished || !p.success)
       && a.bytesIn <= a'.bytesIn && p.bytesIn <= a'.bytesIn && a'.bytesIn in {a.bytesIn, p.bytesIn}
       && a.bytesOut <= a'.bytesOut && p.bytesOut <= a'.bytesOut && a'.bytesOut in {a.bytesOut, p.bytesOut}
       && a' == a.(lifecycle := a'.lifecycle, stage := a'.stage, successPublished := a'.successPublished,
                   failurePublished := a'.failurePublished, bytesIn := a'.bytesIn, bytesOut := a'.bytesOut,
                   reason := if p.success then a.reason
                             else if p.reason == UNKNOWN then ATTEMPT_FAILED else p.reason,
                   updatedAt := now)
  }

  /** The request has ended as published, with the larger of the recorded and the published totals. */
  predicate RecordCommitted(r: Request, r': Request, p: Publication, now: int)
    requires NamesAttempt(r, p)
  {
    && AttemptsCommitted(r.attempts, r'.attempts, Find(r.attempts, p.attempt), p, now)
    && r'.lifecycle == (if p.success then Completed else Failed)
    && r'.stage == (if p.success then StageCompleted else StageFailed)
    && r'.reason == (if p.success then COMMITTED_COMPLETION
                     else if p.reason == UNKNOWN then ATTEMPT_FAILED else p.reason)
    && r.bytesIn <= r'.bytesIn && p.bytesIn <= r'.bytesIn && r'.bytesIn in {r.bytesIn, p.bytesIn}
    && r.bytesOut <= r'.bytesOut && p.bytesOut <= r'.bytesOut && r'.bytesOut in {r.bytesOut, p.bytesOut}
    && r' == r.(attempts := r'.attempts, lifecycle := r'.lifecycle, stage := r'.stage, reason := r'.reason,
                bytesIn := r'.bytesIn, bytesOut := r'.bytesOut, terminalAt := now, activeFlows := 0,
                accountingClosed := true)
  }

  /** The counters of endings: which one moves, and that no other does. */
  predicate CountsEnding(a: Account, a': Account, completed: nat, cancelled: nat, failed: nat) {
    && a'.completed == a.completed + completed && a'.cancelled == a.cancelled + cancelled
    && a'.failed == a.failed + failed && a'.registered == a.registered && a'.interrupted == a.interrupted
  }

  lemma {:induction false} EvictCounts(s: Ledger)
    ensures CountsEnding(s.account, Evict(s).account, 0, 0, 0)
    ensures var a, a' := s.account, Evict(s).account;
      && a'.attemptsRegistered == a.attemptsRegistered && a'.attemptsCompleted == a.attemptsCompleted
      && a'.attemptsFailed == a.attemptsFailed && a'.attemptsSuperseded == a.attemptsSuperseded
      && a'.committed == a.committed && a'.suppressed == a.suppressed && a'.refused == a.refused
    decreases |s.terminalOrder|
  {
    if |s.terminalOrder| <= s.limits.maxRetained {
    } else {
      var victim := s.terminalOrder[0];
      var popped := s.(terminalOrder := s.terminalOrder[1..]);
      if victim in s.requests && s.requests[victim].IsTerminal() {
        EvictCounts(popped.(requests := s.requests - {victim},
                            account := s.account.(evicted := s.account.evicted + 1)));
      } else {
        EvictCounts(popped);
      }
    }
  }

  /** A commit ends the request as published, tells the caller the totals, and touches no other record. */
  lemma CommitLeaves(s: Ledger, p: Publication, now: int)
    requires !p.request.IsNil() && !p.attempt.IsNil() && p.request in s.requests
    requires Committable(s.requests[p.request], p)
    ensures var r := s.requests[p.request];
      var out := PublishCompletion(s, p, now);
      && (forall id | id in out.ledger.requests && id != p.request ::
            id in s.requests && out.ledger.requests[id] == s.requests[id])
      && (p.request in out.ledger.requests ==> RecordCommitted(r, out.ledger.requests[p.request], p, now))
      && CountsEnding(s.account, out.ledger.account, if p.success then 1 else 0, 0, if p.success then 0 else 1)
      && out.ledger.account.committed == s.account.committed + (if p.success then 1 else 0)
      && out.ledger.account.attemptsCompleted == s.account.attemptsCompleted + (if p.success then 1 else 0)
      && out.ledger.account.attemptsFailed == s.account.attemptsFailed + (if p.success then 0 else 1)
      && out.result == Success(
           if p.success then PublishOutcome(Committed, Ok, COMMITTED_COMPLETION, p.bytesIn, p.bytesOut, r.activeFlows)
           else PublishOutcome(Committed, Ok, ATTEMPT_FAILED, 0, 0, 0))
  {
    var r := s.requests[p.request];
    var i := Find(r.attempts, p.attempt);
    var r', account := CommittedRecord(r, i, p, now), CommitAccount(s.account, p.success);
    EndRecords(s, p.request, r', account);
    EndCounts(s, p.request, r', account);
    CommittedIs(r, p, now);
  }

  lemma EndCounts(s: Ledger, id: Id, r: Request, account: Account)
    ensures CountsEnding(account, End(s, id, r, account).account, 0, 0, 0)
    ensures var a' := End(s, id, r, account).account;
      && a'.attemptsRegistered == account.attemptsRegistered && a'.attemptsCompleted == account.attemptsCompleted
      && a'.attemptsFailed == account.attemptsFailed && a'.attemptsSuperseded == account.attemptsSuperseded
      && a'.committed == account.committed && a'.suppressed == account.suppressed && a'.refused == account.refused
  {
    var released := ReleaseRequestFlows(s, id, r);
    EvictCounts(released.(terminalOrder := released.terminalOrder + [id],
                          account := account.(activeTotal := released.account.activeTotal,
                                              activeByClass := released.account.activeByClass)));
  }

  lemma CommittedIs(r: Request, p: Publication, now: int)
    requires NamesAttempt(r, p)
    ensures RecordCommitted(r, Closed(CommittedRecord(r, Find(r.attempts, p.attempt), p, now)), p, now)
  {
  }
}
