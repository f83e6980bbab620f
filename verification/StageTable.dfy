/** The stage machine as a relation, and what every path through it visits (src/traffic.cpp). */
module StageTable {
  import opened Traffic

  /** The stages that may directly follow, apart from the stage itself. */
  function Followers(s: Stage): set<Stage> {
    match s
    case StageUnknown => {Admitted}
    case Admitted => {Routing, PrefillQueued, DecodeQueued, StageCancelled, StageFailed}
    case Routing => {PrefillQueued, DecodeQueued, StageCancelled, StageFailed}
    case PrefillQueued => {PrefillRunning, StageCancelled, StageFailed}
    case PrefillRunning => {HandoffPending, DecodeQueued, StageCancelled, StageFailed}
    case HandoffPending => {DecodeQueued, DecodeRunning, StageCancelled, StageFailed}
    case DecodeQueued => {DecodeRunning, StageCancelled, StageFailed}
    case DecodeRunning => {Streaming, StageCompleting, StageCancelled, StageFailed}
    case Streaming => {StageCompleting, StageCancelled, StageFailed}
    case StageCompleting => {StageCompleted, StageCancelled, StageFailed}
    case _ => {}
  }

  predicate MayFollow(from: Stage, to: Stage) { to in Followers(from) || (to == from && !to.StageUnknown?) }

  lemma TransitionsAreTable(from: Stage, to: Stage)
    ensures LegalTransition(from, to) <==> MayFollow(from, to)
  {
  }

  // ---------------------------------------------------------------------------------------------
  // Paths
  // ---------------------------------------------------------------------------------------------

  /** A sequence of stages in which each is a legal successor of the one before. */
  predicate Path(stages: seq<Stage>) {
    forall i | 0 < i < |stages| :: LegalTransition(stages[i - 1], stages[i])
  }

  /** One of the wanted stages comes before position `k`. */
  predicate Earlier(stages: seq<Stage>, k: nat, wanted: set<Stage>) {
    exists i :: 0 <= i < k <= |stages| && stages[i] in wanted
  }

  /** Stages past `Admitted` are reached only through it. */
  lemma {:induction false} StartsAdmitted(stages: seq<Stage>, k: nat)
    requires Path(stages) && k < |stages| && stages[0].StageUnknown? && !stages[k].StageUnknown?
    ensures exists i :: 0 <= i <= k && stages[i].Admitted?
    decreases k
  {
    assert LegalTransition(stages[k - 1], stages[k]);
    if stages[k - 1].StageUnknown? {
    } else {
      StartsAdmitted(stages, k - 1);
    }
  }

  /** Nothing is streamed unless decoding ran, and nothing decodes unless it was queued or handed over. */
  lemma {:induction false} StreamsAfterDecoding(stages: seq<Stage>, k: nat)
    requires Path(stages) && k < |stages| && stages[0].StageUnknown? && stages[k].Streaming?
    ensures Earlier(stages, k, {DecodeRunning})
    decreases k
  {
    assert LegalTransition(stages[k - 1], stages[k]);
    if stages[k - 1].Streaming? { StreamsAfterDecoding(stages, k - 1); }
  }

  lemma {:induction false} DecodesAfterQueue(stages: seq<Stage>, k: nat)
    requires Path(stages) && k < |stages| && stages[0].StageUnknown? && stages[k].DecodeRunning?
    ensures Earlier(stages, k, {DecodeQueued, HandoffPending})
    decreases k
  {
    assert LegalTransition(stages[k - 1], stages[k]);
    if stages[k - 1].DecodeRunning? { DecodesAfterQueue(stages, k - 1); }
  }

  /** Completion is reached only from completing, and completing only from decoding or streaming. */
  lemma {:induction false} CompletesAfterDecoding(stages: seq<Stage>, k: nat)
    requires Path(stages) && k < |stages| && stages[0].StageUnknown?
    requires stages[k].StageCompleting? || stages[k].StageCompleted?
    ensures Earlier(stages, k, {DecodeRunning})
    decreases k
  {
    assert LegalTransition(stages[k - 1], stages[k]);
    if stages[k - 1].Streaming? {
      StreamsAfterDecoding(stages, k - 1);
    } else if !stages[k - 1].DecodeRunning? {
      CompletesAfterDecoding(stages, k - 1);
    }
  }

  /** An ended stage is never left. */
  lemma {:induction false} EndedStagesStay(stages: seq<Stage>, j: nat, k: nat)
    requires Path(stages) && j <= k < |stages| && StageTerminal(stages[j])
    ensures stages[k] == stages[j]
    decreases k
  {
    if j < k {
      EndedStagesStay(stages, j, k - 1);
      assert LegalTransition(stages[k - 1], stages[k]);
    }
  }

  // ---------------------------------------------------------------------------------------------
  // Classes
  // ---------------------------------------------------------------------------------------------

  /** What may be sent on each stage, control traffic aside. */
  function Carries(s: Stage): set<TrafficClass> {
    match s
    case Admitted => {RequestIngress}
    case Routing => {RequestIngress}
    case PrefillQueued => {PrefillInput}
    case PrefillRunning => {PrefillInput}
    case HandoffPending => {PrefillDecodeHandoff, KvTransfer, StateTransfer}
    case DecodeQueued => {PrefillDecodeHandoff, KvTransfer}
    case DecodeRunning => {KvTransfer, DecodeStream, SpeculativeBranch}
    case Streaming => {DecodeStream, SpeculativeBranch, ResponseEgress}
    case StageCompleting => {ResponseEgress}
    case _ => {}
  }

  lemma ClassesAreTable(c: TrafficClass, s: Stage)
    ensures ClassLegal(c, s) <==> c in Carries(s) || (c.Control? && ServingActive(s))
    ensures ServingActive(s) ==> CanonicalClass(s) in Carries(s)
    ensures CanonicalClass(s) ==
      if s in {Admitted, Routing} then RequestIngress
      else if s in {PrefillQueued, PrefillRunning} then PrefillInput
      else if s in {HandoffPending, DecodeQueued} then PrefillDecodeHandoff
      else if s in {DecodeRunning, Streaming} then DecodeStream
      else if s == StageCompleting then ResponseEgress
      else ClassUnknown
  {
  }
}
