/** Traffic classes, serving stages and the stage machine (src/traffic.cpp). */
module Traffic {

  datatype TrafficClass =
    | ClassUnknown | RequestIngress | PrefillInput | PrefillDecodeHandoff | KvTransfer | StateTransfer
    | ModelTransfer | AdapterTransfer | DecodeStream | SpeculativeBranch | ResponseEgress | Control

  datatype Stage =
    | StageUnknown | Admitted | Routing | PrefillQueued | PrefillRunning | HandoffPending | DecodeQueued
    | DecodeRunning | Streaming | StageCompleting | StageCompleted | StageCancelled | StageFailed

  function ClassIndex(c: TrafficClass): (i: nat)
    ensures i < 12
  {
    match c
    case ClassUnknown => 0 case RequestIngress => 1 case PrefillInput => 2
    case PrefillDecodeHandoff => 3 case KvTransfer => 4 case StateTransfer => 5
    case ModelTransfer => 6 case AdapterTransfer => 7 case DecodeStream => 8
    case SpeculativeBranch => 9 case ResponseEgress => 10 case Control => 11
  }

  lemma ClassIndexInjective(c: TrafficClass, d: TrafficClass)
    requires ClassIndex(c) == ClassIndex(d)
    ensures c == d
  {
  }

  function StageIndex(s: Stage): (i: nat)
    ensures i < 13
  {
    match s
    case StageUnknown => 0 case Admitted => 1 case Routing => 2 case PrefillQueued => 3
    case PrefillRunning => 4 case HandoffPending => 5 case DecodeQueued => 6 case DecodeRunning => 7
    case Streaming => 8 case StageCompleting => 9 case StageCompleted => 10
    case StageCancelled => 11 case StageFailed => 12
  }

  predicate StageTerminal(s: Stage) { s.StageCompleted? || s.StageCancelled? || s.StageFailed? }

  predicate ServingActive(s: Stage) { !s.StageUnknown? && !StageTerminal(s) }

  predicate LegalTransition(from: Stage, to: Stage) {
    if to.StageUnknown? then false
    else if from == to then true
    else if StageTerminal(from) then false
    else
      match from
      case StageUnknown => to.Admitted?
      case Admitted =>
        to.Routing? || to.PrefillQueued? || to.DecodeQueued? || to.StageCancelled? || to.StageFailed?
      case Routing => to.PrefillQueued? || to.DecodeQueued? || to.StageCancelled? || to.StageFailed?
      case PrefillQueued => to.PrefillRunning? || to.StageCancelled? || to.StageFailed?
      case PrefillRunning =>
        to.HandoffPending? || to.DecodeQueued? || to.StageCancelled? || to.StageFailed?
      case HandoffPending =>
        to.DecodeQueued? || to.DecodeRunning? || to.StageCancelled? || to.StageFailed?
      case DecodeQueued => to.DecodeRunning? || to.StageCancelled? || to.StageFailed?
      case DecodeRunning =>
        to.Streaming? || to.StageCompleting? || to.StageCancelled? || to.StageFailed?
      case Streaming => to.StageCompleting? || to.StageCancelled? || to.StageFailed?
      case StageCompleting => to.StageCompleted? || to.StageCancelled? || to.StageFailed?
      case StageCompleted => false
      case StageCancelled => false
      case StageFailed => false
  }

  function CanonicalClass(s: Stage): TrafficClass {
    match s
    case Admitted => RequestIngress
    case Routing => RequestIngress
    case PrefillQueued => PrefillInput
    case PrefillRunning => PrefillInput
    case HandoffPending => PrefillDecodeHandoff
    case DecodeQueued => PrefillDecodeHandoff
    case DecodeRunning => DecodeStream
    case Streaming => DecodeStream
    case StageCompleting => ResponseEgress
    case _ => ClassUnknown
  }

  predicate ClassLegal(c: TrafficClass, s: Stage) {
    if c.Control? then ServingActive(s)
    else
      match s
      case Admitted => c.RequestIngress?
      case Routing => c.RequestIngress?
      case PrefillQueued => c.PrefillInput?
      case PrefillRunning => c.PrefillInput?
      case HandoffPending => c.PrefillDecodeHandoff? || c.KvTransfer? || c.StateTransfer?
      case DecodeQueued => c.PrefillDecodeHandoff? || c.KvTransfer?
      case DecodeRunning => c.KvTransfer? || c.DecodeStream? || c.SpeculativeBranch?
      case Streaming => c.DecodeStream? || c.SpeculativeBranch? || c.ResponseEgress?
      case StageCompleting => c.ResponseEgress?
      case _ => false
  }

  predicate TransferClass(c: TrafficClass) {
    c.KvTransfer? || c.StateTransfer? || c.ModelTransfer? || c.AdapterTransfer?
  }
}
