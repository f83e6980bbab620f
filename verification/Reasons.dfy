/** The stable reason codes of include/itf/decision.hpp that the modelled code emits. */
module Reasons {
  type Reason = r: int | 0 <= r < 50

  const UNKNOWN: Reason := 0
  const ADMITTED: Reason := 1
  const ADMITTED_STARVATION_GUARD: Reason := 2
  const ADMITTED_CONSERVATIVE: Reason := 3
  const DEGRADED_STAGE_CLAIM_OVERRIDDEN: Reason := 4
  const DEGRADED_CLASS_REDERIVED: Reason := 5
  const DEGRADED_STALE_TOPOLOGY: Reason := 6
  const DEGRADED_MISSING_SLO_CONTRACT: Reason := 7
  const DEGRADED_PRIORITY_LOWERED: Reason := 9
  const DEFERRED_CONGESTION: Reason := 11
  const DEFERRED_BULK_YIELD: Reason := 12
  const DEFERRED_BULK_CAPACITY: Reason := 13
  const REJECTED_UNKNOWN_REQUEST: Reason := 15
  const REJECTED_UNKNOWN_ATTEMPT: Reason := 16
  const REJECTED_REQUEST_CANCELLED: Reason := 17
  const REJECTED_REQUEST_TERMINAL: Reason := 18
  const REJECTED_STALE_ATTEMPT: Reason := 19
  const REJECTED_STALE_REQUEST_GENERATION: Reason := 20
  const REJECTED_STALE_ROUTE_DECISION: Reason := 21
  const REJECTED_STALE_MODEL_GENERATION: Reason := 22
  const REJECTED_STALE_STATE_GENERATION: Reason := 23
  const REJECTED_STALE_SLO_CONTRACT: Reason := 24
  const REJECTED_STALE_TOPOLOGY_GENERATION: Reason := 25
  const REJECTED_STALE_POLICY_GENERATION: Reason := 26
  const REJECTED_STALE_EPOCH: Reason := 27
  const REJECTED_UNKNOWN_STAGE: Reason := 29
  const REJECTED_UNKNOWN_CLASS: Reason := 30
  const REJECTED_CLASS_NOT_LEGAL_FOR_STAGE: Reason := 31
  const REJECTED_CLASS_DISABLED: Reason := 32
  const REJECTED_SUBJECT_KIND_MISMATCH: Reason := 33
  const REJECTED_UNKNOWN_TRANSFER: Reason := 34
  const REJECTED_EVIDENCE_UNKNOWN: Reason := 35
  const REJECTED_EVIDENCE_STALE: Reason := 36
  const REJECTED_REVALIDATION_REQUIRED: Reason := 37
  const REJECTED_DEADLINE_EXPIRED: Reason := 38
  const REJECTED_FLOW_LIMIT: Reason := 40
  const REJECTED_INTEGRITY_UNAVAILABLE: Reason := 42
  const REJECTED_TRANSFER_ALREADY_TERMINAL: Reason := 44
  const COMMITTED_COMPLETION: Reason := 45
  const DUPLICATE_COMPLETION_SUPPRESSED: Reason := 46
  const ATTEMPT_FAILED: Reason := 47
  const ATTEMPT_SUPERSEDED: Reason := 48
  const CANCELLED: Reason := 49
}
