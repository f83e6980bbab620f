/** Identities, generations, status codes and instants shared by every component. */
module Ids {

  const TWO_64: int := 0x1_0000_0000_0000_0000
  const TWO_63: int := 0x8000_0000_0000_0000

  type Word64 = w: int | 0 <= w < TWO_64

  /** A 128-bit identity. The all-zero value is nil and is never issued. */
  datatype Id = Id(high: Word64, low: Word64) {
    predicate IsNil() { high == 0 && low == 0 }
  }

  const NIL: Id := Id(0, 0)

  /** Flow identities carry the counter that minted them and a mixed tag. */
  datatype FlowId = FlowId(sequence: nat, tag: bv64) {
    predicate IsNil() { sequence == 0 && tag == 0 }
  }

  const NO_FLOW: FlowId := FlowId(0, 0)

  datatype Status =
    | Ok | InvalidArgument | NotFound | AlreadyExists | BoundsExceeded | IntegrityMismatch
    | MalformedInput | TrailingGarbage | UnsupportedVersion | Unsupported | StaleGeneration
    | StaleEpoch | StaleAuthority | Cancelled | Conflict | NotAuthorized | CapacityExhausted
    | InvalidTransition | PolicyInvalid | RevalidationRequired | ReplayRejected | Refused | Internal

  datatype Result<+T> = Success(value: T) | Failure(code: Status)

  datatype Option<+T> = None | Some(value: T)

  /** The generations of the source are 64-bit counters that never wrap; zero means "unset". */
  type Generation = nat

  /** A signed 64-bit instant; the smallest value stands for "no deadline". */
  datatype Instant = Instant(nanos: int) {
    predicate IsSet() { nanos != -TWO_63 }
    predicate ExpiredAt(now: int) { IsSet() && now >= nanos }
  }

  const UNSET: Instant := Instant(-TWO_63)

  function FromNow(now: int, delta: int): Instant {
    if delta <= 0 then UNSET
    else if now > TWO_63 - 1 - delta then UNSET
    else Instant(now + delta)
  }

  /** `static_cast<int64_t>` of an unsigned 64-bit value. */
  function ToSigned(w: Word64): int { if w >= TWO_63 then w - TWO_64 else w }

  /** The remainder modulo 2^64, reached by whole turns: what an unsigned 64-bit word keeps of `x`. */
  function Wrap(x: int): (r: nat)
    ensures r < TWO_64 && (-TWO_64 <= x < 0 ==> r == x + TWO_64)
    decreases if x < 0 then TWO_64 - x else x
  {
    if x < 0 then Wrap(x + TWO_64) else if x >= TWO_64 then Wrap(x - TWO_64) else x
  }

  /** Unsigned 64-bit addition and subtraction, with wrap-around. */
  function AddWrap(a: nat, b: nat): nat { Wrap(a + b) }

  function SubWrap(a: nat, b: nat): nat { Wrap(a - b) }

  /** A subtraction guarded at zero, as every decrement of a counter is. */
  function Monus(a: nat, b: nat): nat { if a >= b then a - b else 0 }

  function Max(a: nat, b: nat): nat { if a >= b then a else b }

  function Bits(w: Word64): bv64 { w as bv64 }

  /** Names the instance a proof is about: invariants quantified with this trigger open only there. */
  predicate At<T>(x: T) { true }
}
