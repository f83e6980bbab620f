/**
 * A new policy takes its number from the submitted document plus one (src/coordinator.cpp), so a number can
 * come back within one incarnation, and with it every stamp that was issued under it.
 */
module PolicyFencing {
  import opened Ids
  import opened Policies
  import opened CoordinatorModel
  import opened Evaluation
  import opened EvaluationProofs
  import opened CoordinatorRuns
  import opened CoordinatorTransfers
  import opened RestartProofs

  predicate Accepts(s: Fabric, a: Stamp) {
    ValidateAuthority(a, s.epoch, s.incarnation, s.policy.generation).Current?
  }

  // ---------------------------------------------------------------------------------------------
  // The numbers an incarnation has had
  // ---------------------------------------------------------------------------------------------

  /** The policy numbers of the states along a run, its first and its last among them. */
  ghost function Held(s: Fabric, calls: seq<Call>): set<Generation>
    decreases |calls|
  {
    {s.policy.generation} + if calls == [] then {} else Held(Act(s, calls[0]), calls[1..])
  }

  /** A call that makes a decision, and so mints a stamp. */
  predicate Issues(call: Call) {
    || (call.OnFlow? && call.flow.CallEvaluate?)
    || (call.OnTransfer? && call.transfer.CallAuthorize?
        && call.transfer.query.subject.Some? && call.transfer.query.subject.value.Moving?)
  }

  /** The stamps that the decisions of a run carry, in order. */
  ghost function Issued(s: Fabric, calls: seq<Call>): seq<Stamp>
    decreases |calls|
  {
    if calls == [] then []
    else (if Issues(calls[0]) then [Minted(s)] else []) + Issued(Act(s, calls[0]), calls[1..])
  }

  /** A stamp of this incarnation, under a number it has had. */
  predicate Of(s: Fabric, numbers: set<Generation>, a: Stamp) {
    a.epoch == s.epoch && a.incarnation == s.incarnation && a.policy in numbers && a.sequence != 0
  }

  lemma {:induction false} IssuedAreOf(s: Fabric, calls: seq<Call>, a: Stamp)
    requires a in Issued(s, calls)
    ensures Of(s, Held(s, calls), a)
    decreases |calls|
  {
    if Issues(calls[0]) && a == Minted(s) {
    } else {
      ActQuiet(s, calls[0]);
      IssuedAreOf(Act(s, calls[0]), calls[1..], a);
    }
  }

  lemma AcceptsExactly(s: Fabric, a: Stamp)
    requires Booted(s)
    ensures Accepts(s, a) <==>
      a.epoch == s.epoch && a.incarnation == s.incarnation && a.policy == s.policy.generation && a.sequence != 0
  {
  }

  /** No stamp of this incarnation under one of these numbers is accepted. */
  ghost predicate FencesAll(s: Fabric, numbers: set<Generation>, s': Fabric) {
    forall a | Of(s, numbers, a) :: !Accepts(s', a)
  }

  /**
   * After any run, a new policy fences every stamp of the incarnation exactly when its number is one that
   * the incarnation has not had.
   */
  lemma PolicyFencesExactly(s: Fabric, calls: seq<Call>, p: Policy)
    requires Booted(s) && PolicyValid(p)
    ensures var s' := ApplyPolicy(ActAll(s, calls), p).fabric;
      FencesAll(s, Held(s, calls), s') <==> p.generation + 1 !in Held(s, calls)
  {
    BootStands(s, calls);
    FencesExactly(s, ActAll(s, calls), Held(s, calls), p);
  }

  lemma FencesExactly(s: Fabric, end: Fabric, numbers: set<Generation>, p: Policy)
    requires Booted(s) && SameBoot(s, end) && PolicyValid(p)
    ensures FencesAll(s, numbers, ApplyPolicy(end, p).fabric) <==> p.generation + 1 !in numbers
  {
    var s' := ApplyPolicy(end, p).fabric;
    forall a | Of(s, numbers, a)
      ensures Accepts(s', a) <==> a.policy == s'.policy.generation
    {
      AcceptsExactly(s', a);
    }
    var back := Stamp(s.epoch, s.incarnation, s'.policy.generation, 1);
    AcceptsExactly(s', back);
    assert Of(s, numbers, back) <==> s'.policy.generation in numbers;
  }

  /** It fences the decisions the run has made exactly when none was made under its number. */
  lemma PolicyFencesDecisionsExactly(s: Fabric, calls: seq<Call>, p: Policy)
    requires Booted(s) && PolicyValid(p)
    ensures var s' := ApplyPolicy(ActAll(s, calls), p).fabric;
      (forall a | a in Issued(s, calls) :: !Accepts(s', a)) <==>
      (forall a | a in Issued(s, calls) :: a.policy != p.generation + 1)
  {
    BootStands(s, calls);
    var s' := ApplyPolicy(ActAll(s, calls), p).fabric;
    forall a | a in Issued(s, calls)
      ensures Accepts(s', a) <==> a.policy == p.generation + 1
    {
      IssuedAreOf(s, calls, a);
      AcceptsExactly(s', a);
    }
  }

  // ---------------------------------------------------------------------------------------------
  // Documents numbered no lower than the policy in force
  // ---------------------------------------------------------------------------------------------

  /** Every policy accepted along the run was submitted under at least the number in force. */
  ghost predicate NumbersRise(s: Fabric, calls: seq<Call>)
    decreases |calls|
  {
    calls == [] ||
    (&& (SetsPolicy(calls[0]) && PolicyValid(calls[0].evidence.policy) ==>
           calls[0].evidence.policy.generation >= s.policy.generation)
     && NumbersRise(Act(s, calls[0]), calls[1..]))
  }

  lemma NumberRises(s: Fabric, call: Call)
    requires SetsPolicy(call) && PolicyValid(call.evidence.policy) ==>
               call.evidence.policy.generation >= s.policy.generation
    ensures Act(s, call).policy.generation >= s.policy.generation
  {
    ActQuiet(s, call);
  }

  lemma {:induction false} HeldRise(s: Fabric, calls: seq<Call>, g: Generation)
    requires NumbersRise(s, calls) && g in Held(s, calls)
    ensures s.policy.generation <= g <= ActAll(s, calls).policy.generation
    decreases |calls|
  {
    if calls == [] {
    } else {
      NumberRises(s, calls[0]);
      var s1 := Act(s, calls[0]);
      HeldRise(s1, calls[1..], if g in Held(s1, calls[1..]) then g else s1.policy.generation);
    }
  }

  /** In such a run a stamp that has been fenced is never accepted again. */
  lemma FencedForever(s: Fabric, calls: seq<Call>, more: seq<Call>, a: Stamp)
    requires Booted(s) && NumbersRise(s, calls) && NumbersRise(ActAll(s, calls), more)
    requires Of(s, Held(s, calls), a) && !Accepts(ActAll(s, calls), a)
    ensures !Accepts(ActAll(ActAll(s, calls), more), a)
  {
    var s1 := ActAll(s, calls);
    BootStands(s, calls);
    BootStands(s1, more);
    HeldRise(s, calls, a.policy);
    HeldRise(s1, more, s1.policy.generation);
    AcceptsExactly(s1, a);
    AcceptsExactly(ActAll(s1, more), a);
  }

  // ---------------------------------------------------------------------------------------------
  // A number that comes back
  // ---------------------------------------------------------------------------------------------

  /** The same rules under another number. */
  function Renumbered(p: Policy, n: Generation): Policy { p.(generation := n) }

  /**
   * Submit number 9, decide, submit 4, submit 9: the third document is numbered above the policy in force
   * and still makes the old stamp good.
   */
  lemma OldStampReturns(s: Fabric, p: Policy)
    requires Booted(s) && PolicyValid(p)
    ensures var s1 := ApplyPolicy(s, Renumbered(p, 9)).fabric;
      var s2 := ApplyPolicy(s1, Renumbered(p, 4)).fabric;
      var s3 := ApplyPolicy(s2, Renumbered(p, 9)).fabric;
      && Accepts(s1, Minted(s1)) && !Accepts(s2, Minted(s1))
      && 9 >= s2.policy.generation && Accepts(s3, Minted(s1))
  {
    assert PolicyValid(Renumbered(p, 9)) && PolicyValid(Renumbered(p, 4));
  }
}
