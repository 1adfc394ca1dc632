/** Resolving a repository's landing policy against a run's parameters: policy
    tightens, flags never loosen, and the verify that results contains every
    policy member. */
module Policy {
  import opened Git
  import opened GoText
  import opened Battery

  datatype LandingPolicy = LandingPolicy(
    present: bool, verify: seq<string>, lanes: string, semantic: string,
    assertSet: bool, assertOn: bool, parallel: int, budget: int, maxAgents: int)

  /** Dimensions the invoker chose deliberately. */
  datatype Explicit = Explicit(lanes: bool, semantic: bool, assertOn: bool)

  datatype PolicyError = LanesBelowFloor | SemanticBelowFloor | AssertBelowFloor | TooManyAgents

  function LaneRank(m: string): nat {
    if m == "strict" then 2 else if m == "warn" then 1 else 0
  }

  /** A limit: nothing at or below zero limits at all. */
  function ClampCeiling(val: int, ceiling: int): (r: int)
    ensures forall n: nat :: Allows(r, n) <==> Allows(val, n) && Allows(ceiling, n)
  {
    if ceiling > 0 && (val <= 0 || ceiling < val) then ceiling else val
  }

  /** n units are within the limit. */
  predicate Allows(limit: int, n: nat) {
    limit <= 0 || n <= limit
  }

  function Members(pol: LandingPolicy, flagVerify: string): seq<string> {
    pol.verify + if TrimSpace(flagVerify) != "" then [flagVerify] else []
  }

  class RunParams {
    var verifyCmd: string
    var verifyImpactCmd: string
    var laneMode: string
    var semantic: string
    var assertOn: bool
    var parallelAgents: int
    var budget: int
    const explicit: Explicit

    constructor (verifyCmd: string, verifyImpactCmd: string, laneMode: string, semantic: string, assertOn: bool,
                 parallelAgents: int, budget: int, explicit: Explicit)
    {
      this.verifyCmd, this.verifyImpactCmd, this.laneMode, this.semantic := verifyCmd, verifyImpactCmd, laneMode, semantic;
      this.assertOn, this.parallelAgents, this.budget, this.explicit := assertOn, parallelAgents, budget, explicit;
    }

    /** A deliberate choice below the policy's floor: of lanes... */
    ghost predicate LanesShort(pol: LandingPolicy)
      reads this`laneMode
    {
      pol.lanes == "strict" && laneMode != "strict" && explicit.lanes
    }

    /** ...of semantic analysis... */
    ghost predicate SemanticShort(pol: LandingPolicy)
      reads this`semantic
    {
      pol.semantic == "go" && semantic != "go" && explicit.semantic
    }

    /** ...or of assertions. */
    ghost predicate AssertShort(pol: LandingPolicy)
      reads this`assertOn
    {
      pol.assertSet && pol.assertOn && !assertOn && explicit.assertOn
    }
  }

  /** The error a contradiction reports: the first dimension below its floor,
      lanes before semantic analysis before assertions; too many tasks last. */
  ghost predicate Blames(err: Option<PolicyError>, lanes: bool, semantic: bool, asserts: bool, allowed: bool) {
    && (err == Some(LanesBelowFloor) <==> lanes)
    && (err == Some(SemanticBelowFloor) <==> !lanes && semantic)
    && (err == Some(AssertBelowFloor) <==> !lanes && !semantic && asserts)
    && (err == Some(TooManyAgents) <==> !lanes && !semantic && !asserts && !allowed)
  }

  /** resolvePolicy. It fails iff a deliberate flag is below a floor or the run
      has too many tasks; otherwise every floor is met, every ceiling kept, and
      nothing the invoker asked for is loosened. */
  method ResolvePolicy(pol: LandingPolicy, p: RunParams, taskCount: nat) returns (err: Option<PolicyError>)
    modifies p
    ensures !pol.present ==> err.None? && unchanged(p)
    ensures pol.present ==> Blames(err, old(p.LanesShort(pol)), old(p.SemanticShort(pol)), old(p.AssertShort(pol)), Allows(pol.maxAgents, taskCount))
    ensures pol.present ==>
              p.verifyCmd == if Members(pol, old(p.verifyCmd)) == [] then old(p.verifyCmd)
                             else JoinVerifyBattery(Members(pol, old(p.verifyCmd)))
    ensures p.verifyImpactCmd == if pol.present && pol.verify != [] then "" else old(p.verifyImpactCmd)
    ensures LaneRank(p.laneMode) >= LaneRank(old(p.laneMode)) && (p.laneMode == old(p.laneMode) || p.laneMode == pol.lanes == "strict")
    ensures pol.present && err.None? ==> (pol.lanes == "strict" ==> p.laneMode == "strict")
    ensures p.semantic == old(p.semantic) || (p.semantic == "go" == pol.semantic)
    ensures pol.present && err.None? ==> (pol.semantic == "go" ==> p.semantic == "go")
    ensures old(p.assertOn) ==> p.assertOn
    ensures pol.present && err.None? ==> p.assertOn == (old(p.assertOn) || (pol.assertSet && pol.assertOn))
    ensures pol.present && err.None? ==> forall n: nat ::
              && (Allows(p.parallelAgents, n) <==> Allows(old(p.parallelAgents), n) && Allows(pol.parallel, n))
              && (Allows(p.budget, n) <==> Allows(old(p.budget), n) && Allows(pol.budget, n))
  {
    hide JoinVerifyBattery, Members, ClampCeiling;
    if !pol.present {
      return None;
    }
    ComposeVerify(pol, p);
    err := RaiseFloors(pol, p);
    if err.Some? {
      assert err.value.LanesBelowFloor? || err.value.SemanticBelowFloor? || err.value.AssertBelowFloor?;
      return;
    }
    p.parallelAgents := ClampCeiling(p.parallelAgents, pol.parallel);
    p.budget := ClampCeiling(p.budget, pol.budget);
    if pol.maxAgents > 0 && taskCount > pol.maxAgents {
      return Some(TooManyAgents);
    }
    return None;
  }

  /** The policy's battery first, then the flag's; a policy battery always runs
      in full. */
  method ComposeVerify(pol: LandingPolicy, p: RunParams)
    modifies p`verifyCmd, p`verifyImpactCmd
    ensures p.verifyCmd == if Members(pol, old(p.verifyCmd)) == [] then old(p.verifyCmd)
                           else JoinVerifyBattery(Members(pol, old(p.verifyCmd)))
    ensures p.verifyImpactCmd == if pol.verify != [] then "" else old(p.verifyImpactCmd)
  {
    hide JoinVerifyBattery, TrimSpace;
    var battery := pol.verify;
    if TrimSpace(p.verifyCmd) != "" {
      battery := battery + [p.verifyCmd];
    }
    assert battery == Members(pol, p.verifyCmd);
    if |battery| > 0 {
      p.verifyCmd := JoinVerifyBattery(battery);
    }
    if |pol.verify| > 0 {
      p.verifyImpactCmd := "";
    }
  }

  /** Lanes, semantic analysis and assertions, raised to the policy's floor. */
  method RaiseFloors(pol: LandingPolicy, p: RunParams) returns (err: Option<PolicyError>)
    modifies p`laneMode, p`semantic, p`assertOn
    ensures Blames(err, old(p.LanesShort(pol)), old(p.SemanticShort(pol)), old(p.AssertShort(pol)), true)
    ensures p.laneMode == old(p.laneMode) || p.laneMode == pol.lanes == "strict"
    ensures p.semantic == old(p.semantic) || p.semantic == "go" == pol.semantic
    ensures old(p.assertOn) ==> p.assertOn
    ensures err.None? ==> (pol.lanes == "strict" ==> p.laneMode == "strict") && (pol.semantic == "go" ==> p.semantic == "go")
    ensures err.None? ==> p.assertOn == (old(p.assertOn) || (pol.assertSet && pol.assertOn))
  {
    if pol.lanes == "strict" && LaneRank(p.laneMode) < LaneRank("strict") {
      if p.explicit.lanes {
        return Some(LanesBelowFloor);
      }
      p.laneMode := "strict";
    }
    if pol.semantic == "go" && p.semantic != "go" {
      if p.explicit.semantic {
        return Some(SemanticBelowFloor);
      }
      p.semantic := "go";
    }
    if pol.assertSet && pol.assertOn && !p.assertOn {
      if p.explicit.assertOn {
        return Some(AssertBelowFloor);
      }
      p.assertOn := true;
    }
    return None;
  }

  /** After resolving, a green verify means every policy member passed, in
      order, and then the invoker's own command if there was one. */
  lemma GreenMeansEveryPolicyMember<W(!new)>(sh: Shell<W>, pol: LandingPolicy, flagVerify: string, w: W)
    requires Conforms(sh) && pol.verify != []
    requires sh(JoinVerifyBattery(Members(pol, flagVerify)), w).0
    ensures forall k :: 0 <= k < |pol.verify| ==>
              RunAll(sh, pol.verify[..k], w).0 && sh(pol.verify[k], RunAll(sh, pol.verify[..k], w).1).0
    ensures TrimSpace(flagVerify) != "" ==> sh(flagVerify, RunAll(sh, pol.verify, w).1).0
  {
    hide JoinVerifyBattery, Conforms, RunAll, TrimSpace;
    var members := Members(pol, flagVerify);
    BatteryRunsItsMembers(sh, members, w);
    forall k | 0 <= k < |members|
      ensures RunAll(sh, members[..k], w).0 && sh(members[k], RunAll(sh, members[..k], w).1).0
    {
      AllPassed(sh, members, w, k);
    }
    forall k | 0 <= k < |pol.verify|
      ensures RunAll(sh, pol.verify[..k], w).0 && sh(pol.verify[k], RunAll(sh, pol.verify[..k], w).1).0
    {
      assert members[..k] == pol.verify[..k] && members[k] == pol.verify[k];
    }
    if TrimSpace(flagVerify) != "" {
      assert members[..|pol.verify|] == pol.verify;
    }
  }

  /** The verify a run starts from when it carries an intent: the acceptance, if
      any, and then the invoker's own command, if any. */
  function IntentVerify(acceptance: string, verify: string): string {
    var acc := TrimSpace(acceptance);
    if acc == "" then verify
    else JoinVerifyBattery([acc] + if TrimSpace(verify) != "" then [verify] else [])
  }

  function IntentMembers(acceptance: string, verify: string): seq<string> {
    (if TrimSpace(acceptance) != "" then [TrimSpace(acceptance)] else []) + if TrimSpace(verify) != "" then [verify] else []
  }

  /** Whichever of the two there are: after the policy's members they run as one
      flat list, the acceptance before the invoker's verify. */
  lemma IntentInsidePolicy<W(!new)>(sh: Shell<W>, pol: LandingPolicy, acceptance: string, verify: string, w: W)
    requires Conforms(sh) && pol.verify + IntentMembers(acceptance, verify) != []
    ensures sh(JoinVerifyBattery(Members(pol, IntentVerify(acceptance, verify))), w) ==
            RunAll(sh, pol.verify + IntentMembers(acceptance, verify), w)
  {
    hide JoinVerifyBattery, Conforms, RunAll, TrimSpace;
    var acc := TrimSpace(acceptance);
    if acc != "" && TrimSpace(verify) != "" {
      assert [acc] + [verify] == [acc, verify];
      BatteryIsNotBlank([acc, verify]);
      NestedBatteryIsFlat(sh, pol.verify, [acc, verify], w);
    } else {
      TrimIdempotent(acceptance);
      assert acc != "" ==> IntentVerify(acceptance, verify) == acc by {
        assert [acc] + [] == [acc];
        AloneIsVerbatim(acc);
      }
      assert Members(pol, IntentVerify(acceptance, verify)) == pol.verify + IntentMembers(acceptance, verify);
      BatteryRunsItsMembers(sh, pol.verify + IntentMembers(acceptance, verify), w);
    }
  }

  /** So when the composed verify passes, the acceptance passed, and then the
      invoker's own verify. */
  lemma GreenMeansAccepted<W(!new)>(sh: Shell<W>, pol: LandingPolicy, acceptance: string, verify: string, w: W)
    requires Conforms(sh) && (pol.verify != [] || !AllSpace(acceptance) || !AllSpace(verify))
    requires sh(JoinVerifyBattery(Members(pol, IntentVerify(acceptance, verify))), w).0
    ensures !AllSpace(acceptance) ==> sh(TrimSpace(acceptance), RunAll(sh, pol.verify, w).1).0
    ensures !AllSpace(verify) ==>
              sh(verify, RunAll(sh, pol.verify + if AllSpace(acceptance) then [] else [TrimSpace(acceptance)], w).1).0
  {
    TrimEmptyIffSpace(acceptance);
    TrimEmptyIffSpace(verify);
    hide JoinVerifyBattery, Conforms, RunAll, TrimSpace, AllSpace;
    IntentInsidePolicy(sh, pol, acceptance, verify, w);
    var members := pol.verify + IntentMembers(acceptance, verify);
    var n := |pol.verify|;
    if !AllSpace(acceptance) {
      AllPassed(sh, members, w, n);
      assert members[..n] == pol.verify && members[n] == TrimSpace(acceptance);
    }
    if !AllSpace(verify) {
      var before := pol.verify + if AllSpace(acceptance) then [] else [TrimSpace(acceptance)];
      AllPassed(sh, members, w, |before|);
      assert members == before + [verify] && members[..|before|] == before;
    }
  }

  lemma AloneIsVerbatim(m: string)
    ensures JoinVerifyBattery([m]) == m
  {
  }

  /** A composed battery is never blank, so it is never dropped. */
  lemma BatteryIsNotBlank(members: seq<string>)
    requires |members| >= 2
    ensures TrimSpace(JoinVerifyBattery(members)) != ""
  {
    var s := JoinVerifyBattery(members);
    assert Nested(members)[0][0] == 's';
    assert s[0] == 's';
    assert s[0] in s && !IsSpace('s');
    TrimEmptyIffSpace(s);
  }
}
