/**
 Whether an enabled review service stays one that may be enabled. Switching it on needs a passed test, but
 later events can void the test without switching the service off; which ones is stated exactly.
 */
module ReviewReadiness {
  import opened ReviewConfig

  /** If the service is on, it is configured, has a policy and has passed its test. */
  predicate Ready(env: Env, c: Config) { c.enabled ==> CanEnable(env, c) }

  /** What may be checked before an event to know that it leaves the service ready. */
  predicate Harmless(env: Env, s: System, e: Event) {
    match e
    case Update(r, fails) =>
      || fails || !Accepts(env, s.memory, r)
      || !Invalidates(env, s.memory, r) || !r.enabled.Or(s.memory.enabled)
    case Test(r, answers, _, _) =>
      var tmp := Overlay(env, s.memory, r);
      !s.memory.enabled || !Configured(tmp) || Outcome(env, tmp, answers).Some?
    case Clear(fails) => fails || !s.memory.enabled
    case Reload => Ready(env, s.stored)
  }

  lemma UpdateReadyIff(env: Env, s: System, r: UpdateRequest, fails: bool)
    requires Ready(env, s.memory)
    ensures Ready(env, Step(env, s, Update(r, fails)).memory) <==> Harmless(env, s, Update(r, fails))
  {
    if Accepts(env, s.memory, r) && !fails {
      UpdateAppliesCandidate(env, s.memory, r);
      PatchKeepsProbed(env, s.memory, r);
    }
  }

  /** A test that passes leaves a service that may be enabled as far as the test goes. */
  lemma PassedIsReady(env: Env, c: Config, r: TestRequest, mode: Mode)
    requires mode in {Strict, JsonObject, PromptJson} && Configured(Overlay(env, c, r)) && !env.policyBlank(c.policy)
    ensures CanEnable(env, Mark(Apply(c, CandidatePatch(env, c, Overlay(env, c, r), r)), mode))
  {
    SavedIsProbed(env, c, r, mode);
  }

  lemma TestReadyIff(env: Env, s: System, e: Event)
    requires e.Test? && Ready(env, s.memory)
    ensures Ready(env, Step(env, s, e).memory) <==> Harmless(env, s, e)
  {
    var tmp := Overlay(env, s.memory, e.test);
    var mode := Outcome(env, tmp, e.answers);
    TestLeavesTheSwitch(env, s, e);
    if s.memory.enabled && Configured(tmp) && mode.Some? {
      EffectiveIsKnown(tmp, e.answers);
      PassedIsReady(env, s.memory, e.test, mode.value);
    }
  }

  /** From a ready service, an event leaves a ready one exactly when it is harmless. */
  lemma StaysReadyIff(env: Env, s: System, e: Event)
    requires Ready(env, s.memory)
    ensures Ready(env, Step(env, s, e).memory) <==> Harmless(env, s, e)
  {
    match e
    case Update(r, fails) => UpdateReadyIff(env, s, r, fails);
    case Test(_, _, _, _) => TestReadyIff(env, s, e);
    case Clear(_) =>
    case Reload =>
  }

  /** Every event of a run, where it comes, is harmless. */
  predicate AllHarmless(env: Env, s: System, es: seq<Event>)
    decreases |es|
  {
    es == [] || (Harmless(env, s, es[0]) && AllHarmless(env, Step(env, s, es[0]), es[1..]))
  }

  ghost predicate ReadyThroughout(env: Env, s: System, es: seq<Event>) {
    forall k :: 0 <= k <= |es| ==> Ready(env, Run(env, s, es[..k]).memory)
  }

  lemma RunFirst(env: Env, s: System, es: seq<Event>, k: nat)
    requires 0 < k <= |es|
    ensures Run(env, s, es[..k]) == Run(env, Step(env, s, es[0]), es[1..][..k - 1])
  {
    assert es[..k][1..] == es[1..][..k - 1];
  }

  /** Over every run from a ready service: it is ready all along exactly when every event is harmless where it comes. */
  lemma {:induction false} ReadyThroughoutIff(env: Env, s: System, es: seq<Event>)
    requires Ready(env, s.memory)
    ensures ReadyThroughout(env, s, es) <==> AllHarmless(env, s, es)
    decreases |es|
  {
    assert es[..0] == [];
    if es != [] {
      var next, rest := Step(env, s, es[0]), es[1..];
      StaysReadyIff(env, s, es[0]);
      RunFirst(env, s, es, 1);
      assert rest[..0] == [];
      if Ready(env, next.memory) { ReadyThroughoutIff(env, next, rest); }
      forall k | 0 < k <= |es| ensures Run(env, s, es[..k]) == Run(env, next, rest[..k - 1]) { RunFirst(env, s, es, k); }
      if ReadyThroughout(env, s, es) {
        forall k | 0 <= k <= |rest| ensures Ready(env, Run(env, next, rest[..k]).memory) {
          assert Ready(env, Run(env, s, es[..k + 1]).memory);
        }
      }
    }
  }

  // ---------------------------------------------------------------- a service that is on and untested

  function Enabling(policy: string): UpdateRequest {
    UpdateRequest(Some(true), None, "", "", "", Some(policy), None, None, None)
  }

  function Moving(url: string): UpdateRequest { UpdateRequest(None, None, url, "", "", None, None, None, None) }

  const ENABLE := Update(Enabling("p"), false)
  const MOVE := Update(Moving("v"), false)

  lemma EnabledAfterTest(s: System)
    requires s.memory.baseURL == "u" && s.memory.model == "m" && s.memory.structuredTested
    ensures var t := Step(OPEN, s, ENABLE).memory; t.enabled && t.baseURL == "u" && CanEnable(OPEN, t)
  {
    NotBlank("u");
    NotBlank("m");
    var r := Enabling("p");
    assert !Invalidates(OPEN, s.memory, r);
    UpdateAppliesCandidate(OPEN, s.memory, r);
    PatchKeepsProbed(OPEN, s.memory, r);
  }

  /** From the start: a passing test, switching on with a policy, a new address. The service is on and untested. */
  lemma EnabledUntestedRun()
    ensures var t := Run(OPEN, START, [TEST_U, ENABLE, MOVE]).memory;
            t.enabled && !Flagged(t) && !Ready(OPEN, t)
  {
    var s1 := Step(OPEN, START, TEST_U);
    FirstTest(ALL, Strict);
    EnabledAfterTest(s1);
    var s2 := Step(OPEN, s1, ENABLE);
    EnabledMayBeUntested(OPEN, s2, "v");
    ThreeSteps(OPEN, START, TEST_U, ENABLE, MOVE);
  }
}
