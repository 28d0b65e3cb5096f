/**
 Which answers make a test pass, and that every probe on record was answered so: a mode counts as passed
 only if the endpoint passed it after rejecting every mode tried before.
 */
module ReviewProbes {
  import opened ReviewConfig

  ghost predicate AllFallBack(modes: seq<Mode>, answers: Answers, n: nat)
    requires n <= |modes|
  {
    forall i :: 0 <= i < n ==> answers.In(modes[i]).FallsBack?
  }

  /** The mode found passes, and all tried before it fell back; none is found when all fall back or the next one fails. */
  lemma {:induction false} FirstPassingMeans(modes: seq<Mode>, answers: Answers) returns (n: nat)
    ensures n <= |modes| && AllFallBack(modes, answers, n)
    ensures match FirstPassing(modes, answers)
            case Some(m) => n < |modes| && modes[n] == m && answers.In(m).Passes?
            case None => n < |modes| ==> answers.In(modes[n]).Fails?
  {
    if modes == [] || !answers.In(modes[0]).FallsBack? {
      n := 0;
    } else {
      var k := FirstPassingMeans(modes[1..], answers);
      n := k + 1;
      forall i | 0 <= i < n ensures answers.In(modes[i]).FallsBack? {
        if i > 0 { assert modes[i] == modes[1..][i - 1]; }
      }
    }
  }

  /** An untested configuration passes in strict mode, or in the next one after each rejection of structured output. */
  lemma UntestedIff(env: Env, c: Config, a: Answers)
    requires !c.structuredTested && !c.schemaTested && env.urlOk(c.baseURL, c.allowPrivate)
    ensures Outcome(env, c, a) == Some(Strict) <==> a.strict.Passes?
    ensures Outcome(env, c, a) == Some(JsonObject) <==> a.strict.FallsBack? && a.json.Passes?
    ensures Outcome(env, c, a) == Some(PromptJson) <==> a.strict.FallsBack? && a.json.FallsBack? && a.prompt.Passes?
  {
    var modes := [Strict, JsonObject, PromptJson];
    var n := FirstPassingMeans(modes, a);
    assert AllFallBack(modes, a, n);
    assert n > 0 ==> a.In(modes[0]).FallsBack?;
    assert n > 1 ==> a.In(modes[1]).FallsBack?;
  }

  /** A tested configuration passes only in the mode it uses, whatever the endpoint says to the others. */
  lemma TestedIff(env: Env, c: Config, a: Answers)
    requires (c.structuredTested || c.schemaTested) && env.urlOk(c.baseURL, c.allowPrivate)
    ensures var mode := if c.mode in {JsonObject, PromptJson} then c.mode else Strict;
            Outcome(env, c, a) == if a.In(mode).Passes? then Some(mode) else None
  {
    var n := FirstPassingMeans([Effective(c)], a);
    assert AllFallBack([Effective(c)], a, n);
    assert n > 0 ==> a.In([Effective(c)][0]).FallsBack?;
  }

  // ---------------------------------------------------------------- over runs

  /** The event is a test that the endpoint answered with a pass, on an address that may be used. */
  ghost predicate Answered(env: Env, s: System, e: Event, probe: Probe) {
    && e.Test? && e.answers.In(probe.mode).Passes?
    && env.urlOk(probe.baseURL, probe.allowPrivate)
    && T.TrimSpace(probe.baseURL) != "" && T.TrimSpace(probe.model) != ""
    && probe.baseURL == (if e.test.baseURL != "" then e.test.baseURL else s.memory.baseURL)
    && probe.model == (if e.test.model != "" then e.test.model else s.memory.model)
    && probe.apiKey == (if e.test.apiKey != "" && !env.masked(e.test.apiKey) then e.test.apiKey else s.memory.apiKey)
    && probe.allowPrivate == (if e.test.allowPrivate.Some? then e.test.allowPrivate.value else s.memory.allowPrivate)
  }

  /** One event puts at most one probe on record, and only one that was answered with a pass. */
  lemma RecordedWasAnswered(env: Env, s: System, e: Event)
    ensures var next := Step(env, s, e).passed;
            next == s.passed || exists probe :: next == s.passed + [probe] && Answered(env, s, e, probe)
  {
    if e.Test? {
      var tmp := Overlay(env, s.memory, e.test);
      var n := FirstPassingMeans(ModesToTry(tmp), e.answers);
      var mode := Outcome(env, tmp, e.answers);
      if Configured(tmp) && mode.Some? {
        assert Answered(env, s, e, ProbeOf(tmp, mode.value));
        assert Step(env, s, e).passed == s.passed + [ProbeOf(tmp, mode.value)];
      }
    }
  }

  /** Over every run, each probe on record was put there by a test that the endpoint answered with a pass. */
  lemma {:induction false} EveryRecordWasAnswered(env: Env, s: System, es: seq<Event>, i: nat) returns (k: nat)
    requires |s.passed| <= i < |Run(env, s, es).passed|
    ensures k < |es| && Answered(env, Run(env, s, es[..k]), es[k], Run(env, s, es).passed[i])
    decreases |es|
  {
    if es != [] {
      var next, rest := Step(env, s, es[0]), es[1..];
      RecordedWasAnswered(env, s, es[0]);
      PassedOnlyGrows(env, next, rest);
      if i < |next.passed| {
        k := 0;
        assert es[..0] == [];
      } else {
        var j := EveryRecordWasAnswered(env, next, rest, i);
        k := j + 1;
        assert es[..k][1..] == rest[..j];
      }
    }
  }

  lemma {:induction false} PassedOnlyGrows(env: Env, s: System, es: seq<Event>)
    ensures s.passed <= Run(env, s, es).passed
    decreases |es|
  {
    if es != [] {
      RecordedWasAnswered(env, s, es[0]);
      PassedOnlyGrows(env, Step(env, s, es[0]), es[1..]);
    }
  }

  /**
   So a flag that is set means the endpoint answered a probe of exactly the current configuration with a pass,
   on every run of a system without the two faults.
   */
  lemma FlagMeansAnswered(env: Env, f: Faults, es: seq<Event>) returns (k: nat)
    requires Sound(f) && Permitted(f, es) && Flagged(Run(env, START, es).memory)
    ensures k < |es| && Answered(env, Run(env, START, es[..k]), es[k], Current(Run(env, START, es).memory))
  {
    var s := Run(env, START, es);
    RunKeepsInv(env, f, START, es);
    assert Certified(s.memory, s.passed);
    k := EveryRecordWasAnswered(env, START, es, |s.passed| - 1);
  }
}
