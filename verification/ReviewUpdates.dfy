/**
 The handlers of the review service as an administrator sees them, option by option: what an update stores
 and when it is refused, what a test leaves behind, and that the service is only ever switched on for a
 configuration that the endpoint passed.
 */
module ReviewUpdates {
  import opened ReviewConfig
  import opened ReviewProbes

  // ---------------------------------------------------------------- updating

  /** The request gives a new key: not empty, and not the masked form that is shown. */
  predicate NewKey(env: Env, key: string) { key != "" && !env.masked(key) }

  /** The mode in use: strict unless one of the other two is set. */
  function ModeOf(c: Config): Mode { if c.mode in {JsonObject, PromptJson} then c.mode else Strict }

  /** A part of the configuration that a probe runs with is different. */
  predicate ProbedDiffers(a: Config, b: Config) {
    || a.baseURL != b.baseURL || a.model != b.model || a.allowPrivate != b.allowPrivate || ModeOf(a) != ModeOf(b)
  }

  /** What an accepted update leaves of each option a probe runs with; what is not given stays. */
  predicate UpdatedProbed(env: Env, c: Config, r: UpdateRequest, t: Config) {
    && t.baseURL == (if r.baseURL == "" then c.baseURL else r.baseURL)
    && t.apiKey == (if NewKey(env, r.apiKey) then r.apiKey else c.apiKey)
    && t.model == (if r.model == "" then c.model else r.model)
    && t.allowPrivate == (if r.allowPrivate.Some? then r.allowPrivate.value else c.allowPrivate)
    && ModeOf(t) == (if r.mode.Some? then r.mode.value else ModeOf(c))
  }

  /** And of the others. */
  predicate UpdatedPlain(c: Config, r: UpdateRequest, t: Config) {
    && t.enabled == (if r.enabled.Some? then r.enabled.value else c.enabled)
    && t.policy == (if r.policy.Some? then r.policy.value else c.policy)
    && t.maxAttempts == (if r.maxAttempts.Some? then r.maxAttempts.value else c.maxAttempts)
    && (if r.workers.None? then t.workers == c.workers
        else
          && (r.workers.value < 1 ==> t.workers == 1) && (r.workers.value > 20 ==> t.workers == 20)
          && (1 <= r.workers.value <= 20 ==> t.workers == r.workers.value))
  }

  predicate Updated(env: Env, c: Config, r: UpdateRequest, t: Config) {
    UpdatedProbed(env, c, r, t) && UpdatedPlain(c, r, t)
  }

  /** The flags go when a probed part differs or a key is given, and else stay. */
  predicate FlagsFollow(env: Env, c: Config, r: UpdateRequest, t: Config) {
    if ProbedDiffers(t, c) || NewKey(env, r.apiKey) then !t.schemaTested && !t.structuredTested
    else t.schemaTested == c.schemaTested && t.structuredTested == c.structuredTested
  }

  lemma CandidateShows(env: Env, c: Config, r: UpdateRequest)
    requires r.mode.Some? ==> r.mode.value in {Strict, JsonObject, PromptJson}
    ensures UpdatedProbed(env, c, r, Candidate(env, c, r))
  {
  }

  lemma PatchShowsProbed(env: Env, c: Config, r: UpdateRequest)
    requires Accepts(env, c, r)
    ensures UpdatedProbed(env, c, r, Apply(c, UpdatePatch(env, c, r)))
  {
    CandidateShows(env, c, r);
    UpdateAppliesCandidate(env, c, r);
  }

  lemma PatchShowsPlain(env: Env, c: Config, r: UpdateRequest)
    ensures UpdatedPlain(c, r, Apply(c, UpdatePatch(env, c, r)))
  {
  }

  lemma PatchFlags(env: Env, c: Config, r: UpdateRequest)
    requires Accepts(env, c, r)
    ensures FlagsFollow(env, c, r, Apply(c, UpdatePatch(env, c, r)))
  {
    UpdateAppliesCandidate(env, c, r);
  }

  lemma UpdateShows(env: Env, s: System, r: UpdateRequest)
    requires Accepts(env, s.memory, r)
    ensures var t := Step(env, s, Update(r, false));
            && Updated(env, s.memory, r, t.memory) && FlagsFollow(env, s.memory, r, t.memory) && t.passed == s.passed
            && (s.stored == s.memory ==> t.stored == t.memory)
  {
    PatchShowsProbed(env, s.memory, r);
    PatchShowsPlain(env, s.memory, r);
    PatchFlags(env, s.memory, r);
  }

  /** An update that is refused or cannot be saved leaves everything as it was. */
  lemma RefusedChangesNothing(env: Env, s: System, r: UpdateRequest, fails: bool)
    requires !Accepts(env, s.memory, r) || fails
    ensures Step(env, s, Update(r, fails)) == s
  {
  }

  /**
   An update is accepted exactly when what it gives is valid, an enabled service keeps a policy, and switching on
   finds a configured service whose tested parts it does not touch.
   */
  lemma AcceptedIff(env: Env, c: Config, r: UpdateRequest, t: Config)
    requires r.mode.Some? ==> r.mode.value in {Strict, JsonObject, PromptJson}
    requires Updated(env, c, r, t)
    ensures Accepts(env, c, r) <==>
              && (r.baseURL != "" ==> env.urlOk(r.baseURL, t.allowPrivate))
              && (r.maxAttempts.Some? ==> r.maxAttempts.value >= 1)
              && (t.enabled ==> !env.policyBlank(t.policy))
              && (r.enabled == Some(true) ==>
                    && T.TrimSpace(t.baseURL) != "" && T.TrimSpace(t.model) != ""
                    && !ProbedDiffers(t, c) && !NewKey(env, r.apiKey)
                    && (c.structuredTested || (c.schemaTested && ModeOf(c) == Strict)))
  {
  }

  lemma UnknownModeRefused(env: Env, c: Config, r: UpdateRequest)
    requires r.mode.Some? && r.mode.value !in {Strict, JsonObject, PromptJson}
    ensures !Accepts(env, c, r)
  {
  }

  /** Clearing the key empties it and voids both flags, in use and in store; nothing else changes. */
  lemma ClearShows(env: Env, s: System)
    ensures var t := Step(env, s, Clear(false));
            && t.memory == s.memory.(apiKey := "", schemaTested := false, structuredTested := false)
            && t.stored == s.stored.(apiKey := "", schemaTested := false, structuredTested := false)
            && t.passed == s.passed && Step(env, s, Clear(true)) == s
  {
  }

  // ---------------------------------------------------------------- testing

  /** What is tested: the request laid over the record in use. */
  predicate Tried(env: Env, c: Config, r: TestRequest, p: Probe) {
    && p.baseURL == (if r.baseURL == "" then c.baseURL else r.baseURL)
    && p.apiKey == (if NewKey(env, r.apiKey) then r.apiKey else c.apiKey)
    && p.model == (if r.model == "" then c.model else r.model)
    && p.allowPrivate == (if r.allowPrivate.Some? then r.allowPrivate.value else c.allowPrivate)
  }

  /** Marked as tested in a mode; everything that a probe does not run with is untouched. */
  predicate Marked(c: Config, t: Config, mode: Mode) {
    && t.mode == mode && t.structuredTested && (t.schemaTested <==> mode == Strict)
    && t.enabled == c.enabled && t.policy == c.policy && t.maxAttempts == c.maxAttempts && t.workers == c.workers
  }

  lemma SavedShows(env: Env, c: Config, r: TestRequest, mode: Mode)
    requires mode in {Strict, JsonObject, PromptJson}
    ensures var t := Mark(Apply(c, CandidatePatch(env, c, Overlay(env, c, r), r)), mode);
            && Tried(env, c, r, Probe(t.baseURL, t.apiKey, t.model, t.allowPrivate, mode)) && Marked(c, t, mode)
  {
  }

  /** A passing test, saved: the record in use is the one probed, marked in its mode; the rest is untouched. */
  lemma PassShows(env: Env, s: System, e: Event, mode: Mode)
    requires e.Test? && Outcome(env, Overlay(env, s.memory, e.test), e.answers) == Some(mode)
    requires Configured(Overlay(env, s.memory, e.test)) && !e.candidateSaveFails
    ensures var t, c := Step(env, s, e), s.memory;
            && Tried(env, c, e.test, Probe(t.memory.baseURL, t.memory.apiKey, t.memory.model, t.memory.allowPrivate, mode))
            && Marked(c, t.memory, mode) && t.passed == s.passed + [Current(t.memory)]
            && (s.stored == c && !e.finalSaveFails ==> t.stored == t.memory)
  {
    EffectiveIsKnown(Overlay(env, s.memory, e.test), e.answers);
    SavedShows(env, s.memory, e.test, mode);
    SavedIsProbed(env, s.memory, e.test, mode);
  }

  /** A pass that cannot be saved is recorded nowhere but in what the endpoint answered. */
  lemma UnsavedPassShows(env: Env, s: System, e: Event, mode: Mode)
    requires e.Test? && Outcome(env, Overlay(env, s.memory, e.test), e.answers) == Some(mode)
    requires Configured(Overlay(env, s.memory, e.test)) && e.candidateSaveFails
    requires CandidatePatch(env, s.memory, Overlay(env, s.memory, e.test), e.test) != NOTHING
    ensures var t := Step(env, s, e); t.memory == s.memory && t.stored == s.stored
  {
  }

  /** A test of what is in use anyway has no options to save first, so that save cannot fail. */
  lemma NothingNewNeedsNoSave(env: Env, s: System, r: TestRequest, answers: Answers, finalFails: bool)
    requires !NewKey(env, r.apiKey) && r.baseURL in {"", s.memory.baseURL} && r.model in {"", s.memory.model}
    requires r.mode.None? || r.mode.value == s.memory.mode
    requires r.allowPrivate.None? || r.allowPrivate.value == s.memory.allowPrivate
    ensures Step(env, s, Test(r, answers, true, finalFails)) == Step(env, s, Test(r, answers, false, finalFails))
  {
  }

  /** A test that no mode passes voids both flags of the record in use, and of the stored one if that can be saved. */
  lemma FailureShows(env: Env, s: System, e: Event)
    requires e.Test? && Outcome(env, Overlay(env, s.memory, e.test), e.answers).None?
    requires Configured(Overlay(env, s.memory, e.test))
    ensures var t := Step(env, s, e);
            && t.memory == s.memory.(schemaTested := false, structuredTested := false) && t.passed == s.passed
            && t.stored == if e.finalSaveFails then s.stored else s.stored.(schemaTested := false, structuredTested := false)
  {
  }

  /** Which record is tested as already passed, so in its own mode only: one whose tested parts the request leaves. */
  lemma RetestedIff(env: Env, c: Config, r: TestRequest)
    ensures Flagged(Overlay(env, c, r)) <==>
              && (c.structuredTested || c.schemaTested) && !NewKey(env, r.apiKey)
              && (r.baseURL == "" || r.baseURL == c.baseURL) && (r.model == "" || r.model == c.model)
              && (r.mode.None? || r.mode.value == c.mode) && (r.allowPrivate.None? || r.allowPrivate.value == c.allowPrivate)
  {
  }

  /** A test of an address or model that is missing is not carried out. */
  lemma UnconfiguredIsNotTested(env: Env, s: System, e: Event, p: Probe)
    requires e.Test? && Tried(env, s.memory, e.test, p) && (T.TrimSpace(p.baseURL) == "" || T.TrimSpace(p.model) == "")
    ensures Step(env, s, e) == s
  {
  }

  // ---------------------------------------------------------------- switched on only after a pass

  /**
   Over every run of a system without the two faults: an update that switches the service on succeeds only if the
   endpoint answered a probe of exactly the configuration then in use with a pass.
   */
  lemma EnabledOnlyAfterAPass(env: Env, f: Faults, es: seq<Event>, r: UpdateRequest) returns (k: nat)
    requires Sound(f) && Permitted(f, es)
    requires r.enabled == Some(true) && Accepts(env, Run(env, START, es).memory, r)
    ensures var t := Step(env, Run(env, START, es), Update(r, false)).memory;
            && t.enabled && k < |es|
            && Answered(env, Run(env, START, es[..k]), es[k], Probe(t.baseURL, t.apiKey, t.model, t.allowPrivate, ModeOf(t)))
  {
    var s := Run(env, START, es);
    EnablingNeedsATest(env, s, r);
    PatchKeepsProbed(env, s.memory, r);
    k := FlagMeansAnswered(env, f, es);
  }
}
