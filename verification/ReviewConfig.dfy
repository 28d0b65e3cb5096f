/**
 The configuration of the LLM review service: the record in memory, its stored copy, and the probes of
 structured output that passed. A flag that says "tested" must speak of the configuration beside it.
 */
module ReviewConfig {
  import T = Text

  datatype Option<T> = None | Some(value: T) {
    function Or(other: T): T { if Some? then value else other }
  }

  datatype Mode = Unset | Strict | JsonObject | PromptJson | Unknown(name: string)

  datatype Config = Config(enabled: bool, baseURL: string, apiKey: string, model: string, allowPrivate: bool,
                           policy: string, mode: Mode, maxAttempts: int, workers: int,
                           schemaTested: bool, structuredTested: bool)

  const DEFAULTS := Config(false, "", "", "", false, "", Strict, 3, 2, false, false)

  /** What the code below this model decides: masked keys, acceptable URLs, policies with no text in them. */
  datatype Env = Env(masked: string -> bool, urlOk: (string, bool) -> bool, policyBlank: string -> bool)

  /** The options one bulk save writes. */
  datatype Patch = Patch(enabled: Option<bool>, baseURL: Option<string>, apiKey: Option<string>,
                         model: Option<string>, allowPrivate: Option<bool>, policy: Option<string>,
                         mode: Option<Mode>, maxAttempts: Option<int>, workers: Option<int>,
                         schemaTested: Option<bool>, structuredTested: Option<bool>)

  const NOTHING := Patch(None, None, None, None, None, None, None, None, None, None, None)

  function Apply(c: Config, p: Patch): Config {
    Config(p.enabled.Or(c.enabled), p.baseURL.Or(c.baseURL), p.apiKey.Or(c.apiKey), p.model.Or(c.model),
           p.allowPrivate.Or(c.allowPrivate), p.policy.Or(c.policy), p.mode.Or(c.mode),
           p.maxAttempts.Or(c.maxAttempts), p.workers.Or(c.workers),
           p.schemaTested.Or(c.schemaTested), p.structuredTested.Or(c.structuredTested))
  }

  function Effective(c: Config): Mode {
    if c.mode.Unset? || c.mode.Unknown? then Strict else c.mode
  }

  predicate Configured(c: Config) { T.TrimSpace(c.baseURL) != "" && T.TrimSpace(c.model) != "" }

  predicate Flagged(c: Config) { c.structuredTested || c.schemaTested }

  predicate CanEnable(env: Env, c: Config) {
    && Configured(c) && !env.policyBlank(c.policy)
    && (c.structuredTested || (Effective(c).Strict? && c.schemaTested))
  }

  // ---------------------------------------------------------------- updating

  datatype UpdateRequest = UpdateRequest(enabled: Option<bool>, allowPrivate: Option<bool>, baseURL: string,
                                         apiKey: string, model: string, policy: Option<string>,
                                         mode: Option<Mode>, maxAttempts: Option<int>, workers: Option<int>)

  function ClampWorkers(n: int): int { if n < 1 then 1 else if n > 20 then 20 else n }

  predicate GivesKey(env: Env, key: string) { key != "" && !env.masked(key) }

  /** What the record would become, its flags aside. */
  function Candidate(env: Env, c: Config, r: UpdateRequest): Config {
    Config(r.enabled.Or(c.enabled),
           if r.baseURL != "" then r.baseURL else c.baseURL,
           if GivesKey(env, r.apiKey) then r.apiKey else c.apiKey,
           if r.model != "" then r.model else c.model,
           r.allowPrivate.Or(c.allowPrivate), r.policy.Or(c.policy), r.mode.Or(c.mode),
           r.maxAttempts.Or(c.maxAttempts),
           if r.workers.Some? then ClampWorkers(r.workers.value) else c.workers,
           c.schemaTested, c.structuredTested)
  }

  /** The configuration that a probe runs with changes, or the key is given anew. */
  predicate Invalidates(env: Env, c: Config, r: UpdateRequest) {
    var n := Candidate(env, c, r);
    || n.allowPrivate != c.allowPrivate || n.baseURL != c.baseURL || n.model != c.model
    || GivesKey(env, r.apiKey) || (r.mode.Some? && r.mode.value != Effective(c))
  }

  predicate Accepts(env: Env, c: Config, r: UpdateRequest) {
    var n := Candidate(env, c, r);
    && (r.baseURL != "" ==> env.urlOk(r.baseURL, n.allowPrivate))
    && (r.mode.Some? ==> r.mode.value in {Strict, JsonObject, PromptJson})
    && (r.maxAttempts.Some? ==> r.maxAttempts.value >= 1)
    && (r.enabled == Some(true) ==> !Invalidates(env, c, r) && CanEnable(env, n))
    && (n.enabled ==> !env.policyBlank(n.policy))
  }

  /** The options an accepted update writes: those that changed, and every plain setting given. */
  function UpdatePatch(env: Env, c: Config, r: UpdateRequest): Patch {
    var n, flag := Candidate(env, c, r), if Invalidates(env, c, r) then Some(false) else None;
    Patch(r.enabled,
          if n.baseURL != c.baseURL then Some(n.baseURL) else None,
          if GivesKey(env, r.apiKey) then Some(r.apiKey) else None,
          if n.model != c.model then Some(n.model) else None,
          if n.allowPrivate != c.allowPrivate then r.allowPrivate else None,
          r.policy,
          if r.mode.Some? && (r.mode.value != Effective(c) || c.mode.Unset?) then r.mode else None,
          r.maxAttempts,
          if r.workers.Some? then Some(n.workers) else None,
          flag, flag)
  }

  // ---------------------------------------------------------------- probing

  datatype TestRequest = TestRequest(baseURL: string, apiKey: string, model: string, mode: Option<Mode>,
                                     allowPrivate: Option<bool>)

  /** What the endpoint answers to a probe in one mode. */
  datatype Answer = Passes | FallsBack | Fails

  datatype Answers = Answers(strict: Answer, json: Answer, prompt: Answer) {
    function In(m: Mode): Answer {
      match m case JsonObject => json case PromptJson => prompt case _ => strict
    }
  }

  datatype Probe = Probe(baseURL: string, apiKey: string, model: string, allowPrivate: bool, mode: Mode)

  function ProbeOf(c: Config, mode: Mode): Probe {
    Probe(c.baseURL, c.apiKey, c.model, c.allowPrivate, mode)
  }

  function Overlaid(c: Config, r: TestRequest): Config {
    c.(baseURL := if r.baseURL != "" then r.baseURL else c.baseURL,
       model := if r.model != "" then r.model else c.model,
       mode := r.mode.Or(c.mode))
  }

  /** The stored configuration with the candidate laid over it; flags go when a probed part differs. */
  function Overlay(env: Env, c: Config, r: TestRequest): Config {
    var n := Overlaid(c, r).(apiKey := if GivesKey(env, r.apiKey) then r.apiKey else c.apiKey,
                             allowPrivate := r.allowPrivate.Or(c.allowPrivate));
    if || n.baseURL != c.baseURL || n.model != c.model || n.mode != c.mode || n.allowPrivate != c.allowPrivate
       || GivesKey(env, r.apiKey)
    then Reset(n) else n
  }

  /** A configuration already tested is probed in its own mode only. */
  function ModesToTry(c: Config): seq<Mode> {
    if Flagged(c) then [Effective(c)] else [Strict, JsonObject, PromptJson]
  }

  /** The first mode that passes; only a rejection of structured output lets the next one be tried. */
  function FirstPassing(modes: seq<Mode>, answers: Answers): Option<Mode> {
    if modes == [] then None
    else match answers.In(modes[0])
      case Passes => Some(modes[0])
      case FallsBack => FirstPassing(modes[1..], answers)
      case Fails => None
  }

  function CandidatePatch(env: Env, c: Config, tmp: Config, r: TestRequest): Patch {
    NOTHING.(baseURL := if tmp.baseURL != c.baseURL then Some(tmp.baseURL) else None,
             model := if tmp.model != c.model then Some(tmp.model) else None,
             apiKey := if GivesKey(env, r.apiKey) then Some(r.apiKey) else None,
             allowPrivate := if tmp.allowPrivate != c.allowPrivate then Some(tmp.allowPrivate) else None,
             mode := if !tmp.mode.Unset? && tmp.mode != c.mode then Some(tmp.mode) else None)
  }

  function Mark(c: Config, mode: Mode): Config {
    c.(mode := mode, structuredTested := true, schemaTested := mode.Strict?)
  }

  function Reset(c: Config): Config { c.(schemaTested := false, structuredTested := false) }

  // ---------------------------------------------------------------- the whole system

  /** The record in use, its stored copy, and every probe that passed, latest last. */
  datatype System = System(memory: Config, stored: Config, passed: seq<Probe>)

  datatype Event =
    | Update(update: UpdateRequest, saveFails: bool)
    | Test(test: TestRequest, answers: Answers, candidateSaveFails: bool, finalSaveFails: bool)
    | Clear(saveFails: bool)
    | Reload

  function Failed(s: System, saveFails: bool): System {
    s.(memory := Reset(s.memory), stored := if saveFails then s.stored else Reset(s.stored))
  }

  /** A probe passed in `mode`: the candidate options `p` are saved, then the mode is marked. */
  function Passed(s: System, probe: Probe, p: Patch, mode: Mode, candidateFails: bool, finalFails: bool): System {
    var passed := s.passed + [probe];
    if p != NOTHING && candidateFails then s.(passed := passed)
    else
      var stored := Apply(s.stored, p);
      System(Mark(Apply(s.memory, p), mode), if finalFails then stored else Mark(stored, mode), passed)
  }

  function Concluded(env: Env, s: System, e: Event, tmp: Config, mode: Option<Mode>): System
    requires e.Test?
  {
    if mode.None? then Failed(s, e.finalSaveFails)
    else Passed(s, ProbeOf(tmp, mode.value), CandidatePatch(env, s.memory, tmp, e.test), mode.value,
                e.candidateSaveFails, e.finalSaveFails)
  }

  function Outcome(env: Env, tmp: Config, answers: Answers): Option<Mode> {
    if env.urlOk(tmp.baseURL, tmp.allowPrivate) then FirstPassing(ModesToTry(tmp), answers) else None
  }

  function Tested(env: Env, s: System, e: Event): System
    requires e.Test?
  {
    var tmp := Overlay(env, s.memory, e.test);
    if !Configured(tmp) then s else Concluded(env, s, e, tmp, Outcome(env, tmp, e.answers))
  }

  function Step(env: Env, s: System, e: Event): System {
    match e
    case Update(r, fails) =>
      if !Accepts(env, s.memory, r) || fails then s
      else
        var p := UpdatePatch(env, s.memory, r);
        s.(memory := Apply(s.memory, p), stored := Apply(s.stored, p))
    case Test(_, _, _, _) => Tested(env, s, e)
    case Clear(fails) =>
      if fails then s
      else s.(memory := Reset(s.memory.(apiKey := "")), stored := Reset(s.stored.(apiKey := "")))
    case Reload => s.(memory := s.stored)
  }

  function Run(env: Env, s: System, es: seq<Event>): System
    decreases |es|
  {
    if es == [] then s else Run(env, Step(env, s, es[0]), es[1..])
  }

  // ---------------------------------------------------------------- what a tested flag means

  function Current(c: Config): Probe { ProbeOf(c, Effective(c)) }

  /** A set flag speaks of the last probe that passed: it ran with exactly this configuration. */
  ghost predicate Certified(c: Config, passed: seq<Probe>) {
    Flagged(c) ==> passed != [] && passed[|passed| - 1] == Current(c)
  }

  /** The two copies agree but for the flags. */
  ghost predicate SameButFlags(a: Config, b: Config) { Reset(a) == Reset(b) }

  ghost predicate PolicyInv(env: Env, c: Config) { c.enabled ==> !env.policyBlank(c.policy) }

  /** Which failures and reloads a run may contain. */
  datatype Faults = Faults(candidateSave: bool, finalSave: bool, reload: bool)

  predicate Permits(f: Faults, e: Event) {
    match e
    case Test(_, _, candidate, final) => (candidate ==> f.candidateSave) && (final ==> f.finalSave)
    case Reload => f.reload
    case _ => true
  }

  predicate Permitted(f: Faults, es: seq<Event>) { forall i :: 0 <= i < |es| ==> Permits(f, es[i]) }

  predicate Sound(f: Faults) { !f.candidateSave && !(f.finalSave && f.reload) }

  /** The record in use is certified; where a reload may come, so is its stored copy. */
  ghost predicate Inv(f: Faults, s: System) {
    && Certified(s.memory, s.passed)
    && (f.reload ==> Certified(s.stored, s.passed) && SameButFlags(s.memory, s.stored))
  }

  /** An update that keeps the flags keeps everything a probe runs with. */
  lemma PatchKeepsProbed(env: Env, c: Config, r: UpdateRequest)
    ensures var after := Apply(c, UpdatePatch(env, c, r));
            if Invalidates(env, c, r) then !Flagged(after)
            else Current(after) == Current(c) && Flagged(after) == Flagged(c)
  {
  }

  /** An accepted update leaves the candidate in place, in its effective mode. */
  lemma UpdateAppliesCandidate(env: Env, c: Config, r: UpdateRequest)
    requires Accepts(env, c, r)
    ensures var after, n := Apply(c, UpdatePatch(env, c, r)), Candidate(env, c, r);
            after.(mode := n.mode, schemaTested := n.schemaTested, structuredTested := n.structuredTested) == n
            && Effective(after) == Effective(n)
  {
  }

  lemma UpdateKeepsInv(env: Env, f: Faults, s: System, r: UpdateRequest, fails: bool)
    requires Inv(f, s)
    ensures Inv(f, Step(env, s, Update(r, fails)))
  {
    PatchKeepsProbed(env, s.memory, r);
    if f.reload {
      assert UpdatePatch(env, s.memory, r) == UpdatePatch(env, s.stored, r);
      PatchKeepsProbed(env, s.stored, r);
    }
  }

  lemma {:induction false} FirstPassingPasses(modes: seq<Mode>, answers: Answers)
    ensures FirstPassing(modes, answers).Some? ==> FirstPassing(modes, answers).value in modes
  {
    if modes != [] { FirstPassingPasses(modes[1..], answers); }
  }

  /** After the candidate is saved and its mode marked, what is in use is what the probe ran with. */
  lemma SavedIsProbed(env: Env, c: Config, r: TestRequest, mode: Mode)
    requires mode in {Strict, JsonObject, PromptJson}
    ensures var tmp := Overlay(env, c, r);
            Current(Mark(Apply(c, CandidatePatch(env, c, tmp, r)), mode)) == ProbeOf(tmp, mode)
  {
  }

  lemma EffectiveIsKnown(c: Config, answers: Answers)
    ensures var m := FirstPassing(ModesToTry(c), answers); m.Some? ==> m.value in {Strict, JsonObject, PromptJson}
  {
    FirstPassingPasses(ModesToTry(c), answers);
  }

  lemma ConclusionKeepsInv(env: Env, f: Faults, s: System, e: Event, mode: Option<Mode>)
    requires e.Test? && Inv(f, s) && Sound(f) && Permits(f, e)
    requires mode.Some? ==> mode.value in {Strict, JsonObject, PromptJson}
    ensures Inv(f, Concluded(env, s, e, Overlay(env, s.memory, e.test), mode))
  {
    if mode.Some? { SavedIsProbed(env, s.memory, e.test, mode.value); }
  }

  lemma TestKeepsInv(env: Env, f: Faults, s: System, e: Event)
    requires e.Test? && Inv(f, s) && Sound(f) && Permits(f, e)
    ensures Inv(f, Step(env, s, e))
  {
    var tmp := Overlay(env, s.memory, e.test);
    EffectiveIsKnown(tmp, e.answers);
    ConclusionKeepsInv(env, f, s, e, Outcome(env, tmp, e.answers));
  }

  lemma StepKeepsInv(env: Env, f: Faults, s: System, e: Event)
    requires Inv(f, s) && Sound(f) && Permits(f, e)
    ensures Inv(f, Step(env, s, e))
  {
    match e
    case Update(r, fails) => UpdateKeepsInv(env, f, s, r, fails);
    case Test(_, _, _, _) => TestKeepsInv(env, f, s, e);
    case _ =>
  }

  lemma {:induction false} RunKeepsInv(env: Env, f: Faults, s: System, es: seq<Event>)
    requires Inv(f, s) && Sound(f) && Permitted(f, es)
    ensures Inv(f, Run(env, s, es))
    decreases |es|
  {
    if es != [] {
      StepKeepsInv(env, f, s, es[0]);
      RunKeepsInv(env, f, Step(env, s, es[0]), es[1..]);
    }
  }

  const START := System(DEFAULTS, DEFAULTS, [])

  ghost predicate AlwaysCertified(f: Faults) {
    forall env: Env, es :: Permitted(f, es) ==> Certified(Run(env, START, es).memory, Run(env, START, es).passed)
  }

  // ---------------------------------------------------------------- where it goes wrong

  const OPEN := Env(_ => false, (_, _) => true, _ => false)

  function Trying(url: string): TestRequest { TestRequest(url, "", "m", None, None) }

  /** An endpoint that takes the JSON object mode only, and one that takes every mode. */
  const ONLY_JSON := Answers(FallsBack, Passes, Fails)
  const ALL := Answers(Passes, Passes, Passes)

  lemma OnlyJsonPasses()
    ensures FirstPassing([Strict, JsonObject, PromptJson], ONLY_JSON) == Some(JsonObject)
  {
    assert [Strict, JsonObject, PromptJson][1..][0] == JsonObject;
  }

  lemma NotBlank(s: string)
    requires |s| == 1 && !T.IsSpace(s[0])
    ensures T.TrimSpace(s) != ""
  {
  }

  lemma TryingMeans(c: Config, url: string)
    requires url != "" && c.baseURL != url && c.model in {"", "m"}
    ensures var tmp := Overlay(OPEN, c, Trying(url));
            && tmp == Reset(c.(baseURL := url, model := "m"))
            && CandidatePatch(OPEN, c, tmp, Trying(url))
               == NOTHING.(baseURL := Some(url), model := if c.model == "m" then None else Some("m"))
  {
  }

  lemma ProbeNewAddress(s: System, url: string, answers: Answers, mode: Mode, candidateFails: bool, finalFails: bool)
    requires |url| == 1 && !T.IsSpace(url[0]) && s.memory.baseURL != url && s.memory.model in {"", "m"}
    requires FirstPassing([Strict, JsonObject, PromptJson], answers) == Some(mode)
    ensures var p := NOTHING.(baseURL := Some(url), model := if s.memory.model == "m" then None else Some("m"));
            var probe := Probe(url, s.memory.apiKey, "m", s.memory.allowPrivate, mode);
            Step(OPEN, s, Test(Trying(url), answers, candidateFails, finalFails))
            == Passed(s, probe, p, mode, candidateFails, finalFails)
  {
    NotBlank(url);
    NotBlank("m");
    TryingMeans(s.memory, url);
  }

  const TEST_U := Test(Trying("u"), ALL, false, false)
  const TEST_V_UNSAVED := Test(Trying("v"), ALL, true, false)
  const TEST_U_JSON := Test(Trying("u"), ONLY_JSON, false, false)
  const TEST_V_HALF := Test(Trying("v"), ALL, false, true)

  ghost predicate EndsUncertified(s: System) { !Certified(s.memory, s.passed) }

  /** Tested at "u" and saved. */
  ghost predicate AtU(s: System, mode: Mode) {
    && s.stored == s.memory && s.memory.baseURL == "u" && s.memory.model == "m" && s.memory.mode == mode
    && s.memory.structuredTested && s.passed == [Current(s.memory)]
  }

  lemma FirstTest(answers: Answers, mode: Mode)
    requires mode in {Strict, JsonObject} && FirstPassing([Strict, JsonObject, PromptJson], answers) == Some(mode)
    ensures AtU(Step(OPEN, START, Test(Trying("u"), answers, false, false)), mode)
  {
    ProbeNewAddress(START, "u", answers, mode, false, false);
  }

  lemma UnsavedProbe(s: System)
    requires AtU(s, Strict)
    ensures EndsUncertified(Step(OPEN, s, TEST_V_UNSAVED))
  {
    ProbeNewAddress(s, "v", ALL, Strict, true, false);
  }

  lemma UnsavedEnds()
    ensures EndsUncertified(Step(OPEN, Step(OPEN, START, TEST_U), TEST_V_UNSAVED))
  {
    FirstTest(ALL, Strict);
    UnsavedProbe(Step(OPEN, START, TEST_U));
  }

  lemma HalfSavedProbe(s: System)
    requires AtU(s, JsonObject)
    ensures var t := Step(OPEN, Step(OPEN, s, TEST_V_HALF), Reload);
            Flagged(t.memory) && t.memory.baseURL == "v" && Effective(t.memory) == JsonObject
            && t.passed == s.passed + [Probe("v", s.memory.apiKey, "m", s.memory.allowPrivate, Strict)]
  {
    ProbeNewAddress(s, "v", ALL, Strict, false, true);
  }

  lemma HalfSavedEnds()
    ensures EndsUncertified(Step(OPEN, Step(OPEN, Step(OPEN, START, TEST_U_JSON), TEST_V_HALF), Reload))
  {
    OnlyJsonPasses();
    FirstTest(ONLY_JSON, JsonObject);
    HalfSavedProbe(Step(OPEN, START, TEST_U_JSON));
  }

  lemma OneRunIsEnough(f: Faults, es: seq<Event>)
    requires Permitted(f, es) && EndsUncertified(Run(OPEN, START, es))
    ensures !AlwaysCertified(f)
  {
  }

  /** A candidate that passes but cannot be saved leaves the old flag set beside a newer probe. */
  lemma UnsavedCandidate(f: Faults)
    requires f.candidateSave
    ensures !AlwaysCertified(f)
  {
    UnsavedEnds();
    TwoSteps(OPEN, START, TEST_U, TEST_V_UNSAVED);
    OneRunIsEnough(f, [TEST_U, TEST_V_UNSAVED]);
  }

  /** A pass whose last save fails is lost at the next reload, but the new address is not: the old flag stays. */
  lemma HalfSavedPass(f: Faults)
    requires f.finalSave && f.reload
    ensures !AlwaysCertified(f)
  {
    HalfSavedEnds();
    ThreeSteps(OPEN, START, TEST_U_JSON, TEST_V_HALF, Reload);
    OneRunIsEnough(f, [TEST_U_JSON, TEST_V_HALF, Reload]);
  }

  lemma TwoSteps(env: Env, s: System, a: Event, b: Event)
    ensures Run(env, s, [a, b]) == Step(env, Step(env, s, a), b)
  {
    var t := Step(env, s, a);
    assert [a, b][1..] == [b] && [b][1..] == [];
    assert Run(env, t, [b]) == Run(env, Step(env, t, b), []);
  }

  lemma ThreeSteps(env: Env, s: System, a: Event, b: Event, c: Event)
    ensures Run(env, s, [a, b, c]) == Step(env, Step(env, Step(env, s, a), b), c)
  {
    assert [a, b, c][1..] == [b, c];
    TwoSteps(env, Step(env, s, a), b, c);
  }

  /**
   On every run a set flag means that the last passing probe ran with exactly the current address, key,
   model, private flag and effective mode; this holds exactly for systems whose candidate saves do not
   fail and whose last save does not fail where a reload may follow.
   */
  lemma CertifiedIff(f: Faults)
    ensures AlwaysCertified(f) <==> Sound(f)
  {
    if Sound(f) {
      forall env: Env, es | Permitted(f, es)
        ensures Certified(Run(env, START, es).memory, Run(env, START, es).passed)
      {
        RunKeepsInv(env, f, START, es);
      }
    } else if f.candidateSave {
      UnsavedCandidate(f);
    } else {
      HalfSavedPass(f);
    }
  }

  // ---------------------------------------------------------------- some probe, if not the last

  /** A set flag speaks of a probe that passed, at whatever time, with exactly this configuration. */
  ghost predicate Backed(c: Config, passed: seq<Probe>) { Flagged(c) ==> Current(c) in passed }

  ghost predicate BackedInv(f: Faults, s: System) {
    && Backed(s.memory, s.passed)
    && (f.reload ==> Backed(s.stored, s.passed) && SameButFlags(s.memory, s.stored))
  }

  lemma UpdateKeepsBacked(env: Env, f: Faults, s: System, r: UpdateRequest, fails: bool)
    requires BackedInv(f, s)
    ensures BackedInv(f, Step(env, s, Update(r, fails)))
  {
    PatchKeepsProbed(env, s.memory, r);
    if f.reload {
      assert UpdatePatch(env, s.memory, r) == UpdatePatch(env, s.stored, r);
      PatchKeepsProbed(env, s.stored, r);
    }
  }

  lemma ConclusionKeepsBacked(env: Env, f: Faults, s: System, e: Event, mode: Option<Mode>)
    requires e.Test? && BackedInv(f, s) && !(f.finalSave && f.reload) && Permits(f, e)
    requires mode.Some? ==> mode.value in {Strict, JsonObject, PromptJson}
    ensures BackedInv(f, Concluded(env, s, e, Overlay(env, s.memory, e.test), mode))
  {
    if mode.Some? { SavedIsProbed(env, s.memory, e.test, mode.value); }
  }

  lemma TestKeepsBacked(env: Env, f: Faults, s: System, e: Event)
    requires e.Test? && BackedInv(f, s) && !(f.finalSave && f.reload) && Permits(f, e)
    ensures BackedInv(f, Step(env, s, e))
  {
    var tmp := Overlay(env, s.memory, e.test);
    EffectiveIsKnown(tmp, e.answers);
    ConclusionKeepsBacked(env, f, s, e, Outcome(env, tmp, e.answers));
  }

  lemma {:induction false} RunKeepsBacked(env: Env, f: Faults, s: System, es: seq<Event>)
    requires BackedInv(f, s) && !(f.finalSave && f.reload) && Permitted(f, es)
    ensures BackedInv(f, Run(env, s, es))
    decreases |es|
  {
    if es != [] {
      match es[0] {
        case Update(r, fails) => UpdateKeepsBacked(env, f, s, r, fails);
        case Test(_, _, _, _) => TestKeepsBacked(env, f, s, es[0]);
        case _ =>
      }
      RunKeepsBacked(env, f, Step(env, s, es[0]), es[1..]);
    }
  }

  ghost predicate AlwaysBacked(f: Faults) {
    forall env: Env, es :: Permitted(f, es) ==> Backed(Run(env, START, es).memory, Run(env, START, es).passed)
  }

  lemma HalfSavedIsUnbacked()
    ensures var s := Step(OPEN, Step(OPEN, Step(OPEN, START, TEST_U_JSON), TEST_V_HALF), Reload);
            !Backed(s.memory, s.passed)
  {
    OnlyJsonPasses();
    FirstTest(ONLY_JSON, JsonObject);
    HalfSavedProbe(Step(OPEN, START, TEST_U_JSON));
  }

  /** A set flag is backed by some passing probe on every run, unless a lost last save may be followed by a reload. */
  lemma BackedIff(f: Faults)
    ensures AlwaysBacked(f) <==> !(f.finalSave && f.reload)
  {
    if f.finalSave && f.reload {
      HalfSavedIsUnbacked();
      ThreeSteps(OPEN, START, TEST_U_JSON, TEST_V_HALF, Reload);
      assert Permitted(f, [TEST_U_JSON, TEST_V_HALF, Reload]);
    } else {
      forall env: Env, es | Permitted(f, es) ensures Backed(Run(env, START, es).memory, Run(env, START, es).passed) {
        RunKeepsBacked(env, f, START, es);
      }
    }
  }

  // ---------------------------------------------------------------- the policy and the switch

  /** Whatever fails and whenever it reloads: an enabled service has a policy. */
  lemma {:induction false} EnabledHasPolicy(env: Env, s: System, es: seq<Event>)
    requires PolicyInv(env, s.memory) && s.memory.enabled == s.stored.enabled && s.memory.policy == s.stored.policy
    ensures PolicyInv(env, Run(env, s, es).memory)
    decreases |es|
  {
    if es != [] {
      StepKeepsPolicy(env, s, es[0]);
      EnabledHasPolicy(env, Step(env, s, es[0]), es[1..]);
    }
  }

  ghost predicate SameSwitch(s: System, t: System) {
    && t.memory.enabled == s.memory.enabled && t.memory.policy == s.memory.policy
    && t.stored.enabled == s.stored.enabled && t.stored.policy == s.stored.policy
  }

  lemma ConclusionLeavesTheSwitch(env: Env, s: System, e: Event, tmp: Config, mode: Option<Mode>)
    requires e.Test?
    ensures SameSwitch(s, Concluded(env, s, e, tmp, mode))
  {
  }

  lemma TestLeavesTheSwitch(env: Env, s: System, e: Event)
    requires e.Test?
    ensures SameSwitch(s, Tested(env, s, e))
  {
    var tmp := Overlay(env, s.memory, e.test);
    ConclusionLeavesTheSwitch(env, s, e, tmp, Outcome(env, tmp, e.answers));
  }

  lemma UpdateKeepsPolicy(env: Env, s: System, r: UpdateRequest)
    requires s.memory.enabled == s.stored.enabled && s.memory.policy == s.stored.policy && Accepts(env, s.memory, r)
    ensures var p := UpdatePatch(env, s.memory, r);
            var m, d := Apply(s.memory, p), Apply(s.stored, p);
            PolicyInv(env, m) && m.enabled == d.enabled && m.policy == d.policy
  {
    UpdateAppliesCandidate(env, s.memory, r);
  }

  lemma StepKeepsPolicy(env: Env, s: System, e: Event)
    requires PolicyInv(env, s.memory) && s.memory.enabled == s.stored.enabled && s.memory.policy == s.stored.policy
    ensures var t := Step(env, s, e);
            PolicyInv(env, t.memory) && t.memory.enabled == t.stored.enabled && t.memory.policy == t.stored.policy
  {
    match e
    case Update(r, _) => if Accepts(env, s.memory, r) { UpdateKeepsPolicy(env, s, r); }
    case Test(_, _, _, _) => TestLeavesTheSwitch(env, s, e);
    case _ =>
  }

  /** Switching the service on succeeds only with a configured, tested service, and leaves it so. */
  lemma EnablingNeedsATest(env: Env, s: System, r: UpdateRequest)
    requires r.enabled == Some(true) && Accepts(env, s.memory, r)
    ensures CanEnable(env, Step(env, s, Update(r, false)).memory)
  {
    UpdateAppliesCandidate(env, s.memory, r);
  }

  /** A service switched on stays on when its address changes, though the flags are gone. */
  lemma EnabledMayBeUntested(env: Env, s: System, url: string)
    requires s.memory.enabled && PolicyInv(env, s.memory)
    requires url != "" && url != s.memory.baseURL && env.urlOk(url, s.memory.allowPrivate)
    ensures var r := UpdateRequest(None, None, url, "", "", None, None, None, None);
            var t := Step(env, s, Update(r, false)).memory;
            t.enabled && !Flagged(t) && t.baseURL == url
  {
  }

  // ---------------------------------------------------------------- the handlers

  /** The candidate, the options to write, and whether the flags are void: what an update builds up. */
  datatype Draft = Draft(candidate: Config, updates: Patch, invalidated: bool)

  function ProbedDraft(env: Env, c: Config, r: UpdateRequest): Draft {
    var private, url := r.allowPrivate.Or(c.allowPrivate), if r.baseURL != "" then r.baseURL else c.baseURL;
    WithKeyAndModel(env, c, r,
      Draft(c.(allowPrivate := private, baseURL := url),
            NOTHING.(allowPrivate := if private != c.allowPrivate then r.allowPrivate else None,
                     baseURL := if url != c.baseURL then Some(url) else None),
            private != c.allowPrivate || url != c.baseURL))
  }

  function WithKeyAndModel(env: Env, c: Config, r: UpdateRequest, d: Draft): Draft {
    var model, key := if r.model != "" then r.model else d.candidate.model, GivesKey(env, r.apiKey);
    var renamed := r.model != "" && r.model != c.model;
    Draft(d.candidate.(model := model, apiKey := if key then r.apiKey else d.candidate.apiKey),
          d.updates.(model := if renamed then Some(model) else d.updates.model,
                     apiKey := if key then Some(r.apiKey) else d.updates.apiKey),
          d.invalidated || key || renamed)
  }

  function WithMode(c: Config, r: UpdateRequest, d: Draft): Draft {
    var other := r.mode.Some? && r.mode.value != Effective(c);
    Draft(d.candidate.(mode := r.mode.Or(d.candidate.mode)),
          d.updates.(mode := if other || (r.mode.Some? && c.mode.Unset?) then r.mode else d.updates.mode),
          d.invalidated || other)
  }

  function WithPlain(r: UpdateRequest, d: Draft): Draft {
    d.(candidate := d.candidate.(policy := r.policy.Or(d.candidate.policy),
                                 maxAttempts := r.maxAttempts.Or(d.candidate.maxAttempts),
                                 workers := if r.workers.Some? then ClampWorkers(r.workers.value)
                                            else d.candidate.workers),
       updates := d.updates.(policy := if r.policy.Some? then r.policy else d.updates.policy,
                             maxAttempts := if r.maxAttempts.Some? then r.maxAttempts else d.updates.maxAttempts,
                             workers := if r.workers.Some? then Some(ClampWorkers(r.workers.value))
                                        else d.updates.workers))
  }

  function FullDraft(env: Env, c: Config, r: UpdateRequest): Draft {
    var d := WithPlain(r, WithMode(c, r, ProbedDraft(env, c, r)));
    d.(candidate := d.candidate.(enabled := r.enabled.Or(d.candidate.enabled)))
  }

  predicate Switchable(env: Env, r: UpdateRequest, d: Draft) {
    && (r.enabled == Some(true) ==> !d.invalidated && CanEnable(env, d.candidate))
    && (d.candidate.enabled ==> !env.policyBlank(d.candidate.policy))
  }

  /** A draft that is the candidate, its patch but for the switch and flags, and its verdict on the flags. */
  ghost predicate Complete(env: Env, c: Config, r: UpdateRequest, d: Draft) {
    && d.candidate == Candidate(env, c, r)
    && (d.invalidated <==> Invalidates(env, c, r))
    && UpdatePatch(env, c, r) == (var p := d.updates.(enabled := r.enabled);
                                  if d.invalidated
                                  then p.(schemaTested := Some(false), structuredTested := Some(false))
                                  else p)
    && d.updates.enabled == None
  }

  lemma DraftIsComplete(env: Env, c: Config, r: UpdateRequest)
    ensures Complete(env, c, r, FullDraft(env, c, r))
  {
  }

  /** What is checked before the switch is looked at. */
  predicate WellFormed(env: Env, c: Config, r: UpdateRequest) {
    && (r.baseURL != "" ==> env.urlOk(r.baseURL, r.allowPrivate.Or(c.allowPrivate)))
    && (r.mode.Some? ==> r.mode.value in {Strict, JsonObject, PromptJson})
    && (r.maxAttempts.Some? ==> r.maxAttempts.value >= 1)
  }

  lemma AcceptsIff(env: Env, c: Config, r: UpdateRequest, d: Draft)
    requires Complete(env, c, r, d)
    ensures Accepts(env, c, r) <==> WellFormed(env, c, r) && Switchable(env, r, d)
  {
  }

  class Settings {
    var memory: Config
    var stored: Config
    ghost var passed: seq<Probe>
    const env: Env

    constructor (env: Env)
      ensures Contents() == START && this.env == env
    {
      this.env := env;
      memory, stored, passed := DEFAULTS, DEFAULTS, [];
    }

    ghost function Contents(): System
      reads this
    {
      System(memory, stored, passed)
    }

    /** One transaction, then the same values in memory. */
    method Save(updates: Patch, fails: bool) returns (ok: bool)
      modifies `memory, `stored
      ensures ok <==> updates == NOTHING || !fails
      ensures memory == if ok then Apply(old(memory), updates) else old(memory)
      ensures stored == if ok then Apply(old(stored), updates) else old(stored)
    {
      if updates == NOTHING { return true; }
      if fails { return false; }
      stored := Apply(stored, updates);
      memory := Apply(memory, updates);
      return true;
    }

    /** The parts a probe runs with, but for the mode. */
    method TakeProbed(r: UpdateRequest) returns (ok: bool, d: Draft)
      ensures ok <==> (r.baseURL != "" ==> env.urlOk(r.baseURL, r.allowPrivate.Or(memory.allowPrivate)))
      ensures ok ==> d == ProbedDraft(env, memory, r)
    {
      d := Draft(memory, NOTHING, false);
      if r.allowPrivate.Some? {
        d := d.(candidate := d.candidate.(allowPrivate := r.allowPrivate.value));
        if d.candidate.allowPrivate != memory.allowPrivate {
          d := d.(updates := d.updates.(allowPrivate := r.allowPrivate), invalidated := true);
        }
      }
      if r.baseURL != "" {
        if !env.urlOk(r.baseURL, d.candidate.allowPrivate) { return false, d; }
        d := d.(candidate := d.candidate.(baseURL := r.baseURL));
        if r.baseURL != memory.baseURL {
          d := d.(updates := d.updates.(baseURL := Some(r.baseURL)), invalidated := true);
        }
      }
      d := TakeKeyAndModel(r, d);
      return true, d;
    }

    method TakeKeyAndModel(r: UpdateRequest, before: Draft) returns (d: Draft)
      ensures d == WithKeyAndModel(env, memory, r, before)
    {
      d := before;
      if r.apiKey != "" && !env.masked(r.apiKey) {
        d := Draft(d.candidate.(apiKey := r.apiKey), d.updates.(apiKey := Some(r.apiKey)), true);
      }
      if r.model != "" {
        d := d.(candidate := d.candidate.(model := r.model));
        if r.model != memory.model {
          d := d.(updates := d.updates.(model := Some(r.model)), invalidated := true);
        }
      }
    }

    method TakeMode(r: UpdateRequest, before: Draft) returns (ok: bool, d: Draft)
      ensures ok <==> (r.mode.Some? ==> r.mode.value in {Strict, JsonObject, PromptJson})
      ensures ok ==> d == WithMode(memory, r, before)
    {
      d := before;
      if r.mode.Some? {
        var mode := r.mode.value;
        if mode != Strict && mode != JsonObject && mode != PromptJson { return false, d; }
        d := d.(candidate := d.candidate.(mode := mode));
        if mode != Effective(memory) {
          d := d.(updates := d.updates.(mode := Some(mode)), invalidated := true);
        } else if memory.mode.Unset? {
          d := d.(updates := d.updates.(mode := Some(mode)));
        }
      }
      return true, d;
    }

    method TakePlain(r: UpdateRequest, before: Draft) returns (ok: bool, d: Draft)
      ensures ok <==> (r.maxAttempts.Some? ==> r.maxAttempts.value >= 1)
      ensures ok ==> d == WithPlain(r, before)
    {
      d := before;
      if r.policy.Some? {
        d := d.(candidate := d.candidate.(policy := r.policy.value), updates := d.updates.(policy := r.policy));
      }
      if r.maxAttempts.Some? {
        if r.maxAttempts.value < 1 { return false, d; }
        d := d.(candidate := d.candidate.(maxAttempts := r.maxAttempts.value),
                updates := d.updates.(maxAttempts := r.maxAttempts));
      }
      if r.workers.Some? {
        var workers := ClampWorkers(r.workers.value);
        d := d.(candidate := d.candidate.(workers := workers), updates := d.updates.(workers := Some(workers)));
      }
      return true, d;
    }

    method Collect(r: UpdateRequest) returns (ok: bool, d: Draft)
      ensures ok <==> WellFormed(env, memory, r)
      ensures ok ==> Complete(env, memory, r, d)
    {
      ok, d := TakeProbed(r);
      if !ok { return; }
      ok, d := TakeMode(r, d);
      if !ok { return; }
      ok, d := TakePlain(r, d);
      if !ok { return; }
      if r.enabled.Some? { d := d.(candidate := d.candidate.(enabled := r.enabled.value)); }
      assert d == FullDraft(env, memory, r);
      DraftIsComplete(env, memory, r);
    }

    /** A rejected or failed update changes nothing at all. */
    method UpdateConfig(r: UpdateRequest, saveFails: bool) returns (ok: bool)
      modifies `memory, `stored
      ensures ok ==> Accepts(env, old(memory), r)
      ensures !ok ==> memory == old(memory) && stored == old(stored)
      ensures Contents() == Step(env, old(Contents()), Update(r, saveFails))
    {
      var collected, d := Collect(r);
      if !collected { return false; }
      AcceptsIff(env, memory, r, d);
      ok := Finish(r, d, saveFails);
    }

    /** The enabling checks, and the save. */
    method Finish(r: UpdateRequest, d: Draft, saveFails: bool) returns (ok: bool)
      requires Complete(env, memory, r, d)
      modifies `memory, `stored
      ensures var accepted := Switchable(env, r, d);
              var p := UpdatePatch(env, old(memory), r);
              && (ok <==> accepted && (p == NOTHING || !saveFails))
              && memory == (if ok then Apply(old(memory), p) else old(memory))
              && stored == (if ok then Apply(old(stored), p) else old(stored))
    {
      var candidate, updates := d.candidate, d.updates;
      if r.enabled == Some(true) {
        if !Configured(candidate) { return false; }
        if env.policyBlank(candidate.policy) { return false; }
        if d.invalidated { return false; }
        if !CanEnable(env, candidate) { return false; }
      }
      if r.enabled.Some? { updates := updates.(enabled := r.enabled); }
      if candidate.enabled && env.policyBlank(candidate.policy) { return false; }
      if updates == NOTHING { return true; }
      if d.invalidated { updates := updates.(schemaTested := Some(false), structuredTested := Some(false)); }
      ok := Save(updates, saveFails);
    }

    method OverlayNames(r: TestRequest) returns (tmp: Config, changed: bool)
      ensures tmp == Overlaid(memory, r)
      ensures changed <==> tmp.baseURL != memory.baseURL || tmp.model != memory.model || tmp.mode != memory.mode
    {
      tmp, changed := memory, false;
      if r.baseURL != "" {
        changed := changed || tmp.baseURL != r.baseURL;
        tmp := tmp.(baseURL := r.baseURL);
      }
      if r.model != "" {
        changed := changed || tmp.model != r.model;
        tmp := tmp.(model := r.model);
      }
      if r.mode.Some? {
        changed := changed || tmp.mode != r.mode.value;
        tmp := tmp.(mode := r.mode.value);
      }
    }

    method OverlayKey(r: TestRequest, named: Config, namesChanged: bool) returns (tmp: Config, changed: bool)
      ensures tmp == named.(apiKey := if GivesKey(env, r.apiKey) then r.apiKey else named.apiKey)
      ensures changed <==> namesChanged || GivesKey(env, r.apiKey)
    {
      tmp, changed := named, namesChanged;
      if r.apiKey != "" && !env.masked(r.apiKey) {
        tmp, changed := tmp.(apiKey := r.apiKey), true;
      }
    }

    method OverlayPrivate(r: TestRequest, keyed: Config, keyChanged: bool) returns (tmp: Config, changed: bool)
      ensures tmp == keyed.(allowPrivate := r.allowPrivate.Or(keyed.allowPrivate))
      ensures changed <==> keyChanged || tmp.allowPrivate != keyed.allowPrivate
    {
      tmp, changed := keyed, keyChanged;
      if r.allowPrivate.Some? {
        changed := changed || tmp.allowPrivate != r.allowPrivate.value;
        tmp := tmp.(allowPrivate := r.allowPrivate.value);
      }
    }

    method ApplyCandidate(r: TestRequest) returns (tmp: Config)
      ensures tmp == Overlay(env, memory, r)
    {
      var changed;
      tmp, changed := OverlayNames(r);
      tmp, changed := OverlayKey(r, tmp, changed);
      tmp, changed := OverlayPrivate(r, tmp, changed);
      if changed { tmp := tmp.(schemaTested := false, structuredTested := false); }
    }

    method ProbeCapability(tmp: Config, answers: Answers) returns (mode: Option<Mode>)
      ensures mode == FirstPassing(ModesToTry(tmp), answers)
    {
      var modes := [Strict, JsonObject, PromptJson];
      if tmp.structuredTested || tmp.schemaTested { modes := [Effective(tmp)]; }
      assert modes == ModesToTry(tmp);
      var i := 0;
      while i < |modes|
        invariant 0 <= i <= |modes|
        invariant FirstPassing(modes[i..], answers) == FirstPassing(modes, answers)
      {
        assert modes[i..][1..] == modes[i + 1..];
        match answers.In(modes[i]) {
          case Passes => return Some(modes[i]);
          case FallsBack => i := i + 1;
          case Fails => return None;
        }
      }
      return None;
    }

    method TestSchema(r: TestRequest, answers: Answers, candidateSaveFails: bool, finalSaveFails: bool)
      returns (ok: bool)
      modifies this
      ensures Contents() == Step(env, old(Contents()), Test(r, answers, candidateSaveFails, finalSaveFails))
    {
      var tmp := ApplyCandidate(r);
      if !Configured(tmp) { return false; }
      var mode := None;
      if env.urlOk(tmp.baseURL, tmp.allowPrivate) { mode := ProbeCapability(tmp, answers); }
      if mode.None? {
        RecordFailure(finalSaveFails);
        return false;
      }
      passed := passed + [ProbeOf(tmp, mode.value)];
      var updates := CandidateUpdates(tmp, r);
      var saved := Save(updates, candidateSaveFails);
      if !saved { return false; }
      ok := RecordPass(mode.value, finalSaveFails);
    }

    method RecordFailure(saveFails: bool)
      modifies `memory, `stored
      ensures memory == Reset(old(memory)) && stored == if saveFails then old(stored) else Reset(old(stored))
    {
      memory := Reset(memory);
      var _ := Save(NOTHING.(schemaTested := Some(false), structuredTested := Some(false)), saveFails);
    }

    method CandidateUpdates(tmp: Config, r: TestRequest) returns (updates: Patch)
      ensures updates == CandidatePatch(env, memory, tmp, r)
    {
      updates := NOTHING;
      if tmp.baseURL != memory.baseURL { updates := updates.(baseURL := Some(tmp.baseURL)); }
      if tmp.model != memory.model { updates := updates.(model := Some(tmp.model)); }
      if r.apiKey != "" && !env.masked(r.apiKey) { updates := updates.(apiKey := Some(r.apiKey)); }
      if tmp.allowPrivate != memory.allowPrivate { updates := updates.(allowPrivate := Some(tmp.allowPrivate)); }
      if !tmp.mode.Unset? && tmp.mode != memory.mode { updates := updates.(mode := Some(tmp.mode)); }
    }

    method RecordPass(mode: Mode, saveFails: bool) returns (ok: bool)
      modifies `memory, `stored
      ensures memory == Mark(old(memory), mode) && stored == if saveFails then old(stored) else Mark(old(stored), mode)
      ensures ok == !saveFails
    {
      memory := Mark(memory, mode);
      ok := Save(NOTHING.(mode := Some(mode), structuredTested := Some(true), schemaTested := Some(mode.Strict?)),
                 saveFails);
    }

    method ClearKey(saveFails: bool) returns (ok: bool)
      modifies `memory, `stored
      ensures Contents() == Step(env, old(Contents()), Clear(saveFails))
      ensures ok ==> memory.apiKey == "" && !Flagged(memory)
    {
      ok := Save(NOTHING.(apiKey := Some(""), schemaTested := Some(false), structuredTested := Some(false)), saveFails);
    }

    /** The periodic synchronisation with the option table. */
    method ReloadOptions()
      modifies `memory
      ensures Contents() == Step(env, old(Contents()), Reload)
    {
      memory := stored;
    }

    method Handle(e: Event)
      modifies this
      ensures Contents() == Step(env, old(Contents()), e)
    {
      match e {
        case Update(r, fails) => var _ := UpdateConfig(r, fails);
        case Test(r, answers, candidateFails, finalFails) =>
          var _ := TestSchema(r, answers, candidateFails, finalFails);
        case Clear(fails) => var _ := ClearKey(fails);
        case Reload => ReloadOptions();
      }
    }

    /** Any run of handlers leaves the modelled system; free of the two faults, its flags are certified. */
    method Replay(es: seq<Event>, ghost f: Faults)
      requires Inv(f, Contents()) && Sound(f) && Permitted(f, es)
      modifies this
      ensures Contents() == Run(env, old(Contents()), es)
      ensures Certified(memory, passed)
      decreases |es|
    {
      if es != [] {
        StepKeepsInv(env, f, Contents(), es[0]);
        Handle(es[0]);
        Replay(es[1..], f);
      }
    }
  }
}
