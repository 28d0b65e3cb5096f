/**
 The sliding window behind `Request`: one queue of admission times (whole seconds) per key,
 a background sweep that forgets idle keys, and the promise that no window of `duration`
 seconds ever admits more than `limit` calls.

 The mutex makes every call one atomic step, so a run is a sequence of events. The clock is an
 argument of each event. `log` is history kept only for the proof: every admission of a key.
 */
module RequestWindow {

  datatype Policy = Policy(limit: int, duration: int)

  /** The limiter: live queues, full admission history, and the time of the last event. */
  datatype State = State(store: map<string, seq<int>>, log: map<string, seq<int>>, clock: int)

  datatype Event =
    | Ask(key: string, now: int)
    | Sweep(now: int)

  const EMPTY := State(map[], map[], 0)

  function QueueOf(store: map<string, seq<int>>, key: string): seq<int> {
    if key in store then store[key] else []
  }

  /** Whether a call at `now` is admitted against the stored queue. */
  predicate Admits(store: map<string, seq<int>>, key: string, p: Policy, now: int)
    requires p.limit >= 1
  {
    key !in store || |store[key]| < p.limit || now - store[key][0] >= p.duration
  }

  /** The queue after an admission: the oldest entry makes room once the queue is full. */
  function Admitted(q: seq<int>, p: Policy, now: int): seq<int>
    requires p.limit >= 1
  {
    if |q| < p.limit then q + [now] else q[1..] + [now]
  }

  predicate Stale(q: seq<int>, expiration: int, now: int) {
    |q| == 0 || now - q[|q| - 1] > expiration
  }

  function Swept(store: map<string, seq<int>>, expiration: int, now: int): map<string, seq<int>> {
    map key | key in store && !Stale(store[key], expiration, now) :: store[key]
  }

  function Step(policy: string -> Policy, expiration: int, s: State, e: Event): State
    requires forall key :: policy(key).limit >= 1
  {
    match e
    case Ask(key, now) =>
      var p := policy(key);
      if Admits(s.store, key, p, now) then
        State(s.store[key := Admitted(QueueOf(s.store, key), p, now)],
              s.log[key := QueueOf(s.log, key) + [now]], now)
      else
        s.(clock := now)
    case Sweep(now) =>
      State(Swept(s.store, expiration, now), s.log, now)
  }

  /** Events whose times never run backwards. */
  predicate Timed(clock: int, es: seq<Event>)
    decreases |es|
  {
    es == [] || (clock <= es[0].now && Timed(es[0].now, es[1..]))
  }

  function Run(policy: string -> Policy, expiration: int, s: State, es: seq<Event>): State
    requires forall key :: policy(key).limit >= 1
    decreases |es|
  {
    if es == [] then s else Run(policy, expiration, Step(policy, expiration, s, es[0]), es[1..])
  }

  // ---------------------------------------------------------------- the promise

  /** Admissions `limit` apart are at least `duration` apart in time. */
  ghost predicate Spaced(log: seq<int>, p: Policy)
    requires p.limit >= 1
  {
    forall i :: 0 <= i < |log| - p.limit ==> log[i + p.limit] - log[i] >= p.duration
  }

  ghost predicate Ordered(log: seq<int>, clock: int) {
    && (forall i, j :: 0 <= i < j < |log| ==> log[i] <= log[j])
    && (forall i :: 0 <= i < |log| ==> log[i] <= clock)
  }

  /** How many admissions fall into the window [from, from + duration). */
  function Hits(log: seq<int>, from: int, duration: int): (n: nat)
    ensures n <= |log|
  {
    if log == [] then 0
    else (if from <= log[0] < from + duration then 1 else 0) + Hits(log[1..], from, duration)
  }

  /**
   What every step keeps for one key: the queue is the tail of the history, and whatever
   history it has forgotten is already a full window old, or the queue is full.
   */
  ghost predicate KeyInv(q: seq<int>, log: seq<int>, p: Policy, clock: int)
    requires p.limit >= 1
  {
    && Ordered(log, clock)
    && Spaced(log, p)
    && |q| <= p.limit
    && |q| <= |log|
    && q == log[|log| - |q|..]
    && (|q| == p.limit || forall i :: 0 <= i < |log| - |q| ==> clock - log[i] >= p.duration)
  }

  ghost predicate Inv(policy: string -> Policy, s: State)
    requires forall key :: policy(key).limit >= 1
  {
    && s.store.Keys <= s.log.Keys
    && forall key :: key in s.log ==> KeyInv(QueueOf(s.store, key), s.log[key], policy(key), s.clock)
  }

  lemma AdmissionKeepsSpacing(log: seq<int>, p: Policy, clock: int, now: int)
    requires p.limit >= 1 && clock <= now && Ordered(log, clock) && Spaced(log, p)
    requires |log| < p.limit || now - log[|log| - p.limit] >= p.duration
    ensures Ordered(log + [now], now) && Spaced(log + [now], p)
  {
  }

  lemma AdmissionKeepsKeyInv(q: seq<int>, log: seq<int>, p: Policy, clock: int, now: int)
    requires p.limit >= 1 && clock <= now && KeyInv(q, log, p, clock)
    requires |q| < p.limit || now - q[0] >= p.duration
    ensures KeyInv(Admitted(q, p, now), log + [now], p, now)
  {
    AdmissionKeepsSpacing(log, p, clock, now);
    var q', log' := Admitted(q, p, now), log + [now];
    assert q' == log'[|log'| - |q'|..];
  }

  lemma SweepKeepsKeyInv(q: seq<int>, log: seq<int>, p: Policy, expiration: int, clock: int, now: int)
    requires p.limit >= 1 && clock <= now && KeyInv(q, log, p, clock)
    requires p.duration <= expiration + 1
    ensures KeyInv(if Stale(q, expiration, now) then [] else q, log, p, now)
  {
    if |q| > 0 && Stale(q, expiration, now) {
      assert log[|log| - 1] == q[|q| - 1];
    }
  }

  lemma ClockKeepsKeyInv(q: seq<int>, log: seq<int>, p: Policy, clock: int, now: int)
    requires p.limit >= 1 && clock <= now && KeyInv(q, log, p, clock)
    ensures KeyInv(q, log, p, now)
  {
  }

  lemma NewKeyInv(p: Policy, clock: int)
    requires p.limit >= 1
    ensures KeyInv([], [], p, clock)
  {
  }

  lemma AdmittedKeyInv(policy: string -> Policy, s: State, key: string, now: int)
    requires forall key :: policy(key).limit >= 1
    requires Inv(policy, s) && s.clock <= now && Admits(s.store, key, policy(key), now)
    ensures KeyInv(Admitted(QueueOf(s.store, key), policy(key), now), QueueOf(s.log, key) + [now], policy(key), now)
  {
    var q, log, p := QueueOf(s.store, key), QueueOf(s.log, key), policy(key);
    if key !in s.log { NewKeyInv(p, s.clock); }
    AdmissionKeepsKeyInv(q, log, p, s.clock, now);
  }

  lemma AskKeepsInv(policy: string -> Policy, expiration: int, s: State, asked: string, now: int)
    requires forall key :: policy(key).limit >= 1
    requires Inv(policy, s) && s.clock <= now
    ensures Inv(policy, Step(policy, expiration, s, Ask(asked, now)))
  {
    var t := Step(policy, expiration, s, Ask(asked, now));
    forall key | key in t.log
      ensures KeyInv(QueueOf(t.store, key), t.log[key], policy(key), t.clock)
    {
      if key == asked && Admits(s.store, key, policy(key), now) {
        AdmittedKeyInv(policy, s, key, now);
      } else {
        ClockKeepsKeyInv(QueueOf(s.store, key), s.log[key], policy(key), s.clock, now);
      }
    }
  }

  lemma SweepKeepsInv(policy: string -> Policy, expiration: int, s: State, now: int)
    requires forall key :: policy(key).limit >= 1 && policy(key).duration <= expiration + 1
    requires Inv(policy, s) && s.clock <= now
    ensures Inv(policy, Step(policy, expiration, s, Sweep(now)))
  {
    var t := Step(policy, expiration, s, Sweep(now));
    forall key | key in t.log
      ensures KeyInv(QueueOf(t.store, key), t.log[key], policy(key), t.clock)
    {
      SweepKeepsKeyInv(QueueOf(s.store, key), s.log[key], policy(key), expiration, s.clock, now);
    }
  }

  lemma StepKeepsInv(policy: string -> Policy, expiration: int, s: State, e: Event)
    requires forall key :: policy(key).limit >= 1 && policy(key).duration <= expiration + 1
    requires Inv(policy, s) && s.clock <= e.now
    ensures Inv(policy, Step(policy, expiration, s, e))
  {
    match e
    case Ask(asked, now) => AskKeepsInv(policy, expiration, s, asked, now);
    case Sweep(now) => SweepKeepsInv(policy, expiration, s, now);
  }

  lemma {:induction false} RunKeepsInv(policy: string -> Policy, expiration: int, s: State, es: seq<Event>)
    requires forall key :: policy(key).limit >= 1 && policy(key).duration <= expiration + 1
    requires Inv(policy, s) && Timed(s.clock, es)
    ensures Inv(policy, Run(policy, expiration, s, es))
    decreases |es|
  {
    if es != [] {
      StepKeepsInv(policy, expiration, s, es[0]);
      RunKeepsInv(policy, expiration, Step(policy, expiration, s, es[0]), es[1..]);
    }
  }

  lemma {:induction false} HitsEmptyBefore(log: seq<int>, from: int, duration: int)
    requires forall i :: 0 <= i < |log| ==> log[i] >= from + duration
    ensures Hits(log, from, duration) == 0
  {
    if log != [] { HitsEmptyBefore(log[1..], from, duration); }
  }

  lemma {:induction false} HitsPrefix(log: seq<int>, n: nat, from: int, duration: int)
    requires n <= |log|
    requires forall i :: n <= i < |log| ==> log[i] >= from + duration
    ensures Hits(log, from, duration) <= n
  {
    if n == 0 {
      HitsEmptyBefore(log, from, duration);
    } else {
      HitsPrefix(log[1..], n - 1, from, duration);
    }
  }

  /** Spacing of the history is the same as no window holding more than `limit` admissions. */
  lemma {:induction false} SpacedBoundsHits(log: seq<int>, p: Policy, clock: int, from: int)
    requires p.limit >= 1 && Ordered(log, clock) && Spaced(log, p)
    ensures Hits(log, from, p.duration) <= p.limit
  {
    if log != [] {
      if from <= log[0] {
        forall i | p.limit <= i < |log| ensures log[i] >= from + p.duration {
          assert log[0 + p.limit] - log[0] >= p.duration;
        }
        if p.limit <= |log| { HitsPrefix(log, p.limit, from, p.duration); }
      } else {
        assert Spaced(log[1..], p) by {
          forall i | 0 <= i < |log[1..]| - p.limit
            ensures log[1..][i + p.limit] - log[1..][i] >= p.duration
          {
            assert log[(i + 1) + p.limit] - log[i + 1] >= p.duration;
          }
        }
        SpacedBoundsHits(log[1..], p, clock, from);
      }
    }
  }

  /**
   The safety theorem: from an empty limiter, over every run of calls and sweeps, for every key
   and every window, at most `limit` calls are admitted.
   */
  lemma WindowNeverOverfull(policy: string -> Policy, expiration: int, es: seq<Event>, key: string, from: int)
    requires forall k :: policy(k).limit >= 1 && policy(k).duration <= expiration + 1
    requires Timed(0, es)
    ensures var s := Run(policy, expiration, EMPTY, es);
            && Spaced(QueueOf(s.log, key), policy(key))
            && Hits(QueueOf(s.log, key), from, policy(key).duration) <= policy(key).limit
  {
    RunKeepsInv(policy, expiration, EMPTY, es);
    var s := Run(policy, expiration, EMPTY, es);
    if key in s.log {
      SpacedBoundsHits(s.log[key], policy(key), s.clock, from);
    }
  }

  // ---------------------------------------------------------------- who is let in

  /** Fewer than `limit` admissions so far, or the one `limit` back is a full window old. */
  predicate Free(log: seq<int>, p: Policy, now: int)
    requires p.limit >= 1
  {
    |log| < p.limit || now - log[|log| - p.limit] >= p.duration
  }

  /** The queue is the end of the log, no longer than the limit. */
  ghost predicate IsTail(q: seq<int>, log: seq<int>, limit: int) {
    |q| <= limit && |q| <= |log| && q == log[|log| - |q|..]
  }

  ghost predicate TailInv(policy: string -> Policy, s: State) {
    forall key :: key in s.store ==> IsTail(s.store[key], QueueOf(s.log, key), policy(key).limit)
  }

  lemma AdmittedIsTail(q: seq<int>, log: seq<int>, p: Policy, now: int)
    requires p.limit >= 1 && IsTail(q, log, p.limit)
    ensures IsTail(Admitted(q, p, now), log + [now], p.limit)
  {
  }

  lemma AskKeepsTail(policy: string -> Policy, s: State, key: string, now: int)
    requires forall key :: policy(key).limit >= 1
    requires TailInv(policy, s)
    ensures IsTail(Admitted(QueueOf(s.store, key), policy(key), now), QueueOf(s.log, key) + [now], policy(key).limit)
  {
    var q, log, p := QueueOf(s.store, key), QueueOf(s.log, key), policy(key);
    assert IsTail(q, log, p.limit) by {
      if key !in s.store { assert log[|log|..] == []; }
    }
    AdmittedIsTail(q, log, p, now);
  }

  lemma StepKeepsTails(policy: string -> Policy, expiration: int, s: State, e: Event)
    requires forall key :: policy(key).limit >= 1
    requires TailInv(policy, s)
    ensures TailInv(policy, Step(policy, expiration, s, e))
  {
    var t := Step(policy, expiration, s, e);
    forall key | key in t.store ensures IsTail(t.store[key], QueueOf(t.log, key), policy(key).limit) {
      if e.Ask? && key == e.key && Admits(s.store, key, policy(key), e.now) {
        AskKeepsTail(policy, s, key, e.now);
      } else {
        assert IsTail(s.store[key], QueueOf(s.log, key), policy(key).limit);
      }
    }
  }

  lemma {:induction false} RunKeepsTails(policy: string -> Policy, expiration: int, s: State, es: seq<Event>)
    requires forall key :: policy(key).limit >= 1
    requires TailInv(policy, s)
    ensures TailInv(policy, Run(policy, expiration, s, es))
    decreases |es|
  {
    if es != [] {
      StepKeepsTails(policy, expiration, s, es[0]);
      RunKeepsTails(policy, expiration, Step(policy, expiration, s, es[0]), es[1..]);
    }
  }

  /** Over every run, whatever the sweep's expiration and the clocks: a call that finds room is admitted and logged. */
  lemma FreeIsAdmitted(policy: string -> Policy, expiration: int, es: seq<Event>, key: string, now: int)
    requires forall k :: policy(k).limit >= 1
    requires Free(QueueOf(Run(policy, expiration, EMPTY, es).log, key), policy(key), now)
    ensures var s := Run(policy, expiration, EMPTY, es);
            && Admits(s.store, key, policy(key), now)
            && QueueOf(Step(policy, expiration, s, Ask(key, now)).log, key) == QueueOf(s.log, key) + [now]
  {
    var s := Run(policy, expiration, EMPTY, es);
    RunKeepsTails(policy, expiration, EMPTY, es);
    assert key in s.store ==> IsTail(s.store[key], QueueOf(s.log, key), policy(key).limit);
  }

  /**
   Over every run whose windows the sweep does not cut short: a call is admitted, and logged, exactly when fewer
   than `limit` calls have been admitted for the key, or the one `limit` back was a full window ago.
   */
  lemma AdmittedIff(policy: string -> Policy, expiration: int, es: seq<Event>, key: string, now: int)
    requires forall k :: policy(k).limit >= 1 && policy(k).duration <= expiration + 1
    requires Timed(0, es) && Run(policy, expiration, EMPTY, es).clock <= now
    ensures var s := Run(policy, expiration, EMPTY, es);
            var free := Free(QueueOf(s.log, key), policy(key), now);
            && (Admits(s.store, key, policy(key), now) <==> free)
            && QueueOf(Step(policy, expiration, s, Ask(key, now)).log, key)
               == if free then QueueOf(s.log, key) + [now] else QueueOf(s.log, key)
  {
    var s := Run(policy, expiration, EMPTY, es);
    RunKeepsInv(policy, expiration, EMPTY, es);
    if key in s.log {
      assert KeyInv(QueueOf(s.store, key), s.log[key], policy(key), s.clock);
    }
  }

  // ---------------------------------------------------------------- exactly when it holds

  function Everywhere(p: Policy): (policy: string -> Policy)
    ensures forall key :: policy(key) == p
  {
    (key: string) => p
  }

  /** Admissions of `key` inside one window, after a run from the empty limiter. */
  ghost function HitsAfter(p: Policy, expiration: int, es: seq<Event>, key: string, from: int): nat
    requires p.limit >= 1
  {
    Hits(QueueOf(Run(Everywhere(p), expiration, EMPTY, es).log, key), from, p.duration)
  }

  /** Every run, at every key, keeps every window within the limit. */
  ghost predicate AlwaysWithinLimit(p: Policy, expiration: int)
    requires p.limit >= 1
  {
    forall es, key, from :: Timed(0, es) ==> HitsAfter(p, expiration, es, key, from) <= p.limit
  }

  function Burst(key: string, n: nat): seq<Event> {
    if n == 0 then [] else [Ask(key, 0)] + Burst(key, n - 1)
  }

  function Zeros(n: nat): seq<int> { if n == 0 then [] else [0] + Zeros(n - 1) }

  lemma {:induction false} ZerosAre(n: nat)
    ensures |Zeros(n)| == n && forall i :: 0 <= i < n ==> Zeros(n)[i] == 0
    ensures Zeros(n) + [0] == Zeros(n + 1)
  {
    if n > 0 { ZerosAre(n - 1); }
  }

  lemma {:induction false} HitsOfBurst(n: nat, last: int, duration: int)
    requires 0 <= last < duration
    ensures Hits(Zeros(n) + [last], 0, duration) == n + 1
  {
    if n == 0 {
      assert Zeros(0) + [last] == [last];
      assert Hits([last], 0, duration) == 1 + Hits([last][1..], 0, duration);
    } else {
      assert (Zeros(n) + [last])[1..] == Zeros(n - 1) + [last];
      HitsOfBurst(n - 1, last, duration);
    }
  }

  /** A burst that fills the queue, a sweep `expiration + 1` later, and one more call. */
  function Refill(p: Policy, expiration: int): seq<Event>
    requires p.limit >= 1
  {
    Burst("k", p.limit) + [Sweep(expiration + 1), Ask("k", expiration + 1)]
  }

  /** The limiter after `n` calls at time 0. */
  function After(n: nat): State {
    if n == 0 then EMPTY else State(map["k" := Zeros(n)], map["k" := Zeros(n)], 0)
  }

  lemma BurstStep(p: Policy, expiration: int, done: nat)
    requires p.limit >= 1 && done < p.limit
    ensures Step(Everywhere(p), expiration, After(done), Ask("k", 0)) == After(done + 1)
  {
    ZerosAre(done);
  }

  lemma BurstFirst(n: nat, rest: seq<Event>)
    requires n > 0
    ensures var es := Burst("k", n) + rest; es[0] == Ask("k", 0) && es[1..] == Burst("k", n - 1) + rest
  {
  }

  lemma RunsFirst(p: Policy, expiration: int, s: State, es: seq<Event>)
    requires p.limit >= 1 && es != []
    ensures Run(Everywhere(p), expiration, s, es)
         == Run(Everywhere(p), expiration, Step(Everywhere(p), expiration, s, es[0]), es[1..])
  {
  }

  lemma {:induction false} BurstRuns(p: Policy, expiration: int, done: nat, todo: nat, rest: seq<Event>)
    requires p.limit >= 1 && done + todo <= p.limit
    ensures Run(Everywhere(p), expiration, After(done), Burst("k", todo) + rest)
         == Run(Everywhere(p), expiration, After(done + todo), rest)
    decreases todo
  {
    if todo == 0 {
      assert Burst("k", 0) + rest == rest;
    } else {
      BurstFirst(todo, rest);
      BurstStep(p, expiration, done);
      RunsFirst(p, expiration, After(done), Burst("k", todo) + rest);
      BurstRuns(p, expiration, done + 1, todo - 1, rest);
    }
  }

  lemma {:induction false} BurstTimed(n: nat, rest: seq<Event>)
    requires Timed(0, rest)
    ensures Timed(0, Burst("k", n) + rest)
  {
    if n == 0 {
      assert Burst("k", 0) + rest == rest;
    } else {
      BurstTimed(n - 1, rest);
      BurstFirst(n, rest);
    }
  }

  /** When the sweep forgets a key before its window closes, limit + 1 calls share a window. */
  lemma EarlySweepOverfills(p: Policy, expiration: int)
    requires p.limit >= 1 && expiration >= 0 && p.duration > expiration + 1
    ensures Timed(0, Refill(p, expiration))
    ensures HitsAfter(p, expiration, Refill(p, expiration), "k", 0) == p.limit + 1
  {
    var at := expiration + 1;
    var rest := [Sweep(at), Ask("k", at)];
    assert Timed(0, rest) by {
      assert rest[1..] == [Ask("k", at)];
      assert rest[1..][1..] == [];
    }
    BurstTimed(p.limit, rest);
    BurstRuns(p, expiration, 0, p.limit, rest);
    ZerosAre(p.limit);
    var full := After(p.limit);
    var swept := Step(Everywhere(p), expiration, full, rest[0]);
    assert swept.store == map[];
    var last := Step(Everywhere(p), expiration, swept, rest[1]);
    assert last.log["k"] == Zeros(p.limit) + [at];
    assert rest[1..][1..] == [];
    assert Run(Everywhere(p), expiration, swept, rest[1..]) == Run(Everywhere(p), expiration, last, []);
    assert Run(Everywhere(p), expiration, full, rest) == last;
    HitsOfBurst(p.limit, at, p.duration);
  }

  /**
   The limit is kept on every run exactly when the window is no longer than the sweep's
   expiration plus the one second its strict comparison leaves over.
   */
  lemma LimitHoldsIff(p: Policy, expiration: int)
    requires p.limit >= 1 && expiration >= 0
    ensures AlwaysWithinLimit(p, expiration) <==> p.duration <= expiration + 1
  {
    if p.duration <= expiration + 1 {
      forall es, key, from | Timed(0, es)
        ensures HitsAfter(p, expiration, es, key, from) <= p.limit
      {
        WindowNeverOverfull(Everywhere(p), expiration, es, key, from);
      }
    } else {
      EarlySweepOverfills(p, expiration);
    }
  }
}
