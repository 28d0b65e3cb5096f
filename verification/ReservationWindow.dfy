/**
 The refundable window behind `ReserveWithWindow` and `Release`, for one key: a queue of grant
 times in nanoseconds, pruned on every attempt, from which a release takes its own grant back.

 `grants` is history kept only for the proof: every grant ever made and whether it was released.
 */
module ReservationWindow {

  const SECOND := 1_000_000_000

  datatype Grant = Grant(stamp: int, released: bool)

  /** `cutoff` is the prune boundary of the last attempt, `clock` the time of the last event. */
  datatype Window = Window(queue: seq<int>, grants: seq<Grant>, cutoff: int, clock: int)

  /** A sweep is one pass of the limiter's background loop, with its expiration in whole seconds. */
  datatype Event =
    | Reserve(now: int)
    | Release(grant: nat, now: int)
    | Sweep(expiration: int, now: int)

  /** What a caller of `ReserveWithWindow` sees. */
  datatype Reply = Reply(allowed: bool, current: int, windowStart: int, windowEnd: int)

  // ---------------------------------------------------------------- the queue algebra

  /** Drops the leading entries at or before the cutoff. */
  function Prune(queue: seq<int>, cutoff: int): seq<int> {
    if queue != [] && queue[0] <= cutoff then Prune(queue[1..], cutoff) else queue
  }

  /** Takes out the first entry equal to `stamp`, if there is one. */
  function Without(queue: seq<int>, stamp: int): seq<int> {
    if queue == [] then []
    else if queue[0] == stamp then queue[1..]
    else [queue[0]] + Without(queue[1..], stamp)
  }

  /** Integer division as Go does it: toward zero. */
  function Quotient(a: int, b: int): int
    requires b > 0
  {
    if a >= 0 then a / b else -((-a) / b)
  }

  function WindowEnd(oldest: int, duration: int): int {
    Quotient(oldest + duration * SECOND + SECOND - 1, SECOND)
  }

  function Answer(active: seq<int>, limit: int, duration: int): Reply
    requires limit >= 1
  {
    if |active| >= limit then
      Reply(false, |active| + 1, active[0] / SECOND, WindowEnd(active[0], duration))
    else
      Reply(true, |active| + 1, 0, 0)
  }

  function Attempt(queue: seq<int>, limit: int, duration: int, now: int): seq<int>
    requires limit >= 1
  {
    var active := Prune(queue, now - duration * SECOND);
    if |active| >= limit then active else active + [now]
  }

  ghost predicate Sorted(queue: seq<int>) {
    forall i, j :: 0 <= i < j < |queue| ==> queue[i] <= queue[j]
  }

  /** Pruning a sorted queue keeps exactly the entries newer than the cutoff, in order. */
  lemma {:induction false} PruneKeepsNewer(queue: seq<int>, cutoff: int)
    requires Sorted(queue)
    ensures Sorted(Prune(queue, cutoff))
    ensures |Prune(queue, cutoff)| <= |queue|
    ensures Prune(queue, cutoff) == queue[|queue| - |Prune(queue, cutoff)|..]
    ensures forall i :: 0 <= i < |queue| - |Prune(queue, cutoff)| ==> queue[i] <= cutoff
    ensures forall i :: 0 <= i < |Prune(queue, cutoff)| ==> Prune(queue, cutoff)[i] > cutoff
  {
    if queue != [] && queue[0] <= cutoff {
      PruneKeepsNewer(queue[1..], cutoff);
    }
  }

  lemma {:induction false} WithoutTakesOne(queue: seq<int>, stamp: int)
    ensures stamp !in queue ==> Without(queue, stamp) == queue
    ensures stamp in queue ==> |Without(queue, stamp)| == |queue| - 1
  {
    if queue != [] && queue[0] != stamp { WithoutTakesOne(queue[1..], stamp); }
  }

  // ---------------------------------------------------------------- the grant history

  predicate Live(g: Grant, cutoff: int) { !g.released && g.stamp > cutoff }

  /** Times of the unreleased grants newer than the cutoff, in the order they were made. */
  function Outstanding(grants: seq<Grant>, cutoff: int): seq<int> {
    if grants == [] then []
    else
      var rest := Outstanding(grants[1..], cutoff);
      if Live(grants[0], cutoff) then [grants[0].stamp] + rest else rest
  }

  /** How many unreleased grants were made in the half-open interval (from, to]. */
  function Held(grants: seq<Grant>, from: int, to: int): nat {
    if grants == [] then 0
    else (if Live(grants[0], from) && grants[0].stamp <= to then 1 else 0) + Held(grants[1..], from, to)
  }

  function Released(grants: seq<Grant>, k: nat): seq<Grant>
    requires k < |grants|
  {
    grants[k := grants[k].(released := true)]
  }

  /** Grants were made in time order, none of them after `clock`. */
  ghost predicate InOrder(grants: seq<Grant>, clock: int) {
    && (forall i, j :: 0 <= i < j < |grants| ==> grants[i].stamp <= grants[j].stamp)
    && (forall i :: 0 <= i < |grants| ==> grants[i].stamp <= clock)
  }

  lemma {:induction false} OutstandingSorted(grants: seq<Grant>, cutoff: int, clock: int)
    requires InOrder(grants, clock)
    ensures Sorted(Outstanding(grants, cutoff))
    ensures forall i :: 0 <= i < |Outstanding(grants, cutoff)| ==> cutoff < Outstanding(grants, cutoff)[i] <= clock
    ensures grants != [] ==>
              forall i :: 0 <= i < |Outstanding(grants, cutoff)| ==> grants[0].stamp <= Outstanding(grants, cutoff)[i]
  {
    if grants != [] {
      OutstandingSorted(grants[1..], cutoff, clock);
      if |grants| == 1 { assert grants[1..] == []; }
    }
  }

  /** Pruning further is the same as asking for the grants newer than the later cutoff. */
  lemma {:induction false} PruneTracksGrants(grants: seq<Grant>, low: int, high: int, clock: int)
    requires InOrder(grants, clock) && low <= high
    ensures Prune(Outstanding(grants, low), high) == Outstanding(grants, high)
  {
    if grants != [] {
      PruneTracksGrants(grants[1..], low, high, clock);
      var rest := Outstanding(grants[1..], low);
      if Live(grants[0], low) {
        assert ([grants[0].stamp] + rest)[1..] == rest;
        if grants[0].stamp > high {
          OutstandingSorted(grants[1..], low, clock);
          if |grants| > 1 { assert Prune(rest, high) == rest; }
        }
      }
    }
  }

  lemma {:induction false} OutstandingHas(grants: seq<Grant>, k: nat, cutoff: int)
    requires k < |grants| && Live(grants[k], cutoff)
    ensures grants[k].stamp in Outstanding(grants, cutoff)
  {
    if k > 0 { OutstandingHas(grants[1..], k - 1, cutoff); }
  }

  /** Taking one stamp out of the queue is the same as marking its grant released. */
  lemma {:induction false} WithoutTracksRelease(grants: seq<Grant>, k: nat, cutoff: int, clock: int)
    requires InOrder(grants, clock) && k < |grants| && !grants[k].released
    ensures Outstanding(Released(grants, k), cutoff) == Without(Outstanding(grants, cutoff), grants[k].stamp)
  {
    var stamp, rest, after := grants[k].stamp, Outstanding(grants[1..], cutoff), Released(grants, k);
    OutstandingSorted(grants, cutoff, clock);
    if k == 0 {
      assert after[1..] == grants[1..];
      if stamp <= cutoff { WithoutTakesOne(rest, stamp); }
    } else {
      assert after[1..] == Released(grants[1..], k - 1);
      WithoutTracksRelease(grants[1..], k - 1, cutoff, clock);
      if Live(grants[0], cutoff) && grants[0].stamp == stamp {
        OutstandingHas(grants[1..], k - 1, cutoff);
        OutstandingSorted(grants[1..], cutoff, clock);
        assert rest[0] == stamp;
      }
    }
  }

  lemma {:induction false} HeldIsOutstanding(grants: seq<Grant>, from: int, to: int)
    requires forall i :: 0 <= i < |grants| ==> grants[i].stamp <= to
    ensures Held(grants, from, to) == |Outstanding(grants, from)|
  {
    if grants != [] { HeldIsOutstanding(grants[1..], from, to); }
  }

  lemma {:induction false} HeldMonotone(grants: seq<Grant>, from: int, to: int, low: int, high: int)
    requires low <= from && to <= high
    ensures Held(grants, from, to) <= Held(grants, low, high)
  {
    if grants != [] { HeldMonotone(grants[1..], from, to, low, high); }
  }

  lemma {:induction false} HeldReleased(grants: seq<Grant>, k: nat, from: int, to: int)
    requires k < |grants|
    ensures Held(Released(grants, k), from, to) <= Held(grants, from, to)
  {
    if k == 0 {
      assert Released(grants, 0)[1..] == grants[1..];
    } else {
      assert Released(grants, k)[1..] == Released(grants[1..], k - 1);
      HeldReleased(grants[1..], k - 1, from, to);
    }
  }

  lemma {:induction false} Appended(grants: seq<Grant>, g: Grant, from: int, to: int)
    ensures Outstanding(grants + [g], from) == Outstanding(grants, from) + (if Live(g, from) then [g.stamp] else [])
    ensures Held(grants + [g], from, to) == Held(grants, from, to) + (if Live(g, from) && g.stamp <= to then 1 else 0)
  {
    if grants == [] {
      assert [g][1..] == [] && grants + [g] == [g];
    } else {
      assert (grants + [g])[1..] == grants[1..] + [g];
      Appended(grants[1..], g, from, to);
    }
  }

  // ---------------------------------------------------------------- runs

  /** The sweep's own test: the present in whole seconds, less the last stamp in nanoseconds. */
  predicate Forgets(queue: seq<int>, expiration: int, now: int) {
    |queue| == 0 || now / SECOND - queue[|queue| - 1] > expiration
  }

  function Step(limit: int, duration: int, w: Window, e: Event): Window
    requires limit >= 1
  {
    match e
    case Reserve(now) =>
      var cutoff := now - duration * SECOND;
      var queue := Attempt(w.queue, limit, duration, now);
      var allowed := |Prune(w.queue, cutoff)| < limit;
      Window(queue, if allowed then w.grants + [Grant(now, false)] else w.grants, cutoff, now)
    case Release(k, now) =>
      if k < |w.grants| && !w.grants[k].released then
        Window(Without(w.queue, w.grants[k].stamp), Released(w.grants, k), w.cutoff, now)
      else
        w.(clock := now)
    case Sweep(expiration, now) =>
      if Forgets(w.queue, expiration, now) then w.(queue := [], clock := now) else w.(clock := now)
  }

  function Run(limit: int, duration: int, w: Window, es: seq<Event>): Window
    requires limit >= 1
    decreases |es|
  {
    if es == [] then w else Run(limit, duration, Step(limit, duration, w, es[0]), es[1..])
  }

  /** Times never run backwards. */
  predicate Timed(clock: int, es: seq<Event>)
    decreases |es|
  {
    es == [] || (clock <= es[0].now && Timed(es[0].now, es[1..]))
  }

  /** The last nanosecond a 64-bit clock can show, and the whole seconds in it. */
  const LAST_TICK := 0x7fff_ffff_ffff_ffff
  const LAST_SECOND := 9_223_372_036

  /**
   Times that never run backwards. Where the loop sweeps too, the clock is a 64-bit one and was
   started at least `LAST_SECOND` nanoseconds, some nine seconds, after the epoch.
   */
  ghost predicate Legal(start: int, clock: int, es: seq<Event>) {
    Timed(clock, es) && forall i :: 0 <= i < |es| ==> LegalSweep(start, es[i])
  }

  predicate LegalSweep(start: int, e: Event) {
    e.Sweep? ==> e.expiration >= 0 && e.now <= LAST_TICK && start >= LAST_SECOND
  }

  /** Every grant was made at or after `start`. */
  ghost predicate Since(w: Window, start: int) {
    start <= w.clock && (w.grants != [] ==> w.grants[0].stamp >= start)
  }

  function Fresh(duration: int, clock: int): Window { Window([], [], clock - duration * SECOND, clock) }

  /** No interval of one duration holds more than `limit` unreleased grants. */
  ghost predicate Bounded(grants: seq<Grant>, limit: int, duration: int) {
    forall from, to :: to <= from + duration * SECOND ==> Held(grants, from, to) <= limit
  }

  ghost predicate Inv(limit: int, duration: int, w: Window) {
    && InOrder(w.grants, w.clock)
    && w.queue == Outstanding(w.grants, w.cutoff)
    && |w.queue| <= limit
    && w.cutoff <= w.clock - duration * SECOND
    && Bounded(w.grants, limit, duration)
  }

  lemma GrantKeepsBound(limit: int, duration: int, grants: seq<Grant>, now: int)
    requires duration >= 1 && Bounded(grants, limit, duration) && InOrder(grants, now)
    requires |Outstanding(grants, now - duration * SECOND)| < limit
    ensures Bounded(grants + [Grant(now, false)], limit, duration)
  {
    var cutoff := now - duration * SECOND;
    forall from, to | to <= from + duration * SECOND
      ensures Held(grants + [Grant(now, false)], from, to) <= limit
    {
      Appended(grants, Grant(now, false), from, to);
      if from < now <= to {
        HeldMonotone(grants, from, to, cutoff, to);
        HeldIsOutstanding(grants, cutoff, to);
      }
    }
  }

  lemma PruneShrinks(queue: seq<int>, cutoff: int)
    ensures |Prune(queue, cutoff)| <= |queue|
  {
  }

  lemma ReserveKeepsInv(limit: int, duration: int, w: Window, now: int)
    requires limit >= 1 && duration >= 1 && Inv(limit, duration, w) && w.clock <= now
    ensures Inv(limit, duration, Step(limit, duration, w, Reserve(now)))
  {
    var cutoff := now - duration * SECOND;
    var active, next := Prune(w.queue, cutoff), Step(limit, duration, w, Reserve(now));
    assert active == Outstanding(w.grants, cutoff) by { PruneTracksGrants(w.grants, w.cutoff, cutoff, w.clock); }
    PruneShrinks(w.queue, cutoff);
    if |active| < limit {
      assert Bounded(next.grants, limit, duration) by { GrantKeepsBound(limit, duration, w.grants, now); }
      assert next.queue == Outstanding(next.grants, cutoff) by { Appended(w.grants, Grant(now, false), cutoff, now); }
    }
  }

  lemma ReleaseKeepsInv(limit: int, duration: int, w: Window, k: nat, now: int)
    requires limit >= 1 && Inv(limit, duration, w) && w.clock <= now
    ensures Inv(limit, duration, Step(limit, duration, w, Release(k, now)))
  {
    if k < |w.grants| && !w.grants[k].released {
      WithoutTakesOne(w.queue, w.grants[k].stamp);
      WithoutTracksRelease(w.grants, k, w.cutoff, w.clock);
      forall from, to | to <= from + duration * SECOND
        ensures Held(Released(w.grants, k), from, to) <= limit
      {
        HeldReleased(w.grants, k, from, to);
      }
    }
  }

  /** A stamp in nanoseconds is never less than the present in seconds: the sweep finds nothing stale. */
  lemma SweepForgetsNothing(limit: int, duration: int, start: int, w: Window, e: Event)
    requires limit >= 1 && Inv(limit, duration, w) && Since(w, start) && w.clock <= e.now
    requires e.Sweep? && LegalSweep(start, e)
    ensures Step(limit, duration, w, e) == w.(clock := e.now)
  {
    OutstandingSorted(w.grants, w.cutoff, w.clock);
    if w.queue != [] {
      assert w.grants != [];
      assert w.queue[|w.queue| - 1] >= w.grants[0].stamp;
      assert e.now / SECOND <= LAST_SECOND;
    }
  }

  lemma ClockKeepsInv(limit: int, duration: int, w: Window, now: int)
    requires Inv(limit, duration, w) && w.clock <= now
    ensures Inv(limit, duration, w.(clock := now))
  {
  }

  lemma StepKeepsInv(limit: int, duration: int, start: int, w: Window, e: Event)
    requires limit >= 1 && duration >= 1 && Inv(limit, duration, w) && Since(w, start)
    requires w.clock <= e.now && LegalSweep(start, e)
    ensures Inv(limit, duration, Step(limit, duration, w, e)) && Since(Step(limit, duration, w, e), start)
  {
    match e {
      case Reserve(now) => ReserveKeepsInv(limit, duration, w, now);
      case Release(k, now) => ReleaseKeepsInv(limit, duration, w, k, now);
      case Sweep(_, now) =>
        SweepForgetsNothing(limit, duration, start, w, e);
        ClockKeepsInv(limit, duration, w, now);
    }
  }

  lemma {:induction false} RunKeepsInv(limit: int, duration: int, start: int, w: Window, es: seq<Event>)
    requires limit >= 1 && duration >= 1 && Inv(limit, duration, w) && Since(w, start) && Legal(start, w.clock, es)
    ensures Inv(limit, duration, Run(limit, duration, w, es)) && Since(Run(limit, duration, w, es), start)
    decreases |es|
  {
    if es != [] {
      StepKeepsInv(limit, duration, start, w, es[0]);
      RunKeepsInv(limit, duration, start, Step(limit, duration, w, es[0]), es[1..]);
    }
  }

  lemma FreshRunKeepsInv(limit: int, duration: int, start: int, es: seq<Event>)
    requires limit >= 1 && duration >= 1 && Legal(start, start, es)
    ensures var w := Run(limit, duration, Fresh(duration, start), es); Inv(limit, duration, w) && Since(w, start)
  {
    RunKeepsInv(limit, duration, start, Fresh(duration, start), es);
  }

  /**
   Over every run of attempts, releases and sweeps: the queue is sorted, within the limit, and equal, entry
   by entry, to the unreleased grants newer than the last cutoff; and no interval of one duration,
   wherever it lies, holds more than `limit` unreleased grants.
   */
  lemma QueueIsLiveGrants(limit: int, duration: int, start: int, es: seq<Event>)
    requires limit >= 1 && duration >= 1 && Legal(start, start, es)
    ensures var w := Run(limit, duration, Fresh(duration, start), es);
            && Sorted(w.queue)
            && |w.queue| <= limit
            && w.queue == Outstanding(w.grants, w.cutoff)
            && Bounded(w.grants, limit, duration)
  {
    FreshRunKeepsInv(limit, duration, start, es);
    var w := Run(limit, duration, Fresh(duration, start), es);
    OutstandingSorted(w.grants, w.cutoff, w.clock);
  }

  /** The background sweep, which compares seconds with nanoseconds, changes no reservation queue on any run. */
  lemma SweepSparesReservations(limit: int, duration: int, start: int, es: seq<Event>, e: Event)
    requires limit >= 1 && duration >= 1 && Legal(start, start, es) && e.Sweep? && LegalSweep(start, e)
    requires Run(limit, duration, Fresh(duration, start), es).clock <= e.now
    ensures var w := Run(limit, duration, Fresh(duration, start), es);
            Step(limit, duration, w, e) == w.(clock := e.now)
  {
    FreshRunKeepsInv(limit, duration, start, es);
    SweepForgetsNothing(limit, duration, start, Run(limit, duration, Fresh(duration, start), es), e);
  }

  /**
   Over every run an attempt is granted exactly when fewer than `limit` unreleased grants were made within one
   duration before it; the reply counts them and the attempt, and gives the window only with a refusal.
   */
  lemma GrantedIff(limit: int, duration: int, start: int, es: seq<Event>, now: int)
    requires limit >= 1 && duration >= 1 && Legal(start, start, es)
    requires Run(limit, duration, Fresh(duration, start), es).clock <= now
    ensures var w := Run(limit, duration, Fresh(duration, start), es);
            var held := Held(w.grants, now - duration * 1_000_000_000, now);
            var reply := Answer(Prune(w.queue, now - duration * 1_000_000_000), limit, duration);
            && (reply.allowed <==> held < limit) && reply.current == held + 1
            && (reply.allowed ==> reply.windowStart == 0 && reply.windowEnd == 0)
            && Step(limit, duration, w, Reserve(now)).grants
               == if held < limit then w.grants + [Grant(now, false)] else w.grants
  {
    var w, cutoff := Run(limit, duration, Fresh(duration, start), es), now - duration * SECOND;
    FreshRunKeepsInv(limit, duration, start, es);
    PruneTracksGrants(w.grants, w.cutoff, cutoff, w.clock);
    HeldIsOutstanding(w.grants, cutoff, now);
  }

  // ---------------------------------------------------------------- releases

  /** A second release of the same grant changes nothing but the time. */
  lemma ReleaseIdempotent(limit: int, duration: int, w: Window, k: nat, now: int, later: int)
    requires limit >= 1
    ensures var once := Step(limit, duration, w, Release(k, now));
            Step(limit, duration, once, Release(k, later)) == once.(clock := later)
  {
  }

  /** A grant that an attempt has already pruned takes nothing out of the queue. */
  lemma ReleaseExpired(limit: int, duration: int, start: int, es: seq<Event>, k: nat, now: int)
    requires limit >= 1 && duration >= 1 && Legal(start, start, es)
    ensures var w := Run(limit, duration, Fresh(duration, start), es);
            k < |w.grants| && w.grants[k].stamp <= w.cutoff ==>
              Step(limit, duration, w, Release(k, now)).queue == w.queue
  {
    FreshRunKeepsInv(limit, duration, start, es);
    var w := Run(limit, duration, Fresh(duration, start), es);
    if k < |w.grants| && w.grants[k].stamp <= w.cutoff {
      OutstandingSorted(w.grants, w.cutoff, w.clock);
      WithoutTakesOne(w.queue, w.grants[k].stamp);
    }
  }

  /** Releasing a live grant frees a slot: the very next attempt is allowed. */
  lemma ReleaseFreesSlot(limit: int, duration: int, start: int, es: seq<Event>, k: nat, now: int, later: int)
    requires limit >= 1 && duration >= 1 && Legal(start, start, es)
    requires Run(limit, duration, Fresh(duration, start), es).clock <= now <= later
    ensures var w := Run(limit, duration, Fresh(duration, start), es);
            k < |w.grants| && Live(w.grants[k], w.cutoff) ==>
              var freed := Step(limit, duration, w, Release(k, now));
              Answer(Prune(freed.queue, later - duration * SECOND), limit, duration).allowed
  {
    FreshRunKeepsInv(limit, duration, start, es);
    var w := Run(limit, duration, Fresh(duration, start), es);
    if k < |w.grants| && Live(w.grants[k], w.cutoff) {
      OutstandingHas(w.grants, k, w.cutoff);
      WithoutTakesOne(w.queue, w.grants[k].stamp);
      PruneShrinks(Without(w.queue, w.grants[k].stamp), later - duration * SECOND);
    }
  }

  // ---------------------------------------------------------------- the reported boundary

  /** The reported end is the least whole second at or after the oldest grant's expiry. */
  lemma WindowEndIsCeiling(oldest: int, duration: int)
    requires oldest >= 0 && duration >= 1
    ensures var end := WindowEnd(oldest, duration);
            && oldest + duration * SECOND <= end * SECOND
            && forall whole: int :: oldest + duration * SECOND <= whole * SECOND ==> end <= whole
  {
    var x := oldest + duration * SECOND;
    var end := WindowEnd(oldest, duration);
    assert end == (x + SECOND - 1) / SECOND;
    forall whole: int | x <= whole * SECOND ensures end <= whole {
      assert end * SECOND <= x + SECOND - 1;
    }
  }

  predicate NoReleases(es: seq<Event>) { forall i :: 0 <= i < |es| ==> !es[i].Release? }

  predicate AllBefore(es: seq<Event>, deadline: int) { forall i :: 0 <= i < |es| ==> es[i].now < deadline }

  /** A full queue whose oldest grant has not expired rejects every attempt and stays as it is. */
  lemma {:induction false} FullStaysFull(limit: int, duration: int, start: int, w: Window, es: seq<Event>)
    requires limit >= 1 && duration >= 1 && Inv(limit, duration, w) && Since(w, start) && |w.queue| == limit
    requires Legal(start, w.clock, es) && NoReleases(es) && AllBefore(es, w.queue[0] + duration * SECOND)
    ensures Run(limit, duration, w, es).queue == w.queue
    ensures Run(limit, duration, w, es).grants == w.grants
    decreases |es|
  {
    if es != [] {
      var next := Step(limit, duration, w, es[0]);
      StepKeepsInv(limit, duration, start, w, es[0]);
      if es[0].Sweep? {
        SweepForgetsNothing(limit, duration, start, w, es[0]);
      } else {
        assert es[0] == Reserve(es[0].now);
        assert Prune(w.queue, es[0].now - duration * SECOND) == w.queue;
      }
      assert NoReleases(es[1..]) && AllBefore(es[1..], w.queue[0] + duration * SECOND);
      FullStaysFull(limit, duration, start, next, es[1..]);
    }
  }

  /** An attempt at `now` is refused. */
  ghost predicate Refused(limit: int, duration: int, w: Window, now: int)
    requires limit >= 1
  {
    w.clock <= now && !Answer(Prune(w.queue, now - duration * SECOND), limit, duration).allowed
  }

  /** What a refused attempt finds: a full queue of grants newer than its cutoff, the oldest first. */
  lemma RefusedIsFull(limit: int, duration: int, w: Window, now: int)
    requires limit >= 1 && duration >= 1 && Inv(limit, duration, w) && Refused(limit, duration, w, now)
    ensures var active, next := Prune(w.queue, now - duration * SECOND), Step(limit, duration, w, Reserve(now));
            && |active| == limit && Sorted(active) && active[0] > now - duration * SECOND
            && next.queue == active && next.grants == w.grants && next.clock == now && Inv(limit, duration, next)
  {
    OutstandingSorted(w.grants, w.cutoff, w.clock);
    PruneKeepsNewer(w.queue, now - duration * SECOND);
    PruneShrinks(w.queue, now - duration * SECOND);
    ReserveKeepsInv(limit, duration, w, now);
  }

  /** Before the oldest active grant expires, attempts alone change no grant and are refused again at `t`. */
  ghost predicate Stands(limit: int, duration: int, rejected: Window, more: seq<Event>, t: int)
    requires limit >= 1 && rejected.queue != []
  {
    var expiry, after := rejected.queue[0] + duration * SECOND, Run(limit, duration, rejected, more);
    AllBefore(more, expiry) && after.clock <= t < expiry ==>
      after.grants == rejected.grants && Refused(limit, duration, after, t)
  }

  lemma FullStands(limit: int, duration: int, start: int, rejected: Window, more: seq<Event>, t: int)
    requires limit >= 1 && duration >= 1 && Inv(limit, duration, rejected) && Since(rejected, start)
    requires |rejected.queue| == limit && Legal(start, rejected.clock, more) && NoReleases(more)
    ensures Stands(limit, duration, rejected, more, t)
  {
    if AllBefore(more, rejected.queue[0] + duration * SECOND) {
      FullStaysFull(limit, duration, start, rejected, more);
    }
  }

  /**
   A rejection stands: with no release in between, every attempt before the exact expiry of the
   oldest active grant is rejected as well, however many attempts are made.
   */
  lemma RejectionStands(limit: int, duration: int, start: int, es: seq<Event>, now: int, more: seq<Event>, t: int)
    requires limit >= 1 && duration >= 1 && Legal(start, start, es)
    requires Refused(limit, duration, Run(limit, duration, Fresh(duration, start), es), now)
    requires Legal(start, now, more) && NoReleases(more)
    ensures var w := Run(limit, duration, Fresh(duration, start), es);
            var rejected := Step(limit, duration, w, Reserve(now));
            && rejected.queue == Prune(w.queue, now - duration * SECOND) && rejected.queue != []
            && rejected.grants == w.grants && Stands(limit, duration, rejected, more, t)
  {
    var w := Run(limit, duration, Fresh(duration, start), es);
    FreshRunKeepsInv(limit, duration, start, es);
    RefusedIsFull(limit, duration, w, now);
    FullStands(limit, duration, start, Step(limit, duration, w, Reserve(now)), more, t);
  }

  /** What the reply to a refused attempt reports about the oldest active grant. */
  ghost predicate BoundaryIsReal(active: seq<int>, reply: Reply, limit: int, duration: int, later: int)
    requires active != []
  {
    && reply.current == limit + 1
    && reply.windowStart * SECOND <= active[0] < (reply.windowStart + 1) * SECOND
    && active[0] + duration * SECOND <= reply.windowEnd * SECOND
    && (forall whole: int :: active[0] + duration * SECOND <= whole * SECOND ==> reply.windowEnd <= whole)
    && (later >= reply.windowEnd * SECOND ==> active[0] !in Prune(active, later - duration * SECOND))
  }

  lemma FullBoundary(active: seq<int>, limit: int, duration: int, later: int)
    requires limit >= 1 && duration >= 1 && |active| == limit && Sorted(active) && active[0] >= 0
    ensures BoundaryIsReal(active, Answer(active, limit, duration), limit, duration, later)
  {
    WindowEndIsCeiling(active[0], duration);
    PruneKeepsNewer(active, later - duration * SECOND);
  }

  /**
   The reported boundary is real: the window end is the least whole second at or after the
   expiry of the oldest active grant, and an attempt made then or later no longer counts it.
   */
  lemma BoundaryReopens(limit: int, duration: int, start: int, es: seq<Event>, now: int, later: int)
    requires limit >= 1 && duration >= 1 && Legal(start, start, es)
    requires Refused(limit, duration, Run(limit, duration, Fresh(duration, start), es), now)
    requires now >= duration * SECOND
    ensures var w := Run(limit, duration, Fresh(duration, start), es);
            var active := Prune(w.queue, now - duration * SECOND);
            active != [] && BoundaryIsReal(active, Answer(active, limit, duration), limit, duration, later)
  {
    var w := Run(limit, duration, Fresh(duration, start), es);
    FreshRunKeepsInv(limit, duration, start, es);
    RefusedIsFull(limit, duration, w, now);
    FullBoundary(Prune(w.queue, now - duration * SECOND), limit, duration, later);
  }
}
