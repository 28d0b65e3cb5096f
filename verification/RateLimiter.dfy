/**
 The in-memory limiter as an object: one map of queues under one mutex, updated in place.
 `Request` keys hold whole seconds, reservation keys nanoseconds. Every method is tied to the
 window it implements, and says that all other keys are left alone.
 */
module RateLimiter {
  import RW = RequestWindow
  import RV = ReservationWindow

  class Limiter {
    var store: map<string, seq<int>>
    const expiration: int

    constructor (expiration: int)
      ensures store == map[] && this.expiration == expiration
    {
      this.expiration := expiration;
      store := map[];
    }

    /** The policy a call is judged by: a limit below one still lets one call into every window. */
    static function PolicyOf(limit: int, duration: int): RW.Policy {
      RW.Policy(if limit >= 1 then limit else 1, duration)
    }

    /**
     Below one the source indexes the stored queue, which must not be empty, and allocates for a new
     key, which a negative limit does not allow.
     */
    method Request(key: string, limit: int, duration: int, now: int) returns (admitted: bool)
      requires limit >= 1 || (if key in store then store[key] != [] else limit == 0)
      modifies this
      ensures admitted == RW.Admits(old(store), key, PolicyOf(limit, duration), now)
      ensures store == if admitted
                       then old(store)[key := RW.Admitted(RW.QueueOf(old(store), key), PolicyOf(limit, duration), now)]
                       else old(store)
    {
      if key in store {
        var queue := store[key];
        if |queue| < limit {
          store := store[key := queue + [now]];
          return true;
        } else if now - queue[0] >= duration {
          queue := queue[1..];
          store := store[key := queue + [now]];
          return true;
        } else {
          return false;
        }
      }
      store := store[key := []];
      store := store[key := store[key] + [now]];
      return true;
    }

    /** One pass of the background sweep; Go visits the keys in no particular order. */
    method Sweep(now: int)
      modifies this
      ensures store == RW.Swept(old(store), expiration, now)
    {
      var todo := store.Keys;
      while todo != {}
        invariant todo <= store.Keys <= old(store).Keys
        invariant forall k :: k in store ==> store[k] == old(store)[k]
        invariant forall k :: k in old(store) ==>
          (k in store <==> k in todo || !RW.Stale(old(store)[k], expiration, now))
      {
        var key :| key in todo;
        todo := todo - {key};
        var queue := store[key];
        if |queue| == 0 || now - queue[|queue| - 1] > expiration {
          store := store - {key};
        }
      }
    }

    method ReserveWithWindow(key: string, limit: int, duration: int, now: int)
      returns (allowed: bool, reservation: Reservation?, current: int, windowStart: int, windowEnd: int)
      modifies this
      ensures limit <= 0 || duration <= 0 ==>
                allowed && reservation == null && (current, windowStart, windowEnd) == (0, 0, 0) && store == old(store)
      ensures limit > 0 && duration > 0 ==>
                var queue := RW.QueueOf(old(store), key);
                && store == old(store)[key := RV.Attempt(queue, limit, duration, now)]
                && RV.Reply(allowed, current, windowStart, windowEnd)
                   == RV.Answer(RV.Prune(queue, now - duration * RV.SECOND), limit, duration)
                && (reservation != null <==> allowed)
      ensures reservation != null ==>
                && fresh(reservation)
                && reservation.limiter == this && reservation.key == key
                && reservation.timestamp == now && !reservation.released
    {
      if limit <= 0 || duration <= 0 {
        return true, null, 0, 0, 0;
      }
      var cutoff := now - duration * RV.SECOND;
      if key !in store {
        store := store[key := []];
      }
      var queue := store[key];
      var firstActive := 0;
      while firstActive < |queue| && queue[firstActive] <= cutoff
        invariant 0 <= firstActive <= |queue|
        invariant RV.Prune(queue, cutoff) == RV.Prune(queue[firstActive..], cutoff)
      {
        firstActive := firstActive + 1;
      }
      assert RV.Prune(queue, cutoff) == queue[firstActive..];
      if firstActive > 0 {
        queue := queue[firstActive..];
      }
      store := store[key := queue];
      if |queue| >= limit {
        var oldest := queue[0];
        windowStart := oldest / RV.SECOND;
        windowEnd := RV.Quotient(oldest + duration * RV.SECOND + RV.SECOND - 1, RV.SECOND);
        return false, null, |queue| + 1, windowStart, windowEnd;
      }
      queue := queue + [now];
      store := store[key := queue];
      reservation := new Reservation(this, key, now);
      return true, reservation, |queue|, 0, 0;
    }

    method Delete(key: string)
      modifies this
      ensures store == old(store) - {key}
    {
      store := store - {key};
    }
  }

  /** The search for the reservation's own timestamp, and the splice around it. */
  method TakeOut(queue: seq<int>, timestamp: int) returns (rest: seq<int>)
    ensures rest == RV.Without(queue, timestamp)
  {
    var index := 0;
    while index < |queue| && queue[index] != timestamp
      invariant 0 <= index <= |queue|
      invariant forall i :: 0 <= i < index ==> queue[i] != timestamp
    {
      index := index + 1;
    }
    WithoutFirst(queue, timestamp, index);
    rest := queue;
    if index < |queue| {
      rest := queue[..index] + queue[index + 1..];
    }
  }

  lemma {:induction false} WithoutFirst(queue: seq<int>, timestamp: int, index: nat)
    requires index <= |queue| && forall i :: 0 <= i < index ==> queue[i] != timestamp
    requires index == |queue| || queue[index] == timestamp
    ensures RV.Without(queue, timestamp) == if index == |queue| then queue else queue[..index] + queue[index + 1..]
  {
    if index > 0 { WithoutFirst(queue[1..], timestamp, index - 1); }
  }

  class Reservation {
    const limiter: Limiter?
    const key: string
    const timestamp: int
    var released: bool

    constructor (limiter: Limiter?, key: string, timestamp: int)
      ensures this.limiter == limiter && this.key == key && this.timestamp == timestamp && !released
    {
      this.limiter, this.key, this.timestamp, released := limiter, key, timestamp, false;
    }

    method Release()
      modifies this, limiter
      ensures limiter != null ==> released
      ensures limiter != null ==>
                limiter.store ==
                  if old(released) || key !in old(limiter.store) then old(limiter.store)
                  else
                    var queue := RV.Without(old(limiter.store)[key], timestamp);
                    if queue == [] then old(limiter.store) - {key} else old(limiter.store)[key := queue]
    {
      if limiter == null { return; }
      if released { return; }
      if key !in limiter.store {
        released := true;
        return;
      }
      var queue := TakeOut(limiter.store[key], timestamp);
      limiter.store := limiter.store[key := queue];
      if |queue| == 0 {
        limiter.store := limiter.store - {key};
      }
      released := true;
    }
  }

  /** Any run of calls and sweeps on the object leaves exactly the queues of the modelled run. */
  method Replay(limiter: Limiter, policy: string -> RW.Policy, ghost s: RW.State, es: seq<RW.Event>)
    requires forall key :: policy(key).limit >= 1
    requires limiter.store == s.store
    modifies limiter
    ensures limiter.store == RW.Run(policy, limiter.expiration, s, es).store
    decreases |es|
  {
    if es != [] {
      match es[0] {
        case Ask(key, now) =>
          var _ := limiter.Request(key, policy(key).limit, policy(key).duration, now);
        case Sweep(now) =>
          limiter.Sweep(now);
      }
      Replay(limiter, policy, RW.Step(policy, limiter.expiration, s, es[0]), es[1..]);
    }
  }

  /** The queue of one key and the reservations handed out for it are those of the modelled window. */
  ghost predicate Tracks(limiter: Limiter, key: string, w: RV.Window, made: seq<Reservation>)
    reads limiter, made
  {
    && RW.QueueOf(limiter.store, key) == w.queue && |made| == |w.grants|
    && (forall i :: 0 <= i < |made| ==>
          && made[i].limiter == limiter && made[i].key == key
          && made[i].timestamp == w.grants[i].stamp && made[i].released == w.grants[i].released)
    && forall i, j :: 0 <= i < j < |made| ==> made[i] != made[j]
  }

  method ReleaseOne(limiter: Limiter, key: string, limit: int, duration: int, ghost w: RV.Window,
                    made: seq<Reservation>, k: nat, now: int)
    requires limit >= 1 && Tracks(limiter, key, w, made)
    modifies limiter, made
    ensures Tracks(limiter, key, RV.Step(limit, duration, w, RV.Release(k, now)), made)
  {
    if k < |made| { made[k].Release(); }
  }

  method ReserveOne(limiter: Limiter, key: string, limit: int, duration: int, ghost w: RV.Window,
                    made: seq<Reservation>, now: int) returns (all: seq<Reservation>)
    requires limit >= 1 && duration >= 1 && Tracks(limiter, key, w, made)
    modifies limiter
    ensures Tracks(limiter, key, RV.Step(limit, duration, w, RV.Reserve(now)), all)
    ensures forall i :: 0 <= i < |all| ==> all[i] in made || fresh(all[i])
  {
    var _, reservation, _, _, _ := limiter.ReserveWithWindow(key, limit, duration, now);
    all := if reservation == null then made else made + [reservation];
  }

  /** A sweep of the whole limiter, seen from one reservation key. */
  method SweepOne(limiter: Limiter, key: string, limit: int, duration: int, ghost w: RV.Window,
                  made: seq<Reservation>, now: int)
    requires limit >= 1 && Tracks(limiter, key, w, made)
    modifies limiter
    ensures Tracks(limiter, key, RV.Step(limit, duration, w, RV.Sweep(limiter.expiration, now)), made)
  {
    limiter.Sweep(now / RV.SECOND);
  }

  /** Any run of attempts, releases and sweeps on the objects leaves the queue and flags of the modelled run. */
  method ReplayReservations(limiter: Limiter, key: string, limit: int, duration: int, ghost w: RV.Window,
                            made: seq<Reservation>, es: seq<RV.Event>) returns (all: seq<Reservation>)
    requires limit >= 1 && duration >= 1 && Tracks(limiter, key, w, made)
    requires forall i :: 0 <= i < |es| && es[i].Sweep? ==> es[i].expiration == limiter.expiration
    modifies limiter, made
    ensures Tracks(limiter, key, RV.Run(limit, duration, w, es), all)
    decreases |es|
  {
    all := made;
    if es != [] {
      match es[0] {
        case Reserve(now) =>
          all := ReserveOne(limiter, key, limit, duration, w, made, now);
        case Release(k, now) =>
          ReleaseOne(limiter, key, limit, duration, w, made, k, now);
        case Sweep(_, now) =>
          SweepOne(limiter, key, limit, duration, w, made, now);
      }
      assert forall i :: 0 <= i < |all| ==> all[i] in made || fresh(all[i]);
      all := ReplayReservations(limiter, key, limit, duration, RV.Step(limit, duration, w, es[0]), all, es[1..]);
    }
  }
}
