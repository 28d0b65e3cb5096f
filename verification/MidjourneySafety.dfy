/**
 Exactly when the polling protocol is safe: for every bound on how often one pass handles a task, and
 every set of items upstream may send. What is not disciplined reaches a second refund or leaves FAILURE.
 */
module MidjourneySafety {
  import opened Midjourney

  /** Refunded at most once, and never out of FAILURE again. */
  ghost predicate Good(s: System) {
    s.refunds <= 1 && (s.mover != Nobody ==> s.row.status == FAILURE)
  }

  ghost predicate Safe(perPass: nat, ok: Item -> bool) {
    forall t, acts :: Startable(t) && Runs(perPass, ok, Start(t), acts) ==> Good(Run(perPass, ok, Start(t), acts))
  }

  /** `s` is reached from an unfinished task. */
  ghost predicate Reachable(perPass: nat, ok: Item -> bool, s: System) {
    exists t, acts :: Startable(t) && Runs(perPass, ok, Start(t), acts) && Run(perPass, ok, Start(t), acts) == s
  }

  // ---------------------------------------------------------------- the refund does come

  lemma ThreeSteps(perPass: nat, ok: Item -> bool, s: System, a: Action, b: Action, c: Action)
    requires Enabled(perPass, ok, s, a) && Enabled(perPass, ok, Step(s, a), b)
    requires Enabled(perPass, ok, Step(Step(s, a), b), c)
    ensures Runs(perPass, ok, s, [a, b, c])
    ensures Run(perPass, ok, s, [a, b, c]) == Step(Step(Step(s, a), b), c)
  {
    var s1, s2 := Step(s, a), Step(Step(s, a), b);
    assert [a, b, c][1..] == [b, c] && [b, c][1..] == [c] && [c][1..] == [];
    assert Runs(perPass, ok, Step(s2, c), []);
    assert Runs(perPass, ok, s2, [c]) && Run(perPass, ok, s2, [c]) == Step(s2, c);
    assert Runs(perPass, ok, s1, [b, c]) && Run(perPass, ok, s1, [b, c]) == Step(s2, c);
  }

  /** A poller whose snapshot is not stale and whose item is judged a failure. */
  ghost predicate SeesFailure(ok: Item -> bool, s: System, p: nat, item: Item, now: int) {
    && s.row.status != FAILURE && ok(item)
    && p in s.pollers && s.pollers[p].Holding? && s.pollers[p].left > 0 && s.pollers[p].task.status == s.row.status
    && Judged(s.pollers[p].task, item, now).status == FAILURE
  }

  lemma SeenFailurePays(perPass: nat, ok: Item -> bool, quota: int, s: System, p: nat, item: Item, now: int)
    requires Inv(perPass, ok, quota, s) && Disciplined(perPass, ok) && quota != 0 && SeesFailure(ok, s, p, item, now)
    ensures Runs(perPass, ok, s, [Respond(p, item, now), Commit(p), Pay(p)])
    ensures var t := Run(perPass, ok, s, [Respond(p, item, now), Commit(p), Pay(p)]);
            t.refunds == 1 && t.credit == quota && t.row.status == FAILURE && t.mover == Swap
  {
    var Holding(task, left) := s.pollers[p];
    assert PhaseInv(perPass, ok, quota, s.pollers[p]);
    RespondKeepsPhase(perPass, ok, quota, task, left, item, now);
    var judged := Judged(task, item, now);
    var s1 := Step(s, Respond(p, item, now));
    assert s1.pollers[p] == Deciding(task.status, Overlay(task, judged), true, left - 1);
    var s2 := Step(s1, Commit(p));
    assert s2.pollers[p] == Owing(quota, Overlay(task, judged), left - 1) && s2.credit == 0;
    ThreeSteps(perPass, ok, s, Respond(p, item, now), Commit(p), Pay(p));
  }

  /** In every reachable state, a current poller that sees a failure, swaps and pays credits exactly the quota. */
  lemma FailureIsRefunded(perPass: nat, ok: Item -> bool, s: System, p: nat, item: Item, now: int)
    requires Disciplined(perPass, ok) && Reachable(perPass, ok, s) && s.row.quota != 0
    requires SeesFailure(ok, s, p, item, now)
    ensures Runs(perPass, ok, s, [Respond(p, item, now), Commit(p), Pay(p)])
    ensures var t := Run(perPass, ok, s, [Respond(p, item, now), Commit(p), Pay(p)]);
            t.refunds == 1 && t.credit == s.row.quota && t.row.status == FAILURE
  {
    var t, acts :| Startable(t) && Runs(perPass, ok, Start(t), acts) && Run(perPass, ok, Start(t), acts) == s;
    RunKeepsInv(perPass, ok, t.quota, Start(t), acts);
    SeenFailurePays(perPass, ok, t.quota, s, p, item, now);
  }

  // ---------------------------------------------------------------- what can be reached

  lemma {:induction false} Extend(perPass: nat, ok: Item -> bool, s: System, acts: seq<Action>, a: Action)
    requires Runs(perPass, ok, s, acts) && Enabled(perPass, ok, Run(perPass, ok, s, acts), a)
    ensures Runs(perPass, ok, s, acts + [a])
    ensures Run(perPass, ok, s, acts + [a]) == Step(Run(perPass, ok, s, acts), a)
    decreases |acts|
  {
    if acts == [] {
      assert [a][1..] == [] && acts + [a] == [a];
      assert Runs(perPass, ok, Step(s, a), []);
    } else {
      Extend(perPass, ok, Step(s, acts[0]), acts[1..], a);
      assert (acts + [a])[1..] == acts[1..] + [a];
    }
  }

  lemma StartReachable(perPass: nat, ok: Item -> bool, t: Task)
    requires Startable(t)
    ensures Reachable(perPass, ok, Start(t))
  {
    assert Runs(perPass, ok, Start(t), []) && Run(perPass, ok, Start(t), []) == Start(t);
  }

  lemma Reach(perPass: nat, ok: Item -> bool, s: System, a: Action)
    requires Reachable(perPass, ok, s) && Enabled(perPass, ok, s, a)
    ensures Reachable(perPass, ok, Step(s, a))
  {
    var t, acts :| Startable(t) && Runs(perPass, ok, Start(t), acts) && Run(perPass, ok, Start(t), acts) == s;
    Extend(perPass, ok, Start(t), acts, a);
  }

  /** A poller about to win its swap, with a refund due. */
  predicate AboutToWin(s: System, p: nat) {
    p in s.pollers && s.pollers[p].Deciding? && s.pollers[p].pre == s.row.status && s.pollers[p].refund
  }

  /** It swaps and is paid. */
  function Paid(s: System, p: nat): System
    requires AboutToWin(s, p)
  {
    Step(Step(s, Commit(p)), Pay(p))
  }

  lemma ReachPaid(perPass: nat, ok: Item -> bool, s: System, p: nat)
    requires Reachable(perPass, ok, s) && AboutToWin(s, p)
    ensures Reachable(perPass, ok, Paid(s, p))
    ensures var t, d := Paid(s, p), s.pollers[p];
            && t.refunds == s.refunds + 1 && t.row == d.task && t.pollers == s.pollers[p := Holding(d.task, d.left)]
            && t.mover == if s.mover == Nobody && d.task.status == FAILURE then Swap else s.mover
  {
    Reach(perPass, ok, s, Commit(p));
    Reach(perPass, ok, Step(s, Commit(p)), Pay(p));
    assert Paid(s, p).pollers == s.pollers[p := Holding(s.pollers[p].task, s.pollers[p].left)];
  }

  lemma BadIsUnsafe(perPass: nat, ok: Item -> bool, s: System)
    requires Reachable(perPass, ok, s) && !Good(s)
    ensures !Safe(perPass, ok)
  {
  }

  const NO_DETAILS := Details("", "", 0, 0, "", "", "")

  /** A queued task in a given state, worth 7, not yet written by a poller. */
  function Queued(status: string): Task { Task(0, status, "0%", "", 7, 0, NO_DETAILS, "", "") }

  /** One poller loads the task and gets an item. */
  function Asked(s: System, p: nat, x: Item, now: int): System
    requires p !in s.pollers && s.row.progress != DONE
  {
    Step(Step(s, Load(p, 1)), Respond(p, x, now))
  }

  lemma ReachAsked(perPass: nat, ok: Item -> bool, s: System, p: nat, x: Item, now: int)
    requires perPass >= 1 && ok(x) && Reachable(perPass, ok, s) && p !in s.pollers && s.row.progress != DONE
    requires NeedsUpdate(s.row, Judged(s.row, x, now))
    ensures Reachable(perPass, ok, Asked(s, p, x, now))
    ensures var j := Judged(s.row, x, now);
            Asked(s, p, x, now)
            == s.(pollers := s.pollers[p := Deciding(s.row.status, Overlay(s.row, j), Fails(j) && s.row.quota != 0, 0)])
  {
    Reach(perPass, ok, s, Load(p, 1));
    Reach(perPass, ok, Step(s, Load(p, 1)), Respond(p, x, now));
  }

  /** Two pollers get the item before either swaps; both win when the first leaves the status as it was. */
  lemma BothWin(perPass: nat, ok: Item -> bool, s: System, x: Item, now: int)
    requires perPass >= 1 && ok(x) && Reachable(perPass, ok, s) && s.row.progress != DONE && s.row.quota != 0
    requires 1 !in s.pollers && 2 !in s.pollers && NeedsUpdate(s.row, Judged(s.row, x, now))
    requires Fails(Judged(s.row, x, now)) && Judged(s.row, x, now).status == s.row.status
    ensures !Safe(perPass, ok)
  {
    ReachAsked(perPass, ok, s, 1, x, now);
    var one := Asked(s, 1, x, now);
    ReachAsked(perPass, ok, one, 2, x, now);
    var two := Asked(one, 2, x, now);
    ReachPaid(perPass, ok, two, 1);
    ReachPaid(perPass, ok, Paid(two, 1), 2);
    BadIsUnsafe(perPass, ok, Paid(Paid(two, 1), 2));
  }

  /** A reason below full progress on a task that has not failed is refunded by every stale poller. */
  lemma ReasonWithoutFailure(perPass: nat, ok: Item -> bool, x: Item)
    requires perPass >= 1 && ok(x) && x.failReason != "" && x.progress != DONE && x.status != FAILURE
    ensures !Safe(perPass, ok)
  {
    StartReachable(perPass, ok, Queued(x.status));
    BothWin(perPass, ok, Start(Queued(x.status)), x, 0);
  }

  /** A failure without a reason leaves the row unfinished; two later pollers time it out, and both are paid. */
  lemma FailureWithoutReason(perPass: nat, ok: Item -> bool, x: Item)
    requires perPass >= 1 && ok(x) && x.status == FAILURE && x.failReason == "" && x.progress != DONE
    ensures !Safe(perPass, ok)
  {
    var q := Queued("");
    StartReachable(perPass, ok, q);
    var s := Start(q);
    Reach(perPass, ok, s, Load(0, 1));
    s := Step(s, Load(0, 1));
    Reach(perPass, ok, s, Respond(0, x, 0));
    s := Step(s, Respond(0, x, 0));
    Reach(perPass, ok, s, Commit(0));
    s := Step(s, Commit(0));
    assert s.row == Overlay(q, x) && s.pollers.Keys == {0};
    var late := if x.submitTime > 0 then x.submitTime else 0;
    BothWin(perPass, ok, s, x, late + HOUR_MS + 1);
  }

  lemma UnfaithfulIsUnsafe(perPass: nat, ok: Item -> bool, x: Item)
    requires perPass >= 1 && ok(x) && !Faithful(x)
    ensures !Safe(perPass, ok)
  {
    if x.status == FAILURE {
      FailureWithoutReason(perPass, ok, x);
    } else {
      ReasonWithoutFailure(perPass, ok, x);
    }
  }

  /** A pass that handles the row twice: the first item comes late and fails it, the second one counts again. */
  lemma TwicePerPassIsUnsafe(perPass: nat, ok: Item -> bool, x: Item, y: Item)
    requires perPass >= 2 && ok(x) && ok(y) && Faithful(y) && !Repeats(x, y)
    ensures !Safe(perPass, ok)
  {
    var q, late := Queued(""), HOUR_MS + 1;
    var j := Judged(q, x, late);
    var failed := Overlay(q, j);
    StartReachable(perPass, ok, q);
    var s := Start(q);
    Reach(perPass, ok, s, Load(0, 2));
    s := Step(s, Load(0, 2));
    Reach(perPass, ok, s, Respond(0, x, late));
    s := Step(s, Respond(0, x, late));
    assert s.pollers[0] == Deciding("", failed, true, 1);
    ReachPaid(perPass, ok, s, 0);
    s := Paid(s, 0);
    assert s.row == failed && s.mover == Swap && s.pollers[0] == Holding(failed, 1);
    SecondItem(perPass, ok, s, failed, y, late);
  }

  /** On a copy that has failed and been refunded, an item that differs leaves FAILURE or is refunded again. */
  lemma SecondItem(perPass: nat, ok: Item -> bool, s: System, failed: Task, y: Item, now: int)
    requires ok(y) && Faithful(y) && Reachable(perPass, ok, s) && s.refunds == 1 && s.mover == Swap
    requires s.row == failed && 0 in s.pollers && s.pollers[0] == Holding(failed, 1) && failed.quota != 0
    requires failed.status == FAILURE && failed.progress == DONE && NeedsUpdate(failed, y)
    ensures !Safe(perPass, ok)
  {
    Reach(perPass, ok, s, Respond(0, y, now));
    var t := Step(s, Respond(0, y, now));
    assert t.pollers[0] == Deciding(FAILURE, Overlay(failed, y), Fails(y), 0);
    if y.status == FAILURE {
      ReachPaid(perPass, ok, t, 0);
      BadIsUnsafe(perPass, ok, Paid(t, 0));
    } else {
      Reach(perPass, ok, t, Commit(0));
      BadIsUnsafe(perPass, ok, Step(t, Commit(0)));
    }
  }

  /**
   For every bound on the handlings per pass and every set of items upstream may send: each run refunds
   at most once and never leaves FAILURE exactly when the protocol is disciplined. The code checks none of it.
   */
  lemma SafeIff(perPass: nat, ok: Item -> bool)
    ensures Safe(perPass, ok) <==> Disciplined(perPass, ok)
  {
    if Disciplined(perPass, ok) {
      forall t, acts | Startable(t) && Runs(perPass, ok, Start(t), acts)
        ensures Good(Run(perPass, ok, Start(t), acts))
      {
        RefundedAtMostOnce(perPass, ok, t, acts);
      }
    } else if x :| ok(x) && !Faithful(x) {
      UnfaithfulIsUnsafe(perPass, ok, x);
    } else {
      var x, y :| ok(x) && ok(y) && !Repeats(x, y);
      TwicePerPassIsUnsafe(perPass, ok, x, y);
    }
  }

  /** With one handling per pass, safety is the faithfulness of every item there may be. */
  lemma OncePerPassSafeIff(ok: Item -> bool)
    ensures Safe(1, ok) <==> AllFaithful(ok)
  {
    SafeIff(1, ok);
    if AllRepeat(ok) {
      forall x | ok(x) ensures Faithful(x) { assert Repeats(x, x); }
    }
  }
}
