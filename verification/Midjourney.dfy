/**
 Midjourney polling as a protocol. One database row, any number of pollers that each work on a
 snapshot taken earlier, a compare-and-swap on the status column, a refund paid in a separate
 step by whoever won the swap, and bulk updates that fail a row outright.

 Assumed of what lies outside: the conditional update is one atomic step guarded by the status;
 reading unfinished rows returns those whose progress is not 100%.
 */
module Midjourney {

  datatype Option<+T> = None | Some(value: T)

  const FAILURE := "FAILURE"
  const DONE := "100%"
  const TIMEOUT_REASON := "上游任务超时（超过1小时）"
  const HOUR_MS := 3_600_000

  /** Descriptive columns that travel from the response to the row unchanged. */
  datatype Details = Details(promptEn: string, state: string, startTime: int, finishTime: int,
                             imageUrl: string, videoUrl: string, videoUrls: string)

  /** A row, and equally a poller's in-memory copy of it. */
  datatype Task = Task(code: int, status: string, progress: string, failReason: string, quota: int,
                       submitTime: int, details: Details, properties: string, buttons: string)

  /** One entry of an upstream response; lists arrive already serialized, "" when absent. */
  datatype Item = Item(status: string, progress: string, failReason: string,
                       submitTime: int, details: Details, properties: Option<string>, buttons: Option<string>)

  // ---------------------------------------------------------------- one item, one snapshot

  /** A task over an hour old and unfinished is failed whatever upstream says. */
  function Judged(t: Task, item: Item, now: int): Item {
    if now - t.submitTime > HOUR_MS && t.progress != DONE
    then item.(failReason := TIMEOUT_REASON, status := FAILURE) else item
  }

  predicate NeedsUpdate(t: Task, item: Item) {
    || t.code != 1
    || t.progress != item.progress
    || t.submitTime != item.submitTime
    || t.status != item.status
    || t.failReason != item.failReason
    || (t.progress != DONE && item.failReason != "")
    || t.details != item.details
  }

  /** The item reports a failed drawing. */
  predicate Fails(item: Item) {
    (item.progress != DONE && item.failReason != "") || (item.progress == DONE && item.status == FAILURE)
  }

  function Overlay(t: Task, item: Item): Task {
    Task(1, item.status, if Fails(item) then DONE else item.progress, item.failReason, t.quota,
         item.submitTime, item.details,
         if item.properties.Some? then item.properties.value else t.properties,
         if item.buttons.Some? then item.buttons.value else t.buttons)
  }

  /** The shared in-memory task object, overwritten field by field. */
  class TaskObject {
    var code: int
    var status: string
    var progress: string
    var failReason: string
    const quota: int
    var submitTime: int
    var details: Details
    var properties: string
    var buttons: string

    constructor (t: Task)
      ensures Contents() == t
    {
      code, status, progress, failReason, quota := t.code, t.status, t.progress, t.failReason, t.quota;
      submitTime, details, properties, buttons := t.submitTime, t.details, t.properties, t.buttons;
    }

    function Contents(): Task
      reads this
    {
      Task(code, status, progress, failReason, quota, submitTime, details, properties, buttons)
    }

    /** The loop body up to the conditional update: what to swap from, and whether a win must be refunded. */
    method Process(response: Item, now: int) returns (attempt: bool, preStatus: string, shouldReturnQuota: bool)
      modifies this
      ensures attempt == NeedsUpdate(old(Contents()), Judged(old(Contents()), response, now))
      ensures preStatus == old(status)
      ensures attempt ==>
                && Contents() == Overlay(old(Contents()), Judged(old(Contents()), response, now))
                && shouldReturnQuota == (Fails(Judged(old(Contents()), response, now)) && quota != 0)
      ensures !attempt ==> Contents() == old(Contents()) && !shouldReturnQuota
    {
      var item := response;
      var useTime := now - submitTime;
      if useTime > HOUR_MS && progress != DONE {
        item := item.(failReason := TIMEOUT_REASON, status := FAILURE);
      }
      preStatus, shouldReturnQuota := status, false;
      attempt := NeedsUpdate(Contents(), item);
      if !attempt { return; }
      code := 1;
      progress := item.progress;
      submitTime := item.submitTime;
      details := item.details;
      status := item.status;
      failReason := item.failReason;
      if item.properties.Some? { properties := item.properties.value; }
      if item.buttons.Some? { buttons := item.buttons.value; }
      if (progress != DONE && item.failReason != "") || (progress == DONE && status == FAILURE) {
        progress := DONE;
        if quota != 0 { shouldReturnQuota := true; }
      }
    }
  }

  // ---------------------------------------------------------------- the transition system

  /** Where a poller stands with this row; `left` is how many more items of its pass name the row. */
  datatype Phase =
    | Holding(task: Task, left: nat)
    | Deciding(pre: string, task: Task, refund: bool, left: nat)
    | Owing(amount: int, task: Task, left: nat)

  /** What took the row to FAILURE, if anything has. */
  datatype Mover = Nobody | Swap | Bulk

  datatype System = System(
    row: Task, pollers: map<nat, Phase>, credit: int, refunds: nat, unpaid: nat, mover: Mover)

  datatype Action =
    | Load(p: nat, items: nat)
    | Respond(p: nat, item: Item, now: int)
    | Commit(p: nat)
    | CommitError(p: nat)
    | Pay(p: nat)
    | PayError(p: nat)
    | BulkFail(reason: Option<string>)
    | Quit(p: nat)

  /** An item that marks its failures, and only failures: a reason or full progress goes with FAILURE. */
  predicate Faithful(item: Item) {
    && (item.status == FAILURE ==> item.failReason != "" || item.progress == DONE)
    && (item.failReason != "" && item.progress != DONE ==> item.status == FAILURE)
  }

  /** `y` repeats what a task timed out on `x` already shows. */
  predicate Repeats(x: Item, y: Item) {
    && y.status == FAILURE && y.progress == DONE && y.failReason == TIMEOUT_REASON
    && y.submitTime == x.submitTime && y.details == x.details
  }

  ghost predicate AllFaithful(ok: Item -> bool) { forall x :: ok(x) ==> Faithful(x) }

  ghost predicate AllRepeat(ok: Item -> bool) { forall x, y :: ok(x) && ok(y) ==> Repeats(x, y) }

  /** What the code can do next; the row is picked up only while unfinished. */
  predicate Possible(s: System, a: Action) {
    match a
    case Load(p, _) => p !in s.pollers && s.row.progress != DONE
    case Respond(p, _, _) => p in s.pollers && s.pollers[p].Holding? && s.pollers[p].left > 0
    case Commit(p) => p in s.pollers && s.pollers[p].Deciding?
    case CommitError(p) => p in s.pollers && s.pollers[p].Deciding?
    case Pay(p) => p in s.pollers && s.pollers[p].Owing?
    case PayError(p) => p in s.pollers && s.pollers[p].Owing?
    case BulkFail(_) => true
    case Quit(p) => p in s.pollers && s.pollers[p].Holding?
  }

  /** `perPass` bounds how often one pass handles the same row; `ok` says which items upstream may send. */
  predicate Enabled(perPass: nat, ok: Item -> bool, s: System, a: Action) {
    && Possible(s, a)
    && (a.Load? ==> a.items <= perPass)
    && (a.Respond? ==> ok(a.item))
  }

  function Step(s: System, a: Action): System
    requires Possible(s, a)
  {
    match a
    case Load(p, items) => s.(pollers := s.pollers[p := Holding(s.row, items)])
    case Respond(p, response, now) =>
      var t, left := s.pollers[p].task, s.pollers[p].left - 1;
      var item := Judged(t, response, now);
      if NeedsUpdate(t, item) then
        s.(pollers := s.pollers[p := Deciding(t.status, Overlay(t, item), Fails(item) && t.quota != 0, left)])
      else
        s.(pollers := s.pollers[p := Holding(t, left)])
    case Commit(p) =>
      var Deciding(pre, t, refund, left) := s.pollers[p];
      if s.row.status == pre then
        s.(row := t,
           pollers := s.pollers[p := if refund then Owing(t.quota, t, left) else Holding(t, left)],
           mover := if s.mover == Nobody && t.status == FAILURE then Swap else s.mover)
      else
        s.(pollers := s.pollers[p := Holding(t, left)])
    case CommitError(p) =>
      s.(pollers := s.pollers[p := Holding(s.pollers[p].task, s.pollers[p].left)])
    case Pay(p) =>
      s.(credit := s.credit + s.pollers[p].amount, refunds := s.refunds + 1,
         pollers := s.pollers[p := Holding(s.pollers[p].task, s.pollers[p].left)])
    case PayError(p) =>
      s.(unpaid := s.unpaid + 1,
         pollers := s.pollers[p := Holding(s.pollers[p].task, s.pollers[p].left)])
    case BulkFail(reason) =>
      s.(row := s.row.(status := FAILURE, progress := DONE,
                       failReason := if reason.Some? then reason.value else s.row.failReason),
         mover := if s.mover == Nobody then Bulk else s.mover)
    case Quit(p) => s.(pollers := s.pollers - {p})
  }

  predicate Runs(perPass: nat, ok: Item -> bool, s: System, acts: seq<Action>)
    decreases |acts|
  {
    acts == [] || (Enabled(perPass, ok, s, acts[0]) && Runs(perPass, ok, Step(s, acts[0]), acts[1..]))
  }

  function Run(perPass: nat, ok: Item -> bool, s: System, acts: seq<Action>): System
    requires Runs(perPass, ok, s, acts)
    decreases |acts|
  {
    if acts == [] then s else Run(perPass, ok, Step(s, acts[0]), acts[1..])
  }

  /** A row the pollers pick up: unfinished and not failed. */
  predicate Startable(t: Task) { t.progress != DONE && t.status != FAILURE }

  function Start(t: Task): System { System(t, map[], 0, 0, 0, Nobody) }

  /**
   What makes the protocol safe: no item is ever handled; or at most one a pass, and faithful; or all
   the items there may be say the same timeout, so that a second handling changes nothing.
   */
  ghost predicate Disciplined(perPass: nat, ok: Item -> bool) {
    perPass == 0 || (perPass == 1 && AllFaithful(ok)) || AllRepeat(ok)
  }

  // ---------------------------------------------------------------- the invariant

  /** No item that may still come would change this copy. */
  ghost predicate Settled(ok: Item -> bool, t: Task) {
    forall x, now :: ok(x) ==> !NeedsUpdate(t, Judged(t, x, now))
  }

  /** A snapshot still in use is not failed, or settled; a decision to fail is finished and owes the quota. */
  ghost predicate PhaseInv(perPass: nat, ok: Item -> bool, quota: int, ph: Phase) {
    match ph
    case Holding(t, left) => t.quota == quota && left <= perPass && (left > 0 ==> t.status != FAILURE || Settled(ok, t))
    case Deciding(pre, t, refund, left) =>
      && pre != FAILURE && left <= perPass && (left > 0 ==> Settled(ok, t)) && t.quota == quota
      && (t.status == FAILURE ==> t.progress == DONE)
      && (refund <==> t.status == FAILURE && quota != 0)
    case Owing(amount, t, left) => amount == quota && left <= perPass && (left > 0 ==> Settled(ok, t)) && t.quota == quota
  }

  ghost predicate Owes(s: System, p: nat) { p in s.pollers && s.pollers[p].Owing? }

  ghost predicate Phases(perPass: nat, ok: Item -> bool, quota: int, s: System) {
    forall p :: p in s.pollers ==> PhaseInv(perPass, ok, quota, s.pollers[p])
  }

  /** The books: what was credited, by whom the row failed, and that at most one poller ever owes. */
  ghost predicate Books(quota: int, s: System) {
    && s.row.quota == quota
    && (s.row.status == FAILURE ==> s.row.progress == DONE)
    && (s.mover == Nobody <==> s.row.status != FAILURE)
    && s.credit == s.refunds * quota
    && s.refunds + s.unpaid <= 1
    && (s.refunds + s.unpaid == 1 ==> s.mover == Swap && quota != 0 && forall p :: !Owes(s, p))
    && (forall p, q :: Owes(s, p) && Owes(s, q) ==> p == q)
    && (forall p :: Owes(s, p) ==> s.mover == Swap && quota != 0)
    && (s.mover == Swap && quota != 0 ==> s.refunds + s.unpaid == 1 || exists p :: Owes(s, p))
  }

  ghost predicate Inv(perPass: nat, ok: Item -> bool, quota: int, s: System) {
    Phases(perPass, ok, quota, s) && Books(quota, s)
  }

  /** The same pollers owe, and the row's books are untouched. */
  ghost predicate SameBooks(s: System, t: System) {
    && t.row == s.row && t.mover == s.mover && t.credit == s.credit && t.refunds == s.refunds && t.unpaid == s.unpaid
    && forall q :: Owes(t, q) <==> Owes(s, q)
  }

  lemma SameBooksKeep(quota: int, s: System, t: System)
    requires Books(quota, s) && SameBooks(s, t)
    ensures Books(quota, t)
  {
    if t.mover == Swap && quota != 0 && t.refunds + t.unpaid != 1 {
      var p :| Owes(s, p);
      assert Owes(t, p);
    }
  }

  /** Where every item repeats the one timeout, handling one settles the copy. */
  lemma RepeatSettles(ok: Item -> bool, t: Task, x: Item, now: int)
    requires AllRepeat(ok) && ok(x)
    ensures Judged(t, x, now) == x && Settled(ok, Overlay(t, x))
  {
    assert Repeats(x, x);
    var u := Overlay(t, x);
    forall y, later | ok(y) ensures !NeedsUpdate(u, Judged(u, y, later)) {
      assert Repeats(x, y);
    }
  }

  lemma RespondKeepsPhase(perPass: nat, ok: Item -> bool, quota: int, t: Task, left: nat, response: Item, now: int)
    requires PhaseInv(perPass, ok, quota, Holding(t, left)) && left > 0 && ok(response) && Disciplined(perPass, ok)
    ensures var item := Judged(t, response, now);
            NeedsUpdate(t, item) ==>
              PhaseInv(perPass, ok, quota, Deciding(t.status, Overlay(t, item), Fails(item) && t.quota != 0, left - 1))
  {
    if AllRepeat(ok) {
      assert Repeats(response, response);
      RepeatSettles(ok, t, response, now);
    } else {
      assert Faithful(response);
    }
  }

  lemma RespondKeepsInv(perPass: nat, ok: Item -> bool, quota: int, s: System, p: nat, response: Item, now: int)
    requires Inv(perPass, ok, quota, s) && Disciplined(perPass, ok)
    requires Enabled(perPass, ok, s, Respond(p, response, now))
    ensures Inv(perPass, ok, quota, Step(s, Respond(p, response, now)))
  {
    assert PhaseInv(perPass, ok, quota, s.pollers[p]);
    RespondKeepsPhase(perPass, ok, quota, s.pollers[p].task, s.pollers[p].left, response, now);
    SameBooksKeep(quota, s, Step(s, Respond(p, response, now)));
  }

  lemma CommitKeepsInv(perPass: nat, ok: Item -> bool, quota: int, s: System, p: nat)
    requires Inv(perPass, ok, quota, s) && Possible(s, Commit(p))
    ensures Inv(perPass, ok, quota, Step(s, Commit(p)))
    ensures s.row.status == FAILURE ==> Step(s, Commit(p)).row.status == FAILURE
  {
    var t, d := Step(s, Commit(p)), s.pollers[p];
    assert PhaseInv(perPass, ok, quota, d);
    assert !Owes(s, p);
    if s.row.status == d.pre && d.refund {
      assert Owes(t, p);
      assert forall q :: Owes(t, q) ==> q == p || Owes(s, q);
    } else {
      assert forall q :: Owes(t, q) <==> Owes(s, q);
    }
  }

  lemma SettleKeepsInv(perPass: nat, ok: Item -> bool, quota: int, s: System, a: Action)
    requires Inv(perPass, ok, quota, s) && (a.Pay? || a.PayError?) && Possible(s, a)
    ensures Inv(perPass, ok, quota, Step(s, a))
  {
    var t := Step(s, a);
    assert Owes(s, a.p) && PhaseInv(perPass, ok, quota, s.pollers[a.p]);
    assert s.refunds == 0 && s.unpaid == 0 && s.mover == Swap;
    forall q ensures !Owes(t, q) {
      if Owes(s, q) { assert q == a.p; }
    }
  }

  lemma QuietKeepsInv(perPass: nat, ok: Item -> bool, quota: int, s: System, a: Action)
    requires Inv(perPass, ok, quota, s) && Enabled(perPass, ok, s, a) && (a.Load? || a.CommitError? || a.Quit?)
    ensures Inv(perPass, ok, quota, Step(s, a))
  {
    var t := Step(s, a);
    if a.CommitError? { assert PhaseInv(perPass, ok, quota, s.pollers[a.p]); }
    if a.Load? { assert s.row.status != FAILURE; }
    assert forall q :: Owes(t, q) <==> Owes(s, q);
    SameBooksKeep(quota, s, t);
  }

  lemma StepKeepsInv(perPass: nat, ok: Item -> bool, quota: int, s: System, a: Action)
    requires Inv(perPass, ok, quota, s) && Disciplined(perPass, ok) && Enabled(perPass, ok, s, a)
    ensures Inv(perPass, ok, quota, Step(s, a))
    ensures s.row.status == FAILURE ==> Step(s, a).row.status == FAILURE
  {
    match a
    case Respond(p, item, now) => RespondKeepsInv(perPass, ok, quota, s, p, item, now);
    case Commit(p) => CommitKeepsInv(perPass, ok, quota, s, p);
    case Pay(_) => SettleKeepsInv(perPass, ok, quota, s, a);
    case PayError(_) => SettleKeepsInv(perPass, ok, quota, s, a);
    case BulkFail(_) => assert forall q :: Owes(Step(s, a), q) <==> Owes(s, q);
    case _ => QuietKeepsInv(perPass, ok, quota, s, a);
  }

  lemma {:induction false} RunKeepsInv(perPass: nat, ok: Item -> bool, quota: int, s: System, acts: seq<Action>)
    requires Inv(perPass, ok, quota, s) && Disciplined(perPass, ok) && Runs(perPass, ok, s, acts)
    ensures Inv(perPass, ok, quota, Run(perPass, ok, s, acts))
    ensures s.row.status == FAILURE ==> Run(perPass, ok, s, acts).row.status == FAILURE
    decreases |acts|
  {
    if acts != [] {
      StepKeepsInv(perPass, ok, quota, s, acts[0]);
      RunKeepsInv(perPass, ok, quota, Step(s, acts[0]), acts[1..]);
    }
  }

  // ---------------------------------------------------------------- the theorems

  /**
   In every interleaving: at most one refund, credit 0 or exactly the quota; nothing credited
   unless a conditional update failed the row, in particular nothing when a bulk update did; and
   once the winner's payment has gone through, exactly the quota.
   */
  lemma RefundedAtMostOnce(perPass: nat, ok: Item -> bool, t: Task, acts: seq<Action>)
    requires Disciplined(perPass, ok) && Startable(t) && Runs(perPass, ok, Start(t), acts)
    ensures var s := Run(perPass, ok, Start(t), acts);
            && s.refunds <= 1
            && (s.credit == 0 || s.credit == t.quota)
            && (s.mover != Swap ==> s.credit == 0)
            && (s.mover == Swap && s.unpaid == 0 && (forall p :: !Owes(s, p)) ==> s.credit == t.quota)
            && (s.row.status == FAILURE <==> s.mover != Nobody)
            && (s.row.status == FAILURE ==> s.row.progress == DONE)
  {
    RunKeepsInv(perPass, ok, t.quota, Start(t), acts);
  }

  /** FAILURE is absorbing: whatever the pollers do next, stale snapshots included. */
  lemma FailureIsFinal(perPass: nat, ok: Item -> bool, t: Task, acts: seq<Action>, more: seq<Action>)
    requires Disciplined(perPass, ok) && Startable(t) && Runs(perPass, ok, Start(t), acts)
    requires Runs(perPass, ok, Run(perPass, ok, Start(t), acts), more)
    requires Run(perPass, ok, Start(t), acts).row.status == FAILURE
    ensures Run(perPass, ok, Run(perPass, ok, Start(t), acts), more).row.status == FAILURE
  {
    RunKeepsInv(perPass, ok, t.quota, Start(t), acts);
    RunKeepsInv(perPass, ok, t.quota, Run(perPass, ok, Start(t), acts), more);
  }
}
