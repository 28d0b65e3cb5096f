/**
 What one handling of an item leaves in the row, column by column, and that a delivered task is left
 alone for good, however many pollers were at work on it.
 */
module MidjourneyDelivery {
  import opened Midjourney

  /** A poller with an item to come, whose snapshot still has the status of the row. */
  predicate Current(s: System, p: nat) {
    && p in s.pollers && s.pollers[p].Holding? && s.pollers[p].left > 0
    && s.pollers[p].task.status == s.row.status
  }

  /** Submitted more than an hour before `now`, and unfinished. */
  predicate Late(t: Task, now: int) { now > t.submitTime + 3_600_000 && t.progress != "100%" }

  /** The item is handled, and written if it is found to be news. */
  function Handled(s: System, p: nat, item: Item, now: int): System
    requires Current(s, p)
  {
    var asked := Step(s, Respond(p, item, now));
    if asked.pollers[p].Deciding? then Step(asked, Commit(p)) else asked
  }

  /** The columns that an item is compared with. */
  predicate SameColumns(a: Task, b: Task) {
    && a.code == b.code && a.status == b.status && a.progress == b.progress && a.failReason == b.failReason
    && a.submitTime == b.submitTime && a.details == b.details
  }

  predicate Repeated(t: Task, item: Item) {
    SameColumns(t, Task(1, item.status, item.progress, item.failReason, t.quota, item.submitTime, item.details, "", ""))
  }

  /** An item is skipped exactly when it repeats the snapshot, unless it gives a reason below full progress. */
  lemma SkippedIff(t: Task, item: Item)
    ensures !NeedsUpdate(t, item) <==> Repeated(t, item) && (t.progress == "100%" || item.failReason == "")
  {
  }

  /** In time: whatever the item says is stored as it is, and no refund is due, unless it fails the task. */
  lemma ProgressIsStored(s: System, p: nat, item: Item, now: int)
    requires Current(s, p) && !Late(s.pollers[p].task, now) && !Repeated(s.pollers[p].task, item)
    requires if item.progress == "100%" then item.status != "FAILURE" else item.failReason == ""
    ensures var row, t := Handled(s, p, item, now).row, s.pollers[p].task;
            && row.code == 1 && row.status == item.status && row.progress == item.progress
            && row.failReason == item.failReason && row.submitTime == item.submitTime && row.details == item.details
            && row.properties == (if item.properties.Some? then item.properties.value else t.properties)
            && row.buttons == (if item.buttons.Some? then item.buttons.value else t.buttons)
            && row.quota == t.quota
    ensures Handled(s, p, item, now).pollers[p].Holding?
  {
  }

  /** A failure, a reason below full progress, or a late task whatever the item says: finished, with a refund due. */
  lemma FailureIsStored(s: System, p: nat, item: Item, now: int)
    requires Current(s, p)
    requires
      || Late(s.pollers[p].task, now)
      || (item.progress != "100%" && item.failReason != "")
      || (item.progress == "100%" && item.status == "FAILURE" && !Repeated(s.pollers[p].task, item))
    ensures var next, t, late := Handled(s, p, item, now), s.pollers[p].task, Late(s.pollers[p].task, now);
            && next.row.code == 1 && next.row.status == (if late then "FAILURE" else item.status)
            && next.row.progress == "100%"
            && next.row.failReason == (if late then TIMEOUT_REASON else item.failReason)
            && next.row.submitTime == item.submitTime && next.row.details == item.details
            && next.row.properties == (if item.properties.Some? then item.properties.value else t.properties)
            && next.row.buttons == (if item.buttons.Some? then item.buttons.value else t.buttons)
            && (t.quota != 0 ==> next.pollers[p].Owing? && next.pollers[p].amount == t.quota)
            && (t.quota == 0 ==> next.pollers[p].Holding?)
  {
  }

  /** A poller whose snapshot has another status than the row writes nothing and owes nothing. */
  lemma StaleWritesNothing(s: System, p: nat, item: Item, now: int)
    requires p in s.pollers && s.pollers[p].Holding? && s.pollers[p].left > 0
    requires s.pollers[p].task.status != s.row.status
    ensures var asked := Step(s, Respond(p, item, now));
            asked.row == s.row && (asked.pollers[p].Deciding? ==>
              var next := Step(asked, Commit(p)); next.row == s.row && next.pollers[p].Holding?)
  {
  }

  // ---------------------------------------------------------------- delivered

  /** A poller that cannot write a row of this status: nothing more to handle, or one item on a stale snapshot. */
  predicate Powerless(status: string, ph: Phase) {
    match ph
    case Holding(t, left) => left == 0 || (left == 1 && t.status != status)
    case Deciding(pre, _, _, left) => left == 0 && pre != status
    case Owing(_, _, _) => false
  }

  /** A finished task, and nobody at work who could still write it. */
  ghost predicate AtRest(s: System) {
    s.row.progress == "100%" && forall p :: p in s.pollers ==> Powerless(s.row.status, s.pollers[p])
  }

  predicate Untouched(s: System, t: System) {
    t.row == s.row && t.credit == s.credit && t.refunds == s.refunds && t.unpaid == s.unpaid
  }

  lemma RestStep(s: System, a: Action)
    requires AtRest(s) && Possible(s, a) && !a.BulkFail?
    ensures AtRest(Step(s, a)) && Untouched(s, Step(s, a))
  {
  }

  predicate NoBulk(acts: seq<Action>) { forall i :: 0 <= i < |acts| ==> !acts[i].BulkFail? }

  /** Whatever the pollers do, a task at rest keeps every column, and nobody is paid. */
  lemma {:induction false} RestsForGood(perPass: nat, ok: Item -> bool, s: System, acts: seq<Action>)
    requires AtRest(s) && NoBulk(acts) && Runs(perPass, ok, s, acts)
    ensures AtRest(Run(perPass, ok, s, acts)) && Untouched(s, Run(perPass, ok, s, acts))
    decreases |acts|
  {
    if acts != [] {
      RestStep(s, acts[0]);
      RestsForGood(perPass, ok, Step(s, acts[0]), acts[1..]);
    }
  }

  /** The other pollers took their snapshots, or decided, before the row got this status. */
  ghost predicate OthersBehind(s: System, p: nat, status: string) {
    forall q :: q in s.pollers && q != p ==> Powerless(status, s.pollers[q])
  }

  /**
   A task delivered in time to a current poller, its last item of the pass, is stored as delivered and cannot
   be picked up again; no run of pollers afterwards fails, changes or refunds it, however many were at work.
   */
  lemma DeliveredForGood(perPass: nat, ok: Item -> bool, s: System, p: nat, item: Item, now: int, acts: seq<Action>)
    requires Current(s, p) && s.pollers[p].left == 1 && !Late(s.pollers[p].task, now)
    requires s.pollers[p].task.progress != "100%" && item.progress == "100%" && item.status != "FAILURE"
    requires OthersBehind(s, p, item.status) && NoBulk(acts) && Runs(perPass, ok, Handled(s, p, item, now), acts)
    ensures var last := Run(perPass, ok, Handled(s, p, item, now), acts);
            && last.row.status == item.status && last.row.progress == "100%" && last.row.details == item.details
            && last.row.quota == s.pollers[p].task.quota
            && last.credit == s.credit && last.refunds == s.refunds && last.unpaid == s.unpaid
            && forall q, n :: !Possible(last, Load(q, n))
  {
    ProgressIsStored(s, p, item, now);
    var after := Handled(s, p, item, now);
    forall q | q in after.pollers ensures Powerless(after.row.status, after.pollers[q]) {
      if q != p { assert after.pollers[q] == s.pollers[q]; }
    }
    RestsForGood(perPass, ok, after, acts);
  }
}
