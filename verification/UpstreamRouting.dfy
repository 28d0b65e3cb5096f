/**
 Requests are routed by the abilities table, which is rebuilt after the row is written, in a transaction
 of its own. When the table lists the models of the row, and how long it lags behind once a rebuild fails.
 */
module UpstreamRouting {
  import opened UpstreamSync

  /** The abilities table was built from the models in the row. */
  predicate InStep(s: State) { s.routed == s.row.models }

  /** What may be checked before a call: it writes no other models, or rebuilds the table after it does. */
  predicate KeepsUp(mapping: map<string, string>, rx: Regex, s: State, a: Attempt) {
    !a.saved || a.rebuilt || NextRow(s.row, mapping, rx, a.event).models == s.row.models
  }

  /** A call that is not reported as a change leaves the stored models as they were. */
  lemma NoChangeNoModels(row: Row, mapping: map<string, string>, rx: Regex, e: Event)
    requires !Changes(row, mapping, rx, e)
    ensures NextRow(row, mapping, rx, e).models == row.models
  {
  }

  lemma StaysInStepIff(mapping: map<string, string>, rx: Regex, s: State, a: Attempt)
    requires InStep(s)
    ensures InStep(Step(mapping, rx, s, a)) <==> KeepsUp(mapping, rx, s, a)
  {
    if !Changes(s.row, mapping, rx, a.event) { NoChangeNoModels(s.row, mapping, rx, a.event); }
  }

  predicate AllKeepUp(mapping: map<string, string>, rx: Regex, s: State, attempts: seq<Attempt>)
    decreases |attempts|
  {
    attempts == [] ||
    (KeepsUp(mapping, rx, s, attempts[0]) && AllKeepUp(mapping, rx, Step(mapping, rx, s, attempts[0]), attempts[1..]))
  }

  /** Over every run whose rebuilds keep up, requests are routed by the stored models. */
  lemma {:induction false} RoutedByStoredModels(mapping: map<string, string>, rx: Regex, s: State, attempts: seq<Attempt>)
    requires InStep(s) && AllKeepUp(mapping, rx, s, attempts)
    ensures InStep(Run(mapping, rx, s, attempts))
    decreases |attempts|
  {
    if attempts != [] {
      StaysInStepIff(mapping, rx, s, attempts[0]);
      RoutedByStoredModels(mapping, rx, Step(mapping, rx, s, attempts[0]), attempts[1..]);
    }
  }

  // ---------------------------------------------------------------- a lost rebuild

  /** Checks that see this upstream, or fail to fetch it. */
  predicate ChecksOf(upstream: seq<string>, attempts: seq<Attempt>) {
    forall i :: 0 <= i < |attempts| ==>
      var e := attempts[i].event; e.Check? && (e.fetched.Some? ==> e.fetched.value == upstream)
  }

  predicate NothingToAdd(row: Row, upstream: seq<string>, mapping: map<string, string>, rx: Regex) {
    PendingAdd(Local(row.models), upstream, row.ignored, mapping.Values, rx) == []
  }

  lemma {:induction false} NothingIsRebuilt(mapping: map<string, string>, rx: Regex, s: State,
                                            upstream: seq<string>, attempts: seq<Attempt>)
    requires NothingToAdd(s.row, upstream, mapping, rx) && ChecksOf(upstream, attempts)
    ensures var last := Run(mapping, rx, s, attempts); last.routed == s.routed && last.row.models == s.row.models
    decreases |attempts|
  {
    if attempts != [] {
      assert !Changes(s.row, mapping, rx, attempts[0].event);
      NothingIsRebuilt(mapping, rx, Step(mapping, rx, s, attempts[0]), upstream, attempts[1..]);
    }
  }

  /** An automatic addition stores other models, and leaves nothing of that upstream to add. */
  lemma AutoSyncStores(row: Row, mapping: map<string, string>, rx: Regex, e: Event)
    requires e.Check? && Changes(row, mapping, rx, e) && Sane(e.fetched.value, rx)
    ensures var next := CheckRow(row, mapping, rx, e);
            next.models != row.models && NothingToAdd(next, e.fetched.value, mapping, rx)
  {
    CheckMakesCurrent(row, e, mapping, rx);
  }

  /**
   A rebuild that fails after an automatic addition is never made up for: however often the same upstream
   is checked again, the added models stay stored and unrouted.
   */
  lemma LostRebuildLasts(mapping: map<string, string>, rx: Regex, s: State, a: Attempt, attempts: seq<Attempt>)
    requires InStep(s) && a.event.Check? && a.saved && !a.rebuilt && Changes(s.row, mapping, rx, a.event)
    requires Sane(a.event.fetched.value, rx) && ChecksOf(a.event.fetched.value, attempts)
    ensures var last := Run(mapping, rx, Step(mapping, rx, s, a), attempts);
            last.routed == s.row.models && last.row.models == CheckRow(s.row, mapping, rx, a.event).models && !InStep(last)
  {
    AutoSyncStores(s.row, mapping, rx, a.event);
    NothingIsRebuilt(mapping, rx, Step(mapping, rx, s, a), a.event.fetched.value, attempts);
  }
}
