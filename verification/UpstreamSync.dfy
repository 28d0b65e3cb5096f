/**
 Reconciling a channel's model list with its upstream: detection stages what to add and what to
 remove, an administrator applies or ignores a selection, auto-sync adopts additions at once.
 The staged lists are a cache of a diff; the theorems say the cache never goes stale.

 Regular-expression matching is a parameter: `rx(pattern, name)` holds when the pattern compiles
 and matches.
 */
module UpstreamSync {
  import opened Text
  import opened ModelNames

  datatype Option<+T> = None | Some(value: T)

  type Regex = (string, string) -> bool

  // ---------------------------------------------------------------- the diff

  const PATTERN := "regex:"

  predicate IsPattern(entry: string) { PATTERN <= entry }

  predicate IgnoredBy(entry: string, name: string, rx: Regex) {
    if IsPattern(entry) then rx(TrimSpace(entry[|PATTERN|..]), name) else entry == name
  }

  predicate Ignored(entries: seq<string>, name: string, rx: Regex) {
    exists e :: e in entries && IgnoredBy(e, name, rx)
  }

  /** Names that need adding: neither local, nor a redirect target, nor ignored. */
  function Missing(names: seq<string>, local: seq<string>, ignored: seq<string>, targets: set<string>, rx: Regex)
    : set<string>
  {
    set x | x in names && x !in local && x !in targets && !Ignored(ignored, x, rx)
  }

  /** Upstream names that are missing locally, in upstream order. */
  function PendingAdd(local: seq<string>, upstream: seq<string>, ignored: seq<string>, targets: set<string>, rx: Regex)
    : seq<string>
  {
    var u := Normalize(upstream);
    Normalize(Keep(u, Missing(u, Normalize(local), Normalize(ignored), targets, rx)))
  }

  /** Local names that are neither upstream nor a redirect source, in local order. */
  function PendingRemove(local: seq<string>, upstream: seq<string>, sources: set<string>): seq<string> {
    var l := Normalize(local);
    Normalize(Keep(l, Names(l) - sources - Names(Normalize(upstream))))
  }

  // ---------------------------------------------------------------- the stored row

  /** The part of a channel row these operations read and write. */
  datatype Row = Row(models: string, ignored: seq<string>, detected: seq<string>, removed: seq<string>,
                     lastCheck: int, autoSync: bool)

  function Local(models: string): seq<string> { Fields(models, ',') }

  datatype Event =
    | Check(fetched: Option<seq<string>>, now: int, force: bool, minInterval: int, autoApply: bool)
    | Apply(add: seq<string>, ignore: seq<string>, remove: seq<string>, now: int)

  predicate Skips(row: Row, e: Event)
    requires e.Check?
  {
    !e.force && row.lastCheck > 0 && e.now - row.lastCheck < e.minInterval
  }

  /** The stored list with staged additions merged in. */
  function AutoSynced(models: string, add: seq<string>): string {
    var merged := Merge(Normalize(Local(models)), add);
    if |merged| > |Normalize(Local(models))| then Join(merged, ',') else models
  }

  function CheckRow(row: Row, mapping: map<string, string>, rx: Regex, e: Event): Row
    requires e.Check?
  {
    if Skips(row, e) then row
    else if e.fetched.None? then row.(lastCheck := e.now)
    else
      var local := Local(row.models);
      var add := PendingAdd(local, e.fetched.value, row.ignored, mapping.Values, rx);
      var remove := PendingRemove(local, e.fetched.value, mapping.Keys);
      if e.autoApply && row.autoSync && |add| > 0 then
        row.(models := AutoSynced(row.models, add), detected := [], removed := remove, lastCheck := e.now)
      else
        row.(detected := add, removed := remove, lastCheck := e.now)
  }

  /** The names a request really selects: only what is staged can be added, ignored or removed. */
  datatype Selection = Selection(add: seq<string>, ignore: seq<string>, remove: seq<string>)

  function Select(row: Row, e: Event): Selection
    requires e.Apply?
  {
    var add := Intersect(e.add, Normalize(row.detected));
    Selection(add,
              Intersect(e.ignore, Normalize(row.detected)),
              Subtract(Intersect(e.remove, Normalize(row.removed)), add))
  }

  function NextIgnored(ignored: seq<string>, sel: Selection): seq<string> {
    var merged := Merge(ignored, sel.ignore);
    if |sel.add| > 0 then Subtract(merged, sel.add) else merged
  }

  predicate Rewrites(models: string, sel: Selection) {
    var origin := Normalize(Local(models));
    origin != ApplySelected(origin, sel.add, sel.remove)
  }

  /** The stored list is rewritten only when it really changes. */
  function NextModelsString(models: string, sel: Selection): string {
    if Rewrites(models, sel) then Join(ApplySelected(Normalize(Local(models)), sel.add, sel.remove), ',') else models
  }

  function ApplySelection(row: Row, sel: Selection, now: int): Row {
    Row(NextModelsString(row.models, sel),
        NextIgnored(row.ignored, sel),
        Subtract(Normalize(row.detected), sel.add + sel.ignore),
        Subtract(Normalize(row.removed), sel.remove),
        now,
        row.autoSync)
  }

  lemma SelectionApplied(row: Row, next: Row, sel: Selection, now: int)
    requires next.models == NextModelsString(row.models, sel) && next.ignored == NextIgnored(row.ignored, sel)
    requires next.detected == Subtract(Normalize(row.detected), sel.add + sel.ignore)
    requires next.removed == Subtract(Normalize(row.removed), sel.remove)
    requires next.lastCheck == now && next.autoSync == row.autoSync
    ensures next == ApplySelection(row, sel, now)
  {
  }

  function ApplyRow(row: Row, e: Event): Row
    requires e.Apply?
  {
    ApplySelection(row, Select(row, e), e.now)
  }

  /** Whether a call that is saved reports the stored models as changed. */
  predicate Changes(row: Row, mapping: map<string, string>, rx: Regex, e: Event) {
    match e
    case Check(fetched, _, _, _, autoApply) =>
      && !Skips(row, e) && fetched.Some? && autoApply && row.autoSync
      && |PendingAdd(Local(row.models), fetched.value, row.ignored, mapping.Values, rx)| > 0
    case Apply(_, _, _, _) => Rewrites(row.models, Select(row, e))
  }

  // ---------------------------------------------------------------- what staged lists mean

  /**
   Upstream names the stored formats can carry: no comma, and as an ignore entry each stands for itself
   among them. A plain name does; one with the pattern marker does when its pattern matches it alone.
   */
  ghost predicate Sane(upstream: seq<string>, rx: Regex) {
    forall x :: x in Normalize(upstream) ==> ',' !in x && StandsForItself(x, upstream, rx)
  }

  ghost predicate StandsForItself(x: string, upstream: seq<string>, rx: Regex) {
    forall y :: y in Normalize(upstream) ==> (IgnoredBy(x, y, rx) <==> y == x)
  }

  /** The staged lists are what detection against `upstream` would compute right now. */
  ghost predicate Current(row: Row, upstream: seq<string>, mapping: map<string, string>, rx: Regex) {
    && row.detected == PendingAdd(Local(row.models), upstream, row.ignored, mapping.Values, rx)
    && row.removed == PendingRemove(Local(row.models), upstream, mapping.Keys)
  }

  /** A name is staged for addition exactly when upstream has it and it is not local, not a redirect target, not ignored. */
  lemma StagedToAddIff(local: seq<string>, upstream: seq<string>, ignored: seq<string>, mapping: map<string, string>,
                       rx: Regex, x: string)
    ensures x in PendingAdd(local, upstream, ignored, mapping.Values, rx) <==>
            && x in Normalize(upstream) && x !in Normalize(local)
            && !(exists k :: k in mapping && mapping[k] == x)
            && !(exists e :: e in Normalize(ignored) && IgnoredBy(e, x, rx))
  {
    PendingMeans(local, upstream, ignored, mapping, rx);
    var add := PendingAdd(local, upstream, ignored, mapping.Values, rx);
    assert x in add <==> x in Names(add);
    assert x in mapping.Values <==> exists k :: k in mapping && mapping[k] == x;
  }

  /** A name is staged for removal exactly when it is local, not upstream and not redirected. */
  lemma StagedToRemoveIff(local: seq<string>, upstream: seq<string>, mapping: map<string, string>, rx: Regex, x: string)
    ensures x in PendingRemove(local, upstream, mapping.Keys) <==>
            x in Normalize(local) && x !in Normalize(upstream) && x !in mapping
  {
    PendingMeans(local, upstream, [], mapping, rx);
    var remove := PendingRemove(local, upstream, mapping.Keys);
    assert x in remove <==> x in Names(remove);
  }

  /** An entry written with the marker is a pattern, blanks around it aside; any other stands for the name it spells. */
  lemma EntryMeans(entry: string, pattern: string, name: string, rx: Regex)
    ensures IgnoredBy("regex:" + pattern, name, rx) <==> rx(TrimSpace(pattern), name)
    ensures !("regex:" <= entry) ==> (IgnoredBy(entry, name, rx) <==> entry == name)
  {
    assert ("regex:" + pattern)[6..] == pattern;
  }

  lemma PendingMeans(local: seq<string>, upstream: seq<string>, ignored: seq<string>, mapping: map<string, string>, rx: Regex)
    ensures var l, u, g := Normalize(local), Normalize(upstream), Normalize(ignored);
            var add := PendingAdd(local, upstream, ignored, mapping.Values, rx);
            var remove := PendingRemove(local, upstream, mapping.Keys);
            && Clean(l) && Clean(u) && Clean(add) && Clean(remove)
            && add == Keep(u, Missing(u, l, g, mapping.Values, rx))
            && Names(add) == Missing(u, l, g, mapping.Values, rx)
            && remove == Keep(l, Names(l) - mapping.Keys - Names(u))
            && Names(remove) == Names(l) - mapping.Keys - Names(u)
  {
    var l, u, g := Normalize(local), Normalize(upstream), Normalize(ignored);
    NormalizeClean(local);
    NormalizeClean(upstream);
    var add, remove := Missing(u, l, g, mapping.Values, rx), Names(l) - mapping.Keys - Names(u);
    KeepMembers(u, add);
    KeepMembers(l, remove);
    NormalizeClean(Keep(u, add));
    NormalizeClean(Keep(l, remove));
  }

  /** A clean list without commas is read back from the row as it was written. */
  lemma StoredRoundTrip(names: seq<string>)
    requires Clean(names) && forall x :: x in names ==> ',' !in x
    ensures Local(Join(names, ',')) == names
    ensures Normalize(Local(Join(names, ','))) == names
  {
    forall i | 0 <= i < |names| ensures Plain(names[i], ',') {
      assert names[i] in names;
    }
    FieldsOfJoin(names, ',');
    NormalizeClean(names);
  }

  lemma TrimHasNoNew(s: string, cut: char -> bool, c: char)
    requires c !in s
    ensures c !in Trim(s, cut)
  {
    TrimLeftSuffix(s, cut);
    TrimRightTrims(TrimLeft(s, cut), cut);
  }

  lemma {:induction false} TrimLeftSuffix(s: string, cut: char -> bool)
    ensures forall c :: c in TrimLeft(s, cut) ==> c in s
  {
    if s != [] && cut(s[0]) { TrimLeftSuffix(s[1..], cut); }
  }

  lemma LocalHasNoComma(models: string)
    ensures forall x :: x in Normalize(Local(models)) ==> ',' !in x
  {
    var local := Local(models);
    NormalizeMembers(local);
    if models != [] { SplitParts(Trim(models, c => c == ','), ','); }
    forall x | x in Normalize(local) ensures ',' !in x {
      var m :| m in local && TrimSpace(m) == x;
      TrimHasNoNew(m, IsSpace, ',');
    }
  }

  // ---------------------------------------------------------------- applying a selection

  /** The selected sets, in terms of the staged ones. */
  lemma SelectMeans(row: Row, e: Event, upstream: seq<string>, mapping: map<string, string>, rx: Regex)
    requires e.Apply? && Current(row, upstream, mapping, rx)
    ensures var sel := Select(row, e);
            var l, u := Normalize(Local(row.models)), Normalize(upstream);
            && Clean(sel.add) && Clean(sel.ignore) && Clean(sel.remove)
            && Names(sel.add) <= Names(row.detected)
            && Names(sel.ignore) <= Names(row.detected)
            && Names(sel.remove) <= Names(row.removed)
            && Names(row.detected) <= Names(u) - Names(l)
            && Names(row.removed) <= Names(l) - Names(u)
  {
    PendingMeans(Local(row.models), upstream, row.ignored, mapping, rx);
    NormalizeClean(row.detected);
    NormalizeClean(row.removed);
    IntersectClean(e.add, row.detected);
    IntersectClean(e.ignore, row.detected);
    IntersectClean(e.remove, row.removed);
    NormalizeClean(Intersect(e.remove, row.removed));
    SubtractClean(Intersect(e.remove, row.removed), Intersect(e.add, row.detected));
  }

  lemma NextNames(row: Row, e: Event, upstream: seq<string>, mapping: map<string, string>, rx: Regex)
    requires e.Apply? && Current(row, upstream, mapping, rx)
    ensures var sel, l := Select(row, e), Normalize(Local(row.models));
            var next := ApplySelected(l, sel.add, sel.remove);
            && Clean(next)
            && next == Keep(l, Names(l) - Names(sel.remove)) + sel.add
            && Names(next) <= Names(l) + Names(Normalize(upstream))
  {
    var sel, l := Select(row, e), Normalize(Local(row.models));
    SelectMeans(row, e, upstream, mapping, rx);
    NormalizeClean(Local(row.models));
    NormalizeClean(l);
    NormalizeClean(sel.add);
    NormalizeClean(sel.remove);
    ApplySelectedMeans(l, sel.add, sel.remove);
    assert Names(sel.remove) - Names(sel.add) == Names(sel.remove);
    assert Names(sel.add) - Names(l) == Names(sel.add);
    KeepAll(sel.add, Names(sel.add));
    KeepMembers(l, Names(l) - Names(sel.remove));
  }

  /** The new local list: the kept names in their order, then the added ones. */
  lemma NextModels(row: Row, e: Event, upstream: seq<string>, mapping: map<string, string>, rx: Regex)
    requires e.Apply? && Current(row, upstream, mapping, rx) && Sane(upstream, rx)
    ensures var sel, l := Select(row, e), Normalize(Local(row.models));
            Normalize(Local(ApplyRow(row, e).models)) == Keep(l, Names(l) - Names(sel.remove)) + sel.add
  {
    var sel, l := Select(row, e), Normalize(Local(row.models));
    var next := ApplySelected(l, sel.add, sel.remove);
    NextNames(row, e, upstream, mapping, rx);
    LocalHasNoComma(row.models);
    forall x | x in next ensures ',' !in x {
      assert x in Names(next);
    }
    StoredRoundTrip(next);
  }

  /** Each staged name stands for itself among the upstream names, and no ignore entry is one. */
  lemma StagedStandForThemselves(row: Row, upstream: seq<string>, mapping: map<string, string>, rx: Regex)
    requires Current(row, upstream, mapping, rx) && Sane(upstream, rx)
    ensures forall x :: x in Names(row.detected) ==> StandsForItself(x, upstream, rx) && x !in Normalize(row.ignored)
    ensures Names(row.detected) <= Names(Normalize(upstream))
  {
    PendingMeans(Local(row.models), upstream, row.ignored, mapping, rx);
    forall x | x in Names(row.detected) ensures StandsForItself(x, upstream, rx) && x !in Normalize(row.ignored) {
      assert IgnoredBy(x, x, rx);
    }
  }

  /** Ignore entries gained and lost among names that stand for themselves decide about those names only. */
  lemma EntriesDecide(before: seq<string>, after: seq<string>, add: set<string>, ignore: set<string>,
                      staged: set<string>, name: string, rx: Regex)
    requires Names(after) == Names(before) + ignore - add && add <= staged && ignore <= staged
    requires forall x :: x in staged ==> (IgnoredBy(x, name, rx) <==> name == x) && x !in before
    ensures Ignored(after, name, rx) <==> Ignored(before, name, rx) || name in ignore - add
  {
    if Ignored(after, name, rx) {
      var entry :| entry in after && IgnoredBy(entry, name, rx);
      assert entry in Names(after);
    }
    if Ignored(before, name, rx) {
      var entry :| entry in before && IgnoredBy(entry, name, rx);
      assert entry in Names(before) && entry in Names(after);
    }
    if name in ignore - add {
      assert name in Names(after) && IgnoredBy(name, name, rx);
    }
  }

  /** Over upstream names, the new ignore list ignores the old ones and the newly ignored ones. */
  lemma NextIgnoredMeans(row: Row, e: Event, upstream: seq<string>, mapping: map<string, string>, rx: Regex, name: string)
    requires e.Apply? && Current(row, upstream, mapping, rx) && Sane(upstream, rx)
    requires name in Normalize(upstream)
    ensures var sel := Select(row, e);
            Ignored(Normalize(NextIgnored(row.ignored, sel)), name, rx)
            <==> Ignored(Normalize(row.ignored), name, rx) || name in Names(sel.ignore) - Names(sel.add)
  {
    var sel := Select(row, e);
    var before, after := Normalize(row.ignored), NextIgnored(row.ignored, sel);
    SelectMeans(row, e, upstream, mapping, rx);
    PendingMeans(Local(row.models), upstream, row.ignored, mapping, rx);
    NormalizeClean(sel.add);
    NormalizeClean(sel.ignore);
    var merged := Merge(row.ignored, sel.ignore);
    MergeClean(row.ignored, sel.ignore);
    NormalizeClean(merged);
    SubtractClean(merged, sel.add);
    NormalizeClean(after);
    assert Names(after) == Names(before) + Names(sel.ignore) - Names(sel.add);
    StagedStandForThemselves(row, upstream, mapping, rx);
    EntriesDecide(before, after, Names(sel.add), Names(sel.ignore), Names(row.detected), name, rx);
  }

  /** What is still missing after the application is what was missing and not selected. */
  lemma StillMissing(row: Row, e: Event, upstream: seq<string>, mapping: map<string, string>, rx: Regex)
    requires e.Apply? && Current(row, upstream, mapping, rx) && Sane(upstream, rx)
    ensures var next, sel, u := ApplyRow(row, e), Select(row, e), Normalize(upstream);
            Missing(u, Normalize(Local(next.models)), Normalize(next.ignored), mapping.Values, rx)
            == Names(row.detected) - Names(sel.add) - Names(sel.ignore)
  {
    var next, sel, u := ApplyRow(row, e), Select(row, e), Normalize(upstream);
    var l, kept := Normalize(Local(row.models)), Normalize(Local(next.models));
    PendingMeans(Local(row.models), upstream, row.ignored, mapping, rx);
    SelectMeans(row, e, upstream, mapping, rx);
    NextModels(row, e, upstream, mapping, rx);
    KeepMembers(l, Names(l) - Names(sel.remove));
    assert Names(kept) == Names(l) - Names(sel.remove) + Names(sel.add);
    forall x | x in u
      ensures (x !in kept && x !in mapping.Values && !Ignored(Normalize(next.ignored), x, rx))
              <==> x in Names(row.detected) - Names(sel.add) - Names(sel.ignore)
    {
      NextIgnoredMeans(row, e, upstream, mapping, rx, x);
      assert x in kept <==> x in Names(kept);
    }
  }

  /** Staged names less two selections of names. */
  lemma Remaining(detected: seq<string>, u: seq<string>, add: seq<string>, ignore: seq<string>)
    requires Clean(detected) && Clean(add) && Clean(ignore) && detected == Keep(u, Names(detected))
    ensures Subtract(Normalize(detected), add + ignore) == Keep(u, Names(detected) - Names(add) - Names(ignore))
  {
    var gone, pending := add + ignore, Names(detected);
    NormalizeClean(detected);
    TrimAllClean(gone);
    UniqMembers(gone);
    assert Names(Normalize(gone)) == Names(add) + Names(ignore);
    KeepTwice(u, pending, pending - Names(Normalize(gone)));
    assert pending * (pending - Names(Normalize(gone))) == pending - Names(add) - Names(ignore);
  }

  lemma ApplyKeepsAdditions(row: Row, e: Event, upstream: seq<string>, mapping: map<string, string>, rx: Regex)
    requires e.Apply? && Current(row, upstream, mapping, rx) && Sane(upstream, rx)
    ensures var next := ApplyRow(row, e);
            next.detected == PendingAdd(Local(next.models), upstream, next.ignored, mapping.Values, rx)
  {
    var next, sel, u := ApplyRow(row, e), Select(row, e), Normalize(upstream);
    PendingMeans(Local(row.models), upstream, row.ignored, mapping, rx);
    PendingMeans(Local(next.models), upstream, next.ignored, mapping, rx);
    SelectMeans(row, e, upstream, mapping, rx);
    StillMissing(row, e, upstream, mapping, rx);
    Remaining(row.detected, u, sel.add, sel.ignore);
  }

  /** Names to remove, recomputed from the list after the application. */
  lemma StillExtra(l: seq<string>, u: seq<string>, add: seq<string>, drop: set<string>, sources: set<string>)
    requires Names(add) <= Names(u)
    ensures var stay := Names(l) - drop; var next := Keep(l, stay) + add;
            Keep(next, Names(next) - sources - Names(u)) == Keep(l, stay - sources - Names(u))
  {
    var stay := Names(l) - drop;
    var next := Keep(l, stay) + add;
    KeepMembers(l, stay);
    assert Names(next) == stay + Names(add);
    var extra := Names(next) - sources - Names(u);
    KeepConcat(Keep(l, stay), add, extra);
    KeepNone(add, extra);
    KeepTwice(l, stay, extra);
    assert stay * extra == stay - sources - Names(u);
  }

  lemma ApplyKeepsRemovals(row: Row, e: Event, upstream: seq<string>, mapping: map<string, string>, rx: Regex)
    requires e.Apply? && Current(row, upstream, mapping, rx) && Sane(upstream, rx)
    ensures var next := ApplyRow(row, e);
            next.removed == PendingRemove(Local(next.models), upstream, mapping.Keys)
  {
    var next, sel := ApplyRow(row, e), Select(row, e);
    var l, u, pending := Normalize(Local(row.models)), Normalize(upstream), Names(row.removed);
    PendingMeans(Local(row.models), upstream, row.ignored, mapping, rx);
    PendingMeans(Local(next.models), upstream, next.ignored, mapping, rx);
    SelectMeans(row, e, upstream, mapping, rx);
    NextModels(row, e, upstream, mapping, rx);
    StillExtra(l, u, sel.add, Names(sel.remove), mapping.Keys);
    NormalizeClean(row.removed);
    NormalizeClean(sel.remove);
    KeepTwice(l, pending, pending - Names(sel.remove));
    assert pending * (pending - Names(sel.remove)) == Names(l) - Names(sel.remove) - mapping.Keys - Names(u);
  }

  /** Applying any selection leaves staged lists that a fresh detection would compute. */
  lemma ApplyKeepsCurrent(row: Row, e: Event, upstream: seq<string>, mapping: map<string, string>, rx: Regex)
    requires e.Apply? && Current(row, upstream, mapping, rx) && Sane(upstream, rx)
    ensures Current(ApplyRow(row, e), upstream, mapping, rx)
  {
    ApplyKeepsAdditions(row, e, upstream, mapping, rx);
    ApplyKeepsRemovals(row, e, upstream, mapping, rx);
  }

  // ---------------------------------------------------------------- detecting

  /** Auto-sync appends exactly the pending additions. */
  lemma AutoSyncAppends(local: seq<string>, upstream: seq<string>, ignored: seq<string>, mapping: map<string, string>, rx: Regex)
    ensures var l, add := Normalize(local), PendingAdd(local, upstream, ignored, mapping.Values, rx);
            Merge(l, add) == l + add && Clean(l + add)
  {
    var l, add := Normalize(local), PendingAdd(local, upstream, ignored, mapping.Values, rx);
    PendingMeans(local, upstream, ignored, mapping, rx);
    NormalizeClean(l);
    NormalizeClean(add);
    MergeClean(l, add);
    assert Names(add) - Names(l) == Names(add);
    KeepAll(add, Names(add));
  }

  /** Once the pending additions are local, nothing is left to add and the removals are unchanged. */
  lemma AutoSyncSettles(local: seq<string>, local': seq<string>, upstream: seq<string>, ignored: seq<string>,
                        mapping: map<string, string>, rx: Regex)
    requires Normalize(local') == Normalize(local) + PendingAdd(local, upstream, ignored, mapping.Values, rx)
    ensures PendingAdd(local', upstream, ignored, mapping.Values, rx) == []
    ensures PendingRemove(local', upstream, mapping.Keys) == PendingRemove(local, upstream, mapping.Keys)
  {
    var l, u, g, l' := Normalize(local), Normalize(upstream), Normalize(ignored), Normalize(local');
    var add := PendingAdd(local, upstream, ignored, mapping.Values, rx);
    PendingMeans(local, upstream, ignored, mapping, rx);
    PendingMeans(local', upstream, ignored, mapping, rx);
    assert Names(l') == Names(l) + Names(add);
    assert Missing(u, l', g, mapping.Values, rx) == {} by {
      forall x | x in Missing(u, l, g, mapping.Values, rx) ensures x in l' {
        assert x in Names(add);
      }
    }
    KeepNone(u, {});
    var extra := Names(l') - mapping.Keys - Names(u);
    KeepConcat(l, add, extra);
    KeepNone(add, extra);
    KeepAgree(l, extra, Names(l) - mapping.Keys - Names(u));
  }

  /** A successful check is current for what it fetched, with or without auto-sync. */
  lemma CheckMakesCurrent(row: Row, e: Event, mapping: map<string, string>, rx: Regex)
    requires e.Check? && e.fetched.Some? && !Skips(row, e) && Sane(e.fetched.value, rx)
    ensures Current(CheckRow(row, mapping, rx, e), e.fetched.value, mapping, rx)
  {
    var upstream, local := e.fetched.value, Local(row.models);
    var add := PendingAdd(local, upstream, row.ignored, mapping.Values, rx);
    if e.autoApply && row.autoSync && |add| > 0 {
      var merged := Normalize(local) + add;
      AutoSyncAppends(local, upstream, row.ignored, mapping, rx);
      LocalHasNoComma(row.models);
      PendingMeans(local, upstream, row.ignored, mapping, rx);
      forall x | x in merged ensures ',' !in x {
        if x in add { assert x in Names(add); }
      }
      StoredRoundTrip(merged);
      AutoSyncSettles(local, Local(Join(merged, ',')), upstream, row.ignored, mapping, rx);
    }
  }

  /** A check is carried out when it is forced, is the first or comes late enough; then it is dated, and else nothing changes. */
  lemma CheckedWhen(row: Row, e: Event, mapping: map<string, string>, rx: Regex)
    requires e.Check?
    ensures var due := e.force || row.lastCheck <= 0 || e.now >= row.lastCheck + e.minInterval;
            var next := CheckRow(row, mapping, rx, e);
            && (due ==> next.lastCheck == e.now) && (!due ==> next == row)
            && (due && e.fetched.Some? ==>
                  next.removed == PendingRemove(Local(row.models), e.fetched.value, mapping.Keys))
            && (due && e.fetched.None? ==> next == row.(lastCheck := e.now))
            && next.ignored == row.ignored && next.autoSync == row.autoSync
  {
  }

  /** Additions are stored at once only when this is asked for and switched on; else they are staged. */
  lemma AddedAtOnceWhen(row: Row, e: Event, mapping: map<string, string>, rx: Regex)
    requires e.Check? && e.force && e.fetched.Some?
    ensures var next := CheckRow(row, mapping, rx, e);
            var add := PendingAdd(Local(row.models), e.fetched.value, row.ignored, mapping.Values, rx);
            if e.autoApply && row.autoSync && add != []
            then next.detected == [] && next.models == Join(Normalize(Local(row.models)) + add, ',')
            else next.detected == add && next.models == row.models
  {
    AutoSyncAppends(Local(row.models), e.fetched.value, row.ignored, mapping, rx);
  }

  // ---------------------------------------------------------------- runs

  /**
   The stored row, the upstream list its last successful check saw, and the models from which the
   abilities table, which routes requests, was last rebuilt.
   */
  datatype State = State(row: Row, seen: Option<seq<string>>, routed: string)

  /** A call on a freshly loaded channel, and whether its write of the row and its rebuild of the abilities succeed. */
  datatype Attempt = Attempt(event: Event, saved: bool, rebuilt: bool)

  function NextRow(row: Row, mapping: map<string, string>, rx: Regex, e: Event): Row {
    if e.Check? then CheckRow(row, mapping, rx, e) else ApplyRow(row, e)
  }

  function Step(mapping: map<string, string>, rx: Regex, s: State, a: Attempt): State {
    if !a.saved then s
    else
      var next := NextRow(s.row, mapping, rx, a.event);
      State(next,
            if a.event.Check? && !Skips(s.row, a.event) && a.event.fetched.Some? then a.event.fetched else s.seen,
            if Changes(s.row, mapping, rx, a.event) && a.rebuilt then next.models else s.routed)
  }

  function Run(mapping: map<string, string>, rx: Regex, s: State, attempts: seq<Attempt>): State
    decreases |attempts|
  {
    if attempts == [] then s else Run(mapping, rx, Step(mapping, rx, s, attempts[0]), attempts[1..])
  }

  ghost predicate SaneEvent(e: Event, rx: Regex) { e.Check? && e.fetched.Some? ==> Sane(e.fetched.value, rx) }

  /** Nothing staged before the first detection; afterwards the cache is current. */
  ghost predicate Inv(mapping: map<string, string>, rx: Regex, s: State) {
    match s.seen
    case None => s.row.detected == [] && s.row.removed == []
    case Some(upstream) => Sane(upstream, rx) && Current(s.row, upstream, mapping, rx)
  }

  lemma StepKeepsInv(mapping: map<string, string>, rx: Regex, s: State, a: Attempt)
    requires Inv(mapping, rx, s) && SaneEvent(a.event, rx)
    ensures Inv(mapping, rx, Step(mapping, rx, s, a))
  {
    match a.event
    case Check(fetched, _, _, _, _) =>
      if !Skips(s.row, a.event) && fetched.Some? { CheckMakesCurrent(s.row, a.event, mapping, rx); }
    case Apply(_, _, _, _) =>
      if s.seen.Some? { ApplyKeepsCurrent(s.row, a.event, s.seen.value, mapping, rx); }
  }

  /** Over every run of checks, auto-syncs and applications, saved or not, the staged lists stay current. */
  lemma {:induction false} StagedNeverStale(mapping: map<string, string>, rx: Regex, s: State, attempts: seq<Attempt>)
    requires Inv(mapping, rx, s) && forall i :: 0 <= i < |attempts| ==> SaneEvent(attempts[i].event, rx)
    ensures Inv(mapping, rx, Run(mapping, rx, s, attempts))
    decreases |attempts|
  {
    if attempts != [] {
      StepKeepsInv(mapping, rx, s, attempts[0]);
      StagedNeverStale(mapping, rx, Step(mapping, rx, s, attempts[0]), attempts[1..]);
    }
  }

  /** The request `ApplyAllChannelUpstreamModelUpdates` makes: everything staged, nothing ignored. */
  function ApplyEverything(row: Row, now: int): Event {
    Apply(Normalize(row.detected), [], Normalize(row.removed), now)
  }

  lemma SelectsAllStaged(row: Row, e: Event)
    requires Clean(row.detected) && Clean(row.removed) && Names(row.detected) !! Names(row.removed)
    requires e.Apply? && e == ApplyEverything(row, e.now)
    ensures Select(row, e) == Selection(row.detected, [], row.removed)
  {
    NormalizeClean(row.detected);
    NormalizeClean(row.removed);
    KeepAll(row.detected, Names(row.detected));
    KeepAll(row.removed, Names(row.removed));
    KeepAll(row.removed, Names(row.removed) - Names(row.detected));
  }

  lemma NothingLeftStaged(row: Row, now: int)
    requires Clean(row.detected) && Clean(row.removed)
    ensures var next := ApplySelection(row, Selection(row.detected, [], row.removed), now);
            next.detected == [] && next.removed == []
  {
    NormalizeClean(row.detected);
    NormalizeClean(row.removed);
    assert row.detected + [] == row.detected;
    KeepNone(row.detected, Names(row.detected) - Names(row.detected));
    KeepNone(row.removed, Names(row.removed) - Names(row.removed));
  }

  lemma EverythingSelected(row: Row, e: Event, upstream: seq<string>, mapping: map<string, string>, rx: Regex)
    requires Current(row, upstream, mapping, rx)
    requires e.Apply? && e == ApplyEverything(row, e.now)
    ensures Select(row, e) == Selection(row.detected, [], row.removed)
    ensures ApplyRow(row, e).detected == [] && ApplyRow(row, e).removed == []
  {
    PendingMeans(Local(row.models), upstream, row.ignored, mapping, rx);
    SelectsAllStaged(row, e);
    NothingLeftStaged(row, e.now);
  }

  /**
   Applying everything settles the list: nothing stays staged, and the local list is the old one
   restricted to upstream names and redirect sources, followed by the detected additions.
   */
  lemma ApplyEverythingSettles(mapping: map<string, string>, rx: Regex, row: Row, upstream: seq<string>, now: int)
    requires Current(row, upstream, mapping, rx) && Sane(upstream, rx)
    ensures var done := ApplyRow(row, ApplyEverything(row, now));
            && done.detected == [] && done.removed == []
            && Current(done, upstream, mapping, rx)
            && Normalize(Local(done.models))
               == Keep(Normalize(Local(row.models)), Names(Normalize(upstream)) + mapping.Keys) + row.detected
  {
    var e := ApplyEverything(row, now);
    var l, u := Normalize(Local(row.models)), Normalize(upstream);
    EverythingSelected(row, e, upstream, mapping, rx);
    NextModels(row, e, upstream, mapping, rx);
    PendingMeans(Local(row.models), upstream, row.ignored, mapping, rx);
    KeepAgree(l, Names(l) - Names(row.removed), Names(u) + mapping.Keys);
    ApplyKeepsCurrent(row, e, upstream, mapping, rx);
  }

  /**
   A row with nothing staged is a fixed point: a further check against the same upstream stages
   nothing and changes no model; and this is so exactly because every upstream name is local, a
   redirect target or ignored, and every local name is upstream or a redirect source.
   */
  lemma SettledIsFixedPoint(mapping: map<string, string>, rx: Regex, row: Row, upstream: seq<string>, again: Event)
    requires Current(row, upstream, mapping, rx) && row.detected == [] && row.removed == []
    requires again.Check? && again.fetched == Some(upstream)
    ensures var l, u := Normalize(Local(row.models)), Normalize(upstream);
            && CheckRow(row, mapping, rx, again).(lastCheck := row.lastCheck) == row
            && (forall x :: x in u ==> x in l || x in mapping.Values || Ignored(Normalize(row.ignored), x, rx))
            && (forall x :: x in l ==> x in u || x in mapping.Keys)
  {
    var l, u, g := Normalize(Local(row.models)), Normalize(upstream), Normalize(row.ignored);
    PendingMeans(Local(row.models), upstream, row.ignored, mapping, rx);
    assert Names([]) == {};
    forall x | x in u ensures x in l || x in mapping.Values || Ignored(g, x, rx) {
      assert x !in Missing(u, l, g, mapping.Values, rx);
    }
    forall x | x in l ensures x in u || x in mapping.Keys {
      assert x !in Names(l) - mapping.Keys - Names(u);
    }
  }

  // ---------------------------------------------------------------- the channel object

  /** The channel as the source updates it: fields overwritten in place, then written to its row. */
  class Channel {
    var models: string
    var ignored: seq<string>
    var detected: seq<string>
    var removed: seq<string>
    var lastCheck: int
    var autoSync: bool
    var stored: Row
    var routed: string
    const mapping: map<string, string>

    /** Loaded from its row, with the abilities table as it stands. */
    constructor (row: Row, routed: string, mapping: map<string, string>)
      ensures Contents() == stored == row && this.routed == routed && this.mapping == mapping
    {
      models, ignored, detected, removed := row.models, row.ignored, row.detected, row.removed;
      lastCheck, autoSync := row.lastCheck, row.autoSync;
      stored := row;
      this.routed := routed;
      this.mapping := mapping;
    }

    function Contents(): Row
      reads this
    {
      Row(models, ignored, detected, removed, lastCheck, autoSync)
    }

    /** One update of the row: the settings, and the models when they changed. */
    method Persist(updateModels: bool, saveFails: bool) returns (ok: bool)
      modifies `stored
      ensures ok == !saveFails
      ensures stored == if saveFails then old(stored)
                        else Contents().(models := if updateModels then models else old(stored.models))
    {
      if saveFails { return false; }
      stored := Contents().(models := if updateModels then models else stored.models);
      return true;
    }

    /** The channel's abilities are deleted and built anew in one transaction. */
    method UpdateAbilities(rebuildFails: bool) returns (ok: bool)
      modifies `routed
      ensures ok == !rebuildFails && routed == if ok then models else old(routed)
    {
      if rebuildFails { return false; }
      routed := models;
      return true;
    }

    /** One check; returns whether the models changed, how many were auto-added, and success. */
    method CheckAndPersist(rx: Regex, fetched: Option<seq<string>>, now: int, force: bool, minInterval: int,
                           autoApply: bool, saveFails: bool, rebuildFails: bool)
      returns (modelsChanged: bool, autoAdded: int, ok: bool)
      requires Contents() == stored
      modifies this
      ensures var e := Check(fetched, now, force, minInterval, autoApply);
              && Contents() == CheckRow(old(stored), mapping, rx, e)
              && stored == (if saveFails then old(stored) else Contents())
              && (modelsChanged <==> !saveFails && Changes(old(stored), mapping, rx, e))
              && (ok <==> Skips(old(stored), e) || (fetched.Some? && !saveFails && (modelsChanged ==> !rebuildFails)))
      ensures routed == if modelsChanged && !rebuildFails then models else old(routed)
      ensures !modelsChanged && ok ==> stored.models == old(stored.models) && autoAdded == 0
      ensures modelsChanged ==>
                && fetched.Some?
                && autoAdded == |PendingAdd(Local(old(models)), fetched.value, old(ignored), mapping.Values, rx)| > 0
    {
      modelsChanged, autoAdded := false, 0;
      if !force && lastCheck > 0 && now - lastCheck < minInterval {
        return false, 0, true;
      }
      if fetched.None? {
        lastCheck := now;
        var _ := Persist(false, saveFails);
        return false, 0, false;
      }
      modelsChanged, autoAdded := TakeFetched(rx, fetched.value, now, autoApply);
      ok := Persist(modelsChanged, saveFails);
      if !ok { return false, autoAdded, false; }
      if modelsChanged { ok := UpdateAbilities(rebuildFails); }
    }

    /** Staged additions are merged into the models at once. */
    method Absorb(add: seq<string>) returns (modelsChanged: bool, autoAdded: int)
      requires Merge(Normalize(Local(models)), add) == Normalize(Local(models)) + add
      modifies `models
      ensures models == AutoSynced(old(models), add)
      ensures (modelsChanged <==> |add| > 0) && autoAdded == |add|
    {
      modelsChanged, autoAdded := false, 0;
      var origin := Normalize(Local(models));
      var merged := MergeModelNames(origin, add);
      if |merged| > |origin| {
        models := Join(merged, ',');
        autoAdded := |merged| - |origin|;
        modelsChanged := true;
      }
    }

    /** What a successful fetch does to the fields. */
    method TakeFetched(rx: Regex, fetched: seq<string>, now: int, autoApply: bool)
      returns (modelsChanged: bool, autoAdded: int)
      modifies this
      ensures Contents() == CheckRow(old(Contents()), mapping, rx, Check(Some(fetched), now, true, 0, autoApply))
      ensures stored == old(stored) && routed == old(routed)
      ensures modelsChanged <==> Changes(old(Contents()), mapping, rx, Check(Some(fetched), now, true, 0, autoApply))
      ensures !modelsChanged ==> models == old(models) && autoAdded == 0
      ensures modelsChanged ==>
                autoAdded == |PendingAdd(Local(old(models)), fetched, old(ignored), mapping.Values, rx)| > 0
    {
      modelsChanged, autoAdded := false, 0;
      var add := PendingAdd(Local(models), fetched, ignored, mapping.Values, rx);
      var remove := PendingRemove(Local(models), fetched, mapping.Keys);
      AutoSyncAppends(Local(models), fetched, ignored, mapping, rx);
      lastCheck := now;
      if autoApply && autoSync && |add| > 0 {
        modelsChanged, autoAdded := Absorb(add);
        detected := [];
      } else {
        detected := add;
      }
      removed := remove;
    }

    /** Returns what was selected, nothing when the row could not be written, and whether the models changed. */
    method ApplyUpdates(addInput: seq<string>, ignoreInput: seq<string>, removeInput: seq<string>, now: int,
                        saveFails: bool, rebuildFails: bool)
      returns (sel: Selection, modelsChanged: bool, ok: bool)
      requires Contents() == stored
      modifies this
      ensures var e := Apply(addInput, ignoreInput, removeInput, now);
              && Contents() == ApplyRow(old(stored), e)
              && sel == (if saveFails then Selection([], [], []) else Select(old(stored), e))
              && stored == (if saveFails then old(stored) else Contents())
              && (modelsChanged <==> !saveFails && Rewrites(old(stored.models), Select(old(stored), e)))
      ensures ok <==> !saveFails && (modelsChanged ==> !rebuildFails)
      ensures routed == if modelsChanged && !rebuildFails then models else old(routed)
      ensures !modelsChanged ==> stored.models == old(stored.models)
    {
      ghost var row := Contents();
      var pendingAdd, pendingRemove := Normalize(detected), Normalize(removed);
      var adding := Intersect(addInput, pendingAdd);
      var ignoring := Intersect(ignoreInput, pendingAdd);
      var dropping := Intersect(removeInput, pendingRemove);
      dropping := Subtract(dropping, adding);
      sel := Selection(adding, ignoring, dropping);
      assert sel == Select(row, Apply(addInput, ignoreInput, removeInput, now));
      modelsChanged := Overwrite(sel, now);
      ok := Persist(modelsChanged, saveFails);
      if !ok { return Selection([], [], []), false, false; }
      if modelsChanged { ok := UpdateAbilities(rebuildFails); }
    }

    /** The in-place part: every field this touches is rewritten from the selection. */
    method Overwrite(sel: Selection, now: int) returns (modelsChanged: bool)
      modifies `models, `ignored, `detected, `removed, `lastCheck
      ensures Contents() == ApplySelection(old(Contents()), sel, now)
      ensures modelsChanged <==> Rewrites(old(models), sel)
    {
      ghost var row := Contents();
      modelsChanged := OverwriteModels(sel);
      OverwriteIgnored(sel);
      OverwritePending(sel);
      lastCheck := now;
      SelectionApplied(row, Contents(), sel, now);
    }

    method OverwritePending(sel: Selection)
      modifies `detected, `removed
      ensures detected == Subtract(Normalize(old(detected)), sel.add + sel.ignore)
      ensures removed == Subtract(Normalize(old(removed)), sel.remove)
    {
      var pendingAdd, pendingRemove := Normalize(detected), Normalize(removed);
      detected := Subtract(pendingAdd, sel.add + sel.ignore);
      removed := Subtract(pendingRemove, sel.remove);
    }

    method OverwriteModels(sel: Selection) returns (modelsChanged: bool)
      modifies `models
      ensures models == NextModelsString(old(models), sel)
      ensures modelsChanged <==> Rewrites(old(models), sel)
    {
      var origin := Normalize(Local(models));
      var next := ApplySelected(origin, sel.add, sel.remove);
      modelsChanged := origin != next;
      if modelsChanged {
        models := Join(next, ',');
      }
    }

    method OverwriteIgnored(sel: Selection)
      modifies `ignored
      ensures ignored == NextIgnored(old(ignored), sel)
    {
      ignored := MergeModelNames(ignored, sel.ignore);
      if |sel.add| > 0 {
        ignored := Subtract(ignored, sel.add);
      }
    }
  }

  /** One call on the channel loaded anew. */
  method Perform(row: Row, routed: string, mapping: map<string, string>, rx: Regex, a: Attempt)
    returns (next: Row, rerouted: string)
    ensures forall seen :: var s := Step(mapping, rx, State(row, seen, routed), a); next == s.row && rerouted == s.routed
  {
    var channel := new Channel(row, routed, mapping);
    match a.event {
      case Check(fetched, now, force, minInterval, autoApply) =>
        var _, _, _ := channel.CheckAndPersist(rx, fetched, now, force, minInterval, autoApply, !a.saved, !a.rebuilt);
      case Apply(add, ignore, remove, now) =>
        var _, _, _ := channel.ApplyUpdates(add, ignore, remove, now, !a.saved, !a.rebuilt);
    }
    next, rerouted := channel.stored, channel.routed;
  }

  /** Any run of calls leaves the row and the abilities of the modelled run. */
  method Replay(row: Row, routed: string, mapping: map<string, string>, rx: Regex, attempts: seq<Attempt>,
                ghost seen: Option<seq<string>>)
    returns (last: Row, rerouted: string)
    ensures var s := Run(mapping, rx, State(row, seen, routed), attempts); last == s.row && rerouted == s.routed
    decreases |attempts|
  {
    last, rerouted := row, routed;
    if attempts != [] {
      last, rerouted := Perform(row, routed, mapping, rx, attempts[0]);
      ghost var s := Step(mapping, rx, State(row, seen, routed), attempts[0]);
      assert s == State(last, s.seen, rerouted);
      last, rerouted := Replay(last, rerouted, mapping, rx, attempts[1..], s.seen);
    }
  }
}
