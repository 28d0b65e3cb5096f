/**
 What the stored formats of the reconciliation can carry. For a given regular-expression engine,
 applying a selection keeps the staged lists equal to a fresh detection exactly when no upstream name
 holds a comma and each, stored as an ignore entry, stands for itself among them.
 */
module UpstreamLimits {
  import opened Text
  import opened ModelNames
  import opened UpstreamSync

  /** Whatever is stored and whatever is applied, the staged lists stay what detection would compute. */
  ghost predicate StaysCurrent(upstream: seq<string>, rx: Regex) {
    forall row: Row, e: Event, mapping: map<string, string> ::
      e.Apply? && Current(row, upstream, mapping, rx) ==> Current(ApplyRow(row, e), upstream, mapping, rx)
  }

  const NO_MAPPING: map<string, string> := map[]

  // ---------------------------------------------------------------- lists with nothing or one name

  lemma NoNames()
    ensures Normalize([]) == [] && Local("") == []
  {
  }

  lemma NothingFrom(s: seq<string>)
    ensures Intersect([], s) == [] && Subtract([], s) == [] && Merge([], []) == []
  {
    NoNames();
  }

  lemma JustOne(x: string, u: seq<string>)
    requires Clean(u) && x in u
    ensures Normalize([x]) == [x] && Intersect([x], u) == [x] && Merge([], [x]) == [x]
  {
    assert Clean([x]);
    NormalizeClean([x]);
    NormalizeClean(u);
    NoNames();
    KeepAll([x], Names(u));
    KeepAll([x], Names([x]) - Names([]));
  }

  lemma WithoutOne(x: string, u: seq<string>)
    requires Clean(u) && x in u
    ensures Names(Subtract(u, [x])) == Names(u) - {x}
  {
    JustOne(x, u);
    NormalizeClean(u);
    SubtractClean(u, [x]);
    assert Names([x]) == {x};
  }

  // ---------------------------------------------------------------- one name added, one name ignored

  /** An empty channel with all of the upstream staged. */
  function AllStaged(upstream: seq<string>): Row { Row("", [], Normalize(upstream), [], 0, false) }

  lemma AllStagedIsCurrent(upstream: seq<string>, rx: Regex)
    ensures Current(AllStaged(upstream), upstream, NO_MAPPING, rx)
  {
    var u := Normalize(upstream);
    NoNames();
    PendingMeans([], upstream, [], NO_MAPPING, rx);
    assert Missing(u, [], [], NO_MAPPING.Values, rx) == Names(u);
    KeepAll(u, Names(u));
  }

  /** The staged list lacks a name that detection reports, or holds one that it does not. */
  lemma Disagrees(row: Row, upstream: seq<string>, rx: Regex, x: string)
    requires x in Normalize(upstream) && x !in Normalize(Local(row.models))
    requires x in row.detected <==> Ignored(Normalize(row.ignored), x, rx)
    ensures !Current(row, upstream, NO_MAPPING, rx)
  {
    PendingMeans(Local(row.models), upstream, row.ignored, NO_MAPPING, rx);
    var add := PendingAdd(Local(row.models), upstream, row.ignored, NO_MAPPING.Values, rx);
    assert x in add <==> x in Names(add);
  }

  lemma SelectsOne(upstream: seq<string>, x: string)
    requires x in Normalize(upstream)
    ensures Select(AllStaged(upstream), Apply([x], [], [], 0)) == Selection([x], [], [])
  {
    var u := Normalize(upstream);
    NormalizeClean(upstream);
    NormalizeClean(u);
    JustOne(x, u);
    NothingFrom(u);
    NothingFrom([]);
    NothingFrom([x]);
    NoNames();
  }

  /** Adding one staged name. */
  lemma AddsOne(upstream: seq<string>, x: string)
    requires x in Normalize(upstream)
    ensures var next := ApplyRow(AllStaged(upstream), Apply([x], [], [], 0));
            Names(next.detected) == Names(Normalize(upstream)) - {x} && next.ignored == []
  {
    var u := Normalize(upstream);
    NormalizeClean(upstream);
    NormalizeClean(u);
    SelectsOne(upstream, x);
    NothingFrom([x]);
    WithoutOne(x, u);
    assert [x] + [] == [x];
  }

  /** Ignoring one staged name. */
  lemma IgnoresOne(upstream: seq<string>, x: string)
    requires x in Normalize(upstream)
    ensures var next := ApplyRow(AllStaged(upstream), Apply([], [x], [], 0));
            && Names(next.detected) == Names(Normalize(upstream)) - {x}
            && Normalize(next.ignored) == [x] && Normalize(Local(next.models)) == []
  {
    var row, u := AllStaged(upstream), Normalize(upstream);
    NormalizeClean(upstream);
    NormalizeClean(u);
    JustOne(x, u);
    NothingFrom(u);
    NothingFrom([]);
    NoNames();
    assert Select(row, Apply([], [x], [], 0)) == Selection([], [x], []);
    WithoutOne(x, u);
    assert [] + [x] == [x];
  }

  /** With any engine: a name with a comma is added, but never read back, so detection reports it again. */
  lemma CommaIsLost(upstream: seq<string>, rx: Regex, x: string)
    requires x in Normalize(upstream) && ',' in x
    ensures !Current(ApplyRow(AllStaged(upstream), Apply([x], [], [], 0)), upstream, NO_MAPPING, rx)
  {
    var next := ApplyRow(AllStaged(upstream), Apply([x], [], [], 0));
    AddsOne(upstream, x);
    LocalHasNoComma(next.models);
    NoNames();
    assert x !in Names(next.detected);
    Disagrees(next, upstream, rx, x);
  }

  lemma OneEntry(x: string, y: string, rx: Regex)
    ensures Ignored([x], y, rx) <==> IgnoredBy(x, y, rx)
  {
    if IgnoredBy(x, y, rx) { assert x in [x]; }
  }

  lemma EntryMisses(next: Row, upstream: seq<string>, rx: Regex, x: string, y: string)
    requires x in Normalize(upstream) && y in Normalize(upstream) && !(IgnoredBy(x, y, rx) <==> y == x)
    requires Names(next.detected) == Names(Normalize(upstream)) - {x}
    requires Normalize(next.ignored) == [x] && Normalize(Local(next.models)) == []
    ensures !Current(next, upstream, NO_MAPPING, rx)
  {
    OneEntry(x, y, rx);
    assert y in next.detected <==> y in Names(next.detected);
    Disagrees(next, upstream, rx, y);
  }

  /**
   A name that, ignored, does not stand for itself: its pattern misses it, and detection reports it
   again, or matches another name, which detection no longer reports though it is still staged.
   */
  lemma PatternIsNotAName(upstream: seq<string>, rx: Regex, x: string, y: string)
    requires x in Normalize(upstream) && y in Normalize(upstream) && !(IgnoredBy(x, y, rx) <==> y == x)
    ensures !Current(ApplyRow(AllStaged(upstream), Apply([], [x], [], 0)), upstream, NO_MAPPING, rx)
  {
    IgnoresOne(upstream, x);
    EntryMisses(ApplyRow(AllStaged(upstream), Apply([], [x], [], 0)), upstream, rx, x, y);
  }

  lemma SaneStaysCurrent(upstream: seq<string>, rx: Regex)
    requires Sane(upstream, rx)
    ensures StaysCurrent(upstream, rx)
  {
    forall row: Row, e: Event, mapping: map<string, string>
      | e.Apply? && Current(row, upstream, mapping, rx)
      ensures Current(ApplyRow(row, e), upstream, mapping, rx)
    {
      ApplyKeepsCurrent(row, e, upstream, mapping, rx);
    }
  }

  /** From an empty channel with everything staged, one application of a name that is not sane goes stale. */
  lemma GoesStale(upstream: seq<string>, rx: Regex, x: string) returns (e: Event)
    requires x in Normalize(upstream) && (',' in x || !StandsForItself(x, upstream, rx))
    ensures e.Apply? && !Current(ApplyRow(AllStaged(upstream), e), upstream, NO_MAPPING, rx)
  {
    if ',' in x {
      CommaIsLost(upstream, rx, x);
      e := Apply([x], [], [], 0);
    } else {
      var y :| y in Normalize(upstream) && !(IgnoredBy(x, y, rx) <==> y == x);
      PatternIsNotAName(upstream, rx, x, y);
      e := Apply([], [x], [], 0);
    }
  }

  /** For each engine, applying keeps the staged lists current exactly for the names the formats can carry. */
  lemma StaysCurrentIff(upstream: seq<string>, rx: Regex)
    ensures StaysCurrent(upstream, rx) <==> Sane(upstream, rx)
  {
    if Sane(upstream, rx) {
      SaneStaysCurrent(upstream, rx);
    } else {
      var x :| x in Normalize(upstream) && (',' in x || !StandsForItself(x, upstream, rx));
      AllStagedIsCurrent(upstream, rx);
      var e := GoesStale(upstream, rx, x);
    }
  }

  /** Plain names stand for themselves with every engine: only commas matter. */
  lemma PlainNamesAreSane(upstream: seq<string>, rx: Regex)
    requires forall x :: x in Normalize(upstream) ==> !IsPattern(x)
    ensures Sane(upstream, rx) <==> forall x :: x in Normalize(upstream) ==> ',' !in x
  {
    forall x | x in Normalize(upstream) ensures StandsForItself(x, upstream, rx) {}
  }

  lemma Listed(names: seq<string>, rx: Regex)
    requires Clean(names)
    ensures Sane(names, rx) <==>
            forall x :: x in names ==> ',' !in x && forall y :: y in names ==> (IgnoredBy(x, y, rx) <==> y == x)
  {
    NormalizeClean(names);
    assert forall x :: x in names ==>
      (StandsForItself(x, names, rx) <==> forall y :: y in names ==> (IgnoredBy(x, y, rx) <==> y == x));
  }

  /** A single name with the marker is carried exactly when its pattern matches it. */
  lemma LonePattern(x: string, rx: Regex)
    requires Proper(x) && ',' !in x
    ensures StaysCurrent([x], rx) <==> IgnoredBy(x, x, rx)
  {
    Listed([x], rx);
    StaysCurrentIff([x], rx);
    assert x in [x];
  }

  /** A pattern that matches another upstream name is not carried, even when it matches itself. */
  lemma PatternHidesAnother(x: string, y: string, rx: Regex)
    requires Proper(x) && Proper(y) && x != y && IgnoredBy(x, y, rx)
    ensures !StaysCurrent([x, y], rx)
  {
    Listed([x, y], rx);
    StaysCurrentIff([x, y], rx);
    assert x in [x, y] && y in [x, y];
  }
}
