/**
 Comparing local prices with those of several upstream channels: a build phase that records every
 disagreement, then a prune phase that drops channels without any. Both phases walk nested maps in
 whatever order the runtime picks; the result is shown to be one fixed thing regardless.

 Numbers are reals. Values are what JSON decoding yields for a price: a number, a text or a flag.
 */
module PriceDiff {

  datatype Option<+T> = None | Some(value: T)

  datatype Value = Num(n: real) | Text(s: string) | Flag(b: bool)

  /** The synchronized pricing fields. */
  datatype Field =
    | ModelRatio | CompletionRatio | CacheRatio | CreateCacheRatio | ImageRatio
    | AudioRatio | AudioCompletionRatio | ModelPrice | BillingMode | BillingExpr

  const FIELDS := [ModelRatio, CompletionRatio, CacheRatio, CreateCacheRatio, ImageRatio,
                   AudioRatio, AudioCompletionRatio, ModelPrice, BillingMode, BillingExpr]

  /** field -> model -> value */
  type Data = map<Field, map<string, Value>>

  datatype Channel = Channel(name: string, data: Data)

  datatype Item = Item(current: Option<Value>, upstreams: map<string, Option<Value>>, confidence: map<string, bool>)

  /** model -> field -> item */
  type Diff = map<string, map<Field, Item>>

  const EPSILON := 0.000000001
  const SAME := Text("same")

  predicate NearlyEqual(a: real, b: real) { if a > b then a - b < EPSILON else b - a < EPSILON }

  predicate ValuesEqual(a: Value, b: Value) {
    if a.Num? && b.Num? then NearlyEqual(a.n, b.n) else a == b
  }

  function Get(data: Data, f: Field, m: string): Option<Value> {
    if f in data && m in data[f] then Some(data[f][m]) else None
  }

  // ---------------------------------------------------------------- the direct specification

  /** The channel has a price there and it is not the local one. */
  predicate Differs(local: Data, c: Channel, m: string, f: Field) {
    var mine, theirs := Get(local, f, m), Get(c.data, f, m);
    theirs.Some? && (mine.None? || !ValuesEqual(mine.value, theirs.value))
  }

  /** Two numbers differ when they are an epsilon or more apart, two texts or flags when unequal, other kinds always. */
  lemma DiffersIff(local: Data, c: Channel, m: string, f: Field)
    requires Get(local, f, m).Some? && Get(c.data, f, m).Some?
    ensures var mine, theirs := Get(local, f, m).value, Get(c.data, f, m).value;
            Differs(local, c, m, f) <==>
              match (mine, theirs)
              case (Num(a), Num(b)) => a - b >= EPSILON || b - a >= EPSILON
              case (Text(a), Text(b)) => a != b
              case (Flag(a), Flag(b)) => a != b
              case _ => true
  {
  }

  /** A price that only the channel has always differs; one that it lacks never does. */
  lemma OneSided(local: Data, c: Channel, m: string, f: Field)
    ensures Get(local, f, m).None? ==> (Differs(local, c, m, f) <==> f in c.data && m in c.data[f])
    ensures !(f in c.data && m in c.data[f]) ==> !Differs(local, c, m, f)
  {
  }

  ghost predicate SomeDiffers(local: Data, cs: seq<Channel>, m: string, f: Field) {
    exists i :: 0 <= i < |cs| && Differs(local, cs[i], m, f)
  }

  /** The channel differs from the local prices somewhere. */
  ghost predicate Offends(local: Data, c: Channel) {
    exists m, f :: Differs(local, c, m, f)
  }

  /** What an item shows for a channel: its differing value, the sentinel, or nothing. */
  function Shown(local: Data, c: Channel, m: string, f: Field): Option<Value> {
    if Differs(local, c, m, f) then Get(c.data, f, m)
    else if Get(c.data, f, m).None? && Get(local, f, m).Some? then None
    else Some(SAME)
  }

  predicate Near(v: Option<Value>, x: real) { v.Some? && v.value.Num? && NearlyEqual(v.value.n, x) }

  /** Prices are doubted exactly when they look like a pricing endpoint's defaults. */
  predicate Trusted(c: Channel, m: string) {
    !(Near(Get(c.data, ModelRatio, m), 37.5) && Near(Get(c.data, CompletionRatio, m), 1.0))
  }

  /** A price is doubted exactly when the channel gives both ratios as numbers, 37.5 and 1 up to less than 1e-9. */
  lemma DoubtedIff(c: Channel, m: string)
    ensures !Trusted(c, m) <==>
            exists ratio, completion ::
              && Get(c.data, ModelRatio, m) == Some(Num(ratio)) && Get(c.data, CompletionRatio, m) == Some(Num(completion))
              && -0.000000001 < ratio - 37.5 < 0.000000001 && -0.000000001 < completion - 1.0 < 0.000000001
  {
    var r, q := Get(c.data, ModelRatio, m), Get(c.data, CompletionRatio, m);
    if r.Some? && r.value.Num? && q.Some? && q.value.Num? {
      assert r == Some(Num(r.value.n)) && q == Some(Num(q.value.n));
    }
  }

  /** A map filled from left to right. */
  function Table<T>(names: seq<string>, values: seq<T>): map<string, T>
    requires |names| == |values|
  {
    if names == [] then map[]
    else Table(names[..|names| - 1], values[..|values| - 1])[names[|names| - 1] := values[|values| - 1]]
  }

  function Names(cs: seq<Channel>): seq<string> { seq(|cs|, i requires 0 <= i < |cs| => cs[i].name) }

  function ShownAll(local: Data, cs: seq<Channel>, m: string, f: Field): seq<Option<Value>> {
    seq(|cs|, i requires 0 <= i < |cs| => Shown(local, cs[i], m, f))
  }

  function TrustedAll(cs: seq<Channel>, m: string): seq<bool> {
    seq(|cs|, i requires 0 <= i < |cs| => Trusted(cs[i], m))
  }

  /** What every channel says about one price. */
  function FullItem(local: Data, cs: seq<Channel>, m: string, f: Field): Item {
    Item(Get(local, f, m), Table(Names(cs), ShownAll(local, cs, m, f)), Table(Names(cs), TrustedAll(cs, m)))
  }

  /** An item without the channels that are not listed. */
  function Restrict(item: Item, listed: set<string>): Item {
    var unlisted := item.upstreams.Keys - listed;
    Item(item.current, item.upstreams - unlisted, item.confidence - unlisted)
  }

  ghost function Offenders(local: Data, cs: seq<Channel>): set<string> {
    set i | 0 <= i < |cs| && Offends(local, cs[i]) :: cs[i].name
  }

  predicate Present(d: Diff, m: string, f: Field) { m in d && f in d[m] }

  /** (model, field) is present iff some channel differs there; every item lists exactly the offenders. */
  ghost predicate IsDiff(d: Diff, local: Data, cs: seq<Channel>) {
    && (forall m :: m in d ==> exists f :: Present(d, m, f))
    && (forall m, f :: Present(d, m, f) <==> SomeDiffers(local, cs, m, f))
    && (forall m, f :: Present(d, m, f) ==> d[m][f] == Restrict(FullItem(local, cs, m, f), Offenders(local, cs)))
  }

  ghost predicate Distinct(names: seq<string>) { forall i, j :: 0 <= i < j < |names| ==> names[i] != names[j] }

  /** No later name below `n` repeats the one at `i`. */
  ghost predicate LastBelow(names: seq<string>, i: nat, n: nat)
    requires i < |names| && n <= |names|
  {
    forall k :: i < k < n ==> names[k] != names[i]
  }

  /** Channels may share a name; the tables hold what the last one of each name says. */
  ghost predicate Speaks(cs: seq<Channel>, i: nat)
    requires i < |cs|
  {
    LastBelow(Names(cs), i, |cs|)
  }

  /** No upstream price is literally the sentinel text. */
  ghost predicate NoSentinel(cs: seq<Channel>) {
    forall i, f, m :: 0 <= i < |cs| ==> Get(cs[i].data, f, m) != Some(SAME)
  }

  ghost predicate SameRow(a: Diff, b: Diff, m: string) {
    (m in a <==> m in b) && (m in a ==> a[m] == b[m])
  }

  lemma RowsAgree(a: Diff, b: Diff, m: string)
    requires m in a ==> exists f :: Present(a, m, f)
    requires m in b ==> exists f :: Present(b, m, f)
    requires forall f :: Present(a, m, f) <==> Present(b, m, f)
    requires forall f :: Present(a, m, f) && Present(b, m, f) ==> a[m][f] == b[m][f]
    ensures SameRow(a, b, m)
  {
    if m in a && m in b {
      forall f ensures f in a[m] <==> f in b[m] {
        assert Present(a, m, f) <==> Present(b, m, f);
      }
    }
  }

  /** Two results with the same entries are the same map of maps. */
  lemma SameDiff(a: Diff, b: Diff)
    requires forall m :: m in a ==> exists f :: Present(a, m, f)
    requires forall m :: m in b ==> exists f :: Present(b, m, f)
    requires forall m, f :: Present(a, m, f) <==> Present(b, m, f)
    requires forall m, f :: Present(a, m, f) && Present(b, m, f) ==> a[m][f] == b[m][f]
    ensures a == b
  {
    forall m ensures SameRow(a, b, m) { RowsAgree(a, b, m); }
    assert forall m :: m in a ==> SameRow(a, b, m);
    assert forall m :: m in b ==> SameRow(a, b, m);
  }

  /** The specification determines the result. */
  lemma DiffUnique(a: Diff, b: Diff, local: Data, cs: seq<Channel>)
    requires IsDiff(a, local, cs) && IsDiff(b, local, cs)
    ensures a == b
  {
    forall m, f ensures Present(a, m, f) <==> Present(b, m, f) {
      assert Present(a, m, f) <==> SomeDiffers(local, cs, m, f);
    }
    forall m, f | Present(a, m, f) && Present(b, m, f) ensures a[m][f] == b[m][f] {
    }
    SameDiff(a, b);
  }

  lemma {:induction false} TableKeys<T>(names: seq<string>, values: seq<T>)
    requires |names| == |values|
    ensures Table(names, values).Keys == set x | x in names
  {
    if names != [] {
      var n := |names| - 1;
      TableKeys(names[..n], values[..n]);
      assert names == names[..n] + [names[n]];
    }
  }

  lemma {:induction false} TableAt<T>(names: seq<string>, values: seq<T>, i: nat)
    requires i < |names| == |values| && LastBelow(names, i, |names|)
    ensures names[i] in Table(names, values) && Table(names, values)[names[i]] == values[i]
    decreases |names|
  {
    var n := |names| - 1;
    if i < n {
      assert names[n] != names[i];
      assert LastBelow(names[..n], i, n);
      TableAt(names[..n], values[..n], i);
    }
  }

  /** Every name that occurs among the first `n` has a last place there. */
  lemma {:induction false} LastPlace(names: seq<string>, i: nat, n: nat) returns (k: nat)
    requires i < n <= |names|
    ensures i <= k < n && names[k] == names[i] && LastBelow(names, k, n)
    decreases n
  {
    if names[n - 1] == names[i] {
      k := n - 1;
    } else {
      k := LastPlace(names, i, n - 1);
    }
  }

  lemma Speaker(cs: seq<Channel>, i: nat) returns (k: nat)
    requires i < |cs|
    ensures i <= k < |cs| && cs[k].name == cs[i].name && Speaks(cs, k)
  {
    k := LastPlace(Names(cs), i, |cs|);
    assert Names(cs)[k] == Names(cs)[i];
  }

  lemma OneSpeaker(cs: seq<Channel>, i: nat, j: nat)
    requires i < |cs| && j < |cs| && Speaks(cs, i) && Speaks(cs, j) && cs[i].name == cs[j].name
    ensures i == j
  {
    assert Names(cs)[i] == Names(cs)[j];
  }

  lemma DistinctSpeak(cs: seq<Channel>, i: nat)
    requires Distinct(Names(cs)) && i < |cs|
    ensures Speaks(cs, i)
  {
  }

  /** Under distinct names a name is an offender's exactly when its one channel offends. */
  lemma OffendersByName(local: Data, cs: seq<Channel>, i: nat)
    requires Distinct(Names(cs)) && i < |cs|
    ensures cs[i].name in Offenders(local, cs) <==> Offends(local, cs[i])
  {
    forall j | 0 <= j < |cs| && cs[j].name == cs[i].name ensures j == i {
      assert Names(cs)[j] == Names(cs)[i];
    }
  }

  lemma FullItemLists(local: Data, cs: seq<Channel>, m: string, f: Field, i: nat)
    requires i < |cs|
    ensures var item := FullItem(local, cs, m, f); cs[i].name in item.upstreams && cs[i].name in item.confidence
    ensures Speaks(cs, i) ==> FullItem(local, cs, m, f).upstreams[cs[i].name] == Shown(local, cs[i], m, f)
    ensures Speaks(cs, i) ==> FullItem(local, cs, m, f).confidence[cs[i].name] == Trusted(cs[i], m)
  {
    var shown, trusted := ShownAll(local, cs, m, f), TrustedAll(cs, m);
    TableKeys(Names(cs), shown);
    TableKeys(Names(cs), trusted);
    assert Names(cs)[i] == cs[i].name && shown[i] == Shown(local, cs[i], m, f) && trusted[i] == Trusted(cs[i], m);
    assert cs[i].name in Names(cs);
    if Speaks(cs, i) {
      TableAt(Names(cs), shown, i);
      TableAt(Names(cs), trusted, i);
    }
  }

  /** Every item of a result lists exactly the offenders, each with the showing and trust of its name's last channel. */
  lemma ItemLists(d: Diff, local: Data, cs: seq<Channel>, m: string, f: Field, i: nat)
    requires IsDiff(d, local, cs) && Present(d, m, f) && i < |cs|
    ensures var item, name := d[m][f], cs[i].name;
            && item.current == Get(local, f, m)
            && (name in item.upstreams <==> name in Offenders(local, cs))
            && (name in item.confidence <==> name in Offenders(local, cs))
            && (Speaks(cs, i) && name in item.upstreams ==> item.upstreams[name] == Shown(local, cs[i], m, f))
            && (Speaks(cs, i) && name in item.confidence ==> item.confidence[name] == Trusted(cs[i], m))
    ensures Distinct(Names(cs)) ==> Speaks(cs, i) && (cs[i].name in Offenders(local, cs) <==> Offends(local, cs[i]))
  {
    assert d[m][f] == Restrict(FullItem(local, cs, m, f), Offenders(local, cs));
    FullItemLists(local, cs, m, f, i);
    if Distinct(Names(cs)) {
      DistinctSpeak(cs, i);
      OffendersByName(local, cs, i);
    }
  }

  // ---------------------------------------------------------------- when a price is the marker text

  /** The channel differs there, and not by a text that reads like the marker. */
  predicate Visible(local: Data, c: Channel, m: string, f: Field) {
    Differs(local, c, m, f) && Get(c.data, f, m) != Some(SAME)
  }

  /** The channel differs visibly somewhere. */
  ghost predicate Noticed(local: Data, c: Channel) {
    exists m, f :: Visible(local, c, m, f)
  }

  ghost function NoticedNames(local: Data, cs: seq<Channel>): set<string> {
    set i | 0 <= i < |cs| && Speaks(cs, i) && Noticed(local, cs[i]) :: cs[i].name
  }

  /** Some noticed channel shows something other than the marker there. */
  ghost predicate Telling(local: Data, cs: seq<Channel>, m: string, f: Field) {
    exists i :: 0 <= i < |cs| && Speaks(cs, i) && Noticed(local, cs[i]) && Shown(local, cs[i], m, f) != Some(SAME)
  }

  /** What is reported for any prices at all: what differs and still tells something, for the noticed channels. */
  ghost predicate IsReport(d: Diff, local: Data, cs: seq<Channel>) {
    && (forall m :: m in d ==> exists f :: Present(d, m, f))
    && (forall m, f :: Present(d, m, f) <==> SomeDiffers(local, cs, m, f) && Telling(local, cs, m, f))
    && (forall m, f :: Present(d, m, f) ==> d[m][f] == Restrict(FullItem(local, cs, m, f), NoticedNames(local, cs)))
  }

  /** The report is determined by the prices: no iteration order shows in it. */
  lemma ReportUnique(a: Diff, b: Diff, local: Data, cs: seq<Channel>)
    requires IsReport(a, local, cs) && IsReport(b, local, cs)
    ensures a == b
  {
    forall m, f ensures Present(a, m, f) <==> Present(b, m, f) {
      assert Present(a, m, f) <==> SomeDiffers(local, cs, m, f) && Telling(local, cs, m, f);
    }
    forall m, f | Present(a, m, f) && Present(b, m, f) ensures a[m][f] == b[m][f] {
    }
    SameDiff(a, b);
  }

  /** The channel differs there, but by the marker text or behind a later channel of its name. */
  ghost predicate Hidden(local: Data, cs: seq<Channel>, i: nat, m: string, f: Field)
    requires i < |cs|
  {
    Differs(local, cs[i], m, f) && (Get(cs[i].data, f, m) == Some(SAME) || !Speaks(cs, i))
  }

  ghost predicate SomeVisible(local: Data, cs: seq<Channel>, m: string, f: Field) {
    exists i :: 0 <= i < |cs| && Speaks(cs, i) && Visible(local, cs[i], m, f)
  }

  /** There is a local price, and some channel noticed elsewhere has none. */
  ghost predicate SomeMissing(local: Data, cs: seq<Channel>, m: string, f: Field) {
    Get(local, f, m).Some? &&
    exists i :: 0 <= i < |cs| && Speaks(cs, i) && Noticed(local, cs[i]) && Get(cs[i].data, f, m).None?
  }

  /** Wherever a price is hidden, its channel's name is noticed, and another channel shows something at that price. */
  ghost predicate Harmless(local: Data, cs: seq<Channel>) {
    forall i, m, f :: 0 <= i < |cs| && Hidden(local, cs, i, m, f) ==>
      cs[i].name in NoticedNames(local, cs) && (SomeVisible(local, cs, m, f) || SomeMissing(local, cs, m, f))
  }

  lemma VisibleTells(local: Data, cs: seq<Channel>, m: string, f: Field, i: nat)
    requires i < |cs| && Speaks(cs, i) && Visible(local, cs[i], m, f)
    ensures Noticed(local, cs[i]) && Telling(local, cs, m, f)
  {
    assert Shown(local, cs[i], m, f) != Some(SAME);
  }

  lemma MissingTells(local: Data, cs: seq<Channel>, m: string, f: Field)
    requires SomeMissing(local, cs, m, f)
    ensures Telling(local, cs, m, f)
  {
    var i :| 0 <= i < |cs| && Speaks(cs, i) && Noticed(local, cs[i]) && Get(cs[i].data, f, m).None?;
    assert Shown(local, cs[i], m, f) != Some(SAME);
  }

  lemma ToldBy(local: Data, c: Channel, m: string, f: Field)
    requires Shown(local, c, m, f) != Some(SAME)
    ensures Visible(local, c, m, f) || (Get(local, f, m).Some? && Get(c.data, f, m).None?)
  {
  }

  /** A price is told exactly when a channel shows a visible one or lacks it. */
  lemma TellingMeans(local: Data, cs: seq<Channel>, m: string, f: Field)
    ensures Telling(local, cs, m, f) <==> SomeVisible(local, cs, m, f) || SomeMissing(local, cs, m, f)
  {
    if i :| 0 <= i < |cs| && Speaks(cs, i) && Visible(local, cs[i], m, f) {
      VisibleTells(local, cs, m, f, i);
    } else if SomeMissing(local, cs, m, f) {
      MissingTells(local, cs, m, f);
    } else if i :| 0 <= i < |cs| && Speaks(cs, i) && Noticed(local, cs[i]) && Shown(local, cs[i], m, f) != Some(SAME) {
      ToldBy(local, cs[i], m, f);
    }
  }

  lemma NoticedByName(local: Data, cs: seq<Channel>, i: nat)
    requires i < |cs| && Speaks(cs, i)
    ensures cs[i].name in NoticedNames(local, cs) <==> Noticed(local, cs[i])
  {
    if cs[i].name in NoticedNames(local, cs) {
      var j :| 0 <= j < |cs| && Speaks(cs, j) && Noticed(local, cs[j]) && cs[j].name == cs[i].name;
      OneSpeaker(cs, i, j);
    }
  }

  /** Without harm, a differing price has its channel's name noticed and is told. */
  lemma HarmlessTells(local: Data, cs: seq<Channel>, i: nat, m: string, f: Field)
    requires Harmless(local, cs) && i < |cs| && Differs(local, cs[i], m, f)
    ensures cs[i].name in NoticedNames(local, cs) && Telling(local, cs, m, f)
  {
    if Hidden(local, cs, i, m, f) {
      TellingMeans(local, cs, m, f);
    } else {
      VisibleTells(local, cs, m, f, i);
    }
  }

  lemma HarmlessNames(local: Data, cs: seq<Channel>)
    requires Harmless(local, cs)
    ensures NoticedNames(local, cs) == Offenders(local, cs)
  {
    forall i | 0 <= i < |cs| && Offends(local, cs[i]) ensures cs[i].name in NoticedNames(local, cs) {
      var m, f :| Differs(local, cs[i], m, f);
      HarmlessTells(local, cs, i, m, f);
    }
    forall i | 0 <= i < |cs| && Noticed(local, cs[i]) ensures Offends(local, cs[i]) {
      var m, f :| Visible(local, cs[i], m, f);
      assert Differs(local, cs[i], m, f);
    }
  }

  lemma HarmlessPresence(local: Data, cs: seq<Channel>, m: string, f: Field)
    requires Harmless(local, cs) && SomeDiffers(local, cs, m, f)
    ensures Telling(local, cs, m, f)
  {
    var i :| 0 <= i < |cs| && Differs(local, cs[i], m, f);
    HarmlessTells(local, cs, i, m, f);
  }

  /** A hidden price whose name is not noticed is missing from an item that should list it. */
  lemma UnnoticedIsMissing(d: Diff, local: Data, cs: seq<Channel>, i: nat, m: string, f: Field)
    requires IsReport(d, local, cs) && i < |cs| && Differs(local, cs[i], m, f)
    requires cs[i].name !in NoticedNames(local, cs)
    ensures !IsDiff(d, local, cs)
  {
    var item, name := FullItem(local, cs, m, f), cs[i].name;
    FullItemLists(local, cs, m, f, i);
    assert Offends(local, cs[i]);
    assert name in Restrict(item, Offenders(local, cs)).upstreams;
    assert name !in Restrict(item, NoticedNames(local, cs)).upstreams;
    assert SomeDiffers(local, cs, m, f);
    assert Present(d, m, f) ==> d[m][f] == Restrict(item, NoticedNames(local, cs));
  }

  /** The report is the direct specification exactly when the hidden prices do no harm. */
  lemma ReportIsDiffIff(d: Diff, local: Data, cs: seq<Channel>)
    requires IsReport(d, local, cs)
    ensures IsDiff(d, local, cs) <==> Harmless(local, cs)
  {
    if Harmless(local, cs) {
      HarmlessNames(local, cs);
      forall m, f | SomeDiffers(local, cs, m, f) ensures Telling(local, cs, m, f) { HarmlessPresence(local, cs, m, f); }
    } else {
      var i, m, f :| 0 <= i < |cs| && Hidden(local, cs, i, m, f) &&
        !(cs[i].name in NoticedNames(local, cs) && (SomeVisible(local, cs, m, f) || SomeMissing(local, cs, m, f)));
      assert SomeDiffers(local, cs, m, f);
      if cs[i].name !in NoticedNames(local, cs) {
        UnnoticedIsMissing(d, local, cs, i, m, f);
      } else {
        TellingMeans(local, cs, m, f);
        assert !Present(d, m, f);
      }
    }
  }

  /** Prices that never spell the marker, under names that never repeat, hide nothing. */
  lemma NoSentinelIsHarmless(local: Data, cs: seq<Channel>)
    requires NoSentinel(cs) && Distinct(Names(cs))
    ensures Harmless(local, cs)
  {
    forall i, m, f | 0 <= i < |cs| ensures !Hidden(local, cs, i, m, f) {
      DistinctSpeak(cs, i);
      assert Get(cs[i].data, f, m) != Some(SAME);
    }
  }

  /** A lone channel whose only price is the marker text differs, and is not reported at all. */
  lemma MarkerTextHides(name: string, m: string, f: Field)
    ensures var cs := [Channel(name, map[f := map[m := SAME]])];
            SomeDiffers(map[], cs, m, f) && !Harmless(map[], cs)
  {
    var c := Channel(name, map[f := map[m := SAME]]);
    var cs := [c];
    assert Differs(map[], cs[0], m, f);
    assert Hidden(map[], cs, 0, m, f);
    assert forall k, g :: !Visible(map[], c, k, g);
  }

  /** A channel that differs is not reported at all when a later one of the same name has no prices. */
  lemma LaterNameHides(name: string, m: string, f: Field, v: Value)
    ensures var cs := [Channel(name, map[f := map[m := v]]), Channel(name, map[])];
            SomeDiffers(map[], cs, m, f) && !Harmless(map[], cs)
  {
    var cs := [Channel(name, map[f := map[m := v]]), Channel(name, map[])];
    assert Differs(map[], cs[0], m, f);
    assert Names(cs)[1] == Names(cs)[0];
    assert Hidden(map[], cs, 0, m, f);
    assert forall k, g :: !Visible(map[], cs[1], k, g);
  }
}
