/**
 `buildDifferences` as it runs: collect the models, judge each channel's trust, build, find the
 channels that really differ, prune. Every walk over a map or set takes its elements in an
 arbitrary order, so the contracts hold for every order the runtime may pick.
 */
module PriceDiffBuild {
  import opened PriceDiff

  function KeysOf(data: Data, f: Field): set<string> { if f in data then data[f].Keys else {} }

  lemma EveryField(f: Field)
    ensures exists k :: 0 <= k < |FIELDS| && FIELDS[k] == f
  {
    var k := match f
      case ModelRatio => 0 case CompletionRatio => 1 case CacheRatio => 2 case CreateCacheRatio => 3
      case ImageRatio => 4 case AudioRatio => 5 case AudioCompletionRatio => 6 case ModelPrice => 7
      case BillingMode => 8 case BillingExpr => 9;
    assert FIELDS[k] == f;
  }

  // ---------------------------------------------------------------- collecting the models

  method ModelsOf(data: Data) returns (models: set<string>)
    ensures forall f :: KeysOf(data, f) <= models
  {
    models := {};
    var k := 0;
    while k < |FIELDS|
      invariant 0 <= k <= |FIELDS|
      invariant forall j :: 0 <= j < k ==> KeysOf(data, FIELDS[j]) <= models
    {
      models := models + KeysOf(data, FIELDS[k]);
      k := k + 1;
    }
    forall f ensures KeysOf(data, f) <= models { EveryField(f); }
  }

  method AllModels(local: Data, cs: seq<Channel>) returns (models: set<string>)
    ensures forall i, f :: 0 <= i < |cs| ==> KeysOf(cs[i].data, f) <= models
  {
    models := ModelsOf(local);
    var i := 0;
    while i < |cs|
      invariant 0 <= i <= |cs|
      invariant forall j, f :: 0 <= j < i ==> KeysOf(cs[j].data, f) <= models
    {
      var more := ModelsOf(cs[i].data);
      models := models + more;
      i := i + 1;
    }
  }

  // ---------------------------------------------------------------- trust

  /** One channel's pass over all models, as coded: trusted unless both ratios look like defaults. */
  method JudgeTrust(c: Channel, models: set<string>) returns (trust: map<string, bool>)
    ensures trust.Keys == models && forall m :: m in models ==> trust[m] == Trusted(c, m)
  {
    trust := map[];
    var pricing := KeysOf(c.data, ModelRatio) != {} && KeysOf(c.data, CompletionRatio) != {};
    var todo := models;
    while todo != {}
      invariant todo <= models && trust.Keys == models - todo
      invariant forall m :: m in trust ==> trust[m] == Trusted(c, m)
    {
      var m :| m in todo;
      todo := todo - {m};
      trust := trust[m := true];
      if pricing {
        var ratio, completion := Get(c.data, ModelRatio, m), Get(c.data, CompletionRatio, m);
        if ratio.Some? && completion.Some? && ratio.value.Num? && completion.value.Num? {
          if NearlyEqual(ratio.value.n, 37.5) && NearlyEqual(completion.value.n, 1.0) {
            trust := trust[m := false];
          }
        }
      }
    }
  }

  ghost predicate TrustsWell(trust: map<string, map<string, bool>>, c: Channel, models: set<string>) {
    c.name in trust && forall m :: m in models ==> m in trust[c.name] && trust[c.name][m] == Trusted(c, m)
  }

  /** The verdicts kept under a name are those on the last channel of that name among the first `n`. */
  ghost predicate TrustBelow(trust: map<string, map<string, bool>>, cs: seq<Channel>, models: set<string>, n: nat)
    requires n <= |cs|
  {
    && (forall i :: 0 <= i < n ==> cs[i].name in trust && trust[cs[i].name].Keys == models)
    && (forall i :: 0 <= i < n && LastBelow(Names(cs), i, n) ==> TrustsWell(trust, cs[i], models))
  }

  ghost predicate TrustFor(trust: map<string, map<string, bool>>, cs: seq<Channel>, models: set<string>) {
    TrustBelow(trust, cs, models, |cs|)
  }

  lemma TrustNext(trust: map<string, map<string, bool>>, cs: seq<Channel>, models: set<string>, n: nat, one: map<string, bool>)
    requires n < |cs| && TrustBelow(trust, cs, models, n)
    requires one.Keys == models && forall m :: m in models ==> one[m] == Trusted(cs[n], m)
    ensures TrustBelow(trust[cs[n].name := one], cs, models, n + 1)
  {
    var next := trust[cs[n].name := one];
    forall i | 0 <= i < n && LastBelow(Names(cs), i, n + 1) ensures TrustsWell(next, cs[i], models) {
      assert Names(cs)[n] != Names(cs)[i];
      assert LastBelow(Names(cs), i, n);
      assert TrustsWell(trust, cs[i], models);
    }
  }

  method TrustMap(cs: seq<Channel>, models: set<string>) returns (trust: map<string, map<string, bool>>)
    ensures TrustFor(trust, cs, models)
  {
    trust := map[];
    var i := 0;
    while i < |cs|
      invariant 0 <= i <= |cs|
      invariant TrustBelow(trust, cs, models, i)
    {
      var one := JudgeTrust(cs[i], models);
      TrustNext(trust, cs, models, i, one);
      trust := trust[cs[i].name := one];
      i := i + 1;
    }
  }

  // ---------------------------------------------------------------- one price across channels

  /** The tests the code makes for one channel, in its order. */
  method Judge(local: Data, c: Channel, m: string, f: Field)
    returns (upstreamValue: Option<Value>, hasUpstreamValue: bool, hasDifference: bool)
    ensures upstreamValue == Shown(local, c, m, f) && (Visible(local, c, m, f) ==> hasDifference)
    ensures if Get(local, f, m).Some? then hasDifference == Differs(local, c, m, f)
            else hasUpstreamValue == Differs(local, c, m, f)
  {
    var localValue := Get(local, f, m);
    upstreamValue, hasUpstreamValue, hasDifference := None, false, false;
    var val := Get(c.data, f, m);
    if val.Some? {
      upstreamValue, hasUpstreamValue := val, true;
      if localValue.Some? && !ValuesEqual(localValue.value, val.value) {
        hasDifference := true;
      } else if localValue.Some? && ValuesEqual(localValue.value, val.value) {
        upstreamValue := Some(SAME);
      }
    }
    if upstreamValue.None? && localValue.None? {
      upstreamValue := Some(SAME);
    }
    if localValue.None? && upstreamValue.Some? && upstreamValue != Some(SAME) {
      hasDifference := true;
    }
  }

  /** A channel shows a price other than the marker exactly when it differs visibly. */
  lemma ShownMeans(local: Data, c: Channel, m: string, f: Field)
    ensures Visible(local, c, m, f) <==> Shown(local, c, m, f).Some? && Shown(local, c, m, f) != Some(SAME)
  {
  }

  /** Some channel among the first `n` differs. */
  ghost predicate SomeBelow(local: Data, cs: seq<Channel>, m: string, f: Field, n: nat) {
    exists i :: 0 <= i < |cs| && i < n && Differs(local, cs[i], m, f)
  }

  lemma SomeNext(local: Data, cs: seq<Channel>, m: string, f: Field, n: nat)
    requires n < |cs|
    ensures SomeBelow(local, cs, m, f, n + 1) <==> SomeBelow(local, cs, m, f, n) || Differs(local, cs[n], m, f)
  {
  }

  lemma SomeBelowAll(local: Data, cs: seq<Channel>, m: string, f: Field)
    ensures SomeBelow(local, cs, m, f, |cs|) <==> SomeDiffers(local, cs, m, f)
  {
  }

  lemma TableNext<T>(names: seq<string>, values: seq<T>, i: nat)
    requires i < |names| == |values|
    ensures Table(names[..i + 1], values[..i + 1]) == Table(names[..i], values[..i])[names[i] := values[i]]
  {
    assert names[..i + 1][..i] == names[..i] && values[..i + 1][..i] == values[..i];
  }

  /** The names met so far, each with the trust in the channel that speaks for it. */
  ghost predicate Confident(cs: seq<Channel>, m: string, n: nat, confidence: map<string, bool>) {
    && n <= |cs| && (forall x :: x in confidence <==> x in Names(cs)[..n])
    && (forall i :: 0 <= i < |cs| && Speaks(cs, i) && cs[i].name in confidence ==>
          confidence[cs[i].name] == Trusted(cs[i], m))
  }

  lemma ConfidentNext(trust: map<string, map<string, bool>>, cs: seq<Channel>, models: set<string>, m: string, n: nat,
                      confidence: map<string, bool>)
    requires m in models && TrustFor(trust, cs, models) && n < |cs| && Confident(cs, m, n, confidence)
    ensures Confident(cs, m, n + 1, confidence[cs[n].name := trust[cs[n].name][m]])
  {
    var names, next := Names(cs), confidence[cs[n].name := trust[cs[n].name][m]];
    assert names[..n + 1] == names[..n] + [names[n]];
    forall i | 0 <= i < |cs| && Speaks(cs, i) && cs[i].name == cs[n].name ensures next[cs[i].name] == Trusted(cs[i], m) {
      assert TrustsWell(trust, cs[i], models);
    }
  }

  lemma ConfidentAll(cs: seq<Channel>, m: string, confidence: map<string, bool>)
    requires Confident(cs, m, |cs|, confidence)
    ensures confidence == Table(Names(cs), TrustedAll(cs, m))
  {
    var names, trusted := Names(cs), TrustedAll(cs, m);
    TableKeys(names, trusted);
    assert names[..|cs|] == names;
    forall x | x in confidence ensures confidence[x] == Table(names, trusted)[x] {
      var i :| 0 <= i < |names| && names[i] == x;
      var k := Speaker(cs, i);
      TableAt(names, trusted, k);
      assert names[k] == x && trusted[k] == Trusted(cs[k], m);
    }
  }

  /** The tables after the first `n` channels. */
  ghost predicate Tabled(local: Data, cs: seq<Channel>, m: string, f: Field, n: nat,
                         upstreams: map<string, Option<Value>>, confidence: map<string, bool>) {
    && Confident(cs, m, n, confidence)
    && upstreams == Table(Names(cs)[..n], ShownAll(local, cs, m, f)[..n])
  }

  lemma TabledAll(local: Data, cs: seq<Channel>, m: string, f: Field,
                  upstreams: map<string, Option<Value>>, confidence: map<string, bool>)
    requires Tabled(local, cs, m, f, |cs|, upstreams, confidence)
    ensures Item(Get(local, f, m), upstreams, confidence) == FullItem(local, cs, m, f)
  {
    var names, shown := Names(cs), ShownAll(local, cs, m, f);
    assert names[..|cs|] == names && shown[..|cs|] == shown;
    ConfidentAll(cs, m, confidence);
  }

  /** Channel `i` is entered in the two tables. */
  method Enter(local: Data, cs: seq<Channel>, i: nat, trust: map<string, map<string, bool>>, models: set<string>,
               m: string, f: Field, upstreams: map<string, Option<Value>>, confidence: map<string, bool>)
    returns (up: map<string, Option<Value>>, trusted: map<string, bool>, has: bool, differs: bool)
    requires m in models && TrustFor(trust, cs, models)
    requires i < |cs| && Tabled(local, cs, m, f, i, upstreams, confidence)
    ensures Tabled(local, cs, m, f, i + 1, up, trusted)
    ensures SomeBelow(local, cs, m, f, i + 1) <==>
            SomeBelow(local, cs, m, f, i) || if Get(local, f, m).Some? then differs else has
  {
    var c := cs[i];
    var upstreamValue;
    upstreamValue, has, differs := Judge(local, c, m, f);
    up := upstreams[c.name := upstreamValue];
    trusted := confidence[c.name := trust[c.name][m]];
    TableNext(Names(cs), ShownAll(local, cs, m, f), i);
    ConfidentNext(trust, cs, models, m, i, confidence);
    SomeNext(local, cs, m, f, i);
  }

  method Compare(local: Data, cs: seq<Channel>, trust: map<string, map<string, bool>>, models: set<string>, m: string, f: Field)
    returns (item: Item, shouldInclude: bool)
    requires m in models && TrustFor(trust, cs, models)
    ensures item == FullItem(local, cs, m, f)
    ensures shouldInclude <==> SomeDiffers(local, cs, m, f)
  {
    var mine := Get(local, f, m);
    var upstreams, confidence := map[], map[];
    var hasUpstream, hasDifference := false, false;
    var i := 0;
    while i < |cs|
      invariant 0 <= i <= |cs|
      invariant Tabled(local, cs, m, f, i, upstreams, confidence)
      invariant SomeBelow(local, cs, m, f, i) <==> if mine.Some? then hasDifference else hasUpstream
    {
      var has, differs;
      upstreams, confidence, has, differs := Enter(local, cs, i, trust, models, m, f, upstreams, confidence);
      hasUpstream, hasDifference := hasUpstream || has, hasDifference || differs;
      i := i + 1;
    }
    TabledAll(local, cs, m, f, upstreams, confidence);
    SomeBelowAll(local, cs, m, f);
    item := Item(mine, upstreams, confidence);
    shouldInclude := if mine.Some? then hasDifference else hasUpstream;
  }

  // ---------------------------------------------------------------- building

  /** One model's row before pruning: a full item for every field where some channel differs. */
  ghost predicate RowIs(row: map<Field, Item>, local: Data, cs: seq<Channel>, m: string) {
    && (forall f :: f in row <==> SomeDiffers(local, cs, m, f))
    && (forall f :: f in row ==> row[f] == FullItem(local, cs, m, f))
  }

  ghost predicate IsRaw(raw: Diff, local: Data, cs: seq<Channel>) {
    && (forall m :: m in raw ==> RowIs(raw[m], local, cs, m) && raw[m] != map[])
    && (forall m, f :: SomeDiffers(local, cs, m, f) ==> m in raw)
  }

  method BuildRow(local: Data, cs: seq<Channel>, trust: map<string, map<string, bool>>, models: set<string>, m: string)
    returns (row: map<Field, Item>)
    requires m in models && TrustFor(trust, cs, models)
    ensures RowIs(row, local, cs, m)
  {
    row := map[];
    var k := 0;
    while k < |FIELDS|
      invariant 0 <= k <= |FIELDS|
      invariant forall f :: f in row ==> SomeDiffers(local, cs, m, f) && row[f] == FullItem(local, cs, m, f)
      invariant forall j :: 0 <= j < k && SomeDiffers(local, cs, m, FIELDS[j]) ==> FIELDS[j] in row
    {
      var item, shouldInclude := Compare(local, cs, trust, models, m, FIELDS[k]);
      if shouldInclude { row := row[FIELDS[k] := item]; }
      k := k + 1;
    }
    forall f | SomeDiffers(local, cs, m, f) ensures f in row { EveryField(f); }
  }

  method Build(local: Data, cs: seq<Channel>, trust: map<string, map<string, bool>>, models: set<string>) returns (raw: Diff)
    requires TrustFor(trust, cs, models)
    requires forall i, f :: 0 <= i < |cs| ==> KeysOf(cs[i].data, f) <= models
    ensures IsRaw(raw, local, cs)
  {
    raw := map[];
    var todo := models;
    while todo != {}
      invariant todo <= models
      invariant forall m :: m in raw ==> RowIs(raw[m], local, cs, m) && raw[m] != map[]
      invariant forall m, f :: m in models - todo && SomeDiffers(local, cs, m, f) ==> m in raw
    {
      var m :| m in todo;
      todo := todo - {m};
      var row := BuildRow(local, cs, trust, models, m);
      if row != map[] { raw := raw[m := row]; }
    }
    forall m, f | SomeDiffers(local, cs, m, f) ensures m in raw {
      var i :| 0 <= i < |cs| && Differs(local, cs[i], m, f);
      assert m in KeysOf(cs[i].data, f);
    }
  }

  // ---------------------------------------------------------------- who differs at all

  predicate Marked(v: Option<Value>) { v.Some? && v != Some(SAME) }

  method MarksOfItem(item: Item) returns (names: set<string>)
    ensures forall n :: n in names <==> n in item.upstreams && Marked(item.upstreams[n])
  {
    names := {};
    var todo := item.upstreams.Keys;
    while todo != {}
      invariant todo <= item.upstreams.Keys
      invariant forall n :: n in names <==> n in item.upstreams.Keys - todo && Marked(item.upstreams[n])
    {
      var n :| n in todo;
      todo := todo - {n};
      if Marked(item.upstreams[n]) { names := names + {n}; }
    }
  }

  ghost predicate MarkedIn(row: map<Field, Item>, n: string) {
    exists f :: f in row && n in row[f].upstreams && Marked(row[f].upstreams[n])
  }

  method MarksOfRow(row: map<Field, Item>) returns (names: set<string>)
    ensures forall n :: n in names <==> MarkedIn(row, n)
  {
    names := {};
    var todo := row.Keys;
    while todo != {}
      invariant todo <= row.Keys
      invariant forall n :: n in names ==> MarkedIn(row, n)
      invariant forall f, n :: f in row.Keys - todo && n in row[f].upstreams && Marked(row[f].upstreams[n]) ==> n in names
    {
      var f :| f in todo;
      todo := todo - {f};
      var more := MarksOfItem(row[f]);
      names := names + more;
    }
  }

  method FindOffenders(raw: Diff) returns (names: set<string>)
    ensures forall n :: n in names <==> exists m :: m in raw && MarkedIn(raw[m], n)
  {
    names := {};
    var todo := raw.Keys;
    while todo != {}
      invariant todo <= raw.Keys
      invariant forall n :: n in names ==> exists m :: m in raw && MarkedIn(raw[m], n)
      invariant forall m, n :: m in raw.Keys - todo && MarkedIn(raw[m], n) ==> n in names
    {
      var m :| m in todo;
      todo := todo - {m};
      var more := MarksOfRow(raw[m]);
      names := names + more;
    }
  }

  /** In a full item a name is marked exactly when the channel that speaks for it differs visibly there. */
  lemma MarkedMeans(local: Data, cs: seq<Channel>, m: string, f: Field, i: nat)
    requires i < |cs| && Speaks(cs, i)
    ensures cs[i].name in FullItem(local, cs, m, f).upstreams
    ensures Marked(FullItem(local, cs, m, f).upstreams[cs[i].name]) <==> Visible(local, cs[i], m, f)
  {
    FullItemLists(local, cs, m, f, i);
    ShownMeans(local, cs[i], m, f);
  }

  lemma FullItemNames(local: Data, cs: seq<Channel>, m: string, f: Field, n: string) returns (i: nat)
    requires n in FullItem(local, cs, m, f).upstreams
    ensures i < |cs| && cs[i].name == n && Speaks(cs, i)
  {
    TableKeys(Names(cs), ShownAll(local, cs, m, f));
    assert n in Names(cs);
    var j :| 0 <= j < |cs| && Names(cs)[j] == n;
    i := Speaker(cs, j);
  }

  lemma MarksAreNoticed(raw: Diff, local: Data, cs: seq<Channel>, n: string)
    requires IsRaw(raw, local, cs)
    ensures (exists m :: m in raw && MarkedIn(raw[m], n)) <==> n in NoticedNames(local, cs)
  {
    if n in NoticedNames(local, cs) {
      var i :| 0 <= i < |cs| && Speaks(cs, i) && Noticed(local, cs[i]) && cs[i].name == n;
      var m, f :| Visible(local, cs[i], m, f);
      assert SomeDiffers(local, cs, m, f);
      assert RowIs(raw[m], local, cs, m);
      MarkedMeans(local, cs, m, f, i);
      assert MarkedIn(raw[m], n);
    }
    if m :| m in raw && MarkedIn(raw[m], n) {
      var f :| f in raw[m] && n in raw[m][f].upstreams && Marked(raw[m][f].upstreams[n]);
      assert RowIs(raw[m], local, cs, m);
      var i := FullItemNames(local, cs, m, f, n);
      MarkedMeans(local, cs, m, f, i);
      assert Noticed(local, cs[i]);
    }
  }

  // ---------------------------------------------------------------- pruning

  predicate AllSame(item: Item) { forall n :: n in item.upstreams ==> item.upstreams[n] == Some(SAME) }

  method PruneItem(item: Item, keep: set<string>) returns (pruned: Item, gone: bool)
    ensures pruned == Restrict(item, keep)
    ensures gone <==> AllSame(pruned)
  {
    var upstreams, confidence := item.upstreams, item.confidence;
    var todo := item.upstreams.Keys;
    while todo != {}
      invariant todo <= item.upstreams.Keys
      invariant upstreams == item.upstreams - (item.upstreams.Keys - keep - todo)
      invariant confidence == item.confidence - (item.upstreams.Keys - keep - todo)
    {
      var n :| n in todo;
      todo := todo - {n};
      if n !in keep {
        upstreams := upstreams - {n};
        confidence := confidence - {n};
      }
    }
    assert item.upstreams.Keys - keep - todo == item.upstreams.Keys - keep;
    pruned := Item(item.current, upstreams, confidence);
    gone := true;
    var rest := upstreams.Keys;
    while rest != {}
      invariant rest <= upstreams.Keys
      invariant gone <==> forall n :: n in upstreams.Keys - rest ==> upstreams[n] == Some(SAME)
    {
      var n :| n in rest;
      rest := rest - {n};
      if upstreams[n] != Some(SAME) { gone := false; }
    }
  }

  /** The items that still say something once only the listed channels are kept. */
  function PrunedRow(row: map<Field, Item>, keep: set<string>): map<Field, Item> {
    map f | f in row && !AllSame(Restrict(row[f], keep)) :: Restrict(row[f], keep)
  }

  method PruneRow(row: map<Field, Item>, keep: set<string>) returns (pruned: map<Field, Item>)
    ensures pruned == PrunedRow(row, keep)
  {
    pruned := row;
    var todo := row.Keys;
    while todo != {}
      invariant todo <= row.Keys
      invariant forall f :: f in pruned <==> f in todo || f in PrunedRow(row, keep)
      invariant forall f :: f in pruned ==> pruned[f] == if f in todo then row[f] else Restrict(row[f], keep)
    {
      var f :| f in todo;
      todo := todo - {f};
      var item, gone := PruneItem(pruned[f], keep);
      if gone { pruned := pruned - {f}; } else { pruned := pruned[f := item]; }
    }
  }

  /** Row by row: pruned, and present only if something is left. */
  ghost predicate IsPruned(d: Diff, raw: Diff, keep: set<string>, m: string) {
    && (m in d <==> m in raw && PrunedRow(raw[m], keep) != map[])
    && (m in d ==> d[m] == PrunedRow(raw[m], keep))
  }

  /** One round of the outer loop: the row is pruned, and dropped if nothing is left of it. */
  method PruneModel(differences: Diff, m: string, keep: set<string>) returns (next: Diff)
    requires m in differences
    ensures next.Keys == differences.Keys - if PrunedRow(differences[m], keep) == map[] then {m} else {}
    ensures m in next ==> next[m] == PrunedRow(differences[m], keep)
    ensures forall k :: k in next && k != m ==> next[k] == differences[k]
  {
    var row := PruneRow(differences[m], keep);
    next := if row == map[] then differences - {m} else differences[m := row];
  }

  method PruneAll(raw: Diff, keep: set<string>) returns (differences: Diff)
    ensures forall m :: IsPruned(differences, raw, keep, m)
  {
    differences := raw;
    var todo := raw.Keys;
    while todo != {}
      invariant todo <= raw.Keys
      invariant forall m :: m in todo ==> m in differences && differences[m] == raw[m]
      invariant forall m :: m !in todo ==> IsPruned(differences, raw, keep, m)
    {
      var m :| m in todo;
      ghost var before := differences;
      differences := PruneModel(differences, m, keep);
      forall k | k !in todo - {m} ensures IsPruned(differences, raw, keep, k) {
        if k != m { assert IsPruned(before, raw, keep, k); }
      }
      todo := todo - {m};
    }
  }

  /** An item outlives pruning exactly when a noticed channel tells something there. */
  lemma KeptItem(local: Data, cs: seq<Channel>, m: string, f: Field)
    ensures Telling(local, cs, m, f) <==> !AllSame(Restrict(FullItem(local, cs, m, f), NoticedNames(local, cs)))
  {
    var item := FullItem(local, cs, m, f);
    var kept := Restrict(item, NoticedNames(local, cs));
    if Telling(local, cs, m, f) {
      var i :| 0 <= i < |cs| && Speaks(cs, i) && Noticed(local, cs[i]) && Shown(local, cs[i], m, f) != Some(SAME);
      FullItemLists(local, cs, m, f, i);
      NoticedByName(local, cs, i);
      assert cs[i].name in kept.upstreams;
    }
    if !AllSame(kept) {
      var n :| n in kept.upstreams && kept.upstreams[n] != Some(SAME);
      var i := FullItemNames(local, cs, m, f, n);
      FullItemLists(local, cs, m, f, i);
      NoticedByName(local, cs, i);
    }
  }

  lemma KeptRow(row: map<Field, Item>, local: Data, cs: seq<Channel>, m: string)
    requires RowIs(row, local, cs, m)
    ensures forall f :: f in PrunedRow(row, NoticedNames(local, cs)) <==> f in row && Telling(local, cs, m, f)
  {
    forall f | f in row
      ensures f in PrunedRow(row, NoticedNames(local, cs)) <==> Telling(local, cs, m, f)
    {
      KeptItem(local, cs, m, f);
    }
  }

  /** Pruning the raw result to the noticed channels gives the report. */
  lemma PrunedIsReport(d: Diff, raw: Diff, local: Data, cs: seq<Channel>)
    requires IsRaw(raw, local, cs)
    requires forall m :: IsPruned(d, raw, NoticedNames(local, cs), m)
    ensures IsReport(d, local, cs)
  {
    var keep := NoticedNames(local, cs);
    forall m, f
      ensures Present(d, m, f) <==> SomeDiffers(local, cs, m, f) && Telling(local, cs, m, f)
      ensures Present(d, m, f) ==> d[m][f] == Restrict(FullItem(local, cs, m, f), keep)
    {
      assert IsPruned(d, raw, keep, m);
      if m in raw { KeptRow(raw[m], local, cs, m); }
    }
    forall m | m in d ensures exists f :: Present(d, m, f) {
      assert IsPruned(d, raw, keep, m);
      assert d[m].Keys != {};
      var f :| f in d[m].Keys;
      assert Present(d, m, f);
    }
  }

  /**
   The whole computation, for every iteration order, any prices and any names: the report, which is the direct
   specification exactly when hidden prices do no harm, in particular when no price spells the marker and no
   two channels share a name.
   */
  method BuildDifferences(local: Data, cs: seq<Channel>) returns (differences: Diff)
    ensures IsReport(differences, local, cs)
    ensures IsDiff(differences, local, cs) <==> Harmless(local, cs)
    ensures NoSentinel(cs) && Distinct(Names(cs)) ==> IsDiff(differences, local, cs)
  {
    var models := AllModels(local, cs);
    var trust := TrustMap(cs, models);
    var raw := Build(local, cs, trust, models);
    var keep := FindOffenders(raw);
    forall n ensures n in keep <==> n in NoticedNames(local, cs) { MarksAreNoticed(raw, local, cs, n); }
    assert keep == NoticedNames(local, cs);
    differences := PruneAll(raw, keep);
    PrunedIsReport(differences, raw, local, cs);
    ReportIsDiffIff(differences, local, cs);
    if NoSentinel(cs) && Distinct(Names(cs)) { NoSentinelIsHarmless(local, cs); }
  }
}
