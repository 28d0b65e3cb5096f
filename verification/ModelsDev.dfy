/**
 Choosing one price per model out of many providers: walk the providers in sorted order and keep a
 candidate, replacing it by a rule that prefers non-zero costs, then cheaper ones, then earlier
 provider names. "Cheaper" ignores differences below an epsilon, which is not transitive; sorted
 order is what keeps the error of the fold below that one epsilon.
 */
module ModelsDev {
  import opened Ordering
  import PD = PriceDiff

  type Option<T> = PD.Option<T>

  datatype Cost = Cost(input: Option<real>, output: Option<real>, cacheRead: Option<real>)

  datatype Candidate = Candidate(provider: string, input: real, output: Option<real>, cacheRead: Option<real>)

  /** A usable offer: no negative price, and no free input with paid output. */
  function BuildCandidate(provider: string, cost: Cost): Option<Candidate> {
    if cost.input.None? || cost.input.value < 0.0 then PD.None
    else if cost.output.Some? && cost.output.value < 0.0 then PD.None
    else if cost.input.value == 0.0 && cost.output.Some? && cost.output.value > 0.0 then PD.None
    else
      var cacheRead := if cost.cacheRead.Some? && cost.cacheRead.value >= 0.0 then cost.cacheRead else PD.None;
      PD.Some(Candidate(provider, cost.input.value, cost.output, cacheRead))
  }

  /** A cost that makes an offer: an input price, nothing negative, and no free input with paid output. */
  predicate Usable(cost: Cost) {
    && cost.input.Some? && cost.input.value >= 0.0
    && (cost.output.Some? ==> cost.output.value >= 0.0 && (cost.output.value > 0.0 ==> cost.input.value > 0.0))
  }

  /** The provider's own prices; a negative cache price is left out. */
  predicate IsOffer(c: Candidate, provider: string, cost: Cost) {
    && c.provider == provider && cost.input == PD.Some(c.input) && c.output == cost.output
    && (if cost.cacheRead.Some? && cost.cacheRead.value >= 0.0 then c.cacheRead == cost.cacheRead else c.cacheRead.None?)
  }

  lemma CandidateMeans(provider: string, cost: Cost)
    ensures BuildCandidate(provider, cost).Some? <==> Usable(cost)
    ensures Usable(cost) ==> IsOffer(BuildCandidate(provider, cost).value, provider, cost)
  {
  }

  predicate ShouldReplace(current: Candidate, next: Candidate) {
    if (current.input > 0.0) != (next.input > 0.0) then next.input > 0.0
    else if next.input > 0.0 && !PD.NearlyEqual(next.input, current.input) then next.input < current.input
    else Less(next.provider, current.provider)
  }

  /** The fold: the first candidate, then each next one if it should replace the current. */
  function Choose(cs: seq<Candidate>): Candidate
    requires cs != []
  {
    if |cs| == 1 then cs[0]
    else
      var current := Choose(cs[..|cs| - 1]);
      if ShouldReplace(current, cs[|cs| - 1]) then cs[|cs| - 1] else current
  }

  ghost predicate Sorted(cs: seq<Candidate>) {
    forall i, j :: 0 <= i < j < |cs| ==> Less(cs[i].provider, cs[j].provider)
  }

  predicate Priced(c: Candidate) { c.input > 0.0 }

  /** The choice is one of the offers, and within one epsilon of every priced offer seen. */
  ghost predicate Near(choice: Candidate, cs: seq<Candidate>) {
    && choice in cs
    && (Priced(choice) <==> exists i :: 0 <= i < |cs| && Priced(cs[i]))
    && forall i :: 0 <= i < |cs| && Priced(cs[i]) ==> choice.input < cs[i].input + PD.EPSILON
  }

  lemma NearNext(current: Candidate, cs: seq<Candidate>, next: Candidate)
    requires Near(current, cs) && forall i :: 0 <= i < |cs| ==> Less(cs[i].provider, next.provider)
    requires forall i :: 0 <= i < |cs| ==> cs[i].input >= 0.0
    requires next.input >= 0.0
    ensures Near(if ShouldReplace(current, next) then next else current, cs + [next])
  {
    var all := cs + [next];
    var choice := if ShouldReplace(current, next) then next else current;
    assert all[|cs|] == next;
    var k :| 0 <= k < |cs| && cs[k] == current;
    LessTotal(next.provider, current.provider);
    assert all[k] == current;
    if Priced(current) { assert Priced(all[k]); }
    if Priced(next) { assert Priced(all[|cs|]); }
    if i :| 0 <= i < |all| && Priced(all[i]) {
      assert i < |cs| ==> Priced(cs[i]);
    }
    forall i | 0 <= i < |all| && Priced(all[i]) ensures choice.input < all[i].input + PD.EPSILON {
      if i < |cs| { assert Priced(cs[i]); }
    }
  }

  /**
   Over providers in sorted order the fold picks a priced offer whenever there is one, and its
   input cost is less than the true minimum of the priced offers plus one epsilon.
   */
  lemma {:induction false} ChooseNearlyCheapest(cs: seq<Candidate>)
    requires cs != [] && Sorted(cs) && forall i :: 0 <= i < |cs| ==> cs[i].input >= 0.0
    ensures Near(Choose(cs), cs)
  {
    if |cs| == 1 {
      assert cs[0] in cs;
    } else {
      var init, last := cs[..|cs| - 1], cs[|cs| - 1];
      ChooseNearlyCheapest(init);
      assert cs == init + [last];
      NearNext(Choose(init), init, last);
    }
  }

  /** With nothing priced, the earliest provider is kept. */
  lemma {:induction false} ChooseFree(cs: seq<Candidate>)
    requires cs != [] && Sorted(cs) && forall i :: 0 <= i < |cs| ==> cs[i].input == 0.0
    ensures Choose(cs) == cs[0]
  {
    if |cs| > 1 {
      ChooseFree(cs[..|cs| - 1]);
      LessTotal(cs[0].provider, cs[|cs| - 1].provider);
    }
  }

  /** Every priced offer met before the chosen one is dearer, so equal costs go to the earliest provider. */
  lemma {:induction false} ChooseEarliest(cs: seq<Candidate>) returns (k: nat)
    requires cs != [] && Sorted(cs) && forall i :: 0 <= i < |cs| ==> cs[i].input >= 0.0
    ensures k < |cs| && Choose(cs) == cs[k] && (!Priced(cs[k]) ==> k == 0)
    ensures forall j :: 0 <= j < k && Priced(cs[j]) ==> cs[j].input > cs[k].input
  {
    k := 0;
    if |cs| > 1 {
      var init, last := cs[..|cs| - 1], cs[|cs| - 1];
      k := ChooseEarliest(init);
      ChooseNearlyCheapest(init);
      LessTotal(last.provider, cs[k].provider);
      assert Less(cs[k].provider, last.provider);
      if ShouldReplace(cs[k], last) {
        forall j | 0 <= j < |init| && Priced(cs[j]) ensures cs[j].input > last.input { assert Priced(init[j]); }
        k := |init|;
      }
    }
  }

  /** Offers in the wrong order let the choice drift: each step stays within epsilon, the sum does not. */
  lemma OrderMatters()
    ensures var step := 0.9 * PD.EPSILON;
            var cs := [Candidate("c", 1.0, PD.None, PD.None), Candidate("b", 1.0 + step, PD.None, PD.None),
                       Candidate("a", 1.0 + step + step, PD.None, PD.None)];
            Choose(cs) == cs[2] && Choose(cs).input >= cs[0].input + PD.EPSILON
  {
    var step := 0.9 * PD.EPSILON;
    var a, b, c := Candidate("c", 1.0, PD.None, PD.None), Candidate("b", 1.0 + step, PD.None, PD.None),
                   Candidate("a", 1.0 + step + step, PD.None, PD.None);
    assert [a, b, c][..2] == [a, b] && [a, b][..1] == [a];
    assert Less("b", "c") && Less("a", "b");
    assert Choose([a]) == a;
    assert Choose([a, b]) == b;
  }

  // ---------------------------------------------------------------- the selection loop

  type Catalogue = map<string, map<string, Cost>>

  /** The offers for one model, in the order of the given providers. */
  function Offers(data: Catalogue, providers: seq<string>, model: string): seq<Candidate>
    requires forall p :: p in providers ==> p in data
  {
    if providers == [] then []
    else
      var last := providers[|providers| - 1];
      var rest := Offers(data, providers[..|providers| - 1], model);
      if model !in data[last] then rest
      else
        var offer := BuildCandidate(last, data[last][model]);
        if offer.Some? then rest + [offer.value] else rest
  }

  /** Real offers of the given providers. */
  ghost predicate OfferedBy(offers: seq<Candidate>, providers: seq<string>) {
    forall i :: 0 <= i < |offers| ==> offers[i].input >= 0.0 && offers[i].provider in providers
  }

  lemma OneMoreOffer(rest: seq<Candidate>, init: seq<string>, last: string, offer: Candidate)
    requires Sorted(rest) && OfferedBy(rest, init) && Ascending(init + [last])
    requires offer.provider == last && offer.input >= 0.0
    ensures Sorted(rest + [offer]) && OfferedBy(rest + [offer], init + [last])
  {
    forall i | 0 <= i < |rest| ensures Less(rest[i].provider, last) {
      var k :| 0 <= k < |init| && init[k] == rest[i].provider;
      assert (init + [last])[k] == init[k] && (init + [last])[|init|] == last;
    }
  }

  lemma {:induction false} OffersSorted(data: Catalogue, providers: seq<string>, model: string)
    requires Ascending(providers) && forall p :: p in providers ==> p in data
    ensures Sorted(Offers(data, providers, model)) && OfferedBy(Offers(data, providers, model), providers)
  {
    if providers != [] {
      var init, last := providers[..|providers| - 1], providers[|providers| - 1];
      OffersSorted(data, init, model);
      assert providers == init + [last];
      if model in data[last] {
        var offer := BuildCandidate(last, data[last][model]);
        if offer.Some? { OneMoreOffer(Offers(data, init, model), init, last, offer.value); }
      }
    }
  }

  /** What the selection holds for one model after the given providers. */
  ghost predicate Selected(sel: map<string, Candidate>, data: Catalogue, providers: seq<string>, model: string)
    requires forall p :: p in providers ==> p in data
  {
    var offers := Offers(data, providers, model);
    (model in sel <==> offers != []) && (model in sel ==> sel[model] == Choose(offers))
  }

  lemma ChooseSnoc(cs: seq<Candidate>, next: Candidate)
    ensures Choose(cs + [next]) == if cs == [] then next
                                   else if ShouldReplace(Choose(cs), next) then next else Choose(cs)
  {
    var all := cs + [next];
    assert all[|all| - 1] == next && all[..|all| - 1] == cs;
  }

  /** One provider's models, in any order. */
  method SelectFrom(data: Catalogue, done: seq<string>, provider: string, sel: map<string, Candidate>)
    returns (next: map<string, Candidate>)
    requires provider in data && forall p :: p in done ==> p in data
    requires forall m :: Selected(sel, data, done, m)
    ensures forall p :: p in done + [provider] ==> p in data
    ensures forall m :: Selected(next, data, done + [provider], m)
  {
    next := sel;
    var models := data[provider];
    var todo := models.Keys;
    var all := done + [provider];
    assert all[..|all| - 1] == done && all[|all| - 1] == provider;
    forall m | m !in models ensures Selected(next, data, all, m) {
      assert Selected(sel, data, done, m) && Offers(data, all, m) == Offers(data, done, m);
    }
    while todo != {}
      invariant todo <= models.Keys
      invariant forall m :: m in todo ==> Selected(next, data, done, m)
      invariant forall m :: m !in todo ==> Selected(next, data, all, m)
    {
      var model :| model in todo;
      todo := todo - {model};
      var offer := BuildCandidate(provider, models[model]);
      ghost var before, offers := next, Offers(data, done, model);
      assert Selected(before, data, done, model);
      if offer.Some? {
        ChooseSnoc(offers, offer.value);
        if model !in next || ShouldReplace(next[model], offer.value) {
          next := next[model := offer.value];
        }
      }
      forall m | m != model ensures Selected(next, data, all, m) == Selected(before, data, all, m) {}
      forall m | m != model ensures Selected(next, data, done, m) == Selected(before, data, done, m) {}
      assert Selected(next, data, all, model);
    }
  }

  /** Some provider really makes this offer for the model. */
  ghost predicate SomeOffer(data: Catalogue, model: string, c: Candidate) {
    exists p :: p in data && model in data[p] && Usable(data[p][model]) && IsOffer(c, p, data[p][model])
  }

  method SelectCandidates(data: Catalogue) returns (selected: map<string, Candidate>)
    ensures forall m :: m in selected ==> SomeOffer(data, m, selected[m])
    ensures forall m, p :: p in data && m in data[p] && Usable(data[p][m]) ==>
              && m in selected
              && (data[p][m].input.value > 0.0 ==> 0.0 < selected[m].input < data[p][m].input.value + PD.EPSILON)
  {
    var providers := SortKeys(data.Keys);
    assert forall p :: p in providers ==> p in Members(providers);
    selected := map[];
    var i := 0;
    while i < |providers|
      invariant 0 <= i <= |providers|
      invariant forall p :: p in providers[..i] ==> p in data
      invariant forall m :: Selected(selected, data, providers[..i], m)
    {
      selected := SelectFrom(data, providers[..i], providers[i], selected);
      assert providers[..i] + [providers[i]] == providers[..i + 1];
      i := i + 1;
    }
    assert providers[..i] == providers;
    forall m | m in selected ensures SomeOffer(data, m, selected[m]) { SelectionIsOffer(selected, data, providers, m); }
    forall m, p | p in data && m in data[p] && Usable(data[p][m])
      ensures m in selected
      ensures data[p][m].input.value > 0.0 ==> 0.0 < selected[m].input < data[p][m].input.value + PD.EPSILON
    {
      assert p in Members(providers);
      SelectionNearlyCheapest(selected, data, providers, m, p);
    }
  }

  lemma {:induction false} OffersContain(data: Catalogue, providers: seq<string>, model: string, p: string)
    requires forall q :: q in providers ==> q in data
    requires p in providers && model in data[p] && BuildCandidate(p, data[p][model]).Some?
    ensures BuildCandidate(p, data[p][model]).value in Offers(data, providers, model)
  {
    if providers[|providers| - 1] != p {
      OffersContain(data, providers[..|providers| - 1], model, p);
    }
  }

  lemma {:induction false} OffersAreOffers(data: Catalogue, providers: seq<string>, model: string)
    requires forall q :: q in providers ==> q in data
    ensures forall c :: c in Offers(data, providers, model) ==>
              c.provider in data && model in data[c.provider] && BuildCandidate(c.provider, data[c.provider][model]) == PD.Some(c)
  {
    if providers != [] { OffersAreOffers(data, providers[..|providers| - 1], model); }
  }

  lemma SelectionIsOffer(sel: map<string, Candidate>, data: Catalogue, providers: seq<string>, m: string)
    requires Ascending(providers) && (forall q :: q in providers ==> q in data)
    requires Selected(sel, data, providers, m) && m in sel
    ensures SomeOffer(data, m, sel[m])
  {
    OffersSorted(data, providers, m);
    ChooseNearlyCheapest(Offers(data, providers, m));
    OffersAreOffers(data, providers, m);
    var p := sel[m].provider;
    CandidateMeans(p, data[p][m]);
  }

  lemma SelectionNearlyCheapest(sel: map<string, Candidate>, data: Catalogue, providers: seq<string>, m: string, p: string)
    requires Ascending(providers) && (forall q :: q in providers ==> q in data)
    requires Selected(sel, data, providers, m)
    requires p in providers && m in data[p] && Usable(data[p][m])
    ensures m in sel
    ensures data[p][m].input.value > 0.0 ==> 0.0 < sel[m].input < data[p][m].input.value + PD.EPSILON
  {
    CandidateMeans(p, data[p][m]);
    var offers, offer := Offers(data, providers, m), BuildCandidate(p, data[p][m]).value;
    OffersContain(data, providers, m, p);
    OffersSorted(data, providers, m);
    ChooseNearlyCheapest(offers);
    var k :| 0 <= k < |offers| && offers[k] == offer;
    assert Priced(offer) ==> Priced(offers[k]);
  }
}
