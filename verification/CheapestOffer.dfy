/**
 When the selection of models.dev offers really chooses the cheapest. Its comparison ignores differences
 below an epsilon, so an offer a little dearer than the cheapest wins if its provider comes first. Whether
 that can happen depends on the costs alone.
 */
module CheapestOffer {
  import opened Ordering
  import PD = PriceDiff
  import opened ModelsDev

  function Costs(cs: seq<Candidate>): multiset<real> {
    if cs == [] then multiset{} else Costs(cs[..|cs| - 1]) + multiset{cs[|cs| - 1].input}
  }

  /** The least positive cost. */
  ghost predicate IsLeast(m: real, ps: multiset<real>) {
    m in ps && m > 0.0 && forall x :: x in ps && x > 0.0 ==> m <= x
  }

  /** Some cost lies less than an epsilon above the least one. */
  ghost predicate Crowded(ps: multiset<real>) {
    exists m, x :: IsLeast(m, ps) && x in ps && m < x < m + PD.EPSILON
  }

  /** Whoever offers these costs, the fold over the sorted providers picks the least. */
  ghost predicate AlwaysCheapest(ps: multiset<real>) {
    forall cs :: cs != [] && Sorted(cs) && Costs(cs) == ps ==> IsLeast(Choose(cs).input, ps)
  }

  ghost predicate Proper(ps: multiset<real>) {
    (forall x :: x in ps ==> x >= 0.0) && exists x :: x in ps && x > 0.0
  }

  lemma {:induction false} CostsHold(cs: seq<Candidate>, x: real)
    ensures x in Costs(cs) <==> exists i :: 0 <= i < |cs| && cs[i].input == x
  {
    if cs != [] {
      var init, last := cs[..|cs| - 1], cs[|cs| - 1];
      CostsHold(init, x);
      if i :| 0 <= i < |init| && init[i].input == x { assert cs[i].input == x; }
      if i :| 0 <= i < |cs| && cs[i].input == x { assert i < |init| ==> init[i].input == x; }
      if last.input == x { assert cs[|cs| - 1].input == x; }
    }
  }

  // ---------------------------------------------------------------- uncrowded costs

  lemma UncrowdedIsCheapest(cs: seq<Candidate>, ps: multiset<real>)
    requires cs != [] && Sorted(cs) && Costs(cs) == ps && Proper(ps) && !Crowded(ps)
    ensures IsLeast(Choose(cs).input, ps)
  {
    forall i | 0 <= i < |cs| ensures cs[i].input >= 0.0 { CostsHold(cs, cs[i].input); }
    ChooseNearlyCheapest(cs);
    var choice := Choose(cs);
    CostsHold(cs, choice.input);
    var m := LeastOf(ps);
    CostsHold(cs, m);
    var k :| 0 <= k < |cs| && cs[k].input == m;
    assert Priced(cs[k]);
  }

  lemma {:induction false} LeastOf(ps: multiset<real>) returns (m: real)
    requires exists x :: x in ps && x > 0.0
    ensures IsLeast(m, ps)
    decreases |ps|
  {
    var x :| x in ps && x > 0.0;
    var rest := ps - multiset{x};
    assert ps == rest + multiset{x};
    if exists y :: y in rest && y > 0.0 {
      m := LeastOf(rest);
      if x < m { m := x; }
    } else {
      m := x;
    }
    forall y | y in ps && y > 0.0 ensures m <= y {
      assert y == x || y in rest;
    }
  }

  // ---------------------------------------------------------------- crowded costs, dearer offer first

  /** Provider names in sorted order: "", "a", "aa" and so on. */
  function Name(n: nat): string { if n == 0 then "" else ['a'] + Name(n - 1) }

  lemma {:induction false} NamesAscend(i: nat, j: nat)
    requires i < j
    ensures Less(Name(i), Name(j))
  {
    if i > 0 { NamesAscend(i - 1, j - 1); }
  }

  function Offer(name: string, cost: real): Candidate { Candidate(name, cost, PD.None, PD.None) }

  ghost predicate Named(cs: seq<Candidate>) {
    forall i :: 0 <= i < |cs| ==> cs[i] == Offer(Name(i), cs[i].input)
  }

  lemma NamedIsSorted(cs: seq<Candidate>)
    requires Named(cs)
    ensures Sorted(cs)
  {
    forall i, j | 0 <= i < j < |cs| ensures Less(cs[i].provider, cs[j].provider) { NamesAscend(i, j); }
  }

  lemma SomethingIn(ps: multiset<real>)
    requires ps != multiset{}
    ensures exists x :: x in ps
  {
    assert (forall x :: x !in ps) ==> ps == multiset{};
  }

  lemma LineNext(init: seq<Candidate>, x: real)
    requires Named(init)
    ensures Named(init + [Offer(Name(|init|), x)])
  {
    var last := Offer(Name(|init|), x);
    forall i | 0 <= i < |init + [last]|
      ensures (init + [last])[i] == Offer(Name(i), (init + [last])[i].input)
    {
      if i < |init| { assert init[i] == Offer(Name(i), init[i].input); }
    }
  }

  lemma CostsNext(init: seq<Candidate>, last: Candidate)
    ensures Costs(init + [last]) == Costs(init) + multiset{last.input}
  {
    var cs := init + [last];
    assert cs[..|cs| - 1] == init;
  }

  lemma PutBack(rest: multiset<real>, x: real, first: real)
    requires x in rest
    ensures rest - multiset{x} + multiset{first} + multiset{x} == rest + multiset{first}
  {
  }

  /** Any costs can be offered with a chosen one first. */
  lemma {:induction false} Line(first: real, rest: multiset<real>) returns (cs: seq<Candidate>)
    ensures cs != [] && Named(cs) && cs[0].input == first && Costs(cs) == rest + multiset{first}
    decreases |rest|
  {
    if rest == multiset{} {
      cs := [Offer("", first)];
      assert cs[..0] == [];
    } else {
      SomethingIn(rest);
      var x :| x in rest;
      var init := Line(first, rest - multiset{x});
      var last := Offer(Name(|init|), x);
      LineNext(init, x);
      CostsNext(init, last);
      PutBack(rest, x, first);
      cs := init + [last];
    }
  }

  /** An offer less than an epsilon above every later positive one is never replaced. */
  lemma {:induction false} FirstStays(cs: seq<Candidate>)
    requires cs != [] && Sorted(cs) && Priced(cs[0])
    requires forall i :: 0 <= i < |cs| && Priced(cs[i]) ==> cs[0].input < cs[i].input + PD.EPSILON
    ensures Choose(cs) == cs[0]
  {
    if |cs| > 1 {
      FirstStays(cs[..|cs| - 1]);
      LessTotal(cs[0].provider, cs[|cs| - 1].provider);
    }
  }

  /** For crowded costs: providers the code visits in this very order, and an offer chosen that is not the cheapest. */
  lemma CrowdedMisses(ps: multiset<real>) returns (cs: seq<Candidate>)
    requires Crowded(ps)
    ensures cs != [] && Named(cs) && Sorted(cs) && Costs(cs) == ps && !IsLeast(Choose(cs).input, ps)
  {
    var m, x :| IsLeast(m, ps) && x in ps && m < x < m + PD.EPSILON;
    cs := Line(x, ps - multiset{x});
    assert ps - multiset{x} + multiset{x} == ps;
    NamedIsSorted(cs);
    forall i | 0 <= i < |cs| && Priced(cs[i]) ensures cs[0].input < cs[i].input + PD.EPSILON {
      CostsHold(cs, cs[i].input);
    }
    FirstStays(cs);
  }

  /** The cheapest is chosen, whoever offers what, exactly when no cost lies within an epsilon above the least. */
  lemma AlwaysCheapestIff(ps: multiset<real>)
    requires Proper(ps)
    ensures AlwaysCheapest(ps) <==> !Crowded(ps)
  {
    if Crowded(ps) {
      var cs := CrowdedMisses(ps);
    } else {
      forall cs | cs != [] && Sorted(cs) && Costs(cs) == ps ensures IsLeast(Choose(cs).input, ps) {
        UncrowdedIsCheapest(cs, ps);
      }
    }
  }

  // ---------------------------------------------------------------- as catalogues

  function Providers(cs: seq<Candidate>): seq<string> { seq(|cs|, i requires 0 <= i < |cs| => cs[i].provider) }

  lemma {:induction false} OffersAgree(a: Catalogue, b: Catalogue, providers: seq<string>, model: string)
    requires forall p :: p in providers ==> p in a && p in b && a[p] == b[p]
    ensures Offers(a, providers, model) == Offers(b, providers, model)
  {
    if providers != [] { OffersAgree(a, b, providers[..|providers| - 1], model); }
  }

  /** The catalogue in which each provider publishes its one cost. */
  function Publish(cs: seq<Candidate>, model: string): Catalogue {
    if cs == [] then map[]
    else
      var last := cs[|cs| - 1];
      Publish(cs[..|cs| - 1], model)[last.provider := map[model := Cost(PD.Some(last.input), PD.None, PD.None)]]
  }

  lemma ProvidersNext(cs: seq<Candidate>)
    requires cs != []
    ensures Providers(cs) == Providers(cs[..|cs| - 1]) + [cs[|cs| - 1].provider]
    ensures Members(Providers(cs)) == Members(Providers(cs[..|cs| - 1])) + {cs[|cs| - 1].provider}
  {
    var init := cs[..|cs| - 1];
    assert Providers(cs) == Providers(init) + [cs[|cs| - 1].provider];
  }

  lemma {:induction false} PublishKeys(cs: seq<Candidate>, model: string)
    ensures Publish(cs, model).Keys == Members(Providers(cs))
    ensures forall p :: p in Providers(cs) ==> p in Publish(cs, model)
  {
    if cs != [] {
      PublishKeys(cs[..|cs| - 1], model);
      ProvidersNext(cs);
    }
    assert forall p :: p in Providers(cs) ==> p in Members(Providers(cs));
  }

  lemma OffersNext(data: Catalogue, names: seq<string>, p: string, model: string, cost: real)
    requires (forall q :: q in names + [p] ==> q in data) && cost >= 0.0
    requires data[p] == map[model := Cost(PD.Some(cost), PD.None, PD.None)]
    ensures forall q :: q in names ==> q in data
    ensures Offers(data, names + [p], model) == Offers(data, names, model) + [Offer(p, cost)]
  {
    var all := names + [p];
    assert all[..|all| - 1] == names && all[|all| - 1] == p;
    forall q | q in names ensures q in data { assert q in all; }
  }

  lemma LastIsNew(cs: seq<Candidate>)
    requires cs != [] && Sorted(cs)
    ensures cs[|cs| - 1].provider !in Providers(cs[..|cs| - 1])
  {
    var names, last := Providers(cs[..|cs| - 1]), cs[|cs| - 1].provider;
    forall i | 0 <= i < |names| ensures names[i] != last { LessTotal(cs[i].provider, last); }
  }

  lemma OneMorePublished(before: Catalogue, names: seq<string>, offers: seq<Candidate>, p: string, model: string, cost: real)
    requires (forall q :: q in names ==> q in before) && Offers(before, names, model) == offers
    requires p !in names && cost >= 0.0
    ensures var data := before[p := map[model := Cost(PD.Some(cost), PD.None, PD.None)]];
            (forall q :: q in names + [p] ==> q in data) && Offers(data, names + [p], model) == offers + [Offer(p, cost)]
  {
    var data := before[p := map[model := Cost(PD.Some(cost), PD.None, PD.None)]];
    OffersNext(data, names, p, model, cost);
    OffersAgree(data, before, names, model);
  }

  /** Every sorted list of bare offers is what its catalogue offers, in the order of its sorted providers. */
  lemma {:induction false} PublishOffers(cs: seq<Candidate>, model: string)
    requires Named(cs) && forall i :: 0 <= i < |cs| ==> cs[i].input >= 0.0
    ensures (forall p :: p in Providers(cs) ==> p in Publish(cs, model))
    ensures Offers(Publish(cs, model), Providers(cs), model) == cs
  {
    if cs != [] {
      var init, last := cs[..|cs| - 1], cs[|cs| - 1];
      PublishOffers(init, model);
      NamedIsSorted(cs);
      LastIsNew(cs);
      ProvidersNext(cs);
      OneMorePublished(Publish(init, model), Providers(init), init, last.provider, model, last.input);
      assert cs == init + [Offer(last.provider, last.input)];
    }
  }

  /** The failing input itself: a catalogue with these costs out of which a dearer offer is chosen. */
  lemma MissedInCatalogue(ps: multiset<real>, model: string) returns (data: Catalogue, providers: seq<string>)
    requires Proper(ps) && Crowded(ps)
    ensures Ascending(providers) && Members(providers) == data.Keys && forall p :: p in providers ==> p in data
    ensures var offers := Offers(data, providers, model);
            offers != [] && Costs(offers) == ps && !IsLeast(Choose(offers).input, ps)
  {
    var cs := CrowdedMisses(ps);
    forall i | 0 <= i < |cs| ensures cs[i].input >= 0.0 { CostsHold(cs, cs[i].input); }
    data, providers := Publish(cs, model), Providers(cs);
    PublishKeys(cs, model);
    PublishOffers(cs, model);
  }
}
