/**
 The list algebra of model names: lists are kept trimmed, non-empty and free of duplicates, and
 every operation preserves the order of first appearance.
 */
module ModelNames {
  import opened Text

  /** Not blank, and nothing to trim. */
  predicate Proper(name: string) { name != "" && TrimSpace(name) == name }

  /** A list in normal form. */
  ghost predicate Clean(names: seq<string>) {
    && Distinct(names)
    && forall x :: x in names ==> Proper(x)
  }

  function TrimAll(models: seq<string>): seq<string> {
    if models == [] then []
    else
      var rest := TrimAll(models[..|models| - 1]);
      var trimmed := TrimSpace(models[|models| - 1]);
      if trimmed != "" then rest + [trimmed] else rest
  }

  /** First occurrences, in order. */
  function Uniq(s: seq<string>): seq<string> {
    if s == [] then []
    else
      var rest := Uniq(s[..|s| - 1]);
      if s[|s| - 1] in rest then rest else rest + [s[|s| - 1]]
  }

  function Normalize(models: seq<string>): seq<string> { Uniq(TrimAll(models)) }

  lemma {:induction false} TrimAllMembers(models: seq<string>)
    ensures forall x :: x in TrimAll(models) ==> Proper(x)
    ensures forall x :: x in TrimAll(models) <==> x != "" && exists m :: m in models && TrimSpace(m) == x
  {
    if models != [] {
      var init, last := models[..|models| - 1], models[|models| - 1];
      TrimAllMembers(init);
      TrimTrims(last, IsSpace);
      TrimTrims(TrimSpace(last), IsSpace);
      assert models == init + [last];
    }
  }

  lemma {:induction false} UniqMembers(s: seq<string>)
    ensures Distinct(Uniq(s))
    ensures forall x :: x in Uniq(s) <==> x in s
    ensures Distinct(s) ==> Uniq(s) == s
  {
    if s != [] {
      UniqMembers(s[..|s| - 1]);
      assert s == s[..|s| - 1] + [s[|s| - 1]];
    }
  }

  lemma {:induction false} TrimAllClean(s: seq<string>)
    requires forall x :: x in s ==> Proper(x)
    ensures TrimAll(s) == s
  {
    if s != [] {
      assert Proper(s[|s| - 1]);
      TrimAllClean(s[..|s| - 1]);
    }
  }

  /** Normalizing keeps exactly the trimmed non-blank names. */
  lemma NormalizeMembers(models: seq<string>)
    ensures forall x :: x in Normalize(models) <==> x != "" && exists m :: m in models && TrimSpace(m) == x
  {
    TrimAllMembers(models);
    UniqMembers(TrimAll(models));
  }

  /** Normalizing reaches normal form and is a fixed point there. */
  lemma NormalizeClean(models: seq<string>)
    ensures Clean(Normalize(models))
    ensures Clean(models) ==> Normalize(models) == models
  {
    TrimAllMembers(models);
    UniqMembers(TrimAll(models));
    if Clean(models) {
      TrimAllClean(models);
      UniqMembers(models);
    }
  }

  function Names(s: seq<string>): set<string> { set x | x in s }

  function Merge(base: seq<string>, appended: seq<string>): seq<string> {
    var b, extra := Normalize(base), Normalize(appended);
    b + Keep(extra, Names(extra) - Names(b))
  }

  function Subtract(base: seq<string>, removed: seq<string>): seq<string> {
    var b := Normalize(base);
    Keep(b, Names(b) - Names(Normalize(removed)))
  }

  function Intersect(base: seq<string>, allowed: seq<string>): seq<string> {
    Keep(Normalize(base), Names(Normalize(allowed)))
  }

  /** The accumulator loop of `mergeModelNames`: a set of seen names and a growing list. */
  method MergeModelNames(base: seq<string>, appended: seq<string>) returns (merged: seq<string>)
    ensures merged == Merge(base, appended)
  {
    merged := Normalize(base);
    ghost var b := merged;
    var seen := set x | x in merged;
    var extra := Normalize(appended);
    NormalizeClean(appended);
    var i := 0;
    while i < |extra|
      invariant 0 <= i <= |extra|
      invariant merged == b + Keep(extra[..i], Names(extra) - Names(b))
      invariant forall x :: x in seen <==> x in b || x in extra[..i]
    {
      KeepNext(extra, i, Names(extra) - Names(b));
      if extra[i] !in seen {
        seen := seen + {extra[i]};
        merged := merged + [extra[i]];
      }
      i := i + 1;
    }
    assert extra[..i] == extra;
  }

  lemma MergeClean(base: seq<string>, appended: seq<string>)
    ensures Clean(Merge(base, appended))
    ensures Names(Merge(base, appended)) == Names(Normalize(base)) + Names(Normalize(appended))
  {
    var b, extra := Normalize(base), Normalize(appended);
    NormalizeClean(base);
    NormalizeClean(appended);
    KeepMembers(extra, Names(extra) - Names(b));
    DistinctConcat(b, Keep(extra, Names(extra) - Names(b)));
  }

  lemma SubtractClean(base: seq<string>, removed: seq<string>)
    ensures Clean(Subtract(base, removed))
    ensures Names(Subtract(base, removed)) == Names(Normalize(base)) - Names(Normalize(removed))
  {
    NormalizeClean(base);
    KeepMembers(Normalize(base), Names(Normalize(base)) - Names(Normalize(removed)));
  }

  lemma IntersectClean(base: seq<string>, allowed: seq<string>)
    ensures Clean(Intersect(base, allowed))
    ensures Names(Intersect(base, allowed)) == Names(Normalize(base)) * Names(Normalize(allowed))
  {
    NormalizeClean(base);
    KeepMembers(Normalize(base), Names(Normalize(allowed)));
  }

  /** The selected changes; a name both added and removed is kept. */
  function ApplySelected(origin: seq<string>, add: seq<string>, remove: seq<string>): seq<string> {
    var a := Normalize(add);
    Subtract(Merge(origin, a), Subtract(Normalize(remove), a))
  }

  /** Exactly the kept originals in their order, then the names that were really added. */
  lemma ApplySelectedMeans(origin: seq<string>, add: seq<string>, remove: seq<string>)
    ensures Clean(ApplySelected(origin, add, remove))
    ensures var o, a, r := Normalize(origin), Normalize(add), Normalize(remove);
            ApplySelected(origin, add, remove)
            == Keep(o, Names(o) - (Names(r) - Names(a))) + Keep(a, Names(a) - Names(o))
  {
    var o, a, r := Normalize(origin), Normalize(add), Normalize(remove);
    NormalizeClean(origin);
    NormalizeClean(add);
    NormalizeClean(remove);
    NormalizeClean(a);
    NormalizeClean(r);
    var dropped, merged := Subtract(r, a), Merge(origin, a);
    SubtractClean(r, a);
    MergeClean(origin, a);
    NormalizeClean(merged);
    NormalizeClean(dropped);
    SubtractClean(merged, dropped);
    var added, kept := Keep(a, Names(a) - Names(o)), Names(merged) - Names(dropped);
    KeepMembers(a, Names(a) - Names(o));
    assert merged == o + added;
    KeepConcat(o, added, kept);
    KeepAll(added, kept);
    KeepAgree(o, kept, Names(o) - (Names(r) - Names(a)));
  }
}
