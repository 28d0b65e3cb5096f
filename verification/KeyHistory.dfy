/**
 Following one key through a run of actions: where it stands afterwards, and which actions were aimed
 at it. Every entry left at the end is its starting entry under exactly those, in the starting order.
 */
module KeyHistory {
  import opened MultiKey

  /** What an action does to a single entry. */
  datatype Touch = Disable | Clear | DisableIfEnabled | Tidy

  function Touched(e: Entry, t: Touch): Entry {
    match t
    case Disable => e.(status := MANUAL)
    case Clear => Entry(e.key, ENABLED, None, None)
    case DisableIfEnabled => if e.status == ENABLED then e.(status := MANUAL) else e
    case Tidy => if e.status == ENABLED then Entry(e.key, ENABLED, None, None) else e
  }

  function Under(e: Entry, ts: seq<Touch>): Entry
    decreases |ts|
  {
    if ts == [] then e else Under(Touched(e, ts[0]), ts[1..])
  }

  // ---------------------------------------------------------------- one action

  /** A bulk deletion that really deletes: something is auto-disabled and something is not. */
  predicate Culls(es: seq<Entry>) { HasAuto(es) && Survivors(es) != [] }

  /** The touches an action aims at position `i`. */
  function Aimed(es: seq<Entry>, a: Action, i: nat): seq<Touch> {
    match a
    case DisableKey(k) => if k == i then [Disable] else []
    case EnableKey(k) => if k == i then [Clear] else []
    case EnableAll => [Clear]
    case DisableAll => [DisableIfEnabled]
    case DeleteKey(_) => []
    case DeleteDisabled => if Culls(es) then [Tidy] else if HasAuto(es) then [Clear] else []
  }

  /** Where the entry at `i` stands after an action; nowhere once it is deleted. */
  ghost function Moved(es: seq<Entry>, a: Action, i: nat): (r: Option<nat>)
    requires i < |es|
    ensures r.Some? ==> r.value < |Perform(es, a).0|
  {
    match a
    case DeleteKey(k) =>
      if !(0 <= k < |es| && |es| > 1) then Some(i)
      else if i == k then None
      else if i < k then Some(i) else Some(i - 1)
    case DeleteDisabled =>
      if !Culls(es) then Some(i)
      else if es[i].status == AUTO then None
      else
        SurvivorAt(es, i);
        Some(|Survivors(es[..i])|)
    case _ => Some(i)
  }

  lemma {:induction false} SurvivorAt(es: seq<Entry>, i: nat)
    requires i < |es| && es[i].status != AUTO
    ensures var p := |Survivors(es[..i])|; p < |Survivors(es)| && Survivors(es)[p] == Kept(es[i])
    decreases |es|
  {
    var init := es[..|es| - 1];
    if i < |init| {
      SurvivorAt(init, i);
      assert init[..i] == es[..i];
    }
  }

  lemma {:induction false} SurvivorFrom(es: seq<Entry>, p: nat) returns (i: nat)
    requires p < |Survivors(es)|
    ensures i < |es| && es[i].status != AUTO && |Survivors(es[..i])| == p
    decreases |es|
  {
    var init := es[..|es| - 1];
    if p < |Survivors(init)| {
      i := SurvivorFrom(init, p);
      assert init[..i] == es[..i];
    } else {
      i := |init|;
    }
  }

  lemma ActionFollows(es: seq<Entry>, a: Action, i: nat)
    requires i < |es| && Moved(es, a, i).Some?
    ensures Perform(es, a).0[Moved(es, a, i).value] == Under(es[i], Aimed(es, a, i))
  {
    if a.DeleteDisabled? && Culls(es) { SurvivorAt(es, i); }
    var ts := Aimed(es, a, i);
    if ts != [] { assert Under(es[i], ts) == Under(Touched(es[i], ts[0]), []) by { assert ts[1..] == []; } }
  }

  lemma ActionOnto(es: seq<Entry>, a: Action, p: nat) returns (i: nat)
    requires p < |Perform(es, a).0|
    ensures i < |es| && Moved(es, a, i) == Some(p)
  {
    match a {
      case DeleteKey(k) => i := if 0 <= k < |es| && |es| > 1 && p >= k then p + 1 else p;
      case DeleteDisabled => if Culls(es) { i := SurvivorFrom(es, p); } else { i := p; }
      case _ => i := p;
    }
  }

  lemma ActionKeepsOrder(es: seq<Entry>, a: Action, i: nat, j: nat)
    requires i < j < |es| && Moved(es, a, i).Some? && Moved(es, a, j).Some?
    ensures Moved(es, a, i).value < Moved(es, a, j).value
  {
    if a.DeleteDisabled? && Culls(es) {
      SurvivorAt(es[..j], i);
      assert es[..j][..i] == es[..i];
    }
  }

  // ---------------------------------------------------------------- whole runs

  ghost function Place(es: seq<Entry>, acts: seq<Action>, i: nat): (r: Option<nat>)
    requires i < |es|
    ensures r.Some? ==> r.value < |Run(es, acts)|
    decreases |acts|
  {
    if acts == [] then Some(i)
    else
      var p := Moved(es, acts[0], i);
      if p.None? then None else Place(Perform(es, acts[0]).0, acts[1..], p.value)
  }

  /** Everything a run aimed at the entry that started at `i`, in order, while it was there. */
  ghost function History(es: seq<Entry>, acts: seq<Action>, i: nat): seq<Touch>
    requires i < |es|
    decreases |acts|
  {
    if acts == [] then []
    else
      var p := Moved(es, acts[0], i);
      Aimed(es, acts[0], i) + if p.None? then [] else History(Perform(es, acts[0]).0, acts[1..], p.value)
  }

  lemma {:induction false} UnderBoth(e: Entry, s: seq<Touch>, t: seq<Touch>)
    ensures Under(e, s + t) == Under(Under(e, s), t)
    decreases |s|
  {
    if s == [] {
      assert s + t == t;
    } else {
      assert (s + t)[1..] == s[1..] + t;
      UnderBoth(Touched(e, s[0]), s[1..], t);
    }
  }

  /** A key's history never changes the key itself. */
  lemma {:induction false} KeyStays(e: Entry, ts: seq<Touch>)
    ensures Under(e, ts).key == e.key
    decreases |ts|
  {
    if ts != [] { KeyStays(Touched(e, ts[0]), ts[1..]); }
  }

  /** Over every run an entry that survives is its starting entry under exactly what was aimed at it. */
  lemma {:induction false} EntryFollows(es: seq<Entry>, acts: seq<Action>, i: nat)
    requires i < |es| && Place(es, acts, i).Some?
    ensures Run(es, acts)[Place(es, acts, i).value] == Under(es[i], History(es, acts, i))
    ensures Run(es, acts)[Place(es, acts, i).value].key == es[i].key
    decreases |acts|
  {
    KeyStays(es[i], History(es, acts, i));
    if acts != [] {
      var p, next := Moved(es, acts[0], i).value, Perform(es, acts[0]).0;
      ActionFollows(es, acts[0], i);
      EntryFollows(next, acts[1..], p);
      UnderBoth(es[i], Aimed(es, acts[0], i), History(next, acts[1..], p));
    }
  }

  /** Over every run no entry is invented: each one left was there at the start. */
  lemma {:induction false} EntryComesFrom(es: seq<Entry>, acts: seq<Action>, p: nat) returns (i: nat)
    requires p < |Run(es, acts)|
    ensures i < |es| && Place(es, acts, i) == Some(p) && Run(es, acts)[p] == Under(es[i], History(es, acts, i))
    ensures Run(es, acts)[p].key == es[i].key
    decreases |acts|
  {
    if acts == [] {
      i := p;
    } else {
      var q := EntryComesFrom(Perform(es, acts[0]).0, acts[1..], p);
      i := ActionOnto(es, acts[0], q);
    }
    EntryFollows(es, acts, i);
  }

  /** Over every run the survivors stay in their starting order, so that no two share a place. */
  lemma {:induction false} OrderIsKept(es: seq<Entry>, acts: seq<Action>, i: nat, j: nat)
    requires i < j < |es| && Place(es, acts, i).Some? && Place(es, acts, j).Some?
    ensures Place(es, acts, i).value < Place(es, acts, j).value
    decreases |acts|
  {
    if acts != [] {
      ActionKeepsOrder(es, acts[0], i, j);
      OrderIsKept(Perform(es, acts[0]).0, acts[1..], Moved(es, acts[0], i).value, Moved(es, acts[0], j).value);
    }
  }
}
