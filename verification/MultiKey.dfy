/**
 Managing a channel's list of keys. The row stores the keys in one newline-separated string and
 their state in three maps keyed by position; deletions compact the list and reindex the maps.

 The meaning of a row is a list of entries, one per key, each with its own status, disable time
 and reason. Every action is proved against that list, so reindexing can neither lose nor swap a
 key's state.
 */
module MultiKey {
  import opened Text

  const ENABLED := 1
  const MANUAL := 2
  const AUTO := 3

  datatype Option<+T> = None | Some(value: T)

  datatype Entry = Entry(key: string, status: int, time: Option<int>, reason: Option<string>)

  datatype Action =
    | DisableKey(index: int)
    | EnableKey(index: int)
    | EnableAll
    | DisableAll
    | DeleteKey(index: int)
    | DeleteDisabled

  // ---------------------------------------------------------------- what each action means

  function Cleared(e: Entry): Entry { Entry(e.key, ENABLED, None, None) }

  function ClearAll(es: seq<Entry>): seq<Entry> { seq(|es|, i requires 0 <= i < |es| => Cleared(es[i])) }

  function DisableOne(e: Entry): Entry { if e.status == ENABLED then e.(status := MANUAL) else e }

  function DisableEach(es: seq<Entry>): seq<Entry> { seq(|es|, i requires 0 <= i < |es| => DisableOne(es[i])) }

  function RemoveAt<T>(s: seq<T>, k: nat): seq<T>
    requires k < |s|
  {
    s[..k] + s[k + 1..]
  }

  /** An enabled survivor of a bulk deletion forgets a leftover time and reason. */
  function Kept(e: Entry): Entry { if e.status == ENABLED then Cleared(e) else e }

  function Survivors(es: seq<Entry>): seq<Entry> {
    if es == [] then []
    else
      var rest := Survivors(es[..|es| - 1]);
      if es[|es| - 1].status == AUTO then rest else rest + [Kept(es[|es| - 1])]
  }

  predicate HasAuto(es: seq<Entry>) { exists i :: 0 <= i < |es| && es[i].status == AUTO }

  /** Deleting every auto-disabled key; an emptied list is not stored, only its cleared maps are. */
  function Bulk(es: seq<Entry>): (seq<Entry>, bool) {
    if !HasAuto(es) then (es, false)
    else if Survivors(es) == [] then (ClearAll(es), true)
    else (Survivors(es), true)
  }

  /** The entries after an action, and whether the action was accepted. */
  function Perform(es: seq<Entry>, a: Action): (seq<Entry>, bool) {
    match a
    case DisableKey(k) =>
      if 0 <= k < |es| then (es[k := es[k].(status := MANUAL)], true) else (es, false)
    case EnableKey(k) =>
      if 0 <= k < |es| then (es[k := Cleared(es[k])], true) else (es, false)
    case EnableAll => (ClearAll(es), true)
    case DisableAll => (DisableEach(es), DisableEach(es) != es)
    case DeleteKey(k) =>
      if 0 <= k < |es| && |es| > 1 then (RemoveAt(es, k), true) else (es, false)
    case DeleteDisabled => Bulk(es)
  }

  // ---------------------------------------------------------------- bulk against single deletions

  /** `delete_key` on every auto-disabled position below `n`, from the highest down. */
  function Singles(es: seq<Entry>, n: nat): seq<Entry>
    requires n <= |es|
    decreases n
  {
    if n == 0 then es
    else if es[n - 1].status == AUTO then Singles(Perform(es, DeleteKey(n - 1)).0, n - 1)
    else Singles(es, n - 1)
  }

  /** Same keys with the same statuses, in order: what the key string and the status map hold. */
  ghost predicate SameShape(a: seq<Entry>, b: seq<Entry>) {
    |a| == |b| && forall i :: 0 <= i < |a| ==> a[i].key == b[i].key && a[i].status == b[i].status
  }

  lemma {:induction false} SinglesSplit(a: seq<Entry>, b: seq<Entry>)
    requires Survivors(a) != [] || b != []
    ensures SameShape(Singles(a + b, |a|), Survivors(a) + b)
    decreases |a|
  {
    if a == [] {
      assert a + b == b && Survivors(a) + b == b;
    } else {
      var init, last := a[..|a| - 1], a[|a| - 1];
      assert (a + b)[|a| - 1] == last;
      if last.status == AUTO {
        assert RemoveAt(a + b, |a| - 1) == init + b;
        SinglesSplit(init, b);
      } else {
        assert a + b == init + ([last] + b);
        SinglesSplit(init, [last] + b);
        assert Survivors(a) + b == Survivors(init) + ([Kept(last)] + b);
      }
    }
  }

  lemma {:induction false} SinglesOfAuto(es: seq<Entry>, n: nat)
    requires 1 <= n <= |es| && forall i :: 0 <= i < |es| ==> es[i].status == AUTO
    ensures var left := Singles(es, n); |left| >= 1 && forall i :: 0 <= i < |left| ==> left[i].status == AUTO
    decreases n
  {
    var next := if |es| > 1 then RemoveAt(es, n - 1) else es;
    if n > 1 { SinglesOfAuto(next, n - 1); }
  }

  lemma {:induction false} SurvivorsEmpty(es: seq<Entry>)
    ensures Survivors(es) == [] <==> forall i :: 0 <= i < |es| ==> es[i].status == AUTO
  {
    if es != [] { SurvivorsEmpty(es[..|es| - 1]); }
  }

  lemma {:induction false} SurvivorsAll(es: seq<Entry>)
    requires !HasAuto(es)
    ensures SameShape(Survivors(es), es)
  {
    if es != [] {
      var init := es[..|es| - 1];
      assert !HasAuto(init) by {
        forall i | 0 <= i < |init| ensures init[i].status != AUTO { assert init[i] == es[i]; }
      }
      SurvivorsAll(init);
    }
  }

  /** Deleting everything deletes nothing: all keys come back, enabled. */
  lemma DeleteAllRevives(es: seq<Entry>)
    requires es != [] && forall i :: 0 <= i < |es| ==> es[i].status == AUTO
    ensures Bulk(es) == (ClearAll(es), true)
  {
    SurvivorsEmpty(es);
    assert es[0].status == AUTO;
  }

  lemma BulkEqualsSingles(es: seq<Entry>)
    requires Survivors(es) != []
    ensures SameShape(Bulk(es).0, Singles(es, |es|))
  {
    SinglesSplit(es, []);
    assert es + [] == es && Survivors(es) + [] == Survivors(es);
    if !HasAuto(es) { SurvivorsAll(es); }
  }

  lemma BulkDiffers(es: seq<Entry>)
    requires es != [] && forall i :: 0 <= i < |es| ==> es[i].status == AUTO
    ensures !SameShape(Bulk(es).0, Singles(es, |es|))
  {
    SinglesOfAuto(es, |es|);
    DeleteAllRevives(es);
    assert ClearAll(es)[0].status == ENABLED;
  }

  /**
   A bulk deletion leaves the same keys with the same statuses as deleting each auto-disabled key
   by itself from the last to the first, exactly when some key survives. When every key is
   auto-disabled the single deletions stop at the last one, while the bulk deletion reports
   success and leaves every key in place, enabled.
   */
  lemma BulkEqualsSinglesIff(es: seq<Entry>)
    ensures SameShape(Bulk(es).0, Singles(es, |es|))
            <==> es == [] || exists i :: 0 <= i < |es| && es[i].status != AUTO
  {
    SurvivorsEmpty(es);
    if es != [] {
      if Survivors(es) != [] { BulkEqualsSingles(es); } else { BulkDiffers(es); }
    }
  }

  // ---------------------------------------------------------------- the stored row

  /** The three position-keyed maps and the key list they describe. */
  datatype Info = Info(keys: seq<string>, size: int, status: map<int, int>, time: map<int, int>, reason: map<int, string>)

  function StatusOf(status: map<int, int>, i: int): int { if i in status then status[i] else ENABLED }

  function Lookup<T>(m: map<int, T>, i: int): Option<T> { if i in m then Some(m[i]) else None }

  function EntryAt(info: Info, i: int): Entry
    requires 0 <= i < |info.keys|
  {
    Entry(info.keys[i], StatusOf(info.status, i), Lookup(info.time, i), Lookup(info.reason, i))
  }

  function Entries(info: Info): (es: seq<Entry>)
    ensures |es| == |info.keys|
  {
    seq(|info.keys|, i requires 0 <= i < |info.keys| => EntryAt(info, i))
  }

  ghost predicate Below<T>(m: map<int, T>, n: int) { forall i :: i in m ==> 0 <= i < n }

  /** The size is the key count and no map mentions a position beyond it. */
  ghost predicate Tidy(info: Info) {
    && info.size == |info.keys|
    && Below(info.status, info.size) && Below(info.time, info.size) && Below(info.reason, info.size)
  }

  /** No entry spells out the default. */
  ghost predicate Canonical(status: map<int, int>) { forall i :: i in status ==> status[i] != ENABLED }

  /** In canonical form the shape determines the key list and the status map. */
  lemma ShapeDetermines(a: Info, b: Info)
    requires Tidy(a) && Tidy(b) && Canonical(a.status) && Canonical(b.status)
    requires SameShape(Entries(a), Entries(b))
    ensures a.keys == b.keys && a.status == b.status
  {
    var n := |a.keys|;
    forall i | 0 <= i < n ensures a.keys[i] == b.keys[i] && StatusOf(a.status, i) == StatusOf(b.status, i) {
      assert Entries(a)[i] == EntryAt(a, i) && Entries(b)[i] == EntryAt(b, i);
    }
    forall i | i in a.status ensures i in b.status && a.status[i] == b.status[i] {
      assert StatusOf(b.status, i) == a.status[i];
    }
    forall i | i in b.status ensures i in a.status {
      assert StatusOf(a.status, i) == b.status[i];
    }
  }

  /** One key and its state, put at the next position. */
  function Append(info: Info, e: Entry): Info {
    Info(info.keys + [e.key], info.size + 1,
         if e.status != ENABLED then info.status[info.size := e.status] else info.status,
         if e.time.Some? then info.time[info.size := e.time.value] else info.time,
         if e.reason.Some? then info.reason[info.size := e.reason.value] else info.reason)
  }

  const NOTHING := Info([], 0, map[], map[], map[])

  /** Every key can be stored on a line of its own. */
  ghost predicate Storable(info: Info) { forall i :: 0 <= i < |info.keys| ==> Plain(info.keys[i], '\n') }

  /** What a reindexing loop has built so far. */
  ghost predicate Built(info: Info) {
    Tidy(info) && Canonical(info.status) && Storable(info) && (info.keys == [] ==> info == NOTHING)
  }

  lemma AppendEntry(info: Info, e: Entry)
    requires Built(info) && Plain(e.key, '\n')
    ensures Built(Append(info, e)) && Entries(Append(info, e)) == Entries(info) + [e]
  {
    var next := Append(info, e);
    forall i | 0 <= i < |next.keys| ensures Entries(next)[i] == (Entries(info) + [e])[i] {
      if i < |info.keys| { assert EntryAt(next, i) == EntryAt(info, i); }
    }
  }

  lemma SurvivorsNext(es: seq<Entry>, i: nat)
    requires i < |es|
    ensures Survivors(es[..i + 1]) == if es[i].status == AUTO then Survivors(es[..i]) else Survivors(es[..i]) + [Kept(es[i])]
  {
    assert es[..i + 1][..i] == es[..i];
  }

  /** Something is dropped exactly when some key is auto-disabled. */
  lemma {:induction false} SurvivorsFewer(es: seq<Entry>)
    ensures |Survivors(es)| <= |es|
    ensures |Survivors(es)| < |es| <==> HasAuto(es)
  {
    if es != [] {
      var init := es[..|es| - 1];
      SurvivorsFewer(init);
      if HasAuto(init) {
        var j :| 0 <= j < |init| && init[j].status == AUTO;
        assert es[j].status == AUTO;
      }
      if HasAuto(es) && es[|es| - 1].status != AUTO {
        var j :| 0 <= j < |es| && es[j].status == AUTO;
        assert init[j].status == AUTO;
      }
    }
  }

  /** The first `i` entries, leaving out position `k`. */
  function Skipping(es: seq<Entry>, k: nat, i: nat): seq<Entry>
    requires k < |es| && i <= |es|
  {
    if i <= k then es[..i] else es[..k] + es[k + 1..i]
  }

  lemma SkippingNext(es: seq<Entry>, k: nat, i: nat)
    requires k < |es| && i < |es|
    ensures Skipping(es, k, i + 1) == if i == k then Skipping(es, k, i) else Skipping(es, k, i) + [es[i]]
  {
  }

  // ---------------------------------------------------------------- the row as an object

  class KeyChannel {
    var key: string
    var size: int
    var status: map<int, int>
    var disabledTime: map<int, int>
    var disabledReason: map<int, string>

    function Contents(): Info
      reads this
    {
      Info(Fields(key, '\n'), size, status, disabledTime, disabledReason)
    }

    function Meaning(): seq<Entry>
      reads this
    {
      Entries(Contents())
    }

    ghost predicate Valid()
      reads this
    {
      Tidy(Contents()) && Storable(Contents())
    }

    constructor (keys: seq<string>)
      requires forall i :: 0 <= i < |keys| ==> Plain(keys[i], '\n')
      ensures Valid() && Contents() == Info(keys, |keys|, map[], map[], map[])
    {
      key, size := Join(keys, '\n'), |keys|;
      status, disabledTime, disabledReason := map[], map[], map[];
      FieldsOfJoin(keys, '\n');
    }

    /** Writing an edited row back: an empty key string leaves the stored keys, the size is recounted. */
    method Update(newKey: string, newStatus: map<int, int>, newTime: map<int, int>, newReason: map<int, string>)
      modifies this
      ensures key == if newKey != "" then newKey else old(key)
      ensures size == |Fields(key, '\n')|
      ensures status == map i | i in newStatus && i < size :: newStatus[i]
      ensures disabledTime == newTime && disabledReason == newReason
    {
      if newKey != "" { key := newKey; }
      size := |Fields(key, '\n')|;
      status := newStatus;
      var todo := newStatus.Keys;
      while todo != {}
        invariant todo <= newStatus.Keys && status.Keys <= newStatus.Keys
        invariant forall i :: i in status ==> status[i] == newStatus[i]
        invariant forall i :: i in newStatus ==> (i in status <==> i in todo || i < size)
        invariant key == if newKey != "" then newKey else old(key)
        invariant size == |Fields(key, '\n')|
      {
        var index :| index in todo;
        todo := todo - {index};
        if index >= size { status := status - {index}; }
      }
      assert forall i :: i in status <==> i in newStatus && i < size;
      disabledTime, disabledReason := newTime, newReason;
    }

    /** Writing back maps that are already tidy changes exactly what was edited. */
    method Save(newStatus: map<int, int>, newTime: map<int, int>, newReason: map<int, string>)
      requires Valid()
      requires Below(newStatus, size) && Below(newTime, size) && Below(newReason, size)
      modifies this
      ensures Valid()
      ensures Contents() == old(Contents()).(status := newStatus, time := newTime, reason := newReason)
    {
      Update(key, newStatus, newTime, newReason);
      assert status == newStatus;
    }

    /** Writing back a compacted list; if nothing is left, the stored keys stay. */
    method StoreList(remaining: seq<string>, newStatus: map<int, int>, newTime: map<int, int>, newReason: map<int, string>)
      requires Valid() && Built(Info(remaining, |remaining|, newStatus, newTime, newReason))
      modifies this
      ensures Valid()
      ensures remaining != [] ==> Contents() == Info(remaining, |remaining|, newStatus, newTime, newReason)
      ensures remaining == [] ==> Contents() == Info(old(Contents()).keys, old(size), map[], map[], map[])
    {
      FieldsOfJoin(remaining, '\n');
      if remaining != [] { JoinEnds(remaining, '\n'); }
      Update(Join(remaining, '\n'), newStatus, newTime, newReason);
      assert status == newStatus;
    }

    method DisableKey(index: int) returns (ok: bool)
      requires Valid()
      modifies this
      ensures Valid()
      ensures (Meaning(), ok) == Perform(old(Meaning()), Action.DisableKey(index))
    {
      if index < 0 || index >= size { return false; }
      ghost var es := Meaning();
      Save(status[index := MANUAL], disabledTime, disabledReason);
      assert Meaning() == es[index := es[index].(status := MANUAL)];
      return true;
    }

    method EnableKey(index: int) returns (ok: bool)
      requires Valid()
      modifies this
      ensures Valid()
      ensures (Meaning(), ok) == Perform(old(Meaning()), Action.EnableKey(index))
    {
      if index < 0 || index >= size { return false; }
      ghost var es := Meaning();
      Save(status - {index}, disabledTime - {index}, disabledReason - {index});
      assert Meaning() == es[index := Cleared(es[index])];
      return true;
    }

    method EnableAll() returns (ok: bool)
      requires Valid()
      modifies this
      ensures Valid()
      ensures (Meaning(), ok) == Perform(old(Meaning()), Action.EnableAll)
    {
      ghost var es := Meaning();
      Save(map[], map[], map[]);
      assert Meaning() == ClearAll(es);
      return true;
    }

    method DisableAll() returns (ok: bool)
      requires Valid()
      modifies this
      ensures Valid()
      ensures (Meaning(), ok) == Perform(old(Meaning()), Action.DisableAll)
    {
      ghost var es := Meaning();
      var next, disabledCount := status, 0;
      var i := 0;
      while i < size
        invariant 0 <= i <= size && unchanged(this)
        invariant Below(next, size)
        invariant forall j :: 0 <= j < i ==> StatusOf(next, j) == DisableOne(es[j]).status
        invariant forall j :: i <= j < size ==> StatusOf(next, j) == es[j].status
        invariant disabledCount >= 0
        invariant disabledCount > 0 <==> exists j :: 0 <= j < i && es[j].status == ENABLED
      {
        assert es[i].status == StatusOf(status, i);
        if StatusOf(next, i) == ENABLED {
          next := next[i := MANUAL];
          disabledCount := disabledCount + 1;
        }
        i := i + 1;
      }
      if disabledCount == 0 {
        assert DisableEach(es) == es;
        return false;
      }
      Save(next, disabledTime, disabledReason);
      assert Meaning() == DisableEach(es);
      ghost var j :| 0 <= j < |es| && es[j].status == ENABLED;
      assert DisableEach(es)[j] != es[j];
      return true;
    }

    /** Moves the key at position `i` with its state to the end of the list being built. */
    method CarryOver(built: Info, i: nat, dropEnabled: bool) returns (next: Info)
      requires Valid() && i < size
      ensures next == Append(built, if dropEnabled then Kept(Meaning()[i]) else Meaning()[i])
    {
      var newStatus, newTime, newReason := built.status, built.time, built.reason;
      var keep := !dropEnabled || StatusOf(status, i) != ENABLED;
      if i in status && status[i] != ENABLED { newStatus := newStatus[built.size := status[i]]; }
      if keep && i in disabledTime { newTime := newTime[built.size := disabledTime[i]]; }
      if keep && i in disabledReason { newReason := newReason[built.size := disabledReason[i]]; }
      next := Info(built.keys + [Fields(key, '\n')[i]], built.size + 1, newStatus, newTime, newReason);
    }

    /** The reindexing loop of `delete_key`: everything but one position, moved up. */
    method Without(index: int) returns (info: Info)
      requires Valid() && 0 <= index < size
      ensures Built(info) && Entries(info) == RemoveAt(Meaning(), index)
    {
      ghost var es := Meaning();
      info := NOTHING;
      var i := 0;
      while i < size
        invariant 0 <= i <= size
        invariant Built(info) && Entries(info) == Skipping(es, index, i)
      {
        SkippingNext(es, index, i);
        if i != index {
          AppendEntry(info, es[i]);
          info := CarryOver(info, i, false);
        }
        i := i + 1;
      }
    }

    method DeleteKey(index: int) returns (ok: bool)
      requires Valid()
      modifies this
      ensures Valid()
      ensures (Meaning(), ok) == Perform(old(Meaning()), Action.DeleteKey(index))
      ensures if ok then Canonical(status) else unchanged(this)
    {
      if index < 0 || index >= size { return false; }
      var info := Without(index);
      assert |Entries(info)| == |info.keys|;
      if |info.keys| == 0 { return false; }
      StoreList(info.keys, info.status, info.time, info.reason);
      return true;
    }

    /** The reindexing loop of `delete_disabled_keys`. */
    method Surviving() returns (info: Info, deletedCount: int)
      requires Valid()
      ensures Built(info) && Entries(info) == Survivors(Meaning())
      ensures deletedCount == size - |info.keys|
    {
      ghost var es := Meaning();
      info, deletedCount := NOTHING, 0;
      var i := 0;
      while i < size
        invariant 0 <= i <= size
        invariant Built(info) && Entries(info) == Survivors(es[..i])
        invariant deletedCount == i - |info.keys|
      {
        SurvivorsNext(es, i);
        if StatusOf(status, i) == AUTO {
          deletedCount := deletedCount + 1;
        } else {
          AppendEntry(info, Kept(es[i]));
          info := CarryOver(info, i, true);
        }
        i := i + 1;
      }
      assert es[..size] == es;
    }

    method DeleteDisabled() returns (ok: bool)
      requires Valid()
      modifies this
      ensures Valid()
      ensures (Meaning(), ok) == Perform(old(Meaning()), Action.DeleteDisabled)
      ensures if ok then Canonical(status) else unchanged(this)
    {
      ghost var es := Meaning();
      var info, deletedCount := Surviving();
      SurvivorsFewer(es);
      assert |Entries(info)| == |info.keys|;
      if deletedCount == 0 { return false; }
      StoreList(info.keys, info.status, info.time, info.reason);
      if info.keys == [] {
        assert Entries(info) == [];
        assert Meaning() == ClearAll(es);
      }
      return true;
    }
  }

  // ---------------------------------------------------------------- bulk against single, on stored rows

  /** Equal keys and statuses as they are stored. */
  ghost predicate SameStored(a: KeyChannel, b: KeyChannel)
    reads a, b
  {
    a.Contents().keys == b.Contents().keys && a.status == b.status
  }

  lemma StoredGivesShape(a: Info, b: Info)
    requires a.keys == b.keys && a.status == b.status
    ensures SameShape(Entries(a), Entries(b))
  {
  }

  /** `delete_key` on one position, if it is auto-disabled. */
  method DeleteIfAuto(channel: KeyChannel, i: int) returns (ok: bool)
    requires channel.Valid() && 0 <= i < channel.size
    modifies channel
    ensures channel.Valid() && i <= channel.size
    ensures Singles(channel.Meaning(), i) == Singles(old(channel.Meaning()), i + 1)
    ensures if ok then Canonical(channel.status) && |channel.Meaning()| < |old(channel.Meaning())| else unchanged(channel)
  {
    ok := false;
    assert channel.Meaning()[i].status == StatusOf(channel.status, i);
    if StatusOf(channel.status, i) == AUTO {
      ok := channel.DeleteKey(i);
      assert |channel.Meaning()| == channel.size;
    }
  }

  /** `delete_key` on every auto-disabled position, from the highest down. */
  method DeleteSingly(channel: KeyChannel) returns (deleted: bool)
    requires channel.Valid()
    modifies channel
    ensures channel.Valid() && channel.Meaning() == Singles(old(channel.Meaning()), |old(channel.Meaning())|)
    ensures if deleted then Canonical(channel.status) && |channel.Meaning()| < |old(channel.Meaning())| else unchanged(channel)
  {
    ghost var es := channel.Meaning();
    var i := channel.size;
    deleted := false;
    while i > 0
      invariant 0 <= i <= channel.size && channel.Valid()
      invariant Singles(channel.Meaning(), i) == Singles(es, |es|)
      invariant if deleted then Canonical(channel.status) && |channel.Meaning()| < |es| else unchanged(channel)
      decreases i
    {
      i := i - 1;
      var ok := DeleteIfAuto(channel, i);
      deleted := deleted || ok;
    }
  }

  /** What one of the two ways leaves: the row as it was, or a canonical one with fewer or revived keys. */
  ghost predicate Leaves(before: Info, after: Info, es: seq<Entry>, changed: bool) {
    Tidy(after) && Entries(after) == es && if changed then Canonical(after.status) else after == before
  }

  lemma BothWays(before: Info, a: Info, b: Info, deleted: bool)
    requires Leaves(before, a, Bulk(Entries(before)).0, Bulk(Entries(before)).1)
    requires Leaves(before, b, Singles(Entries(before), |Entries(before)|), deleted)
    requires deleted ==> |Entries(b)| < |Entries(before)|
    ensures var es := Entries(before);
            a.keys == b.keys && a.status == b.status <==> es == [] || exists i :: 0 <= i < |es| && es[i].status != AUTO
  {
    var es := Entries(before);
    BulkEqualsSinglesIff(es);
    SurvivorsEmpty(es);
    if a.keys == b.keys && a.status == b.status {
      StoredGivesShape(a, b);
    } else if Survivors(es) != [] {
      BulkEqualsSingles(es);
      SurvivorsFewer(es);
      if HasAuto(es) { ShapeDetermines(a, b); }
    }
  }

  /**
   Two equal rows, one cleared of its disabled keys in bulk, the other key by key: they are stored with
   the same keys and the same status map exactly when the list was empty or some key survives.
   */
  method DeleteBothWays(bulk: KeyChannel, single: KeyChannel)
    requires bulk != single && bulk.Valid() && single.Valid() && bulk.Contents() == single.Contents()
    modifies bulk, single
    ensures bulk.Valid() && single.Valid()
    ensures var es := old(bulk.Meaning());
            SameStored(bulk, single) <==> es == [] || exists i :: 0 <= i < |es| && es[i].status != AUTO
  {
    ghost var before := bulk.Contents();
    var _ := bulk.DeleteDisabled();
    var deleted := DeleteSingly(single);
    BothWays(before, bulk.Contents(), single.Contents(), deleted);
  }

  // ---------------------------------------------------------------- runs

  function Run(es: seq<Entry>, acts: seq<Action>): seq<Entry>
    decreases |acts|
  {
    if acts == [] then es else Run(Perform(es, acts[0]).0, acts[1..])
  }

  /** Any run of actions on the object keeps it valid and means the modelled run. */
  method Replay(channel: KeyChannel, acts: seq<Action>)
    requires channel.Valid()
    modifies channel
    ensures channel.Valid()
    ensures channel.Meaning() == Run(old(channel.Meaning()), acts)
    decreases |acts|
  {
    if acts != [] {

      match acts[0] {
        case DisableKey(k) => var _ := channel.DisableKey(k);
        case EnableKey(k) => var _ := channel.EnableKey(k);
        case EnableAll => var _ := channel.EnableAll();
        case DisableAll => var _ := channel.DisableAll();
        case DeleteKey(k) => var _ := channel.DeleteKey(k);
        case DeleteDisabled => var _ := channel.DeleteDisabled();
      }
      Replay(channel, acts[1..]);
    }
  }

  /** `from` picks positions below `n` in increasing order. */
  ghost predicate Picks(from: seq<nat>, n: nat) {
    && (forall j :: 0 <= j < |from| ==> from[j] < n)
    && (forall j, k :: 0 <= j < k < |from| ==> from[j] < from[k])
  }

  /** The same key with the same status, time and reason; only an enabled one may have lost both leftovers. */
  predicate Carries(later: Entry, earlier: Entry) {
    && later.key == earlier.key && later.status == earlier.status
    && (later != earlier ==> earlier.status == ENABLED && later.time.None? && later.reason.None?)
  }

  /** Each entry of `later` is an entry of `earlier`, in order, with its own state. */
  ghost predicate Inherits(later: seq<Entry>, earlier: seq<Entry>, from: seq<nat>) {
    && |from| == |later| && Picks(from, |earlier|)
    && forall j :: 0 <= j < |later| ==> Carries(later[j], earlier[from[j]])
  }

  /** Every entry that is not auto-disabled is among those picked, and no other. */
  ghost predicate PicksTheRest(es: seq<Entry>, from: seq<nat>) {
    && Picks(from, |es|)
    && forall i :: 0 <= i < |es| ==> (i in from <==> es[i].status != AUTO)
  }

  lemma PicksOneMore(es: seq<Entry>, from: seq<nat>, e: Entry)
    requires PicksTheRest(es, from)
    ensures e.status == AUTO ==> PicksTheRest(es + [e], from)
    ensures e.status != AUTO ==> PicksTheRest(es + [e], from + [|es|])
  {
    assert |es| !in from;
    forall i | 0 <= i < |es| ensures (es + [e])[i] == es[i] {}
  }

  lemma InheritsMore(later: seq<Entry>, earlier: seq<Entry>, from: seq<nat>, e: Entry)
    requires Inherits(later, earlier, from)
    ensures Inherits(later, earlier + [e], from)
    ensures Inherits(later + [Kept(e)], earlier + [e], from + [|earlier|])
  {
    forall j | 0 <= j < |from| ensures (earlier + [e])[from[j]] == earlier[from[j]] {}
    assert (earlier + [e])[|earlier|] == e;
  }

  lemma {:induction false} SurvivorsInherit(es: seq<Entry>) returns (from: seq<nat>)
    ensures Inherits(Survivors(es), es, from) && PicksTheRest(es, from)
  {
    if es == [] {
      from := [];
    } else {
      var init, last := es[..|es| - 1], es[|es| - 1];
      from := SurvivorsInherit(init);
      assert es == init + [last];
      InheritsMore(Survivors(init), init, from, last);
      PicksOneMore(init, from, last);
      if last.status != AUTO { from := from + [|init|]; }
    }
  }

  lemma {:induction false} SurvivorsForget(es: seq<Entry>)
    ensures forall e :: e in Survivors(es) && e.status == ENABLED ==> e.time.None? && e.reason.None?
  {
    if es != [] { SurvivorsForget(es[..|es| - 1]); }
  }

  /**
   Across the reindexing of a deletion every surviving key keeps its own status, time and reason. A single
   deletion drops one entry and changes no other; a bulk deletion drops exactly the auto-disabled ones, and
   of the others only the enabled ones lose a leftover time and reason.
   */
  lemma DeletionInherits(es: seq<Entry>, a: Action) returns (from: seq<nat>)
    requires a.DeleteKey? || (a.DeleteDisabled? && (es == [] || Survivors(es) != []))
    ensures Inherits(Perform(es, a).0, es, from)
    ensures a.DeleteKey? ==> forall j :: 0 <= j < |from| ==> Perform(es, a).0[j] == es[from[j]]
    ensures Perform(es, a).1 && a.DeleteKey? ==> |from| == |es| - 1 && forall j :: 0 <= j < |from| ==> from[j] != a.index
    ensures Perform(es, a).1 && a.DeleteDisabled? ==> PicksTheRest(es, from)
    ensures Perform(es, a).1 && a.DeleteDisabled? ==>
              forall e :: e in Perform(es, a).0 && e.status == ENABLED ==> e.time.None? && e.reason.None?
  {
    if !Perform(es, a).1 {
      from := seq(|es|, i requires 0 <= i < |es| => i);
    } else if a.DeleteKey? {
      from := seq(|es| - 1, i requires 0 <= i < |es| - 1 => if i < a.index then i else i + 1);
    } else {
      from := SurvivorsInherit(es);
      SurvivorsForget(es);
    }
  }

  /** Deletions compose: state is inherited through any number of them. */
  lemma InheritsThrough(a: seq<Entry>, b: seq<Entry>, c: seq<Entry>, f: seq<nat>, g: seq<nat>)
    requires Inherits(b, a, f) && Inherits(c, b, g)
    ensures Inherits(c, a, seq(|g|, j requires 0 <= j < |g| => f[g[j]]))
  {
    var h: seq<nat> := seq(|g|, j requires 0 <= j < |g| => f[g[j]]);
    forall j, k | 0 <= j < k < |h| ensures h[j] < h[k] { assert g[j] < g[k]; }
    forall j | 0 <= j < |c| ensures Carries(c[j], a[h[j]]) {
      assert Carries(c[j], b[g[j]]) && Carries(b[g[j]], a[f[g[j]]]);
    }
  }

  ghost predicate SameKeys(later: seq<Entry>, earlier: seq<Entry>, from: seq<nat>) {
    && |from| == |later| && Picks(from, |earlier|)
    && forall j :: 0 <= j < |later| ==> later[j].key == earlier[from[j]].key
  }

  /** An action that deletes nothing leaves every key in its place. */
  lemma NothingDeleted(es: seq<Entry>, a: Action)
    requires !a.DeleteKey? && (a.DeleteDisabled? ==> Survivors(es) == [])
    ensures var next := Perform(es, a).0; |next| == |es| && forall j :: 0 <= j < |es| ==> next[j].key == es[j].key
  {
  }

  lemma PerformKeys(es: seq<Entry>, a: Action) returns (from: seq<nat>)
    ensures SameKeys(Perform(es, a).0, es, from)
    ensures es != [] ==> Perform(es, a).0 != []
  {
    if a.DeleteKey? || (a.DeleteDisabled? && Survivors(es) != []) {
      from := DeletionInherits(es, a);
    } else {
      NothingDeleted(es, a);
      from := seq(|es|, i requires 0 <= i < |es| => i);
    }
  }

  lemma SameKeysThrough(a: seq<Entry>, b: seq<Entry>, c: seq<Entry>, f: seq<nat>, g: seq<nat>)
    requires SameKeys(b, a, f) && SameKeys(c, b, g)
    ensures SameKeys(c, a, seq(|g|, j requires 0 <= j < |g| => f[g[j]]))
  {
    var h: seq<nat> := seq(|g|, j requires 0 <= j < |g| => f[g[j]]);
    forall j, k | 0 <= j < k < |h| ensures h[j] < h[k] { assert g[j] < g[k]; }
  }

  /** Over every run the key list only ever loses keys, never all of them; none is moved or invented. */
  lemma {:induction false} RunOnlyLosesKeys(es: seq<Entry>, acts: seq<Action>) returns (from: seq<nat>)
    ensures SameKeys(Run(es, acts), es, from)
    ensures es != [] ==> Run(es, acts) != []
    decreases |acts|
  {
    if acts == [] {
      from := seq(|es|, i requires 0 <= i < |es| => i);
    } else {
      var next := Perform(es, acts[0]).0;
      var first := PerformKeys(es, acts[0]);
      var rest := RunOnlyLosesKeys(next, acts[1..]);
      SameKeysThrough(es, next, Run(next, acts[1..]), first, rest);
      from := seq(|rest|, j requires 0 <= j < |rest| => first[rest[j]]);
    }
  }

  /** Disabling all keys disables the enabled ones by hand, with time and reason as they were. */
  lemma DisableAllIsManual(es: seq<Entry>, i: nat)
    requires i < |es|
    ensures var next := Perform(es, DisableAll).0;
            |next| == |es| && next[i] == if es[i].status == ENABLED then es[i].(status := MANUAL) else es[i]
    ensures Perform(es, DisableAll).1 <==> exists j :: 0 <= j < |es| && es[j].status == ENABLED
  {
    var next := Perform(es, DisableAll).0;
    if j :| 0 <= j < |es| && es[j].status == ENABLED {
      assert next[j] != es[j];
    } else {
      assert next == es;
    }
  }

  /** So a bulk deletion afterwards removes the keys that were auto-disabled before, and leaves the others untouched. */
  lemma DisabledByHandStay(es: seq<Entry>) returns (from: seq<nat>)
    requires exists i :: 0 <= i < |es| && es[i].status == AUTO
    requires exists i :: 0 <= i < |es| && es[i].status != AUTO
    ensures var disabled := Perform(es, DisableAll).0;
            var left := Perform(disabled, DeleteDisabled).0;
            && |disabled| == |es| && |left| == |from| && PicksTheRest(es, from)
            && forall j :: 0 <= j < |from| ==> left[j] == disabled[from[j]] && left[j].status != ENABLED
  {
    var disabled := Perform(es, DisableAll).0;
    forall i | 0 <= i < |es| ensures disabled[i].status == AUTO <==> es[i].status == AUTO { DisableAllIsManual(es, i); }
    SurvivorsEmpty(disabled);
    from := SurvivorsInherit(disabled);
    forall j | 0 <= j < |from| ensures Survivors(disabled)[j] == disabled[from[j]] && disabled[from[j]].status != ENABLED {
      DisableAllIsManual(es, from[j]);
      assert Carries(Survivors(disabled)[j], disabled[from[j]]);
    }
  }
}
