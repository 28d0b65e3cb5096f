/**
 The global usage counters of the body storages, against the storages themselves: over every run
 of creations and (possibly repeated) closings the counters are the counts and byte totals of what
 is open, and the disk budget is kept.
 */
module StorageAccounting {

  datatype Config = Config(enabled: bool, thresholdMB: int, maxSizeMB: int) {
    function Threshold(): int { thresholdMB * 1_048_576 }
    function MaxSize(): int { maxSizeMB * 1_048_576 }
  }

  datatype Storage = Storage(disk: bool, size: nat, open: bool)

  /** The four counters, and every storage ever created. */
  datatype Ledger = Ledger(files: int, diskBytes: int, buffers: int, memoryBytes: int, storages: seq<Storage>)

  const FRESH := Ledger(0, 0, 0, 0, [])

  /** What a creation can meet: the sizes, and whether reading the body or writing the cache file fails. */
  datatype Event =
    | Create(size: nat, diskFails: bool)
    | CreateFromReader(declared: int, body: nat, maxBytes: int, readFails: bool, diskFails: bool)
    | Close(which: nat)

  predicate Available(cfg: Config, l: Ledger, size: int) {
    cfg.enabled && l.diskBytes + size <= cfg.MaxSize()
  }

  function AddDisk(l: Ledger, size: nat): Ledger {
    Ledger(l.files + 1, l.diskBytes + size, l.buffers, l.memoryBytes, l.storages + [Storage(true, size, true)])
  }

  function AddMemory(l: Ledger, size: nat): Ledger {
    Ledger(l.files, l.diskBytes, l.buffers + 1, l.memoryBytes + size, l.storages + [Storage(false, size, true)])
  }

  function CreateStorage(cfg: Config, l: Ledger, size: nat, diskFails: bool): Ledger {
    if cfg.enabled && size >= cfg.Threshold() && Available(cfg, l, size) && !diskFails
    then AddDisk(l, size) else AddMemory(l, size)
  }

  /** Streaming creation decides by the declared length, but stores what really arrives. */
  function CreateStreamed(cfg: Config, l: Ledger, e: Event): Ledger
    requires e.CreateFromReader?
  {
    if cfg.enabled && e.declared > 0 && e.declared >= cfg.Threshold() && Available(cfg, l, e.declared) then
      if e.readFails || e.diskFails || e.body > e.maxBytes then l else AddDisk(l, e.body)
    else if e.readFails || e.body > e.maxBytes then l
    else CreateStorage(cfg, l, e.body, e.diskFails)
  }

  /** Never below zero: the floor in the disk counters. */
  function Floored(n: int): int { if n < 0 then 0 else n }

  function CloseStorage(l: Ledger, k: nat): Ledger {
    if k >= |l.storages| || !l.storages[k].open then l
    else
      var s := l.storages[k];
      var after := l.storages[k := s.(open := false)];
      if s.disk then Ledger(Floored(l.files - 1), Floored(l.diskBytes - s.size), l.buffers, l.memoryBytes, after)
      else Ledger(l.files, l.diskBytes, l.buffers - 1, l.memoryBytes - s.size, after)
  }

  function Step(cfg: Config, l: Ledger, e: Event): Ledger {
    match e
    case Create(size, diskFails) => CreateStorage(cfg, l, size, diskFails)
    case CreateFromReader(_, _, _, _, _) => CreateStreamed(cfg, l, e)
    case Close(k) => CloseStorage(l, k)
  }

  function Run(cfg: Config, l: Ledger, es: seq<Event>): Ledger
    decreases |es|
  {
    if es == [] then l else Run(cfg, Step(cfg, l, es[0]), es[1..])
  }

  const MEGABYTE := 1_048_576

  /** A plain creation goes to disk exactly when that is on, worth it, within the budget and works; else to memory. */
  lemma CreatedWhere(cfg: Config, l: Ledger, size: nat, diskFails: bool)
    ensures var next := Step(cfg, l, Create(size, diskFails));
            var disk := cfg.enabled && size >= cfg.thresholdMB * MEGABYTE
                        && l.diskBytes + size <= cfg.maxSizeMB * MEGABYTE && !diskFails;
            && next.storages == l.storages + [Storage(disk, size, true)]
            && next.diskBytes == l.diskBytes + (if disk then size else 0) && next.files == l.files + (if disk then 1 else 0)
            && next.memoryBytes == l.memoryBytes + (if disk then 0 else size)
            && next.buffers == l.buffers + (if disk then 0 else 1)
  {
  }

  /** A streamed creation is refused when reading fails or the body is too long, or the disk chosen by length fails. */
  lemma StreamedWhere(cfg: Config, l: Ledger, e: Event)
    requires e.CreateFromReader?
    ensures var next := Step(cfg, l, e);
            var streams := cfg.enabled && e.declared > 0 && e.declared >= cfg.thresholdMB * MEGABYTE
                           && l.diskBytes + e.declared <= cfg.maxSizeMB * MEGABYTE;
            if e.readFails || e.body > e.maxBytes || (streams && e.diskFails) then next == l
            else if streams then next.storages == l.storages + [Storage(true, e.body, true)]
            else next == Step(cfg, l, Create(e.body, e.diskFails))
  {
  }

  // ---------------------------------------------------------------- the totals

  function Count(ss: seq<Storage>, disk: bool): nat {
    if ss == [] then 0 else Count(ss[1..], disk) + if ss[0].open && ss[0].disk == disk then 1 else 0
  }

  function Total(ss: seq<Storage>, disk: bool): nat {
    if ss == [] then 0 else Total(ss[1..], disk) + if ss[0].open && ss[0].disk == disk then ss[0].size else 0
  }

  /** Every counter equals the count or byte total over the open storages. */
  ghost predicate Balanced(l: Ledger) {
    && l.files == Count(l.storages, true) && l.diskBytes == Total(l.storages, true)
    && l.buffers == Count(l.storages, false) && l.memoryBytes == Total(l.storages, false)
  }

  lemma {:induction false} Appended(ss: seq<Storage>, s: Storage, disk: bool)
    ensures Count(ss + [s], disk) == Count(ss, disk) + if s.open && s.disk == disk then 1 else 0
    ensures Total(ss + [s], disk) == Total(ss, disk) + if s.open && s.disk == disk then s.size else 0
  {
    if ss == [] {
      assert [] + [s] == [s];
      assert [s][1..] == [];
    } else {
      assert (ss + [s])[1..] == ss[1..] + [s];
      Appended(ss[1..], s, disk);
    }
  }

  lemma {:induction false} Closed(ss: seq<Storage>, k: nat, disk: bool)
    requires k < |ss| && ss[k].open
    ensures var after := ss[k := ss[k].(open := false)];
            && Count(after, disk) == Count(ss, disk) - (if ss[k].disk == disk then 1 else 0)
            && Total(after, disk) == Total(ss, disk) - (if ss[k].disk == disk then ss[k].size else 0)
  {
    var after := ss[k := ss[k].(open := false)];
    if k == 0 {
      assert after[1..] == ss[1..];
    } else {
      assert after[1..] == ss[1..][k - 1 := ss[k].(open := false)];
      Closed(ss[1..], k - 1, disk);
    }
  }

  lemma StepBalanced(cfg: Config, l: Ledger, e: Event)
    requires Balanced(l)
    ensures Balanced(Step(cfg, l, e))
  {
    match e
    case Create(size, _) =>
      AppendedBoth(l.storages, size);
    case CreateFromReader(_, body, _, _, _) =>
      AppendedBoth(l.storages, body);
    case Close(k) =>
      if k < |l.storages| && l.storages[k].open {
        Closed(l.storages, k, true);
        Closed(l.storages, k, false);
      }
  }

  lemma AppendedBoth(ss: seq<Storage>, size: nat)
    ensures forall disk :: Count(ss + [Storage(disk, size, true)], disk) == Count(ss, disk) + 1
    ensures forall disk :: Total(ss + [Storage(disk, size, true)], disk) == Total(ss, disk) + size
    ensures forall disk :: Count(ss + [Storage(!disk, size, true)], disk) == Count(ss, disk)
    ensures forall disk :: Total(ss + [Storage(!disk, size, true)], disk) == Total(ss, disk)
  {
    Appended(ss, Storage(true, size, true), true);
    Appended(ss, Storage(true, size, true), false);
    Appended(ss, Storage(false, size, true), true);
    Appended(ss, Storage(false, size, true), false);
  }

  /** Over every run the counters balance, closings repeated or not, failures included. */
  lemma {:induction false} CountersBalance(cfg: Config, l: Ledger, es: seq<Event>)
    requires Balanced(l)
    ensures Balanced(Run(cfg, l, es))
    decreases |es|
  {
    if es != [] {
      StepBalanced(cfg, l, es[0]);
      CountersBalance(cfg, Step(cfg, l, es[0]), es[1..]);
    }
  }

  /** The floor in the disk counters never fires: a closing always finds its own share there. */
  lemma FloorNeverFires(cfg: Config, es: seq<Event>, k: nat)
    ensures var l := Run(cfg, FRESH, es);
            k < |l.storages| && l.storages[k].open && l.storages[k].disk ==>
              l.files - 1 >= 0 && l.diskBytes - l.storages[k].size >= 0
  {
    CountersBalance(cfg, FRESH, es);
    var l := Run(cfg, FRESH, es);
    if k < |l.storages| && l.storages[k].open { Closed(l.storages, k, true); }
  }

  lemma {:induction false} AllClosedIsZero(ss: seq<Storage>, disk: bool)
    requires forall i :: 0 <= i < |ss| ==> !ss[i].open
    ensures Count(ss, disk) == 0 && Total(ss, disk) == 0
  {
    if ss != [] { AllClosedIsZero(ss[1..], disk); }
  }

  /** In every run closing an open storage takes its own share off its two counters; closing it again changes nothing. */
  lemma ClosingFrees(cfg: Config, es: seq<Event>, k: nat)
    ensures var l := Run(cfg, FRESH, es); var next := Step(cfg, l, Close(k));
            && (k < |l.storages| && l.storages[k].open ==>
                  && next.storages == l.storages[k := l.storages[k].(open := false)]
                  && next.diskBytes + next.memoryBytes == l.diskBytes + l.memoryBytes - l.storages[k].size
                  && next.files + next.buffers == l.files + l.buffers - 1
                  && (if l.storages[k].disk then next.memoryBytes == l.memoryBytes && next.buffers == l.buffers
                      else next.diskBytes == l.diskBytes && next.files == l.files))
            && (k >= |l.storages| || !l.storages[k].open ==> next == l)
            && Step(cfg, next, Close(k)) == next
  {
    FloorNeverFires(cfg, es, k);
  }

  /** Nothing leaks: when every storage a run created has been closed, all four counters are zero again. */
  lemma NothingOpenNothingCounted(cfg: Config, es: seq<Event>)
    ensures var l := Run(cfg, FRESH, es);
            (forall i :: 0 <= i < |l.storages| ==> !l.storages[i].open) ==>
              l.files == 0 && l.diskBytes == 0 && l.buffers == 0 && l.memoryBytes == 0
  {
    CountersBalance(cfg, FRESH, es);
    var l := Run(cfg, FRESH, es);
    if forall i :: 0 <= i < |l.storages| ==> !l.storages[i].open {
      AllClosedIsZero(l.storages, true);
      AllClosedIsZero(l.storages, false);
    }
  }

  // ---------------------------------------------------------------- the disk budget

  function Budget(cfg: Config): int { if cfg.MaxSize() < 0 then 0 else cfg.MaxSize() }

  ghost predicate Within(cfg: Config, l: Ledger) { Balanced(l) && l.diskBytes <= Budget(cfg) }

  /** A streamed creation that goes to disk on its declared length and stores more than it declared. */
  predicate Understated(cfg: Config, e: Event) {
    && e.CreateFromReader?
    && cfg.enabled && e.declared > 0 && cfg.Threshold() <= e.declared <= cfg.MaxSize()
    && !e.readFails && !e.diskFails && e.declared < e.body <= e.maxBytes
  }

  lemma StepWithinBudget(cfg: Config, l: Ledger, e: Event)
    requires Within(cfg, l) && !Understated(cfg, e)
    ensures Within(cfg, Step(cfg, l, e))
  {
    StepBalanced(cfg, l, e);
    if e.Close? && e.which < |l.storages| && l.storages[e.which].open {
      Closed(l.storages, e.which, true);
    }
  }

  ghost predicate Plain(cfg: Config, es: seq<Event>) {
    forall i :: 0 <= i < |es| ==> !Understated(cfg, es[i])
  }

  /** The operation can come after any run that understates nothing and never break the budget. */
  ghost predicate AlwaysFits(cfg: Config, e: Event) {
    forall es :: Plain(cfg, es) ==> Run(cfg, FRESH, es + [e]).diskBytes <= Budget(cfg)
  }

  /** One creation that fills the budget up to what `e` declares, by the route its size allows. */
  function Filling(cfg: Config, e: Event): Event
    requires Understated(cfg, e)
  {
    var left := cfg.MaxSize() - e.declared;
    if left >= cfg.Threshold() then Create(left, false)
    else CreateFromReader(e.declared, left, left, false, false)
  }

  lemma FillingFills(cfg: Config, e: Event)
    requires Understated(cfg, e)
    ensures !Understated(cfg, Filling(cfg, e))
    ensures Step(cfg, FRESH, Filling(cfg, e)).diskBytes == cfg.MaxSize() - e.declared
  {
  }

  /** Two operations, the first of them plain, that leave more on disk than the budget. */
  lemma UnderstatedOverruns(cfg: Config, e: Event)
    requires Understated(cfg, e)
    ensures Plain(cfg, [Filling(cfg, e)]) && Run(cfg, FRESH, [Filling(cfg, e)] + [e]).diskBytes > Budget(cfg)
  {
    var first := Filling(cfg, e);
    FillingFills(cfg, e);
    var l := Step(cfg, FRESH, first);
    assert ([first] + [e])[1..] == [e] && [e][1..] == [];
    assert Run(cfg, l, [e]) == Run(cfg, Step(cfg, l, e), []);
  }

  /** An operation fits after every plain run exactly when it does not understate its length. */
  lemma KeepsBudgetIff(cfg: Config, e: Event)
    ensures AlwaysFits(cfg, e) <==> !Understated(cfg, e)
  {
    if Understated(cfg, e) {
      UnderstatedOverruns(cfg, e);
    } else {
      forall es | Plain(cfg, es) ensures Run(cfg, FRESH, es + [e]).diskBytes <= Budget(cfg) {
        UsageWithinBudget(cfg, FRESH, es + [e]);
      }
    }
  }

  /** Under a fixed configuration disk usage stays within the maximum on every run that understates nothing. */
  lemma {:induction false} UsageWithinBudget(cfg: Config, l: Ledger, es: seq<Event>)
    requires Within(cfg, l) && Plain(cfg, es)
    ensures Within(cfg, Run(cfg, l, es))
    decreases |es|
  {
    if es != [] {
      StepWithinBudget(cfg, l, es[0]);
      UsageWithinBudget(cfg, Step(cfg, l, es[0]), es[1..]);
    }
  }

  // ---------------------------------------------------------------- the counters as they are kept

  class Stats {
    var activeDiskFiles: int
    var currentDiskUsageBytes: int
    var activeMemoryBuffers: int
    var currentMemoryUsageBytes: int
    var storages: seq<Storage>
    const cfg: Config

    constructor (cfg: Config)
      ensures Contents() == FRESH && this.cfg == cfg
    {
      this.cfg := cfg;
      activeDiskFiles, currentDiskUsageBytes, activeMemoryBuffers, currentMemoryUsageBytes := 0, 0, 0, 0;
      storages := [];
    }

    function Contents(): Ledger
      reads this
    {
      Ledger(activeDiskFiles, currentDiskUsageBytes, activeMemoryBuffers, currentMemoryUsageBytes, storages)
    }

    method NewMemoryStorage(size: nat)
      modifies this
      ensures Contents() == AddMemory(old(Contents()), size)
    {
      activeMemoryBuffers := activeMemoryBuffers + 1;
      currentMemoryUsageBytes := currentMemoryUsageBytes + size;
      storages := storages + [Storage(false, size, true)];
    }

    method NewDiskStorage(size: nat, diskFails: bool) returns (ok: bool)
      modifies this
      ensures ok == !diskFails
      ensures Contents() == if ok then AddDisk(old(Contents()), size) else old(Contents())
    {
      if diskFails { return false; }
      activeDiskFiles := activeDiskFiles + 1;
      currentDiskUsageBytes := currentDiskUsageBytes + size;
      storages := storages + [Storage(true, size, true)];
      return true;
    }

    method CreateBodyStorage(size: nat, diskFails: bool)
      modifies this
      ensures Contents() == Step(cfg, old(Contents()), Create(size, diskFails))
    {
      if cfg.enabled && size >= cfg.Threshold() && Available(cfg, Contents(), size) {
        var ok := NewDiskStorage(size, diskFails);
        if !ok { NewMemoryStorage(size); }
        return;
      }
      NewMemoryStorage(size);
    }

    method CreateBodyStorageFromReader(declared: int, body: nat, maxBytes: int, readFails: bool, diskFails: bool)
      returns (ok: bool)
      modifies this
      ensures Contents() == Step(cfg, old(Contents()), CreateFromReader(declared, body, maxBytes, readFails, diskFails))
      ensures ok <==> |storages| == |old(storages)| + 1
    {
      if cfg.enabled && declared > 0 && declared >= cfg.Threshold() && Available(cfg, Contents(), declared) {
        if readFails || body > maxBytes { return false; }
        ok := NewDiskStorage(body, diskFails);
        return;
      }
      if readFails || body > maxBytes { return false; }
      CreateBodyStorage(body, diskFails);
      return true;
    }

    method CloseOne(k: nat)
      modifies this
      ensures Contents() == Step(cfg, old(Contents()), Close(k))
    {
      if k >= |storages| || !storages[k].open { return; }
      var s := storages[k];
      storages := storages[k := s.(open := false)];
      if s.disk {
        activeDiskFiles := activeDiskFiles - 1;
        if activeDiskFiles < 0 { activeDiskFiles := 0; }
        currentDiskUsageBytes := currentDiskUsageBytes - s.size;
        if currentDiskUsageBytes < 0 { currentDiskUsageBytes := 0; }
      } else {
        activeMemoryBuffers := activeMemoryBuffers - 1;
        currentMemoryUsageBytes := currentMemoryUsageBytes - s.size;
      }
    }

    /** Whatever is created and closed, however often, the counters kept here balance. */
    method Replay(es: seq<Event>)
      modifies this
      ensures Contents() == Run(cfg, old(Contents()), es)
      ensures old(Balanced(Contents())) ==> Balanced(Contents())
    {
      ghost var start := Contents();
      var i := 0;
      while i < |es|
        invariant 0 <= i <= |es|
        invariant Run(cfg, Contents(), es[i..]) == Run(cfg, start, es)
      {
        match es[i] {
          case Create(size, diskFails) => CreateBodyStorage(size, diskFails);
          case CreateFromReader(declared, body, maxBytes, readFails, diskFails) =>
            var _ := CreateBodyStorageFromReader(declared, body, maxBytes, readFails, diskFails);
          case Close(k) => CloseOne(k);
        }
        assert es[i..][1..] == es[i + 1..];
        i := i + 1;
      }
      if Balanced(start) { CountersBalance(cfg, start, es); }
    }
  }
}
