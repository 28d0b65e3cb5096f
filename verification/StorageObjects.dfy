/** The two body storages as objects, each call tied to the abstract object, and run side by side. */
module StorageObjects {
  import opened BodyStorage

  // ---------------------------------------------------------------- readers

  /** An in-memory reader with its own cursor. */
  class MemoryReader {
    const content: seq<byte>
    var at: nat

    constructor (content: seq<byte>)
      ensures this.content == content && at == 0
    {
      this.content, at := content, 0;
    }

    method Read(n: nat) returns (obs: Obs)
      modifies this
      ensures obs == if old(at) >= |content| then Eof else Got(Chunk(content, old(at), n))
      ensures at == old(at) + |Chunk(content, old(at), n)|
    {
      if at >= |content| { return Eof; }
      var end := if at + n > |content| then |content| else at + n;
      obs := Got(content[at..end]);
      at := end;
    }

    method Seek(offset: int, whence: Whence) returns (obs: Obs)
      modifies this
      ensures var target := Target(content, old(at), offset, whence);
              if target < 0 then obs == BadSeek && at == old(at) else obs == Position(target) && at == target
    {
      var abs := 0;
      match whence {
        case FromStart => abs := offset;
        case FromCurrent => abs := at + offset;
        case FromEnd => abs := |content| + offset;
      }
      if abs < 0 { return BadSeek; }
      at := abs;
      return Position(abs);
    }
  }

  /** An open file descriptor: its own offset over the file's contents. */
  class Descriptor {
    const content: seq<byte>
    var offset: nat
    var open: bool

    constructor (content: seq<byte>)
      ensures this.content == content && offset == 0 && open
    {
      this.content, offset, open := content, 0, true;
    }

    /** As the operating system reads: an empty request succeeds even at the end. */
    method Read(n: nat) returns (obs: Obs)
      requires open
      modifies this`offset
      ensures obs == if n > 0 && old(offset) >= |content| then Eof else Got(Chunk(content, old(offset), n))
      ensures offset == old(offset) + |Chunk(content, old(offset), n)|
    {
      if n == 0 {
        assert Chunk(content, offset, 0) == [];
        return Got([]);
      }
      if offset >= |content| { return Eof; }
      var got := if offset + n > |content| then content[offset..] else content[offset..offset + n];
      offset := offset + |got|;
      return Got(got);
    }

    method Seek(to: int, whence: Whence) returns (obs: Obs)
      requires open
      modifies this`offset
      ensures var target := Target(content, old(offset), to, whence);
              if target < 0 then obs == BadSeek && offset == old(offset) else obs == Position(target) && offset == target
    {
      var target := match whence case FromStart => to case FromCurrent => offset + to case FromEnd => |content| + to;
      if target < 0 { return BadSeek; }
      offset := target;
      return Position(target);
    }

    /** Reads until `n` bytes are there, or the end comes first. */
    method ReadFull(n: nat) returns (data: seq<byte>, ok: bool)
      requires open
      modifies this`offset
      ensures ok <==> old(offset) + n <= |content| || n == 0
      ensures ok ==> data == Chunk(content, old(offset), n) && |data| == n
    {
      data := [];
      while |data| < n
        invariant |data| <= n && data == Chunk(content, old(offset), |data|)
        invariant offset == old(offset) + |data|
        invariant data != [] ==> old(offset) + |data| <= |content|
        decreases n - |data|
      {
        var obs := Read(n - |data|);
        if obs.Eof? || obs.bytes == [] { return data, false; }
        data := data + obs.bytes;
      }
      ok := true;
    }

    method Close()
      modifies this`open
      ensures !open
    {
      open := false;
    }
  }

  /** The cache directory: which paths exist, and what they hold. */
  class Directory {
    var files: map<string, seq<byte>>

    constructor ()
      ensures files == map[]
    {
      files := map[];
    }

    method Create(path: string, data: seq<byte>) returns (d: Descriptor?)
      modifies this
      ensures d == null <==> path in old(files)
      ensures d == null ==> files == old(files)
      ensures d != null ==> fresh(d) && d.open && d.offset == 0 && d.content == data && files == old(files)[path := data]
    {
      if path in files { return null; }
      files := files[path := data];
      d := new Descriptor(data);
    }

    method Open(path: string) returns (d: Descriptor?)
      ensures d != null <==> path in files
      ensures d != null ==> fresh(d) && d.open && d.offset == 0 && d.content == files[path]
    {
      if path !in files { return null; }
      d := new Descriptor(files[path]);
    }

    method Remove(path: string)
      modifies this
      ensures files == old(files) - {path}
    {
      files := files - {path};
    }
  }

  // ---------------------------------------------------------------- the memory storage

  class MemoryStorage {
    const data: seq<byte>
    const reader: MemoryReader
    var closed: bool
    var handedOut: seq<MemoryReader>

    ghost predicate Valid()
      reads this
    {
      && reader.content == data && reader !in handedOut
      && (forall i :: 0 <= i < |handedOut| ==> handedOut[i].content == data)
      && (forall i, j :: 0 <= i < j < |handedOut| ==> handedOut[i] != handedOut[j])
    }

    ghost function View(): Abs
      reads this, reader, handedOut
    {
      Abs(data, reader.at, closed, seq(|handedOut|, i requires 0 <= i < |handedOut| reads this, handedOut => handedOut[i].at))
    }

    constructor (data: seq<byte>)
      ensures Valid() && View() == Abs(data, 0, false, []) && fresh(reader) && handedOut == []
    {
      this.data := data;
      reader := new MemoryReader(data);
      closed, handedOut := false, [];
    }

    method Read(n: nat) returns (obs: Obs)
      requires Valid()
      modifies reader
      ensures Valid() && (View(), obs) == Step(old(View()), Op.Read(n))
    {
      if closed { return StorageClosed; }
      obs := reader.Read(n);
      assert View().readers == old(View()).readers;
    }

    method Seek(offset: int, whence: Whence) returns (obs: Obs)
      requires Valid()
      modifies reader
      ensures Valid() && (View(), obs) == Step(old(View()), Op.Seek(offset, whence))
    {
      if closed { return StorageClosed; }
      obs := reader.Seek(offset, whence);
      assert View().readers == old(View()).readers;
    }

    method Bytes() returns (obs: Obs)
      requires Valid()
      ensures (View(), obs) == Step(View(), Op.Bytes)
    {
      if closed { return StorageClosed; }
      obs := Got(data);
    }

    method NewReader() returns (obs: Obs)
      requires Valid()
      modifies this
      ensures Valid() && (View(), obs) == Step(old(View()), Op.NewReader)
      ensures closed == old(closed)
      ensures old(handedOut) <= handedOut && forall r :: r in handedOut ==> r in old(handedOut) || fresh(r)
    {
      if closed { return StorageClosed; }
      var r := new MemoryReader(data);
      obs := Opened(|handedOut|);
      handedOut := handedOut + [r];
      assert View().readers == old(View()).readers + [0];
    }

    method Close() returns (obs: Obs)
      requires Valid()
      modifies this`closed
      ensures Valid() && (View(), obs) == Step(old(View()), Op.Close)
    {
      closed := true;
      assert View().readers == old(View()).readers;
      obs := Done;
    }

    method ReadVia(k: nat, n: nat) returns (obs: Obs)
      requires Valid()
      modifies handedOut
      ensures Valid() && (View(), obs) == Step(old(View()), Op.ReadVia(k, n))
    {
      if k >= |handedOut| { return NoSuchReader; }
      obs := handedOut[k].Read(n);
      assert View().readers == old(View()).readers[k := handedOut[k].at];
      assert old(View()).readers[k := old(View()).readers[k]] == old(View()).readers;
    }

    method Do(op: Op) returns (obs: Obs)
      requires Valid()
      modifies this, reader, handedOut
      ensures Valid() && (View(), obs) == Step(old(View()), op)
      ensures old(handedOut) <= handedOut && forall r :: r in handedOut ==> r in old(handedOut) || fresh(r)
    {
      match op {
        case Read(n) => obs := Read(n);
        case Seek(offset, whence) => obs := Seek(offset, whence);
        case Bytes => obs := Bytes();
        case NewReader => obs := NewReader();
        case ReadVia(k, n) => obs := ReadVia(k, n);
        case Close => obs := Close();
      }
    }
  }

  // ---------------------------------------------------------------- the disk storage

  class DiskStorage {
    const directory: Directory
    const path: string
    const file: Descriptor
    const size: nat
    var closed: bool
    var handedOut: seq<Descriptor>

    ghost predicate Valid()
      reads this, file, directory, handedOut
    {
      && |file.content| == size && file !in handedOut
      && (!closed ==> file.open && path in directory.files && directory.files[path] == file.content)
      && (forall i :: 0 <= i < |handedOut| ==> handedOut[i].content == file.content && handedOut[i].open)
      && (forall i, j :: 0 <= i < j < |handedOut| ==> handedOut[i] != handedOut[j])
    }

    ghost function View(): Abs
      reads this, file, handedOut
    {
      Abs(file.content, file.offset, closed,
          seq(|handedOut|, i requires 0 <= i < |handedOut| reads this, handedOut => handedOut[i].offset))
    }

    constructor (directory: Directory, path: string, file: Descriptor)
      requires file.open && file.offset == 0 && path in directory.files && directory.files[path] == file.content
      ensures Valid() && View() == Abs(file.content, 0, false, [])
      ensures this.directory == directory && this.path == path && this.file == file && handedOut == []
    {
      this.directory, this.path, this.file, size := directory, path, file, |file.content|;
      closed, handedOut := false, [];
    }

    method Read(n: nat) returns (obs: Obs)
      requires Valid()
      modifies file`offset
      ensures Valid() && (View(), obs) == DiskStep(old(View()), Op.Read(n))
    {
      if closed { return StorageClosed; }
      obs := file.Read(n);
      assert View().readers == old(View()).readers;
    }

    method Seek(offset: int, whence: Whence) returns (obs: Obs)
      requires Valid()
      modifies file`offset
      ensures Valid() && (View(), obs) == Step(old(View()), Op.Seek(offset, whence))
    {
      if closed { return StorageClosed; }
      obs := file.Seek(offset, whence);
      assert View().readers == old(View()).readers;
    }

    /** Remember the position, rewind, read everything, go back. */
    method Bytes() returns (obs: Obs)
      requires Valid()
      modifies file`offset
      ensures Valid() && (View(), obs) == Step(old(View()), Op.Bytes)
    {
      if closed { return StorageClosed; }
      var current := file.Seek(0, FromCurrent);
      if !current.Position? { return BadSeek; }
      var start := file.Seek(0, FromStart);
      if !start.Position? { return BadSeek; }
      var data, ok := file.ReadFull(size);
      if !ok { return Eof; }
      var back := file.Seek(current.at, FromStart);
      if !back.Position? { return BadSeek; }
      assert View().readers == old(View()).readers;
      assert data == file.content;
      return Got(data);
    }

    method NewReader() returns (obs: Obs)
      requires Valid()
      modifies this
      ensures Valid() && (View(), obs) == Step(old(View()), Op.NewReader)
      ensures closed == old(closed)
      ensures old(handedOut) <= handedOut && forall r :: r in handedOut ==> r in old(handedOut) || fresh(r)
    {
      if closed { return StorageClosed; }
      var r := directory.Open(path);
      if r == null { return NoSuchReader; }
      obs := Opened(|handedOut|);
      handedOut := handedOut + [r];
      assert View().readers == old(View()).readers + [0];
    }

    method Close() returns (obs: Obs)
      requires Valid()
      modifies this`closed, file`open, directory
      ensures Valid() && (View(), obs) == Step(old(View()), Op.Close)
    {
      if !closed {
        closed := true;
        file.Close();
        directory.Remove(path);
      }
      assert View().readers == old(View()).readers;
      obs := Done;
    }

    method ReadVia(k: nat, n: nat) returns (obs: Obs)
      requires Valid()
      modifies handedOut
      ensures Valid() && (View(), obs) == DiskStep(old(View()), Op.ReadVia(k, n))
    {
      if k >= |handedOut| { return NoSuchReader; }
      obs := handedOut[k].Read(n);
      assert View().readers == old(View()).readers[k := handedOut[k].offset];
      assert old(View()).readers[k := old(View()).readers[k]] == old(View()).readers;
    }

    method Do(op: Op) returns (obs: Obs)
      requires Valid()
      modifies this, file, directory, handedOut
      ensures Valid() && (View(), obs) == DiskStep(old(View()), op)
      ensures old(handedOut) <= handedOut && forall r :: r in handedOut ==> r in old(handedOut) || fresh(r)
    {
      match op {
        case Read(n) => obs := Read(n);
        case Seek(offset, whence) => obs := Seek(offset, whence);
        case Bytes => obs := Bytes();
        case NewReader => obs := NewReader();
        case ReadVia(k, n) => obs := ReadVia(k, n);
        case Close => obs := Close();
      }
    }
  }

  // ---------------------------------------------------------------- side by side

  /** One call on both: the abstract object's step, answered alike unless it asks for nothing at the end. */
  ghost predicate Took(before: Abs, op: Op, after: Abs, m: Obs, d: Obs) {
    (after, m) == Step(before, op) && (m == d <==> !AsksNothingAtEnd(before, op))
  }

  method DoBoth(memory: MemoryStorage, disk: DiskStorage, op: Op) returns (m: Obs, d: Obs)
    requires memory.Valid() && disk.Valid() && memory.View() == disk.View()
    modifies memory, memory.reader, memory.handedOut, disk, disk.file, disk.directory, disk.handedOut
    ensures memory.Valid() && disk.Valid() && memory.View() == disk.View()
    ensures Took(old(memory.View()), op, memory.View(), m, d)
    ensures forall k :: 0 <= k < |memory.handedOut| ==>
      memory.handedOut[k] in old(memory.handedOut) || fresh(memory.handedOut[k])
    ensures forall k :: 0 <= k < |disk.handedOut| ==>
      disk.handedOut[k] in old(disk.handedOut) || fresh(disk.handedOut[k])
  {
    ghost var before := memory.View();
    m := memory.Do(op);
    assert forall k :: 0 <= k < |memory.handedOut| ==> memory.handedOut[k] in memory.handedOut;
    d := disk.Do(op);
    assert forall k :: 0 <= k < |disk.handedOut| ==> disk.handedOut[k] in disk.handedOut;
    TookBoth(before, op, memory.View(), disk.View(), m, d);
  }

  lemma TookBoth(before: Abs, op: Op, memory: Abs, disk: Abs, m: Obs, d: Obs)
    requires (memory, m) == Step(before, op) && (disk, d) == DiskStep(before, op)
    ensures memory == disk && Took(before, op, memory, m, d)
  {
    AlikeIff(before, op);
  }

  /** The objects between the first `n` calls, and both answers to each. */
  ghost predicate Traced(ops: seq<Op>, n: nat, views: seq<Abs>, memory: seq<Obs>, disk: seq<Obs>) {
    && n <= |ops| && |views| == n + 1 && |memory| == n && |disk| == n
    && forall i :: 0 <= i < n ==> Took(views[i], ops[i], views[i + 1], memory[i], disk[i])
  }

  lemma TookNext(start: Abs, ops: seq<Op>, seen: seq<Obs>, before: Abs, op: Op, after: Abs, m: Obs, d: Obs)
    requires Run(start, ops) == (before, seen) && Took(before, op, after, m, d)
    ensures Run(start, ops + [op]) == (after, seen + [m])
  {
    RunNext(start, ops, op);
  }

  lemma UpTo<T>(s: seq<T>, i: nat)
    requires 0 < i <= |s|
    ensures s[..i] == s[..i - 1] + [s[i - 1]]
  {
  }

  lemma {:induction false} TraceIsRun(ops: seq<Op>, n: nat, views: seq<Abs>, memory: seq<Obs>, disk: seq<Obs>, i: nat)
    requires Traced(ops, n, views, memory, disk) && i <= n
    ensures Run(views[0], ops[..i]) == (views[i], memory[..i])
  {
    if i > 0 {
      var j := i - 1;
      TraceIsRun(ops, n, views, memory, disk, j);
      TookNext(views[0], ops[..j], memory[..j], views[j], ops[j], views[j + 1], memory[j], disk[j]);
      UpTo(ops, i);
      UpTo(memory, i);
    }
  }

  lemma TraceAnswers(ops: seq<Op>, n: nat, views: seq<Abs>, memory: seq<Obs>, disk: seq<Obs>)
    requires Traced(ops, n, views, memory, disk) && n == |ops|
    ensures Run(views[0], ops) == (views[n], memory)
    ensures memory == disk <==> NeverIdle(views[0], ops, n)
  {
    TraceIsRun(ops, n, views, memory, disk, n);
    assert ops[..n] == ops && memory[..n] == memory;
    forall i | 0 <= i < n ensures memory[i] == disk[i] <==> !AsksNothingAtEnd(Run(views[0], ops[..i]).0, ops[i]) {
      TraceIsRun(ops, n, views, memory, disk, i);
      assert Took(views[i], ops[i], views[i + 1], memory[i], disk[i]);
    }
  }

  method RunTraced(memory: MemoryStorage, disk: DiskStorage, ops: seq<Op>)
    returns (seenMemory: seq<Obs>, seenDisk: seq<Obs>, ghost views: seq<Abs>)
    requires memory.Valid() && disk.Valid() && memory.View() == disk.View()
    modifies memory, memory.reader, memory.handedOut, disk, disk.file, disk.directory, disk.handedOut
    ensures memory.Valid() && disk.Valid() && memory.View() == disk.View()
    ensures Traced(ops, |ops|, views, seenMemory, seenDisk)
    ensures views[0] == old(memory.View()) && views[|ops|] == memory.View()
  {
    seenMemory, seenDisk, views := [], [], [memory.View()];
    var i := 0;
    while i < |ops|
      invariant 0 <= i <= |ops|
      invariant memory.Valid() && disk.Valid() && memory.View() == disk.View()
      invariant Traced(ops, i, views, seenMemory, seenDisk)
      invariant views[0] == old(memory.View()) && views[i] == memory.View()
      invariant forall k :: 0 <= k < |memory.handedOut| ==>
        memory.handedOut[k] in old(memory.handedOut) || fresh(memory.handedOut[k])
      invariant forall k :: 0 <= k < |disk.handedOut| ==>
        disk.handedOut[k] in old(disk.handedOut) || fresh(disk.handedOut[k])
    {
      var m, d := DoBoth(memory, disk, ops[i]);
      seenMemory, seenDisk, views := seenMemory + [m], seenDisk + [d], views + [memory.View()];
      i := i + 1;
    }
  }

  /**
   Any sequence of calls on a memory storage and a disk storage holding the same payload leaves them the same
   object, and the answers of the memory storage are the abstract object's. Those of the disk storage are the
   same, call by call, exactly when no call asks for nothing at the end.
   */
  method RunBoth(memory: MemoryStorage, disk: DiskStorage, ops: seq<Op>) returns (seenMemory: seq<Obs>, seenDisk: seq<Obs>)
    requires memory.Valid() && disk.Valid() && memory.View() == disk.View()
    modifies memory, memory.reader, memory.handedOut, disk, disk.file, disk.directory, disk.handedOut
    ensures memory.Valid() && disk.Valid()
    ensures seenMemory == Run(old(memory.View()), ops).1
    ensures memory.View() == disk.View() == Run(old(memory.View()), ops).0
    ensures seenMemory == seenDisk <==> NeverIdle(old(memory.View()), ops, |ops|)
    ensures (forall i :: 0 <= i < |ops| ==> Proper(ops[i])) ==> seenMemory == seenDisk
  {
    ghost var views;
    seenMemory, seenDisk, views := RunTraced(memory, disk, ops);
    TraceAnswers(ops, |ops|, views, seenMemory, seenDisk);
  }

  /** The two storages answer a read alike exactly when they are closed, it asks for a byte or there is one left. */
  method CompareReads(memory: MemoryStorage, disk: DiskStorage, n: nat) returns (a: Obs, b: Obs)
    requires memory.Valid() && disk.Valid() && memory.View() == disk.View()
    modifies memory.reader, disk.file`offset
    ensures memory.View() == disk.View()
    ensures a == b <==> old(memory.closed) || n > 0 || old(memory.reader.at) < |memory.data|
  {
    AlikeIff(memory.View(), Op.Read(n));
    a := memory.Read(n);
    b := disk.Read(n);
  }
}
