/**
 Replayable request bodies: one interface, two implementations. The memory storage reads through a
 byte reader over the data; the disk storage through a descriptor of a cache file that it unlinks
 when closed. Both are shown to be the same abstract object, call by call and over whole runs.

 A file's contents never change after creation; a descriptor keeps them readable after unlinking.
 */
module BodyStorage {

  newtype byte = x: int | 0 <= x < 256

  datatype Whence = FromStart | FromCurrent | FromEnd

  datatype Op =
    | Read(n: nat)
    | Seek(offset: int, whence: Whence)
    | Bytes
    | NewReader
    | ReadVia(reader: nat, n: nat)
    | Close

  /** What a caller sees; error texts are not compared, only their kind. */
  datatype Obs =
    | Got(bytes: seq<byte>)
    | Eof
    | Position(at: int)
    | Opened(reader: nat)
    | Done
    | StorageClosed
    | BadSeek
    | NoSuchReader

  // ---------------------------------------------------------------- the abstract object

  /** The payload, the shared cursor, whether closed, and the cursor of every reader handed out. */
  datatype Abs = Abs(data: seq<byte>, cursor: nat, closed: bool, readers: seq<nat>)

  function Chunk(data: seq<byte>, at: nat, n: nat): seq<byte> {
    if at >= |data| then [] else data[at..if at + n > |data| then |data| else at + n]
  }

  function Target(data: seq<byte>, at: nat, offset: int, whence: Whence): int {
    offset + match whence case FromStart => 0 case FromCurrent => at case FromEnd => |data|
  }

  function Step(a: Abs, op: Op): (Abs, Obs) {
    match op
    case Read(n) =>
      if a.closed then (a, StorageClosed)
      else if a.cursor >= |a.data| then (a, Eof)
      else
        var got := Chunk(a.data, a.cursor, n);
        (a.(cursor := a.cursor + |got|), Got(got))
    case Seek(offset, whence) =>
      var at := Target(a.data, a.cursor, offset, whence);
      if a.closed then (a, StorageClosed)
      else if at < 0 then (a, BadSeek)
      else (a.(cursor := at), Position(at))
    case Bytes => (a, if a.closed then StorageClosed else Got(a.data))
    case NewReader =>
      if a.closed then (a, StorageClosed) else (a.(readers := a.readers + [0]), Opened(|a.readers|))
    case ReadVia(k, n) =>
      if k >= |a.readers| then (a, NoSuchReader)
      else if a.readers[k] >= |a.data| then (a, Eof)
      else
        var got := Chunk(a.data, a.readers[k], n);
        (a.(readers := a.readers[k := a.readers[k] + |got|]), Got(got))
    case Close => (a.(closed := true), Done)
  }

  function Run(a: Abs, ops: seq<Op>): (Abs, seq<Obs>) {
    if ops == [] then (a, [])
    else
      var (b, seen) := Run(a, ops[..|ops| - 1]);
      var (c, obs) := Step(b, ops[|ops| - 1]);
      (c, seen + [obs])
  }

  // ---------------------------------------------------------------- reads that ask for nothing

  /** A read of no bytes with none left: the one call that a memory buffer and a file answer differently. */
  predicate AsksNothingAtEnd(a: Abs, op: Op) {
    match op
    case Read(n) => n == 0 && !a.closed && a.cursor >= |a.data|
    case ReadVia(k, n) => n == 0 && k < |a.readers| && a.readers[k] >= |a.data|
    case _ => false
  }

  /** The object on disk: such a read succeeds with no bytes instead of meeting the end. */
  function DiskStep(a: Abs, op: Op): (Abs, Obs) {
    if AsksNothingAtEnd(a, op) then (a, Got([])) else Step(a, op)
  }

  /** Both leave the same object; they answer alike exactly when it is no such read. */
  lemma AlikeIff(a: Abs, op: Op)
    ensures DiskStep(a, op).0 == Step(a, op).0
    ensures DiskStep(a, op).1 == Step(a, op).1 <==> !AsksNothingAtEnd(a, op)
  {
  }

  /** None of the first `n` calls of a run is such a read where it comes. */
  ghost predicate NeverIdle(a: Abs, ops: seq<Op>, n: nat)
    requires n <= |ops|
  {
    forall i :: 0 <= i < n ==> !AsksNothingAtEnd(Run(a, ops[..i]).0, ops[i])
  }

  /** Reads ask for at least one byte. */
  predicate Proper(op: Op) { (op.Read? || op.ReadVia?) ==> op.n >= 1 }

  // ---------------------------------------------------------------- what the abstract object promises

  /** The payload never changes, closing is final, and readers are never taken away. */
  lemma {:induction false} RunKeeps(a: Abs, ops: seq<Op>)
    ensures var b := Run(a, ops).0;
            && b.data == a.data && (a.closed ==> b.closed) && |Run(a, ops).1| == |ops|
            && |a.readers| <= |b.readers| && (a.closed ==> |b.readers| == |a.readers|)
  {
    if ops != [] { RunKeeps(a, ops[..|ops| - 1]); }
  }

  /** What taking all bytes answers after a run. */
  function Whole(a: Abs, before: seq<Op>): Obs {
    if Run(a, before).0.closed then StorageClosed else Got(a.data)
  }

  lemma RunNext(a: Abs, ops: seq<Op>, op: Op)
    ensures Run(a, ops + [op]) == (Step(Run(a, ops).0, op).0, Run(a, ops).1 + [Step(Run(a, ops).0, op).1])
  {
    assert (ops + [op])[..|ops|] == ops;
  }

  /**
   Taking all bytes is invisible: inserted anywhere in a run it leaves the same object and every other
   observation as it was, and itself yields the whole payload, or the closed error.
   */
  lemma {:induction false} BytesIsInvisible(a: Abs, before: seq<Op>, after: seq<Op>)
    ensures var plain, peeking := Run(a, before + after), Run(a, before + [Bytes] + after);
            && peeking.0 == plain.0 && |plain.1| == |before| + |after|
            && peeking.1 == plain.1[..|before|] + [Whole(a, before)] + plain.1[|before|..]
    decreases |after|
  {
    RunKeeps(a, before + after);
    if after == [] {
      assert before + after == before && before + [Bytes] + after == before + [Bytes];
      RunKeeps(a, before);
      RunNext(a, before, Bytes);
      var seen := Run(a, before).1;
      assert seen[..|before|] == seen && seen[|before|..] == [];
    } else {
      var init, last := after[..|after| - 1], after[|after| - 1];
      BytesIsInvisible(a, before, init);
      RunNext(a, before + init, last);
      RunNext(a, before + [Bytes] + init, last);
      assert before + init + [last] == before + after;
      assert before + [Bytes] + init + [last] == before + [Bytes] + after;
    }
  }

  /** How many bytes a run asks of one reader. */
  function AskedOf(k: nat, ops: seq<Op>): nat {
    if ops == [] then 0
    else
      var last := ops[|ops| - 1];
      AskedOf(k, ops[..|ops| - 1]) + if last.ReadVia? && last.reader == k then last.n else 0
  }

  /** The bytes a run obtains through one reader. */
  function CollectedVia(k: nat, ops: seq<Op>, seen: seq<Obs>): seq<byte>
    requires |ops| == |seen|
  {
    if ops == [] then []
    else
      var last, obs := ops[|ops| - 1], seen[|ops| - 1];
      CollectedVia(k, ops[..|ops| - 1], seen[..|ops| - 1])
      + if last.ReadVia? && last.reader == k && obs.Got? then obs.bytes else []
  }

  lemma ChunkThenChunk(data: seq<byte>, at: nat, m: nat, n: nat)
    requires at <= |data|
    ensures var first := Chunk(data, at, m);
            && at + |first| <= |data|
            && first + Chunk(data, at + |first|, n) == Chunk(data, at, m + n)
            && |Chunk(data, at, m + n)| == |first| + |Chunk(data, at + |first|, n)|
  {
  }

  /** What a reader has yielded, and where it stands. */
  ghost predicate Yielded(a: Abs, b: Abs, k: nat, bytes: seq<byte>, asked: nat) {
    && k < |a.readers| <= |b.readers| && b.data == a.data && a.readers[k] <= |a.data|
    && bytes == Chunk(a.data, a.readers[k], asked)
    && b.readers[k] == a.readers[k] + |bytes|
  }

  lemma ReadYields(a: Abs, b: Abs, k: nat, bytes: seq<byte>, asked: nat, n: nat)
    requires Yielded(a, b, k, bytes, asked)
    ensures var (c, obs) := Step(b, ReadVia(k, n));
            Yielded(a, c, k, bytes + (if obs.Got? then obs.bytes else []), asked + n)
  {
    var got := Chunk(b.data, b.readers[k], n);
    ChunkThenChunk(a.data, a.readers[k], asked, n);
    assert bytes + got == Chunk(a.data, a.readers[k], asked + n);
    if b.readers[k] >= |b.data| { assert got == [] && bytes + [] == bytes; }
  }

  lemma OtherYields(a: Abs, b: Abs, k: nat, bytes: seq<byte>, asked: nat, op: Op)
    requires Yielded(a, b, k, bytes, asked) && !(op.ReadVia? && op.reader == k)
    ensures Yielded(a, Step(b, op).0, k, bytes, asked)
  {
  }

  /**
   Independent readers replay the payload: in every run, however its reads are cut and whatever else
   happens in between (other readers, seeks, the storage being closed), a reader yields exactly the
   bytes that follow from where it stood.
   */
  lemma {:induction false} ReadersReplay(a: Abs, k: nat, ops: seq<Op>)
    requires k < |a.readers| && a.readers[k] <= |a.data|
    ensures var (b, seen) := Run(a, ops);
            |seen| == |ops| && Yielded(a, b, k, CollectedVia(k, ops, seen), AskedOf(k, ops))
  {
    if ops != [] {
      var init, last := ops[..|ops| - 1], ops[|ops| - 1];
      ReadersReplay(a, k, init);
      var (b, seen) := Run(a, init);
      if last.ReadVia? && last.reader == k {
        ReadYields(a, b, k, CollectedVia(k, init, seen), AskedOf(k, init), last.n);
      } else {
        OtherYields(a, b, k, CollectedVia(k, init, seen), AskedOf(k, init), last);
      }
      var (c, all) := Run(a, ops);
      assert all[..|init|] == seen;
      assert CollectedVia(k, init, seen) + [] == CollectedVia(k, init, seen);
    }
  }

  /** Closing the storage once or often changes nothing that a reader opened before sees. */
  lemma ReadersSurviveClose(a: Abs, k: nat, before: seq<Op>, after: seq<Op>)
    requires k < |a.readers| && a.readers[k] <= |a.data|
    ensures var plain, closing := before + after, before + [Close] + after;
            |Run(a, plain).1| == |plain| && |Run(a, closing).1| == |closing|
            && CollectedVia(k, plain, Run(a, plain).1) == CollectedVia(k, closing, Run(a, closing).1)
  {
    ReadersReplay(a, k, before + after);
    ReadersReplay(a, k, before + [Close] + after);
    AskedApart(k, before, after);
    AskedApart(k, before + [Close], after);
    AskedApart(k, before, [Close]);
  }

  lemma {:induction false} AskedApart(k: nat, s: seq<Op>, t: seq<Op>)
    ensures AskedOf(k, s + t) == AskedOf(k, s) + AskedOf(k, t)
  {
    if t == [] {
      assert s + t == s;
    } else {
      assert (s + t)[..|s + t| - 1] == s + t[..|t| - 1];
      AskedApart(k, s, t[..|t| - 1]);
    }
  }
}
