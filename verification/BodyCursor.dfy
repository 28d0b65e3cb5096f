/**
 What a body storage promises over every run: when it answers, where a seek leads, and that reading on
 from there yields the payload, whatever else is done in between.
 */
module BodyCursor {
  import opened BodyStorage

  // ---------------------------------------------------------------- open and closed

  /** Calls on the storage itself; readers handed out live on. */
  predicate OnStorage(op: Op) { op.Read? || op.Seek? || op.Bytes? || op.NewReader? }

  predicate Closes(ops: seq<Op>) { exists i :: 0 <= i < |ops| && ops[i].Close? }

  lemma {:induction false} ClosedBy(a: Abs, ops: seq<Op>)
    ensures Run(a, ops).0.closed <==> a.closed || Closes(ops)
  {
    if ops != [] {
      var init, last := ops[..|ops| - 1], ops[|ops| - 1];
      ClosedBy(a, init);
      assert last.Close? ==> ops[|ops| - 1].Close?;
      if i :| 0 <= i < |init| && init[i].Close? { assert ops[i].Close?; }
      if i :| 0 <= i < |ops| && ops[i].Close? { assert i < |init| ==> init[i].Close?; }
    }
  }

  /** In every run of an open storage a call gets the closed error exactly when the storage was closed before. */
  lemma ClosedErrorIff(a: Abs, before: seq<Op>, op: Op)
    requires !a.closed
    ensures Step(Run(a, before).0, op).1 == StorageClosed <==> OnStorage(op) && Closes(before)
  {
    ClosedBy(a, before);
  }

  // ---------------------------------------------------------------- seeking

  /** A seek leads to the sum of its base and offset, and fails, staying, exactly when that is before the start. */
  lemma SeekLeads(a: Abs, offset: int, whence: Whence)
    requires !a.closed
    ensures var to := offset + match whence case FromStart => 0 case FromCurrent => a.cursor case FromEnd => |a.data|;
            Step(a, Seek(offset, whence)) == if to < 0 then (a, BadSeek) else (a.(cursor := to), Position(to))
  {
  }

  // ---------------------------------------------------------------- reading on

  /** How many bytes a run asks of the storage itself. */
  function Asked(ops: seq<Op>): nat {
    if ops == [] then 0
    else var last := ops[|ops| - 1]; Asked(ops[..|ops| - 1]) + if last.Read? then last.n else 0
  }

  /** The bytes a run obtains from the storage itself. */
  function Collected(ops: seq<Op>, seen: seq<Obs>): seq<byte>
    requires |ops| == |seen|
  {
    if ops == [] then []
    else
      var last, obs := ops[|ops| - 1], seen[|ops| - 1];
      Collected(ops[..|ops| - 1], seen[..|ops| - 1]) + if last.Read? && obs.Got? then obs.bytes else []
  }

  /** Neither moved nor closed by the run. */
  predicate Undisturbed(ops: seq<Op>) { forall i :: 0 <= i < |ops| ==> !ops[i].Seek? && !ops[i].Close? }

  ghost predicate ReadOn(a: Abs, b: Abs, bytes: seq<byte>, asked: nat) {
    && !b.closed && b.data == a.data && a.cursor <= |a.data|
    && bytes == Payload(a.data, a.cursor, asked) && b.cursor == a.cursor + |bytes|
  }

  /** The payload from `at`: `n` bytes, or what there is. */
  function Payload(data: seq<byte>, at: nat, n: nat): seq<byte>
    requires at <= |data|
  {
    if n <= |data| - at then data[at..at + n] else data[at..]
  }

  lemma PayloadNext(data: seq<byte>, at: nat, m: nat, n: nat)
    requires at <= |data|
    ensures var first := Payload(data, at, m);
            at + |first| <= |data| && first + Payload(data, at + |first|, n) == Payload(data, at, m + n)
  {
  }

  lemma ReadStep(a: Abs, b: Abs, bytes: seq<byte>, asked: nat, n: nat)
    requires ReadOn(a, b, bytes, asked)
    ensures var (c, obs) := Step(b, Read(n)); ReadOn(a, c, bytes + (if obs.Got? then obs.bytes else []), asked + n)
    ensures Step(b, Read(n)).1 == if b.cursor == |b.data| then Eof else Got(Payload(b.data, b.cursor, n))
  {
    PayloadNext(a.data, a.cursor, asked, n);
    if b.cursor == |b.data| {
      assert Payload(b.data, b.cursor, n) == [];
      assert bytes + [] == bytes;
    } else {
      assert Chunk(b.data, b.cursor, n) == Payload(b.data, b.cursor, n);
    }
  }

  lemma OtherStep(a: Abs, b: Abs, bytes: seq<byte>, asked: nat, op: Op)
    requires ReadOn(a, b, bytes, asked) && !op.Read? && !op.Seek? && !op.Close?
    ensures ReadOn(a, Step(b, op).0, bytes, asked)
  {
  }

  /**
   Over every run that neither seeks nor closes, whatever readers are opened and used and however the reads are
   cut, the storage yields exactly the payload from where it stood.
   */
  lemma {:induction false} StorageReadsOn(a: Abs, ops: seq<Op>)
    requires !a.closed && a.cursor <= |a.data| && Undisturbed(ops)
    ensures var (b, seen) := Run(a, ops);
            |seen| == |ops| && ReadOn(a, b, Collected(ops, seen), Asked(ops))
  {
    if ops == [] {
      assert Payload(a.data, a.cursor, 0) == [];
    } else {
      var init, last := ops[..|ops| - 1], ops[|ops| - 1];
      assert Undisturbed(init) && !last.Seek? && !last.Close?;
      StorageReadsOn(a, init);
      var (b, seen) := Run(a, init);
      if last.Read? {
        ReadStep(a, b, Collected(init, seen), Asked(init), last.n);
      } else {
        OtherStep(a, b, Collected(init, seen), Asked(init), last);
      }
      var (_, all) := Run(a, ops);
      assert all[..|init|] == seen;
      assert Collected(init, seen) + [] == Collected(init, seen);
    }
  }

  /** A request body is replayed: rewound at any time, an open storage yields the payload from its start again. */
  lemma RewoundReplays(a: Abs, before: seq<Op>, after: seq<Op>)
    requires !a.closed && !Closes(before) && Undisturbed(after)
    ensures var s := Step(Run(a, before).0, Seek(0, FromStart));
            var (b, seen) := Run(s.0, after);
            && s.1 == Position(0) && |seen| == |after|
            && Collected(after, seen) == Payload(a.data, 0, Asked(after))
  {
    ClosedBy(a, before);
    RunKeeps(a, before);
    var start := Run(a, before).0;
    SeekLeads(start, 0, FromStart);
    StorageReadsOn(Step(start, Seek(0, FromStart)).0, after);
  }

  lemma ChunkIsPayload(data: seq<byte>, n: nat)
    ensures Chunk(data, 0, n) == Payload(data, 0, n)
  {
  }

  lemma OpensAtTheStart(a: Abs)
    requires !a.closed
    ensures var s := Step(a, NewReader);
            && s.1 == Opened(|a.readers|) && s.0.data == a.data && s.0.cursor == a.cursor
            && s.0.readers == a.readers + [0]
  {
  }

  /** A reader opened at any time starts at the beginning, and yields the payload from there in every run. */
  lemma NewReaderReplays(a: Abs, after: seq<Op>)
    requires !a.closed
    ensures var s, k := Step(a, NewReader), |a.readers|;
            var (b, seen) := Run(s.0, after);
            && s.1 == Opened(k) && |seen| == |after|
            && CollectedVia(k, after, seen) == Payload(a.data, 0, AskedOf(k, after))
  {
    OpensAtTheStart(a);
    var k := |a.readers|;
    ReadersReplay(Step(a, NewReader).0, k, after);
    ChunkIsPayload(a.data, AskedOf(k, after));
  }

  /** At the end there is nothing but the end; anything left is returned before it. */
  lemma EndIff(a: Abs, n: nat)
    requires !a.closed
    ensures Step(a, Read(n)).1 == Eof <==> a.cursor >= |a.data|
    ensures n > 0 && a.cursor < |a.data| ==> Step(a, Read(n)).1.Got? && Step(a, Read(n)).1.bytes != []
  {
  }
}
