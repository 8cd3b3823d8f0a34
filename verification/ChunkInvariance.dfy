/** Chunk boundaries do not change results: how the bytes of a stream are cut into chunks is
    invisible in the state of a session and in everything its parsers are shown. */
module ChunkInvariance {
  import opened Model
  import opened Sequences
  import opened Text
  import opened Engine

  lemma {:induction false} FrameConcat(limits: Limits, f: Front, id: string, stream: Stream, a: seq<byte>, b: seq<byte>)
    ensures FrameBytes(limits, f, id, stream, a + b)
      == FrameBytes(limits, FrameBytes(limits, f, id, stream, a), id, stream, b)
  {
    if b == [] {
      assert a + b == a;
    } else {
      var n := |b| - 1;
      assert (a + b)[..|a + b| - 1] == a + b[..n];
      FrameConcat(limits, f, id, stream, a, b[..n]);
    }
  }

  lemma {:induction false} FrameKeepsScopes(limits: Limits, f: Front, id: string, stream: Stream, bytes: seq<byte>)
    ensures FrameBytes(limits, f, id, stream, bytes).scopes.Keys == f.scopes.Keys
    ensures id in f.scopes ==> FrameBytes(limits, f, id, stream, bytes).scopes[id].retained == f.scopes[id].retained
  {
    if bytes != [] {
      FrameKeepsScopes(limits, f, id, stream, bytes[..|bytes| - 1]);
    }
  }

  lemma DispatchAccount(f: Front, id: string, stream: Stream, bytes: seq<byte>, cut: bool, length: nat, kept: nat)
    requires id in f.scopes && kept <= length
    ensures id in Dispatch(f, id, stream, bytes, cut).scopes
    ensures Dispatch(Account(f, id, length, kept), id, stream, bytes, cut)
      == Account(Dispatch(f, id, stream, bytes, cut), id, length, kept)
  {
    if NormalizeLine(bytes) != [] {
      var x := Dispatch(Account(f, id, length, kept), id, stream, bytes, cut);
      var y := Account(Dispatch(f, id, stream, bytes, cut), id, length, kept);
      assert x.scopes[id] == y.scopes[id];
      assert x.scopes == y.scopes;
    }
  }

  // Counting bytes and framing them are independent.
  lemma {:induction false} FrameAccount(
    limits: Limits, f: Front, id: string, stream: Stream, bytes: seq<byte>, length: nat, kept: nat)
    requires id in f.scopes && kept <= length
    ensures id in FrameBytes(limits, f, id, stream, bytes).scopes
    ensures FrameBytes(limits, Account(f, id, length, kept), id, stream, bytes)
      == Account(FrameBytes(limits, f, id, stream, bytes), id, length, kept)
  {
    FrameKeepsScopes(limits, f, id, stream, bytes);
    if bytes != [] {
      var init := bytes[..|bytes| - 1];
      FrameAccount(limits, f, id, stream, init, length, kept);
      var g := FrameBytes(limits, f, id, stream, init);
      var buffer := BufferAt(g, (id, stream));
      DispatchAccount(g, id, stream, buffer.bytes, buffer.truncated, length, kept);
    }
  }

  lemma AccountTwice(f: Front, id: string, n: nat, j: nat, m: nat, k: nat)
    requires id in f.scopes && j <= n && k <= m
    ensures Account(Account(f, id, n, j), id, m, k) == Account(f, id, n + m, j + k)
  {
    var x, y := Account(Account(f, id, n, j), id, m, k), Account(f, id, n + m, j + k);
    assert x.scopes[id] == y.scopes[id];
    assert x.scopes == y.scopes;
  }

  // The parts of two chunks that fit are the part of their concatenation that fits.
  lemma RoomSplits(limits: Limits, retained: usize, a: seq<byte>, b: seq<byte>)
    ensures Kept(limits, retained, a + b)
      == Kept(limits, retained, a) + Kept(limits, SatAdd(retained, |Kept(limits, retained, a)|), b)
  {
  }

  lemma PushParts(limits: Limits, f: Front, id: string, stream: Stream, a: seq<byte>, b: seq<byte>, m: nat, n: nat)
    requires id in f.scopes && |a| <= m && |b| <= n
    ensures id in FrameBytes(limits, Account(f, id, m, |a|), id, stream, a).scopes
    ensures var g := FrameBytes(limits, Account(f, id, m, |a|), id, stream, a);
      FrameBytes(limits, Account(g, id, n, |b|), id, stream, b)
        == FrameBytes(limits, Account(f, id, m + n, |a| + |b|), id, stream, a + b)
  {
    var h := Account(f, id, m, |a|);
    FrameAccount(limits, h, id, stream, a, n, |b|);
    AccountTwice(f, id, m, |a|, n, |b|);
    FrameConcat(limits, Account(f, id, m + n, |a| + |b|), id, stream, a, b);
  }

  // The part of a chunk that a scope with so many bytes retains.
  function Kept(limits: Limits, retained: usize, chunk: seq<byte>): seq<byte> {
    chunk[..Room(limits, retained, |chunk|)]
  }

  lemma PushKept(limits: Limits, f: Front, id: string, stream: Stream, chunk: seq<byte>)
    requires id in f.scopes
    ensures var kept := Kept(limits, f.scopes[id].retained, chunk);
      PushChunk(limits, f, id, stream, chunk) == FrameBytes(limits, Account(f, id, |chunk|, |kept|), id, stream, kept)
  {
  }

  lemma PushRetains(limits: Limits, f: Front, id: string, stream: Stream, chunk: seq<byte>)
    requires id in f.scopes
    ensures var g := PushChunk(limits, f, id, stream, chunk);
      var retained := f.scopes[id].retained;
      id in g.scopes && g.scopes[id].retained == SatAdd(retained, |Kept(limits, retained, chunk)|)
  {
    var kept := Kept(limits, f.scopes[id].retained, chunk);
    FrameKeepsScopes(limits, Account(f, id, |chunk|, |kept|), id, stream, kept);
  }

  // Two chunks pushed in a row are framed one after the other.
  lemma PushTwice(limits: Limits, f: Front, id: string, stream: Stream, a: seq<byte>, b: seq<byte>, x: seq<byte>, y: seq<byte>)
    requires id in f.scopes && x == Kept(limits, f.scopes[id].retained, a)
    requires y == Kept(limits, SatAdd(f.scopes[id].retained, |x|), b)
    ensures id in FrameBytes(limits, Account(f, id, |a|, |x|), id, stream, x).scopes
    ensures PushChunk(limits, PushChunk(limits, f, id, stream, a), id, stream, b)
      == FrameBytes(limits, Account(FrameBytes(limits, Account(f, id, |a|, |x|), id, stream, x), id, |b|, |y|), id, stream, y)
  {
    PushRetains(limits, f, id, stream, a);
    PushKept(limits, f, id, stream, a);
    PushKept(limits, PushChunk(limits, f, id, stream, a), id, stream, b);
  }

  lemma PushWhole(limits: Limits, f: Front, id: string, stream: Stream, a: seq<byte>, b: seq<byte>, x: seq<byte>, y: seq<byte>)
    requires id in f.scopes && x + y == Kept(limits, f.scopes[id].retained, a + b) && |x| <= |a| && |y| <= |b|
    ensures PushChunk(limits, f, id, stream, a + b)
      == FrameBytes(limits, Account(f, id, |a| + |b|, |x| + |y|), id, stream, x + y)
  {
    PushKept(limits, f, id, stream, a + b);
  }

  /** Pushing two chunks in a row is pushing their concatenation. */
  lemma PushConcat(limits: Limits, f: Front, id: string, stream: Stream, a: seq<byte>, b: seq<byte>)
    ensures PushChunk(limits, PushChunk(limits, f, id, stream, a), id, stream, b)
      == PushChunk(limits, f, id, stream, a + b)
  {
    if id in f.scopes {
      var x := Kept(limits, f.scopes[id].retained, a);
      var y := Kept(limits, SatAdd(f.scopes[id].retained, |x|), b);
      PushTwice(limits, f, id, stream, a, b, x, y);
      PushParts(limits, f, id, stream, x, y, |a|, |b|);
      RoomSplits(limits, f.scopes[id].retained, a, b);
      PushWhole(limits, f, id, stream, a, b, x, y);
    }
  }

  /** Pushing nothing changes nothing. */
  lemma PushEmpty(limits: Limits, f: Front, id: string, stream: Stream)
    ensures PushChunk(limits, f, id, stream, []) == f
  {
    if id in f.scopes {
      var g := Account(f, id, 0, 0);
      assert g.scopes[id] == f.scopes[id];
      assert g.scopes == f.scopes && g == f;
    }
  }

  // ---------------------------------------------------------------- runs

  function Singles(id: string, stream: Stream, chunk: seq<byte>): seq<Op> {
    if chunk == [] then [] else Singles(id, stream, chunk[..|chunk| - 1]) + [Push(id, stream, [chunk[|chunk| - 1]])]
  }

  // An operation with its chunk cut into single bytes.
  function Single(op: Op): seq<Op> {
    if op.Push? then Singles(op.id, op.stream, op.chunk) else [op]
  }

  /** A run with every chunk cut into single bytes. Two runs that differ only in how adjacent chunks
      of one stream are cut or concatenated, empty chunks included, have the same bytewise form. */
  function Bytewise(ops: seq<Op>): seq<Op> {
    if ops == [] then []
    else
      var op := ops[|ops| - 1];
      Bytewise(ops[..|ops| - 1]) + Single(op)
  }

  lemma {:induction false} RunConcat(limits: Limits, f: Front, x: seq<Op>, y: seq<Op>)
    ensures RunFrom(limits, f, x + y) == RunFrom(limits, RunFrom(limits, f, x), y)
  {
    if y == [] {
      assert x + y == x;
    } else {
      assert (x + y)[..|x + y| - 1] == x + y[..|y| - 1];
      RunConcat(limits, f, x, y[..|y| - 1]);
    }
  }

  lemma {:induction false} RunSingles(limits: Limits, f: Front, id: string, stream: Stream, chunk: seq<byte>)
    ensures RunFrom(limits, f, Singles(id, stream, chunk)) == PushChunk(limits, f, id, stream, chunk)
  {
    if chunk == [] {
      PushEmpty(limits, f, id, stream);
    } else {
      var init, last := chunk[..|chunk| - 1], [chunk[|chunk| - 1]];
      RunSingles(limits, f, id, stream, init);
      RunConcat(limits, f, Singles(id, stream, init), [Push(id, stream, last)]);
      PushConcat(limits, f, id, stream, init, last);
      assert init + last == chunk;
    }
  }

  lemma {:induction false} RunBytewise(limits: Limits, f: Front, ops: seq<Op>)
    ensures RunFrom(limits, f, Bytewise(ops)) == RunFrom(limits, f, ops)
  {
    if ops != [] {
      var init, op := ops[..|ops| - 1], ops[|ops| - 1];
      RunBytewise(limits, f, init);
      RunConcat(limits, f, Bytewise(init), Single(op));
      if op.Push? {
        RunSingles(limits, RunFrom(limits, f, init), op.id, op.stream, op.chunk);
      } else {
        assert RunFrom(limits, RunFrom(limits, f, init), [op]) == Apply(limits, RunFrom(limits, f, init), op);
      }
    }
  }

  /** Chunk invariance: runs with the same bytewise form reach the same state, with the same counters
      and the same trace of events shown to the parsers. */
  lemma SameTrace(limits: Limits, ops1: seq<Op>, ops2: seq<Op>)
    requires Bytewise(ops1) == Bytewise(ops2)
    ensures Run(limits, ops1) == Run(limits, ops2)
  {
    RunBytewise(limits, INITIAL, ops1);
    RunBytewise(limits, INITIAL, ops2);
  }

  lemma BytewiseSnoc(ops: seq<Op>, op: Op)
    ensures Bytewise(ops + [op]) == Bytewise(ops) + Single(op)
  {
    InitOfAppend(ops, op);
  }

  lemma {:induction false} BytewiseConcat(x: seq<Op>, y: seq<Op>)
    ensures Bytewise(x + y) == Bytewise(x) + Bytewise(y)
  {
    if y == [] {
      assert x + y == x;
    } else {
      var init, op := y[..|y| - 1], y[|y| - 1];
      BytewiseConcat(x, init);
      assert y == init + [op];
      AppendAssociates(x, init, [op]);
      BytewiseSnoc(x + init, op);
      AppendAssociates(Bytewise(x), Bytewise(init), Single(op));
    }
  }

  lemma {:induction false} SinglesConcat(id: string, stream: Stream, a: seq<byte>, b: seq<byte>)
    ensures Singles(id, stream, a + b) == Singles(id, stream, a) + Singles(id, stream, b)
  {
    if b == [] {
      assert a + b == a;
    } else {
      assert (a + b)[..|a + b| - 1] == a + b[..|b| - 1];
      SinglesConcat(id, stream, a, b[..|b| - 1]);
    }
  }

  /** Joining two adjacent chunks of one stream anywhere in a run keeps its bytewise form. */
  lemma JoiningKeepsBytewise(before: seq<Op>, id: string, stream: Stream, a: seq<byte>, b: seq<byte>, after: seq<Op>)
    ensures Bytewise(before + [Push(id, stream, a), Push(id, stream, b)] + after)
      == Bytewise(before + [Push(id, stream, a + b)] + after)
  {
    var two, one := [Push(id, stream, a), Push(id, stream, b)], [Push(id, stream, a + b)];
    BytewiseConcat(before + two, after);
    BytewiseConcat(before, two);
    BytewiseConcat(before + one, after);
    BytewiseConcat(before, one);
    assert two == [Push(id, stream, a)] + [Push(id, stream, b)];
    BytewiseConcat([Push(id, stream, a)], [Push(id, stream, b)]);
    SinglesConcat(id, stream, a, b);
    assert Bytewise(one) == Singles(id, stream, a + b);
    assert Bytewise([Push(id, stream, a)]) == Singles(id, stream, a);
    assert Bytewise([Push(id, stream, b)]) == Singles(id, stream, b);
  }
}
