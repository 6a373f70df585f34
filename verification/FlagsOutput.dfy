// What the threads of the two-shot and one-shot kernels write, once their waits
// have returned, and the sum every rank ends every call with.
module FlagsOutput {
  import opened Arith
  import opened WireFormat
  import opened FlagsProtocol
  import opened AllReduceSum
  import opened FlagsKernels

  // Of partition q, the indices of thread tid below `upto` hold the result, the
  // rest what they held before.
  ghost predicate Written<F>(fl: Floats<F>, m: Message, out: seq<Pack>, before: seq<Pack>,
                             q: nat, tid: nat, stride: nat, upto: nat)
    requires m.Ok() && 0 < stride
  {
    |out| == |before| == m.size && q < m.ranks
    && forall j: nat | j < PartLen(m.ranks, q, m.size) :: PackWritten(fl, m, out, before, q, j, tid, stride, upto)
  }

  ghost predicate PackWritten<F>(fl: Floats<F>, m: Message, out: seq<Pack>, before: seq<Pack>, q: nat, j: nat, tid: nat, stride: nat, upto: nat)
    requires 0 < stride && m.Ok() && |out| == |before| == m.size && q < m.ranks && j < PartLen(m.ranks, q, m.size)
  {
    var i := PackAt(m.ranks, m.size, q, j);
    i < m.size && out[i] == if j < upto && Offset(stride, j) == tid then m.Result(fl)[i] else before[i]
  }

  // The same of every partition q, below upto[q].
  ghost predicate AllWritten<F>(fl: Floats<F>, m: Message, out: seq<Pack>, before: seq<Pack>,
                                tid: nat, stride: nat, upto: seq<nat>)
    requires m.Ok() && 0 < stride
  {
    |out| == |before| == m.size && |upto| == m.ranks
    && forall q: nat | q < m.ranks :: Written(fl, m, out, before, q, tid, stride, upto[q])
  }

  lemma NothingWritten<F>(fl: Floats<F>, m: Message, out: seq<Pack>, tid: nat, stride: nat) returns (upto: seq<nat>)
    requires m.Ok() && |out| == m.size && tid < stride
    ensures upto == seq(m.ranks, q => tid) && AllWritten(fl, m, out, out, tid, stride, upto)
  {
    upto := seq(m.ranks, q => tid);
    forall q: nat, j: nat | q < m.ranks && j < PartLen(m.ranks, q, m.size)
      ensures PackWritten(fl, m, out, out, q, j, tid, stride, tid)
    {
      PartCoordinates(m, q, j);
    }
  }

  // Writing element idx of partition q completes q up to the thread's next index and
  // leaves the other partitions alone.
  lemma WriteOne<F>(fl: Floats<F>, m: Message, out: seq<Pack>, before: seq<Pack>, after: seq<Pack>,
                    q: nat, o: nat, tid: nat, stride: nat, idx: nat, upto: nat)
    requires m.Ok() && q < m.ranks && idx < PartLen(m.ranks, q, m.size) && 0 < stride && Offset(stride, idx) == tid
    requires PackAt(m.ranks, m.size, q, idx) < m.size == |out|
    requires after == out[PackAt(m.ranks, m.size, q, idx) := m.Result(fl)[PackAt(m.ranks, m.size, q, idx)]]
    requires Written(fl, m, out, before, o, tid, stride, upto) && (o == q ==> upto == idx)
    ensures Written(fl, m, after, before, o, tid, stride, if o == q then idx + stride else upto)
  {
    var done := if o == q then idx + stride else upto;
    forall j: nat | j < PartLen(m.ranks, o, m.size)
      ensures PackWritten(fl, m, after, before, o, j, tid, stride, done)
    {
      assert PackWritten(fl, m, out, before, o, j, tid, stride, upto);
      if o == q && idx < j < idx + stride {
        OffsetBetween(stride, idx, j);
      }
      PackSteps(fl, m, out, before, after, q, o, j, tid, stride, idx, upto);
    }
  }

  // The store changes pack (q, idx) and no other.
  lemma PackSteps<F>(fl: Floats<F>, m: Message, out: seq<Pack>, before: seq<Pack>, after: seq<Pack>,
                     q: nat, o: nat, j: nat, tid: nat, stride: nat, idx: nat, upto: nat)
    requires m.Ok() && q < m.ranks && idx < PartLen(m.ranks, q, m.size) && |out| == |before| == m.size && 0 < stride
    requires PackAt(m.ranks, m.size, q, idx) < m.size && Offset(stride, idx) == tid
    requires after == out[PackAt(m.ranks, m.size, q, idx) := m.Result(fl)[PackAt(m.ranks, m.size, q, idx)]]
    requires o < m.ranks && j < PartLen(m.ranks, o, m.size) && PackWritten(fl, m, out, before, o, j, tid, stride, upto)
    requires o == q ==> upto == idx && (idx < j < idx + stride ==> Offset(stride, j) != tid)
    ensures PackWritten(fl, m, after, before, o, j, tid, stride, if o == q then idx + stride else upto)
  {
    PartCoordinates(m, q, idx);
    PartCoordinates(m, o, j);
  }

  // A store of one thread to its element idx of partition q.
  method Store<F(!new)>(ghost fl: Floats<F>, m: Message, x: Pack, q: nat, tid: nat, stride: nat, idx: nat,
                        out: array<Pack>, ghost before: seq<Pack>, ghost upto: seq<nat>)
    requires m.Ok() && q < m.ranks && idx < PartLen(m.ranks, q, m.size) && 0 < stride && Offset(stride, idx) == tid
    requires PackAt(m.ranks, m.size, q, idx) < m.size && x == m.Result(fl)[PackAt(m.ranks, m.size, q, idx)]
    requires out.Length == m.size && AllWritten(fl, m, out[..], before, tid, stride, upto) && upto[q] == idx
    modifies out
    ensures AllWritten(fl, m, out[..], before, tid, stride, upto[q := idx + stride])
  {
    ghost var was := out[..];
    var at := PackAt(m.ranks, m.size, q, idx);
    out[at] := x;
    assert out[..] == was[at := x];
    ghost var next := upto[q := idx + stride];
    forall o: nat | o < m.ranks
      ensures Written(fl, m, out[..], before, o, tid, stride, next[o])
    {
      WriteOne(fl, m, was, before, out[..], q, o, tid, stride, idx, upto[o]);
    }
  }

  // Past a partition's end there is nothing to write.
  lemma WrittenPast<F>(fl: Floats<F>, m: Message, out: seq<Pack>, before: seq<Pack>,
                       tid: nat, stride: nat, upto: seq<nat>, q: nat, more: nat)
    requires m.Ok() && 0 < stride && AllWritten(fl, m, out, before, tid, stride, upto)
    requires q < m.ranks && PartLen(m.ranks, q, m.size) <= upto[q] && PartLen(m.ranks, q, m.size) <= more
    ensures AllWritten(fl, m, out, before, tid, stride, upto[q := more])
  {
    var next := upto[q := more];
    forall o: nat | o < m.ranks
      ensures Written(fl, m, out, before, o, tid, stride, next[o])
    {
      assert Written(fl, m, out, before, o, tid, stride, upto[o]);
      if o == q {
        forall j: nat | j < PartLen(m.ranks, q, m.size)
          ensures PackWritten(fl, m, out, before, q, j, tid, stride, more)
        {
          assert PackWritten(fl, m, out, before, q, j, tid, stride, upto[q]);
        }
      }
    }
  }

  lemma {:induction false} NextOffset(stride: nat, idx: nat)
    requires 0 < stride
    ensures Offset(stride, idx + stride) == Offset(stride, idx)
  {
  }

  // A thread's waits and sum for element idx of its rank's partition.
  method ReduceOne<F(!new)>(fl: Floats<F>, m: Message, ghost call: Call, rank: nat, got: map<Place, Pack>, idx: nat)
    returns (red: Pack)
    requires NanOk(fl) && m.Ok() && IsTwoShot(fl, m, call) && rank < m.ranks && got == Received(call, rank)
    requires idx < PartLen(m.ranks, rank, m.size)
    ensures PackAt(m.ranks, m.size, rank, idx) < m.size
    ensures red == m.Result(fl)[PackAt(m.ranks, m.size, rank, idx)]
  {
    TwoWaited(fl, m, call, rank, got, idx);
    var at := PackAt(m.ranks, m.size, rank, idx);
    var v := Waited(got, m.ranks, rank, Sanitize(m.input[rank][at]), TwoLen(m), idx);
    red := ReduceOwnerOrder(fl, v, rank);
    PartCoordinates(m, rank, idx);
    ReducedIsResult(fl, m, at, rank);
    red := Sanitize(red);
  }

  // The second loop of two_shot: the thread's elements of its rank's own partition.
  method ReduceOwned<F(!new)>(fl: Floats<F>, m: Message, ghost call: Call, rank: nat, got: map<Place, Pack>,
                              tid: nat, stride: nat, out: array<Pack>) returns (ghost upto: seq<nat>)
    requires NanOk(fl) && m.Ok() && IsTwoShot(fl, m, call) && rank < m.ranks && got == Received(call, rank)
    requires tid < stride && out.Length == m.size
    modifies out
    ensures AllWritten(fl, m, out[..], old(out[..]), tid, stride, upto)
    ensures upto[rank] >= PartLen(m.ranks, rank, m.size) && forall q: nat | q < m.ranks && q != rank :: upto[q] == tid
  {
    ghost var before := out[..];
    upto := NothingWritten(fl, m, out[..], tid, stride);
    var mine := PartLen(m.ranks, rank, m.size);
    var idx := tid;
    while idx < mine
      invariant Offset(stride, idx) == tid
      invariant AllWritten(fl, m, out[..], before, tid, stride, upto) && upto[rank] == idx
      invariant forall q: nat | q < m.ranks && q != rank :: upto[q] == tid
      decreases mine - idx
    {
      var red := ReduceOne(fl, m, call, rank, got, idx);
      Store(fl, m, red, rank, tid, stride, idx, out, before, upto);
      upto := upto[rank := idx + stride];
      NextOffset(stride, idx);
      idx := idx + stride;
    }
  }

  // How many steps around the ranks lead from `rank` to q.
  function Turn(ranks: nat, rank: nat, q: nat): int {
    if q > rank then q - rank else q + ranks - rank
  }

  // Element idx of every other rank's partition.
  method GatherRound<F(!new)>(fl: Floats<F>, m: Message, ghost call: Call, rank: nat, got: map<Place, Pack>,
                              tid: nat, stride: nat, idx: nat, out: array<Pack>, ghost before: seq<Pack>, ghost from: seq<nat>)
    returns (ghost upto: seq<nat>)
    requires NanOk(fl) && m.Ok() && IsTwoShot(fl, m, call) && rank < m.ranks && got == Received(call, rank)
    requires 0 < stride && Offset(stride, idx) == tid
    requires out.Length == m.size && AllWritten(fl, m, out[..], before, tid, stride, from)
    requires forall q: nat | q < m.ranks && q != rank :: from[q] == idx
    modifies out
    ensures AllWritten(fl, m, out[..], before, tid, stride, upto) && upto[rank] == from[rank]
    ensures forall q: nat | q < m.ranks && q != rank :: upto[q] == idx + stride
  {
    upto := from;
    var i := 1;
    while i < m.ranks
      invariant 1 <= i <= m.ranks
      invariant AllWritten(fl, m, out[..], before, tid, stride, upto) && upto[rank] == from[rank]
      invariant forall q: nat | q < m.ranks && q != rank ::
                  upto[q] == if Turn(m.ranks, rank, q) < i then idx + stride else idx
    {
      var q := Around(rank + i, m.ranks);
      assert Turn(m.ranks, rank, q) == i;
      if idx < PartLen(m.ranks, q, m.size) {
        TwoGathered(fl, m, call, rank, got, q, idx);
        Store(fl, m, got[Place(rank, At(TwoLen(m), m.ranks + q, idx))], q, tid, stride, idx, out, before, upto);
      } else {
        WrittenPast(fl, m, out[..], before, tid, stride, upto, q, idx + stride);
      }
      upto := upto[q := idx + stride];
      i := i + 1;
    }
  }

  // The third loop of two_shot: the thread's elements of the other partitions.
  method GatherOthers<F(!new)>(fl: Floats<F>, m: Message, ghost call: Call, rank: nat, got: map<Place, Pack>,
                               tid: nat, stride: nat, out: array<Pack>, ghost before: seq<Pack>, ghost from: seq<nat>)
    returns (ghost upto: seq<nat>)
    requires NanOk(fl) && m.Ok() && IsTwoShot(fl, m, call) && rank < m.ranks && got == Received(call, rank)
    requires tid < stride && out.Length == m.size && AllWritten(fl, m, out[..], before, tid, stride, from)
    requires forall q: nat | q < m.ranks && q != rank :: from[q] == tid
    modifies out
    ensures AllWritten(fl, m, out[..], before, tid, stride, upto) && upto[rank] == from[rank]
    ensures forall q: nat | q < m.ranks && q != rank :: upto[q] >= PartLen(m.ranks, q, m.size)
  {
    upto := from;
    var n := TwoLen(m);
    var idx := tid;
    while idx < n
      invariant Offset(stride, idx) == tid
      invariant AllWritten(fl, m, out[..], before, tid, stride, upto) && upto[rank] == from[rank]
      invariant forall q: nat | q < m.ranks && q != rank :: upto[q] == idx
      decreases n - idx
    {
      upto := GatherRound(fl, m, call, rank, got, tid, stride, idx, out, before, upto);
      NextOffset(stride, idx);
      idx := idx + stride;
    }
    PartFacts(m.ranks, m.size);
  }

  // Once every partition is done, the thread has written its elements of the message
  // and no others.
  lemma AllDone<F>(fl: Floats<F>, m: Message, out: seq<Pack>, before: seq<Pack>, tid: nat, stride: nat, upto: seq<nat>, i: nat)
    requires m.Ok() && 0 < stride && AllWritten(fl, m, out, before, tid, stride, upto) && i < m.size
    requires forall q: nat | q < m.ranks :: upto[q] >= PartLen(m.ranks, q, m.size)
    ensures out[i] == if ThreadOf(m, i, stride) == tid then m.Result(fl)[i] else before[i]
  {
    var q := Owner(m.ranks, m.size, i);
    var j := OwnerPartition(m.ranks, m.size, i);
    PartCoordinates(m, q, j);
    assert Written(fl, m, out, before, q, tid, stride, upto[q]);
    assert PackWritten(fl, m, out, before, q, j, tid, stride, upto[q]);
  }

  // A thread of two_shot: its elements of the output become the result.
  method TwoShotThread<F(!new)>(fl: Floats<F>, m: Message, ghost call: Call, rank: nat, got: map<Place, Pack>,
                                tid: nat, stride: nat, out: array<Pack>)
    requires NanOk(fl) && m.Ok() && IsTwoShot(fl, m, call) && rank < m.ranks && got == Received(call, rank)
    requires tid < stride && out.Length == m.size
    modifies out
    ensures forall i: nat | i < m.size ::
              out[i] == if ThreadOf(m, i, stride) == tid then m.Result(fl)[i] else old(out[i])
  {
    ghost var before := out[..];
    ghost var upto := ReduceOwned(fl, m, call, rank, got, tid, stride, out);
    upto := GatherOthers(fl, m, call, rank, got, tid, stride, out, before, upto);
    forall i: nat | i < m.size
      ensures out[i] == if ThreadOf(m, i, stride) == tid then m.Result(fl)[i] else before[i]
    {
      AllDone(fl, m, out[..], before, tid, stride, upto, i);
    }
  }

  // A thread's waits and sum for element idx.
  method OneShotElement<F(!new)>(fl: Floats<F>, m: Message, rank: nat, got: map<Place, Pack>, idx: nat) returns (x: Pack)
    requires NanOk(fl) && m.Ok() && rank < m.ranks && got == Received(OneShot(m), rank) && idx < m.size
    ensures x == m.Result(fl)[idx]
  {
    OneWaited(m, rank, got, idx);
    var v := Waited(got, m.ranks, rank, Sanitize(m.input[rank][idx]), m.size, idx);
    OwnerIsRank(m.ranks, m.size, idx);
    var owner := Owner(m.ranks, m.size, idx);
    var red := ReduceOwnerOrder(fl, v, owner);
    ReducedIsResult(fl, m, idx, owner);
    x := Sanitize(red);
  }

  // A thread of one_shot.
  method OneShotThread<F(!new)>(fl: Floats<F>, m: Message, rank: nat, got: map<Place, Pack>,
                                tid: nat, stride: nat, out: array<Pack>)
    requires NanOk(fl) && m.Ok() && rank < m.ranks && got == Received(OneShot(m), rank)
    requires tid < stride && out.Length == m.size
    modifies out
    ensures forall i: nat | i < m.size :: out[i] == if Offset(stride, i) == tid then m.Result(fl)[i] else old(out[i])
  {
    var idx := tid;
    ghost var before := out[..];
    while idx < m.size
      invariant Offset(stride, idx) == tid && OneWritten(fl, m, out[..], before, tid, stride, idx)
      decreases m.size - idx
    {
      ghost var was := out[..];
      out[idx] := OneShotElement(fl, m, rank, got, idx);
      OneWrittenNext(fl, m, was, out[..], before, tid, stride, idx);
      NextOffset(stride, idx);
      idx := idx + stride;
    }
  }

  // The indices of thread tid below `upto` hold the result, the rest what they held.
  ghost predicate OneWritten<F>(fl: Floats<F>, m: Message, out: seq<Pack>, before: seq<Pack>, tid: nat, stride: nat, upto: nat)
    requires m.Ok() && 0 < stride
  {
    |out| == |before| == m.size
    && forall i: nat | i < m.size :: out[i] == if i < upto && Offset(stride, i) == tid then m.Result(fl)[i] else before[i]
  }

  lemma OneWrittenNext<F>(fl: Floats<F>, m: Message, was: seq<Pack>, out: seq<Pack>, before: seq<Pack>, tid: nat, stride: nat, idx: nat)
    requires m.Ok() && 0 < stride && Offset(stride, idx) == tid && idx < m.size && OneWritten(fl, m, was, before, tid, stride, idx)
    requires out == was[idx := m.Result(fl)[idx]]
    ensures OneWritten(fl, m, out, before, tid, stride, idx + stride)
  {
    forall j: nat | idx < j < idx + stride
      ensures Offset(stride, j) != tid
    {
      OffsetBetween(stride, idx, j);
    }
  }

  lemma OneWaited(m: Message, r: nat, got: map<Place, Pack>, i: nat)
    requires m.Ok() && r < m.ranks && i < m.size && got == Received(OneShot(m), r)
    ensures forall s: nat | s < m.ranks && s != r :: Place(r, At(m.size, s, i)) in got
    ensures Waited(got, m.ranks, r, Sanitize(m.input[r][i]), m.size, i) == Sanitized(m.Column(i))
  {
    forall s: nat | s < m.ranks && s != r
      ensures Place(r, At(m.size, s, i)) in got && got[Place(r, At(m.size, s, i))] == Sanitize(m.input[s][i])
    {
      OneAt(m, r, s, i);
    }
  }
}
