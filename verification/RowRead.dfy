// The batch reader: which rows are owned, exact reads with partial results and
// retries, and the split of a batch over threads whose failures are packed in place.
module RowRead {
  import opened Arith

  datatype Option<T> = None | Some(value: T)

  type Byte = x: int | 0 <= x < 256

  // --- Ownership ---------------------------------------------------------------------

  datatype Table = Table(ownerLo: int, ownerHi: int, heads: seq<int>, ends: seq<int>)
  {
    // Head offsets ascend, as std::upper_bound needs.
    ghost predicate Sorted() {
      |heads| == |ends| && forall h, g | 0 <= h <= g < |heads| :: heads[h] <= heads[g]
    }

    // No head's vocabulary runs into the next head; the loader refuses other tables.
    ghost predicate Apart() {
      Sorted() && forall h, g | 0 <= h < g < |heads| :: ends[h] <= heads[g]
    }

    ghost predicate InHead(h: int, row: int) {
      0 <= h < |heads| == |ends| && heads[h] <= row < ends[h]
    }
  }

  // std::upper_bound: how many heads start at or before the row.
  method UpperBound(heads: seq<int>, row: int) returns (n: nat)
    requires forall h, g | 0 <= h <= g < |heads| :: heads[h] <= heads[g]
    ensures n <= |heads|
    ensures forall h | 0 <= h < |heads| :: heads[h] <= row <==> h < n
  {
    n := 0;
    var hi := |heads|;
    while n < hi
      invariant 0 <= n <= hi <= |heads|
      invariant forall h | 0 <= h < n :: heads[h] <= row
      invariant forall h | hi <= h < |heads| :: heads[h] > row
    {
      var mid := (n + hi) / 2;
      if heads[mid] <= row {
        n := mid + 1;
      } else {
        hi := mid;
      }
    }
  }

  // The last head that starts at or before the row decides.
  ghost predicate LastHead(t: Table, row: int, h: int) {
    0 <= h < |t.heads| && t.heads[h] <= row && forall g | h < g < |t.heads| :: t.heads[g] > row
  }

  ghost predicate Owned(t: Table, row: int)
    requires t.Sorted()
  {
    t.ownerLo <= row < t.ownerHi && exists h :: LastHead(t, row, h) && row < t.ends[h]
  }

  method Owns(t: Table, row: int) returns (owns: bool)
    requires t.Sorted()
    ensures owns <==> Owned(t, row)
  {
    if row < t.ownerLo || row >= t.ownerHi {
      return false;
    }
    var after := UpperBound(t.heads, row);
    if after == 0 {
      return false;
    }
    owns := row < t.ends[after - 1];
    assert LastHead(t, row, after - 1);
  }

  // With heads apart, that is a linear search for a head holding the row.
  lemma OwnedLinear(t: Table, row: int)
    requires t.Apart()
    ensures Owned(t, row) <==> t.ownerLo <= row < t.ownerHi && exists h :: t.InHead(h, row)
  {
    if Owned(t, row) {
      var h :| LastHead(t, row, h) && row < t.ends[h];
      assert t.InHead(h, row);
    } else if h :| t.InHead(h, row) {
      assert forall g | h < g < |t.heads| :: t.heads[g] > row;
      assert LastHead(t, row, h);
    }
  }

  // In a table the loader refuses, a row inside an earlier head that runs into the next would
  // not be owned.
  lemma OverlapNotOwned()
    ensures var t := Table(0, 10, [0, 4], [6, 5]);
      t.Sorted() && t.InHead(0, 5) && !Owned(t, 5)
  {
    var t := Table(0, 10, [0, 4], [6, 5]);
    assert LastHead(t, 5, 1);
    assert t.InHead(0, 5);
  }

  // --- Exact reads -----------------------------------------------------------------------

  // What one pread gives: some bytes, an interrupt, or an error.
  datatype Answer = Got(n: nat) | Interrupted | Error(errno: int)

  // A pread of `want` bytes at `offset` of the file may return any part of what is
  // there, and nothing only at the end of the file.
  ghost predicate Honest(file: seq<Byte>, offset: nat, want: nat, a: Answer) {
    a.Got? ==> a.n <= want && (offset < |file| && 0 < want ==> 0 < a.n <= |file| - offset) && (offset >= |file| ==> a.n == 0)
  }

  // The answers of a read whose successive preads move on by what they got.
  ghost predicate HonestRun(file: seq<Byte>, offset: nat, want: nat, answers: seq<Answer>)
    decreases |answers|
  {
    answers == []
    || (Honest(file, offset, want, answers[0])
        && HonestRun(file, if answers[0].Got? then offset + answers[0].n else offset,
                     if answers[0].Got? && answers[0].n <= want then want - answers[0].n else want, answers[1..]))
  }

  // Unserved: the answers ran out first.
  datatype ReadResult = Whole | Failed(error: int, reached: nat) | Unserved

  // What the answers of read_exact amount to.
  function ExactResult(offset: nat, length: nat, answers: seq<Answer>): ReadResult
    decreases |answers|
  {
    if length == 0 then Whole
    else if answers == [] then Unserved
    else match answers[0]
      case Interrupted => ExactResult(offset, length, answers[1..])
      case Error(e) => Failed(e, offset)
      case Got(n) =>
        if n == 0 then Failed(0, offset)
        else if n > length then Unserved
        else ExactResult(offset + n, length - n, answers[1..])
  }

  // The bytes these answers give.
  function Bytes(answers: seq<Answer>): nat {
    if answers == [] then 0
    else Bytes(answers[..|answers| - 1]) + (if answers[|answers| - 1].Got? then answers[|answers| - 1].n else 0)
  }

  // An answer that ends a read: an error, or the end of the file.
  ghost predicate Stops(a: Answer, error: int) {
    a == Error(error) || (a == Got(0) && error == 0)
  }

  // Answers after which a read of whole units goes on: interrupts, and bytes in whole units.
  ghost predicate GoesOn(unit: nat, answers: seq<Answer>)
    requires 0 < unit
  {
    forall i | 0 <= i < |answers| :: answers[i].Interrupted? || (answers[i].Got? && 0 < answers[i].n && answers[i].n % unit == 0)
  }

  // The first k answers give all `need` bytes, and not before the last of them.
  ghost predicate WholeAt(unit: nat, need: nat, answers: seq<Answer>, k: nat)
    requires 0 < unit && k <= |answers|
  {
    && Bytes(answers[..k]) >= need
    && (k > 0 ==> GoesOn(unit, answers[..k - 1]) && Bytes(answers[..k - 1]) < need && answers[k - 1].Got? && 0 < answers[k - 1].n)
  }

  // Answer k ends the read before it has `need` bytes: it is an error, the end of the file, or
  // bytes short of a unit.
  ghost predicate FailsAt(unit: nat, at: nat, need: nat, answers: seq<Answer>, k: nat, error: int, reached: nat)
    requires 0 < unit && k < |answers|
  {
    && GoesOn(unit, answers[..k]) && Bytes(answers[..k + 1]) < need && reached == at + Bytes(answers[..k + 1])
    && (Stops(answers[k], error) || (answers[k].Got? && answers[k].n % unit != 0 && error == 0))
  }

  // How a read of `need` bytes at `at` in whole units ends, said by its answers.
  ghost predicate EndsAs(unit: nat, at: nat, need: nat, answers: seq<Answer>, r: ReadResult)
    requires 0 < unit
  {
    match r
    case Whole => exists k: nat :: k <= |answers| && WholeAt(unit, need, answers, k)
    case Failed(error, reached) => exists k: nat :: k < |answers| && FailsAt(unit, at, need, answers, k, error, reached)
    case Unserved => GoesOn(unit, answers) && Bytes(answers) < need
  }

  lemma {:induction false} BytesCons(a: Answer, rest: seq<Answer>)
    ensures Bytes([a] + rest) == (if a.Got? then a.n else 0) + Bytes(rest)
    decreases |rest|
  {
    if rest == [] {
      assert ([a] + rest)[..0] == [] && [a] + rest == [a];
    } else {
      BytesCons(a, rest[..|rest| - 1]);
      assert ([a] + rest)[..|rest|] == [a] + rest[..|rest| - 1];
    }
  }

  // Answers that end a shorter read end one that an interrupt or bytes began.
  lemma EndsCons(unit: nat, at: nat, need: nat, a: Answer, rest: seq<Answer>, r: ReadResult)
    requires 0 < unit && 0 < need && (a.Interrupted? || (a.Got? && 0 < a.n && a.n % unit == 0))
    requires var n := if a.Got? then a.n else 0; n < need && EndsAs(unit, at + n, need - n, rest, r)
    ensures EndsAs(unit, at, need, [a] + rest, r)
  {
    match r {
      case Whole =>
        var k: nat :| k <= |rest| && WholeAt(unit, need - (if a.Got? then a.n else 0), rest, k);
        WholeCons(unit, need, a, rest, k);
      case Failed(error, reached) =>
        var k: nat :| k < |rest| && FailsAt(unit, at + (if a.Got? then a.n else 0), need - (if a.Got? then a.n else 0), rest, k, error, reached);
        FailsCons(unit, at, need, a, rest, k, error, reached);
      case Unserved =>
        BytesCons(a, rest);
    }
  }

  lemma WholeCons(unit: nat, need: nat, a: Answer, rest: seq<Answer>, k: nat)
    requires 0 < unit && (a.Interrupted? || (a.Got? && 0 < a.n && a.n % unit == 0)) && k <= |rest|
    requires var n := if a.Got? then a.n else 0; n < need && WholeAt(unit, need - n, rest, k)
    ensures WholeAt(unit, need, [a] + rest, k + 1)
  {
    var all := [a] + rest;
    assert all[..k + 1] == [a] + rest[..k] && all[..k] == [a] + rest[..k - 1];
    BytesCons(a, rest[..k]);
    BytesCons(a, rest[..k - 1]);
  }

  lemma FailsCons(unit: nat, at: nat, need: nat, a: Answer, rest: seq<Answer>, k: nat, error: int, reached: nat)
    requires 0 < unit && (a.Interrupted? || (a.Got? && 0 < a.n && a.n % unit == 0)) && k < |rest|
    requires var n := if a.Got? then a.n else 0; n < need && FailsAt(unit, at + n, need - n, rest, k, error, reached)
    ensures FailsAt(unit, at, need, [a] + rest, k + 1, error, reached)
  {
    var all := [a] + rest;
    assert all[..k + 1] == [a] + rest[..k] && all[..k + 2] == [a] + rest[..k + 1];
    BytesCons(a, rest[..k + 1]);
  }

  lemma EndsHere(unit: nat, at: nat, need: nat, a: Answer, rest: seq<Answer>)
    requires 0 < unit && 0 < need
    ensures a.Error? ==> EndsAs(unit, at, need, [a] + rest, Failed(a.errno, at))
    ensures a == Got(0) ==> EndsAs(unit, at, need, [a] + rest, Failed(0, at))
    ensures a.Got? && need <= a.n ==> EndsAs(unit, at, need, [a] + rest, Whole)
    ensures a.Got? && a.n < need && a.n % unit != 0 ==> EndsAs(unit, at, need, [a] + rest, Failed(0, at + a.n))
  {
    var all := [a] + rest;
    BytesCons(a, []);
    assert all[..0] == [] && all[..1] == [a] + [] && [a] == [a] + [];
    if a.Error? {
      assert FailsAt(unit, at, need, all, 0, a.errno, at);
    } else if a == Got(0) {
      assert FailsAt(unit, at, need, all, 0, 0, at);
    } else if a.Got? && need <= a.n {
      assert WholeAt(unit, need, all, 1);
    } else if a.Got? && a.n % unit != 0 {
      assert FailsAt(unit, at, need, all, 0, 0, at + a.n);
    }
  }

  // read_exact reads in units of a byte.
  lemma {:induction false} ExactEnds(file: seq<Byte>, offset: nat, length: nat, answers: seq<Answer>)
    requires HonestRun(file, offset, length, answers)
    ensures EndsAs(1, offset, length, answers, ExactResult(offset, length, answers))
    decreases |answers|
  {
    if length == 0 {
      assert answers[..0] == [] && WholeAt(1, length, answers, 0);
    } else if answers != [] {
      var n, rest := HonestNext(file, offset, length, answers);
      if !(answers[0].Error? || answers[0] == Got(0) || n == length) {
        ExactEnds(file, offset + n, length - n, rest);
        ExactMore(offset, length, answers[0], rest, n);
      } else {
        ExactHere(offset, length, answers[0], rest);
      }
    }
  }

  lemma HonestNext(file: seq<Byte>, offset: nat, length: nat, answers: seq<Answer>) returns (n: nat, rest: seq<Answer>)
    requires HonestRun(file, offset, length, answers) && answers != []
    ensures n == (if answers[0].Got? then answers[0].n else 0) && n <= length
    ensures HonestRun(file, offset + n, length - n, rest) && answers == [answers[0]] + rest
  {
    n, rest := if answers[0].Got? then answers[0].n else 0, answers[1..];
  }

  lemma ExactMore(offset: nat, length: nat, a: Answer, rest: seq<Answer>, n: nat)
    requires n == (if a.Got? then a.n else 0) && n < length && !a.Error? && a != Got(0)
    requires EndsAs(1, offset + n, length - n, rest, ExactResult(offset + n, length - n, rest))
    ensures EndsAs(1, offset, length, [a] + rest, ExactResult(offset, length, [a] + rest))
  {
    EndsCons(1, offset, length, a, rest, ExactResult(offset + n, length - n, rest));
    assert ([a] + rest)[1..] == rest;
  }

  lemma ExactHere(offset: nat, length: nat, a: Answer, rest: seq<Answer>)
    requires 0 < length && (a.Error? || a == Got(0) || a == Got(length))
    ensures EndsAs(1, offset, length, [a] + rest, ExactResult(offset, length, [a] + rest))
  {
    var all := [a] + rest;
    EndsHere(1, offset, length, a, rest);
    assert all[0] == a && all[1..] == rest;
    assert ExactResult(offset, length, all)
           == if a.Error? then Failed(a.errno, offset) else if a == Got(0) then Failed(0, offset) else Whole;
  }

  lemma {:induction false} BytesGrow(answers: seq<Answer>, i: nat, j: nat)
    requires i <= j <= |answers|
    ensures Bytes(answers[..i]) <= Bytes(answers[..j])
    decreases j
  {
    if i < j {
      BytesGrow(answers, i, j - 1);
      assert answers[..j][..j - 1] == answers[..j - 1];
    }
  }

  // The answers leave one way to end.
  lemma EndsOnce(unit: nat, at: nat, need: nat, answers: seq<Answer>, r: ReadResult, s: ReadResult)
    requires 0 < unit && EndsAs(unit, at, need, answers, r) && EndsAs(unit, at, need, answers, s)
    ensures r == s
  {
    if r.Whole? {
      WholeOnce(unit, at, need, answers, s);
    } else if s.Whole? {
      WholeOnce(unit, at, need, answers, r);
    } else if r.Failed? && s.Failed? {
      var k: nat :| k < |answers| && FailsAt(unit, at, need, answers, k, r.error, r.reached);
      var l: nat :| l < |answers| && FailsAt(unit, at, need, answers, l, s.error, s.reached);
      if k < l {
        NotBefore(unit, at, need, answers, k, r.error, r.reached, l);
      } else if l < k {
        NotBefore(unit, at, need, answers, l, s.error, s.reached, k);
      }
    }
  }

  lemma WholeOnce(unit: nat, at: nat, need: nat, answers: seq<Answer>, r: ReadResult)
    requires 0 < unit && EndsAs(unit, at, need, answers, Whole) && EndsAs(unit, at, need, answers, r)
    ensures r == Whole
  {
    var k: nat :| k <= |answers| && WholeAt(unit, need, answers, k);
    if r.Failed? {
      var l: nat :| l < |answers| && FailsAt(unit, at, need, answers, l, r.error, r.reached);
      NotWhole(unit, at, need, answers, l, r.error, r.reached, k);
    } else if r.Unserved? {
      assert answers[..|answers|] == answers;
      BytesGrow(answers, k, |answers|);
    }
  }

  lemma NotWhole(unit: nat, at: nat, need: nat, answers: seq<Answer>, l: nat, error: int, reached: nat, k: nat)
    requires 0 < unit && l < |answers| && FailsAt(unit, at, need, answers, l, error, reached) && k <= |answers|
    ensures !WholeAt(unit, need, answers, k)
  {
    if k <= l + 1 {
      BytesGrow(answers, k, l + 1);
    } else {
      NotBefore(unit, at, need, answers, l, error, reached, k - 1);
    }
  }

  // No read goes on behind an answer that ends it.
  lemma NotBefore(unit: nat, at: nat, need: nat, answers: seq<Answer>, k: nat, error: int, reached: nat, l: nat)
    requires 0 < unit && k < l <= |answers| && FailsAt(unit, at, need, answers, k, error, reached)
    ensures !GoesOn(unit, answers[..l])
  {
    assert answers[..l][k] == answers[k];
  }

  // The answers but the interrupts.
  function Served(answers: seq<Answer>): seq<Answer> {
    if answers == [] then [] else (if answers[0].Interrupted? then [] else [answers[0]]) + Served(answers[1..])
  }

  // An interrupt anywhere changes nothing.
  lemma {:induction false} InterruptsExact(offset: nat, length: nat, answers: seq<Answer>)
    ensures ExactResult(offset, length, answers) == ExactResult(offset, length, Served(answers))
    decreases |answers|
  {
    if length > 0 && answers != [] {
      var a, rest := answers[0], answers[1..];
      if a.Got? && 0 < a.n <= length {
        InterruptsExact(offset + a.n, length - a.n, rest);
      } else {
        InterruptsExact(offset, length, rest);
      }
      assert !a.Interrupted? ==> Served(answers)[0] == a && Served(answers)[1..] == Served(rest);
      assert a.Interrupted? ==> Served(answers) == Served(rest);
    }
  }

  // dest[at..at + n] holds the file's bytes from offset on.
  ghost predicate Copied(dest: seq<Byte>, at: nat, file: seq<Byte>, offset: nat, n: nat) {
    at + n <= |dest| && (0 < n ==> offset + n <= |file|)
    && forall i | at <= i < at + n :: dest[i] == file[i - at + offset]
  }

  // n more bytes of the file after the `done` that dest[at..] holds of it.
  method Continue(file: seq<Byte>, dest: array<Byte>, at: nat, offset: nat, done: nat, n: nat)
    requires at + done + n <= dest.Length && offset + done + n <= |file|
    requires Copied(dest[..], at, file, offset, done)
    modifies dest
    ensures Copied(dest[..], at, file, offset, done + n)
    ensures forall i | 0 <= i < dest.Length && !(at <= i < at + done + n) :: dest[i] == old(dest[i])
  {
    Fill(dest, at + done, file[offset + done..offset + done + n]);
    forall i | at <= i < at + done + n
      ensures dest[i] == file[i - at + offset]
    {
      if i >= at + done {
        assert file[offset + done..offset + done + n][i - at - done] == file[i - at + offset];
      } else {
        assert old(dest[..])[i] == file[i - at + offset];
      }
    }
  }

  // read_exact into dest[at..at + length].
  method ReadExact(file: seq<Byte>, dest: array<Byte>, at: nat, length: nat, offset: nat, answers: seq<Answer>) returns (r: ReadResult)
    requires at + length <= dest.Length && HonestRun(file, offset, length, answers)
    modifies dest
    ensures forall i | 0 <= i < dest.Length && !(at <= i < at + length) :: dest[i] == old(dest[i])
    ensures r == ExactResult(offset, length, answers) == ExactResult(offset, length, Served(answers))
    ensures EndsAs(1, offset, length, answers, r)
    ensures r.Failed? && r.error != 0 ==> Error(r.error) in answers
    ensures r.Whole? ==> Copied(dest[..], at, file, offset, length)
    ensures r.Failed? ==> offset <= r.reached < offset + length && Copied(dest[..], at, file, offset, r.reached - offset)
    ensures r.Failed? && r.error == 0 && Error(0) !in answers ==> r.reached >= |file|
  {
    var done, used := 0, 0;
    ghost var before := dest[..];
    ExactEnds(file, offset, length, answers);
    InterruptsExact(offset, length, answers);
    while done < length
      invariant 0 <= done <= length && 0 <= used <= |answers|
      invariant HonestRun(file, offset + done, length - done, answers[used..])
      invariant ExactResult(offset, length, answers) == ExactResult(offset + done, length - done, answers[used..])
      invariant Copied(dest[..], at, file, offset, done)
      invariant forall i | 0 <= i < dest.Length && !(at <= i < at + length) :: dest[i] == before[i]
      decreases |answers| - used
    {
      if used == |answers| {
        return Unserved;
      }
      var a := answers[used];
      assert answers[used..][0] == a && answers[used..][1..] == answers[used + 1..];
      used := used + 1;
      match a
      case Interrupted =>
      case Error(e) =>
        return Failed(e, offset + done);
      case Got(n) =>
        if n == 0 {
          return Failed(0, offset + done);
        }
        Continue(file, dest, at, offset, done, n);
        done := done + n;
    }
    r := Whole;
  }

  method Fill(dest: array<Byte>, at: nat, bytes: seq<Byte>)
    requires at + |bytes| <= dest.Length
    modifies dest
    ensures forall i | 0 <= i < dest.Length ::
              dest[i] == if at <= i < at + |bytes| then bytes[i - at] else old(dest[i])
  {
    for k := 0 to |bytes|
      invariant forall i | 0 <= i < dest.Length ::
                  dest[i] == if at <= i < at + k then bytes[i - at] else old(dest[i])
    {
      dest[at + k] := bytes[k];
    }
  }

  const DIRECT_ALIGN := 4096

  // A direct read gets whole aligned spans, short only at the end of the file.
  ghost predicate Aligned(file: seq<Byte>, offset: nat, want: nat, answers: seq<Answer>)
    decreases |answers|
  {
    answers == []
    || (Honest(file, offset, want, answers[0])
        && (answers[0].Got? && answers[0].n % DIRECT_ALIGN != 0 ==> offset + answers[0].n == |file|)
        && Aligned(file, if answers[0].Got? then offset + answers[0].n else offset,
                   if answers[0].Got? && answers[0].n <= want then want - answers[0].n else want, answers[1..]))
  }

  lemma AlignedSum(a: nat, b: nat)
    requires a % DIRECT_ALIGN == 0
    ensures (a + b) % DIRECT_ALIGN == 0 <==> b % DIRECT_ALIGN == 0
  {
  }

  // What the answers of read_direct amount to: `at` is how far it is, `need` the bytes it
  // still needs.
  function DirectResult(at: nat, need: int, answers: seq<Answer>): ReadResult
    decreases |answers|
  {
    if need <= 0 then Whole
    else if answers == [] then Unserved
    else match answers[0]
      case Interrupted => DirectResult(at, need, answers[1..])
      case Error(e) => Failed(e, at)
      case Got(n) =>
        if n == 0 then Failed(0, at)
        else if n % DIRECT_ALIGN != 0 then (if n >= need then Whole else Failed(0, at + n))
        else DirectResult(at + n, need - n, answers[1..])
  }

  // read_direct reads in units of the alignment.
  lemma {:induction false} DirectEnds(at: nat, need: nat, answers: seq<Answer>)
    ensures EndsAs(DIRECT_ALIGN, at, need, answers, DirectResult(at, need, answers))
    decreases |answers|
  {
    if need == 0 {
      assert answers[..0] == [] && WholeAt(DIRECT_ALIGN, need, answers, 0);
    } else if answers != [] {
      var a, rest := answers[0], answers[1..];
      assert answers == [a] + rest;
      var n := if a.Got? then a.n else 0;
      if a.Interrupted? || (a.Got? && 0 < a.n < need && a.n % DIRECT_ALIGN == 0) {
        DirectEnds(at + n, need - n, rest);
        DirectMore(at, need, a, rest, n);
      } else {
        DirectHere(at, need, a, rest);
      }
    }
  }

  lemma DirectMore(at: nat, need: nat, a: Answer, rest: seq<Answer>, n: nat)
    requires n == (if a.Got? then a.n else 0) && n < need
    requires a.Interrupted? || (a.Got? && 0 < a.n && a.n % DIRECT_ALIGN == 0)
    requires EndsAs(DIRECT_ALIGN, at + n, need - n, rest, DirectResult(at + n, need - n, rest))
    ensures EndsAs(DIRECT_ALIGN, at, need, [a] + rest, DirectResult(at, need, [a] + rest))
  {
    EndsCons(DIRECT_ALIGN, at, need, a, rest, DirectResult(at + n, need - n, rest));
    assert ([a] + rest)[1..] == rest;
  }

  lemma DirectHere(at: nat, need: nat, a: Answer, rest: seq<Answer>)
    requires 0 < need && (a.Error? || (a.Got? && (a.n == 0 || need <= a.n || a.n % DIRECT_ALIGN != 0)))
    ensures EndsAs(DIRECT_ALIGN, at, need, [a] + rest, DirectResult(at, need, [a] + rest))
  {
    var all := [a] + rest;
    EndsHere(DIRECT_ALIGN, at, need, a, rest);
    assert all[0] == a && all[1..] == rest;
    assert DirectResult(at, need, all)
           == if a.Error? then Failed(a.errno, at) else if a == Got(0) then Failed(0, at) else if need <= a.n then Whole else Failed(0, at + a.n);
  }

  lemma {:induction false} InterruptsDirect(at: nat, need: int, answers: seq<Answer>)
    ensures DirectResult(at, need, answers) == DirectResult(at, need, Served(answers))
    decreases |answers|
  {
    if need > 0 && answers != [] {
      var a, rest := answers[0], answers[1..];
      var n := if a.Got? then a.n else 0;
      InterruptsDirect(at + n, need - n, rest);
      assert !a.Interrupted? ==> Served(answers)[0] == a && Served(answers)[1..] == Served(rest);
      assert a.Interrupted? ==> Served(answers) == Served(rest);
    }
  }

  // read_direct: at least the first `need` bytes of the aligned span at `start`.
  method ReadDirect(file: seq<Byte>, span: array<Byte>, length: nat, start: nat, need: nat, answers: seq<Answer>) returns (r: ReadResult)
    requires need <= length <= span.Length && Aligned(file, start, length, answers)
    modifies span
    ensures r == DirectResult(start, need, answers) == DirectResult(start, need, Served(answers))
    ensures EndsAs(DIRECT_ALIGN, start, need, answers, r)
    ensures r.Failed? && r.error != 0 ==> Error(r.error) in answers
    ensures r.Whole? ==> Copied(span[..], 0, file, start, need)
    ensures r.Failed? && r.error == 0 && Error(0) !in answers ==> r.reached >= |file| && r.reached < start + need
  {
    var done, used := 0, 0;
    DirectEnds(start, need, answers);
    InterruptsDirect(start, need, answers);
    while done < need
      invariant 0 <= done <= length && 0 <= used <= |answers| && done % DIRECT_ALIGN == 0
      invariant Aligned(file, start + done, length - done, answers[used..])
      invariant DirectResult(start, need, answers) == DirectResult(start + done, need - done, answers[used..])
      invariant Copied(span[..], 0, file, start, done)
      decreases |answers| - used
    {
      if used == |answers| {
        return Unserved;
      }
      var a := answers[used];
      assert answers[used..][0] == a && answers[used..][1..] == answers[used + 1..];
      used := used + 1;
      match a
      case Interrupted =>
      case Error(e) =>
        return Failed(e, start + done);
      case Got(n) =>
        if n == 0 {
          break;
        }
        Continue(file, span, 0, start, done, n);
        AlignedSum(done, n);
        done := done + n;
        if done % DIRECT_ALIGN != 0 {
          break;
        }
    }
    r := if done >= need then Whole else Failed(0, start + done);
  }

  // How a row is read: its place in the file, the retries, and direct or buffered.
  datatype Source = Source(file: seq<Byte>, base: nat, rowBytes: nat, retries: nat, direct: bool)

  function DirectSpanBytes(rowBytes: nat): nat {
    (rowBytes + DIRECT_ALIGN - 1) / DIRECT_ALIGN * DIRECT_ALIGN + DIRECT_ALIGN
  }

  // The answers an attempt at a row may get.
  ghost predicate Attempt(t: Source, offset: nat, answers: seq<Answer>) {
    if t.direct then Aligned(t.file, SpanStart(offset), SpanLength(t.rowBytes, offset), answers)
    else HonestRun(t.file, offset, t.rowBytes, answers)
  }

  // The aligned span of a row: where it starts, the bytes of it up to the row's end, and
  // its length.
  function SpanStart(offset: nat): (start: nat)
    ensures start <= offset
  {
    offset - offset % DIRECT_ALIGN
  }

  function SpanNeed(rowBytes: nat, offset: nat): nat {
    offset - SpanStart(offset) + rowBytes
  }

  function SpanLength(rowBytes: nat, offset: nat): nat {
    (SpanNeed(rowBytes, offset) + DIRECT_ALIGN - 1) / DIRECT_ALIGN * DIRECT_ALIGN
  }

  // The aligned span of any row: the blocks it lies in up to its end. It fits the buffer sized
  // by the row alone.
  lemma SpanFits(rowBytes: nat, offset: nat)
    ensures SpanStart(offset) % 4096 == 0 && SpanLength(rowBytes, offset) % 4096 == 0 && offset - SpanStart(offset) < 4096
    ensures SpanStart(offset) + SpanNeed(rowBytes, offset) == offset + rowBytes
    ensures SpanLength(rowBytes, offset) < SpanNeed(rowBytes, offset) + 4096
    ensures SpanNeed(rowBytes, offset) <= SpanLength(rowBytes, offset) <= DirectSpanBytes(rowBytes)
  {
  }

  // What one attempt at the row at `offset` amounts to.
  function AttemptResult(t: Source, offset: nat, answers: seq<Answer>): ReadResult {
    if t.direct then DirectResult(SpanStart(offset), SpanNeed(t.rowBytes, offset), answers)
    else ExactResult(offset, t.rowBytes, answers)
  }

  // The first attempt that gets the row ends the tries; otherwise the last one's error
  // stands.
  function TriesResult(t: Source, offset: nat, tries: seq<seq<Answer>>): ReadResult
    requires |tries| > 0
    decreases |tries|
  {
    var r := AttemptResult(t, offset, tries[0]);
    if r.Failed? && |tries| > 1 then TriesResult(t, offset, tries[1..]) else r
  }

  // A row fails exactly when every attempt at it fails, with the last one's error.
  lemma {:induction false} FailsWhenAllFail(t: Source, offset: nat, tries: seq<seq<Answer>>)
    requires |tries| > 0
    ensures TriesResult(t, offset, tries).Failed? <==> forall k | 0 <= k < |tries| :: AttemptResult(t, offset, tries[k]).Failed?
    ensures TriesResult(t, offset, tries).Failed? ==> TriesResult(t, offset, tries) == AttemptResult(t, offset, tries[|tries| - 1])
    decreases |tries|
  {
    if |tries| > 1 {
      FailsWhenAllFail(t, offset, tries[1..]);
      if forall k | 0 <= k < |tries| :: AttemptResult(t, offset, tries[k]).Failed? {
        forall k | 0 <= k < |tries| - 1
          ensures AttemptResult(t, offset, tries[1..][k]).Failed?
        {
          assert tries[1..][k] == tries[k + 1];
        }
      }
      if TriesResult(t, offset, tries).Failed? {
        forall k | 1 <= k < |tries|
          ensures AttemptResult(t, offset, tries[k]).Failed?
        {
          assert tries[k] == tries[1..][k - 1];
        }
      }
    }
  }

  // How an attempt at a row ends, said by its answers: a read of the row's bytes, or of the
  // aligned blocks around them up to its end.
  ghost predicate AttemptEnd(t: Source, row: nat, answers: seq<Answer>, r: ReadResult) {
    var at := t.base + row * t.rowBytes;
    0 <= at
    && if t.direct then EndsAs(4096, at - at % 4096, at % 4096 + t.rowBytes, answers, r)
       else EndsAs(1, at, t.rowBytes, answers, r)
  }

  ghost predicate AttemptFails(t: Source, row: nat, answers: seq<Answer>) {
    exists error: int, reached: nat :: AttemptEnd(t, row, answers, Failed(error, reached))
  }

  // How a row's attempts end: as attempt k, those before it having failed; a failure is the last one's.
  ghost predicate TriesEnd(t: Source, row: nat, tries: seq<seq<Answer>>, r: ReadResult) {
    exists k: nat :: k < |tries| && TriesEndAt(t, row, tries, r, k)
  }

  ghost predicate TriesEndAt(t: Source, row: nat, tries: seq<seq<Answer>>, r: ReadResult, k: nat)
    requires k < |tries|
  {
    && AttemptEnd(t, row, tries[k], r) && (r.Failed? ==> k == |tries| - 1)
    && forall j: nat | j < k :: AttemptFails(t, row, tries[j])
  }

  lemma {:induction false} TriesAt(t: Source, offset: nat, tries: seq<seq<Answer>>) returns (k: nat)
    requires |tries| > 0
    ensures k < |tries| && TriesResult(t, offset, tries) == AttemptResult(t, offset, tries[k])
    ensures forall j: nat | j < k :: AttemptResult(t, offset, tries[j]).Failed?
    ensures TriesResult(t, offset, tries).Failed? ==> k == |tries| - 1
    decreases |tries|
  {
    if AttemptResult(t, offset, tries[0]).Failed? && |tries| > 1 {
      k := TriesAt(t, offset, tries[1..]);
      forall j: nat | j < k + 1
        ensures AttemptResult(t, offset, tries[j]).Failed?
      {
        if j > 0 {
          assert tries[1..][j - 1] == tries[j];
        }
      }
      k := k + 1;
    } else {
      k := 0;
    }
  }

  lemma AttemptEnds(t: Source, row: nat, answers: seq<Answer>)
    requires Attempt(t, OffsetOf(t, row), answers)
    ensures AttemptEnd(t, row, answers, AttemptResult(t, OffsetOf(t, row), answers))
  {
    var offset := OffsetOf(t, row);
    if t.direct {
      DirectEnds(SpanStart(offset), SpanNeed(t.rowBytes, offset), answers);
    } else {
      ExactEnds(t.file, offset, t.rowBytes, answers);
    }
  }

  lemma TriesEnds(t: Source, row: nat, tries: seq<seq<Answer>>)
    requires |tries| > 0 && forall k | 0 <= k < |tries| :: Attempt(t, OffsetOf(t, row), tries[k])
    ensures TriesEnd(t, row, tries, TriesResult(t, OffsetOf(t, row), tries))
  {
    var k := TriesAt(t, OffsetOf(t, row), tries);
    AttemptEnds(t, row, tries[k]);
    forall j: nat | j < k
      ensures AttemptFails(t, row, tries[j])
    {
      AttemptEnds(t, row, tries[j]);
    }
    assert TriesEndAt(t, row, tries, TriesResult(t, OffsetOf(t, row), tries), k);
  }

  // A row that is read whole lies in the file.
  lemma {:induction false} ExactInside(file: seq<Byte>, offset: nat, length: nat, answers: seq<Answer>)
    requires HonestRun(file, offset, length, answers) && ExactResult(offset, length, answers).Whole?
    ensures length == 0 || offset + length <= |file|
    decreases |answers|
  {
    if length > 0 {
      var n, rest := HonestNext(file, offset, length, answers);
      assert rest == answers[1..];
      ExactInside(file, offset + n, length - n, rest);
    }
  }

  lemma {:induction false} DirectInside(file: seq<Byte>, at: nat, want: nat, need: int, answers: seq<Answer>)
    requires Aligned(file, at, want, answers) && need <= want && DirectResult(at, need, answers).Whole?
    ensures need <= 0 || at + need <= |file|
    decreases |answers|
  {
    if need > 0 {
      var a := answers[0];
      if a.Interrupted? {
        DirectInside(file, at, want, need, answers[1..]);
      } else if a.n < need {
        DirectInside(file, at + a.n, want - a.n, need - a.n, answers[1..]);
      }
    }
  }

  type Row = seq<Byte>

  // The row's bytes in the file.
  ghost predicate HoldsRow(t: Source, row: nat, bytes: Row) {
    var at := t.base + row * t.rowBytes;
    && |bytes| == t.rowBytes
    && forall k: nat | k < t.rowBytes :: 0 <= at && at + k < |t.file| && bytes[k] == t.file[at + k]
  }

  lemma RowHolds(t: Source, row: nat)
    requires t.rowBytes == 0 || OffsetOf(t, row) + t.rowBytes <= |t.file|
    ensures HoldsRow(t, row, RowOf(t, row))
  {
  }

  lemma ReadHolds(t: Source, row: nat, tries: seq<seq<Answer>>)
    requires ReadOk(t, row, tries) && Outcome(t, row, tries).None?
    ensures HoldsRow(t, row, RowOf(t, row)) && TriesEnd(t, row, tries, Whole)
  {
    var offset := OffsetOf(t, row);
    TriesEnds(t, row, tries);
    var k := TriesAt(t, offset, tries);
    assert Attempt(t, offset, tries[k]);
    if t.direct {
      SpanFits(t.rowBytes, offset);
      DirectInside(t.file, SpanStart(offset), SpanLength(t.rowBytes, offset), SpanNeed(t.rowBytes, offset), tries[k]);
    } else {
      ExactInside(t.file, offset, t.rowBytes, tries[k]);
    }
    RowHolds(t, row);
  }

  lemma ReadFails(t: Source, row: nat, tries: seq<seq<Answer>>)
    requires ReadOk(t, row, tries) && Outcome(t, row, tries).Some?
    ensures var (error, reached) := Outcome(t, row, tries).value; 0 <= reached && TriesEnd(t, row, tries, Failed(error, reached))
  {
    TriesEnds(t, row, tries);
  }

  // A row's place in the file, and its bytes there.
  function OffsetOf(t: Source, row: nat): nat {
    MulMono(0, row, t.rowBytes);
    t.base + row * t.rowBytes
  }

  function RowOf(t: Source, row: nat): Row {
    if OffsetOf(t, row) + t.rowBytes <= |t.file| then t.file[OffsetOf(t, row)..OffsetOf(t, row) + t.rowBytes] else []
  }

  // The reads of a row get what the file gives, as often as they are made.
  ghost predicate ReadOk(t: Source, row: nat, tries: seq<seq<Answer>>) {
    && |tries| == t.retries + 1
    && (forall k | 0 <= k < |tries| :: Attempt(t, OffsetOf(t, row), tries[k]))
    && TriesResult(t, OffsetOf(t, row), tries) != Unserved
  }

  // How the read of a row ends: nothing, or the error and the offset reached.
  function Outcome(t: Source, row: nat, tries: seq<seq<Answer>>): Option<(int, int)> {
    if tries == [] then None
    else match TriesResult(t, OffsetOf(t, row), tries)
      case Failed(error, reached) => Some((error, reached))
      case _ => None
  }

  // read_row: up to retries + 1 attempts, attempt k with the answers tries[k]; the row
  // lands at dest[at..].
  method ReadRow(t: Source, dest: array<Byte>, at: nat, row: nat, span: array<Byte>, tries: seq<seq<Answer>>) returns (r: ReadResult)
    requires at + t.rowBytes <= dest.Length && span != dest && |tries| == t.retries + 1
    requires t.direct ==> span.Length >= DirectSpanBytes(t.rowBytes)
    requires forall k | 0 <= k < |tries| :: Attempt(t, OffsetOf(t, row), tries[k])
    modifies dest, span
    ensures r == TriesResult(t, OffsetOf(t, row), tries) && TriesEnd(t, row, tries, r)
    ensures r.Whole? ==> Copied(dest[..], at, t.file, OffsetOf(t, row), t.rowBytes)
    ensures forall i | 0 <= i < dest.Length && !(at <= i < at + t.rowBytes) :: dest[i] == old(dest[i])
  {
    var offset := OffsetOf(t, row);
    SpanFits(t.rowBytes, offset);
    TriesEnds(t, row, tries);
    r := Unserved;
    for attempt := 0 to t.retries + 1
      invariant attempt > 0 ==> r.Failed?
      invariant if attempt <= t.retries then TriesResult(t, offset, tries) == TriesResult(t, offset, tries[attempt..])
                else r == TriesResult(t, offset, tries)
      invariant forall i | 0 <= i < dest.Length && !(at <= i < at + t.rowBytes) :: dest[i] == old(dest[i])
    {
      assert Attempt(t, offset, tries[attempt]);
      assert tries[attempt..][0] == tries[attempt] && tries[attempt..][1..] == tries[attempt + 1..];
      r := ReadOnce(t, dest, at, offset, span, tries[attempt]);
      if !r.Failed? {
        return;
      }
    }
  }

  // One attempt at the row.
  method ReadOnce(t: Source, dest: array<Byte>, at: nat, offset: nat, span: array<Byte>, answers: seq<Answer>) returns (r: ReadResult)
    requires at + t.rowBytes <= dest.Length && span != dest && Attempt(t, offset, answers)
    requires t.direct ==> span.Length >= SpanLength(t.rowBytes, offset) >= SpanNeed(t.rowBytes, offset)
    modifies dest, span
    ensures r == AttemptResult(t, offset, answers)
    ensures r.Whole? ==> Copied(dest[..], at, t.file, offset, t.rowBytes)
    ensures forall i | 0 <= i < dest.Length && !(at <= i < at + t.rowBytes) :: dest[i] == old(dest[i])
  {
    if t.direct {
      var start, need, length := SpanStart(offset), SpanNeed(t.rowBytes, offset), SpanLength(t.rowBytes, offset);
      r := ReadDirect(t.file, span, length, start, need, answers);
      if r.Whole? {
        CopyRow(t.file, span, offset - start, dest, at, t.rowBytes, start);
      }
    } else {
      r := ReadExact(t.file, dest, at, t.rowBytes, offset, answers);
    }
  }

  // A row read on its own: the file's bytes, or how it failed.
  method ReadOne(t: Source, row: nat, tries: seq<seq<Answer>>) returns (bytes: Row, outcome: Option<(int, int)>)
    requires ReadOk(t, row, tries)
    ensures outcome == Outcome(t, row, tries)
    ensures outcome.None? ==> bytes == RowOf(t, row) && HoldsRow(t, row, bytes)
  {
    var dest, span := new Byte[t.rowBytes](_ => 0), new Byte[if t.direct then DirectSpanBytes(t.rowBytes) else 0](_ => 0);
    var r := ReadRow(t, dest, 0, row, span, tries);
    bytes := dest[..];
    outcome := if r.Failed? then Some((r.error, r.reached)) else None;
    if r.Whole? {
      WholeRow(t, row, bytes);
      ReadHolds(t, row, tries);
    }
  }

  lemma WholeRow(t: Source, row: nat, bytes: Row)
    requires |bytes| == t.rowBytes && Copied(bytes, 0, t.file, OffsetOf(t, row), t.rowBytes)
    ensures bytes == RowOf(t, row)
  {
    if t.rowBytes > 0 {
      assert bytes == t.file[OffsetOf(t, row)..OffsetOf(t, row) + t.rowBytes];
    }
  }

  // The row out of its span.
  method CopyRow(file: seq<Byte>, span: array<Byte>, skip: nat, dest: array<Byte>, at: nat, n: nat, start: nat)
    requires span != dest && at + n <= dest.Length && Copied(span[..], 0, file, start, skip + n)
    modifies dest
    ensures Copied(dest[..], at, file, start + skip, n)
    ensures forall i | 0 <= i < dest.Length && !(at <= i < at + n) :: dest[i] == old(dest[i])
  {
    Fill(dest, at, span[skip..skip + n]);
    forall i | at <= i < at + n
      ensures dest[i] == file[i - at + (start + skip)]
    {
      assert span[..][i - at + skip] == file[i - at + skip + start];
    }
  }

  // --- Reading a batch -----------------------------------------------------------------------

  datatype Failure = Failure(index: nat, error: int, offset: int)

  // What reading row `index` of a batch ends with, retries included: nothing, or an
  // error and the offset reached.
  type Reads = nat -> Option<(int, int)>

  function Fails(outcome: Reads, index: nat): seq<Failure> {
    match outcome(index)
    case None => []
    case Some((error, offset)) => [Failure(index, error, offset)]
  }

  // The failures of these rows in order: what one thread reading them all reports.
  function AllFails(outcome: Reads, pending: seq<nat>): (fs: seq<Failure>)
    ensures |fs| <= |pending|
  {
    if pending == [] then [] else AllFails(outcome, pending[..|pending| - 1]) + Fails(outcome, pending[|pending| - 1])
  }

  lemma AllFailsSnoc(outcome: Reads, a: seq<nat>, x: nat)
    ensures AllFails(outcome, a + [x]) == AllFails(outcome, a) + Fails(outcome, x)
  {
    assert (a + [x])[..|a|] == a;
  }

  lemma {:induction false} AllFailsConcat(outcome: Reads, a: seq<nat>, b: seq<nat>)
    ensures AllFails(outcome, a + b) == AllFails(outcome, a) + AllFails(outcome, b)
    decreases |b|
  {
    if b == [] {
      assert a + b == a;
    } else {
      var c, x := b[..|b| - 1], b[|b| - 1];
      AllFailsConcat(outcome, a, c);
      ConcatOneMore(outcome, a, b, c, x);
    }
  }

  lemma ConcatOneMore(outcome: Reads, a: seq<nat>, b: seq<nat>, c: seq<nat>, x: nat)
    requires b != [] && c == b[..|b| - 1] && x == b[|b| - 1]
    requires AllFails(outcome, a + c) == AllFails(outcome, a) + AllFails(outcome, c)
    ensures AllFails(outcome, a + b) == AllFails(outcome, a) + AllFails(outcome, b)
  {
    assert b == c + [x] && a + b == a + (c + [x]);
    AllFailsSnoc(outcome, c, x);
    AllFailsSnoc(outcome, a + c, x);
    Associates(a, c, [x]);
    Associates(AllFails(outcome, a), AllFails(outcome, c), Fails(outcome, x));
  }

  lemma Associates<T>(a: seq<T>, b: seq<T>, c: seq<T>)
    ensures (a + b) + c == a + (b + c)
  {
  }

  // They are the failing rows, in increasing index order when the rows are.
  lemma {:induction false} AllFailsOrder(outcome: Reads, pending: seq<nat>)
    requires forall i, j | 0 <= i < j < |pending| :: pending[i] < pending[j]
    ensures FailsOf(outcome, pending, AllFails(outcome, pending))
  {
    if pending != [] {
      var rest, x := pending[..|pending| - 1], pending[|pending| - 1];
      AllFailsOrder(outcome, rest);
      assert pending == rest + [x];
      FailsNext(outcome, rest, x, AllFails(outcome, rest));
    }
  }

  // fs are the failing rows of these, in increasing index order, with their errors.
  ghost predicate FailsOf(outcome: Reads, pending: seq<nat>, fs: seq<Failure>) {
    && (forall i, j | 0 <= i < j < |fs| :: fs[i].index < fs[j].index)
    && (forall i | 0 <= i < |fs| :: fs[i].index in pending && outcome(fs[i].index) == Some((fs[i].error, fs[i].offset)))
    && (forall x | x in pending && outcome(x).Some? :: Failure(x, outcome(x).value.0, outcome(x).value.1) in fs)
  }

  lemma FailsNext(outcome: Reads, rest: seq<nat>, x: nat, fs: seq<Failure>)
    requires FailsOf(outcome, rest, fs) && forall y | y in rest :: y < x
    ensures FailsOf(outcome, rest + [x], fs + Fails(outcome, x))
  {
  }

  // Where the chunks of `step` rows start, and the end.
  ghost predicate ChunksOk(begins: seq<nat>, rows: nat) {
    |begins| >= 2 && begins[0] == 0 && begins[|begins| - 1] == rows
    && forall c, d | 0 <= c <= d < |begins| :: begins[c] <= begins[d]
  }

  lemma StepCovers(rows: nat, threads: nat)
    requires 0 < rows && 0 < threads
    ensures 0 < CeilDiv(rows, threads) && threads * CeilDiv(rows, threads) >= rows
  {
    CeilDivBounds(rows, threads);
    if CeilDiv(rows, threads) <= 0 {
      MulMono(CeilDiv(rows, threads), 0, threads);
    }
  }

  // Chunks 1..n-1 whose thread started, and those left to the caller.
  ghost function Chunks(refused: set<nat>, n: nat, started: bool): (cs: seq<nat>)
    ensures forall i | 0 <= i < |cs| :: cs[i] < n
  {
    if n <= 1 then []
    else Chunks(refused, n - 1, started) + (if ((n - 1) in refused) != started then [n - 1] else [])
  }

  // Each chunk but the first is read once: by its thread or by the caller.
  lemma {:induction false} ChunkOnce(refused: set<nat>, n: nat, started: bool, c: nat)
    ensures c in Chunks(refused, n, started) <==> 1 <= c < n && (c in refused) != started
  {
    if n > 1 {
      ChunkOnce(refused, n - 1, started, c);
    }
  }

  lemma EveryChunk(refused: set<nat>, n: nat, c: nat, mine: seq<nat>, workers: seq<nat>)
    requires c < n && mine == [0] + Chunks(refused, n, false) && workers == Chunks(refused, n, true)
    ensures c in mine || c in workers
  {
    ChunkOnce(refused, n, true, c);
    ChunkOnce(refused, n, false, c);
    assert mine[0] == 0;
    if c in Chunks(refused, n, false) {
      var i :| 0 <= i < |mine| - 1 && Chunks(refused, n, false)[i] == c;
      assert mine[i + 1] == c;
    }
  }

  ghost predicate Starts(begins: seq<nat>, step: nat, rows: nat) {
    && 0 < |begins| && begins[0] == 0 && 0 < step
    && forall c | 0 < c < |begins| :: begins[c] == begins[c - 1] + step && begins[c] < rows
  }

  lemma StartsNext(begins: seq<nat>, step: nat, rows: nat)
    requires Starts(begins, step, rows) && begins[|begins| - 1] + step < rows
    ensures Starts(begins + [begins[|begins| - 1] + step], step, rows)
  {
  }

  lemma {:induction false} StartsAt(begins: seq<nat>, step: nat, rows: nat, c: nat)
    requires Starts(begins, step, rows) && c < |begins|
    ensures begins[c] == At(step, c, 0)
    ensures forall d | 0 <= d < c :: begins[d] < begins[c]
    decreases c
  {
    if c > 0 {
      StartsAt(begins, step, rows, c - 1);
    }
  }

  // The chunks: as many as there are threads, or rows to start one at. A thread is asked
  // for per chunk after the first; one that cannot start leaves its chunk to the caller.
  method Split(rows: nat, maxThreads: nat, refused: set<nat>) returns (begins: seq<nat>, workers: seq<nat>, inlines: seq<nat>)
    requires 0 < rows && 0 < maxThreads
    ensures ChunksOk(begins, rows) && |begins| - 1 <= maxThreads
    ensures forall c, d | 0 <= c < d < |begins| :: begins[c] < begins[d]
    // Chunks of rows / threads rows, rounded up; the last has what is left.
    ensures EvenChunks(begins, rows, CeilDiv(rows, if maxThreads < rows then maxThreads else rows))
    ensures workers == Chunks(refused, |begins| - 1, true) && inlines == Chunks(refused, |begins| - 1, false)
  {
    var threads := if maxThreads < rows then maxThreads else rows;
    StepCovers(rows, threads);
    begins, workers, inlines := StartChunks(rows, threads, (rows + threads - 1) / threads, refused);
    SplitEnds(begins, (rows + threads - 1) / threads, rows, threads);
    StartsAre(begins, (rows + threads - 1) / threads, rows);
    begins := begins + [rows];
  }

  method StartChunks(rows: nat, threads: nat, step: nat, refused: set<nat>)
    returns (begins: seq<nat>, workers: seq<nat>, inlines: seq<nat>)
    requires 0 < threads && 0 < step
    ensures Starts(begins, step, rows) && |begins| <= threads
    ensures |begins| == threads || begins[|begins| - 1] + step >= rows
    ensures workers == Chunks(refused, |begins|, true) && inlines == Chunks(refused, |begins|, false)
  {
    var chunks := 1;
    begins := [0];
    workers, inlines := [], [];
    while chunks < threads && begins[chunks - 1] + step < rows
      invariant 1 <= chunks == |begins| <= threads && Starts(begins, step, rows)
      invariant workers == Chunks(refused, chunks, true) && inlines == Chunks(refused, chunks, false)
      decreases threads - chunks
    {
      StartsNext(begins, step, rows);
      begins := begins + [begins[chunks - 1] + step];
      if chunks in refused {
        inlines := inlines + [chunks];
      } else {
        workers := workers + [chunks];
      }
      chunks := chunks + 1;
    }
  }

  ghost predicate EvenChunks(begins: seq<nat>, rows: nat, step: int) {
    |begins| > 0 && (forall c | 0 <= c < |begins| - 1 :: begins[c] == c * step) && rows <= (|begins| - 1) * step
  }

  lemma StartsAre(begins: seq<nat>, step: nat, rows: nat)
    requires Starts(begins, step, rows) && begins[|begins| - 1] + step >= rows
    ensures EvenChunks(begins + [rows], rows, step)
  {
    forall c | 0 <= c < |begins|
      ensures begins[c] == c * step
    {
      StartsAt(begins, step, rows, c);
      AtIs(step, c, 0);
    }
  }

  // The last chunk reaches the end, and the starts ascend.
  lemma SplitEnds(begins: seq<nat>, step: nat, rows: nat, threads: nat)
    requires Starts(begins, step, rows) && |begins| <= threads && threads * step >= rows && 0 < rows
    ensures forall c, d | 0 <= c < d < |begins| :: begins[c] < begins[d]
    ensures forall c | 0 <= c < |begins| :: begins[c] < rows
    ensures |begins| == threads ==> begins[|begins| - 1] + step >= rows
  {
    forall d | 0 <= d < |begins|
      ensures forall c | 0 <= c < d :: begins[c] < begins[d]
    {
      StartsAt(begins, step, rows, d);
    }
    StartsAt(begins, step, rows, |begins| - 1);
    AtIs(step, |begins| - 1, 0);
    MulMono(|begins| - 1, threads - 1, step);
  }

  // --- The chunks, in any interleaving ---------------------------------------------------------

  // A chunk of rows begin..end-1 that has read its first `next` rows: its failures stand
  // at the front of its own part of the failure buffer.
  ghost predicate ChunkRead(outcome: Reads, pending: seq<nat>, begin: nat, end: nat, failures: seq<Failure>, failed: nat, next: nat) {
    && begin + next <= end <= |pending| && end <= |failures|
    && failed == |AllFails(outcome, pending[begin..begin + next])|
    && failures[begin..begin + failed] == AllFails(outcome, pending[begin..begin + next])
  }

  ghost predicate Ascending(pending: seq<nat>, count: nat) {
    (forall i, j | 0 <= i < j < |pending| :: pending[i] < pending[j]) && (forall i | 0 <= i < |pending| :: pending[i] < count)
  }

  // Rows the chunk has read hold their row, unless their read failed.
  ghost predicate RowsRead(outcome: Reads, row: nat -> Row, pending: seq<nat>, begin: nat, next: nat, out: seq<Row>) {
    begin + next <= |pending|
    && forall k | begin <= k < begin + next :: pending[k] < |out| && (outcome(pending[k]).None? ==> out[pending[k]] == row(pending[k]))
  }

  lemma MovedSlice(fs: seq<Failure>, after: seq<Failure>, begin: nat, failed: nat, new_: seq<Failure>)
    requires |new_| <= 1 && begin + failed + |new_| <= |fs|
    requires after == if new_ == [] then fs else fs[begin + failed := new_[0]]
    ensures after[begin..begin + (failed + |new_|)] == fs[begin..begin + failed] + new_
  {
  }

  // Reading its next row moves a chunk on.
  lemma ChunkMoves(outcome: Reads, pending: seq<nat>, begin: nat, end: nat, failures: seq<Failure>, failed: nat, next: nat,
                   after: seq<Failure>, failedAfter: nat)
    requires ChunkRead(outcome, pending, begin, end, failures, failed, next) && begin + next < end
    requires var fs := Fails(outcome, pending[begin + next]);
      failedAfter == failed + |fs| && after == if fs == [] then failures else failures[begin + failed := fs[0]]
    ensures ChunkRead(outcome, pending, begin, end, after, failedAfter, next + 1)
  {
    var index := pending[begin + next];
    var read := pending[begin..begin + next];
    AllFailsSnoc(outcome, read, index);
    assert pending[begin..begin + (next + 1)] == read + [index];
    MovedSlice(failures, after, begin, failed, Fails(outcome, index));
  }

  // A failure stored elsewhere leaves it alone.
  lemma ChunkStays(outcome: Reads, pending: seq<nat>, begin: nat, end: nat, failures: seq<Failure>, failed: nat, next: nat,
                   at: nat, after: seq<Failure>)
    requires ChunkRead(outcome, pending, begin, end, failures, failed, next)
    requires at < begin || end <= at
    requires |after| == |failures| && forall i | 0 <= i < |failures| && i != at :: after[i] == failures[i]
    ensures ChunkRead(outcome, pending, begin, end, after, failed, next)
  {
    assert after[begin..begin + failed] == failures[begin..begin + failed];
  }

  lemma RowsMove(outcome: Reads, row: nat -> Row, pending: seq<nat>, begin: nat, next: nat, out: seq<Row>, after: seq<Row>, count: nat)
    requires RowsRead(outcome, row, pending, begin, next, out) && begin + next < |pending|
    requires Ascending(pending, count) && |out| == |after| == count
    requires forall i | 0 <= i < count && i != pending[begin + next] :: after[i] == out[i]
    requires outcome(pending[begin + next]).None? ==> after[pending[begin + next]] == row(pending[begin + next])
    ensures RowsRead(outcome, row, pending, begin, next + 1, after)
  {
  }

  lemma RowsStay(outcome: Reads, row: nat -> Row, pending: seq<nat>, begin: nat, next: nat, at: nat, out: seq<Row>, after: seq<Row>, count: nat)
    requires RowsRead(outcome, row, pending, begin, next, out) && at < |pending| && (at < begin || begin + next <= at)
    requires Ascending(pending, count) && |out| == |after| == count
    requires forall i | 0 <= i < count && i != pending[at] :: after[i] == out[i]
    ensures RowsRead(outcome, row, pending, begin, next, after)
  {
  }

  ghost predicate ChunkOk(outcome: Reads, row: nat -> Row, pending: seq<nat>, begin: nat, end: nat,
                          failures: seq<Failure>, out: seq<Row>, failed: nat, next: nat)
  {
    && ChunkRead(outcome, pending, begin, end, failures, failed, next)
    && RowsRead(outcome, row, pending, begin, next, out)
  }

  ghost predicate ChunkState(outcome: Reads, row: nat -> Row, pending: seq<nat>, begins: seq<nat>,
                                  failures: seq<Failure>, out: seq<Row>, failed: seq<nat>, next: seq<nat>, c: nat)
    requires c + 1 < |begins| && |failed| == |next| == |begins| - 1
  {
    ChunkOk(outcome, row, pending, begins[c], begins[c + 1], failures, out, failed[c], next[c])
  }

  ghost predicate AllChunks(outcome: Reads, row: nat -> Row, pending: seq<nat>, begins: seq<nat>,
                                 failures: seq<Failure>, out: seq<Row>, failed: seq<nat>, next: seq<nat>)
    requires |failed| == |next| == |begins| - 1
  {
    forall c: nat | c < |begins| - 1 :: ChunkState(outcome, row, pending, begins, failures, out, failed, next, c)
  }

  // One chunk's next row leaves every chunk in order.
  lemma NextRow(outcome: Reads, row: nat -> Row, pending: seq<nat>, begin: nat, end: nat,
                     fs: seq<Failure>, out: seq<Row>, failed: nat, next: nat, fs': seq<Failure>, out': seq<Row>)
    requires ChunkRead(outcome, pending, begin, end, fs, failed, next) && RowsRead(outcome, row, pending, begin, next, out)
    requires begin + next < end <= |pending| && Ascending(pending, |out|) && |out'| == |out|
    requires var index := pending[begin + next];
      out' == out[index := out'[index]] && (outcome(index).None? ==> out'[index] == row(index))
    requires var new_ := Fails(outcome, pending[begin + next]);
      fs' == if new_ == [] then fs else fs[begin + failed := new_[0]]
    ensures ChunkRead(outcome, pending, begin, end, fs', failed + |Fails(outcome, pending[begin + next])|, next + 1)
    ensures RowsRead(outcome, row, pending, begin, next + 1, out')
  {
    ChunkMoves(outcome, pending, begin, end, fs, failed, next, fs', failed + |Fails(outcome, pending[begin + next])|);
    RowsMove(outcome, row, pending, begin, next, out, out', |out|);
  }

  lemma OtherRow(outcome: Reads, row: nat -> Row, pending: seq<nat>, begin: nat, end: nat,
                      fs: seq<Failure>, out: seq<Row>, failed: nat, next: nat, fs': seq<Failure>, out': seq<Row>,
                      slot: nat, at: nat)
    requires ChunkRead(outcome, pending, begin, end, fs, failed, next) && RowsRead(outcome, row, pending, begin, next, out)
    requires at < |pending| && Ascending(pending, |out|) && |out'| == |out| && out' == out[pending[at] := out'[pending[at]]]
    requires (slot < begin && at < begin) || (end <= slot && end <= at)
    requires |fs'| == |fs| && forall i | 0 <= i < |fs| && i != slot :: fs'[i] == fs[i]
    ensures ChunkRead(outcome, pending, begin, end, fs', failed, next) && RowsRead(outcome, row, pending, begin, next, out')
  {
    ChunkStays(outcome, pending, begin, end, fs, failed, next, slot, fs');
    RowsStay(outcome, row, pending, begin, next, at, out, out', |out|);
  }

  lemma ChunksApart(begins: seq<nat>, total: nat, c: nat, d: nat)
    requires ChunksOk(begins, total) && c + 1 < |begins| && d + 1 < |begins| && c != d
    ensures begins[d + 1] <= begins[c] || begins[c + 1] <= begins[d]
  {
  }

  lemma ChunkFrom(outcome: Reads, row: nat -> Row, pending: seq<nat>, begins: seq<nat>, fs: seq<Failure>,
                       out: seq<Row>, failed: seq<nat>, next: seq<nat>, c: nat, f: nat, n: nat)
    requires c + 1 < |begins| && |failed| == |next| == |begins| - 1 && failed[c] == f && next[c] == n
    requires ChunkOk(outcome, row, pending, begins[c], begins[c + 1], fs, out, f, n) == true
    ensures ChunkState(outcome, row, pending, begins, fs, out, failed, next, c)
  {
  }

  // A row of chunk c has been read: what changed.
  ghost predicate RowStep(outcome: Reads, row: nat -> Row, index: nat, slot: nat,
                               fs: seq<Failure>, out: seq<Row>, fs': seq<Failure>, out': seq<Row>)
  {
    && |fs'| == |fs| && slot < |fs| && index < |out| == |out'| && out' == out[index := out'[index]]
    && (outcome(index).None? ==> out'[index] == row(index))
    && fs' == if Fails(outcome, index) == [] then fs else fs[slot := Fails(outcome, index)[0]]
  }

  lemma OtherChunk(outcome: Reads, row: nat -> Row, pending: seq<nat>, begins: seq<nat>, fs: seq<Failure>,
                        out: seq<Row>, failed: seq<nat>, next: seq<nat>, fs': seq<Failure>, out': seq<Row>,
                        failed': seq<nat>, next': seq<nat>, d: nat, slot: nat, at: nat)
    requires |failed| == |next| == |begins| - 1 == |failed'| == |next'| && d + 1 < |begins|
    requires ChunkState(outcome, row, pending, begins, fs, out, failed, next, d)
    requires failed'[d] == failed[d] && next'[d] == next[d]
    requires at < |pending| && Ascending(pending, |out|) && RowStep(outcome, row, pending[at], slot, fs, out, fs', out')
    requires (slot < begins[d] && at < begins[d]) || (begins[d + 1] <= slot && begins[d + 1] <= at)
    ensures ChunkState(outcome, row, pending, begins, fs', out', failed', next', d)
  {
    OtherRow(outcome, row, pending, begins[d], begins[d + 1], fs, out, failed[d], next[d], fs', out', slot, at);
    ChunkFrom(outcome, row, pending, begins, fs', out', failed', next', d, failed[d], next[d]);
  }

  lemma RowTurn(outcome: Reads, row: nat -> Row, pending: seq<nat>, begin: nat, end: nat, fs: seq<Failure>,
                out: seq<Row>, failed: nat, next: nat, fs': seq<Failure>, out': seq<Row>)
    requires ChunkRead(outcome, pending, begin, end, fs, failed, next) && RowsRead(outcome, row, pending, begin, next, out)
    requires begin + next < end && Ascending(pending, |out|)
    requires RowStep(outcome, row, pending[begin + next], begin + failed, fs, out, fs', out')
    ensures ChunkOk(outcome, row, pending, begin, end, fs', out', failed + |Fails(outcome, pending[begin + next])|, next + 1)
  {
    NextRow(outcome, row, pending, begin, end, fs, out, failed, next, fs', out');
  }

  lemma SameChunk(outcome: Reads, row: nat -> Row, pending: seq<nat>, begins: seq<nat>, fs: seq<Failure>,
                       out: seq<Row>, failed: seq<nat>, next: seq<nat>, fs': seq<Failure>, out': seq<Row>,
                       failed': seq<nat>, next': seq<nat>, c: nat, at: nat)
    requires |failed| == |next| == |begins| - 1 == |failed'| == |next'| && c + 1 < |begins|
    requires ChunkState(outcome, row, pending, begins, fs, out, failed, next, c)
    requires at == begins[c] + next[c] < begins[c + 1] && Ascending(pending, |out|)
    requires RowStep(outcome, row, pending[at], begins[c] + failed[c], fs, out, fs', out') == true
    requires failed'[c] == failed[c] + |Fails(outcome, pending[at])| && next'[c] == next[c] + 1
    ensures ChunkState(outcome, row, pending, begins, fs', out', failed', next', c)
  {
    RowTurn(outcome, row, pending, begins[c], begins[c + 1], fs, out, failed[c], next[c], fs', out');
    ChunkFrom(outcome, row, pending, begins, fs', out', failed', next', c, failed'[c], next[c] + 1);
  }

  lemma AllNext(outcome: Reads, row: nat -> Row, pending: seq<nat>, begins: seq<nat>,
                     fs: seq<Failure>, out: seq<Row>, failed: seq<nat>, next: seq<nat>, c: nat, at: nat,
                     fs': seq<Failure>, out': seq<Row>, failed': seq<nat>, next': seq<nat>)
    requires ChunksOk(begins, |pending|) && Ascending(pending, |out|) && |failed| == |next| == |begins| - 1
    requires c + 1 < |begins| && at == begins[c] + next[c] < begins[c + 1] && at < |pending|
    requires AllChunks(outcome, row, pending, begins, fs, out, failed, next)
    requires RowStep(outcome, row, pending[at], begins[c] + failed[c], fs, out, fs', out')
    requires failed' == failed[c := failed[c] + |Fails(outcome, pending[at])|] && next' == next[c := next[c] + 1]
    ensures AllChunks(outcome, row, pending, begins, fs', out', failed', next')
  {
    forall d: nat | d < |begins| - 1
      ensures ChunkState(outcome, row, pending, begins, fs', out', failed', next', d)
    {
      assert ChunkState(outcome, row, pending, begins, fs, out, failed, next, c);
      assert ChunkState(outcome, row, pending, begins, fs, out, failed, next, d);
      if d == c {
        SameChunk(outcome, row, pending, begins, fs, out, failed, next, fs', out', failed', next', c, at);
      } else {
        ChunksApart(begins, |pending|, c, d);
        OtherChunk(outcome, row, pending, begins, fs, out, failed, next, fs', out', failed', next', d,
                   begins[c] + failed[c], at);
      }
    }
  }

  predicate Apart(a: object, b: object) {
    a != b
  }

  // How the read of each row of a batch ends, and its bytes.
  function Outcomes(source: Source, ids: seq<int>, tries: seq<seq<seq<Answer>>>): Reads {
    (i: nat) => if i < |ids| && i < |tries| && 0 <= ids[i] then Outcome(source, ids[i], tries[i]) else None
  }

  function Rows(source: Source, ids: seq<int>): nat -> Row {
    (i: nat) => if i < |ids| && 0 <= ids[i] then RowOf(source, ids[i]) else []
  }

  ghost predicate PendingOk(source: Source, ids: seq<int>, tries: seq<seq<seq<Answer>>>, pending: seq<nat>) {
    |ids| == |tries| && forall k | 0 <= k < |pending| :: PendingRow(source, ids, tries, pending[k])
  }

  ghost predicate PendingRow(source: Source, ids: seq<int>, tries: seq<seq<seq<Answer>>>, i: nat)
    requires |ids| == |tries|
  {
    i < |ids| && 0 <= ids[i] && ReadOk(source, ids[i], tries[i])
  }

  // Everything the threads share: failed[c] failures of the next[c] rows chunk c has read.
  class Batch {
    const source: Source
    const ids: seq<int>
    const tries: seq<seq<seq<Answer>>>
    const pending: seq<nat>
    const begins: seq<nat>
    const out: array<Row>
    const failures: array<Failure>
    ghost const outcome: Reads
    ghost const row: nat -> Row
    var failed: seq<nat>
    var next: seq<nat>

    ghost predicate Shape()
      reads this
    {
      && ChunksOk(begins, |pending|) && Ascending(pending, out.Length) && Apart(out, failures)
      && failures.Length >= |pending| && |failed| == |next| == |begins| - 1
      && PendingOk(source, ids, tries, pending) && outcome == Outcomes(source, ids, tries) && row == Rows(source, ids)
    }

    ghost predicate Valid()
      reads this, failures, out
    {
      Shape() && AllChunks(outcome, row, pending, begins, failures[..], out[..], failed, next)
    }

    constructor (source: Source, ids: seq<int>, tries: seq<seq<seq<Answer>>>, pending: seq<nat>, begins: seq<nat>, out: array<Row>)
      requires ChunksOk(begins, |pending|) && Ascending(pending, out.Length) && PendingOk(source, ids, tries, pending)
      ensures Valid() && fresh(failures)
      ensures this.outcome == Outcomes(source, ids, tries) && this.row == Rows(source, ids)
      ensures this.pending == pending && this.begins == begins && this.out == out
      ensures forall c | 0 <= c < |next| :: next[c] == 0
    {
      this.source, this.ids, this.tries, this.pending, this.begins, this.out := source, ids, tries, pending, begins, out;
      outcome, row := Outcomes(source, ids, tries), Rows(source, ids);
      failures := new Failure[|pending|](_ => Failure(0, 0, 0));
      failed := seq(|begins| - 1, _ => 0);
      next := seq(|begins| - 1, _ => 0);
    }

    predicate More(c: nat)
      requires |next| == |begins| - 1 && c < |next|
      reads this
    {
      begins[c] + next[c] < begins[c + 1]
    }

    // One turn of read_rows of chunk c.
    method ReadNext(c: nat)
      requires Valid() && c < |begins| - 1 && More(c)
      modifies this`failed, this`next, failures, out
      ensures Valid() && next == old(next)[c := old(next[c]) + 1]
      ensures forall i | 0 <= i < out.Length && i !in pending :: out[i] == old(out[i])
    {
      ghost var fs, os, ns, ms := failures[..], out[..], failed, next;
      assert ChunkState(outcome, row, pending, begins, fs, os, ns, ms, c);
      var at := begins[c] + next[c];
      var index := pending[at];
      assert PendingRow(source, ids, tries, index);
      var bytes, result := ReadOne(source, ids[index], tries[index]);
      out[index] := bytes;
      if result.Some? {
        failures[begins[c] + failed[c]] := Failure(index, result.value.0, result.value.1);
        failed := failed[c := failed[c] + 1];
      }
      next := next[c := next[c] + 1];
      assert out[..] == os[index := bytes];
      AllNext(outcome, row, pending, begins, fs, os, ns, ms, c, at, failures[..], out[..], failed, next);
    }

    // The rest of chunk c.
    method Drain(c: nat)
      requires Valid() && c < |begins| - 1
      modifies this`failed, this`next, failures, out
      ensures Valid() && !More(c) && forall d | 0 <= d < |next| && d != c :: next[d] == old(next)[d]
      ensures forall i | 0 <= i < out.Length && i !in pending :: out[i] == old(out[i])
    {
      while More(c)
        invariant Valid() && forall d | 0 <= d < |next| && d != c :: next[d] == old(next)[d]
        invariant forall i | 0 <= i < out.Length && i !in pending :: out[i] == old(out[i])
        decreases begins[c + 1] as int - (begins[c] + next[c])
      {
        ReadNext(c);
      }
    }

    ghost predicate AllRead()
      requires Shape()
      reads this
    {
      forall c: nat | c < |begins| - 1 :: !More(c)
    }

    // None of these chunks has rows left.
    ghost predicate Drained(chunks: seq<nat>, n: nat)
      requires |next| == |begins| - 1 && n <= |chunks|
      reads this
    {
      forall k | 0 <= k < n :: chunks[k] < |next| && !More(chunks[k])
    }

    // The threads that started take turns in any order with the caller, which reads its own
    // chunks one after the other.
    method TakeTurns(mine: seq<nat>, workers: seq<nat>, schedule: seq<nat>) returns (my: nat)
      requires Valid() && (forall k | 0 <= k < |mine| :: mine[k] < |next|) && forall k | 0 <= k < |workers| :: workers[k] < |next|
      modifies this`failed, this`next, failures, out
      ensures Valid() && my <= |mine| && Drained(mine, my)
      ensures forall i | 0 <= i < out.Length && i !in pending :: out[i] == old(out[i])
    {
      my := 0;
      for t := 0 to |schedule|
        invariant Valid() && my <= |mine| && Drained(mine, my)
        invariant forall i | 0 <= i < out.Length && i !in pending :: out[i] == old(out[i])
      {
        var c := schedule[t];
        if c in workers {
          if More(c) {
            ReadNext(c);
          }
        } else if my < |mine| {
          if More(mine[my]) {
            ReadNext(mine[my]);
          } else {
            my := my + 1;
          }
        }
      }
    }

    // The rest of these chunks, from chunks[from] on.
    method DrainAll(chunks: seq<nat>, from: nat, ghost others: seq<nat>)
      requires Valid() && from <= |chunks| && (forall k | 0 <= k < |chunks| :: chunks[k] < |next|)
      requires Drained(chunks, from) && Drained(others, |others|)
      modifies this`failed, this`next, failures, out
      ensures Valid() && Drained(chunks, |chunks|) && Drained(others, |others|)
      ensures forall i | 0 <= i < out.Length && i !in pending :: out[i] == old(out[i])
    {
      for k := from to |chunks|
        invariant Valid() && Drained(chunks, k) && Drained(others, |others|)
        invariant forall i | 0 <= i < out.Length && i !in pending :: out[i] == old(out[i])
      {
        Drain(chunks[k]);
      }
    }

    // The caller reads chunk 0 and then those of the threads that did not start, beside the
    // threads that did; then it joins them.
    method ReadAll(ghost refused: set<nat>, workers: seq<nat>, inlines: seq<nat>, schedule: seq<nat>)
      requires Valid()
      requires workers == Chunks(refused, |begins| - 1, true) && inlines == Chunks(refused, |begins| - 1, false)
      modifies this`failed, this`next, failures, out
      ensures Valid() && AllRead()
      ensures forall i | 0 <= i < out.Length && i !in pending :: out[i] == old(out[i])
    {
      var mine := [0] + inlines;
      var my := TakeTurns(mine, workers, schedule);
      DrainAll(mine, my, []);
      DrainAll(workers, 0, mine);
      forall c: nat | c < |begins| - 1
        ensures !More(c)
      {
        EveryChunk(refused, |begins| - 1, c, mine, workers);
      }
    }

    // Packs the chunks' failures to the front, in chunk order.
    method Pack() returns (total: nat)
      requires Valid() && AllRead()
      modifies failures
      ensures total <= failures.Length && failures[..total] == AllFails(outcome, pending)
    {
      forall c: nat | c < |begins| - 1
        ensures ChunkPart(outcome, pending, begins[c], begins[c + 1], failures[..], failed[c])
      {
        assert ChunkState(outcome, row, pending, begins, failures[..], out[..], failed, next, c) && !More(c);
      }
      total := PackChunks(outcome, pending, begins, failed, failures);
    }
  }

  // The failures of rows begin..end-1 at the front of their part of the buffer.
  ghost predicate ChunkPart(outcome: Reads, pending: seq<nat>, begin: nat, end: nat, fs: seq<Failure>, n: nat) {
    begin <= end <= |pending| && begin + n <= |fs| && fs[begin..begin + n] == AllFails(outcome, pending[begin..end])
  }

  method PackChunks(ghost outcome: Reads, ghost pending: seq<nat>, begins: seq<nat>, failed: seq<nat>, failures: array<Failure>) returns (total: nat)
    requires ChunksOk(begins, |pending|) && |failed| == |begins| - 1 && failures.Length >= |pending|
    requires forall c | 0 <= c < |failed| :: ChunkPart(outcome, pending, begins[c], begins[c + 1], failures[..], failed[c])
    modifies failures
    ensures total <= failures.Length && failures[..total] == AllFails(outcome, pending)
  {
    ghost var fs := failures[..];
    total := failed[0];
    FirstPacked(outcome, pending, begins[1], fs, failed[0]);
    for chunk := 1 to |failed|
      invariant PackedTo(outcome, pending, begins[chunk], fs, failures[..], total)
    {
      assert ChunkPart(outcome, pending, begins[chunk], begins[chunk + 1], fs, failed[chunk]);
      PackOne(outcome, pending, begins[chunk], begins[chunk + 1], fs, failures, total, failed[chunk]);
      total := total + failed[chunk];
    }
    AllPacked(outcome, pending, fs, failures[..], total);
  }

  // The failures of the rows before `begin` are at the front, and the rest of the buffer
  // is as the chunks left it.
  ghost predicate PackedTo(outcome: Reads, pending: seq<nat>, begin: nat, fs: seq<Failure>, now: seq<Failure>, total: nat) {
    && total <= begin <= |pending| && begin <= |fs| == |now| && now[..total] == AllFails(outcome, pending[..begin])
    && forall i | begin <= i < |fs| :: now[i] == fs[i]
  }

  lemma FirstPacked(outcome: Reads, pending: seq<nat>, end: nat, fs: seq<Failure>, n: nat)
    requires ChunkPart(outcome, pending, 0, end, fs, n)
    requires end <= |fs|
    ensures PackedTo(outcome, pending, end, fs, fs, n)
  {
    assert pending[0..end] == pending[..end];
    assert fs[0..0 + n] == fs[..n];
  }

  lemma AllPacked(outcome: Reads, pending: seq<nat>, fs: seq<Failure>, now: seq<Failure>, total: nat)
    requires PackedTo(outcome, pending, |pending|, fs, now, total)
    ensures now[..total] == AllFails(outcome, pending)
  {
    assert pending[..|pending|] == pending;
  }

  method PackOne(ghost outcome: Reads, ghost pending: seq<nat>, begin: nat, end: nat, ghost fs: seq<Failure>, failures: array<Failure>,
                 total: nat, n: nat)
    requires PackedTo(outcome, pending, begin, fs, failures[..], total) && ChunkPart(outcome, pending, begin, end, fs, n)
    requires end <= failures.Length
    modifies failures
    ensures PackedTo(outcome, pending, end, fs, failures[..], total + n)
  {
    ghost var was := failures[..];
    MemMove(failures, total, begin, n);
    Packed(outcome, pending, begin, end, fs, was, failures[..], total, n);
  }

  // Moving a chunk's failures behind those before it gives those of both.
  lemma Packed(outcome: Reads, pending: seq<nat>, begin: nat, end: nat, fs: seq<Failure>, was: seq<Failure>, now: seq<Failure>,
               total: nat, n: nat)
    requires begin <= end <= |pending| && total <= begin && begin + n <= |fs| == |was| == |now|
    requires was[..total] == AllFails(outcome, pending[..begin]) && fs[begin..begin + n] == AllFails(outcome, pending[begin..end])
    requires forall i | begin <= i < |fs| :: was[i] == fs[i]
    requires forall i | 0 <= i < total :: now[i] == was[i]
    requires forall i | total <= i < total + n :: now[i] == was[i - total + begin]
    ensures now[..total + n] == AllFails(outcome, pending[..end])
  {
    AllFailsConcat(outcome, pending[..begin], pending[begin..end]);
    assert pending[..end] == pending[..begin] + pending[begin..end];
    MovedBehind(was, fs, now, total, begin, n);
  }

  lemma MovedBehind(was: seq<Failure>, fs: seq<Failure>, now: seq<Failure>, total: nat, begin: nat, n: nat)
    requires total <= begin && begin + n <= |fs| == |was| == |now|
    requires forall i | begin <= i < |fs| :: was[i] == fs[i]
    requires forall i | 0 <= i < total :: now[i] == was[i]
    requires forall i | total <= i < total + n :: now[i] == was[i - total + begin]
    ensures now[..total + n] == was[..total] + fs[begin..begin + n]
  {
  }

  // memmove within the buffer, towards its front.
  method MemMove(a: array<Failure>, dst: nat, src: nat, n: nat)
    requires dst <= src && src + n <= a.Length
    modifies a
    ensures forall i | 0 <= i < a.Length && !(dst <= i < dst + n) && i >= src + n :: a[i] == old(a[i])
    ensures forall i | 0 <= i < dst :: a[i] == old(a[i])
    ensures forall i | dst <= i < dst + n :: a[i] == old(a[i - dst + src])
  {
    ghost var was := a[..];
    for k := 0 to n
      invariant forall i | 0 <= i < dst || dst + k <= i < a.Length :: a[i] == was[i]
      invariant forall i | dst <= i < dst + k :: a[i] == was[i - dst + src]
    {
      a[dst + k] := a[src + k];
    }
  }

  // --- read_batch ------------------------------------------------------------------------------

  // The non-blocking probe of a row: bytes of it that are there at once, a refusal of such
  // reads, or another error.
  datatype Probe = Probed(n: nat) | Refused | Unready

  ghost predicate ProbeOk(t: Source, row: nat, p: Probe) {
    p.Probed? ==> p.n <= t.rowBytes && (0 < p.n ==> OffsetOf(t, row) + p.n <= |t.file|)
  }

  // Which rows the probe leaves to the threads: owned, and not read at once; once such
  // reads are refused, all owned rows.
  ghost predicate Probing(owned: seq<bool>, probes: seq<Probe>, direct: bool, n: nat)
    requires |owned| == |probes| && n <= |owned|
  {
    !direct && forall k | 0 <= k < n :: owned[k] ==> probes[k] != Refused
  }

  ghost predicate ReadAtOnce(owned: seq<bool>, probes: seq<Probe>, t: Source, i: nat)
    requires |owned| == |probes| && i < |owned|
  {
    owned[i] && probes[i] == Probed(t.rowBytes) && Probing(owned, probes, t.direct, i)
  }

  lemma PendingIff(t: Source, owned: seq<bool>, probes: seq<Probe>, pending: seq<nat>)
    requires |owned| == |probes|
    requires forall i: nat | i < |owned| :: i in pending <==> owned[i] && !ReadAtOnce(owned, probes, t, i)
    ensures forall i: nat | i < |owned| ::
              i in pending <==> owned[i] && (t.direct || probes[i] != Probed(t.rowBytes) || RefusedBefore(owned, probes, i))
  {
  }

  ghost predicate RefusedBefore(owned: seq<bool>, probes: seq<Probe>, i: nat)
    requires |owned| == |probes| && i < |owned|
  {
    exists k: nat :: k < i && owned[k] && probes[k] == Refused
  }

  ghost predicate OwnedAre(t: Table, ids: seq<int>, owned: seq<bool>)
    requires t.Sorted()
  {
    |owned| == |ids| && forall i | 0 <= i < |ids| :: owned[i] <==> Owned(t, ids[i])
  }

  // read_batch: the rows ids[0..] of the file into out. probes and tries are what the reads
  // of each row get; refused are the threads that do not start, schedule the order of the
  // turns. Whatever the threads do, the rows and failures are those of reading the rows one
  // by one.
  method ReadBatch(source: Source, t: Table, ids: seq<int>, probes: seq<Probe>, tries: seq<seq<seq<Answer>>>,
                   maxThreads: nat, refused: set<nat>, schedule: seq<nat>, out: array<Row>)
    returns (failures: seq<Failure>, pending: seq<nat>, ghost owned: seq<bool>)
    requires |ids| == |probes| == |tries| == out.Length && 0 < maxThreads && t.Sorted() && 0 <= t.ownerLo
    requires forall i | 0 <= i < |ids| && Owned(t, ids[i]) :: ReadOk(source, ids[i], tries[i]) && ProbeOk(source, ids[i], probes[i])
    modifies out
    ensures OwnedAre(t, ids, owned)
    ensures forall i | 0 <= i < out.Length :: !owned[i] ==> out[i] == Zeros(source.rowBytes)
    ensures DoneOneByOne(source, ids, probes, tries, owned, pending, failures, out[..])
    // The same by bytes and answers.
    ensures DoneByBytes(source, ids, probes, tries, owned, pending, failures, out[..])
  {
    pending, owned := ProbeRows(source, t, ids, probes, out);
    if |pending| == 0 {
      AllDone(source, ids, probes, tries, owned, pending, [], out[..]);
      return [], pending, owned;
    }
    forall k | 0 <= k < |pending|
      ensures PendingRow(source, ids, tries, pending[k])
    {
      assert pending[k] in pending;
    }
    failures := ReadPending(source, ids, tries, pending, maxThreads, refused, schedule, out);
    AllDone(source, ids, probes, tries, owned, pending, failures, out[..]);
  }

  // The rows left to the threads.
  method ReadPending(source: Source, ids: seq<int>, tries: seq<seq<seq<Answer>>>, pending: seq<nat>, maxThreads: nat, refused: set<nat>,
                     schedule: seq<nat>, out: array<Row>)
    returns (failures: seq<Failure>)
    requires 0 < |pending| && 0 < maxThreads && PendingOk(source, ids, tries, pending) && Ascending(pending, out.Length)
    modifies out
    ensures failures == AllFails(Outcomes(source, ids, tries), pending)
    ensures forall k | 0 <= k < |pending| && Outcomes(source, ids, tries)(pending[k]).None? :: out[pending[k]] == Rows(source, ids)(pending[k])
    ensures forall i | 0 <= i < out.Length && i !in pending :: out[i] == old(out[i])
  {
    var begins, workers, inlines := Split(|pending|, maxThreads, refused);
    var batch := new Batch(source, ids, tries, pending, begins, out);
    batch.ReadAll(refused, workers, inlines, schedule);
    forall k | 0 <= k < |pending| && Outcomes(source, ids, tries)(pending[k]).None?
      ensures out[pending[k]] == Rows(source, ids)(pending[k])
    {
      var c := ChunkOf(begins, |pending|, k, |begins| - 1);
      assert ChunkState(batch.outcome, batch.row, pending, begins, batch.failures[..], out[..], batch.failed, batch.next, c) && !batch.More(c);
    }
    var total := batch.Pack();
    failures := batch.failures[..total];
  }

  // A row's part in a batch: its bytes are those of the file, unless it is pending and its
  // attempts failed, as the one failure of its index says.
  ghost predicate RowDone(t: Source, row: nat, tries: seq<seq<Answer>>, pending: bool, failures: seq<Failure>, i: nat, bytes: Row) {
    && (forall f | 0 <= f < |failures| && failures[f].index == i ::
          0 <= failures[f].offset && TriesEnd(t, row, tries, ReadResult.Failed(failures[f].error, failures[f].offset)))
    && ((forall f | 0 <= f < |failures| :: failures[f].index != i) ==>
          HoldsRow(t, row, bytes) && (pending ==> TriesEnd(t, row, tries, Whole)))
  }

  ghost predicate FailuresIn(pending: seq<nat>, failures: seq<Failure>) {
    && (forall f, g | 0 <= f < g < |failures| :: failures[f].index < failures[g].index)
    && (forall f | 0 <= f < |failures| :: failures[f].index in pending)
  }

  // What reading the owned rows one by one gives.
  ghost predicate DoneOneByOne(t: Source, ids: seq<int>, probes: seq<Probe>, tries: seq<seq<seq<Answer>>>, owned: seq<bool>,
                               pending: seq<nat>, failures: seq<Failure>, out: seq<Row>) {
    && |ids| == |probes| == |tries| == |out| == |owned|
    && (forall i: nat | i < |out| && owned[i] ::
          0 <= ids[i] && (ReadAtOnce(owned, probes, t, i) || Outcomes(t, ids, tries)(i).None? ==> out[i] == RowOf(t, ids[i])))
    && (forall i: nat | i < |out| :: i in pending <==> owned[i] && !ReadAtOnce(owned, probes, t, i))
    && Ascending(pending, |out|) && failures == AllFails(Outcomes(t, ids, tries), pending)
  }

  // Every owned row is done, the failures are of pending rows in order, and the pending rows are
  // the owned ones whose bytes were not there at once, all of them from the first refusal on and
  // with direct reads.
  ghost predicate DoneByBytes(t: Source, ids: seq<int>, probes: seq<Probe>, tries: seq<seq<seq<Answer>>>, owned: seq<bool>,
                              pending: seq<nat>, failures: seq<Failure>, out: seq<Row>) {
    && |ids| == |probes| == |tries| == |out| == |owned|
    && (forall i: nat | i < |out| && owned[i] :: 0 <= ids[i] && RowDone(t, ids[i], tries[i], i in pending, failures, i, out[i]))
    && FailuresIn(pending, failures)
    && (forall i: nat | i < |out| ::
          i in pending <==> owned[i] && (t.direct || probes[i] != Probed(t.rowBytes) || RefusedBefore(owned, probes, i)))
  }

  lemma AllDone(source: Source, ids: seq<int>, probes: seq<Probe>, tries: seq<seq<seq<Answer>>>, owned: seq<bool>, pending: seq<nat>,
                failures: seq<Failure>, out: seq<Row>)
    requires DoneOneByOne(source, ids, probes, tries, owned, pending, failures, out)
    requires forall i | 0 <= i < |ids| && owned[i] :: 0 <= ids[i] && ReadOk(source, ids[i], tries[i]) && ProbeOk(source, ids[i], probes[i])
    ensures DoneByBytes(source, ids, probes, tries, owned, pending, failures, out)
  {
    PendingIff(source, owned, probes, pending);
    var outcome := Outcomes(source, ids, tries);
    AllFailsOrder(outcome, pending);
    forall i: nat | i < |out| && owned[i]
      ensures RowDone(source, ids[i], tries[i], i in pending, failures, i, out[i])
    {
      if i !in pending {
        RowHolds(source, ids[i]);
      } else if outcome(i).None? {
        ReadHolds(source, ids[i], tries[i]);
      } else {
        ReadFails(source, ids[i], tries[i]);
        assert Failure(i, outcome(i).value.0, outcome(i).value.1) in failures;
      }
    }
  }

  lemma {:induction false} ChunkOf(begins: seq<nat>, rows: nat, k: nat, n: nat) returns (c: nat)
    requires ChunksOk(begins, rows) && 0 < n < |begins| && k < begins[n]
    ensures c < n && begins[c] <= k < begins[c + 1]
    decreases n
  {
    if begins[n - 1] <= k {
      c := n - 1;
    } else {
      c := ChunkOf(begins, rows, k, n - 1);
    }
  }

  function Zeros(n: nat): Row {
    seq(n, _ => 0)
  }

  method ProbeRows(source: Source, t: Table, ids: seq<int>, probes: seq<Probe>, out: array<Row>)
    returns (pending: seq<nat>, ghost owned: seq<bool>)
    requires |ids| == |probes| == out.Length && t.Sorted() && 0 <= t.ownerLo
    modifies out
    ensures OwnedAre(t, ids, owned)
    ensures forall i | 0 <= i < out.Length :: !owned[i] ==> out[i] == Zeros(source.rowBytes)
    ensures forall i: nat | i < out.Length && owned[i] :: ReadAtOnce(owned, probes, source, i) ==> out[i] == RowOf(source, ids[i])
    ensures Ascending(pending, out.Length)
    ensures forall i: nat | i < out.Length :: i in pending <==> owned[i] && !ReadAtOnce(owned, probes, source, i)
  {
    pending := [];
    owned := seq(|ids|, i requires 0 <= i < |ids| => Owned(t, ids[i]));
    var nowait := !source.direct;
    for index := 0 to out.Length
      invariant nowait == Probing(owned, probes, source.direct, index)
      invariant forall i | 0 <= i < index :: !owned[i] ==> out[i] == Zeros(source.rowBytes)
      invariant forall i: nat | i < index && owned[i] :: ReadAtOnce(owned, probes, source, i) ==> out[i] == RowOf(source, ids[i])
      invariant Ascending(pending, index)
      invariant forall i: nat | i < index :: i in pending <==> owned[i] && !ReadAtOnce(owned, probes, source, i)
    {
      var mine := Owns(t, ids[index]);
      if !mine {
        out[index] := Zeros(source.rowBytes);
      } else if nowait && probes[index] == Probed(source.rowBytes) {
        out[index] := RowOf(source, ids[index]);
      } else {
        if nowait && probes[index] == Refused {
          nowait := false;
        }
        pending := pending + [index];
      }
    }
  }
}
