/** What each modelled system call does, by its number: told byte by byte, without
    the stubs' own functions (crates/e5r-api/src/kernel.rs). */
module KernelCalls {
  import opened Ordered
  import opened Image
  import opened Kernel
  import Wire

  /** The numbers of a call: the x86-64 table, and the generic one AArch64 uses. */
  function Numbers(arch: Arch, which: Which): seq<Word> {
    match arch
    case X86_64 =>
      (match which
       case Read => [0] case Write => [1] case Mmap => [9] case Munmap => [11] case Brk => [12] case Exit => [60, 231]
       case GetTimeOfDay => [96] case Time => [201] case ClockGetTime => [228])
    case AArch64 =>
      (match which
       case Read => [63] case Write => [64] case Exit => [93, 94] case ClockGetTime => [113] case GetTimeOfDay => [169]
       case Brk => [214] case Munmap => [215] case Mmap => [222] case Time => [])
    case _ => []
  }

  lemma NumbersIff(arch: Arch, which: Which, number: Word)
    ensures WhichCall(arch, number) == Some(which) <==> number in Numbers(arch, which)
  {
  }

  // ------------------------------------------------------------------ memory

  /** The place `i` bytes on, around the top of memory. */
  function Place(at: nat, i: nat): Word {
    (at + i) % W
  }

  lemma PlacesApart(at: nat, i: nat, j: nat)
    requires i < j < i + W
    ensures Place(at, i) != Place(at, j)
  {
    var a, b := at + i, at + j;
    assert a == a / W * W + a % W && b == b / W * W + b % W;
    assert a % W == b % W ==> (b / W - a / W) * W == b - a;
    NoMultiple(b / W - a / W, b - a);
  }

  lemma NoMultiple(q: int, d: int)
    requires 0 < d < W
    ensures q * W != d
  {
    if q >= 1 {
      assert q * W >= W;
    } else {
      assert q * W <= 0;
    }
  }

  /** Bytes written are there, each in its place, and nothing else has changed. */
  ghost predicate Holds(mem: Memory, at: nat, bytes: seq<Byte>, after: Memory) {
    (forall i: nat :: i < |bytes| ==> ReadByte(after, Place(at, i)) == bytes[i]) &&
    (forall a: Word :: Outside(at, |bytes|, a) ==> ReadByte(after, a) == ReadByte(mem, a))
  }

  ghost predicate Outside(at: nat, n: nat, a: Word) {
    forall i: nat :: i < n ==> Place(at, i) != a
  }

  lemma {:induction false} WritesHold(mem: Memory, at: nat, bytes: seq<Byte>)
    requires |bytes| <= W
    ensures Holds(mem, at, bytes, WriteBytes(mem, at, bytes))
    decreases |bytes|
  {
    if bytes != [] {
      var n := |bytes| - 1;
      var less, last := bytes[..n], bytes[n];
      WritesHold(mem, at, less);
      OneMoreHolds(mem, at, bytes, n, WriteBytes(mem, at, less), WriteBytes(mem, at, bytes));
    }
  }

  lemma OneMoreHolds(mem: Memory, at: nat, bytes: seq<Byte>, n: nat, was: Memory, now: Memory)
    requires |bytes| == n + 1 <= W && Holds(mem, at, bytes[..n], was) && now == was[Place(at, n) := bytes[n]]
    ensures Holds(mem, at, bytes, now)
  {
    forall i: nat | i < |bytes| ensures ReadByte(now, Place(at, i)) == bytes[i] {
      if i < n {
        PlacesApart(at, i, n);
        assert bytes[..n][i] == bytes[i];
      }
    }
    forall a: Word | Outside(at, |bytes|, a) ensures ReadByte(now, a) == ReadByte(mem, a) {
      assert Place(at, n) != a;
      assert Outside(at, |bytes[..n]|, a);
    }
  }

  // ------------------------------------------------------------------ the calls

  /** What a call does: the answer, what becomes of the session and of memory. */
  ghost predicate Does(k: Config, s: State, arch: Arch, number: Word, args: seq<Word>, mem: Memory, answer: Answer, now: State,
                       after: Memory)
    requires |args| == 6 && Sound(k, s)
  {
    match WhichCall(arch, number)
    case None => answer == Refused && now == s && after == mem
    case Some(which) =>
      answer == StepAnswer(k, s, which, args) && now == StepState(k, s, which, args, mem) &&
      after == StepMemory(k, s, which, args, mem)
  }

  /** As many bytes as were asked for, or the largest transfer, or what is left. */
  ghost predicate Given(k: Config, s: State, want: Word, n: Word) {
    n <= want && n <= 0x10_0000 && s.taken + n <= |k.input| && (n == want || n == 0x10_0000 || s.taken + n == |k.input|)
  }

  /** What lies in the buffer, up to the largest transfer. */
  ghost predicate Lies(mem: Memory, at: Word, count: Word, bytes: seq<Byte>) {
    |bytes| == (if count <= 0x10_0000 then count else 0x10_0000) &&
    forall i: nat :: i < |bytes| ==> bytes[i] == ReadByte(mem, Place(at, i))
  }

  /** A read answers how many bytes it gave: as many as were asked for, up to the
      largest transfer and to what is left. They are the next of the input, and lie in
      the buffer; nothing else changes. */
  lemma ReadDoes(k: Config, s: State, arch: Arch, number: Word, args: seq<Word>, mem: Memory, answer: Answer, now: State,
                 after: Memory)
    requires |args| == 6 && Sound(k, s) && number in Numbers(arch, Read)
    requires Does(k, s, arch, number, args, mem, answer, now, after)
    ensures exists n: Word :: answer == Returned(n) && Given(k, s, args[2], n) &&
              now == State(s.taken + n, s.next, s.brk, s.output) && Holds(mem, args[1], k.input[s.taken..s.taken + n], after)
  {
    NumbersIff(arch, Read, number);
    var n := ReadGives(k, s, args, mem, answer, now, after);
  }

  lemma ReadGives(k: Config, s: State, args: seq<Word>, mem: Memory, answer: Answer, now: State, after: Memory) returns (n: Word)
    requires |args| == 6 && Sound(k, s) && answer == StepAnswer(k, s, Read, args)
    requires now == StepState(k, s, Read, args, mem) && after == StepMemory(k, s, Read, args, mem)
    ensures answer == Returned(n) && Given(k, s, args[2], n)
    ensures now == State(s.taken + n, s.next, s.brk, s.output) && Holds(mem, args[1], k.input[s.taken..s.taken + n], after)
  {
    n := ReadSize(k, s, args[2]);
    WritesHold(mem, args[1], k.input[s.taken..s.taken + n]);
  }

  lemma {:induction false} ReadBytesAt(mem: Memory, at: nat, n: nat, i: nat)
    requires i < n
    ensures ReadBytes(mem, at, n)[i] == ReadByte(mem, Place(at, i))
  {
    if i < n - 1 {
      ReadBytesAt(mem, at, n - 1, i);
    }
  }

  /** A write answers how many bytes it took, up to the largest transfer, and records
      the bytes that lie in the buffer under its descriptor; memory is left alone. */
  lemma WriteDoes(k: Config, s: State, arch: Arch, number: Word, args: seq<Word>, mem: Memory, answer: Answer, now: State,
                  after: Memory)
    requires |args| == 6 && Sound(k, s) && number in Numbers(arch, Write)
    requires Does(k, s, arch, number, args, mem, answer, now, after)
    ensures after == mem && now.taken == s.taken && now.next == s.next && now.brk == s.brk
    ensures exists bytes :: Lies(mem, args[1], args[2], bytes) && now.output == s.output + [Output(args[0], bytes)] &&
              answer == Returned(|bytes|)
  {
    NumbersIff(arch, Write, number);
    var bytes := ReadBytes(mem, args[1], Least(args[2], MAX_TRANSFER));
    forall i: nat | i < |bytes| ensures bytes[i] == ReadByte(mem, Place(args[1], i)) {
      ReadBytesAt(mem, args[1], |bytes|, i);
    }
    assert Lies(mem, args[1], args[2], bytes);
  }

  /** The break moves where it is asked to inside the lower quarter of the arena, and
      nowhere else; the answer is where it then is. */
  lemma BrkDoes(k: Config, s: State, arch: Arch, number: Word, args: seq<Word>, mem: Memory, answer: Answer, now: State,
                after: Memory)
    requires |args| == 6 && Sound(k, s) && number in Numbers(arch, Brk)
    requires Does(k, s, arch, number, args, mem, answer, now, after)
    ensures after == mem && now == s.(brk := now.brk) && answer == Returned(now.brk)
    ensures now.brk == if k.arena <= args[0] <= k.arena + k.size / 4 then args[0] else s.brk
  {
    NumbersIff(arch, Brk, number);
  }

  /** A mapping with a file behind it is refused. Any other is granted where the last
      one ended, or refused for want of memory; only where the next goes changes. */
  lemma MmapDoes(k: Config, s: State, arch: Arch, number: Word, args: seq<Word>, mem: Memory, answer: Answer, now: State,
                 after: Memory)
    requires |args| == 6 && Sound(k, s) && number in Numbers(arch, Mmap)
    requires Does(k, s, arch, number, args, mem, answer, now, after)
    ensures after == mem && now == s.(next := now.next)
    ensures args[4] != W - 1 ==> answer == Refused && now == s
    ensures args[4] == W - 1 && MapGrant(k, s, args[1]).None? ==> answer == Returned(ENOMEM) && now == s
    ensures args[4] == W - 1 && MapGrant(k, s, args[1]).Some? ==>
      answer == Returned(s.next) && MapGrant(k, s, args[1]) == Some(Range(s.next, now.next))
  {
    NumbersIff(arch, Mmap, number);
  }

  /** Unmapping answers zero and does nothing. */
  lemma MunmapDoes(k: Config, s: State, arch: Arch, number: Word, args: seq<Word>, mem: Memory, answer: Answer, now: State,
                   after: Memory)
    requires |args| == 6 && Sound(k, s) && number in Numbers(arch, Munmap)
    requires Does(k, s, arch, number, args, mem, answer, now, after)
    ensures answer == Returned(0) && now == s && after == mem
  {
    NumbersIff(arch, Munmap, number);
  }

  /** Leaving answers the status it was given and does nothing. */
  lemma ExitDoes(k: Config, s: State, arch: Arch, number: Word, args: seq<Word>, mem: Memory, answer: Answer, now: State,
                 after: Memory)
    requires |args| == 6 && Sound(k, s) && number in Numbers(arch, Exit)
    requires Does(k, s, arch, number, args, mem, answer, now, after)
    ensures answer == Exited(args[0]) && now == s && after == mem
  {
    NumbersIff(arch, Exit, number);
  }

  /** Memory written twice, once after the other, holds both. */
  lemma HoldsBoth(mem: Memory, at: nat, a: seq<Byte>, next: nat, b: seq<Byte>, mid: Memory, after: Memory)
    requires |a| + |b| <= W && next == at + |a| && Holds(mem, at, a, mid) && Holds(mid, next, b, after)
    ensures Holds(mem, at, a + b, after)
  {
    var both := a + b;
    forall i: nat | i < |both| ensures ReadByte(after, Place(at, i)) == both[i] {
      if i < |a| {
        forall j: nat | j < |b| ensures Place(next, j) != Place(at, i) {
          PlacesApart(at, i, |a| + j);
        }
        assert Outside(next, |b|, Place(at, i));
      } else {
        assert Place(at, i) == Place(next, i - |a|);
      }
    }
    forall x: Word | Outside(at, |both|, x) ensures ReadByte(after, x) == ReadByte(mem, x) {
      forall j: nat | j < |b| ensures Place(next, j) != x {
        assert Place(next, j) == Place(at, |a| + j);
      }
      assert Outside(next, |b|, x) && Outside(at, |a|, x);
    }
  }

  /** The fixed second, as eight bytes. */
  ghost predicate Second(k: Config, bytes: seq<Byte>) {
    |bytes| == 8 && Wire.FromLe(bytes) == k.epoch
  }

  lemma SecondIs(k: Config)
    ensures Second(k, Wire.Le(k.epoch, 8))
  {
    assert Wire.Room(8) == W;
    Wire.FromToLe(k.epoch, 8);
  }

  lemma Nothing(n: nat)
    ensures Wire.Le(0, n) == seq(n, i => 0)
  {
    if n > 0 {
      Nothing(n - 1);
    }
  }

  /** The clock calls answer zero, and fill the structure they are given, if they are
      given one, with the fixed second and eight zero bytes. */
  lemma ClockDoes(k: Config, s: State, arch: Arch, which: Which, number: Word, args: seq<Word>, mem: Memory, answer: Answer,
                  now: State, after: Memory)
    requires |args| == 6 && Sound(k, s) && (which.GetTimeOfDay? || which.ClockGetTime?) && number in Numbers(arch, which)
    requires Does(k, s, arch, number, args, mem, answer, now, after)
    ensures answer == Returned(0) && now == s
    ensures var out := if which.GetTimeOfDay? then args[0] else args[1];
      if out == 0 then after == mem else exists sec :: Second(k, sec) && Holds(mem, out, sec + seq(8, i => 0), after)
  {
    NumbersIff(arch, which, number);
    var out := if which.GetTimeOfDay? then args[0] else args[1];
    if out != 0 {
      var sec := ClockFills(k, out, mem);
    }
  }

  lemma ClockFills(k: Config, out: Word, mem: Memory) returns (sec: seq<Byte>)
    requires out != 0
    ensures Second(k, sec) && Holds(mem, out, sec + seq(8, i => 0), Clock(k, out, mem))
  {
    sec := Wire.Le(k.epoch, 8);
    var zero, next: nat := Wire.Le(0, 8), (out as nat) + 8;
    SecondIs(k);
    Nothing(8);
    WritesHold(mem, out, sec);
    WritesHold(WriteBytes(mem, out, sec), next, zero);
    HoldsBoth(mem, out, sec, next, zero, WriteBytes(mem, out, sec), Clock(k, out, mem));
  }

  /** The plain clock call answers the fixed second, and writes it where it is asked. */
  lemma TimeDoes(k: Config, s: State, arch: Arch, number: Word, args: seq<Word>, mem: Memory, answer: Answer, now: State,
                 after: Memory)
    requires |args| == 6 && Sound(k, s) && number in Numbers(arch, Time)
    requires Does(k, s, arch, number, args, mem, answer, now, after)
    ensures answer == Returned(k.epoch) && now == s
    ensures if args[0] == 0 then after == mem else exists sec :: Second(k, sec) && Holds(mem, args[0], sec, after)
  {
    NumbersIff(arch, Time, number);
    SecondIs(k);
    WritesHold(mem, args[0], Wire.Le(k.epoch, 8));
  }
}
