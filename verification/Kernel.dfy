/** System call stubs: answers worked out without acting on anything
    (crates/e5r-api/src/kernel.rs). */
module Kernel {
  import opened Ordered
  import opened Image
  import Wire

  type Byte = Wire.Byte

  /** A 64-bit register value. */
  type Word = v: nat | v < 0x1_0000_0000_0000_0000

  const W: nat := 0x1_0000_0000_0000_0000

  const MAX_TRANSFER: nat := 0x10_0000

  /** -12 as a register holds it. */
  const ENOMEM: Word := 0xffff_ffff_ffff_fff4

  datatype Which = Read | Write | Mmap | Munmap | Brk | Exit | Time | GetTimeOfDay | ClockGetTime

  datatype Answer = Returned(value: Word) | Exited(status: Word) | Refused

  datatype Output = Output(fd: Word, bytes: seq<Byte>)

  /** What the stubs answer with. */
  datatype Config = Config(input: seq<Byte>, arena: Word, size: Word, epoch: Word) {
    /** The arena's end is an address. */
    predicate Valid() {
      arena + size < W
    }

    function End(): nat {
      arena + size
    }

    /** The break stays below here and mappings at or above. */
    function Split(): nat {
      arena + size / 4
    }
  }

  /** Bytes by address, the image's among them; any other address reads as zero. */
  type Memory = map<Word, Byte>

  function ReadByte(mem: Memory, at: nat): Byte {
    if at % W in mem then mem[at % W] else 0
  }

  function ReadBytes(mem: Memory, at: nat, n: nat): (r: seq<Byte>)
    ensures |r| == n
  {
    if n == 0 then [] else ReadBytes(mem, at, n - 1) + [ReadByte(mem, at + n - 1)]
  }

  function WriteBytes(mem: Memory, at: nat, bytes: seq<Byte>): Memory {
    if bytes == [] then mem else WriteBytes(mem, at, bytes[..|bytes| - 1])[(at + |bytes| - 1) % W := bytes[|bytes| - 1]]
  }

  function WhichCall(arch: Arch, number: Word): Option<Which> {
    match arch
    case X86_64 =>
      (match number
       case 0 => Some(Read) case 1 => Some(Write) case 9 => Some(Mmap) case 11 => Some(Munmap) case 12 => Some(Brk)
       case 60 => Some(Exit) case 231 => Some(Exit) case 96 => Some(GetTimeOfDay) case 201 => Some(Time)
       case 228 => Some(ClockGetTime) case _ => None)
    case AArch64 =>
      (match number
       case 63 => Some(Read) case 64 => Some(Write) case 93 => Some(Exit) case 94 => Some(Exit)
       case 113 => Some(ClockGetTime) case 169 => Some(GetTimeOfDay) case 214 => Some(Brk) case 215 => Some(Munmap)
       case 222 => Some(Mmap) case _ => None)
    case _ => None
  }

  function Least(a: nat, b: nat): nat {
    if a < b then a else b
  }

  /** Round up to a page, wrapping at 64 bits. */
  function PageUp(v: Word): Word {
    if v % 0x1000 == 0 then v else (v + (0x1000 - v % 0x1000)) % W
  }

  // ----------------------------------------------------------- one call, as a step

  /** The stubs' state: input handed over, next mapping, break, and what was written. */
  datatype State = State(taken: nat, next: nat, brk: nat, output: seq<Output>)

  function Start(k: Config): State {
    State(0, k.Split(), k.arena, [])
  }

  /** How many bytes a read gets. */
  function ReadSize(k: Config, s: State, want: nat): nat {
    if s.taken > |k.input| then 0 else Least(Least(want, MAX_TRANSFER), |k.input| - s.taken)
  }

  /** The mapping an mmap gets, if it gets one. */
  function MapGrant(k: Config, s: State, asked: Word): Option<Range> {
    var len := PageUp(asked);
    if asked == 0 || len > (if s.next < k.End() then k.End() - s.next else 0) then None
    else Some(Range(s.next, s.next + len))
  }

  /** A mapping with no file behind it: the descriptor is -1. */
  predicate Anonymous(args: seq<Word>)
    requires |args| == 6
  {
    args[4] == W - 1
  }

  function StepState(k: Config, s: State, which: Which, args: seq<Word>, mem: Memory): State
    requires |args| == 6
  {
    match which
    case Read => s.(taken := s.taken + ReadSize(k, s, args[2]))
    case Write => s.(output := s.output + [Output(args[0], ReadBytes(mem, args[1], Least(args[2], MAX_TRANSFER)))])
    case Mmap =>
      (if Anonymous(args) && MapGrant(k, s, args[1]).Some? then s.(next := MapGrant(k, s, args[1]).value.end) else s)
    case Brk => if k.arena <= args[0] <= k.Split() then s.(brk := args[0]) else s
    case _ => s
  }

  function StepMemory(k: Config, s: State, which: Which, args: seq<Word>, mem: Memory): Memory
    requires |args| == 6 && s.taken <= |k.input|
  {
    match which
    case Read => WriteBytes(mem, args[1], k.input[s.taken..s.taken + ReadSize(k, s, args[2])])
    case Time => if args[0] != 0 then WriteBytes(mem, args[0], Wire.Le(k.epoch, 8)) else mem
    case GetTimeOfDay => Clock(k, args[0], mem)
    case ClockGetTime => Clock(k, args[1], mem)
    case _ => mem
  }

  function Clock(k: Config, out: Word, mem: Memory): Memory {
    if out == 0 then mem else WriteBytes(WriteBytes(mem, out, Wire.Le(k.epoch, 8)), out + 8, Wire.Le(0, 8))
  }

  function StepAnswer(k: Config, s: State, which: Which, args: seq<Word>): Answer
    requires |args| == 6 && Sound(k, s)
  {
    match which
    case Read => Returned(ReadSize(k, s, args[2]))
    case Write => Returned(Least(args[2], MAX_TRANSFER))
    case Mmap =>
      (if !Anonymous(args) then Refused
       else if MapGrant(k, s, args[1]).None? then Returned(ENOMEM)
       else Returned(s.next))
    case Munmap => Returned(0)
    case Brk => Returned(if k.arena <= args[0] <= k.Split() then args[0] else s.brk)
    case Exit => Exited(args[0])
    case Time => Returned(k.epoch)
    case _ => Returned(0)
  }

  /** What every call keeps: reads stay inside the input, mappings inside the
      upper three quarters of the arena, and the break inside the lower one. */
  predicate Sound(k: Config, s: State) {
    k.Valid() && s.taken <= |k.input| && k.Split() <= s.next <= k.End() && k.arena <= s.brk <= k.Split()
  }

  lemma StepSound(k: Config, s: State, which: Which, args: seq<Word>, mem: Memory)
    requires Sound(k, s) && |args| == 6
    ensures Sound(k, StepState(k, s, which, args, mem))
  {
  }

  /** The session itself. */
  class Session {
    const k: Config
    var taken: nat
    var mapNext: nat
    var brk: nat
    var output: seq<Output>

    function Now(): State
      reads this
    {
      State(taken, mapNext, brk, output)
    }

    constructor (k: Config)
      requires k.Valid()
      ensures this.k == k && Now() == Start(k) && Sound(k, Now())
    {
      this.k := k;
      taken, mapNext, brk, output := 0, k.arena + k.size / 4, k.arena, [];
    }

    method TakeInput(want: Word, at: Word, mem: Memory) returns (n: nat, after: Memory)
      requires Sound(k, Now())
      modifies this`taken
      ensures n == ReadSize(k, old(Now()), want) && Now() == old(Now()).(taken := old(taken) + n)
      ensures after == WriteBytes(mem, at, k.input[old(taken)..old(taken) + n])
    {
      var have := if |k.input| > taken then |k.input| - taken else 0;
      n := Least(Least(want, MAX_TRANSFER), have);
      after := mem;
      if n > 0 {
        var bytes := k.input[taken..taken + n];
        taken := taken + n;
        after := WriteBytes(mem, at, bytes);
      }
    }

    method CopyOut(fd: Word, at: Word, count: Word, mem: Memory) returns (n: nat)
      modifies this`output
      ensures n == Least(count, MAX_TRANSFER)
      ensures Now() == old(Now()).(output := old(output) + [Output(fd, ReadBytes(mem, at, n))])
    {
      n := Least(count, MAX_TRANSFER);
      var bytes: seq<Byte> := [];
      for i := 0 to n
        invariant output == old(output) && bytes == ReadBytes(mem, at, i)
      {
        bytes := bytes + [ReadByte(mem, at + i)];
      }
      output := output + [Output(fd, bytes)];
    }

    method Map(asked: Word) returns (answer: Answer)
      requires Sound(k, Now())
      modifies this`mapNext
      ensures match MapGrant(k, old(Now()), asked)
        case None => answer == Returned(ENOMEM) && Now() == old(Now())
        case Some(r) => answer == Returned(old(mapNext)) && Now() == old(Now()).(next := r.end)
    {
      var len := PageUp(asked);
      var end := k.arena + k.size;
      var room := if end > mapNext then end - mapNext else 0;
      if asked == 0 || len > room {
        return Returned(ENOMEM);
      }
      answer := Returned(mapNext);
      mapNext := mapNext + len;
    }

    /** Answer one call, or refuse it. */
    method Serve(arch: Arch, number: Word, args: seq<Word>, mem: Memory) returns (answer: Answer, after: Memory)
      requires Sound(k, Now()) && |args| == 6
      modifies this
      ensures Sound(k, Now())
      ensures match WhichCall(arch, number)
        case None => answer == Refused && Now() == old(Now()) && after == mem
        case Some(which) =>
          (answer == StepAnswer(k, old(Now()), which, args) &&
           Now() == StepState(k, old(Now()), which, args, mem) &&
           after == StepMemory(k, old(Now()), which, args, mem))
    {
      after := mem;
      var which := WhichCall(arch, number);
      if which.None? {
        return Refused, mem;
      }
      StepSound(k, Now(), which.value, args, mem);
      match which.value {
        case Read =>
          var n;
          n, after := TakeInput(args[2], args[1], mem);
          answer := Returned(n);
        case Write =>
          var n := CopyOut(args[0], args[1], args[2], mem);
          answer := Returned(n);
        case Mmap =>
          if Anonymous(args) {
            answer := Map(args[1]);
          } else {
            answer := Refused;
          }
        case Munmap => answer := Returned(0);
        case Brk =>
          if k.arena <= args[0] && args[0] <= k.arena + k.size / 4 {
            brk := args[0];
          }
          answer := Returned(brk);
        case Exit => answer := Exited(args[0]);
        case Time =>
          if args[0] != 0 {
            after := WriteBytes(mem, args[0], Wire.Le(k.epoch, 8));
          }
          answer := Returned(k.epoch);
        case GetTimeOfDay =>
          after := Clock(k, args[0], mem);
          answer := Returned(0);
        case ClockGetTime =>
          after := Clock(k, args[1], mem);
          answer := Returned(0);
      }
    }
  }

  // -------------------------------------------------------------------- whole runs

  /** One served call, with the memory it found: the program may have changed any
      of it since the call before. */
  datatype Call = Call(which: Which, args: seq<Word>, mem: Memory)

  predicate Calls(run: seq<Call>) {
    forall i :: 0 <= i < |run| ==> |run[i].args| == 6
  }

  /** The state after a run of calls. */
  function After(k: Config, run: seq<Call>): State
    requires Calls(run)
  {
    if run == [] then Start(k) else
    var last := run[|run| - 1];
    StepState(k, After(k, run[..|run| - 1]), last.which, last.args, last.mem)
  }

  lemma {:induction false} AlwaysSound(k: Config, run: seq<Call>)
    requires k.Valid() && Calls(run)
    ensures Sound(k, After(k, run))
  {
    if run == [] {
    } else {
      var last := run[|run| - 1];
      AlwaysSound(k, run[..|run| - 1]);
      StepSound(k, After(k, run[..|run| - 1]), last.which, last.args, last.mem);
    }
  }

  /** The ranges the run's mappings were given, in order. */
  function Mappings(k: Config, run: seq<Call>): seq<Range>
    requires Calls(run)
  {
    if run == [] then [] else
    var less, last := run[..|run| - 1], run[|run| - 1];
    Mappings(k, less) +
    if last.which.Mmap? && Anonymous(last.args) && MapGrant(k, After(k, less), last.args[1]).Some?
    then [MapGrant(k, After(k, less), last.args[1]).value] else []
  }

  /** The bytes the run's reads handed over, in order. */
  function Handed(k: Config, run: seq<Call>): seq<Byte>
    requires k.Valid() && Calls(run)
  {
    if run == [] then [] else
    var less, last := run[..|run| - 1], run[|run| - 1];
    AlwaysSound(k, less);
    var s := After(k, less);
    Handed(k, less) + if last.which.Read? then k.input[s.taken..s.taken + ReadSize(k, s, last.args[2])] else []
  }

  /** Mappings never overlap, lie in the upper three quarters of the arena, and
      end where the next one starts or below. */
  lemma {:induction false} MappingsApart(k: Config, run: seq<Call>)
    requires k.Valid() && Calls(run)
    ensures forall i :: 0 <= i < |Mappings(k, run)| ==>
      k.Split() <= Mappings(k, run)[i].start <= Mappings(k, run)[i].end <= After(k, run).next <= k.End()
    ensures forall i, j :: 0 <= i < j < |Mappings(k, run)| ==> Mappings(k, run)[i].end <= Mappings(k, run)[j].start
  {
    AlwaysSound(k, run);
    if run != [] {
      var less := run[..|run| - 1];
      AlwaysSound(k, less);
      MappingsApart(k, less);
    }
  }

  /** Whatever the program asks for, its break and its mappings never meet. */
  lemma BreakNeverMeets(k: Config, run: seq<Call>, earlier: nat, i: nat)
    requires k.Valid() && Calls(run) && earlier <= |run| && i < |Mappings(k, run)|
    ensures k.arena <= After(k, run[..earlier]).brk <= Mappings(k, run)[i].start
  {
    AlwaysSound(k, run[..earlier]);
    MappingsApart(k, run);
  }

  /** What the reads handed over, end to end, is a prefix of the input. */
  lemma {:induction false} ReadsArePrefix(k: Config, run: seq<Call>)
    requires k.Valid() && Calls(run)
    ensures After(k, run).taken <= |k.input| && Handed(k, run) == k.input[..After(k, run).taken]
  {
    AlwaysSound(k, run);
    if run != [] {
      var less, last := run[..|run| - 1], run[|run| - 1];
      AlwaysSound(k, less);
      ReadsArePrefix(k, less);
      var s, n := After(k, less), ReadSize(k, After(k, less), last.args[2]);
      if last.which.Read? {
        assert k.input[..s.taken] + k.input[s.taken..s.taken + n] == k.input[..s.taken + n];
      }
    }
  }

  /** A read gives nothing only when nothing was asked for or nothing is left. */
  lemma EndOfFileIff(k: Config, s: State, want: Word)
    requires Sound(k, s)
    ensures ReadSize(k, s, want) == 0 <==> want == 0 || s.taken == |k.input|
    ensures ReadSize(k, s, want) <= want && ReadSize(k, s, want) <= MAX_TRANSFER
  {
  }

  /** Rounding a length up gives at least the length exactly when it does not
      wrap: from one byte past the last whole page it comes out as nothing. */
  lemma PageUpIff(asked: Word)
    ensures PageUp(asked) >= asked <==> asked <= W - 0x1000
    ensures asked > W - 0x1000 ==> PageUp(asked) == 0
    ensures PageUp(asked) % 0x1000 == 0
  {
    var pages, rest := asked / 0x1000, asked % 0x1000;
    assert asked == pages * 0x1000 + rest;
    var up := asked + (0x1000 - rest);
    assert rest > 0 ==> up == (pages + 1) * 0x1000;
    if rest > 0 {
      if up < W {
        assert up % W == up;
      } else {
        assert up == W;
      }
    }
  }

  /** A mapping that is granted is as long as was asked exactly when the length
      does not wrap in rounding; a length that wraps is granted no bytes at all. */
  lemma GrantCoversIff(k: Config, s: State, asked: Word)
    requires Sound(k, s) && MapGrant(k, s, asked).Some?
    ensures MapGrant(k, s, asked).value.end - MapGrant(k, s, asked).value.start >= asked <==> asked <= W - 0x1000
  {
    PageUpIff(asked);
  }

  /** A request for nearly the whole address space is always granted. */
  lemma WrappedRequestGranted(k: Config, s: State, asked: Word)
    requires Sound(k, s) && asked > W - 0x1000
    ensures MapGrant(k, s, asked) == Some(Range(s.next, s.next))
  {
    PageUpIff(asked);
  }

  /** Otherwise a mapping is refused for want of room exactly when its pages do
      not fit in what is left. */
  lemma GrantedIff(k: Config, s: State, asked: Word)
    requires Sound(k, s) && 0 < asked <= W - 0x1000
    ensures MapGrant(k, s, asked).Some? <==> s.next + PageUp(asked) <= k.End()
    ensures asked <= PageUp(asked) < asked + 0x1000
  {
    PageUpIff(asked);
  }
}
