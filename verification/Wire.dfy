/** Little-endian fields: a writer that appends and a reader whose every read is
    checked (crates/e5r-analysis/src/cache.rs). */
module Wire {
  import opened Ordered
  import Arith

  type Byte = b: nat | b < 256

  type Bytes = seq<Byte>

  // ----------------------------------------------------------- numbers as bytes

  /** The low `n` bytes of a number, least significant first. */
  function Le(v: nat, n: nat): (r: Bytes)
    ensures |r| == n
    decreases n, v
  {
    if n == 0 then [] else [v % 256] + Le(v / 256, n - 1)
  }

  function FromLe(b: Bytes): nat {
    if b == [] then 0 else b[0] + 256 * FromLe(b[1..])
  }

  /** How many values `n` bytes tell apart. */
  function Room(n: nat): (r: nat)
    ensures r > 0
  {
    if n == 0 then 1 else 256 * Room(n - 1)
  }

  lemma Rooms()
    ensures Room(1) == 0x100 && Room(4) == 0x1_0000_0000 && Room(8) == 0x1_0000_0000_0000_0000
  {
    assert Room(2) == 0x1_0000 && Room(3) == 0x100_0000;
    assert Room(5) == 0x100_0000_0000 && Room(6) == 0x1_0000_0000_0000 && Room(7) == 0x100_0000_0000_0000;
  }

  /** Writing then reading gives the number back, cut to the field. */
  lemma {:induction false} FromToLe(v: nat, n: nat)
    requires v < Room(n)
    ensures FromLe(Le(v, n)) == v
    decreases n
  {
    if n > 0 {
      FromToLe(v / 256, n - 1);
      assert Le(v, n)[1..] == Le(v / 256, n - 1);
    }
  }

  /** Reading then writing gives the bytes back. */
  lemma {:induction false} ToFromLe(b: Bytes)
    ensures Le(FromLe(b), |b|) == b && FromLe(b) < Room(|b|)
  {
    if b != [] {
      ToFromLe(b[1..]);
      var v, more := FromLe(b), FromLe(b[1..]);
      Arith.ModUnique(v, more, b[0], 256);
      assert v / 256 == more;
      assert b == [b[0]] + b[1..];
    }
  }

  // ------------------------------------------------------------------- reading

  /** A read at a position gives a value and the position after it, or fails. */
  type Read<T> = Option<(T, nat)>

  function ReadBytes(b: Bytes, at: nat, n: nat): Read<Bytes> {
    if at + n <= |b| then Some((b[at..at + n], at + n)) else None
  }

  function ReadNum(b: Bytes, at: nat, n: nat): Read<nat> {
    var r :- ReadBytes(b, at, n);
    Some((FromLe(r.0), r.1))
  }

  function ReadU8(b: Bytes, at: nat): Read<nat> {
    ReadNum(b, at, 1)
  }

  function ReadU32(b: Bytes, at: nat): Read<nat> {
    ReadNum(b, at, 4)
  }

  function ReadU64(b: Bytes, at: nat): Read<nat> {
    ReadNum(b, at, 8)
  }

  function ReadBool(b: Bytes, at: nat): Read<bool> {
    var r :- ReadU8(b, at);
    if r.0 == 0 then Some((false, r.1)) else if r.0 == 1 then Some((true, r.1)) else None
  }

  /** A continuation byte of UTF-8. */
  predicate Tail(b: Byte) {
    0x80 <= b <= 0xbf
  }

  /** How many bytes the character at the front takes, or zero when the bytes
      there start none (RFC 3629, section 4). */
  function Utf8Char(b: Bytes): (n: nat)
    requires b != []
    ensures n <= |b|
  {
    var h := b[0];
    if h <= 0x7f then 1
    else if 0xc2 <= h <= 0xdf && |b| >= 2 && Tail(b[1]) then 2
    else if |b| >= 3 && Tail(b[1]) && Tail(b[2]) && 0xe0 <= h <= 0xef &&
      (h == 0xe0 ==> b[1] >= 0xa0) && (h == 0xed ==> b[1] <= 0x9f) then 3
    else if |b| >= 4 && Tail(b[1]) && Tail(b[2]) && Tail(b[3]) && 0xf0 <= h <= 0xf4 &&
      (h == 0xf0 ==> b[1] >= 0x90) && (h == 0xf4 ==> b[1] <= 0x8f) then 4
    else 0
  }

  predicate Utf8(b: Bytes) {
    b == [] || (Utf8Char(b) > 0 && Utf8(b[Utf8Char(b)..]))
  }

  function ReadStr(b: Bytes, at: nat): Read<Bytes> {
    var n :- ReadU32(b, at);
    var r :- ReadBytes(b, n.1, n.0);
    if Utf8(r.0) then Some(r) else None
  }

  function ReadOptStr(b: Bytes, at: nat): Read<Option<Bytes>> {
    var flag :- ReadU8(b, at);
    if flag.0 == 0 then Some((None, flag.1))
    else if flag.0 == 1 then
      var s :- ReadStr(b, flag.1);
      Some((Some(s.0), s.1))
    else None
  }

  /** A 64-bit count, refused when that many elements of the least size do not
      fit in what is left. */
  function ReadCount(b: Bytes, at: nat, least: nat): Read<nat> {
    var n :- ReadU64(b, at);
    if n.0 * AtLeastOne(least) <= |b| - n.1 then Some(n) else None
  }

  function AtLeastOne(n: nat): nat {
    if n == 0 then 1 else n
  }

  /** A 32-bit count, checked the same way. */
  function ReadCount32(b: Bytes, at: nat, least: nat): Read<nat> {
    var n :- ReadU32(b, at);
    if n.0 * least <= |b| - n.1 then Some(n) else None
  }

  /** `n` reads in a row. */
  function ReadMany<T>(read: (Bytes, nat) -> Read<T>, b: Bytes, at: nat, n: nat): (r: Read<seq<T>>)
    ensures r.Some? ==> |r.value.0| == n
  {
    if n == 0 then Some(([], at)) else
    var less :- ReadMany(read, b, at, n - 1);
    var last :- read(b, less.1);
    Some((less.0 + [last.0], last.1))
  }

  /** Once a read fails, asking for more fails. */
  lemma {:induction false} ManyFails<T>(read: (Bytes, nat) -> Read<T>, b: Bytes, at: nat, k: nat, n: nat)
    requires k <= n && ReadMany(read, b, at, k) == None
    ensures ReadMany(read, b, at, n) == None
    decreases n
  {
    if k < n {
      ManyFails(read, b, at, k, n - 1);
    }
  }

  // ------------------------------------------------------------------- writing

  function AddNum(b: Bytes, v: nat, n: nat): (r: Bytes)
    ensures |r| == |b| + n
  {
    b + Le(v, n)
  }

  function AddU8(b: Bytes, v: nat): (r: Bytes)
    ensures |r| == |b| + 1
  {
    AddNum(b, v, 1)
  }

  function AddU32(b: Bytes, v: nat): (r: Bytes)
    ensures |r| == |b| + 4
  {
    AddNum(b, v, 4)
  }

  function AddU64(b: Bytes, v: nat): (r: Bytes)
    ensures |r| == |b| + 8
  {
    AddNum(b, v, 8)
  }

  function AddBool(b: Bytes, v: bool): (r: Bytes)
    ensures |r| == |b| + 1
  {
    AddU8(b, if v then 1 else 0)
  }

  function AddStr(b: Bytes, s: Bytes): (r: Bytes)
    ensures |r| == |b| + 4 + |s|
  {
    AddU32(b, |s|) + s
  }

  function AddOptStr(b: Bytes, s: Option<Bytes>): (r: Bytes)
    ensures |r| == |b| + 1 + if s.Some? then 4 + |s.value| else 0
  {
    match s
    case Some(text) => AddStr(AddU8(b, 1), text)
    case None => AddU8(b, 0)
  }

  function AddMany<T>(add: (Bytes, T) -> Bytes, b: Bytes, xs: seq<T>): Bytes {
    if xs == [] then b else add(AddMany(add, b, xs[..|xs| - 1]), xs[|xs| - 1])
  }

  lemma AddManyStep<T>(add: (Bytes, T) -> Bytes, b: Bytes, xs: seq<T>, k: nat)
    requires k < |xs|
    ensures AddMany(add, b, xs[..k + 1]) == add(AddMany(add, b, xs[..k]), xs[k])
  {
    assert xs[..k + 1][..k] == xs[..k];
  }

  // ------------------------------------------------ what is written is read back

  /** What was written onto `pre` is what a read there gives, inside any file
      that goes on from it. */
  ghost predicate Reads<T>(r: Read<T>, b: Bytes, pre: Bytes, v: T, post: Bytes) {
    match r
    case None => false
    case Some(p) => pre <= post <= b && p == (v, |post|)
  }

  lemma NumReads(b: Bytes, pre: Bytes, v: nat, n: nat)
    requires AddNum(pre, v, n) <= b && v < Room(n)
    ensures Reads(ReadNum(b, |pre|, n), b, pre, v, AddNum(pre, v, n))
  {
    FromToLe(v, n);
    assert b[|pre|..|pre| + n] == Le(v, n);
  }

  lemma U8Reads(b: Bytes, pre: Bytes, v: nat)
    requires AddU8(pre, v) <= b && v < 0x100
    ensures Reads(ReadU8(b, |pre|), b, pre, v, AddU8(pre, v))
  {
    Rooms();
    NumReads(b, pre, v, 1);
  }

  lemma U32Reads(b: Bytes, pre: Bytes, v: nat)
    requires AddU32(pre, v) <= b && v < 0x1_0000_0000
    ensures Reads(ReadU32(b, |pre|), b, pre, v, AddU32(pre, v))
  {
    Rooms();
    NumReads(b, pre, v, 4);
  }

  lemma U64Reads(b: Bytes, pre: Bytes, v: nat)
    requires AddU64(pre, v) <= b && v < 0x1_0000_0000_0000_0000
    ensures Reads(ReadU64(b, |pre|), b, pre, v, AddU64(pre, v))
  {
    Rooms();
    NumReads(b, pre, v, 8);
  }

  lemma BoolReads(b: Bytes, pre: Bytes, v: bool)
    requires AddBool(pre, v) <= b
    ensures Reads(ReadBool(b, |pre|), b, pre, v, AddBool(pre, v))
  {
    U8Reads(b, pre, if v then 1 else 0);
  }

  lemma StrReads(b: Bytes, pre: Bytes, s: Bytes)
    requires AddStr(pre, s) <= b && |s| < 0x1_0000_0000 && Utf8(s)
    ensures Reads(ReadStr(b, |pre|), b, pre, s, AddStr(pre, s))
  {
    var mid := AddU32(pre, |s|);
    assert mid <= mid + s;
    U32Reads(b, pre, |s|);
    BytesRead(b, mid, s);
  }

  lemma BytesRead(b: Bytes, pre: Bytes, s: Bytes)
    requires pre + s <= b
    ensures ReadBytes(b, |pre|, |s|) == Some((s, |pre + s|))
  {
    assert b[|pre|..|pre| + |s|] == s;
  }

  lemma OptStrReads(b: Bytes, pre: Bytes, s: Option<Bytes>)
    requires AddOptStr(pre, s) <= b && (s.Some? ==> |s.value| < 0x1_0000_0000 && Utf8(s.value))
    ensures Reads(ReadOptStr(b, |pre|), b, pre, s, AddOptStr(pre, s))
  {
    match s
    case None => U8Reads(b, pre, 0);
    case Some(text) =>
      StrReads(b, AddU8(pre, 1), text);
      U8Reads(b, pre, 1);
  }

  /** Element `k` reads back where it was written. */
  ghost predicate Nth<T>(read: (Bytes, nat) -> Read<T>, add: (Bytes, T) -> Bytes, b: Bytes, pre: Bytes,
                         xs: seq<T>, k: nat)
    requires k < |xs|
  {
    read(b, |AddMany(add, pre, xs[..k])|) == Some((xs[k], |AddMany(add, pre, xs[..k + 1])|))
  }

  lemma {:induction false} ManyReads<T>(read: (Bytes, nat) -> Read<T>, add: (Bytes, T) -> Bytes, b: Bytes, pre: Bytes,
                                        xs: seq<T>, n: nat)
    requires n <= |xs|
    requires forall k: nat :: k < n ==> Nth(read, add, b, pre, xs, k)
    ensures ReadMany(read, b, |pre|, n) == Some((xs[..n], |AddMany(add, pre, xs[..n])|))
  {
    if n > 0 {
      ManyReads(read, add, b, pre, xs, n - 1);
      assert Nth(read, add, b, pre, xs, n - 1);
      ManyNext(read, add, b, pre, xs, n - 1);
    }
  }

  lemma ManyNext<T>(read: (Bytes, nat) -> Read<T>, add: (Bytes, T) -> Bytes, b: Bytes, pre: Bytes, xs: seq<T>, k: nat)
    requires k < |xs| && Nth(read, add, b, pre, xs, k)
    requires ReadMany(read, b, |pre|, k) == Some((xs[..k], |AddMany(add, pre, xs[..k])|))
    ensures ReadMany(read, b, |pre|, k + 1) == Some((xs[..k + 1], |AddMany(add, pre, xs[..k + 1])|))
  {
    TakeOneMore(xs, k);
  }

  ghost predicate AllOk(ok: nat -> bool, n: nat) {
    forall k: nat :: k < n ==> ok(k)
  }

  lemma AllOkStep(ok: nat -> bool, n: nat)
    requires n > 0
    ensures AllOk(ok, n) <==> AllOk(ok, n - 1) && ok(n - 1)
  {
    if AllOk(ok, n - 1) && ok(n - 1) {
      forall k: nat | k < n ensures ok(k) {
        if k != n - 1 {
          assert k < n - 1;
        }
      }
    }
  }

  ghost predicate StepAt<T>(read: (Bytes, nat) -> Read<T>, b: Bytes, place: nat -> nat, ok: nat -> bool, xs: seq<T>, k: nat)
    requires k < |xs|
  {
    read(b, place(k)) == if ok(k) then Some((xs[k], place(k + 1))) else None
  }

  /** Reads at known places, each of which either succeeds or fails. */
  ghost predicate Steps<T>(read: (Bytes, nat) -> Read<T>, b: Bytes, place: nat -> nat, ok: nat -> bool, xs: seq<T>) {
    forall k: nat :: k < |xs| ==> StepAt(read, b, place, ok, xs, k)
  }

  /** The list is read when all succeed and lost when one fails. */
  lemma {:induction false} ManyUntil<T>(read: (Bytes, nat) -> Read<T>, b: Bytes, place: nat -> nat, ok: nat -> bool,
                                        xs: seq<T>, n: nat)
    requires n <= |xs| && Steps(read, b, place, ok, xs)
    ensures ReadMany(read, b, place(0), n) == if AllOk(ok, n) then Some((xs[..n], place(n))) else None
  {
    if n > 0 {
      ManyUntil(read, b, place, ok, xs, n - 1);
      AllOkStep(ok, n);
      TakeOneMore(xs, n - 1);
      assert StepAt(read, b, place, ok, xs, n - 1);
    }
  }

  /** Writing one element only appends, and appends this many bytes. */
  ghost predicate Appends<T(!new)>(add: (Bytes, T) -> Bytes, size: T -> nat) {
    forall p, x :: p <= add(p, x) && |add(p, x)| == |p| + size(x)
  }

  function SumBy<T>(size: T -> nat, xs: seq<T>): nat {
    if xs == [] then 0 else SumBy(size, xs[..|xs| - 1]) + size(xs[|xs| - 1])
  }

  lemma {:induction false} ManyAppends<T(!new)>(add: (Bytes, T) -> Bytes, size: T -> nat, pre: Bytes, xs: seq<T>)
    requires Appends(add, size)
    ensures pre <= AddMany(add, pre, xs) && |AddMany(add, pre, xs)| == |pre| + SumBy(size, xs)
  {
    if xs != [] {
      ManyAppends(add, size, pre, xs[..|xs| - 1]);
    }
  }

  /** Each stretch written is a prefix of all of them. */
  lemma {:induction false} ManyPrefix<T(!new)>(add: (Bytes, T) -> Bytes, size: T -> nat, pre: Bytes, xs: seq<T>, k: nat)
    requires k <= |xs| && Appends(add, size)
    ensures AddMany(add, pre, xs[..k]) <= AddMany(add, pre, xs)
    decreases |xs|
  {
    if k == |xs| {
      assert xs[..k] == xs;
    } else {
      var less := xs[..|xs| - 1];
      ManyPrefix(add, size, pre, less, k);
      assert less[..k] == xs[..k];
    }
  }

  /** A list whose elements each read back reads back. */
  lemma AllRead<T(!new)>(read: (Bytes, nat) -> Read<T>, add: (Bytes, T) -> Bytes, size: T -> nat, b: Bytes, pre: Bytes,
                         xs: seq<T>)
    requires AddMany(add, pre, xs) <= b && Appends(add, size)
    requires forall p, x :: x in xs && add(p, x) <= b ==> Reads(read(b, |p|), b, p, x, add(p, x))
    ensures Reads(ReadMany(read, b, |pre|, |xs|), b, pre, xs, AddMany(add, pre, xs))
  {
    forall k: nat | k < |xs| ensures Nth(read, add, b, pre, xs, k) {
      AddManyStep(add, pre, xs, k);
      ManyPrefix(add, size, pre, xs, k + 1);
      var p := AddMany(add, pre, xs[..k]);
      assert Reads(read(b, |p|), b, p, xs[k], add(p, xs[k]));
    }
    ManyReads(read, add, b, pre, xs, |xs|);
    assert xs[..|xs|] == xs;
    ManyAppends(add, size, pre, xs);
  }

  // ----------------------------------------------- what is read was written so

  /** Writing what was read onto the bytes before it gives the bytes up to its end. */
  ghost predicate Took<T>(b: Bytes, at: nat, p: (T, nat), again: Bytes) {
    match p case (_, end) => at <= end <= |b| && again == b[..end]
  }

  lemma SliceOn(b: Bytes, at: nat, end: nat)
    requires at <= end <= |b|
    ensures b[..at] + b[at..end] == b[..end]
  {
  }

  lemma NumTook(b: Bytes, at: nat, n: nat)
    requires at <= |b| && ReadNum(b, at, n).Some?
    ensures var p := ReadNum(b, at, n).value; Took(b, at, p, AddNum(b[..at], p.0, n)) && p.0 < Room(n)
  {
    var field := b[at..at + n];
    ToFromLe(field);
    SliceOn(b, at, at + n);
    assert AddNum(b[..at], FromLe(field), n) == b[..at] + field;
  }

  lemma U8Took(b: Bytes, at: nat)
    requires at <= |b| && ReadU8(b, at).Some?
    ensures var p := ReadU8(b, at).value; Took(b, at, p, AddU8(b[..at], p.0)) && p.0 < 0x100
  {
    NumTook(b, at, 1);
    Rooms();
  }

  lemma U32Took(b: Bytes, at: nat)
    requires at <= |b| && ReadU32(b, at).Some?
    ensures var p := ReadU32(b, at).value; Took(b, at, p, AddU32(b[..at], p.0)) && p.0 < 0x1_0000_0000
  {
    NumTook(b, at, 4);
    Rooms();
  }

  lemma U64Took(b: Bytes, at: nat)
    requires at <= |b| && ReadU64(b, at).Some?
    ensures var p := ReadU64(b, at).value; Took(b, at, p, AddU64(b[..at], p.0)) && p.0 < 0x1_0000_0000_0000_0000
  {
    NumTook(b, at, 8);
    Rooms();
  }

  lemma BoolTook(b: Bytes, at: nat)
    requires at <= |b| && ReadBool(b, at).Some?
    ensures var p := ReadBool(b, at).value; Took(b, at, p, AddBool(b[..at], p.0))
  {
    U8Took(b, at);
  }

  lemma StrTook(b: Bytes, at: nat)
    requires at <= |b| && ReadStr(b, at).Some?
    ensures var p := ReadStr(b, at).value;
      Took(b, at, p, AddStr(b[..at], p.0)) && |p.0| < 0x1_0000_0000 && Utf8(p.0)
  {
    U32Took(b, at);
    var n := ReadU32(b, at).value;
    BytesTook(b, n.1, n.0);
  }

  lemma BytesTook(b: Bytes, at: nat, n: nat)
    requires at <= |b| && ReadBytes(b, at, n).Some?
    ensures var p := ReadBytes(b, at, n).value; Took(b, at, p, b[..at] + p.0) && |p.0| == n
  {
    assert b[..at] + b[at..at + n] == b[..at + n];
  }

  lemma OptStrTook(b: Bytes, at: nat)
    requires at <= |b| && ReadOptStr(b, at).Some?
    ensures var p := ReadOptStr(b, at).value;
      Took(b, at, p, AddOptStr(b[..at], p.0)) && (p.0.Some? ==> |p.0.value| < 0x1_0000_0000 && Utf8(p.0.value))
  {
    U8Took(b, at);
    var flag := ReadU8(b, at).value;
    if flag.0 == 1 {
      StrTook(b, flag.1);
    }
  }

  /** One element was taken, and is one a writer could have written. */
  ghost predicate Takes<T>(read: (Bytes, nat) -> Read<T>, add: (Bytes, T) -> Bytes, fits: T -> bool, b: Bytes, q: nat)
    requires q <= |b|
  {
    match read(b, q)
    case None => true
    case Some(p) => Took(b, q, p, add(b[..q], p.0)) && fits(p.0)
  }

  lemma {:induction false} ManyTook<T>(read: (Bytes, nat) -> Read<T>, add: (Bytes, T) -> Bytes, fits: T -> bool,
                                       b: Bytes, at: nat, n: nat)
    requires at <= |b| && ReadMany(read, b, at, n).Some?
    requires forall q: nat :: q <= |b| ==> Takes(read, add, fits, b, q)
    ensures var p := ReadMany(read, b, at, n).value;
      Took(b, at, p, AddMany(add, b[..at], p.0)) && forall x :: x in p.0 ==> fits(x)
  {
    if n > 0 {
      ManyTook(read, add, fits, b, at, n - 1);
      var less := ReadMany(read, b, at, n - 1).value;
      assert Takes(read, add, fits, b, less.1);
      var last := read(b, less.1).value;
      assert (less.0 + [last.0])[..n - 1] == less.0;
    }
  }
}
