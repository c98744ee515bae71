/** Logical immediates: the search for `N:immr:imms`, against the architecture's
    decoder (crates/e5r-asm/src/aarch64.rs; Arm ARM DDI 0487, `DecodeBitMasks`). */
module BitMask {
  import opened Ordered
  import opened Bits
  import opened Arith

  // ------------------------------------------------ the architecture's decoder

  datatype Fields = Fields(n: nat, immr: nat, imms: nat)

  /** The index of the highest set bit, or -1 when there is none. */
  function HighestSetBit(x: nat): (h: int)
    ensures h >= -1
  {
    if x == 0 then -1 else 1 + HighestSetBit(x / 2)
  }

  /** `HighestSetBit(immN:NOT(imms))`. */
  function Len(f: Fields): int
    requires f.n <= 1 && f.imms < 64
  {
    HighestSetBit(f.n * 64 + (63 - f.imms))
  }

  predicate InRange(f: Fields) {
    f.n <= 1 && f.immr < 64 && f.imms < 64
  }

  /** The field values the architecture allocates for a logical immediate at
      this register width. */
  predicate Allocated(f: Fields, sf: bool) {
    InRange(f) && Len(f) >= 1 && (sf || f.n == 0) &&
    f.imms % Pow2(Len(f)) != Pow2(Len(f)) - 1
  }

  /** Where bit `k` of an element comes from once it is rotated right by `r`. */
  function Wrap(a: nat, size: nat): nat
    requires size > 0
  {
    if a < size then a else a - size
  }

  /** Bit `i` of the immediate: a run of `S + 1` ones in an element, rotated
      right by `R` and repeated. */
  predicate MaskBit(f: Fields, i: nat)
    requires InRange(f) && Len(f) >= 1
  {
    var size := Pow2(Len(f));
    Wrap(i % size + f.immr % size, size) <= f.imms % size
  }

  function Decode(f: Fields, sf: bool): (w: Word)
    requires InRange(f) && Len(f) >= 1
  {
    seq(64, i requires 0 <= i < 64 => (sf || i < 32) && MaskBit(f, i))
  }

  // -------------------------------------------------------------- the encoder

  /** The word repeats every `p` bits. */
  ghost predicate Repeats(w: Word, p: nat) {
    forall i :: p <= i < 64 ==> w[i] == w[i - p]
  }

  predicate IsSize(p: nat) {
    p == 2 || p == 4 || p == 8 || p == 16 || p == 32 || p == 64
  }

  /** The smallest power of two, no less than 2, the word repeats at. */
  ghost predicate Period(w: Word, p: nat) {
    IsSize(p) && Repeats(w, p) && forall q: nat :: IsSize(q) && q < p ==> !Repeats(w, q)
  }

  lemma RepeatsDouble(w: Word, p: nat)
    requires Repeats(w, p)
    ensures Repeats(w, 2 * p)
  {
    forall i | 2 * p <= i < 64 ensures w[i] == w[i - 2 * p] {
      assert w[i] == w[i - p] && w[i - p] == w[i - p - p];
    }
  }

  /** Repeating at a size is repeating at every larger size. */
  lemma {:induction false} RepeatsLarger(w: Word, p: nat, q: nat)
    requires IsSize(p) && IsSize(q) && p <= q && Repeats(w, p)
    ensures Repeats(w, q)
    decreases q - p
  {
    if p < q {
      RepeatsDouble(w, p);
      RepeatsLarger(w, 2 * p, q);
    }
  }

  /** Compare each stretch of `half` bits with the lowest one. */
  method RepeatsAt(val: Word, half: nat) returns (repeats: bool)
    requires IsSize(half) && half < 64
    ensures repeats == Repeats(val, half)
  {
    var m := MaskBits(half);
    var pos := 0;
    while pos < 64
      invariant pos % half == 0 && pos <= 64
      invariant forall i :: half <= i < pos ==> val[i] == val[i - half]
      invariant pos > 0 ==> pos >= half && forall j :: 0 <= j < half ==> val[pos - half + j] == val[j]
    {
      StretchFits(half, pos);
      if And(Shr(val, pos), m) != And(val, m) {
        StretchDiffers(val, half, pos);
        return false;
      }
      StretchAgrees(val, half, pos);
      StretchExtends(val, half, pos);
      pos := pos + half;
    }
    return true;
  }

  lemma StretchFits(half: nat, pos: nat)
    requires IsSize(half) && half < 64 && pos % half == 0 && pos < 64
    ensures pos + half <= 64 && (pos + half) % half == 0
  {
  }

  lemma StretchAgrees(val: Word, half: nat, pos: nat)
    requires pos + half <= 64 && And(Shr(val, pos), MaskBits(half)) == And(val, MaskBits(half))
    ensures forall j :: 0 <= j < half ==> val[pos + j] == val[j]
  {
    forall j | 0 <= j < half ensures val[pos + j] == val[j] {
      assert And(Shr(val, pos), MaskBits(half))[j] == And(val, MaskBits(half))[j];
    }
  }

  lemma StretchExtends(val: Word, half: nat, pos: nat)
    requires 0 < half && pos + half <= 64
    requires forall i :: half <= i < pos ==> val[i] == val[i - half]
    requires pos > 0 ==> pos >= half && forall j :: 0 <= j < half ==> val[pos - half + j] == val[j]
    requires forall j :: 0 <= j < half ==> val[pos + j] == val[j]
    ensures forall i :: half <= i < pos + half ==> val[i] == val[i - half]
  {
    forall i | half <= i < pos + half ensures val[i] == val[i - half] {
      if i >= pos {
        var j := i - pos;
        assert val[pos + j] == val[j] && val[pos - half + j] == val[j];
      }
    }
  }

  lemma DivExact(pos: nat, half: nat)
    requires half > 0 && pos % half == 0
    ensures (pos / half) * half == pos
  {
  }

  /** A whole number of periods ahead the word is the same. */
  lemma RepeatsAhead(w: Word, p: nat, ahead: nat, j: nat)
    requires p > 0 && ahead % p == 0 && Repeats(w, p) && ahead + j < 64
    ensures w[j + ahead] == w[j]
  {
    DivExact(ahead, p);
    RepeatsBack(w, p, ahead / p, j);
  }

  lemma StretchDiffers(val: Word, half: nat, pos: nat)
    requires half > 0 && pos % half == 0 && pos + half <= 64
    requires And(Shr(val, pos), MaskBits(half)) != And(val, MaskBits(half))
    ensures !Repeats(val, half)
  {
    var moved, low := And(Shr(val, pos), MaskBits(half)), And(val, MaskBits(half));
    var j :| 0 <= j < 64 && moved[j] != low[j];
    assert j < half && moved[j] == val[j + pos] && low[j] == val[j];
    if Repeats(val, half) {
      RepeatsAhead(val, half, pos, j);
    }
  }

  /** Stepping back whole periods changes nothing. */
  lemma {:induction false} RepeatsBack(w: Word, p: nat, k: nat, j: nat)
    requires Repeats(w, p) && k * p + j < 64
    ensures w[k * p + j] == w[j]
    decreases k
  {
    if k > 0 {
      assert k * p == (k - 1) * p + p;
      RepeatsBack(w, p, k - 1, j);
    }
  }

  /** Halve the element size while the word still repeats. */
  method ElementSize(val: Word) returns (size: nat)
    ensures Period(val, size)
  {
    size := 64;
    while size > 2
      invariant IsSize(size) && Repeats(val, size)
    {
      var half := size / 2;
      var repeats := RepeatsAt(val, half);
      if !repeats {
        forall q: nat | IsSize(q) && q < size ensures !Repeats(val, q) {
          if Repeats(val, q) {
            RepeatsLarger(val, q, half);
          }
        }
        return;
      }
      size := half;
    }
  }

  // -------------------------------------------------------------- the rotation

  /** The low element, rotated left by `r` inside its size: the two shifts the
      encoder joins, with nothing shifted when `r` is zero. */
  function Rotated(elem: Word, size: nat, r: nat): (w: Word)
    requires r < size <= 64
  {
    if r == 0 then elem else
    And(Or(Shl(elem, r), Shr(elem, if size - r < 63 then size - r else 63)), MaskBits(size))
  }

  /** Bit `j` of the rotated element is the element's bit `r` places below,
      around the end. */
  lemma RotatedBit(elem: Word, size: nat, r: nat)
    requires r < size <= 64 && forall i :: size <= i < 64 ==> !elem[i]
    ensures forall j :: 0 <= j < size ==> Rotated(elem, size, r)[j] == elem[if j >= r then j - r else j + size - r]
    ensures forall j :: size <= j < 64 ==> !Rotated(elem, size, r)[j]
  {
  }

  // ------------------------------------------------------ fields and their runs

  /** The word the encoder works on: the value, or its low half twice. */
  function Spread(value: Word, sf: bool): Word {
    if sf then value else Or(And(value, MaskBits(32)), Shl(value, 32))
  }

  /** The fields for a run of `ones` in elements of this size. The size is the
      complement of 2 * size - 1 in six bits, and the run length goes below it. */
  function Encoded(size: nat, ones: nat, r: nat): Fields
    requires IsSize(size) && 0 < ones
  {
    Fields(if size == 64 then 1 else 0, r, (63 - (2 * size - 1) % 64) + (ones - 1))
  }

  /** The same fields with the rotation bits above the element size cleared. */
  function Canonical(f: Fields): Fields
    requires InRange(f) && Len(f) >= 1
  {
    Fields(f.n, f.immr % Pow2(Len(f)), f.imms)
  }

  lemma {:induction false} HighestBetween(x: nat, k: nat)
    requires Pow2(k) <= x < 2 * Pow2(k)
    ensures HighestSetBit(x) == k
  {
    if k == 0 {
      assert HighestSetBit(1 / 2) == -1;
    } else {
      HighestBetween(x / 2, k - 1);
    }
  }

  lemma SmallPowers()
    ensures Pow2(1) == 2 && Pow2(2) == 4 && Pow2(3) == 8 && Pow2(4) == 16 && Pow2(5) == 32 && Pow2(6) == 64
  {
  }

  lemma LenOfSize(f: Fields, size: nat)
    requires InRange(f) && IsSize(size) && size <= f.n * 64 + (63 - f.imms) < 2 * size
    ensures Len(f) >= 1 && Pow2(Len(f)) == size
  {
    SmallPowers();
    HighestBetween(f.n * 64 + (63 - f.imms), SizeLog(size));
  }

  lemma EncodedImms(size: nat, ones: nat, r: nat)
    requires IsSize(size) && 0 < ones < size && r < size
    ensures var f := Encoded(size, ones, r);
      InRange(f) && f.imms % size == ones - 1 && size <= f.n * 64 + (63 - f.imms) < 2 * size
  {
    SizeField();
    var f := Encoded(size, ones, r);
    var above := if size == 2 then 30 else if size == 4 then 14 else if size == 8 then 6 else if size == 16 then 2 else 0;
    assert f.imms == above * size + (ones - 1);
    Arith.ModUnique(f.imms, above, ones - 1, size);
  }

  /** The element size and run length are read back from the fields. */
  lemma EncodedReads(size: nat, ones: nat, r: nat)
    requires IsSize(size) && 0 < ones < size && r < size
    ensures var f := Encoded(size, ones, r);
      InRange(f) && Len(f) >= 1 && Pow2(Len(f)) == size && f.imms % size == ones - 1 && f.immr % size == r
  {
    var f := Encoded(size, ones, r);
    EncodedImms(size, ones, r);
    LenOfSize(f, size);
    Arith.ModSmall(r, size);
  }

  /** The part of `imms` above the run length, for each element size. */
  lemma SizeField()
    ensures 63 - (2 * 64 - 1) % 64 == 0 && 63 - (2 * 32 - 1) % 64 == 0 && 63 - (2 * 16 - 1) % 64 == 32
    ensures 63 - (2 * 8 - 1) % 64 == 48 && 63 - (2 * 4 - 1) % 64 == 56 && 63 - (2 * 2 - 1) % 64 == 60
    ensures forall ones, r :: ones > 0 ==>
      Encoded(64, ones, r) == Fields(1, r, ones - 1) && Encoded(32, ones, r) == Fields(0, r, ones - 1) &&
      Encoded(16, ones, r) == Fields(0, r, 32 + ones - 1) && Encoded(8, ones, r) == Fields(0, r, 48 + ones - 1) &&
      Encoded(4, ones, r) == Fields(0, r, 56 + ones - 1) && Encoded(2, ones, r) == Fields(0, r, 60 + ones - 1)
  {
  }

  function SizeLog(size: nat): nat
    requires IsSize(size)
  {
    if size == 2 then 1 else if size == 4 then 2 else if size == 8 then 3
    else if size == 16 then 4 else if size == 32 then 5 else 6
  }

  /** The part of `imms` above the run length. */
  function Top(size: nat): nat
    requires IsSize(size)
  {
    if size == 2 then 60 else if size == 4 then 56 else if size == 8 then 48 else if size == 16 then 32 else 0
  }

  lemma ReadsAt(f: Fields, size: nat)
    requires InRange(f) && IsSize(size) && f.n == (if size == 64 then 1 else 0)
    requires Top(size) <= f.imms < Top(size) + size
    ensures Len(f) >= 1 && Pow2(Len(f)) == size && f.imms % size == f.imms - Top(size)
    ensures Canonical(f) == Encoded(size, f.imms % size + 1, f.immr % size)
  {
    LenOfSize(f, size);
    if size == 2 { assert f.imms % 2 == f.imms - 60; }
    else if size == 4 { assert f.imms % 4 == f.imms - 56; }
    else if size == 8 { assert f.imms % 8 == f.imms - 48; }
    else if size == 16 { assert f.imms % 16 == f.imms - 32; }
    else { Arith.ModSmall(f.imms, size); }
    SizeField();
  }

  /** Every allocated combination is one the encoder can write. */
  lemma AllocatedReads(f: Fields, sf: bool)
    requires Allocated(f, sf)
    ensures var size := Pow2(Len(f));
      IsSize(size) && f.imms % size + 1 < size && (sf || size < 64) &&
      Canonical(f) == Encoded(size, f.imms % size + 1, f.immr % size)
  {
    SmallPowers();
    var x := f.n * 64 + (63 - f.imms);
    if x >= 2 {
      ReadsAt(f, if x >= 64 then 64 else if x >= 32 then 32 else if x >= 16 then 16 else if x >= 8 then 8 else if x >= 4 then 4 else 2);
    } else if x == 1 {
      HighestBetween(x, 0);
    }
  }

  /** Bit `j` of an element holding a run of `ones`, rotated right by `r`. */
  predicate RunBit(size: nat, ones: nat, r: nat, j: nat)
    requires j < size && r < size
  {
    Wrap(j + r, size) < ones
  }

  /** A word made of such elements. */
  ghost predicate IsRun(w: Word, size: nat, ones: nat, r: nat) {
    IsSize(size) && 0 < ones < size && r < size && Repeats(w, size) &&
    forall j :: 0 <= j < size ==> w[j] == RunBit(size, ones, r, j)
  }

  lemma RepeatsMod(w: Word, size: nat, i: nat)
    requires size > 0 && Repeats(w, size) && i < 64
    ensures i % size < size && w[i] == w[i % size]
  {
    Arith.DivMod(i, size);
    RepeatsBack(w, size, i / size, i % size);
  }

  /** The decoder's word is a rotated run repeated, and the other way round. */
  lemma DecodeIsRun(f: Fields, w: Word)
    requires InRange(f) && Len(f) >= 1 && IsSize(Pow2(Len(f))) && f.imms % Pow2(Len(f)) + 1 < Pow2(Len(f))
    requires IsRun(w, Pow2(Len(f)), f.imms % Pow2(Len(f)) + 1, f.immr % Pow2(Len(f)))
    ensures Decode(f, true) == w
    ensures forall i :: 0 <= i < 32 ==> Decode(f, false)[i] == w[i]
    ensures forall i :: 32 <= i < 64 ==> !Decode(f, false)[i]
  {
    var size := Pow2(Len(f));
    forall i | 0 <= i < 64 ensures MaskBit(f, i) == w[i] {
      RepeatsMod(w, size, i);
      assert w[i % size] == RunBit(size, f.imms % size + 1, f.immr % size, i % size);
    }
  }

  lemma RunOfDecode(f: Fields)
    requires InRange(f) && Len(f) >= 1 && IsSize(Pow2(Len(f))) && f.imms % Pow2(Len(f)) + 1 < Pow2(Len(f))
    ensures IsRun(Decode(f, true), Pow2(Len(f)), f.imms % Pow2(Len(f)) + 1, f.immr % Pow2(Len(f)))
  {
    var size := Pow2(Len(f));
    var w := Decode(f, true);
    forall i | size <= i < 64 ensures w[i] == w[i - size] {
      BackOne(i, size);
    }
    forall j | 0 <= j < size ensures w[j] == RunBit(size, f.imms % size + 1, f.immr % size, j) {
      Arith.ModSmall(j, size);
    }
  }

  lemma BackOne(i: nat, size: nat)
    requires 0 < size <= i
    ensures i % size == (i - size) % size
  {
    Arith.DivMod(i - size, size);
    Arith.ModUnique(i, (i - size) / size + 1, (i - size) % size, size);
  }

  // ------------------------------------------------------- what is special about runs

  /** Index of the element bit that lands on bit `k` of the unrotated run. */
  function Landing(size: nat, r: nat, k: nat): (j: nat)
    requires r < size && k < size
    ensures j < size && Wrap(j + r, size) == k
  {
    if k >= r then k - r else k + size - r
  }

  /** A run is neither all zeros nor all ones, and no shorter element repeats. */
  lemma RunPeriod(w: Word, size: nat, ones: nat, r: nat)
    requires IsRun(w, size, ones, r)
    ensures Period(w, size) && w != Zero() && w != Full()
  {
    var first, last := Landing(size, r, 0), Landing(size, r, size - 1);
    assert w[first] && !w[last];
    forall q: nat | IsSize(q) && q < size ensures !Repeats(w, q) {
      if Repeats(w, q) {
        RepeatsLarger(w, q, size / 2);
        HalfDiffers(w, size, ones, r);
      }
    }
  }

  lemma HalfDiffers(w: Word, size: nat, ones: nat, r: nat)
    requires IsRun(w, size, ones, r) && size > 2
    ensures !Repeats(w, size / 2)
  {
    var h := size / 2;
    var a, b, c, d := Landing(size, r, 0), Landing(size, r, h), Landing(size, r, size - 1), Landing(size, r, h - 1);
    assert w[a] && !w[c];
    assert w[b] == (h < ones) && w[d] == (h - 1 < ones);
    assert b == a + h || a == b + h;
    assert d == c + h || c == d + h;
  }

  /** Only one rotation puts the run at the bottom. */
  lemma RotationUnique(w: Word, elem: Word, size: nat, ones: nat, r: nat, k: nat)
    requires IsRun(w, size, ones, r) && elem == And(w, MaskBits(size)) && k < size
    ensures Rotated(elem, size, k) == MaskBits(ones) <==> k == r
  {
    RotatedBit(elem, size, k);
    var rot := Rotated(elem, size, k);
    if k == r {
      forall j | 0 <= j < 64 ensures rot[j] == MaskBits(ones)[j] {
      }
    } else {
      RotationMoves(elem, size, ones, r, k);
    }
  }

  lemma RotationMoves(elem: Word, size: nat, ones: nat, r: nat, k: nat)
    requires r < size <= 64 && k < size && k != r && 0 < ones < size
    requires forall j :: 0 <= j < size ==> elem[j] == RunBit(size, ones, r, j)
    requires forall i :: size <= i < 64 ==> !elem[i]
    ensures Rotated(elem, size, k) != MaskBits(ones)
  {
    RotatedBit(elem, size, k);
    var rot := Rotated(elem, size, k);
    var d := if k > r then k - r else k + size - r;
    var target := MaskBits(ones);
    // Bit j of the rotated element is bit j - d of the run, around the end.
    assert forall j :: 0 <= j < size ==> rot[j] == (if j >= d then j - d < ones else j + size - d < ones);
    assert rot[0] == (size - d < ones) && rot[d] == true && target[0] && !target[size - 1];
    assert rot[d - 1] == (size - 1 < ones);
    assert target[d] == (d < ones) && target[d - 1] == (d - 1 < ones);
  }

  function RunSeq(size: nat, ones: nat): (s: seq<bool>)
    ensures |s| == size && forall k :: 0 <= k < size ==> s[k] == (k < ones)
  {
    seq(size, k requires 0 <= k < size => k < ones)
  }

  /** A rotated run has as many ones as the run. */
  lemma RunCount(w: Word, elem: Word, size: nat, ones: nat, r: nat)
    requires IsRun(w, size, ones, r) && elem == And(w, MaskBits(size))
    ensures CountOnes(elem) == ones
  {
    var run := RunSeq(size, ones);
    CountRun(run, ones);
    LowIsRotatedRun(w, elem, size, ones, r);
    CountJoin(elem[..size], elem[size..]);
    assert elem == elem[..size] + elem[size..];
    CountNone(elem[size..]);
    CountJoin(run[r..], run[..r]);
    CountJoin(run[..r], run[r..]);
    assert run == run[..r] + run[r..];
  }

  lemma LowIsRotatedRun(w: Word, elem: Word, size: nat, ones: nat, r: nat)
    requires IsRun(w, size, ones, r) && elem == And(w, MaskBits(size))
    ensures elem[..size] == RunSeq(size, ones)[r..] + RunSeq(size, ones)[..r]
  {
    var run := RunSeq(size, ones);
    forall j | 0 <= j < size ensures elem[j] == (run[r..] + run[..r])[j] {
      assert elem[j] == w[j] == RunBit(size, ones, r, j);
      assert (run[r..] + run[..r])[j] == run[Wrap(j + r, size)];
    }
  }

  /** A word some fields decode to is what the encoder needs it to be. */
  lemma Expected(f: Fields, value: Word, sf: bool)
    requires Allocated(f, sf) && Decode(f, sf) == value
    ensures sf || Shr(value, 32) == Zero()
    ensures IsSize(Pow2(Len(f))) && 0 < f.imms % Pow2(Len(f)) + 1 < Pow2(Len(f))
    ensures IsRun(Spread(value, sf), Pow2(Len(f)), f.imms % Pow2(Len(f)) + 1, f.immr % Pow2(Len(f)))
    ensures Canonical(f) == Encoded(Pow2(Len(f)), f.imms % Pow2(Len(f)) + 1, f.immr % Pow2(Len(f)))
  {
    AllocatedReads(f, sf);
    RunOfDecode(f);
    var w := Decode(f, true);
    if !sf {
      RepeatsLarger(w, Pow2(Len(f)), 32);
      SpreadHalf(w, value);
    }
  }

  /** Spreading the low half of a word that repeats at 32 bits gives it back. */
  lemma SpreadHalf(w: Word, value: Word)
    requires Repeats(w, 32) && forall i :: 0 <= i < 64 ==> value[i] == (i < 32 && w[i])
    ensures Shr(value, 32) == Zero() && Spread(value, false) == w
  {
    forall i | 0 <= i < 64 ensures Spread(value, false)[i] == w[i] {
      assert i >= 32 ==> w[i] == w[i - 32];
    }
  }

  /** When a rotation puts the ones at the bottom, the fields decode to the value. */
  lemma FoundDecodes(value: Word, sf: bool, size: nat, ones: nat, r: nat)
    requires sf || Shr(value, 32) == Zero()
    requires Repeats(Spread(value, sf), size) && IsSize(size) && 0 < ones < size && r < size && (sf || size < 64)
    requires Rotated(And(Spread(value, sf), MaskBits(size)), size, r) == MaskBits(ones)
    ensures Allocated(Encoded(size, ones, r), sf) && Decode(Encoded(size, ones, r), sf) == value
  {
    var w := Spread(value, sf);
    RotationGivesRun(w, size, ones, r);
    EncodedReads(size, ones, r);
    DecodeIsRun(Encoded(size, ones, r), w);
    if !sf {
      HalfOfSpread(value, Decode(Encoded(size, ones, r), false));
    }
  }

  lemma RotationGivesRun(w: Word, size: nat, ones: nat, r: nat)
    requires Repeats(w, size) && IsSize(size) && 0 < ones < size && r < size
    requires Rotated(And(w, MaskBits(size)), size, r) == MaskBits(ones)
    ensures IsRun(w, size, ones, r)
  {
    var elem := And(w, MaskBits(size));
    forall j | 0 <= j < size ensures w[j] == RunBit(size, ones, r, j) {
      RotatedAt(elem, size, r, j);
      assert elem[j] == w[j];
      assert MaskBits(ones)[Wrap(j + r, size)] == (Wrap(j + r, size) < ones);
    }
  }

  /** Bit `j` of the element lands `r` places up, around the end. */
  lemma RotatedAt(elem: Word, size: nat, r: nat, j: nat)
    requires j < size && r < size <= 64 && forall i :: size <= i < 64 ==> !elem[i]
    ensures Rotated(elem, size, r)[Wrap(j + r, size)] == elem[j]
  {
    RotatedBit(elem, size, r);
  }

  lemma HalfOfSpread(value: Word, d: Word)
    requires Shr(value, 32) == Zero()
    requires forall i :: 0 <= i < 32 ==> d[i] == Spread(value, false)[i]
    requires forall i :: 32 <= i < 64 ==> !d[i]
    ensures d == value
  {
    forall i | 0 <= i < 64 ensures d[i] == value[i] {
      if i >= 32 {
        assert !Shr(value, 32)[i - 32];
      }
    }
  }

  /** A replicated half repeats at 32 bits, so its element is never 64 wide. */
  lemma SpreadRepeats(value: Word)
    requires Shr(value, 32) == Zero()
    ensures Repeats(Spread(value, false), 32)
  {
    forall i | 32 <= i < 64 ensures Spread(value, false)[i] == Spread(value, false)[i - 32] {
      assert !Shr(value, 32)[i - 32];
    }
  }

  /** An element that is all zeros or all ones is a uniform word. */
  lemma NotUniform(val: Word, size: nat)
    requires IsSize(size) && Repeats(val, size)
    ensures CountOnes(And(val, MaskBits(size))) == 0 ==> val == Zero()
    ensures CountOnes(And(val, MaskBits(size))) == size ==> val == Full()
    ensures CountOnes(And(val, MaskBits(size))) <= size
  {
    var elem := And(val, MaskBits(size));
    var low, high := elem[..size], elem[size..];
    assert elem == low + high;
    CountJoin(low, high);
    CountNone(high);
    if CountOnes(low) == 0 {
      CountZero(low);
      forall i | 0 <= i < 64 ensures !val[i] {
        RepeatsMod(val, size, i);
        assert low[i % size] == val[i % size];
      }
    }
    if CountOnes(low) == size {
      CountFull(low);
      forall i | 0 <= i < 64 ensures val[i] {
        RepeatsMod(val, size, i);
        assert low[i % size] == val[i % size];
      }
    }
  }

  // ------------------------------------------------------------------- the search

  /** No fields decode to this value. */
  ghost predicate NoFields(value: Word, sf: bool) {
    forall f: Fields :: !(Allocated(f, sf) && Decode(f, sf) == value)
  }

  /** The first rotation at or after `r` that gives the target. */
  method FindRotation(elem: Word, size: nat, target: Word) returns (immr: Option<nat>)
    requires size <= 64
    ensures immr.Some? ==> RotatesTo(elem, size, immr.value, target)
    ensures immr.None? ==> forall k: nat :: !RotatesTo(elem, size, k, target)
  {
    immr := None;
    var r: nat := 0;
    while r < size && immr == None
      invariant immr.Some? ==> RotatesTo(elem, size, immr.value, target)
      invariant immr.None? ==> NoneBelow(elem, size, r, target)
    {
      if Rotated(elem, size, r) == target {
        immr := Some(r);
      } else {
        NoneBelowStep(elem, size, r, target);
      }
      r := r + 1;
    }
  }

  ghost predicate NoneBelow(elem: Word, size: nat, r: nat, target: Word) {
    forall k: nat :: k < r ==> !RotatesTo(elem, size, k, target)
  }

  lemma NoneBelowStep(elem: Word, size: nat, r: nat, target: Word)
    requires NoneBelow(elem, size, r, target) && !RotatesTo(elem, size, r, target)
    ensures NoneBelow(elem, size, r + 1, target)
  {
    forall k: nat | k < r + 1 ensures !RotatesTo(elem, size, k, target) {
      if k < r {
      } else {
        assert k == r;
      }
    }
  }

  predicate RotatesTo(elem: Word, size: nat, r: nat, target: Word) {
    r < size <= 64 && Rotated(elem, size, r) == target
  }

  /** Find a value's fields, or nothing when no rotated run of ones gives it:
      what is found decodes to the value, and whatever decodes to it is found. */
  method EncodeBitmask(value: Word, sf: bool) returns (out: Option<Fields>)
    ensures out.Some? ==> Allocated(out.value, sf) && Decode(out.value, sf) == value
    ensures out.Some? ==> Period(Spread(value, sf), Pow2(Len(out.value)))
    ensures forall f: Fields :: Allocated(f, sf) && Decode(f, sf) == value ==> out == Some(Canonical(f))
  {
    if !sf && Shr(value, 32) != Zero() {
      forall f: Fields | Allocated(f, sf) && Decode(f, sf) == value ensures false { Expected(f, value, sf); }
      return None;
    }
    var val := Spread(value, sf);
    if val == Zero() || val == Full() {
      forall f: Fields | Allocated(f, sf) && Decode(f, sf) == value ensures false { UniformHasNone(f, value, sf); }
      return None;
    }
    var size := ElementSize(val);
    var elem := And(val, MaskBits(size));
    var ones := CountOnes(elem);
    NotUniform(val, size);
    if ones == 0 || ones == size {
      return None;
    }
    var immr := FindRotation(elem, size, MaskBits(ones));
    forall f: Fields | Allocated(f, sf) && Decode(f, sf) == value
      ensures immr.Some? && Encoded(size, ones, immr.value) == Canonical(f)
    {
      SearchFinds(f, value, sf, size, immr);
    }
    if immr.None? {
      return None;
    }
    assert sf || size < 64 by {
      if !sf { SpreadRepeats(value); assert IsSize(32); }
    }
    FoundDecodes(value, sf, size, ones, immr.value);
    EncodedReads(size, ones, immr.value);
    out := Some(Fields(if size == 64 then 1 else 0, immr.value, (63 - (2 * size - 1) % 64) + (ones - 1)));
  }

  lemma UniformHasNone(f: Fields, value: Word, sf: bool)
    requires Allocated(f, sf) && Decode(f, sf) == value
    ensures Spread(value, sf) != Zero() && Spread(value, sf) != Full()
  {
    Expected(f, value, sf);
    RunPeriod(Spread(value, sf), Pow2(Len(f)), f.imms % Pow2(Len(f)) + 1, f.immr % Pow2(Len(f)));
  }

  /** The search comes out at the element size, count and rotation of any fields
      that decode to the value. */
  lemma SearchFinds(f: Fields, value: Word, sf: bool, size: nat, immr: Option<nat>)
    requires Allocated(f, sf) && Decode(f, sf) == value && Period(Spread(value, sf), size)
    requires var elem := And(Spread(value, sf), MaskBits(size));
      var target := MaskBits(CountOnes(elem));
      (immr.Some? ==> RotatesTo(elem, size, immr.value, target)) &&
      (immr.None? ==> forall k: nat :: !RotatesTo(elem, size, k, target))
    ensures CountOnes(And(Spread(value, sf), MaskBits(size))) > 0
    ensures immr.Some? && Encoded(size, CountOnes(And(Spread(value, sf), MaskBits(size))), immr.value) == Canonical(f)
  {
    Expected(f, value, sf);
    var elem, ones, r := And(Spread(value, sf), MaskBits(size)), f.imms % Pow2(Len(f)) + 1, f.immr % Pow2(Len(f));
    SearchRun(Spread(value, sf), elem, Pow2(Len(f)), ones, r, size, immr);
  }

  lemma SearchRun(w: Word, elem: Word, p: nat, ones: nat, r: nat, size: nat, immr: Option<nat>)
    requires IsRun(w, p, ones, r) && Period(w, size) && elem == And(w, MaskBits(size))
    requires immr.Some? ==> RotatesTo(elem, size, immr.value, MaskBits(CountOnes(elem)))
    requires immr.None? ==> forall k: nat :: !RotatesTo(elem, size, k, MaskBits(CountOnes(elem)))
    ensures size == p && CountOnes(elem) == ones && immr == Some(r)
  {
    RunPeriod(w, p, ones, r);
    PeriodUnique(w, p, size);
    RunCount(w, elem, size, ones, r);
    RunFound(w, elem, size, ones, r, immr);
  }

  lemma PeriodUnique(w: Word, p: nat, q: nat)
    requires Period(w, p) && Period(w, q)
    ensures p == q
  {
  }

  /** A search for the rotation of a run finds that rotation and no other. */
  lemma RunFound(w: Word, elem: Word, size: nat, ones: nat, r: nat, immr: Option<nat>)
    requires IsRun(w, size, ones, r) && elem == And(w, MaskBits(size))
    requires immr.Some? ==> RotatesTo(elem, size, immr.value, MaskBits(ones))
    requires immr.None? ==> forall k: nat :: !RotatesTo(elem, size, k, MaskBits(ones))
    ensures immr == Some(r)
  {
    RotationUnique(w, elem, size, ones, r, r);
    assert RotatesTo(elem, size, r, MaskBits(ones));
    if immr.Some? {
      RotationUnique(w, elem, size, ones, r, immr.value);
    }
  }
}
