/** Sixty-four-bit words as bits, least significant first, with the shifts and
    masks the encoder is written in. */
module Bits {
  type Word = w: seq<bool> | |w| == 64 witness seq(64, i => false)

  function Shl(w: Word, n: nat): (r: Word)
    ensures forall i :: 0 <= i < 64 ==> r[i] == (i >= n && w[i - n])
  {
    seq(64, i requires 0 <= i < 64 => i >= n && w[i - n])
  }

  function Shr(w: Word, n: nat): (r: Word)
    ensures forall i :: 0 <= i < 64 ==> r[i] == (i + n < 64 && w[i + n])
  {
    seq(64, i requires 0 <= i < 64 => i + n < 64 && w[i + n])
  }

  function And(a: Word, b: Word): (r: Word)
    ensures forall i :: 0 <= i < 64 ==> r[i] == (a[i] && b[i])
  {
    seq(64, i requires 0 <= i < 64 => a[i] && b[i])
  }

  function Or(a: Word, b: Word): (r: Word)
    ensures forall i :: 0 <= i < 64 ==> r[i] == (a[i] || b[i])
  {
    seq(64, i requires 0 <= i < 64 => a[i] || b[i])
  }

  function Not(a: Word): (r: Word)
    ensures forall i :: 0 <= i < 64 ==> r[i] == !a[i]
  {
    seq(64, i requires 0 <= i < 64 => !a[i])
  }

  /** The low `n` bits set. */
  function MaskBits(n: nat): (r: Word)
    ensures forall i :: 0 <= i < 64 ==> r[i] == (i < n)
  {
    seq(64, i requires 0 <= i < 64 => i < n)
  }

  function Zero(): (r: Word)
    ensures forall i :: 0 <= i < 64 ==> !r[i]
  {
    MaskBits(0)
  }

  function Full(): (r: Word)
    ensures forall i :: 0 <= i < 64 ==> r[i]
  {
    MaskBits(64)
  }

  function CountOnes(w: seq<bool>): (n: nat)
    ensures n <= |w|
  {
    if w == [] then 0 else CountOnes(w[..|w| - 1]) + (if w[|w| - 1] then 1 else 0)
  }

  lemma {:induction false} CountJoin(a: seq<bool>, b: seq<bool>)
    ensures CountOnes(a + b) == CountOnes(a) + CountOnes(b)
  {
    if b == [] {
      assert a + b == a;
    } else {
      CountJoin(a, b[..|b| - 1]);
      assert (a + b)[..|a + b| - 1] == a + b[..|b| - 1];
    }
  }

  lemma {:induction false} CountNone(w: seq<bool>)
    requires forall i :: 0 <= i < |w| ==> !w[i]
    ensures CountOnes(w) == 0
  {
    if w != [] {
      CountNone(w[..|w| - 1]);
    }
  }

  /** A run of ones at the bottom counts as many as it is long. */
  lemma {:induction false} CountRun(w: seq<bool>, n: nat)
    requires n <= |w| && forall i :: 0 <= i < |w| ==> w[i] == (i < n)
    ensures CountOnes(w) == n
  {
    if |w| == n {
      if n > 0 {
        CountRun(w[..n - 1], n - 1);
      }
    } else {
      CountRun(w[..|w| - 1], n);
    }
  }

  lemma {:induction false} CountZero(w: seq<bool>)
    requires CountOnes(w) == 0
    ensures forall i :: 0 <= i < |w| ==> !w[i]
  {
    if w != [] {
      CountZero(w[..|w| - 1]);
    }
  }

  lemma {:induction false} CountFull(w: seq<bool>)
    requires CountOnes(w) == |w|
    ensures forall i :: 0 <= i < |w| ==> w[i]
  {
    if w != [] {
      CountFull(w[..|w| - 1]);
    }
  }
}
