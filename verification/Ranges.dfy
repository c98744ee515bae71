/** Address ranges merged into runs, and the gaps between them
    (crates/e5r-analysis/src/program.rs). */
module Ranges {
  import opened Ordered
  import opened Image

  predicate Holds(r: Range, a: Addr) {
    r.start <= a < r.end
  }

  function Lower(a: Addr, b: Addr): Addr {
    if a < b then a else b
  }

  function Higher(a: Addr, b: Addr): Addr {
    if a > b then a else b
  }

  predicate Empty(r: Range) {
    r.start >= r.end
  }

  /** Some range of the list holds the address. */
  ghost predicate Covers(rs: seq<Range>, a: Addr) {
    exists i :: 0 <= i < |rs| && Holds(rs[i], a)
  }

  /** Non-empty ranges in address order with a gap between each and the next. */
  ghost predicate Runs(rs: seq<Range>) {
    (forall i :: 0 <= i < |rs| ==> !Empty(rs[i])) &&
    forall i, j :: 0 <= i < j < |rs| ==> rs[i].end < rs[j].start
  }

  /** By start, then by end. */
  predicate Before(a: Range, b: Range) {
    a.start < b.start || (a.start == b.start && a.end <= b.end)
  }

  ghost predicate InOrder(rs: seq<Range>) {
    forall i, j :: 0 <= i < j < |rs| ==> Before(rs[i], rs[j])
  }

  function Insert(rs: seq<Range>, r: Range): (out: seq<Range>)
    requires InOrder(rs)
    ensures InOrder(out) && forall x :: x in out <==> x == r || x in rs
  {
    if rs == [] then [r]
    else if Before(r, rs[0]) then
      assert forall x :: x in [r] + rs <==> x == r || x in rs;
      [r] + rs
    else
      var more := Insert(rs[1..], r);
      assert forall x :: x in rs <==> x == rs[0] || x in rs[1..];
      assert forall x :: x in more ==> Before(rs[0], x);
      [rs[0]] + more
  }

  function Sort(rs: seq<Range>): (out: seq<Range>)
    ensures InOrder(out) && forall x :: x in out <==> x in rs
  {
    if rs == [] then [] else
    var less := Sort(rs[1..]);
    assert forall x :: x in rs <==> x == rs[0] || x in rs[1..];
    Insert(less, rs[0])
  }

  function DropEmpty(rs: seq<Range>): (out: seq<Range>)
    ensures forall x :: x in out <==> x in rs && !Empty(x)
  {
    if rs == [] then [] else
    assert forall x :: x in rs <==> x == rs[0] || x in rs[1..];
    (if Empty(rs[0]) then [] else [rs[0]]) + DropEmpty(rs[1..])
  }

  lemma CoversIn(rs: seq<Range>, a: Addr)
    ensures Covers(rs, a) <==> exists r :: r in rs && Holds(r, a)
  {
    if Covers(rs, a) {
      var i :| 0 <= i < |rs| && Holds(rs[i], a);
      assert rs[i] in rs;
    }
    if r :| r in rs && Holds(r, a) {
      var i :| 0 <= i < |rs| && rs[i] == r;
    }
  }

  /** Add one range that starts no earlier than any before it: it extends the
      last run or begins a new one. */
  function Absorb(out: seq<Range>, r: Range): seq<Range> {
    if out != [] && r.start <= out[|out| - 1].end then
      if r.end > out[|out| - 1].end then out[|out| - 1 := Range(out[|out| - 1].start, r.end)] else out
    else out + [r]
  }

  lemma AbsorbKeeps(out: seq<Range>, r: Range)
    requires Runs(out) && !Empty(r) && (out != [] ==> out[|out| - 1].start <= r.start)
    ensures Runs(Absorb(out, r)) && Absorb(out, r)[|Absorb(out, r)| - 1].start <= r.start
    ensures forall a: Addr :: Covers(Absorb(out, r), a) <==> Covers(out, a) || Holds(r, a)
  {
    var got, last := Absorb(out, r), |out| - 1;
    forall a: Addr ensures Covers(got, a) <==> Covers(out, a) || Holds(r, a) {
      if Covers(got, a) {
        var i :| 0 <= i < |got| && Holds(got[i], a);
        if i < |out| && !Holds(out[i], a) {
          assert i == last && Holds(r, a);
        }
      }
      if Covers(out, a) {
        var i :| 0 <= i < |out| && Holds(out[i], a);
        assert Holds(got[i], a);
      }
      if Holds(r, a) {
        if out != [] && Holds(out[last], a) {
          assert Holds(got[last], a);
        } else {
          assert Holds(got[|got| - 1], a);
        }
      }
    }
  }

  /** Merge what is in order. */
  method Coalesce(v: seq<Range>) returns (out: seq<Range>)
    requires InOrder(v) && forall i :: 0 <= i < |v| ==> !Empty(v[i])
    ensures Runs(out) && forall a: Addr :: Covers(out, a) <==> Covers(v, a)
  {
    out := [];
    for k := 0 to |v|
      invariant Runs(out) && (out != [] ==> k > 0 && out[|out| - 1].start <= v[k - 1].start)
      invariant forall a: Addr :: Covers(out, a) <==> Covers(v[..k], a)
    {
      assert k > 0 ==> Before(v[k - 1], v[k]);
      AbsorbKeeps(out, v[k]);
      CoversOneMore(v, k);
      out := Absorb(out, v[k]);
    }
    assert v[..|v|] == v;
  }

  lemma CoversOneMore(v: seq<Range>, k: nat)
    requires k < |v|
    ensures forall a: Addr :: Covers(v[..k + 1], a) <==> Covers(v[..k], a) || Holds(v[k], a)
  {
    forall a: Addr ensures Covers(v[..k + 1], a) <==> Covers(v[..k], a) || Holds(v[k], a) {
      if Covers(v[..k + 1], a) {
        var i :| 0 <= i < k + 1 && Holds(v[..k + 1][i], a);
        assert i < k ==> Holds(v[..k][i], a);
      }
      if Covers(v[..k], a) {
        var i :| 0 <= i < k && Holds(v[..k][i], a);
        assert Holds(v[..k + 1][i], a);
      }
      if Holds(v[k], a) {
        assert Holds(v[..k + 1][k], a);
      }
    }
  }

  /** Sort and merge ranges: the runs cover exactly what the ranges did. */
  method MergeRanges(rs: seq<Range>) returns (out: seq<Range>)
    ensures Runs(out) && forall a: Addr :: Covers(out, a) <==> Covers(rs, a)
  {
    var v := Sort(DropEmpty(rs));
    forall i | 0 <= i < |v| ensures !Empty(v[i]) {
      assert v[i] in v;
    }
    out := Coalesce(v);
    forall a: Addr ensures Covers(v, a) <==> Covers(rs, a) {
      CoversIn(v, a);
      CoversIn(rs, a);
    }
  }

  /** Merged runs are a normal form: what they cover says what they are. */
  lemma {:induction false} RunsUnique(a: seq<Range>, b: seq<Range>)
    requires Runs(a) && Runs(b) && forall x :: Covers(a, x) <==> Covers(b, x)
    ensures a == b
  {
    if a == [] || b == [] {
      if a != [] { assert Holds(a[0], a[0].start); assert Covers(a, a[0].start); }
      if b != [] { assert Holds(b[0], b[0].start); assert Covers(b, b[0].start); }
    } else {
      FirstRun(a, b);
      FirstRun(b, a);
      assert a[0] == b[0];
      forall x ensures Covers(a[1..], x) <==> Covers(b[1..], x) {
        RestCovers(a, x);
        RestCovers(b, x);
      }
      RunsUnique(a[1..], b[1..]);
    }
  }

  /** The first run of one list reaches at least as far, both ways, as the other's. */
  lemma FirstRun(a: seq<Range>, b: seq<Range>)
    requires Runs(a) && Runs(b) && a != [] && b != [] && forall x :: Covers(a, x) <==> Covers(b, x)
    ensures a[0].start <= b[0].start && (a[0].start == b[0].start ==> b[0].end <= a[0].end)
  {
    assert Holds(b[0], b[0].start);
    assert Covers(b, b[0].start);
    var i :| 0 <= i < |a| && Holds(a[i], b[0].start);
    assert i == 0 || a[0].end < a[i].start;
    if a[0].start == b[0].start && b[0].end > a[0].end {
      assert Holds(b[0], a[0].end);
      assert Covers(b, a[0].end);
    }
  }

  lemma RestCovers(a: seq<Range>, x: Addr)
    requires Runs(a) && a != []
    ensures Covers(a[1..], x) <==> Covers(a, x) && !Holds(a[0], x)
  {
    if Covers(a[1..], x) {
      var i :| 0 <= i < |a[1..]| && Holds(a[1..][i], x);
      assert Holds(a[i + 1], x) && a[0].end < a[i + 1].start;
    }
    if Covers(a, x) && !Holds(a[0], x) {
      var i :| 0 <= i < |a| && Holds(a[i], x);
      assert Holds(a[1..][i - 1], x);
    }
  }

  // --------------------------------------------------------------------- gaps

  /** The gaps found below `at`, all of which end before it. */
  ghost predicate GapsBelow(out: seq<Range>, span: Range, covered: seq<Range>, at: Addr) {
    Runs(out) && (forall i :: 0 <= i < |out| ==> out[i].end < at) &&
    forall a: Addr :: Covers(out, a) <==> a < at && Holds(span, a) && !Covers(covered, a)
  }

  /** Every run before the `k`th is over by `at`, and `at` is in the span or past a run. */
  ghost predicate Passed(covered: seq<Range>, k: nat, at: Addr) {
    k <= |covered| && forall i :: 0 <= i < k ==> covered[i].end <= at
  }

  /** From `at` to the next run nothing is covered. */
  lemma ClearUntil(covered: seq<Range>, k: nat, at: Addr, a: Addr)
    requires Runs(covered) && Passed(covered, k, at) && at <= a && (k < |covered| ==> a < covered[k].start)
    ensures !Covers(covered, a)
  {
  }

  lemma CoversPush(out: seq<Range>, g: Range)
    ensures forall a: Addr :: Covers(out + [g], a) <==> Covers(out, a) || Holds(g, a)
  {
    forall a: Addr ensures Covers(out + [g], a) <==> Covers(out, a) || Holds(g, a) {
      CoversIn(out + [g], a);
      CoversIn(out, a);
    }
  }

  /** Recording the gap in front of a run and passing the run. */
  lemma GapStep(out: seq<Range>, span: Range, covered: seq<Range>, at: Addr, k: nat)
    requires Runs(covered) && GapsBelow(out, span, covered, at) && Passed(covered, k, at) && span.start <= at
    requires k < |covered| && covered[k].start < span.end && at < covered[k].end
    ensures var r := covered[k];
      GapsBelow(if r.start > at then out + [Range(at, r.start)] else out, span, covered, r.end) && Passed(covered, k + 1, r.end)
  {
    var r := covered[k];
    CoversPush(out, Range(at, r.start));
    var more := if r.start > at then out + [Range(at, r.start)] else out;
    forall a: Addr ensures Covers(more, a) <==> a < r.end && Holds(span, a) && !Covers(covered, a) {
      if at <= a < r.start {
        ClearUntil(covered, k, at, a);
      } else if Holds(r, a) {
        assert Covers(covered, a);
      }
    }
  }

  /** The parts of a span no run covers. */
  method GapsIn(span: Range, covered: seq<Range>) returns (out: seq<Range>)
    requires Runs(covered)
    ensures Runs(out) && forall a: Addr :: Covers(out, a) <==> Holds(span, a) && !Covers(covered, a)
  {
    out := [];
    var at: Addr := span.start;
    var k: nat := PartitionPoint(covered, (r: Range) => r.end <= span.start);
    while k < |covered| && covered[k].start < span.end
      invariant Passed(covered, k, at) && span.start <= at && (k < |covered| ==> at < covered[k].end)
      invariant GapsBelow(out, span, covered, at)
      decreases |covered| - k
    {
      var r := covered[k];
      GapStep(out, span, covered, at, k);
      if r.start > at {
        var g := Range(at, Lower(r.start, span.end));
        if !Empty(g) {
          out := out + [g];
        }
      }
      at := Higher(at, r.end);
      k := k + 1;
    }
    forall a: Addr | at <= a < span.end ensures !Covers(covered, a) {
      ClearUntil(covered, k, at, a);
    }
    CoversPush(out, Range(at, span.end));
    if at < span.end {
      out := out + [Range(at, span.end)];
    }
  }
}
