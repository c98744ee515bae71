/** Looking for function prologues in executable bytes no function covers
    (crates/e5r-analysis/src/program.rs). */
module Gaps {
  import opened Ordered
  import opened Image
  import opened Ranges
  import opened DataMap

  datatype Segment = Segment(range: Range, exec: bool)

  /** How far apart instructions can start; no sweep where they can start anywhere. */
  function Stride(arch: Arch): Option<nat> {
    match arch case AArch64 => Some(4) case Thumb => Some(2) case _ => None
  }

  /** The step, what is known to be data, and which addresses open with a
      prologue the compiler emits. */
  datatype Sweep = Sweep(step: nat, data: DataMap, prologue: Addr -> bool) {
    ghost predicate Valid() {
      (step == 4 || step == 2) && data.Valid()
    }

    ghost predicate Wanted(a: Addr) {
      !data.Marked(a) && prologue(a)
    }
  }

  function NextMultiple(x: nat, step: nat): (m: nat)
    requires step > 0
    ensures m >= x
  {
    if x % step == 0 then x else x + (step - x % step)
  }

  lemma FourLeast(x: nat, a: nat)
    ensures NextMultiple(x, 4) % 4 == 0
    ensures a % 4 == 0 && a < NextMultiple(x, 4) ==> a < x
  {
    var q, r, p := x / 4, x % 4, a / 4;
    assert x == 4 * q + r;
    assert NextMultiple(x, 4) == if r == 0 then 4 * q else 4 * (q + 1);
    assert a % 4 == 0 ==> a == 4 * p;
  }

  lemma TwoLeast(x: nat, a: nat)
    ensures NextMultiple(x, 2) % 2 == 0
    ensures a % 2 == 0 && a < NextMultiple(x, 2) ==> a < x
  {
    var q, r, p := x / 2, x % 2, a / 2;
    assert x == 2 * q + r;
    assert NextMultiple(x, 2) == if r == 0 then 2 * q else 2 * (q + 1);
    assert a % 2 == 0 ==> a == 2 * p;
  }

  /** The smallest multiple at or above a number, for the two strides. */
  lemma NextMultipleLeast(x: nat, step: nat, a: nat)
    requires step == 4 || step == 2
    ensures NextMultiple(x, step) % step == 0
    ensures a % step == 0 && a < NextMultiple(x, step) ==> a < x
  {
    if step == 4 {
      FourLeast(x, a);
    } else {
      TwoLeast(x, a);
    }
  }

  /** Nothing on the grid lies strictly between one step and the next. */
  lemma NextOnGrid(at: nat, step: nat, a: nat)
    requires (step == 4 || step == 2) && at % step == 0 && a % step == 0 && at <= a < at + step
    ensures a == at
  {
    if step == 4 {
      assert at == 4 * (at / 4) && a == 4 * (a / 4);
    } else {
      assert at == 2 * (at / 2) && a == 2 * (a / 2);
    }
  }

  lemma GridGoesOn(at: nat, step: nat)
    requires step == 4 || step == 2
    ensures (at + step) % step == at % step
  {
    if step == 4 {
      assert (at + 4) % 4 == at % 4;
    } else {
      assert (at + 2) % 2 == at % 2;
    }
  }

  // ------------------------------------------------------------------- one gap

  /** Everything pushed below `at` is wanted, and on an aligned gap everything
      wanted on the grid is pushed. */
  ghost predicate Swept(w: Sweep, was: seq<Addr>, out: seq<Addr>, gap: Range, at: Addr) {
    match w
    case Sweep(step, _, _) =>
      (was <= out && step > 0 &&
       (forall i :: |was| <= i < |out| ==> Holds(gap, out[i]) && out[i] < at && w.Wanted(out[i])) &&
       (forall i, j :: |was| <= i < j < |out| ==> out[i] < out[j]) &&
       (gap.start % step == 0 ==>
          at % step == 0 &&
          forall a: Addr :: Holds(gap, a) && a < at && a % step == 0 && w.Wanted(a) ==> a in out))
  }

  lemma SweptJump(w: Sweep, was: seq<Addr>, out: seq<Addr>, gap: Range, at: Addr, end: Addr)
    requires w.Valid() && Swept(w, was, out, gap, at) && w.data.EndOfRun(at) == Some(end)
    ensures at < NextMultiple(end, w.step) && Swept(w, was, out, gap, NextMultiple(end, w.step))
  {
    var past := NextMultiple(end, w.step);
    EndOfRunEnds(w.data, at);
    NextMultipleLeast(end, w.step, 0);
    forall a: Addr | Holds(gap, a) && a < past && a % w.step == 0 && w.Wanted(a) && gap.start % w.step == 0 ensures a in out {
      NextMultipleLeast(end, w.step, a);
    }
  }

  lemma SweptStep(w: Sweep, was: seq<Addr>, out: seq<Addr>, gap: Range, at: Addr)
    requires w.Valid() && Swept(w, was, out, gap, at) && Holds(gap, at) && w.data.EndOfRun(at) == None
    ensures Swept(w, was, if w.prologue(at) then out + [at] else out, gap, at + w.step)
  {
    EndOfRunEnds(w.data, at);
    GridGoesOn(at, w.step);
    var more := if w.prologue(at) then out + [at] else out;
    forall a: Addr | Holds(gap, a) && a < at + w.step && a % w.step == 0 && w.Wanted(a) && gap.start % w.step == 0
      ensures a in more
    {
      if a >= at {
        NextOnGrid(at, w.step, a);
      }
    }
  }

  /** Step over a run of data; by one step if that would not move on. */
  function PastRun(at: Addr, past: Addr, step: nat): Addr {
    if past > at then past else at + step
  }

  method SweepGap(w: Sweep, was: seq<Addr>, gap: Range) returns (out: seq<Addr>)
    requires w.Valid()
    ensures exists at: Addr :: gap.end <= at && Swept(w, was, out, gap, at)
  {
    out := was;
    var at: Addr := gap.start;
    while at < gap.end
      invariant gap.start <= at && Swept(w, was, out, gap, at)
      decreases gap.end - at
    {
      var end := w.data.EndOfRun(at);
      if end.Some? {
        SweptJump(w, was, out, gap, at, end.value);
        var past := NextMultiple(end.value, w.step);
        at := PastRun(at, past, w.step);
      } else {
        SweptStep(w, was, out, gap, at);
        if w.prologue(at) {
          out := out + [at];
        }
        at := at + w.step;
      }
    }
  }

  // --------------------------------------------------------------- one segment

  ghost predicate EndsAligned(rs: seq<Range>, step: nat)
    requires step > 0
  {
    forall i :: 0 <= i < |rs| ==> rs[i].end % step == 0
  }

  /** A run ends where one of the ranges merged into it does. */
  lemma RunEndsAligned(rs: seq<Range>, runs: seq<Range>, step: nat)
    requires step > 0 && Runs(runs) && EndsAligned(rs, step) && forall a: Addr :: Covers(runs, a) <==> Covers(rs, a)
    ensures EndsAligned(runs, step)
  {
    forall i | 0 <= i < |runs| ensures runs[i].end % step == 0 {
      var last: Addr := runs[i].end - 1;
      assert Holds(runs[i], last);
      assert Covers(rs, last);
      var k :| 0 <= k < |rs| && Holds(rs[k], last);
      assert !Covers(runs, last + 1);
      assert rs[k].end == last + 1;
    }
  }

  /** A gap starts where its span does or where a run ends. */
  lemma GapStartsAligned(span: Range, covered: seq<Range>, gaps: seq<Range>, i: nat, step: nat)
    requires step > 0 && Runs(covered) && Runs(gaps) && i < |gaps| && span.start % step == 0 && EndsAligned(covered, step)
    requires forall a: Addr :: Covers(gaps, a) <==> Holds(span, a) && !Covers(covered, a)
    ensures gaps[i].start % step == 0
  {
    var start := gaps[i].start;
    assert Holds(gaps[i], start);
    assert Covers(gaps, start);
    if start != span.start {
      var before: Addr := start - 1;
      assert !Covers(gaps, before);
      assert Covers(covered, before);
      var k :| 0 <= k < |covered| && Holds(covered[k], before);
      assert !Holds(covered[k], start);
      assert covered[k].end == start;
    }
  }

  /** What sweeping a span adds: wanted addresses no run covers, in order, and
      on an aligned span every one on the grid. */
  ghost predicate SweptSpan(w: Sweep, was: seq<Addr>, out: seq<Addr>, span: Range, covered: seq<Range>) {
    match w
    case Sweep(step, _, _) =>
      (was <= out && step > 0 &&
       (forall i :: |was| <= i < |out| ==> Holds(span, out[i]) && !Covers(covered, out[i]) && w.Wanted(out[i])) &&
       (forall i, j :: |was| <= i < j < |out| ==> out[i] < out[j]) &&
       (span.start % step == 0 && EndsAligned(covered, step) ==>
          forall a: Addr :: Holds(span, a) && !Covers(covered, a) && a % step == 0 && w.Wanted(a) ==> a in out))
  }

  /** The same, part way through the gaps. */
  ghost predicate SweptGaps(w: Sweep, was: seq<Addr>, out: seq<Addr>, gaps: seq<Range>, k: nat)
    requires k <= |gaps|
  {
    match w
    case Sweep(step, _, _) =>
      (was <= out && step > 0 &&
       (forall i :: |was| <= i < |out| ==>
          Covers(gaps[..k], out[i]) && w.Wanted(out[i])) &&
       (k < |gaps| ==> forall i :: |was| <= i < |out| ==> out[i] < gaps[k].start) &&
       (forall i, j :: |was| <= i < j < |out| ==> out[i] < out[j]) &&
       ((forall g :: g in gaps ==> g.start % step == 0) ==>
          forall a: Addr :: Covers(gaps[..k], a) && a % step == 0 && w.Wanted(a) ==> a in out))
  }

  lemma SweptGapsStep(w: Sweep, was: seq<Addr>, out: seq<Addr>, more: seq<Addr>, gaps: seq<Range>, k: nat, at: Addr)
    requires w.Valid() && Runs(gaps) && k < |gaps| && SweptGaps(w, was, out, gaps, k)
    requires gaps[k].end <= at && Swept(w, out, more, gaps[k], at)
    ensures SweptGaps(w, was, more, gaps, k + 1)
  {
    CoversOneMore(gaps, k);
    assert gaps[k] in gaps;
    forall i | |was| <= i < |more| ensures Covers(gaps[..k + 1], more[i]) && w.Wanted(more[i]) {
      if i < |out| {
        assert more[i] == out[i];
      }
    }
    forall i, j | |was| <= i < j < |more| ensures more[i] < more[j] {
      if i < |out| {
        assert more[i] == out[i];
        if j < |out| {
          assert more[j] == out[j];
        } else {
          assert Holds(gaps[k], more[j]);
        }
      }
    }
    if k + 1 < |gaps| {
      assert gaps[k].end < gaps[k + 1].start;
      forall i | |was| <= i < |more| ensures more[i] < gaps[k + 1].start {
        if i < |out| {
          assert more[i] == out[i] && out[i] < gaps[k].start;
        }
      }
    }
  }

  lemma SweptGapsAll(w: Sweep, was: seq<Addr>, out: seq<Addr>, gaps: seq<Range>, span: Range, covered: seq<Range>)
    requires w.Valid() && SweptGaps(w, was, out, gaps, |gaps|) && Runs(gaps) && Runs(covered)
    requires forall a: Addr :: Covers(gaps, a) <==> Holds(span, a) && !Covers(covered, a)
    ensures SweptSpan(w, was, out, span, covered)
  {
    assert gaps[..|gaps|] == gaps;
    if span.start % w.step == 0 && EndsAligned(covered, w.step) {
      forall g | g in gaps ensures g.start % w.step == 0 {
        var i :| 0 <= i < |gaps| && gaps[i] == g;
        GapStartsAligned(span, covered, gaps, i, w.step);
      }
    }
  }

  method SweepSpan(w: Sweep, was: seq<Addr>, span: Range, covered: seq<Range>) returns (out: seq<Addr>)
    requires w.Valid() && Runs(covered)
    ensures SweptSpan(w, was, out, span, covered)
  {
    var gaps := GapsIn(span, covered);
    out := was;
    for k := 0 to |gaps|
      invariant SweptGaps(w, was, out, gaps, k)
    {
      var more := SweepGap(w, out, gaps[k]);
      ghost var at: Addr :| gaps[k].end <= at && Swept(w, out, more, gaps[k], at);
      SweptGapsStep(w, was, out, more, gaps, k, at);
      out := more;
    }
    SweptGapsAll(w, was, out, gaps, span, covered);
  }

  // ----------------------------------------------------------------- the sweep

  /** An executable address in no walked block and no data, opening with a prologue. */
  ghost predicate Candidate(w: Sweep, segments: seq<Segment>, blocks: seq<Range>, a: Addr) {
    InExec(segments, a) && !Covers(blocks, a) && w.Wanted(a)
  }

  ghost predicate InExec(segments: seq<Segment>, a: Addr) {
    exists i :: 0 <= i < |segments| && segments[i].exec && Holds(segments[i].range, a)
  }

  ghost predicate Aligned(segments: seq<Segment>, blocks: seq<Range>, step: nat)
    requires step > 0
  {
    (forall i :: 0 <= i < |segments| && segments[i].exec ==> segments[i].range.start % step == 0) && EndsAligned(blocks, step)
  }

  ghost predicate Apart(segments: seq<Segment>) {
    forall i, j, a: Addr :: 0 <= i < j < |segments| && Holds(segments[i].range, a) ==> !Holds(segments[j].range, a)
  }

  /** What has been found in the first `k` segments, none of them skipped. */
  ghost predicate FoundIn(w: Sweep, segments: seq<Segment>, blocks: seq<Range>, found: seq<Addr>, k: nat)
    requires k <= |segments|
  {
    match w
    case Sweep(step, _, _) =>
      (step > 0 && (forall i :: 0 <= i < |found| ==> Candidate(w, segments[..k], blocks, found[i])) &&
       (Apart(segments) ==> Distinct(found)) &&
       (Aligned(segments, blocks, step) ==>
          forall a: Addr :: Candidate(w, segments[..k], blocks, a) && a % step == 0 ==> a in found))
  }

  lemma InExecMore(segments: seq<Segment>, k: nat, a: Addr)
    requires k < |segments|
    ensures InExec(segments[..k + 1], a) <==>
      InExec(segments[..k], a) || (segments[k].exec && Holds(segments[k].range, a))
  {
    var more := segments[..k + 1];
    if InExec(more, a) {
      var i :| 0 <= i < |more| && more[i].exec && Holds(more[i].range, a);
      assert i < k ==> segments[..k][i] == more[i];
    }
    if InExec(segments[..k], a) {
      var i :| 0 <= i < k && segments[..k][i].exec && Holds(segments[..k][i].range, a);
      assert more[i] == segments[..k][i];
    }
    assert more[k] == segments[k];
  }

  lemma FoundSkip(w: Sweep, segments: seq<Segment>, blocks: seq<Range>, found: seq<Addr>, k: nat)
    requires k < |segments| && !segments[k].exec && FoundIn(w, segments, blocks, found, k)
    ensures FoundIn(w, segments, blocks, found, k + 1)
  {
    forall a: Addr ensures Candidate(w, segments[..k + 1], blocks, a) <==> Candidate(w, segments[..k], blocks, a) {
      InExecMore(segments, k, a);
    }
  }

  lemma FoundStep(w: Sweep, segments: seq<Segment>, blocks: seq<Range>, covered: seq<Range>, found: seq<Addr>, more: seq<Addr>,
                  k: nat)
    requires w.Valid() && k < |segments| && segments[k].exec && FoundIn(w, segments, blocks, found, k)
    requires Runs(covered) && forall a: Addr :: Covers(covered, a) <==> Covers(blocks, a)
    requires SweptSpan(w, found, more, segments[k].range, covered)
    ensures FoundIn(w, segments, blocks, more, k + 1)
  {
    forall a: Addr ensures InExec(segments[..k + 1], a) <==> InExec(segments[..k], a) || Holds(segments[k].range, a) {
      InExecMore(segments, k, a);
    }
    forall i | 0 <= i < |more| ensures Candidate(w, segments[..k + 1], blocks, more[i]) {
      if i < |found| {
        assert more[i] == found[i];
      }
    }
    if Apart(segments) {
      StillDistinct(w, segments, blocks, covered, found, more, k);
    }
    if Aligned(segments, blocks, w.step) {
      RunEndsAligned(blocks, covered, w.step);
      forall a: Addr | Candidate(w, segments[..k + 1], blocks, a) && a % w.step == 0 ensures a in more {
        if InExec(segments[..k], a) {
          assert a in found;
          var i :| 0 <= i < |found| && found[i] == a;
          assert more[i] == a;
        }
      }
    }
  }

  lemma StillDistinct(w: Sweep, segments: seq<Segment>, blocks: seq<Range>, covered: seq<Range>, found: seq<Addr>,
                      more: seq<Addr>, k: nat)
    requires w.Valid() && k < |segments| && FoundIn(w, segments, blocks, found, k) && Apart(segments)
    requires SweptSpan(w, found, more, segments[k].range, covered)
    ensures Distinct(more)
  {
    forall i, j | 0 <= i < j < |more| ensures more[i] != more[j] {
      if i < |found| {
        assert more[i] == found[i];
        if j < |found| {
          assert more[j] == found[j];
        } else {
          assert Candidate(w, segments[..k], blocks, found[i]);
          var s :| 0 <= s < k && segments[..k][s].exec && Holds(segments[..k][s].range, found[i]);
          assert Holds(segments[s].range, found[i]);
        }
      } else {
        assert more[i] < more[j];
      }
    }
  }

  /** Every address found is a candidate. Unless more than `cap` were found, and
      on an image whose segments and block ends are aligned, every candidate on
      the instruction grid is found. */
  ghost predicate Complete(w: Sweep, segments: seq<Segment>, blocks: seq<Range>, out: seq<Addr>)
    requires w.step > 0
  {
    forall a: Addr :: Candidate(w, segments, blocks, a) && a % w.step == 0 ==> a in out
  }

  method ScanGaps(arch: Arch, segments: seq<Segment>, blocks: seq<Range>, data: DataMap, prologue: Addr -> bool, cap: nat)
    returns (out: seq<Addr>, ghost hits: nat)
    requires data.Valid()
    ensures Ascending(out)
    ensures Stride(arch).None? ==> out == []
    ensures Stride(arch).Some? ==> var w := Sweep(Stride(arch).value, data, prologue);
      (forall a :: a in out ==> Candidate(w, segments, blocks, a)) &&
      (Aligned(segments, blocks, w.step) && hits <= cap ==> Complete(w, segments, blocks, out)) &&
      (Apart(segments) ==> hits == |out|)
  {
    out, hits := [], 0;
    var stride := Stride(arch);
    if stride.None? {
      return;
    }
    var w := Sweep(stride.value, data, prologue);
    var covered := MergeRanges(blocks);
    var found: seq<Addr> := [];
    var k := 0;
    while k < |segments|
      invariant k <= |segments| && FoundIn(w, segments, blocks, found, k)
    {
      if segments[k].exec {
        var more := SweepSpan(w, found, segments[k].range, covered);
        FoundStep(w, segments, blocks, covered, found, more, k);
        found := more;
        k := k + 1;
        if |found| > cap {
          break;
        }
      } else {
        FoundSkip(w, segments, blocks, found, k);
        k := k + 1;
      }
    }
    hits := |found|;
    out := SortDedup(found);
    Finish(w, segments, blocks, found, k);
  }

  lemma Finish(w: Sweep, segments: seq<Segment>, blocks: seq<Range>, found: seq<Addr>, k: nat)
    requires w.Valid() && k <= |segments| && FoundIn(w, segments, blocks, found, k)
    ensures forall a :: a in SortDedup(found) ==> Candidate(w, segments, blocks, a)
    ensures Apart(segments) ==> |found| == |SortDedup(found)|
    ensures k == |segments| && Aligned(segments, blocks, w.step) ==> Complete(w, segments, blocks, SortDedup(found))
  {
    var out := SortDedup(found);
    forall a | a in out ensures Candidate(w, segments, blocks, a) {
      var i :| 0 <= i < |found| && found[i] == a;
      assert Candidate(w, segments[..k], blocks, found[i]);
      var s :| 0 <= s < k && segments[..k][s].exec && Holds(segments[..k][s].range, a);
      assert segments[s].exec && Holds(segments[s].range, a);
    }
    if k == |segments| {
      assert segments[..k] == segments;
    }
    if Apart(segments) {
      CountDistinct(found);
    }
  }

  lemma CountDistinct(xs: seq<Addr>)
    requires Distinct(xs)
    ensures |SortDedup(xs)| == |xs|
  {
    var s := set x | x in xs;
    DistinctFits(xs, s);
    ElemsFewer(xs);
    assert s == Elems(xs);
  }
}
