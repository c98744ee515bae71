/** The grammar of queries as a relation between stretches of tokens and what they
    say, and that the parser accepts exactly it (crates/e5r-api/src/query.rs). */
module Grammar {
  import opened Ordered
  import opened QueryLex
  import opened Lexical
  import opened Query

  // ------------------------------------------------------------------ words

  ghost predicate NamesEntity(w: string, e: Entity) {
    match e
    case Functions => w == "functions" || w == "funcs"
    case Strings => w == "strings"
    case Symbols => w == "symbols" || w == "syms"
    case Imports => w == "imports"
    case Exports => w == "exports"
    case Sections => w == "sections"
    case Xrefs => w == "xrefs"
    case Calls => w == "calls"
    case Values => w == "values"
  }

  ghost predicate NamesWant(w: string, want: Want) {
    match want
    case Bounded => w == "bounded"
    case Constant => w == "constant"
    case Unconstrained => w == "unconstrained"
    case Unknown => w == "unknown"
  }

  /** `arg` and a number from 1 to 64. */
  ghost predicate NamesArgument(w: string, index: nat) {
    index < 64 && exists d :: w == "arg" + d && Unsigned(d, 10, index + 1)
  }

  /** A name may be quoted or not. */
  ghost predicate Named(t: Token, name: string) {
    t == Text(name) || t == Word(name)
  }

  /** So may a text, but for the two words that are not texts. */
  ghost predicate Stands(t: Token, v: Value) {
    match v
    case Num(n) => t == Number(n)
    case Flag(b) => t == Word(if b then "true" else "false")
    case Str(s) => t == Text(s) || (t == Word(s) && s != "true" && s != "false")
  }

  // ------------------------------------------------------------------ conditions

  /** The tokens from `at` up to `end` ask about dataflow: `is`, or `is not` when
      negated, or `reads`. */
  ghost predicate AsksFact(ts: seq<Token>, at: nat, end: nat, f: Fact, negated: bool) {
    match f
    case Argument(index, want) => AsksIs(ts, at, end, negated) && NamesArgument(ts[at].w, index) && NamesWant(ts[end - 1].w, want)
    case Indirect(yes) =>
      AsksIs(ts, at, end, negated) && ts[at].w == "target" && ts[end - 1].w == if yes then "indirect" else "direct"
    case Reads(every, callee) => !negated && AsksReads(ts, at, end, every, callee)
  }

  ghost predicate AsksIs(ts: seq<Token>, at: nat, end: nat, negated: bool)
    ensures AsksIs(ts, at, end, negated) ==> at < end <= |ts| && ts[at].Word? && ts[end - 1].Word?
  {
    at < end <= |ts| && end == at + (if negated then 4 else 3) && ts[at].Word? && ts[at + 1] == Word("is") &&
    (negated ==> ts[at + 2] == Word("not")) && ts[end - 1].Word?
  }

  /** With or without the `a`, and in either number. */
  ghost predicate AsksReads(ts: seq<Token>, at: nat, end: nat, every: bool, callee: string) {
    at + 7 <= end <= |ts| && ts[at] == Word("reads") && ts[at + 1] == Word(if every then "every" else "any") &&
    (ts[at + 2] == Word("argument") || ts[at + 2] == Word("arguments")) && ts[at + 3] == Word("of") &&
    (end == at + 7 || (end == at + 8 && ts[at + 4] == Word("a"))) &&
    (ts[end - 3] == Word("call") || ts[end - 3] == Word("calls")) && ts[end - 2] == Word("to") && Named(ts[end - 1], callee)
  }

  /** The tokens from `at` up to `end` say `e`, where no looser an expression may
      stand than `or` (0), `and` (1) or neither (2). */
  ghost predicate Derives(ts: seq<Token>, at: nat, end: nat, e: Expr, level: nat)
    decreases end - at, 1
  {
    at < end <= |ts| &&
    (Bare(ts, at, end, e, level) ||
     (at + 2 < end && ts[at] == Open && ts[end - 1] == Close && Derives(ts, at + 1, end - 1, e, 0)))
  }

  ghost predicate Bare(ts: seq<Token>, at: nat, end: nat, e: Expr, level: nat)
    requires at < end <= |ts|
    decreases end - at, 0
  {
    match e
    case Or(a, b) => level == 0 && exists mid: nat ::
      Joins(ts, at, mid, end, "or") && Derives(ts, at, mid, a, 0) && Derives(ts, mid + 1, end, b, 1)
    case And(a, b) => level <= 1 && exists mid: nat ::
      Joins(ts, at, mid, end, "and") && Derives(ts, at, mid, a, 1) && Derives(ts, mid + 1, end, b, 2)
    case Not(a) => (ts[at] == Word("not") && Derives(ts, at + 1, end, a, 2)) || (a.IsFact? && AsksFact(ts, at, end, a.fact, true))
    case IsFact(f) => AsksFact(ts, at, end, f, false)
    case Compare(field, op, v) =>
      end == at + 3 && ts[at] == Word(field) && field != "not" && field != "reads" && ts[at + 1] == Operator(op) &&
      Stands(ts[at + 2], v)
  }

  ghost predicate Joins(ts: seq<Token>, at: nat, mid: nat, end: nat, w: string) {
    at < mid < end <= |ts| && ts[mid] == Word(w)
  }

  // ------------------------------------------------------------------ queries

  /** The tokens from `at` up to `end` are a filter. */
  ghost predicate Says(ts: seq<Token>, at: nat, end: nat, e: Expr) {
    Derives(ts, at, end, e, 0)
  }

  /** The `where` and `limit` clauses from `at` on, in any order and number; the last
      of each counts. */
  ghost predicate Ends(ts: seq<Token>, at: nat, filter: Option<Expr>, limit: Option<nat>)
    decreases |ts| - at
  {
    if at >= |ts| then at == |ts| && filter == None && limit == None
    else if ts[at] == Word("where") then
      exists end: nat, e, later: Option<Expr> :: Says(ts, at + 1, end, e) && Ends(ts, end, later, limit) &&
        filter == (if later.Some? then later else Some(e))
    else
      ts[at] == Word("limit") && at + 1 < |ts| && ts[at + 1].Number? &&
      exists later: Option<nat> :: Ends(ts, at + 2, filter, later) && limit == (if later.Some? then later else Some(ts[at + 1].n))
  }

  /** `values` says which argument's values it asks for, and nothing else does. */
  ghost predicate Argued(ts: seq<Token>, q: Query, at: nat) {
    if q.entity.Values? then
      at == 5 <= |ts| && ts[1] == Word("reaching") && ts[2].Word? && ts[3] == Word("of") && ts[4] == Word("calls") &&
      q.argument.Some? && NamesArgument(ts[2].w, q.argument.value)
    else at == 1 && q.argument == None
  }

  /** A call may be to something named. */
  ghost predicate Targeted(ts: seq<Token>, q: Query, at: nat, end: nat) {
    if (q.entity.Calls? || q.entity.Values?) && at < |ts| && ts[at] == Word("to") then
      end == at + 2 <= |ts| && q.target.Some? && Named(ts[at + 1], q.target.value)
    else end == at && q.target == None
  }

  /** The tokens are a query. */
  ghost predicate Asks(ts: seq<Token>, q: Query) {
    ts != [] && ts[0].Word? && NamesEntity(ts[0].w, q.entity) &&
    exists at: nat, end: nat :: Argued(ts, q, at) && Targeted(ts, q, at, end) && Ends(ts, end, q.filter, q.limit)
  }

  // ------------------------------------------------------------------ words are read so

  lemma EntityIff(w: string, e: Entity)
    ensures EntityFrom(w) == Some(e) <==> NamesEntity(w, e)
  {
  }

  lemma WantIff(w: string, want: Want)
    ensures WantFrom(w) == Some(want) <==> NamesWant(w, want)
  {
  }

  lemma ArgumentIff(w: string, index: nat)
    ensures ArgumentIndex(w) == Some(index) <==> NamesArgument(w, index)
  {
    if StartsWith(w, "arg") {
      assert w == "arg" + w[3..];
      UnsignedIff(w[3..], 10, index + 1);
    }
    if d :| w == "arg" + d && Unsigned(d, 10, index + 1) {
      assert w[3..] == d;
    }
  }

  lemma ValueIff(t: Token, v: Value)
    ensures ValueOf(t) == Some(v) <==> Stands(t, v)
  {
  }

  // ------------------------------------------------------------------ what the parser takes is in the grammar

  lemma NameIs(ts: seq<Token>, at: nat)
    requires Name(ts, at).Some?
    ensures at < |ts| && Named(ts[at], Name(ts, at).value.0) && Name(ts, at).value.1 == at + 1
  {
  }

  lemma ReadsSound(ts: seq<Token>, at: nat)
    requires WordAt(ts, at, "reads") && ReadsClause(ts, at + 1).Some?
    ensures var r := ReadsClause(ts, at + 1).value;
      r.0.IsFact? && r.0.fact.Reads? && AsksReads(ts, at, r.1, r.0.fact.every, r.0.fact.callee)
  {
    var w := WordIn(ts, at + 1).value;
    assert ts[at + 1] == Word(w);
    var o := Expect(ts, at + 3, "of").value;
    var c := if WordAt(ts, o, "a") then o + 1 else o;
    NameIs(ts, Expect(ts, c + 1, "to").value);
  }

  lemma IsSound(ts: seq<Token>, at: nat, head: string)
    requires at + 1 < |ts| && ts[at] == Word(head) && ts[at + 1] == Word("is") && IsClause(ts, at + 2, head).Some?
    ensures var r := IsClause(ts, at + 2, head).value;
      if WordAt(ts, at + 2, "not") then r.0.Not? && r.0.inner.IsFact? && AsksFact(ts, at, r.1, r.0.inner.fact, true)
      else r.0.IsFact? && AsksFact(ts, at, r.1, r.0.fact, false)
  {
    var k := if WordAt(ts, at + 2, "not") then at + 3 else at + 2;
    assert ts[k] == Word(WordIn(ts, k).value);
    if head != "target" {
      ArgumentIff(head, ArgumentIndex(head).value);
      WantIff(WordIn(ts, k).value, WantFrom(WordIn(ts, k).value).value);
    }
  }

  /** A dataflow question that is taken is one condition. */
  lemma FactSound(ts: seq<Token>, at: nat)
    requires FactStarts(ts, at) && FactClause(ts, at).Some?
    ensures var r := FactClause(ts, at).value; Derives(ts, at, r.1, r.0, 2)
  {
    if ts[at].w == "reads" {
      ReadsSound(ts, at);
    } else {
      IsSound(ts, at, ts[at].w);
    }
  }

  lemma ComparisonSound(ts: seq<Token>, at: nat)
    requires Comparison(ts, at).Some? && !WordAt(ts, at, "not") && !FactStarts(ts, at)
    ensures var r := Comparison(ts, at).value; Derives(ts, at, r.1, r.0, 2)
  {
    ValueIff(ts[at + 2], ValueOf(ts[at + 2]).value);
  }

  /** A tighter expression may stand where a looser one is read. */
  lemma Looser(ts: seq<Token>, at: nat, end: nat, e: Expr, tight: nat, level: nat)
    requires level <= tight && Derives(ts, at, end, e, tight)
    ensures Derives(ts, at, end, e, level)
  {
  }

  lemma {:induction false} UnarySound(ts: seq<Token>, at: nat)
    requires at <= |ts| && Unary(ts, at).Some?
    ensures var r := Unary(ts, at).value; Derives(ts, at, r.1, r.0, 2)
    decreases |ts| - at, 1
  {
    if WordAt(ts, at, "not") {
      UnarySound(ts, at + 1);
    } else if at < |ts| && ts[at] == Open {
      ExpressionSound(ts, at + 1);
    } else if FactStarts(ts, at) {
      FactSound(ts, at);
    } else {
      ComparisonSound(ts, at);
    }
  }

  lemma {:induction false} AndMoreSound(ts: seq<Token>, from: nat, at: nat, left: Expr)
    requires at <= |ts| && Derives(ts, from, at, left, 1) && AndMore(ts, at, left).Some?
    ensures var r := AndMore(ts, at, left).value; Derives(ts, from, r.1, r.0, 1)
    decreases |ts| - at, 0
  {
    if WordAt(ts, at, "and") {
      UnarySound(ts, at + 1);
      var right := Unary(ts, at + 1).value;
      assert Joins(ts, from, at, right.1, "and");
      AndMoreSound(ts, from, right.1, And(left, right.0));
    }
  }

  lemma {:induction false} ConjunctionSound(ts: seq<Token>, at: nat)
    requires at <= |ts| && Conjunction(ts, at).Some?
    ensures var r := Conjunction(ts, at).value; Derives(ts, at, r.1, r.0, 1)
    decreases |ts| - at, 2
  {
    UnarySound(ts, at);
    var left := Unary(ts, at).value;
    Looser(ts, at, left.1, left.0, 2, 1);
    AndMoreSound(ts, at, left.1, left.0);
  }

  lemma {:induction false} OrMoreSound(ts: seq<Token>, from: nat, at: nat, left: Expr)
    requires at <= |ts| && Derives(ts, from, at, left, 0) && OrMore(ts, at, left).Some?
    ensures var r := OrMore(ts, at, left).value; Derives(ts, from, r.1, r.0, 0)
    decreases |ts| - at, 0
  {
    if WordAt(ts, at, "or") {
      ConjunctionSound(ts, at + 1);
      var right := Conjunction(ts, at + 1).value;
      assert Joins(ts, from, at, right.1, "or");
      OrMoreSound(ts, from, right.1, Or(left, right.0));
    }
  }

  lemma {:induction false} ExpressionSound(ts: seq<Token>, at: nat)
    requires at <= |ts| && Expression(ts, at).Some?
    ensures var r := Expression(ts, at).value; Derives(ts, at, r.1, r.0, 0)
    decreases |ts| - at, 3
  {
    ConjunctionSound(ts, at);
    var left := Conjunction(ts, at).value;
    Looser(ts, at, left.1, left.0, 1, 0);
    OrMoreSound(ts, at, left.1, left.0);
  }

  /** What is said later counts. */
  function Over<T>(later: Option<T>, sooner: Option<T>): Option<T> {
    if later.Some? then later else sooner
  }

  lemma {:induction false} ClausesSound(ts: seq<Token>, at: nat, filter: Option<Expr>, limit: Option<nat>)
    returns (f: Option<Expr>, l: Option<nat>)
    requires at <= |ts| && Clauses(ts, at, filter, limit).Some?
    ensures Ends(ts, at, f, l) && Clauses(ts, at, filter, limit) == Some((Over(f, filter), Over(l, limit)))
    decreases |ts| - at
  {
    if at == |ts| {
      f, l := None, None;
    } else if WordAt(ts, at, "where") {
      ExpressionSound(ts, at + 1);
      var e := Expression(ts, at + 1).value;
      var later;
      later, l := ClausesSound(ts, e.1, Some(e.0), limit);
      f := Over(later, Some(e.0));
    } else {
      var later;
      f, later := ClausesSound(ts, at + 2, filter, Some(ts[at + 1].n));
      l := Over(later, Some(ts[at + 1].n));
    }
  }

  /** Every query the parser gives is one its tokens are. */
  lemma ParseSound(ts: seq<Token>)
    requires ParseTokens(ts).Some?
    ensures Asks(ts, ParseTokens(ts).value)
  {
    var q := ParseTokens(ts).value;
    assert ts[0] == Word(WordIn(ts, 0).value);
    EntityIff(ts[0].w, q.entity);
    var argument := ReachingIf(ts, 1, q.entity).value;
    ArguedSound(ts, q, argument);
    var target := TargetIf(ts, argument.1, q.entity).value;
    TargetedSound(ts, q, argument.1, target);
    var f, l := ClausesSound(ts, target.1, None, None);
    assert Ends(ts, target.1, q.filter, q.limit);
  }

  lemma ArguedSound(ts: seq<Token>, q: Query, argument: (Option<nat>, nat))
    requires 1 <= |ts| && ReachingIf(ts, 1, q.entity) == Some(argument) && q.argument == argument.0
    ensures Argued(ts, q, argument.1)
  {
    if q.entity.Values? {
      var k := Expect(ts, 1, "reaching").value;
      assert ts[k] == Word(WordIn(ts, k).value);
      ArgumentIff(ts[2].w, argument.0.value);
    }
  }

  lemma TargetedSound(ts: seq<Token>, q: Query, at: nat, target: (Option<string>, nat))
    requires at <= |ts| && TargetIf(ts, at, q.entity) == Some(target) && q.target == target.0
    ensures Targeted(ts, q, at, target.1)
  {
    if (q.entity.Calls? || q.entity.Values?) && WordAt(ts, at, "to") {
      NameIs(ts, at + 1);
    }
  }

  // ------------------------------------------------------------------ and the parser takes all of it

  /** A stretch of a token list. */
  datatype Span = Span(ts: seq<Token>, at: nat, end: nat)

  /** Where an expression of each tightness leaves the parser. */
  ghost predicate Parses(s: Span, e: Expr, level: nat) {
    match s
    case Span(ts, at, end) =>
      (at <= |ts| && end <= |ts| &&
       if level >= 2 then Unary(ts, at) == Some((e, end))
       else if level == 1 then Conjunction(ts, at) == AndMore(ts, end, e)
       else Expression(ts, at) == OrMore(ts, end, e))
  }

  lemma FactIsNext(ts: seq<Token>, at: nat)
    requires at <= |ts| && FactStarts(ts, at) && !WordAt(ts, at, "not")
    ensures Unary(ts, at) == FactClause(ts, at)
  {
  }

  lemma ReadsComplete(ts: seq<Token>, at: nat, end: nat, every: bool, callee: string)
    requires AsksReads(ts, at, end, every, callee)
    ensures ReadsClause(ts, at + 1) == Some((IsFact(Reads(every, callee)), end))
  {
    assert WordIn(ts, at + 1) == Some(if every then "every" else "any");
    assert Expect(ts, at + 3, "of") == Some(at + 4);
    assert WordAt(ts, at + 4, "a") <==> end == at + 8;
    assert Expect(ts, end - 2, "to") == Some(end - 1);
  }

  lemma ArgumentComplete(ts: seq<Token>, at: nat, end: nat, index: nat, want: Want, negated: bool)
    requires AsksFact(ts, at, end, Argument(index, want), negated)
    ensures ts[at] != Word("not") && ts[at] != Word("reads") && FactStarts(ts, at)
    ensures IsClause(ts, at + 2, ts[at].w) == Some((Negate(negated, Argument(index, want)), end))
  {
    ArgumentIff(ts[at].w, index);
    WantIff(ts[end - 1].w, want);
    NotOther(ts[at].w, index);
    assert WordAt(ts, at + 2, "not") <==> negated;
  }

  lemma IndirectComplete(ts: seq<Token>, at: nat, end: nat, yes: bool, negated: bool)
    requires AsksFact(ts, at, end, Indirect(yes), negated)
    ensures ts[at] != Word("not") && ts[at] != Word("reads") && FactStarts(ts, at)
    ensures IsClause(ts, at + 2, ts[at].w) == Some((Negate(negated, Indirect(yes)), end))
  {
    assert WordAt(ts, at + 2, "not") <==> negated;
  }

  lemma IsComplete(ts: seq<Token>, at: nat, end: nat, f: Fact, negated: bool)
    requires AsksFact(ts, at, end, f, negated) && !f.Reads?
    ensures ts[at] != Word("not") && ts[at] != Word("reads") && FactStarts(ts, at)
    ensures IsClause(ts, at + 2, ts[at].w) == Some((Negate(negated, f), end))
  {
    match f
    case Argument(index, want) => ArgumentComplete(ts, at, end, index, want, negated);
    case Indirect(yes) => IndirectComplete(ts, at, end, yes, negated);
  }

  lemma NotOther(head: string, index: nat)
    requires NamesArgument(head, index)
    ensures head != "not" && head != "reads" && head != "target"
  {
    assert head[0] == 'a';
  }

  lemma FactComplete(ts: seq<Token>, at: nat, end: nat, f: Fact, negated: bool)
    requires AsksFact(ts, at, end, f, negated)
    ensures Parses(Span(ts, at, end), if negated then Not(IsFact(f)) else IsFact(f), 2)
  {
    match f
    case Reads(every, callee) =>
      ReadsComplete(ts, at, end, every, callee);
      FactIsNext(ts, at);
    case _ =>
      IsComplete(ts, at, end, f, negated);
      FactIsNext(ts, at);
  }

  lemma ComparisonComplete(ts: seq<Token>, at: nat, end: nat, e: Expr)
    requires at < end <= |ts| && e.Compare? && Bare(ts, at, end, e, 2)
    ensures Parses(Span(ts, at, end), e, 2)
  {
    ValueIff(ts[at + 2], e.value);
    assert !FactStarts(ts, at);
  }

  /** A tighter expression may stand where a looser one is read, unless an `and`
      follows that the looser one would take. */
  lemma Loosen(s: Span, e: Expr, tight: nat, level: nat)
    requires level <= tight <= 2 && Parses(s, e, tight) && (level == 0 ==> !WordAt(s.ts, s.end, "and"))
    ensures Parses(s, e, level)
  {
    var ts, at, end := s.ts, s.at, s.end;
    if tight == 2 && level < 2 {
      assert Conjunction(ts, at) == AndMore(ts, end, e);
    }
    if level == 0 && tight > 0 {
      assert AndMore(ts, end, e) == Some((e, end));
      assert Conjunction(ts, at) == Some((e, end));
      assert Expression(ts, at) == OrMore(ts, end, e);
    }
  }

  lemma BracketBack(ts: seq<Token>, at: nat, k: nat, e: Expr)
    requires at < k < |ts| && ts[at] == Open && ts[k] == Close && Parses(Span(ts, at + 1, k), e, 0)
    ensures Parses(Span(ts, at, k + 1), e, 2)
  {
    assert Expression(ts, at + 1) == Some((e, k));
  }

  lemma NotBack(ts: seq<Token>, at: nat, end: nat, a: Expr)
    requires at < |ts| && ts[at] == Word("not") && Parses(Span(ts, at + 1, end), a, 2)
    ensures Parses(Span(ts, at, end), Not(a), 2)
  {
  }

  lemma AndBack(ts: seq<Token>, at: nat, mid: nat, end: nat, a: Expr, b: Expr)
    requires mid + 1 < |ts| && ts[mid] == Word("and")
    requires Parses(Span(ts, at, mid), a, 1) && Parses(Span(ts, mid + 1, end), b, 2)
    ensures Parses(Span(ts, at, end), And(a, b), 1)
  {
    assert AndMore(ts, mid, a) == AndMore(ts, end, And(a, b));
  }

  lemma OrBack(ts: seq<Token>, at: nat, mid: nat, end: nat, a: Expr, b: Expr)
    requires mid + 1 < |ts| && ts[mid] == Word("or") && !WordAt(ts, end, "and")
    requires Parses(Span(ts, at, mid), a, 0) && Parses(Span(ts, mid + 1, end), b, 1)
    ensures Parses(Span(ts, at, end), Or(a, b), 0)
  {
    assert Conjunction(ts, mid + 1) == Some((b, end));
    assert OrMore(ts, mid, a) == OrMore(ts, end, Or(a, b));
  }

  /** Every stretch of tokens that says an expression is read as that expression. */
  lemma {:induction false} DerivesBack(ts: seq<Token>, at: nat, end: nat, e: Expr, level: nat)
    requires level <= 2 && Derives(ts, at, end, e, level) && (level == 0 ==> !WordAt(ts, end, "and"))
    ensures Parses(Span(ts, at, end), e, level)
    decreases end - at, 1
  {
    if Bare(ts, at, end, e, level) {
      BareBack(ts, at, end, e, level);
    } else {
      DerivesBack(ts, at + 1, end - 1, e, 0);
      BracketBack(ts, at, end - 1, e);
      Loosen(Span(ts, at, end), e, 2, level);
    }
  }

  lemma {:induction false} BareBack(ts: seq<Token>, at: nat, end: nat, e: Expr, level: nat)
    requires level <= 2 && at < end <= |ts| && Bare(ts, at, end, e, level) && (level == 0 ==> !WordAt(ts, end, "and"))
    ensures Parses(Span(ts, at, end), e, level)
    decreases end - at, 0
  {
    match e
    case Or(a, b) =>
      var mid: nat :| Joins(ts, at, mid, end, "or") && Derives(ts, at, mid, a, 0) && Derives(ts, mid + 1, end, b, 1);
      DerivesBack(ts, at, mid, a, 0);
      DerivesBack(ts, mid + 1, end, b, 1);
      OrBack(ts, at, mid, end, a, b);
    case And(a, b) =>
      var mid: nat :| Joins(ts, at, mid, end, "and") && Derives(ts, at, mid, a, 1) && Derives(ts, mid + 1, end, b, 2);
      DerivesBack(ts, at, mid, a, 1);
      DerivesBack(ts, mid + 1, end, b, 2);
      AndBack(ts, at, mid, end, a, b);
      Loosen(Span(ts, at, end), e, 1, level);
    case Not(a) =>
      if ts[at] == Word("not") && Derives(ts, at + 1, end, a, 2) {
        DerivesBack(ts, at + 1, end, a, 2);
        NotBack(ts, at, end, a);
      } else {
        FactComplete(ts, at, end, a.fact, true);
      }
      Loosen(Span(ts, at, end), e, 2, level);
    case IsFact(f) =>
      FactComplete(ts, at, end, f, false);
      Loosen(Span(ts, at, end), e, 2, level);
    case Compare(_, _, _) =>
      ComparisonComplete(ts, at, end, e);
      Loosen(Span(ts, at, end), e, 2, level);
  }

  lemma EndsStart(ts: seq<Token>, at: nat, filter: Option<Expr>, limit: Option<nat>)
    requires Ends(ts, at, filter, limit)
    ensures at <= |ts| && !WordAt(ts, at, "and") && !WordAt(ts, at, "or")
  {
  }

  lemma WhereParts(ts: seq<Token>, at: nat, f: Option<Expr>, l: Option<nat>) returns (end: nat, e: Expr, later: Option<Expr>)
    requires at < |ts| && ts[at] == Word("where") && Ends(ts, at, f, l)
    ensures Says(ts, at + 1, end, e) && Ends(ts, end, later, l) && f == Over(later, Some(e))
  {
    end, e, later :| Says(ts, at + 1, end, e) && Ends(ts, end, later, l) && f == (if later.Some? then later else Some(e));
  }

  lemma {:induction false} ClausesComplete(ts: seq<Token>, at: nat, f: Option<Expr>, l: Option<nat>, filter: Option<Expr>,
                                           limit: Option<nat>)
    requires at <= |ts| && Ends(ts, at, f, l)
    ensures Clauses(ts, at, filter, limit) == Some((Over(f, filter), Over(l, limit)))
    decreases |ts| - at
  {
    if at < |ts| {
      if ts[at] == Word("where") {
        var end, e, later := WhereParts(ts, at, f, l);
        EndsStart(ts, end, later, l);
        DerivesBack(ts, at + 1, end, e, 0);
        assert Expression(ts, at + 1) == Some((e, end));
        ClausesComplete(ts, end, later, l, Some(e), limit);
      } else {
        var later: Option<nat> :| Ends(ts, at + 2, f, later) && l == (if later.Some? then later else Some(ts[at + 1].n));
        ClausesComplete(ts, at + 2, f, later, filter, Some(ts[at + 1].n));
      }
    }
  }

  lemma HeadComplete(ts: seq<Token>, q: Query, at: nat, end: nat)
    requires ts != [] && ts[0].Word? && NamesEntity(ts[0].w, q.entity) && Argued(ts, q, at) && Targeted(ts, q, at, end)
    ensures EntityFrom(ts[0].w) == Some(q.entity) && ReachingIf(ts, 1, q.entity) == Some((q.argument, at)) && at <= |ts|
    ensures TargetIf(ts, at, q.entity) == Some((q.target, end))
  {
    EntityIff(ts[0].w, q.entity);
    if q.entity.Values? {
      ArgumentIff(ts[2].w, q.argument.value);
      assert Expect(ts, 1, "reaching") == Some(2) && Expect(ts, 3, "of") == Some(4) && Expect(ts, 4, "calls") == Some(5);
    }
  }

  /** The parser gives a query exactly when its tokens are that query. */
  lemma ParsesIff(ts: seq<Token>, q: Query)
    ensures ParseTokens(ts) == Some(q) <==> Asks(ts, q)
  {
    if ParseTokens(ts) == Some(q) {
      ParseSound(ts);
    }
    if Asks(ts, q) {
      var at: nat, end: nat :| Argued(ts, q, at) && Targeted(ts, q, at, end) && Ends(ts, end, q.filter, q.limit);
      HeadComplete(ts, q, at, end);
      EndsStart(ts, end, q.filter, q.limit);
      ClausesComplete(ts, end, q.filter, q.limit, None, None);
    }
  }

  /** A text parses to a query exactly when it spells tokens that are that query. */
  lemma QueryIff(u: Classes, text: string, q: Query)
    requires u.Valid()
    ensures ParseText(u, text) == Some(q) <==> exists ts :: Lexed(u, text, 0, ts) && Asks(ts, q)
  {
    if ParseText(u, text) == Some(q) {
      var ts := LexFrom(u, text, 0).value;
      LexIff(u, text, ts);
      ParsesIff(ts, q);
    }
    if ts :| Lexed(u, text, 0, ts) && Asks(ts, q) {
      LexIff(u, text, ts);
      ParsesIff(ts, q);
    }
  }
}
