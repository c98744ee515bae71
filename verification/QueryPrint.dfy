/** Printing a query, and getting it back: the parser's meaning in both
    directions. */
module QueryPrint {
  import opened Ordered
  import opened QueryLex
  import opened QueryLexTheorems
  import opened Query
  import opened Grammar

  // ------------------------------------------------------------------ printing

  function FactTokens(f: Fact): seq<Token> {
    match f
    case Argument(i, want) => [Word(ArgumentWord(i)), Word("is"), Word(WantWord(want))]
    case Indirect(yes) => [Word("target"), Word("is"), Word(if yes then "indirect" else "direct")]
    case Reads(every, callee) =>
      [Word("reads"), Word(if every then "every" else "any"), Word("argument"), Word("of"), Word("a"), Word("call"),
       Word("to"), Text(callee)]
  }

  function ValueToken(v: Value): Token {
    match v case Num(n) => Number(n) case Str(t) => Text(t) case Flag(b) => Word(if b then "true" else "false")
  }

  /** How tightly an expression holds together: `or` least, then `and`. */
  function Binding(e: Expr): nat {
    match e case Or(_, _) => 0 case And(_, _) => 1 case _ => 2
  }

  /** Brackets go around a compound expression that stands where only a tighter
      one may, and around every compound one when `full`. */
  predicate Bracketed(e: Expr, level: nat, full: bool) {
    (e.And? || e.Or?) && (full || level > Binding(e))
  }

  function Tokens(e: Expr, level: nat, full: bool): (r: seq<Token>)
    ensures r != []
    decreases e, 1
  {
    if Bracketed(e, level, full) then [Open] + Body(e, full) + [Close] else Body(e, full)
  }

  function Body(e: Expr, full: bool): (r: seq<Token>)
    ensures r != []
    decreases e, 0
  {
    match e
    case Or(a, b) => Tokens(a, 0, full) + [Word("or")] + Tokens(b, 1, full)
    case And(a, b) => Tokens(a, 1, full) + [Word("and")] + Tokens(b, 2, full)
    case Not(a) => [Word("not")] + Tokens(a, 2, full)
    case IsFact(f) => FactTokens(f)
    case Compare(field, op, v) => [Word(field), Operator(op), ValueToken(v)]
  }

  function HeadTokens(q: Query): seq<Token> {
    [Word(EntityWord(q.entity))] +
    (if q.argument.Some? then [Word("reaching"), Word(ArgumentWord(q.argument.value)), Word("of"), Word("calls")] else [])
  }

  function TargetTokens(q: Query): seq<Token> {
    if q.target.Some? then [Word("to"), Text(q.target.value)] else []
  }

  function FilterTokens(q: Query, full: bool): seq<Token> {
    if q.filter.Some? then [Word("where")] + Tokens(q.filter.value, 0, full) else []
  }

  function LimitTokens(q: Query): seq<Token> {
    if q.limit.Some? then [Word("limit"), Number(q.limit.value)] else []
  }

  function QueryTokens(q: Query, full: bool): seq<Token> {
    HeadTokens(q) + (TargetTokens(q) + (FilterTokens(q, full) + LimitTokens(q)))
  }

  function Print(q: Query, full: bool): string {
    Render(QueryTokens(q, full))
  }

  // ------------------------------------------------------- what can be printed

  /** The two words a condition cannot start with, and the range of arguments. */
  predicate Shaped(e: Expr) {
    match e
    case And(a, b) => Shaped(a) && Shaped(b)
    case Or(a, b) => Shaped(a) && Shaped(b)
    case Not(a) => Shaped(a)
    case IsFact(f) => f.Argument? ==> f.index < 64
    case Compare(field, _, _) => field != "not" && field != "reads"
  }

  /** An argument belongs to `values` and to nothing else; a target to a call. */
  predicate WellFormed(q: Query) {
    (q.argument.Some? <==> q.entity.Values?) && (q.argument.Some? ==> q.argument.value < 64) &&
    (q.target.Some? ==> q.entity.Calls? || q.entity.Values?) && (q.filter.Some? ==> Shaped(q.filter.value))
  }

  // ----------------------------------------------------------- what is printed is in the grammar

  /** These tokens are this stretch. */
  predicate Lies(s: Span, part: seq<Token>) {
    match s case Span(ts, at, end) => end == at + |part| && end <= |ts| && ts[at..end] == part
  }

  lemma LiesApart(s: Span, a: seq<Token>, b: seq<Token>)
    requires Lies(s, a + b)
    ensures Lies(Span(s.ts, s.at, s.at + |a|), a) && Lies(Span(s.ts, s.at + |a|, s.end), b)
  {
    CutJoin(a, b);
    CutSlice(s.ts, s.at, s.at + |a|, s.end);
  }

  lemma LiesAt(s: Span, part: seq<Token>, k: nat)
    requires Lies(s, part) && k < |part|
    ensures s.at + k < s.end <= |s.ts| && s.ts[s.at + k] == part[k]
  {
    assert s.ts[s.at..s.end][k] == part[k];
  }

  lemma LiesOne(s: Span, t: Token)
    requires Lies(s, [t])
    ensures s.at + 1 == s.end <= |s.ts| && s.ts[s.at] == t
  {
    LiesAt(s, [t], 0);
  }

  lemma ArgumentNamed(i: nat)
    requires i < 64
    ensures NamesArgument(ArgumentWord(i), i)
  {
    var w := ArgumentWord(i);
    assert w[3..] == Decimal(i + 1);
    DecimalReads(i + 1);
    ArgumentIff(w, i);
  }

  lemma FactDerives(s: Span, f: Fact)
    requires Lies(s, FactTokens(f)) && Shaped(IsFact(f))
    ensures AsksFact(s.ts, s.at, s.end, f, false)
  {
    var part := FactTokens(f);
    LiesAt(s, part, 0);
    LiesAt(s, part, 1);
    LiesAt(s, part, 2);
    match f
    case Argument(i, want) => ArgumentNamed(i);
    case Indirect(yes) =>
    case Reads(every, callee) => ReadsDerives(s, every, callee);
  }

  lemma ReadsDerives(s: Span, every: bool, callee: string)
    requires Lies(s, FactTokens(Reads(every, callee)))
    ensures AsksReads(s.ts, s.at, s.end, every, callee)
  {
    var part := FactTokens(Reads(every, callee));
    LiesAt(s, part, 0);
    LiesAt(s, part, 1);
    LiesAt(s, part, 2);
    LiesAt(s, part, 3);
    LiesAt(s, part, 4);
    LiesAt(s, part, 5);
    LiesAt(s, part, 6);
    LiesAt(s, part, 7);
  }

  lemma ComparisonDerives(s: Span, e: Expr, full: bool)
    requires e.Compare? && Shaped(e) && Lies(s, Body(e, full))
    ensures Derives(s.ts, s.at, s.end, e, 2)
  {
    LiesAt(s, Body(e, full), 0);
    LiesAt(s, Body(e, full), 1);
    LiesAt(s, Body(e, full), 2);
  }

  lemma BracketDerives(ts: seq<Token>, at: nat, end: nat, e: Expr, level: nat)
    requires at + 2 < end <= |ts| && ts[at] == Open && ts[end - 1] == Close && Derives(ts, at + 1, end - 1, e, 0)
    ensures Derives(ts, at, end, e, level)
  {
  }

  lemma {:induction false} TokensDerive(s: Span, e: Expr, level: nat, full: bool)
    requires Lies(s, Tokens(e, level, full)) && Shaped(e) && level <= 2
    ensures Derives(s.ts, s.at, s.end, e, level)
    decreases e, 1
  {
    if Bracketed(e, level, full) {
      var body, k := Body(e, full), s.end - 1;
      assert Tokens(e, level, full) == [Open] + (body + [Close]);
      LiesApart(s, [Open], body + [Close]);
      LiesApart(Span(s.ts, s.at + 1, s.end), body, [Close]);
      LiesOne(Span(s.ts, s.at, s.at + 1), Open);
      LiesOne(Span(s.ts, k, s.end), Close);
      BodyDerives(Span(s.ts, s.at + 1, k), e, full);
      Looser(s.ts, s.at + 1, k, e, Binding(e), 0);
      BracketDerives(s.ts, s.at, s.end, e, level);
    } else {
      BodyDerives(s, e, full);
      Looser(s.ts, s.at, s.end, e, Binding(e), level);
    }
  }

  lemma {:induction false} BodyDerives(s: Span, e: Expr, full: bool)
    requires Lies(s, Body(e, full)) && Shaped(e)
    ensures Derives(s.ts, s.at, s.end, e, Binding(e))
    decreases e, 0
  {
    match e
    case Or(a, b) =>
      var mid := JoinLies(s, Tokens(a, 0, full), Word("or"), Tokens(b, 1, full));
      TokensDerive(Span(s.ts, s.at, mid), a, 0, full);
      TokensDerive(Span(s.ts, mid + 1, s.end), b, 1, full);
      assert Joins(s.ts, s.at, mid, s.end, "or");
    case And(a, b) =>
      var mid := JoinLies(s, Tokens(a, 1, full), Word("and"), Tokens(b, 2, full));
      TokensDerive(Span(s.ts, s.at, mid), a, 1, full);
      TokensDerive(Span(s.ts, mid + 1, s.end), b, 2, full);
      assert Joins(s.ts, s.at, mid, s.end, "and");
    case Not(a) =>
      LiesApart(s, [Word("not")], Tokens(a, 2, full));
      LiesOne(Span(s.ts, s.at, s.at + 1), Word("not"));
      TokensDerive(Span(s.ts, s.at + 1, s.end), a, 2, full);
    case IsFact(f) => FactDerives(s, f);
    case Compare(_, _, _) => ComparisonDerives(s, e, full);
  }

  /** Two sides and the word between them. */
  lemma JoinLies(s: Span, left: seq<Token>, t: Token, right: seq<Token>) returns (mid: nat)
    requires Lies(s, left + [t] + right) && left != [] && right != []
    ensures s.at < mid && mid + 1 < s.end <= |s.ts| && s.ts[mid] == t
    ensures Lies(Span(s.ts, s.at, mid), left) && Lies(Span(s.ts, mid + 1, s.end), right)
  {
    mid := s.at + |left|;
    LiesApart(s, left + [t], right);
    LiesApart(Span(s.ts, s.at, mid + 1), left, [t]);
    LiesOne(Span(s.ts, mid, mid + 1), t);
  }

  lemma HeadArgues(ts: seq<Token>, q: Query)
    requires WellFormed(q) && Lies(Span(ts, 0, |HeadTokens(q)|), HeadTokens(q))
    ensures ts != [] && ts[0].Word? && NamesEntity(ts[0].w, q.entity) && Argued(ts, q, |HeadTokens(q)|)
  {
    var s := Span(ts, 0, |HeadTokens(q)|);
    LiesAt(s, HeadTokens(q), 0);
    if q.argument.Some? {
      LiesAt(s, HeadTokens(q), 1);
      LiesAt(s, HeadTokens(q), 2);
      LiesAt(s, HeadTokens(q), 3);
      LiesAt(s, HeadTokens(q), 4);
      ArgumentNamed(q.argument.value);
    }
  }

  lemma TargetTargets(ts: seq<Token>, at: nat, q: Query, full: bool)
    requires at <= |ts| && WellFormed(q)
    requires Lies(Span(ts, at, |ts|), TargetTokens(q) + (FilterTokens(q, full) + LimitTokens(q)))
    ensures Targeted(ts, q, at, at + |TargetTokens(q)|)
  {
    var s, rest := Span(ts, at, |ts|), FilterTokens(q, full) + LimitTokens(q);
    if q.target.Some? {
      LiesAt(s, TargetTokens(q) + rest, 0);
      LiesAt(s, TargetTokens(q) + rest, 1);
    } else if rest != [] {
      assert TargetTokens(q) + rest == rest;
      LiesAt(s, rest, 0);
    }
  }

  lemma LimitEnds(ts: seq<Token>, at: nat, q: Query)
    requires at <= |ts| && Lies(Span(ts, at, |ts|), LimitTokens(q))
    ensures Ends(ts, at, None, q.limit)
  {
    if q.limit.Some? {
      LiesAt(Span(ts, at, |ts|), LimitTokens(q), 0);
      LiesAt(Span(ts, at, |ts|), LimitTokens(q), 1);
      LimitLast(ts, at, |ts|, q.limit.value);
    }
  }

  lemma LimitLast(ts: seq<Token>, at: nat, end: nat, n: nat)
    requires end == at + 2 == |ts| && ts[at] == Word("limit") && ts[at + 1] == Number(n)
    ensures Ends(ts, at, None, Some(n))
  {
    assert "limit"[0] != "where"[0];
    var later: Option<nat> := None;
    NothingLeft(ts, end);
    assert Ends(ts, at + 2, None, later) && Some(n) == (if later.Some? then later else Some(ts[at + 1].n));
  }

  lemma NothingLeft(ts: seq<Token>, at: nat)
    requires at == |ts|
    ensures Ends(ts, at, None, None)
  {
  }

  lemma WhereFirst(ts: seq<Token>, at: nat, end: nat, e: Expr, limit: Option<nat>)
    requires at < end <= |ts| && ts[at] == Word("where") && Says(ts, at + 1, end, e) && Ends(ts, end, None, limit)
    ensures Ends(ts, at, Some(e), limit)
  {
  }

  lemma ClausesEnd(ts: seq<Token>, at: nat, q: Query, full: bool)
    requires at <= |ts| && WellFormed(q) && Lies(Span(ts, at, |ts|), FilterTokens(q, full) + LimitTokens(q))
    ensures Ends(ts, at, q.filter, q.limit)
  {
    var end := at + |FilterTokens(q, full)|;
    LiesApart(Span(ts, at, |ts|), FilterTokens(q, full), LimitTokens(q));
    LimitEnds(ts, end, q);
    if q.filter.Some? {
      var e := q.filter.value;
      LiesApart(Span(ts, at, end), [Word("where")], Tokens(e, 0, full));
      LiesOne(Span(ts, at, at + 1), Word("where"));
      TokensDerive(Span(ts, at + 1, end), e, 0, full);
      WhereFirst(ts, at, end, e, q.limit);
    }
  }

  /** Parsing a query's tokens gives the query, however it is bracketed. */
  lemma TokensParse(q: Query, full: bool)
    requires WellFormed(q)
    ensures ParseTokens(QueryTokens(q, full)) == Some(q)
  {
    var ts := QueryTokens(q, full);
    var rest := FilterTokens(q, full) + LimitTokens(q);
    var n := |HeadTokens(q)|;
    assert Lies(Span(ts, 0, |ts|), HeadTokens(q) + (TargetTokens(q) + rest));
    LiesApart(Span(ts, 0, |ts|), HeadTokens(q), TargetTokens(q) + rest);
    LiesApart(Span(ts, n, |ts|), TargetTokens(q), rest);
    HeadArgues(ts, q);
    TargetTargets(ts, n, q, full);
    ClausesEnd(ts, n + |TargetTokens(q)|, q, full);
    ParsesIff(ts, q);
  }
}
