/** Queries and their texts: printing is inverse to parsing, on exactly the
    queries some text spells. */
module QueryTheorems {
  import opened Ordered
  import opened QueryLex
  import opened QueryLexTheorems
  import opened Query
  import opened QueryPrint

  /** Names and numbers an expression is written with. */
  predicate Written(u: Classes, e: Expr) {
    match e
    case And(a, b) => Written(u, a) && Written(u, b)
    case Or(a, b) => Written(u, a) && Written(u, b)
    case Not(a) => Written(u, a)
    case IsFact(f) => f.Reads? ==> Spellable(u, Text(f.callee))
    case Compare(field, _, v) => Spellable(u, Word(field)) && Spellable(u, ValueToken(v))
  }

  /** A query some text can spell: field names are words, no name holds both
      kinds of quote, and numbers fit in 64 bits. */
  predicate Expressible(u: Classes, q: Query) {
    WellFormed(q) &&
    (q.filter.Some? ==> Written(u, q.filter.value)) && (q.limit.Some? ==> q.limit.value < U64) &&
    (q.target.Some? ==> Spellable(u, Text(q.target.value)))
  }

  // ------------------------------------------------------ printing then parsing

  /** A word of letters, then digits. */
  lemma PlainWord(u: Classes, w: string)
    requires u.Valid() && w != "" && !Digit(w[0]) && forall i :: 0 <= i < |w| ==> AsciiAlnum(w[i])
    ensures Spellable(u, Word(w))
  {
    forall i | 0 <= i < |w| ensures u.WordChar(w[i]) {
      assert AsciiAlnum(w[i]) && w[i] <= 'z';
    }
  }

  lemma ArgumentSpelled(u: Classes, i: nat)
    requires u.Valid()
    ensures Spellable(u, Word(ArgumentWord(i)))
  {
    var w := ArgumentWord(i);
    forall k | 0 <= k < |w| ensures AsciiAlnum(w[k]) {
      if k >= 3 {
        assert w[k] == Decimal(i + 1)[k - 3];
      }
    }
    PlainWord(u, w);
  }

  lemma FactSpelled(u: Classes, f: Fact)
    requires u.Valid() && Written(u, IsFact(f))
    ensures forall t :: t in FactTokens(f) ==> Spellable(u, t)
  {
    match f
    case Argument(i, want) =>
      ArgumentSpelled(u, i);
      PlainWord(u, "is");
      PlainWord(u, WantWord(want));
    case Indirect(yes) =>
      PlainWord(u, "target");
      PlainWord(u, "is");
      PlainWord(u, "indirect");
      PlainWord(u, "direct");
    case Reads(every, callee) => ReadsSpelled(u, every, callee);
  }

  lemma ReadsSpelled(u: Classes, every: bool, callee: string)
    requires u.Valid() && Spellable(u, Text(callee))
    ensures forall t :: t in FactTokens(Reads(every, callee)) ==> Spellable(u, t)
  {
    PlainWord(u, "reads");
    PlainWord(u, "every");
    PlainWord(u, "any");
    PlainWord(u, "argument");
    PlainWord(u, "of");
    PlainWord(u, "a");
    PlainWord(u, "call");
    PlainWord(u, "to");
  }

  lemma {:induction false} BodySpelled(u: Classes, e: Expr, full: bool)
    requires u.Valid() && Written(u, e)
    ensures forall t :: t in Body(e, full) ==> Spellable(u, t)
  {
    match e
    case Or(a, b) =>
      BodySpelled(u, a, full);
      BodySpelled(u, b, full);
      PlainWord(u, "or");
    case And(a, b) =>
      BodySpelled(u, a, full);
      BodySpelled(u, b, full);
      PlainWord(u, "and");
    case Not(a) =>
      BodySpelled(u, a, full);
      PlainWord(u, "not");
    case IsFact(f) => FactSpelled(u, f);
    case Compare(_, _, v) =>
  }

  ghost predicate AllSpelled(u: Classes, ts: seq<Token>) {
    forall t :: t in ts ==> Spellable(u, t)
  }

  lemma HeadSpelled(u: Classes, q: Query)
    requires u.Valid()
    ensures AllSpelled(u, HeadTokens(q))
  {
    PlainWord(u, EntityWord(q.entity));
    if q.argument.Some? {
      PlainWord(u, "reaching");
      ArgumentSpelled(u, q.argument.value);
      PlainWord(u, "of");
      PlainWord(u, "calls");
    }
  }

  lemma TailSpelled(u: Classes, q: Query, full: bool)
    requires u.Valid() && Expressible(u, q)
    ensures AllSpelled(u, TargetTokens(q)) && AllSpelled(u, FilterTokens(q, full)) && AllSpelled(u, LimitTokens(q))
  {
    PlainWord(u, "to");
    PlainWord(u, "where");
    PlainWord(u, "limit");
    if q.filter.Some? {
      BodySpelled(u, q.filter.value, full);
    }
  }

  lemma SpelledJoin(u: Classes, a: seq<Token>, b: seq<Token>)
    requires AllSpelled(u, a) && AllSpelled(u, b)
    ensures AllSpelled(u, a + b)
  {
  }

  lemma QuerySpelled(u: Classes, q: Query, full: bool)
    requires u.Valid() && Expressible(u, q)
    ensures forall t :: t in QueryTokens(q, full) ==> Spellable(u, t)
  {
    HeadSpelled(u, q);
    TailSpelled(u, q, full);
    SpelledJoin(u, FilterTokens(q, full), LimitTokens(q));
    SpelledJoin(u, TargetTokens(q), FilterTokens(q, full) + LimitTokens(q));
    SpelledJoin(u, HeadTokens(q), TargetTokens(q) + (FilterTokens(q, full) + LimitTokens(q)));
  }

  /** Printing a query and parsing the text gives the query back, whether every
      compound condition is bracketed or only those that need it. */
  lemma PrintParses(u: Classes, q: Query, full: bool)
    requires u.Valid() && Expressible(u, q)
    ensures ParseText(u, Print(q, full)) == Some(q)
  {
    var ts := QueryTokens(q, full);
    QuerySpelled(u, q, full);
    LexRender(u, Print(q, full), ts);
    TokensParse(q, full);
  }

  // ------------------------------------------------------ what parsing gives

  ghost predicate Good(u: Classes, e: Expr) {
    Shaped(e) && Written(u, e)
  }

  /** A word holds no quote, so it can be quoted. */
  lemma WordIsText(u: Classes, w: string)
    requires u.Valid() && Spellable(u, Word(w))
    ensures Spellable(u, Text(w))
  {
    assert !u.WordChar('"');
  }

  lemma NameGood(u: Classes, ts: seq<Token>, at: nat)
    requires u.Valid() && forall t :: t in ts ==> Spellable(u, t)
    ensures Name(ts, at).Some? ==> Spellable(u, Text(Name(ts, at).value.0))
  {
    if at < |ts| && ts[at].Word? {
      assert Spellable(u, ts[at]);
      WordIsText(u, ts[at].w);
    }
  }

  lemma FactGood(u: Classes, ts: seq<Token>, at: nat)
    requires u.Valid() && FactStarts(ts, at) && forall t :: t in ts ==> Spellable(u, t)
    ensures FactClause(ts, at).Some? ==> Good(u, FactClause(ts, at).value.0)
  {
    if ts[at].w == "reads" && ReadsClause(ts, at + 1).Some? {
      var o := Expect(ts, at + 3, "of").value;
      var c := if WordAt(ts, o, "a") then o + 1 else o;
      NameGood(u, ts, Expect(ts, c + 1, "to").value);
    }
  }

  lemma ComparisonGood(u: Classes, ts: seq<Token>, at: nat)
    requires u.Valid() && !WordAt(ts, at, "not") && !FactStarts(ts, at) && forall t :: t in ts ==> Spellable(u, t)
    ensures Comparison(ts, at).Some? ==> Good(u, Comparison(ts, at).value.0)
  {
    if Comparison(ts, at).Some? {
      assert Spellable(u, ts[at]) && Spellable(u, ts[at + 2]);
      if ts[at + 2].Word? {
        WordIsText(u, ts[at + 2].w);
        PlainWord(u, "true");
        PlainWord(u, "false");
      }
    }
  }

  lemma {:induction false} UnaryGood(u: Classes, ts: seq<Token>, at: nat)
    requires u.Valid() && at <= |ts| && forall t :: t in ts ==> Spellable(u, t)
    ensures Unary(ts, at).Some? ==> Good(u, Unary(ts, at).value.0)
    decreases |ts| - at, 1
  {
    if WordAt(ts, at, "not") {
      UnaryGood(u, ts, at + 1);
    } else if at < |ts| && ts[at] == Open {
      ExpressionGood(u, ts, at + 1);
    } else if FactStarts(ts, at) {
      FactGood(u, ts, at);
    } else {
      ComparisonGood(u, ts, at);
    }
  }

  lemma {:induction false} AndMoreGood(u: Classes, ts: seq<Token>, at: nat, left: Expr)
    requires u.Valid() && at <= |ts| && Good(u, left) && forall t :: t in ts ==> Spellable(u, t)
    ensures AndMore(ts, at, left).Some? ==> Good(u, AndMore(ts, at, left).value.0)
    decreases |ts| - at, 0
  {
    if AndMore(ts, at, left).Some? && WordAt(ts, at, "and") {
      UnaryGood(u, ts, at + 1);
      var right := Unary(ts, at + 1).value;
      AndMoreGood(u, ts, right.1, And(left, right.0));
    }
  }

  lemma {:induction false} ConjunctionGood(u: Classes, ts: seq<Token>, at: nat)
    requires u.Valid() && at <= |ts| && forall t :: t in ts ==> Spellable(u, t)
    ensures Conjunction(ts, at).Some? ==> Good(u, Conjunction(ts, at).value.0)
    decreases |ts| - at, 2
  {
    if Conjunction(ts, at).Some? {
      UnaryGood(u, ts, at);
      var left := Unary(ts, at).value;
      AndMoreGood(u, ts, left.1, left.0);
    }
  }

  lemma {:induction false} OrMoreGood(u: Classes, ts: seq<Token>, at: nat, left: Expr)
    requires u.Valid() && at <= |ts| && Good(u, left) && forall t :: t in ts ==> Spellable(u, t)
    ensures OrMore(ts, at, left).Some? ==> Good(u, OrMore(ts, at, left).value.0)
    decreases |ts| - at, 0
  {
    if OrMore(ts, at, left).Some? && WordAt(ts, at, "or") {
      ConjunctionGood(u, ts, at + 1);
      var right := Conjunction(ts, at + 1).value;
      OrMoreGood(u, ts, right.1, Or(left, right.0));
    }
  }

  lemma {:induction false} ExpressionGood(u: Classes, ts: seq<Token>, at: nat)
    requires u.Valid() && at <= |ts| && forall t :: t in ts ==> Spellable(u, t)
    ensures Expression(ts, at).Some? ==> Good(u, Expression(ts, at).value.0)
    decreases |ts| - at, 3
  {
    if Expression(ts, at).Some? {
      ConjunctionGood(u, ts, at);
      var left := Conjunction(ts, at).value;
      OrMoreGood(u, ts, left.1, left.0);
    }
  }

  lemma {:induction false} ClausesGood(u: Classes, ts: seq<Token>, at: nat, filter: Option<Expr>, limit: Option<nat>)
    requires u.Valid() && at <= |ts| && forall t :: t in ts ==> Spellable(u, t)
    requires (filter.Some? ==> Good(u, filter.value)) && (limit.Some? ==> limit.value < U64)
    ensures var r := Clauses(ts, at, filter, limit);
      r.Some? ==> (r.value.0.Some? ==> Good(u, r.value.0.value)) && (r.value.1.Some? ==> r.value.1.value < U64)
    decreases |ts| - at
  {
    if Clauses(ts, at, filter, limit).Some? && at < |ts| {
      if WordAt(ts, at, "where") {
        ExpressionGood(u, ts, at + 1);
        var e := Expression(ts, at + 1).value;
        ClausesGood(u, ts, e.1, Some(e.0), limit);
      } else {
        assert Spellable(u, ts[at + 1]);
        ClausesGood(u, ts, at + 2, filter, Some(ts[at + 1].n));
      }
    }
  }

  /** Every query a text parses to can be printed. */
  lemma ParsedExpressible(u: Classes, text: string)
    requires u.Valid() && ParseText(u, text).Some?
    ensures Expressible(u, ParseText(u, text).value)
  {
    var ts := LexFrom(u, text, 0).value;
    LexSpellable(u, text, 0);
    var q := ParseText(u, text).value;
    var argument := ReachingIf(ts, 1, q.entity).value;
    var target := TargetIf(ts, argument.1, q.entity).value;
    NameGood(u, ts, argument.1 + 1);
    ClausesGood(u, ts, target.1, None, None);
  }

  /** The queries some text spells are exactly the expressible ones. */
  lemma SpeltIff(u: Classes, q: Query)
    requires u.Valid()
    ensures Expressible(u, q) <==> exists text :: ParseText(u, text) == Some(q)
  {
    if Expressible(u, q) {
      PrintParses(u, q, false);
    }
    if text :| ParseText(u, text) == Some(q) {
      ParsedExpressible(u, text);
    }
  }

  /** Printing what was parsed is a normal form: it parses to the same query. */
  lemma NormalForm(u: Classes, text: string, full: bool)
    requires u.Valid() && ParseText(u, text).Some?
    ensures ParseText(u, Print(ParseText(u, text).value, full)) == ParseText(u, text)
  {
    ParsedExpressible(u, text);
    PrintParses(u, ParseText(u, text).value, full);
  }

  // ----------------------------------------------------------------- grouping

  /** A condition that is neither `and` nor `or`. */
  predicate Simple(e: Expr) {
    !e.And? && !e.Or?
  }

  function Filtered(ts: seq<Token>): seq<Token> {
    [Word("functions"), Word("where")] + ts
  }

  function Plain(e: Expr): Query {
    Query(Functions, Some(e), None, None, None)
  }

  lemma Unbracketed(e: Expr)
    requires Shaped(e)
    ensures ParseTokens(Filtered(Tokens(e, 0, false))) == Some(Plain(e))
  {
    TokensParse(Plain(e), false);
    assert QueryTokens(Plain(e), false) == Filtered(Tokens(e, 0, false));
  }

  lemma OrTokens(a: Expr, b: Expr)
    ensures Tokens(Or(a, b), 0, false) == Tokens(a, 0, false) + [Word("or")] + Tokens(b, 1, false)
  {
  }

  lemma AndTokens(a: Expr, b: Expr, level: nat)
    requires level <= 1
    ensures Tokens(And(a, b), level, false) == Tokens(a, 1, false) + [Word("and")] + Tokens(b, 2, false)
  {
  }

  lemma SimpleTokens(a: Expr, level: nat)
    requires Simple(a)
    ensures Tokens(a, level, false) == Body(a, false)
  {
  }

  /** Without brackets `and` groups tighter than `or`, on either side. */
  lemma AndBindsTighter(a: Expr, b: Expr, c: Expr)
    requires Simple(a) && Simple(b) && Simple(c) && Shaped(a) && Shaped(b) && Shaped(c)
    ensures var x, y, z := Body(a, false), Body(b, false), Body(c, false);
      ParseTokens(Filtered(x + [Word("or")] + (y + [Word("and")] + z))) == Some(Plain(Or(a, And(b, c)))) &&
      ParseTokens(Filtered((x + [Word("and")] + y) + [Word("or")] + z)) == Some(Plain(Or(And(a, b), c)))
  {
    SimpleTokens(a, 0);
    SimpleTokens(a, 1);
    SimpleTokens(b, 1);
    SimpleTokens(b, 2);
    SimpleTokens(c, 1);
    SimpleTokens(c, 2);
    AndTokens(b, c, 1);
    OrTokens(a, And(b, c));
    AndTokens(a, b, 0);
    OrTokens(And(a, b), c);
    Unbracketed(Or(a, And(b, c)));
    Unbracketed(Or(And(a, b), c));
  }

  /** Without brackets a chain of either word groups to the left. */
  lemma ChainsGroupLeft(a: Expr, b: Expr, c: Expr)
    requires Simple(a) && Simple(b) && Simple(c) && Shaped(a) && Shaped(b) && Shaped(c)
    ensures var x, y, z := Body(a, false), Body(b, false), Body(c, false);
      ParseTokens(Filtered((x + [Word("or")] + y) + [Word("or")] + z)) == Some(Plain(Or(Or(a, b), c))) &&
      ParseTokens(Filtered((x + [Word("and")] + y) + [Word("and")] + z)) == Some(Plain(And(And(a, b), c)))
  {
    SimpleTokens(a, 0);
    SimpleTokens(a, 1);
    SimpleTokens(b, 1);
    SimpleTokens(b, 2);
    SimpleTokens(c, 1);
    SimpleTokens(c, 2);
    OrTokens(a, b);
    OrTokens(Or(a, b), c);
    AndTokens(a, b, 1);
    AndTokens(And(a, b), c, 0);
    Unbracketed(Or(Or(a, b), c));
    Unbracketed(And(And(a, b), c));
  }
}
