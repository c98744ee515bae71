/** The query parser: recursive descent over tokens (crates/e5r-api/src/query.rs). */
module Query {
  import opened Ordered
  import opened QueryLex

  // ------------------------------------------------------------------- queries

  datatype Entity = Functions | Strings | Symbols | Imports | Exports | Sections | Xrefs | Calls | Values

  datatype Want = Bounded | Constant | Unconstrained | Unknown

  datatype Fact =
    | Argument(index: nat, want: Want)
    | Indirect(yes: bool)
    | Reads(every: bool, callee: string)

  datatype Value = Num(n: nat) | Str(t: string) | Flag(b: bool)

  datatype Expr =
    | And(left: Expr, right: Expr)
    | Or(left: Expr, right: Expr)
    | Not(inner: Expr)
    | IsFact(fact: Fact)
    | Compare(field: string, op: Op, value: Value)

  datatype Query = Query(entity: Entity, filter: Option<Expr>, limit: Option<nat>, target: Option<string>,
                         argument: Option<nat>)

  function EntityWord(e: Entity): string {
    match e
    case Functions => "functions" case Strings => "strings" case Symbols => "symbols" case Imports => "imports"
    case Exports => "exports" case Sections => "sections" case Xrefs => "xrefs" case Calls => "calls" case Values => "values"
  }

  function EntityFrom(w: string): Option<Entity> {
    if w == "functions" || w == "funcs" then Some(Functions)
    else if w == "strings" then Some(Strings)
    else if w == "symbols" || w == "syms" then Some(Symbols)
    else if w == "imports" then Some(Imports)
    else if w == "exports" then Some(Exports)
    else if w == "sections" then Some(Sections)
    else if w == "xrefs" then Some(Xrefs)
    else if w == "calls" then Some(Calls)
    else if w == "values" then Some(Values)
    else None
  }

  function WantWord(w: Want): string {
    match w case Bounded => "bounded" case Constant => "constant" case Unconstrained => "unconstrained" case Unknown => "unknown"
  }

  function WantFrom(w: string): Option<Want> {
    if w == "bounded" then Some(Bounded)
    else if w == "constant" then Some(Constant)
    else if w == "unconstrained" then Some(Unconstrained)
    else if w == "unknown" then Some(Unknown)
    else None
  }

  /** The argument a word like `arg3` names, counting from zero. */
  function ArgumentIndex(w: string): (r: Option<nat>)
    ensures r.Some? ==> r.value < 64
  {
    if !StartsWith(w, "arg") then None else
    var n :- ParseUnsigned(w[3..], 10);
    if 1 <= n <= 64 then Some(n - 1) else None
  }

  function ArgumentWord(index: nat): string {
    "arg" + Decimal(index + 1)
  }

  // ----------------------------------------------------- the grammar on positions

  /** A parse gives a value and the place after it, or fails. */
  type Parsed<T> = Option<(T, nat)>

  predicate WordAt(ts: seq<Token>, at: nat, w: string) {
    at < |ts| && ts[at] == Word(w)
  }

  function WordIn(ts: seq<Token>, at: nat): Option<string> {
    if at < |ts| && ts[at].Word? then Some(ts[at].w) else None
  }

  function Name(ts: seq<Token>, at: nat): (r: Parsed<string>)
    ensures r.Some? ==> at < r.value.1 <= |ts|
  {
    if at >= |ts| then None else
    match ts[at]
    case Text(t) => Some((t, at + 1))
    case Word(w) => Some((w, at + 1))
    case _ => None
  }

  function Expect(ts: seq<Token>, at: nat, w: string): Option<nat> {
    if WordAt(ts, at, w) then Some(at + 1) else None
  }

  function Reaching(ts: seq<Token>, at: nat): (r: Parsed<nat>)
    ensures r.Some? ==> at < r.value.1 <= |ts|
  {
    var k :- Expect(ts, at, "reaching");
    var w :- WordIn(ts, k);
    var index :- ArgumentIndex(w);
    var o :- Expect(ts, k + 1, "of");
    var c :- Expect(ts, o, "calls");
    Some((index, c))
  }

  /** What follows `reads`. */
  function ReadsClause(ts: seq<Token>, at: nat): Parsed<Expr> {
    var w :- WordIn(ts, at);
    if w != "any" && w != "every" then None
    else if !WordAt(ts, at + 1, "argument") && !WordAt(ts, at + 1, "arguments") then None
    else
      var o :- Expect(ts, at + 2, "of");
      var c := if WordAt(ts, o, "a") then o + 1 else o;
      if !WordAt(ts, c, "call") && !WordAt(ts, c, "calls") then None
      else
        var to :- Expect(ts, c + 1, "to");
        var callee :- Name(ts, to);
        Some((IsFact(Reads(w == "every", callee.0)), callee.1))
  }

  function Negate(negated: bool, f: Fact): Expr {
    if negated then Not(IsFact(f)) else IsFact(f)
  }

  /** What follows `target is` or `argN is`. */
  function IsClause(ts: seq<Token>, at: nat, head: string): Parsed<Expr> {
    var negated := WordAt(ts, at, "not");
    var k := if negated then at + 1 else at;
    var w :- WordIn(ts, k);
    if head == "target" then
      if w == "indirect" then Some((Negate(negated, Indirect(true)), k + 1))
      else if w == "direct" then Some((Negate(negated, Indirect(false)), k + 1))
      else None
    else
      var index :- ArgumentIndex(head);
      var want :- WantFrom(w);
      Some((Negate(negated, Argument(index, want)), k + 1))
  }

  /** A dataflow question starts here. */
  predicate FactStarts(ts: seq<Token>, at: nat) {
    match WordIn(ts, at)
    case None => false
    case Some(head) =>
      (head == "reads" || (WordAt(ts, at + 1, "is") && (head == "target" || ArgumentIndex(head).Some?)))
  }

  function FactClause(ts: seq<Token>, at: nat): Parsed<Expr>
    requires FactStarts(ts, at)
  {
    var head := ts[at].w;
    if head == "reads" then ReadsClause(ts, at + 1) else IsClause(ts, at + 2, head)
  }

  function ValueOf(t: Token): Option<Value> {
    match t
    case Number(n) => Some(Num(n))
    case Text(s) => Some(Str(s))
    case Word(w) => Some(if w == "true" then Flag(true) else if w == "false" then Flag(false) else Str(w))
    case _ => None
  }

  function Comparison(ts: seq<Token>, at: nat): Parsed<Expr> {
    var field :- WordIn(ts, at);
    if at + 2 >= |ts| || !ts[at + 1].Operator? then None
    else
      var value :- ValueOf(ts[at + 2]);
      Some((Compare(field, ts[at + 1].op, value), at + 3))
  }

  /** Conjunctions joined by `or`, to the left. */
  function Expression(ts: seq<Token>, at: nat): (r: Parsed<Expr>)
    requires at <= |ts|
    ensures r.Some? ==> at < r.value.1 <= |ts|
    decreases |ts| - at, 3
  {
    var left :- Conjunction(ts, at);
    OrMore(ts, left.1, left.0)
  }

  function OrMore(ts: seq<Token>, at: nat, left: Expr): (r: Parsed<Expr>)
    requires at <= |ts|
    ensures r.Some? ==> at <= r.value.1 <= |ts|
    decreases |ts| - at, 0
  {
    if !WordAt(ts, at, "or") then Some((left, at))
    else if at + 1 >= |ts| then None
    else
      var right :- Conjunction(ts, at + 1);
      OrMore(ts, right.1, Or(left, right.0))
  }

  /** Conditions joined by `and`, to the left. */
  function Conjunction(ts: seq<Token>, at: nat): (r: Parsed<Expr>)
    requires at <= |ts|
    ensures r.Some? ==> at < r.value.1 <= |ts|
    decreases |ts| - at, 2
  {
    var left :- Unary(ts, at);
    AndMore(ts, left.1, left.0)
  }

  function AndMore(ts: seq<Token>, at: nat, left: Expr): (r: Parsed<Expr>)
    requires at <= |ts|
    ensures r.Some? ==> at <= r.value.1 <= |ts|
    decreases |ts| - at, 0
  {
    if !WordAt(ts, at, "and") then Some((left, at))
    else if at + 1 >= |ts| then None
    else
      var right :- Unary(ts, at + 1);
      AndMore(ts, right.1, And(left, right.0))
  }

  function Unary(ts: seq<Token>, at: nat): (r: Parsed<Expr>)
    requires at <= |ts|
    ensures r.Some? ==> at < r.value.1 <= |ts|
    decreases |ts| - at, 1
  {
    if WordAt(ts, at, "not") then
      var inner :- Unary(ts, at + 1);
      Some((Not(inner.0), inner.1))
    else if at < |ts| && ts[at] == Open then
      var inner :- Expression(ts, at + 1);
      if inner.1 < |ts| && ts[inner.1] == Close then Some((inner.0, inner.1 + 1)) else None
    else if FactStarts(ts, at) then FactClause(ts, at)
    else Comparison(ts, at)
  }

  /** The `where` and `limit` clauses; the last of each counts. */
  function Clauses(ts: seq<Token>, at: nat, filter: Option<Expr>, limit: Option<nat>): Option<(Option<Expr>, Option<nat>)>
    requires at <= |ts|
    decreases |ts| - at
  {
    if at == |ts| then Some((filter, limit))
    else if WordAt(ts, at, "where") then
      if at + 1 >= |ts| then None
      else
        var e :- Expression(ts, at + 1);
        Clauses(ts, e.1, Some(e.0), limit)
    else if WordAt(ts, at, "limit") && at + 1 < |ts| && ts[at + 1].Number? then
      Clauses(ts, at + 2, filter, Some(ts[at + 1].n))
    else None
  }

  function ReachingIf(ts: seq<Token>, at: nat, entity: Entity): (r: Parsed<Option<nat>>)
    requires at <= |ts|
    ensures r.Some? ==> at <= r.value.1 <= |ts|
  {
    if !entity.Values? then Some((None, at))
    else
      var index :- Reaching(ts, at);
      Some((Some(index.0), index.1))
  }

  function TargetIf(ts: seq<Token>, at: nat, entity: Entity): (r: Parsed<Option<string>>)
    requires at <= |ts|
    ensures r.Some? ==> at <= r.value.1 <= |ts|
  {
    if !(entity.Calls? || entity.Values?) || !WordAt(ts, at, "to") then Some((None, at))
    else
      var name :- Name(ts, at + 1);
      Some((Some(name.0), name.1))
  }

  function ParseTokens(ts: seq<Token>): Option<Query> {
    var word :- WordIn(ts, 0);
    var entity :- EntityFrom(word);
    var argument :- ReachingIf(ts, 1, entity);
    var target :- TargetIf(ts, argument.1, entity);
    var clauses :- Clauses(ts, target.1, None, None);
    Some(Query(entity, clauses.0, clauses.1, target.0, argument.0))
  }

  /** A query's text, lexed and parsed. */
  function ParseText(u: Classes, text: string): Option<Query> {
    var ts :- LexFrom(u, text, 0);
    ParseTokens(ts)
  }

  // ---------------------------------------------------------------- the parser

  /** The parser's answer and position are what the grammar says. */
  predicate Did<T(==)>(r: Option<T>, now: nat, parsed: Parsed<T>) {
    match parsed
    case None => r == None
    case Some(p) => r == Some(p.0) && now == p.1
  }

  class Parser {
    const tokens: seq<Token>
    var at: nat

    ghost predicate Valid()
      reads this
    {
      at <= |tokens|
    }

    constructor (tokens: seq<Token>)
      ensures Valid() && this.tokens == tokens && at == 0
    {
      this.tokens, at := tokens, 0;
    }

    method Next() returns (t: Option<Token>)
      requires Valid()
      modifies this
      ensures Valid()
      ensures if old(at) < |tokens| then t == Some(tokens[old(at)]) && at == old(at) + 1 else t == None && at == old(at)
    {
      if at < |tokens| {
        t := Some(tokens[at]);
        at := at + 1;
      } else {
        t := None;
      }
    }

    /** The next token is this word. */
    predicate Sees(w: string)
      reads this
    {
      WordAt(tokens, at, w)
    }

    method NextWord() returns (w: Option<string>)
      requires Valid()
      modifies this
      ensures Valid() && w == WordIn(tokens, old(at)) && (w.Some? ==> at == old(at) + 1)
    {
      var t := Next();
      return if t.Some? && t.value.Word? then Some(t.value.w) else None;
    }

    method TakeName() returns (r: Option<string>)
      requires Valid()
      modifies this
      ensures Valid() && Did(r, at, Name(tokens, old(at)))
    {
      var t := Next();
      match t {
        case Some(Text(s)) => return Some(s);
        case Some(Word(w)) => return Some(w);
        case _ => return None;
      }
    }

    method TakeWord(w: string) returns (ok: bool)
      requires Valid()
      modifies this
      ensures Valid() && ok == WordAt(tokens, old(at), w) && (ok ==> at == old(at) + 1)
    {
      var t := Next();
      return t == Some(Word(w));
    }

    method TakeReaching() returns (r: Option<nat>)
      requires Valid()
      modifies this
      ensures Valid() && Did(r, at, Reaching(tokens, old(at)))
    {
      var ok := TakeWord("reaching");
      if !ok {
        return None;
      }
      var w :- NextWord();
      var index :- ArgumentIndex(w);
      ok := TakeWord("of");
      if !ok {
        return None;
      }
      ok := TakeWord("calls");
      return if ok then Some(index) else None;
    }

    method TakeReads() returns (r: Option<Expr>)
      requires Valid()
      modifies this
      ensures Valid() && Did(r, at, ReadsClause(tokens, old(at)))
    {
      var w :- NextWord();
      if w != "any" && w != "every" {
        return None;
      }
      var t := Next();
      if t != Some(Word("argument")) && t != Some(Word("arguments")) {
        return None;
      }
      var ok := TakeWord("of");
      if !ok {
        return None;
      }
      if Sees("a") {
        at := at + 1;
      }
      t := Next();
      if t != Some(Word("call")) && t != Some(Word("calls")) {
        return None;
      }
      ok := TakeWord("to");
      if !ok {
        return None;
      }
      var callee :- TakeName();
      return Some(IsFact(Reads(w == "every", callee)));
    }

    method TakeIs(head: string) returns (r: Option<Expr>)
      requires Valid()
      modifies this
      ensures Valid() && Did(r, at, IsClause(tokens, old(at), head))
    {
      var negated := Sees("not");
      if negated {
        at := at + 1;
      }
      var w :- NextWord();
      if head == "target" {
        if w == "indirect" {
          return Some(Negate(negated, Indirect(true)));
        } else if w == "direct" {
          return Some(Negate(negated, Indirect(false)));
        }
        return None;
      }
      var index :- ArgumentIndex(head);
      var want :- WantFrom(w);
      return Some(Negate(negated, Argument(index, want)));
    }

    method TakeFact() returns (r: Option<Expr>)
      requires Valid() && FactStarts(tokens, at)
      modifies this
      ensures Valid() && Did(r, at, FactClause(tokens, old(at)))
    {
      var head := tokens[at].w;
      if head == "reads" {
        at := at + 1;
        r := TakeReads();
      } else {
        at := at + 2;
        r := TakeIs(head);
      }
    }

    method TakeComparison() returns (r: Option<Expr>)
      requires Valid()
      modifies this
      ensures Valid() && Did(r, at, Comparison(tokens, old(at)))
    {
      var field :- NextWord();
      var op := Next();
      if op.None? || !op.value.Operator? {
        return None;
      }
      var t := Next();
      if t.None? {
        return None;
      }
      var value :- ValueOf(t.value);
      return Some(Compare(field, op.value.op, value));
    }

    method TakeExpression() returns (r: Option<Expr>)
      requires Valid()
      modifies this
      ensures Valid() && Did(r, at, Expression(tokens, old(at)))
      decreases |tokens| - at, 3
    {
      var left :- TakeConjunction();
      while Sees("or")
        invariant Valid() && old(at) < at && Expression(tokens, old(at)) == OrMore(tokens, at, left)
        decreases |tokens| - at
      {
        at := at + 1;
        if at == |tokens| {
          return None;
        }
        var right :- TakeConjunction();
        left := Or(left, right);
      }
      return Some(left);
    }

    method TakeConjunction() returns (r: Option<Expr>)
      requires Valid()
      modifies this
      ensures Valid() && Did(r, at, Conjunction(tokens, old(at)))
      decreases |tokens| - at, 2
    {
      var left :- TakeUnary();
      while Sees("and")
        invariant Valid() && old(at) < at && Conjunction(tokens, old(at)) == AndMore(tokens, at, left)
        decreases |tokens| - at
      {
        at := at + 1;
        if at == |tokens| {
          return None;
        }
        var right :- TakeUnary();
        left := And(left, right);
      }
      return Some(left);
    }

    method TakeUnary() returns (r: Option<Expr>)
      requires Valid()
      modifies this
      ensures Valid() && Did(r, at, Unary(tokens, old(at)))
      decreases |tokens| - at, 1
    {
      if Sees("not") {
        at := at + 1;
        var inner :- TakeUnary();
        return Some(Not(inner));
      }
      if at < |tokens| && tokens[at] == Open {
        at := at + 1;
        var inner :- TakeExpression();
        var t := Next();
        return if t == Some(Close) then Some(inner) else None;
      }
      if FactStarts(tokens, at) {
        r := TakeFact();
      } else {
        r := TakeComparison();
      }
    }

    method TakeClauses() returns (r: Option<(Option<Expr>, Option<nat>)>)
      requires Valid()
      modifies this
      ensures r == Clauses(tokens, old(at), None, None)
    {
      var filter: Option<Expr>, limit: Option<nat> := None, None;
      while at < |tokens|
        invariant Valid() && Clauses(tokens, old(at), None, None) == Clauses(tokens, at, filter, limit)
        decreases |tokens| - at
      {
        var t := Next();
        if t == Some(Word("where")) {
          if at == |tokens| {
            return None;
          }
          var e :- TakeExpression();
          filter := Some(e);
        } else if t == Some(Word("limit")) {
          var n := Next();
          if n.None? || !n.value.Number? {
            return None;
          }
          limit := Some(n.value.n);
        } else {
          return None;
        }
      }
      return Some((filter, limit));
    }
  }

  /** Parse a query without running it. */
  method Parse(u: Classes, text: string) returns (r: Option<Query>)
    ensures r == ParseText(u, text)
  {
    var ts :- Lex(u, text);
    var parser := new Parser(ts);
    var word :- parser.NextWord();
    var entity :- EntityFrom(word);
    var argument: Option<nat> := None;
    if entity.Values? {
      var index :- parser.TakeReaching();
      argument := Some(index);
    }
    var target: Option<string> := None;
    if (entity.Calls? || entity.Values?) && parser.Sees("to") {
      parser.at := parser.at + 1;
      var name :- parser.TakeName();
      target := Some(name);
    }
    var clauses :- parser.TakeClauses();
    return Some(Query(entity, clauses.0, clauses.1, target, argument));
  }
}
