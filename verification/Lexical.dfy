/** What the spellings of tokens are, told without the lexer, and that the lexer
    reads exactly those (crates/e5r-api/src/query.rs). */
module Lexical {
  import opened Ordered
  import opened QueryLex

  // ------------------------------------------------------------------ numbers

  function Power(radix: nat, n: nat): nat {
    if n == 0 then 1 else radix * Power(radix, n - 1)
  }

  /** The character is the digit of this value. */
  predicate IsDigit(c: char, v: nat) {
    v < 16 && ("0123456789abcdef"[v] == c || "0123456789ABCDEF"[v] == c)
  }

  /** The digits, most significant first, denote the number. */
  ghost predicate Denotes(d: string, radix: nat, n: nat) {
    if d == "" then n == 0
    else exists v: nat, m: nat :: v < radix && IsDigit(d[0], v) && Denotes(d[1..], radix, m) && n == v * Power(radix, |d| - 1) + m
  }

  lemma DigitIff(c: char, v: nat)
    ensures DigitValue(c) == Some(v) <==> IsDigit(c, v)
  {
  }

  function Shifted(m: nat, radix: nat, w: nat): nat {
    m * radix + w
  }

  /** Shifting a number shifts its leading digit's place and what follows it. */
  lemma ShiftLead(v: nat, p: nat, m: nat, n: nat, radix: nat, w: nat)
    requires n == v * p + m
    ensures Shifted(n, radix, w) == v * (radix * p) + Shifted(m, radix, w)
  {
    assert (v * p + m) * radix == v * (radix * p) + m * radix;
  }

  lemma DenotesBy(d: string, radix: nat, v: nat, m: nat, n: nat)
    requires d != "" && v < radix && IsDigit(d[0], v) && Denotes(d[1..], radix, m) && n == v * Power(radix, |d| - 1) + m
    ensures Denotes(d, radix, n)
  {
  }

  lemma DenotesFrom(d: string, radix: nat, n: nat) returns (v: nat, m: nat)
    requires d != "" && Denotes(d, radix, n)
    ensures v < radix && IsDigit(d[0], v) && Denotes(d[1..], radix, m) && n == v * Power(radix, |d| - 1) + m
  {
    v, m :| v < radix && IsDigit(d[0], v) && Denotes(d[1..], radix, m) && n == v * Power(radix, |d| - 1) + m;
  }

  lemma OneDenotes(c: char, radix: nat, w: nat)
    requires w < radix && IsDigit(c, w)
    ensures Denotes([c], radix, w)
  {
    assert [c][1..] == "" && Denotes("", radix, 0) && Power(radix, 0) == 1;
    DenotesBy([c], radix, w, 0, w);
  }

  /** One more digit at the end multiplies what came before by the radix. */
  lemma {:induction false} DenotesMore(d: string, radix: nat, n: nat, c: char, w: nat)
    requires Denotes(d, radix, n) && w < radix && IsDigit(c, w)
    ensures Denotes(d + [c], radix, Shifted(n, radix, w))
    decreases |d|
  {
    if d == "" {
      assert d + [c] == [c];
      OneDenotes(c, radix, w);
    } else {
      var v, m := DenotesFrom(d, radix, n);
      DenotesMore(d[1..], radix, m, c, w);
      assert (d + [c])[1..] == d[1..] + [c];
      LeadMore(d, radix, v, m, n, c, w);
    }
  }

  lemma LeadMore(d: string, radix: nat, v: nat, m: nat, n: nat, c: char, w: nat)
    requires d != "" && v < radix && IsDigit(d[0], v) && n == v * Power(radix, |d| - 1) + m
    requires Denotes((d + [c])[1..], radix, Shifted(m, radix, w))
    ensures Denotes(d + [c], radix, Shifted(n, radix, w))
  {
    ShiftLead(v, Power(radix, |d| - 1), m, n, radix, w);
    DenotesBy(d + [c], radix, v, Shifted(m, radix, w), Shifted(n, radix, w));
  }

  /** And the last digit can be taken off again. */
  lemma {:induction false} DenotesLess(d: string, radix: nat, n: nat) returns (m: nat, w: nat)
    requires d != "" && Denotes(d, radix, n)
    ensures w < radix && IsDigit(d[|d| - 1], w) && Denotes(d[..|d| - 1], radix, m) && n == Shifted(m, radix, w)
    decreases |d|
  {
    var v, r := DenotesFrom(d, radix, n);
    if |d| == 1 {
      m, w := 0, v;
      LastDigit(d, radix, v, r, n);
    } else {
      var k;
      k, w := DenotesLess(d[1..], radix, r);
      Middle(d, |d| - 1);
      m := LeadLess(d, radix, v, r, n, k, w);
    }
  }

  lemma LastDigit(d: string, radix: nat, v: nat, r: nat, n: nat)
    requires |d| == 1 && Denotes(d[1..], radix, r) && n == v * Power(radix, |d| - 1) + r
    ensures n == Shifted(0, radix, v) && Denotes(d[..|d| - 1], radix, 0)
  {
    assert d[1..] == "" && d[..0] == "" && Power(radix, 0) == 1;
  }

  lemma Middle(d: string, n: nat)
    requires |d| == n + 1 && n >= 1
    ensures d[1..][..|d[1..]| - 1] == d[..|d| - 1][1..] && d[1..][|d[1..]| - 1] == d[|d| - 1]
  {
  }

  lemma LeadLess(d: string, radix: nat, v: nat, r: nat, n: nat, k: nat, w: nat) returns (m: nat)
    requires |d| > 1 && v < radix && IsDigit(d[0], v) && n == v * Power(radix, |d| - 1) + r && r == Shifted(k, radix, w)
    requires Denotes(d[..|d| - 1][1..], radix, k)
    ensures Denotes(d[..|d| - 1], radix, m) && n == Shifted(m, radix, w)
  {
    var p := Power(radix, |d| - 2);
    m := Placed(v, p, k);
    ShiftLead(v, p, k, m, radix, w);
    DenotesBy(d[..|d| - 1], radix, v, k, m);
  }

  function Placed(v: nat, p: nat, k: nat): nat {
    v * p + k
  }

  /** The reader of digits gives what they denote. */
  lemma {:induction false} DigitsIff(d: string, radix: nat, n: nat)
    ensures DigitsValue(d, radix) == Some(n) <==> Denotes(d, radix, n)
    decreases |d|
  {
    if d != "" {
      var less, c := d[..|d| - 1], d[|d| - 1];
      assert d == less + [c];
      if DigitsValue(d, radix) == Some(n) {
        var m, w := DigitsValue(less, radix).value, DigitValue(c).value;
        DigitsIff(less, radix, m);
        DigitIff(c, w);
        DenotesMore(less, radix, m, c, w);
        assert Shifted(m, radix, w) == n;
      }
      if Denotes(d, radix, n) {
        var m, w := DenotesLess(d, radix, n);
        DigitsIff(less, radix, m);
        DigitIff(c, w);
        assert Shifted(m, radix, w) == n;
      }
    }
  }

  /** An unsigned number that fits in 64 bits: digits, perhaps after a plus sign. */
  ghost predicate Unsigned(s: string, radix: nat, n: nat) {
    n < U64 && exists d :: d != "" && (s == d || s == "+" + d) && Denotes(d, radix, n)
  }

  lemma UnsignedIff(s: string, radix: nat, n: nat)
    ensures ParseUnsigned(s, radix) == Some(n) <==> Unsigned(s, radix, n)
  {
    var digits := if |s| > 1 && s[0] == '+' then s[1..] else s;
    assert |s| > 1 && s[0] == '+' ==> s == "+" + digits;
    DigitsIff(digits, radix, n);
    if d :| d != "" && (s == d || s == "+" + d) && Denotes(d, radix, n) {
      NoPlus(d, radix, n);
      assert s == "+" + d ==> s[1..] == d;
    }
  }

  lemma NoPlus(d: string, radix: nat, n: nat)
    requires d != "" && Denotes(d, radix, n)
    ensures d[0] != '+'
  {
    var v, m := DenotesFrom(d, radix, n);
  }

  /** The text with every such character left out. */
  function Without(s: string, c: char): string {
    if s == "" then "" else Without(s[..|s| - 1], c) + if s[|s| - 1] == c then "" else [s[|s| - 1]]
  }

  lemma {:induction false} DropIs(s: string, c: char)
    ensures Drop(s, c) == Without(s, c)
    decreases |s|
  {
    if s != "" {
      DropIs(s[1..], c);
      WithoutFirst(s, c);
    }
  }

  lemma {:induction false} WithoutFirst(s: string, c: char)
    requires s != ""
    ensures Without(s, c) == (if s[0] == c then "" else [s[0]]) + Without(s[1..], c)
    decreases |s|
  {
    var less := s[..|s| - 1];
    if less == "" {
      assert s[1..] == "";
    } else {
      WithoutFirst(less, c);
      assert s[1..][..|s| - 2] == less[1..] && s[1..][|s| - 2] == s[|s| - 1];
    }
  }

  /** A number's spelling: underscores mean nothing, and `0x` makes it hexadecimal. */
  ghost predicate NumberIs(s: string, n: nat) {
    var plain := Without(s, '_');
    if |plain| >= 2 && plain[0] == '0' && plain[1] == 'x' then Unsigned(plain[2..], 16, n) else Unsigned(plain, 10, n)
  }

  lemma NumberIff(s: string, n: nat)
    ensures NumberValue(s) == Some(n) <==> NumberIs(s, n)
  {
    DropIs(s, '_');
    HexPrefix(Without(s, '_'));
    UnsignedIff(Without(s, '_'), 10, n);
    if StartsWith(Without(s, '_'), "0x") {
      UnsignedIff(Without(s, '_')[2..], 16, n);
    }
  }

  lemma HexPrefix(s: string)
    ensures StartsWith(s, "0x") <==> |s| >= 2 && s[0] == '0' && s[1] == 'x'
  {
    if |s| >= 2 {
      assert s[..2] == [s[0], s[1]];
      assert StartsWith(s, "0x") <==> s[..2] == "0x";
    }
  }

  // ------------------------------------------------------------------ tokens

  /** How an operator is written. */
  ghost predicate OpSpelt(s: string, op: Op) {
    match op
    case Eq => s == "=" || s == "=="
    case Ne => s == "!="
    case Lt => s == "<"
    case Le => s == "<="
    case Gt => s == ">"
    case Ge => s == ">="
    case Contains => s == "~" || s == "=~"
    case Omits => s == "!~"
  }

  /** The text from `i` up to `k` spells the token, and what follows does not belong
      to it. */
  ghost predicate PieceAt(u: Classes, s: string, i: nat, k: nat, t: Token) {
    i < k <= |s| &&
    match t
    case Word(w) =>
      w == s[i..k] && !Digit(s[i]) && (forall m :: i <= m < k ==> u.WordChar(s[m])) && (k < |s| ==> !u.WordChar(s[k]))
    case Text(x) =>
      k >= i + 2 && IsQuote(s[i]) && s[k - 1] == s[i] && x == s[i + 1..k - 1] &&
      forall m :: i < m < k - 1 ==> s[m] != s[i]
    case Number(n) =>
      NumberIs(s[i..k], n) && Digit(s[i]) && (forall m :: i <= m < k ==> NumberChar(s[m])) && (k < |s| ==> !NumberChar(s[k]))
    case Operator(op) => OpSpelt(s[i..k], op) && (k == i + 1 < |s| ==> forall longer :: !OpSpelt([s[i], s[k]], longer))
    case Open => k == i + 1 && s[i] == '('
    case Close => k == i + 1 && s[i] == ')'
  }

  /** From `i` on the text is these tokens, with white space anywhere between them. */
  ghost predicate Lexed(u: Classes, s: string, i: nat, ts: seq<Token>)
    decreases |s| - i
  {
    if i >= |s| then i == |s| && ts == []
    else if u.white(s[i]) then Lexed(u, s, i + 1, ts)
    else ts != [] && exists k :: PieceAt(u, s, i, k, ts[0]) && Lexed(u, s, k, ts[1..])
  }

  /** One more character of a run of them. */
  lemma ScanIff(s: string, i: nat, p: char -> bool, k: nat)
    requires i <= k <= |s|
    ensures Scan(s, i, p) == k <==> (forall m :: i <= m < k ==> p(s[m])) && (k < |s| ==> !p(s[k]))
  {
    if (forall m :: i <= m < k ==> p(s[m])) && (k < |s| ==> !p(s[k])) {
      ScanStops(s, i, p, k);
    }
  }

  /** The lexer's step at a character that is not white space cuts off exactly the
      piece that is there. */
  lemma StepIff(u: Classes, s: string, i: nat, k: nat, t: Token)
    requires u.Valid() && i < |s| && !u.white(s[i])
    ensures StepAt(u, s, i) == Piece(t, k) <==> PieceAt(u, s, i, k, t)
  {
    var c := s[i];
    if IsBracket(c) {
      BracketIff(u, s, i, k, t);
    } else if IsQuote(c) {
      TextIff(u, s, i, k, t);
    } else if IsOpChar(c) {
      OperatorIff(u, s, i, k, t);
    } else if Digit(c) {
      NumberPieceIff(u, s, i, k, t);
    } else {
      WordIff(u, s, i, k, t);
    }
  }

  predicate IsQuote(c: char) {
    c == '"' || c == '\''
  }

  predicate IsBracket(c: char) {
    c == '(' || c == ')'
  }

  /** A piece's first character says what kind of token it is. */
  lemma FirstChar(u: Classes, s: string, i: nat, k: nat, t: Token)
    requires u.Valid() && PieceAt(u, s, i, k, t)
    ensures t.Open? || t.Close? <==> IsBracket(s[i])
    ensures t.Text? <==> IsQuote(s[i])
    ensures t.Operator? <==> IsOpChar(s[i])
    ensures t.Number? <==> Digit(s[i])
  {
    if t.Operator? {
      assert s[i..k][0] == s[i];
    }
    if t.Word? {
      assert u.WordChar(s[i]);
    }
  }

  lemma BracketIff(u: Classes, s: string, i: nat, k: nat, t: Token)
    requires u.Valid() && i < |s| && !u.white(s[i]) && IsBracket(s[i])
    ensures StepAt(u, s, i) == Piece(t, k) <==> PieceAt(u, s, i, k, t)
  {
    if PieceAt(u, s, i, k, t) {
      FirstChar(u, s, i, k, t);
    }
  }

  lemma TextIff(u: Classes, s: string, i: nat, k: nat, t: Token)
    requires u.Valid() && i < |s| && !u.white(s[i]) && IsQuote(s[i])
    ensures StepAt(u, s, i) == Piece(t, k) <==> PieceAt(u, s, i, k, t)
  {
    var c := s[i];
    var j := Scan(s, i + 1, x => x != c);
    if PieceAt(u, s, i, k, t) {
      FirstChar(u, s, i, k, t);
      ScanIff(s, i + 1, x => x != c, k - 1);
    }
  }

  lemma NumberPieceIff(u: Classes, s: string, i: nat, k: nat, t: Token)
    requires u.Valid() && i < |s| && !u.white(s[i]) && Digit(s[i])
    ensures StepAt(u, s, i) == Piece(t, k) <==> PieceAt(u, s, i, k, t)
  {
    if StepAt(u, s, i) == Piece(t, k) {
      NumberIff(s[i..k], t.n);
    }
    if PieceAt(u, s, i, k, t) {
      FirstChar(u, s, i, k, t);
      ScanIff(s, i, NumberChar, k);
      NumberIff(s[i..k], t.n);
    }
  }

  lemma WordIff(u: Classes, s: string, i: nat, k: nat, t: Token)
    requires u.Valid() && i < |s| && !u.white(s[i])
    requires !IsBracket(s[i]) && !IsQuote(s[i]) && !IsOpChar(s[i]) && !Digit(s[i])
    ensures StepAt(u, s, i) == Piece(t, k) <==> PieceAt(u, s, i, k, t)
  {
    if PieceAt(u, s, i, k, t) {
      FirstChar(u, s, i, k, t);
      ScanIff(s, i, c => u.WordChar(c), k);
    }
  }

  /** A one-character operator, and what the next character makes of it. */
  lemma OperatorIff(u: Classes, s: string, i: nat, k: nat, t: Token)
    requires u.Valid() && i < |s| && !u.white(s[i]) && IsOpChar(s[i])
    ensures StepAt(u, s, i) == Piece(t, k) <==> PieceAt(u, s, i, k, t)
  {
    if i + 1 < |s| {
      assert s[i..i + 2] == [s[i], s[i + 1]];
      PairIff(s[i], s[i + 1]);
    }
    assert s[i..i + 1] == [s[i]];
    if PieceAt(u, s, i, k, t) {
      FirstChar(u, s, i, k, t);
      assert |s[i..k]| == k - i;
    }
  }

  /** The operators of two characters. */
  lemma PairIff(c: char, next: char)
    requires IsOpChar(c)
    ensures forall op :: OpSpelt([c, next], op) <==> OperatorAt(c, Some(next)) == Some((op, 2))
    ensures OperatorAt(c, Some(next)).Some? && OperatorAt(c, Some(next)).value.1 == 1 ==>
      OperatorAt(c, Some(next)) == OperatorAt(c, None)
  {
    forall op ensures OpSpelt([c, next], op) <==> OperatorAt(c, Some(next)) == Some((op, 2)) {
      IsPair(c, next, "==");
      IsPair(c, next, "=~");
      IsPair(c, next, "!=");
      IsPair(c, next, "!~");
      IsPair(c, next, "<=");
      IsPair(c, next, ">=");
    }
  }

  lemma IsPair(c: char, next: char, s: string)
    requires |s| == 2
    ensures [c, next] == s <==> c == s[0] && next == s[1]
  {
  }

  // ------------------------------------------------------------------ texts

  lemma WhiteSkipped(u: Classes, s: string, i: nat, next: nat)
    requires i < |s| && u.white(s[i]) && next == i + 1
    ensures LexFrom(u, s, i) == LexFrom(u, s, next)
  {
    assert StepAt(u, s, i) == Skip(next);
  }

  /** What lexing gives from a piece on. */
  lemma PieceFirst(u: Classes, s: string, i: nat, k: nat, t: Token)
    requires i < |s| && StepAt(u, s, i) == Piece(t, k)
    ensures LexFrom(u, s, i) == Prepended([t], LexFrom(u, s, k))
  {
  }

  lemma NoPiece(u: Classes, s: string, i: nat)
    requires i < |s| && !u.white(s[i]) && LexFrom(u, s, i).Some?
    ensures StepAt(u, s, i).Piece?
  {
  }

  lemma PrependedParts(t: Token, rest: Option<seq<Token>>, ts: seq<Token>)
    ensures Prepended([t], rest) == Some(ts) <==> ts != [] && ts[0] == t && rest == Some(ts[1..])
  {
    if ts != [] {
      assert ts == [ts[0]] + ts[1..];
    }
    if rest.Some? {
      assert ([t] + rest.value)[1..] == rest.value;
    }
  }

  lemma {:induction false} LexSound(u: Classes, s: string, i: nat, ts: seq<Token>)
    requires u.Valid() && i <= |s| && LexFrom(u, s, i) == Some(ts)
    ensures Lexed(u, s, i, ts)
    decreases |s| - i
  {
    if i < |s| {
      if u.white(s[i]) {
        WhiteSkipped(u, s, i, i + 1);
        LexSound(u, s, i + 1, ts);
      } else {
        NoPiece(u, s, i);
        var t, k := StepAt(u, s, i).token, StepAt(u, s, i).next;
        PieceFirst(u, s, i, k, t);
        PrependedParts(t, LexFrom(u, s, k), ts);
        StepIff(u, s, i, k, t);
        LexSound(u, s, k, ts[1..]);
      }
    }
  }

  lemma {:induction false} LexComplete(u: Classes, s: string, i: nat, ts: seq<Token>)
    requires u.Valid() && i <= |s| && Lexed(u, s, i, ts)
    ensures LexFrom(u, s, i) == Some(ts)
    decreases |s| - i
  {
    if i < |s| {
      if u.white(s[i]) {
        WhiteSkipped(u, s, i, i + 1);
        LexComplete(u, s, i + 1, ts);
      } else {
        var k :| PieceAt(u, s, i, k, ts[0]) && Lexed(u, s, k, ts[1..]);
        StepIff(u, s, i, k, ts[0]);
        PieceFirst(u, s, i, k, ts[0]);
        LexComplete(u, s, k, ts[1..]);
        PrependedParts(ts[0], LexFrom(u, s, k), ts);
      }
    }
  }

  /** The lexer gives exactly the tokens the text spells. */
  lemma LexIff(u: Classes, s: string, ts: seq<Token>)
    requires u.Valid()
    ensures LexFrom(u, s, 0) == Some(ts) <==> Lexed(u, s, 0, ts)
  {
    if LexFrom(u, s, 0) == Some(ts) {
      LexSound(u, s, 0, ts);
    }
    if Lexed(u, s, 0, ts) {
      LexComplete(u, s, 0, ts);
    }
  }
}
