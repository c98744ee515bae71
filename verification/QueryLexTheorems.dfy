/** Tokens spelled out and cut apart again. */
module QueryLexTheorems {
  import opened Ordered
  import opened QueryLex

  /** A place in a text. */
  datatype Place = Place(u: Classes, s: string, i: nat)

  /** A token's text lies at a place, with a space after it. */
  predicate SpelledAt(p: Place, text: string) {
    match p case Place(_, s, i) => i + |text| < |s| && s[i..i + |text|] == text && s[i + |text|] == ' '
  }

  lemma SpelledChars(u: Classes, s: string, i: nat, text: string)
    requires SpelledAt(Place(u, s, i), text)
    ensures i + |text| < |s| && s[i + |text|] == ' '
    ensures forall k :: 0 <= k < |text| ==> s[i + k] == text[k]
  {
    forall k | 0 <= k < |text| ensures s[i + k] == text[k] {
      assert s[i..i + |text|][k] == text[k];
    }
  }

  lemma WordStep(u: Classes, s: string, i: nat, w: string)
    requires u.Valid() && Spellable(u, Word(w)) && SpelledAt(Place(u, s, i), w)
    ensures StepAt(u, s, i) == Piece(Word(w), i + |w|)
  {
    SpelledChars(u, s, i, w);
    assert s[i] == w[0] && u.WordChar(w[0]);
    forall k | i <= k < i + |w| ensures u.WordChar(s[k]) {
      assert s[k] == w[k - i];
    }
    ScanStops(s, i, c => u.WordChar(c), i + |w|);
  }

  /** A digit starts a number, which ends where its characters do. */
  lemma DigitStep(u: Classes, s: string, i: nat, j: nat, n: nat)
    requires u.Valid() && i < j <= |s| && Digit(s[i]) && Scan(s, i, NumberChar) == j && NumberValue(s[i..j]) == Some(n)
    ensures StepAt(u, s, i) == Piece(Number(n), j)
  {
    assert !u.white(s[i]) && !IsOpChar(s[i]);
  }

  lemma DigitsStep(u: Classes, s: string, i: nat, d: string, n: nat)
    requires u.Valid() && SpelledAt(Place(u, s, i), d) && d != "" && NumberValue(d) == Some(n)
    requires forall k :: 0 <= k < |d| ==> Digit(d[k])
    ensures StepAt(u, s, i) == Piece(Number(n), i + |d|)
  {
    SpelledChars(u, s, i, d);
    assert s[i + 0] == d[0] && Digit(d[0]);
    forall k | i <= k < i + |d| ensures NumberChar(s[k]) {
      assert s[i + (k - i)] == d[k - i];
    }
    ScanStops(s, i, NumberChar, i + |d|);
    DigitStep(u, s, i, i + |d|, n);
  }

  lemma NumberStep(u: Classes, s: string, i: nat, n: nat)
    requires u.Valid() && n < U64 && SpelledAt(Place(u, s, i), Decimal(n))
    ensures StepAt(u, s, i) == Piece(Number(n), i + |Decimal(n)|)
  {
    DecimalReads(n);
    DigitsStep(u, s, i, Decimal(n), n);
  }

  lemma TextStep(u: Classes, s: string, i: nat, t: string)
    requires u.Valid() && Spellable(u, Text(t)) && SpelledAt(Place(u, s, i), Quoted(t))
    ensures StepAt(u, s, i) == Piece(Text(t), i + |Quoted(t)|)
  {
    var text := Quoted(t);
    SpelledChars(u, s, i, text);
    var quote, j := text[0], i + |t| + 1;
    assert s[i] == quote && s[j] == text[|t| + 1] == quote;
    forall k | i + 1 <= k < j ensures s[k] != quote {
      assert s[k] == text[k - i] == t[k - i - 1];
    }
    ScanStops(s, i + 1, x => x != quote, j);
    assert s[i + 1..j] == t by {
      forall k | 0 <= k < |t| ensures s[i + 1 + k] == t[k] {
        assert s[i + 1 + k] == text[1 + k];
      }
    }
  }

  lemma OpStep(u: Classes, s: string, i: nat, op: Op)
    requires u.Valid() && SpelledAt(Place(u, s, i), OpText(op))
    ensures StepAt(u, s, i) == Piece(Operator(op), i + |OpText(op)|)
  {
    var text := OpText(op);
    SpelledChars(u, s, i, text);
    assert s[i + 0] == text[0];
    assert !u.white(s[i]);
    if |text| == 2 {
      assert s[i + 1] == text[1];
    }
  }

  lemma BracketStep(u: Classes, s: string, i: nat, text: string)
    requires u.Valid() && SpelledAt(Place(u, s, i), text) && (text == "(" || text == ")")
    ensures StepAt(u, s, i) == Piece(if text == "(" then Open else Close, i + 1)
  {
    SpelledChars(u, s, i, text);
    assert s[i + 0] == text[0];
    assert text == "(" ==> s[i] == '(';
    assert text == ")" ==> s[i] == ')';
    assert !u.white(s[i]);
  }

  lemma TokenStep(u: Classes, s: string, i: nat, t: Token)
    requires u.Valid() && Spellable(u, t) && SpelledAt(Place(u, s, i), TokenText(t))
    ensures StepAt(u, s, i) == Piece(t, i + |TokenText(t)|)
  {
    match t
    case Word(w) => WordStep(u, s, i, w);
    case Text(text) => TextStep(u, s, i, text);
    case Number(n) => NumberStep(u, s, i, n);
    case Operator(op) => OpStep(u, s, i, op);
    case Open => BracketStep(u, s, i, "(");
    case Close => BracketStep(u, s, i, ")");
  }

  /** One spelled token and its space are cut off in front of the rest. */
  lemma LexToken(u: Classes, s: string, i: nat, t: Token, text: string, next: nat)
    requires u.Valid() && i <= |s| && Spellable(u, t) && text == TokenText(t) && SpelledAt(Place(u, s, i), text)
    requires next == i + |text| + 1
    ensures next <= |s| && LexFrom(u, s, i) == Prepended([t], LexFrom(u, s, next))
  {
    var j := i + |text|;
    TokenStep(u, s, i, t);
    SpaceSkipped(u, s, j, next);
    LexPiece(u, s, i, t, j);
  }

  lemma SpaceSkipped(u: Classes, s: string, j: nat, next: nat)
    requires u.Valid() && j < |s| && s[j] == ' ' && next == j + 1
    ensures LexFrom(u, s, j) == LexFrom(u, s, next)
  {
    assert StepAt(u, s, j) == Skip(next);
  }

  lemma LexPiece(u: Classes, s: string, i: nat, t: Token, j: nat)
    requires i < j <= |s| && StepAt(u, s, i) == Piece(t, j)
    ensures LexFrom(u, s, i) == Prepended([t], LexFrom(u, s, j))
  {
  }

  /** The k-th text lies at the k-th place, and the next place is past its space. */
  predicate Sits(u: Classes, s: string, at: seq<nat>, texts: seq<string>, k: nat)
    requires |at| == |texts| + 1 && k < |texts|
  {
    at[k + 1] == at[k] + |texts[k]| + 1 && SpelledAt(Place(u, s, at[k]), texts[k])
  }

  predicate AllSit(u: Classes, s: string, at: seq<nat>, texts: seq<string>) {
    |at| == |texts| + 1 && at[|texts|] == |s| && forall k: nat :: k < |texts| ==> Sits(u, s, at, texts, k)
  }

  /** Where the texts start, and where the last ends. */
  lemma {:induction false} Places(u: Classes, s: string, i: nat, texts: seq<string>) returns (at: seq<nat>)
    requires i <= |s| && s[i..] == Spaced(texts)
    ensures AllSit(u, s, at, texts) && at[0] == i
    decreases |texts|
  {
    at := [i];
    if texts != [] {
      Cut(u, s, i, texts[0], Spaced(texts[1..]));
      var rest := Places(u, s, i + |texts[0]| + 1, texts[1..]);
      at := [i] + rest;
      OneMorePlace(u, s, at, texts);
    }
  }

  lemma OneMorePlace(u: Classes, s: string, at: seq<nat>, texts: seq<string>)
    requires texts != [] && |at| == |texts| + 1 && Sits(u, s, at, texts, 0) && AllSit(u, s, at[1..], texts[1..])
    ensures AllSit(u, s, at, texts)
  {
    forall k: nat | k < |texts| ensures Sits(u, s, at, texts, k) {
      if k > 0 {
        assert Sits(u, s, at[1..], texts[1..], k - 1);
      }
    }
  }

  /** Tokens taken off one after another, from place to place, are the whole. */
  lemma {:induction false} Peeled(lex: nat -> Option<seq<Token>>, at: seq<nat>, ts: seq<Token>, k: nat)
    requires |at| == |ts| + 1 && lex(at[|ts|]) == Some([]) && k <= |ts|
    requires forall j: nat :: j < |ts| ==> lex(at[j]) == Prepended([ts[j]], lex(at[j + 1]))
    ensures lex(at[k]) == Some(ts[k..])
    decreases |ts| - k
  {
    if k < |ts| {
      Peeled(lex, at, ts, k + 1);
      assert ts[k..] == [ts[k]] + ts[k + 1..];
    }
  }

  /** Lexing tokens spelled out gives the tokens back. */
  lemma LexRender(u: Classes, s: string, ts: seq<Token>)
    requires u.Valid() && s == Render(ts) && forall t :: t in ts ==> Spellable(u, t)
    ensures LexFrom(u, s, 0) == Some(ts)
  {
    assert s[0..] == s;
    var at := Places(u, s, 0, Texts(ts));
    var lex := LexerOf(u, s);
    forall j: nat | j < |ts| ensures lex(at[j]) == Prepended([ts[j]], lex(at[j + 1])) {
      Peels(u, s, at, ts, j);
    }
    Peeled(lex, at, ts, 0);
    assert ts[0..] == ts;
  }

  function LexerOf(u: Classes, s: string): nat -> Option<seq<Token>> {
    (i: nat) => if i <= |s| then LexFrom(u, s, i) else None
  }

  lemma Peels(u: Classes, s: string, at: seq<nat>, ts: seq<Token>, j: nat)
    requires u.Valid() && AllSit(u, s, at, Texts(ts)) && j < |ts| && Spellable(u, ts[j])
    ensures LexerOf(u, s)(at[j]) == Prepended([ts[j]], LexerOf(u, s)(at[j + 1]))
  {
    assert Sits(u, s, at, Texts(ts), j);
    LexToken(u, s, at[j], ts[j], Texts(ts)[j], at[j + 1]);
  }

  lemma Cut(u: Classes, s: string, i: nat, text: string, rest: string)
    requires i <= |s| && s[i..] == text + " " + rest
    ensures i + |text| + 1 <= |s| && SpelledAt(Place(u, s, i), text) && s[i + |text| + 1..] == rest
  {
    var j := i + |text|;
    assert s[i..] == text + (" " + rest);
    CutJoin(text, " " + rest);
    CutSlice(s, i, j, |s|);
    assert s[i..|s|] == s[i..] && s[j..|s|] == s[j..];
    CutJoin(" ", rest);
    CutSlice(s, j, j + 1, |s|);
    assert s[j..][0] == ' ';
  }

  /** Whatever the lexer cuts out can be spelled. */
  lemma StepSpellable(u: Classes, s: string, i: nat)
    requires i < |s| && StepAt(u, s, i).Piece?
    ensures Spellable(u, StepAt(u, s, i).token)
  {
    var c := s[i];
    if !u.white(c) && c != '(' && c != ')' && c != '"' && c != '\'' && !IsOpChar(c) && !Digit(c) {
      var j := Scan(s, i, c => u.WordChar(c));
      var w := s[i..j];
      forall k | 0 <= k < |w| ensures u.WordChar(w[k]) {
        assert w[k] == s[i + k];
      }
    } else if c == '"' || c == '\'' {
      var j := Scan(s, i + 1, x => x != c);
      var t := s[i + 1..j];
      forall k | 0 <= k < |t| ensures t[k] != c {
        assert t[k] == s[i + 1 + k];
      }
    }
  }

  lemma {:induction false} LexSpellable(u: Classes, s: string, i: nat)
    requires i <= |s| && LexFrom(u, s, i).Some?
    ensures forall t :: t in LexFrom(u, s, i).value ==> Spellable(u, t)
    decreases |s| - i
  {
    if i < |s| {
      var step := StepAt(u, s, i);
      LexSpellable(u, s, step.next);
      if step.Piece? {
        StepSpellable(u, s, i);
      }
    }
  }
}
