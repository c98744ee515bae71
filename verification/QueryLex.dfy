/** Cutting a query's text into tokens (crates/e5r-api/src/query.rs). */
module QueryLex {
  import opened Ordered

  datatype Op = Eq | Ne | Lt | Le | Gt | Ge | Contains | Omits

  datatype Token = Word(w: string) | Text(t: string) | Number(n: nat) | Operator(op: Op) | Open | Close

  const U64: nat := 0x1_0000_0000_0000_0000

  predicate Digit(c: char) {
    '0' <= c <= '9'
  }

  predicate AsciiAlnum(c: char) {
    Digit(c) || 'a' <= c <= 'z' || 'A' <= c <= 'Z'
  }

  /** The character classes of the standard library, known only on ASCII and
      known not to share a character. */
  datatype Classes = Classes(alnum: char -> bool, white: char -> bool) {
    ghost predicate Valid() {
      (forall c :: c <= '\U{7f}' ==> (alnum(c) <==> AsciiAlnum(c))) &&
      (forall c :: c <= '\U{7f}' ==> (white(c) <==> c == ' ' || '\t' <= c <= '\r')) &&
      (forall c :: alnum(c) ==> !white(c))
    }

    predicate WordChar(c: char) {
      alnum(c) || c == '_' || c == '.' || c == '@' || c == '$' || c == ':'
    }
  }

  /** Characters of a number, before it is read. */
  predicate NumberChar(c: char) {
    AsciiAlnum(c) || c == 'x' || c == '_'
  }

  /** The first place at or after `i` where a test fails. */
  function Scan(s: string, i: nat, p: char -> bool): (j: nat)
    requires i <= |s|
    ensures i <= j <= |s|
    ensures forall k :: i <= k < j ==> p(s[k])
    ensures j < |s| ==> !p(s[j])
    decreases |s| - i
  {
    if i < |s| && p(s[i]) then Scan(s, i + 1, p) else i
  }

  // ------------------------------------------------------------------ numbers

  function DigitValue(c: char): Option<nat> {
    if '0' <= c <= '9' then Some((c - '0') as nat)
    else if 'a' <= c <= 'f' then Some((c - 'a') as nat + 10)
    else if 'A' <= c <= 'F' then Some((c - 'A') as nat + 10)
    else None
  }

  /** The value of a run of digits in a radix, or nothing. */
  function DigitsValue(s: string, radix: nat): Option<nat>
    decreases |s|
  {
    if s == "" then Some(0) else
    var less :- DigitsValue(s[..|s| - 1], radix);
    var d :- DigitValue(s[|s| - 1]);
    if d < radix then Some(less * radix + d) else None
  }

  /** An unsigned number as the standard library reads one: digits, perhaps
      after a plus sign, within 64 bits. */
  function ParseUnsigned(s: string, radix: nat): Option<nat> {
    var digits := if |s| > 1 && s[0] == '+' then s[1..] else s;
    if digits == "" then None else
    var v :- DigitsValue(digits, radix);
    if v < U64 then Some(v) else None
  }

  function Drop(s: string, c: char): string {
    if s == "" then "" else (if s[0] == c then "" else [s[0]]) + Drop(s[1..], c)
  }

  predicate StartsWith(s: string, prefix: string) {
    prefix <= s
  }

  /** Underscores are dropped, then `0x` makes it hexadecimal. */
  function NumberValue(word: string): Option<nat> {
    var cleaned := Drop(word, '_');
    if StartsWith(cleaned, "0x") then ParseUnsigned(cleaned[2..], 16) else ParseUnsigned(cleaned, 10)
  }

  // -------------------------------------------------------------------- lexing

  /** What the lexer does at one position. */
  datatype Step = Skip(next: nat) | Piece(token: Token, next: nat) | Fail

  predicate IsOpChar(c: char) {
    c == '=' || c == '!' || c == '<' || c == '>' || c == '~'
  }

  function OperatorAt(c: char, next: Option<char>): Option<(Op, nat)> {
    if c == '=' && next == Some('=') then Some((Eq, 2))
    else if c == '=' && next == Some('~') then Some((Contains, 2))
    else if c == '=' then Some((Eq, 1))
    else if c == '!' && next == Some('=') then Some((Ne, 2))
    else if c == '!' && next == Some('~') then Some((Omits, 2))
    else if c == '<' && next == Some('=') then Some((Le, 2))
    else if c == '<' then Some((Lt, 1))
    else if c == '>' && next == Some('=') then Some((Ge, 2))
    else if c == '>' then Some((Gt, 1))
    else if c == '~' then Some((Contains, 1))
    else None
  }

  function StepAt(u: Classes, s: string, i: nat): (r: Step)
    requires i < |s|
    ensures r.Skip? ==> i < r.next <= |s|
    ensures r.Piece? ==> i < r.next <= |s|
  {
    var c := s[i];
    if u.white(c) then Skip(i + 1)
    else if c == '(' then Piece(Open, i + 1)
    else if c == ')' then Piece(Close, i + 1)
    else if c == '"' || c == '\'' then
      var j := Scan(s, i + 1, x => x != c);
      if j == |s| then Fail else Piece(Text(s[i + 1..j]), j + 1)
    else if IsOpChar(c) then
      match OperatorAt(c, if i + 1 < |s| then Some(s[i + 1]) else None)
      case None => Fail
      case Some(p) => if i + p.1 <= |s| then Piece(Operator(p.0), i + p.1) else Fail
    else if Digit(c) then
      var j := Scan(s, i, NumberChar);
      match NumberValue(s[i..j])
      case None => Fail
      case Some(v) => Piece(Number(v), j)
    else
      var j := Scan(s, i, c => u.WordChar(c));
      if j == i then Fail else Piece(Word(s[i..j]), j)
  }

  /** All the tokens from a position on, or nothing when one is malformed. */
  function LexFrom(u: Classes, s: string, i: nat): Option<seq<Token>>
    requires i <= |s|
    decreases |s| - i
  {
    if i == |s| then Some([]) else
    match StepAt(u, s, i)
    case Fail => None
    case Skip(j) => LexFrom(u, s, j)
    case Piece(t, j) =>
      var more :- LexFrom(u, s, j);
      Some([t] + more)
  }

  /** What lexing gives once the tokens so far are put in front. */
  function Prepended(out: seq<Token>, rest: Option<seq<Token>>): Option<seq<Token>> {
    match rest case None => None case Some(more) => Some(out + more)
  }

  method ScanWhile(s: string, i: nat, p: char -> bool) returns (j: nat)
    requires i <= |s|
    ensures j == Scan(s, i, p)
  {
    j := i;
    while j < |s| && p(s[j])
      invariant i <= j <= |s| && Scan(s, j, p) == Scan(s, i, p)
    {
      j := j + 1;
    }
  }

  /** The token at one position, found by scanning to where it ends. */
  method LexOne(u: Classes, s: string, i: nat) returns (r: Step)
    requires i < |s|
    ensures r == StepAt(u, s, i)
  {
    var c := s[i];
    if u.white(c) {
      return Skip(i + 1);
    } else if c == '(' {
      return Piece(Open, i + 1);
    } else if c == ')' {
      return Piece(Close, i + 1);
    } else if c == '"' || c == '\'' {
      var j := ScanWhile(s, i + 1, x => x != c);
      return if j == |s| then Fail else Piece(Text(s[i + 1..j]), j + 1);
    } else if IsOpChar(c) {
      var op := OperatorAt(c, if i + 1 < |s| then Some(s[i + 1]) else None);
      return if op.Some? then Piece(Operator(op.value.0), i + op.value.1) else Fail;
    } else if Digit(c) {
      var j := ScanWhile(s, i, NumberChar);
      var value := NumberValue(s[i..j]);
      return if value.Some? then Piece(Number(value.value), j) else Fail;
    }
    var j := ScanWhile(s, i, c => u.WordChar(c));
    return if j == i then Fail else Piece(Word(s[i..j]), j);
  }

  method Lex(u: Classes, s: string) returns (r: Option<seq<Token>>)
    ensures r == LexFrom(u, s, 0)
  {
    var out: seq<Token> := [];
    var i := 0;
    PrependNone(LexFrom(u, s, 0));
    while i < |s|
      invariant i <= |s| && LexFrom(u, s, 0) == Prepended(out, LexFrom(u, s, i))
    {
      var step := LexOne(u, s, i);
      match step {
        case Fail => return None;
        case Skip(j) => i := j;
        case Piece(t, j) =>
          PrependOne(out, t, LexFrom(u, s, j));
          out := out + [t];
          i := j;
      }
    }
    assert out + [] == out;
    return Some(out);
  }

  lemma PrependNone(rest: Option<seq<Token>>)
    ensures Prepended([], rest) == rest
  {
    if rest.Some? {
      assert [] + rest.value == rest.value;
    }
  }

  lemma PrependOne(out: seq<Token>, t: Token, rest: Option<seq<Token>>)
    ensures rest.Some? ==> out + ([t] + rest.value) == (out + [t]) + rest.value
  {
  }

  // ------------------------------------------------------------------ printing

  function OpText(op: Op): string {
    match op
    case Eq => "=" case Ne => "!=" case Lt => "<" case Le => "<="
    case Gt => ">" case Ge => ">=" case Contains => "~" case Omits => "!~"
  }

  function Decimal(n: nat): (s: string)
    ensures s != "" && forall i :: 0 <= i < |s| ==> Digit(s[i])
  {
    var d := [('0' as int + n % 10) as char];
    if n < 10 then d else Decimal(n / 10) + d
  }

  /** Quoted with whichever quote the text does not hold. */
  function Quoted(t: string): string {
    if '"' in t then "'" + t + "'" else "\"" + t + "\""
  }

  function TokenText(t: Token): string {
    match t
    case Word(w) => w
    case Text(t) => Quoted(t)
    case Number(n) => Decimal(n)
    case Operator(op) => OpText(op)
    case Open => "("
    case Close => ")"
  }

  /** Tokens a text can spell. */
  predicate Spellable(u: Classes, t: Token) {
    match t
    case Word(w) => w != "" && !Digit(w[0]) && forall i :: 0 <= i < |w| ==> u.WordChar(w[i])
    case Text(t) => !('"' in t && '\'' in t)
    case Number(n) => n < U64
    case _ => true
  }

  /** Texts one after another, a space after each. */
  function Spaced(texts: seq<string>): string {
    if texts == [] then "" else texts[0] + " " + Spaced(texts[1..])
  }

  function Texts(ts: seq<Token>): seq<string> {
    seq(|ts|, k requires 0 <= k < |ts| => TokenText(ts[k]))
  }

  function Render(ts: seq<Token>): string {
    Spaced(Texts(ts))
  }

  /** A test holds up to a place and fails there, so a scan stops there. */
  lemma {:induction false} ScanStops(s: string, i: nat, p: char -> bool, j: nat)
    requires i <= j <= |s| && (j < |s| ==> !p(s[j])) && forall k :: i <= k < j ==> p(s[k])
    ensures Scan(s, i, p) == j
    decreases j - i
  {
    if i < j {
      ScanStops(s, i + 1, p, j);
    }
  }

  lemma {:induction false} DropNone(s: string, c: char)
    requires forall i :: 0 <= i < |s| ==> s[i] != c
    ensures Drop(s, c) == s
  {
    if s != "" {
      DropNone(s[1..], c);
    }
  }

  lemma {:induction false} DecimalValue(n: nat)
    ensures DigitsValue(Decimal(n), 10) == Some(n)
  {
    var d := ('0' as int + n % 10) as char;
    assert DigitValue(d) == Some(n % 10);
    if n < 10 {
      assert Decimal(n)[..0] == "";
    } else {
      DecimalValue(n / 10);
      assert Decimal(n)[..|Decimal(n)| - 1] == Decimal(n / 10);
    }
  }

  /** A decimal reads back as the number it spells. */
  lemma DecimalReads(n: nat)
    requires n < U64
    ensures NumberValue(Decimal(n)) == Some(n)
    ensures ParseUnsigned(Decimal(n), 10) == Some(n)
  {
    var s := Decimal(n);
    DropNone(s, '_');
    DecimalValue(n);
    assert !StartsWith(s, "0x");
  }
}
