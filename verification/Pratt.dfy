/** The lexer and the precedence parser of the compiler, against specification functions on the
    text, the round trip from trees to tokens, to text in any spacing, and back, and the fewest
    parentheses a text for a tree can have. */
module Pratt {

  import opened T = Text

  // ---------- tokens ----------

  datatype Kind =
    | Identifier | Number | Operator | LeftCurly | RightCurly | LeftParen | RightParen
    | LeftBracket | RightBracket | Comma | Semicolon | Colon

  datatype Token = Token(kind: Kind, start: int, end: int)

  datatype Lexed = Got(token: Token) | Missing

  predicate IsDigit(c: char) {
    '0' <= c <= '9'
  }

  predicate IsLetter(c: char) {
    'a' <= c <= 'z' || 'A' <= c <= 'Z'
  }

  predicate WordStart(c: char) {
    IsLetter(c) || c == '_'
  }

  predicate WordChar(c: char) {
    c == '_' || IsLetter(c) || IsDigit(c)
  }

  /** A number does not begin with 0. */
  predicate NumberStart(c: char) {
    '1' <= c <= '9'
  }

  /** The kind of a token that is one character, or an operator that may be two. */
  function Mark(c: char): (k: Kind) {
    match c
    case '{' => LeftCurly
    case '}' => RightCurly
    case '(' => LeftParen
    case ')' => RightParen
    case '[' => LeftBracket
    case ']' => RightBracket
    case ',' => Comma
    case ';' => Semicolon
    case ':' => Colon
    case _ => Operator
  }

  predicate IsMark(c: char) {
    c in {'{', '}', '(', ')', '[', ']', ',', ';', ':', '+', '-', '*', '/', '=', '<', '>', '!'}
  }

  /** A second character that makes one operator with the first. */
  predicate Pairs(c: char, d: char) {
    match c
    case '=' => d == '='
    case '<' => d == '=' || d == '<'
    case '>' => d == '=' || d == '>'
    case '!' => d == '='
    case _ => false
  }

  predicate TokenStart(c: char) {
    WordStart(c) || NumberStart(c) || IsMark(c)
  }

  /** The end of the run of word characters, or of digits, from i on. */
  function WordEnd(input: string, i: int): (j: int)
    requires 0 <= i <= |input|
    ensures i <= j <= |input|
    decreases |input| - i
  {
    if i < |input| && WordChar(input[i]) then WordEnd(input, i + 1) else i
  }

  function DigitEnd(input: string, i: int): (j: int)
    requires 0 <= i <= |input|
    ensures i <= j <= |input|
    decreases |input| - i
  {
    if i < |input| && IsDigit(input[i]) then DigitEnd(input, i + 1) else i
  }

  /** The token that begins at i. */
  function Scan(input: string, i: int): (t: Token)
    requires 0 <= i < |input| && TokenStart(input[i])
    ensures t.start == i < t.end <= |input|
  {
    var c := input[i];
    if WordStart(c) then Token(Identifier, i, WordEnd(input, i + 1))
    else if NumberStart(c) then Token(Number, i, DigitEnd(input, i + 1))
    else Token(Mark(c), i, if i + 1 < |input| && Pairs(c, input[i + 1]) then i + 2 else i + 1)
  }

  /** The next token at or after i; whatever cannot begin a token is passed over. */
  function Lex(input: string, i: int): (r: Lexed)
    requires 0 <= i <= |input|
    ensures r.Got? ==> i <= r.token.start < r.token.end <= |input|
    decreases |input| - i
  {
    if i == |input| then Missing
    else if TokenStart(input[i]) then Got(Scan(input, i))
    else Lex(input, i + 1)
  }

  class Lexer {
    const input: string
    var index: int

    predicate Valid()
      reads this
    {
      0 <= index <= |input|
    }

    constructor (text: string)
      ensures Valid() && input == text && index == 0
    {
      input, index := text, 0;
    }

    /** The next token, past which the lexer moves. */
    method Next() returns (r: Lexed)
      requires Valid()
      modifies this
      ensures Valid() && r == Lex(input, old(index))
      ensures index == if r.Got? then r.token.end else |input|
    {
      while index < |input|
        invariant Valid() && Lex(input, index) == Lex(input, old(index))
      {
        var ch := input[index];
        var start := index;
        if WordStart(ch) {
          TakeWord();
          return Got(Token(Identifier, start, index));
        } else if NumberStart(ch) {
          TakeDigits();
          return Got(Token(Number, start, index));
        } else if IsMark(ch) {
          index := index + 1;
          if index < |input| && Pairs(ch, input[index]) {
            index := index + 1;
          }
          return Got(Token(Mark(ch), start, index));
        }
        index := index + 1;
      }
      return Missing;
    }

    method TakeWord()
      requires Valid() && index < |input| && WordStart(input[index])
      modifies this
      ensures Valid() && index == WordEnd(input, old(index) + 1)
    {
      assert WordEnd(input, index) == WordEnd(input, index + 1);
      while index < |input|
        invariant Valid() && WordEnd(input, index) == WordEnd(input, old(index))
      {
        if !WordChar(input[index]) {
          break;
        }
        index := index + 1;
      }
    }

    method TakeDigits()
      requires Valid() && index < |input| && NumberStart(input[index])
      modifies this
      ensures Valid() && index == DigitEnd(input, old(index) + 1)
    {
      assert DigitEnd(input, index) == DigitEnd(input, index + 1);
      while index < |input|
        invariant Valid() && DigitEnd(input, index) == DigitEnd(input, old(index))
      {
        if !IsDigit(input[index]) {
          break;
        }
        index := index + 1;
      }
    }

    /** The next token, without moving. */
    method Peek() returns (r: Lexed)
      requires Valid()
      modifies this
      ensures index == old(index) && r == Lex(input, index)
    {
      var start := index;
      r := Next();
      index := start;
    }
  }

  // ---------- the grammar ----------

  datatype Expr = Num(digits: string) | Id(name: string) | Bin(op: char, left: Expr, right: Expr)

  datatype Error = InvalidToken | MissingToken

  /** An expression and the position after it. */
  datatype Parsed = Ok(expr: Expr, index: int) | Err(error: Error)

  const LOWEST: int := 0
  const SUM: int := 1
  const PRODUCT: int := 2

  function Prec(op: char): (p: int)
    ensures LOWEST <= p <= PRODUCT
  {
    if op == '+' || op == '-' then SUM else if op == '*' || op == '/' then PRODUCT else LOWEST
  }

  predicate InText(input: string, t: Token) {
    0 <= t.start < t.end <= |input|
  }

  /** getPrecedence of a token. */
  function TokenPrec(input: string, t: Token): (p: int)
    requires InText(input, t)
    ensures LOWEST <= p <= PRODUCT
  {
    if t.kind.Operator? then Prec(input[t.start]) else LOWEST
  }

  /** The precedence of what comes next; nothing binds like a token that is no operator. */
  function NextPrec(input: string, i: int): (p: int)
    requires 0 <= i <= |input|
    ensures LOWEST <= p <= PRODUCT
  {
    var r := Lex(input, i);
    if r.Got? then TokenPrec(input, r.token) else LOWEST
  }

  function Text(input: string, t: Token): (s: string)
    requires InText(input, t)
  {
    input[t.start..t.end]
  }

  /** An expression at i whose operators all bind tighter than prec. */
  function Expression(input: string, i: int, prec: int): (r: Parsed)
    requires 0 <= i <= |input|
    ensures r.Ok? ==> i < r.index <= |input|
    decreases |input| - i, 2
  {
    var p := Prefix(input, i);
    if p.Ok? then More(input, p.expr, p.index, prec) else p
  }

  /** The rest of an expression after `left`. */
  function More(input: string, left: Expr, i: int, prec: int): (r: Parsed)
    requires 0 <= i <= |input|
    ensures r.Ok? ==> i <= r.index <= |input|
    decreases |input| - i, 3
  {
    if prec >= NextPrec(input, i) || !Lex(input, i).Got? then Ok(left, i)
    else
      var r := Infix(input, left, i);
      if r.Ok? then More(input, r.expr, r.index, prec) else r
  }

  function Infix(input: string, left: Expr, i: int): (r: Parsed)
    requires 0 <= i <= |input|
    ensures r.Ok? ==> i < r.index <= |input|
    decreases |input| - i, 2
  {
    match Lex(input, i)
    case Missing => Err(MissingToken)
    case Got(t) =>
      if !t.kind.Operator? then Err(InvalidToken)
      else if Text(input, t) != "+" && Text(input, t) != "-" && Text(input, t) != "*" &&
          Text(input, t) != "/" then Err(InvalidToken)
      else
        var right := Expression(input, t.end, TokenPrec(input, t));
        if right.Ok? then Ok(Bin(input[t.start], left, right.expr), right.index) else right
  }

  function Prefix(input: string, i: int): (r: Parsed)
    requires 0 <= i <= |input|
    ensures r.Ok? ==> i < r.index <= |input|
    decreases |input| - i, 1
  {
    match Lex(input, i)
    case Missing => Err(MissingToken)
    case Got(t) =>
      if t.kind.Number? then Ok(Num(Text(input, t)), t.end)
      else if t.kind.Identifier? then Ok(Id(Text(input, t)), t.end)
      else if t.kind.LeftParen? then
        var e := Expression(input, t.end, LOWEST);
        if e.Err? then e
        else
          match Lex(input, e.index)
          case Missing => Err(MissingToken)
          case Got(u) => if u.kind.RightParen? then Ok(e.expr, u.end) else Err(InvalidToken)
      else Err(InvalidToken)
  }

  datatype Stmt = Var(name: string, value: Expr)

  datatype ParsedStmt = OkStmt(stmt: Stmt, index: int) | ErrStmt(error: Error)

  datatype ParsedBody = OkBody(stmts: seq<Stmt>) | ErrBody(error: Error)

  /** `var`, a name, `=`, an expression, a semicolon. */
  function Statement(input: string, i: int): (r: ParsedStmt)
    requires 0 <= i <= |input|
    ensures r.OkStmt? ==> i < r.index <= |input|
  {
    match Lex(input, i)
    case Missing => ErrStmt(MissingToken)
    case Got(t) =>
      if !t.kind.Identifier? || Text(input, t) != "var" then ErrStmt(InvalidToken) else Named(input, t.end)
  }

  function Named(input: string, i: int): (r: ParsedStmt)
    requires 0 <= i <= |input|
    ensures r.OkStmt? ==> i < r.index <= |input|
  {
    match Lex(input, i)
    case Missing => ErrStmt(MissingToken)
    case Got(t) =>
      if !t.kind.Identifier? then ErrStmt(InvalidToken)
      else
        match Lex(input, t.end)
        case Missing => ErrStmt(MissingToken)
        case Got(q) => if Text(input, q) != "=" then ErrStmt(InvalidToken) else Assigned(input, Text(input, t), q.end)
  }

  function Assigned(input: string, name: string, i: int): (r: ParsedStmt)
    requires 0 <= i <= |input|
    ensures r.OkStmt? ==> i < r.index <= |input|
  {
    var e := Expression(input, i, LOWEST);
    if e.Err? then ErrStmt(e.error)
    else
      match Lex(input, e.index)
      case Missing => ErrStmt(MissingToken)
      case Got(u) => if u.kind.Semicolon? then OkStmt(Var(name, e.expr), u.end) else ErrStmt(InvalidToken)
  }

  function Body(input: string, i: int): (r: ParsedBody)
    requires 0 <= i <= |input|
    decreases |input| - i
  {
    if !Lex(input, i).Got? then OkBody([])
    else
      var s := Statement(input, i);
      if s.ErrStmt? then ErrBody(s.error)
      else
        var rest := Body(input, s.index);
        if rest.OkBody? then OkBody([s.stmt] + rest.stmts) else rest
  }

  /** Statements in front of a parsed body. */
  function Prepend(nodes: seq<Stmt>, rest: ParsedBody): (r: ParsedBody) {
    if rest.OkBody? then OkBody(nodes + rest.stmts) else rest
  }

  lemma BodyStep(input: string, i: int, nodes: seq<Stmt>)
    requires 0 <= i <= |input| && Lex(input, i).Got?
    ensures var s := Statement(input, i);
      Prepend(nodes, Body(input, i)) == if s.OkStmt? then Prepend(nodes + [s.stmt],
          Body(input, s.index)) else ErrBody(s.error)
  {
    var s := Statement(input, i);
    if s.OkStmt? && Body(input, s.index).OkBody? {
      assert nodes + ([s.stmt] + Body(input, s.index).stmts) == nodes + [s.stmt] + Body(input, s.index).stmts;
    }
  }

  // ---------- the parser ----------

  class Parser {
    const lexer: Lexer

    constructor (text: string)
      ensures lexer.Valid() && lexer.input == text && lexer.index == 0 && fresh(lexer)
    {
      lexer := new Lexer(text);
    }

    method ParseExpression(prec: int) returns (r: Parsed)
      requires lexer.Valid() && 0 <= prec
      modifies lexer
      ensures lexer.Valid() && r == Expression(lexer.input, old(lexer.index), prec)
      ensures r.Ok? ==> lexer.index == r.index
      decreases |lexer.input| - lexer.index, 2
    {
      r := ParsePrefix();
      if r.Err? {
        return;
      }
      while true
        invariant lexer.Valid() && r.Ok? && r.index == lexer.index && old(lexer.index) < lexer.index
        invariant More(lexer.input, r.expr, lexer.index, prec) == Expression(lexer.input, old(lexer.index), prec)
        decreases |lexer.input| - lexer.index
      {
        var t := lexer.Peek();
        if !t.Got? || prec >= TokenPrec(lexer.input, t.token) {
          return;
        }
        r := ParseInfix(r.expr);
        if r.Err? {
          return;
        }
      }
    }

    method ParseInfix(left: Expr) returns (r: Parsed)
      requires lexer.Valid()
      modifies lexer
      ensures lexer.Valid() && r == Infix(lexer.input, left, old(lexer.index))
      ensures r.Ok? ==> lexer.index == r.index
      decreases |lexer.input| - lexer.index, 3
    {
      var t := lexer.Next();
      if t.Missing? {
        return Err(MissingToken);
      }
      var text := Text(lexer.input, t.token);
      if t.token.kind.Operator? && (text == "+" || text == "-" || text == "*" || text == "/") {
        r := ParseExpression(TokenPrec(lexer.input, t.token));
        if r.Ok? {
          r := Ok(Bin(text[0], left, r.expr), r.index);
        }
      } else {
        r := Err(InvalidToken);
      }
    }

    method ParsePrefix() returns (r: Parsed)
      requires lexer.Valid()
      modifies lexer
      ensures lexer.Valid() && r == Prefix(lexer.input, old(lexer.index))
      ensures r.Ok? ==> lexer.index == r.index
      decreases |lexer.input| - lexer.index, 1
    {
      var t := lexer.Peek();
      if t.Missing? {
        return Err(MissingToken);
      }
      if t.token.kind.Number? || t.token.kind.Identifier? {
        var _ := lexer.Next();
        var text := Text(lexer.input, t.token);
        return Ok(if t.token.kind.Number? then Num(text) else Id(text), t.token.end);
      } else if t.token.kind.LeftParen? {
        var _ := lexer.Next();
        r := ParseExpression(LOWEST);
        if r.Err? {
          return;
        }
        var u := lexer.Next();
        if u.Missing? {
          return Err(MissingToken);
        }
        if !u.token.kind.RightParen? {
          return Err(InvalidToken);
        }
        return Ok(r.expr, u.token.end);
      }
      return Err(InvalidToken);
    }

    method ParseStatement() returns (r: ParsedStmt)
      requires lexer.Valid()
      modifies lexer
      ensures lexer.Valid() && r == Statement(lexer.input, old(lexer.index))
      ensures r.OkStmt? ==> lexer.index == r.index
    {
      var t := lexer.Next();
      if t.Missing? {
        return ErrStmt(MissingToken);
      }
      if !t.token.kind.Identifier? || Text(lexer.input, t.token) != "var" {
        return ErrStmt(InvalidToken);
      }
      var name := lexer.Next();
      if name.Missing? {
        return ErrStmt(MissingToken);
      }
      if !name.token.kind.Identifier? {
        return ErrStmt(InvalidToken);
      }
      var eq := lexer.Next();
      if eq.Missing? {
        return ErrStmt(MissingToken);
      }
      if Text(lexer.input, eq.token) != "=" {
        return ErrStmt(InvalidToken);
      }
      var e := ParseExpression(LOWEST);
      if e.Err? {
        return ErrStmt(e.error);
      }
      var u := lexer.Next();
      if u.Missing? {
        return ErrStmt(MissingToken);
      }
      if !u.token.kind.Semicolon? {
        return ErrStmt(InvalidToken);
      }
      return OkStmt(Var(Text(lexer.input, name.token), e.expr), u.token.end);
    }

    method ParseBody() returns (r: ParsedBody)
      requires lexer.Valid()
      modifies lexer
      ensures lexer.Valid() && r == Body(lexer.input, old(lexer.index))
    {
      var nodes: seq<Stmt> := [];
      while true
        invariant lexer.Valid()
        invariant Body(lexer.input, old(lexer.index)) == Prepend(nodes, Body(lexer.input, lexer.index))
        decreases |lexer.input| - lexer.index
      {
        var t := lexer.Peek();
        if t.Missing? {
          return OkBody(nodes);
        }
        BodyStep(lexer.input, lexer.index, nodes);
        var s := ParseStatement();
        if s.ErrStmt? {
          return ErrBody(s.error);
        }
        nodes := nodes + [s.stmt];
      }
    }
  }

  // ---------- text for a tree ----------

  /** Names and numbers as the lexer takes them; the four operators. */
  predicate IsName(s: string) {
    |s| > 0 && WordStart(s[0]) && forall i :: 0 <= i < |s| ==> WordChar(s[i])
  }

  predicate IsNumber(s: string) {
    |s| > 0 && NumberStart(s[0]) && forall i :: 0 <= i < |s| ==> IsDigit(s[i])
  }

  predicate Printable(e: Expr) {
    match e
    case Num(s) => IsNumber(s)
    case Id(s) => IsName(s)
    case Bin(op, l, r) => Prec(op) > LOWEST && Printable(l) && Printable(r)
  }

  /** Anything that the lexer passes over. */
  predicate IsGap(s: string) {
    forall i :: 0 <= i < |s| ==> !TokenStart(s[i]) && !WordChar(s[i])
  }

  /** A token without its place. */
  datatype Lexeme = Lexeme(kind: Kind, text: string)

  const OPEN: Lexeme := Lexeme(LeftParen, "(")
  const CLOSE: Lexeme := Lexeme(RightParen, ")")

  /** The tokens of an expression where only operators that bind tighter than p may stand bare:
      parentheses go around any other, and nowhere else. */
  function Lexemes(e: Expr, p: int): (ws: seq<Lexeme>)
    decreases e, 1
  {
    match e
    case Num(s) => [Lexeme(Number, s)]
    case Id(s) => [Lexeme(Identifier, s)]
    case Bin(op, _, _) => if Prec(op) <= p then [OPEN] + (Bare(e) + [CLOSE]) else Bare(e)
  }

  function Bare(e: Expr): (ws: seq<Lexeme>)
    requires e.Bin?
    decreases e, 0
  {
    Lexemes(e.left, Prec(e.op) - 1) + ([Lexeme(Operator, [e.op])] + Lexemes(e.right, Prec(e.op)))
  }

  /** From i on the lexer gives these tokens, and is then at j. */
  predicate Lexes(input: string, i: int, ws: seq<Lexeme>, j: int): (b: bool)
    ensures b ==> 0 <= i <= j <= |input|
    decreases |ws|
  {
    && 0 <= i <= |input|
    && if ws == [] then i == j
       else
         && Lex(input, i).Got?
         && IsToken(input, Lex(input, i).token, ws[0])
         && Lexes(input, Lex(input, i).token.end, ws[1..], j)
  }

  predicate IsToken(input: string, t: Token, w: Lexeme)
    requires InText(input, t)
  {
    t.kind == w.kind && Text(input, t) == w.text
  }

  lemma {:induction false} LexesSplit(input: string, i: int, a: seq<Lexeme>, b: seq<Lexeme>, ab: seq<Lexeme>, j: int)
    returns (m: int)
    requires ab == a + b && Lexes(input, i, ab, j)
    ensures Lexes(input, i, a, m) && Lexes(input, m, b, j)
    decreases |a|
  {
    if a == [] {
      m := i;
      assert ab == b;
    } else {
      assert ab[0] == a[0] && ab[1..] == a[1..] + b;
      m := LexesSplit(input, Lex(input, i).token.end, a[1..], b, ab[1..], j);
    }
  }

  lemma OneLexeme(input: string, i: int, w: Lexeme, j: int)
    requires Lexes(input, i, [w], j)
    ensures Lex(input, i).Got? && IsToken(input, Lex(input, i).token, w) && Lex(input, i).token.end == j
  {
    assert [w][1..] == [];
  }

  // ---------- parsing the tokens of an expression ----------

  lemma {:induction false} ParseLexemes(input: string, i: int, e: Expr, p: int, pp: int, j: int)
    requires Printable(e) && 0 <= pp <= p <= PRODUCT
    requires Lexes(input, i, Lexemes(e, p), j) && NextPrec(input, j) <= p + 1
    ensures Expression(input, i, pp) == More(input, e, j, pp)
    decreases e, 1
  {
    if !e.Bin? {
      OneLexeme(input, i, Lexemes(e, p)[0], j);
    } else if Prec(e.op) <= p {
      ParseParens(input, i, e, j);
    } else {
      ParseBare(input, i, e, pp, j);
    }
  }

  lemma {:induction false} ParseParens(input: string, i: int, e: Expr, j: int)
    requires Printable(e) && e.Bin? && Lexes(input, i, [OPEN] + (Bare(e) + [CLOSE]), j)
    ensures Prefix(input, i) == Ok(e, j)
    decreases e, 0, 1
  {
    var m := LexesSplit(input, i, [OPEN], Bare(e) + [CLOSE], [OPEN] + (Bare(e) + [CLOSE]), j);
    var k := LexesSplit(input, m, Bare(e), [CLOSE], Bare(e) + [CLOSE], j);
    OneLexeme(input, i, OPEN, m);
    OneLexeme(input, k, CLOSE, j);
    ParseBare(input, m, e, LOWEST, k);
  }

  lemma {:induction false} ParseBare(input: string, i: int, e: Expr, pp: int, j: int)
    requires Printable(e) && e.Bin? && 0 <= pp < Prec(e.op)
    requires Lexes(input, i, Bare(e), j) && NextPrec(input, j) <= Prec(e.op)
    ensures Expression(input, i, pp) == More(input, e, j, pp)
    decreases e, 0, 0
  {
    var q, w := Prec(e.op), Lexeme(Operator, [e.op]);
    var l, r := Lexemes(e.left, q - 1), Lexemes(e.right, q);
    var m := LexesSplit(input, i, l, [w] + r, l + ([w] + r), j);
    var k := LexesSplit(input, m, [w], r, [w] + r, j);
    OneLexeme(input, m, w, k);
    OperatorToken(input, m, e.op);
    ParseLexemes(input, i, e.left, q - 1, pp, m);
    ParseLexemes(input, k, e.right, q, q, j);
    JoinOperands(input, e, m, k, j, pp);
  }

  lemma OperatorToken(input: string, i: int, op: char)
    requires 0 <= i <= |input| && Lex(input, i).Got? && IsToken(input, Lex(input, i).token, Lexeme(Operator, [op]))
    ensures NextPrec(input, i) == Prec(op) && input[Lex(input, i).token.start] == op
  {
    var t := Lex(input, i).token;
    assert Text(input, t)[0] == input[t.start];
  }

  /** One turn of the loop: the left operand, the operator, and a right operand that stops. */
  lemma JoinOperands(input: string, e: Expr, j: int, k: int, end: int, pp: int)
    requires e.Bin? && 0 <= j <= k <= end <= |input| && Prec(e.op) > pp >= 0
    requires Lex(input, j).Got? && IsToken(input, Lex(input, j).token, Lexeme(Operator, [e.op]))
    requires Lex(input, j).token.end == k && NextPrec(input, j) == Prec(e.op)
    requires input[Lex(input, j).token.start] == e.op
    requires Expression(input, k, Prec(e.op)) == More(input, e.right, end, Prec(e.op))
    requires NextPrec(input, end) <= Prec(e.op)
    ensures More(input, e.left, j, pp) == More(input, e, end, pp)
  {
    assert More(input, e.right, end, Prec(e.op)) == Ok(e.right, end);
  }

  /** Any text whose tokens are those of an expression parses to the expression, whatever stands
      between the tokens and after them. */
  lemma RoundTrip(input: string, e: Expr, j: int)
    requires Printable(e) && Lexes(input, 0, Lexemes(e, LOWEST), j) && Lex(input, j).Missing?
    ensures Expression(input, 0, LOWEST) == Ok(e, j)
  {
    ParseLexemes(input, 0, e, LOWEST, LOWEST, j);
  }

  // ---------- parsing the tokens of a program ----------

  predicate PrintableStmt(s: Stmt) {
    IsName(s.name) && Printable(s.value)
  }

  ghost predicate AllPrintable(stmts: seq<Stmt>) {
    forall k :: 0 <= k < |stmts| ==> PrintableStmt(stmts[k])
  }

  const VAR: Lexeme := Lexeme(Identifier, "var")
  const EQUALS: Lexeme := Lexeme(Operator, "=")
  const SEMI: Lexeme := Lexeme(Semicolon, ";")

  function StmtLexemes(s: Stmt): (ws: seq<Lexeme>) {
    [VAR] + ([Lexeme(Identifier, s.name)] + ([EQUALS] + (Lexemes(s.value, LOWEST) + [SEMI])))
  }

  function BodyLexemes(stmts: seq<Stmt>): (ws: seq<Lexeme>) {
    if stmts == [] then [] else StmtLexemes(stmts[0]) + BodyLexemes(stmts[1..])
  }

  lemma ParseAssigned(input: string, i: int, name: string, e: Expr, j: int)
    requires Printable(e) && Lexes(input, i, Lexemes(e, LOWEST) + [SEMI], j)
    ensures Assigned(input, name, i) == OkStmt(Var(name, e), j)
  {
    var m := LexesSplit(input, i, Lexemes(e, LOWEST), [SEMI], Lexemes(e, LOWEST) + [SEMI], j);
    OneLexeme(input, m, SEMI, j);
    ParseLexemes(input, i, e, LOWEST, LOWEST, m);
  }

  lemma ParseNamed(input: string, i: int, name: string, e: Expr, rest: seq<Lexeme>, j: int)
    requires Printable(e) && rest == Lexemes(e, LOWEST) + [SEMI]
    requires Lexes(input, i, [Lexeme(Identifier, name)] + ([EQUALS] + rest), j)
    ensures Named(input, i) == OkStmt(Var(name, e), j)
  {
    var w := Lexeme(Identifier, name);
    var m := LexesSplit(input, i, [w], [EQUALS] + rest, [w] + ([EQUALS] + rest), j);
    var k := LexesSplit(input, m, [EQUALS], rest, [EQUALS] + rest, j);
    OneLexeme(input, i, w, m);
    OneLexeme(input, m, EQUALS, k);
    ParseAssigned(input, k, name, e, j);
  }

  lemma ParseStatement(input: string, i: int, s: Stmt, j: int)
    requires PrintableStmt(s) && Lexes(input, i, StmtLexemes(s), j)
    ensures Lex(input, i).Got? && Statement(input, i) == OkStmt(s, j)
  {
    var rest := Lexemes(s.value, LOWEST) + [SEMI];
    var named := [Lexeme(Identifier, s.name)] + ([EQUALS] + rest);
    var m := LexesSplit(input, i, [VAR], named, [VAR] + named, j);
    OneLexeme(input, i, VAR, m);
    ParseNamed(input, m, s.name, s.value, rest, j);
  }

  lemma BodyFrom(input: string, i: int, s: Stmt, j: int, rest: seq<Stmt>, stmts: seq<Stmt>)
    requires 0 <= i <= |input| && Lex(input, i).Got? && Statement(input, i) == OkStmt(s, j)
    requires Body(input, j) == OkBody(rest) && stmts == [s] + rest
    ensures Body(input, i) == OkBody(stmts)
  {
  }

  lemma {:induction false} ParseBody(input: string, i: int, stmts: seq<Stmt>, j: int)
    requires AllPrintable(stmts) && Lexes(input, i, BodyLexemes(stmts), j) && Lex(input, j).Missing?
    ensures Body(input, i) == OkBody(stmts)
    decreases |stmts|
  {
    if stmts != [] {
      var t, u := StmtLexemes(stmts[0]), BodyLexemes(stmts[1..]);
      var m := LexesSplit(input, i, t, u, t + u, j);
      ParseStatement(input, i, stmts[0], m);
      ParseBody(input, m, stmts[1..], j);
      BodyFrom(input, i, stmts[0], m, stmts[1..], stmts);
    }
  }

  /** Any text whose tokens are those of a program parses to its statements. */
  lemma ProgramRoundTrip(input: string, stmts: seq<Stmt>, j: int)
    requires AllPrintable(stmts) && Lexes(input, 0, BodyLexemes(stmts), j) && Lex(input, j).Missing?
    ensures Body(input, 0) == OkBody(stmts)
  {
    ParseBody(input, 0, stmts, j);
  }

  // ---------- texts with given tokens ----------

  /** What the lexer can give. */
  predicate IsLexeme(w: Lexeme) {
    match w.kind
    case Identifier => IsName(w.text)
    case Number => IsNumber(w.text)
    case _ =>
      && 0 < |w.text| <= 2 && IsMark(w.text[0]) && Mark(w.text[0]) == w.kind
      && (|w.text| == 2 ==> Pairs(w.text[0], w.text[1]))
  }

  /** A text that starts so does not go on with the token before it. */
  predicate Apart(w: Lexeme, rest: string)
    requires |w.text| > 0
  {
    rest == "" ||
    match w.kind
    case Identifier => !WordChar(rest[0])
    case Number => !IsDigit(rest[0])
    case _ => |w.text| == 2 || !Pairs(w.text[0], rest[0])
  }

  /** A token and what stands in front of it. */
  datatype Piece = Piece(gap: string, lexeme: Lexeme)

  function Tokens(ps: seq<Piece>): (ws: seq<Lexeme>) {
    if ps == [] then [] else [ps[0].lexeme] + Tokens(ps[1..])
  }

  function Spell(ps: seq<Piece>, gap: string): (s: string)
    ensures |s| >= |gap|
  {
    if ps == [] then gap else ps[0].gap + (ps[0].lexeme.text + Spell(ps[1..], gap))
  }

  /** Every gap is one, a gap of its own at each place, and no token runs into the next. */
  predicate Spaced(ps: seq<Piece>, gap: string) {
    if ps == [] then IsGap(gap)
    else
      && IsGap(ps[0].gap) && IsLexeme(ps[0].lexeme)
      && Apart(ps[0].lexeme, Spell(ps[1..], gap)) && Spaced(ps[1..], gap)
  }

  lemma {:induction false} LexGap(input: string, i: int, gap: string, k: int)
    requires Occurs(input, i, gap) && IsGap(gap) && 0 <= k <= |gap|
    ensures Lex(input, i + k) == Lex(input, i + |gap|)
    decreases |gap| - k
  {
    if k < |gap| {
      OccursAt(input, i, gap, k);
      LexGap(input, i, gap, k + 1);
    }
  }

  lemma {:induction false} WordEndIs(input: string, i: int, s: string, k: int)
    requires Occurs(input, i, s) && 0 <= k <= |s| && (i + |s| < |input| ==> !WordChar(input[i + |s|]))
    requires forall j :: 0 <= j < |s| ==> WordChar(s[j])
    ensures WordEnd(input, i + k) == i + |s|
    decreases |s| - k
  {
    if k < |s| {
      OccursAt(input, i, s, k);
      WordEndIs(input, i, s, k + 1);
    }
  }

  lemma {:induction false} DigitEndIs(input: string, i: int, s: string, k: int)
    requires Occurs(input, i, s) && 0 <= k <= |s| && (i + |s| < |input| ==> !IsDigit(input[i + |s|]))
    requires forall j :: 0 <= j < |s| ==> IsDigit(s[j])
    ensures DigitEnd(input, i + k) == i + |s|
    decreases |s| - k
  {
    if k < |s| {
      OccursAt(input, i, s, k);
      DigitEndIs(input, i, s, k + 1);
    }
  }

  /** A token at i with the rest of the text behind it. */
  lemma LexOne(input: string, i: int, w: Lexeme, rest: string, j: int)
    requires IsLexeme(w) && Apart(w, rest) && Occurs(input, i, w.text) && j == i + |w.text|
    requires Occurs(input, j, rest) && j + |rest| == |input|
    ensures Lex(input, i) == Got(Token(w.kind, i, j))
  {
    OccursAt(input, i, w.text, 0);
    if rest != "" {
      OccursAt(input, j, rest, 0);
    }
    match w.kind
    case Identifier => WordEndIs(input, i, w.text, 1);
    case Number => DigitEndIs(input, i, w.text, 1);
    case _ => LexMark(input, i, w, j);
  }

  lemma LexMark(input: string, i: int, w: Lexeme, j: int)
    requires IsLexeme(w) && !w.kind.Identifier? && !w.kind.Number?
    requires Occurs(input, i, w.text) && j == i + |w.text|
    requires |w.text| == 2 || j == |input| || !Pairs(w.text[0], input[j])
    ensures Lex(input, i) == Got(Token(w.kind, i, j))
  {
    OccursAt(input, i, w.text, 0);
    if |w.text| == 2 {
      OccursAt(input, i, w.text, 1);
    }
  }

  lemma LexesCons(input: string, i: int, w: Lexeme, k: int, ws: seq<Lexeme>, all: seq<Lexeme>, j: int)
    requires 0 <= i < k <= |input| && Lex(input, i) == Got(Token(w.kind, i, k)) && input[i..k] == w.text
    requires Lexes(input, k, ws, j) && all == [w] + ws
    ensures Lexes(input, i, all, j)
  {
    assert all[1..] == ws;
  }

  lemma LexesAfter(input: string, i: int, m: int, ws: seq<Lexeme>, j: int)
    requires 0 <= i <= |input| && ws != [] && Lexes(input, m, ws, j) && Lex(input, i) == Lex(input, m)
    ensures Lexes(input, i, ws, j)
  {
  }

  /** A spaced text has the tokens it was made of, and nothing after them. */
  lemma {:induction false} SpellLexes(input: string, i: int, ps: seq<Piece>, gap: string, text: string, j: int)
    requires Spaced(ps, gap) && text == Spell(ps, gap) && Occurs(input, i, text)
    requires i + |text| == |input| && j + |gap| == |input|
    ensures Lexes(input, i, Tokens(ps), j) && Lex(input, j).Missing?
    decreases |ps|
  {
    if ps == [] {
      LexGap(input, i, gap, 0);
    } else {
      var w, rest := ps[0].lexeme, Spell(ps[1..], gap);
      var m := i + |ps[0].gap|;
      var k := m + |w.text|;
      PieceLexes(input, i, ps[0], rest, m, k, text);
      SpellLexes(input, k, ps[1..], gap, rest, j);
      LexesCons(input, m, w, k, Tokens(ps[1..]), Tokens(ps), j);
      LexesAfter(input, i, m, Tokens(ps), j);
    }
  }

  lemma PieceLexes(input: string, i: int, p: Piece, rest: string, m: int, k: int, text: string)
    requires IsGap(p.gap) && IsLexeme(p.lexeme) && Apart(p.lexeme, rest)
    requires text == p.gap + (p.lexeme.text + rest) && Occurs(input, i, text) && i + |text| == |input|
    requires m == i + |p.gap| && k == m + |p.lexeme.text|
    ensures 0 <= i <= m < k <= |input| && input[m..k] == p.lexeme.text
    ensures Lex(input, i) == Lex(input, m) == Got(Token(p.lexeme.kind, m, k))
    ensures Occurs(input, k, rest) && k + |rest| == |input|
  {
    OccursSplit(input, i, p.gap, p.lexeme.text + rest, m, text);
    OccursSplit(input, m, p.lexeme.text, rest, k, p.lexeme.text + rest);
    LexGap(input, i, p.gap, 0);
    LexOne(input, m, p.lexeme, rest, k);
  }

  lemma WholeSpelling(ps: seq<Piece>, gap: string, s: string, j: int)
    requires Spaced(ps, gap) && s == Spell(ps, gap) && j == |s| - |gap|
    ensures Lexes(s, 0, Tokens(ps), j) && Lex(s, j).Missing?
  {
    SpellLexes(s, 0, ps, gap, s, j);
  }

  /** From a tree to text, with any gap at each place, and back. */
  lemma SpellRoundTrip(e: Expr, ps: seq<Piece>, gap: string, s: string, j: int)
    requires Printable(e) && Tokens(ps) == Lexemes(e, LOWEST) && Spaced(ps, gap)
    requires s == Spell(ps, gap) && j == |s| - |gap|
    ensures Expression(s, 0, LOWEST) == Ok(e, j)
  {
    WholeSpelling(ps, gap, s, j);
    RoundTrip(s, e, j);
  }

  lemma SpellProgram(stmts: seq<Stmt>, ps: seq<Piece>, gap: string, s: string)
    requires AllPrintable(stmts) && Tokens(ps) == BodyLexemes(stmts) && Spaced(ps, gap)
    requires s == Spell(ps, gap)
    ensures Body(s, 0) == OkBody(stmts)
  {
    WholeSpelling(ps, gap, s, |s| - |gap|);
    ProgramRoundTrip(s, stmts, |s| - |gap|);
  }

  // ---------- the fewest parentheses ----------

  lemma {:induction false} WordNoOpen(input: string, i: int)
    requires 0 <= i <= |input|
    ensures Opens(input, i, WordEnd(input, i)) == 0 && Opens(input, i, DigitEnd(input, i)) == 0
    decreases |input| - i
  {
    if i < |input| {
      WordNoOpen(input, i + 1);
    }
  }

  /** Up to the end of the next token there is one if the token is one, and else none. */
  lemma {:induction false} TokenOpens(input: string, i: int)
    requires 0 <= i <= |input| && Lex(input, i).Got?
    ensures var t := Lex(input, i).token; Opens(input, i, t.end) == if t.kind.LeftParen? then 1 else 0
    decreases |input| - i
  {
    if TokenStart(input[i]) {
      WordNoOpen(input, i + 1);
      if IsMark(input[i]) {
        MarkOpens(input, i);
      }
    } else {
      TokenOpens(input, i + 1);
    }
  }

  lemma MarkOpens(input: string, i: int)
    requires 0 <= i < |input| && IsMark(input[i])
    ensures var t := Scan(input, i); Opens(input, i, t.end) == if t.kind.LeftParen? then 1 else 0
  {
    var t := Scan(input, i);
    assert Opens(input, t.end, t.end) == 0;
    if t.end == i + 2 {
      assert Opens(input, i + 1, t.end) == 0;
    }
  }

  /** The pairs of parentheses among the tokens of an expression. */
  function Parens(e: Expr, p: int): (n: nat)
    decreases e, 1
  {
    if !e.Bin? then 0 else BareParens(e) + if Prec(e.op) <= p then 1 else 0
  }

  function BareParens(e: Expr): (n: nat)
    requires e.Bin?
    decreases e, 0
  {
    Parens(e.left, Prec(e.op) - 1) + Parens(e.right, Prec(e.op))
  }

  /** A text with the tokens of an expression has as many as they have. */
  lemma {:induction false} LexemesOpens(input: string, i: int, e: Expr, p: int, j: int)
    requires Lexes(input, i, Lexemes(e, p), j)
    ensures Opens(input, i, j) == Parens(e, p)
    decreases e, 1
  {
    if !e.Bin? {
      OneLexeme(input, i, Lexemes(e, p)[0], j);
      TokenOpens(input, i);
    } else if Prec(e.op) <= p {
      var m := LexesSplit(input, i, [OPEN], Bare(e) + [CLOSE], [OPEN] + (Bare(e) + [CLOSE]), j);
      var k := LexesSplit(input, m, Bare(e), [CLOSE], Bare(e) + [CLOSE], j);
      OneOpens(input, i, OPEN, m);
      OneOpens(input, k, CLOSE, j);
      BareOpens(input, m, e, k);
      OpensSplit(input, i, m, j);
      OpensSplit(input, m, k, j);
    } else {
      BareOpens(input, i, e, j);
    }
  }

  lemma OneOpens(input: string, i: int, w: Lexeme, j: int)
    requires Lexes(input, i, [w], j)
    ensures Opens(input, i, j) == if w.kind.LeftParen? then 1 else 0
  {
    OneLexeme(input, i, w, j);
    TokenOpens(input, i);
  }

  lemma {:induction false} BareOpens(input: string, i: int, e: Expr, j: int)
    requires e.Bin? && Lexes(input, i, Bare(e), j)
    ensures Opens(input, i, j) == BareParens(e)
    decreases e, 0
  {
    var q, w := Prec(e.op), Lexeme(Operator, [e.op]);
    var l, r := Lexemes(e.left, q - 1), Lexemes(e.right, q);
    var m := LexesSplit(input, i, l, [w] + r, l + ([w] + r), j);
    var k := LexesSplit(input, m, [w], r, [w] + r, j);
    OneOpens(input, m, w, k);
    LexemesOpens(input, i, e.left, q - 1, m);
    LexemesOpens(input, k, e.right, q, j);
    OpensSplit(input, i, m, j);
    OpensSplit(input, m, k, j);
  }

  /** Where an expression ends, no operator binds tight enough to go on. */
  lemma {:induction false} MoreStops(input: string, left: Expr, i: int, prec: int)
    requires 0 <= i <= |input| && 0 <= prec && More(input, left, i, prec).Ok?
    ensures NextPrec(input, More(input, left, i, prec).index) <= prec
    decreases |input| - i
  {
    if prec < NextPrec(input, i) && Lex(input, i).Got? {
      var r := Infix(input, left, i);
      MoreStops(input, r.expr, r.index, prec);
    }
  }

  /** What the loop has on its left costs c parentheses: it could stand anywhere, or its operator
      binds tighter than prec and no looser than the one that comes next. */
  predicate Paid(input: string, left: Expr, i: int, prec: int, c: int)
    requires 0 <= i <= |input|
  {
    || c >= Parens(left, PRODUCT)
    || (left.Bin? && c >= BareParens(left) && prec < Prec(left.op) && NextPrec(input, i) <= Prec(left.op))
  }

  /** Whatever parses to an expression has at least as many parentheses as the tokens given for it. */
  lemma {:induction false} ExpressionOpens(input: string, i: int, prec: int)
    requires 0 <= i <= |input| && 0 <= prec <= PRODUCT && Expression(input, i, prec).Ok?
    ensures var r := Expression(input, i, prec); Opens(input, i, r.index) >= Parens(r.expr, prec)
    decreases |input| - i, 2
  {
    var p := Prefix(input, i);
    PrefixOpens(input, i);
    MoreOpens(input, p.expr, p.index, prec, Opens(input, i, p.index));
    OpensSplit(input, i, p.index, Expression(input, i, prec).index);
  }

  lemma {:induction false} PrefixOpens(input: string, i: int)
    requires 0 <= i <= |input| && Prefix(input, i).Ok?
    ensures var p := Prefix(input, i); Opens(input, i, p.index) >= Parens(p.expr, PRODUCT)
    decreases |input| - i, 1
  {
    var t := Lex(input, i).token;
    if t.kind.LeftParen? {
      var e := Expression(input, t.end, LOWEST);
      TokenOpens(input, i);
      ExpressionOpens(input, t.end, LOWEST);
      OpensSplit(input, i, t.end, Prefix(input, i).index);
      OpensSplit(input, t.end, e.index, Prefix(input, i).index);
    }
  }

  lemma {:induction false} MoreOpens(input: string, left: Expr, i: int, prec: int, c: int)
    requires 0 <= i <= |input| && 0 <= prec <= PRODUCT && More(input, left, i, prec).Ok? &&
      Paid(input, left, i, prec, c)
    ensures var r := More(input, left, i, prec); c + Opens(input, i, r.index) >= Parens(r.expr, prec)
    decreases |input| - i, 3
  {
    if prec < NextPrec(input, i) && Lex(input, i).Got? {
      var r := Infix(input, left, i);
      InfixOpens(input, left, i, prec, c);
      MoreOpens(input, r.expr, r.index, prec, c + Opens(input, i, r.index));
      OpensSplit(input, i, r.index, More(input, left, i, prec).index);
    }
  }

  lemma {:induction false} InfixOpens(input: string, left: Expr, i: int, prec: int, c: int)
    requires 0 <= i <= |input| && 0 <= prec < NextPrec(input, i) && Infix(input, left, i).Ok?
    requires Paid(input, left, i, prec, c)
    ensures var r := Infix(input, left, i); Paid(input, r.expr, r.index, prec, c + Opens(input, i, r.index))
    decreases |input| - i, 2
  {
    var t := Lex(input, i).token;
    var q := TokenPrec(input, t);
    var right := Expression(input, t.end, q);
    ExpressionOpens(input, t.end, q);
    OpensSplit(input, i, t.end, right.index);
    var p := Prefix(input, t.end);
    MoreStops(input, p.expr, p.index, q);
  }

  /** No text that parses to an expression has fewer parentheses than one with its tokens. */
  lemma FewestParens(input: string, e: Expr, j: int, other: string, k: int)
    requires Lexes(input, 0, Lexemes(e, LOWEST), j) && Expression(other, 0, LOWEST) == Ok(e, k)
    ensures Opens(input, 0, j) <= Opens(other, 0, k)
  {
    LexemesOpens(input, 0, e, LOWEST, j);
    ExpressionOpens(other, 0, LOWEST);
  }
}
